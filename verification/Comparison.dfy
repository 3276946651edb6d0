/** Comparing what two sets of user values mean, in evaluation order. */
module Comparison {
  import opened Wrappers
  import opened Model
  import opened Values
  import opened Support
  import opened Transfer
  import opened Reference

  // Everything but the user value that goes into the value of a symbol.
  ghost predicate SameIngredients(k: Config, v1: Valuation, v2: Valuation, x: Id) {
    var it := k.Item(x);
    && ValOf(v1, x).vis == ValOf(v2, x).vis
    && it.Symbol?
    && DefaultTri(k, v1, it.defaults) == DefaultTri(k, v2, it.defaults)
    && DefaultStr(k, v1, it.defaults) == DefaultStr(k, v2, it.defaults)
    && Implied(k, v1, x) == Implied(k, v2, x)
    && ExprValue(k, v1, it.revDep) == ExprValue(k, v2, it.revDep)
    && ExprValue(k, v1, it.weakRevDep) == ExprValue(k, v2, it.weakRevDep)
    && NeverM(k, v1, x) == NeverM(k, v2, x)
    && ActiveRange(k, v1, it.ranges, it.Base()) == ActiveRange(k, v2, it.ranges, it.Base())
  }

  lemma ExprAgrees(k: Config, us: Users, v1: Valuation, v2: Valuation, r: nat, e: Expr)
    requires Good(k, us) && |v1| == |v2| == |k.items| && Agree(k, 6 * r, v1, v2)
    requires Below(k, Ids(k), r, Refs(e)) && RelOk(k, e)
    ensures ExprValue(k, v1, e) == ExprValue(k, v2, e)
  {
    FullCarries(k, us, 6 * r, 6 * r, v1, v2);
    FullExpr(k, us, v1, e);
    TransferExpr(k, Ids(k), r, 6 * r, Full(us, v1), Full(us, v2), e);
  }

  lemma DefaultsAgree(k: Config, us: Users, v1: Valuation, v2: Valuation, r: nat, ds: seq<Default>)
    requires Good(k, us) && |v1| == |v2| == |k.items| && Agree(k, 6 * r, v1, v2) && DefaultsOk(k, Ids(k), r, ds)
    ensures DefaultTri(k, v1, ds) == DefaultTri(k, v2, ds) && DefaultStr(k, v1, ds) == DefaultStr(k, v2, ds)
  {
    FullCarries(k, us, 6 * r, 6 * r, v1, v2);
    FullDefaults(k, us, v1, ds);
    TransferDefaultTri(k, Ids(k), r, 6 * r, Full(us, v1), Full(us, v2), ds);
    TransferDefaultStr(k, Ids(k), r, 6 * r, Full(us, v1), Full(us, v2), ds);
  }

  lemma RangesAgree(k: Config, us: Users, v1: Valuation, v2: Valuation, r: nat, rs: seq<Range>, base: nat)
    requires Good(k, us) && |v1| == |v2| == |k.items| && Agree(k, 6 * r, v1, v2)
    requires Below(k, Ids(k), r, RangeRefs(rs)) && forall g :: g in rs ==> RelOk(k, g.cond)
    ensures ActiveRange(k, v1, rs, base) == ActiveRange(k, v2, rs, base)
  {
    FullCarries(k, us, 6 * r, 6 * r, v1, v2);
    FullRanges(k, us, v1, rs);
    TransferRange(k, Ids(k), r, 6 * r, Full(us, v1), Full(us, v2), rs, base);
  }

  lemma NeverMAgrees(k: Config, us: Users, v1: Valuation, v2: Valuation, x: Id)
    requires Good(k, us) && |v1| == |v2| == |k.items| && x < |k.items| && k.Item(x).Symbol? && k.Item(x).defined
    requires Agree(k, Place(k, x, TRI), v1, v2)
    requires ExprValue(k, v1, k.Item(x).weakRevDep) == ExprValue(k, v2, k.Item(x).weakRevDep)
    ensures NeverM(k, v1, x) == NeverM(k, v2, x)
  {
    assert ItemOk(k, x);
    if k.Item(x).ConsultsModules() {
      assert AgreeAt(k, Place(k, x, TRI), v1, v2, k.modules);
      if k.Item(x).InChoice() {
        assert AgreeAt(k, Place(k, x, TRI), v1, v2, k.Item(x).choice.value);
      }
    }
  }

  lemma IngredientsSame(k: Config, us: Users, v1: Valuation, v2: Valuation, x: Id)
    requires Good(k, us) && |v1| == |v2| == |k.items| && x < |k.items| && k.Item(x).Symbol? && k.Item(x).defined
    requires Agree(k, Place(k, x, TRI), v1, v2)
    ensures SameIngredients(k, v1, v2, x)
  {
    var it, r := k.Item(x), k.Rank(x);
    AgreeLess(k, Place(k, x, TRI), 6 * r, v1, v2);
    SymbolRefs(k, Ids(k), x) by { assert ItemOk(k, x); }
    DefaultsAgree(k, us, v1, v2, r, it.defaults);
    ExprAgrees(k, us, v1, v2, r, it.revDep);
    ExprAgrees(k, us, v1, v2, r, it.weakRevDep);
    ExprAgrees(k, us, v1, v2, r, it.directDep);
    NeverMAgrees(k, us, v1, v2, x);
    RangesAgree(k, us, v1, v2, r, it.ranges, it.Base()) by { assert ItemOk(k, x); }
    assert AgreeAt(k, Place(k, x, TRI), v1, v2, x);
  }

  // The next values in evaluation order agree if the equations give the same.
  lemma NextAgrees(k: Config, us1: Users, us2: Users, m: int, x: Id)
    requires Good(k, us1) && Good(k, us2) && x < |k.items|
    requires Agree(k, m, Evaluate(k, us1), Evaluate(k, us2))
    requires k.Item(x).Symbol? ==>
      && (Place(k, x, TRI) <= m ==> SymTri(k, us1, Evaluate(k, us1), x).val == SymTri(k, us2, Evaluate(k, us2), x).val)
      && (Place(k, x, STR) <= m
          ==> SymText(k, us1, Evaluate(k, us1), x).val == SymText(k, us2, Evaluate(k, us2), x).val)
    requires k.Item(x).Choice? ==>
      && (Place(k, x, MODE) <= m ==> Mode(k, us1, Evaluate(k, us1), x) == Mode(k, us2, Evaluate(k, us2), x))
      && (Place(k, x, SEL) <= m ==> Selection(k, us1, Evaluate(k, us1), x) == Selection(k, us2, Evaluate(k, us2), x))
    ensures AgreeAt(k, m + 1, Evaluate(k, us1), Evaluate(k, us2), x)
  {
    var v1, v2 := Evaluate(k, us1), Evaluate(k, us2);
    EvaluateSolves(k, us1);
    EvaluateSolves(k, us2);
    if Place(k, x, VIS) <= m {
      AgreeLess(k, m, Place(k, x, VIS), v1, v2);
      ComputeVis(k, us1, v1, v2, x);
    }
    assert AgreeAt(k, m, v1, v2, x);
  }

  lemma SameUserSymbol(k: Config, us1: Users, us2: Users, v: Valuation, x: Id)
    requires UserOf(us1, x) == UserOf(us2, x)
    ensures SymTri(k, us1, v, x) == SymTri(k, us2, v, x) && SymText(k, us1, v, x) == SymText(k, us2, v, x)
  {
  }

  lemma SameUserChoice(k: Config, us1: Users, us2: Users, v: Valuation, c: Id)
    requires UserOf(us1, c).value == UserOf(us2, c).value
    ensures Mode(k, us1, v, c) == Mode(k, us2, v, c)
    ensures UserOf(us1, c) == UserOf(us2, c) ==> Selection(k, us1, v, c) == Selection(k, us2, v, c)
  {
  }

  // An item with the same user values agrees as far as what it reads agrees.
  lemma SameUserAgrees(k: Config, us1: Users, us2: Users, m: int, x: Id)
    requires Good(k, us1) && Good(k, us2) && x < |k.items|
    requires Agree(k, m, Evaluate(k, us1), Evaluate(k, us2))
    requires UserOf(us1, x).value == UserOf(us2, x).value || m < Place(k, x, if k.Item(x).Choice? then MODE else TRI)
    requires UserOf(us1, x) == UserOf(us2, x) || m < Place(k, x, if k.Item(x).Choice? then SEL else TRI)
    ensures AgreeAt(k, m + 1, Evaluate(k, us1), Evaluate(k, us2), x)
  {
    var v1, v2 := Evaluate(k, us1), Evaluate(k, us2);
    if k.Item(x).Choice? {
      ComputeChoice(k, us1, v1, v2, x);
      if Place(k, x, MODE) <= m {
        SameUserChoice(k, us1, us2, v2, x);
        AgreeLess(k, m, Place(k, x, MODE), v1, v2);
      }
      if Place(k, x, SEL) <= m { AgreeLess(k, m, Place(k, x, SEL), v1, v2); }
    } else {
      ComputeSym(k, us1, v1, v2, x);
      if Place(k, x, TRI) <= m {
        AgreeLess(k, m, Place(k, x, TRI), v1, v2);
        SameUserSymbol(k, us1, us2, v2, x);
      }
      if Place(k, x, STR) <= m { AgreeLess(k, m, Place(k, x, STR), v1, v2); }
    }
    NextAgrees(k, us1, us2, m, x);
  }
}
