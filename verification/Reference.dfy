/** Cache-free evaluation.

    For a configuration without dependency loops the equations of `Values` have exactly one solution, for
    any user values.  `Evaluate` finds it by computing every property of every item over and over until
    nothing changes any more. */
module Reference {
  import opened Wrappers
  import opened Model
  import opened Values
  import opened Support
  import opened Transfer

  function Round(k: Config, us: Users, v: Valuation): Valuation {
    seq(|k.items|, x requires 0 <= x < |k.items| => Compute(k, us, v, x))
  }

  function Rounds(k: Config, us: Users, n: nat): (v: Valuation)
    ensures |v| == |k.items|
  {
    if n == 0 then seq(|k.items|, _ => NO_VAL) else Round(k, us, Rounds(k, us, n - 1))
  }

  function Highest(ranks: seq<nat>): (h: nat)
    ensures forall i :: 0 <= i < |ranks| ==> ranks[i] <= h
  {
    if ranks == [] then 0
    else
      var h := Highest(ranks[1..]);
      if ranks[0] > h then ranks[0] else h
  }

  function Enough(k: Config): nat {
    6 * Highest(k.order) + 10
  }

  function Evaluate(k: Config, us: Users): Valuation {
    Rounds(k, us, Enough(k) + 1)
  }

  // A state in which everything is cached.
  function Full(us: Users, v: Valuation): State {
    State(us, v, seq(|v|, x requires 0 <= x < |v| =>
      Cells(Some(v[x].vis), Some(v[x].tri), Some(v[x].str), Some(v[x].asg), Some(v[x].sel), v[x].write)))
  }

  ghost function Ids(k: Config): set<Id> {
    set x: Id {:trigger k.Item(x)} | x < |k.items|
  }

  lemma {:induction false} FullExpr(k: Config, us: Users, v: Valuation, e: Expr)
    requires |v| == |k.items| && k.modules < |k.items|
    requires Refs(e) <= Ids(k)
    ensures ExprSupported(k, Full(us, v), e)
  {
    match e
    case Ref(id) => assert id in Refs(e);
    case And(l, r) => FullExpr(k, us, v, l); FullExpr(k, us, v, r);
    case Or(l, r) => FullExpr(k, us, v, l); FullExpr(k, us, v, r);
    case Not(o) => FullExpr(k, us, v, o);
    case Rel(_, l, r) => assert l in Refs(e) && r in Refs(e);
  }

  lemma {:induction false} FullPrompts(k: Config, us: Users, v: Valuation, es: seq<Expr>)
    requires |v| == |k.items| && k.modules < |k.items| && AllRefs(es) <= Ids(k)
    ensures PromptsSupported(k, Full(us, v), es)
  {
    if es != [] {
      FullExpr(k, us, v, es[0]);
      FullPrompts(k, us, v, es[1..]);
    }
  }

  lemma {:induction false} FullFirstDefault(k: Config, us: Users, v: Valuation, ds: seq<ChoiceDefault>)
    requires |v| == |k.items| && k.modules < |k.items| && CondRefs(ds) <= Ids(k)
    requires forall d :: d in ds ==> d.sym < |k.items|
    ensures FirstDefaultSupported(k, Full(us, v), ds)
  {
    if ds != [] {
      assert ds[0] in ds;
      FullExpr(k, us, v, ds[0].cond);
      FullFirstDefault(k, us, v, ds[1..]);
    }
  }

  lemma {:induction false} FullFirstVisible(k: Config, us: Users, v: Valuation, syms: seq<Id>)
    requires |v| == |k.items| && forall x :: x in syms ==> x < |k.items|
    ensures FirstVisibleSupported(Full(us, v), syms)
  {
    if syms != [] {
      assert forall x :: x in syms[1..] ==> x in syms;
      assert syms[0] in syms;
      FullFirstVisible(k, us, v, syms[1..]);
    }
  }

  lemma {:induction false} FullDefaults(k: Config, us: Users, v: Valuation, ds: seq<Default>)
    requires |v| == |k.items| && k.modules < |k.items| && DefaultRefs(ds) <= Ids(k)
    ensures ActiveDefaultSupported(k, Full(us, v), ds)
    ensures DefaultTriSupported(k, Full(us, v), ds) && DefaultStrSupported(k, Full(us, v), ds)
  {
    if ds != [] {
      FullExpr(k, us, v, ds[0].cond);
      FullExpr(k, us, v, ds[0].value);
      FullDefaults(k, us, v, ds[1..]);
    }
  }

  lemma {:induction false} FullRanges(k: Config, us: Users, v: Valuation, rs: seq<Range>)
    requires |v| == |k.items| && k.modules < |k.items| && RangeRefs(rs) <= Ids(k)
    ensures ActiveRangeSupported(k, Full(us, v), rs)
  {
    if rs != [] {
      assert rs[0].low in RangeRefs(rs) && rs[0].high in RangeRefs(rs);
      FullExpr(k, us, v, rs[0].cond);
      FullRanges(k, us, v, rs[1..]);
    }
  }

  // When everything is cached, everything is supported.
  lemma FullSymbol(k: Config, us: Users, v: Valuation, x: Id)
    requires WellFormed(k) && |v| == |k.items| && x < |k.items| && k.Item(x).Symbol? && k.Item(x).defined
    ensures var s := Full(us, v);
      VisSupported(k, s, x) && TriSupported(k, s, x) && StrSupported(k, s, x) && AsgSupported(k, s, x)
  {
    assert ItemOk(k, x);
    var it := k.Item(x);
    assert ItemRefs(it) <= Ids(k);
    FullPrompts(k, us, v, it.prompts);
    FullExpr(k, us, v, it.revDep);
    FullExpr(k, us, v, it.weakRevDep);
    FullTri(k, us, v, x);
    FullStr(k, us, v, x);
  }

  lemma FullTri(k: Config, us: Users, v: Valuation, x: Id)
    requires WellFormed(k) && |v| == |k.items| && x < |k.items| && k.Item(x).Symbol? && k.Item(x).defined
    ensures TriSupported(k, Full(us, v), x)
  {
    assert ItemOk(k, x);
    var it := k.Item(x);
    assert ItemRefs(it) <= Ids(k);
    FullDefaults(k, us, v, it.defaults);
    FullExpr(k, us, v, it.revDep);
    FullExpr(k, us, v, it.weakRevDep);
    FullExpr(k, us, v, it.directDep);
  }

  lemma FullStr(k: Config, us: Users, v: Valuation, x: Id)
    requires WellFormed(k) && |v| == |k.items| && x < |k.items| && k.Item(x).Symbol? && k.Item(x).defined
    ensures StrSupported(k, Full(us, v), x)
  {
    assert ItemOk(k, x);
    var it := k.Item(x);
    assert ItemRefs(it) <= Ids(k);
    FullDefaults(k, us, v, it.defaults);
    FullRanges(k, us, v, it.ranges);
  }

  lemma FullUndefined(k: Config, us: Users, v: Valuation, x: Id)
    requires WellFormed(k) && |v| == |k.items| && x < |k.items| && k.Item(x).Symbol? && !k.Item(x).defined
    ensures var s := Full(us, v);
      VisSupported(k, s, x) && TriSupported(k, s, x) && StrSupported(k, s, x)
  {
    assert ItemOk(k, x);
  }

  lemma FullChoice(k: Config, us: Users, v: Valuation, c: Id)
    requires WellFormed(k) && |v| == |k.items| && c < |k.items| && k.Item(c).Choice? && SelectionOk(k, us, c)
    ensures var s := Full(us, v);
      VisSupported(k, s, c) && ModeReadable(k, s, c) && SelSupported(k, s, c) && AsgSupported(k, s, c)
  {
    assert ItemOk(k, c);
    assert ItemRefs(k.Item(c)) <= Ids(k);
    FullPrompts(k, us, v, k.Item(c).prompts);
    FullSelection(k, us, v, c);
  }

  lemma FullSelection(k: Config, us: Users, v: Valuation, c: Id)
    requires WellFormed(k) && |v| == |k.items| && c < |k.items| && k.Item(c).Choice? && SelectionOk(k, us, c)
    ensures SelSupported(k, Full(us, v), c)
  {
    FullDefaultSelection(k, us, v, c);
    if UserOf(us, c).selection.Some? {
      KnownMember(k, c, UserOf(us, c).selection.value);
    }
  }

  lemma KnownMember(k: Config, c: Id, x: Id)
    requires WellFormed(k) && c < |k.items| && k.Item(c).Choice? && x in k.Item(c).syms
    ensures x < |k.items|
  {
    assert ItemOk(k, c);
  }

  lemma FullDefaultSelection(k: Config, us: Users, v: Valuation, c: Id)
    requires WellFormed(k) && |v| == |k.items| && c < |k.items| && k.Item(c).Choice?
    ensures DefaultSelectionSupported(k, Full(us, v), c)
  {
    assert ItemOk(k, c);
    var it := k.Item(c);
    assert ItemRefs(it) <= Ids(k);
    FullFirstDefault(k, us, v, it.choiceDefaults);
    FullFirstVisible(k, us, v, it.syms);
  }

  // Both valuations agree on everything evaluated before place `m`.
  ghost predicate AgreeAt(k: Config, m: int, v1: Valuation, v2: Valuation, y: Id) {
    && (Place(k, y, VIS) < m ==> ValOf(v1, y).vis == ValOf(v2, y).vis)
    && (Place(k, y, if k.Item(y).Choice? then MODE else TRI) < m ==> ValOf(v1, y).tri == ValOf(v2, y).tri)
    && (Place(k, y, STR) < m ==> ValOf(v1, y).str == ValOf(v2, y).str)
    && (Place(k, y, SEL) < m ==> ValOf(v1, y).sel == ValOf(v2, y).sel)
  }

  ghost predicate Agree(k: Config, m: int, v1: Valuation, v2: Valuation) {
    forall y: Id :: y < |k.items| ==> AgreeAt(k, m, v1, v2, y)
  }

  ghost predicate SelectionsOk(k: Config, us: Users) {
    forall c: Id :: c < |k.items| ==> SelectionOk(k, us, c)
  }

  ghost predicate Good(k: Config, us: Users) {
    WellFormed(k) && Ordered(k) && SelectionsOk(k, us)
  }

  lemma FullCarries(k: Config, us: Users, m: int, n: int, v1: Valuation, v2: Valuation)
    requires Good(k, us) && |v1| == |v2| == |k.items| && Agree(k, m, v1, v2) && n <= m
    ensures Carries(k, Ids(k), n, Full(us, v1), Full(us, v2))
  {
    forall y | y in Ids(k) ensures CarriesAt(k, n, Full(us, v1), Full(us, v2), y) {
      FullCarriesAt(k, us, m, n, v1, v2, y);
    }
  }

  lemma FullCarriesAt(k: Config, us: Users, m: int, n: int, v1: Valuation, v2: Valuation, y: Id)
    requires |v1| == |v2| == |k.items| && Agree(k, m, v1, v2) && n <= m && y < |k.items|
    ensures CarriesAt(k, n, Full(us, v1), Full(us, v2), y)
  {
    assert AgreeAt(k, m, v1, v2, y);
  }

  lemma ComputeVis(k: Config, us: Users, v1: Valuation, v2: Valuation, x: Id)
    requires Good(k, us) && |v1| == |v2| == |k.items| && x < |k.items| && Agree(k, Place(k, x, VIS), v1, v2)
    ensures Visibility(k, v1, x) == Visibility(k, v2, x)
  {
    assert ItemOk(k, x);
    FullCarries(k, us, Place(k, x, VIS), Place(k, x, VIS), v1, v2);
    if k.Item(x).Choice? {
      assert SelectionOk(k, us, x);
      FullChoice(k, us, v1, x);
    } else if k.Item(x).defined {
      FullSymbol(k, us, v1, x);
    } else {
      FullUndefined(k, us, v1, x);
    }
    TransferVis(k, Ids(k), Full(us, v1), Full(us, v2), x);
  }

  lemma ComputeSym(k: Config, us: Users, v1: Valuation, v2: Valuation, x: Id)
    requires Good(k, us) && |v1| == |v2| == |k.items| && x < |k.items| && k.Item(x).Symbol?
    ensures Agree(k, Place(k, x, TRI), v1, v2) ==> SymTri(k, us, v1, x) == SymTri(k, us, v2, x)
    ensures Agree(k, Place(k, x, STR), v1, v2) ==> SymText(k, us, v1, x) == SymText(k, us, v2, x)
  {
    assert ItemOk(k, x);
    var s1, s2 := Full(us, v1), Full(us, v2);
    if k.Item(x).defined {
      FullSymbol(k, us, v1, x);
    } else {
      FullUndefined(k, us, v1, x);
    }
    if Agree(k, Place(k, x, TRI), v1, v2) {
      FullCarries(k, us, Place(k, x, TRI), Place(k, x, TRI), v1, v2);
      TransferTri(k, Ids(k), s1, s2, x);
    }
    if Agree(k, Place(k, x, STR), v1, v2) {
      FullCarries(k, us, Place(k, x, STR), Place(k, x, STR), v1, v2);
      TransferStr(k, Ids(k), s1, s2, x);
    }
  }

  lemma ComputeChoice(k: Config, us: Users, v1: Valuation, v2: Valuation, c: Id)
    requires Good(k, us) && |v1| == |v2| == |k.items| && c < |k.items| && k.Item(c).Choice?
    ensures Agree(k, Place(k, c, MODE), v1, v2) ==> Mode(k, us, v1, c) == Mode(k, us, v2, c)
    ensures Agree(k, Place(k, c, SEL), v1, v2) ==> Selection(k, us, v1, c) == Selection(k, us, v2, c)
  {
    assert ItemOk(k, c);
    assert SelectionOk(k, us, c);
    FullChoice(k, us, v1, c);
    if Agree(k, Place(k, c, MODE), v1, v2) {
      FullCarries(k, us, Place(k, c, MODE), Place(k, c, MODE), v1, v2);
      TransferMode(k, Full(us, v1), Full(us, v2), c);
    }
    if Agree(k, Place(k, c, SEL), v1, v2) {
      FullCarries(k, us, Place(k, c, SEL), Place(k, c, SEL), v1, v2);
      TransferSel(k, Ids(k), Full(us, v1), Full(us, v2), c);
    }
  }

  lemma AgreeLess(k: Config, m: int, n: int, v1: Valuation, v2: Valuation)
    requires Agree(k, m, v1, v2) && n <= m
    ensures Agree(k, n, v1, v2)
  {
    forall y: Id | y < |k.items| ensures AgreeAt(k, n, v1, v2, y) {
      assert AgreeAt(k, m, v1, v2, y);
    }
  }

  // One more round settles whatever comes next in the evaluation order.
  lemma RoundAgrees(k: Config, us: Users, m: int, n: int, v1: Valuation, v2: Valuation)
    requires Good(k, us) && |v1| == |v2| == |k.items| && Agree(k, m, v1, v2) && n == m + 1
    ensures Agree(k, n, Round(k, us, v1), Round(k, us, v2))
  {
    var r1, r2 := Round(k, us, v1), Round(k, us, v2);
    forall x: Id | x < |k.items| ensures AgreeAt(k, n, r1, r2, x) {
      RoundAgreesAt(k, us, m, n, v1, v2, x);
    }
  }

  lemma RoundAgreesAt(k: Config, us: Users, m: int, n: int, v1: Valuation, v2: Valuation, x: Id)
    requires Good(k, us) && |v1| == |v2| == |k.items| && Agree(k, m, v1, v2) && x < |k.items| && n == m + 1
    ensures AgreeAt(k, n, Round(k, us, v1), Round(k, us, v2), x)
  {
    if Place(k, x, VIS) <= m {
      AgreeLess(k, m, Place(k, x, VIS), v1, v2);
      ComputeVis(k, us, v1, v2, x);
    }
    if k.Item(x).Choice? {
      ChoiceAgrees(k, us, m, v1, v2, x);
      assert AgreeAt(k, m, v1, v2, x);
    } else {
      SymbolAgrees(k, us, m, v1, v2, x);
    }
  }

  lemma ChoiceAgrees(k: Config, us: Users, m: int, v1: Valuation, v2: Valuation, c: Id)
    requires Good(k, us) && |v1| == |v2| == |k.items| && Agree(k, m, v1, v2) && c < |k.items| && k.Item(c).Choice?
    ensures Place(k, c, MODE) <= m ==> Mode(k, us, v1, c) == Mode(k, us, v2, c)
    ensures Place(k, c, SEL) <= m ==> Selection(k, us, v1, c) == Selection(k, us, v2, c)
  {
    ComputeChoice(k, us, v1, v2, c);
    if Place(k, c, MODE) <= m {
      AgreeLess(k, m, Place(k, c, MODE), v1, v2);
    }
    if Place(k, c, SEL) <= m {
      AgreeLess(k, m, Place(k, c, SEL), v1, v2);
    }
  }

  lemma SymbolAgrees(k: Config, us: Users, m: int, v1: Valuation, v2: Valuation, x: Id)
    requires Good(k, us) && |v1| == |v2| == |k.items| && Agree(k, m, v1, v2) && x < |k.items| && k.Item(x).Symbol?
    ensures Place(k, x, TRI) <= m ==> SymTri(k, us, v1, x) == SymTri(k, us, v2, x)
    ensures Place(k, x, STR) <= m ==> SymText(k, us, v1, x) == SymText(k, us, v2, x)
  {
    ComputeSym(k, us, v1, v2, x);
    if Place(k, x, TRI) <= m {
      AgreeLess(k, m, Place(k, x, TRI), v1, v2);
    }
    if Place(k, x, STR) <= m {
      AgreeLess(k, m, Place(k, x, STR), v1, v2);
    }
  }

  lemma UndefinedInvisible(k: Config, v: Valuation, x: Id)
    requires WellFormed(k) && x < |k.items| && k.Item(x).Symbol? && !k.Item(x).defined
    ensures Visibility(k, v, x) == 0
  {
    assert ItemOk(k, x);
  }

  // Once all the values that others read agree, so does everything else.
  lemma ComputeAgrees(k: Config, us: Users, v1: Valuation, v2: Valuation, x: Id)
    requires Good(k, us) && |v1| == |v2| == |k.items| && x < |k.items| && Agree(k, Enough(k), v1, v2)
    requires k.Item(x).Symbol? && !k.Item(x).defined ==> ValOf(v1, x).vis == 0
    ensures Compute(k, us, v1, x) == Compute(k, us, v2, x)
  {
    RankBounded(k, x);
    AgreeLess(k, Enough(k), Place(k, x, VIS), v1, v2);
    ComputeVis(k, us, v1, v2, x);
    assert ItemOk(k, x);
    assert AgreeAt(k, Enough(k), v1, v2, x);
    if k.Item(x).Choice? {
      AgreeLess(k, Enough(k), Place(k, x, MODE), v1, v2);
      AgreeLess(k, Enough(k), Place(k, x, SEL), v1, v2);
      ComputeChoice(k, us, v1, v2, x);
      FullCarries(k, us, Enough(k), Place(k, x, ASG), v1, v2);
      assert SelectionOk(k, us, x);
      FullChoice(k, us, v1, x);
      TransferChoiceAsg(k, Ids(k), Full(us, v1), Full(us, v2), x);
    } else {
      AgreeLess(k, Enough(k), Place(k, x, TRI), v1, v2);
      AgreeLess(k, Enough(k), Place(k, x, STR), v1, v2);
      ComputeSym(k, us, v1, v2, x);
      AsgAgrees(k, us, v1, v2, x);
    }
  }

  lemma AsgAgrees(k: Config, us: Users, v1: Valuation, v2: Valuation, x: Id)
    requires Good(k, us) && |v1| == |v2| == |k.items| && x < |k.items| && Agree(k, Enough(k), v1, v2)
    requires k.Item(x).Symbol? && (!k.Item(x).defined ==> ValOf(v1, x).vis == 0)
    ensures SymAssignable(k, v1, x) == SymAssignable(k, v2, x)
  {
    assert ItemOk(k, x);
    RankBounded(k, x);
    assert AgreeAt(k, Enough(k), v1, v2, x);
    if k.Item(x).defined {
      FullCarries(k, us, Enough(k), Place(k, x, ASG), v1, v2);
      FullSymbol(k, us, v1, x);
      TransferSymAsg(k, Ids(k), Full(us, v1), Full(us, v2), x);
    }
  }

  lemma RankBounded(k: Config, x: Id)
    ensures k.Rank(x) <= Highest(k.order)
  {
  }

  lemma RoundsNext(k: Config, us: Users, n: nat, next: nat)
    requires next == n + 1
    ensures Rounds(k, us, next) == Round(k, us, Rounds(k, us, n))
  {
  }

  lemma RoundsAdvance(k: Config, us: Users, n0: nat, n1: nat, n2: nat)
    requires Good(k, us) && n1 == n0 + 1 && n2 == n1 + 1 && Agree(k, n0, Rounds(k, us, n0), Rounds(k, us, n1))
    ensures Agree(k, n1, Rounds(k, us, n1), Rounds(k, us, n2))
  {
    RoundsNext(k, us, n0, n1);
    RoundsNext(k, us, n1, n2);
    RoundAgrees(k, us, n0, n1, Rounds(k, us, n0), Rounds(k, us, n1));
  }

  lemma {:induction false} RoundsSettle(k: Config, us: Users, n: nat, next: nat)
    requires Good(k, us) && next == n + 1
    ensures Agree(k, n, Rounds(k, us, n), Rounds(k, us, next))
    decreases n
  {
    if n == 0 {
      AgreeZero(k, n, Rounds(k, us, n), Rounds(k, us, next));
    } else {
      var prev: nat := n - 1;
      RoundsSettle(k, us, prev, n);
      RoundsAdvance(k, us, prev, n, next);
    }
  }

  lemma SettledAt(k: Config, us: Users, v0: Valuation, v1: Valuation, v2: Valuation, x: Id)
    requires Good(k, us) && |v0| == |k.items| && v1 == Round(k, us, v0) && v2 == Round(k, us, v1)
    requires Agree(k, Enough(k), v1, v2) && x < |k.items|
    ensures v2[x] == Compute(k, us, v2, x)
  {
    if k.Item(x).Symbol? && !k.Item(x).defined {
      UndefinedInvisible(k, v0, x);
    }
    ComputeAgrees(k, us, v1, v2, x);
  }

  // Existence: evaluation reaches a valuation that satisfies every equation.
  lemma EvaluateSolves(k: Config, us: Users)
    requires Good(k, us)
    ensures Solves(k, us, Evaluate(k, us))
  {
    var n0, n1, n2 := Enough(k) - 1, Enough(k), Enough(k) + 1;
    var v0, v1, v2 := Rounds(k, us, n0), Rounds(k, us, n1), Rounds(k, us, n2);
    RoundsNext(k, us, n0, n1);
    RoundsNext(k, us, n1, n2);
    RoundsSettle(k, us, n1, n2);
    forall x: Id | x < |k.items| ensures v2[x] == Compute(k, us, v2, x) {
      SettledAt(k, us, v0, v1, v2, x);
    }
  }

  lemma SolutionStable(k: Config, us: Users, v: Valuation)
    requires Solves(k, us, v)
    ensures Round(k, us, v) == v
  {
  }

  lemma AgreeZero(k: Config, m: nat, v1: Valuation, v2: Valuation)
    requires m == 0
    ensures Agree(k, m, v1, v2)
  {
  }

  lemma FixpointStep(k: Config, us: Users, m: nat, n: nat, v1: Valuation, v2: Valuation)
    requires Good(k, us) && Round(k, us, v1) == v1 && Round(k, us, v2) == v2 && Agree(k, m, v1, v2) && n == m + 1
    ensures Agree(k, n, v1, v2)
  {
    RoundAgrees(k, us, m, n, v1, v2);
  }

  lemma {:induction false} FixpointsAgree(k: Config, us: Users, m: nat, v1: Valuation, v2: Valuation)
    requires Good(k, us) && Round(k, us, v1) == v1 && Round(k, us, v2) == v2
    ensures Agree(k, m, v1, v2)
  {
    if m == 0 {
      AgreeZero(k, m, v1, v2);
    } else {
      var prev: nat := m - 1;
      FixpointsAgree(k, us, prev, v1, v2);
      FixpointStep(k, us, prev, m, v1, v2);
    }
  }

  // Uniqueness: no other valuation does.
  lemma SolutionUnique(k: Config, us: Users, v: Valuation)
    requires Good(k, us) && Solves(k, us, v)
    ensures v == Evaluate(k, us)
  {
    EvaluateSolves(k, us);
    SolutionStable(k, us, v);
    SolutionStable(k, us, Evaluate(k, us));
    FixpointsAgree(k, us, Enough(k), v, Evaluate(k, us));
    forall x: Id | x < |k.items| ensures v[x] == Evaluate(k, us)[x] {
      if k.Item(x).Symbol? && !k.Item(x).defined {
        UndefinedInvisible(k, v, x);
      }
      ComputeAgrees(k, us, v, Evaluate(k, us), x);
    }
  }

  // The equations, one at a time.

  lemma SolvedVis(k: Config, us: Users, x: Id)
    requires Good(k, us) && x < |k.items|
    ensures ValOf(Evaluate(k, us), x).vis == Visibility(k, Evaluate(k, us), x)
  {
    EvaluateSolves(k, us);
  }

  lemma PromptlessInvisible(k: Config, v: Valuation, x: Id)
    requires k.Item(x).prompts == []
    ensures Visibility(k, v, x) == 0
  {
  }

  lemma SolvedTri(k: Config, us: Users, x: Id)
    requires Good(k, us) && x < |k.items| && k.Item(x).Symbol?
    ensures ValOf(Evaluate(k, us), x).tri == SymTri(k, us, Evaluate(k, us), x).val
  {
    EvaluateSolves(k, us);
  }

  lemma SolvedStr(k: Config, us: Users, x: Id)
    requires Good(k, us) && x < |k.items| && k.Item(x).Symbol?
    ensures ValOf(Evaluate(k, us), x).str == SymText(k, us, Evaluate(k, us), x).val
  {
    EvaluateSolves(k, us);
  }

  lemma SolvedWrite(k: Config, us: Users, x: Id)
    requires Good(k, us) && x < |k.items| && k.Item(x).Symbol?
    ensures ValOf(Evaluate(k, us), x).write
         == if k.Item(x).Logical() then SymTri(k, us, Evaluate(k, us), x).write
            else SymText(k, us, Evaluate(k, us), x).write
  {
    EvaluateSolves(k, us);
  }

  lemma SolvedAsg(k: Config, us: Users, x: Id)
    requires Good(k, us) && x < |k.items|
    ensures ValOf(Evaluate(k, us), x).asg
         == if k.Item(x).Choice? then ChoiceAssignable(k, Evaluate(k, us), x) else SymAssignable(k, Evaluate(k, us), x)
  {
    EvaluateSolves(k, us);
  }

  lemma SolvedChoice(k: Config, us: Users, c: Id)
    requires Good(k, us) && c < |k.items| && k.Item(c).Choice?
    ensures ValOf(Evaluate(k, us), c).tri == Mode(k, us, Evaluate(k, us), c)
    ensures ValOf(Evaluate(k, us), c).sel == Selection(k, us, Evaluate(k, us), c)
  {
    EvaluateSolves(k, us);
  }

  lemma SolvedRest(k: Config, us: Users, x: Id)
    requires Good(k, us) && x < |k.items|
    ensures k.Item(x).Choice? ==> ValOf(Evaluate(k, us), x).str == TriToStr(ValOf(Evaluate(k, us), x).tri)
    ensures k.Item(x).Symbol? ==> ValOf(Evaluate(k, us), x).sel == None
  {
    EvaluateSolves(k, us);
  }
}
