/** What is computed depends on nothing but what is read.

    If everything a computation reads is present in one state, and is present with the same value in
    another, then the computation gives the same result there and is supported there too.  Only values
    computed strictly before the one in question are looked at, which is what makes the lemmas usable as
    induction steps. */
module Transfer {
  import opened Wrappers
  import opened Model
  import opened Values
  import opened Support

  // The place of each property of an item in the evaluation order.
  function Place(k: Config, x: Id, phase: nat): nat {
    6 * k.Rank(x) + phase
  }

  const VIS := 1
  const MODE := 2
  const TRI := 3
  const STR := 4
  const ASG := 5
  const SEL := 8   // after the visibility of the choice symbols, which are ranked just above the choice

  ghost predicate CarriesAt(k: Config, m: int, s1: State, s2: State, y: Id) {
    && (VisLive(s1, y) && Place(k, y, VIS) < m ==>
          VisLive(s2, y) && ValOf(s1.v, y).vis == ValOf(s2.v, y).vis)
    && (TriReadable(k, s1, y) && Place(k, y, if k.Item(y).Choice? then MODE else TRI) < m ==>
          TriReadable(k, s2, y) && ValOf(s1.v, y).tri == ValOf(s2.v, y).tri)
    && (StrLive(s1, y) && Place(k, y, STR) < m ==>
          StrLive(s2, y) && ValOf(s1.v, y).str == ValOf(s2.v, y).str)
    && (SelLive(s1, y) && Place(k, y, SEL) < m ==>
          SelLive(s2, y) && ValOf(s1.v, y).sel == ValOf(s2.v, y).sel)
  }

  ghost predicate Carries(k: Config, S: set<Id>, m: int, s1: State, s2: State) {
    forall y :: y in S ==> CarriesAt(k, m, s1, s2, y)
  }

  // All of `refs` is carried over and ranked below `r`.
  ghost predicate Below(k: Config, S: set<Id>, r: int, refs: set<Id>) {
    refs <= S && forall y :: y in refs ==> k.Rank(y) < r
  }

  lemma {:induction false} TransferExpr(k: Config, S: set<Id>, r: int, m: int, s1: State, s2: State, e: Expr)
    requires Carries(k, S, m, s1, s2) && Below(k, S, r, Refs(e)) && 6 * r <= m && RelOk(k, e)
    requires ExprSupported(k, s1, e)
    ensures ExprSupported(k, s2, e) && ExprValue(k, s1.v, e) == ExprValue(k, s2.v, e)
  {
    match e
    case Ref(id) =>
      assert CarriesAt(k, m, s1, s2, id);
    case And(left, right) =>
      TransferExpr(k, S, r, m, s1, s2, left);
      if ExprValue(k, s1.v, left) != 0 {
        TransferExpr(k, S, r, m, s1, s2, right);
      }
    case Or(left, right) =>
      TransferExpr(k, S, r, m, s1, s2, left);
      if ExprValue(k, s1.v, left) != 2 {
        TransferExpr(k, S, r, m, s1, s2, right);
      }
    case Not(o) =>
      TransferExpr(k, S, r, m, s1, s2, o);
    case Rel(_, a, b) =>
      assert CarriesAt(k, m, s1, s2, a) && CarriesAt(k, m, s1, s2, b);
      TransferRel(k, m, s1, s2, a, b);
  }

  lemma TransferNum(k: Config, m: int, s1: State, s2: State, a: Id)
    requires CarriesAt(k, m, s1, s2, a) && Place(k, a, STR) < m && k.Item(a).Symbol?
    ensures NumReadable(k, s1, a) ==> NumReadable(k, s2, a) && SymToNum(k, s1.v, a) == SymToNum(k, s2.v, a)
    ensures StrLive(s1, a) ==> StrLive(s2, a) && ValOf(s1.v, a).str == ValOf(s2.v, a).str
  {
  }

  lemma TransferRel(k: Config, m: int, s1: State, s2: State, a: Id, b: Id)
    requires CarriesAt(k, m, s1, s2, a) && CarriesAt(k, m, s1, s2, b)
    requires Place(k, a, STR) < m && Place(k, b, STR) < m
    requires k.Item(a).Symbol? && k.Item(b).Symbol?
    requires RelSupported(k, s1, a, b)
    ensures RelSupported(k, s2, a, b) && Compare(k, s1.v, a, b) == Compare(k, s2.v, a, b)
  {
    TransferNum(k, m, s1, s2, a);
    TransferNum(k, m, s1, s2, b);
    if k.Item(a).origType == STRING && k.Item(b).origType == STRING {
    } else if SymToNum(k, s1.v, a).None? {
    } else {
    }
  }

  lemma {:induction false} TransferPrompts(k: Config, S: set<Id>, r: int, m: int, s1: State, s2: State, es: seq<Expr>)
    requires Carries(k, S, m, s1, s2) && Below(k, S, r, AllRefs(es)) && 6 * r <= m
    requires forall e :: e in es ==> RelOk(k, e)
    requires PromptsSupported(k, s1, es)
    ensures PromptsSupported(k, s2, es) && PromptMax(k, s1.v, es) == PromptMax(k, s2.v, es)
  {
    if es != [] {
      assert Below(k, S, r, Refs(es[0])) && Below(k, S, r, AllRefs(es[1..]));
      TransferExpr(k, S, r, m, s1, s2, es[0]);
      TransferPrompts(k, S, r, m, s1, s2, es[1..]);
    }
  }

  lemma TransferType(k: Config, m: int, s1: State, s2: State, x: Id)
    requires WellFormed(k) && Ordered(k) && x < |k.items| && Place(k, x, VIS) <= m
    requires !k.Item(x).Preset()
    requires CarriesAt(k, m, s1, s2, k.modules)
    requires k.Item(x).InChoice() ==> CarriesAt(k, m, s1, s2, k.Item(x).choice.value)
    requires TypeSupported(k, s1, x)
    ensures TypeSupported(k, s2, x) && TypeOf(k, s1.v, x) == TypeOf(k, s2.v, x)
  {
    assert ItemOk(k, x);
  }

  lemma TransferVis(k: Config, S: set<Id>, s1: State, s2: State, x: Id)
    requires WellFormed(k) && Ordered(k) && x < |k.items|
    requires Carries(k, S, Place(k, x, VIS), s1, s2) && k.modules in S && ItemRefs(k.Item(x)) <= S
    requires VisSupported(k, s1, x)
    ensures VisSupported(k, s2, x) && Visibility(k, s1.v, x) == Visibility(k, s2.v, x)
  {
    var it := k.Item(x);
    assert ItemOk(k, x);
    TransferPrompts(k, S, k.Rank(x), Place(k, x, VIS), s1, s2, it.prompts) by {
      PromptsBelow(k, S, x);
    }
    if it.InChoice() {
      assert CarriesAt(k, Place(k, x, VIS), s1, s2, it.choice.value);
    }
    if it.Preset() {
      assert PromptMax(k, s1.v, it.prompts) == 0;
    } else {
      var vis := PromptMax(k, s1.v, it.prompts);
      if !HiddenByMode(k, s1.v, x, vis) && vis == 1 {
        TransferType(k, Place(k, x, VIS), s1, s2, x);
      }
    }
  }

  // The expressions of an item refer to nothing but items of smaller rank.
  lemma PromptsBelow(k: Config, S: set<Id>, x: Id)
    requires WellFormed(k) && Ordered(k) && x < |k.items| && ItemRefs(k.Item(x)) <= S
    ensures Below(k, S, k.Rank(x), AllRefs(k.Item(x).prompts))
  {
    assert ItemOk(k, x);
  }

  lemma TransferMode(k: Config, s1: State, s2: State, c: Id)
    requires WellFormed(k) && Ordered(k) && c < |k.items| && k.Item(c).Choice?
    requires CarriesAt(k, Place(k, c, MODE), s1, s2, c) && CarriesAt(k, Place(k, c, MODE), s1, s2, k.modules)
    requires UserOf(s1.us, c) == UserOf(s2.us, c)
    requires ModeReadable(k, s1, c)
    ensures ModeReadable(k, s2, c) && Mode(k, s1.us, s1.v, c) == Mode(k, s2.us, s2.v, c)
  {
    assert ItemOk(k, c);
    assert k.Item(c).ConsultsModules() ==> k.Rank(k.modules) < k.Rank(c);
  }

  lemma {:induction false} TransferFirstDefault(k: Config, S: set<Id>, r: int, m: int, s1: State, s2: State,
                                                ds: seq<ChoiceDefault>)
    requires Carries(k, S, m, s1, s2) && Below(k, S, r, CondRefs(ds)) && 6 * r <= m
    requires forall d :: d in ds ==> RelOk(k, d.cond) && d.sym in S && Place(k, d.sym, VIS) < m
    requires FirstDefaultSupported(k, s1, ds)
    ensures FirstDefaultSupported(k, s2, ds) && FirstDefault(k, s1.v, ds) == FirstDefault(k, s2.v, ds)
  {
    if ds != [] {
      assert Below(k, S, r, Refs(ds[0].cond)) && Below(k, S, r, CondRefs(ds[1..]));
      TransferExpr(k, S, r, m, s1, s2, ds[0].cond);
      assert ds[0] in ds && CarriesAt(k, m, s1, s2, ds[0].sym);
      if ExprValue(k, s1.v, ds[0].cond) == 0 || ValOf(s1.v, ds[0].sym).vis == 0 {
        TransferFirstDefault(k, S, r, m, s1, s2, ds[1..]);
      }
    }
  }

  lemma {:induction false} TransferFirstVisible(k: Config, S: set<Id>, m: int, s1: State, s2: State, syms: seq<Id>)
    requires Carries(k, S, m, s1, s2)
    requires forall x :: x in syms ==> x in S && Place(k, x, VIS) < m
    requires FirstVisibleSupported(s1, syms)
    ensures FirstVisibleSupported(s2, syms) && FirstVisible(s1.v, syms) == FirstVisible(s2.v, syms)
  {
    if syms != [] {
      assert CarriesAt(k, m, s1, s2, syms[0]);
      if ValOf(s1.v, syms[0]).vis == 0 {
        TransferFirstVisible(k, S, m, s1, s2, syms[1..]);
      }
    }
  }

  // The user's selection of a choice, if any, is one of its symbols.
  ghost predicate SelectionOk(k: Config, us: Users, c: Id) {
    var chosen := UserOf(us, c).selection;
    chosen.Some? ==> k.Item(c).Choice? && chosen.value in k.Item(c).syms
  }

  // What a choice reads, including the visibilities of its symbols.
  ghost predicate CoversChoice(k: Config, S: set<Id>, c: Id) {
    && ItemRefs(k.Item(c)) <= S && k.modules in S && c in S
    && (k.Item(c).Choice? ==> forall x :: x in k.Item(c).syms ==> x in S)
  }

  lemma TransferSel(k: Config, S: set<Id>, s1: State, s2: State, c: Id)
    requires WellFormed(k) && Ordered(k) && c < |k.items| && k.Item(c).Choice?
    requires Carries(k, S, Place(k, c, SEL), s1, s2) && CoversChoice(k, S, c)
    requires UserOf(s1.us, c) == UserOf(s2.us, c) && SelectionOk(k, s1.us, c)
    requires SelSupported(k, s1, c)
    ensures SelSupported(k, s2, c) && Selection(k, s1.us, s1.v, c) == Selection(k, s2.us, s2.v, c)
  {
    var m := Place(k, c, SEL);
    assert CarriesAt(k, m, s1, s2, c);
    assert ItemOk(k, c);
    forall x | x in k.Item(c).syms ensures x in S && Place(k, x, VIS) < m {
      assert CarriesAt(k, m, s1, s2, x);
    }
    if ValOf(s1.v, c).tri == 2 {
      var chosen := UserOf(s1.us, c).selection;
      if chosen.None? || ValOf(s1.v, chosen.value).vis == 0 {
        TransferFirstDefault(k, S, k.Rank(c), m, s1, s2, k.Item(c).choiceDefaults);
        if FirstDefault(k, s1.v, k.Item(c).choiceDefaults).None? {
          TransferFirstVisible(k, S, m, s1, s2, k.Item(c).syms);
        }
      }
      if chosen.Some? {
        assert CarriesAt(k, m, s1, s2, chosen.value);
      }
    }
  }

  ghost predicate DefaultsOk(k: Config, S: set<Id>, r: int, ds: seq<Default>) {
    && Below(k, S, r, DefaultRefs(ds))
    && forall d :: d in ds ==> RelOk(k, d.value) && RelOk(k, d.cond)
  }

  lemma {:induction false} TransferActiveDefault(k: Config, S: set<Id>, r: int, m: int, s1: State, s2: State,
                                                 ds: seq<Default>)
    requires Carries(k, S, m, s1, s2) && DefaultsOk(k, S, r, ds) && 6 * r <= m
    requires ActiveDefaultSupported(k, s1, ds)
    ensures ActiveDefaultSupported(k, s2, ds) && ActiveDefault(k, s1.v, ds) == ActiveDefault(k, s2.v, ds)
    ensures var d := ActiveDefault(k, s1.v, ds);
      d.Some? ==>
        && Below(k, S, r, Refs(d.value.value)) && RelOk(k, d.value.value) && d.value in ds
        && ExprValue(k, s1.v, d.value.cond) == ExprValue(k, s2.v, d.value.cond)
  {
    if ds != [] {
      assert Below(k, S, r, Refs(ds[0].cond)) && Below(k, S, r, DefaultRefs(ds[1..])) && ds[0] in ds;
      TransferExpr(k, S, r, m, s1, s2, ds[0].cond);
      if ExprValue(k, s1.v, ds[0].cond) == 0 {
        TransferActiveDefault(k, S, r, m, s1, s2, ds[1..]);
      }
    }
  }

  lemma TransferDefaultTri(k: Config, S: set<Id>, r: int, m: int, s1: State, s2: State, ds: seq<Default>)
    requires Carries(k, S, m, s1, s2) && DefaultsOk(k, S, r, ds) && 6 * r <= m
    requires DefaultTriSupported(k, s1, ds)
    ensures DefaultTriSupported(k, s2, ds) && DefaultTri(k, s1.v, ds) == DefaultTri(k, s2.v, ds)
  {
    TransferActiveDefault(k, S, r, m, s1, s2, ds);
    var d := ActiveDefault(k, s1.v, ds);
    if d.Some? {
      TransferExpr(k, S, r, m, s1, s2, d.value.value);
    }
  }

  lemma TransferDefaultStr(k: Config, S: set<Id>, r: int, m: int, s1: State, s2: State, ds: seq<Default>)
    requires Carries(k, S, m, s1, s2) && DefaultsOk(k, S, r, ds) && 6 * r <= m
    requires DefaultStrSupported(k, s1, ds)
    ensures DefaultStrSupported(k, s2, ds) && DefaultStr(k, s1.v, ds) == DefaultStr(k, s2.v, ds)
  {
    TransferActiveDefault(k, S, r, m, s1, s2, ds);
    var d := ActiveDefault(k, s1.v, ds);
    if d.Some? && d.value.value.Ref? {
      assert d.value.value.id in Refs(d.value.value);
      assert CarriesAt(k, m, s1, s2, d.value.value.id);
    }
  }

  lemma {:induction false} TransferRange(k: Config, S: set<Id>, r: int, m: int, s1: State, s2: State, rs: seq<Range>,
                                         base: nat)
    requires Carries(k, S, m, s1, s2) && Below(k, S, r, RangeRefs(rs)) && 6 * r <= m
    requires forall g :: g in rs ==> RelOk(k, g.cond)
    requires ActiveRangeSupported(k, s1, rs)
    ensures ActiveRangeSupported(k, s2, rs) && ActiveRange(k, s1.v, rs, base) == ActiveRange(k, s2.v, rs, base)
  {
    if rs != [] {
      assert Below(k, S, r, Refs(rs[0].cond)) && Below(k, S, r, RangeRefs(rs[1..])) && rs[0] in rs;
      TransferExpr(k, S, r, m, s1, s2, rs[0].cond);
      if ExprValue(k, s1.v, rs[0].cond) == 0 {
        TransferRange(k, S, r, m, s1, s2, rs[1..], base);
      } else {
        assert rs[0].low in RangeRefs(rs) && rs[0].high in RangeRefs(rs);
        assert CarriesAt(k, m, s1, s2, rs[0].low) && CarriesAt(k, m, s1, s2, rs[0].high);
      }
    }
  }

  // A user value only matters to a symbol that is visible.
  ghost predicate UserSame(s1: State, s2: State, x: Id) {
    UserOf(s1.us, x) == UserOf(s2.us, x) || ValOf(s1.v, x).vis == 0
  }

  ghost predicate CoversSymbol(k: Config, S: set<Id>, x: Id) {
    && ItemRefs(k.Item(x)) <= S && k.modules in S && x in S
    && (k.Item(x).InChoice() ==> k.Item(x).choice.value in S)
  }

  // What is known when one property of a symbol is compared in two states.
  ghost predicate Comparable(k: Config, S: set<Id>, phase: nat, s1: State, s2: State, x: Id) {
    && WellFormed(k) && Ordered(k) && x < |k.items| && k.Item(x).Symbol?
    && Carries(k, S, Place(k, x, phase), s1, s2) && CoversSymbol(k, S, x)
    && UserSame(s1, s2, x)
  }

  lemma SymbolRefs(k: Config, S: set<Id>, x: Id)
    requires WellFormed(k) && Ordered(k) && x < |k.items| && k.Item(x).Symbol? && k.Item(x).defined
    requires ItemRefs(k.Item(x)) <= S
    ensures var it := k.Item(x);
      && DefaultsOk(k, S, k.Rank(x), it.defaults)
      && Below(k, S, k.Rank(x), RangeRefs(it.ranges))
      && Below(k, S, k.Rank(x), Refs(it.revDep)) && RelOk(k, it.revDep)
      && Below(k, S, k.Rank(x), Refs(it.weakRevDep)) && RelOk(k, it.weakRevDep)
      && Below(k, S, k.Rank(x), Refs(it.directDep)) && RelOk(k, it.directDep)
  {
    assert ItemOk(k, x);
    var it := k.Item(x);
    assert ItemRefs(it) == AllRefs(it.prompts) + DefaultRefs(it.defaults) + Refs(it.revDep) + Refs(it.weakRevDep)
          + RangeRefs(it.ranges) + Refs(it.directDep);
  }

  lemma TransferBaseTri(k: Config, S: set<Id>, s1: State, s2: State, x: Id)
    requires Comparable(k, S, TRI, s1, s2, x) && k.Item(x).defined
    requires BaseTriSupported(k, s1, x)
    ensures BaseTriSupported(k, s2, x) && BaseTri(k, s1.us, s1.v, x) == BaseTri(k, s2.us, s2.v, x)
  {
    var it, m, r := k.Item(x), Place(k, x, TRI), k.Rank(x);
    SymbolRefs(k, S, x);
    assert CarriesAt(k, m, s1, s2, x);
    if ValOf(s1.v, x).vis == 0 || UserOf(s1.us, x).Tri().None? {
      TransferDefaultTri(k, S, r, m, s1, s2, it.defaults);
      TransferImplied(k, S, s1, s2, x);
    }
  }

  lemma TransferImplied(k: Config, S: set<Id>, s1: State, s2: State, x: Id)
    requires Comparable(k, S, TRI, s1, s2, x) && k.Item(x).defined && ImpliedSupported(k, s1, x)
    ensures ImpliedSupported(k, s2, x) && Implied(k, s1.v, x) == Implied(k, s2.v, x)
  {
    var it, m, r := k.Item(x), Place(k, x, TRI), k.Rank(x);
    SymbolRefs(k, S, x);
    TransferExpr(k, S, r, m, s1, s2, it.weakRevDep);
    if ExprValue(k, s1.v, it.weakRevDep) != 0 {
      TransferExpr(k, S, r, m, s1, s2, it.directDep);
    }
  }

  lemma TransferNeverM(k: Config, S: set<Id>, phase: nat, s1: State, s2: State, x: Id)
    requires Comparable(k, S, phase, s1, s2, x) && k.Item(x).defined && phase >= VIS
    requires NeverMSupported(k, s1, x)
    ensures NeverMSupported(k, s2, x) && NeverM(k, s1.v, x) == NeverM(k, s2.v, x)
  {
    var m := Place(k, x, phase);
    assert ItemOk(k, x);
    TransferType(k, m, s1, s2, x);
    if TypeOf(k, s1.v, x) != BOOL {
      SymbolRefs(k, S, x);
      TransferExpr(k, S, k.Rank(x), m, s1, s2, k.Item(x).weakRevDep);
    }
  }

  lemma TransferFreeTri(k: Config, S: set<Id>, s1: State, s2: State, x: Id)
    requires Comparable(k, S, TRI, s1, s2, x) && k.Item(x).defined
    requires FreeTriSupported(k, s1, x)
    ensures FreeTriSupported(k, s2, x) && FreeTri(k, s1.us, s1.v, x) == FreeTri(k, s2.us, s2.v, x)
  {
    var it, m, r := k.Item(x), Place(k, x, TRI), k.Rank(x);
    TransferBaseTri(k, S, s1, s2, x);
    SymbolRefs(k, S, x);
    TransferExpr(k, S, r, m, s1, s2, it.revDep);
    if SelectedTri(k, s1.us, s1.v, x).val == 1 {
      TransferNeverM(k, S, TRI, s1, s2, x);
    }
  }

  lemma TransferTri(k: Config, S: set<Id>, s1: State, s2: State, x: Id)
    requires Comparable(k, S, TRI, s1, s2, x)
    requires TriSupported(k, s1, x)
    ensures TriSupported(k, s2, x) && SymTri(k, s1.us, s1.v, x) == SymTri(k, s2.us, s2.v, x)
  {
    var it := k.Item(x);
    assert ItemOk(k, x);
    if it.Logical() && !it.Preset() {
      if it.InChoice() {
        assert CarriesAt(k, Place(k, x, TRI), s1, s2, x);
        assert CarriesAt(k, Place(k, x, TRI), s1, s2, it.choice.value);
        assert ItemOk(k, it.choice.value);
      } else {
        TransferFreeTri(k, S, s1, s2, x);
      }
    }
  }

  lemma TransferNumber(k: Config, S: set<Id>, s1: State, s2: State, x: Id)
    requires Comparable(k, S, STR, s1, s2, x) && k.Item(x).defined
    requires NumberSupported(k, s1, x)
    ensures NumberSupported(k, s2, x) && NumberText(k, s1.us, s1.v, x) == NumberText(k, s2.us, s2.v, x)
  {
    var it, m, r := k.Item(x), Place(k, x, STR), k.Rank(x);
    SymbolRefs(k, S, x);
    assert CarriesAt(k, m, s1, s2, x);
    assert ItemOk(k, x);
    TransferRange(k, S, r, m, s1, s2, it.ranges, it.Base());
    var b := ActiveRange(k, s1.v, it.ranges, it.Base());
    assert UserNumberOk(s1.us, ValOf(s1.v, x).vis, x, it.Base(), b)
      == UserNumberOk(s2.us, ValOf(s2.v, x).vis, x, it.Base(), b);
    if !UserNumberOk(s1.us, ValOf(s1.v, x).vis, x, it.Base(), b) {
      TransferDefaultStr(k, S, r, m, s1, s2, it.defaults);
    }
  }

  lemma TransferString(k: Config, S: set<Id>, s1: State, s2: State, x: Id)
    requires Comparable(k, S, STR, s1, s2, x) && k.Item(x).defined
    requires StringSupported(k, s1, x)
    ensures StringSupported(k, s2, x) && StringText(k, s1.us, s1.v, x) == StringText(k, s2.us, s2.v, x)
  {
    var it, m, r := k.Item(x), Place(k, x, STR), k.Rank(x);
    SymbolRefs(k, S, x);
    assert CarriesAt(k, m, s1, s2, x);
    if ValOf(s1.v, x).vis == 0 || UserOf(s1.us, x).Str().None? {
      TransferDefaultStr(k, S, r, m, s1, s2, it.defaults);
    }
  }

  lemma TransferStr(k: Config, S: set<Id>, s1: State, s2: State, x: Id)
    requires Comparable(k, S, STR, s1, s2, x)
    requires StrSupported(k, s1, x)
    ensures StrSupported(k, s2, x) && SymText(k, s1.us, s1.v, x) == SymText(k, s2.us, s2.v, x)
  {
    var it := k.Item(x);
    assert ItemOk(k, x);
    assert CarriesAt(k, Place(k, x, STR), s1, s2, x);
    if it.Logical() || it.origType == UNKNOWN {
    } else if it.Numeric() {
      TransferNumber(k, S, s1, s2, x);
    } else {
      TransferString(k, S, s1, s2, x);
    }
  }

  lemma TransferLevels(k: Config, S: set<Id>, s1: State, s2: State, x: Id, rev: Tri)
    requires Comparable(k, S, ASG, s1, s2, x) && k.Item(x).defined
    requires ValOf(s1.v, x).vis == ValOf(s2.v, x).vis != 0
    requires ExprValue(k, s1.v, k.Item(x).revDep) == ExprValue(k, s2.v, k.Item(x).revDep) == rev
    requires LevelsSupported(k, s1, x)
    ensures LevelsSupported(k, s2, x) && Levels(k, s1.v, x, rev) == Levels(k, s2.v, x, rev)
  {
    if ValOf(s1.v, x).vis == 2 {
      if k.Item(x).choice.None? && rev != 2 {
        TransferNeverM(k, S, ASG, s1, s2, x);
      }
    } else if rev == 0 {
      SymbolRefs(k, S, x);
      TransferExpr(k, S, k.Rank(x), Place(k, x, ASG), s1, s2, k.Item(x).weakRevDep);
    }
  }

  lemma TransferSymAsg(k: Config, S: set<Id>, s1: State, s2: State, x: Id)
    requires Comparable(k, S, ASG, s1, s2, x) && k.Item(x).defined
    requires SymAsgSupported(k, s1, x)
    ensures SymAsgSupported(k, s2, x) && SymAssignable(k, s1.v, x) == SymAssignable(k, s2.v, x)
  {
    if k.Item(x).Logical() {
      assert CarriesAt(k, Place(k, x, ASG), s1, s2, x);
      if ValOf(s1.v, x).vis != 0 {
        SymbolRefs(k, S, x);
        TransferExpr(k, S, k.Rank(x), Place(k, x, ASG), s1, s2, k.Item(x).revDep);
        TransferLevels(k, S, s1, s2, x, ExprValue(k, s1.v, k.Item(x).revDep));
      }
    }
  }

  lemma TransferChoiceAsg(k: Config, S: set<Id>, s1: State, s2: State, c: Id)
    requires WellFormed(k) && Ordered(k) && c < |k.items| && k.Item(c).Choice?
    requires Carries(k, S, Place(k, c, ASG), s1, s2) && c in S && k.modules in S
    requires AsgSupported(k, s1, c)
    ensures AsgSupported(k, s2, c) && ChoiceAssignable(k, s1.v, c) == ChoiceAssignable(k, s2.v, c)
  {
    var m := Place(k, c, ASG);
    assert CarriesAt(k, m, s1, s2, c) && CarriesAt(k, m, s1, s2, k.modules);
    if ValOf(s1.v, c).vis == 2 {
      TransferType(k, m, s1, s2, c);
    }
  }
}
