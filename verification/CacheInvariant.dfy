/** The invariant of the lazy value cache, and what keeps it. */
module CacheInvariant {
  import opened Wrappers
  import opened Model
  import opened Values
  import opened Support
  import opened Transfer
  import opened Reference

  // Every cached property of an item is what cache-free evaluation gives, and everything that was read
  // to compute it is still cached.
  ghost predicate CellsOk(k: Config, s: State, x: Id) {
    var it, c, v := k.Item(x), CellsOf(s.c, x), ValOf(s.v, x);
    && (c.vis.Some? ==> c.vis.value == v.vis && VisSupported(k, s, x))
    && (c.tri.Some? ==> it.Symbol? && c.tri.value == v.tri && TriSupported(k, s, x))
    && (c.str.Some? ==> it.Symbol? && c.str.value == v.str && StrSupported(k, s, x))
    && (c.asg.Some? ==> c.asg.value == v.asg && AsgSupported(k, s, x))
    && (c.sel.Some? ==> it.Choice? && c.sel.value == v.sel && SelSupported(k, s, x))
    && (WriteKnown(it, c) ==> c.write == v.write)
    && (it.Preset() ==> c.tri == it.preset)
  }

  // _write_to_conf is set along with the value, and never for symbols without a type.
  predicate WriteKnown(it: Item, c: Cells) {
    it.Symbol? && (it.origType == UNKNOWN || it.Preset() || (if it.Logical() then c.tri.Some? else c.str.Some?))
  }

  ghost function Now(k: Config, us: Users, c: Cache): State {
    State(us, Evaluate(k, us), c)
  }

  ghost predicate Inv(k: Config, us: Users, c: Cache) {
    && Good(k, us) && |c| == |k.items|
    && forall x: Id :: x < |k.items| ==> CellsOk(k, Now(k, us, c), x)
  }

  // Nothing cached is lost.
  ghost predicate Grows(c1: Cache, c2: Cache) {
    && |c1| == |c2|
    && forall x: Id :: x < |c1| ==> CellGrows(c1[x], c2[x])
  }

  predicate CellGrows(a: Cells, b: Cells) {
    && (a.vis.Some? ==> b.vis == a.vis)
    && (a.tri.Some? ==> b.tri == a.tri)
    && (a.str.Some? ==> b.str == a.str)
    && (a.asg.Some? ==> b.asg == a.asg)
    && (a.sel.Some? ==> b.sel == a.sel)
  }

  lemma GrowsTransitive(a: Cache, b: Cache, c: Cache)
    requires Grows(a, b) && Grows(b, c)
    ensures Grows(a, c)
  {
    forall x: Id | x < |a| ensures CellGrows(a[x], c[x]) {
      assert CellGrows(a[x], b[x]) && CellGrows(b[x], c[x]);
    }
  }

  lemma GrowthCarries(k: Config, us: Users, v: Valuation, m: int, c1: Cache, c2: Cache)
    requires Grows(c1, c2)
    ensures Carries(k, Ids(k), m, State(us, v, c1), State(us, v, c2))
  {
    var s1, s2 := State(us, v, c1), State(us, v, c2);
    forall y | y in Ids(k) ensures CarriesAt(k, m, s1, s2, y) {
      assert y < |c1| ==> CellGrows(c1[y], c2[y]);
      assert k.modules < |c1| ==> CellGrows(c1[k.modules], c2[k.modules]);
    }
  }

  lemma ExprGrows(k: Config, us: Users, v: Valuation, c1: Cache, c2: Cache, e: Expr)
    requires Grows(c1, c2) && Refs(e) <= Ids(k) && RelOk(k, e)
    requires ExprSupported(k, State(us, v, c1), e)
    ensures ExprSupported(k, State(us, v, c2), e)
  {
    var r := Highest(k.order) + 1;
    GrowthCarries(k, us, v, 6 * r, c1, c2);
    forall y | y in Refs(e) ensures k.Rank(y) < r {
      RankBounded(k, y);
    }
    TransferExpr(k, Ids(k), r, 6 * r, State(us, v, c1), State(us, v, c2), e);
  }

  // Support is not lost by caching more.
  lemma SymbolGrows(k: Config, us: Users, c1: Cache, c2: Cache, x: Id)
    requires Good(k, us) && Grows(c1, c2) && x < |k.items| && k.Item(x).Symbol?
    ensures var s1, s2 := Now(k, us, c1), Now(k, us, c2);
      && (VisSupported(k, s1, x) ==> VisSupported(k, s2, x))
      && (TriSupported(k, s1, x) ==> TriSupported(k, s2, x))
      && (StrSupported(k, s1, x) ==> StrSupported(k, s2, x))
  {
    var v := Evaluate(k, us);
    var s1, s2 := Now(k, us, c1), Now(k, us, c2);
    assert ItemOk(k, x);
    GrowthCarries(k, us, v, Place(k, x, VIS), c1, c2);
    GrowthCarries(k, us, v, Place(k, x, TRI), c1, c2);
    GrowthCarries(k, us, v, Place(k, x, STR), c1, c2);
    if VisSupported(k, s1, x) { TransferVis(k, Ids(k), s1, s2, x); }
    if TriSupported(k, s1, x) { TransferTri(k, Ids(k), s1, s2, x); }
    if StrSupported(k, s1, x) { TransferStr(k, Ids(k), s1, s2, x); }
  }

  lemma SymbolAsgGrows(k: Config, us: Users, c1: Cache, c2: Cache, x: Id)
    requires Good(k, us) && Grows(c1, c2) && x < |k.items| && k.Item(x).Symbol?
    requires AsgSupported(k, Now(k, us, c1), x)
    ensures AsgSupported(k, Now(k, us, c2), x)
  {
    assert ItemOk(k, x);
    GrowthCarries(k, us, Evaluate(k, us), Place(k, x, ASG), c1, c2);
    if k.Item(x).defined {
      TransferSymAsg(k, Ids(k), Now(k, us, c1), Now(k, us, c2), x);
    } else {
      EvaluateSolves(k, us);
      UndefinedInvisible(k, Evaluate(k, us), x);
      assert x < |c1| ==> CellGrows(c1[x], c2[x]);
    }
  }

  lemma ChoiceGrows(k: Config, us: Users, c1: Cache, c2: Cache, c: Id)
    requires Good(k, us) && Grows(c1, c2) && c < |k.items| && k.Item(c).Choice?
    ensures var s1, s2 := Now(k, us, c1), Now(k, us, c2);
      && (VisSupported(k, s1, c) ==> VisSupported(k, s2, c))
      && (ModeReadable(k, s1, c) ==> ModeReadable(k, s2, c))
      && (SelSupported(k, s1, c) ==> SelSupported(k, s2, c))
      && (AsgSupported(k, s1, c) ==> AsgSupported(k, s2, c))
  {
    var v := Evaluate(k, us);
    var s1, s2 := Now(k, us, c1), Now(k, us, c2);
    assert ItemOk(k, c) && SelectionOk(k, us, c);
    GrowthCarries(k, us, v, Place(k, c, VIS), c1, c2);
    GrowthCarries(k, us, v, Place(k, c, MODE), c1, c2);
    GrowthCarries(k, us, v, Place(k, c, SEL), c1, c2);
    GrowthCarries(k, us, v, Place(k, c, ASG), c1, c2);
    if VisSupported(k, s1, c) { TransferVis(k, Ids(k), s1, s2, c); }
    if ModeReadable(k, s1, c) { TransferMode(k, s1, s2, c); }
    if SelSupported(k, s1, c) { TransferSel(k, Ids(k), s1, s2, c); }
    if AsgSupported(k, s1, c) { TransferChoiceAsg(k, Ids(k), s1, s2, c); }
  }

  // What is right stays right while more is cached elsewhere.
  lemma CellsGrow(k: Config, us: Users, c1: Cache, c2: Cache, x: Id)
    requires Good(k, us) && |c1| == |k.items| && Grows(c1, c2) && x < |k.items|
    requires CellsOk(k, Now(k, us, c1), x) && c1[x] == c2[x]
    ensures CellsOk(k, Now(k, us, c2), x)
  {
    if k.Item(x).Symbol? {
      SymbolGrows(k, us, c1, c2, x);
      if c1[x].asg.Some? { SymbolAsgGrows(k, us, c1, c2, x); }
    } else {
      ChoiceGrows(k, us, c1, c2, x);
    }
  }

  // The new cells of `x` extend the old ones, and whatever is new among them is right.
  ghost predicate CellsAdded(k: Config, s: State, x: Id, after: Cells) {
    var it, v, before := k.Item(x), ValOf(s.v, x), CellsOf(s.c, x);
    && CellGrows(before, after)
    && (after.vis != before.vis ==> after.vis == Some(v.vis) && VisSupported(k, s, x))
    && (after.tri != before.tri ==> it.Symbol? && after.tri == Some(v.tri) && TriSupported(k, s, x) && !it.Preset())
    && (after.str != before.str ==> it.Symbol? && after.str == Some(v.str) && StrSupported(k, s, x))
    && (after.asg != before.asg ==> after.asg == Some(v.asg) && AsgSupported(k, s, x))
    && (after.sel != before.sel ==> it.Choice? && after.sel == Some(v.sel) && SelSupported(k, s, x))
    && (WriteKnown(it, after) ==> after.write == v.write)
  }

  lemma AddCells(k: Config, us: Users, c: Cache, x: Id, after: Cells)
    requires Inv(k, us, c) && x < |k.items| && CellsAdded(k, Now(k, us, c), x, after)
    ensures Inv(k, us, c[x := after]) && Grows(c, c[x := after])
  {
    var c' := c[x := after];
    assert CellsOk(k, Now(k, us, c), x);
    forall y: Id | y < |k.items| ensures CellsOk(k, Now(k, us, c'), y) {
      assert CellsOk(k, Now(k, us, c), y);
      if y != x {
        CellsGrow(k, us, c, c', y);
      } else {
        AddedCellsOk(k, us, c, x, after);
      }
    }
  }

  lemma AddedCellsOk(k: Config, us: Users, c: Cache, x: Id, after: Cells)
    requires Good(k, us) && |c| == |k.items| && CellsOk(k, Now(k, us, c), x)
    requires x < |k.items| && CellsAdded(k, Now(k, us, c), x, after)
    ensures CellsOk(k, Now(k, us, c[x := after]), x)
  {
    var c' := c[x := after];
    assert Grows(c, c');
    if k.Item(x).Symbol? {
      SymbolGrows(k, us, c, c', x);
      if AsgSupported(k, Now(k, us, c), x) { SymbolAsgGrows(k, us, c, c', x); }
    } else {
      ChoiceGrows(k, us, c, c', x);
    }
  }

  // ---------- Invalidation ----------

  function Cleared(c: Cells): Cells {
    Cells(None, None, None, None, None, c.write)
  }

  ghost function ClearAll(c: Cache, I: set<Id>): Cache {
    seq(|c|, x requires 0 <= x < |c| => if x in I then Cleared(c[x]) else c[x])
  }

  // The items whose values can change: defined symbols and choices.
  predicate Variable(it: Item) {
    it.Choice? || it.defined
  }

  ghost predicate Invalidatable(k: Config, I: set<Id>) {
    forall x :: x in I ==> x < |k.items| && Variable(k.Item(x))
  }

  // Nothing that depends on a member of `I` is cached outside `I`.
  ghost predicate Closed(k: Config, c: Cache, I: set<Id>) {
    && (forall x, y: Id :: x in I && y < |k.items| && DependsOn(k, y, x) && CellsOf(c, y).vis.Some? ==> y in I)
    && (k.modules in I ==> forall y: Id :: y < |k.items| && Variable(k.Item(y)) ==> y in I)
  }

  // User values changed nowhere that matters to what is still cached.
  ghost predicate UsersChangedIn(k: Config, c: Cache, I: set<Id>, us1: Users, us2: Users) {
    forall x: Id {:trigger UserOf(us1, x)} :: x < |k.items| ==>
      || UserOf(us1, x) == UserOf(us2, x)
      || x in I
      || (k.Item(x).Symbol? && (k.Item(x).prompts == [] || CellsOf(c, x).vis.None?))
  }

  ghost predicate Invalidation(k: Config, c: Cache, I: set<Id>, us1: Users, us2: Users) {
    && Inv(k, us1, c) && Good(k, us2)
    && Invalidatable(k, I) && Closed(k, c, I) && UsersChangedIn(k, c, I, us1, us2)
  }

  // Everything read by an item that stays cached stays cached as well.
  ghost function Around(k: Config, x: Id): set<Id> {
    ItemRefs(k.Item(x)) + {x, k.modules}
      + (if k.Item(x).Choice? then set y | y in k.Item(x).syms else {})
  }

  lemma AroundKept(k: Config, c: Cache, I: set<Id>, x: Id, y: Id)
    requires WellFormed(k) && Closed(k, c, I) && x < |k.items| && x !in I
    requires Variable(k.Item(x)) && CellsOf(c, x).vis.Some? && y in Around(k, x)
    ensures y !in I && y < |k.items|
  {
    assert ItemOk(k, x);
    if y in I {
      if y != k.modules {
        assert DependsOn(k, x, y);
      }
    }
  }

  // What is not invalidated, and was computed before place `m`, has the same value as before.
  ghost predicate Unaffected(k: Config, I: set<Id>, m: int, s1: State, s2: State) {
    forall y: Id :: y < |k.items| && y !in I ==> CarriesAt(k, m, s1, s2, y)
  }

  lemma AroundCarries(k: Config, I: set<Id>, m: int, n: int, s1: State, s2: State, x: Id)
    requires WellFormed(k) && Closed(k, s1.c, I) && x < |k.items| && x !in I
    requires Variable(k.Item(x)) && VisLive(s1, x)
    requires Unaffected(k, I, m, s1, s2) && n <= m
    ensures Carries(k, Around(k, x), n, s1, s2)
  {
    forall y | y in Around(k, x) ensures CarriesAt(k, n, s1, s2, y) {
      AroundKept(k, s1.c, I, x, y);
      assert CarriesAt(k, m, s1, s2, y);
    }
  }

  // The cached values of constants and undefined symbols never depend on anything.
  lemma ConstantUnaffected(k: Config, us1: Users, us2: Users, x: Id)
    requires Good(k, us1) && Good(k, us2) && x < |k.items| && !Variable(k.Item(x))
    ensures Evaluate(k, us1)[x].vis == Evaluate(k, us2)[x].vis == 0
    ensures Evaluate(k, us1)[x].tri == Evaluate(k, us2)[x].tri
    ensures Evaluate(k, us1)[x].str == Evaluate(k, us2)[x].str
  {
    assert ItemOk(k, x);
    EvaluateSolves(k, us1);
    EvaluateSolves(k, us2);
    UndefinedInvisible(k, Evaluate(k, us1), x);
    UndefinedInvisible(k, Evaluate(k, us2), x);
  }

  // Two states: before and after changing user values and invalidating `I`.
  ghost predicate Step(k: Config, I: set<Id>, m: int, s1: State, s2: State) {
    && Invalidation(k, s1.c, I, s1.us, s2.us)
    && s2.c == ClearAll(s1.c, I)
    && s1.v == Evaluate(k, s1.us) && s2.v == Evaluate(k, s2.us)
    && Unaffected(k, I, m, s1, s2)
  }

  lemma KnownOk(k: Config, I: set<Id>, m: int, s1: State, s2: State, x: Id)
    requires Step(k, I, m, s1, s2) && x < |k.items|
    ensures CellsOk(k, s1, x) && ItemOk(k, x)
    ensures x !in I ==> CellsOf(s2.c, x) == CellsOf(s1.c, x)
  {
    assert s1 == Now(k, s1.us, s1.c);
  }

  lemma KeptUser(k: Config, I: set<Id>, m: int, s1: State, s2: State, x: Id)
    requires Step(k, I, m, s1, s2) && x < |k.items| && x !in I && k.Item(x).Symbol? && VisLive(s1, x)
    ensures UserSame(s1, s2, x)
  {
    if UserOf(s1.us, x) != UserOf(s2.us, x) {
      assert k.Item(x).prompts == [];
      SolvedVis(k, s1.us, x);
      PromptlessInvisible(k, s1.v, x);
    }
  }

  lemma KeptSymbol(k: Config, I: set<Id>, m: int, phase: nat, s1: State, s2: State, x: Id)
    requires Step(k, I, m, s1, s2) && x < |k.items| && x !in I
    requires k.Item(x).Symbol? && k.Item(x).defined && VisLive(s1, x) && Place(k, x, phase) <= m
    ensures Comparable(k, Around(k, x), phase, s1, s2, x)
  {
    assert ItemOk(k, x);
    KeptUser(k, I, m, s1, s2, x);
    AroundCarries(k, I, m, Place(k, x, phase), s1, s2, x);
  }

  lemma VisUnaffected(k: Config, I: set<Id>, m: int, s1: State, s2: State, x: Id)
    requires Step(k, I, m, s1, s2) && x < |k.items| && x !in I && VisLive(s1, x) && Place(k, x, VIS) <= m
    ensures VisSupported(k, s2, x) && ValOf(s1.v, x).vis == ValOf(s2.v, x).vis
  {
    KnownOk(k, I, m, s1, s2, x);
    if Variable(k.Item(x)) {
      AroundCarries(k, I, m, Place(k, x, VIS), s1, s2, x);
      TransferVis(k, Around(k, x), s1, s2, x);
      SolvedVis(k, s1.us, x);
      SolvedVis(k, s2.us, x);
      EvaluateSolves(k, s1.us);
      EvaluateSolves(k, s2.us);
    } else {
      ConstantUnaffected(k, s1.us, s2.us, x);
      FullUndefined(k, s2.us, s2.v, x);
      assert ItemOk(k, x);
    }
  }

  lemma TriUnaffected(k: Config, I: set<Id>, m: int, s1: State, s2: State, x: Id)
    requires Step(k, I, m, s1, s2) && x < |k.items| && x !in I && TriLive(s1, x) && Place(k, x, TRI) <= m
    ensures TriSupported(k, s2, x) && ValOf(s1.v, x).tri == ValOf(s2.v, x).tri
    ensures SymTri(k, s1.us, s1.v, x) == SymTri(k, s2.us, s2.v, x)
  {
    KnownOk(k, I, m, s1, s2, x);
    if k.Item(x).Logical() && !k.Item(x).Preset() {
      KeptSymbol(k, I, m, TRI, s1, s2, x);
      TransferTri(k, Around(k, x), s1, s2, x);
    }
    SolvedTri(k, s1.us, x);
    SolvedTri(k, s2.us, x);
  }

  lemma StrUnaffected(k: Config, I: set<Id>, m: int, s1: State, s2: State, x: Id)
    requires Step(k, I, m, s1, s2) && x < |k.items| && x !in I && StrLive(s1, x) && Place(k, x, STR) <= m
    ensures StrSupported(k, s2, x) && ValOf(s1.v, x).str == ValOf(s2.v, x).str
    ensures SymText(k, s1.us, s1.v, x) == SymText(k, s2.us, s2.v, x)
  {
    KnownOk(k, I, m, s1, s2, x);
    if k.Item(x).Preset() {
      SolvedTri(k, s1.us, x);
      SolvedTri(k, s2.us, x);
    } else if k.Item(x).origType != UNKNOWN {
      KeptSymbol(k, I, m, STR, s1, s2, x);
      TransferStr(k, Around(k, x), s1, s2, x);
    }
    SolvedStr(k, s1.us, x);
    SolvedStr(k, s2.us, x);
  }

  lemma AsgUnaffected(k: Config, I: set<Id>, m: int, s1: State, s2: State, x: Id)
    requires Step(k, I, m, s1, s2) && x < |k.items| && x !in I && AsgLive(s1, x) && Place(k, x, ASG) <= m
    ensures AsgSupported(k, s2, x) && ValOf(s1.v, x).asg == ValOf(s2.v, x).asg
  {
    KnownOk(k, I, m, s1, s2, x);
    if k.Item(x).Choice? {
      AroundCarries(k, I, m, Place(k, x, ASG), s1, s2, x);
      TransferChoiceAsg(k, Around(k, x), s1, s2, x);
    } else if !k.Item(x).Logical() {
    } else if k.Item(x).defined {
      KeptSymbol(k, I, m, ASG, s1, s2, x);
      TransferSymAsg(k, Around(k, x), s1, s2, x);
    } else {
      ConstantUnaffected(k, s1.us, s2.us, x);
    }
    SolvedAsg(k, s1.us, x);
    SolvedAsg(k, s2.us, x);
  }

  lemma ModeUnaffected(k: Config, I: set<Id>, m: int, s1: State, s2: State, c: Id)
    requires Step(k, I, m, s1, s2) && c < |k.items| && c !in I && k.Item(c).Choice?
    requires ModeReadable(k, s1, c) && Place(k, c, MODE) <= m
    ensures ModeReadable(k, s2, c) && ValOf(s1.v, c).tri == ValOf(s2.v, c).tri
  {
    KnownOk(k, I, m, s1, s2, c);
    AroundCarries(k, I, m, Place(k, c, MODE), s1, s2, c);
    assert CarriesAt(k, Place(k, c, MODE), s1, s2, c);
    assert CarriesAt(k, Place(k, c, MODE), s1, s2, k.modules);
    TransferMode(k, s1, s2, c);
    SolvedChoice(k, s1.us, c);
    SolvedChoice(k, s2.us, c);
  }

  lemma SelUnaffected(k: Config, I: set<Id>, m: int, s1: State, s2: State, c: Id)
    requires Step(k, I, m, s1, s2) && c < |k.items| && c !in I && SelLive(s1, c) && Place(k, c, SEL) <= m
    ensures SelSupported(k, s2, c) && ValOf(s1.v, c).sel == ValOf(s2.v, c).sel
  {
    KnownOk(k, I, m, s1, s2, c);
    assert SelectionOk(k, s1.us, c);
    AroundCarries(k, I, m, Place(k, c, SEL), s1, s2, c);
    TransferSel(k, Around(k, c), s1, s2, c);
    SolvedChoice(k, s1.us, c);
    SolvedChoice(k, s2.us, c);
  }

  lemma StepUnaffected(k: Config, I: set<Id>, m: int, s1: State, s2: State, x: Id)
    requires Step(k, I, m, s1, s2) && x < |k.items| && x !in I
    ensures CarriesAt(k, m + 1, s1, s2, x)
  {
    KnownOk(k, I, m, s1, s2, x);
    if VisLive(s1, x) && Place(k, x, VIS) <= m { VisUnaffected(k, I, m, s1, s2, x); }
    if StrLive(s1, x) && Place(k, x, STR) <= m { StrUnaffected(k, I, m, s1, s2, x); }
    if SelLive(s1, x) && Place(k, x, SEL) <= m { SelUnaffected(k, I, m, s1, s2, x); }
    if k.Item(x).Choice? {
      if ModeReadable(k, s1, x) && Place(k, x, MODE) <= m { ModeUnaffected(k, I, m, s1, s2, x); }
    } else {
      if TriLive(s1, x) && Place(k, x, TRI) <= m { TriUnaffected(k, I, m, s1, s2, x); }
    }
  }

  lemma {:induction false} AllUnaffected(k: Config, I: set<Id>, m: nat, s1: State, s2: State)
    requires Invalidation(k, s1.c, I, s1.us, s2.us) && s2.c == ClearAll(s1.c, I)
    requires s1.v == Evaluate(k, s1.us) && s2.v == Evaluate(k, s2.us)
    ensures Unaffected(k, I, m, s1, s2)
  {
    if m == 0 {
      forall y: Id | y < |k.items| && y !in I ensures CarriesAt(k, m, s1, s2, y) {}
    } else {
      AllUnaffected(k, I, m - 1, s1, s2);
      forall y: Id | y < |k.items| && y !in I ensures CarriesAt(k, m, s1, s2, y) {
        StepUnaffected(k, I, m - 1, s1, s2, y);
      }
    }
  }

  // Invalidating a closed set of items re-establishes the invariant for the new user values.
  lemma InvalidationKeepsInv(k: Config, c: Cache, I: set<Id>, us1: Users, us2: Users)
    requires Invalidation(k, c, I, us1, us2)
    ensures Inv(k, us2, ClearAll(c, I))
  {
    var s1, s2 := Now(k, us1, c), Now(k, us2, ClearAll(c, I));
    AllUnaffected(k, I, Enough(k), s1, s2);
    forall x: Id | x < |k.items| ensures CellsOk(k, s2, x) {
      RankBounded(k, x);
      if x in I {
        ClearedOk(k, I, Enough(k), s1, s2, x);
      } else {
        KeptOk(k, I, Enough(k), s1, s2, x);
      }
    }
  }

  lemma ClearedOk(k: Config, I: set<Id>, m: int, s1: State, s2: State, x: Id)
    requires Step(k, I, m, s1, s2) && x < |k.items| && x in I
    ensures CellsOk(k, s2, x)
  {
    KnownOk(k, I, m, s1, s2, x);
    if WriteKnown(k.Item(x), CellsOf(s2.c, x)) {
      SolvedWrite(k, s1.us, x);
      SolvedWrite(k, s2.us, x);
    }
  }

  lemma KeptOk(k: Config, I: set<Id>, m: int, s1: State, s2: State, x: Id)
    requires Step(k, I, m, s1, s2) && x < |k.items| && x !in I && Place(k, x, SEL) <= m
    ensures CellsOk(k, s2, x)
  {
    KnownOk(k, I, m, s1, s2, x);
    if VisLive(s1, x) { VisUnaffected(k, I, m, s1, s2, x); }
    if AsgLive(s1, x) { AsgUnaffected(k, I, m, s1, s2, x); }
    if SelLive(s1, x) { SelUnaffected(k, I, m, s1, s2, x); }
    KeptWrite(k, I, m, s1, s2, x);
  }

  lemma KeptWrite(k: Config, I: set<Id>, m: int, s1: State, s2: State, x: Id)
    requires Step(k, I, m, s1, s2) && x < |k.items| && x !in I && Place(k, x, SEL) <= m
    ensures TriLive(s1, x) ==> TriSupported(k, s2, x) && ValOf(s1.v, x).tri == ValOf(s2.v, x).tri
    ensures StrLive(s1, x) ==> StrSupported(k, s2, x) && ValOf(s1.v, x).str == ValOf(s2.v, x).str
    ensures WriteKnown(k.Item(x), CellsOf(s1.c, x)) ==> ValOf(s1.v, x).write == ValOf(s2.v, x).write
  {
    KnownOk(k, I, m, s1, s2, x);
    if TriLive(s1, x) { TriUnaffected(k, I, m, s1, s2, x); }
    if StrLive(s1, x) { StrUnaffected(k, I, m, s1, s2, x); }
    if WriteKnown(k.Item(x), CellsOf(s1.c, x)) {
      SolvedWrite(k, s1.us, x);
      SolvedWrite(k, s2.us, x);
    }
  }
}
