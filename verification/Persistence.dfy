/** What has been read stays readable while more values are cached, until a user value changes. */
module Persistence {
  import opened Wrappers
  import opened Model
  import opened Numbers
  import opened Values
  import opened Support
  import opened Transfer
  import opened Reference
  import opened CacheInvariant
  import opened Assignments

  // An expression whose references all exist and are ranked below `r`.
  ghost predicate Fits(k: Config, r: nat, e: Expr) {
    Below(k, Ids(k), r, Refs(e)) && RelOk(k, e)
  }

  // What is known of an item: what it refers to exists and is ranked below it.
  lemma ItemKnown(k: Config, x: Id)
    requires WellFormed(k) && Ordered(k) && x < |k.items|
    ensures ItemOk(k, x)
    ensures k.Item(x).ConsultsModules() ==> k.Rank(k.modules) < k.Rank(x)
    ensures k.Item(x).InChoice() ==> k.Rank(x) == k.Rank(k.Item(x).choice.value) + 1
  {
  }

  lemma NumsStay(k: Config, s: State, c: Cache, a: Id, b: Id)
    requires Grows(c, s.c) && NumsReadable(k, State(s.us, s.v, c), a, b)
    ensures NumsReadable(k, s, a, b)
  {
    NumStays(k, s, c, a);
    if SymToNum(k, s.v, a).Some? {
      NumStays(k, s, c, b);
    }
  }

  lemma NumStays(k: Config, s: State, c: Cache, x: Id)
    requires Grows(c, s.c) && NumReadable(k, State(s.us, s.v, c), x)
    ensures NumReadable(k, s, x)
  {
    assert x < |c| && CellGrows(c[x], s.c[x]);
  }

  lemma NumbersRead(k: Config, s: State, c: Cache, a: Id, b: Id, n1: Option<int>, n2: Option<int>)
    requires Grows(c, s.c) && NumReadable(k, State(s.us, s.v, c), a) && n1 == SymToNum(k, s.v, a)
    requires NumReadable(k, s, b) && n2 == SymToNum(k, s.v, b)
    ensures DifferenceRead(k, s, a, b, Subtract(n1, n2))
  {
    NumStays(k, s, c, a);
  }

  lemma NoNumberRead(k: Config, s: State, a: Id, b: Id)
    requires NumReadable(k, s, a) && SymToNum(k, s.v, a) == None
    ensures DifferenceRead(k, s, a, b, None)
  {
  }

  // What limits a number has been read: the visibility and the active range.
  predicate LimitsRead(k: Config, s: State, x: Id, vis: Tri, bounds: Bounds) {
    && k.Item(x).Symbol? && VisLive(s, x) && vis == ValOf(s.v, x).vis
    && ActiveRangeSupported(k, s, k.Item(x).ranges)
    && bounds == ActiveRange(k, s.v, k.Item(x).ranges, k.Item(x).Base())
  }

  lemma UserNumberRead(k: Config, s: State, x: Id, vis: Tri, bounds: Bounds)
    requires LimitsRead(k, s, x, vis, bounds)
    requires UserNumberOk(s.us, vis, x, k.Item(x).Base(), bounds)
    ensures NumberRead(k, s, x, Text(UserOf(s.us, x).Str().value, true))
  {
  }

  lemma DefaultNumberRead(k: Config, s: State, x: Id, vis: Tri, bounds: Bounds, d: Option<string>)
    requires LimitsRead(k, s, x, vis, bounds)
    requires !UserNumberOk(s.us, vis, x, k.Item(x).Base(), bounds)
    requires DefaultStrSupported(k, s, k.Item(x).defaults) && d == DefaultStr(k, s.v, k.Item(x).defaults)
    ensures NumberRead(k, s, x,
                       Text(Clamp(k.Item(x).origType, k.Item(x).Base(), bounds, if d.Some? then d.value else ""),
                            vis != 0 || d.Some?))
  {
  }

  lemma UserTriRead(k: Config, s: State, x: Id, vis: Tri)
    requires k.Item(x).Symbol? && VisLive(s, x) && vis == ValOf(s.v, x).vis != 0 && UserOf(s.us, x).Tri().Some?
    ensures BaseTriRead(k, s, x, Tri2(Min(UserOf(s.us, x).Tri().value, vis), true))
  {
  }

  lemma DefaultTriRead(k: Config, s: State, x: Id, vis: Tri, val: Tri, weak: Tri)
    requires k.Item(x).Symbol? && VisLive(s, x) && vis == ValOf(s.v, x).vis && (vis == 0 || UserOf(s.us, x).Tri().None?)
    requires DefaultTriSupported(k, s, k.Item(x).defaults) && val == DefaultTri(k, s.v, k.Item(x).defaults)
    requires ImpliedSupported(k, s, x) && weak == Implied(k, s.v, x)
    ensures BaseTriRead(k, s, x, if weak != 0 then Tri2(Max(weak, val), true) else Tri2(val, vis != 0 || val != 0))
  {
  }

  lemma PlainTypeRead(k: Config, s: State, x: Id)
    requires k.Item(x).origType != TRISTATE
    ensures TypeRead(k, s, x, k.Item(x).origType)
  {
  }

  lemma MemberTypeRead(k: Config, s: State, x: Id)
    requires k.Item(x).origType == TRISTATE && k.Item(x).InChoice() && ModeReadable(k, s, k.Item(x).choice.value)
    requires ValOf(s.v, k.Item(x).choice.value).tri == 2
    ensures TypeRead(k, s, x, BOOL)
  {
  }

  lemma ModulesTypeRead(k: Config, s: State, x: Id, modules: Tri)
    requires k.Item(x).origType == TRISTATE && TriLive(s, k.modules) && modules == ValOf(s.v, k.modules).tri
    requires k.Item(x).InChoice() ==>
      ModeReadable(k, s, k.Item(x).choice.value) && ValOf(s.v, k.Item(x).choice.value).tri != 2
    ensures TypeRead(k, s, x, if modules == 0 then BOOL else TRISTATE)
  {
  }

  lemma ModeStays(k: Config, us: Users, c1: Cache, c2: Cache, c: Id)
    requires Grows(c1, c2)
    ensures ModeReadable(k, Now(k, us, c1), c) ==> ModeReadable(k, Now(k, us, c2), c)
  {
    assert c < |c1| ==> CellGrows(c1[c], c2[c]);
    assert k.modules < |c1| ==> CellGrows(c1[k.modules], c2[k.modules]);
  }

  lemma HiddenStays(k: Config, us: Users, c1: Cache, c2: Cache, x: Id, vis: Tri)
    requires Grows(c1, c2)
    ensures HiddenSupported(k, Now(k, us, c1), x, vis) ==> HiddenSupported(k, Now(k, us, c2), x, vis)
  {
    if k.Item(x).InChoice() {
      ModeStays(k, us, c1, c2, k.Item(x).choice.value);
    }
  }

  lemma PromptsStay(k: Config, us: Users, c1: Cache, c2: Cache, x: Id)
    requires WellFormed(k) && Ordered(k) && x < |k.items| && Grows(c1, c2)
    requires PromptsSupported(k, Now(k, us, c1), k.Item(x).prompts)
    ensures PromptsSupported(k, Now(k, us, c2), k.Item(x).prompts)
  {
    var prompts := k.Item(x).prompts;
    if prompts != [] {
      PromptFits(k, x, 0);
      ExprsStay(k, us, c1, c2, prompts, |prompts|);
    }
  }

  lemma PresetInvisible(k: Config, v: Valuation, x: Id)
    requires WellFormed(k) && x < |k.items| && k.Item(x).Preset()
    ensures PromptMax(k, v, k.Item(x).prompts) == 0
  {
    assert ItemOk(k, x);
  }

  predicate ExprsSupported(k: Config, s: State, es: seq<Expr>, i: nat)
    requires i <= |es|
  {
    forall j :: 0 <= j < i ==> ExprSupported(k, s, es[j])
  }

  lemma ExprsStay(k: Config, us: Users, c1: Cache, c2: Cache, es: seq<Expr>, i: nat)
    requires i <= |es| && Grows(c1, c2) && forall e :: e in es ==> Refs(e) <= Ids(k) && RelOk(k, e)
    requires ExprsSupported(k, Now(k, us, c1), es, i)
    ensures ExprsSupported(k, Now(k, us, c2), es, i)
  {
    forall j | 0 <= j < i ensures ExprSupported(k, Now(k, us, c2), es[j]) {
      ExprGrows(k, us, Evaluate(k, us), c1, c2, es[j]);
    }
  }

  lemma {:induction false} RefsOfOne(es: seq<Expr>, i: nat)
    requires i < |es|
    ensures Refs(es[i]) <= AllRefs(es)
  {
    if i > 0 {
      RefsOfOne(es[1..], i - 1);
    }
  }

  lemma PromptFits(k: Config, x: Id, i: nat)
    requires WellFormed(k) && Ordered(k) && x < |k.items| && i < |k.Item(x).prompts|
    ensures Fits(k, k.Rank(x), k.Item(x).prompts[i])
    ensures forall e :: e in k.Item(x).prompts ==> Refs(e) <= Ids(k) && RelOk(k, e)
  {
    var prompts := k.Item(x).prompts;
    assert ItemOk(k, x);
    forall e | e in prompts ensures Below(k, Ids(k), k.Rank(x), Refs(e)) {
      var j :| 0 <= j < |prompts| && prompts[j] == e;
      RefsOfOne(prompts, j);
    }
  }

  // ---------- Storing what has been computed ----------

  lemma CachedOk(k: Config, us: Users, c: Cache, x: Id)
    requires Inv(k, us, c) && x < |k.items|
    ensures CellsOk(k, Now(k, us, c), x)
  {
  }

  lemma AddVis(k: Config, us: Users, c: Cache, after: Cache, x: Id, vis: Tri)
    requires Inv(k, us, c) && x < |k.items| && after == c[x := c[x].(vis := Some(vis))]
    requires vis == Visibility(k, Evaluate(k, us), x) && VisSupported(k, Now(k, us, c), x)
    ensures vis == ValOf(Evaluate(k, us), x).vis
    ensures Inv(k, us, after) && Grows(c, after)
  {
    SolvedVis(k, us, x);
    CachedOk(k, us, c, x);
    AddCells(k, us, c, x, after[x]);
  }

  lemma AddTri(k: Config, us: Users, c: Cache, after: Cache, x: Id, t: Tri2)
    requires Inv(k, us, c) && x < |k.items| && k.Item(x).Symbol?
    requires after == c[x := c[x].(tri := Some(t.val), write := if k.Item(x).Logical() then t.write else c[x].write)]
    requires t == SymTri(k, us, Evaluate(k, us), x) && TriSupported(k, Now(k, us, c), x)
    ensures t.val == ValOf(Evaluate(k, us), x).tri
    ensures Inv(k, us, after) && Grows(c, after)
  {
    SolvedTri(k, us, x);
    SolvedWrite(k, us, x);
    CachedOk(k, us, c, x);
    AddCells(k, us, c, x, after[x]);
  }

  lemma AddStr(k: Config, us: Users, c: Cache, after: Cache, x: Id, t: Text)
    requires Inv(k, us, c) && x < |k.items| && k.Item(x).Symbol?
    requires after == c[x := c[x].(str := Some(t.val), write := if TypedText(k.Item(x)) then t.write else c[x].write)]
    requires t == SymText(k, us, Evaluate(k, us), x) && StrSupported(k, Now(k, us, c), x)
    ensures t.val == ValOf(Evaluate(k, us), x).str
    ensures Inv(k, us, after) && Grows(c, after)
  {
    SolvedStr(k, us, x);
    SolvedWrite(k, us, x);
    CachedOk(k, us, c, x);
    AddCells(k, us, c, x, after[x]);
  }

  // Symbols for which str_value also finds out whether a .config entry is written.
  predicate TypedText(it: Model.Item) {
    !it.Logical() && it.origType != UNKNOWN
  }

  lemma AddAsg(k: Config, us: Users, c: Cache, after: Cache, x: Id, asg: seq<Tri>)
    requires Inv(k, us, c) && x < |k.items| && after == c[x := c[x].(asg := Some(asg))]
    requires asg == if k.Item(x).Choice? then ChoiceAssignable(k, Evaluate(k, us), x)
      else SymAssignable(k, Evaluate(k, us), x)
    requires AsgSupported(k, Now(k, us, c), x)
    ensures asg == ValOf(Evaluate(k, us), x).asg
    ensures Inv(k, us, after) && Grows(c, after)
  {
    SolvedAsg(k, us, x);
    CachedOk(k, us, c, x);
    AddCells(k, us, c, x, after[x]);
  }

  lemma AddSel(k: Config, us: Users, c: Cache, after: Cache, x: Id, sel: Option<Id>)
    requires Inv(k, us, c) && x < |k.items| && k.Item(x).Choice? && after == c[x := c[x].(sel := Some(sel))]
    requires sel == Selection(k, us, Evaluate(k, us), x) && SelSupported(k, Now(k, us, c), x)
    ensures sel == ValOf(Evaluate(k, us), x).sel
    ensures Inv(k, us, after) && Grows(c, after)
  {
    SolvedChoice(k, us, x);
    CachedOk(k, us, c, x);
    AddCells(k, us, c, x, after[x]);
  }

  // ---------- Choices ----------

  lemma CondFits(k: Config, c: Id, i: nat)
    requires WellFormed(k) && Ordered(k) && c < |k.items| && k.Item(c).Choice? && i < |k.Item(c).choiceDefaults|
    ensures Fits(k, k.Rank(c), k.Item(c).choiceDefaults[i].cond)
    ensures var s := k.Item(c).choiceDefaults[i].sym; s < |k.items| && k.Rank(s) == k.Rank(c) + 1
  {
    var ds := k.Item(c).choiceDefaults;
    assert ItemOk(k, c);
    assert ds[i] in ds;
    CondRefsOfOne(ds, i);
  }

  lemma {:induction false} CondRefsOfOne(ds: seq<ChoiceDefault>, i: nat)
    requires i < |ds|
    ensures Refs(ds[i].cond) <= CondRefs(ds)
  {
    if i > 0 {
      CondRefsOfOne(ds[1..], i - 1);
    }
  }

  lemma DefaultsTriedStay(k: Config, us: Users, c1: Cache, c2: Cache, c: Id, i: nat)
    requires WellFormed(k) && Ordered(k) && c < |k.items| && k.Item(c).Choice? && i <= |k.Item(c).choiceDefaults|
    requires Grows(c1, c2) && |c1| == |k.items| && DefaultsTried(k, Now(k, us, c1), k.Item(c).choiceDefaults, i)
    ensures DefaultsTried(k, Now(k, us, c2), k.Item(c).choiceDefaults, i)
  {
    var ds, v := k.Item(c).choiceDefaults, Evaluate(k, us);
    forall j | 0 <= j < i
      ensures ExprSupported(k, Now(k, us, c2), ds[j].cond)
      ensures ExprValue(k, v, ds[j].cond) != 0 ==> VisLive(Now(k, us, c2), ds[j].sym)
    {
      CondFits(k, c, j);
      ExprGrows(k, us, v, c1, c2, ds[j].cond);
      assert CellGrows(c1[ds[j].sym], c2[ds[j].sym]);
    }
  }

  lemma SymsTriedStay(k: Config, us: Users, c1: Cache, c2: Cache, syms: seq<Id>, i: nat)
    requires Grows(c1, c2) && i <= |syms| && forall s :: s in syms ==> s < |c1|
    requires SymsTried(Now(k, us, c1), syms, i)
    ensures SymsTried(Now(k, us, c2), syms, i)
  {
    forall j | 0 <= j < i ensures VisLive(Now(k, us, c2), syms[j]) {
      assert CellGrows(c1[syms[j]], c2[syms[j]]);
    }
  }

  lemma FirstDefaultStays(k: Config, us: Users, c1: Cache, c2: Cache, c: Id)
    requires WellFormed(k) && Ordered(k) && c < |k.items| && k.Item(c).Choice? && Grows(c1, c2)
    requires FirstDefaultSupported(k, Now(k, us, c1), k.Item(c).choiceDefaults)
    ensures FirstDefaultSupported(k, Now(k, us, c2), k.Item(c).choiceDefaults)
  {
    var m := Place(k, c, SEL);
    GrowthCarries(k, us, Evaluate(k, us), m, c1, c2);
    assert ItemOk(k, c);
    TransferFirstDefault(k, Ids(k), k.Rank(c), m, Now(k, us, c1), Now(k, us, c2), k.Item(c).choiceDefaults);
  }

  // ---------- Symbols ----------

  lemma SymbolFits(k: Config, x: Id)
    requires WellFormed(k) && Ordered(k) && x < |k.items| && k.Item(x).Symbol? && k.Item(x).defined
    ensures Fits(k, k.Rank(x), k.Item(x).revDep) && Fits(k, k.Rank(x), k.Item(x).weakRevDep)
    ensures Fits(k, k.Rank(x), k.Item(x).directDep)
    ensures DefaultsOk(k, Ids(k), k.Rank(x), k.Item(x).defaults)
    ensures Below(k, Ids(k), k.Rank(x), RangeRefs(k.Item(x).ranges))
  {
    assert ItemOk(k, x);
    SymbolRefs(k, Ids(k), x);
  }

  lemma RevDepFits(k: Config, x: Id)
    requires WellFormed(k) && Ordered(k) && x < |k.items| && k.Item(x).Symbol? && k.Item(x).defined
    ensures Fits(k, k.Rank(x), k.Item(x).revDep)
  {
    SymbolFits(k, x);
  }

  lemma WeakDepFits(k: Config, x: Id)
    requires WellFormed(k) && Ordered(k) && x < |k.items| && k.Item(x).Symbol? && k.Item(x).defined
    ensures Fits(k, k.Rank(x), k.Item(x).weakRevDep) && !k.Item(x).Preset()
  {
    SymbolFits(k, x);
    assert ItemOk(k, x);
  }

  lemma DefaultFits(k: Config, x: Id, i: nat)
    requires WellFormed(k) && Ordered(k) && x < |k.items| && k.Item(x).Symbol? && k.Item(x).defined
    requires i < |k.Item(x).defaults|
    ensures Fits(k, k.Rank(x), k.Item(x).defaults[i].cond) && Fits(k, k.Rank(x), k.Item(x).defaults[i].value)
  {
    SymbolFits(k, x);
    var ds := k.Item(x).defaults;
    assert ds[i] in ds;
    DefaultRefsOfOne(ds, i);
  }

  lemma {:induction false} DefaultRefsOfOne(ds: seq<Default>, i: nat)
    requires i < |ds|
    ensures Refs(ds[i].cond) <= DefaultRefs(ds) && Refs(ds[i].value) <= DefaultRefs(ds)
  {
    if i > 0 {
      DefaultRefsOfOne(ds[1..], i - 1);
    }
  }

  lemma {:induction false} RangeRefsOfOne(rs: seq<Range>, i: nat)
    requires i < |rs|
    ensures Refs(rs[i].cond) <= RangeRefs(rs) && rs[i].low in RangeRefs(rs) && rs[i].high in RangeRefs(rs)
  {
    if i > 0 {
      RangeRefsOfOne(rs[1..], i - 1);
    }
  }

  ghost predicate RangeOk(k: Config, r: nat, g: Range) {
    && Fits(k, r, g.cond)
    && g.low < |k.items| && g.high < |k.items| && k.Rank(g.low) < r && k.Rank(g.high) < r
    && k.Item(g.low).Symbol? && k.Item(g.high).Symbol?
  }

  lemma RangeFits(k: Config, x: Id, i: nat)
    requires WellFormed(k) && Ordered(k) && x < |k.items| && k.Item(x).Symbol? && k.Item(x).defined
    requires i < |k.Item(x).ranges|
    ensures RangeOk(k, k.Rank(x), k.Item(x).ranges[i])
  {
    var rs, g := k.Item(x).ranges, k.Item(x).ranges[i];
    RangeRefsOfOne(rs, i);
    assert Below(k, Ids(k), k.Rank(x), RangeRefs(rs)) by {
      SymbolFits(k, x);
    }
    assert g in rs;
    RangesTyped(k, x, g);
  }

  lemma RangesTyped(k: Config, x: Id, g: Range)
    requires WellFormed(k) && x < |k.items| && k.Item(x).Symbol? && g in k.Item(x).ranges
    ensures k.Item(g.low).Symbol? && k.Item(g.high).Symbol? && RelOk(k, g.cond)
  {
    assert ItemOk(k, x);
  }

  lemma ConditionsStay(k: Config, us: Users, c1: Cache, c2: Cache, conds: seq<Expr>, i: nat)
    requires i <= |conds| && Grows(c1, c2) && forall j :: 0 <= j < i ==> Refs(conds[j]) <= Ids(k) && RelOk(k, conds[j])
    requires ConditionsFail(k, Now(k, us, c1), conds, i)
    ensures ConditionsFail(k, Now(k, us, c2), conds, i)
  {
    forall j | 0 <= j < i ensures ExprSupported(k, Now(k, us, c2), conds[j]) {
      ExprGrows(k, us, Evaluate(k, us), c1, c2, conds[j]);
    }
  }

  lemma ActiveDefaultStays(k: Config, us: Users, c1: Cache, c2: Cache, x: Id)
    requires WellFormed(k) && Ordered(k) && x < |k.items| && k.Item(x).Symbol? && k.Item(x).defined && Grows(c1, c2)
    requires ActiveDefaultSupported(k, Now(k, us, c1), k.Item(x).defaults)
    ensures ActiveDefaultSupported(k, Now(k, us, c2), k.Item(x).defaults)
  {
    SymbolFits(k, x);
    GrowthCarries(k, us, Evaluate(k, us), 6 * k.Rank(x), c1, c2);
    TransferActiveDefault(k, Ids(k), k.Rank(x), 6 * k.Rank(x), Now(k, us, c1), Now(k, us, c2), k.Item(x).defaults);
  }

  lemma DefaultTriStays(k: Config, us: Users, c1: Cache, c2: Cache, x: Id)
    requires WellFormed(k) && Ordered(k) && x < |k.items| && k.Item(x).Symbol? && k.Item(x).defined && Grows(c1, c2)
    requires DefaultTriSupported(k, Now(k, us, c1), k.Item(x).defaults)
    ensures DefaultTriSupported(k, Now(k, us, c2), k.Item(x).defaults)
  {
    SymbolFits(k, x);
    GrowthCarries(k, us, Evaluate(k, us), 6 * k.Rank(x), c1, c2);
    TransferDefaultTri(k, Ids(k), k.Rank(x), 6 * k.Rank(x), Now(k, us, c1), Now(k, us, c2), k.Item(x).defaults);
  }

  lemma RangeStays(k: Config, us: Users, c1: Cache, c2: Cache, x: Id)
    requires WellFormed(k) && Ordered(k) && x < |k.items| && k.Item(x).Symbol? && k.Item(x).defined && Grows(c1, c2)
    requires ActiveRangeSupported(k, Now(k, us, c1), k.Item(x).ranges)
    ensures ActiveRangeSupported(k, Now(k, us, c2), k.Item(x).ranges)
  {
    SymbolFits(k, x);
    assert ItemOk(k, x);
    GrowthCarries(k, us, Evaluate(k, us), 6 * k.Rank(x), c1, c2);
    TransferRange(k, Ids(k), k.Rank(x), 6 * k.Rank(x), Now(k, us, c1), Now(k, us, c2), k.Item(x).ranges,
                  k.Item(x).Base());
  }

  lemma LimitsStay(k: Config, us: Users, c1: Cache, c2: Cache, x: Id, vis: Tri, bounds: Bounds)
    requires WellFormed(k) && Ordered(k) && x < |k.items| && k.Item(x).Symbol? && k.Item(x).defined && Grows(c1, c2)
    requires LimitsRead(k, Now(k, us, c1), x, vis, bounds)
    ensures LimitsRead(k, Now(k, us, c2), x, vis, bounds)
  {
    VisStays(k, us, c1, c2, x);
    RangeStays(k, us, c1, c2, x);
  }

  lemma ExprStays(k: Config, us: Users, c1: Cache, c2: Cache, r: nat, e: Expr)
    requires Grows(c1, c2) && Fits(k, r, e) && ExprSupported(k, Now(k, us, c1), e)
    ensures ExprSupported(k, Now(k, us, c2), e)
  {
    ExprGrows(k, us, Evaluate(k, us), c1, c2, e);
  }

  lemma BaseTriStays(k: Config, us: Users, c1: Cache, c2: Cache, x: Id)
    requires Good(k, us) && x < |k.items| && k.Item(x).Symbol? && k.Item(x).defined && Grows(c1, c2)
    requires BaseTriSupported(k, Now(k, us, c1), x)
    ensures BaseTriSupported(k, Now(k, us, c2), x)
  {
    assert ItemOk(k, x);
    GrowthCarries(k, us, Evaluate(k, us), Place(k, x, TRI), c1, c2);
    TransferBaseTri(k, Ids(k), Now(k, us, c1), Now(k, us, c2), x);
  }

  lemma SelectedTriStays(k: Config, us: Users, c1: Cache, c2: Cache, x: Id)
    requires Good(k, us) && x < |k.items| && k.Item(x).Symbol? && k.Item(x).defined && Grows(c1, c2)
    requires SelectedTriSupported(k, Now(k, us, c1), x)
    ensures SelectedTriSupported(k, Now(k, us, c2), x)
  {
    BaseTriStays(k, us, c1, c2, x);
    SymbolFits(k, x);
    ExprStays(k, us, c1, c2, k.Rank(x), k.Item(x).revDep);
  }

  lemma VisStays(k: Config, us: Users, c1: Cache, c2: Cache, x: Id)
    requires Grows(c1, c2) && VisLive(Now(k, us, c1), x)
    ensures VisLive(Now(k, us, c2), x)
  {
    assert x < |c1| && CellGrows(c1[x], c2[x]);
  }

  lemma StrStays(k: Config, us: Users, c1: Cache, c2: Cache, x: Id)
    requires Grows(c1, c2) && StrLive(Now(k, us, c1), x)
    ensures StrLive(Now(k, us, c2), x)
  {
    assert x < |c1| && CellGrows(c1[x], c2[x]);
  }

  lemma TypeStays(k: Config, us: Users, c1: Cache, c2: Cache, x: Id)
    requires Grows(c1, c2) && TypeSupported(k, Now(k, us, c1), x)
    ensures TypeSupported(k, Now(k, us, c2), x)
  {
    assert k.modules < |c1| ==> CellGrows(c1[k.modules], c2[k.modules]);
    if k.Item(x).InChoice() {
      ModeStays(k, us, c1, c2, k.Item(x).choice.value);
    }
  }

  lemma ChosenKnown(k: Config, us: Users, c: Id)
    requires Good(k, us) && c < |k.items| && UserOf(us, c).selection.Some?
    ensures var s := UserOf(us, c).selection.value; s < |k.items| && k.Rank(s) == k.Rank(c) + 1
  {
    assert SelectionOk(k, us, c);
    assert ItemOk(k, c);
  }

  lemma ChosenStays(k: Config, us: Users, c1: Cache, c2: Cache, c: Id)
    requires Grows(c1, c2)
    ensures var chosen := UserOf(us, c).selection;
      chosen.Some? && VisLive(Now(k, us, c1), chosen.value) ==> VisLive(Now(k, us, c2), chosen.value)
  {
    var chosen := UserOf(us, c).selection;
    if chosen.Some? && VisLive(Now(k, us, c1), chosen.value) {
      VisStays(k, us, c1, c2, chosen.value);
    }
  }

  lemma DefaultConditionsStay(k: Config, us: Users, c1: Cache, c2: Cache, x: Id, i: nat)
    requires WellFormed(k) && Ordered(k) && x < |k.items| && k.Item(x).Symbol? && k.Item(x).defined
    requires Grows(c1, c2) && i <= |k.Item(x).defaults|
    requires ConditionsFail(k, Now(k, us, c1), Conds(k.Item(x).defaults), i)
    ensures ConditionsFail(k, Now(k, us, c2), Conds(k.Item(x).defaults), i)
  {
    var conds := Conds(k.Item(x).defaults);
    forall j | 0 <= j < i ensures Refs(conds[j]) <= Ids(k) && RelOk(k, conds[j]) {
      DefaultFits(k, x, j);
    }
    ConditionsStay(k, us, c1, c2, conds, i);
  }

  lemma RangeConditionsStay(k: Config, us: Users, c1: Cache, c2: Cache, x: Id, i: nat)
    requires WellFormed(k) && Ordered(k) && x < |k.items| && k.Item(x).Symbol? && k.Item(x).defined
    requires Grows(c1, c2) && i <= |k.Item(x).ranges|
    requires ConditionsFail(k, Now(k, us, c1), RangeConds(k.Item(x).ranges), i)
    ensures ConditionsFail(k, Now(k, us, c2), RangeConds(k.Item(x).ranges), i)
  {
    var conds := RangeConds(k.Item(x).ranges);
    forall j | 0 <= j < i ensures Refs(conds[j]) <= Ids(k) && RelOk(k, conds[j]) {
      RangeFits(k, x, j);
    }
    ConditionsStay(k, us, c1, c2, conds, i);
  }

  lemma DefaultTyped(k: Config, x: Id, d: Default)
    requires WellFormed(k) && Ordered(k) && x < |k.items| && k.Item(x).Symbol? && k.Item(x).defined
    requires !k.Item(x).Logical() && d in k.Item(x).defaults && Fits(k, k.Rank(x), d.value)
    ensures d.value.Ref? && k.Item(d.value.id).Symbol? && d.value.id < |k.items| && k.Rank(d.value.id) < k.Rank(x)
  {
    assert ItemOk(k, x);
    assert d.value.id in Refs(d.value) && d.value.id in Ids(k);
  }

  // Only defined symbols are ever visible.
  lemma VisibleDefined(k: Config, us: Users, x: Id)
    requires Good(k, us) && x < |k.items| && k.Item(x).Symbol? && ValOf(Evaluate(k, us), x).vis != 0
    ensures k.Item(x).defined
  {
    SolvedVis(k, us, x);
    if !k.Item(x).defined {
      UndefinedInvisible(k, Evaluate(k, us), x);
    }
  }

  lemma UserNumberParses(k: Config, us: Users, x: Id)
    requires UsersTyped(k, us) && x < |k.items| && k.Item(x).Numeric() && UserOf(us, x).Str().Some?
    ensures var user := UserOf(us, x).Str().value;
      ParseInt(user, k.Item(x).Base()).Some?
      && NumOrZero(user, k.Item(x).Base()) == ParseInt(user, k.Item(x).Base()).value
  {
  }

  // ---------- Invalidating ----------

  ghost function LiveIds(c: Cache): set<Id> {
    set x: Id | x < |c| && CellsOf(c, x).vis.Some?
  }

  lemma ClearNone(c: Cache)
    ensures ClearAll(c, {}) == c
  {
  }

  lemma ClearTwice(c: Cache, I: set<Id>, J: set<Id>)
    ensures ClearAll(ClearAll(c, I), J) == ClearAll(c, I + J)
  {
  }

  lemma LiveShrinks(c: Cache, I: set<Id>, x: Id, y: Id)
    requires x in I && y < |c| && CellsOf(ClearAll(c, I), y).vis.Some?
    ensures LiveIds(ClearAll(c, I)) - {y} < LiveIds(c) - {x}
  {
    assert y in LiveIds(c) && y != x;
    assert y !in LiveIds(ClearAll(c, I)) - {y};
  }

  // Nothing that depends on a member of `I` other than `x` is cached outside `I`, and what depends on
  // `x` is either still to be looked at, or not cached outside `I` either.
  ghost predicate ClosedExcept(k: Config, c: Cache, I: set<Id>, x: Id, todo: set<Id>) {
    && (forall z, y: Id :: z in I && y < |k.items| && DependsOn(k, y, z) && CellsOf(c, y).vis.Some? ==>
          y in I || (z == x && y in todo))
    && (k.modules in I ==> forall y: Id :: y < |k.items| && Variable(k.Item(y)) ==> y in I)
  }

  lemma NothingLookedAt(k: Config, c: Cache, x: Id, dependents: set<Id>)
    requires forall y: Id :: y < |k.items| && DependsOn(k, y, x) ==> y in dependents
    requires x != k.modules
    ensures ClosedExcept(k, c, {x}, x, dependents)
  {
  }

  lemma AllLookedAt(k: Config, c: Cache, I: set<Id>, x: Id)
    requires ClosedExcept(k, c, I, x, {})
    ensures Closed(k, c, I)
  {
  }

  lemma LookedAt(k: Config, c: Cache, I: set<Id>, x: Id, todo: set<Id>, y: Id)
    requires ClosedExcept(k, c, I, x, todo) && CellsOf(ClearAll(c, I), y).vis.None?
    ensures ClosedExcept(k, c, I, x, todo - {y})
  {
  }

  lemma ClearedOne(k: Config, c: Cache, I: set<Id>, x: Id, todo: set<Id>, y: Id, J: set<Id>)
    requires ClosedExcept(k, c, I, x, todo) && y in J && Closed(k, ClearAll(c, I), J)
    ensures ClosedExcept(k, c, I + J, x, todo - {y})
    ensures ClearAll(ClearAll(c, I), J) == ClearAll(c, I + J)
  {
    ClearTwice(c, I, J);
  }

  lemma DependentVariable(k: Config, y: Id, x: Id)
    requires DependsOn(k, y, x)
    ensures Variable(k.Item(y))
  {
  }

  lemma VariableNotConstant(k: Config, x: Id)
    requires WellFormed(k) && x < |k.items| && Variable(k.Item(x))
    ensures !k.Item(x).Constant()
  {
    assert ItemOk(k, x);
  }

  ghost function Variables(k: Config): set<Id> {
    set x: Id {:trigger k.Item(x)} | x < |k.items| && Variable(k.Item(x))
  }

  lemma VariablesClosed(k: Config, c: Cache)
    ensures Closed(k, c, Variables(k)) && Invalidatable(k, Variables(k))
  {
    forall x, y: Id | x in Variables(k) && y < |k.items| && DependsOn(k, y, x) ensures y in Variables(k) {
      DependentVariable(k, y, x);
    }
  }

  // Only defined symbols have prompts.
  lemma ItemTyped(k: Config, x: Id)
    requires WellFormed(k) && x < |k.items| && k.Item(x).prompts != []
    ensures Variable(k.Item(x))
  {
    assert ItemOk(k, x);
  }

  lemma RefsKnown(k: Config, x: Id)
    requires WellFormed(k) && x < |k.items|
    ensures ItemRefs(k.Item(x)) <= Ids(k)
  {
    assert ItemOk(k, x);
  }
}
