/** Finalising a menu tree preserves what dependencies mean.

    Which siblings end up in implicit submenus has no influence on properties: they are those of
    `PropagateAll` and `Collect`, which just walk the tree as it was parsed.  The conditions that these
    attach to properties have the values that the menu structure calls for, in spite of the simplifications
    that _make_and() and _make_or() make. */
module MenuMeaning {
  import opened Wrappers
  import opened Model
  import opened Values
  import opened MenuForest

  function PropagateAll(t: Menus, attrs: Attrs, f: Forest, visible: Expr): (r: Attrs)
    ensures |r| == |attrs|
    decreases f
  {
    match f
    case Nil => attrs
    case Cons(x, kids, rest) =>
      var below := VisibleIf(t, x, visible);
      var level := PropagateLevel(t, attrs, kids, BaseDep(t, attrs, x), below);
      PropagateAll(t, PropagateAll(t, level, kids, below), rest, visible)
  }

  function Collect(t: Menus, props: seq<Props>, attrs: Attrs, f: Forest): (r: seq<Props>)
    ensures |r| == |props|
    decreases f
  {
    match f
    case Nil => props
    case Cons(x, kids, rest) =>
      var first := if kids == Nil && t.Item(x).OfSymbol? then AddProps(t, props, t.Item(x).id, AttrOf(attrs, x))
                   else Collect(t, props, attrs, kids);
      Collect(t, first, attrs, rest)
  }

  function Effect(t: Menus, s: State, f: Forest, visible: Expr): State {
    var attrs := PropagateAll(t, s.attrs, f, visible);
    State(attrs, Collect(t, s.props, attrs, f))
  }

  // Propagation reaches only nodes of the forest.

  ghost predicate SameOutside(a: Attrs, b: Attrs, f: Forest) {
    |a| == |b| && forall x: Id :: Nodes(f)[x] == 0 ==> AttrOf(a, x) == AttrOf(b, x)
  }

  ghost predicate SameInside(a: Attrs, b: Attrs, f: Forest) {
    forall x: Id :: Nodes(f)[x] > 0 ==> AttrOf(a, x) == AttrOf(b, x)
  }

  lemma {:induction false} LevelOutside(t: Menus, attrs: Attrs, f: Forest, base: Expr, visible: Expr)
    ensures SameOutside(attrs, PropagateLevel(t, attrs, f, base, visible), f)
    decreases f
  {
    if f.Cons? {
      var next := if f.node < |attrs|
                  then attrs[f.node := Propagated(t, attrs[f.node], t.Item(f.node), base, visible)]
                  else attrs;
      LevelOutside(t, next, f.rest, base, visible);
    }
  }

  lemma {:induction false} AllOutside(t: Menus, attrs: Attrs, f: Forest, visible: Expr)
    ensures SameOutside(attrs, PropagateAll(t, attrs, f, visible), f)
    decreases f
  {
    if f.Cons? {
      var below := VisibleIf(t, f.node, visible);
      var level := PropagateLevel(t, attrs, f.kids, BaseDep(t, attrs, f.node), below);
      LevelOutside(t, attrs, f.kids, BaseDep(t, attrs, f.node), below);
      AllOutside(t, level, f.kids, below);
      AllOutside(t, PropagateAll(t, level, f.kids, below), f.rest, visible);
    }
  }

  lemma {:induction false} CollectSame(t: Menus, props: seq<Props>, a: Attrs, b: Attrs, f: Forest)
    requires SameInside(a, b, f)
    ensures Collect(t, props, a, f) == Collect(t, props, b, f)
    decreases f
  {
    if f.Cons? {
      assert Nodes(f)[f.node] > 0;
      var first := if f.kids == Nil && t.Item(f.node).OfSymbol?
                   then AddProps(t, props, t.Item(f.node).id, AttrOf(a, f.node))
                   else Collect(t, props, a, f.kids);
      CollectSame(t, props, a, b, f.kids);
      CollectSame(t, first, a, b, f.rest);
    }
  }

  lemma {:induction false} PropagateAppend(t: Menus, attrs: Attrs, f: Forest, g: Forest, visible: Expr)
    ensures PropagateAll(t, attrs, Append(f, g), visible)
         == PropagateAll(t, PropagateAll(t, attrs, f, visible), g, visible)
    decreases f
  {
    if f.Cons? {
      var below := VisibleIf(t, f.node, visible);
      var level := PropagateLevel(t, attrs, f.kids, BaseDep(t, attrs, f.node), below);
      PropagateAppend(t, PropagateAll(t, level, f.kids, below), f.rest, g, visible);
    }
  }

  lemma {:induction false} CollectAppend(t: Menus, props: seq<Props>, attrs: Attrs, f: Forest, g: Forest)
    ensures Collect(t, props, attrs, Append(f, g)) == Collect(t, Collect(t, props, attrs, f), attrs, g)
    decreases f
  {
    if f.Cons? {
      var first := if f.kids == Nil && t.Item(f.node).OfSymbol?
                   then AddProps(t, props, t.Item(f.node).id, AttrOf(attrs, f.node))
                   else Collect(t, props, attrs, f.kids);
      CollectAppend(t, first, attrs, f.rest, g);
    }
  }

  lemma EffectAppend(t: Menus, s: State, f: Forest, g: Forest, visible: Expr)
    requires NoRepeats(Append(f, g))
    ensures Effect(t, s, Append(f, g), visible) == Effect(t, Effect(t, s, f, visible), g, visible)
  {
    NoRepeatsAppend(f, g);
    PropagateAppend(t, s.attrs, f, g, visible);
    var a := PropagateAll(t, s.attrs, f, visible);
    var b := PropagateAll(t, a, g, visible);
    AllOutside(t, a, g, visible);
    assert SameInside(a, b, f);
    CollectSame(t, s.props, a, b, f);
    CollectAppend(t, s.props, b, f, g);
  }

  // The effect of a node without children, and of the siblings after it.
  lemma EffectLeaf(t: Menus, s: State, x: Id, taken: Forest, visible: Expr)
    requires Nodes(taken)[x] == 0
    ensures Effect(t, s, Cons(x, Nil, taken), visible)
         == if t.Item(x).OfSymbol? then
              Effect(t, s.(props := AddProps(t, s.props, t.Item(x).id, AttrOf(s.attrs, x))), taken, visible)
            else
              Effect(t, s, taken, visible)
  {
    AllOutside(t, s.attrs, taken, visible);
    var below := VisibleIf(t, x, visible);
    assert PropagateAll(t, PropagateLevel(t, s.attrs, Nil, BaseDep(t, s.attrs, x), below), Nil, below) == s.attrs;
    var a := PropagateAll(t, s.attrs, taken, visible);
    assert PropagateAll(t, s.attrs, Cons(x, Nil, taken), visible) == a;
    assert AttrOf(a, x) == AttrOf(s.attrs, x) && Collect(t, s.props, a, Nil) == s.props;
    if t.Item(x).OfSymbol? {
      assert Collect(t, s.props, a, Cons(x, Nil, taken))
          == Collect(t, AddProps(t, s.props, t.Item(x).id, AttrOf(a, x)), a, taken);
    } else {
      assert Collect(t, s.props, a, Cons(x, Nil, taken)) == Collect(t, s.props, a, taken);
    }
  }

  lemma EffectKids(t: Menus, s: State, x: Id, kids: Forest, visible: Expr)
    requires kids != Nil
    ensures var below := VisibleIf(t, x, visible);
            var s1 := s.(attrs := PropagateLevel(t, s.attrs, kids, BaseDep(t, s.attrs, x), below));
            Effect(t, s, Cons(x, kids, Nil), visible) == Effect(t, s1, kids, below)
  {
    var below := VisibleIf(t, x, visible);
    var a := PropagateAll(t, PropagateLevel(t, s.attrs, kids, BaseDep(t, s.attrs, x), below), kids, below);
    assert PropagateAll(t, s.attrs, Cons(x, kids, Nil), visible) == a;
    assert Collect(t, s.props, a, Cons(x, kids, Nil)) == Collect(t, s.props, a, kids);
  }

  // Finalising a node and the siblings that it absorbs has the effect of propagating in them.
  lemma {:induction false} FinalizeEffect(t: Menus, s: State, f: Forest, visible: Expr) returns (taken: Forest)
    requires f.Cons? && NoRepeats(f)
    ensures var r := Finalize(t, s, f, visible);
            && f.rest == Append(taken, r.forest.rest)
            && r.state == Effect(t, s, Cons(f.node, f.kids, taken), visible)
    decreases Size(f), 0
  {
    var x := f.node;
    NoRepeatsParts(f);
    if f.kids != Nil {
      var below := VisibleIf(t, x, visible);
      var s1 := s.(attrs := PropagateLevel(t, s.attrs, f.kids, BaseDep(t, s.attrs, x), below));
      FinalizeListEffect(t, s1, f.kids, below);
      taken := Nil;
      EffectKids(t, s, x, f.kids, visible);
    } else if t.Item(x).OfSymbol? {
      var s1 := s.(props := AddProps(t, s.props, t.Item(x).id, AttrOf(s.attrs, x)));
      taken := AbsorbEffect(t, s1, t.Item(x).id, f.rest, visible);
      AppendNodes(taken, Absorb(t, s1, t.Item(x).id, f.rest, visible).rest);
      EffectLeaf(t, s, x, taken, visible);
    } else {
      taken := Nil;
      EffectLeaf(t, s, x, taken, visible);
      assert Effect(t, s, Nil, visible) == s;
    }
  }

  lemma {:induction false} FinalizeListEffect(t: Menus, s: State, f: Forest, visible: Expr)
    requires NoRepeats(f)
    ensures FinalizeList(t, s, f, visible).state == Effect(t, s, f, visible)
    decreases Size(f), 1
  {
    if f != Nil {
      var first := Finalize(t, s, f, visible);
      var taken := FinalizeEffect(t, s, f, visible);
      var head, later := Cons(f.node, f.kids, taken), first.forest.rest;
      assert f == Append(head, later);
      NoRepeatsAppend(head, later);
      FinalizeListEffect(t, first.state, later, visible);
      EffectAppend(t, s, head, later, visible);
    }
  }

  lemma {:induction false} AbsorbEffect(t: Menus, s: State, sym: Id, f: Forest, visible: Expr) returns (taken: Forest)
    requires NoRepeats(f)
    ensures var r := Absorb(t, s, sym, f, visible);
            f == Append(taken, r.rest) && r.state == Effect(t, s, taken, visible)
    decreases Size(f), 1
  {
    if f == Nil || !AutoMenuDep(t, s.attrs, sym, f.node) {
      taken := Nil;
    } else {
      var first := Finalize(t, s, f, visible);
      var own := FinalizeEffect(t, s, f, visible);
      var head, later := Cons(f.node, f.kids, own), first.forest.rest;
      assert f == Append(head, later);
      NoRepeatsAppend(head, later);
      var more := AbsorbEffect(t, first.state, sym, later, visible);
      taken := Append(head, more);
      var last := Absorb(t, first.state, sym, later, visible).rest;
      AppendAssociative(head, more, last);
      NoRepeatsAppend(taken, last);
      EffectAppend(t, s, head, more, visible);
    }
  }

  // ---------- Values of conditions ----------

  // y and n are what they should be.
  ghost predicate Proper(t: Menus, v: Valuation) {
    ValOf(v, t.y).tri == 2 && ValOf(v, t.n).tri == 0
  }

  lemma RefValue(k: Config, v: Valuation, x: Id)
    ensures ExprValue(k, v, Ref(x)) == ValOf(v, x).tri
  {
  }

  lemma AndValue(k: Config, v: Valuation, a: Expr, b: Expr)
    ensures ExprValue(k, v, And(a, b)) == Min(ExprValue(k, v, a), ExprValue(k, v, b))
  {
  }

  lemma OrValue(k: Config, v: Valuation, a: Expr, b: Expr)
    ensures ExprValue(k, v, Or(a, b)) == Max(ExprValue(k, v, a), ExprValue(k, v, b))
  {
  }

  lemma MakeAndValue(t: Menus, k: Config, v: Valuation, a: Expr, b: Expr)
    requires Proper(t, v)
    ensures ExprValue(k, v, MakeAnd(t, a, b)) == Min(ExprValue(k, v, a), ExprValue(k, v, b))
  {
    var e := MakeAnd(t, a, b);
    RefValue(k, v, t.y);
    RefValue(k, v, t.n);
    if e == And(a, b) {
      AndValue(k, v, a, b);
    }
  }

  lemma MakeOrValue(t: Menus, k: Config, v: Valuation, a: Expr, b: Expr)
    requires Proper(t, v)
    ensures ExprValue(k, v, MakeOr(t, a, b)) == Max(ExprValue(k, v, a), ExprValue(k, v, b))
  {
    var e := MakeOr(t, a, b);
    RefValue(k, v, t.y);
    RefValue(k, v, t.n);
    if e == Or(a, b) {
      OrValue(k, v, a, b);
    }
  }

  // What is meant to depend on a symbol is n whenever the symbol is; what is accepted in excess need not be.
  lemma {:induction false} DependsOnMeans(t: Menus, k: Config, v: Valuation, e: Expr, sym: Id)
    requires k.Item(sym).Logical() && Constants(t, k, v)
    requires MeantToDependOn(t, e, sym) && ValOf(v, sym).tri == 0
    ensures ExprValue(k, v, e) == 0
  {
    match e
    case And(l, r) =>
      if MeantToDependOn(t, l, sym) {
        DependsOnMeans(t, k, v, l, sym);
      } else {
        DependsOnMeans(t, k, v, r, sym);
      }
    case Rel(_, l, r) => assert Compare(k, v, l, r) == ValOf(v, l).tri - ValOf(v, r).tri;
    case _ =>
  }

  // n, m and y are tristate symbols with these values.
  ghost predicate Constants(t: Menus, k: Config, v: Valuation) {
    && k.Item(t.n).Logical() && k.Item(t.m).Logical() && k.Item(t.y).Logical()
    && ValOf(v, t.n).tri == 0 && ValOf(v, t.m).tri == 1 && ValOf(v, t.y).tri == 2
  }

  lemma UnequalToYDependsOn(t: Menus, k: Config, v: Valuation, sym: Id)
    requires Constants(t, k, v) && k.Item(sym).Logical() && sym != t.n && t.n != t.y && ValOf(v, sym).tri == 0
    ensures var e := Rel(UNEQUAL, sym, t.y);
            ExprDependsOn(t, e, sym) && !MeantToDependOn(t, e, sym) && ExprValue(k, v, e) == 2
  {
    var e := Rel(UNEQUAL, sym, t.y);
    assert Compare(k, v, sym, t.y) == -2;
  }

  ghost predicate SelectsMean(k: Config, v: Valuation, before: seq<Select>, after: seq<Select>, dep: Tri) {
    && |before| == |after|
    && forall i :: 0 <= i < |before| ==>
         after[i].target == before[i].target
         && ExprValue(k, v, after[i].cond) == Min(ExprValue(k, v, before[i].cond), dep)
  }

  ghost predicate DefaultsMean(k: Config, v: Valuation, before: seq<Default>, after: seq<Default>, dep: Tri) {
    && |before| == |after|
    && forall i :: 0 <= i < |before| ==>
         after[i].value == before[i].value
         && ExprValue(k, v, after[i].cond) == Min(ExprValue(k, v, before[i].cond), dep)
  }

  ghost predicate RangesMean(k: Config, v: Valuation, before: seq<Range>, after: seq<Range>, dep: Tri) {
    && |before| == |after|
    && forall i :: 0 <= i < |before| ==>
         after[i].low == before[i].low && after[i].high == before[i].high
         && ExprValue(k, v, after[i].cond) == Min(ExprValue(k, v, before[i].cond), dep)
  }

  ghost predicate PromptMeans(k: Config, v: Valuation, before: Option<Expr>, after: Option<Expr>, limit: Tri) {
    && (after.Some? <==> before.Some?)
    && (before.Some? ==> ExprValue(k, v, after.value) == Min(ExprValue(k, v, before.value), limit))
  }

  // All conditions of a symbol or choice are limited by `dep`, and its prompt by `visible` as well; of other
  // nodes it is just the prompt that is, and by `dep` alone.
  ghost predicate AttrMeans(k: Config, v: Valuation, before: Attr, after: Attr, item: Content, dep: Tri, visible: Tri) {
    && ExprValue(k, v, after.dep) == dep
    && PromptMeans(k, v, before.prompt, after.prompt, if item.SymbolOrChoice() then Min(visible, dep) else dep)
    && (item.SymbolOrChoice() ==>
          && DefaultsMean(k, v, before.defaults, after.defaults, dep)
          && RangesMean(k, v, before.ranges, after.ranges, dep)
          && SelectsMean(k, v, before.selects, after.selects, dep)
          && SelectsMean(k, v, before.implies, after.implies, dep))
  }

  lemma PropagatedSelects(t: Menus, k: Config, v: Valuation, ss: seq<Select>, dep: Expr)
    requires Proper(t, v)
    ensures SelectsMean(k, v, ss, CondSelects(t, ss, dep), ExprValue(k, v, dep))
  {
    forall i | 0 <= i < |ss|
      ensures ExprValue(k, v, CondSelects(t, ss, dep)[i].cond) == Min(ExprValue(k, v, ss[i].cond), ExprValue(k, v, dep))
    {
      MakeAndValue(t, k, v, ss[i].cond, dep);
    }
  }

  lemma PropagatedDefaults(t: Menus, k: Config, v: Valuation, ds: seq<Default>, dep: Expr)
    requires Proper(t, v)
    ensures DefaultsMean(k, v, ds, CondDefaults(t, ds, dep), ExprValue(k, v, dep))
  {
    forall i | 0 <= i < |ds|
      ensures ExprValue(k, v, CondDefaults(t, ds, dep)[i].cond)
        == Min(ExprValue(k, v, ds[i].cond), ExprValue(k, v, dep))
    {
      MakeAndValue(t, k, v, ds[i].cond, dep);
    }
  }

  lemma PropagatedRanges(t: Menus, k: Config, v: Valuation, rs: seq<Range>, dep: Expr)
    requires Proper(t, v)
    ensures RangesMean(k, v, rs, CondRanges(t, rs, dep), ExprValue(k, v, dep))
  {
    forall i | 0 <= i < |rs|
      ensures ExprValue(k, v, CondRanges(t, rs, dep)[i].cond) == Min(ExprValue(k, v, rs[i].cond), ExprValue(k, v, dep))
    {
      MakeAndValue(t, k, v, rs[i].cond, dep);
    }
  }

  lemma PropagatedPrompt(t: Menus, k: Config, v: Valuation, prompt: Option<Expr>, limit: Expr)
    requires Proper(t, v)
    ensures PromptMeans(k, v, prompt, if prompt.Some? then Some(MakeAnd(t, prompt.value, limit)) else None,
                        ExprValue(k, v, limit))
  {
    if prompt.Some? {
      MakeAndValue(t, k, v, prompt.value, limit);
    }
  }

  lemma PropagatedMeans(t: Menus, k: Config, v: Valuation, a: Attr, item: Content, base: Expr, visible: Expr)
    requires Proper(t, v)
    ensures AttrMeans(k, v, a, Propagated(t, a, item, base, visible), item,
                      Min(ExprValue(k, v, a.dep), ExprValue(k, v, base)), ExprValue(k, v, visible))
  {
    var dep := MakeAnd(t, a.dep, base);
    MakeAndValue(t, k, v, a.dep, base);
    if item.SymbolOrChoice() {
      MakeAndValue(t, k, v, visible, dep);
      PropagatedPrompt(t, k, v, a.prompt, MakeAnd(t, visible, dep));
      PropagatedDefaults(t, k, v, a.defaults, dep);
      PropagatedRanges(t, k, v, a.ranges, dep);
      PropagatedSelects(t, k, v, a.selects, dep);
      PropagatedSelects(t, k, v, a.implies, dep);
    } else {
      PropagatedPrompt(t, k, v, a.prompt, dep);
    }
  }

  // ---------- Paths from the top ----------

  ghost predicate PathIn(f: Forest, path: seq<Id>)
    decreases f
  {
    && path != [] && f.Cons?
    && ((path[0] == f.node && (|path| == 1 || PathIn(f.kids, path[1..]))) || PathIn(f.rest, path))
  }

  // The base dependency and the visibility that the nodes below `x` start from.
  ghost function InnerDep(t: Menus, k: Config, v: Valuation, before: Attrs, x: Id, base: Tri): Tri {
    if t.Item(x).OfChoice? then ValOf(v, t.Item(x).id).tri else Min(ExprValue(k, v, AttrOf(before, x).dep), base)
  }

  ghost function InnerVisible(t: Menus, k: Config, v: Valuation, x: Id, visible: Tri): Tri {
    if t.Item(x).OfMenu? then Min(visible, ExprValue(k, v, t.Visibility(x))) else visible
  }

  // The dependencies of the last node of a path: its own and those of the nodes above it, up to a choice,
  // whose mode takes their place.
  ghost function WantedDep(t: Menus, k: Config, v: Valuation, before: Attrs, path: seq<Id>, base: Tri): Tri
    requires path != []
    decreases |path|
  {
    if |path| == 1 then Min(ExprValue(k, v, AttrOf(before, path[0]).dep), base)
    else WantedDep(t, k, v, before, path[1..], InnerDep(t, k, v, before, path[0], base))
  }

  // Whether the last node of a path is visible, as far as the menus above it are concerned.
  ghost function WantedVisible(t: Menus, k: Config, v: Valuation, path: seq<Id>, visible: Tri): Tri
    requires path != []
    decreases |path|
  {
    if |path| == 1 then visible else WantedVisible(t, k, v, path[1..], InnerVisible(t, k, v, path[0], visible))
  }

  ghost predicate Means(t: Menus, k: Config, v: Valuation, before: Attrs, after: Attrs, path: seq<Id>, base: Tri,
                        visible: Tri)
    requires path != []
  {
    var x := path[|path| - 1];
    AttrMeans(k, v, AttrOf(before, x), AttrOf(after, x), t.Item(x),
              WantedDep(t, k, v, before, path, base), WantedVisible(t, k, v, path, visible))
  }

  ghost predicate InRange(f: Forest, n: nat) {
    f.Cons? ==> f.node < n && InRange(f.kids, n) && InRange(f.rest, n)
  }

  // The top-level nodes have been propagated to, and the nodes below have not been changed.
  ghost predicate LevelDone(t: Menus, before: Attrs, attrs: Attrs, f: Forest, base: Expr, visible: Expr)
    decreases f
  {
    f.Cons? ==>
      && AttrOf(attrs, f.node) == Propagated(t, AttrOf(before, f.node), t.Item(f.node), base, visible)
      && SameInside(before, attrs, f.kids)
      && LevelDone(t, before, attrs, f.rest, base, visible)
  }

  lemma {:induction false} LevelDoneSame(t: Menus, before: Attrs, a: Attrs, b: Attrs, f: Forest, base: Expr,
                                         visible: Expr)
    requires LevelDone(t, before, a, f, base, visible) && SameInside(a, b, f)
    ensures LevelDone(t, before, b, f, base, visible)
    decreases f
  {
    if f.Cons? {
      assert Nodes(f)[f.node] > 0;
      LevelDoneSame(t, before, a, b, f.rest, base, visible);
    }
  }

  // Attributes that agree in a forest, with those of its first node replaced.
  lemma ReplacedInside(before: Attrs, attrs: Attrs, f: Forest, a: Attr)
    requires f.Cons? && NoRepeats(f) && f.node < |attrs| && SameInside(before, attrs, f)
    ensures AttrOf(before, f.node) == attrs[f.node]
    ensures SameInside(before, attrs[f.node := a], f.kids) && SameInside(before, attrs[f.node := a], f.rest)
  {
    NoRepeatsParts(f);
    CountParts(f, f.node);
    forall x: Id | Nodes(f.kids)[x] > 0 || Nodes(f.rest)[x] > 0
      ensures AttrOf(before, x) == AttrOf(attrs[f.node := a], x)
    {
      CountParts(f, x);
    }
  }

  lemma {:induction false} LevelGetsDone(t: Menus, before: Attrs, attrs: Attrs, f: Forest, base: Expr, visible: Expr)
    requires NoRepeats(f) && InRange(f, |attrs|) && SameInside(before, attrs, f)
    ensures LevelDone(t, before, PropagateLevel(t, attrs, f, base, visible), f, base, visible)
    decreases f
  {
    if f.Cons? {
      NoRepeatsParts(f);
      var own := Propagated(t, attrs[f.node], t.Item(f.node), base, visible);
      ReplacedInside(before, attrs, f, own);
      var next := attrs[f.node := own];
      LevelGetsDone(t, before, next, f.rest, base, visible);
      LevelOutside(t, next, f.rest, base, visible);
    }
  }

  lemma {:induction false} PathInNodes(f: Forest, path: seq<Id>)
    requires PathIn(f, path)
    ensures Nodes(f)[path[|path| - 1]] > 0
    decreases f
  {
    if path[0] == f.node && (|path| == 1 || PathIn(f.kids, path[1..])) {
      if |path| > 1 {
        PathInNodes(f.kids, path[1..]);
      }
    } else {
      PathInNodes(f.rest, path);
    }
  }

  // Propagation below the first node of a forest: its kids have their attributes when they have been dealt
  // with, before the rest of the forest is, and it keeps its own.
  ghost function Within(t: Menus, attrs: Attrs, f: Forest, visible: Expr): Attrs
    requires f.Cons?
  {
    var below := VisibleIf(t, f.node, visible);
    PropagateAll(t, PropagateLevel(t, attrs, f.kids, BaseDep(t, attrs, f.node), below), f.kids, below)
  }

  lemma WithinKept(t: Menus, attrs: Attrs, f: Forest, visible: Expr)
    requires f.Cons? && NoRepeats(f)
    ensures var after := PropagateAll(t, attrs, f, visible);
            && after == PropagateAll(t, Within(t, attrs, f, visible), f.rest, visible)
            && AttrOf(after, f.node) == AttrOf(attrs, f.node)
            && SameInside(Within(t, attrs, f, visible), after, f.kids)
            && SameInside(attrs, Within(t, attrs, f, visible), f.rest)
  {
    NoRepeatsParts(f);
    var below := VisibleIf(t, f.node, visible);
    var level := PropagateLevel(t, attrs, f.kids, BaseDep(t, attrs, f.node), below);
    LevelOutside(t, attrs, f.kids, BaseDep(t, attrs, f.node), below);
    AllOutside(t, level, f.kids, below);
    AllOutside(t, PropagateAll(t, level, f.kids, below), f.rest, visible);
  }

  lemma MeansBelow(t: Menus, k: Config, v: Valuation, before: Attrs, within: Attrs, after: Attrs, path: seq<Id>,
                   base: Tri, visible: Tri)
    requires |path| > 1 && AttrOf(within, path[|path| - 1]) == AttrOf(after, path[|path| - 1])
    requires Means(t, k, v, before, within, path[1..], InnerDep(t, k, v, before, path[0], base),
                   InnerVisible(t, k, v, path[0], visible))
    ensures Means(t, k, v, before, after, path, base, visible)
  {
    var below := path[1..];
    assert below[|below| - 1] == path[|path| - 1];
  }

  lemma MeansHere(t: Menus, k: Config, v: Valuation, before: Attrs, after: Attrs, path: seq<Id>, base: Expr,
                  visible: Expr)
    requires Proper(t, v) && |path| == 1
    requires AttrOf(after, path[0]) == Propagated(t, AttrOf(before, path[0]), t.Item(path[0]), base, visible)
    ensures Means(t, k, v, before, after, path, ExprValue(k, v, base), ExprValue(k, v, visible))
  {
    PropagatedMeans(t, k, v, AttrOf(before, path[0]), t.Item(path[0]), base, visible);
  }

  lemma {:induction false} PathMeans(t: Menus, k: Config, v: Valuation, before: Attrs, attrs: Attrs, f: Forest,
                                     base: Expr, visible: Expr, path: seq<Id>)
    requires Proper(t, v) && NoRepeats(f) && InRange(f, |attrs|) && LevelDone(t, before, attrs, f, base, visible)
    requires PathIn(f, path)
    ensures Means(t, k, v, before, PropagateAll(t, attrs, f, visible), path, ExprValue(k, v, base),
                  ExprValue(k, v, visible))
    decreases f, 1
  {
    if path[0] != f.node || (|path| > 1 && !PathIn(f.kids, path[1..])) {
      var within := Within(t, attrs, f, visible);
      NoRepeatsParts(f);
      WithinKept(t, attrs, f, visible);
      LevelDoneSame(t, before, attrs, within, f.rest, base, visible);
      PathMeans(t, k, v, before, within, f.rest, base, visible, path);
    } else if |path| == 1 {
      WithinKept(t, attrs, f, visible);
      MeansHere(t, k, v, before, PropagateAll(t, attrs, f, visible), path, base, visible);
    } else {
      PathBelowMeans(t, k, v, before, attrs, f, base, visible, path);
    }
  }

  lemma {:induction false} PathBelowMeans(t: Menus, k: Config, v: Valuation, before: Attrs, attrs: Attrs, f: Forest,
                                          base: Expr, visible: Expr, path: seq<Id>)
    requires Proper(t, v) && NoRepeats(f) && InRange(f, |attrs|) && LevelDone(t, before, attrs, f, base, visible)
    requires f.Cons? && |path| > 1 && path[0] == f.node && PathIn(f.kids, path[1..])
    ensures Means(t, k, v, before, PropagateAll(t, attrs, f, visible), path, ExprValue(k, v, base),
                  ExprValue(k, v, visible))
    decreases f, 0
  {
    var below, inner := VisibleIf(t, f.node, visible), BaseDep(t, attrs, f.node);
    NoRepeatsParts(f);
    WithinKept(t, attrs, f, visible);
    LevelGetsDone(t, before, attrs, f.kids, inner, below);
    PathMeans(t, k, v, before, PropagateLevel(t, attrs, f.kids, inner, below), f.kids, inner, below, path[1..]);
    PathInNodes(f.kids, path[1..]);
    BelowMeans(t, k, v, before, attrs, f.node, base, visible);
    MeansBelow(t, k, v, before, Within(t, attrs, f, visible), PropagateAll(t, attrs, f, visible), path,
               ExprValue(k, v, base), ExprValue(k, v, visible));
  }

  lemma BelowMeans(t: Menus, k: Config, v: Valuation, before: Attrs, attrs: Attrs, x: Id, base: Expr, visible: Expr)
    requires Proper(t, v) && AttrOf(attrs, x) == Propagated(t, AttrOf(before, x), t.Item(x), base, visible)
    ensures ExprValue(k, v, BaseDep(t, attrs, x)) == InnerDep(t, k, v, before, x, ExprValue(k, v, base))
    ensures ExprValue(k, v, VisibleIf(t, x, visible)) == InnerVisible(t, k, v, x, ExprValue(k, v, visible))
  {
    MakeAndValue(t, k, v, AttrOf(before, x).dep, base);
    MakeAndValue(t, k, v, visible, t.Visibility(x));
  }

  // ---------- Reverse dependencies ----------

  // How strongly a list of selects of `sym` selects `target`.
  ghost function SelectsFor(k: Config, v: Valuation, sym: Id, ss: seq<Select>, target: Id): Tri
    decreases |ss|
  {
    if ss == [] then 0
    else
      Max(if ss[0].target == target then Min(ValOf(v, sym).tri, ExprValue(k, v, ss[0].cond)) else 0,
          SelectsFor(k, v, sym, ss[1..], target))
  }

  function SelectsOf(a: Attr, weak: bool): seq<Select> {
    if weak then a.implies else a.selects
  }

  // How strongly the symbols of a forest select, or imply, `target`.
  ghost function SelectedBy(t: Menus, k: Config, v: Valuation, attrs: Attrs, f: Forest, weak: bool, target: Id): Tri
    decreases f
  {
    match f
    case Nil => 0
    case Cons(x, kids, rest) =>
      Max(if kids == Nil && t.Item(x).OfSymbol? then
            SelectsFor(k, v, t.Item(x).id, SelectsOf(AttrOf(attrs, x), weak), target)
          else SelectedBy(t, k, v, attrs, kids, weak, target),
          SelectedBy(t, k, v, attrs, rest, weak, target))
  }

  // The dependencies, defaults and ranges of a symbol, from all its menu nodes.
  ghost function DirectIn(t: Menus, k: Config, v: Valuation, attrs: Attrs, f: Forest, sym: Id): Tri
    decreases f
  {
    match f
    case Nil => 0
    case Cons(x, kids, rest) =>
      Max(if kids == Nil && t.Item(x).OfSymbol? then
            (if t.Item(x).id == sym then ExprValue(k, v, AttrOf(attrs, x).dep) else 0)
          else DirectIn(t, k, v, attrs, kids, sym),
          DirectIn(t, k, v, attrs, rest, sym))
  }

  ghost function DefaultsIn(t: Menus, attrs: Attrs, f: Forest, sym: Id): seq<Default>
    decreases f
  {
    match f
    case Nil => []
    case Cons(x, kids, rest) =>
      (if kids == Nil && t.Item(x).OfSymbol? then
         (if t.Item(x).id == sym then AttrOf(attrs, x).defaults else [])
       else DefaultsIn(t, attrs, kids, sym))
      + DefaultsIn(t, attrs, rest, sym)
  }

  ghost function RangesIn(t: Menus, attrs: Attrs, f: Forest, sym: Id): seq<Range>
    decreases f
  {
    match f
    case Nil => []
    case Cons(x, kids, rest) =>
      (if kids == Nil && t.Item(x).OfSymbol? then
         (if t.Item(x).id == sym then AttrOf(attrs, x).ranges else [])
       else RangesIn(t, attrs, kids, sym))
      + RangesIn(t, attrs, rest, sym)
  }

  // How the properties of a symbol may change by `direct`, `rev` and so on.
  ghost predicate Gains(k: Config, v: Valuation, p: Props, q: Props, direct: Tri, rev: Tri, weak: Tri,
                        defaults: seq<Default>, ranges: seq<Range>) {
    && ExprValue(k, v, q.directDep) == Max(ExprValue(k, v, p.directDep), direct)
    && ExprValue(k, v, q.revDep) == Max(ExprValue(k, v, p.revDep), rev)
    && ExprValue(k, v, q.weakRevDep) == Max(ExprValue(k, v, p.weakRevDep), weak)
    && q.defaults == p.defaults + defaults && q.ranges == p.ranges + ranges
  }

  lemma {:induction false} AddReverseGains(t: Menus, k: Config, v: Valuation, props: seq<Props>, sym: Id,
                                           ss: seq<Select>, target: Id)
    requires Proper(t, v) && target < |props|
    ensures var p, q := props[target], AddReverse(t, props, sym, ss)[target];
            && ExprValue(k, v, q.revDep) == Max(ExprValue(k, v, p.revDep), SelectsFor(k, v, sym, ss, target))
            && q == p.(revDep := q.revDep)
    decreases |ss|
  {
    if ss != [] {
      var x := ss[0].target;
      var cond := MakeAnd(t, Ref(sym), ss[0].cond);
      var next := if x < |props| then props[x := props[x].(revDep := MakeOr(t, props[x].revDep, cond))] else props;
      AddReverseGains(t, k, v, next, sym, ss[1..], target);
      MakeAndValue(t, k, v, Ref(sym), ss[0].cond);
      MakeOrValue(t, k, v, props[target].revDep, cond);
      RefValue(k, v, sym);
    }
  }

  lemma {:induction false} AddWeakReverseGains(t: Menus, k: Config, v: Valuation, props: seq<Props>, sym: Id,
                                               ss: seq<Select>, target: Id)
    requires Proper(t, v) && target < |props|
    ensures var p, q := props[target], AddWeakReverse(t, props, sym, ss)[target];
            && ExprValue(k, v, q.weakRevDep) == Max(ExprValue(k, v, p.weakRevDep), SelectsFor(k, v, sym, ss, target))
            && q == p.(weakRevDep := q.weakRevDep)
    decreases |ss|
  {
    if ss != [] {
      var x := ss[0].target;
      var cond := MakeAnd(t, Ref(sym), ss[0].cond);
      var next := if x < |props| then props[x := props[x].(weakRevDep := MakeOr(t, props[x].weakRevDep, cond))]
        else props;
      AddWeakReverseGains(t, k, v, next, sym, ss[1..], target);
      MakeAndValue(t, k, v, Ref(sym), ss[0].cond);
      MakeOrValue(t, k, v, props[target].weakRevDep, cond);
      RefValue(k, v, sym);
    }
  }

  lemma AddPropsGains(t: Menus, k: Config, v: Valuation, props: seq<Props>, sym: Id, a: Attr, target: Id)
    requires Proper(t, v) && target < |props|
    ensures Gains(k, v, props[target], AddProps(t, props, sym, a)[target],
                  if sym == target then ExprValue(k, v, a.dep) else 0,
                  SelectsFor(k, v, sym, a.selects, target), SelectsFor(k, v, sym, a.implies, target),
                  if sym == target then a.defaults else [], if sym == target then a.ranges else [])
  {
    var own := if sym < |props| then
                 props[sym := props[sym].(directDep := MakeOr(t, props[sym].directDep, a.dep),
                                          defaults := props[sym].defaults + a.defaults,
                                          ranges := props[sym].ranges + a.ranges)]
               else props;
    MakeOrValue(t, k, v, props[target].directDep, a.dep);
    AddReverseGains(t, k, v, own, sym, a.selects, target);
    AddWeakReverseGains(t, k, v, AddReverse(t, own, sym, a.selects), sym, a.implies, target);
  }

  lemma GainsTwice(k: Config, v: Valuation, p: Props, q: Props, r: Props, d1: Tri, r1: Tri, w1: Tri, ds1: seq<Default>,
                   rs1: seq<Range>, d2: Tri, r2: Tri, w2: Tri, ds2: seq<Default>, rs2: seq<Range>)
    requires Gains(k, v, p, q, d1, r1, w1, ds1, rs1) && Gains(k, v, q, r, d2, r2, w2, ds2, rs2)
    ensures Gains(k, v, p, r, Max(d1, d2), Max(r1, r2), Max(w1, w2), ds1 + ds2, rs1 + rs2)
  {
  }

  lemma {:induction false} CollectGains(t: Menus, k: Config, v: Valuation, props: seq<Props>, attrs: Attrs, f: Forest,
                                        target: Id)
    requires Proper(t, v) && target < |props|
    ensures Gains(k, v, props[target], Collect(t, props, attrs, f)[target], DirectIn(t, k, v, attrs, f, target),
                  SelectedBy(t, k, v, attrs, f, false, target), SelectedBy(t, k, v, attrs, f, true, target),
                  DefaultsIn(t, attrs, f, target), RangesIn(t, attrs, f, target))
    decreases f
  {
    if f.Cons? {
      var x, kids, rest := f.node, f.kids, f.rest;
      var leaf := kids == Nil && t.Item(x).OfSymbol?;
      var a := AttrOf(attrs, x);
      var first := if leaf then AddProps(t, props, t.Item(x).id, a) else Collect(t, props, attrs, kids);
      if leaf {
        AddPropsGains(t, k, v, props, t.Item(x).id, a, target);
      } else {
        CollectGains(t, k, v, props, attrs, kids, target);
      }
      CollectGains(t, k, v, first, attrs, rest, target);
      var own := leaf && t.Item(x).id == target;
      GainsTwice(k, v, props[target], first[target], Collect(t, props, attrs, f)[target],
                 if own then ExprValue(k, v, a.dep) else if leaf then 0 else DirectIn(t, k, v, attrs, kids, target),
                 if leaf then SelectsFor(k, v, t.Item(x).id, a.selects, target)
                 else SelectedBy(t, k, v, attrs, kids, false, target),
                 if leaf then SelectsFor(k, v, t.Item(x).id, a.implies, target)
                 else SelectedBy(t, k, v, attrs, kids, true, target),
                 if own then a.defaults else if leaf then [] else DefaultsIn(t, attrs, kids, target),
                 if own then a.ranges else if leaf then [] else RangesIn(t, attrs, kids, target),
                 DirectIn(t, k, v, attrs, rest, target), SelectedBy(t, k, v, attrs, rest, false, target),
                 SelectedBy(t, k, v, attrs, rest, true, target), DefaultsIn(t, attrs, rest, target),
                 RangesIn(t, attrs, rest, target));
    }
  }

  // A menu node of a symbol, as parsed.
  ghost predicate SymbolNode(t: Menus, f: Forest, x: Id)
    decreases f
  {
    f.Cons? && ((f.node == x && f.kids == Nil && t.Item(x).OfSymbol?) || SymbolNode(t, f.kids, x)
                || SymbolNode(t, f.rest, x))
  }

  // Select number `i` of menu node `x` selects `target` with strength `force`.
  ghost predicate SelectsWith(t: Menus, k: Config, v: Valuation, attrs: Attrs, x: Id, i: nat, weak: bool, target: Id,
                              force: Tri) {
    var ss := SelectsOf(AttrOf(attrs, x), weak);
    && i < |ss| && ss[i].target == target && t.Item(x).OfSymbol?
    && force == Min(ValOf(v, t.Item(x).id).tri, ExprValue(k, v, ss[i].cond))
  }

  lemma {:induction false} SelectsForAtLeast(k: Config, v: Valuation, sym: Id, ss: seq<Select>, target: Id, i: nat)
    requires i < |ss| && ss[i].target == target
    ensures Min(ValOf(v, sym).tri, ExprValue(k, v, ss[i].cond)) <= SelectsFor(k, v, sym, ss, target)
    decreases |ss|
  {
    if i > 0 {
      SelectsForAtLeast(k, v, sym, ss[1..], target, i - 1);
    }
  }

  lemma {:induction false} SelectsForReached(k: Config, v: Valuation, sym: Id, ss: seq<Select>, target: Id)
    returns (i: nat)
    requires SelectsFor(k, v, sym, ss, target) != 0
    ensures i < |ss| && ss[i].target == target
    ensures Min(ValOf(v, sym).tri, ExprValue(k, v, ss[i].cond)) == SelectsFor(k, v, sym, ss, target)
    decreases |ss|
  {
    if SelectsFor(k, v, sym, ss[1..], target) == SelectsFor(k, v, sym, ss, target) {
      var j := SelectsForReached(k, v, sym, ss[1..], target);
      i := j + 1;
    } else {
      i := 0;
    }
  }

  lemma {:induction false} SelectedByAtLeast(t: Menus, k: Config, v: Valuation, attrs: Attrs, f: Forest, weak: bool,
                                             target: Id, x: Id, i: nat, force: Tri)
    requires SymbolNode(t, f, x) && SelectsWith(t, k, v, attrs, x, i, weak, target, force)
    ensures force <= SelectedBy(t, k, v, attrs, f, weak, target)
    decreases f
  {
    if f.node == x && f.kids == Nil && t.Item(x).OfSymbol? {
      SelectsForAtLeast(k, v, t.Item(x).id, SelectsOf(AttrOf(attrs, x), weak), target, i);
    } else if SymbolNode(t, f.kids, x) {
      SelectedByAtLeast(t, k, v, attrs, f.kids, weak, target, x, i, force);
    } else {
      SelectedByAtLeast(t, k, v, attrs, f.rest, weak, target, x, i, force);
    }
  }

  lemma {:induction false} SelectedByReached(t: Menus, k: Config, v: Valuation, attrs: Attrs, f: Forest, weak: bool,
                                             target: Id)
      returns (x: Id, i: nat)
    requires SelectedBy(t, k, v, attrs, f, weak, target) != 0
    ensures SymbolNode(t, f, x)
    ensures SelectsWith(t, k, v, attrs, x, i, weak, target, SelectedBy(t, k, v, attrs, f, weak, target))
    decreases f
  {
    var force := SelectedBy(t, k, v, attrs, f, weak, target);
    if SelectedBy(t, k, v, attrs, f.rest, weak, target) == force {
      x, i := SelectedByReached(t, k, v, attrs, f.rest, weak, target);
    } else if f.kids == Nil && t.Item(f.node).OfSymbol? {
      x := f.node;
      i := SelectsForReached(k, v, t.Item(x).id, SelectsOf(AttrOf(attrs, x), weak), target);
    } else {
      x, i := SelectedByReached(t, k, v, attrs, f.kids, weak, target);
    }
  }

  // SelectedBy() is the greatest strength with which any menu node selects the target, or n.
  lemma SelectedByMax(t: Menus, k: Config, v: Valuation, attrs: Attrs, f: Forest, weak: bool, target: Id)
    ensures forall x: Id, i: nat, force: Tri ::
              SymbolNode(t, f, x) && SelectsWith(t, k, v, attrs, x, i, weak, target, force) ==>
                force <= SelectedBy(t, k, v, attrs, f, weak, target)
    ensures SelectedBy(t, k, v, attrs, f, weak, target) == 0
         || exists x: Id, i: nat ::
              SymbolNode(t, f, x) && SelectsWith(t, k, v, attrs, x, i, weak, target,
                                                 SelectedBy(t, k, v, attrs, f, weak, target))
  {
    forall x: Id, i: nat, force: Tri | SymbolNode(t, f, x) && SelectsWith(t, k, v, attrs, x, i, weak, target, force)
      ensures force <= SelectedBy(t, k, v, attrs, f, weak, target)
    {
      SelectedByAtLeast(t, k, v, attrs, f, weak, target, x, i, force);
    }
    if SelectedBy(t, k, v, attrs, f, weak, target) != 0 {
      var x, i := SelectedByReached(t, k, v, attrs, f, weak, target);
    }
  }

  // What finalising the whole tree does to the properties of menu nodes and symbols, however it rearranges
  // the menu nodes.
  lemma FinalizeMeaning(t: Menus, k: Config, v: Valuation, s: State, top: Id, kids: Forest)
    requires Proper(t, v) && kids != Nil && t.Item(top).OfMenu?
    requires NoRepeats(Cons(top, kids, Nil)) && InRange(kids, |s.attrs|)
    ensures var r := Finalize(t, s, Cons(top, kids, Nil), Ref(t.y)).state;
            && (forall path :: PathIn(kids, path) ==>
                  Means(t, k, v, s.attrs, r.attrs, path, ExprValue(k, v, AttrOf(s.attrs, top).dep),
                        ExprValue(k, v, t.Visibility(top))))
            && |r.props| == |s.props|
            && (forall sym: Id :: sym < |s.props| ==>
                  Gains(k, v, s.props[sym], r.props[sym], DirectIn(t, k, v, r.attrs, kids, sym),
                        SelectedBy(t, k, v, r.attrs, kids, false, sym), SelectedBy(t, k, v, r.attrs, kids, true, sym),
                        DefaultsIn(t, r.attrs, kids, sym), RangesIn(t, r.attrs, kids, sym)))
  {
    var f := Cons(top, kids, Nil);
    NoRepeatsParts(f);
    var below := VisibleIf(t, top, Ref(t.y));
    var base := BaseDep(t, s.attrs, top);
    MakeAndValue(t, k, v, Ref(t.y), t.Visibility(top));
    RefValue(k, v, t.y);
    var level := s.(attrs := PropagateLevel(t, s.attrs, kids, base, below));
    FinalizeListEffect(t, level, kids, below);
    var r := FinalizeList(t, level, kids, below).state;
    LevelGetsDone(t, s.attrs, s.attrs, kids, base, below);
    forall path | PathIn(kids, path)
      ensures Means(t, k, v, s.attrs, r.attrs, path, ExprValue(k, v, base), ExprValue(k, v, below))
    {
      PathMeans(t, k, v, s.attrs, level.attrs, kids, base, below, path);
    }
    forall sym: Id | sym < |s.props|
      ensures Gains(k, v, s.props[sym], r.props[sym], DirectIn(t, k, v, r.attrs, kids, sym),
                    SelectedBy(t, k, v, r.attrs, kids, false, sym), SelectedBy(t, k, v, r.attrs, kids, true, sym),
                    DefaultsIn(t, r.attrs, kids, sym), RangesIn(t, r.attrs, kids, sym))
    {
      CollectGains(t, k, v, s.props, r.attrs, kids, sym);
    }
  }

  // ---------- Prompts and direct dependencies ----------

  lemma {:induction false} NodeHasPath(t: Menus, f: Forest, x: Id) returns (path: seq<Id>)
    requires SymbolNode(t, f, x)
    ensures PathIn(f, path) && path[|path| - 1] == x
    decreases f
  {
    if f.node == x && f.kids == Nil && t.Item(x).OfSymbol? {
      path := [x];
    } else if SymbolNode(t, f.kids, x) {
      var below := NodeHasPath(t, f.kids, x);
      path := [f.node] + below;
      assert path[1..] == below;
    } else {
      path := NodeHasPath(t, f.rest, x);
    }
  }

  lemma {:induction false} DirectAtLeast(t: Menus, k: Config, v: Valuation, attrs: Attrs, f: Forest, x: Id, sym: Id)
    requires SymbolNode(t, f, x) && t.Item(x) == OfSymbol(sym)
    ensures ExprValue(k, v, AttrOf(attrs, x).dep) <= DirectIn(t, k, v, attrs, f, sym)
    decreases f
  {
    if f.node == x && f.kids == Nil && t.Item(x).OfSymbol? {
    } else if SymbolNode(t, f.kids, x) {
      DirectAtLeast(t, k, v, attrs, f.kids, x, sym);
    } else {
      DirectAtLeast(t, k, v, attrs, f.rest, x, sym);
    }
  }

  // No prompt of a symbol is more visible than the direct dependencies of the symbol allow.
  lemma PromptNeedsDirectDep(t: Menus, k: Config, v: Valuation, s: State, top: Id, kids: Forest, x: Id, sym: Id)
    requires Proper(t, v) && kids != Nil && t.Item(top).OfMenu?
    requires NoRepeats(Cons(top, kids, Nil)) && InRange(kids, |s.attrs|)
    requires SymbolNode(t, kids, x) && t.Item(x) == OfSymbol(sym) && sym < |s.props|
    ensures var r := Finalize(t, s, Cons(top, kids, Nil), Ref(t.y)).state;
            && |r.props| == |s.props|
            && (AttrOf(r.attrs, x).prompt.Some? ==>
                  ExprValue(k, v, AttrOf(r.attrs, x).prompt.value) <= ExprValue(k, v, r.props[sym].directDep))
  {
    var r := Finalize(t, s, Cons(top, kids, Nil), Ref(t.y)).state;
    FinalizeMeaning(t, k, v, s, top, kids);
    var path := NodeHasPath(t, kids, x);
    assert Means(t, k, v, s.attrs, r.attrs, path, ExprValue(k, v, AttrOf(s.attrs, top).dep),
                 ExprValue(k, v, t.Visibility(top)));
    DirectAtLeast(t, k, v, r.attrs, kids, x, sym);
  }
}
