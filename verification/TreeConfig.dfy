/** What a finalised menu tree guarantees of the configuration that is evaluated.

    Symbols take their prompt conditions from their menu nodes, and their dependencies from what has been
    collected.  So no symbol is visible unless its direct dependencies are met, and the mode of a choice
    limits the visibility of its symbols. */
module TreeConfig {
  import opened Wrappers
  import opened Model
  import opened Values
  import opened Reference
  import opened ConfigFile
  import opened ChoiceModes
  import opened MenuForest
  import opened MenuMeaning
  import opened MenuOrder
  import MinConfig

  // The prompt conditions of a symbol at its menu nodes `xs`.
  function PromptsAt(t: Menus, attrs: Attrs, xs: seq<Id>, sym: Id): seq<Expr>
    decreases |xs|
  {
    if xs == [] then []
    else
      (if t.Item(xs[0]) == OfSymbol(sym) && AttrOf(attrs, xs[0]).prompt.Some? then [AttrOf(attrs, xs[0]).prompt.value]
       else [])
      + PromptsAt(t, attrs, xs[1..], sym)
  }

  lemma {:induction false} PromptHasNode(t: Menus, attrs: Attrs, xs: seq<Id>, sym: Id, e: Expr) returns (x: Id)
    requires e in PromptsAt(t, attrs, xs, sym)
    ensures x in xs && t.Item(x) == OfSymbol(sym) && AttrOf(attrs, x).prompt == Some(e)
    decreases |xs|
  {
    if t.Item(xs[0]) == OfSymbol(sym) && AttrOf(attrs, xs[0]).prompt == Some(e) {
      x := xs[0];
    } else {
      x := PromptHasNode(t, attrs, xs[1..], sym, e);
    }
  }

  // The parser puts nothing below a symbol.
  ghost predicate SymbolsAreLeaves(t: Menus, f: Forest)
    decreases f
  {
    f.Cons? ==>
      (t.Item(f.node).OfSymbol? ==> f.kids == Nil) && SymbolsAreLeaves(t, f.kids) && SymbolsAreLeaves(t, f.rest)
  }

  lemma {:induction false} LeafIsSymbolNode(t: Menus, f: Forest, x: Id)
    requires SymbolsAreLeaves(t, f) && x in Preorder(f) && t.Item(x).OfSymbol?
    ensures SymbolNode(t, f, x)
    decreases f
  {
    if f.node != x {
      if x in Preorder(f.kids) {
        LeafIsSymbolNode(t, f.kids, x);
      } else {
        LeafIsSymbolNode(t, f.rest, x);
      }
    }
  }

  // ---------- The mode of a choice in what is below it ----------

  // The nearest choice above the last node of a path is `c`; `inside` says whether that is so already where
  // the path begins.
  ghost predicate BelowChoice(t: Menus, path: seq<Id>, c: Id, inside: bool)
    decreases |path|
  {
    path != []
    && if |path| == 1 then inside
       else BelowChoice(t, path[1..], c, if t.Item(path[0]).OfChoice? then t.Item(path[0]).id == c else inside)
  }

  // n and y are themselves, and not the choice.
  ghost predicate ConstantsFit(t: Menus, k: Config) {
    && t.n < |k.items| && k.Item(t.n).Preset() && k.Item(t.n).preset == Some(0)
    && k.Item(t.y).Preset() && k.Item(t.y).preset == Some(2)
  }

  lemma CappedAnd(t: Menus, k: Config, a: Expr, b: Expr, c: Id)
    requires ConstantsFit(t, k) && k.Item(c).Choice? && (CappedBy(k, a, c) || CappedBy(k, b, c))
    ensures CappedBy(k, MakeAnd(t, a, b), c)
  {
  }

  ghost predicate CappedAttr(t: Menus, k: Config, x: Id, a: Attr, c: Id) {
    && CappedBy(k, a.dep, c)
    && (t.Item(x).SymbolOrChoice() && a.prompt.Some? ==> CappedBy(k, a.prompt.value, c))
  }

  lemma PropagatedCapped(t: Menus, k: Config, x: Id, a: Attr, base: Expr, visible: Expr, c: Id)
    requires ConstantsFit(t, k) && k.Item(c).Choice? && CappedBy(k, base, c)
    ensures CappedAttr(t, k, x, Propagated(t, a, t.Item(x), base, visible), c)
  {
    var dep := MakeAnd(t, a.dep, base);
    CappedAnd(t, k, a.dep, base, c);
    CappedAnd(t, k, visible, dep, c);
    if a.prompt.Some? {
      CappedAnd(t, k, a.prompt.value, MakeAnd(t, visible, dep), c);
    }
  }

  lemma {:induction false} PathCapped(t: Menus, k: Config, c: Id, before: Attrs, attrs: Attrs, f: Forest, base: Expr,
                                      visible: Expr, path: seq<Id>, inside: bool)
    requires ConstantsFit(t, k) && k.Item(c).Choice?
    requires NoRepeats(f) && InRange(f, |attrs|) && LevelDone(t, before, attrs, f, base, visible)
    requires PathIn(f, path) && BelowChoice(t, path, c, inside) && (inside ==> CappedBy(k, base, c))
    ensures var x := path[|path| - 1]; CappedAttr(t, k, x, AttrOf(PropagateAll(t, attrs, f, visible), x), c)
    decreases f, 1
  {
    NoRepeatsParts(f);
    WithinKept(t, attrs, f, visible);
    if path[0] != f.node || (|path| > 1 && !PathIn(f.kids, path[1..])) {
      var within := Within(t, attrs, f, visible);
      LevelDoneSame(t, before, attrs, within, f.rest, base, visible);
      PathCapped(t, k, c, before, within, f.rest, base, visible, path, inside);
    } else if |path| == 1 {
      PropagatedCapped(t, k, f.node, AttrOf(before, f.node), base, visible, c);
    } else {
      PathBelowCapped(t, k, c, before, attrs, f, base, visible, path, inside);
    }
  }

  lemma {:induction false} PathBelowCapped(t: Menus, k: Config, c: Id, before: Attrs, attrs: Attrs, f: Forest,
                                           base: Expr, visible: Expr, path: seq<Id>, inside: bool)
    requires ConstantsFit(t, k) && k.Item(c).Choice?
    requires NoRepeats(f) && InRange(f, |attrs|) && LevelDone(t, before, attrs, f, base, visible)
    requires f.Cons? && |path| > 1 && path[0] == f.node && PathIn(f.kids, path[1..])
    requires BelowChoice(t, path, c, inside) && (inside ==> CappedBy(k, base, c))
    ensures var x := path[|path| - 1]; CappedAttr(t, k, x, AttrOf(PropagateAll(t, attrs, f, visible), x), c)
    decreases f, 0
  {
    NoRepeatsParts(f);
    WithinKept(t, attrs, f, visible);
    var below, inner := VisibleIf(t, f.node, visible), BaseDep(t, attrs, f.node);
    var deeper := if t.Item(f.node).OfChoice? then t.Item(f.node).id == c else inside;
    if inside {
      PropagatedCapped(t, k, f.node, AttrOf(before, f.node), base, visible, c);
    }
    LevelGetsDone(t, before, attrs, f.kids, inner, below);
    PathCapped(t, k, c, before, PropagateLevel(t, attrs, f.kids, inner, below), f.kids, inner, below, path[1..], deeper);
    PathInNodes(f.kids, path[1..]);
    assert path[1..][|path[1..]| - 1] == path[|path| - 1];
  }

  // In the finalised tree.
  lemma FinalizedCapped(t: Menus, k: Config, c: Id, s: State, top: Id, kids: Forest, path: seq<Id>)
    requires ConstantsFit(t, k) && k.Item(c).Choice? && kids != Nil && t.Item(top).OfMenu?
    requires NoRepeats(Cons(top, kids, Nil)) && InRange(kids, |s.attrs|)
    requires PathIn(kids, path) && BelowChoice(t, path, c, false)
    ensures var r := Finalize(t, s, Cons(top, kids, Nil), Ref(t.y)).state;
            CappedAttr(t, k, path[|path| - 1], AttrOf(r.attrs, path[|path| - 1]), c)
  {
    NoRepeatsParts(Cons(top, kids, Nil));
    var below, base := VisibleIf(t, top, Ref(t.y)), BaseDep(t, s.attrs, top);
    var level := s.(attrs := PropagateLevel(t, s.attrs, kids, base, below));
    FinalizeListEffect(t, level, kids, below);
    LevelGetsDone(t, s.attrs, s.attrs, kids, base, below);
    PathCapped(t, k, c, s.attrs, level.attrs, kids, base, below, path, false);
  }

  // ---------- The configuration ----------

  // A parsed tree: the top menu, with everything in it.
  ghost predicate Parsed(t: Menus, s: State, top: Id, kids: Forest) {
    && kids != Nil && t.Item(top).OfMenu? && NoRepeats(Cons(top, kids, Nil)) && InRange(kids, |s.attrs|)
    && SymbolsAreLeaves(t, kids)
  }

  // The symbols of the configuration have what the finalised tree gives them.
  ghost predicate FromTree(t: Menus, k: Config, s: State, top: Id, kids: Forest) {
    var r := Finished(t, s, top, kids).state;
    && Parsed(t, s, top, kids) && ConstantsFit(t, k)
    && forall sym: Id :: DefinedSymbol(k, sym) ==>
         sym < |s.props| && SymbolFromTree(t, k, r, kids, sym)
  }

  ghost predicate SymbolFromTree(t: Menus, k: Config, r: State, kids: Forest, sym: Id) {
    && k.Item(sym).Symbol? && sym < |r.props| && k.Item(sym).directDep == r.props[sym].directDep
    && k.Item(sym).prompts == PromptsAt(t, r.attrs, Preorder(kids), sym)
  }

  ghost predicate Beside(f: Forest, x: Id) {
    f.Cons? && (f.node == x || Beside(f.rest, x))
  }

  // The parent of `x` is a node of the choice.
  ghost predicate ChildOf(t: Menus, f: Forest, x: Id, c: Id)
    decreases f
  {
    f.Cons?
    && ((t.Item(f.node) == OfChoice(c) && Beside(f.kids, x)) || ChildOf(t, f.kids, x, c) || ChildOf(t, f.rest, x, c))
  }

  lemma {:induction false} BesideHasSym(t: Menus, f: Forest, sym: Id)
    ensures sym in SymsBeside(t, f) <==> exists x :: Beside(f, x) && t.Item(x) == OfSymbol(sym)
    decreases f
  {
    if f.Cons? {
      BesideHasSym(t, f.rest, sym);
      assert Beside(f, f.node);
    }
  }

  // What is collected are the symbols that have a node with the choice for its parent.
  lemma {:induction false} CollectedAreChildren(t: Menus, f: Forest, c: Id, sym: Id)
    ensures sym in ChoiceSyms(t, f, c) <==> exists x :: ChildOf(t, f, x, c) && t.Item(x) == OfSymbol(sym)
    decreases f
  {
    if f.Cons? {
      CollectedAreChildren(t, f.kids, c, sym);
      CollectedAreChildren(t, f.rest, c, sym);
      BesideHasSym(t, f.kids, sym);
    }
  }

  // They are collected in the order of the nodes.
  lemma {:induction false} BesideInOrder(t: Menus, f: Forest, x: Id, kids: Forest, g: Forest)
    ensures SymsBeside(t, Append(f, Cons(x, kids, g)))
         == SymsBeside(t, f) + (if t.Item(x).OfSymbol? then [t.Item(x).id] else []) + SymsBeside(t, g)
    ensures SymsBeside(t, Nil) == []
    decreases f
  {
    if f.Cons? {
      BesideInOrder(t, f.rest, x, kids, g);
    }
  }

  ghost predicate HasChoice(t: Menus, f: Forest, c: Id) {
    f.Cons? && (t.Item(f.node) == OfChoice(c) || HasChoice(t, f.kids, c) || HasChoice(t, f.rest, c))
  }

  // `x` is the only node of the choice, and has the children `kids`.
  ghost predicate OnlyNode(t: Menus, f: Forest, c: Id, x: Id, kids: Forest)
    decreases f
  {
    f.Cons? &&
    if t.Item(f.node) == OfChoice(c) then
      f.node == x && f.kids == kids && !HasChoice(t, f.kids, c) && !HasChoice(t, f.rest, c)
    else
      || (OnlyNode(t, f.kids, c, x, kids) && !HasChoice(t, f.rest, c))
      || (OnlyNode(t, f.rest, c, x, kids) && !HasChoice(t, f.kids, c))
  }

  lemma {:induction false} NoneCollected(t: Menus, f: Forest, c: Id)
    requires !HasChoice(t, f, c)
    ensures ChoiceSyms(t, f, c) == []
    decreases f
  {
    if f.Cons? {
      NoneCollected(t, f.kids, c);
      NoneCollected(t, f.rest, c);
    }
  }

  // For a choice with one node, just those directly below it.
  lemma {:induction false} CollectedBelow(t: Menus, f: Forest, c: Id, x: Id, kids: Forest)
    requires OnlyNode(t, f, c, x, kids)
    ensures ChoiceSyms(t, f, c) == SymsBeside(t, kids)
    decreases f
  {
    if t.Item(f.node) == OfChoice(c) {
      NoneCollected(t, f.kids, c);
      NoneCollected(t, f.rest, c);
    } else if OnlyNode(t, f.kids, c, x, kids) && !HasChoice(t, f.rest, c) {
      CollectedBelow(t, f.kids, c, x, kids);
      NoneCollected(t, f.rest, c);
    } else {
      CollectedBelow(t, f.rest, c, x, kids);
      NoneCollected(t, f.kids, c);
    }
  }

  // ---------- The parents in the finalised tree ----------

  lemma {:induction false} BesideLabelled(t: Menus, f: Forest, x: Id, inside: Option<Id>)
    requires Beside(f, x) && !t.Item(x).OfIf?
    ensures (x, inside) in Labelled(t, f, inside)
    decreases f
  {
    if f.node == x {
      assert (x, inside) in Label(t, x, inside);
    } else {
      BesideLabelled(t, f.rest, x, inside);
    }
  }

  lemma {:induction false} ChildLabelled(t: Menus, f: Forest, x: Id, c: Id, inside: Option<Id>)
    requires ChildOf(t, f, x, c) && !t.Item(x).OfIf?
    ensures (x, Some(c)) in Labelled(t, f, inside)
    decreases f
  {
    if t.Item(f.node) == OfChoice(c) && Beside(f.kids, x) {
      BesideLabelled(t, f.kids, x, Some(c));
    } else if ChildOf(t, f.kids, x, c) {
      ChildLabelled(t, f.kids, x, c, ChoiceBelow(t, f.node, inside));
    } else {
      ChildLabelled(t, f.rest, x, c, inside);
    }
  }

  // All the way from the top, the nearest choice above is the one of the label.
  lemma {:induction false} LabelledPath(t: Menus, f: Forest, x: Id, c: Id, inside: Option<Id>) returns (path: seq<Id>)
    requires (x, Some(c)) in Labelled(t, f, inside)
    ensures PathIn(f, path) && path[|path| - 1] == x && BelowChoice(t, path, c, inside == Some(c))
    decreases f
  {
    if (x, Some(c)) in Label(t, f.node, inside) {
      path := [x];
    } else if (x, Some(c)) in Labelled(t, f.kids, ChoiceBelow(t, f.node, inside)) {
      var below := LabelledPath(t, f.kids, x, c, ChoiceBelow(t, f.node, inside));
      path := [f.node] + below;
      assert path[1..] == below;
    } else {
      path := LabelledPath(t, f.rest, x, c, inside);
    }
  }

  ghost predicate InsideChoice(t: Menus, kids: Forest, x: Id, c: Id) {
    exists path :: PathIn(kids, path) && path[|path| - 1] == x && BelowChoice(t, path, c, false)
  }

  function Finished(t: Menus, s: State, top: Id, kids: Forest): Finalized {
    Finalize(t, s, Cons(top, kids, Nil), Ref(t.y))
  }

  // A child of a choice in the finalised tree was inside it as parsed, with no other choice in between.
  lemma ChildWasInside(t: Menus, s: State, top: Id, kids: Forest, x: Id, c: Id)
    requires t.Item(top).OfMenu? && IfsPromptless(t, s.attrs) && !t.Item(x).OfIf?
    requires ChildOf(t, Finished(t, s, top, kids).forest.kids, x, c)
    ensures InsideChoice(t, kids, x, c)
  {
    var f, r := Cons(top, kids, Nil), Finished(t, s, top, kids);
    FinalizeKeepsLabels(t, s, f, Ref(t.y), None);
    ChildLabelled(t, r.forest.kids, x, c, None);
    assert (x, Some(c)) in Labelled(t, r.forest, None);
    assert (x, Some(c)) !in Label(t, top, None);
    var path := LabelledPath(t, kids, x, c, None);
  }

  // No symbol of the choice is defined with a prompt outside the choice.
  ghost predicate PromptsInChoice(t: Menus, s: State, top: Id, kids: Forest, c: Id) {
    var r := Finished(t, s, top, kids);
    forall x :: x in Preorder(kids) && t.Item(x).OfSymbol? && t.Item(x).id in ChoiceSyms(t, r.forest.kids, c) ==>
      AttrOf(r.state.attrs, x).prompt.Some? ==> ChildOf(t, r.forest.kids, x, c)
  }

  // A choice with the symbols that are collected for it is proper if it and the symbols are bool or tristate, and
  // have no prompts elsewhere.
  lemma TreeChoiceProper(t: Menus, k: Config, s: State, top: Id, kids: Forest, c: Id)
    requires FromTree(t, k, s, top, kids) && c < |k.items| && k.Item(c).Choice? && k.Item(c).Logical()
    requires k.Item(c).syms == ChoiceSyms(t, Finished(t, s, top, kids).forest.kids, c)
    requires forall x :: x in k.Item(c).syms ==> DefinedSymbol(k, x) && k.Item(x).Logical()
    requires IfsPromptless(t, s.attrs) && PromptsInChoice(t, s, top, kids, c)
    ensures ProperChoice(k, c)
  {
    var r := Finished(t, s, top, kids).state;
    forall x, e | x in k.Item(c).syms && e in k.Item(x).prompts ensures CappedBy(k, e, c) {
      assert SymbolFromTree(t, k, r, kids, x);
      var node := PromptHasNode(t, r.attrs, Preorder(kids), x, e);
      ChildWasInside(t, s, top, kids, node, c);
      var path :| PathIn(kids, path) && path[|path| - 1] == node && BelowChoice(t, path, c, false);
      FinalizedCapped(t, k, c, s, top, kids, path);
    }
  }

  lemma {:induction false} PromptMaxBelow(k: Config, v: Valuation, prompts: seq<Expr>, limit: Tri)
    requires forall e :: e in prompts ==> ExprValue(k, v, e) <= limit
    ensures PromptMax(k, v, prompts) <= limit
    decreases |prompts|
  {
    if prompts != [] {
      PromptMaxBelow(k, v, prompts[1..], limit);
    }
  }

  // No symbol is visible unless its direct dependencies are met.
  lemma TreeVisibility(t: Menus, k: Config, us: Users, s: State, top: Id, kids: Forest, sym: Id)
    requires FromTree(t, k, s, top, kids) && Good(k, us) && DefinedSymbol(k, sym)
    ensures var v := Evaluate(k, us); ValOf(v, sym).vis != 0 ==> ExprValue(k, v, k.Item(sym).directDep) != 0
  {
    var v := Evaluate(k, us);
    var r := Finalize(t, s, Cons(top, kids, Nil), Ref(t.y)).state;
    SolvedTri(k, us, t.n);
    SolvedVis(k, us, sym);
    YIsY(t, k, us);
    forall e | e in k.Item(sym).prompts ensures ExprValue(k, v, e) <= ExprValue(k, v, k.Item(sym).directDep) {
      assert SymbolFromTree(t, k, r, kids, sym);
      var node := PromptHasNode(t, r.attrs, Preorder(kids), sym, e);
      LeafIsSymbolNode(t, kids, node);
      PromptNeedsDirectDep(t, k, v, s, top, kids, node, sym);
    }
    PromptMaxBelow(k, v, k.Item(sym).prompts, ExprValue(k, v, k.Item(sym).directDep));
  }

  // What minimal configuration files rely on.
  lemma TreeSound(t: Menus, k: Config, us: Users, s: State, top: Id, kids: Forest)
    requires FromTree(t, k, s, top, kids) && Good(k, us)
    ensures MinConfig.Sound(k, Evaluate(k, us))
  {
    forall sym: Id | DefinedSymbol(k, sym)
      ensures ValOf(Evaluate(k, us), sym).vis != 0 ==> ExprValue(k, Evaluate(k, us), k.Item(sym).directDep) != 0
    {
      TreeVisibility(t, k, us, s, top, kids, sym);
    }
  }

  lemma YIsY(t: Menus, k: Config, us: Users)
    requires Good(k, us) && ConstantsFit(t, k)
    ensures Proper(t, Evaluate(k, us))
  {
    assert t.y < |k.items|;
    SolvedTri(k, us, t.n);
    SolvedTri(k, us, t.y);
  }
}
