/** Which node of a finalised menu tree is the parent of which.

    First each symbol takes the siblings behind it that depend on it below it, and they do the same in turn.
    That gives a forest that the parsed one determines, its nesting.  In the finalised tree the parent of a
    node is the nearest node above it in the nesting that has a prompt or is a choice.  So everything that
    was inside a menu with a prompt is still inside it, and nothing else is. */
module MenuParents {
  import opened Wrappers
  import opened Model
  import opened MenuForest
  import opened MenuLinks
  import opened MenuMeaning
  import opened MenuOrder
  import opened TreeConfig

  // ---------- Nodes above ----------

  // Whether a node keeps what is below it: it has a prompt or is a choice.
  predicate Keeps(t: Menus, attrs: Attrs, x: Id) {
    AttrOf(attrs, x).prompt.Some? || t.Item(x).OfChoice?
  }

  function Nearest(b: Id -> bool, x: Id, c: Option<Id>): Option<Id> {
    if b(x) then Some(x) else c
  }

  // The nodes that are not 'if' nodes, in order, each with the nearest node above it that `b` holds of; `c` is
  // the one above the forest.
  function Above(t: Menus, b: Id -> bool, f: Forest, c: Option<Id>): seq<(Id, Option<Id>)>
    decreases f
  {
    match f
    case Nil => []
    case Cons(x, kids, rest) => Label(t, x, c) + Above(t, b, kids, Nearest(b, x, c)) + Above(t, b, rest, c)
  }

  // All nodes in order, each with its parent.
  function ParentsOf(f: Forest, parent: Option<Id>): seq<(Id, Option<Id>)> {
    match f
    case Nil => []
    case Cons(x, kids, rest) => [(x, parent)] + ParentsOf(kids, Some(x)) + ParentsOf(rest, parent)
  }

  // The pointers of a linked tree are to these parents.
  lemma {:induction false} LinkedParents(links: Links, x: Option<Id>, f: Forest, parent: Option<Id>, end: Option<Id>)
    requires Linked(links, x, f, parent, end)
    ensures forall p :: p in ParentsOf(f, parent) ==> p.0 < |links| && links[p.0].parent == p.1
    decreases f
  {
    if f.Cons? {
      LinkedParents(links, links[f.node].list, f.kids, Some(f.node), None);
      LinkedParents(links, links[f.node].next, f.rest, parent, end);
    }
  }

  lemma {:induction false} AboveAppend(t: Menus, b: Id -> bool, f: Forest, g: Forest, c: Option<Id>)
    ensures Above(t, b, Append(f, g), c) == Above(t, b, f, c) + Above(t, b, g, c)
    decreases f
  {
    if f.Cons? {
      AboveAppend(t, b, f.rest, g, c);
      Associate(Label(t, f.node, c) + Above(t, b, f.kids, Nearest(b, f.node, c)), Above(t, b, f.rest, c),
                Above(t, b, g, c));
    } else {
      assert [] + Above(t, b, g, c) == Above(t, b, g, c);
    }
  }

  // Children put behind a node that `b` does not hold of keep their nearest node above.
  lemma PutBeside(t: Menus, b: Id -> bool, x: Id, kids: Forest, rest: Forest, c: Option<Id>)
    requires !b(x)
    ensures Above(t, b, Cons(x, Nil, Append(kids, rest)), c) == Above(t, b, Cons(x, kids, rest), c)
  {
    AboveAppend(t, b, kids, rest, c);
    var one := Label(t, x, c);
    Associate(one, Above(t, b, kids, c), Above(t, b, rest, c));
    assert one + [] == one;
  }

  // ---------- Flattening ----------

  ghost predicate KeepersOnly(t: Menus, attrs: Attrs, b: Id -> bool) {
    forall x: Id :: b(x) ==> Keeps(t, attrs, x)
  }

  lemma AboveHead(t: Menus, b: Id -> bool, x: Id, kids: Forest, f: Forest, g: Forest, c: Option<Id>)
    requires Above(t, b, f, c) == Above(t, b, g, c)
    ensures Above(t, b, Cons(x, kids, f), c) == Above(t, b, Cons(x, kids, g), c)
  {
  }

  lemma {:induction false} FlattenAbove(t: Menus, attrs: Attrs, b: Id -> bool, f: Forest, c: Option<Id>)
    requires KeepersOnly(t, attrs, b)
    ensures Above(t, b, Flatten(t, attrs, f), c) == Above(t, b, f, c)
    decreases Size(f)
  {
    if f.Cons? {
      var x := f.node;
      if f.kids != Nil && Flattens(t, attrs, x) {
        var beside := Append(f.kids, f.rest);
        FlattenAbove(t, attrs, b, beside, c);
        AboveHead(t, b, x, Nil, Flatten(t, attrs, beside), beside, c);
        PutBeside(t, b, x, f.kids, f.rest, c);
      } else {
        FlattenAbove(t, attrs, b, f.rest, c);
        AboveHead(t, b, x, f.kids, Flatten(t, attrs, f.rest), f.rest, c);
      }
    }
  }

  // There are no 'if' nodes, and just nodes that keep them have children.
  ghost predicate Settled(t: Menus, attrs: Attrs, f: Forest)
    decreases f
  {
    f.Cons? ==>
      && !t.Item(f.node).OfIf? && (f.kids == Nil || Keeps(t, attrs, f.node))
      && Settled(t, attrs, f.kids) && Settled(t, attrs, f.rest)
  }

  // What is below the nodes on the top level is settled.
  ghost predicate SettledBelow(t: Menus, attrs: Attrs, f: Forest)
    decreases f
  {
    f.Cons? ==> Settled(t, attrs, f.kids) && SettledBelow(t, attrs, f.rest)
  }

  // And just nodes that keep them have children.
  ghost predicate Flat(t: Menus, attrs: Attrs, f: Forest)
    decreases f
  {
    f.Cons? ==>
      (f.kids == Nil || Keeps(t, attrs, f.node)) && Settled(t, attrs, f.kids) && Flat(t, attrs, f.rest)
  }

  lemma {:induction false} SettledAppend(t: Menus, attrs: Attrs, f: Forest, g: Forest)
    requires Settled(t, attrs, f) && SettledBelow(t, attrs, g)
    ensures SettledBelow(t, attrs, Append(f, g))
    decreases f
  {
    if f.Cons? {
      SettledAppend(t, attrs, f.rest, g);
    }
  }

  lemma {:induction false} FlattenFlat(t: Menus, attrs: Attrs, f: Forest)
    requires SettledBelow(t, attrs, f)
    ensures Flat(t, attrs, Flatten(t, attrs, f))
    decreases Size(f)
  {
    if f.Cons? {
      if f.kids != Nil && Flattens(t, attrs, f.node) {
        SettledAppend(t, attrs, f.kids, f.rest);
        FlattenFlat(t, attrs, Append(f.kids, f.rest));
      } else {
        FlattenFlat(t, attrs, f.rest);
      }
    }
  }

  lemma {:induction false} RemoveAbove(t: Menus, attrs: Attrs, b: Id -> bool, f: Forest, c: Option<Id>)
    requires Flat(t, attrs, f) && IfsPromptless(t, attrs)
    ensures Above(t, b, RemoveIfs(t, f), c) == Above(t, b, f, c) && Settled(t, attrs, RemoveIfs(t, f))
    decreases f
  {
    if f.Cons? {
      RemoveAbove(t, attrs, b, f.rest, c);
      if t.Item(f.node).OfIf? {
        assert [] + [] + Above(t, b, f.rest, c) == Above(t, b, f.rest, c);
      }
    }
  }

  lemma TidiedAbove(t: Menus, attrs: Attrs, b: Id -> bool, f: Forest, c: Option<Id>)
    requires KeepersOnly(t, attrs, b) && IfsPromptless(t, attrs) && SettledBelow(t, attrs, f)
    ensures var g := RemoveIfs(t, Flatten(t, attrs, f));
            Above(t, b, g, c) == Above(t, b, f, c) && Settled(t, attrs, g)
  {
    FlattenAbove(t, attrs, b, f, c);
    FlattenFlat(t, attrs, f);
    RemoveAbove(t, attrs, b, Flatten(t, attrs, f), c);
  }

  // In a settled forest all parents are nodes that keep what is below them.
  lemma {:induction false} SettledParents(t: Menus, attrs: Attrs, b: Id -> bool, f: Forest, c: Option<Id>)
    requires Settled(t, attrs, f) && forall x: Id :: b(x) <==> Keeps(t, attrs, x)
    ensures ParentsOf(f, c) == Above(t, b, f, c)
    decreases f
  {
    if f.Cons? {
      if f.kids != Nil {
        SettledParents(t, attrs, b, f.kids, Some(f.node));
      }
      SettledParents(t, attrs, b, f.rest, c);
    }
  }

  // ---------- Prompts come and go with no step ----------

  ghost predicate PromptsSame(a: Attrs, b: Attrs) {
    forall x: Id :: AttrOf(a, x).prompt.Some? <==> AttrOf(b, x).prompt.Some?
  }

  lemma {:induction false} LevelPrompts(t: Menus, attrs: Attrs, f: Forest, base: Expr, visible: Expr)
    ensures PromptsSame(attrs, PropagateLevel(t, attrs, f, base, visible))
    decreases f
  {
    if f.Cons? {
      var next := if f.node < |attrs|
                  then attrs[f.node := Propagated(t, attrs[f.node], t.Item(f.node), base, visible)]
                  else attrs;
      assert PromptsSame(attrs, next);
      LevelPrompts(t, next, f.rest, base, visible);
    }
  }

  lemma {:induction false} AllPrompts(t: Menus, attrs: Attrs, f: Forest, visible: Expr)
    ensures PromptsSame(attrs, PropagateAll(t, attrs, f, visible))
    decreases f
  {
    if f.Cons? {
      var below := VisibleIf(t, f.node, visible);
      var level := PropagateLevel(t, attrs, f.kids, BaseDep(t, attrs, f.node), below);
      LevelPrompts(t, attrs, f.kids, BaseDep(t, attrs, f.node), below);
      AllPrompts(t, level, f.kids, below);
      AllPrompts(t, PropagateAll(t, level, f.kids, below), f.rest, visible);
    }
  }

  lemma {:induction false} SettledSame(t: Menus, a: Attrs, b: Attrs, f: Forest)
    requires PromptsSame(a, b) && Settled(t, a, f)
    ensures Settled(t, b, f)
    decreases f
  {
    if f.Cons? {
      SettledSame(t, a, b, f.kids);
      SettledSame(t, a, b, f.rest);
    }
  }

  lemma {:induction false} SettledBelowSame(t: Menus, a: Attrs, b: Attrs, f: Forest)
    requires PromptsSame(a, b) && SettledBelow(t, a, f)
    ensures SettledBelow(t, b, f)
    decreases f
  {
    if f.Cons? {
      SettledSame(t, a, b, f.kids);
      SettledBelowSame(t, a, b, f.rest);
    }
  }

  // ---------- The nesting ----------

  // Whether a node goes below a symbol that it stands behind: its prompt condition depends on the symbol, or
  // what it depends on does if it has no prompt.
  predicate Dependent(t: Menus, attrs: Attrs, sym: Id, x: Id) {
    var a := AttrOf(attrs, x);
    var e := if a.prompt.Some? then a.prompt.value else a.dep;
    MeantToDependOn(t, e, sym) || HasUnequalToY(t, e, sym)
  }

  function First(f: Forest): Option<Id> {
    if f == Nil then None else Some(f.node)
  }

  function Follower(f: Forest, next: Option<Id>): Option<Id> {
    if f == Nil then next else Some(f.node)
  }

  // The forest with everything below symbols put behind them again.
  function Unnested(t: Menus, f: Forest): Forest {
    match f
    case Nil => Nil
    case Cons(x, kids, rest) =>
      if t.Item(x).OfSymbol? then Cons(x, Nil, Append(Unnested(t, kids), Unnested(t, rest)))
      else Cons(x, Unnested(t, kids), Unnested(t, rest))
  }

  ghost predicate AllDependent(t: Menus, attrs: Attrs, sym: Id, f: Forest)
    decreases f
  {
    f.Cons? ==> Dependent(t, attrs, sym, f.node) && AllDependent(t, attrs, sym, f.rest)
  }

  // A symbol takes the nodes of `f`, which depend on it, but not the node `next` behind them, which does not.
  ghost predicate Takes(t: Menus, attrs: Attrs, sym: Id, f: Forest, next: Option<Id>) {
    AllDependent(t, attrs, sym, f) && (next.Some? ==> !Dependent(t, attrs, sym, next.value))
  }

  // The nodes below a symbol are those that follow it and depend on it, up to the first that does not; `next` is
  // the node that follows the forest.
  ghost predicate Nested(t: Menus, attrs: Attrs, f: Forest, next: Option<Id>)
    decreases f
  {
    f.Cons? ==>
      && Nested(t, attrs, f.rest, next)
      && if t.Item(f.node).OfSymbol? then
           Takes(t, attrs, t.Item(f.node).id, f.kids, Follower(f.rest, next))
           && Nested(t, attrs, f.kids, Follower(f.rest, next))
         else Nested(t, attrs, f.kids, None)
  }

  // What the forest that has been parsed turns into when symbols take their dependents.
  ghost predicate Nesting(t: Menus, attrs: Attrs, parsed: Forest, f: Forest) {
    Unnested(t, f) == parsed && Nested(t, attrs, f, None)
  }

  lemma {:induction false} UnnestedAppend(t: Menus, f: Forest, g: Forest)
    ensures Unnested(t, Append(f, g)) == Append(Unnested(t, f), Unnested(t, g))
    decreases f
  {
    if f.Cons? {
      UnnestedAppend(t, f.rest, g);
      if t.Item(f.node).OfSymbol? {
        AppendAssociative(Unnested(t, f.kids), Unnested(t, f.rest), Unnested(t, g));
      }
    }
  }

  // Two forests with something behind each.
  ghost predicate SameUnnested(t: Menus, attrs: Attrs, f: Forest, a: Forest, g: Forest, b: Forest) {
    && Append(Unnested(t, f), a) == Append(Unnested(t, g), b)
    && Nested(t, attrs, f, First(a)) && Nested(t, attrs, g, First(b))
  }

  // One after the other, they are what a symbol takes and leaves.
  ghost predicate TakesAndLeaves(t: Menus, attrs: Attrs, sym: Option<Id>, f: Forest, a: Forest) {
    if sym.Some? then Takes(t, attrs, sym.value, f, First(a)) else a == Nil
  }

  lemma SymbolApart(t: Menus, attrs: Attrs, f: Forest, a: Forest)
    requires f.Cons? && t.Item(f.node).OfSymbol? && Nested(t, attrs, f, First(a))
    ensures var later := Append(Unnested(t, f.rest), a);
            && Append(Unnested(t, f), a) == Cons(f.node, Nil, Append(Unnested(t, f.kids), later))
            && Takes(t, attrs, t.Item(f.node).id, f.kids, First(later)) && Nested(t, attrs, f.kids, First(later))
            && Nested(t, attrs, f.rest, First(a))
  {
    AppendAssociative(Unnested(t, f.kids), Unnested(t, f.rest), a);
    assert First(Append(Unnested(t, f.rest), a)) == Follower(f.rest, First(a));
  }

  lemma OtherApart(t: Menus, attrs: Attrs, f: Forest, a: Forest)
    requires f.Cons? && !t.Item(f.node).OfSymbol? && Nested(t, attrs, f, First(a))
    ensures Append(Unnested(t, f), a) == Cons(f.node, Unnested(t, f.kids), Append(Unnested(t, f.rest), a))
    ensures Append(Unnested(t, f.kids), Nil) == Unnested(t, f.kids)
    ensures Nested(t, attrs, f.kids, None) && Nested(t, attrs, f.rest, First(a))
  {
    AppendNil(Unnested(t, f.kids));
  }

  lemma OneIsEmpty(t: Menus, attrs: Attrs, sym: Option<Id>, f: Forest, a: Forest, g: Forest, b: Forest)
    requires SameUnnested(t, attrs, f, a, g, b) && (f == Nil || g == Nil)
    requires TakesAndLeaves(t, attrs, sym, f, a) && TakesAndLeaves(t, attrs, sym, g, b)
    ensures f == g && a == b
  {
  }

  // What symbols take is determined.
  lemma {:induction false} NestedUnique(t: Menus, attrs: Attrs, sym: Option<Id>, f: Forest, a: Forest, g: Forest,
                                        b: Forest)
    requires SameUnnested(t, attrs, f, a, g, b)
    requires TakesAndLeaves(t, attrs, sym, f, a) && TakesAndLeaves(t, attrs, sym, g, b)
    ensures f == g && a == b
    decreases f
  {
    if f == Nil || g == Nil {
      OneIsEmpty(t, attrs, sym, f, a, g, b);
    } else {
      assert f.node == g.node;
      if t.Item(f.node).OfSymbol? {
        SymbolApart(t, attrs, f, a);
        SymbolApart(t, attrs, g, b);
        NestedUnique(t, attrs, Some(t.Item(f.node).id), f.kids, Append(Unnested(t, f.rest), a),
                     g.kids, Append(Unnested(t, g.rest), b));
      } else {
        OtherApart(t, attrs, f, a);
        OtherApart(t, attrs, g, b);
        NestedUnique(t, attrs, None, f.kids, Nil, g.kids, Nil);
      }
      NestedUnique(t, attrs, sym, f.rest, a, g.rest, b);
    }
  }

  lemma NestingUnique(t: Menus, attrs: Attrs, parsed: Forest, f: Forest, g: Forest)
    requires Nesting(t, attrs, parsed, f) && Nesting(t, attrs, parsed, g)
    ensures f == g
  {
    AppendNil(Unnested(t, f));
    AppendNil(Unnested(t, g));
    NestedUnique(t, attrs, None, f, Nil, g, Nil);
  }

  // ---------- Finalising ----------

  // What holds when a list of siblings is about to be finalised.  `parsed` are the properties that the menu nodes
  // have been parsed with, and `final` those that they end up with.
  ghost predicate Ahead(t: Menus, s: State, f: Forest, visible: Expr, parsed: Attrs, final: Attrs) {
    && NoRepeats(f) && SymbolsAreLeaves(t, f) && PromptsSame(s.attrs, parsed)
    && SameInside(PropagateAll(t, s.attrs, f, visible), final, f)
  }

  lemma PromptsTwice(a: Attrs, b: Attrs, c: Attrs)
    requires PromptsSame(a, b) && PromptsSame(a, c)
    ensures PromptsSame(b, c)
  {
  }

  lemma AheadBelow(t: Menus, s: State, f: Forest, visible: Expr, parsed: Attrs, final: Attrs)
    requires Ahead(t, s, f, visible, parsed, final) && f.Cons?
    ensures var below := VisibleIf(t, f.node, visible);
            var level := PropagateLevel(t, s.attrs, f.kids, BaseDep(t, s.attrs, f.node), below);
            Ahead(t, s.(attrs := level), f.kids, below, parsed, final)
  {
    NoRepeatsParts(f);
    WithinKept(t, s.attrs, f, visible);
    var below := VisibleIf(t, f.node, visible);
    var level := PropagateLevel(t, s.attrs, f.kids, BaseDep(t, s.attrs, f.node), below);
    LevelPrompts(t, s.attrs, f.kids, BaseDep(t, s.attrs, f.node), below);
    PromptsTwice(s.attrs, level, parsed);
    forall x: Id | Nodes(f.kids)[x] > 0
      ensures AttrOf(PropagateAll(t, level, f.kids, below), x) == AttrOf(final, x)
    {
      CountParts(f, x);
    }
  }

  lemma AheadLeaf(t: Menus, s: State, f: Forest, visible: Expr, parsed: Attrs, final: Attrs, props: seq<Props>)
    requires Ahead(t, s, f, visible, parsed, final) && f.Cons? && f.kids == Nil
    ensures Ahead(t, s.(props := props), f.rest, visible, parsed, final)
  {
    NoRepeatsParts(f);
    assert PropagateAll(t, s.attrs, f, visible) == PropagateAll(t, s.attrs, f.rest, visible);
    forall x: Id | Nodes(f.rest)[x] > 0
      ensures AttrOf(PropagateAll(t, s.attrs, f.rest, visible), x) == AttrOf(final, x)
    {
      CountParts(f, x);
    }
  }

  lemma {:induction false} LeavesAppend(t: Menus, f: Forest, g: Forest)
    requires SymbolsAreLeaves(t, Append(f, g))
    ensures SymbolsAreLeaves(t, g)
    decreases f
  {
    if f.Cons? {
      LeavesAppend(t, f.rest, g);
    }
  }

  // After the first node and what it has taken.
  lemma AheadNext(t: Menus, s: State, head: Forest, later: Forest, visible: Expr, parsed: Attrs, final: Attrs)
    requires Ahead(t, s, Append(head, later), visible, parsed, final)
    ensures Ahead(t, Effect(t, s, head, visible), later, visible, parsed, final)
  {
    var whole := Append(head, later);
    NoRepeatsAppend(head, later);
    LeavesAppend(t, head, later);
    var mid := PropagateAll(t, s.attrs, head, visible);
    AllPrompts(t, s.attrs, head, visible);
    PromptsTwice(s.attrs, mid, parsed);
    PropagateAppend(t, s.attrs, head, later, visible);
    AppendNodes(head, later);
    forall x: Id | Nodes(later)[x] > 0 ensures AttrOf(PropagateAll(t, mid, later, visible), x) == AttrOf(final, x) {
      assert Nodes(whole)[x] == (Nodes(head) + Nodes(later))[x];
    }
  }

  lemma NextDependent(t: Menus, s: State, f: Forest, visible: Expr, parsed: Attrs, final: Attrs, sym: Id)
    requires Ahead(t, s, f, visible, parsed, final) && f.Cons?
    ensures AutoMenuDep(t, s.attrs, sym, f.node) <==> Dependent(t, final, sym, f.node)
  {
    WithinKept(t, s.attrs, f, visible);
    CountParts(f, f.node);
    var a := AttrOf(final, f.node);
    assert AttrOf(s.attrs, f.node) == a;
    DependsOnExact(t, if a.prompt.Some? then a.prompt.value else a.dep, sym);
  }

  // A first node with what is nested below it, and the siblings behind.
  lemma OneMoreNested(t: Menus, attrs: Attrs, x: Id, below: Forest, others: Forest, f: Forest, later: Forest,
                      last: Forest)
    requires Append(Unnested(t, Cons(x, below, Nil)), later) == f && Append(Unnested(t, others), last) == later
    requires Nested(t, attrs, Cons(x, below, Nil), First(later)) && Nested(t, attrs, others, First(last))
    ensures Append(Unnested(t, Cons(x, below, others)), last) == f
    ensures Nested(t, attrs, Cons(x, below, others), First(last))
  {
    var one := Cons(x, below, Nil);
    assert Append(one, others) == Cons(x, below, others);
    UnnestedAppend(t, one, others);
    AppendAssociative(Unnested(t, one), Unnested(t, others), last);
    assert Follower(others, First(last)) == First(later);
  }

  // What has been reached for a node: `kids` are its children, and `below` is nested below it.
  ghost predicate Reached(t: Menus, parsed: Attrs, final: Attrs, b: Id -> bool, f: Forest, kids: Forest, rest: Forest,
                          below: Forest, c: Option<Id>)
    requires f.Cons?
  {
    && Append(Unnested(t, Cons(f.node, below, Nil)), rest) == f
    && Nested(t, final, Cons(f.node, below, Nil), First(rest))
    && Above(t, b, kids, c) == Above(t, b, below, c) && Settled(t, parsed, kids)
  }

  // What has been reached for siblings.
  ghost predicate ReachedAll(t: Menus, parsed: Attrs, final: Attrs, b: Id -> bool, f: Forest, g: Forest, rest: Forest,
                             others: Forest, c: Option<Id>)
  {
    && Append(Unnested(t, others), rest) == f && Nested(t, final, others, First(rest))
    && Above(t, b, g, c) == Above(t, b, others, c) && SettledBelow(t, parsed, g)
  }

  lemma OneMoreReached(t: Menus, parsed: Attrs, final: Attrs, b: Id -> bool, f: Forest, kids: Forest, later: Forest,
                       below: Forest, g: Forest, rest: Forest, others: Forest, c: Option<Id>)
    requires f.Cons? && Reached(t, parsed, final, b, f, kids, later, below, Nearest(b, f.node, c))
    requires ReachedAll(t, parsed, final, b, later, g, rest, others, c)
    ensures ReachedAll(t, parsed, final, b, f, Cons(f.node, kids, g), rest, Cons(f.node, below, others), c)
  {
    OneMoreNested(t, final, f.node, below, others, f, later, rest);
  }

  // Tidying up what is below a node.
  lemma TidyReached(t: Menus, parsed: Attrs, attrs: Attrs, b: Id -> bool, g: Forest, c: Option<Id>)
    requires PromptsSame(attrs, parsed) && KeepersOnly(t, parsed, b) && IfsPromptless(t, parsed)
    requires SettledBelow(t, parsed, g)
    ensures var kids := RemoveIfs(t, Flatten(t, attrs, g));
            Above(t, b, kids, c) == Above(t, b, g, c) && Settled(t, parsed, kids)
  {
    SettledBelowSame(t, parsed, attrs, g);
    assert KeepersOnly(t, attrs, b) && IfsPromptless(t, attrs);
    TidiedAbove(t, attrs, b, g, c);
    SettledSame(t, attrs, parsed, RemoveIfs(t, Flatten(t, attrs, g)));
  }

  lemma EffectPrompts(t: Menus, s: State, f: Forest, visible: Expr, parsed: Attrs)
    requires PromptsSame(s.attrs, parsed)
    ensures PromptsSame(Effect(t, s, f, visible).attrs, parsed)
  {
    AllPrompts(t, s.attrs, f, visible);
    PromptsTwice(s.attrs, PropagateAll(t, s.attrs, f, visible), parsed);
  }

  lemma {:induction false} FinalizeAbove(t: Menus, s: State, f: Forest, visible: Expr, parsed: Attrs, final: Attrs,
                                         b: Id -> bool, c: Option<Id>) returns (below: Forest)
    requires f.Cons? && Ahead(t, s, f, visible, parsed, final)
    requires KeepersOnly(t, parsed, b) && IfsPromptless(t, parsed)
    ensures var r := Finalize(t, s, f, visible);
            Reached(t, parsed, final, b, f, r.forest.kids, r.forest.rest, below, Nearest(b, f.node, c))
    decreases Size(f), 0
  {
    var x, r := f.node, Finalize(t, s, f, visible);
    var inner := Nearest(b, x, c);
    if f.kids != Nil {
      var within := VisibleIf(t, x, visible);
      var s1 := s.(attrs := PropagateLevel(t, s.attrs, f.kids, BaseDep(t, s.attrs, x), within));
      AheadBelow(t, s, f, visible, parsed, final);
      below := FinalizeListAbove(t, s1, f.kids, within, parsed, final, b, inner);
      FinalizeListEffect(t, s1, f.kids, within);
      EffectPrompts(t, s1, f.kids, within, parsed);
      TidyReached(t, parsed, r.state.attrs, b, FinalizeList(t, s1, f.kids, within).forest, inner);
      AppendNil(Unnested(t, below));
    } else if t.Item(x).OfSymbol? {
      var sym := t.Item(x).id;
      var s1 := s.(props := AddProps(t, s.props, sym, AttrOf(s.attrs, x)));
      AheadLeaf(t, s, f, visible, parsed, final, s1.props);
      below := AbsorbAbove(t, s1, sym, f.rest, visible, parsed, final, b, inner);
      var a := Absorb(t, s1, sym, f.rest, visible);
      var taken := AbsorbEffect(t, s1, sym, f.rest, visible);
      EffectPrompts(t, s1, taken, visible, parsed);
      TidyReached(t, parsed, r.state.attrs, b, a.taken, inner);
      AppendNil(Unnested(t, below));
    } else {
      below := Nil;
    }
  }

  lemma {:induction false} FinalizeListAbove(t: Menus, s: State, f: Forest, visible: Expr, parsed: Attrs, final: Attrs,
                                             b: Id -> bool, c: Option<Id>) returns (all: Forest)
    requires Ahead(t, s, f, visible, parsed, final) && KeepersOnly(t, parsed, b) && IfsPromptless(t, parsed)
    ensures ReachedAll(t, parsed, final, b, f, FinalizeList(t, s, f, visible).forest, Nil, all, c)
    decreases Size(f), 1
  {
    if f == Nil {
      all := Nil;
    } else {
      var first := Finalize(t, s, f, visible);
      var later := first.forest.rest;
      var below := FinalizeAbove(t, s, f, visible, parsed, final, b, c);
      var taken := FinalizeEffect(t, s, f, visible);
      AheadNext(t, s, Cons(f.node, f.kids, taken), later, visible, parsed, final);
      var others := FinalizeListAbove(t, first.state, later, visible, parsed, final, b, c);
      OneMoreReached(t, parsed, final, b, f, first.forest.kids, later, below,
                     FinalizeList(t, first.state, later, visible).forest, Nil, others, c);
      all := Cons(f.node, below, others);
    }
  }

  lemma {:induction false} AbsorbAbove(t: Menus, s: State, sym: Id, f: Forest, visible: Expr, parsed: Attrs,
                                       final: Attrs, b: Id -> bool, c: Option<Id>) returns (all: Forest)
    requires Ahead(t, s, f, visible, parsed, final) && KeepersOnly(t, parsed, b) && IfsPromptless(t, parsed)
    ensures var r := Absorb(t, s, sym, f, visible);
            && ReachedAll(t, parsed, final, b, f, r.taken, r.rest, all, c)
            && Takes(t, final, sym, all, First(r.rest))
    decreases Size(f), 1
  {
    if f.Cons? {
      NextDependent(t, s, f, visible, parsed, final, sym);
    }
    if f == Nil || !AutoMenuDep(t, s.attrs, sym, f.node) {
      all := Nil;
    } else {
      var first := Finalize(t, s, f, visible);
      var later := first.forest.rest;
      var below := FinalizeAbove(t, s, f, visible, parsed, final, b, c);
      var taken := FinalizeEffect(t, s, f, visible);
      AheadNext(t, s, Cons(f.node, f.kids, taken), later, visible, parsed, final);
      var others := AbsorbAbove(t, first.state, sym, later, visible, parsed, final, b, c);
      var r := Absorb(t, first.state, sym, later, visible);
      OneMoreReached(t, parsed, final, b, f, first.forest.kids, later, below, r.taken, r.rest, others, c);
      all := Cons(f.node, below, others);
    }
  }

  // ---------- The finalised tree ----------

  function Keeping(t: Menus, attrs: Attrs): Id -> bool {
    (x: Id) => Keeps(t, attrs, x)
  }

  // The top menu, with everything in it.
  ghost predicate WholeTree(t: Menus, s: State, top: Id, kids: Forest) {
    && t.Item(top).OfMenu? && NoRepeats(Cons(top, kids, Nil)) && SymbolsAreLeaves(t, kids)
    && IfsPromptless(t, s.attrs)
  }

  lemma WholeTreeAbove(t: Menus, s: State, top: Id, kids: Forest, b: Id -> bool, c: Option<Id>) returns (nested: Forest)
    requires WholeTree(t, s, top, kids) && KeepersOnly(t, s.attrs, b)
    ensures var r := Finished(t, s, top, kids);
            && Nesting(t, r.state.attrs, kids, nested) && Settled(t, s.attrs, r.forest.kids)
            && Above(t, b, r.forest.kids, Nearest(b, top, c)) == Above(t, b, nested, Nearest(b, top, c))
  {
    var f, r := Cons(top, kids, Nil), Finished(t, s, top, kids);
    var taken := FinalizeEffect(t, s, f, Ref(t.y));
    assert taken == Nil && r.forest.rest == Nil;
    nested := FinalizeAbove(t, s, f, Ref(t.y), s.attrs, r.state.attrs, b, c);
    AppendNil(Unnested(t, Cons(top, nested, Nil)));
  }

  // In the finalised tree the parent of a node is the nearest node above it in the nesting that has a prompt or
  // is a choice, or the top node; and there is no other nesting.
  lemma FinalParents(t: Menus, s: State, top: Id, kids: Forest) returns (nested: Forest)
    requires WholeTree(t, s, top, kids)
    ensures var r := Finished(t, s, top, kids);
            && Nesting(t, r.state.attrs, kids, nested)
            && (forall f :: Nesting(t, r.state.attrs, kids, f) ==> f == nested)
            && ParentsOf(r.forest.kids, Some(top)) == Above(t, Keeping(t, s.attrs), nested, Some(top))
  {
    var r, b := Finished(t, s, top, kids), Keeping(t, s.attrs);
    nested := WholeTreeAbove(t, s, top, kids, b, Some(top));
    SettledParents(t, s.attrs, b, r.forest.kids, Some(top));
    forall f | Nesting(t, r.state.attrs, kids, f) ensures f == nested {
      NestingUnique(t, r.state.attrs, kids, f, nested);
    }
  }

  // And so are the pointers to parents that finalising in place leaves.
  lemma FinalPointers(t: Menus, s: State, top: Id, kids: Forest, links: Links) returns (nested: Forest)
    requires WholeTree(t, s, top, kids)
    requires Linked(links, Some(top), Finished(t, s, top, kids).forest, None, None)
    ensures Nesting(t, Finished(t, s, top, kids).state.attrs, kids, nested)
    ensures forall p :: p in Above(t, Keeping(t, s.attrs), nested, Some(top)) ==>
              p.0 < |links| && links[p.0].parent == p.1
  {
    nested := FinalParents(t, s, top, kids);
    LinkedParents(links, links[top].list, Finished(t, s, top, kids).forest.kids, Some(top), None);
  }

  // ---------- What is inside a menu ----------

  ghost predicate Inside(f: Forest, m: Id, x: Id)
    decreases f
  {
    f.Cons? && ((f.node == m && x in Preorder(f.kids)) || Inside(f.kids, m, x) || Inside(f.rest, m, x))
  }

  function Only(m: Id): Id -> bool {
    (x: Id) => x == m
  }

  lemma {:induction false} InsideIsIn(f: Forest, m: Id, x: Id)
    ensures Inside(f, m, x) ==> x in Preorder(f)
    decreases f
  {
    if f.Cons? {
      InsideIsIn(f.kids, m, x);
      InsideIsIn(f.rest, m, x);
    }
  }

  lemma {:induction false} AboveInside(t: Menus, f: Forest, m: Id, x: Id, c: Option<Id>)
    requires !t.Item(x).OfIf?
    ensures (x, Some(m)) in Above(t, Only(m), f, c) <==> Inside(f, m, x) || (c == Some(m) && x in Preorder(f))
    decreases f
  {
    if f.Cons? {
      var inner := Nearest(Only(m), f.node, c);
      AboveInside(t, f.kids, m, x, inner);
      AboveInside(t, f.rest, m, x, c);
      assert (x, Some(m)) in Label(t, f.node, c) <==> f.node == x && c == Some(m);
      InsideIsIn(f.kids, m, x);
      InsideIsIn(f.rest, m, x);
    }
  }

  lemma {:induction false} UnnestedAbove(t: Menus, b: Id -> bool, f: Forest, c: Option<Id>)
    requires forall x: Id :: b(x) ==> !t.Item(x).OfSymbol?
    ensures Above(t, b, Unnested(t, f), c) == Above(t, b, f, c)
    decreases f
  {
    if f.Cons? {
      UnnestedAbove(t, b, f.kids, Nearest(b, f.node, c));
      UnnestedAbove(t, b, f.rest, c);
      if t.Item(f.node).OfSymbol? {
        PutBeside(t, b, f.node, Unnested(t, f.kids), Unnested(t, f.rest), c);
      }
    }
  }

  // What a menu with a prompt has below it is what was inside it, and the same goes for choices; 'if' nodes are
  // gone.
  lemma MenuKeepsInside(t: Menus, s: State, top: Id, kids: Forest, m: Id, x: Id)
    requires WholeTree(t, s, top, kids) && m != top && !t.Item(x).OfIf?
    requires Keeps(t, s.attrs, m) && !t.Item(m).OfSymbol?
    ensures Inside(Finished(t, s, top, kids).forest.kids, m, x) <==> Inside(kids, m, x)
  {
    var r, b := Finished(t, s, top, kids), Only(m);
    var nested := WholeTreeAbove(t, s, top, kids, b, None);
    UnnestedAbove(t, b, nested, None);
    AboveInside(t, r.forest.kids, m, x, None);
    AboveInside(t, kids, m, x, None);
  }

  // A menu without a prompt keeps nothing: its nodes are put beside it.
  lemma PromptlessKeepsNothing(t: Menus, s: State, top: Id, kids: Forest, m: Id, x: Id)
    requires WholeTree(t, s, top, kids) && !Keeps(t, s.attrs, m)
    ensures !Inside(Finished(t, s, top, kids).forest.kids, m, x)
  {
    var nested := WholeTreeAbove(t, s, top, kids, Keeping(t, s.attrs), None);
    SettledInside(t, s.attrs, Finished(t, s, top, kids).forest.kids, m, x);
  }

  lemma {:induction false} SettledInside(t: Menus, attrs: Attrs, f: Forest, m: Id, x: Id)
    requires Settled(t, attrs, f) && !Keeps(t, attrs, m)
    ensures !Inside(f, m, x)
    decreases f
  {
    if f.Cons? {
      SettledInside(t, attrs, f.kids, m, x);
      SettledInside(t, attrs, f.rest, m, x);
    }
  }
}
