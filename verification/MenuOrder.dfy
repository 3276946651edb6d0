/** Finalising a menu tree keeps the order of everything but 'if' nodes, which it removes. */
module MenuOrder {
  import opened Wrappers
  import opened Model
  import opened MenuForest

  // What is left of a list of nodes without the 'if' nodes.
  function Shown(t: Menus, xs: seq<Id>): seq<Id> {
    if xs == [] then []
    else if t.Item(xs[0]).OfIf? then Shown(t, xs[1..])
    else [xs[0]] + Shown(t, xs[1..])
  }

  lemma {:induction false} ShownConcat(t: Menus, a: seq<Id>, b: seq<Id>)
    ensures Shown(t, a + b) == Shown(t, a) + Shown(t, b)
    decreases |a|
  {
    if a == [] {
      assert a + b == b;
    } else {
      assert (a + b)[1..] == a[1..] + b;
      ShownConcat(t, a[1..], b);
    }
  }

  // The nodes that are not 'if' nodes, in order, each with the nearest choice above it; `c` is the one above
  // the forest.
  function Labelled(t: Menus, f: Forest, c: Option<Id>): seq<(Id, Option<Id>)> {
    match f
    case Nil => []
    case Cons(x, kids, rest) => Label(t, x, c) + Labelled(t, kids, ChoiceBelow(t, x, c)) + Labelled(t, rest, c)
  }

  function Label(t: Menus, x: Id, c: Option<Id>): seq<(Id, Option<Id>)> {
    if t.Item(x).OfIf? then [] else [(x, c)]
  }

  // The nearest choice above the children of a node.
  function ChoiceBelow(t: Menus, x: Id, c: Option<Id>): Option<Id> {
    if t.Item(x).OfChoice? then Some(t.Item(x).id) else c
  }

  lemma {:induction false} LabelledAppend(t: Menus, f: Forest, g: Forest, c: Option<Id>)
    ensures Labelled(t, Append(f, g), c) == Labelled(t, f, c) + Labelled(t, g, c)
    decreases f
  {
    if f.Cons? {
      LabelledAppend(t, f.rest, g, c);
      var head := Label(t, f.node, c) + Labelled(t, f.kids, ChoiceBelow(t, f.node, c));
      Associate(head, Labelled(t, f.rest, c), Labelled(t, g, c));
    } else {
      assert [] + Labelled(t, g, c) == Labelled(t, g, c);
    }
  }

  // A node that is flattened is no choice; its children follow it on its level.
  lemma HeadFlattened(t: Menus, attrs: Attrs, f: Forest, c: Option<Id>)
    requires f.Cons? && f.kids != Nil && Flattens(t, attrs, f.node)
    ensures var g := Labelled(t, Flatten(t, attrs, Append(f.kids, f.rest)), c);
            Labelled(t, Flatten(t, attrs, f), c) == Label(t, f.node, c) + g
    ensures Labelled(t, f, c)
         == Label(t, f.node, c) + (Labelled(t, f.kids, c) + Labelled(t, f.rest, c))
  {
    var one := Label(t, f.node, c);
    Associate(one, Labelled(t, f.kids, c), Labelled(t, f.rest, c));
    assert one + [] == one;
  }

  lemma {:induction false} FlattenLabelled(t: Menus, attrs: Attrs, f: Forest, c: Option<Id>)
    ensures Labelled(t, Flatten(t, attrs, f), c) == Labelled(t, f, c)
    decreases Size(f)
  {
    if f.Cons? {
      if f.kids != Nil && Flattens(t, attrs, f.node) {
        FlattenLabelled(t, attrs, Append(f.kids, f.rest), c);
        LabelledAppend(t, f.kids, f.rest, c);
        HeadFlattened(t, attrs, f, c);
      } else {
        FlattenLabelled(t, attrs, f.rest, c);
      }
    }
  }

  // No 'if' node has a prompt.
  ghost predicate IfsPromptless(t: Menus, attrs: Attrs) {
    forall x: Id :: t.Item(x).OfIf? ==> AttrOf(attrs, x).prompt.None?
  }

  lemma {:induction false} LevelKeepsPrompts(t: Menus, attrs: Attrs, f: Forest, base: Expr, visible: Expr)
    requires IfsPromptless(t, attrs)
    ensures IfsPromptless(t, PropagateLevel(t, attrs, f, base, visible))
    decreases f
  {
    if f.Cons? {
      var next := if f.node < |attrs|
                  then attrs[f.node := Propagated(t, attrs[f.node], t.Item(f.node), base, visible)]
                  else attrs;
      assert forall x: Id :: AttrOf(next, x).prompt.None? <==> AttrOf(attrs, x).prompt.None?;
      LevelKeepsPrompts(t, next, f.rest, base, visible);
    }
  }

  // The 'if' nodes at the top have no children.
  ghost predicate IfsEmpty(t: Menus, f: Forest) {
    f.Cons? ==> (t.Item(f.node).OfIf? ==> f.kids == Nil) && IfsEmpty(t, f.rest)
  }

  // No 'if' nodes at all.
  ghost predicate NoIfs(t: Menus, f: Forest) {
    f.Cons? ==> !t.Item(f.node).OfIf? && NoIfs(t, f.kids) && NoIfs(t, f.rest)
  }

  // No 'if' nodes, except at the top.
  ghost predicate NoIfsBelow(t: Menus, f: Forest) {
    f.Cons? ==> NoIfs(t, f.kids) && NoIfsBelow(t, f.rest)
  }

  lemma {:induction false} NoIfsAppend(t: Menus, f: Forest, g: Forest)
    requires NoIfs(t, f) && NoIfsBelow(t, g)
    ensures NoIfsBelow(t, Append(f, g))
    decreases f
  {
    if f.Cons? {
      NoIfsAppend(t, f.rest, g);
    }
  }

  lemma {:induction false} FlattenIfs(t: Menus, attrs: Attrs, f: Forest)
    requires IfsPromptless(t, attrs) && NoIfsBelow(t, f)
    ensures IfsEmpty(t, Flatten(t, attrs, f)) && NoIfsBelow(t, Flatten(t, attrs, f))
    decreases Size(f)
  {
    if f.Cons? {
      if f.kids != Nil && Flattens(t, attrs, f.node) {
        NoIfsAppend(t, f.kids, f.rest);
        FlattenIfs(t, attrs, Append(f.kids, f.rest));
      } else {
        FlattenIfs(t, attrs, f.rest);
      }
    }
  }

  lemma {:induction false} RemoveKeepsLabels(t: Menus, f: Forest, c: Option<Id>)
    requires IfsEmpty(t, f) && NoIfsBelow(t, f)
    ensures Labelled(t, RemoveIfs(t, f), c) == Labelled(t, f, c) && NoIfs(t, RemoveIfs(t, f))
    decreases f
  {
    if f.Cons? {
      RemoveKeepsLabels(t, f.rest, c);
      if t.Item(f.node).OfIf? {
        assert [] + [] + Labelled(t, f.rest, c) == Labelled(t, f.rest, c);
      }
    }
  }

  // What happens to the children of a node once each of them has been finalised.
  lemma Tidied(t: Menus, attrs: Attrs, f: Forest, c: Option<Id>)
    requires IfsPromptless(t, attrs) && NoIfsBelow(t, f)
    ensures Labelled(t, RemoveIfs(t, Flatten(t, attrs, f)), c) == Labelled(t, f, c)
    ensures NoIfs(t, RemoveIfs(t, Flatten(t, attrs, f)))
  {
    FlattenLabelled(t, attrs, f, c);
    FlattenIfs(t, attrs, f);
    RemoveKeepsLabels(t, Flatten(t, attrs, f), c);
  }

  lemma LabelsSplit(t: Menus, x: Id, kids: Forest, rest: Forest, a: Forest, b: Forest, c: Option<Id>)
    requires Labelled(t, a, c) + Labelled(t, b, c) == Labelled(t, rest, c)
    ensures Labelled(t, Cons(x, kids, a), c) + Labelled(t, b, c) == Labelled(t, Cons(x, kids, rest), c)
  {
    var head := Label(t, x, c) + Labelled(t, kids, ChoiceBelow(t, x, c));
    Associate(head, Labelled(t, a, c), Labelled(t, b, c));
  }

  lemma LabelsTaken(t: Menus, x: Id, kids: Forest, rest: Forest, a: Forest, b: Forest, c: Option<Id>)
    requires Labelled(t, a, c) + Labelled(t, b, c) == Labelled(t, rest, c) && Labelled(t, kids, c) == Labelled(t, a, c)
    requires !t.Item(x).OfChoice?
    ensures Labelled(t, Cons(x, kids, b), c) == Labelled(t, Cons(x, Nil, rest), c)
  {
    var head := Label(t, x, c);
    Associate(head, Labelled(t, a, c), Labelled(t, b, c));
    assert head + [] == head;
  }

  // The nodes that are not 'if' nodes stay in order and below the same choices, and no 'if' node is left below
  // the first node.
  lemma {:induction false} FinalizeKeepsLabels(t: Menus, s: State, f: Forest, visible: Expr, c: Option<Id>)
    requires f.Cons? && IfsPromptless(t, s.attrs)
    ensures var r := Finalize(t, s, f, visible);
            && Labelled(t, r.forest, c) == Labelled(t, f, c)
            && NoIfs(t, r.forest.kids) && IfsPromptless(t, r.state.attrs)
    decreases Size(f), 0
  {
    var x, r := f.node, Finalize(t, s, f, visible);
    if f.kids != Nil {
      var below := VisibleIf(t, x, visible);
      var s1 := s.(attrs := PropagateLevel(t, s.attrs, f.kids, BaseDep(t, s.attrs, x), below));
      LevelKeepsPrompts(t, s.attrs, f.kids, BaseDep(t, s.attrs, x), below);
      FinalizeListKeepsLabels(t, s1, f.kids, below, ChoiceBelow(t, x, c));
      Tidied(t, r.state.attrs, FinalizeList(t, s1, f.kids, below).forest, ChoiceBelow(t, x, c));
    } else if t.Item(x).OfSymbol? {
      var s1 := s.(props := AddProps(t, s.props, t.Item(x).id, AttrOf(s.attrs, x)));
      AbsorbKeepsLabels(t, s1, t.Item(x).id, f.rest, visible, c);
      var a := Absorb(t, s1, t.Item(x).id, f.rest, visible);
      Tidied(t, r.state.attrs, a.taken, c);
      LabelsTaken(t, x, r.forest.kids, f.rest, a.taken, a.rest, c);
    }
  }

  lemma {:induction false} FinalizeListKeepsLabels(t: Menus, s: State, f: Forest, visible: Expr, c: Option<Id>)
    requires IfsPromptless(t, s.attrs)
    ensures var r := FinalizeList(t, s, f, visible);
            && Labelled(t, r.forest, c) == Labelled(t, f, c)
            && NoIfsBelow(t, r.forest) && IfsPromptless(t, r.state.attrs)
    decreases Size(f), 1
  {
    if f != Nil {
      var first := Finalize(t, s, f, visible);
      FinalizeKeepsLabels(t, s, f, visible, c);
      FinalizeListKeepsLabels(t, first.state, first.forest.rest, visible, c);
    }
  }

  lemma {:induction false} AbsorbKeepsLabels(t: Menus, s: State, sym: Id, f: Forest, visible: Expr, c: Option<Id>)
    requires IfsPromptless(t, s.attrs)
    ensures var r := Absorb(t, s, sym, f, visible);
            && Labelled(t, r.taken, c) + Labelled(t, r.rest, c) == Labelled(t, f, c)
            && NoIfsBelow(t, r.taken) && IfsPromptless(t, r.state.attrs)
    decreases Size(f), 1
  {
    if f == Nil || !AutoMenuDep(t, s.attrs, sym, f.node) {
      assert [] + Labelled(t, f, c) == Labelled(t, f, c);
    } else {
      var first := Finalize(t, s, f, visible);
      FinalizeKeepsLabels(t, s, f, visible, c);
      AbsorbKeepsLabels(t, first.state, sym, first.forest.rest, visible, c);
      var others := Absorb(t, first.state, sym, first.forest.rest, visible);
      LabelsSplit(t, f.node, first.forest.kids, first.forest.rest, others.taken, others.rest, c);
    }
  }

  // ---------- The order alone ----------

  function ShownIn(t: Menus, f: Forest): seq<Id> {
    Shown(t, Preorder(f))
  }

  lemma {:induction false} AppendPreorder(f: Forest, g: Forest)
    ensures Preorder(Append(f, g)) == Preorder(f) + Preorder(g)
    decreases f
  {
    if f.Cons? {
      AppendPreorder(f.rest, g);
    }
  }

  lemma {:induction false} FlattenPreorder(t: Menus, attrs: Attrs, f: Forest)
    ensures Preorder(Flatten(t, attrs, f)) == Preorder(f)
    decreases Size(f)
  {
    if f.Cons? {
      if f.kids != Nil && Flattens(t, attrs, f.node) {
        FlattenPreorder(t, attrs, Append(f.kids, f.rest));
        AppendPreorder(f.kids, f.rest);
        assert Preorder(Cons(f.node, Nil, Append(f.kids, f.rest))) == Preorder(f);
      } else {
        FlattenPreorder(t, attrs, f.rest);
      }
    }
  }

  lemma ShownCons(t: Menus, x: Id, kids: Forest, rest: Forest)
    ensures ShownIn(t, Cons(x, kids, rest)) == Shown(t, [x]) + ShownIn(t, kids) + ShownIn(t, rest)
  {
    ShownConcat(t, [x] + Preorder(kids), Preorder(rest));
    ShownConcat(t, [x], Preorder(kids));
  }

  function Firsts(xs: seq<(Id, Option<Id>)>): seq<Id> {
    seq(|xs|, i requires 0 <= i < |xs| => xs[i].0)
  }

  lemma FirstsConcat(a: seq<(Id, Option<Id>)>, b: seq<(Id, Option<Id>)>)
    ensures Firsts(a + b) == Firsts(a) + Firsts(b)
  {
  }

  lemma {:induction false} LabelledShown(t: Menus, f: Forest, c: Option<Id>)
    ensures Firsts(Labelled(t, f, c)) == ShownIn(t, f)
    decreases f
  {
    if f.Cons? {
      var inner := ChoiceBelow(t, f.node, c);
      LabelledShown(t, f.kids, inner);
      LabelledShown(t, f.rest, c);
      ShownCons(t, f.node, f.kids, f.rest);
      var head, kids, rest := Label(t, f.node, c), Labelled(t, f.kids, inner), Labelled(t, f.rest, c);
      assert Firsts(head) == Shown(t, [f.node]);
      FirstsConcat(head, kids);
      FirstsConcat(head + kids, rest);
    }
  }

  lemma FinalizeKeepsOrder(t: Menus, s: State, f: Forest, visible: Expr)
    requires f.Cons? && IfsPromptless(t, s.attrs)
    ensures var r := Finalize(t, s, f, visible); ShownIn(t, r.forest) == ShownIn(t, f) && NoIfs(t, r.forest.kids)
  {
    FinalizeKeepsLabels(t, s, f, visible, None);
    LabelledShown(t, f, None);
    LabelledShown(t, Finalize(t, s, f, visible).forest, None);
  }
}
