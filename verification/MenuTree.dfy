/** The menu tree as objects that point to each other, finalised in place. */
module MenuTree {
  import opened Wrappers
  import opened Model
  import opened MenuForest
  import opened MenuLinks
  import opened MenuOrder

  class MenuNode {
    const id: Id
    var next: MenuNode?
    var list: MenuNode?
    var parent: MenuNode?
    var attr: Attr

    constructor (id: Id, attr: Attr)
      ensures this.id == id && this.attr == attr && next == null && list == null && parent == null
    {
      this.id, this.attr := id, attr;
      next, list, parent := null, null, null;
    }
  }

  function IdOf(node: MenuNode?): Option<Id> {
    if node == null then None else Some(node.id)
  }

  // One of the menu nodes, if any.
  ghost predicate Among(nodes: seq<MenuNode>, node: MenuNode?) {
    node == null || (node.id < |nodes| && nodes[node.id] == node)
  }

  // The links and the properties of a menu node.
  ghost predicate Holds(nodes: seq<MenuNode>, x: Id, link: Link, attr: Attr)
    requires x < |nodes|
    reads nodes
  {
    var node := nodes[x];
    && node.id == x && node.attr == attr
    && Among(nodes, node.next) && Among(nodes, node.list) && Among(nodes, node.parent)
    && link == Link(IdOf(node.next), IdOf(node.list), IdOf(node.parent))
  }

  class Tree {
    const t: Menus
    const nodes: seq<MenuNode>
    var props: seq<Props>

    // What the menu nodes hold, side by side.
    ghost var links: Links
    ghost var attrs: Attrs

    constructor (t: Menus, nodes: seq<MenuNode>, props: seq<Props>, ghost links: Links, ghost attrs: Attrs)
      requires |links| == |attrs| == |nodes|
      requires forall x: Id :: x < |nodes| ==> Holds(nodes, x, links[x], attrs[x])
      ensures Coupled() && this.t == t && this.nodes == nodes
      ensures this.links == links && S() == State(attrs, props)
    {
      this.t, this.nodes, this.props := t, nodes, props;
      this.links, this.attrs := links, attrs;
    }

    ghost predicate Own(node: MenuNode?) {
      Among(nodes, node)
    }

    ghost predicate NodeCoupled(x: Id)
      requires x < |nodes| == |links| == |attrs|
      reads this, nodes
    {
      Holds(nodes, x, links[x], attrs[x])
    }

    ghost predicate Coupled()
      reads this, nodes
    {
      && |links| == |attrs| == |nodes|
      && forall x: Id :: x < |nodes| ==> NodeCoupled(x)
    }

    ghost function S(): State
      reads this
    {
      State(attrs, props)
    }

    // ---------- Single changes ----------

    method SetProps(to: seq<Props>)
      requires Coupled()
      modifies `props
      ensures Coupled() && props == to
    {
      props := to;
      forall x: Id | x < |nodes| ensures NodeCoupled(x) {
        assert old(NodeCoupled(x));
      }
    }

    method SetNext(node: MenuNode, to: MenuNode?)
      requires Coupled() && Own(node) && Own(to)
      modifies this, nodes
      ensures Coupled() && props == old(props) && attrs == old(attrs)
      ensures links == old(links)[node.id := old(links)[node.id].(next := IdOf(to))]
    {
      node.next := to;
      links := links[node.id := links[node.id].(next := IdOf(to))];
      forall x: Id | x < |nodes| ensures NodeCoupled(x) {
        assert old(NodeCoupled(x) && NodeCoupled(node.id));
      }
    }

    method SetList(node: MenuNode, to: MenuNode?)
      requires Coupled() && Own(node) && Own(to)
      modifies this, nodes
      ensures Coupled() && props == old(props) && attrs == old(attrs)
      ensures links == old(links)[node.id := old(links)[node.id].(list := IdOf(to))]
    {
      node.list := to;
      links := links[node.id := links[node.id].(list := IdOf(to))];
      forall x: Id | x < |nodes| ensures NodeCoupled(x) {
        assert old(NodeCoupled(x) && NodeCoupled(node.id));
      }
    }

    method SetParent(node: MenuNode, to: MenuNode?)
      requires Coupled() && Own(node) && Own(to)
      modifies this, nodes
      ensures Coupled() && props == old(props) && attrs == old(attrs)
      ensures links == old(links)[node.id := old(links)[node.id].(parent := IdOf(to))]
    {
      node.parent := to;
      links := links[node.id := links[node.id].(parent := IdOf(to))];
      forall x: Id | x < |nodes| ensures NodeCoupled(x) {
        assert old(NodeCoupled(x) && NodeCoupled(node.id));
      }
    }

    method SetAttr(node: MenuNode, attr: Attr)
      requires Coupled() && Own(node)
      modifies this, nodes
      ensures Coupled() && props == old(props) && links == old(links)
      ensures attrs == old(attrs)[node.id := attr]
    {
      node.attr := attr;
      attrs := attrs[node.id := attr];
      forall x: Id | x < |nodes| ensures NodeCoupled(x) {
        assert old(NodeCoupled(x) && NodeCoupled(node.id));
      }
    }

    // ---------- _flatten() ----------

    // Gives one more of the children of a node the parent of the node.
    method Adopt(node: MenuNode, child: MenuNode, ghost done: Forest, ghost todo: Forest)
      requires Coupled() && Own(node) && Own(child) && Adopting(links, node.id, IdOf(child), done, todo) && todo.Cons?
      modifies this, nodes
      ensures Coupled() && props == old(props) && attrs == old(attrs)
      ensures OthersSame(old(links), links, todo) && links[node.id] == old(links)[node.id]
      ensures Own(child.next) && IdOf(child.next) == links[child.id].next
      ensures Adopting(links, node.id, IdOf(child.next), Append(done, Cons(todo.node, todo.kids, Nil)), todo.rest)
    {
      assert NodeCoupled(node.id);
      SetParent(child, node.parent);
      Adopted(old(links), links, node.id, done, todo);
      assert NodeCoupled(child.id);
    }

    // Gives the children of a node the parent of the node, and returns the last of them.
    method Reparent(node: MenuNode, ghost kids: Forest) returns (last: MenuNode)
      requires Coupled() && Own(node) && kids.Cons? && NoRepeats(kids) && Nodes(kids)[node.id] == 0
      requires Linked(links, links[node.id].list, kids, Some(node.id), None)
      modifies this, nodes
      ensures Coupled() && props == old(props) && attrs == old(attrs) && OthersSame(old(links), links, kids)
      ensures Linked(links, links[node.id].list, kids, links[node.id].parent, None)
      ensures Own(last) && last.id == Last(kids)
    {
      assert NodeCoupled(node.id);
      last := node.list;
      ghost var done, todo := Nil, kids;
      while true
        invariant Coupled() && props == old(props) && attrs == old(attrs) && OthersSame(old(links), links, kids)
        invariant Own(last) && todo.Cons? && Append(done, todo) == kids && links[node.id] == old(links)[node.id]
        invariant Adopting(links, node.id, IdOf(last), done, todo)
        decreases Size(todo)
      {
        ghost var before := links;
        Adopt(node, last, done, todo);
        LastAppend(done, todo.node, todo.kids);
        AppendNodes(done, todo);
        OthersTwice(old(links), before, links, kids, todo);
        AppendAssociative(done, Cons(todo.node, todo.kids, Nil), todo.rest);
        if last.next == null {
          AppendNil(Append(done, Cons(todo.node, todo.kids, Nil)));
          break;
        }
        done, todo := Append(done, Cons(todo.node, todo.kids, Nil)), todo.rest;
        last := last.next;
      }
    }

    // Moves the children of a node up, to the siblings that follow it.
    method Splice(node: MenuNode, ghost kids: Forest, ghost rest: Forest, ghost parent: Option<Id>)
      requires Coupled() && Own(node) && kids.Cons? && NoRepeats(Cons(node.id, kids, rest))
      requires Linked(links, Some(node.id), Cons(node.id, kids, rest), parent, None)
      modifies this, nodes
      ensures Coupled() && props == old(props) && attrs == old(attrs)
      ensures OthersSame(old(links), links, Cons(node.id, kids, rest))
      ensures Linked(links, Some(node.id), Cons(node.id, Nil, Append(kids, rest)), parent, None)
    {
      NoRepeatsParts(Cons(node.id, kids, rest));
      var last := Reparent(node, kids);
      ghost var a := links;
      LinkedOthers(old(links), a, a[node.id].next, rest, kids, parent, None);
      assert NodeCoupled(node.id);
      SetNext(last, node.next);
      ghost var b := links;
      assert NodeCoupled(node.id);
      SetNext(node, node.list);
      ghost var c := links;
      SetList(node, null);
      Spliced(old(links), a, b, c, links, node.id, kids, rest, parent);
    }

    // One step of the loop: the node is left without children if it is flattened.
    method FlattenNode(node: MenuNode, ghost first: Id, ghost done: Forest, ghost todo: Forest,
                       ghost parent: Option<Id>, ghost whole: Forest) returns (ghost flat: Forest)
      requires Coupled() && Own(node) && todo.Cons?
      requires Flattening(t, attrs, links, Some(first), IdOf(node), done, todo, parent, whole)
      modifies this, nodes
      ensures Coupled() && props == old(props) && attrs == old(attrs) && OthersSame(old(links), links, whole)
      ensures flat.Cons? && Size(flat) == Size(todo) && node.id < |links| && Own(node.next)
      ensures Flattening(t, attrs, links, Some(first), IdOf(node.next), Append(done, Cons(flat.node, flat.kids, Nil)),
                         flat.rest, parent, whole)
    {
      assert NodeCoupled(node.id);
      FlatteningParts(t, attrs, links, Some(first), IdOf(node), done, todo, parent, whole);
      LinkedHead(links, Some(node.id), todo, parent, None);
      flat := todo;
      if node.list != null && node.attr.prompt.None? && !t.Item(node.id).OfChoice? {
        Splice(node, todo.kids, todo.rest, parent);
        FlatteningSpliced(t, attrs, old(links), links, Some(first), done, todo, parent, whole);
        OthersWider(old(links), links, todo, whole);
        flat := Cons(todo.node, Nil, Append(todo.kids, todo.rest));
        assert NodeCoupled(node.id);
      }
      FlatteningOn(t, attrs, links, Some(first), done, flat, parent, whole);
    }

    // _flatten()
    method FlattenSiblings(first: MenuNode, ghost f: Forest, ghost parent: Option<Id>)
      requires Coupled() && Own(first) && NoRepeats(f) && Linked(links, Some(first.id), f, parent, None)
      modifies this, nodes
      ensures Coupled() && props == old(props) && attrs == old(attrs) && OthersSame(old(links), links, f)
      ensures Linked(links, Some(first.id), Flatten(t, attrs, f), parent, None)
    {
      var node: MenuNode? := first;
      ghost var done, todo := Nil, f;
      while node != null
        invariant Coupled() && props == old(props) && attrs == old(attrs) && OthersSame(old(links), links, f)
        invariant Own(node) && Flattening(t, attrs, links, Some(first.id), IdOf(node), done, todo, parent, f)
        decreases Size(todo)
      {
        ghost var flat := FlattenNode(node, first.id, done, todo, parent, f);
        done, todo := Append(done, Cons(flat.node, flat.kids, Nil)), flat.rest;
        node := node.next;
      }
      AppendNil(done);
    }

    // ---------- _remove_ifs() ----------

    // The first of a list of siblings that is not an 'if' node.
    method SkipIfs(start: MenuNode?, ghost f: Forest, ghost parent: Option<Id>)
      returns (cur: MenuNode?, ghost todo: Forest)
      requires Coupled() && Own(start) && Linked(links, IdOf(start), f, parent, None)
      ensures Own(cur) && Linked(links, IdOf(cur), todo, parent, None) && Skipped(t, f, todo)
    {
      cur, todo := start, f;
      while cur != null && t.Item(cur.id).OfIf?
        invariant Own(cur) && Linked(links, IdOf(cur), todo, parent, None)
        invariant RemoveIfs(t, todo) == RemoveIfs(t, f) && Nodes(todo) <= Nodes(f) && Size(todo) <= Size(f)
        decreases Size(todo)
      {
        assert NodeCoupled(cur.id);
        SkipOne(t, links, cur.id, todo, parent);
        cur, todo := cur.next, todo.rest;
      }
    }

    // One step of the loop: the next sibling is the next one that is not an 'if' node.
    method RemoveAfter(node: MenuNode, cur: MenuNode, ghost done: Forest, ghost todo: Forest, ghost whole: Forest)
        returns (next: MenuNode?, ghost rest: Forest)
      requires Coupled() && Own(node) && Own(cur) && Removing(t, links, node.id, IdOf(cur), done, todo, whole)
        && todo.Cons?
      modifies this, nodes
      ensures Coupled() && props == old(props) && attrs == old(attrs)
      ensures OthersSame(old(links), links, whole) && links[node.id] == old(links)[node.id]
      ensures Own(next) && Size(rest) < Size(todo)
      ensures Removing(t, links, node.id, IdOf(next), Append(done, Cons(todo.node, todo.kids, Nil)), rest, whole)
    {
      assert NodeCoupled(cur.id);
      LinkedHead(links, IdOf(cur), todo, Some(node.id), None);
      next, rest := SkipIfs(cur.next, todo.rest, Some(node.id));
      RemovingOn(t, links, node.id, IdOf(next), done, todo, rest, whole);
      SetNext(cur, next);
    }

    method RemoveIfNodes(node: MenuNode, ghost f: Forest)
      requires Coupled() && Own(node) && NoRepeats(f) && Nodes(f)[node.id] == 0
      requires Linked(links, links[node.id].list, f, Some(node.id), None)
      modifies this, nodes
      ensures Coupled() && props == old(props) && attrs == old(attrs)
      ensures OthersSame(old(links)[node.id := links[node.id]], links, f)
      ensures links[node.id] == old(links)[node.id].(list := links[node.id].list)
      ensures Linked(links, links[node.id].list, RemoveIfs(t, f), Some(node.id), None)
    {
      assert NodeCoupled(node.id);
      ghost var todo;
      var cur: MenuNode?;
      cur, todo := SkipIfs(node.list, f, Some(node.id));
      SetList(node, cur);
      LinkedElsewhere(old(links), node.id, links[node.id], IdOf(cur), todo, Some(node.id), None);
      ghost var done, start := Nil, links;
      while cur != null
        invariant Coupled() && props == old(props) && attrs == old(attrs) && OthersSame(start, links, f)
        invariant links[node.id] == start[node.id]
        invariant Own(cur) && Removing(t, links, node.id, IdOf(cur), done, todo, f)
        decreases Size(todo)
      {
        var next: MenuNode?;
        ghost var rest;
        next, rest := RemoveAfter(node, cur, done, todo, f);
        done, todo := Append(done, Cons(todo.node, todo.kids, Nil)), rest;
        cur := next;
      }
      AppendNil(done);
    }

    // ---------- _propagate_deps() and _add_props_to_sym() ----------

    method PropagateDeps(node: MenuNode, visible: Expr, ghost kids: Forest)
      requires Coupled() && Own(node) && Linked(links, links[node.id].list, kids, Some(node.id), None)
      modifies this, nodes
      ensures Coupled() && props == old(props) && links == old(links)
      ensures attrs == PropagateLevel(t, old(attrs), kids, BaseDep(t, old(attrs), node.id), visible)
    {
      assert NodeCoupled(node.id);
      var base := if t.Item(node.id).OfChoice? then Ref(t.Item(node.id).id) else node.attr.dep;
      var cur := node.list;
      ghost var todo := kids;
      while cur != null
        invariant Coupled() && props == old(props) && links == old(links)
        invariant Own(cur) && Linked(links, IdOf(cur), todo, Some(node.id), None)
        invariant PropagateLevel(t, attrs, todo, base, visible) == PropagateLevel(t, old(attrs), kids, base, visible)
        decreases Size(todo)
      {
        assert NodeCoupled(cur.id);
        LinkedHead(links, IdOf(cur), todo, Some(node.id), None);
        SetAttr(cur, Propagated(t, cur.attr, t.Item(cur.id), base, visible));
        assert NodeCoupled(cur.id);
        todo := todo.rest;
        cur := cur.next;
      }
    }

    method AddSelects(sym: Id, ss: seq<Select>)
      requires Coupled()
      modifies `props
      ensures Coupled() && props == AddReverse(t, old(props), sym, ss)
    {
      assert ss[0..] == ss;
      for i := 0 to |ss|
        invariant Coupled() && AddReverse(t, props, sym, ss[i..]) == AddReverse(t, old(props), sym, ss)
      {
        OneSelect(t, props, sym, ss, i, i + 1);
        var x := ss[i].target;
        if x < |props| {
          SetProps(props[x := props[x].(revDep := MakeOr(t, props[x].revDep, MakeAnd(t, Ref(sym), ss[i].cond)))]);
        }
      }
    }

    method AddImplies(sym: Id, ss: seq<Select>)
      requires Coupled()
      modifies `props
      ensures Coupled() && props == AddWeakReverse(t, old(props), sym, ss)
    {
      assert ss[0..] == ss;
      for i := 0 to |ss|
        invariant Coupled() && AddWeakReverse(t, props, sym, ss[i..]) == AddWeakReverse(t, old(props), sym, ss)
      {
        OneImply(t, props, sym, ss, i, i + 1);
        var x := ss[i].target;
        if x < |props| {
          SetProps(props[x := props[x].(weakRevDep := MakeOr(t, props[x].weakRevDep,
                                                             MakeAnd(t, Ref(sym), ss[i].cond)))]);
        }
      }
    }

    method AddPropsToSym(node: MenuNode)
      requires Coupled() && Own(node) && t.Item(node.id).OfSymbol?
      modifies `props
      ensures Coupled() && props == AddProps(t, old(props), t.Item(node.id).id, attrs[node.id])
    {
      assert NodeCoupled(node.id);
      var sym, a := t.Item(node.id).id, node.attr;
      if sym < |props| {
        SetProps(props[sym := props[sym].(directDep := MakeOr(t, props[sym].directDep, a.dep),
                                          defaults := props[sym].defaults + a.defaults,
                                          ranges := props[sym].ranges + a.ranges)]);
      }
      AddSelects(sym, a.selects);
      AddImplies(sym, a.implies);
    }

    // ---------- _finalize_tree() ----------

    method FinalizeTree(node: MenuNode, visible: Expr, ghost f: Forest, ghost parent: Option<Id>)
      requires Coupled() && Own(node) && f.Cons? && NoRepeats(f) && Linked(links, Some(node.id), f, parent, None)
      modifies this, nodes
      ensures Coupled() && OthersSame(old(links), links, f)
      ensures var r := Finalize(t, old(S()), f, visible);
              S() == r.state && Linked(links, Some(node.id), r.forest, parent, None)
      decreases Size(f), 1
    {
      LinkedHead(links, Some(node.id), f, parent, None);
      assert NodeCoupled(node.id);
      ghost var g, rest := Nil, f.rest;
      if node.list != null {
        g := FinalizeParent(node, visible, f, parent);
      } else if t.Item(node.id).OfSymbol? {
        g, rest := FinalizeSymbol(node, visible, f, parent);
      } else {
        ChildrenOf(links, links, f, Nil, parent);
      }
      Tidy(node, old(links), f, g, rest, parent);
    }

    // The case of a node that has children as parsed.
    method FinalizeParent(node: MenuNode, visible: Expr, ghost f: Forest, ghost parent: Option<Id>)
      returns (ghost g: Forest)
      requires Coupled() && Own(node) && f.Cons? && NoRepeats(f) && Linked(links, Some(node.id), f, parent, None)
      requires f.kids != Nil
      modifies this, nodes
      ensures Coupled() && Children(old(links), links, f, g, f.rest, parent)
      ensures var r := Finalize(t, old(S()), f, visible);
              S() == r.state && r.forest == Cons(node.id, RemoveIfs(t, Flatten(t, attrs, g)), f.rest)
      decreases Size(f), 0
    {
      LinkedHead(links, Some(node.id), f, parent, None);
      NoRepeatsParts(f);
      assert NodeCoupled(node.id);
      var below := visible;
      if t.Item(node.id).OfMenu? {
        below := MakeAnd(t, visible, t.Visibility(node.id));
      }
      PropagateDeps(node, below, f.kids);
      g := FinalizeChildren(node, below, f.kids);
      ChildrenOf(old(links), links, f, g, parent);
    }

    // The case of a symbol.
    method FinalizeSymbol(node: MenuNode, visible: Expr, ghost f: Forest, ghost parent: Option<Id>)
        returns (ghost taken: Forest, ghost rest: Forest)
      requires Coupled() && Own(node) && f.Cons? && NoRepeats(f) && Linked(links, Some(node.id), f, parent, None)
      requires f.kids == Nil && t.Item(node.id).OfSymbol?
      modifies this, nodes
      ensures Coupled() && Children(old(links), links, f, taken, rest, parent)
      ensures var r := Finalize(t, old(S()), f, visible);
              S() == r.state && r.forest == Cons(node.id, RemoveIfs(t, Flatten(t, attrs, taken)), rest)
      decreases Size(f), 0
    {
      LinkedHead(links, Some(node.id), f, parent, None);
      NoRepeatsParts(f);
      assert NodeCoupled(node.id);
      AddPropsToSym(node);
      taken, rest := AbsorbSiblings(node, visible, f.rest, parent);
      AbsorbedChildren(old(links), links, f, taken, rest, parent);
    }

    // The state of the loop that absorbs the siblings of a symbol.  It goes on while `more`.
    ghost predicate AbsorbLoop(node: MenuNode, last: MenuNode, more: bool, taken: Forest, rest: Forest,
                               parent: Option<Id>, visible: Expr, whole: Forest, result: Absorbed)
      reads this, nodes
    {
      && Coupled() && Own(node) && Own(last) && t.Item(node.id).OfSymbol? && Own(last.next)
      && Absorbing(t, links, S(), node.id, last.id, taken, rest, parent, visible, whole, result)
      && (if more then
            last.next != null && rest.Cons? && AutoMenuDep(t, attrs, t.Item(node.id).id, last.next.id)
          else
            result == Absorbed(S(), taken, rest))
    }

    // Whether the loop goes on: the next sibling depends on the symbol.
    method AbsorbsNext(node: MenuNode, last: MenuNode, ghost visible: Expr, ghost taken: Forest, ghost rest: Forest,
                       ghost parent: Option<Id>, ghost whole: Forest, ghost result: Absorbed) returns (more: bool)
      requires Coupled() && Own(node) && Own(last) && t.Item(node.id).OfSymbol?
      requires Absorbing(t, links, S(), node.id, last.id, taken, rest, parent, visible, whole, result)
      ensures AbsorbLoop(node, last, more, taken, rest, parent, visible, whole, result)
    {
      assert NodeCoupled(last.id);
      AppendNil(taken);
      more := false;
      if last.next != null {
        NextDepends(t, links, S(), node.id, last.id, last.next.id, taken, rest, parent, visible, whole, result);
        assert NodeCoupled(last.next.id);
        var a := last.next.attr;
        more := ExprDependsOn(t, if a.prompt.Some? then a.prompt.value else a.dep, t.Item(node.id).id);
      }
    }

    // One step of the loop.
    method AbsorbNext(node: MenuNode, last: MenuNode, visible: Expr, ghost taken: Forest, ghost rest: Forest,
                      ghost parent: Option<Id>, ghost whole: Forest, ghost result: Absorbed)
        returns (next: MenuNode, ghost r: Forest)
      requires AbsorbLoop(node, last, true, taken, rest, parent, visible, whole, result)
      modifies this, nodes
      ensures Coupled() && OthersSame(old(links), links, whole) && links[node.id] == old(links)[node.id] && Own(next)
      ensures r.Cons? && Size(r.rest) < Size(rest)
      ensures Absorbing(t, links, S(), node.id, next.id, Append(taken, Cons(r.node, r.kids, Nil)), r.rest, parent,
                        visible, whole, result)
      decreases Size(rest), 2
    {
      next := last.next;
      assert NodeCoupled(last.id);
      TakingParts(links, node.id, last.id, taken, rest, parent, whole);
      FinalizeTree(next, visible, rest, parent);
      r := Finalize(t, old(S()), rest, visible).forest;
      ghost var b := links;
      SetParent(next, node);
      AbsorbingOn(t, old(links), b, old(S()), node.id, last.id, taken, rest, parent, visible, whole, result);
    }

    // The loop itself: the last of the siblings that are absorbed.
    method FindAbsorbed(node: MenuNode, visible: Expr, ghost f: Forest, ghost parent: Option<Id>)
        returns (last: MenuNode, ghost taken: Forest, ghost rest: Forest)
      requires Coupled() && Own(node) && t.Item(node.id).OfSymbol? && NoRepeats(f) && Nodes(f)[node.id] == 0
      requires Linked(links, links[node.id].next, f, parent, None)
      modifies this, nodes
      ensures Coupled() && OthersSame(old(links), links, f) && links[node.id] == old(links)[node.id] && Own(last)
      ensures Absorb(t, old(S()), t.Item(node.id).id, f, visible) == Absorbed(S(), taken, rest)
      ensures Taking(links, node.id, last.id, taken, rest, parent, f)
      decreases Size(f), 3
    {
      last, taken, rest := node, Nil, f;
      ghost var result := Absorb(t, S(), t.Item(node.id).id, f, visible);
      var more := AbsorbsNext(node, last, visible, taken, rest, parent, f, result);
      while more
        invariant AbsorbLoop(node, last, more, taken, rest, parent, visible, f, result)
        invariant OthersSame(old(links), links, f) && links[node.id] == old(links)[node.id]
        invariant Size(rest) <= Size(f)
        decreases Size(rest), more
      {
        ghost var r;
        ghost var a := links;
        last, r := AbsorbNext(node, last, visible, taken, rest, parent, f, result);
        OthersTwice(old(links), a, links, f, f);
        taken, rest := Append(taken, Cons(r.node, r.kids, Nil)), r.rest;
        more := AbsorbsNext(node, last, visible, taken, rest, parent, f, result);
      }
    }

    method AbsorbSiblings(node: MenuNode, visible: Expr, ghost f: Forest, ghost parent: Option<Id>)
        returns (ghost taken: Forest, ghost rest: Forest)
      requires Coupled() && Own(node) && t.Item(node.id).OfSymbol? && NoRepeats(f) && Nodes(f)[node.id] == 0
      requires links[node.id].list == None && Linked(links, links[node.id].next, f, parent, None)
      modifies this, nodes
      ensures Coupled() && Absorb(t, old(S()), t.Item(node.id).id, f, visible) == Absorbed(S(), taken, rest)
      ensures Taken(old(links), links, node.id, taken, rest, parent, f)
      decreases Size(f), 4
    {
      var last;
      last, taken, rest := FindAbsorbed(node, visible, f, parent);
      ghost var a := links;
      if last != node {
        Tilt(node, last);
        TiltedUp(a, links, node.id, last.id, taken, rest, parent, f);
      } else {
        NoneTaken(a, node.id, taken, rest, parent, f);
      }
      TakenBefore(old(links), a, links, node.id, taken, rest, parent, f);
    }

    // Makes the siblings from the next one to `last` children of the node.
    method Tilt(node: MenuNode, last: MenuNode)
      requires Coupled() && Own(node) && Own(last) && last != node
      modifies this, nodes
      ensures Coupled() && S() == old(S())
      ensures var a := old(links);
              links == a[node.id := Link(a[last.id].next, a[node.id].next, a[node.id].parent)]
                        [last.id := a[last.id].(next := None)]
    {
      assert NodeCoupled(node.id) && NodeCoupled(last.id);
      SetList(node, node.next);
      assert NodeCoupled(last.id);
      SetNext(node, last.next);
      SetNext(last, null);
    }

    // Flattens the children of a node, and removes 'if' nodes from them.
    method Tidy(node: MenuNode, ghost before: Links, ghost f: Forest, ghost g: Forest, ghost rest: Forest,
                ghost parent: Option<Id>)
      requires Coupled() && Own(node) && f.Cons? && f.node == node.id && Children(before, links, f, g, rest, parent)
      modifies this, nodes
      ensures Coupled() && S() == old(S()) && OthersSame(before, links, f)
      ensures Linked(links, Some(node.id), Cons(node.id, RemoveIfs(t, Flatten(t, attrs, g)), rest), parent, None)
    {
      assert NodeCoupled(node.id);
      if node.list != null {
        FlattenSiblings(node.list, g, Some(node.id));
        ghost var a := links;
        FlattenNodes(t, attrs, g);
        RemoveIfNodes(node, Flatten(t, attrs, g));
        TidyResult(t, before, old(links), a, links, f, g, Flatten(t, attrs, g), RemoveIfs(t, Flatten(t, attrs, g)),
                   rest, parent);
      }
    }

    // One step of the loop over the children of a node.
    method FinalizeChild(node: MenuNode, cur: MenuNode, visible: Expr, ghost done: Forest, ghost todo: Forest,
                         ghost whole: Forest, ghost result: Finalized) returns (ghost r: Forest)
      requires Coupled() && Own(node) && Own(cur) && todo.Cons?
      requires Visiting(t, links, S(), node.id, IdOf(cur), done, todo, visible, whole, result)
      modifies this, nodes
      ensures Coupled() && OthersSame(old(links), links, whole) && links[node.id] == old(links)[node.id]
      ensures r.Cons? && Size(r.rest) < Size(todo) && Own(cur.next)
      ensures Visiting(t, links, S(), node.id, IdOf(cur.next), Append(done, Cons(r.node, r.kids, Nil)), r.rest, visible,
                       whole, result)
      decreases Size(todo), 2
    {
      VisitingParts(t, links, S(), node.id, IdOf(cur), done, todo, visible, whole, result);
      FinalizeTree(cur, visible, todo, Some(node.id));
      VisitingOn(t, old(links), links, old(S()), node.id, done, todo, visible, whole, result);
      r := Finalize(t, old(S()), todo, visible).forest;
      assert NodeCoupled(cur.id);
    }

    method FinalizeChildren(node: MenuNode, visible: Expr, ghost kids: Forest) returns (ghost g: Forest)
      requires Coupled() && Own(node) && NoRepeats(kids) && Nodes(kids)[node.id] == 0
      requires Linked(links, links[node.id].list, kids, Some(node.id), None)
      modifies this, nodes
      ensures Coupled() && OthersSame(old(links), links, kids) && links[node.id] == old(links)[node.id]
      ensures FinalizeList(t, old(S()), kids, visible) == Finalized(S(), g) && Nodes(g) <= Nodes(kids)
      ensures Linked(links, links[node.id].list, g, Some(node.id), None)
      decreases Size(kids), 3
    {
      assert NodeCoupled(node.id);
      var cur := node.list;
      ghost var done, todo := Nil, kids;
      ghost var result := FinalizeList(t, S(), kids, visible);
      while cur != null
        invariant Coupled() && OthersSame(old(links), links, kids) && links[node.id] == old(links)[node.id]
        invariant Own(cur) && Visiting(t, links, S(), node.id, IdOf(cur), done, todo, visible, kids, result)
        invariant Size(todo) <= Size(kids)
        decreases Size(todo)
      {
        ghost var r := FinalizeChild(node, cur, visible, done, todo, kids, result);
        done, todo := Append(done, Cons(r.node, r.kids, Nil)), r.rest;
        cur := cur.next;
      }
      AppendNil(done);
      g := done;
    }

    // ---------- _finalize_choice() ----------

    // Adds the symbols whose menu nodes are directly below that of a choice.
    method FinalizeChoice(node: MenuNode, before: seq<Id>, ghost kids: Forest) returns (syms: seq<Id>)
      requires Coupled() && Own(node) && Linked(links, links[node.id].list, kids, Some(node.id), None)
      ensures syms == before + SymsBeside(t, kids)
    {
      assert NodeCoupled(node.id);
      syms := before;
      var cur := node.list;
      ghost var todo := kids;
      while cur != null
        invariant Own(cur) && Linked(links, IdOf(cur), todo, Some(node.id), None)
        invariant syms + SymsBeside(t, todo) == before + SymsBeside(t, kids)
        decreases todo
      {
        LinkedHead(links, IdOf(cur), todo, Some(node.id), None);
        assert NodeCoupled(cur.id);
        ghost var here := if t.Item(cur.id).OfSymbol? then [t.Item(cur.id).id] else [];
        Associate(syms, here, SymsBeside(t, todo.rest));
        if t.Item(cur.id).OfSymbol? {
          syms := syms + [t.Item(cur.id).id];
        }
        cur, todo := cur.next, todo.rest;
      }
    }

    // ---------- node_iter() ----------

    // From a node that has no child and no next sibling to the node that follows it.
    method Climb(start: MenuNode, ghost ctx: seq<Forest>)
        returns (next: MenuNode?, ghost cur: Forest, ghost above: seq<Forest>)
      requires Coupled() && Own(start) && Context(links, links[start.id].parent, ctx)
      ensures next == null ==> Remaining(ctx) == []
      ensures next != null ==>
        && Own(next) && cur.Cons? && Linked(links, Some(next.id), cur, links[next.id].parent, None)
        && Context(links, links[next.id].parent, above) && Remaining(ctx) == Preorder(cur) + Remaining(above)
    {
      var node: MenuNode := start;
      cur, above := Nil, ctx;
      assert NodeCoupled(node.id);
      while node.parent != null
        invariant Own(node) && Own(node.parent) && links[node.id].parent == IdOf(node.parent)
        invariant Context(links, links[node.id].parent, above) && Remaining(above) == Remaining(ctx)
        decreases |above|
      {
        node := node.parent;
        assert NodeCoupled(node.id);
        cur, above := above[0].rest, above[1..];
        if node.next != null {
          LinkedHead(links, links[node.id].next, cur, links[node.id].parent, None);
          return node.next, cur, above;
        }
        assert cur == Nil;
      }
      next := null;
    }

    // The jump to the next node.
    method Jump(node: MenuNode, ghost cur: Forest, ghost ctx: seq<Forest>)
        returns (next: MenuNode?, ghost to: Forest, ghost above: seq<Forest>)
      requires Coupled() && Own(node) && Standing(links, node.id, cur, ctx)
      ensures next == null ==> Ahead(cur, ctx) == []
      ensures next != null ==>
        && Own(next) && Standing(links, next.id, to, above) && Ahead(cur, ctx) == [next.id] + Ahead(to, above)
    {
      assert NodeCoupled(node.id);
      LinkedHead(links, Some(node.id), cur, links[node.id].parent, None);
      if node.list != null {
        next, to, above := node.list, cur.kids, [cur] + ctx;
        StandBelow(links, node.id, cur, ctx);
      } else if node.next != null {
        next, to, above := node.next, cur.rest, ctx;
        StandBeside(links, node.id, cur, ctx);
      } else {
        next, to, above := Climb(node, ctx);
        assert Preorder(cur.kids) == [] && Preorder(cur.rest) == [];
        if next != null {
          AheadHead(to, above);
        }
      }
    }

    // All nodes but the top one, and with `uniqueSyms` only the first node of each symbol.
    method NodeIter(top: MenuNode, uniqueSyms: bool, ghost kids: Forest) returns (order: seq<Id>)
      requires Coupled() && Own(top) && Linked(links, Some(top.id), Cons(top.id, kids, Nil), None, None)
      ensures order == if uniqueSyms then FirstNodes(t, Preorder(kids), {}) else Preorder(kids)
    {
      order := [];
      var visited: set<Id> := {};
      ghost var to, ctx := Cons(top.id, kids, Nil), [];
      var node: MenuNode?;
      AheadTop(top.id, kids);
      node, to, ctx := Jump(top, to, ctx);
      ghost var ahead := Preorder(kids);
      while node != null
        invariant Own(node) && (node == null ==> ahead == [])
        invariant node != null ==> Standing(links, node.id, to, ctx) && ahead == [node.id] + Ahead(to, ctx)
        invariant Yielded(t, uniqueSyms, order, ahead, visited, Preorder(kids))
        decreases |ahead|
      {
        var item := t.Item(node.id);
        OneMoreYielded(t, uniqueSyms, order, node.id, Ahead(to, ctx), visited, Preorder(kids));
        if !uniqueSyms || !item.OfSymbol? || item.id !in visited {
          order := order + [node.id];
        }
        if uniqueSyms && item.OfSymbol? {
          visited := visited + {item.id};
        }
        ahead := Ahead(to, ctx);
        node, to, ctx := Jump(node, to, ctx);
      }
    }

    // ---------- The whole tree ----------

    // Finalising the tree from the top leaves a tree without 'if' nodes, in which all other nodes are in the
    // order in which they were parsed, every pointer to a parent is right, and walking the tree visits the
    // nodes in this order.
    method FinalizeAndWalk(top: MenuNode, ghost kids: Forest) returns (order: seq<Id>, ghost after: Forest)
      requires Coupled() && Own(top) && t.Item(top.id).OfMenu? && IfsPromptless(t, attrs)
      requires NoRepeats(Cons(top.id, kids, Nil)) && Linked(links, Some(top.id), Cons(top.id, kids, Nil), None, None)
      modifies this, nodes
      ensures var r := Finalize(t, old(S()), Cons(top.id, kids, Nil), Ref(t.y));
              Coupled() && S() == r.state && after == r.forest.kids
      ensures Linked(links, Some(top.id), Cons(top.id, after, Nil), None, None) && NoIfs(t, after)
      ensures order == Preorder(after) == Shown(t, Preorder(kids))
    {
      ghost var f := Cons(top.id, kids, Nil);
      FinalizeKeepsOrder(t, S(), f, Ref(t.y));
      TopAlone(t, S(), top.id, kids, Ref(t.y));
      after := Finalize(t, S(), f, Ref(t.y)).forest.kids;
      NoIfsShown(t, after);
      ShownBelow(t, top.id, after, kids);
      FinalizeTree(top, Ref(t.y), f, None);
      order := NodeIter(top, false, after);
    }
  }

  // The children of `n` up to `x` have been given the parent of `n`.
  ghost predicate Adopting(links: Links, n: Id, x: Option<Id>, done: Forest, todo: Forest) {
    && n < |links| && NoRepeats(Append(done, todo)) && Nodes(Append(done, todo))[n] == 0
    && Linked(links, links[n].list, done, links[n].parent, x)
    && Linked(links, x, todo, Some(n), None)
  }

  lemma AdoptedApart(a: Links, n: Id, done: Forest, todo: Forest)
    requires todo.Cons? && Adopting(a, n, Some(todo.node), done, todo)
    ensures n != todo.node && Nodes(todo)[todo.node] > 0
  {
    AppendNodes(done, todo);
    CountParts(todo, todo.node);
  }

  lemma Adopted(a: Links, b: Links, n: Id, done: Forest, todo: Forest)
    requires todo.Cons? && Adopting(a, n, Some(todo.node), done, todo)
    requires todo.node < |a| && b == a[todo.node := a[todo.node].(parent := a[n].parent)]
    ensures OthersSame(a, b, todo) && b[n] == a[n]
    ensures Adopting(b, n, b[todo.node].next, Append(done, Cons(todo.node, todo.kids, Nil)), todo.rest)
  {
    var m := todo.node;
    AdoptedApart(a, n, done, todo);
    NoRepeatsAppend(done, todo);
    Moved(a, b, a[n].list, done, todo, a[n].parent, Some(n));
    assert Append(Append(done, Cons(m, todo.kids, Nil)), todo.rest) == Append(done, todo) by {
      AppendAssociative(done, Cons(m, todo.kids, Nil), todo.rest);
    }
  }

  // One more of a list of siblings has been given a new parent.
  lemma Moved(a: Links, b: Links, x: Option<Id>, done: Forest, todo: Forest, parent: Option<Id>, old_: Option<Id>)
    requires todo.Cons? && NoRepeats(todo) && Disjoint(done, todo)
    requires Linked(a, x, done, parent, Some(todo.node)) && Linked(a, Some(todo.node), todo, old_, None)
    requires todo.node < |a| && b == a[todo.node := a[todo.node].(parent := parent)]
    ensures Linked(b, x, Append(done, Cons(todo.node, todo.kids, Nil)), parent, b[todo.node].next)
    ensures Linked(b, b[todo.node].next, todo.rest, old_, None)
  {
    var n := todo.node;
    NoRepeatsParts(todo);
    assert Nodes(todo)[n] > 0;
    LinkedElsewhere(a, n, b[n], x, done, parent, Some(n));
    LinkedElsewhere(a, n, b[n], a[n].list, todo.kids, Some(n), None);
    LinkedElsewhere(a, n, b[n], a[n].next, todo.rest, old_, None);
    LinkedJoin(b, x, done, Some(n), Cons(n, todo.kids, Nil), parent, b[n].next);
  }

  lemma Spliced(before: Links, a: Links, b: Links, c: Links, d: Links, n: Id, kids: Forest, rest: Forest,
                parent: Option<Id>)
    requires kids.Cons? && NoRepeats(Cons(n, kids, rest)) && n < |a| && OthersSame(before, a, kids)
    requires a[n].parent == parent && Linked(a, a[n].list, kids, parent, None)
      && Linked(a, a[n].next, rest, parent, None)
    requires Last(kids) < |a| && b == a[Last(kids) := a[Last(kids)].(next := a[n].next)]
    requires c == b[n := b[n].(next := b[n].list)] && d == c[n := c[n].(list := None)]
    ensures OthersSame(before, d, Cons(n, kids, rest))
    ensures Linked(d, Some(n), Cons(n, Nil, Append(kids, rest)), parent, None)
  {
    NoRepeatsParts(Cons(n, kids, rest));
    LastInside(kids);
    UpdatedTwice(b, n, c[n], d[n]);
    SplicedLinks(a, b, d, n, kids, rest, parent);
    SplicedOthers(before, a, d, n, kids, rest);
  }

  lemma SplicedOthers(before: Links, a: Links, d: Links, n: Id, kids: Forest, rest: Forest)
    requires kids.Cons? && n < |a| && Last(kids) < |a| && Nodes(kids)[Last(kids)] > 0 && OthersSame(before, a, kids)
    requires |d| == |a| && forall x: Id :: x < |a| && x != n && x != Last(kids) ==> d[x] == a[x]
    ensures OthersSame(before, d, Cons(n, kids, rest))
  {
    var whole := Cons(n, kids, rest);
    forall x: Id | x < |a| && Nodes(whole)[x] == 0 ensures before[x] == d[x] {
      CountParts(whole, x);
    }
  }

  lemma SplicedLinks(a: Links, b: Links, d: Links, n: Id, kids: Forest, rest: Forest, parent: Option<Id>)
    requires kids.Cons? && NoRepeats(kids) && n < |a| && Last(kids) < |a| && Nodes(rest)[Last(kids)] == 0
    requires Nodes(kids)[n] == 0 && Nodes(rest)[n] == 0 && Last(kids) != n
    requires a[n].parent == parent && Linked(a, a[n].list, kids, parent, None)
      && Linked(a, a[n].next, rest, parent, None)
    requires b == a[Last(kids) := a[Last(kids)].(next := a[n].next)]
    requires d == b[n := b[n].(next := a[n].list, list := None)]
    ensures Linked(d, Some(n), Cons(n, Nil, Append(kids, rest)), parent, None)
  {
    var last := Last(kids);
    LinkedEnd(a, a[n].list, kids, parent, None, a[n].next);
    LinkedElsewhere(a, last, b[last], a[n].next, rest, parent, None);
    LinkedElsewhere(b, n, d[n], a[n].list, kids, parent, a[n].next);
    LinkedElsewhere(b, n, d[n], a[n].next, rest, parent, None);
    LinkedJoin(d, a[n].list, kids, a[n].next, rest, parent, None);
  }

  // The siblings up to `x` have been flattened.
  ghost predicate Flattening(t: Menus, attrs: Attrs, links: Links, first: Option<Id>, x: Option<Id>, done: Forest,
                             todo: Forest, parent: Option<Id>, whole: Forest) {
    && Linked(links, first, done, parent, x) && Linked(links, x, todo, parent, None)
    && NoRepeats(whole) && Preorder(Append(done, todo)) == Preorder(whole)
    && Append(done, Flatten(t, attrs, todo)) == Flatten(t, attrs, whole)
  }

  lemma {:induction false} NodesOfPreorder(f: Forest)
    ensures Nodes(f) == multiset(Preorder(f))
    decreases f
  {
    if f.Cons? {
      NodesOfPreorder(f.kids);
      NodesOfPreorder(f.rest);
    }
  }

  lemma SamePreorder(f: Forest, g: Forest)
    requires Preorder(f) == Preorder(g)
    ensures Nodes(f) == Nodes(g)
  {
    NodesOfPreorder(f);
    NodesOfPreorder(g);
  }

  lemma FlatteningParts(t: Menus, attrs: Attrs, links: Links, first: Option<Id>, x: Option<Id>, done: Forest,
                        todo: Forest, parent: Option<Id>, whole: Forest)
    requires Flattening(t, attrs, links, first, x, done, todo, parent, whole)
    ensures NoRepeats(todo) && Disjoint(done, todo) && Nodes(todo) <= Nodes(whole)
  {
    SamePreorder(Append(done, todo), whole);
    NoRepeatsAppend(done, todo);
    AppendNodes(done, todo);
  }

  lemma FlatteningSpliced(t: Menus, attrs: Attrs, a: Links, b: Links, first: Option<Id>, done: Forest, todo: Forest,
                          parent: Option<Id>, whole: Forest)
    requires todo.Cons? && Flattening(t, attrs, a, first, Some(todo.node), done, todo, parent, whole)
    requires todo.kids != Nil && Flattens(t, attrs, todo.node)
    requires OthersSame(a, b, todo)
    requires Linked(b, Some(todo.node), Cons(todo.node, Nil, Append(todo.kids, todo.rest)), parent, None)
    ensures Flattening(t, attrs, b, first, Some(todo.node), done, Cons(todo.node, Nil, Append(todo.kids, todo.rest)),
                       parent, whole)
  {
    var flat := Cons(todo.node, Nil, Append(todo.kids, todo.rest));
    assert Linked(b, first, done, parent, Some(todo.node)) by {
      FlatteningParts(t, attrs, a, first, Some(todo.node), done, todo, parent, whole);
      LinkedOthers(a, b, first, done, todo, parent, Some(todo.node));
    }
    assert Preorder(Append(done, flat)) == Preorder(Append(done, todo)) by {
      SplicedPreorder(done, todo);
    }
    assert Flatten(t, attrs, todo) == Flatten(t, attrs, flat);
  }

  lemma SplicedPreorder(done: Forest, todo: Forest)
    requires todo.Cons?
    ensures Preorder(Append(done, Cons(todo.node, Nil, Append(todo.kids, todo.rest)))) == Preorder(Append(done, todo))
  {
    var flat := Cons(todo.node, Nil, Append(todo.kids, todo.rest));
    AppendPreorder(done, todo);
    AppendPreorder(done, flat);
    AppendPreorder(todo.kids, todo.rest);
    assert Preorder(flat) == Preorder(todo);
  }

  lemma FlatteningOn(t: Menus, attrs: Attrs, links: Links, first: Option<Id>, done: Forest, todo: Forest,
                     parent: Option<Id>, whole: Forest)
    requires todo.Cons? && Flattening(t, attrs, links, first, Some(todo.node), done, todo, parent, whole)
    requires todo.kids == Nil || !Flattens(t, attrs, todo.node)
    ensures Flattening(t, attrs, links, first, links[todo.node].next, Append(done, Cons(todo.node, todo.kids, Nil)),
                       todo.rest, parent, whole)
  {
    var one := Cons(todo.node, todo.kids, Nil);
    LinkedJoin(links, first, done, Some(todo.node), one, parent, links[todo.node].next);
    AppendAssociative(done, one, todo.rest);
    AppendAssociative(done, one, Flatten(t, attrs, todo.rest));
  }

  ghost predicate Skipped(t: Menus, f: Forest, todo: Forest) {
    && RemoveIfs(t, todo) == RemoveIfs(t, f) && Nodes(todo) <= Nodes(f) && Size(todo) <= Size(f)
    && (todo.Cons? ==> !t.Item(todo.node).OfIf?)
  }

  lemma OneSelect(t: Menus, props: seq<Props>, sym: Id, ss: seq<Select>, i: nat, next: nat)
    requires i < |ss| && next == i + 1
    ensures var x := ss[i].target;
            AddReverse(t, props, sym, ss[i..]) == AddReverse(t,
              if x < |props| then
                props[x := props[x].(revDep := MakeOr(t, props[x].revDep, MakeAnd(t, Ref(sym), ss[i].cond)))]
              else props,
              sym, ss[next..])
  {
    assert ss[i..][0] == ss[i] && ss[i..][1..] == ss[next..];
  }

  lemma OneImply(t: Menus, props: seq<Props>, sym: Id, ss: seq<Select>, i: nat, next: nat)
    requires i < |ss| && next == i + 1
    ensures var x := ss[i].target;
            AddWeakReverse(t, props, sym, ss[i..]) == AddWeakReverse(t,
              if x < |props| then
                props[x := props[x].(weakRevDep := MakeOr(t, props[x].weakRevDep, MakeAnd(t, Ref(sym), ss[i].cond)))]
              else props,
              sym, ss[next..])
  {
    assert ss[i..][0] == ss[i] && ss[i..][1..] == ss[next..];
  }

  lemma SkipOne(t: Menus, links: Links, x: Id, todo: Forest, parent: Option<Id>)
    requires Linked(links, Some(x), todo, parent, None) && t.Item(x).OfIf?
    ensures todo.Cons? && x < |links| && Linked(links, links[x].next, todo.rest, parent, None)
    ensures RemoveIfs(t, todo) == RemoveIfs(t, todo.rest) && Nodes(todo.rest) <= Nodes(todo)
    ensures Size(todo.rest) < Size(todo)
  {
  }

  // The children of `n` up to `x` are without 'if' nodes.
  ghost predicate Removing(t: Menus, links: Links, n: Id, x: Option<Id>, done: Forest, todo: Forest, whole: Forest) {
    && n < |links| && NoRepeats(whole) && Nodes(whole)[n] == 0
    && Linked(links, links[n].list, done, Some(n), x) && Linked(links, x, todo, Some(n), None)
    && Nodes(done) + Nodes(todo) <= Nodes(whole)
    && Append(done, RemoveIfs(t, todo)) == RemoveIfs(t, whole)
    && (todo.Cons? ==> !t.Item(todo.node).OfIf?)
  }

  lemma Within(f: Forest, g: Forest, whole: Forest)
    requires Nodes(f) + Nodes(g) <= Nodes(whole) && NoRepeats(whole)
    ensures NoRepeats(f) && NoRepeats(g) && Disjoint(f, g)
    ensures forall x: Id :: Nodes(whole)[x] == 0 ==> Nodes(f)[x] == 0 && Nodes(g)[x] == 0
    ensures forall x: Id :: Nodes(f)[x] > 0 || Nodes(g)[x] > 0 ==> Nodes(whole)[x] > 0
  {
    forall x: Id ensures Nodes(f)[x] + Nodes(g)[x] <= Nodes(whole)[x] {
      assert (Nodes(f) + Nodes(g))[x] <= Nodes(whole)[x];
    }
  }

  // The count of a node below the whole forest, which is at most one.
  lemma CountOnce(d: nat, t: nat, f: Forest, x: Id)
    requires NoRepeats(f) && 0 < t && d + t <= Nodes(f)[x]
    ensures d == 0 && t == 1 && Nodes(f)[x] > 0
  {
    assert Nodes(f)[x] <= 1;
  }

  lemma RemovingFirst(done: Forest, todo: Forest, whole: Forest, m: Id)
    requires todo.Cons? && m == todo.node && Nodes(done) + Nodes(todo) <= Nodes(whole) && NoRepeats(whole)
    ensures Nodes(done)[m] == 0 && Nodes(todo.kids)[m] == 0 && Nodes(todo.rest)[m] == 0 && Nodes(whole)[m] > 0
  {
    CountParts(todo, m);
    CountWithin(Nodes(done), Nodes(todo), Nodes(whole), m);
    CountOnce(Nodes(done)[m], Nodes(todo)[m], whole, m);
  }

  lemma RemovingApart(done: Forest, todo: Forest, rest: Forest, whole: Forest)
    requires todo.Cons? && Nodes(done) + Nodes(todo) <= Nodes(whole) && Nodes(rest) <= Nodes(todo.rest)
      && NoRepeats(whole)
    ensures var m := todo.node;
            && Nodes(done)[m] == 0 && Nodes(todo.kids)[m] == 0 && Nodes(rest)[m] == 0 && Nodes(whole)[m] > 0
  {
    RemovingFirst(done, todo, whole, todo.node);
    CountSmaller(Nodes(rest), Nodes(todo.rest), todo.node);
  }

  lemma RemovingNodes(done: Forest, todo: Forest, rest: Forest, whole: Forest)
    requires todo.Cons? && Nodes(done) + Nodes(todo) <= Nodes(whole) && Nodes(rest) <= Nodes(todo.rest)
    ensures Nodes(Append(done, Cons(todo.node, todo.kids, Nil))) + Nodes(rest) <= Nodes(whole)
  {
    var one := Cons(todo.node, todo.kids, Nil);
    AppendNodes(done, one);
    assert Nodes(todo) == Nodes(one) + Nodes(todo.rest);
  }

  lemma RemovingLinks(a: Links, n: Id, next: Option<Id>, done: Forest, todo: Forest, rest: Forest)
    requires todo.Cons? && n < |a| && Linked(a, a[n].list, done, Some(n), Some(todo.node))
    requires Linked(a, Some(todo.node), todo, Some(n), None) && Linked(a, next, rest, Some(n), None)
    requires todo.node < |a| && n != todo.node
    requires Nodes(done)[todo.node] == 0 && Nodes(todo.kids)[todo.node] == 0 && Nodes(rest)[todo.node] == 0
    ensures var b := a[todo.node := a[todo.node].(next := next)];
            && Linked(b, b[n].list, Append(done, Cons(todo.node, todo.kids, Nil)), Some(n), next)
            && Linked(b, next, rest, Some(n), None)
  {
    var m, one, link := todo.node, Cons(todo.node, todo.kids, Nil), a[todo.node].(next := next);
    var b := a[m := link];
    LinkedElsewhere(a, m, link, a[n].list, done, Some(n), Some(m));
    LinkedElsewhere(a, m, link, a[m].list, todo.kids, Some(m), None);
    LinkedElsewhere(a, m, link, next, rest, Some(n), None);
    LinkedJoin(b, a[n].list, done, Some(m), one, Some(n), next);
  }

  lemma RemovingOn(t: Menus, a: Links, n: Id, next: Option<Id>, done: Forest, todo: Forest, rest: Forest, whole: Forest)
    requires todo.Cons? && Removing(t, a, n, Some(todo.node), done, todo, whole)
    requires Skipped(t, todo.rest, rest) && Linked(a, next, rest, Some(n), None) && todo.node < |a|
    ensures var b := a[todo.node := a[todo.node].(next := next)];
            && OthersSame(a, b, whole) && b[n] == a[n] && Size(rest) < Size(todo)
            && Removing(t, b, n, next, Append(done, Cons(todo.node, todo.kids, Nil)), rest, whole)
  {
    RemovingApart(done, todo, rest, whole);
    ChangeInside(a, todo.node, a[todo.node].(next := next), whole);
    RemovingLinks(a, n, next, done, todo, rest);
    assert Nodes(Append(done, Cons(todo.node, todo.kids, Nil))) + Nodes(rest) <= Nodes(whole) by {
      RemovingNodes(done, todo, rest, whole);
    }
    assert Append(Append(done, Cons(todo.node, todo.kids, Nil)), RemoveIfs(t, rest)) == RemoveIfs(t, whole) by {
      AppendAssociative(done, Cons(todo.node, todo.kids, Nil), RemoveIfs(t, rest));
    }
  }

  lemma {:induction false} FlattenNodes(t: Menus, attrs: Attrs, f: Forest)
    ensures Nodes(Flatten(t, attrs, f)) == Nodes(f)
  {
    FlattenPreorder(t, attrs, f);
    SamePreorder(Flatten(t, attrs, f), f);
  }

  lemma {:induction false} RemoveNodes(t: Menus, f: Forest)
    ensures Nodes(RemoveIfs(t, f)) <= Nodes(f)
    decreases f
  {
    if f.Cons? {
      RemoveNodes(t, f.rest);
    }
  }

  lemma {:induction false} FinalizeNodes(t: Menus, s: State, f: Forest, visible: Expr)
    requires f.Cons?
    ensures Nodes(Finalize(t, s, f, visible).forest) <= Nodes(f)
    decreases Size(f), 0
  {
    var x, r := f.node, Finalize(t, s, f, visible);
    if f.kids != Nil {
      var below := VisibleIf(t, x, visible);
      var s1 := s.(attrs := PropagateLevel(t, s.attrs, f.kids, BaseDep(t, s.attrs, x), below));
      FinalizeListNodes(t, s1, f.kids, below);
      var g := FinalizeList(t, s1, f.kids, below).forest;
      FlattenNodes(t, r.state.attrs, g);
      RemoveNodes(t, Flatten(t, r.state.attrs, g));
    } else if t.Item(x).OfSymbol? {
      var s1 := s.(props := AddProps(t, s.props, t.Item(x).id, AttrOf(s.attrs, x)));
      AbsorbNodes(t, s1, t.Item(x).id, f.rest, visible);
      var a := Absorb(t, s1, t.Item(x).id, f.rest, visible);
      FlattenNodes(t, r.state.attrs, a.taken);
      RemoveNodes(t, Flatten(t, r.state.attrs, a.taken));
    }
  }

  lemma {:induction false} FinalizeListNodes(t: Menus, s: State, f: Forest, visible: Expr)
    ensures Nodes(FinalizeList(t, s, f, visible).forest) <= Nodes(f)
    decreases Size(f), 1
  {
    if f != Nil {
      var first := Finalize(t, s, f, visible);
      FinalizeNodes(t, s, f, visible);
      FinalizeListNodes(t, first.state, first.forest.rest, visible);
    }
  }

  lemma {:induction false} AbsorbNodes(t: Menus, s: State, sym: Id, f: Forest, visible: Expr)
    ensures var r := Absorb(t, s, sym, f, visible);
            Nodes(r.taken) + Nodes(r.rest) <= Nodes(f)
    decreases Size(f), 1
  {
    if f != Nil && AutoMenuDep(t, s.attrs, sym, f.node) {
      var first := Finalize(t, s, f, visible);
      FinalizeNodes(t, s, f, visible);
      AbsorbNodes(t, first.state, sym, first.forest.rest, visible);
    }
  }

  // The children of `n` up to `x` have been finalised, and what remains leads to `result`.
  ghost predicate Visiting(t: Menus, links: Links, s: State, n: Id, x: Option<Id>, done: Forest, todo: Forest,
                           visible: Expr, whole: Forest, result: Finalized) {
    && n < |links| && NoRepeats(whole) && Nodes(whole)[n] == 0
    && Linked(links, links[n].list, done, Some(n), x) && Linked(links, x, todo, Some(n), None)
    && Nodes(done) + Nodes(todo) <= Nodes(whole)
    && (var r := FinalizeList(t, s, todo, visible); result == Finalized(r.state, Append(done, r.forest)))
  }

  lemma VisitingParts(t: Menus, links: Links, s: State, n: Id, x: Option<Id>, done: Forest, todo: Forest,
                      visible: Expr, whole: Forest, result: Finalized)
    requires Visiting(t, links, s, n, x, done, todo, visible, whole, result)
    ensures NoRepeats(todo) && Disjoint(done, todo) && Nodes(todo) <= Nodes(whole) && Nodes(todo)[n] == 0
  {
    Within(done, todo, whole);
  }

  // One more of a list of siblings has been dealt with: it is now the first of `after`.
  lemma SegmentOn(a: Links, b: Links, p: Option<Id>, done: Forest, todo: Forest, after: Forest, parent: Option<Id>)
    requires todo.Cons? && after.Cons? && after.node == todo.node && Disjoint(done, todo) && OthersSame(a, b, todo)
    requires Linked(a, p, done, parent, Some(todo.node)) && Linked(b, Some(todo.node), after, parent, None)
    ensures todo.node < |b|
    ensures Linked(b, p, Append(done, Cons(after.node, after.kids, Nil)), parent, b[todo.node].next)
    ensures Linked(b, b[todo.node].next, after.rest, parent, None)
  {
    var m := todo.node;
    LinkedOthers(a, b, p, done, todo, parent, Some(m));
    LinkedHead(b, Some(m), after, parent, None);
    LinkedJoin(b, p, done, Some(m), Cons(m, after.kids, Nil), parent, b[m].next);
  }

  lemma NodesOn(done: Forest, todo: Forest, after: Forest, whole: Forest)
    requires after.Cons? && Nodes(done) + Nodes(todo) <= Nodes(whole) && Nodes(after) <= Nodes(todo)
    ensures Nodes(Append(done, Cons(after.node, after.kids, Nil))) + Nodes(after.rest) <= Nodes(whole)
  {
    var one := Cons(after.node, after.kids, Nil);
    AppendNodes(done, one);
    assert Nodes(after) == Nodes(one) + Nodes(after.rest);
  }

  lemma VisitingOn(t: Menus, a: Links, b: Links, s: State, n: Id, done: Forest, todo: Forest,
                   visible: Expr, whole: Forest, result: Finalized)
    requires todo.Cons? && Visiting(t, a, s, n, Some(todo.node), done, todo, visible, whole, result)
    requires OthersSame(a, b, todo)
    requires Linked(b, Some(todo.node), Finalize(t, s, todo, visible).forest, Some(n), None)
    ensures OthersSame(a, b, whole) && b[n] == a[n] && todo.node < |b|
    ensures var r := Finalize(t, s, todo, visible);
            Visiting(t, b, r.state, n, b[todo.node].next, Append(done, Cons(todo.node, r.forest.kids, Nil)),
                     r.forest.rest, visible, whole, result)
  {
    var r := Finalize(t, s, todo, visible);
    var after, more := r.forest, Append(done, Cons(todo.node, r.forest.kids, Nil));
    assert OthersSame(a, b, whole) && b[n] == a[n] by {
      VisitingParts(t, a, s, n, Some(todo.node), done, todo, visible, whole, result);
      OthersWider(a, b, todo, whole);
    }
    assert Linked(b, b[n].list, more, Some(n), b[todo.node].next)
      && Linked(b, b[todo.node].next, after.rest, Some(n), None) by {
      VisitingParts(t, a, s, n, Some(todo.node), done, todo, visible, whole, result);
      SegmentOn(a, b, a[n].list, done, todo, after, Some(n));
    }
    assert Nodes(more) + Nodes(after.rest) <= Nodes(whole) by {
      FinalizeNodes(t, s, todo, visible);
      NodesOn(done, todo, after, whole);
    }
    var others := FinalizeList(t, r.state, after.rest, visible);
    assert result == Finalized(others.state, Append(more, others.forest)) by {
      AppendAssociative(done, Cons(todo.node, after.kids, Nil), others.forest);
    }
  }

  // The node has the children `g`, which remain to be tidied up, and is followed by `rest`.
  ghost predicate Children(before: Links, links: Links, f: Forest, g: Forest, rest: Forest, parent: Option<Id>)
    requires f.Cons?
  {
    var n := f.node;
    && n < |links| && OthersSame(before, links, f) && links[n].parent == parent
    && Linked(links, links[n].list, g, Some(n), None) && Linked(links, links[n].next, rest, parent, None)
    && NoRepeats(g) && Nodes(g)[n] == 0 && Nodes(rest)[n] == 0 && Disjoint(g, rest) && Nodes(g) <= Nodes(f)
  }

  lemma KidsWider(before: Links, links: Links, f: Forest)
    requires f.Cons? && OthersSame(before, links, f.kids)
    ensures OthersSame(before, links, f)
  {
    assert Nodes(f.kids) <= Nodes(f);
    OthersWider(before, links, f.kids, f);
  }

  lemma FewerKids(f: Forest, g: Forest)
    requires f.Cons? && NoRepeats(f) && Nodes(g) <= Nodes(f.kids)
    ensures NoRepeats(g) && Disjoint(g, f.rest) && Nodes(g)[f.node] == 0
  {
    NoRepeatsParts(f);
    Fewer(g, f.kids, f.rest);
    CountSmaller(Nodes(g), Nodes(f.kids), f.node);
  }

  lemma ChildrenOf(before: Links, links: Links, f: Forest, g: Forest, parent: Option<Id>)
    requires f.Cons? && NoRepeats(f) && Linked(before, Some(f.node), f, parent, None)
    requires OthersSame(before, links, f.kids) && f.node < |links| && links[f.node] == before[f.node]
    requires Nodes(g) <= Nodes(f.kids) && Linked(links, links[f.node].list, g, Some(f.node), None)
    ensures Children(before, links, f, g, f.rest, parent)
  {
    LinkedHead(before, Some(f.node), f, parent, None);
    NoRepeatsParts(f);
    LinkedOthers(before, links, links[f.node].next, f.rest, f.kids, parent, None);
    KidsWider(before, links, f);
    FewerKids(f, g);
  }

  lemma Fewer(g: Forest, f: Forest, h: Forest)
    requires NoRepeats(f) && Disjoint(f, h) && Nodes(g) <= Nodes(f)
    ensures NoRepeats(g) && Disjoint(g, h)
  {
    forall x: Id ensures Nodes(g)[x] <= Nodes(f)[x] {}
  }

  lemma AbsorbedChildren(before: Links, links: Links, f: Forest, taken: Forest, rest: Forest, parent: Option<Id>)
    requires f.Cons? && NoRepeats(f) && f.node < |before| && before[f.node].parent == parent
    requires Taken(before, links, f.node, taken, rest, parent, f.rest)
    ensures Children(before, links, f, taken, rest, parent)
  {
    var n := f.node;
    assert NoRepeats(taken) && Disjoint(taken, rest) && Nodes(taken)[n] == 0 && Nodes(rest)[n] == 0 by {
      NoRepeatsParts(f);
      Within(taken, rest, f.rest);
    }
    assert Nodes(taken) <= Nodes(f);
    assert OthersSame(before, links, f) by {
      HeadAndRestSame(before, links, f);
    }
  }

  lemma HeadAndRestSame(before: Links, links: Links, f: Forest)
    requires f.Cons? && f.node < |before| == |links| && OthersSame(before[f.node := links[f.node]], links, f.rest)
    ensures OthersSame(before, links, f)
  {
    assert Nodes(f)[f.node] > 0 && Nodes(f.rest) <= Nodes(f);
    OthersWider(before[f.node := links[f.node]], links, f.rest, f);
  }

  // The siblings up to `cur` have been absorbed by `n`.
  ghost predicate Taking(links: Links, n: Id, cur: Id, taken: Forest, todo: Forest, parent: Option<Id>, whole: Forest) {
    && n < |links| && cur < |links| && NoRepeats(whole) && Nodes(whole)[n] == 0
    && cur == (if taken == Nil then n else Last(taken))
    && Linked(links, links[n].next, taken, Some(n), links[cur].next)
    && Linked(links, links[cur].next, todo, parent, None)
    && Nodes(taken) + Nodes(todo) <= Nodes(whole)
  }

  // The siblings `taken` have become the children of `n`, which is followed by `rest`.
  ghost predicate Taken(before: Links, links: Links, n: Id, taken: Forest, rest: Forest, parent: Option<Id>,
                        whole: Forest) {
    && n < |links| == |before| && links[n].parent == before[n].parent
    && Nodes(taken) + Nodes(rest) <= Nodes(whole) && OthersSame(before[n := links[n]], links, whole)
    && Linked(links, links[n].list, taken, Some(n), None) && Linked(links, links[n].next, rest, parent, None)
  }

  lemma NoneTaken(links: Links, n: Id, taken: Forest, rest: Forest, parent: Option<Id>, whole: Forest)
    requires Taking(links, n, n, taken, rest, parent, whole) && links[n].list == None
    ensures Taken(links, links, n, taken, rest, parent, whole)
  {
    TakingParts(links, n, n, taken, rest, parent, whole);
    assert links[n := links[n]] == links;
  }

  lemma TakenBefore(before: Links, a: Links, links: Links, n: Id, taken: Forest, rest: Forest, parent: Option<Id>,
                    whole: Forest)
    requires OthersSame(before, a, whole) && n < |a| && a[n] == before[n]
    requires Taken(a, links, n, taken, rest, parent, whole)
    ensures Taken(before, links, n, taken, rest, parent, whole)
  {
    OthersTwice(before[n := links[n]], a[n := links[n]], links, whole, whole);
  }

  // What remains leads to `result`.
  ghost predicate Absorbing(t: Menus, links: Links, s: State, n: Id, cur: Id, taken: Forest, todo: Forest,
                            parent: Option<Id>, visible: Expr, whole: Forest, result: Absorbed)
    requires t.Item(n).OfSymbol?
  {
    && Taking(links, n, cur, taken, todo, parent, whole)
    && (var a := Absorb(t, s, t.Item(n).id, todo, visible); result == Absorbed(a.state, Append(taken, a.taken), a.rest))
  }

  lemma TakingParts(links: Links, n: Id, cur: Id, taken: Forest, todo: Forest, parent: Option<Id>, whole: Forest)
    requires Taking(links, n, cur, taken, todo, parent, whole)
    ensures NoRepeats(taken) && NoRepeats(todo) && Disjoint(taken, todo) && Nodes(todo) <= Nodes(whole)
    ensures Nodes(taken)[n] == 0 && Nodes(todo)[n] == 0 && Nodes(todo)[cur] == 0
    ensures taken != Nil ==> cur != n && Nodes(whole)[cur] > 0
  {
    Within(taken, todo, whole);
    if taken != Nil {
      LastInside(taken);
    }
  }

  lemma AbsorbedApart(taken: Forest, todo: Forest, after: Forest, m: Id)
    requires todo.Cons? && after.Cons? && after.node == todo.node == m && Nodes(after) <= Nodes(todo)
    requires NoRepeats(todo) && Disjoint(taken, todo)
    ensures Nodes(todo)[m] > 0 && Nodes(taken)[m] == 0 && Nodes(after.kids)[m] == 0 && Nodes(after.rest)[m] == 0
  {
    CountParts(todo, m);
    CountParts(after, m);
    CountSmaller(Nodes(after), Nodes(todo), m);
  }

  lemma AbsorbedLinks(a: Links, b: Links, n: Id, cur: Id, taken: Forest, todo: Forest, after: Forest,
                      parent: Option<Id>)
    requires todo.Cons? && after.Cons? && after.node == todo.node && Nodes(after) <= Nodes(todo) && NoRepeats(todo)
    requires n < |a| && cur < |a| && OthersSame(a, b, todo) && Nodes(todo)[n] == 0 && Nodes(todo)[cur] == 0
    requires Disjoint(taken, todo) && Linked(a, a[n].next, taken, Some(n), a[cur].next)
    requires Linked(a, a[cur].next, todo, parent, None) && Linked(b, Some(todo.node), after, parent, None)
    ensures todo.node < |b|
    ensures var m := todo.node;
            var c := b[m := b[m].(parent := Some(n))];
            && Linked(c, c[n].next, Append(taken, Cons(m, after.kids, Nil)), Some(n), c[m].next)
            && Linked(c, c[m].next, after.rest, parent, None)
  {
    var m := todo.node;
    assert Linked(b, b[n].next, taken, Some(n), Some(m)) by {
      LinkedHead(a, a[cur].next, todo, parent, None);
      LinkedOthers(a, b, a[n].next, taken, todo, Some(n), Some(m));
    }
    LinkedHead(b, Some(m), after, parent, None);
    AbsorbedApart(taken, todo, after, m);
    assert m != n;
    TakenLinks(b, n, m, taken, after, parent);
  }

  // The parent pointer of `m` is changed to `n`.
  lemma TakenLinks(b: Links, n: Id, m: Id, taken: Forest, after: Forest, parent: Option<Id>)
    requires n < |b| && m < |b| && n != m && after.Cons? && after.node == m
    requires Nodes(taken)[m] == 0 && Nodes(after.kids)[m] == 0 && Nodes(after.rest)[m] == 0
    requires Linked(b, b[n].next, taken, Some(n), Some(m)) && Linked(b, b[m].list, after.kids, Some(m), None)
    requires Linked(b, b[m].next, after.rest, parent, None)
    ensures var c := b[m := b[m].(parent := Some(n))];
            && Linked(c, c[n].next, Append(taken, Cons(m, after.kids, Nil)), Some(n), c[m].next)
            && Linked(c, c[m].next, after.rest, parent, None)
  {
    var link := b[m].(parent := Some(n));
    var c := b[m := link];
    LinkedElsewhere(b, m, link, b[n].next, taken, Some(n), Some(m));
    LinkedElsewhere(b, m, link, b[m].list, after.kids, Some(m), None);
    LinkedElsewhere(b, m, link, b[m].next, after.rest, parent, None);
    LinkedJoin(c, c[n].next, taken, Some(m), Cons(m, after.kids, Nil), Some(n), c[m].next);
  }

  lemma NextDepends(t: Menus, links: Links, s: State, n: Id, cur: Id, next: Id, taken: Forest, todo: Forest,
                    parent: Option<Id>, visible: Expr, whole: Forest, result: Absorbed)
    requires t.Item(n).OfSymbol? && Absorbing(t, links, s, n, cur, taken, todo, parent, visible, whole, result)
    requires links[cur].next == Some(next)
    ensures todo.Cons? && todo.node == next
    ensures !AutoMenuDep(t, s.attrs, t.Item(n).id, next) ==> result == Absorbed(s, Append(taken, Nil), todo)
  {
  }

  lemma TiltedLinks(a: Links, n: Id, last: Id, taken: Forest, rest: Forest, parent: Option<Id>)
    requires n < |a| && last < |a| && n != last && taken.Cons? && last == Last(taken)
    requires Linked(a, a[n].next, taken, Some(n), a[last].next) && Linked(a, a[last].next, rest, parent, None)
    requires NoRepeats(taken) && Nodes(taken)[n] == 0 && Nodes(rest)[n] == 0 && Nodes(rest)[last] == 0
    ensures var d := a[last := a[last].(next := None)][n := Link(a[last].next, a[n].next, a[n].parent)];
            Linked(d, d[n].list, taken, Some(n), None) && Linked(d, d[n].next, rest, parent, None)
  {
    var b, link := a[last := a[last].(next := None)], Link(a[last].next, a[n].next, a[n].parent);
    LinkedEnd(a, a[n].next, taken, Some(n), a[last].next, None);
    LinkedElsewhere(b, n, link, a[n].next, taken, Some(n), None);
    LinkedElsewhere(a, last, b[last], a[last].next, rest, parent, None);
    LinkedElsewhere(b, n, link, a[last].next, rest, parent, None);
  }

  lemma TiltedUp(a: Links, d: Links, n: Id, last: Id, taken: Forest, rest: Forest, parent: Option<Id>, whole: Forest)
    requires Taking(a, n, last, taken, rest, parent, whole) && n != last
    requires d == a[n := Link(a[last].next, a[n].next, a[n].parent)][last := a[last].(next := None)]
    ensures Taken(a, d, n, taken, rest, parent, whole)
  {
    TakingParts(a, n, last, taken, rest, parent, whole);
    assert d == a[last := a[last].(next := None)][n := Link(a[last].next, a[n].next, a[n].parent)];
    TiltedLinks(a, n, last, taken, rest, parent);
    assert OthersSame(a[n := d[n]], d, whole) by {
      ChangeInside(a[n := d[n]], last, d[last], whole);
    }
  }

  lemma TidyResult(t: Menus, before: Links, x: Links, a: Links, z: Links, f: Forest, g: Forest, flat: Forest,
                   tidy: Forest, rest: Forest, parent: Option<Id>)
    requires f.Cons? && Children(before, x, f, g, rest, parent) && Nodes(flat) == Nodes(g)
    requires OthersSame(x, a, g) && |z| == |a| && f.node < |z|
    requires OthersSame(a[f.node := z[f.node]], z, flat) && z[f.node] == a[f.node].(list := z[f.node].list)
    requires Linked(z, z[f.node].list, tidy, Some(f.node), None)
    ensures OthersSame(before, z, f) && Linked(z, Some(f.node), Cons(f.node, tidy, rest), parent, None)
  {
    var n := f.node;
    LinkedOthers(x, a, x[n].next, rest, g, parent, None);
    LinkedElsewhere(a, n, z[n], x[n].next, rest, parent, None);
    LinkedOthers(a[n := z[n]], z, x[n].next, rest, flat, parent, None);
    CountParts(f, n);
    ChangeInside(a, n, z[n], f);
    OthersWider(x, a, g, f);
    OthersWider(a[n := z[n]], z, flat, f);
    OthersTwice(before, x, a, f, f);
    OthersTwice(before, a, a[n := z[n]], f, f);
    OthersTwice(before, a[n := z[n]], z, f, f);
  }

  lemma AbsorbingOn(t: Menus, a: Links, b: Links, s: State, n: Id, cur: Id, taken: Forest, todo: Forest,
                    parent: Option<Id>, visible: Expr, whole: Forest, result: Absorbed)
    requires t.Item(n).OfSymbol? && todo.Cons?
      && Absorbing(t, a, s, n, cur, taken, todo, parent, visible, whole, result)
    requires AutoMenuDep(t, s.attrs, t.Item(n).id, todo.node) && OthersSame(a, b, todo) && todo.node < |b|
    requires Linked(b, Some(todo.node), Finalize(t, s, todo, visible).forest, parent, None)
    ensures var r := Finalize(t, s, todo, visible);
            var c := b[todo.node := b[todo.node].(parent := Some(n))];
            && OthersSame(a, c, whole) && c[n] == a[n]
            && Absorbing(t, c, r.state, n, todo.node, Append(taken, Cons(todo.node, r.forest.kids, Nil)), r.forest.rest,
                         parent, visible, whole, result)
  {
    var r := Finalize(t, s, todo, visible);
    var m, after := todo.node, r.forest;
    var one, more := Cons(m, after.kids, Nil), Append(taken, Cons(m, after.kids, Nil));
    var c := b[m := b[m].(parent := Some(n))];
    TakingParts(a, n, cur, taken, todo, parent, whole);
    assert OthersSame(a, c, whole) && c[n] == a[n] by {
      CountParts(todo, m);
      ChangeInside(b, m, c[m], todo);
      OthersTwice(a, b, c, todo, todo);
      OthersWider(a, c, todo, whole);
    }
    assert Linked(c, c[n].next, more, Some(n), c[m].next) && Linked(c, c[m].next, after.rest, parent, None) by {
      FinalizeNodes(t, s, todo, visible);
      AbsorbedLinks(a, b, n, cur, taken, todo, after, parent);
    }
    assert Nodes(more) + Nodes(after.rest) <= Nodes(whole) by {
      FinalizeNodes(t, s, todo, visible);
      NodesOn(taken, todo, after, whole);
    }
    LastAppend(taken, m, after.kids);
    var others := Absorb(t, r.state, t.Item(n).id, after.rest, visible);
    assert result == Absorbed(others.state, Append(more, others.taken), others.rest) by {
      AppendAssociative(taken, one, others.taken);
    }
  }

  // The nodes above, innermost first, each with the siblings that follow it.
  ghost predicate Context(links: Links, parent: Option<Id>, ctx: seq<Forest>)
    decreases |ctx|
  {
    if ctx == [] then parent == None
    else
      && ctx[0].Cons? && parent == Some(ctx[0].node) && ctx[0].node < |links|
      && Linked(links, links[ctx[0].node].next, ctx[0].rest, links[ctx[0].node].parent, None)
      && Context(links, links[ctx[0].node].parent, ctx[1..])
  }

  // What is still to come once everything below the current node and its siblings has been visited.
  ghost function Remaining(ctx: seq<Forest>): seq<Id>
    decreases |ctx|
  {
    if ctx == [] then [] else if ctx[0] == Nil then Remaining(ctx[1..]) else Preorder(ctx[0].rest) + Remaining(ctx[1..])
  }

  ghost predicate Standing(links: Links, n: Id, cur: Forest, ctx: seq<Forest>) {
    && cur.Cons? && n < |links| && Linked(links, Some(n), cur, links[n].parent, None)
    && Context(links, links[n].parent, ctx)
  }

  ghost function Ahead(cur: Forest, ctx: seq<Forest>): seq<Id>
    requires cur.Cons?
  {
    Preorder(cur.kids) + (Preorder(cur.rest) + Remaining(ctx))
  }

  // From a node to its first child.
  lemma StandBelow(links: Links, n: Id, cur: Forest, ctx: seq<Forest>)
    requires Standing(links, n, cur, ctx) && links[n].list != None
    ensures var next := links[n].list.value; Standing(links, next, cur.kids, [cur] + ctx)
    ensures Ahead(cur, ctx) == [links[n].list.value] + Ahead(cur.kids, [cur] + ctx)
  {
    LinkedHead(links, Some(n), cur, links[n].parent, None);
    LinkedHead(links, links[n].list, cur.kids, Some(n), None);
    assert ([cur] + ctx)[1..] == ctx;
    AheadHead(cur.kids, [cur] + ctx);
  }

  // From a node to its next sibling.
  lemma StandBeside(links: Links, n: Id, cur: Forest, ctx: seq<Forest>)
    requires Standing(links, n, cur, ctx) && links[n].next != None && links[n].list == None
    ensures var next := links[n].next.value; Standing(links, next, cur.rest, ctx)
    ensures Ahead(cur, ctx) == [links[n].next.value] + Ahead(cur.rest, ctx)
  {
    LinkedHead(links, Some(n), cur, links[n].parent, None);
    LinkedHead(links, links[n].next, cur.rest, links[n].parent, None);
    AheadHead(cur.rest, ctx);
    assert Preorder(cur.kids) == [];
  }

  lemma AheadHead(f: Forest, ctx: seq<Forest>)
    requires f.Cons?
    ensures Preorder(f) + Remaining(ctx) == [f.node] + Ahead(f, ctx)
  {
    FourPieces([f.node], Preorder(f.kids), Preorder(f.rest), Remaining(ctx));
  }

  lemma FourPieces(a: seq<Id>, b: seq<Id>, c: seq<Id>, d: seq<Id>)
    ensures (a + b + c) + d == a + (b + (c + d))
  {
  }

  // The nodes that are not those of a symbol in `seen` or of one that comes up again.
  function FirstNodes(t: Menus, xs: seq<Id>, seen: set<Id>): seq<Id>
    decreases |xs|
  {
    if xs == [] then []
    else if !t.Item(xs[0]).OfSymbol? then [xs[0]] + FirstNodes(t, xs[1..], seen)
    else if t.Item(xs[0]).id in seen then FirstNodes(t, xs[1..], seen)
    else [xs[0]] + FirstNodes(t, xs[1..], seen + {t.Item(xs[0]).id})
  }

  // A node is left out exactly if it is one of a symbol that an earlier node is of as well.
  lemma {:induction false} FirstNodesExact(t: Menus, xs: seq<Id>, x: Id, seen: set<Id>)
    ensures FirstNodes(t, xs + [x], seen)
         == FirstNodes(t, xs, seen)
            + if && t.Item(x).OfSymbol?
                 && (t.Item(x).id in seen || exists i :: 0 <= i < |xs| && t.Item(xs[i]) == t.Item(x)) then []
              else [x]
    decreases |xs|
  {
    if xs == [] {
      assert xs + [x] == [x] && [x][1..] == [];
    } else {
      var rest, more := xs[1..], if t.Item(xs[0]).OfSymbol? then seen + {t.Item(xs[0]).id} else seen;
      FirstNodesExact(t, rest, x, more);
      FirstNodesExact(t, rest, x, seen);
      assert (xs + [x])[1..] == rest + [x] && (xs + [x])[0] == xs[0];
      assert forall i :: 0 <= i < |rest| ==> rest[i] == xs[i + 1];
      assert forall i :: 0 < i < |xs| ==> xs[i] == rest[i - 1];
    }
  }

  lemma AheadTop(top: Id, kids: Forest)
    ensures Ahead(Cons(top, kids, Nil), []) == Preorder(kids)
  {
  }

  // What has been yielded together with what is to come.
  ghost predicate Yielded(t: Menus, uniqueSyms: bool, order: seq<Id>, ahead: seq<Id>, visited: set<Id>, all: seq<Id>) {
    if uniqueSyms then order + FirstNodes(t, ahead, visited) == FirstNodes(t, all, {}) else order + ahead == all
  }

  lemma OneMoreYielded(t: Menus, uniqueSyms: bool, order: seq<Id>, x: Id, ahead: seq<Id>, visited: set<Id>,
                       all: seq<Id>)
    requires Yielded(t, uniqueSyms, order, [x] + ahead, visited, all)
    ensures Yielded(t, uniqueSyms,
                    if !uniqueSyms || !t.Item(x).OfSymbol? || t.Item(x).id !in visited then order + [x] else order,
                    ahead,
                    if uniqueSyms && t.Item(x).OfSymbol? then visited + {t.Item(x).id} else visited, all)
  {
    assert ([x] + ahead)[1..] == ahead;
    if uniqueSyms && t.Item(x).OfSymbol? && t.Item(x).id in visited {
      assert visited + {t.Item(x).id} == visited;
    }
  }

  lemma {:induction false} NoIfsShown(t: Menus, f: Forest)
    requires NoIfs(t, f)
    ensures ShownIn(t, f) == Preorder(f)
    decreases f
  {
    if f.Cons? {
      NoIfsShown(t, f.kids);
      NoIfsShown(t, f.rest);
      ShownCons(t, f.node, f.kids, f.rest);
      assert Shown(t, [f.node]) == [f.node];
    }
  }

  lemma ShownBelow(t: Menus, top: Id, a: Forest, b: Forest)
    requires ShownIn(t, Cons(top, a, Nil)) == ShownIn(t, Cons(top, b, Nil))
    ensures ShownIn(t, a) == ShownIn(t, b)
  {
    ShownCons(t, top, a, Nil);
    ShownCons(t, top, b, Nil);
    var n := |Shown(t, [top])|;
    assert ShownIn(t, Cons(top, a, Nil))[n..] == ShownIn(t, a);
    assert ShownIn(t, Cons(top, b, Nil))[n..] == ShownIn(t, b);
  }

  lemma TopAlone(t: Menus, s: State, top: Id, kids: Forest, visible: Expr)
    requires t.Item(top).OfMenu?
    ensures Finalize(t, s, Cons(top, kids, Nil), visible).forest.rest == Nil
  {
  }
}
