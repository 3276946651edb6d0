/** The walk over the menu tree that a .config file is written in.

    node_iter() does not do here, as menus have to be noted when they are left. */
module ConfigWalk {
  import opened Wrappers
  import opened Numbers
  import opened Model
  import opened Support
  import opened MenuForest
  import opened MenuLinks
  import opened MenuTree
  import opened ConfigLines
  import opened ConfigFile
  import opened RoundTrip
  import opened Engine
  import opened ConfigIO

  datatype Visit = At(node: Id) | Leaving(node: Id)

  // All nodes in order, and those with children once more when they are left.
  function Tour(f: Forest): seq<Visit> {
    match f
    case Nil => []
    case Cons(x, kids, rest) =>
      if kids == Nil then [At(x)] + Tour(rest) else [At(x)] + (Tour(kids) + [Leaving(x)] + Tour(rest))
  }

  // What the file has for a visit.
  function StepsAt(t: Menus, titles: seq<string>, visit: Visit, dep: Expr): seq<Step> {
    var x := visit.node;
    var title := if x < |titles| then titles[x] else "";
    match (visit, t.Item(x))
    case (At(_), OfSymbol(sym)) => [AtSymbol(sym)]
    case (At(_), OfMenu) => [AtHeading(title, And(dep, t.Visibility(x)))]
    case (At(_), OfComment) => [AtHeading(title, dep)]
    case (Leaving(_), OfMenu) => [LeavingMenu(title, And(dep, t.Visibility(x)))]
    case _ => []
  }

  function StepsOf(t: Menus, attrs: Attrs, titles: seq<string>, visits: seq<Visit>): seq<Step>
    decreases |visits|
  {
    if visits == [] then []
    else StepsAt(t, titles, visits[0], AttrOf(attrs, visits[0].node).dep) + StepsOf(t, attrs, titles, visits[1..])
  }

  // ---------- The walk ----------

  // What is left of the tour once everything below `ctx[0]` has been visited.  The top node is not left.
  ghost function Above(ctx: seq<Forest>): seq<Visit>
    decreases |ctx|
  {
    if ctx == [] || ctx[0] == Nil then []
    else
      var beside := Tour(ctx[0].rest) + Above(ctx[1..]);
      if |ctx| > 1 then [Leaving(ctx[0].node)] + beside else beside
  }

  // What is left of it after the visit to the first node of `cur`.
  ghost function ToCome(cur: Forest, ctx: seq<Forest>): seq<Visit>
    requires cur.Cons?
  {
    if cur.kids == Nil then Tour(cur.rest) + Above(ctx) else Tour(cur.kids) + Above([cur] + ctx)
  }

  lemma TourHead(f: Forest, ctx: seq<Forest>)
    requires f.Cons? && ctx != []
    ensures Tour(f) + Above(ctx) == [At(f.node)] + ToCome(f, ctx)
  {
    if f.kids == Nil {
      Associate([At(f.node)], Tour(f.rest), Above(ctx));
    } else {
      AboveBelow(f, ctx);
      Regroup([At(f.node)], Tour(f.kids), [Leaving(f.node)], Tour(f.rest), Above(ctx));
    }
  }

  lemma AboveBelow(f: Forest, ctx: seq<Forest>)
    requires f.Cons? && ctx != []
    ensures Above([f] + ctx) == [Leaving(f.node)] + (Tour(f.rest) + Above(ctx))
  {
    var below := [f] + ctx;
    assert below[1..] == ctx && below[0] == f && |below| > 1;
  }

  lemma Regroup(a: seq<Visit>, b: seq<Visit>, c: seq<Visit>, d: seq<Visit>, e: seq<Visit>)
    ensures (a + (b + c + d)) + e == a + (b + (c + (d + e)))
  {
  }

  // The last of the nodes above is the top node.
  ghost predicate Under(ctx: seq<Forest>, top: Id) {
    ctx != [] && ctx[|ctx| - 1].Cons? && ctx[|ctx| - 1].node == top && ctx[|ctx| - 1].rest == Nil
  }

  lemma TopIsLast(links: Links, parent: Option<Id>, ctx: seq<Forest>, top: Id)
    requires Context(links, parent, ctx) && Under(ctx, top) && top < |links| && links[top].parent == None
    ensures parent == Some(top) <==> |ctx| == 1
    ensures |ctx| > 1 ==> Under(ctx[1..], top)
  {
    if |ctx| > 1 {
      assert links[ctx[0].node].parent == Some(ctx[1].node);
    }
  }

  // From a node that has no child and no next sibling up to the next node, with the menus that are left.
  method LeaveAndClimb(tree: Tree, titles: seq<string>, top: MenuNode, start: MenuNode, ghost ctx: seq<Forest>)
      returns (next: MenuNode?, left: seq<Step>, ghost cur: Forest, ghost above: seq<Forest>)
    requires tree.Coupled() && tree.Own(top) && tree.Own(start) && Context(tree.links, tree.links[start.id].parent, ctx)
    requires (ctx == [] || Under(ctx, top.id)) && tree.links[top.id].parent == None
    ensures next == null ==> left == StepsOf(tree.t, tree.attrs, titles, Above(ctx))
    ensures next != null ==>
      && tree.Own(next) && Standing(tree.links, next.id, cur, above) && Under(above, top.id)
      && |Tour(cur) + Above(above)| <= |Above(ctx)|
      && left + StepsOf(tree.t, tree.attrs, titles, Tour(cur) + Above(above))
         == StepsOf(tree.t, tree.attrs, titles, Above(ctx))
  {
    var node: MenuNode := start;
    left, cur, above := [], Nil, ctx;
    assert tree.NodeCoupled(node.id);
    ghost var whole := StepsOf(tree.t, tree.attrs, titles, Above(ctx));
    while node.parent != null
      invariant tree.Own(node) && tree.Own(node.parent) && tree.links[node.id].parent == IdOf(node.parent)
      invariant Context(tree.links, tree.links[node.id].parent, above) && (above == [] || Under(above, top.id))
      invariant left + StepsOf(tree.t, tree.attrs, titles, Above(above)) == whole && |Above(above)| <= |Above(ctx)|
      decreases |above|
    {
      TopIsLast(tree.links, tree.links[node.id].parent, above, top.id);
      node := node.parent;
      assert tree.NodeCoupled(node.id);
      ghost var before := left;
      if node != top {
        left := left + StepsAt(tree.t, titles, Leaving(node.id), node.attr.dep);
      }
      LeftStep(tree.t, tree.attrs, titles, above, before, left, whole);
      cur, above := above[0].rest, above[1..];
      if node.next != null {
        LinkedHead(tree.links, tree.links[node.id].next, cur, tree.links[node.id].parent, None);
        return node.next, left, cur, above;
      }
      NothingBeside(cur, above);
    }
    next := null;
  }

  lemma NothingBeside(cur: Forest, above: seq<Forest>)
    requires cur == Nil
    ensures Tour(cur) + Above(above) == Above(above)
  {
  }

  lemma LeftStep(t: Menus, attrs: Attrs, titles: seq<string>, ctx: seq<Forest>, left: seq<Step>, more: seq<Step>,
                 whole: seq<Step>)
    requires ctx != [] && ctx[0].Cons? && left + StepsOf(t, attrs, titles, Above(ctx)) == whole
    requires var x := ctx[0].node;
      more == if |ctx| > 1 then left + StepsAt(t, titles, Leaving(x), AttrOf(attrs, x).dep) else left
    ensures more + StepsOf(t, attrs, titles, Tour(ctx[0].rest) + Above(ctx[1..])) == whole
  {
    var x := ctx[0].node;
    AboveSteps(t, attrs, titles, ctx);
    if |ctx| > 1 {
      Associate(left, StepsAt(t, titles, Leaving(x), AttrOf(attrs, x).dep),
                StepsOf(t, attrs, titles, Tour(ctx[0].rest) + Above(ctx[1..])));
    }
  }

  lemma AboveSteps(t: Menus, attrs: Attrs, titles: seq<string>, ctx: seq<Forest>)
    requires ctx != [] && ctx[0].Cons?
    ensures StepsOf(t, attrs, titles, Above(ctx))
         == (if |ctx| > 1 then StepsAt(t, titles, Leaving(ctx[0].node), AttrOf(attrs, ctx[0].node).dep) else [])
            + StepsOf(t, attrs, titles, Tour(ctx[0].rest) + Above(ctx[1..]))
  {
    var more := Tour(ctx[0].rest) + Above(ctx[1..]);
    if |ctx| > 1 {
      var one := [Leaving(ctx[0].node)];
      assert (one + more)[1..] == more && (one + more)[0] == one[0];
    } else {
      assert [] + StepsOf(t, attrs, titles, more) == StepsOf(t, attrs, titles, more);
    }
  }

  // The visit to a node, with what comes after it.
  lemma HeadSteps(t: Menus, attrs: Attrs, titles: seq<string>, f: Forest, ctx: seq<Forest>)
    requires f.Cons? && ctx != []
    ensures |ToCome(f, ctx)| < |Tour(f) + Above(ctx)|
    ensures StepsOf(t, attrs, titles, Tour(f) + Above(ctx))
         == StepsAt(t, titles, At(f.node), AttrOf(attrs, f.node).dep) + StepsOf(t, attrs, titles, ToCome(f, ctx))
  {
    var one := [At(f.node)];
    TourHead(f, ctx);
    assert (one + ToCome(f, ctx))[1..] == ToCome(f, ctx) && (one + ToCome(f, ctx))[0] == one[0];
  }

  // At a node with `left` written, from which `next` is reached with the contents of `cur` to come.
  ghost predicate Walking(t: Menus, attrs: Attrs, titles: seq<string>, steps: seq<Step>, to: Forest, ctx: seq<Forest>,
                          whole: seq<Step>) {
    to.Cons? && ctx != [] && steps + StepsOf(t, attrs, titles, Tour(to) + Above(ctx)) == whole
  }

  // The jump to the next node.
  method Jump(tree: Tree, titles: seq<string>, top: MenuNode, node: MenuNode, ghost cur: Forest, ghost ctx: seq<Forest>)
      returns (next: MenuNode?, left: seq<Step>, ghost to: Forest, ghost above: seq<Forest>)
    requires tree.Coupled() && tree.Own(top) && tree.Own(node) && tree.links[top.id].parent == None
    requires Standing(tree.links, node.id, cur, ctx) && Under([cur] + ctx, top.id)
    ensures next == null ==> left == StepsOf(tree.t, tree.attrs, titles, ToCome(cur, ctx))
    ensures next != null ==>
      && tree.Own(next) && Standing(tree.links, next.id, to, above) && Under(above, top.id)
      && |Tour(to) + Above(above)| <= |ToCome(cur, ctx)|
      && Walking(tree.t, tree.attrs, titles, left, to, above, StepsOf(tree.t, tree.attrs, titles, ToCome(cur, ctx)))
  {
    assert tree.NodeCoupled(node.id);
    LinkedHead(tree.links, Some(node.id), cur, tree.links[node.id].parent, None);
    if node.list != null {
      next, left, to, above := node.list, [], cur.kids, [cur] + ctx;
      StandBelow(tree.links, node.id, cur, ctx);
    } else if node.next != null {
      next, left, to, above := node.next, [], cur.rest, ctx;
      StandBeside(tree.links, node.id, cur, ctx);
    } else {
      assert ToCome(cur, ctx) == Above(ctx);
      next, left, to, above := LeaveAndClimb(tree, titles, top, node, ctx);
    }
  }

  // The visit to a node and the jump to the next one.
  method VisitAndJump(tree: Tree, titles: seq<string>, top: MenuNode, node: MenuNode, ghost f: Forest,
                      ghost ctx: seq<Forest>, ghost due: seq<Step>)
      returns (next: MenuNode?, steps: seq<Step>, ghost to: Forest, ghost above: seq<Forest>)
    requires tree.Coupled() && tree.Own(top) && tree.Own(node) && tree.links[top.id].parent == None
    requires Standing(tree.links, node.id, f, ctx) && Under(ctx, top.id)
    requires due == StepsOf(tree.t, tree.attrs, titles, Tour(f) + Above(ctx))
    ensures next == null ==> steps == due
    ensures next != null ==>
      && tree.Own(next) && Standing(tree.links, next.id, to, above) && Under(above, top.id)
      && |Tour(to) + Above(above)| < |Tour(f) + Above(ctx)|
      && Walking(tree.t, tree.attrs, titles, steps, to, above, due)
  {
    assert tree.NodeCoupled(node.id);
    assert Under([f] + ctx, top.id);
    var here, left := StepsAt(tree.t, titles, At(node.id), node.attr.dep), [];
    HeadSteps(tree.t, tree.attrs, titles, f, ctx);
    next, left, to, above := Jump(tree, titles, top, node, f, ctx);
    steps := here + left;
    if next != null {
      WalkedOn(tree.t, tree.attrs, titles, here, left, StepsOf(tree.t, tree.attrs, titles, ToCome(f, ctx)), to, above,
               due);
    }
  }

  lemma AllToCome(top: Id, kids: Forest)
    ensures ToCome(Cons(top, kids, Nil), []) == Tour(kids)
  {
    var f := Cons(top, kids, Nil);
    assert [f] + [] == [f];
    assert Above([f]) == [];
  }

  lemma WalkedOn(t: Menus, attrs: Attrs, titles: seq<string>, before: seq<Step>, more: seq<Step>, after: seq<Step>,
                 to: Forest, ctx: seq<Forest>, whole: seq<Step>)
    requires before + after == whole && Walking(t, attrs, titles, more, to, ctx, after)
    ensures Walking(t, attrs, titles, before + more, to, ctx, whole)
  {
    Associate(before, more, StepsOf(t, attrs, titles, Tour(to) + Above(ctx)));
  }

  // ---------- What the walk comes by ----------

  ghost predicate HasNode(t: Menus, f: Forest, sym: Id) {
    exists x :: x in Preorder(f) && t.Item(x) == OfSymbol(sym)
  }

  // A menu node of a symbol defines it, conditions only mention items, and no title looks like a line that
  // sets a symbol to n.
  ghost predicate NodeFits(t: Menus, k: Config, attrs: Attrs, titles: seq<string>, x: Id) {
    && HeadingOk(k, AttrOf(attrs, x).dep) && HeadingOk(k, t.Visibility(x))
    && (t.Item(x).OfSymbol? ==> DefinedSymbol(k, t.Item(x).id))
    && (x < |titles| ==> Inert("# " + titles[x]))
  }

  ghost predicate TreeFits(t: Menus, k: Config, attrs: Attrs, titles: seq<string>, kids: Forest) {
    && (forall x :: x in Preorder(kids) ==> NodeFits(t, k, attrs, titles, x))
    && (forall sym: Id :: DefinedSymbol(k, sym) ==> HasNode(t, kids, sym))
  }

  ghost predicate StepFits(k: Config, step: Step) {
    StepOk(k, step) && (step.AtHeading? ==> Inert("# " + step.title))
  }

  lemma NoTitleInert()
    ensures Inert("# ")
  {
    assert StripRight("# ") == "#" by {
      assert StripRight("#") == "#";
    }
    assert PREFIX[0] == 'C';
  }

  lemma StepsAtFit(t: Menus, k: Config, attrs: Attrs, titles: seq<string>, visit: Visit)
    requires NodeFits(t, k, attrs, titles, visit.node)
    ensures forall step :: step in StepsAt(t, titles, visit, AttrOf(attrs, visit.node).dep) ==> StepFits(k, step)
  {
    NoTitleInert();
    assert "# " + "" == "# ";
  }

  lemma {:induction false} StepsFit(t: Menus, k: Config, attrs: Attrs, titles: seq<string>, visits: seq<Visit>)
    requires forall i :: 0 <= i < |visits| ==> NodeFits(t, k, attrs, titles, visits[i].node)
    ensures forall step :: step in StepsOf(t, attrs, titles, visits) ==> StepFits(k, step)
    decreases |visits|
  {
    if visits != [] {
      StepsAtFit(t, k, attrs, titles, visits[0]);
      StepsFit(t, k, attrs, titles, visits[1..]);
    }
  }

  lemma {:induction false} StepsHaveSymbol(t: Menus, attrs: Attrs, titles: seq<string>, visits: seq<Visit>, x: Id)
    requires At(x) in visits && t.Item(x).OfSymbol?
    ensures t.Item(x).id in SymbolsIn(StepsOf(t, attrs, titles, visits))
    decreases |visits|
  {
    var here, rest := StepsAt(t, titles, visits[0], AttrOf(attrs, visits[0].node).dep), visits[1..];
    var more := StepsOf(t, attrs, titles, rest);
    assert here == [] ==> here + more == more;
    assert here != [] ==> (here + more)[1..] == more && (here + more)[0] == here[0];
    if visits[0] != At(x) {
      StepsHaveSymbol(t, attrs, titles, rest, x);
    }
  }

  lemma {:induction false} TourNodes(f: Forest, x: Id)
    ensures At(x) in Tour(f) <==> x in Preorder(f)
    ensures Leaving(x) in Tour(f) ==> x in Preorder(f)
  {
    if f != Nil {
      TourNodes(f.kids, x);
      TourNodes(f.rest, x);
    }
  }

  // The walk comes by every symbol that is defined, and by nothing that could be mistaken for one.
  lemma TourComplete(t: Menus, k: Config, attrs: Attrs, titles: seq<string>, kids: Forest)
    requires TreeFits(t, k, attrs, titles, kids)
    ensures CompleteWalk(k, StepsOf(t, attrs, titles, Tour(kids)))
    ensures forall step :: step in StepsOf(t, attrs, titles, Tour(kids)) ==> StepOk(k, step)
  {
    var visits := Tour(kids);
    var steps := StepsOf(t, attrs, titles, visits);
    forall i | 0 <= i < |visits| ensures NodeFits(t, k, attrs, titles, visits[i].node) {
      assert visits[i] in visits;
      TourNodes(kids, visits[i].node);
    }
    StepsFit(t, k, attrs, titles, visits);
    assert forall i :: 0 <= i < |steps| ==> steps[i] in steps && StepFits(k, steps[i]);
    forall sym: Id | DefinedSymbol(k, sym) ensures sym in SymbolsIn(steps) {
      var x :| x in Preorder(kids) && t.Item(x) == OfSymbol(sym);
      TourNodes(kids, x);
      StepsHaveSymbol(t, attrs, titles, visits, x);
    }
  }

  // ---------- Writing along the tree ----------

  // At a node with some of the steps made and those from the node on to come, or at the end with all of them made.
  ghost predicate AtNode(tree: Tree, titles: seq<string>, top: MenuNode, node: MenuNode?, to: Forest, ctx: seq<Forest>,
                         done: seq<Step>, whole: seq<Step>)
    reads tree, tree.nodes
  {
    tree.Coupled() && tree.Own(top) &&
    if node == null then done == whole
    else
      && tree.Own(node) && top.id < |tree.links| && tree.links[top.id].parent == None
      && Standing(tree.links, node.id, to, ctx) && Under(ctx, top.id)
      && Walking(tree.t, tree.attrs, titles, done, to, ctx, whole)
  }

  // How many rounds are left at most.
  ghost function Rounds(node: MenuNode?, to: Forest, ctx: seq<Forest>): nat {
    if node == null then 0 else 1 + |Tour(to) + Above(ctx)|
  }

  // The first jump from the top node, which is not visited itself.
  method Begin(ghost k: Config, tree: Tree, titles: seq<string>, top: MenuNode, ghost kids: Forest,
               ghost none: seq<Step>, ghost whole: seq<Step>)
      returns (node: MenuNode?, steps: seq<Step>, ghost to: Forest, ghost ctx: seq<Forest>)
    requires tree.Coupled() && tree.Own(top) && whole == StepsOf(tree.t, tree.attrs, titles, Tour(kids))
    requires StepsOk(k, whole) && none == []
    requires Linked(tree.links, Some(top.id), Cons(top.id, kids, Nil), None, None)
    ensures AtNode(tree, titles, top, node, to, ctx, none + steps, whole) && StepsOk(k, steps)
  {
    AllToCome(top.id, kids);
    node, steps, to, ctx := Jump(tree, titles, top, top, Cons(top.id, kids, Nil), []);
    ghost var rest := if node == null then [] else StepsOf(tree.t, tree.attrs, titles, Tour(to) + Above(ctx));
    PartsOk(k, [], steps, rest, whole);
    assert none + steps == steps;
  }

  lemma PartsOk(k: Config, done: seq<Step>, steps: seq<Step>, rest: seq<Step>, whole: seq<Step>)
    requires StepsOk(k, whole) && done + (steps + rest) == whole
    ensures StepsOk(k, steps)
  {
    assert forall step :: step in steps ==> step in done + (steps + rest);
  }

  // From one node to the next: the steps that are made are the next ones to be made.
  method Advance(ghost k: Config, tree: Tree, titles: seq<string>, top: MenuNode, node: MenuNode, ghost f: Forest,
                 ghost ctx: seq<Forest>, ghost done: seq<Step>, ghost whole: seq<Step>)
      returns (next: MenuNode?, steps: seq<Step>, ghost to: Forest, ghost above: seq<Forest>)
    requires AtNode(tree, titles, top, node, f, ctx, done, whole) && StepsOk(k, whole)
    ensures AtNode(tree, titles, top, next, to, above, done + steps, whole) && StepsOk(k, steps)
    ensures next != null ==> |Tour(to) + Above(above)| < |Tour(f) + Above(ctx)|
  {
    ghost var due := StepsOf(tree.t, tree.attrs, titles, Tour(f) + Above(ctx));
    next, steps, to, above := VisitAndJump(tree, titles, top, node, f, ctx, due);
    ghost var rest := if next == null then [] else StepsOf(tree.t, tree.attrs, titles, Tour(to) + Above(above));
    assert steps + rest == due;
    PartsOk(k, done, steps, rest, whole);
    if next != null {
      WalkedOn(tree.t, tree.attrs, titles, done, steps, due, to, above, whole);
    }
  }

  // One round of the loop: what the file has for a node is written, and the ends of the menus that are left.
  method WriteNode(writer: Writer, tree: Tree, titles: seq<string>, top: MenuNode, node: MenuNode, ghost f: Forest,
                   ghost ctx: seq<Forest>, ghost whole: seq<Step>)
      returns (next: MenuNode?, ghost to: Forest, ghost above: seq<Forest>)
    requires writer.Valid() && StepsOk(writer.kconfig.k, whole)
    requires AtNode(tree, titles, top, node, f, ctx, writer.steps, whole)
    modifies writer, writer.kconfig, writer.kconfig.items
    ensures writer.Valid() && writer.kconfig.settings == old(writer.kconfig.settings)
    ensures AtNode(tree, titles, top, next, to, above, writer.steps, whole)
    ensures Rounds(next, to, above) < Rounds(node, f, ctx)
  {
    var steps;
    next, steps, to, above := Advance(writer.kconfig.k, tree, titles, top, node, f, ctx, writer.steps, whole);
    writer.AddAll(steps);
  }

  // What comes before the first node.
  method WriteFirst(writer: Writer, tree: Tree, titles: seq<string>, top: MenuNode, ghost kids: Forest,
                    ghost whole: seq<Step>)
      returns (node: MenuNode?, ghost to: Forest, ghost ctx: seq<Forest>)
    requires writer.Valid() && writer.steps == [] && StepsOk(writer.kconfig.k, whole)
    requires tree.Coupled() && tree.Own(top) && whole == StepsOf(tree.t, tree.attrs, titles, Tour(kids))
    requires Linked(tree.links, Some(top.id), Cons(top.id, kids, Nil), None, None)
    modifies writer, writer.kconfig, writer.kconfig.items
    ensures writer.Valid() && writer.kconfig.settings == old(writer.kconfig.settings)
    ensures AtNode(tree, titles, top, node, to, ctx, writer.steps, whole)
  {
    var steps;
    node, steps, to, ctx := Begin(writer.kconfig.k, tree, titles, top, kids, writer.steps, whole);
    writer.AddAll(steps);
  }

  // _config_contents()
  method WriteNodes(writer: Writer, tree: Tree, titles: seq<string>, top: MenuNode, ghost kids: Forest,
                    ghost whole: seq<Step>)
    requires writer.Valid() && writer.steps == [] && StepsOk(writer.kconfig.k, whole)
    requires tree.Coupled() && tree.Own(top) && whole == StepsOf(tree.t, tree.attrs, titles, Tour(kids))
    requires Linked(tree.links, Some(top.id), Cons(top.id, kids, Nil), None, None)
    modifies writer, writer.kconfig, writer.kconfig.items
    ensures writer.Valid() && writer.kconfig.settings == old(writer.kconfig.settings) && writer.steps == whole
  {
    var node;
    ghost var to, ctx;
    node, to, ctx := WriteFirst(writer, tree, titles, top, kids, whole);
    while node != null
      invariant writer.Valid() && writer.kconfig.settings == old(writer.kconfig.settings)
      invariant AtNode(tree, titles, top, node, to, ctx, writer.steps, whole)
      decreases Rounds(node, to, ctx)
    {
      node, to, ctx := WriteNode(writer, tree, titles, top, node, to, ctx, whole);
    }
  }

  // Writing a configuration along its menu tree.
  method WriteTree(kconfig: Kconfig, tree: Tree, titles: seq<string>, top: MenuNode, header: seq<string>,
                   ghost kids: Forest)
      returns (lines: seq<string>)
    requires kconfig.Valid() && tree.Coupled() && tree.Own(top)
    requires Linked(tree.links, Some(top.id), Cons(top.id, kids, Nil), None, None)
    requires TreeFits(tree.t, kconfig.k, tree.attrs, titles, kids)
    modifies kconfig, kconfig.items
    ensures kconfig.Valid() && kconfig.settings == old(kconfig.settings)
    ensures var steps := StepsOf(tree.t, old(tree.attrs), titles, Tour(kids));
      CompleteWalk(kconfig.k, steps) && lines == ConfigContents(kconfig.k, kconfig.S().v, header, steps)
  {
    TourComplete(tree.t, kconfig.k, tree.attrs, titles, kids);
    ghost var whole := StepsOf(tree.t, tree.attrs, titles, Tour(kids));
    var writer := new Writer(kconfig, header);
    WriteNodes(writer, tree, titles, top, kids, whole);
    lines := writer.Contents();
  }
}
