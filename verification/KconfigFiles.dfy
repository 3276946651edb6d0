/** From Kconfig files to a configuration file and back: the menu tree is read, finalised and walked, and a
    configuration is saved along it and restored. */
module KconfigFiles {
  import opened Wrappers
  import opened Model
  import opened Values
  import opened Reference
  import opened CacheInvariant
  import opened Assignments
  import opened ConfigLines
  import opened ConfigFile
  import opened LoadedUsers
  import opened RoundTrip
  import opened MenuForest
  import opened MenuLinks
  import opened MenuOrder
  import opened MenuTree
  import opened MenuLines
  import opened MenuParser
  import opened Engine
  import opened Sessions
  import opened ConfigIO
  import opened ConfigWalk
  import MenuMeaning
  import MenuParents
  import TreeConfig

  // ---------- What has been read is as finalising it requires ----------

  // The nodes from number `n` on are what the outline says.
  ghost predicate Describes(t: Menus, o: Outline, n: nat) {
    forall i :: 0 <= i < |Heads(o)| ==> t.Item(n + i) == Heads(o)[i].entry.item
  }

  lemma {:induction false} HeadsGiven(o: Outline, y: Id, i: nat)
    requires Nested(o, y) && i < |Heads(o)|
    ensures HeadOf(LineOf(Heads(o)[i]), y) == Some(Heads(o)[i])
    decreases o
  {
    var kids := Heads(o.kids);
    if 1 <= i < 1 + |kids| {
      HeadsGiven(o.kids, y, i - 1);
    } else if i > 0 {
      HeadsGiven(o.rest, y, i - 1 - |kids|);
    }
  }

  lemma {:induction false} SymbolsLeaves(t: Menus, o: Outline, y: Id, n: nat)
    requires Nested(o, y) && Describes(t, o, n)
    ensures TreeConfig.SymbolsAreLeaves(t, Numbered(o, n))
    decreases o
  {
    if o.Item? {
      var below, beside := n + 1, n + 1 + |Heads(o.kids)|;
      assert t.Item(n + 0) == Heads(o)[0].entry.item;
      forall i | 0 <= i < |Heads(o.kids)| ensures t.Item(below + i) == Heads(o.kids)[i].entry.item {
        assert Heads(o)[1 + i] == Heads(o.kids)[i] && t.Item(n + (1 + i)) == Heads(o)[1 + i].entry.item;
      }
      forall i | 0 <= i < |Heads(o.rest)| ensures t.Item(beside + i) == Heads(o.rest)[i].entry.item {
        var j := 1 + |Heads(o.kids)| + i;
        assert Heads(o)[j] == Heads(o.rest)[i] && t.Item(n + j) == Heads(o)[j].entry.item;
      }
      SymbolsLeaves(t, o.kids, y, below);
      SymbolsLeaves(t, o.rest, y, beside);
    }
  }

  lemma {:induction false} NumbersInRange(o: Outline, n: nat, end: nat)
    requires n + |Heads(o)| <= end
    ensures MenuMeaning.InRange(Numbered(o, n), end)
    decreases o
  {
    if o.Item? {
      var below, beside := n + 1, n + 1 + |Heads(o.kids)|;
      NumbersInRange(o.kids, below, end);
      NumbersInRange(o.rest, beside, end);
    }
  }

  lemma ReadIsParsed(lines: seq<Line>, n: Id, m: Id, y: Id, symbols: nat, o: Outline)
    requires ReadBlock(lines, None, y) == Block(o, [])
    ensures var t, s := MenusOf(n, m, y, o), StateOf(n, y, symbols, o);
      && t.Item(0).OfMenu? && IfsPromptless(t, s.attrs)
      && (o != Empty ==> TreeConfig.Parsed(t, s, 0, Numbered(o, 1)))
  {
    var t, s := MenusOf(n, m, y, o), StateOf(n, y, symbols, o);
    BlockNested(lines, None, y);
    forall x: Id | t.Item(x).OfIf? ensures AttrOf(s.attrs, x).prompt.None? {
      if 1 <= x < |s.attrs| {
        HeadsGiven(o, y, x - 1);
      }
    }
    SymbolsLeaves(t, o, y, 1);
    NumbersInRange(o, 1, |s.attrs|);
    TopRepeats(o);
  }

  lemma TopRepeats(o: Outline)
    ensures NoRepeats(Cons(0, Numbered(o, 1), Nil))
  {
    var f := Cons(0, Numbered(o, 1), Nil);
    forall x: Id ensures Nodes(f)[x] <= 1 {
      CountParts(f, x);
      NumberedCount(o, 1, 1 + |Heads(o)|, x);
    }
  }

  // ---------- The menu tree ----------

  function Final(n: Id, m: Id, y: Id, symbols: nat, o: Outline): Finalized {
    TreeConfig.Finished(MenusOf(n, m, y, o), StateOf(n, y, symbols, o), 0, Numbered(o, 1))
  }

  // A tree of linked nodes as finalising leaves it.
  ghost predicate FinalTree(tree: Tree, top: MenuNode, n: Id, m: Id, y: Id, symbols: nat, o: Outline)
    reads tree, tree.nodes
  {
    var r := Final(n, m, y, symbols, o);
    && tree.Coupled() && tree.Own(top) && top.id == 0 && tree.t == MenusOf(n, m, y, o) && tree.S() == r.state
    && MenuLinks.Linked(tree.links, Some(0), Cons(0, r.forest.kids, Nil), None, None) && NoIfs(tree.t, r.forest.kids)
  }

  // Reading and finalising: a tree results if and only if all blocks are properly nested, and the nodes that
  // are left are in the order of the lines that begin them.
  method ReadAndFinalize(lines: seq<Line>, n: Id, m: Id, y: Id, symbols: nat)
      returns (tree: Tree?, top: MenuNode?, titles: seq<string>, order: seq<Id>, ghost o: Outline)
    ensures tree == null <==> ReadBlock(lines, None, y).Failed?
    ensures tree != null ==> ReadBlock(lines, None, y) == Block(o, [])
    ensures tree != null ==> top != null && fresh(tree) && fresh(tree.nodes)
    ensures tree != null ==> FinalTree(tree, top, n, m, y, symbols, o)
    ensures tree != null ==> titles == [TopHead(y).title] + TitlesOf(Heads(o))
    ensures tree != null ==>
      order == Preorder(Final(n, m, y, symbols, o).forest.kids) == Shown(tree.t, Consecutive(1, |Heads(o)|))
  {
    order := [];
    tree, top, titles, o := ReadTree(lines, n, m, y, symbols);
    if tree != null {
      ReadIsParsed(lines, n, m, y, symbols, o);
      NumberedInOrder(o, 1);
      ghost var after;
      order, after := tree.FinalizeAndWalk(top, Numbered(o, 1));
    }
  }

  // In the tree that results, the node of a line points to the nearest node above it that has a prompt or is a
  // choice, in the nesting of the files and of implicit submenus, or to the top.
  lemma FilesParents(lines: seq<Line>, tree: Tree, top: MenuNode, n: Id, m: Id, y: Id, symbols: nat, o: Outline)
      returns (nested: Forest)
    requires ReadBlock(lines, None, y) == Block(o, []) && FinalTree(tree, top, n, m, y, symbols, o)
    ensures MenuParents.Nesting(tree.t, tree.attrs, Numbered(o, 1), nested)
    ensures var parsed := StateOf(n, y, symbols, o).attrs;
      forall p :: p in MenuParents.Above(tree.t, MenuParents.Keeping(tree.t, parsed), nested, Some(0)) ==>
        p.0 < |tree.links| && tree.links[p.0].parent == p.1
  {
    var t, s := MenusOf(n, m, y, o), StateOf(n, y, symbols, o);
    ReadIsParsed(lines, n, m, y, symbols, o);
    TopRepeats(o);
    TopAlone(t, s, 0, Numbered(o, 1), Ref(t.y));
    nested := MenuParents.FinalPointers(t, s, 0, Numbered(o, 1), tree.links);
  }

  // ---------- The configuration that belongs to the tree ----------

  function Titles(y: Id, o: Outline): seq<string> {
    [TopHead(y).title] + TitlesOf(Heads(o))
  }

  // The steps in which the configuration is written.
  function StepsIn(k: Config, n: Id, m: Id, y: Id, o: Outline): seq<Step> {
    var r := Final(n, m, y, |k.items|, o);
    StepsOf(MenusOf(n, m, y, o), r.state.attrs, Titles(y, o), Tour(r.forest.kids))
  }

  // What a line gives its menu node only mentions items of the configuration, the symbol of a line is defined
  // there, and its title does not look like a line that sets a symbol to n.
  ghost predicate HeadFits(k: Config, h: Head) {
    && HeadingOk(k, h.attr.dep) && HeadingOk(k, h.entry.visibility) && Inert("# " + h.title)
    && (h.entry.item.SymbolOrChoice() ==> h.entry.item.id < |k.items|)
    && (h.entry.item.OfSymbol? ==> DefinedSymbol(k, h.entry.item.id))
  }

  ghost predicate HasLine(o: Outline, sym: Id) {
    exists i :: 0 <= i < |Heads(o)| && Heads(o)[i].entry.item == OfSymbol(sym)
  }

  // The symbols that the configuration defines are those that have lines in the files.
  ghost predicate FilesFit(lines: seq<Line>, k: Config, n: Id, m: Id, y: Id) {
    && n < |k.items| && y < |k.items|
    && var r := ReadBlock(lines, None, y);
    r.Block? ==>
      && (forall i :: 0 <= i < |Heads(r.outline)| ==> HeadFits(k, Heads(r.outline)[i]))
      && (forall sym: Id :: DefinedSymbol(k, sym) ==> HasLine(r.outline, sym))
  }

  // ---------- Finalising only combines conditions ----------

  ghost predicate DepsOk(k: Config, attrs: Attrs) {
    forall i :: 0 <= i < |attrs| ==> HeadingOk(k, attrs[i].dep)
  }

  ghost predicate MenusOk(t: Menus, k: Config) {
    t.n < |k.items| && forall x: Id :: t.Item(x).OfChoice? ==> t.Item(x).id < |k.items|
  }

  lemma {:induction false} LevelKeepsDeps(t: Menus, k: Config, attrs: Attrs, f: Forest, base: Expr, visible: Expr)
    requires MenusOk(t, k) && DepsOk(k, attrs) && HeadingOk(k, base)
    ensures DepsOk(k, PropagateLevel(t, attrs, f, base, visible))
    decreases f
  {
    if f.Cons? {
      var next := if f.node < |attrs|
                  then attrs[f.node := Propagated(t, attrs[f.node], t.Item(f.node), base, visible)]
                  else attrs;
      forall i | 0 <= i < |next| ensures HeadingOk(k, next[i].dep) {
        assert HeadingOk(k, attrs[i].dep);
      }
      LevelKeepsDeps(t, k, next, f.rest, base, visible);
    }
  }

  // What holds when something has been finalised; `rest` has not been yet.
  ghost predicate DepsKept(k: Config, s: State, after: State, rest: Forest) {
    |after.attrs| == |s.attrs| && DepsOk(k, after.attrs) && MenuMeaning.InRange(rest, |s.attrs|)
  }

  lemma {:induction false} FinalizeKeepsDeps(t: Menus, k: Config, s: State, f: Forest, visible: Expr)
    requires f.Cons? && MenusOk(t, k) && DepsOk(k, s.attrs) && MenuMeaning.InRange(f, |s.attrs|)
    ensures var r := Finalize(t, s, f, visible); DepsKept(k, s, r.state, r.forest.rest)
    decreases Size(f), 0
  {
    var x := f.node;
    if f.kids != Nil {
      var base, below := BaseDep(t, s.attrs, x), VisibleIf(t, x, visible);
      assert HeadingOk(k, s.attrs[x].dep);
      LevelKeepsDeps(t, k, s.attrs, f.kids, base, below);
      FinalizeListKeepsDeps(t, k, s.(attrs := PropagateLevel(t, s.attrs, f.kids, base, below)), f.kids, below);
    } else if t.Item(x).OfSymbol? {
      var s1 := s.(props := AddProps(t, s.props, t.Item(x).id, AttrOf(s.attrs, x)));
      AbsorbKeepsDeps(t, k, s1, t.Item(x).id, f.rest, visible);
    }
  }

  lemma {:induction false} FinalizeListKeepsDeps(t: Menus, k: Config, s: State, f: Forest, visible: Expr)
    requires MenusOk(t, k) && DepsOk(k, s.attrs) && MenuMeaning.InRange(f, |s.attrs|)
    ensures DepsKept(k, s, FinalizeList(t, s, f, visible).state, Nil)
    decreases Size(f), 1
  {
    if f != Nil {
      var first := Finalize(t, s, f, visible);
      FinalizeKeepsDeps(t, k, s, f, visible);
      FinalizeListKeepsDeps(t, k, first.state, first.forest.rest, visible);
    }
  }

  lemma {:induction false} AbsorbKeepsDeps(t: Menus, k: Config, s: State, sym: Id, f: Forest, visible: Expr)
    requires MenusOk(t, k) && DepsOk(k, s.attrs) && MenuMeaning.InRange(f, |s.attrs|)
    ensures var r := Absorb(t, s, sym, f, visible); DepsKept(k, s, r.state, r.rest)
    decreases Size(f), 1
  {
    if f != Nil && AutoMenuDep(t, s.attrs, sym, f.node) {
      var first := Finalize(t, s, f, visible);
      FinalizeKeepsDeps(t, k, s, f, visible);
      AbsorbKeepsDeps(t, k, first.state, sym, first.forest.rest, visible);
    }
  }

  lemma {:induction false} ShownHas(t: Menus, xs: seq<Id>, x: Id)
    ensures x in Shown(t, xs) <==> x in xs && !t.Item(x).OfIf?
    decreases |xs|
  {
    if xs != [] {
      ShownHas(t, xs[1..], x);
    }
  }

  lemma FinalOrder(lines: seq<Line>, n: Id, m: Id, y: Id, symbols: nat, o: Outline)
    requires ReadBlock(lines, None, y) == Block(o, [])
    ensures Preorder(Final(n, m, y, symbols, o).forest.kids) == Shown(MenusOf(n, m, y, o), Consecutive(1, |Heads(o)|))
  {
    var t, s, kids := MenusOf(n, m, y, o), StateOf(n, y, symbols, o), Numbered(o, 1);
    var after := Final(n, m, y, symbols, o).forest.kids;
    ReadIsParsed(lines, n, m, y, symbols, o);
    FinalizeKeepsOrder(t, s, Cons(0, kids, Nil), Ref(y));
    TopAlone(t, s, 0, kids, Ref(y));
    NoIfsShown(t, after);
    ShownBelow(t, 0, after, kids);
    NumberedInOrder(o, 1);
  }

  lemma InConsecutive(n: nat, count: nat, x: Id)
    ensures x in Consecutive(n, count) <==> n <= x < n + count
  {
    assert n <= x < n + count ==> Consecutive(n, count)[x - n] == x;
  }

  // The nodes of the final tree are those of the lines that do not begin 'if' blocks.
  lemma FinalNodes(lines: seq<Line>, n: Id, m: Id, y: Id, symbols: nat, o: Outline, x: Id)
    requires ReadBlock(lines, None, y) == Block(o, [])
    ensures x in Preorder(Final(n, m, y, symbols, o).forest.kids)
       <==> 1 <= x < 1 + |Heads(o)| && !MenusOf(n, m, y, o).Item(x).OfIf?
  {
    FinalOrder(lines, n, m, y, symbols, o);
    ShownHas(MenusOf(n, m, y, o), Consecutive(1, |Heads(o)|), x);
    InConsecutive(1, |Heads(o)|, x);
  }

  // What the node of a line has.
  lemma NodeOfHead(n: Id, m: Id, y: Id, o: Outline, x: Id, h: Head)
    requires 1 <= x < 1 + |Heads(o)| && h == Heads(o)[x - 1]
    ensures MenusOf(n, m, y, o).Item(x) == h.entry.item && MenusOf(n, m, y, o).Visibility(x) == h.entry.visibility
    ensures x < |Titles(y, o)| && Titles(y, o)[x] == h.title
  {
  }

  lemma FinalNodeFits(lines: seq<Line>, k: Config, n: Id, m: Id, y: Id, o: Outline, x: Id, h: Head, attrs: Attrs)
    requires FilesFit(lines, k, n, m, y) && ReadBlock(lines, None, y) == Block(o, [])
    requires 1 <= x < 1 + |Heads(o)| && h == Heads(o)[x - 1] && HeadingOk(k, AttrOf(attrs, x).dep)
    ensures NodeFits(MenusOf(n, m, y, o), k, attrs, Titles(y, o), x)
  {
    NodeOfHead(n, m, y, o, x, h);
    assert HeadFits(k, h);
  }

  lemma FinalHasNode(lines: seq<Line>, k: Config, n: Id, m: Id, y: Id, o: Outline, sym: Id)
    requires FilesFit(lines, k, n, m, y) && ReadBlock(lines, None, y) == Block(o, []) && DefinedSymbol(k, sym)
    ensures HasNode(MenusOf(n, m, y, o), Final(n, m, y, |k.items|, o).forest.kids, sym)
  {
    var i :| 0 <= i < |Heads(o)| && Heads(o)[i].entry.item == OfSymbol(sym);
    var x := 1 + i;
    NodeOfHead(n, m, y, o, x, Heads(o)[i]);
    FinalNodes(lines, n, m, y, |k.items|, o, x);
  }

  lemma FinalFits(lines: seq<Line>, k: Config, n: Id, m: Id, y: Id, o: Outline)
    requires FilesFit(lines, k, n, m, y) && ReadBlock(lines, None, y) == Block(o, [])
    ensures var final := Final(n, m, y, |k.items|, o);
      TreeFits(MenusOf(n, m, y, o), k, final.state.attrs, Titles(y, o), final.forest.kids)
  {
    var t, final := MenusOf(n, m, y, o), Final(n, m, y, |k.items|, o);
    FinalDeps(lines, k, n, m, y, o);
    forall x | x in Preorder(final.forest.kids) ensures NodeFits(t, k, final.state.attrs, Titles(y, o), x) {
      FinalNodes(lines, n, m, y, |k.items|, o, x);
      FinalNodeFits(lines, k, n, m, y, o, x, Heads(o)[x - 1], final.state.attrs);
    }
    forall sym: Id | DefinedSymbol(k, sym) ensures HasNode(t, final.forest.kids, sym) {
      FinalHasNode(lines, k, n, m, y, o, sym);
    }
  }

  lemma FinalDeps(lines: seq<Line>, k: Config, n: Id, m: Id, y: Id, o: Outline)
    requires FilesFit(lines, k, n, m, y) && ReadBlock(lines, None, y) == Block(o, [])
    ensures DepsKept(k, StateOf(n, y, |k.items|, o), Final(n, m, y, |k.items|, o).state, Nil)
  {
    var t, s := MenusOf(n, m, y, o), StateOf(n, y, |k.items|, o);
    forall i | 0 <= i < |s.attrs| ensures HeadingOk(k, s.attrs[i].dep) {
      if i > 0 {
        assert HeadFits(k, Heads(o)[i - 1]);
      }
    }
    forall x: Id | t.Item(x).OfChoice? ensures t.Item(x).id < |k.items| {
      if 1 <= x <= |Heads(o)| {
        assert HeadFits(k, Heads(o)[x - 1]);
      }
    }
    NumbersInRange(o, 1, |s.attrs|);
    FinalizeKeepsDeps(t, k, s, Cons(0, Numbered(o, 1), Nil), Ref(y));
  }

  // ---------- Saving and restoring ----------

  // A configuration is saved along the tree.
  method WriteAlong(kconfig: Kconfig, lines: seq<Line>, n: Id, m: Id, y: Id, header: seq<string>)
      returns (file: Option<seq<string>>, ghost o: Outline)
    requires kconfig.Valid() && FilesFit(lines, kconfig.k, n, m, y)
    modifies kconfig, kconfig.items
    ensures kconfig.Valid() && kconfig.settings == old(kconfig.settings)
    ensures file == None <==> ReadBlock(lines, None, y).Failed?
    ensures file.Some? ==> ReadBlock(lines, None, y) == Block(o, [])
    ensures file.Some? ==>
      var steps := StepsIn(kconfig.k, n, m, y, o);
      CompleteWalk(kconfig.k, steps) && file.value == ConfigContents(kconfig.k, kconfig.S().v, header, steps)
  {
    var tree, top, titles, order;
    tree, top, titles, order, o := ReadAndFinalize(lines, n, m, y, |kconfig.k.items|);
    file := None;
    if tree != null {
      ghost var final := Final(n, m, y, |kconfig.k.items|, o);
      FinalFits(lines, kconfig.k, n, m, y, o);
      var contents := WriteTree(kconfig, tree, titles, top, header, final.forest.kids);
      file := Some(contents);
    }
  }

  // From the Kconfig files on: after any operations a configuration is saved, and after any others it is loaded.
  // Unless the files are rejected, everything has its value again if all values were restorable.
  method SaveAndRestoreAlong(lines: seq<Line>, n: Id, m: Id, y: Id, k: Config, ops: seq<Op>, others: seq<Op>,
                             header: seq<string>, x: Id)
      returns (before: string, after: Option<string>)
    requires WellFormed(k) && Ordered(k) && ProperChoices(k) && UniqueNames(k) && DefinedSymbol(k, x)
    requires FilesFit(lines, k, n, m, y) && HeaderInert(header) && Textual(k, Evaluate(k, UsersAfter(k, ops)))
    ensures before == ValOf(Evaluate(k, UsersAfter(k, ops)), x).str
    ensures after == None <==> ReadBlock(lines, None, y).Failed?
    ensures after.Some? && (forall z: Id :: z < |k.items| ==> Restorable(k, Evaluate(k, UsersAfter(k, ops)), z)) ==>
      after.value == before
  {
    var kconfig := new Kconfig(k);
    PerformAll(kconfig, ops);
    ghost var us := UsersIn(kconfig.settings);
    before := kconfig.GetStrValue(x);
    after := None;
    var file;
    ghost var o;
    file, o := WriteAlong(kconfig, lines, n, m, y, header);
    if file.Some? {
      PerformAll(kconfig, others);
      ghost var st := kconfig.settings;
      LoadConfig(kconfig, file.value, true);
      LoadedIsReload(k, us, st, header, StepsIn(k, n, m, y, o));
      ReloadExact(k, us, UsersIn(kconfig.settings));
      var text := kconfig.GetStrValue(x);
      after := Some(text);
    }
  }
}
