/** Reading Kconfig files into linked menu nodes.

    While a block is read, its nodes are put behind the node that it belongs to, as if they were siblings;
    afterwards they are tilted up to become its children. */
module MenuParser {
  import opened Wrappers
  import opened Model
  import opened MenuForest
  import opened MenuLinks
  import opened MenuLines
  import opened MenuTree

  // ---------- Links that grow ----------

  ghost predicate InRange(f: Forest, lo: nat, hi: nat) {
    NoRepeats(f) && forall x: Id :: Nodes(f)[x] > 0 ==> lo <= x < hi
  }

  // The last of a list of siblings that has been put behind `prev`.
  function LastOf(f: Forest, prev: Id): Id {
    if f == Nil then prev else Last(f)
  }

  // New nodes that make up `f` have been put behind `prev`, and nothing else has changed.  The link behind
  // the last of them is not right yet.
  ghost predicate Grown(before: Links, now: Links, prev: Id, parent: Id, f: Forest, last: Id) {
    && prev < |before| <= |now| && last < |now| && last == LastOf(f, prev)
    && (forall x: Id :: x < |before| && x != prev ==> now[x] == before[x])
    && now[prev] == before[prev].(next := now[prev].next)
    && InRange(f, |before|, |now|)
    && Linked(now, now[prev].next, f, Some(parent), now[last].next)
  }

  lemma {:induction false} LastJoin(f: Forest, g: Forest, prev: Id)
    ensures LastOf(Append(f, g), prev) == LastOf(g, LastOf(f, prev))
    decreases f
  {
    if f.Cons? {
      LastJoin(f.rest, g, f.node);
      AppendNil(f.rest);
    }
  }

  lemma RangesJoin(f: Forest, g: Forest, lo: nat, mid: nat, hi: nat)
    requires lo <= mid <= hi && InRange(f, lo, mid) && InRange(g, mid, hi)
    ensures InRange(Append(f, g), lo, hi)
  {
    AppendNodes(f, g);
    forall x: Id ensures Nodes(Append(f, g))[x] == Nodes(f)[x] + Nodes(g)[x] {}
  }

  // What comes behind a node that is not the last of the new ones yet.
  lemma GrowthKept(before: Links, mid: Links, now: Links, prev: Id, parent: Id, f: Forest, m: Id)
    requires Grown(before, mid, prev, parent, f, m) && |mid| <= |now|
    requires (forall x: Id :: x < |mid| && x != m ==> now[x] == mid[x]) && now[m] == mid[m].(next := now[m].next)
    ensures Linked(now, now[prev].next, f, Some(parent), now[m].next)
  {
    if f.Cons? {
      LinkedEnd(mid, mid[prev].next, f, Some(parent), mid[m].next, now[m].next);
      LastInside(f);
      LinkedSame(mid[m := now[m]], now, mid[prev].next, f, Some(parent), now[m].next);
    }
  }

  lemma GrownTwice(before: Links, mid: Links, now: Links, prev: Id, parent: Id, f: Forest, m: Id, g: Forest, last: Id)
    requires Grown(before, mid, prev, parent, f, m) && Grown(mid, now, m, parent, g, last)
    ensures Grown(before, now, prev, parent, Append(f, g), last)
  {
    LastJoin(f, g, prev);
    RangesJoin(f, g, |before|, |mid|, |now|);
    GrowthKept(before, mid, now, prev, parent, f, m);
    LinkedJoin(now, now[prev].next, f, now[m].next, g, Some(parent), now[last].next);
    if f.Cons? {
      LastInside(f);
    }
  }

  lemma NothingGrown(links: Links, prev: Id, parent: Id)
    requires prev < |links|
    ensures Grown(links, links, prev, parent, Nil, prev)
  {
  }

  // The end of a list.
  lemma GrowthEnds(before: Links, mid: Links, prev: Id, parent: Id, f: Forest, last: Id)
    requires Grown(before, mid, prev, parent, f, last)
    ensures Grown(before, mid[last := mid[last].(next := None)], prev, parent, f, last)
  {
    var now := mid[last := mid[last].(next := None)];
    GrowthKept(before, mid, now, prev, parent, f, last);
    if f.Cons? {
      LastInside(f);
    }
  }

  // One new node, with what has been put behind it tilted up, is put behind `prev`.
  lemma TiltedUp(before: Links, mid: Links, now: Links, prev: Id, parent: Id, n: Id, kids: Forest, last: Id)
    requires prev < |before| == n
    requires Grown(before + [Link(None, None, Some(parent))], mid, n, n, kids, last) && mid[last].next == None
    requires now == mid[n := mid[n].(list := mid[n].next)][prev := mid[prev].(next := Some(n))]
    ensures Grown(before, now, prev, parent, Cons(n, kids, Nil), n)
  {
    var one := Cons(n, kids, Nil);
    LinkedElsewhere(mid, n, mid[n].(list := mid[n].next), mid[n].next, kids, Some(n), None);
    LinkedElsewhere(mid[n := now[n]], prev, now[prev], mid[n].next, kids, Some(n), None);
    forall x: Id ensures Nodes(one)[x] == (if x == n then 1 else 0) + Nodes(kids)[x] {
      CountParts(one, x);
    }
  }

  // ---------- Nodes that are added ----------

  // What menu nodes hold, side by side.
  datatype Tables = Tables(entries: seq<Entry>, titles: seq<string>, attrs: Attrs, links: Links)

  ghost predicate Even(s: Tables) {
    |s.entries| == |s.titles| == |s.attrs| == |s.links|
  }

  function EntriesOf(heads: seq<Head>): seq<Entry> {
    seq(|heads|, i requires 0 <= i < |heads| => heads[i].entry)
  }

  function TitlesOf(heads: seq<Head>): seq<string> {
    seq(|heads|, i requires 0 <= i < |heads| => heads[i].title)
  }

  function AttrsOf(heads: seq<Head>): Attrs {
    seq(|heads|, i requires 0 <= i < |heads| => heads[i].attr)
  }

  // The nodes of `o` have been put behind `prev`.
  ghost predicate Put(a: Tables, b: Tables, o: Outline, prev: Id, parent: Id, last: Id) {
    && Even(a) && Even(b)
    && b.entries == a.entries + EntriesOf(Heads(o)) && b.titles == a.titles + TitlesOf(Heads(o))
    && b.attrs == a.attrs + AttrsOf(Heads(o))
    && Grown(a.links, b.links, prev, parent, Numbered(o, |a.links|), last)
  }

  lemma NothingPut(s: Tables, prev: Id, parent: Id)
    requires Even(s) && prev < |s.links|
    ensures Put(s, s, Empty, prev, parent, prev)
  {
    assert EntriesOf([]) == [] && TitlesOf([]) == [] && AttrsOf([]) == [];
    assert s.entries + [] == s.entries && s.titles + [] == s.titles && s.attrs + [] == s.attrs;
    NothingGrown(s.links, prev, parent);
  }

  lemma HeadsConcat(a: seq<Head>, b: seq<Head>)
    ensures EntriesOf(a + b) == EntriesOf(a) + EntriesOf(b) && TitlesOf(a + b) == TitlesOf(a) + TitlesOf(b)
    ensures AttrsOf(a + b) == AttrsOf(a) + AttrsOf(b)
  {
  }

  lemma PutTwice(a: Tables, b: Tables, c: Tables, o: Outline, p: Outline, prev: Id, parent: Id, mid: Id, last: Id)
    requires Put(a, b, o, prev, parent, mid) && Put(b, c, p, mid, parent, last)
    ensures Put(a, c, Join(o, p), prev, parent, last)
  {
    HeadsJoin(o, p);
    HeadsConcat(Heads(o), Heads(p));
    NumberedJoin(o, p, |a.links|, |b.links|);
    GrownTwice(a.links, b.links, c.links, prev, parent, Numbered(o, |a.links|), mid, Numbered(p, |b.links|), last);
    Associate(a.entries, EntriesOf(Heads(o)), EntriesOf(Heads(p)));
    Associate(a.titles, TitlesOf(Heads(o)), TitlesOf(Heads(p)));
    Associate(a.attrs, AttrsOf(Heads(o)), AttrsOf(Heads(p)));
  }

  lemma PutEnds(a: Tables, b: Tables, c: Tables, o: Outline, prev: Id, parent: Id, last: Id)
    requires Put(a, b, o, prev, parent, last)
    requires c == b.(links := b.links[last := b.links[last].(next := None)])
    ensures Put(a, c, o, prev, parent, last) && c.links[last].next == None
  {
    GrowthEnds(a.links, b.links, prev, parent, Numbered(o, |a.links|), last);
  }

  // With a node that has just been created.
  function Added(s: Tables, head: Head, parent: Id): Tables {
    Tables(s.entries + [head.entry], s.titles + [head.title], s.attrs + [head.attr],
           s.links + [Link(None, None, Some(parent))])
  }

  // The node is added, what is below it has been put behind it and is tilted up, and the node put behind `prev`.
  lemma PutTilted(a: Tables, b: Tables, c: Tables, d: Tables, head: Head, kids: Outline, prev: Id, parent: Id, n: Id,
                  last: Id)
    requires Even(a) && prev < |a.links| == n && Put(b, c, kids, n, n, last) && c.links[last].next == None
    requires b == Added(a, head, parent)
    requires var tilted := c.links[n := c.links[n].(list := c.links[n].next)];
      d == c.(links := tilted[prev := tilted[prev].(next := Some(n))])
    ensures Put(a, d, Item(head, kids, Empty), prev, parent, n)
  {
    var next, one := n + 1, Item(head, kids, Empty);
    TiltedUp(a.links, c.links, d.links, prev, parent, n, Numbered(kids, next), last);
    assert Heads(one) == [head] + Heads(kids);
    HeadsConcat([head], Heads(kids));
    assert EntriesOf([head]) == [head.entry] && TitlesOf([head]) == [head.title] && AttrsOf([head]) == [head.attr];
    Associate(a.entries, [head.entry], EntriesOf(Heads(kids)));
    Associate(a.titles, [head.title], TitlesOf(Heads(kids)));
    Associate(a.attrs, [head.attr], AttrsOf(Heads(kids)));
  }

  function TopHead(y: Id): Head {
    Head(Entry(OfMenu, Ref(y)), Attr(Ref(y), Some(Ref(y)), [], [], [], []), "Main menu")
  }

  // What has been put behind the top node is tilted up.
  lemma TopTilted(a: Links, b: Links, c: Links, kids: Forest, last: Id)
    requires |a| == 1 && a[0] == Link(None, None, None) && Grown(a, b, 0, 0, kids, last) && b[last].next == None
    requires c == b[0 := b[0].(list := b[0].next)][0 := b[0].(list := b[0].next, next := None)]
    ensures NoRepeats(Cons(0, kids, Nil)) && Linked(c, Some(0), Cons(0, kids, Nil), None, None)
  {
    var one := Cons(0, kids, Nil);
    LinkedElsewhere(b, 0, c[0], b[0].next, kids, Some(0), None);
    assert c == b[0 := c[0]];
    forall x: Id ensures Nodes(one)[x] == (if x == 0 then 1 else 0) + Nodes(kids)[x] {
      CountParts(one, x);
    }
  }

  // ---------- The parser ----------

  class Parser {
    const y: Id
    var nodes: seq<MenuNode>
    var entries: seq<Entry>
    var titles: seq<string>

    ghost var links: Links
    ghost var attrs: Attrs
    ghost var repr: set<object>

    ghost predicate Valid()
      reads this, repr
    {
      && |nodes| == |entries| == |titles| == |links| == |attrs|
      && (forall x: Id :: x < |nodes| ==> nodes[x] in repr)
      && (forall x: Id :: x < |nodes| ==> Holds(nodes, x, links[x], attrs[x]))
    }

    // The top node is a menu that everything is in.
    constructor (y: Id)
      ensures Valid() && fresh(repr) && this.y == y && |nodes| == 1
      ensures T() == Tables([TopHead(y).entry], [TopHead(y).title], [TopHead(y).attr], [Link(None, None, None)])
    {
      var top := new MenuNode(0, TopHead(y).attr);
      this.y, nodes, entries, titles := y, [top], [TopHead(y).entry], [TopHead(y).title];
      links, attrs, repr := [Link(None, None, None)], [TopHead(y).attr], {top};
    }

    ghost function T(): Tables
      reads this
    {
      Tables(entries, titles, attrs, links)
    }

    method SetNext(node: MenuNode, to: MenuNode?)
      requires Valid() && Among(nodes, node) && Among(nodes, to)
      modifies node`next, `links
      ensures Valid() && links == old(links)[node.id := old(links)[node.id].(next := IdOf(to))]
    {
      node.next := to;
      links := links[node.id := links[node.id].(next := IdOf(to))];
      forall x: Id | x < |nodes| ensures Holds(nodes, x, links[x], attrs[x]) {
        assert old(Holds(nodes, x, links[x], attrs[x]));
      }
    }

    method SetList(node: MenuNode, to: MenuNode?)
      requires Valid() && Among(nodes, node) && Among(nodes, to)
      modifies node`list, `links
      ensures Valid() && links == old(links)[node.id := old(links)[node.id].(list := IdOf(to))]
    {
      node.list := to;
      links := links[node.id := links[node.id].(list := IdOf(to))];
      forall x: Id | x < |nodes| ensures Holds(nodes, x, links[x], attrs[x]) {
        assert old(Holds(nodes, x, links[x], attrs[x]));
      }
    }

    method AddNode(head: Head, parent: MenuNode) returns (node: MenuNode)
      requires Valid() && Among(nodes, parent)
      modifies this
      ensures Valid() && fresh(node) && node.id == |old(nodes)| && nodes == old(nodes) + [node]
      ensures repr == old(repr) + {node}
      ensures T() == Added(old(T()), head, parent.id)
    {
      node := new MenuNode(|nodes|, head.attr);
      node.parent := parent;
      nodes, entries, repr := nodes + [node], entries + [head.entry], repr + {node};
      titles := titles + [head.title];
      links, attrs := links + [Link(None, None, Some(parent.id))], attrs + [head.attr];
      forall x: Id | x < |nodes| ensures Holds(nodes, x, links[x], attrs[x]) {
        assert x < |old(nodes)| ==> old(Holds(nodes, x, links[x], attrs[x]));
      }
    }

    // A menu node, with the block that its line begins still behind it.
    method AddEntry(lines: seq<Line>, parent: MenuNode)
        returns (ok: bool, node: MenuNode, rest: seq<Line>, ghost kids: Outline, ghost last: Id)
      requires Valid() && Among(nodes, parent) && lines != [] && !lines[0].EndLine? && !lines[0].SourceLine?
      modifies this, repr
      ensures Valid() && old(nodes) <= nodes && fresh(repr - old(repr)) && node.id == |old(nodes)|
      ensures ReadItem(lines, y) == if ok then Block(Item(HeadOf(lines[0], y).value, kids, Empty), rest) else Failed
      ensures ok ==> Among(nodes, node) && last < |links| && links[last].next == None
      ensures ok ==> Put(Added(old(T()), HeadOf(lines[0], y).value, parent.id), T(), kids, node.id, node.id, last)
      decreases Weight(lines), 0
    {
      node := AddNode(HeadOf(lines[0], y).value, parent);
      ok, rest, kids, last := true, lines[1..], Empty, node.id;
      if Opens(lines[0]).None? {
        NothingPut(T(), node.id, node.id);
        return;
      }
      var bottom: MenuNode;
      ok, bottom, rest, kids := ParseBlock(lines[1..], Opens(lines[0]), node, node);
      last := bottom.id;
    }

    // The same, with the block tilted up and the node put behind `prev`.
    method ParseEntry(lines: seq<Line>, parent: MenuNode, prev: MenuNode)
        returns (ok: bool, node: MenuNode, rest: seq<Line>, ghost read: Outline)
      requires Valid() && Among(nodes, parent) && Among(nodes, prev)
      requires lines != [] && !lines[0].EndLine? && !lines[0].SourceLine?
      modifies this, repr
      ensures Valid() && old(nodes) <= nodes && fresh(repr - old(repr))
      ensures ReadItem(lines, y) == if ok then Block(read, rest) else Failed
      ensures ok ==> Among(nodes, node) && Put(old(T()), T(), read, prev.id, parent.id, node.id)
      decreases Weight(lines), 1
    {
      ghost var head, kids, last := HeadOf(lines[0], y).value, Empty, prev.id;
      ok, node, rest, kids, last := AddEntry(lines, parent);
      read := Item(head, kids, Empty);
      if ok {
        ghost var c := T();
        assert Holds(nodes, node.id, links[node.id], attrs[node.id]);
        SetList(node, node.next);
        SetNext(prev, node);
        PutTilted(old(T()), Added(old(T()), head, parent.id), c, T(), head, kids, prev.id, parent.id, node.id, last);
      }
    }

    // A single line, with the block that it begins or the file that it names.
    method ParseItem(lines: seq<Line>, parent: MenuNode, prev: MenuNode)
        returns (ok: bool, last: MenuNode, rest: seq<Line>, ghost read: Outline)
      requires Valid() && Among(nodes, parent) && Among(nodes, prev) && lines != [] && !lines[0].EndLine?
      modifies this, repr
      ensures Valid() && old(nodes) <= nodes && fresh(repr - old(repr))
      ensures ReadItem(lines, y) == if ok then Block(read, rest) else Failed
      ensures ok ==> Among(nodes, last) && Put(old(T()), T(), read, prev.id, parent.id, last.id)
      decreases Weight(lines), 2
    {
      if lines[0].SourceLine? {
        ok, last, rest, read := ParseBlock(lines[0].file, None, parent, prev);
        rest := lines[1..];
      } else {
        ok, last, rest, read := ParseEntry(lines, parent, prev);
      }
    }

    // One more item of a block.
    method ParseNext(lines: seq<Line>, parent: MenuNode, prev: MenuNode, ghost first: MenuNode, ghost start: Tables,
                     ghost done: Outline)
        returns (ok: bool, last: MenuNode, rest: seq<Line>, ghost read: Outline)
      requires Valid() && Among(nodes, parent) && Among(nodes, prev) && lines != [] && !lines[0].EndLine?
      requires Put(start, T(), done, first.id, parent.id, prev.id)
      modifies this, repr
      ensures Valid() && old(nodes) <= nodes && fresh(repr - old(repr))
      ensures ok ==> Among(nodes, last) && Put(start, T(), read, first.id, parent.id, last.id)
      ensures ok ==> Weight(rest) < Weight(lines)
      ensures forall end :: Before(done, ReadBlock(lines, end, y))
                         == if ok then Before(read, ReadBlock(rest, end, y)) else Failed
      decreases Weight(lines), 3
    {
      ghost var b := T();
      ok, last, rest, read := ParseItem(lines, parent, prev);
      if ok {
        PutTwice(start, b, T(), done, read, first.id, parent.id, prev.id, last.id);
        forall end: Option<Kind> {
          BeforeBefore(done, read, ReadBlock(rest, end, y));
        }
        read := Join(done, read);
      }
    }

    // _parse_block()
    method ParseBlock(lines: seq<Line>, end: Option<Kind>, parent: MenuNode, prev: MenuNode)
        returns (ok: bool, last: MenuNode, rest: seq<Line>, ghost read: Outline)
      requires Valid() && Among(nodes, parent) && Among(nodes, prev)
      modifies this, repr
      ensures Valid() && old(nodes) <= nodes && fresh(repr - old(repr))
      ensures ReadBlock(lines, end, y) == if ok then Block(read, rest) else Failed
      ensures ok ==> Among(nodes, last) && Put(old(T()), T(), read, prev.id, parent.id, last.id)
      ensures ok ==> links[last.id].next == None
      decreases Weight(lines), 4
    {
      ghost var start := T();
      ok, last, rest, read := true, prev, lines, Empty;
      NothingPut(start, prev.id, parent.id);
      while ok && rest != [] && !rest[0].EndLine?
        invariant Valid() && old(nodes) <= nodes && fresh(repr - old(repr))
        invariant ok ==> Weight(rest) <= Weight(lines)
        invariant ok ==> Among(nodes, last) && Put(start, T(), read, prev.id, parent.id, last.id)
        invariant ReadBlock(lines, end, y) == if ok then Before(read, ReadBlock(rest, end, y)) else Failed
        decreases if ok then 1 + Weight(rest) else 0
      {
        ok, last, rest, read := ParseNext(rest, parent, last, prev, start, read);
      }
      if ok {
        ok, rest := EndBlock(rest, end, last, start, read, prev.id, parent.id);
      }
    }

    // The end of a file, or the line that ends a block.
    method EndBlock(lines: seq<Line>, end: Option<Kind>, last: MenuNode, ghost start: Tables, ghost read: Outline,
                    ghost prev: Id, ghost parent: Id)
        returns (ok: bool, rest: seq<Line>)
      requires Valid() && Among(nodes, last) && (lines == [] || lines[0].EndLine?)
      requires Put(start, T(), read, prev, parent, last.id)
      modifies this, repr
      ensures Valid() && nodes == old(nodes) && repr == old(repr)
      ensures Before(read, ReadBlock(lines, end, y)) == if ok then Block(read, rest) else Failed
      ensures ok ==> Put(start, T(), read, prev, parent, last.id) && links[last.id].next == None
    {
      ok := if lines == [] then end.None? else end == Some(lines[0].kind);
      rest := if lines == [] then [] else lines[1..];
      if ok {
        ghost var b := T();
        SetNext(last, null);
        PutEnds(start, b, T(), read, prev, parent, last.id);
        JoinEmpty(read);
      }
    }

    // Everything is read into the list behind the top node, and then tilted up.
    method ParseFiles(lines: seq<Line>) returns (ok: bool, ghost read: Outline)
      requires Valid() && |nodes| == 1 && links == [Link(None, None, None)]
      modifies this, repr
      ensures Valid() && old(nodes) <= nodes && fresh(repr - old(repr))
      ensures ReadBlock(lines, None, y) == if ok then Block(read, []) else Failed
      ensures ok ==> entries == old(entries) + EntriesOf(Heads(read)) && titles == old(titles) + TitlesOf(Heads(read))
      ensures ok ==> attrs == old(attrs) + AttrsOf(Heads(read))
      ensures ok ==>
        var f := Cons(0, Numbered(read, 1), Nil); NoRepeats(f) && Linked(links, Some(0), f, None, None)
    {
      var top := nodes[0];
      assert Holds(nodes, 0, links[0], attrs[0]);
      var last: MenuNode;
      var rest: seq<Line>;
      ok, last, rest, read := ParseBlock(lines, None, top, top);
      if ok {
        ghost var b := links;
        assert Holds(nodes, 0, links[0], attrs[0]);
        SetList(top, top.next);
        SetNext(top, null);
        TopTilted(old(links), b, links, Numbered(read, 1), last.id);
      }
    }
  }

  // The properties that symbols have before any menu node has been looked at.
  function NoProps(n: Id, symbols: nat): seq<Props> {
    seq(symbols, _ => Props(Ref(n), Ref(n), Ref(n), [], []))
  }

  function MenusOf(n: Id, m: Id, y: Id, o: Outline): Menus {
    Menus(n, m, y, [TopHead(y).entry] + EntriesOf(Heads(o)))
  }

  function StateOf(n: Id, y: Id, symbols: nat, o: Outline): State {
    State([TopHead(y).attr] + AttrsOf(Heads(o)), NoProps(n, symbols))
  }

  // From Kconfig files to a tree of linked menu nodes.
  method ReadTree(lines: seq<Line>, n: Id, m: Id, y: Id, symbols: nat)
      returns (tree: Tree?, top: MenuNode?, titles: seq<string>, ghost read: Outline)
    ensures tree == null <==> ReadBlock(lines, None, y).Failed?
    ensures tree != null ==> ReadBlock(lines, None, y) == Block(read, [])
    ensures tree != null ==> top != null && fresh(tree) && fresh(tree.nodes) && tree.Coupled() && tree.Own(top)
    ensures tree != null ==> top.id == 0 && tree.t == MenusOf(n, m, y, read) && tree.S() == StateOf(n, y, symbols, read)
    ensures tree != null ==> titles == [TopHead(y).title] + TitlesOf(Heads(read))
    ensures tree != null ==>
      var f := Cons(0, Numbered(read, 1), Nil); NoRepeats(f) && Linked(tree.links, Some(0), f, None, None)
  {
    var parser := new Parser(y);
    var ok;
    ok, read := parser.ParseFiles(lines);
    if ok {
      assert Holds(parser.nodes, 0, parser.links[0], parser.attrs[0]);
      top, titles := parser.nodes[0], parser.titles;
      tree := new Tree(Menus(n, m, y, parser.entries), parser.nodes, NoProps(n, symbols), parser.links, parser.attrs);
    } else {
      tree, top, titles := null, null, [];
    }
  }
}
