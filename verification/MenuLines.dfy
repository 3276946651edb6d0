/** Kconfig files as lines that have been classified, and the nesting that they stand for. */
module MenuLines {
  import opened Wrappers
  import opened Model
  import opened MenuForest

  datatype Kind = IF | MENU | CHOICE

  // A line that begins something comes with its properties; the titles of menus and comments are of use for
  // .config files.  A file that is sourced is given by its lines.
  datatype Line =
    | ConfigLine(sym: Id, attr: Attr)
    | CommentLine(title: string, attr: Attr)
    | IfLine(dep: Expr)
    | MenuLine(title: string, visibility: Expr, attr: Attr)
    | ChoiceLine(choice: Id, attr: Attr)
    | EndLine(kind: Kind)
    | SourceLine(file: seq<Line>)

  // What a menu node is created with.
  datatype Head = Head(entry: Entry, attr: Attr, title: string)

  // The menu node that a line begins, if any; other nodes than menus get `y` for their visibility.
  function HeadOf(line: Line, y: Id): Option<Head> {
    match line
    case ConfigLine(sym, attr) => Some(Head(Entry(OfSymbol(sym), Ref(y)), attr, ""))
    case CommentLine(title, attr) => Some(Head(Entry(OfComment, Ref(y)), attr, title))
    case IfLine(dep) => Some(Head(Entry(OfIf, Ref(y)), Attr(dep, None, [], [], [], []), ""))
    case MenuLine(title, visibility, attr) => Some(Head(Entry(OfMenu, visibility), attr, title))
    case ChoiceLine(choice, attr) => Some(Head(Entry(OfChoice(choice), Ref(y)), attr, ""))
    case EndLine(_) => None
    case SourceLine(_) => None
  }

  // What the block that a line begins has to end with.
  function Opens(line: Line): Option<Kind> {
    match line
    case IfLine(_) => Some(IF)
    case MenuLine(_, _, _) => Some(MENU)
    case ChoiceLine(_, _) => Some(CHOICE)
    case _ => None
  }

  function Weight(lines: seq<Line>): nat {
    if lines == [] then 0
    else 1 + (if lines[0].SourceLine? then Weight(lines[0].file) else 0) + Weight(lines[1..])
  }

  // What menu nodes are created with, each with what is below it and beside it.
  datatype Outline = Empty | Item(head: Head, kids: Outline, rest: Outline)

  function Join(a: Outline, b: Outline): Outline {
    match a
    case Empty => b
    case Item(head, kids, rest) => Item(head, kids, Join(rest, b))
  }

  // A block, and what is left of the file behind it.
  datatype Reading = Failed | Block(outline: Outline, rest: seq<Line>)

  function Before(a: Outline, r: Reading): Reading {
    if r.Failed? then Failed else Block(Join(a, r.outline), r.rest)
  }

  // What one line begins: a menu node with its block, or what is in another file.
  function ReadItem(lines: seq<Line>, y: Id): (r: Reading)
    requires lines != [] && !lines[0].EndLine?
    ensures r.Block? ==> Weight(r.rest) < Weight(lines)
    decreases Weight(lines), 0
  {
    var line, after := lines[0], lines[1..];
    if line.SourceLine? then
      var file := ReadBlock(line.file, None, y);
      if file.Failed? then Failed else Block(file.outline, after)
    else
      var head := HeadOf(line, y).value;
      if Opens(line).None? then Block(Item(head, Empty, Empty), after)
      else
        var block := ReadBlock(after, Opens(line), y);
        if block.Failed? then Failed else Block(Item(head, block.outline, Empty), block.rest)
  }

  // The contents of a file, or of a block that has to be ended by `end`.
  function ReadBlock(lines: seq<Line>, end: Option<Kind>, y: Id): (r: Reading)
    ensures r.Block? ==> Weight(r.rest) <= Weight(lines) && (end.Some? ==> Weight(r.rest) < Weight(lines))
    ensures r.Block? && end.None? ==> r.rest == []
    decreases Weight(lines), 1
  {
    if lines == [] then
      if end.None? then Block(Empty, []) else Failed
    else if lines[0].EndLine? then
      if end == Some(lines[0].kind) then Block(Empty, lines[1..]) else Failed
    else
      var item := ReadItem(lines, y);
      if item.Failed? then Failed else Before(item.outline, ReadBlock(item.rest, end, y))
  }

  lemma {:induction false} JoinAssociative(a: Outline, b: Outline, c: Outline)
    ensures Join(Join(a, b), c) == Join(a, Join(b, c))
  {
    if a.Item? {
      JoinAssociative(a.rest, b, c);
    }
  }

  lemma {:induction false} JoinEmpty(a: Outline)
    ensures Join(a, Empty) == a
  {
    if a.Item? {
      JoinEmpty(a.rest);
    }
  }

  lemma BeforeBefore(a: Outline, b: Outline, r: Reading)
    ensures Before(a, Before(b, r)) == Before(Join(a, b), r)
  {
    if r.Block? {
      JoinAssociative(a, b, r.outline);
    }
  }

  // ---------- Nodes are numbered as they come ----------

  function Heads(o: Outline): seq<Head> {
    match o
    case Empty => []
    case Item(head, kids, rest) => [head] + Heads(kids) + Heads(rest)
  }

  // The menu nodes, from number `n` on.
  function Numbered(o: Outline, n: nat): Forest {
    match o
    case Empty => Nil
    case Item(_, kids, rest) => Cons(n, Numbered(kids, n + 1), Numbered(rest, n + 1 + |Heads(kids)|))
  }

  lemma {:induction false} HeadsJoin(a: Outline, b: Outline)
    ensures Heads(Join(a, b)) == Heads(a) + Heads(b)
  {
    if a.Item? {
      HeadsJoin(a.rest, b);
    } else {
      assert [] + Heads(b) == Heads(b);
    }
  }

  lemma {:induction false} NumberedJoin(a: Outline, b: Outline, n: nat, next: nat)
    requires next == n + |Heads(a)|
    ensures Numbered(Join(a, b), n) == Append(Numbered(a, n), Numbered(b, next))
    decreases a
  {
    if a.Item? {
      var beside := n + 1 + |Heads(a.kids)|;
      NumberedJoin(a.rest, b, beside, next);
    }
  }

  lemma HeadsOfItem(o: Outline)
    requires o.Item?
    ensures |Heads(o)| == 1 + |Heads(o.kids)| + |Heads(o.rest)|
  {
  }

  lemma NumberedItem(o: Outline, n: nat, below: nat, beside: nat)
    requires o.Item? && below == n + 1 && beside == below + |Heads(o.kids)|
    ensures Numbered(o, n) == Cons(n, Numbered(o.kids, below), Numbered(o.rest, beside))
  {
  }

  // How often a node occurs: once, if its number is in the range.
  lemma {:induction false} NumberedCount(o: Outline, n: nat, end: nat, x: Id)
    requires end == n + |Heads(o)|
    ensures Nodes(Numbered(o, n))[x] == if n <= x < end then 1 else 0
    decreases o
  {
    if o.Item? {
      var f := Numbered(o, n);
      var below, beside := n + 1, n + 1 + |Heads(o.kids)|;
      NumberedCount(o.kids, below, beside, x);
      NumberedCount(o.rest, beside, end, x);
      HeadsOfItem(o);
      NumberedItem(o, n, below, beside);
      CountParts(f, x);
    }
  }

  function Consecutive(n: nat, count: nat): seq<Id> {
    seq(count, i => n + i)
  }

  lemma ConsecutiveJoin(n: nat, a: nat, next: nat, b: nat, count: nat)
    requires next == n + a && count == a + b
    ensures Consecutive(n, a) + Consecutive(next, b) == Consecutive(n, count)
  {
  }

  // In order, the nodes are numbered like the lines that begin them.
  lemma {:induction false} NumberedInOrder(o: Outline, n: nat)
    ensures Preorder(Numbered(o, n)) == Consecutive(n, |Heads(o)|)
    decreases o
  {
    if o.Item? {
      var below, beside := n + 1, n + 1 + |Heads(o.kids)|;
      NumberedInOrder(o.kids, below);
      NumberedInOrder(o.rest, beside);
      ConsecutiveJoin(n, 1, below, |Heads(o.kids)|, 1 + |Heads(o.kids)|);
      ConsecutiveJoin(n, 1 + |Heads(o.kids)|, beside, |Heads(o.rest)|, |Heads(o)|);
      assert Consecutive(n, 1) == [n];
    }
  }

  // ---------- What is read is what is properly nested ----------

  // The lines with the contents of sourced files in place.
  function Inlined(lines: seq<Line>): seq<Line>
    decreases Weight(lines)
  {
    if lines == [] then []
    else (if lines[0].SourceLine? then Inlined(lines[0].file) else [lines[0]]) + Inlined(lines[1..])
  }

  function LineOf(head: Head): Line {
    match head.entry.item
    case OfSymbol(sym) => ConfigLine(sym, head.attr)
    case OfComment => CommentLine(head.title, head.attr)
    case OfIf => IfLine(head.attr.dep)
    case OfMenu => MenuLine(head.title, head.entry.visibility, head.attr)
    case OfChoice(choice) => ChoiceLine(choice, head.attr)
  }

  function EndLines(end: Option<Kind>): seq<Line> {
    if end.None? then [] else [EndLine(end.value)]
  }

  // The line of a menu node, the lines of what is below it, and the line that ends it.
  function Entered(line: Line, inner: seq<Line>): seq<Line> {
    [line] + inner + EndLines(Opens(line))
  }

  function LinesOf(o: Outline): seq<Line> {
    match o
    case Empty => []
    case Item(head, kids, rest) => Entered(LineOf(head), LinesOf(kids)) + LinesOf(rest)
  }

  lemma {:induction false} LinesJoin(a: Outline, b: Outline)
    ensures LinesOf(Join(a, b)) == LinesOf(a) + LinesOf(b)
  {
    if a.Item? {
      LinesJoin(a.rest, b);
      Associate(Entered(LineOf(a.head), LinesOf(a.kids)), LinesOf(a.rest), LinesOf(b));
    } else {
      assert [] + LinesOf(b) == LinesOf(b);
    }
  }

  ghost predicate AsWritten(lines: seq<Line>, end: Option<Kind>, r: Reading) {
    r.Block? ==> Inlined(lines) == LinesOf(r.outline) + (EndLines(end) + Inlined(r.rest))
  }

  lemma WrittenBefore(lines: seq<Line>, end: Option<Kind>, item: Reading, r: Reading)
    requires item.Block? && AsWritten(lines, None, item) && AsWritten(item.rest, end, r)
    ensures AsWritten(lines, end, Before(item.outline, r))
  {
    if r.Block? {
      LinesJoin(item.outline, r.outline);
      assert [] + Inlined(item.rest) == Inlined(item.rest);
      Associate(LinesOf(item.outline), LinesOf(r.outline), EndLines(end) + Inlined(r.rest));
    }
  }

  lemma LineOfHead(line: Line, y: Id)
    requires HeadOf(line, y).Some?
    ensures LineOf(HeadOf(line, y).value) == line
  {
  }

  lemma EnteredWritten(lines: seq<Line>, head: Head, block: Reading)
    requires lines != [] && !lines[0].SourceLine? && lines[0] == LineOf(head)
    requires block.Block? && AsWritten(lines[1..], Opens(lines[0]), block)
    ensures AsWritten(lines, None, Block(Item(head, block.outline, Empty), block.rest))
  {
    var one, inner, end := [lines[0]], LinesOf(block.outline), EndLines(Opens(lines[0]));
    var more := Inlined(block.rest);
    assert one + (inner + (end + more)) == (one + inner + end) + [] + ([] + more);
  }

  lemma {:induction false} ItemAsWritten(lines: seq<Line>, y: Id)
    requires lines != [] && !lines[0].EndLine?
    ensures AsWritten(lines, None, ReadItem(lines, y))
    decreases Weight(lines), 0
  {
    var line, after := lines[0], lines[1..];
    if line.SourceLine? {
      BlockAsWritten(line.file, None, y);
      var file := ReadBlock(line.file, None, y);
      if file.Block? {
        assert LinesOf(file.outline) + ([] + []) == LinesOf(file.outline);
        assert [] + Inlined(after) == Inlined(after);
      }
    } else {
      var head := HeadOf(line, y).value;
      LineOfHead(line, y);
      if Opens(line).Some? {
        BlockAsWritten(after, Opens(line), y);
        if ReadBlock(after, Opens(line), y).Block? {
          EnteredWritten(lines, head, ReadBlock(after, Opens(line), y));
        }
      } else {
        assert [] + ([] + Inlined(after)) == Inlined(after);
        EnteredWritten(lines, head, Block(Empty, after));
      }
    }
  }

  // Whatever is read, from however many files, is a sequence of blocks that are ended as they have to be.
  lemma {:induction false} BlockAsWritten(lines: seq<Line>, end: Option<Kind>, y: Id)
    ensures AsWritten(lines, end, ReadBlock(lines, end, y))
    decreases Weight(lines), 1
  {
    if lines == [] {
    } else if lines[0].EndLine? {
      assert [] + ([lines[0]] + Inlined(lines[1..])) == [lines[0]] + Inlined(lines[1..]);
    } else {
      var item := ReadItem(lines, y);
      ItemAsWritten(lines, y);
      if item.Block? {
        BlockAsWritten(item.rest, end, y);
        WrittenBefore(lines, end, item, ReadBlock(item.rest, end, y));
      }
    }
  }

  // Only blocks have something in them, and everything has the properties that its line can give it.
  ghost predicate Nested(o: Outline, y: Id) {
    o.Item? ==>
      && HeadOf(LineOf(o.head), y) == Some(o.head) && (Opens(LineOf(o.head)).None? ==> o.kids == Empty)
      && Nested(o.kids, y) && Nested(o.rest, y)
  }

  lemma {:induction false} NestedJoin(a: Outline, b: Outline, y: Id)
    requires Nested(a, y) && Nested(b, y)
    ensures Nested(Join(a, b), y)
  {
    if a.Item? {
      NestedJoin(a.rest, b, y);
    }
  }

  lemma {:induction false} ItemNested(lines: seq<Line>, y: Id)
    requires lines != [] && !lines[0].EndLine?
    ensures var r := ReadItem(lines, y); r.Block? ==> Nested(r.outline, y)
    decreases Weight(lines), 0
  {
    if lines[0].SourceLine? {
      BlockNested(lines[0].file, None, y);
    } else {
      LineOfHead(lines[0], y);
      if Opens(lines[0]).Some? {
        BlockNested(lines[1..], Opens(lines[0]), y);
      }
    }
  }

  // Everything that is read is of this kind.
  lemma {:induction false} BlockNested(lines: seq<Line>, end: Option<Kind>, y: Id)
    ensures var r := ReadBlock(lines, end, y); r.Block? ==> Nested(r.outline, y)
    decreases Weight(lines), 1
  {
    if lines != [] && !lines[0].EndLine? {
      var item := ReadItem(lines, y);
      ItemNested(lines, y);
      if item.Block? {
        var r := ReadBlock(item.rest, end, y);
        BlockNested(item.rest, end, y);
        if r.Block? {
          NestedJoin(item.outline, r.outline, y);
        }
      }
    }
  }

  // And everything of this kind is read.
  lemma {:induction false} WrittenIsRead(o: Outline, tail: seq<Line>, end: Option<Kind>, y: Id)
    requires Nested(o, y)
    ensures ReadBlock(LinesOf(o) + tail, end, y) == Before(o, ReadBlock(tail, end, y))
    decreases o
  {
    if o == Empty {
      assert [] + tail == tail;
    } else {
      var line, after, one := LineOf(o.head), LinesOf(o.rest) + tail, Item(o.head, o.kids, Empty);
      var lines := LinesOf(o) + tail;
      WrittenIsRead(o.kids, EndLines(Opens(line)) + after, Opens(line), y);
      WrittenIsRead(o.rest, tail, end, y);
      EnteredThen(line, LinesOf(o.kids), LinesOf(o.rest), tail);
      ItemIsRead(o.head, o.kids, after, lines, y);
      ReadsOn(lines, end, y, one, after);
      BeforeBefore(one, o.rest, ReadBlock(tail, end, y));
      assert Join(one, o.rest) == o;
    }
  }

  lemma EnteredThen(line: Line, inner: seq<Line>, rest: seq<Line>, tail: seq<Line>)
    ensures (Entered(line, inner) + rest) + tail == [line] + (inner + (EndLines(Opens(line)) + (rest + tail)))
  {
  }

  lemma ReadsOn(lines: seq<Line>, end: Option<Kind>, y: Id, one: Outline, after: seq<Line>)
    requires lines != [] && !lines[0].EndLine? && ReadItem(lines, y) == Block(one, after)
    ensures ReadBlock(lines, end, y) == Before(one, ReadBlock(after, end, y))
  {
  }

  lemma ItemIsRead(head: Head, kids: Outline, after: seq<Line>, lines: seq<Line>, y: Id)
    requires HeadOf(LineOf(head), y) == Some(head) && (Opens(LineOf(head)).None? ==> kids == Empty)
    requires var line := LineOf(head); var more := LinesOf(kids) + (EndLines(Opens(line)) + after);
      lines == [line] + more
      && ReadBlock(more, Opens(line), y) == Before(kids, ReadBlock(EndLines(Opens(line)) + after, Opens(line), y))
    ensures lines != [] && !lines[0].EndLine? && ReadItem(lines, y) == Block(Item(head, kids, Empty), after)
  {
    var line := LineOf(head);
    var more := LinesOf(kids) + (EndLines(Opens(line)) + after);
    assert lines[1..] == more && lines[0] == line;
    if Opens(line).Some? {
      BlockEnds(line, after, y);
      JoinEmpty(kids);
    } else {
      assert [] + ([] + after) == after;
    }
  }

  lemma BlockEnds(line: Line, after: seq<Line>, y: Id)
    requires Opens(line).Some?
    ensures ReadBlock(EndLines(Opens(line)) + after, Opens(line), y) == Block(Empty, after)
  {
    var lines := EndLines(Opens(line)) + after;
    assert lines[1..] == after && lines[0] == EndLine(Opens(line).value);
  }
}
