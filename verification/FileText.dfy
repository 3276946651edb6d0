/** The text of the files that are written, as one reads it: which line stands for which value, which lines
    stand where in a .config file, and what the C header and auto.conf have for a symbol. */
module FileText {
  import opened Wrappers
  import opened Model
  import opened Values
  import opened Support
  import opened Transfer
  import opened Reference
  import opened ConfigLines
  import opened ConfigFile
  import opened ConfigIO
  import opened RoundTrip
  import opened MenuForest
  import opened MenuMeaning
  import opened ConfigWalk
  import opened SyncDeps
  import opened MinConfig

  // ---------- Lines ----------

  function EscapedChar(c: char): string {
    if c == '"' || c == '\\' then ['\\', c] else [c]
  }

  // In a string, just double quotes and backslashes get a backslash before them.
  lemma EscapedAt(a: string, c: char, b: string)
    ensures Escape(a + [c] + b) == Escape(a) + EscapedChar(c) + Escape(b) && Escape("") == ""
  {
    EscapedConcat(a + [c], b);
    EscapedConcat(a, [c]);
    EscapedOne(c);
  }

  lemma EscapedOne(c: char)
    ensures Escape([c]) == EscapedChar(c)
  {
    assert [c][1..] == "";
  }

  lemma EscapedTail(s: string, c: char, tail: string)
    requires s != "" && s[0] == c && s[1..] == tail
    ensures Escape(s) == EscapedChar(c) + Escape(tail)
  {
  }

  lemma {:induction false} EscapedConcat(a: string, b: string)
    ensures Escape(a + b) == Escape(a) + Escape(b)
    decreases |a|
  {
    if a == "" {
      assert a + b == b;
    } else {
      var c, tail := a[0], a[1..];
      EscapedConcat(tail, b);
      EscapedTail(a + b, c, tail + b);
      EscapedTail(a, c, tail);
      Associate(EscapedChar(c), Escape(tail), Escape(b));
    }
  }

  // The line of a symbol, as it is read.
  ghost predicate LineShows(it: Model.Item, val: Val, line: Option<string>)
    requires it.Symbol?
  {
    var start := "CONFIG_" + it.name + "=";
    && (line.Some? <==> val.write)
    && (val.write ==>
          if it.Logical() then
            && (val.tri == 2 ==> line.value == start + "y")
            && (val.tri == 1 ==> line.value == start + "m")
            && (val.tri == 0 ==> line.value == "# CONFIG_" + it.name + " is not set")
          else if it.origType == STRING then line.value == start + "\"" + Escape(val.str) + "\""
          else line.value == start + val.str)
  }

  lemma ConfigLine(k: Config, us: Users, x: Id)
    requires Good(k, us) && DefinedSymbol(k, x)
    ensures var v := Evaluate(k, us); LineShows(k.Item(x), ValOf(v, x), ConfigString(k, v, x))
  {
    var v := Evaluate(k, us);
    SolvedStr(k, us, x);
    SolvedWrite(k, us, x);
    LineOf(k, v, x);
  }

  // Of any values that fit the types.
  lemma LineOf(k: Config, v: Valuation, x: Id)
    requires k.Item(x).Symbol? && (k.Item(x).Logical() ==> ValOf(v, x).str == TriToStr(ValOf(v, x).tri))
    requires k.Item(x).origType == UNKNOWN ==> !ValOf(v, x).write
    ensures LineShows(k.Item(x), ValOf(v, x), ConfigString(k, v, x))
  {
    var start := "CONFIG_" + k.Item(x).name + "=";
    assert SetLine(k.Item(x).name, ValOf(v, x).str) == start + ValOf(v, x).str;
    var quoted := "\"" + Escape(ValOf(v, x).str) + "\"";
    assert start + quoted == start + "\"" + Escape(ValOf(v, x).str) + "\"";
  }

  // ---------- auto.conf and minimal files ----------

  // auto.conf has the same lines, for symbols that are not n.
  lemma AutoConfLine(k: Config, us: Users, x: Id)
    requires Good(k, us) && DefinedSymbol(k, x)
    ensures var v := Evaluate(k, us);
      if k.Item(x).Logical() && ValOf(v, x).tri == 0 then AutoLine(k, v, x) == None
      else LineShows(k.Item(x), ValOf(v, x), AutoLine(k, v, x))
  {
    ConfigLine(k, us, x);
  }

  // One symbol after the other.
  lemma AutoConfParts(k: Config, v: Valuation, before: seq<Id>, x: Id, after: seq<Id>)
    ensures AutoConf(k, v, before + [x] + after)
         == AutoConf(k, v, before) + (if AutoLine(k, v, x).Some? then [AutoLine(k, v, x).value] else [])
            + AutoConf(k, v, after)
    ensures AutoConf(k, v, []) == []
  {
    AutoConfConcat(k, v, before + [x], after);
    AutoConfConcat(k, v, before, [x]);
    assert [x][1..] == [];
  }

  lemma AutoConfHead(k: Config, v: Valuation, syms: seq<Id>, x: Id, rest: seq<Id>)
    requires syms != [] && syms[0] == x && syms[1..] == rest
    ensures AutoConf(k, v, syms)
         == (if AutoLine(k, v, x).Some? then [AutoLine(k, v, x).value] else []) + AutoConf(k, v, rest)
  {
  }

  lemma {:induction false} AutoConfConcat(k: Config, v: Valuation, a: seq<Id>, b: seq<Id>)
    ensures AutoConf(k, v, a + b) == AutoConf(k, v, a) + AutoConf(k, v, b)
    decreases |a|
  {
    if a == [] {
      assert a + b == b;
    } else {
      var x, rest := a[0], a[1..];
      AutoConfConcat(k, v, rest, b);
      assert (a + b)[1..] == rest + b;
      AutoConfHead(k, v, a + b, x, rest + b);
      AutoConfHead(k, v, a, x, rest);
      Associate(if AutoLine(k, v, x).Some? then [AutoLine(k, v, x).value] else [], AutoConf(k, v, rest),
                AutoConf(k, v, b));
    }
  }

  // A minimal file has a line for just some symbols, the same as a full one, one symbol after the other.
  lemma MinimalParts(k: Config, v: Valuation, before: seq<Id>, x: Id, after: seq<Id>)
    ensures MinBody(k, v, before + [x] + after)
         == MinBody(k, v, before) + (if MinLine(k, v, x).Some? then [ConfigString(k, v, x).value] else [])
            + MinBody(k, v, after)
    ensures MinBody(k, v, []) == []
  {
    MinimalConcat(k, v, before + [x], after);
    MinimalConcat(k, v, before, [x]);
    assert [x][1..] == [];
  }

  lemma MinimalHead(k: Config, v: Valuation, syms: seq<Id>, x: Id, rest: seq<Id>)
    requires syms != [] && syms[0] == x && syms[1..] == rest
    ensures MinBody(k, v, syms)
         == (if MinLine(k, v, x).Some? then [MinLine(k, v, x).value] else []) + MinBody(k, v, rest)
  {
  }

  lemma {:induction false} MinimalConcat(k: Config, v: Valuation, a: seq<Id>, b: seq<Id>)
    ensures MinBody(k, v, a + b) == MinBody(k, v, a) + MinBody(k, v, b)
    decreases |a|
  {
    if a == [] {
      assert a + b == b;
    } else {
      var x, rest := a[0], a[1..];
      MinimalConcat(k, v, rest, b);
      assert (a + b)[1..] == rest + b;
      MinimalHead(k, v, a + b, x, rest + b);
      MinimalHead(k, v, a, x, rest);
      Associate(if MinLine(k, v, x).Some? then [MinLine(k, v, x).value] else [], MinBody(k, v, rest), MinBody(k, v, b));
    }
  }

  // The names that auto.conf has values for but that are not those of symbols any more.
  lemma {:induction false} VanishedExact(k: Config, lines: seq<string>, name: string)
    ensures name in Vanished(k, lines) <==>
              && (exists i, value :: 0 <= i < |lines| && Assigns(lines[i], name, value))
              && forall x: Id :: x < |k.items| && k.items[x].Symbol? && !k.items[x].constant ==>
                   k.items[x].name != name
    decreases |lines|
  {
    if lines != [] {
      VanishedExact(k, lines[1..], name);
      if SetMatch(lines[0]).Some? {
        MatchAssigns(lines[0]);
      }
      forall value ensures Assigns(lines[0], name, value) ==> SetMatch(lines[0]) == Some(Assignment(name, value)) {
        SetMatchExact(lines[0], name, value);
      }
      assert forall i :: 0 < i < |lines| ==> lines[i] == lines[1..][i - 1];
      assert forall i :: 0 <= i < |lines[1..]| ==> lines[1..][i] == lines[i + 1];
    }
  }

  // ---------- The C header ----------

  // #define CONFIG_NAME 1 for y, #define CONFIG_NAME_MODULE 1 for m, and #define CONFIG_NAME VALUE for other
  // types, where hexadecimal numbers have their prefix.
  ghost predicate DefineShows(it: Model.Item, val: Val, line: string)
    requires it.Symbol?
  {
    var start := "#define CONFIG_" + it.name;
    if it.Logical() then line == start + if val.tri == 2 then " 1" else "_MODULE 1"
    else if it.origType == STRING then line == start + " \"" + Escape(val.str) + "\""
    else if it.origType == HEX && !HexPrefixed(val.str) then line == start + " 0x" + val.str
    else line == start + " " + val.str
  }

  ghost predicate HexPrefixed(s: string) {
    "0x" <= s || "0X" <= s
  }

  lemma DefineLine(k: Config, us: Users, x: Id)
    requires Good(k, us) && DefinedSymbol(k, x)
    ensures var it, val, line := k.Item(x), ValOf(Evaluate(k, us), x), Define(k, Evaluate(k, us), x);
      && (line.None? <==> !val.write || (it.Logical() && val.tri == 0))
      && (line.Some? ==> DefineShows(it, val, line.value))
  {
    SolvedStr(k, us, x);
    SolvedWrite(k, us, x);
    DefineOf(k, Evaluate(k, us), x);
  }

  lemma DefineOf(k: Config, v: Valuation, x: Id)
    requires k.Item(x).Symbol? && (k.Item(x).Logical() ==> ValOf(v, x).str == TriToStr(ValOf(v, x).tri))
    ensures Define(k, v, x).None? <==> !ValOf(v, x).write || (k.Item(x).Logical() && ValOf(v, x).tri == 0)
    ensures Define(k, v, x).Some? ==> DefineShows(k.Item(x), ValOf(v, x), Define(k, v, x).value)
  {
    var name, text := k.Item(x).name, ValOf(v, x).str;
    assert "#define " + PREFIX == "#define CONFIG_";
    SpacedBefore(name, "0x", text);
  }

  lemma SpacedBefore(name: string, a: string, b: string)
    ensures "#define CONFIG_" + name + " " + (a + b) == "#define CONFIG_" + name + (" " + a) + b
  {
  }

  // ---------- Where lines stand in a .config file ----------

  // A walk over a menu tree, with the values that are written.
  datatype Walk = Walk(k: Config, v: Valuation, t: Menus, attrs: Attrs, titles: seq<string>, visits: seq<Visit>)

  function TitleOf(w: Walk, x: Id): string {
    if x < |w.titles| then w.titles[x] else ""
  }

  // The symbol that is met, if it is one.
  function Meets(w: Walk, i: nat): Option<Id>
    requires i < |w.visits|
  {
    match (w.visits[i], w.t.Item(w.visits[i].node))
    case (At(_), OfSymbol(sym)) => Some(sym)
    case _ => None
  }

  ghost predicate FirstMet(w: Walk, i: nat)
    requires i < |w.visits|
  {
    forall j :: 0 <= j < i ==> Meets(w, j) != Meets(w, i)
  }

  // Menus and comments show if their dependencies are met, and menus if they are visible as well.
  ghost predicate Shows(w: Walk, x: Id) {
    && (w.t.Item(x).OfMenu? || w.t.Item(x).OfComment?)
    && ExprValue(w.k, w.v, AttrOf(w.attrs, x).dep) != 0
    && (w.t.Item(x).OfMenu? ==> ExprValue(w.k, w.v, w.t.Visibility(x)) != 0)
  }

  ghost predicate EndsMenu(w: Walk, i: nat)
    requires i < |w.visits|
  {
    w.visits[i].Leaving? && w.t.Item(w.visits[i].node).OfMenu? && Shows(w, w.visits[i].node)
  }

  // Whether the file has anything for a visit.
  ghost predicate HasText(w: Walk, i: nat)
    requires i < |w.visits|
  {
    if w.visits[i].Leaving? then EndsMenu(w, i)
    else if Meets(w, i).Some? then FirstMet(w, i) && ConfigString(w.k, w.v, Meets(w, i).value).Some?
    else Shows(w, w.visits[i].node)
  }

  // Whether the end of a menu is the last thing that the file has before a visit.
  ghost predicate MenuJustEnded(w: Walk, i: nat)
    requires i <= |w.visits|
  {
    exists j :: 0 <= j < i && EndsMenu(w, j) && NothingSince(w, j, i)
  }

  ghost predicate NothingSince(w: Walk, j: nat, i: nat)
    requires i <= |w.visits|
  {
    forall l :: j < l < i ==> !HasText(w, l)
  }

  // What the file has for a visit.
  ghost function Piece(w: Walk, i: nat): seq<string>
    requires i < |w.visits|
  {
    var title := TitleOf(w, w.visits[i].node);
    if !HasText(w, i) then []
    else if w.visits[i].Leaving? then ["# end of " + title]
    else if Meets(w, i).Some? then
      (if MenuJustEnded(w, i) then [""] else []) + [ConfigString(w.k, w.v, Meets(w, i).value).value]
    else ["", "#", "# " + title, "#"]
  }

  ghost function Pieces(w: Walk, i: nat, n: nat): seq<string>
    requires i <= n <= |w.visits|
    decreases n - i
  {
    if i == n then [] else Piece(w, i) + Pieces(w, i + 1, n)
  }

  ghost function Met(w: Walk, i: nat): set<Id>
    requires i <= |w.visits|
  {
    set j | 0 <= j < i && Meets(w, j).Some? :: Meets(w, j).value
  }

  lemma MetNext(w: Walk, i: nat, next: nat)
    requires i < |w.visits| && next == i + 1
    ensures Met(w, next) == if Meets(w, i).Some? then Met(w, i) + {Meets(w, i).value} else Met(w, i)
    ensures Meets(w, i).Some? ==> (FirstMet(w, i) <==> Meets(w, i).value !in Met(w, i))
  {
  }

  lemma EndsHere(w: Walk, i: nat, next: nat)
    requires i < |w.visits| && next == i + 1 && EndsMenu(w, i)
    ensures MenuJustEnded(w, next)
  {
    assert NothingSince(w, i, next);
  }

  lemma EndedEarlier(w: Walk, i: nat, next: nat)
    requires i < |w.visits| && next == i + 1 && !HasText(w, i) && MenuJustEnded(w, i)
    ensures MenuJustEnded(w, next)
  {
    var j :| 0 <= j < i && EndsMenu(w, j) && NothingSince(w, j, i);
    assert NothingSince(w, j, next);
  }

  lemma EndedByThen(w: Walk, i: nat, next: nat)
    requires i < |w.visits| && next == i + 1 && MenuJustEnded(w, next) && !EndsMenu(w, i)
    ensures !HasText(w, i) && MenuJustEnded(w, i)
  {
    var j :| 0 <= j < next && EndsMenu(w, j) && NothingSince(w, j, next);
    assert j < i && NothingSince(w, j, i);
  }

  lemma EndedNext(w: Walk, i: nat, next: nat)
    requires i < |w.visits| && next == i + 1
    ensures MenuJustEnded(w, next) == (EndsMenu(w, i) || (!HasText(w, i) && MenuJustEnded(w, i)))
  {
    if EndsMenu(w, i) {
      EndsHere(w, i, next);
    } else if MenuJustEnded(w, next) {
      EndedByThen(w, i, next);
    } else if !HasText(w, i) && MenuJustEnded(w, i) {
      EndedEarlier(w, i, next);
    }
  }

  ghost function StepsFrom(w: Walk, i: nat): seq<Step>
    requires i <= |w.visits|
  {
    StepsOf(w.t, w.attrs, w.titles, w.visits[i..])
  }

  lemma NextSteps(w: Walk, i: nat, next: nat)
    requires i < |w.visits| && next == i + 1
    ensures var x := w.visits[i].node;
      StepsFrom(w, i) == StepsAt(w.t, w.titles, w.visits[i], AttrOf(w.attrs, x).dep) + StepsFrom(w, next)
  {
    assert w.visits[i..][0] == w.visits[i] && w.visits[i..][1..] == w.visits[next..];
  }

  // The state after a visit for which there is no step, and after one for which there is.

  lemma NoStep(w: Walk, i: nat, next: nat)
    requires i < |w.visits| && next == i + 1
    requires StepsAt(w.t, w.titles, w.visits[i], AttrOf(w.attrs, w.visits[i].node).dep) == []
    ensures Piece(w, i) == [] && Met(w, next) == Met(w, i) && (MenuJustEnded(w, next) <==> MenuJustEnded(w, i))
  {
    MetNext(w, i, next);
    EndedNext(w, i, next);
  }

  lemma HeadingStep(w: Walk, i: nat, next: nat, step: Step, steps: seq<Step>)
    requires i < |w.visits| && next == i + 1 && steps != [] && steps[0] == step && !step.AtSymbol?
    requires [step] == StepsAt(w.t, w.titles, w.visits[i], AttrOf(w.attrs, w.visits[i].node).dep)
    ensures ConfigBody(w.k, w.v, steps, Met(w, i), MenuJustEnded(w, i))
         == Piece(w, i) + ConfigBody(w.k, w.v, steps[1..], Met(w, next), MenuJustEnded(w, next))
  {
    var x := w.visits[i].node;
    MetNext(w, i, next);
    EndedNext(w, i, next);
    AndValue(w.k, w.v, AttrOf(w.attrs, x).dep, w.t.Visibility(x));
    assert ExprValue(w.k, w.v, step.shown) != 0 <==> Shows(w, x);
    assert step.title == TitleOf(w, x);
  }

  // What is written for a symbol.
  function SymbolLines(line: Option<string>, met: bool, ended: bool): seq<string> {
    if met || line.None? then [] else (if ended then [""] else []) + [line.value]
  }

  lemma SymbolWritten(k: Config, v: Valuation, steps: seq<Step>, x: Id, met: set<Id>, ended: bool, line: Option<string>)
    requires steps != [] && steps[0] == AtSymbol(x) && line == ConfigString(k, v, x)
    ensures ConfigBody(k, v, steps, met, ended)
         == SymbolLines(line, x in met, ended)
            + ConfigBody(k, v, steps[1..], met + {x}, if x in met || line.None? then ended else false)
  {
    if x in met {
      assert met + {x} == met;
    }
  }

  lemma SymbolStep(w: Walk, i: nat, next: nat, steps: seq<Step>)
    requires i < |w.visits| && next == i + 1 && steps != [] && Meets(w, i).Some?
    requires steps[0] == AtSymbol(Meets(w, i).value)
    ensures ConfigBody(w.k, w.v, steps, Met(w, i), MenuJustEnded(w, i))
         == Piece(w, i) + ConfigBody(w.k, w.v, steps[1..], Met(w, next), MenuJustEnded(w, next))
  {
    var x := Meets(w, i).value;
    var line := ConfigString(w.k, w.v, x);
    MetNext(w, i, next);
    EndedNext(w, i, next);
    SymbolWritten(w.k, w.v, steps, x, Met(w, i), MenuJustEnded(w, i), line);
    assert Piece(w, i) == SymbolLines(line, x in Met(w, i), MenuJustEnded(w, i));
  }

  lemma NextPiece(w: Walk, i: nat, next: nat, steps: seq<Step>)
    requires i < |w.visits| && next == i + 1
    requires steps == StepsAt(w.t, w.titles, w.visits[i], AttrOf(w.attrs, w.visits[i].node).dep) + StepsFrom(w, next)
    ensures ConfigBody(w.k, w.v, steps, Met(w, i), MenuJustEnded(w, i))
         == Piece(w, i) + ConfigBody(w.k, w.v, StepsFrom(w, next), Met(w, next), MenuJustEnded(w, next))
  {
    var more := StepsAt(w.t, w.titles, w.visits[i], AttrOf(w.attrs, w.visits[i].node).dep);
    if more == [] {
      NoStep(w, i, next);
      assert steps == StepsFrom(w, next);
    } else {
      assert steps[0] == more[0] && steps[1..] == StepsFrom(w, next) && more == [more[0]];
      if Meets(w, i).Some? {
        SymbolStep(w, i, next, steps);
      } else {
        HeadingStep(w, i, next, more[0], steps);
      }
    }
  }

  lemma {:induction false} BodyPieces(w: Walk, i: nat)
    requires i <= |w.visits|
    ensures ConfigBody(w.k, w.v, StepsFrom(w, i), Met(w, i), MenuJustEnded(w, i)) == Pieces(w, i, |w.visits|)
    decreases |w.visits| - i
  {
    if i < |w.visits| {
      var next := i + 1;
      BodyPieces(w, next);
      NextSteps(w, i, next);
      NextPiece(w, i, next, StepsFrom(w, i));
    }
  }

  // The file is the header, and then what it has for each visit on its own account.
  lemma ContentsAre(w: Walk, header: seq<string>)
    ensures ConfigContents(w.k, w.v, header, StepsOf(w.t, w.attrs, w.titles, w.visits))
         == header + Pieces(w, 0, |w.visits|)
  {
    BodyPieces(w, 0);
    assert w.visits[0..] == w.visits && Met(w, 0) == {};
  }

  // ---------- Menus in the file ----------

  lemma {:induction false} PiecesSplit(w: Walk, i: nat, j: nat, n: nat)
    requires i <= j <= n <= |w.visits|
    ensures Pieces(w, i, n) == Pieces(w, i, j) + Pieces(w, j, n)
    decreases j - i
  {
    if i == j {
      assert [] + Pieces(w, j, n) == Pieces(w, j, n);
    } else {
      var next := i + 1;
      PiecesSplit(w, next, j, n);
      Associate(Piece(w, i), Pieces(w, next, j), Pieces(w, j, n));
    }
  }

  lemma PieceAmong(w: Walk, i: nat, l: nat, n: nat, line: string)
    requires i <= l < n <= |w.visits| && line in Piece(w, l)
    ensures line in Pieces(w, i, n)
  {
    PiecesSplit(w, i, l, n);
    InParts(Pieces(w, i, l), Piece(w, l), Pieces(w, l + 1, n), line);
  }

  lemma InParts<T>(a: seq<T>, b: seq<T>, c: seq<T>, x: T)
    requires x in b
    ensures x in a + (b + c)
  {
    assert x in b + c;
  }

  // A node with its children, somewhere in a forest.
  ghost predicate Part(f: Forest, x: Id, kids: Forest)
    decreases f
  {
    f.Cons? && ((f.node == x && f.kids == kids) || Part(f.kids, x, kids) || Part(f.rest, x, kids))
  }

  lemma Wrapped<T>(head: seq<T>, b: seq<T>, around: seq<T>, a: seq<T>, tail: seq<T>, rest: seq<T>, whole: seq<T>)
    requires whole == b + around + a
    ensures head + whole + tail + rest == (head + b) + around + (a + tail + rest)
  {
  }

  // The visits that a node takes.
  function Around(x: Id, kids: Forest): seq<Visit> {
    if kids == Nil then [At(x)] else [At(x)] + Tour(kids) + [Leaving(x)]
  }

  lemma TourParts(f: Forest)
    requires f.Cons?
    ensures Tour(f) == Around(f.node, f.kids) + Tour(f.rest)
  {
  }

  // The tour comes by a node before its children, and leaves it after them.
  lemma {:induction false} TourAround(f: Forest, x: Id, kids: Forest) returns (before: seq<Visit>, after: seq<Visit>)
    requires Part(f, x, kids)
    ensures Tour(f) == before + Around(x, kids) + after
    decreases f
  {
    TourParts(f);
    if f.node == x && f.kids == kids {
      before, after := [], Tour(f.rest);
      assert [] + Around(x, kids) == Around(x, kids);
    } else if Part(f.rest, x, kids) {
      var b, a := TourAround(f.rest, x, kids);
      before, after := Around(f.node, f.kids) + b, a;
      Behind(Around(f.node, f.kids), b, Around(x, kids), a);
    } else {
      var b, a := TourAround(f.kids, x, kids);
      before, after := [At(f.node)] + b, a + [Leaving(f.node)] + Tour(f.rest);
      Wrapped([At(f.node)], b, Around(x, kids), a, [Leaving(f.node)], Tour(f.rest), Tour(f.kids));
    }
  }

  lemma Behind<T>(head: seq<T>, b: seq<T>, around: seq<T>, a: seq<T>)
    ensures head + (b + around + a) == head + b + around + a
  {
  }

  // The nodes that visits come by, without those for leaving them.
  function Seen(visits: seq<Visit>): seq<Id>
    decreases |visits|
  {
    if visits == [] then []
    else (if visits[0].At? then [visits[0].node] else []) + Seen(visits[1..])
  }

  lemma {:induction false} SeenConcat(a: seq<Visit>, b: seq<Visit>)
    ensures Seen(a + b) == Seen(a) + Seen(b)
    decreases |a|
  {
    if a == [] {
      assert a + b == b;
    } else {
      SeenConcat(a[1..], b);
      assert (a + b)[1..] == a[1..] + b && (a + b)[0] == a[0];
    }
  }

  lemma SeenAround(x: Id, kids: Forest)
    ensures Seen(Around(x, kids)) == [x] + Seen(Tour(kids))
  {
    assert [At(x)][1..] == [] && [Leaving(x)][1..] == [];
    SeenConcat([At(x)] + Tour(kids), [Leaving(x)]);
    SeenConcat([At(x)], Tour(kids));
  }

  // The tour comes by the nodes in their order, and by each of them once.
  lemma {:induction false} TourInOrder(f: Forest)
    ensures Seen(Tour(f)) == Preorder(f)
    decreases f
  {
    if f.Cons? {
      TourInOrder(f.kids);
      TourInOrder(f.rest);
      TourParts(f);
      SeenConcat(Around(f.node, f.kids), Tour(f.rest));
      SeenAround(f.node, f.kids);
    }
  }

  ghost predicate HasChildren(f: Forest, x: Id)
    decreases f
  {
    f.Cons? && ((f.node == x && f.kids != Nil) || HasChildren(f.kids, x) || HasChildren(f.rest, x))
  }

  // And it leaves just nodes that have children.
  lemma {:induction false} LeavesParents(f: Forest, x: Id)
    ensures Leaving(x) in Tour(f) <==> HasChildren(f, x)
    decreases f
  {
    if f.Cons? {
      LeavesParents(f.kids, x);
      LeavesParents(f.rest, x);
    }
  }

  // Where the tour is inside a node: from `start` up to `last`.
  ghost predicate InsideFrom(w: Walk, x: Id, kids: Forest, start: nat, last: nat) {
    && 0 < start <= last < |w.visits| && w.visits[start..last] == Tour(kids)
    && w.visits[start - 1] == At(x) && w.visits[last] == Leaving(x)
  }

  lemma Amid<T>(before: seq<T>, first: T, inside: seq<T>, end: T, after: seq<T>)
    ensures var s, start := before + ([first] + inside + [end]) + after, |before| + 1;
      && start + |inside| < |s| && s[start - 1] == first && s[start + |inside|] == end
      && s[start..start + |inside|] == inside
  {
  }

  lemma FoundInside(w: Walk, f: Forest, x: Id, kids: Forest) returns (start: nat, last: nat)
    requires w.visits == Tour(f) && Part(f, x, kids) && kids != Nil
    ensures InsideFrom(w, x, kids, start, last)
  {
    var before, after := TourAround(f, x, kids);
    start := |before| + 1;
    last := start + |Tour(kids)|;
    Amid(before, At(x), Tour(kids), Leaving(x), after);
  }

  lemma AroundPieces(w: Walk, i: nat, start: nat, last: nat, end: nat)
    requires i + 1 == start <= last < |w.visits| && end == last + 1
    ensures Pieces(w, 0, |w.visits|)
         == Pieces(w, 0, i) + Piece(w, i) + Pieces(w, start, last) + Piece(w, last) + Pieces(w, end, |w.visits|)
  {
    var n := |w.visits|;
    PiecesSplit(w, 0, i, n);
    PiecesSplit(w, start, last, n);
    FiveJoined(Pieces(w, 0, i), Piece(w, i), Pieces(w, start, last), Piece(w, last), Pieces(w, end, n),
               Pieces(w, start, n), Pieces(w, last, n));
  }

  lemma FiveJoined<T>(a: seq<T>, b: seq<T>, c: seq<T>, d: seq<T>, e: seq<T>, x: seq<T>, y: seq<T>)
    requires x == c + y && y == d + e
    ensures a + (b + x) == a + b + c + d + e
  {
  }

  // What a menu has in the file, if it shows: its title, what there is inside it, and its end.
  lemma MenuSection(w: Walk, f: Forest, x: Id, kids: Forest)
      returns (before: seq<string>, after: seq<string>, start: nat, last: nat)
    requires w.visits == Tour(f) && Part(f, x, kids) && kids != Nil && w.t.Item(x).OfMenu? && Shows(w, x)
    ensures InsideFrom(w, x, kids, start, last)
    ensures Pieces(w, 0, |w.visits|)
         == before + ["", "#", "# " + TitleOf(w, x), "#"] + Pieces(w, start, last) + ["# end of " + TitleOf(w, x)]
            + after
  {
    start, last := FoundInside(w, f, x, kids);
    var i, end := start - 1, last + 1;
    AroundPieces(w, i, start, last, end);
    before, after := Pieces(w, 0, i), Pieces(w, end, |w.visits|);
  }

  // And inside it are the lines of the symbols that are met there first.
  lemma LineInside(w: Walk, x: Id, kids: Forest, start: nat, last: nat, i: nat, sym: Id)
    requires InsideFrom(w, x, kids, start, last) && start <= i < last
    requires Meets(w, i) == Some(sym) && FirstMet(w, i) && ConfigString(w.k, w.v, sym).Some?
    ensures ConfigString(w.k, w.v, sym).value in Pieces(w, start, last)
  {
    PieceAmong(w, start, i, last, ConfigString(w.k, w.v, sym).value);
  }
}
