/** Writing and loading .config files, as functions of what symbols mean and of user values. */
module ConfigFile {
  import opened Wrappers
  import opened Model
  import opened Numbers
  import opened Values
  import opened Support
  import opened Transfer
  import opened Reference
  import opened CacheInvariant
  import opened Assignments
  import opened ConfigLines

  predicate DefinedSymbol(k: Config, x: Id) {
    x < |k.items| && k.items[x].Symbol? && k.items[x].defined
  }

  // unique_defined_syms
  ghost predicate AllDefined(k: Config, syms: seq<Id>) {
    && (forall i :: 0 <= i < |syms| ==> DefinedSymbol(k, syms[i]))
    && (forall i, j :: 0 <= i < j < |syms| ==> syms[i] != syms[j])
    && (forall x: Id :: DefinedSymbol(k, x) ==> x in syms)
  }

  // ---------- Writing ----------

  // config_string, without the newline.
  function ConfigString(k: Config, v: Valuation, x: Id): Option<string> {
    var it, val := k.Item(x), ValOf(v, x);
    if !it.Symbol? || !val.write then None
    else if it.Logical() then Some(if val.str != "n" then SetLine(it.name, val.str) else UnsetLine(it.name))
    else if it.Numeric() then Some(SetLine(it.name, val.str))
    else Some(SetLine(it.name, "\"" + Escape(val.str) + "\""))
  }

  // What the walk over the menu tree comes by: menu nodes of symbols, menus and comments, and the ends of
  // menus.  Titles are written if `shown` is not n.
  datatype Step = AtSymbol(sym: Id) | AtHeading(title: string, shown: Expr) | LeavingMenu(title: string, shown: Expr)

  function HeadingLines(title: string): seq<string> {
    ["", "#", "# " + title, "#"]
  }

  // _config_contents(), without the header.
  function ConfigBody(k: Config, v: Valuation, steps: seq<Step>, visited: set<Id>, afterEnd: bool): seq<string>
    decreases |steps|
  {
    if steps == [] then []
    else
      match steps[0]
      case AtSymbol(x) =>
        var line := ConfigString(k, v, x);
        if x in visited then ConfigBody(k, v, steps[1..], visited, afterEnd)
        else if line.None? then ConfigBody(k, v, steps[1..], visited + {x}, afterEnd)
        else (if afterEnd then ["", line.value] else [line.value]) + ConfigBody(k, v, steps[1..], visited + {x}, false)
      case AtHeading(title, shown) =>
        if ExprValue(k, v, shown) != 0 then HeadingLines(title) + ConfigBody(k, v, steps[1..], visited, false)
        else ConfigBody(k, v, steps[1..], visited, afterEnd)
      case LeavingMenu(title, shown) =>
        if ExprValue(k, v, shown) != 0 then ["# end of " + title] + ConfigBody(k, v, steps[1..], visited, true)
        else ConfigBody(k, v, steps[1..], visited, afterEnd)
  }

  // ---------- Loading ----------

  // The symbol of a name.  Names of undefined symbols are treated like unknown names.
  function Lookup(k: Config, name: string, n: nat): Option<Id>
    requires n <= |k.items|
  {
    if n == 0 then None
    else if DefinedSymbol(k, n - 1) && k.items[n - 1].name == name then Some(n - 1)
    else Lookup(k, name, n - 1)
  }

  // set_value() on a symbol or choice; an invalid value is ignored.
  ghost function SetTo(k: Config, st: seq<Setting>, x: Id, value: UserValue): (r: seq<Setting>)
    requires x < |st| == |k.items|
    ensures |r| == |st|
  {
    var stored := Accepted(k.Item(x), value);
    if stored.None? then st
    else if k.Item(x).Symbol? then AfterSet(k, st, x, stored.value)
    else AfterChange(st, x, st[x].user.(value := stored), true)
  }

  // The first character is what counts for bool and tristate symbols.
  predicate ValidStart(it: Model.Item, value: string) {
    value != "" && (value[0] == 'y' || value[0] == 'n' || (value[0] == 'm' && it.origType == TRISTATE))
  }

  // An assignment in a .config file.  A choice gets its mode from the values of its symbols.
  ghost function LoadAssignment(k: Config, st: seq<Setting>, x: Id, value: string): (r: seq<Setting>)
    requires x < |st| == |k.items|
    ensures |r| == |st|
  {
    var it := k.Item(x);
    if it.Logical() then
      if !ValidStart(it, value) then st
      else
        var moded := if it.InChoice() && value[0] != 'n' && it.choice.value < |st|
                     then SetTo(k, st, it.choice.value, StrValue(value[..1])) else st;
        SetTo(k, moded, x, StrValue(value[..1]))
    else if it.origType == STRING then
      var contents := ConfString(value);
      if contents.None? then st else SetTo(k, st, x, StrValue(Unescape(contents.value)))
    else
      SetTo(k, st, x, StrValue(value))
  }

  ghost function LoadLine(k: Config, st: seq<Setting>, line: string): (r: seq<Setting>)
    requires |st| == |k.items|
    ensures |r| == |st|
  {
    var trimmed := StripRight(line);
    var set_, unset := SetMatch(trimmed), UnsetMatch(trimmed);
    if set_.Some? then
      var x := Lookup(k, set_.value.name, |k.items|);
      if x.None? || x.value >= |st| then st else LoadAssignment(k, st, x.value, set_.value.value)
    else if unset.Some? then
      var x := Lookup(k, unset.value, |k.items|);
      if x.None? || x.value >= |st| || !k.Item(x.value).Logical() then st else SetTo(k, st, x.value, StrValue("n"))
    else
      st
  }

  ghost function LoadLines(k: Config, st: seq<Setting>, lines: seq<string>): (r: seq<Setting>)
    requires |st| == |k.items|
    ensures |r| == |st|
    decreases |lines|
  {
    if lines == [] then st else LoadLines(k, LoadLine(k, st, lines[0]), lines[1..])
  }

  // What replacing the configuration does before and after.
  ghost function NothingSet(k: Config, st: seq<Setting>): (r: seq<Setting>)
    ensures |r| == |st|
  {
    seq(|st|, x requires 0 <= x < |st| => if Variable(k.Item(x)) then st[x].(wasSet := false) else st[x])
  }

  ghost function UnsetOthers(k: Config, st: seq<Setting>): (r: seq<Setting>)
    ensures |r| == |st|
  {
    seq(|st|, x requires 0 <= x < |st| =>
      if !Variable(k.Item(x)) || st[x].wasSet then st[x]
      else if k.Item(x).Symbol? then st[x].(user := st[x].user.(value := None))
      else st[x].(user := NO_USER))
  }

  // _load_config() with `replace`; without, it is just LoadLines().
  ghost function Loaded(k: Config, st: seq<Setting>, lines: seq<string>): (r: seq<Setting>)
    requires |st| == |k.items|
    ensures |r| == |st|
  {
    UnsetOthers(k, LoadLines(k, NothingSet(k, st), lines))
  }

  // ---------- Reading back what was written ----------

  ghost predicate UniqueNames(k: Config) {
    && (forall x: Id, y: Id ::
          DefinedSymbol(k, x) && DefinedSymbol(k, y) && k.items[x].name == k.items[y].name ==> x == y)
    && (forall x: Id :: DefinedSymbol(k, x) ==> GoodName(k.items[x].name))
  }

  lemma {:induction false} LookupFinds(k: Config, x: Id, n: nat)
    requires UniqueNames(k) && DefinedSymbol(k, x) && x < n <= |k.items|
    ensures Lookup(k, k.items[x].name, n) == Some(x)
    decreases n
  {
    var prev: nat := n - 1;
    if x < prev {
      LookupFinds(k, x, prev);
    }
  }

  // A value that survives being written and read: no line breaks in strings, and no trailing space in
  // numbers, where the loader strips it.
  predicate Writable(it: Model.Item, text: string) {
    OneLine(text) && (it.Numeric() ==> Trimmed(text))
  }

  // The effect of the line that is written for a symbol.
  ghost function Reassigned(k: Config, st: seq<Setting>, v: Valuation, x: Id): seq<Setting>
    requires x < |st| == |k.items|
  {
    var it := k.Item(x);
    if it.Logical() then
      var value := ValOf(v, x).str;
      var moded := if it.InChoice() && value != "n" && it.choice.value < |st|
                   then SetTo(k, st, it.choice.value, StrValue(value)) else st;
      SetTo(k, moded, x, StrValue(value))
    else
      SetTo(k, st, x, StrValue(ValOf(v, x).str))
  }

  lemma SetLineLoads(k: Config, st: seq<Setting>, x: Id, value: string)
    requires UniqueNames(k) && DefinedSymbol(k, x) && |st| == |k.items| && OneLine(value) && Trimmed(value)
    ensures LoadLine(k, st, SetLine(k.items[x].name, value)) == LoadAssignment(k, st, x, value)
  {
    LookupFinds(k, x, |k.items|);
    SetLineTrimmed(k.items[x].name, value);
    SetLineMatches(k.items[x].name, value);
  }

  lemma UnsetLineLoads(k: Config, st: seq<Setting>, x: Id)
    requires UniqueNames(k) && DefinedSymbol(k, x) && |st| == |k.items| && k.items[x].Logical()
    ensures LoadLine(k, st, UnsetLine(k.items[x].name)) == SetTo(k, st, x, StrValue("n"))
  {
    LookupFinds(k, x, |k.items|);
    UnsetLineTrimmed(k.items[x].name);
    UnsetLineMatches(k.items[x].name);
  }

  lemma TriLoads(k: Config, st: seq<Setting>, x: Id, t: Tri)
    requires x < |st| == |k.items| && k.Item(x).Logical() && t != 0 && (k.Item(x).origType == BOOL ==> t != 1)
    ensures LoadAssignment(k, st, x, TriToStr(t))
         == SetTo(k, if k.Item(x).InChoice() && k.Item(x).choice.value < |st|
                     then SetTo(k, st, k.Item(x).choice.value, StrValue(TriToStr(t))) else st,
                  x, StrValue(TriToStr(t)))
  {
    var value := TriToStr(t);
    assert value[..1] == value && value[0] != 'n';
  }

  lemma StringLoads(k: Config, st: seq<Setting>, x: Id, text: string)
    requires x < |st| == |k.items| && k.Item(x).origType == STRING && OneLine(text)
    ensures LoadAssignment(k, st, x, "\"" + Escape(text) + "\"") == SetTo(k, st, x, StrValue(text))
  {
    QuotedRoundTrip(text);
  }

  lemma WrittenLineLoads(k: Config, st: seq<Setting>, v: Valuation, x: Id)
    requires UniqueNames(k) && DefinedSymbol(k, x) && |st| == |k.items|
    requires ConfigString(k, v, x).Some? && Writable(k.Item(x), ValOf(v, x).str)
    requires k.Item(x).origType != UNKNOWN
    requires k.Item(x).Logical() ==> ValOf(v, x).str == TriToStr(ValOf(v, x).tri)
                                     && (k.Item(x).origType == BOOL ==> ValOf(v, x).tri != 1)
    ensures LoadLine(k, st, ConfigString(k, v, x).value) == Reassigned(k, st, v, x)
  {
    var it, text := k.Item(x), ValOf(v, x).str;
    if it.Logical() {
      if text == "n" {
        UnsetLineLoads(k, st, x);
      } else {
        SetLineLoads(k, st, x, text);
        TriLoads(k, st, x, ValOf(v, x).tri);
      }
    } else if it.Numeric() {
      SetLineLoads(k, st, x, text);
    } else {
      EscapeOneLine(text);
      SetLineLoads(k, st, x, "\"" + Escape(text) + "\"");
      StringLoads(k, st, x, text);
    }
  }

  lemma {:induction false} EscapeOneLine(s: string)
    requires OneLine(s)
    ensures OneLine(Escape(s))
    decreases |s|
  {
    if s != "" {
      EscapeOneLine(s[1..]);
    }
  }

  lemma InertLine(k: Config, st: seq<Setting>, line: string)
    requires |st| == |k.items| && Inert(line)
    ensures LoadLine(k, st, line) == st
  {
  }

  lemma {:induction false} LoadConcat(k: Config, st: seq<Setting>, a: seq<string>, b: seq<string>)
    requires |st| == |k.items|
    ensures LoadLines(k, st, a + b) == LoadLines(k, LoadLines(k, st, a), b)
    decreases |a|
  {
    if a == [] {
      assert a + b == b;
    } else {
      assert (a + b)[0] == a[0] && (a + b)[1..] == a[1..] + b;
      LoadConcat(k, LoadLine(k, st, a[0]), a[1..], b);
    }
  }

  lemma {:induction false} InertLines(k: Config, st: seq<Setting>, lines: seq<string>)
    requires |st| == |k.items| && forall i :: 0 <= i < |lines| ==> Inert(lines[i])
    ensures LoadLines(k, st, lines) == st
    decreases |lines|
  {
    if lines != [] {
      InertLine(k, st, lines[0]);
      InertLines(k, st, lines[1..]);
    }
  }
}
