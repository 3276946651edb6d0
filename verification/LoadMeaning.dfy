/** What a line of a .config file does to the user values, whatever the line is, and which values assignments
    accept. */
module LoadMeaning {
  import opened Wrappers
  import opened Model
  import opened Numbers
  import opened Values
  import opened CacheInvariant
  import opened Assignments
  import opened ConfigLines
  import opened ConfigFile

  // ---------- Values ----------

  // The letter for a value, and that it is a value of the type.
  ghost predicate Letter(it: Model.Item, c: char, t: Tri) {
    || (c == 'y' && t == 2 && it.Logical())
    || (c == 'm' && t == 1 && it.origType == TRISTATE)
    || (c == 'n' && t == 0 && it.Logical())
  }

  // A number in the base of the type, which for hexadecimal ones is not negative.
  ghost predicate NumberFor(it: Model.Item, s: string) {
    || (it.origType == INT && exists n :: ParseInt(s, 10) == Some(n))
    || (it.origType == HEX && exists n :: ParseInt(s, 16) == Some(n) && n >= 0)
  }

  lemma NumberFits(it: Model.Item, s: string)
    requires it.Numeric()
    ensures ValidUserValue(it, StrValue(s)) <==> it.Symbol? && NumberFor(it, s)
  {
    if ParseInt(s, it.Base()).Some? {
      assert ParseInt(s, it.Base()) == Some(ParseInt(s, it.Base()).value);
    }
  }

  // set_value() with text accepts the letters n, m and y for symbols and choices that can have them, ...
  lemma LetterAccepted(it: Model.Item, s: string, t: Tri)
    ensures Accepted(it, StrValue(s)) == Some(TriValue(t)) <==> |s| == 1 && Letter(it, s[0], t)
  {
    assert s == "y" <==> |s| == 1 && s[0] == 'y';
    assert s == "m" <==> |s| == 1 && s[0] == 'm';
    assert s == "n" <==> |s| == 1 && s[0] == 'n';
  }

  // ... any text for strings, and numbers in the base of the type; the other values are ignored.
  lemma TextAccepted(it: Model.Item, s: string, u: string)
    ensures Accepted(it, StrValue(s)) == Some(StrValue(u)) <==>
              u == s && it.Symbol? && (it.origType == STRING || NumberFor(it, s))
  {
    if it.Numeric() {
      NumberFits(it, s);
    }
  }

  // With 0, 1 or 2 it accepts the values of the type.
  lemma TriAccepted(it: Model.Item, t: Tri)
    ensures Accepted(it, TriValue(t))
         == if it.origType == TRISTATE || (it.origType == BOOL && t != 1) then Some(TriValue(t)) else None
  {
  }

  // ---------- Assignments ----------

  // The user values are the same but for those of `x`, which has the value `value`.
  ghost predicate Gets(before: Users, after: Users, x: Id, value: UserValue)
  {
    && |before| == |after| && x < |before|
    && after[x].value == Some(value) && after[x].selection == before[x].selection
  }

  ghost predicate OthersKept(before: Users, after: Users, xs: set<Id>) {
    |before| == |after| && forall z: Id :: z < |before| && z !in xs ==> after[z] == before[z]
  }

  lemma ValueSet(k: Config, st: seq<Setting>, x: Id, value: UserValue, stored: UserValue)
    requires |st| == |k.items| && x < |st| && k.Item(x).Symbol? && !k.Item(x).InChoice()
    requires Accepted(k.Item(x), value) == Some(stored)
    ensures Gets(UsersIn(st), UsersIn(SetTo(k, st, x, value)), x, stored)
    ensures OthersKept(UsersIn(st), UsersIn(SetTo(k, st, x, value)), {x})
  {
  }

  // ---------- Lines ----------

  ghost predicate Ready(k: Config, st: seq<Setting>) {
    WellFormed(k) && UniqueNames(k) && |st| == |k.items|
  }

  lemma AssignmentLoaded(k: Config, st: seq<Setting>, line: string, x: Id, value: string)
    requires Ready(k, st) && DefinedSymbol(k, x) && Assigns(StripRight(line), k.items[x].name, value)
    ensures LoadLine(k, st, line) == LoadAssignment(k, st, x, value)
  {
    SetMatchExact(StripRight(line), k.items[x].name, value);
    LookupFinds(k, x, |k.items|);
  }

  // Text and numbers: the symbol gets what is accepted, which is what a string literal at the start contains, and
  // the value itself for numbers.
  lemma TextLine(k: Config, st: seq<Setting>, line: string, x: Id, value: string)
    requires Ready(k, st) && DefinedSymbol(k, x) && Assigns(StripRight(line), k.items[x].name, value)
    requires !k.Item(x).Logical()
    ensures var us, us' := UsersIn(st), UsersIn(LoadLine(k, st, line));
      if k.Item(x).origType == STRING && ConfString(value).Some? then
        Gets(us, us', x, StrValue(Unescape(ConfString(value).value))) && OthersKept(us, us', {x})
      else if NumberFor(k.Item(x), value) then Gets(us, us', x, StrValue(value)) && OthersKept(us, us', {x})
      else us' == us
  {
    AssignmentLoaded(k, st, line, x, value);
    if k.Item(x).origType == STRING {
      if ConfString(value).Some? {
        var text := Unescape(ConfString(value).value);
        TextAccepted(k.Item(x), text, text);
      }
    } else {
      TextAccepted(k.Item(x), value, value);
    }
  }

  // A symbol outside choices that can be n, m or y gets the value that the text begins with.
  lemma LetterLine(k: Config, st: seq<Setting>, line: string, x: Id, value: string, t: Tri)
    requires Ready(k, st) && DefinedSymbol(k, x) && Assigns(StripRight(line), k.items[x].name, value)
    requires k.Item(x).choice.None? && value != "" && Letter(k.Item(x), value[0], t)
    ensures var us, us' := UsersIn(st), UsersIn(LoadLine(k, st, line));
      Gets(us, us', x, TriValue(t)) && OthersKept(us, us', {x})
  {
    AssignmentLoaded(k, st, line, x, value);
    LetterAccepted(k.Item(x), value[..1], t);
    ValueSet(k, st, x, StrValue(value[..1]), TriValue(t));
  }

  // If it begins with anything else, nothing happens.
  lemma NoLetterLine(k: Config, st: seq<Setting>, line: string, x: Id, value: string)
    requires Ready(k, st) && DefinedSymbol(k, x) && Assigns(StripRight(line), k.items[x].name, value)
    requires k.Item(x).Logical() && (value == "" || forall t: Tri :: !Letter(k.Item(x), value[0], t))
    ensures LoadLine(k, st, line) == st
  {
    AssignmentLoaded(k, st, line, x, value);
    if value != "" {
      assert !Letter(k.Item(x), value[0], 0) && !Letter(k.Item(x), value[0], 1) && !Letter(k.Item(x), value[0], 2);
    }
  }

  lemma MemberSet(k: Config, st: seq<Setting>, x: Id, c: Id, value: UserValue, t: Tri)
    requires WellFormed(k) && |st| == |k.items| && x < |st| && k.Item(x).Symbol? && k.Item(x).choice == Some(c)
    requires Accepted(k.Item(x), value) == Some(TriValue(t))
    ensures var us, us' := UsersIn(st), UsersIn(SetTo(k, st, x, value));
      && Gets(us, us', x, TriValue(t)) && c < |us'| && OthersKept(us, us', {x, c})
      && us'[c] == if t == 2 then us[c].(selection := Some(x)) else us[c]
  {
    assert ItemOk(k, x);
  }

  lemma ModeSet(k: Config, st: seq<Setting>, c: Id, text: string, t: Tri)
    requires |st| == |k.items| && c < |st| && k.Item(c).Choice? && |text| == 1
    requires forall u: Tri :: Letter(k.Item(c), text[0], u) ==> u == t
    ensures var us, us' := UsersIn(st), UsersIn(SetTo(k, st, c, StrValue(text)));
      && OthersKept(us, us', {c}) && us'[c].selection == us[c].selection
      && us'[c].value == if Letter(k.Item(c), text[0], t) then Some(TriValue(t)) else us[c].value
  {
    var stored := Accepted(k.Item(c), StrValue(text));
    LetterAccepted(k.Item(c), text, t);
    if stored.Some? {
      match stored.value
      case TriValue(u) => LetterAccepted(k.Item(c), text, u);
      case StrValue(u) => TextAccepted(k.Item(c), text, u);
    }
  }

  // A choice symbol that gets m or y also gives this value to its choice, as the mode, if the choice can have it, and
  // one that gets y becomes the selection.
  lemma MemberLine(k: Config, st: seq<Setting>, line: string, x: Id, c: Id, value: string, t: Tri)
    requires Ready(k, st) && DefinedSymbol(k, x) && Assigns(StripRight(line), k.items[x].name, value)
    requires k.Item(x).choice == Some(c) && value != "" && Letter(k.Item(x), value[0], t)
    ensures var us, us' := UsersIn(st), UsersIn(LoadLine(k, st, line));
      && Gets(us, us', x, TriValue(t)) && c < |us'| && OthersKept(us, us', {x, c})
      && us'[c].selection == (if t == 2 then Some(x) else us[c].selection)
      && us'[c].value == (if t != 0 && Letter(k.Item(c), value[0], t) then Some(TriValue(t)) else us[c].value)
  {
    assert ItemOk(k, x);
    AssignmentLoaded(k, st, line, x, value);
    var text := value[..1];
    LetterAccepted(k.Item(x), text, t);
    var moded := if t == 0 then st else SetTo(k, st, c, StrValue(text));
    if t != 0 {
      ModeSet(k, st, c, text, t);
    }
    MemberSet(k, moded, x, c, StrValue(text), t);
  }

  lemma CommentLoaded(k: Config, st: seq<Setting>, line: string, x: Id)
    requires Ready(k, st) && DefinedSymbol(k, x) && Unsets(StripRight(line), k.items[x].name)
    ensures LoadLine(k, st, line) == if k.Item(x).Logical() then SetTo(k, st, x, StrValue("n")) else st
  {
    var trimmed := StripRight(line);
    UnsetsMatches(trimmed, k.items[x].name);
    assert trimmed[0] == '#' && PREFIX[0] == 'C';
    LookupFinds(k, x, |k.items|);
  }

  lemma NSet(k: Config, st: seq<Setting>, x: Id)
    requires |st| == |k.items| && x < |st| && k.Item(x).Symbol? && k.Item(x).Logical()
    ensures var us, us' := UsersIn(st), UsersIn(SetTo(k, st, x, StrValue("n")));
      Gets(us, us', x, TriValue(0)) && OthersKept(us, us', {x})
  {
    LetterAccepted(k.Item(x), "n", 0);
  }

  // The comment that stands for n.
  lemma UnsetComment(k: Config, st: seq<Setting>, line: string, x: Id)
    requires Ready(k, st) && DefinedSymbol(k, x) && Unsets(StripRight(line), k.items[x].name)
    ensures var us, us' := UsersIn(st), UsersIn(LoadLine(k, st, line));
      if k.Item(x).Logical() then Gets(us, us', x, TriValue(0)) && OthersKept(us, us', {x}) else us' == us
  {
    CommentLoaded(k, st, line, x);
    if k.Item(x).Logical() {
      NSet(k, st, x);
    }
  }

  // All other lines, and those with other names.
  lemma OtherLine(k: Config, st: seq<Setting>, line: string)
    requires Ready(k, st)
    requires forall x: Id, value :: DefinedSymbol(k, x) ==> !Assigns(StripRight(line), k.items[x].name, value)
    requires forall x: Id :: DefinedSymbol(k, x) ==> !Unsets(StripRight(line), k.items[x].name)
    ensures LoadLine(k, st, line) == st
  {
    var trimmed := StripRight(line);
    if SetMatch(trimmed).Some? {
      MatchAssigns(trimmed);
      LookupIs(k, SetMatch(trimmed).value.name, |k.items|);
    } else if UnsetMatch(trimmed).Some? {
      MatchUnsets(trimmed);
      LookupIs(k, UnsetMatch(trimmed).value, |k.items|);
    }
  }

  lemma {:induction false} LookupIs(k: Config, name: string, n: nat)
    requires n <= |k.items|
    ensures var x := Lookup(k, name, n); x.Some? ==> DefinedSymbol(k, x.value) && k.items[x.value].name == name
    decreases n
  {
    if n > 0 {
      var prev: nat := n - 1;
      LookupIs(k, name, prev);
    }
  }

  // What a line consists of without the white space at its end.
  lemma {:induction false} StrippedIs(line: string, text: string)
    requires text <= line && (text == "" || !IsSpace(text[|text| - 1]))
    requires forall i :: |text| <= i < |line| ==> IsSpace(line[i])
    ensures StripRight(line) == text
    decreases |line|
  {
    if text != line {
      var shorter := line[..|line| - 1];
      assert IsSpace(line[|line| - 1]);
      StrippedIs(shorter, text);
    }
  }
}
