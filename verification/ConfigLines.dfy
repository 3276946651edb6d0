/** Lines of .config files: string literals, assignments, and comments that stand for n. */
module ConfigLines {
  import opened Wrappers
  import opened Numbers

  const PREFIX := "CONFIG_"

  const UNSET_PREFIX := "# CONFIG_"

  const NOT_SET := " is not set"

  // escape()
  function Escape(s: string): string {
    if s == "" then ""
    else (if s[0] == '\\' then "\\\\" else if s[0] == '"' then "\\\"" else [s[0]]) + Escape(s[1..])
  }

  // unescape()
  function Unescape(s: string): string {
    if s == "" then ""
    else if s[0] == '\\' && |s| >= 2 && s[1] != '\n' then [s[1]] + Unescape(s[2..])
    else [s[0]] + Unescape(s[1..])
  }

  // What precedes the first double quote that is not escaped.
  function UpToQuote(s: string): Option<string> {
    if s == "" then None
    else if s[0] == '"' then Some("")
    else if s[0] == '\\' then
      if |s| < 2 || s[1] == '\n' then None
      else
        var rest := UpToQuote(s[2..]);
        if rest.None? then None else Some(s[..2] + rest.value)
    else
      var rest := UpToQuote(s[1..]);
      if rest.None? then None else Some([s[0]] + rest.value)
  }

  // _conf_string_match(): the contents of a string literal at the start of a value.
  function ConfString(s: string): Option<string> {
    if s != "" && s[0] == '"' then UpToQuote(s[1..]) else None
  }

  predicate OneLine(s: string) {
    forall i :: 0 <= i < |s| ==> s[i] != '\n' && s[i] != '\r'
  }

  lemma {:induction false} UnescapeEscape(s: string)
    requires OneLine(s)
    ensures Unescape(Escape(s)) == s
    decreases |s|
  {
    if s != "" {
      UnescapeEscape(s[1..]);
      var e := Escape(s);
      if s[0] == '\\' || s[0] == '"' {
        assert e[2..] == Escape(s[1..]);
      } else {
        assert e[1..] == Escape(s[1..]);
      }
    }
  }

  lemma {:induction false} EscapedUpToQuote(s: string, rest: string)
    requires OneLine(s)
    ensures UpToQuote(Escape(s) + ['"'] + rest) == Some(Escape(s))
    decreases |s|
  {
    var t := Escape(s) + ['"'] + rest;
    if s != "" {
      EscapedUpToQuote(s[1..], rest);
      var u := Escape(s[1..]) + ['"'] + rest;
      if s[0] == '\\' || s[0] == '"' {
        assert t[2..] == u && t[..2] == Escape(s)[..2];
        assert Escape(s) == Escape(s)[..2] + Escape(s[1..]);
      } else {
        assert t[1..] == u;
      }
    }
  }

  // A string that is escaped and quoted is read back as it was.
  lemma QuotedRoundTrip(s: string)
    requires OneLine(s)
    ensures ConfString("\"" + Escape(s) + "\"").Some?
    ensures Unescape(ConfString("\"" + Escape(s) + "\"").value) == s
  {
    var q := "\"" + Escape(s) + "\"";
    EscapedUpToQuote(s, "");
    assert q[1..] == Escape(s) + ['"'] + "";
    UnescapeEscape(s);
  }

  // ---------- Matching lines ----------

  // The text up to the first occurrence of a character.
  function UpTo(s: string, c: char): (r: string)
    ensures r <= s && c !in r
    ensures |r| < |s| ==> s[|r|] == c
  {
    if s == "" || s[0] == c then "" else [s[0]] + UpTo(s[1..], c)
  }

  lemma {:induction false} UpToFound(a: string, c: char, b: string)
    requires c !in a
    ensures UpTo(a + [c] + b, c) == a
    decreases |a|
  {
    if a != "" {
      UpToFound(a[1..], c, b);
      assert (a + [c] + b)[1..] == a[1..] + [c] + b;
    }
  }

  datatype Assignment = Assignment(name: string, value: string)

  // _set_match()
  function SetMatch(line: string): Option<Assignment> {
    if !(PREFIX <= line) then None
    else
      var rest := line[|PREFIX|..];
      var name := UpTo(rest, '=');
      if name == "" || |name| == |rest| then None else Some(Assignment(name, UpTo(rest[|name| + 1..], '\n')))
  }

  // _unset_match(), which does not look at what follows.
  function UnsetMatch(line: string): Option<string> {
    if !(UNSET_PREFIX <= line) then None
    else
      var rest := line[|UNSET_PREFIX|..];
      var name := UpTo(rest, ' ');
      if name == "" || !(NOT_SET <= rest[|name|..]) then None else Some(name)
  }

  predicate GoodName(name: string) {
    name != "" && forall i :: 0 <= i < |name| ==> name[i] != '=' && !IsSpace(name[i])
  }

  function SetLine(name: string, value: string): string {
    PREFIX + name + ['='] + value
  }

  function UnsetLine(name: string): string {
    UNSET_PREFIX + name + NOT_SET
  }

  lemma {:induction false} UpToAll(s: string, c: char)
    requires c !in s
    ensures UpTo(s, c) == s
    decreases |s|
  {
    if s != "" {
      UpToAll(s[1..], c);
    }
  }

  lemma SetLineMatches(name: string, value: string)
    requires GoodName(name) && OneLine(value)
    ensures SetMatch(SetLine(name, value)) == Some(Assignment(name, value))
  {
    var line := SetLine(name, value);
    assert line[|PREFIX|..] == name + ['='] + value && line[..|PREFIX|] == PREFIX;
    UpToFound(name, '=', value);
    assert (name + ['='] + value)[|name| + 1..] == value;
    UpToAll(value, '\n');
  }

  lemma UnsetLineMatches(name: string)
    requires GoodName(name)
    ensures SetMatch(UnsetLine(name)) == None && UnsetMatch(UnsetLine(name)) == Some(name)
  {
    var line := UnsetLine(name);
    var rest := line[|UNSET_PREFIX|..];
    assert line[..|UNSET_PREFIX|] == UNSET_PREFIX && line[0] == '#' && PREFIX[0] == 'C';
    assert rest == name + [' '] + NOT_SET[1..];
    UpToFound(name, ' ', NOT_SET[1..]);
    assert rest[|name|..] == NOT_SET;
  }

  // A line that assigns nothing.
  predicate Inert(line: string) {
    SetMatch(StripRight(line)).None? && UnsetMatch(StripRight(line)).None?
  }

  // A line that is not changed by rstrip().
  predicate Trimmed(s: string) {
    s == "" || !IsSpace(s[|s| - 1])
  }

  lemma SetLineTrimmed(name: string, value: string)
    requires Trimmed(value)
    ensures StripRight(SetLine(name, value)) == SetLine(name, value)
  {
    StripRightKeeps(SetLine(name, value));
  }

  lemma UnsetLineTrimmed(name: string)
    ensures StripRight(UnsetLine(name)) == UnsetLine(name)
  {
    var line := UnsetLine(name);
    assert line[|line| - 1] == NOT_SET[|NOT_SET| - 1] == 't';
    StripRightKeeps(line);
  }

  // ---------- Which lines match ----------

  lemma {:induction false} UpToExact(s: string, c: char, r: string)
    requires r <= s && c !in r && (|r| == |s| || s[|r|] == c)
    ensures UpTo(s, c) == r
    decreases |s|
  {
    if s != "" && r != "" {
      UpToExact(s[1..], c, r[1..]);
    }
  }

  // Assignments are CONFIG_NAME=VALUE, where the value ends with the line.
  ghost predicate Assigns(line: string, name: string, value: string) {
    && name != "" && '=' !in name && '\n' !in value
    && var start := "CONFIG_" + name + "=";
       start + value <= line && (|start + value| == |line| || line[|start + value|] == '\n')
  }

  lemma NameBefore(line: string, name: string, value: string)
    requires Assigns(line, name, value)
    ensures PREFIX <= line
    ensures var rest := line[|PREFIX|..]; name + "=" <= rest && UpTo(rest, '=') == name
  {
    var start := "CONFIG_" + name + "=";
    var rest := line[|PREFIX|..];
    assert line[..|start|] == start;
    assert rest[..|name| + 1] == start[|PREFIX|..] == name + "=";
    UpToExact(rest, '=', name);
  }

  lemma AssignsMatches(line: string, name: string, value: string)
    requires Assigns(line, name, value)
    ensures SetMatch(line) == Some(Assignment(name, value))
  {
    NameBefore(line, name, value);
    var start := "CONFIG_" + name + "=";
    var tail := line[|PREFIX|..][|name| + 1..];
    assert tail == line[|start|..];
    assert (start + value)[|start|..] == value;
    UpToExact(tail, '\n', value);
  }

  lemma FourParts(a: string, b: string, c: string, d: string, more: string)
    ensures a + (b + c + (d + more)) == (a + b + c + d) + more
    ensures a + b + c + d <= (a + b + c + d) + more
  {
  }

  lemma Divided(s: string, i: nat)
    requires i <= |s|
    ensures s == s[..i] + s[i..]
  {
  }

  // A name and a value with what is between and behind them.
  lemma NameAndValue(rest: string, name: string, value: string)
    requires name <= rest && |name| < |rest| && rest[|name|] == '=' && value <= rest[|name| + 1..]
    ensures rest == name + "=" + (value + rest[|name| + 1..][|value|..])
  {
    Divided(rest[|name| + 1..], |value|);
  }

  lemma AssignsWith(line: string, name: string, value: string, more: string)
    requires name != "" && '=' !in name && '\n' !in value && (more == "" || more[0] == '\n')
    requires line == (PREFIX + name + "=" + value) + more
    ensures Assigns(line, name, value)
  {
    var whole := PREFIX + name + "=" + value;
    assert line[..|whole|] == whole && line[|whole|..] == more;
  }

  lemma ValueUpTo(tail: string, value: string)
    requires value == UpTo(tail, '\n')
    ensures value <= tail && '\n' !in value && (tail[|value|..] == "" || tail[|value|..][0] == '\n')
  {
  }

  lemma MatchAssigns(line: string)
    requires SetMatch(line).Some?
    ensures Assigns(line, SetMatch(line).value.name, SetMatch(line).value.value)
  {
    var rest := line[|PREFIX|..];
    var name := UpTo(rest, '=');
    var tail := rest[|name| + 1..];
    var value := UpTo(tail, '\n');
    Divided(line, |PREFIX|);
    NameAndValue(rest, name, value);
    FourParts(PREFIX, name, "=", value, tail[|value|..]);
    ValueUpTo(tail, value);
    AssignsWith(line, name, value, tail[|value|..]);
  }

  lemma SetMatchExact(line: string, name: string, value: string)
    ensures SetMatch(line) == Some(Assignment(name, value)) <==> Assigns(line, name, value)
  {
    if SetMatch(line).Some? {
      MatchAssigns(line);
    }
    if Assigns(line, name, value) {
      AssignsMatches(line, name, value);
    }
  }

  // Comments that stand for n begin with # CONFIG_NAME is not set.
  ghost predicate Unsets(line: string, name: string) {
    name != "" && ' ' !in name && "# CONFIG_" + name + " is not set" <= line
  }

  lemma UnsetsMatches(line: string, name: string)
    requires Unsets(line, name)
    ensures UnsetMatch(line) == Some(name)
  {
    var start := "# CONFIG_" + name + " is not set";
    var rest := line[|UNSET_PREFIX|..];
    assert line[..|start|] == start && line[..|UNSET_PREFIX|] == start[..|UNSET_PREFIX|] == UNSET_PREFIX;
    assert rest[..|start| - |UNSET_PREFIX|] == start[|UNSET_PREFIX|..] == name + NOT_SET;
    assert rest[..|name|] == name && rest[|name|..][..|NOT_SET|] == NOT_SET;
    UpToExact(rest, ' ', name);
  }

  lemma MatchUnsets(line: string)
    requires UnsetMatch(line).Some?
    ensures Unsets(line, UnsetMatch(line).value)
  {
    var rest := line[|UNSET_PREFIX|..];
    var name := UnsetMatch(line).value;
    var tail := rest[|name|..];
    Divided(line, |UNSET_PREFIX|);
    Divided(rest, |name|);
    Divided(tail, |NOT_SET|);
    FourParts(UNSET_PREFIX, name, "", NOT_SET, tail[|NOT_SET|..]);
    assert name + "" == name && UNSET_PREFIX + name + "" == UNSET_PREFIX + name;
  }

  lemma UnsetMatchExact(line: string, name: string)
    ensures UnsetMatch(line) == Some(name) <==> Unsets(line, name)
  {
    if Unsets(line, name) {
      UnsetsMatches(line, name);
    }
    if UnsetMatch(line).Some? {
      MatchUnsets(line);
    }
  }
}
