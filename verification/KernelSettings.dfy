/** How the kernel configuration script shows settings and titles. */
module KernelSettings {
  import opened Wrappers
  import opened Numbers

  datatype Class = TRISTATE | BOOL | STRING

  // A configuration setting to be shown.
  datatype Known = Known(value: string, forced: Option<string>, comment: Option<string>)

  function Only(s: string, c: char): string {
    if s == "" then "" else (if s[0] == c then [c] else "") + Only(s[1..], c)
  }

  function Join(s: string): string {
    if |s| <= 1 then s else [s[0], '/'] + Join(s[1..])
  }

  // How a setting is shown; None stands for a failed assertion or an exception.
  function Format(known: Known, klass: Class, inChoice: bool): Option<string> {
    var val := known.value;
    if val == "" then Some("")
    else if klass == STRING then Some("(" + val + ")")
    else if (val == "X") != inChoice then None
    else if val == "X" then Some("(X)")
    else if exists i :: 0 <= i < |val| && val[i] != 'M' && val[i] != '*' && val[i] != ' ' then None
    else if klass != TRISTATE && 'M' in val then None
    else
      var forced := known.forced.Some? && known.forced.value != "";
      var bracket := if klass == TRISTATE && known.forced != Some("*") then (if forced then "{}" else "<>")
                     else if forced then "--" else "[]";
      Some([bracket[0]] + Join(Only(val, ' ') + Only(val, '*') + Only(val, 'M')) + [bracket[1]])
  }

  // ---------- What is shown ----------

  predicate Letter(c: char) {
    c == ' ' || c == '*' || c == 'M'
  }

  // A setting that cannot be shown: X anywhere but in a choice, anything but X in a choice, other letters than
  // M, * and blanks, and M for anything but a tristate.
  ghost predicate Refused(known: Known, klass: Class, inChoice: bool) {
    known.value != "" && klass != STRING &&
    (|| (known.value == "X" && !inChoice) || (known.value != "X" && inChoice)
     || (known.value != "X" && exists i :: 0 <= i < |known.value| && !Letter(known.value[i]))
     || (klass != TRISTATE && 'M' in known.value))
  }

  // Letters in the order of their codes, with a slash between them, in brackets.
  ghost predicate Bracketed(text: string, open: char, letters: string, close: char) {
    && |text| == 2 * |letters| + 1 && text[0] == open && text[|text| - 1] == close
    && (forall i :: 0 <= i < |letters| ==> text[2 * i + 1] == letters[i])
    && (forall i :: 0 < i < |letters| ==> text[2 * i] == '/')
  }

  ghost predicate Sorted(s: string) {
    forall i, j :: 0 <= i < j < |s| ==> s[i] <= s[j]
  }

  // The brackets of a bool or tristate setting, which may be forced to a value.
  function Brackets(klass: Class, forced: Option<string>): (char, char) {
    match (klass, forced)
    case (TRISTATE, None) => ('<', '>')
    case (TRISTATE, Some(to)) => if to == "" then ('<', '>') else if to == "*" then ('-', '-') else ('{', '}')
    case (_, None) => ('[', ']')
    case (_, Some(to)) => if to == "" then ('[', ']') else ('-', '-')
  }

  // The text of a setting that can be shown.
  ghost predicate ShownAs(known: Known, klass: Class, text: string) {
    if known.value == "" then text == ""
    else if klass == STRING then text == "(" + known.value + ")"
    else if known.value == "X" then text == "(X)"
    else
      var (open, close) := Brackets(klass, known.forced);
      exists letters :: Bracketed(text, open, letters, close) && Sorted(letters)
                     && multiset(letters) == multiset(known.value)
  }

  lemma CountJoined(a: string, b: string, c: char)
    ensures multiset(a + b)[c] == multiset(a)[c] + multiset(b)[c]
  {
  }

  lemma {:induction false} OnlyThose(s: string, c: char, d: char)
    ensures multiset(Only(s, c))[d] == if d == c then multiset(s)[c] else 0
    ensures forall i :: 0 <= i < |Only(s, c)| ==> Only(s, c)[i] == c
    decreases |s|
  {
    if s != "" {
      var one, more := if s[0] == c then [c] else "", Only(s[1..], c);
      OnlyThose(s[1..], c, d);
      assert Only(s, c) == one + more;
      CountJoined(one, more, d);
      CountJoined([s[0]], s[1..], c);
      assert s == [s[0]] + s[1..];
    }
  }

  // The letters of a setting in order.
  function Ordered(s: string): string {
    Only(s, ' ') + Only(s, '*') + Only(s, 'M')
  }

  lemma OrderedSorted(s: string)
    ensures Sorted(Ordered(s))
  {
    OnlyThose(s, ' ', ' ');
    OnlyThose(s, '*', '*');
    OnlyThose(s, 'M', 'M');
    var a, b := |Only(s, ' ')|, |Only(s, ' ') + Only(s, '*')|;
    forall i | 0 <= i < |Ordered(s)| ensures Ordered(s)[i] == if i < a then ' ' else if i < b then '*' else 'M' {}
  }

  lemma OrderedLetters(s: string)
    requires forall i :: 0 <= i < |s| ==> Letter(s[i])
    ensures multiset(Ordered(s)) == multiset(s)
  {
    forall c: char ensures multiset(Ordered(s))[c] == multiset(s)[c] {
      OrderedCount(s, c);
      if !Letter(c) {
        assert c !in s;
      }
    }
  }

  lemma OrderedCount(s: string, c: char)
    ensures multiset(Ordered(s))[c] == if Letter(c) then multiset(s)[c] else 0
  {
    OnlyThose(s, ' ', c);
    OnlyThose(s, '*', c);
    OnlyThose(s, 'M', c);
    var a, b, d := Only(s, ' '), Only(s, '*'), Only(s, 'M');
    assert multiset(a + b + d) == multiset(a) + multiset(b) + multiset(d);
  }

  lemma {:induction false} Joined(s: string)
    requires s != ""
    ensures |Join(s)| == 2 * |s| - 1
    ensures forall i :: 0 <= i < |s| ==> Join(s)[2 * i] == s[i]
    ensures forall i :: 0 < i < |s| ==> Join(s)[2 * i - 1] == '/'
    decreases |s|
  {
    if |s| > 1 {
      var rest := s[1..];
      Joined(rest);
      forall i | 0 < i < |s| ensures Join(s)[2 * i] == s[i] && Join(s)[2 * i - 1] == '/' {
        var prev := i - 1;
        assert Join(s)[2 * i] == Join(rest)[2 * prev];
        assert i > 1 ==> Join(s)[2 * i - 1] == Join(rest)[2 * prev - 1];
      }
    }
  }

  lemma BracketsAround(open: char, letters: string, close: char)
    requires letters != ""
    ensures Bracketed([open] + Join(letters) + [close], open, letters, close)
  {
    Joined(letters);
    var text := [open] + Join(letters) + [close];
    assert forall i :: 0 <= i < |letters| ==> text[2 * i + 1] == Join(letters)[2 * i];
    assert forall i :: 0 < i < |letters| ==> text[2 * i] == Join(letters)[2 * i - 1];
  }

  lemma LettersShown(known: Known, klass: Class)
    requires known.value != "" && klass != STRING && known.value != "X"
    requires forall i :: 0 <= i < |known.value| ==> Letter(known.value[i])
    ensures var (open, close) := Brackets(klass, known.forced);
            ShownAs(known, klass, [open] + Join(Ordered(known.value)) + [close])
  {
    var letters := Ordered(known.value);
    OrderedLetters(known.value);
    OrderedSorted(known.value);
    assert |multiset(letters)| == |multiset(known.value)|;
    var (open, close) := Brackets(klass, known.forced);
    BracketsAround(open, letters, close);
  }

  // A setting is shown if and only if it can be.
  lemma FormatExact(known: Known, klass: Class, inChoice: bool)
    ensures Format(known, klass, inChoice).None? <==> Refused(known, klass, inChoice)
    ensures Format(known, klass, inChoice).Some? ==> ShownAs(known, klass, Format(known, klass, inChoice).value)
  {
    var val := known.value;
    assert (exists i :: 0 <= i < |val| && val[i] != 'M' && val[i] != '*' && val[i] != ' ')
      <==> exists i :: 0 <= i < |val| && !Letter(val[i]);
    if val != "" && klass != STRING && val != "X" && Format(known, klass, inChoice).Some? {
      LettersShown(known, klass);
    }
  }

  // ---------- Titles ----------

  function StripQuotes(s: string): string {
    if s != "" && s[0] == '"' then StripQuotes(s[1..]) else s
  }

  function UpToQuote(s: string): Option<string> {
    if s == "" then None
    else if s[0] == '"' then Some("")
    else
      var rest := UpToQuote(s[1..]);
      if rest.None? then None else Some([s[0]] + rest.value)
  }

  // Without a closing quote the last character is lost.
  function CleanTitle(title: string): string {
    if title == "" then ""
    else
      var t := StripQuotes(Strip(title));
      var quoted := UpToQuote(t);
      if quoted.Some? then quoted.value else if t == "" then "" else t[..|t| - 1]
  }

  lemma {:induction false} QuoteFound(s: string, rest: string)
    requires '"' !in s
    ensures UpToQuote(s + "\"" + rest) == Some(s)
    decreases |s|
  {
    if s == "" {
      assert (s + "\"" + rest)[0] == '"';
    } else {
      QuoteFound(s[1..], rest);
      assert s[0] in s && (s + "\"" + rest)[0] == s[0] && s == [s[0]] + s[1..];
      assert (s + "\"" + rest)[1..] == s[1..] + "\"" + rest;
    }
  }

  // A title in quotes, which may be followed by a condition, is what is between the quotes.
  lemma TitleInQuotes(s: string, rest: string)
    requires s != "" && '"' !in s && (rest == "" || !IsSpace(rest[|rest| - 1]))
    ensures CleanTitle("\"" + s + "\"" + rest) == s
  {
    var title := "\"" + s + "\"" + rest;
    assert !IsSpace('"') && !IsSpace(title[|title| - 1]);
    assert Strip(title) == title;
    assert title[1..] == s + "\"" + rest;
    assert StripQuotes(title[1..]) == title[1..];
    QuoteFound(s, rest);
  }
}
