/** What the expansion of a text gives, said on the structure of the text: characters, and macros with their
    arguments inside each other. */
module MacroText {
  import opened Wrappers
  import opened Macros

  datatype Text = End | Plain(c: char, rest: Text) | Macro(args: Args, rest: Text)

  datatype Args = Last(arg: Text) | More(arg: Text, args: Args)

  function Written(t: Text): string {
    match t
    case End => ""
    case Plain(c, rest) => [c] + Written(rest)
    case Macro(args, rest) => "$(" + WrittenArgs(args) + Written(rest)
  }

  function WrittenArgs(args: Args): string {
    match args
    case Last(arg) => Written(arg) + ")"
    case More(arg, more) => Written(arg) + "," + WrittenArgs(more)
  }

  // No plain character begins a macro, and inside a macro none ends an argument.
  predicate Proper(t: Text, inside: bool) {
    match t
    case End => true
    case Plain(c, rest) =>
      && !(c == '$' && rest.Plain? && rest.c == '(')
      && !(inside && (c == ')' || c == ','))
      && Proper(rest, inside)
    case Macro(args, rest) => ProperArgs(args) && Proper(rest, inside)
  }

  predicate ProperArgs(args: Args) {
    match args
    case Last(arg) => Proper(arg, true)
    case More(arg, more) => Proper(arg, true) && ProperArgs(more)
  }

  function Size(t: Text): nat {
    match t
    case End => 1
    case Plain(_, rest) => 1 + Size(rest)
    case Macro(args, rest) => 1 + SizeOf(args) + Size(rest)
  }

  function SizeOf(args: Args): nat {
    match args
    case Last(arg) => 1 + Size(arg)
    case More(arg, more) => 1 + Size(arg) + SizeOf(more)
  }

  // The texts of variables, as far as their structure is known.
  ghost predicate Known(x: Env, texts: map<string, Text>) {
    forall v :: v in texts ==> v in x.variables && Written(texts[v]) == x.variables[v] && Proper(texts[v], false)
  }

  function Joined(a: Option<string>, b: Option<string>): Option<string> {
    if a.None? || b.None? then None else Some(a.value + b.value)
  }

  // ---------- What a text stands for ----------

  // Characters stand for themselves and macros for what they are called with; `args` is what the text itself has
  // been called with.  None is an error.
  ghost function Meaning(x: Env, texts: map<string, Text>, n: Counts, t: Text, args: seq<string>): Option<string>
    requires ValidCounts(x, n) && Known(x, texts)
    decreases Left(x, n), Size(t), 1
  {
    match t
    case End => Some("")
    case Plain(c, rest) => Joined(Some([c]), Meaning(x, texts, n, rest, args))
    case Macro(call, rest) =>
      var vals := Meanings(x, texts, n, call, args);
      if vals.None? then None
      else Joined(CallMeaning(x, texts, n, vals.value, args), Meaning(x, texts, n, rest, args))
  }

  ghost function Meanings(x: Env, texts: map<string, Text>, n: Counts, call: Args, args: seq<string>)
    : (r: Option<seq<string>>)
    requires ValidCounts(x, n) && Known(x, texts)
    ensures r.Some? ==> r.value != []
    decreases Left(x, n), SizeOf(call), 1
  {
    match call
    case Last(arg) =>
      var val := Meaning(x, texts, n, arg, args);
      if val.None? then None else Some([val.value])
    case More(arg, more) =>
      var val, rest := Meaning(x, texts, n, arg, args), Meanings(x, texts, n, more, args);
      if val.None? || rest.None? then None else Some([val.value] + rest.value)
  }

  // The argument of that number, counted from the end if it is negative; or the text of the variable, called with
  // these values, unless it is stuck; or the result of the function; or the environment variable, if there is one.
  ghost function CallMeaning(x: Env, texts: map<string, Text>, n: Counts, vals: seq<string>, args: seq<string>)
    : Option<string>
    requires ValidCounts(x, n) && Known(x, texts) && vals != []
    decreases Left(x, n), 0, 0
  {
    var name, number, count := vals[0], x.toInt(vals[0]), |args|;
    if number.Some? && 0 <= number.value < count then Some(args[number.value])
    else if number.Some? && number.value < 0 <= count + number.value then Some(args[count + number.value])
    else if name in x.variables then
      if |vals| == 1 && n[name] > 0 then None
      else if |vals| > 1 && n[name] > 100 then None
      else
        OneMoreExpansion(x, n, name);
        var m := n[name := n[name] + 1];
        if name in texts then Meaning(x, texts, m, texts[name], vals)
        else ExpandFrom(x, m, x.variables[name], 0, vals)
    else if name in x.functions then
      var f, given := x.functions[name], |vals| - 1;
      if f.minArgs <= given && (f.maxArgs.Some? ==> given <= f.maxArgs.value) then f.run(vals) else None
    else if name in x.environment then Some(x.environment[name])
    else Some("")
  }

  // ---------- Texts piece by piece ----------

  lemma Associate(a: string, b: string, c: string)
    ensures (a + b) + c == a + (b + c)
  {
  }

  lemma FindsLater(s: string, i: nat)
    requires i < |s| && !MacroAt(s, i)
    ensures FindMacro(s, i) == FindMacro(s, i + 1)
  {
  }

  lemma PassesPlain(x: Env, n: Counts, s: string, i: nat, next: nat, args: seq<string>)
    requires ValidCounts(x, n) && i < |s| && next == i + 1 && !MacroAt(s, i)
    ensures ExpandFrom(x, n, s, i, args) == ExpandFrom(x, n, s, next, args)
  {
    FindsLater(s, i);
  }

  lemma PassesInside(x: Env, n: Counts, s: string, start: nat, argStart: nat, i: nat, next: nat, newArgs: seq<string>,
                     args: seq<string>)
    requires ValidCounts(x, n) && start + 2 <= argStart <= i < |s| && next == i + 1 && !SpecialAt(s, i)
    ensures ExpandArgs(x, n, s, start, argStart, i, newArgs, args)
         == ExpandArgs(x, n, s, start, argStart, next, newArgs, args)
  {
    assert FindSpecial(s, i) == FindSpecial(s, next);
  }

  // No macro begins at a plain character.
  lemma PlainHere(p: string, t: Text, inside: bool, tail: string)
    requires t.Plain? && Proper(t, inside) && (tail == "" || tail[0] != '(')
    ensures var s := p + (Written(t) + tail); |p| < |s| && s[|p|] == t.c && !MacroAt(s, |p|)
  {
    var s := p + (Written(t) + tail);
    assert s[|p|..] == Written(t) + tail == [t.c] + (Written(t.rest) + tail);
    if |p| + 1 < |s| {
      assert s[|p| + 1] == (Written(t.rest) + tail)[0];
    }
  }

  // A plain character has been passed.
  lemma PlainPassed(p: string, t: Text, tail: string)
    requires t.Plain?
    ensures p + (Written(t) + tail) == (p + [t.c]) + (Written(t.rest) + tail)
  {
    Associate([t.c], Written(t.rest), tail);
    Associate(p, [t.c], Written(t.rest) + tail);
  }

  lemma MacroHere(p: string, t: Text, tail: string)
    requires t.Macro?
    ensures p + (Written(t) + tail) == (p + "$(") + (WrittenArgs(t.args) + (Written(t.rest) + tail))
    ensures MacroAt(p + (Written(t) + tail), |p|)
  {
    var args, rest := WrittenArgs(t.args), Written(t.rest);
    Associate("$(", args, rest);
    Associate("$(", args + rest, tail);
    Associate(args, rest, tail);
    Associate(p, "$(", args + (rest + tail));
  }

  // ---------- Expansion gives what a text stands for ----------

  // The text is expanded in place, whatever is in front of it.
  lemma {:induction false} Expands(x: Env, texts: map<string, Text>, n: Counts, p: string, t: Text, args: seq<string>)
    requires ValidCounts(x, n) && Known(x, texts) && Proper(t, false)
    ensures ExpandFrom(x, n, p + Written(t), |p|, args) == Joined(Some(p), Meaning(x, texts, n, t, args))
    decreases Left(x, n), Size(t), 2
  {
    var s := p + Written(t);
    assert Written(t) + "" == Written(t);
    match t
    case End =>
      assert s == p && p + "" == p;
    case Plain(c, rest) =>
      var q := p + [c];
      PlainHere(p, t, false, "");
      PlainPassed(p, t, "");
      assert Written(rest) + "" == Written(rest);
      var next := |p| + 1;
      PassesPlain(x, n, s, |p|, next, args);
      Expands(x, texts, n, q, rest, args);
      JoinsOn(p, [c], Meaning(x, texts, n, rest, args));
    case Macro(call, rest) =>
      MacroHere(p, t, "");
      assert Written(rest) + "" == Written(rest);
      MacroExpands(x, texts, n, p, call, Written(rest), s, args);
      MacroMeans(x, texts, n, t, args);
      var val := WholeCall(x, texts, n, call, args);
      if val.Some? {
        Expands(x, texts, n, p + val.value, rest, args);
        JoinsOn(p, val.value, Meaning(x, texts, n, rest, args));
      }
  }

  lemma MacroMeans(x: Env, texts: map<string, Text>, n: Counts, t: Text, args: seq<string>)
    requires ValidCounts(x, n) && Known(x, texts) && t.Macro?
    ensures Meaning(x, texts, n, t, args)
         == Joined(WholeCall(x, texts, n, t.args, args), Meaning(x, texts, n, t.rest, args))
  {
  }

  lemma JoinsOn(p: string, c: string, rest: Option<string>)
    ensures Joined(Some(p + c), rest) == Joined(Some(p), Joined(Some(c), rest))
  {
    if rest.Some? {
      Associate(p, c, rest.value);
    }
  }

  // What a macro comes to when the arguments before `call` are `newArgs`.
  ghost function CallValue(x: Env, texts: map<string, Text>, n: Counts, call: Args, newArgs: seq<string>,
                           args: seq<string>): Option<string>
    requires ValidCounts(x, n) && Known(x, texts)
  {
    var vals := Meanings(x, texts, n, call, args);
    if vals.None? then None else CallMeaning(x, texts, n, newArgs + vals.value, args)
  }

  // Put between what precedes the macro and what follows it.
  ghost function PutBetween(head: string, val: Option<string>, w: string): Option<Expanded> {
    if val.None? then None else Some(Expanded((head + val.value) + w, |head + val.value|))
  }

  // The same when the first of `call` has been found to be `val`.
  ghost function RestValue(x: Env, texts: map<string, Text>, n: Counts, call: Args, val: string, newArgs: seq<string>,
                           args: seq<string>): Option<string>
    requires ValidCounts(x, n) && Known(x, texts)
  {
    if call.Last? then CallMeaning(x, texts, n, newArgs + [val], args)
    else
      var rest := Meanings(x, texts, n, call.args, args);
      if rest.None? then None else CallMeaning(x, texts, n, newArgs + ([val] + rest.value), args)
  }

  lemma FirstFound(x: Env, texts: map<string, Text>, n: Counts, call: Args, newArgs: seq<string>, args: seq<string>)
    requires ValidCounts(x, n) && Known(x, texts)
    ensures var val := Meaning(x, texts, n, call.arg, args);
            CallValue(x, texts, n, call, newArgs, args)
            == if val.None? then None else RestValue(x, texts, n, call, val.value, newArgs, args)
  {
  }

  // The value of a call from its first argument on.
  ghost function WholeCall(x: Env, texts: map<string, Text>, n: Counts, call: Args, args: seq<string>): Option<string>
    requires ValidCounts(x, n) && Known(x, texts)
  {
    var vals := Meanings(x, texts, n, call, args);
    if vals.None? then None else CallMeaning(x, texts, n, vals.value, args)
  }

  lemma NothingBefore(x: Env, texts: map<string, Text>, n: Counts, call: Args, args: seq<string>)
    requires ValidCounts(x, n) && Known(x, texts)
    ensures CallValue(x, texts, n, call, [], args) == WholeCall(x, texts, n, call, args)
  {
    var vals := Meanings(x, texts, n, call, args);
    assert vals.Some? ==> [] + vals.value == vals.value;
  }

  lemma HeadKept(s: string, p: string, rest: string)
    requires s == (p + "$(") + rest
    ensures s[..|p|] == p && |p + "$("| == |p| + 2
  {
  }

  // A macro with `w` behind it.
  lemma {:induction false} MacroExpands(x: Env, texts: map<string, Text>, n: Counts, p: string, call: Args, w: string,
                                        s: string, args: seq<string>)
    requires ValidCounts(x, n) && Known(x, texts) && ProperArgs(call)
    requires s == (p + "$(") + (WrittenArgs(call) + w) && MacroAt(s, |p|)
    ensures ExpandMacro(x, n, s, |p|, args) == PutBetween(p, WholeCall(x, texts, n, call, args), w)
    decreases Left(x, n), SizeOf(call), 4
  {
    ArgsExpand(x, texts, n, |p|, p + "$(", call, w, s, [], args);
    HeadKept(s, p, WrittenArgs(call) + w);
    NothingBefore(x, texts, n, call, args);
  }

  // The arguments from one on, when those before it have been expanded.
  lemma {:induction false} ArgsExpand(x: Env, texts: map<string, Text>, n: Counts, start: nat, q: string, call: Args,
                                      w: string, s: string, newArgs: seq<string>, args: seq<string>)
    requires ValidCounts(x, n) && Known(x, texts) && ProperArgs(call) && start + 2 <= |q|
    requires s == q + (WrittenArgs(call) + w)
    ensures ExpandArgs(x, n, s, start, |q|, |q|, newArgs, args)
         == PutBetween(s[..start], CallValue(x, texts, n, call, newArgs, args), w)
    decreases Left(x, n), SizeOf(call), 3
  {
    if call.Last? {
      LastExpands(x, texts, n, start, q, call, w, s, newArgs, args);
    } else {
      MoreExpand(x, texts, n, start, q, call, w, s, newArgs, args);
    }
  }

  lemma {:induction false} MoreExpand(x: Env, texts: map<string, Text>, n: Counts, start: nat, q: string, call: Args,
                                      w: string, s: string, newArgs: seq<string>, args: seq<string>)
    requires ValidCounts(x, n) && Known(x, texts) && ProperArgs(call) && start + 2 <= |q| && call.More?
    requires s == q + (WrittenArgs(call) + w)
    ensures ExpandArgs(x, n, s, start, |q|, |q|, newArgs, args)
         == PutBetween(s[..start], CallValue(x, texts, n, call, newArgs, args), w)
    decreases Left(x, n), SizeOf(call), 2
  {
    var behind := WrittenArgs(call.args) + w;
    var tail := "," + behind;
    FirstFound(x, texts, n, call, newArgs, args);
    FirstArgument(call, w, behind);
    ArgExpands(x, texts, n, start, |q|, q, call.arg, tail, s, newArgs, args);
    var val := Meaning(x, texts, n, call.arg, args);
    if val.Some? {
      ArgsGoOn(x, texts, n, start, q, call, w, s, val.value, q + (val.value + tail), newArgs, args);
    }
  }

  lemma {:induction false} LastExpands(x: Env, texts: map<string, Text>, n: Counts, start: nat, q: string, call: Args,
                                       w: string, s: string, newArgs: seq<string>, args: seq<string>)
    requires ValidCounts(x, n) && Known(x, texts) && ProperArgs(call) && start + 2 <= |q| && call.Last?
    requires s == q + (WrittenArgs(call) + w)
    ensures ExpandArgs(x, n, s, start, |q|, |q|, newArgs, args)
         == PutBetween(s[..start], CallValue(x, texts, n, call, newArgs, args), w)
    decreases Left(x, n), SizeOf(call), 2
  {
    var tail := ")" + w;
    FirstFound(x, texts, n, call, newArgs, args);
    Associate(Written(call.arg), ")", w);
    ArgExpands(x, texts, n, start, |q|, q, call.arg, tail, s, newArgs, args);
    var val := Meaning(x, texts, n, call.arg, args);
    if val.Some? {
      ArgsEnd(x, texts, n, start, q, call, val.value, w, s, newArgs, args);
    }
  }

  lemma FirstArgument(call: Args, w: string, behind: string)
    requires call.More? && behind == WrittenArgs(call.args) + w
    ensures WrittenArgs(call) + w == Written(call.arg) + ("," + behind)
  {
    Associate(Written(call.arg) + ",", WrittenArgs(call.args), w);
    Associate(Written(call.arg), ",", behind);
  }

  // The arguments behind the first one, which has been expanded to `val`.
  lemma {:induction false} ArgsGoOn(x: Env, texts: map<string, Text>, n: Counts, start: nat, q: string, call: Args,
                                    w: string, s: string, val: string, mid: string, newArgs: seq<string>,
                                    args: seq<string>)
    requires ValidCounts(x, n) && Known(x, texts) && ProperArgs(call) && start + 2 <= |q| && q <= s && call.More?
    requires mid == q + (val + ("," + (WrittenArgs(call.args) + w)))
    ensures ExpandArgs(x, n, mid, start, |q|, |q + val|, newArgs, args)
         == PutBetween(s[..start], RestValue(x, texts, n, call, val, newArgs, args), w)
    decreases Left(x, n), SizeOf(call), 1
  {
    var more, given := call.args, newArgs + [val];
    var next := (q + val) + ",";
    ArgumentDone(x, n, start, q, val, WrittenArgs(more) + w, mid, next, newArgs, args);
    ArgsExpand(x, texts, n, start, next, more, w, mid, given, args);
    SamePrefix(s, mid, q, start);
    var rest := Meanings(x, texts, n, more, args);
    if rest.Some? {
      Added(newArgs, val, rest.value);
    }
  }

  lemma Added(given: seq<string>, val: string, rest: seq<string>)
    ensures (given + [val]) + rest == given + ([val] + rest)
  {
  }

  lemma SamePrefix(s: string, mid: string, q: string, start: nat)
    requires q <= s && q <= mid && start <= |q|
    ensures s[..start] == mid[..start]
  {
    assert s[..start] == q[..start] == mid[..start];
  }

  // The comma behind an argument.
  lemma ArgumentDone(x: Env, n: Counts, start: nat, q: string, val: string, w: string, mid: string, next: string,
                     newArgs: seq<string>, args: seq<string>)
    requires ValidCounts(x, n) && start + 2 <= |q| && mid == q + (val + ("," + w)) && next == (q + val) + ","
    ensures mid == next + w
    ensures ExpandArgs(x, n, mid, start, |q|, |q + val|, newArgs, args)
         == ExpandArgs(x, n, mid, start, |next|, |next|, newArgs + [val], args)
  {
    var i := |q + val|;
    CommaBehind(q, val, w, mid);
    assert FindSpecial(mid, i) == Some(i);
  }

  lemma CommaBehind(q: string, val: string, w: string, mid: string)
    requires mid == q + (val + ("," + w))
    ensures var i := |q + val|; i < |mid| && mid[i] == ',' && mid[|q|..i] == val && mid == ((q + val) + ",") + w
  {
    Associate(q, val, "," + w);
    Associate(q + val, ",", w);
  }

  // The parenthesis behind the last one.
  lemma ArgsEnd(x: Env, texts: map<string, Text>, n: Counts, start: nat, q: string, call: Args, val: string, w: string,
                s: string, newArgs: seq<string>, args: seq<string>)
    requires ValidCounts(x, n) && Known(x, texts) && start + 2 <= |q| && q <= s && call.Last?
    ensures ExpandArgs(x, n, q + (val + (")" + w)), start, |q|, |q + val|, newArgs, args)
         == PutBetween(s[..start], RestValue(x, texts, n, call, val, newArgs, args), w)
    decreases Left(x, n), 0, 1
  {
    var mid, i := q + (val + (")" + w)), |q + val|;
    Associate(q, val, ")" + w);
    assert mid[i] == ')' && mid[|q|..i] == val && mid[i + 1..] == w;
    assert FindSpecial(mid, i) == Some(i);
    SamePrefix(s, mid, q, start);
    CallGives(x, texts, n, newArgs + [val], args);
  }

  // A single argument, up to where its text ends.
  lemma {:induction false} ArgExpands(x: Env, texts: map<string, Text>, n: Counts, start: nat, argStart: nat, q: string,
                                      t: Text, tail: string, s: string, newArgs: seq<string>, args: seq<string>)
    requires ValidCounts(x, n) && Known(x, texts) && Proper(t, true) && start + 2 <= argStart <= |q|
    requires s == q + (Written(t) + tail) && (tail == "" || tail[0] != '(')
    ensures var val := Meaning(x, texts, n, t, args);
            ExpandArgs(x, n, s, start, argStart, |q|, newArgs, args)
            == if val.None? then None
            else ExpandArgs(x, n, q + (val.value + tail), start, argStart, |q + val.value|, newArgs, args)
    decreases Left(x, n), Size(t), 2
  {
    match t
    case End =>
      assert "" + tail == tail && q + "" == q;
    case Plain(c, rest) =>
      var next := q + [c];
      PlainHere(q, t, true, tail);
      PlainPassed(q, t, tail);
      PassesInside(x, n, s, start, argStart, |q|, |next|, newArgs, args);
      ArgExpands(x, texts, n, start, argStart, next, rest, tail, s, newArgs, args);
      var val := Meaning(x, texts, n, rest, args);
      if val.Some? {
        Regrouped(q, [c], val.value, tail);
      }
    case Macro(_, _) =>
      MacroInArgument(x, texts, n, start, argStart, q, t, tail, s, newArgs, args);
  }

  lemma {:induction false} MacroInArgument(x: Env, texts: map<string, Text>, n: Counts, start: nat, argStart: nat,
                                           q: string, t: Text, tail: string, s: string, newArgs: seq<string>,
                                           args: seq<string>)
    requires ValidCounts(x, n) && Known(x, texts) && Proper(t, true) && start + 2 <= argStart <= |q| && t.Macro?
    requires s == q + (Written(t) + tail) && (tail == "" || tail[0] != '(')
    ensures var val := Meaning(x, texts, n, t, args);
            ExpandArgs(x, n, s, start, argStart, |q|, newArgs, args)
            == if val.None? then None
            else ExpandArgs(x, n, q + (val.value + tail), start, argStart, |q + val.value|, newArgs, args)
    decreases Left(x, n), Size(t), 1
  {
    var behind := Written(t.rest) + tail;
    MacroHere(q, t, tail);
    MacroExpands(x, texts, n, q, t.args, behind, s, args);
    NestedStep(x, n, s, start, argStart, |q|, newArgs, args);
    MacroMeans(x, texts, n, t, args);
    var val := WholeCall(x, texts, n, t.args, args);
    if val.Some? {
      var next := q + val.value;
      ArgExpands(x, texts, n, start, argStart, next, t.rest, tail, next + behind, newArgs, args);
      var more := Meaning(x, texts, n, t.rest, args);
      if more.Some? {
        Regrouped(q, val.value, more.value, tail);
      }
    }
  }

  lemma Regrouped(q: string, a: string, b: string, tail: string)
    ensures (q + a) + (b + tail) == q + ((a + b) + tail) && |(q + a) + b| == |q + (a + b)|
  {
    Associate(a, b, tail);
    Associate(q, a, b + tail);
  }

  lemma NestedStep(x: Env, n: Counts, s: string, start: nat, argStart: nat, i: nat, newArgs: seq<string>,
                   args: seq<string>)
    requires ValidCounts(x, n) && start + 2 <= argStart <= i <= |s| && MacroAt(s, i)
    ensures var e := ExpandMacro(x, n, s, i, args);
            ExpandArgs(x, n, s, start, argStart, i, newArgs, args)
            == if e.None? then None else ExpandArgs(x, n, e.value.text, start, argStart, e.value.next, newArgs, args)
  {
    assert FindSpecial(s, i) == Some(i);
  }

  lemma {:induction false} CallGives(x: Env, texts: map<string, Text>, n: Counts, vals: seq<string>, args: seq<string>)
    requires ValidCounts(x, n) && Known(x, texts) && vals != []
    ensures MacroValue(x, n, vals, args) == CallMeaning(x, texts, n, vals, args)
    decreases Left(x, n), 0, 0
  {
    var name := vals[0];
    if name in x.variables && name in texts && n[name] <= 100 {
      OneMoreExpansion(x, n, name);
      Expands(x, texts, n[name := n[name] + 1], "", texts[name], vals);
      assert "" + Written(texts[name]) == x.variables[name];
      var r := Meaning(x, texts, n[name := n[name] + 1], texts[name], vals);
      assert r.Some? ==> "" + r.value == r.value;
    }
  }

  // Expanding a text gives what it stands for.
  lemma ExpandedText(x: Env, texts: map<string, Text>, n: Counts, t: Text, args: seq<string>)
    requires ValidCounts(x, n) && Known(x, texts) && Proper(t, false)
    ensures ExpandFrom(x, n, Written(t), 0, args) == Meaning(x, texts, n, t, args)
  {
    Expands(x, texts, n, "", t, args);
    assert "" + Written(t) == Written(t);
    var r := Meaning(x, texts, n, t, args);
    assert r.Some? ==> "" + r.value == r.value;
  }

  // ---------- Calls with plain text ----------

  predicate NoSpecial(s: string) {
    forall i :: 0 <= i < |s| ==> s[i] != ')' && s[i] != ',' && s[i] != '$'
  }

  function Chars(s: string): Text {
    if s == "" then End else Plain(s[0], Chars(s[1..]))
  }

  // A macro that is called with plain text.
  function CallOf(vals: seq<string>): Args
    requires vals != []
  {
    if |vals| == 1 then Last(Chars(vals[0])) else More(Chars(vals[0]), CallOf(vals[1..]))
  }

  function Commas(vals: seq<string>): string
    requires vals != []
  {
    if |vals| == 1 then vals[0] else vals[0] + "," + Commas(vals[1..])
  }

  lemma {:induction false} CharsMean(x: Env, texts: map<string, Text>, n: Counts, s: string, args: seq<string>)
    requires ValidCounts(x, n) && Known(x, texts) && NoSpecial(s)
    ensures Written(Chars(s)) == s && Proper(Chars(s), true) && Meaning(x, texts, n, Chars(s), args) == Some(s)
    decreases |s|
  {
    if s != "" {
      CharsMean(x, texts, n, s[1..], args);
      assert s == [s[0]] + s[1..];
    }
  }

  lemma {:induction false} CallMeans(x: Env, texts: map<string, Text>, n: Counts, vals: seq<string>, args: seq<string>)
    requires ValidCounts(x, n) && Known(x, texts) && vals != [] && forall v :: v in vals ==> NoSpecial(v)
    ensures WrittenArgs(CallOf(vals)) == Commas(vals) + ")" && ProperArgs(CallOf(vals))
    ensures Meanings(x, texts, n, CallOf(vals), args) == Some(vals)
    decreases |vals|
  {
    CharsMean(x, texts, n, vals[0], args);
    if |vals| > 1 {
      CallMeans(x, texts, n, vals[1..], args);
      assert vals == [vals[0]] + vals[1..];
      Associate(vals[0] + ",", Commas(vals[1..]), ")");
    } else {
      assert vals == [vals[0]];
    }
  }

  lemma CallExpands(x: Env, texts: map<string, Text>, n: Counts, vals: seq<string>, args: seq<string>)
    requires ValidCounts(x, n) && Known(x, texts) && vals != [] && forall v :: v in vals ==> NoSpecial(v)
    ensures ExpandFrom(x, n, "$(" + Commas(vals) + ")", 0, args) == CallMeaning(x, texts, n, vals, args)
  {
    var t := Macro(CallOf(vals), End);
    CallMeans(x, texts, n, vals, args);
    ExpandedText(x, texts, n, t, args);
    Associate("$(", Commas(vals), ")");
    assert Written(t) == "$(" + Commas(vals) + ")";
    var r := CallMeaning(x, texts, n, vals, args);
    assert r.Some? ==> r.value + "" == r.value;
  }

  // $(1) and the like, where there is such an argument.
  lemma ArgumentExpands(x: Env, n: Counts, digits: string, i: int, args: seq<string>)
    requires ValidCounts(x, n) && NoSpecial(digits) && x.toInt(digits) == Some(i)
    ensures 0 <= i < |args| ==> ExpandFrom(x, n, "$(" + digits + ")", 0, args) == Some(args[i])
    ensures -|args| <= i < 0 ==> ExpandFrom(x, n, "$(" + digits + ")", 0, args) == Some(args[|args| + i])
  {
    CallExpands(x, map[], n, [digits], args);
  }

  predicate NoArgument(x: Env, name: string, args: seq<string>) {
    x.toInt(name).Some? ==> x.toInt(name).value < -|args| || |args| <= x.toInt(name).value
  }

  // A variable whose text has no macros.
  lemma VariableExpands(x: Env, n: Counts, name: string, args: seq<string>)
    requires ValidCounts(x, n) && NoSpecial(name) && NoArgument(x, name, args)
    requires name in x.variables && n[name] == 0
    requires forall i :: 0 <= i < |x.variables[name]| ==> !MacroAt(x.variables[name], i)
    ensures ExpandFrom(x, n, "$(" + name + ")", 0, args) == Some(x.variables[name])
  {
    CallExpands(x, map[], n, [name], args);
    OneMoreExpansion(x, n, name);
    assert FindMacro(x.variables[name], 0).None?;
  }

  // A name that is neither a variable nor a function.
  lemma UnsetExpands(x: Env, n: Counts, name: string, args: seq<string>)
    requires ValidCounts(x, n) && NoSpecial(name) && NoArgument(x, name, args)
    requires name !in x.variables && name !in x.functions
    ensures ExpandFrom(x, n, "$(" + name + ")", 0, args)
         == Some(if name in x.environment then x.environment[name] else "")
  {
    CallExpands(x, map[], n, [name], args);
  }

  // A text of characters and of macros that are numbers of arguments.
  predicate HasSlots(x: Env, t: Text, args: seq<string>) {
    match t
    case End => true
    case Plain(_, rest) => HasSlots(x, rest, args)
    case Macro(call, rest) =>
      && call.Last? && NoSpecial(Written(call.arg)) && call.arg == Chars(Written(call.arg))
      && x.toInt(Written(call.arg)).Some? && 0 <= x.toInt(Written(call.arg)).value < |args| && HasSlots(x, rest, args)
  }

  // The arguments put in.
  function Filled(x: Env, t: Text, args: seq<string>): string
    requires HasSlots(x, t, args)
  {
    match t
    case End => ""
    case Plain(c, rest) => [c] + Filled(x, rest, args)
    case Macro(call, rest) => args[x.toInt(Written(call.arg)).value] + Filled(x, rest, args)
  }

  lemma {:induction false} FilledMeaning(x: Env, texts: map<string, Text>, n: Counts, t: Text, args: seq<string>)
    requires ValidCounts(x, n) && Known(x, texts) && HasSlots(x, t, args)
    ensures Meaning(x, texts, n, t, args) == Some(Filled(x, t, args))
    decreases t
  {
    match t
    case End =>
    case Plain(_, rest) => FilledMeaning(x, texts, n, rest, args);
    case Macro(call, rest) =>
      CharsMean(x, texts, n, Written(call.arg), args);
      FilledMeaning(x, texts, n, rest, args);
  }

  // A function that is called with plain text: the arguments are put in its text.
  lemma FunctionExpands(x: Env, n: Counts, t: Text, vals: seq<string>, args: seq<string>)
    requires ValidCounts(x, n) && |vals| > 1 && (forall v :: v in vals ==> NoSpecial(v)) && NoArgument(x, vals[0], args)
    requires vals[0] in x.variables && n[vals[0]] <= 100
    requires x.variables[vals[0]] == Written(t) && Proper(t, false) && HasSlots(x, t, vals)
    ensures ExpandFrom(x, n, "$(" + Commas(vals) + ")", 0, args) == Some(Filled(x, t, vals))
  {
    var name, texts := vals[0], map[vals[0] := t];
    CallExpands(x, texts, n, vals, args);
    OneMoreExpansion(x, n, name);
    FilledMeaning(x, texts, n[name := n[name] + 1], t, vals);
  }

  // ---------- Errors ----------

  // A macro that is never ended.
  lemma {:induction false} NeverEnded(x: Env, n: Counts, s: string, start: nat, argStart: nat, i: nat,
                                      newArgs: seq<string>, args: seq<string>)
    requires ValidCounts(x, n) && start + 2 <= argStart <= i <= |s| && forall j :: i <= j < |s| ==> s[j] != ')'
    ensures ExpandArgs(x, n, s, start, argStart, i, newArgs, args) == None
    decreases |s| - i
  {
    var k := FindSpecial(s, i);
    if k.Some? {
      var at := k.value;
      if s[at] == ',' {
        var next := at + 1;
        NeverEnded(x, n, s, start, next, next, newArgs + [s[argStart..at]], args);
      } else {
        NeverEnded(x, n, s, at, at + 2, at + 2, [], args);
      }
    }
  }

  lemma UnendedFails(x: Env, n: Counts, p: string, rest: string, args: seq<string>)
    requires ValidCounts(x, n) && (forall j :: 0 <= j < |rest| ==> rest[j] != ')')
    requires forall j :: 0 <= j < |p| ==> p[j] != '$'
    ensures ExpandFrom(x, n, p + "$(" + rest, 0, args) == None
  {
    var s, start := p + "$(" + rest, |p|;
    assert forall j :: start + 2 <= j < |s| ==> s[j] == rest[j - start - 2];
    assert s[start] == '$' && s[start + 1] == '(';
    assert forall j :: 0 <= j < start ==> s[j] == p[j];
    assert MacroAt(s, start) && forall j :: 0 <= j < start ==> !MacroAt(s, j);
    var k := FindMacro(s, 0);
    assert k == Some(start);
    NeverEnded(x, n, s, start, start + 2, start + 2, [], args);
  }
}
