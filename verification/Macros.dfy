/** The preprocessor: expansion of macros, with its guards against endless recursion.

    Variables count how often they are being expanded right now.  The counters are restored whenever an
    expansion succeeds, so that its result is a function of the text and of the counters; an exception is
    represented by None.  Built-in and user-defined functions are arbitrary functions of their arguments. */
module Macros {
  import opened Wrappers

  datatype Builtin = Builtin(minArgs: nat, maxArgs: Option<nat>, run: seq<string> -> Option<string>)

  // `toInt` is Python's int(), which accepts any Unicode digits; it may be any conversion here.
  datatype Env = Env(variables: map<string, string>, functions: map<string, Builtin>, environment: map<string, string>,
                     toInt: string -> Option<int>)

  type Counts = map<string, nat>

  const MOST := 101

  ghost predicate ValidCounts(x: Env, n: Counts) {
    n.Keys == x.variables.Keys && forall v :: v in n ==> n[v] <= MOST
  }

  // ---------- Searching ----------

  predicate MacroAt(s: string, i: nat) {
    i + 1 < |s| && s[i] == '$' && s[i + 1] == '('
  }

  // s.find("$(", i)
  function FindMacro(s: string, i: nat): (k: Option<nat>)
    requires i <= |s|
    ensures k.Some? ==> i <= k.value && MacroAt(s, k.value) && forall j :: i <= j < k.value ==> !MacroAt(s, j)
    ensures k.None? ==> forall j :: i <= j < |s| ==> !MacroAt(s, j)
    decreases |s| - i
  {
    if i == |s| then None else if MacroAt(s, i) then Some(i) else FindMacro(s, i + 1)
  }

  predicate SpecialAt(s: string, i: nat) {
    i < |s| && (s[i] == ')' || s[i] == ',' || MacroAt(s, i))
  }

  // _macro_special_search(): ")", "," or "$("
  function FindSpecial(s: string, i: nat): (k: Option<nat>)
    requires i <= |s|
    ensures k.Some? ==> i <= k.value && SpecialAt(s, k.value) && forall j :: i <= j < k.value ==> !SpecialAt(s, j)
    ensures k.None? ==> forall j :: i <= j < |s| ==> !SpecialAt(s, j)
    decreases |s| - i
  {
    if i == |s| then None else if SpecialAt(s, i) then Some(i) else FindSpecial(s, i + 1)
  }

  // ---------- Termination ----------

  // How many more expansions the guards allow.
  ghost function Budget(keys: set<string>, n: Counts): nat
    requires forall v :: v in keys ==> v in n && n[v] <= MOST
    decreases |keys|
  {
    if keys == {} then 0
    else
      var v :| v in keys;
      MOST - n[v] + Budget(keys - {v}, n)
  }

  lemma {:induction false} BudgetSmaller(keys: set<string>, n: Counts, m: Counts)
    requires forall v :: v in keys ==> v in n && n[v] <= MOST
    requires forall v :: v in keys ==> v in m && n[v] <= m[v] <= MOST
    ensures Budget(keys, m) <= Budget(keys, n)
    ensures (exists v :: v in keys && n[v] < m[v]) ==> Budget(keys, m) < Budget(keys, n)
    decreases |keys|
  {
    if keys != {} {
      var v :| v in keys && Budget(keys, n) == MOST - n[v] + Budget(keys - {v}, n)
                        && Budget(keys, m) == MOST - m[v] + Budget(keys - {v}, m);
      BudgetSmaller(keys - {v}, n, m);
    }
  }

  ghost function Left(x: Env, n: Counts): nat
    requires ValidCounts(x, n)
  {
    Budget(x.variables.Keys, n)
  }

  lemma OneMoreExpansion(x: Env, n: Counts, v: string)
    requires ValidCounts(x, n) && v in n && n[v] < MOST
    ensures ValidCounts(x, n[v := n[v] + 1]) && Left(x, n[v := n[v] + 1]) < Left(x, n)
  {
    var m := n[v := n[v] + 1];
    assert m.Keys == n.Keys;
    BudgetSmaller(x.variables.Keys, n, m);
  }

  // ---------- Expansion ----------

  datatype Expanded = Expanded(text: string, next: nat)

  // _expand_whole(), from `i` on
  function ExpandFrom(x: Env, n: Counts, s: string, i: nat, args: seq<string>): (r: Option<string>)
    requires ValidCounts(x, n) && i <= |s|
    decreases Left(x, n), |s| - i, 1
  {
    var k := FindMacro(s, i);
    if k.None? then Some(s)
    else
      var e := ExpandMacro(x, n, s, k.value, args);
      if e.None? then None else ExpandFrom(x, n, e.value.text, e.value.next, args)
  }

  // _expand_macro()
  function ExpandMacro(x: Env, n: Counts, s: string, start: nat, args: seq<string>): (r: Option<Expanded>)
    requires ValidCounts(x, n) && MacroAt(s, start)
    ensures r.Some? ==> start <= r.value.next <= |r.value.text| && |r.value.text| - r.value.next < |s| - start - 2
    decreases Left(x, n), |s| - start, 0
  {
    ExpandArgs(x, n, s, start, start + 2, start + 2, [], args)
  }

  // The loop of _expand_macro(), with the arguments found so far.
  function ExpandArgs(x: Env, n: Counts, s: string, start: nat, argStart: nat, i: nat, newArgs: seq<string>,
                      args: seq<string>): (r: Option<Expanded>)
    requires ValidCounts(x, n) && start + 2 <= argStart <= i <= |s|
    ensures r.Some? ==> start <= r.value.next <= |r.value.text| && |r.value.text| - r.value.next < |s| - i
    decreases Left(x, n), |s| - i, 1
  {
    var k := FindSpecial(s, i);
    if k.None? then None
    else if s[k.value] == ')' then
      var val := MacroValue(x, n, newArgs + [s[argStart..k.value]], args);
      if val.None? then None else Some(Expanded(s[..start] + val.value + s[k.value + 1..], start + |val.value|))
    else if s[k.value] == ',' then
      ExpandArgs(x, n, s, start, k.value + 1, k.value + 1, newArgs + [s[argStart..k.value]], args)
    else
      var e := ExpandMacro(x, n, s, k.value, args);
      if e.None? then None else ExpandArgs(x, n, e.value.text, start, argStart, e.value.next, newArgs, args)
  }

  // A number stands for an argument of the macro that is being expanded; anything else is a function.
  function MacroValue(x: Env, n: Counts, newArgs: seq<string>, args: seq<string>): (r: Option<string>)
    requires ValidCounts(x, n) && newArgs != []
    decreases Left(x, n), 0, 1
  {
    var number := x.toInt(newArgs[0]);
    if number.Some? && -|args| <= number.value < |args| then
      Some(args[if number.value < 0 then |args| + number.value else number.value])
    else
      FnVal(x, n, newArgs)
  }

  // _fn_val()
  function FnVal(x: Env, n: Counts, args: seq<string>): (r: Option<string>)
    requires ValidCounts(x, n) && args != []
    decreases Left(x, n), 0, 0
  {
    var fn := args[0];
    if fn in x.variables then
      if (if |args| == 1 then n[fn] != 0 else n[fn] > 100) then None
      else
        OneMoreExpansion(x, n, fn);
        ExpandFrom(x, n[fn := n[fn] + 1], x.variables[fn], 0, args)
    else if fn in x.functions then
      var f := x.functions[fn];
      if |args| - 1 < f.minArgs || (f.maxArgs.Some? && |args| - 1 > f.maxArgs.value) then None else f.run(args)
    else if fn in x.environment then Some(x.environment[fn])
    else Some("")
  }

  // What the loop of _expand_macro() comes to from here.
  ghost predicate Leads(x: Env, n: Counts, s: string, start: nat, argStart: nat, i: nat, newArgs: seq<string>,
                        args: seq<string>, r: Option<Expanded>)
    requires ValidCounts(x, n) && start + 2 <= argStart <= i <= |s|
  {
    ExpandArgs(x, n, s, start, argStart, i, newArgs, args) == r
  }

  // A macro ends with the parenthesis that is found before another macro or argument begins.
  lemma MacroEnds(x: Env, n: Counts, s: string, start: nat, argStart: nat, i: nat, newArgs: seq<string>,
                  args: seq<string>, k: nat, val: Option<string>, r: Option<Expanded>)
    requires ValidCounts(x, n) && start + 2 <= argStart <= i <= |s|
    requires Leads(x, n, s, start, argStart, i, newArgs, args, r) && FindSpecial(s, i) == Some(k) && s[k] == ')'
    requires val == MacroValue(x, n, newArgs + [s[argStart..k]], args)
    ensures r == if val.None? then None else Some(Expanded(s[..start] + val.value + s[k + 1..], start + |val.value|))
  {
  }

  lemma ArgumentEnds(x: Env, n: Counts, s: string, start: nat, argStart: nat, i: nat, newArgs: seq<string>,
                     args: seq<string>, k: nat, next: nat, more: seq<string>, r: Option<Expanded>)
    requires ValidCounts(x, n) && start + 2 <= argStart <= i <= |s|
    requires Leads(x, n, s, start, argStart, i, newArgs, args, r) && FindSpecial(s, i) == Some(k) && s[k] == ','
    requires next == k + 1 && more == newArgs + [s[argStart..k]]
    ensures Leads(x, n, s, start, next, next, more, args, r)
  {
  }

  lemma MacroInside(x: Env, n: Counts, s: string, start: nat, argStart: nat, i: nat, newArgs: seq<string>,
                    args: seq<string>, k: nat, e: Option<Expanded>, r: Option<Expanded>)
    requires ValidCounts(x, n) && start + 2 <= argStart <= i <= |s|
    requires Leads(x, n, s, start, argStart, i, newArgs, args, r) && FindSpecial(s, i) == Some(k)
    requires s[k] != ')' && s[k] != ',' && e == ExpandMacro(x, n, s, k, args)
    ensures e.None? ==> r == None
    ensures e.Some? ==> start + 2 <= argStart <= e.value.next <= |e.value.text|
    ensures e.Some? ==> |e.value.text| - e.value.next < |s| - i
    ensures e.Some? ==> Leads(x, n, e.value.text, start, argStart, e.value.next, newArgs, args, r)
  {
  }

  // What is promised of expanding something in `s` from `start` on, having looked at it up to `i`: the text
  // before is unchanged, and what is left to look at is a part of what was left before.  Text that results
  // from expansion is not looked at again.
  ghost predicate Progress(s: string, start: nat, i: nat, e: Expanded) {
    && start <= e.next <= |e.text| && start <= |s| && e.text[..start] == s[..start]
    && exists j :: i < j <= |s| && e.text[e.next..] == s[j..]
  }

  lemma MacroProgress(x: Env, n: Counts, s: string, start: nat, args: seq<string>)
    requires ValidCounts(x, n) && MacroAt(s, start) && ExpandMacro(x, n, s, start, args).Some?
    ensures Progress(s, start, start + 2, ExpandMacro(x, n, s, start, args).value)
    decreases |s| - start, 0
  {
    ArgsProgress(x, n, s, start, start + 2, start + 2, [], args, ExpandMacro(x, n, s, start, args).value);
  }

  lemma {:induction false} ArgsProgress(x: Env, n: Counts, s: string, start: nat, argStart: nat, i: nat,
                                        newArgs: seq<string>, args: seq<string>, r: Expanded)
    requires ValidCounts(x, n) && start + 2 <= argStart <= i <= |s|
    requires Leads(x, n, s, start, argStart, i, newArgs, args, Some(r))
    ensures Progress(s, start, i, r)
    decreases |s| - i, 1
  {
    var k := FindSpecial(s, i).value;
    if s[k] == ')' {
      var val := MacroValue(x, n, newArgs + [s[argStart..k]], args);
      MacroEnds(x, n, s, start, argStart, i, newArgs, args, k, val, Some(r));
      ProgressEnd(s, start, i, k, val.value);
    } else if s[k] == ',' {
      var next, more := k + 1, newArgs + [s[argStart..k]];
      ArgumentEnds(x, n, s, start, argStart, i, newArgs, args, k, next, more, Some(r));
      ArgsProgress(x, n, s, start, next, next, more, args, r);
    } else {
      var e := ExpandMacro(x, n, s, k, args);
      MacroInside(x, n, s, start, argStart, i, newArgs, args, k, e, Some(r));
      MacroProgress(x, n, s, k, args);
      ArgsProgress(x, n, e.value.text, start, argStart, e.value.next, newArgs, args, r);
      ProgressTwice(s, start, i, k, e.value, r);
    }
  }

  lemma ProgressEnd(s: string, start: nat, i: nat, k: nat, val: string)
    requires start <= i <= k < |s|
    ensures Progress(s, start, i, Expanded(s[..start] + val + s[k + 1..], start + |val|))
  {
    var e, j: nat := Expanded(s[..start] + val + s[k + 1..], start + |val|), k + 1;
    assert e.text[e.next..] == s[j..] && e.text[..start] == s[..start];
  }

  lemma ProgressPrefix(s: string, k: nat, start: nat, e: Expanded)
    requires start <= k && Progress(s, k, k + 2, e)
    ensures start <= |e.text| && e.text[..start] == s[..start]
  {
    assert e.text[..k][..start] == e.text[..start] && s[..k][..start] == s[..start];
  }

  lemma ProgressTwice(s: string, start: nat, i: nat, k: nat, e: Expanded, r: Expanded)
    requires start <= i <= k && Progress(s, k, k + 2, e) && Progress(e.text, start, e.next, r)
    ensures Progress(s, start, i, r)
  {
    ProgressPrefix(s, k, start, e);
    var j :| k + 2 < j <= |s| && e.text[e.next..] == s[j..];
    var l :| e.next < l <= |e.text| && r.text[r.next..] == e.text[l..];
    var d := l - e.next;
    var m := j + d;
    assert e.text[l..] == e.text[e.next..][d..];
    assert s[j..][d..] == s[m..];
  }

  // ---------- Properties of the result ----------

  ghost predicate Fewer(x: Env, m: Counts, n: Counts) {
    ValidCounts(x, m) && ValidCounts(x, n) && forall v :: v in n ==> v in m && m[v] <= n[v]
  }

  // The guards turn results into errors, but never into other results: what succeeds while some variables
  // are being expanded gives the same when they are not.
  lemma {:induction false} FromFewer(x: Env, m: Counts, n: Counts, s: string, i: nat, args: seq<string>)
    requires Fewer(x, m, n) && i <= |s| && ExpandFrom(x, n, s, i, args).Some?
    ensures ExpandFrom(x, m, s, i, args) == ExpandFrom(x, n, s, i, args)
    decreases Left(x, n), |s| - i, 1
  {
    var k := FindMacro(s, i);
    if k.Some? {
      MacroFewer(x, m, n, s, k.value, args);
      var e := ExpandMacro(x, n, s, k.value, args).value;
      FromFewer(x, m, n, e.text, e.next, args);
    }
  }

  lemma {:induction false} MacroFewer(x: Env, m: Counts, n: Counts, s: string, start: nat, args: seq<string>)
    requires Fewer(x, m, n) && MacroAt(s, start) && ExpandMacro(x, n, s, start, args).Some?
    ensures ExpandMacro(x, m, s, start, args) == ExpandMacro(x, n, s, start, args)
    decreases Left(x, n), |s| - start, 0
  {
    ArgsFewer(x, m, n, s, start, start + 2, start + 2, [], args);
  }

  lemma {:induction false} ArgsFewer(x: Env, m: Counts, n: Counts, s: string, start: nat, argStart: nat, i: nat,
                                     newArgs: seq<string>, args: seq<string>)
    requires Fewer(x, m, n) && start + 2 <= argStart <= i <= |s|
    requires ExpandArgs(x, n, s, start, argStart, i, newArgs, args).Some?
    ensures ExpandArgs(x, m, s, start, argStart, i, newArgs, args)
      == ExpandArgs(x, n, s, start, argStart, i, newArgs, args)
    decreases Left(x, n), |s| - i, 1
  {
    var k := FindSpecial(s, i).value;
    if s[k] == ')' {
      ValueFewer(x, m, n, newArgs + [s[argStart..k]], args);
    } else if s[k] == ',' {
      ArgsFewer(x, m, n, s, start, k + 1, k + 1, newArgs + [s[argStart..k]], args);
    } else {
      MacroFewer(x, m, n, s, k, args);
      var e := ExpandMacro(x, n, s, k, args).value;
      ArgsFewer(x, m, n, e.text, start, argStart, e.next, newArgs, args);
    }
  }

  lemma {:induction false} ValueFewer(x: Env, m: Counts, n: Counts, newArgs: seq<string>, args: seq<string>)
    requires Fewer(x, m, n) && newArgs != [] && MacroValue(x, n, newArgs, args).Some?
    ensures MacroValue(x, m, newArgs, args) == MacroValue(x, n, newArgs, args)
    decreases Left(x, n), 0, 1
  {
    if FnVal(x, n, newArgs).Some? {
      FnFewer(x, m, n, newArgs);
    }
  }

  lemma {:induction false} FnFewer(x: Env, m: Counts, n: Counts, args: seq<string>)
    requires Fewer(x, m, n) && args != [] && FnVal(x, n, args).Some?
    ensures FnVal(x, m, args) == FnVal(x, n, args)
    decreases Left(x, n), 0, 0
  {
    var fn := args[0];
    if fn in x.variables {
      OneMoreExpansion(x, n, fn);
      OneMoreExpansion(x, m, fn);
      FromFewer(x, m[fn := m[fn] + 1], n[fn := n[fn] + 1], x.variables[fn], 0, args);
    }
  }

  // ---------- Recursion ----------

  // At `j`, the macro `name` begins, with or without arguments.
  ghost predicate CallAt(s: string, j: nat, name: string) {
    var end := j + 2 + |name|;
    && MacroAt(s, j) && end < |s| && s[j + 2..end] == name && (s[end] == ')' || s[end] == ',')
    && forall p :: j + 2 <= p < end ==> !SpecialAt(s, p)
  }

  // From `i` on there is a macro with a name in `names`, anywhere: also among the arguments of other macros.
  ghost predicate HasCall(s: string, i: nat, names: set<string>) {
    exists j, name :: i <= j && name in names && CallAt(s, j, name)
  }

  // Each of the variables `names` refers to one of them, perhaps to itself.  They are not called like numbers,
  // which stand for arguments.
  ghost predicate Recursive(x: Env, names: set<string>) {
    forall v :: v in names ==> v in x.variables && x.toInt(v).None? && HasCall(x.variables[v], 0, names)
  }

  // Then none of them can be expanded, with or without arguments, and whatever else is being expanded: sooner
  // or later the guards are met.
  lemma {:induction false} RecursionFails(x: Env, n: Counts, names: set<string>, args: seq<string>)
    requires ValidCounts(x, n) && Recursive(x, names) && args != [] && args[0] in names
    ensures FnVal(x, n, args) == None
    decreases Left(x, n), 0, 0
  {
    var v, r := args[0], FnVal(x, n, args);
    VariableExpands(x, n, args, r);
    if r.Some? {
      OneMoreExpansion(x, n, v);
      TextFails(x, n[v := n[v] + 1], names, x.variables[v], 0, args);
    }
  }

  lemma VariableExpands(x: Env, n: Counts, args: seq<string>, r: Option<string>)
    requires ValidCounts(x, n) && args != [] && args[0] in x.variables && r == FnVal(x, n, args)
    ensures r.Some? ==> n[args[0]] < MOST && ValidCounts(x, n[args[0] := n[args[0]] + 1])
    ensures r.Some? ==> r == ExpandFrom(x, n[args[0] := n[args[0]] + 1], x.variables[args[0]], 0, args)
  {
    if n[args[0]] < MOST {
      OneMoreExpansion(x, n, args[0]);
    }
  }

  // Nor can any text that refers to them.
  lemma {:induction false} TextFails(x: Env, n: Counts, names: set<string>, s: string, i: nat, args: seq<string>)
    requires ValidCounts(x, n) && Recursive(x, names) && i <= |s| && HasCall(s, i, names)
    ensures ExpandFrom(x, n, s, i, args) == None
    decreases Left(x, n), |s| - i, 2
  {
    var k := FindMacro(s, i).value;
    if ExpandMacro(x, n, s, k, args).Some? {
      MacroLeaves(x, n, names, s, k, args);
      var e := ExpandMacro(x, n, s, k, args).value;
      TextFails(x, n, names, e.text, e.next, args);
    }
  }

  // A macro that can be expanded leaves the reference behind for later.
  lemma {:induction false} MacroLeaves(x: Env, n: Counts, names: set<string>, s: string, start: nat, args: seq<string>)
    requires ValidCounts(x, n) && Recursive(x, names) && MacroAt(s, start) && HasCall(s, start, names)
    requires ExpandMacro(x, n, s, start, args).Some?
    ensures var e := ExpandMacro(x, n, s, start, args).value; HasCall(e.text, e.next, names)
    decreases Left(x, n), |s| - start, 1
  {
    var r := ExpandMacro(x, n, s, start, args);
    if name :| name in names && CallAt(s, start, name) {
      CallFails(x, n, names, s, start, name, args);
    } else {
      CallInside(s, start, names);
      ArgsLeave(x, n, names, s, start, start + 2, start + 2, [], args, r.value);
    }
  }

  // The first of the names cannot be expanded: what comes before the end of its name is the name itself.
  lemma {:induction false} CallFails(x: Env, n: Counts, names: set<string>, s: string, start: nat, name: string,
                                     args: seq<string>)
    requires ValidCounts(x, n) && Recursive(x, names) && name in names && CallAt(s, start, name)
    ensures ExpandMacro(x, n, s, start, args) == None
    decreases Left(x, n), |s| - start, 0
  {
    var i, r := start + 2, ExpandMacro(x, n, s, start, args);
    var end := i + |name|;
    NameEnds(s, i, end);
    if s[end] == ')' {
      assert [] + [s[i..end]] == [name];
      NamedFails(x, n, names, [name], args);
    } else {
      var next := end + 1;
      assert [name] == [] + [s[i..end]];
      ArgumentEnds(x, n, s, start, i, i, [], args, end, next, [name], r);
      NamedArgsFail(x, n, names, s, start, next, next, [name], args);
    }
  }

  lemma {:induction false} NameEnds(s: string, i: nat, end: nat)
    requires i <= end < |s| && SpecialAt(s, end) && forall p :: i <= p < end ==> !SpecialAt(s, p)
    ensures FindSpecial(s, i) == Some(end)
    decreases end - i
  {
    if i < end {
      NameEnds(s, i + 1, end);
    }
  }

  lemma {:induction false} NamedFails(x: Env, n: Counts, names: set<string>, newArgs: seq<string>, args: seq<string>)
    requires ValidCounts(x, n) && Recursive(x, names) && newArgs != [] && newArgs[0] in names
    ensures MacroValue(x, n, newArgs, args) == None
    decreases Left(x, n), 0, 1
  {
    RecursionFails(x, n, names, newArgs);
  }

  // However many arguments there are.
  lemma {:induction false} NamedArgsFail(x: Env, n: Counts, names: set<string>, s: string, start: nat, argStart: nat,
                                         i: nat, newArgs: seq<string>, args: seq<string>)
    requires ValidCounts(x, n) && Recursive(x, names) && start + 2 <= argStart <= i <= |s|
    requires newArgs != [] && newArgs[0] in names
    ensures ExpandArgs(x, n, s, start, argStart, i, newArgs, args) == None
    decreases Left(x, n), |s| - i, 1
  {
    var k, r := FindSpecial(s, i), ExpandArgs(x, n, s, start, argStart, i, newArgs, args);
    if k.Some? {
      if s[k.value] == ')' {
        NamedFails(x, n, names, newArgs + [s[argStart..k.value]], args);
      } else if s[k.value] == ',' {
        NamedArgsFail(x, n, names, s, start, k.value + 1, k.value + 1, newArgs + [s[argStart..k.value]], args);
      } else {
        var e := ExpandMacro(x, n, s, k.value, args);
        MacroInside(x, n, s, start, argStart, i, newArgs, args, k.value, e, r);
        if e.Some? {
          NamedArgsFail(x, n, names, e.value.text, start, argStart, e.value.next, newArgs, args);
        }
      }
    }
  }

  // While the arguments of a macro are looked at.
  lemma {:induction false} ArgsLeave(x: Env, n: Counts, names: set<string>, s: string, start: nat, argStart: nat,
                                     i: nat, newArgs: seq<string>, args: seq<string>, r: Expanded)
    requires ValidCounts(x, n) && Recursive(x, names) && start + 2 <= argStart <= i <= |s|
    requires Leads(x, n, s, start, argStart, i, newArgs, args, Some(r)) && HasCall(s, i, names)
    ensures HasCall(r.text, r.next, names)
    decreases Left(x, n), |s| - i, 3
  {
    var k := FindSpecial(s, i).value;
    if s[k] == ')' {
      var val := MacroValue(x, n, newArgs + [s[argStart..k]], args);
      MacroEnds(x, n, s, start, argStart, i, newArgs, args, k, val, Some(r));
      EndLeaves(s, start, i, k, val.value, names);
    } else if s[k] == ',' {
      var next, more := k + 1, newArgs + [s[argStart..k]];
      ArgumentEnds(x, n, s, start, argStart, i, newArgs, args, k, next, more, Some(r));
      SpecialPassed(s, i, k);
      CallLater(s, i, next, names);
      ArgsLeave(x, n, names, s, start, next, next, more, args, r);
    } else {
      InsideLeaves(x, n, names, s, start, argStart, i, newArgs, args, k, r);
    }
  }

  lemma {:induction false} InsideLeaves(x: Env, n: Counts, names: set<string>, s: string, start: nat, argStart: nat,
                                        i: nat, newArgs: seq<string>, args: seq<string>, k: nat, r: Expanded)
    requires ValidCounts(x, n) && Recursive(x, names) && start + 2 <= argStart <= i <= |s|
    requires Leads(x, n, s, start, argStart, i, newArgs, args, Some(r)) && HasCall(s, i, names)
    requires FindSpecial(s, i) == Some(k) && s[k] != ')' && s[k] != ','
    ensures HasCall(r.text, r.next, names)
    decreases Left(x, n), |s| - i, 2
  {
    var e := ExpandMacro(x, n, s, k, args);
    MacroInside(x, n, s, start, argStart, i, newArgs, args, k, e, Some(r));
    SpecialPassed(s, i, k);
    CallLater(s, i, k, names);
    MacroLeaves(x, n, names, s, k, args);
    ArgsLeave(x, n, names, e.value.text, start, argStart, e.value.next, newArgs, args, r);
  }

  // A reference is still there when other text has been passed.
  lemma CallLater(s: string, i: nat, next: nat, names: set<string>)
    requires HasCall(s, i, names) && i <= next <= |s|
    requires forall j :: i <= j < next ==> !MacroAt(s, j)
    ensures HasCall(s, next, names)
  {
    var j, name :| i <= j && name in names && CallAt(s, j, name);
    assert MacroAt(s, j);
  }

  lemma CallInside(s: string, start: nat, names: set<string>)
    requires MacroAt(s, start) && HasCall(s, start, names) && forall name :: name in names ==> !CallAt(s, start, name)
    ensures HasCall(s, start + 2, names)
  {
    var j, name :| start <= j && name in names && CallAt(s, j, name);
    assert MacroAt(s, j) && j != start + 1;
    assert start + 2 <= j && CallAt(s, j, name);
  }

  lemma SpecialPassed(s: string, i: nat, k: nat)
    requires i <= |s| && FindSpecial(s, i) == Some(k)
    ensures forall j :: i <= j < k ==> !MacroAt(s, j)
    ensures s[k] != '$' ==> forall j :: i <= j < k + 1 ==> !MacroAt(s, j)
  {
    forall j | i <= j < k ensures !MacroAt(s, j) {
      assert !SpecialAt(s, j);
    }
  }

  // The end of a macro leaves the references that come after it.
  lemma EndLeaves(s: string, start: nat, i: nat, k: nat, val: string, names: set<string>)
    requires start <= i <= |s| && FindSpecial(s, i) == Some(k) && s[k] == ')' && HasCall(s, i, names)
    ensures HasCall(s[..start] + val + s[k + 1..], start + |val|, names)
  {
    SpecialPassed(s, i, k);
    CallLater(s, i, k + 1, names);
    CallMoves(s, k + 1, s[..start] + val, start + |val|, names);
  }

  lemma CallMoves(s: string, i: nat, prefix: string, at: nat, names: set<string>)
    requires i <= |s| && HasCall(s, i, names) && at == |prefix|
    ensures HasCall(prefix + s[i..], at, names)
  {
    var j, name :| i <= j && name in names && CallAt(s, j, name);
    var moved, to: nat := prefix + s[i..], at + (j - i);
    assert moved[to..] == s[j..];
    CallInRest(s, j, name);
    CallInRest(moved, to, name);
    assert at <= to && CallAt(moved, to, name);
  }

  // Whether a macro begins at `j` depends on nothing before.
  lemma CallInRest(s: string, j: nat, name: string)
    requires j <= |s|
    ensures CallAt(s, j, name) <==> CallAt(s[j..], 0, name)
  {
    var rest, end := s[j..], j + 2 + |name|;
    if end < |s| {
      assert rest[2..2 + |name|] == s[j + 2..end];
      assert forall p :: 0 <= p < |rest| ==> (SpecialAt(rest, p) <==> SpecialAt(s, j + p));
      assert forall p :: j <= p < end ==> (SpecialAt(s, p) <==> SpecialAt(rest, p - j));
    }
  }

  // ---------- With the counters in place ----------

  class Preprocessor {
    const x: Env
    var counts: Counts

    ghost predicate Valid()
      reads this
    {
      ValidCounts(x, counts)
    }

    // The counters are unchanged after a success, and within bounds after an error.
    twostate predicate Restored(success: bool)
      reads this
    {
      Valid() && (success ==> counts == old(counts))
    }

    constructor (x: Env)
      ensures Valid() && this.x == x && forall v :: v in counts ==> counts[v] == 0
    {
      this.x := x;
      counts := map v | v in x.variables :: 0;
    }

    // _expand_whole()
    method ExpandWhole(text: string, args: seq<string>) returns (r: Option<string>)
      requires Valid()
      modifies this
      ensures Restored(r.Some?) && r == ExpandFrom(x, old(counts), text, 0, args)
      decreases Left(x, counts), |text|, 1
    {
      var s, i := text, 0;
      while true
        invariant counts == old(counts) && 0 <= i <= |s| && |s| - i <= |text|
        invariant ExpandFrom(x, counts, s, i, args) == ExpandFrom(x, counts, text, 0, args)
        decreases |s| - i
      {
        var k := FindMacro(s, i);
        if k.None? {
          break;
        }
        var e := Expand(s, k.value, args);
        if e.None? {
          return None;
        }
        s, i := e.value.text, e.value.next;
      }
      r := Some(s);
    }

    // _expand_macro()
    method Expand(text: string, start: nat, args: seq<string>) returns (r: Option<Expanded>)
      requires Valid() && MacroAt(text, start)
      modifies this
      ensures Restored(r.Some?) && r == ExpandMacro(x, old(counts), text, start, args)
      decreases Left(x, counts), |text| - start, 0
    {
      var s, i, argStart := text, start + 2, start + 2;
      var newArgs: seq<string> := [];
      ghost var goal := ExpandMacro(x, counts, text, start, args);
      while true
        invariant counts == old(counts) && start + 2 <= argStart <= i <= |s| && |s| - i <= |text| - start - 2
        invariant Leads(x, counts, s, start, argStart, i, newArgs, args, goal)
        decreases |s| - i
      {
        var k := FindSpecial(s, i);
        if k.None? {
          return None;
        }
        if s[k.value] == ')' {
          var val := ArgumentOrValue(newArgs + [s[argStart..k.value]], args);
          MacroEnds(x, old(counts), s, start, argStart, i, newArgs, args, k.value, val, goal);
          return if val.None? then None
                 else Some(Expanded(s[..start] + val.value + s[k.value + 1..], start + |val.value|));
        } else if s[k.value] == ',' {
          var next, more := k.value + 1, newArgs + [s[argStart..k.value]];
          ArgumentEnds(x, counts, s, start, argStart, i, newArgs, args, k.value, next, more, goal);
          i, argStart, newArgs := next, next, more;
        } else {
          var e := Expand(s, k.value, args);
          MacroInside(x, old(counts), s, start, argStart, i, newArgs, args, k.value, e, goal);
          if e.None? {
            return None;
          }
          s, i := e.value.text, e.value.next;
        }
      }
    }

    method ArgumentOrValue(newArgs: seq<string>, args: seq<string>) returns (r: Option<string>)
      requires Valid() && newArgs != []
      modifies this
      ensures Restored(r.Some?) && r == MacroValue(x, old(counts), newArgs, args)
      decreases Left(x, counts), 0, 1
    {
      var number := x.toInt(newArgs[0]);
      if number.Some? && -|args| <= number.value < |args| {
        r := Some(args[if number.value < 0 then |args| + number.value else number.value]);
      } else {
        r := Value(newArgs);
      }
    }

    // _fn_val()
    method Value(args: seq<string>) returns (r: Option<string>)
      requires Valid() && args != []
      modifies this
      ensures Restored(r.Some?) && r == FnVal(x, old(counts), args)
      decreases Left(x, counts), 0, 0
    {
      var fn := args[0];
      if fn in x.variables {
        if |args| == 1 {
          if counts[fn] != 0 {
            return None;
          }
        } else if counts[fn] > 100 {
          return None;
        }
        OneMoreExpansion(x, counts, fn);
        counts := counts[fn := counts[fn] + 1];
        r := ExpandWhole(x.variables[fn], args);
        if r.Some? {
          counts := counts[fn := counts[fn] - 1];
        }
        return;
      }
      if fn in x.functions {
        var f := x.functions[fn];
        if |args| - 1 < f.minArgs || (f.maxArgs.Some? && |args| - 1 > f.maxArgs.value) {
          return None;
        }
        return f.run(args);
      }
      return Some(if fn in x.environment then x.environment[fn] else "");
    }
  }
}
