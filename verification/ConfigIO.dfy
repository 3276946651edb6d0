/** Writing and loading .config files with a live configuration. */
module ConfigIO {
  import opened Wrappers
  import opened Model
  import opened Numbers
  import opened Values
  import opened Support
  import opened Transfer
  import opened Reference
  import opened CacheInvariant
  import opened Assignments
  import opened Persistence
  import opened ConfigLines
  import opened ConfigFile
  import opened LoadedUsers
  import opened RoundTrip
  import opened Engine
  import opened Sessions

  ghost predicate HeadingOk(k: Config, e: Expr) {
    Refs(e) <= Ids(k) && RelOk(k, e)
  }

  ghost predicate StepOk(k: Config, step: Step) {
    match step
    case AtSymbol(x) => DefinedSymbol(k, x)
    case AtHeading(_, shown) => HeadingOk(k, shown)
    case LeavingMenu(_, shown) => HeadingOk(k, shown)
  }

  lemma HeadingFits(k: Config, e: Expr)
    requires HeadingOk(k, e)
    ensures Fits(k, Highest(k.order) + 1, e)
  {
    forall y | y in Refs(e) ensures k.Rank(y) < Highest(k.order) + 1 {
      RankBounded(k, y);
    }
  }

  method IsShown(kconfig: Kconfig, e: Expr) returns (shown: bool)
    requires kconfig.Valid() && HeadingOk(kconfig.k, e)
    modifies kconfig, kconfig.items
    ensures kconfig.Valid() && kconfig.settings == old(kconfig.settings)
    ensures shown == (ExprValue(kconfig.k, kconfig.S().v, e) != 0)
  {
    HeadingFits(kconfig.k, e);
    var t := kconfig.EvalExpr(e, Highest(kconfig.k.order) + 1);
    shown := t != 0;
  }

  // config_string
  method GetConfigString(kconfig: Kconfig, x: Id) returns (line: Option<string>)
    requires kconfig.Valid() && DefinedSymbol(kconfig.k, x)
    modifies kconfig, kconfig.items
    ensures kconfig.Valid() && kconfig.settings == old(kconfig.settings)
    ensures line == ConfigString(kconfig.k, kconfig.S().v, x)
  {
    var val, write := kconfig.GetTextAndWrite(x);
    var it := kconfig.k.Item(x);
    if !write {
      line := None;
    } else if it.Logical() {
      line := Some(if val != "n" then SetLine(it.name, val) else UnsetLine(it.name));
    } else if it.Numeric() {
      line := Some(SetLine(it.name, val));
    } else {
      line := Some(SetLine(it.name, "\"" + Escape(val) + "\""));
    }
  }

  // What one step adds to the file.
  function StepLines(k: Config, v: Valuation, step: Step, visited: set<Id>, afterEnd: bool)
    : (seq<string>, set<Id>, bool)
  {
    match step
    case AtSymbol(x) =>
      var line := ConfigString(k, v, x);
      if x in visited || line.None? then ([], visited + {x}, afterEnd)
      else (if afterEnd then ["", line.value] else [line.value], visited + {x}, false)
    case AtHeading(title, shown) =>
      if ExprValue(k, v, shown) != 0 then (HeadingLines(title), visited, false) else ([], visited, afterEnd)
    case LeavingMenu(title, shown) =>
      if ExprValue(k, v, shown) != 0 then (["# end of " + title], visited, true) else ([], visited, afterEnd)
  }

  lemma StepWritten(k: Config, v: Valuation, steps: seq<Step>, i: nat, next: nat, visited: set<Id>, afterEnd: bool,
                    lines: seq<string>)
    requires i < |steps| && next == i + 1
    ensures var (more, seen, after) := StepLines(k, v, steps[i], visited, afterEnd);
            lines + ConfigBody(k, v, steps[i..], visited, afterEnd)
            == (lines + more) + ConfigBody(k, v, steps[next..], seen, after)
  {
    var (more, seen, after) := StepLines(k, v, steps[i], visited, afterEnd);
    assert steps[i..][1..] == steps[next..] && steps[i..][0] == steps[i];
    var rest := ConfigBody(k, v, steps[next..], seen, after);
    assert ConfigBody(k, v, steps[i..], visited, afterEnd) == more + rest by {
      match steps[i]
      case AtSymbol(x) =>
        if x in visited {
          assert visited + {x} == visited;
        }
      case _ =>
    }
    assert lines + (more + rest) == (lines + more) + rest;
  }

  method WriteStep(kconfig: Kconfig, step: Step, visited: set<Id>, afterEnd: bool)
      returns (lines: seq<string>, seen: set<Id>, after: bool)
    requires kconfig.Valid() && StepOk(kconfig.k, step)
    modifies kconfig, kconfig.items
    ensures kconfig.Valid() && kconfig.settings == old(kconfig.settings)
    ensures (lines, seen, after) == StepLines(kconfig.k, kconfig.S().v, step, visited, afterEnd)
  {
    lines, seen, after := [], visited, afterEnd;
    match step
    case AtSymbol(x) =>
      if x !in visited {
        var line := GetConfigString(kconfig, x);
        if line.Some? {
          lines, after := if afterEnd then ["", line.value] else [line.value], false;
        }
      }
      seen := visited + {x};
    case AtHeading(title, shown) =>
      var show := IsShown(kconfig, shown);
      if show {
        lines, after := HeadingLines(title), false;
      }
    case LeavingMenu(title, shown) =>
      var show := IsShown(kconfig, shown);
      if show {
        lines, after := ["# end of " + title], true;
      }
  }

  // The lines after some steps, with the symbols that have been visited, and whether the last line is the end
  // of a menu.
  function AfterSteps(k: Config, v: Valuation, header: seq<string>, steps: seq<Step>): (seq<string>, set<Id>, bool)
    decreases |steps|
  {
    if steps == [] then (header, {}, false)
    else
      var last := |steps| - 1;
      var (lines, visited, afterEnd) := AfterSteps(k, v, header, steps[..last]);
      var (more, seen, after) := StepLines(k, v, steps[last], visited, afterEnd);
      (lines + more, seen, after)
  }

  // Step by step, the file comes about that the steps call for.
  lemma {:induction false} WrittenUpTo(k: Config, v: Valuation, header: seq<string>, steps: seq<Step>, i: nat)
    requires i <= |steps|
    ensures var (lines, visited, afterEnd) := AfterSteps(k, v, header, steps[..i]);
      ConfigContents(k, v, header, steps) == lines + ConfigBody(k, v, steps[i..], visited, afterEnd)
    decreases i
  {
    if i == 0 {
      assert steps[0..] == steps;
    } else {
      var prev := i - 1;
      var (lines, visited, afterEnd) := AfterSteps(k, v, header, steps[..prev]);
      WrittenUpTo(k, v, header, steps, prev);
      StepWritten(k, v, steps, prev, i, visited, afterEnd, lines);
      assert steps[..i][..prev] == steps[..prev] && steps[..i][prev] == steps[prev];
    }
  }

  lemma WrittenAll(k: Config, v: Valuation, header: seq<string>, steps: seq<Step>)
    ensures AfterSteps(k, v, header, steps).0 == ConfigContents(k, v, header, steps)
  {
    WrittenUpTo(k, v, header, steps, |steps|);
    assert steps[..|steps|] == steps;
  }

  lemma OneMoreWritten(k: Config, v: Valuation, header: seq<string>, steps: seq<Step>, step: Step, more: seq<Step>)
    requires more == steps + [step]
    ensures var (lines, visited, afterEnd) := AfterSteps(k, v, header, steps);
            var (added, seen, after) := StepLines(k, v, step, visited, afterEnd);
            AfterSteps(k, v, header, more) == (lines + added, seen, after)
  {
    assert more[..|more| - 1] == steps && more[|more| - 1] == step;
  }

  lemma AddedOn(before: seq<Step>, more: seq<Step>, i: nat, next: nat)
    requires i < |more| && next == i + 1
    ensures (before + more[..i]) + [more[i]] == before + more[..next] && more[i] in more
  {
  }

  ghost predicate StepsOk(k: Config, steps: seq<Step>) {
    forall step :: step in steps ==> StepOk(k, step)
  }

  // The state of _config_contents(): what has been written, the symbols that have been visited, and whether
  // the last line is the end of a menu.
  class Writer {
    const kconfig: Kconfig
    const header: seq<string>
    var lines: seq<string>
    var visited: set<Id>
    var afterEnd: bool
    ghost var steps: seq<Step>

    ghost predicate Valid()
      reads this, kconfig, kconfig.items
    {
      kconfig.Valid() && (lines, visited, afterEnd) == AfterSteps(kconfig.k, kconfig.S().v, header, steps)
    }

    constructor (kconfig: Kconfig, header: seq<string>)
      requires kconfig.Valid()
      ensures Valid() && this.kconfig == kconfig && this.header == header && steps == []
    {
      this.kconfig, this.header, lines, visited, afterEnd, steps := kconfig, header, header, {}, false, [];
    }

    method Add(step: Step)
      requires Valid() && StepOk(kconfig.k, step)
      modifies this, kconfig, kconfig.items
      ensures Valid() && steps == old(steps) + [step] && kconfig.settings == old(kconfig.settings)
    {
      ghost var more := steps + [step];
      OneMoreWritten(kconfig.k, kconfig.S().v, header, steps, step, more);
      var added, seen, after := WriteStep(kconfig, step, visited, afterEnd);
      lines, visited, afterEnd, steps := lines + added, seen, after, more;
    }

    method AddAll(more: seq<Step>)
      requires Valid() && StepsOk(kconfig.k, more)
      modifies this, kconfig, kconfig.items
      ensures Valid() && steps == old(steps) + more && kconfig.settings == old(kconfig.settings)
    {
      ghost var before := steps;
      for i := 0 to |more|
        invariant Valid() && steps == before + more[..i] && kconfig.settings == old(kconfig.settings)
      {
        ghost var next := i + 1;
        AddedOn(before, more, i, next);
        Add(more[i]);
      }
      assert more[..|more|] == more;
    }

    // The file, once all steps have been made.
    method Contents() returns (contents: seq<string>)
      requires Valid()
      ensures contents == ConfigContents(kconfig.k, kconfig.S().v, header, steps)
    {
      WrittenAll(kconfig.k, kconfig.S().v, header, steps);
      contents := lines;
    }
  }

  // ---------- Loading ----------

  lemma OnlySetChanges(k: Config, st: seq<Setting>, c: Cache, x: Id, set_: bool)
    requires Coherent(k, st, c) && x < |st|
    ensures Coherent(k, st[x := st[x].(wasSet := set_)], c)
  {
    assert UsersIn(st[x := st[x].(wasSet := set_)]) == UsersIn(st);
  }

  // The first `n` elements are those of `done`, and the others still those of `before`.
  ghost predicate Replaced(now: seq<Setting>, done: seq<Setting>, before: seq<Setting>, n: int) {
    && |now| == |done| == |before|
    && (forall y :: 0 <= y < |now| && y < n ==> now[y] == done[y])
    && (forall y :: 0 <= y < |now| && n <= y ==> now[y] == before[y])
  }

  method ForgetOne(kconfig: Kconfig, x: Id)
    requires kconfig.Valid() && x < |kconfig.items|
    modifies kconfig, kconfig.items
    ensures kconfig.Valid()
    ensures kconfig.settings == old(kconfig.settings)[x := NothingSet(kconfig.k, old(kconfig.settings))[x]]
  {
    if Variable(kconfig.k.Item(x)) {
      OnlySetChanges(kconfig.k, kconfig.settings, kconfig.cache, x, false);
      kconfig.StoreUser(x, kconfig.items[x].userValue, kconfig.items[x].userSelection, false);
    }
  }

  // Forgets which symbols and choices were set.
  method ForgetSet(kconfig: Kconfig)
    requires kconfig.Valid()
    modifies kconfig, kconfig.items
    ensures kconfig.Valid() && kconfig.settings == NothingSet(kconfig.k, old(kconfig.settings))
  {
    ghost var before := kconfig.settings;
    ghost var done := NothingSet(kconfig.k, before);
    var x := 0;
    while x < |kconfig.items|
      invariant kconfig.Valid() && 0 <= x <= |kconfig.items| && Replaced(kconfig.settings, done, before, x)
    {
      ForgetOne(kconfig, x);
      x := x + 1;
    }
    assert kconfig.settings == done;
  }

  method SetValue(kconfig: Kconfig, x: Id, value: UserValue)
    requires kconfig.Valid() && x < |kconfig.items|
    modifies kconfig, kconfig.items
    ensures kconfig.Valid() && kconfig.settings == SetTo(kconfig.k, old(kconfig.settings), x, value)
  {
    if kconfig.k.Item(x).Symbol? {
      var ok := kconfig.SetSymbolValue(x, value);
    } else {
      var ok := kconfig.SetChoiceValue(x, value);
    }
  }

  method LoadValue(kconfig: Kconfig, x: Id, value: string)
    requires kconfig.Valid() && x < |kconfig.items|
    modifies kconfig, kconfig.items
    ensures kconfig.Valid() && kconfig.settings == LoadAssignment(kconfig.k, old(kconfig.settings), x, value)
  {
    var it := kconfig.k.Item(x);
    if it.Logical() {
      if ValidStart(it, value) {
        if it.InChoice() && value[0] != 'n' && it.choice.value < |kconfig.items| {
          SetValue(kconfig, it.choice.value, StrValue(value[..1]));
        }
        SetValue(kconfig, x, StrValue(value[..1]));
      }
    } else if it.origType == STRING {
      var contents := ConfString(value);
      if contents.Some? {
        SetValue(kconfig, x, StrValue(Unescape(contents.value)));
      }
    } else {
      SetValue(kconfig, x, StrValue(value));
    }
  }

  method LoadOneLine(kconfig: Kconfig, line: string)
    requires kconfig.Valid()
    modifies kconfig, kconfig.items
    ensures kconfig.Valid() && kconfig.settings == LoadLine(kconfig.k, old(kconfig.settings), line)
  {
    var trimmed := StripRight(line);
    var assignment := SetMatch(trimmed);
    if assignment.Some? {
      var x := Lookup(kconfig.k, assignment.value.name, |kconfig.k.items|);
      if x.Some? && x.value < |kconfig.items| {
        LoadValue(kconfig, x.value, assignment.value.value);
      }
    } else {
      var unset := UnsetMatch(trimmed);
      if unset.Some? {
        var x := Lookup(kconfig.k, unset.value, |kconfig.k.items|);
        if x.Some? && x.value < |kconfig.items| && kconfig.k.Item(x.value).Logical() {
          SetValue(kconfig, x.value, StrValue("n"));
        }
      }
    }
  }

  method UnsetOne(kconfig: Kconfig, x: Id)
    requires kconfig.Valid() && x < |kconfig.items|
    modifies kconfig, kconfig.items
    ensures kconfig.Valid()
    ensures kconfig.settings == old(kconfig.settings)[x := UnsetOthers(kconfig.k, old(kconfig.settings))[x]]
  {
    if Variable(kconfig.k.Item(x)) && !kconfig.items[x].wasSet {
      if kconfig.k.Item(x).Symbol? {
        kconfig.UnsetSymbolValue(x);
      } else {
        kconfig.UnsetChoiceValue(x);
      }
    }
  }

  method UnsetRest(kconfig: Kconfig)
    requires kconfig.Valid()
    modifies kconfig, kconfig.items
    ensures kconfig.Valid() && kconfig.settings == UnsetOthers(kconfig.k, old(kconfig.settings))
  {
    ghost var before := kconfig.settings;
    ghost var done := UnsetOthers(kconfig.k, before);
    var x := 0;
    while x < |kconfig.items|
      invariant kconfig.Valid() && 0 <= x <= |kconfig.items| && Replaced(kconfig.settings, done, before, x)
    {
      UnsetOne(kconfig, x);
      x := x + 1;
    }
    assert kconfig.settings == done;
  }

  // _load_config()
  method LoadConfig(kconfig: Kconfig, lines: seq<string>, replace: bool)
    requires kconfig.Valid()
    modifies kconfig, kconfig.items
    ensures kconfig.Valid()
    ensures kconfig.settings == if replace then Loaded(kconfig.k, old(kconfig.settings), lines)
                                else LoadLines(kconfig.k, old(kconfig.settings), lines)
  {
    if replace {
      ForgetSet(kconfig);
    }
    LoadAll(kconfig, lines);
    if replace {
      UnsetRest(kconfig);
    }
  }

  // The lines, one after the other.
  method LoadAll(kconfig: Kconfig, lines: seq<string>)
    requires kconfig.Valid()
    modifies kconfig, kconfig.items
    ensures kconfig.Valid() && kconfig.settings == LoadLines(kconfig.k, old(kconfig.settings), lines)
  {
    assert lines[0..] == lines;
    for i := 0 to |lines|
      invariant kconfig.Valid()
      invariant LoadLines(kconfig.k, kconfig.settings, lines[i..]) == LoadLines(kconfig.k, old(kconfig.settings), lines)
    {
      assert lines[i..][0] == lines[i] && lines[i..][1..] == lines[i + 1..];
      LoadOneLine(kconfig, lines[i]);
    }
  }

  // ---------- Round trip ----------

  lemma LoadedIsReload(k: Config, us: Users, st: seq<Setting>, header: seq<string>, steps: seq<Step>)
    requires Good(k, us) && UsersTyped(k, us) && |st| == |k.items|
    requires ProperChoices(k) && UniqueNames(k) && Textual(k, Evaluate(k, us))
    requires CompleteWalk(k, steps) && HeaderInert(header)
    requires Good(k, UsersIn(Loaded(k, st, ConfigContents(k, Evaluate(k, us), header, steps))))
    ensures Reload(k, us, UsersIn(Loaded(k, st, ConfigContents(k, Evaluate(k, us), header, steps))))
  {
    EvaluatedLinesAgree(k, us, Written(k, Evaluate(k, us)));
    FileLoads(k, Evaluate(k, us), st, header, steps);
  }

  // After any operations a file is written; after any further operations it is loaded.  Then everything has
  // the values again that it had when the file was written, if these were restorable.
  method SaveAndRestore(k: Config, ops: seq<Op>, others: seq<Op>, header: seq<string>, steps: seq<Step>, x: Id)
      returns (before: string, after: string)
    requires WellFormed(k) && Ordered(k) && ProperChoices(k) && UniqueNames(k) && DefinedSymbol(k, x)
    requires CompleteWalk(k, steps) && HeaderInert(header) && StepsOk(k, steps)
    requires Textual(k, Evaluate(k, UsersAfter(k, ops)))
    ensures before == ValOf(Evaluate(k, UsersAfter(k, ops)), x).str
    ensures (forall y: Id :: y < |k.items| ==> Restorable(k, Evaluate(k, UsersAfter(k, ops)), y)) ==> after == before
  {
    var kconfig := new Kconfig(k);
    PerformAll(kconfig, ops);
    ghost var us := UsersIn(kconfig.settings);
    var lines;
    before, lines := ReadAndWrite(kconfig, header, steps, x);
    PerformAll(kconfig, others);
    ghost var st := kconfig.settings;
    LoadConfig(kconfig, lines, true);
    LoadedIsReload(k, us, st, header, steps);
    ReloadExact(k, us, UsersIn(kconfig.settings));
    after := kconfig.GetStrValue(x);
  }

  method ReadAndWrite(kconfig: Kconfig, header: seq<string>, steps: seq<Step>, x: Id)
      returns (val: string, lines: seq<string>)
    requires kconfig.Valid() && DefinedSymbol(kconfig.k, x)
    requires StepsOk(kconfig.k, steps)
    modifies kconfig, kconfig.items
    ensures kconfig.Valid() && kconfig.settings == old(kconfig.settings)
    ensures val == ValOf(kconfig.S().v, x).str
    ensures lines == ConfigContents(kconfig.k, kconfig.S().v, header, steps)
  {
    val := kconfig.GetStrValue(x);
    var writer := new Writer(kconfig, header);
    writer.AddAll(steps);
    assert writer.steps == steps;
    lines := writer.Contents();
  }
}
