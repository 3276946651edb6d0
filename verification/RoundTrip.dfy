/** Loading a .config file that has been written restores all values, under one condition.

    A symbol that is visible may still have a value that cannot be assigned to it: `default y` gives y to a
    symbol that is only visible with m.  Loading the file turns such a value into a user value, which is
    then limited by the visibility.  And the mode of a choice is not written, but inferred from symbols
    that are not n, so that it gets lost if there are none. */
module RoundTrip {
  import opened Wrappers
  import opened Model
  import opened Numbers
  import opened Values
  import opened Support
  import opened Transfer
  import opened Reference
  import opened CacheInvariant
  import opened Assignments
  import opened Comparison
  import opened ChoiceModes
  import opened ConfigLines
  import opened ConfigFile
  import opened LoadedUsers

  // The symbols that are written.
  ghost function Written(k: Config, v: Valuation): set<Id> {
    set x: Id | x < |k.items| && DefinedSymbol(k, x) && ConfigString(k, v, x).Some?
  }

  // The user value that loading the file gives to a symbol.
  function Kept(k: Config, v: Valuation, x: Id): Option<UserValue> {
    if ConfigString(k, v, x).None? then None else LineValue(k, v, x)
  }

  // ---------- What the loader makes of the file ----------

  function SymbolsIn(steps: seq<Step>): set<Id>
    decreases |steps|
  {
    if steps == [] then {}
    else (if steps[0].AtSymbol? then {steps[0].sym} else {}) + SymbolsIn(steps[1..])
  }

  // Those symbols of `xs` that have a line.
  ghost function Lined(k: Config, v: Valuation, xs: set<Id>): set<Id> {
    set x | x in xs && ConfigString(k, v, x).Some?
  }

  // No title is written as a line that sets a symbol to n.
  ghost predicate TitlesInert(steps: seq<Step>) {
    forall i :: 0 <= i < |steps| && steps[i].AtHeading? ==> Inert("# " + steps[i].title)
  }

  ghost predicate SymbolSteps(k: Config, steps: seq<Step>) {
    forall i :: 0 <= i < |steps| && steps[i].AtSymbol? ==> DefinedSymbol(k, steps[i].sym)
  }

  lemma EndCommentInert(title: string)
    ensures Inert("# end of " + title)
  {
    var line := "# end of " + title;
    assert StripRight(line) <= line && line[2] == 'e' && UNSET_PREFIX[2] == 'C' && PREFIX[0] == 'C' && line[0] == '#';
  }

  lemma HeadingInert(title: string)
    requires Inert("# " + title)
    ensures forall i :: 0 <= i < |HeadingLines(title)| ==> Inert(HeadingLines(title)[i])
  {
    assert StripRight("#") == "#" && StripRight("") == "";
  }

  // Loading what is written for the steps of a walk loads the lines of the symbols that it comes by.
  lemma {:induction false} BodyLoads(k: Config, v: Valuation, before: seq<Setting>, now: seq<Setting>, steps: seq<Step>,
                                     visited: set<Id>, afterEnd: bool)
    requires UniqueNames(k) && LinesAgree(k, v, Written(k, v)) && TitlesInert(steps) && SymbolSteps(k, steps)
    requires Loading(k, v, before, now, Lined(k, v, visited)) && Lined(k, v, visited) <= Written(k, v)
    ensures Loading(k, v, before, LoadLines(k, now, ConfigBody(k, v, steps, visited, afterEnd)),
                    Lined(k, v, visited + SymbolsIn(steps)))
    decreases |steps|, 0
  {
    if steps == [] {
      assert visited + SymbolsIn(steps) == visited;
    } else {
      var rest := steps[1..];
      if steps[0].AtSymbol? {
        var x := steps[0].sym;
        assert visited + {x} + SymbolsIn(rest) == visited + SymbolsIn(steps);
        if x in visited {
          assert visited + {x} == visited;
          BodyLoads(k, v, before, now, rest, visited, afterEnd);
        } else {
          SymbolLoads(k, v, before, now, rest, visited, afterEnd, x);
          assert ConfigBody(k, v, steps, visited, afterEnd) == SymbolBody(k, v, rest, visited, afterEnd, x);
        }
      } else {
        assert visited + SymbolsIn(rest) == visited + SymbolsIn(steps);
        BodyLoads(k, v, before, now, rest, visited, EndCommentLast(k, v, steps[0], afterEnd));
        HeadingLoads(k, v, now, steps, visited, afterEnd);
      }
    }
  }

  // Whether the last line was the comment at the end of a menu.
  function EndCommentLast(k: Config, v: Valuation, step: Step, afterEnd: bool): bool
    requires !step.AtSymbol?
  {
    if ExprValue(k, v, step.shown) != 0 then step.LeavingMenu? else afterEnd
  }

  // Headings and comments have no effect.
  lemma HeadingLoads(k: Config, v: Valuation, now: seq<Setting>, steps: seq<Step>, visited: set<Id>, afterEnd: bool)
    requires |now| == |k.items| && steps != [] && !steps[0].AtSymbol? && TitlesInert(steps)
    ensures LoadLines(k, now, ConfigBody(k, v, steps, visited, afterEnd))
         == LoadLines(k, now, ConfigBody(k, v, steps[1..], visited, EndCommentLast(k, v, steps[0], afterEnd)))
  {
    var title, shown := steps[0].title, ExprValue(k, v, steps[0].shown) != 0;
    var body := ConfigBody(k, v, steps[1..], visited, EndCommentLast(k, v, steps[0], afterEnd));
    if shown && steps[0].AtHeading? {
      HeadingInert(title);
      InertFirst(k, now, HeadingLines(title), body);
    } else if shown {
      EndCommentInert(title);
      InertFirst(k, now, ["# end of " + title], body);
    }
  }

  // What is written from a symbol on that has not been visited yet.
  function SymbolBody(k: Config, v: Valuation, rest: seq<Step>, visited: set<Id>, afterEnd: bool, x: Id): seq<string> {
    var line := ConfigString(k, v, x);
    if line.None? then ConfigBody(k, v, rest, visited + {x}, afterEnd)
    else (if afterEnd then ["", line.value] else [line.value]) + ConfigBody(k, v, rest, visited + {x}, false)
  }

  lemma InertFirst(k: Config, st: seq<Setting>, lines: seq<string>, more: seq<string>)
    requires |st| == |k.items| && forall i :: 0 <= i < |lines| ==> Inert(lines[i])
    ensures LoadLines(k, st, lines + more) == LoadLines(k, st, more)
  {
    InertLines(k, st, lines);
    LoadConcat(k, st, lines, more);
  }

  // The first step comes by a symbol for the first time.
  lemma {:induction false} SymbolLoads(k: Config, v: Valuation, before: seq<Setting>, now: seq<Setting>,
                                       rest: seq<Step>, visited: set<Id>, afterEnd: bool, x: Id)
    requires UniqueNames(k) && LinesAgree(k, v, Written(k, v)) && TitlesInert(rest) && SymbolSteps(k, rest)
    requires Loading(k, v, before, now, Lined(k, v, visited)) && Lined(k, v, visited) <= Written(k, v)
    requires DefinedSymbol(k, x) && x !in visited
    ensures Loading(k, v, before, LoadLines(k, now, SymbolBody(k, v, rest, visited, afterEnd, x)),
                    Lined(k, v, visited + {x} + SymbolsIn(rest)))
    decreases |rest|, 1
  {
    var line := ConfigString(k, v, x);
    if line.None? {
      assert Lined(k, v, visited + {x}) == Lined(k, v, visited);
      BodyLoads(k, v, before, now, rest, visited + {x}, afterEnd);
    } else {
      assert Lined(k, v, visited + {x}) == Lined(k, v, visited) + {x};
      LineLoads(k, v, before, now, Written(k, v), Lined(k, v, visited), x);
      var after := LoadLine(k, now, line.value);
      BodyLoads(k, v, before, after, rest, visited + {x}, false);
      SymbolLinesFirst(k, now, after, line.value, afterEnd, ConfigBody(k, v, rest, visited + {x}, false));
    }
  }

  lemma SymbolLinesLoad(k: Config, st: seq<Setting>, after: seq<Setting>, line: string, afterEnd: bool)
    requires |st| == |k.items| && LoadLine(k, st, line) == after
    ensures LoadLines(k, st, if afterEnd then ["", line] else [line]) == after
  {
    assert StripRight("") == "" && Inert("");
    InertLine(k, st, "");
    assert ["", line][1..] == [line] && [line][1..] == [];
    assert LoadLines(k, st, [line]) == after;
  }

  lemma SymbolLinesFirst(k: Config, st: seq<Setting>, after: seq<Setting>, line: string, afterEnd: bool,
                         more: seq<string>)
    requires |st| == |k.items| && LoadLine(k, st, line) == after
    ensures LoadLines(k, st, (if afterEnd then ["", line] else [line]) + more) == LoadLines(k, after, more)
  {
    SymbolLinesLoad(k, st, after, line, afterEnd);
    LoadConcat(k, st, if afterEnd then ["", line] else [line], more);
  }

  // The whole file.
  function ConfigContents(k: Config, v: Valuation, header: seq<string>, steps: seq<Step>): seq<string> {
    header + ConfigBody(k, v, steps, {}, false)
  }

  // The steps of a walk over the menu tree: they come by every defined symbol, and by no other.
  ghost predicate CompleteWalk(k: Config, steps: seq<Step>) {
    && TitlesInert(steps)
    && SymbolSteps(k, steps)
    && (forall x: Id :: DefinedSymbol(k, x) ==> x in SymbolsIn(steps))
  }

  ghost predicate HeaderInert(header: seq<string>) {
    forall i :: 0 <= i < |header| ==> Inert(header[i])
  }

  // After loading, the user values are those that the file keeps, whatever they were before.
  lemma FileLoads(k: Config, v: Valuation, st: seq<Setting>, header: seq<string>, steps: seq<Step>)
    requires WellFormed(k) && UniqueNames(k) && LinesAgree(k, v, Written(k, v))
    requires |st| == |k.items| && CompleteWalk(k, steps) && HeaderInert(header)
    ensures Reloaded(k, v, UsersIn(Loaded(k, st, ConfigContents(k, v, header, steps))), Written(k, v))
  {
    var start := NothingSet(k, st);
    assert Loading(k, v, start, start, Lined(k, v, {}));
    InertLines(k, start, header);
    BodyLoads(k, v, start, start, steps, {}, false);
    LoadConcat(k, start, header, ConfigBody(k, v, steps, {}, false));
    StepsAreDefined(k, steps);
    assert Lined(k, v, {} + SymbolsIn(steps)) == Written(k, v);
    AllLoaded(k, v, st, LoadLines(k, start, ConfigContents(k, v, header, steps)), Written(k, v));
  }

  lemma {:induction false} StepsAreDefined(k: Config, steps: seq<Step>)
    requires SymbolSteps(k, steps)
    ensures forall x :: x in SymbolsIn(steps) ==> DefinedSymbol(k, x)
    decreases |steps|
  {
    if steps != [] {
      StepsAreDefined(k, steps[1..]);
    }
  }

  // ---------- What the kept user values mean ----------

  // The value of a symbol is one that can be assigned: at most the visibility or what selects the symbol, or
  // m that has been turned into y.  The mode of a choice can be inferred, or is the one that it has without
  // user values.
  predicate Restorable(k: Config, v: Valuation, x: Id) {
    match k.Item(x)
    case Symbol(_, _, _, _, _, _, _, _, _, revDep, _, _, _) =>
      k.Item(x).Logical() && ValOf(v, x).vis != 0 ==>
        ValOf(v, x).tri <= Max(ValOf(v, x).vis, ExprValue(k, v, revDep)) || NeverM(k, v, x)
    case Choice(_, _, _, _, _) => ModeKept(k, v, x, ModeTold(k, v, x))
  }

  // Some symbol of the choice tells the mode.
  predicate ModeTold(k: Config, v: Valuation, c: Id) {
    k.Item(c).Choice? && exists s :: s in k.Item(c).syms && ValOf(v, s).tri != 0
  }

  // Whether a choice gets its mode back, if a file does or does not say what it is.
  predicate ModeKept(k: Config, v: Valuation, c: Id, told: bool) {
    var it := k.Item(c);
    told || ValOf(v, c).tri == 0 || (it.Choice? && !it.optional && (ValOf(v, c).tri == 1 || TypeOf(k, v, c) == BOOL))
  }

  lemma TriAccepted(k: Config, x: Id, t: Tri)
    requires k.Item(x).Logical() && (k.Item(x).origType == BOOL ==> t != 1)
    ensures Accepted(k.Item(x), StrValue(TriToStr(t))) == Some(TriValue(t))
  {
  }

  lemma LogicalReloads(k: Config, us: Users, us': Users, v: Valuation, v': Valuation, x: Id)
    requires SameIngredients(k, v, v', x) && k.Item(x).Logical()
    requires SymbolWellValued(k, v, x) && UserOf(us', x).value == Kept(k, v, x)
    requires FreeTri(k, us, v, x) == Tri2(ValOf(v, x).tri, ValOf(v, x).write)
    ensures FreeTri(k, us', v', x).val == ValOf(v, x).tri <==> Restorable(k, v, x)
  {
    TriAccepted(k, x, ValOf(v, x).tri);
  }

  lemma StringReloads(k: Config, us: Users, us': Users, v: Valuation, v': Valuation, x: Id)
    requires SameIngredients(k, v, v', x) && k.Item(x).origType == STRING && !k.Item(x).noConf
    requires UserOf(us', x).value == Kept(k, v, x)
    requires StringText(k, us, v, x) == Text(ValOf(v, x).str, ValOf(v, x).write)
    ensures StringText(k, us', v', x).val == ValOf(v, x).str
  {
  }

  lemma NumberReloads(k: Config, us: Users, us': Users, v: Valuation, v': Valuation, x: Id)
    requires SameIngredients(k, v, v', x) && k.Item(x).Numeric() && !k.Item(x).noConf
    requires UserOf(us', x).value == Kept(k, v, x)
    requires UserOf(us, x).value.Some? ==> ValidUserValue(k.Item(x), UserOf(us, x).value.value)
    requires NumberText(k, us, v, x) == Text(ValOf(v, x).str, ValOf(v, x).write)
    ensures NumberText(k, us', v', x).val == ValOf(v, x).str
  {
    var b := ActiveRange(k, v, k.Item(x).ranges, k.Item(x).Base());
    if UserNumberOk(us, ValOf(v, x).vis, x, k.Item(x).Base(), b) {
      assert Kept(k, v, x) == Some(StrValue(ValOf(v, x).str));
    } else {
      DefaultNumberReloads(k, us, us', v, v', x);
    }
  }

  // The number does not come from the user value: it is the clamped default, which is reached again.
  lemma DefaultNumberReloads(k: Config, us: Users, us': Users, v: Valuation, v': Valuation, x: Id)
    requires SameIngredients(k, v, v', x) && k.Item(x).Numeric() && !k.Item(x).noConf
    requires UserOf(us', x).value == Kept(k, v, x)
    requires !UserNumberOk(us, ValOf(v, x).vis, x, k.Item(x).Base(),
                           ActiveRange(k, v, k.Item(x).ranges, k.Item(x).Base()))
    requires NumberText(k, us, v, x) == Text(ValOf(v, x).str, ValOf(v, x).write)
    ensures NumberText(k, us', v', x).val == ValOf(v, x).str
  {
    var it := k.Item(x);
    var b := ActiveRange(k, v, it.ranges, it.Base());
    var d := DefaultStr(k, v, it.defaults);
    var text := Clamp(it.origType, it.Base(), b, if d.Some? then d.value else "");
    assert ValOf(v, x).str == text;
    if UserNumberOk(us', ValOf(v', x).vis, x, it.Base(), b) {
      TextAccepted(k, x, text);
    }
  }

  lemma TextAccepted(k: Config, x: Id, text: string)
    requires !k.Item(x).Logical()
    ensures var a := Accepted(k.Item(x), StrValue(text)); a.Some? ==> a == Some(StrValue(text))
  {
  }

  // The user values of `us'` are those that are kept of `us`.
  ghost predicate Reload(k: Config, us: Users, us': Users) {
    && Good(k, us) && Good(k, us') && UsersTyped(k, us) && ProperChoices(k)
    && Reloaded(k, Evaluate(k, us), us', Written(k, Evaluate(k, us)))
  }

  // A choice symbol has its value again if it is as visible as before, and the selection is the same.
  lemma MemberReloads(k: Config, us: Users, us': Users, x: Id, c: Id)
    requires Reload(k, us, us') && DefinedSymbol(k, x) && k.Item(x).choice == Some(c)
    requires Agree(k, Place(k, x, TRI), Evaluate(k, us), Evaluate(k, us'))
    ensures MemberTri(us, Evaluate(k, us), x, c).val == MemberTri(us', Evaluate(k, us'), x, c).val
  {
    var v, v' := Evaluate(k, us), Evaluate(k, us');
    MemberOf(k, us, x);
    EvaluatedSymbol(k, us, x);
    assert AgreeAt(k, Place(k, x, TRI), v, v', x) && AgreeAt(k, Place(k, x, TRI), v, v', c);
    if ValOf(v, x).vis == 1 {
      TriAccepted(k, x, ValOf(v, x).tri);
      assert UserOf(us', x).value == Some(TriValue(ValOf(v, x).tri));
    }
  }

  lemma TriReloads(k: Config, us: Users, us': Users, x: Id)
    requires Reload(k, us, us') && DefinedSymbol(k, x)
    requires Agree(k, Place(k, x, TRI), Evaluate(k, us), Evaluate(k, us'))
    ensures SymTri(k, us, Evaluate(k, us), x).val == SymTri(k, us', Evaluate(k, us'), x).val
       <==> Restorable(k, Evaluate(k, us), x)
  {
    var v, v' := Evaluate(k, us), Evaluate(k, us');
    assert ItemOk(k, x);
    if k.Item(x).InChoice() {
      MemberReloads(k, us, us', x, k.Item(x).choice.value);
      MemberRestorable(k, us, x);
    } else if k.Item(x).Logical() {
      EvaluatedSymbol(k, us, x);
      IngredientsSame(k, us, v, v', x);
      LogicalReloads(k, us, us', v, v', x);
    }
  }

  lemma MemberRestorable(k: Config, us: Users, x: Id)
    requires Good(k, us) && ProperChoices(k) && DefinedSymbol(k, x) && k.Item(x).InChoice()
    ensures Restorable(k, Evaluate(k, us), x)
  {
    MemberOf(k, us, x);
    ChoiceModes.MemberValue(k, us, k.Item(x).choice.value, x);
  }

  lemma TextReloads(k: Config, us: Users, us': Users, x: Id)
    requires Reload(k, us, us') && DefinedSymbol(k, x)
    requires Agree(k, Place(k, x, STR), Evaluate(k, us), Evaluate(k, us'))
    ensures SymText(k, us, Evaluate(k, us), x).val == SymText(k, us', Evaluate(k, us'), x).val
  {
    var v, v' := Evaluate(k, us), Evaluate(k, us');
    assert ItemOk(k, x) && !k.Item(x).noConf;
    assert AgreeAt(k, Place(k, x, STR), v, v', x);
    AgreeLess(k, Place(k, x, STR), Place(k, x, TRI), v, v');
    EvaluatedSymbol(k, us, x);
    IngredientsSame(k, us, v, v', x);
    if k.Item(x).origType == STRING {
      StringReloads(k, us, us', v, v', x);
    } else if k.Item(x).Numeric() {
      assert UserOf(us, x).value.Some? ==> ValidUserValue(k.Item(x), UserOf(us, x).value.value);
      NumberReloads(k, us, us', v, v', x);
    }
  }

  // ---------- Choices ----------

  // A written symbol that says what the mode of its choice is.
  lemma ModeIsWritten(k: Config, us: Users, x: Id, c: Id)
    requires Good(k, us) && ProperChoices(k) && c < |k.items| && k.Item(c).Choice? && x in k.Item(c).syms
    ensures var v := Evaluate(k, us);
      && (ValOf(v, x).tri != 0 <==> x in Written(k, v) && SetsMode(k, v, x, c))
      && (ValOf(v, x).tri != 0 ==> ValOf(v, x).tri == ValOf(v, c).tri && ValOf(v, x).str == TriToStr(ValOf(v, c).tri))
  {
    assert ItemOk(k, c);
    assert ItemOk(k, x);
    ModeDecides(k, us, c, x);
    EvaluatedSymbol(k, us, x);
    ChoiceModes.MemberValue(k, us, c, x);
  }

  // No other symbol does.
  lemma OnlyMembersSetMode(k: Config, us: Users, x: Id, c: Id)
    requires Good(k, us) && x in Written(k, Evaluate(k, us)) && SetsMode(k, Evaluate(k, us), x, c)
    ensures c < |k.items| && k.Item(c).Choice? && x in k.Item(c).syms
  {
    assert ItemOk(k, x);
  }

  predicate ModeAsTold(us': Users, v: Valuation, c: Id, told: bool) {
    if told then UserOf(us', c).value == Some(TriValue(ValOf(v, c).tri)) && ValOf(v, c).tri != 0
    else UserOf(us', c) == NO_USER
  }

  // The user mode that is inferred from the symbols.
  lemma ModeInferred(k: Config, us: Users, us': Users, c: Id)
    requires Reload(k, us, us') && c < |k.items| && k.Item(c).Choice?
    ensures ModeAsTold(us', Evaluate(k, us), c, ModeTold(k, Evaluate(k, us), c))
  {
    var v := Evaluate(k, us);
    assert ChoiceReloaded(k, v, us', c, Written(k, v));
    if s :| s in k.Item(c).syms && ValOf(v, s).tri != 0 {
      ModeIsWritten(k, us, s, c);
      assert FollowsLine(k, v, UserOf(us', c), s, c);
      ModeAccepted(k, us, c, ValOf(v, c).tri);
    } else {
      forall x | x in Written(k, v) ensures !SetsMode(k, v, x, c) {
        if SetsMode(k, v, x, c) {
          OnlyMembersSetMode(k, us, x, c);
          ModeIsWritten(k, us, x, c);
        }
      }
    }
  }

  lemma ModeAccepted(k: Config, us: Users, c: Id, t: Tri)
    requires Good(k, us) && ProperChoices(k) && c < |k.items| && k.Item(c).Choice? && t == ValOf(Evaluate(k, us), c).tri
    ensures Accepted(k.Item(c), StrValue(TriToStr(t))) == Some(TriValue(t))
  {
    SolvedChoice(k, us, c);
    TriAccepted(k, c, t);
  }

  // With visibility and type as before, a choice has its mode again if and only if it is restorable.
  lemma ModeReloads(k: Config, us: Users, us': Users, c: Id)
    requires Reload(k, us, us') && c < |k.items| && k.Item(c).Choice?
    requires Agree(k, Place(k, c, MODE), Evaluate(k, us), Evaluate(k, us'))
    ensures Mode(k, us', Evaluate(k, us'), c) == ValOf(Evaluate(k, us), c).tri <==> Restorable(k, Evaluate(k, us), c)
  {
    var v, v' := Evaluate(k, us), Evaluate(k, us');
    ModeIngredients(k, us, us', c);
    ModeInferred(k, us, us', c);
    ModeFromUser(k, us, us', v, v', c, ModeTold(k, v, c));
  }

  // What the mode of a choice is made of, apart from user values.
  lemma ModeIngredients(k: Config, us: Users, us': Users, c: Id)
    requires Good(k, us) && Good(k, us') && c < |k.items| && k.Item(c).Choice?
    requires Agree(k, Place(k, c, MODE), Evaluate(k, us), Evaluate(k, us'))
    ensures var v, v' := Evaluate(k, us), Evaluate(k, us');
      && ValOf(v, c).vis == ValOf(v', c).vis && TypeOf(k, v, c) == TypeOf(k, v', c)
      && ValOf(v, c).tri == Mode(k, us, v, c) && (ValOf(v, c).vis == 1 ==> TypeOf(k, v, c) != BOOL)
  {
    var v, v' := Evaluate(k, us), Evaluate(k, us');
    assert AgreeAt(k, Place(k, c, MODE), v, v', c) && AgreeAt(k, Place(k, c, MODE), v, v', k.modules);
    SolvedChoice(k, us, c);
    SolvedVis(k, us, c);
  }

  // As a matter of values only.
  lemma ModeFromUser(k: Config, us: Users, us': Users, v: Valuation, v': Valuation, c: Id, told: bool)
    requires k.Item(c).Choice? && ValOf(v, c).vis == ValOf(v', c).vis && TypeOf(k, v, c) == TypeOf(k, v', c)
    requires ValOf(v, c).tri == Mode(k, us, v, c) && (ValOf(v, c).vis == 1 ==> TypeOf(k, v, c) != BOOL)
    requires ModeAsTold(us', v, c, told)
    ensures Mode(k, us', v', c) == ValOf(v, c).tri <==> ModeKept(k, v, c, told)
  {
  }

  // In the same mode, a choice whose symbols are as visible as before has its selection again.
  lemma SelectionReloads(k: Config, us: Users, us': Users, c: Id)
    requires Reload(k, us, us') && c < |k.items| && k.Item(c).Choice?
    requires Agree(k, Place(k, c, SEL), Evaluate(k, us), Evaluate(k, us'))
    ensures ValOf(Evaluate(k, us), c).sel == ValOf(Evaluate(k, us'), c).sel
  {
    var v, v' := Evaluate(k, us), Evaluate(k, us');
    assert AgreeAt(k, Place(k, c, SEL), v, v', c);
    SelectionVisible(k, us, c);
    SelectionVisible(k, us', c);
    forall x | x in k.Item(c).syms ensures ValOf(v, x).vis == ValOf(v', x).vis {
      assert AgreeAt(k, Place(k, c, SEL), v, v', x);
    }
    if ValOf(v, c).sel.Some? {
      SelectionWritten(k, us, us', c, ValOf(v, c).sel.value);
      SolvedChoice(k, us', c);
    }
  }

  lemma SelectionWritten(k: Config, us: Users, us': Users, c: Id, x: Id)
    requires Reload(k, us, us') && c < |k.items| && k.Item(c).Choice? && ValOf(Evaluate(k, us), c).sel == Some(x)
    ensures UserOf(us', c).selection == Some(x)
  {
    var v := Evaluate(k, us);
    SelectionVisible(k, us, c);
    ModeDecides(k, us, c, x);
    ModeIsWritten(k, us, x, c);
    assert ChoiceReloaded(k, v, us', c, Written(k, v));
    assert FollowsLine(k, v, UserOf(us', c), x, c);
  }

  lemma UndefinedReloads(k: Config, us: Users, us': Users, v: Valuation, v': Valuation, x: Id)
    requires WellFormed(k) && x < |k.items| && k.Item(x).Symbol? && !k.Item(x).defined
    ensures SymTri(k, us, v, x).val == SymTri(k, us', v', x).val
    ensures ValOf(v, x).tri == ValOf(v', x).tri ==> SymText(k, us, v, x).val == SymText(k, us', v', x).val
  {
    assert ItemOk(k, x);
  }

  lemma ReloadStep(k: Config, us: Users, us': Users, m: nat, x: Id)
    requires Reload(k, us, us') && x < |k.items| && Agree(k, m, Evaluate(k, us), Evaluate(k, us'))
    requires Restorable(k, Evaluate(k, us), x)
    ensures AgreeAt(k, m + 1, Evaluate(k, us), Evaluate(k, us'), x)
  {
    var v, v' := Evaluate(k, us), Evaluate(k, us');
    if k.Item(x).Choice? {
      ChoiceStep(k, us, us', m, x);
    } else if k.Item(x).defined {
      if Place(k, x, TRI) <= m {
        AgreeLess(k, m, Place(k, x, TRI), v, v');
        TriReloads(k, us, us', x);
      }
      if Place(k, x, STR) <= m {
        AgreeLess(k, m, Place(k, x, STR), v, v');
        TextReloads(k, us, us', x);
      }
    } else {
      UndefinedReloads(k, us, us', v, v', x);
      assert AgreeAt(k, m, v, v', x);
    }
    NextAgrees(k, us, us', m, x);
  }

  lemma ChoiceStep(k: Config, us: Users, us': Users, m: nat, c: Id)
    requires Reload(k, us, us') && c < |k.items| && k.Item(c).Choice? && Agree(k, m, Evaluate(k, us), Evaluate(k, us'))
    requires Restorable(k, Evaluate(k, us), c)
    ensures Place(k, c, MODE) <= m ==> Mode(k, us, Evaluate(k, us), c) == Mode(k, us', Evaluate(k, us'), c)
    ensures Place(k, c, SEL) <= m ==> Selection(k, us, Evaluate(k, us), c) == Selection(k, us', Evaluate(k, us'), c)
  {
    var v, v' := Evaluate(k, us), Evaluate(k, us');
    SolvedChoice(k, us, c);
    SolvedChoice(k, us', c);
    if Place(k, c, MODE) <= m {
      AgreeLess(k, m, Place(k, c, MODE), v, v');
      ModeReloads(k, us, us', c);
    }
    if Place(k, c, SEL) <= m {
      AgreeLess(k, m, Place(k, c, SEL), v, v');
      SelectionReloads(k, us, us', c);
    }
  }

  lemma {:induction false} ReloadAgrees(k: Config, us: Users, us': Users, m: nat)
    requires Reload(k, us, us') && forall x: Id :: x < |k.items| ==> Restorable(k, Evaluate(k, us), x)
    ensures Agree(k, m, Evaluate(k, us), Evaluate(k, us'))
    decreases m
  {
    var v, v' := Evaluate(k, us), Evaluate(k, us');
    if m == 0 {
      AgreeZero(k, m, v, v');
    } else {
      var prev: nat, n := m - 1, m;
      ReloadAgrees(k, us, us', prev);
      forall x: Id | x < |k.items| ensures AgreeAt(k, n, v, v', x) {
        ReloadStep(k, us, us', prev, x);
      }
    }
  }

  ghost predicate SameValues(k: Config, us: Users, us': Users) {
    forall x: Id :: x < |k.items| ==>
      ValOf(Evaluate(k, us), x).tri == ValOf(Evaluate(k, us'), x).tri
      && ValOf(Evaluate(k, us), x).str == ValOf(Evaluate(k, us'), x).str
  }

  lemma {:induction false} SameValuesAgree(k: Config, us: Users, us': Users, m: nat)
    requires Good(k, us) && Good(k, us') && ProperChoices(k) && SameValues(k, us, us')
    ensures Agree(k, m, Evaluate(k, us), Evaluate(k, us'))
    decreases m
  {
    var v, v' := Evaluate(k, us), Evaluate(k, us');
    if m == 0 {
      AgreeZero(k, m, v, v');
    } else {
      var prev: nat, n := m - 1, m;
      SameValuesAgree(k, us, us', prev);
      forall x: Id | x < |k.items| ensures AgreeAt(k, n, v, v', x) {
        SameValueAgrees(k, us, us', prev, x);
      }
    }
  }

  lemma SameValueAgrees(k: Config, us: Users, us': Users, m: nat, x: Id)
    requires Good(k, us) && Good(k, us') && ProperChoices(k) && SameValues(k, us, us') && x < |k.items|
    requires Agree(k, m, Evaluate(k, us), Evaluate(k, us'))
    ensures AgreeAt(k, m + 1, Evaluate(k, us), Evaluate(k, us'), x)
  {
    if k.Item(x).Choice? {
      SolvedChoice(k, us, x);
      SolvedChoice(k, us', x);
      SameValuesSameSelection(k, us, us', x);
    } else {
      SolvedTri(k, us, x);
      SolvedTri(k, us', x);
      SolvedStr(k, us, x);
      SolvedStr(k, us', x);
    }
    NextAgrees(k, us, us', m, x);
  }

  // The selection can be told from the mode and the values of the symbols.
  lemma SameValuesSameSelection(k: Config, us: Users, us': Users, c: Id)
    requires Good(k, us) && Good(k, us') && ProperChoices(k) && SameValues(k, us, us')
    requires c < |k.items| && k.Item(c).Choice?
    ensures ValOf(Evaluate(k, us), c).sel == ValOf(Evaluate(k, us'), c).sel
  {
    var v, v' := Evaluate(k, us), Evaluate(k, us');
    assert ItemOk(k, c);
    SelectionVisible(k, us, c);
    SelectionVisible(k, us', c);
    forall x | x in k.Item(c).syms && ValOf(v, c).tri == 2
      ensures ValOf(v, c).sel == Some(x) <==> ValOf(v', c).sel == Some(x)
    {
      ModeDecides(k, us, c, x);
      ModeDecides(k, us', c, x);
    }
  }

  lemma SameMeansRestorable(k: Config, us: Users, us': Users, x: Id)
    requires Reload(k, us, us') && SameValues(k, us, us') && x < |k.items|
    ensures Restorable(k, Evaluate(k, us), x)
  {
    if k.Item(x).Choice? {
      SameValuesAgree(k, us, us', Place(k, x, MODE));
      ModeReloads(k, us, us', x);
      SolvedChoice(k, us', x);
    } else if k.Item(x).defined {
      SameValuesAgree(k, us, us', Place(k, x, TRI));
      TriReloads(k, us, us', x);
      SolvedTri(k, us, x);
      SolvedTri(k, us', x);
    } else {
      SolvedVis(k, us, x);
      UndefinedInvisible(k, Evaluate(k, us), x);
    }
  }

  lemma RestorableMeansSame(k: Config, us: Users, us': Users)
    requires Reload(k, us, us') && forall x: Id :: x < |k.items| ==> Restorable(k, Evaluate(k, us), x)
    ensures SameValues(k, us, us')
  {
    var v, v' := Evaluate(k, us), Evaluate(k, us');
    var all := 6 * Highest(k.order) + 10;
    ReloadAgrees(k, us, us', all);
    forall x: Id | x < |k.items| ensures ValOf(v, x).tri == ValOf(v', x).tri && ValOf(v, x).str == ValOf(v', x).str {
      RankBounded(k, x);
      assert AgreeAt(k, all, v, v', x);
      if k.Item(x).Choice? {
        SolvedRest(k, us, x);
        SolvedRest(k, us', x);
      }
    }
  }

  // Loading restores every value if and only if all values are restorable.
  lemma ReloadExact(k: Config, us: Users, us': Users)
    requires Reload(k, us, us')
    ensures SameValues(k, us, us') <==> forall x: Id :: x < |k.items| ==> Restorable(k, Evaluate(k, us), x)
  {
    if forall x: Id :: x < |k.items| ==> Restorable(k, Evaluate(k, us), x) {
      RestorableMeansSame(k, us, us');
    }
    if SameValues(k, us, us') {
      forall x: Id | x < |k.items| ensures Restorable(k, Evaluate(k, us), x) {
        SameMeansRestorable(k, us, us', x);
      }
    }
  }

  // A symbol with a user value is always restorable.
  lemma UserValueRestorable(k: Config, us: Users, x: Id)
    requires Good(k, us) && ProperChoices(k) && DefinedSymbol(k, x) && UserOf(us, x).Tri().Some?
    ensures Restorable(k, Evaluate(k, us), x)
  {
    assert ItemOk(k, x);
    if k.Item(x).InChoice() {
      MemberRestorable(k, us, x);
    } else {
      SolvedTri(k, us, x);
    }
  }
}
