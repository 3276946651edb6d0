/** Minimal configuration files: what is left out of them is recreated by defaults, selects and the default
    selections of choices, with few exceptions, which `Recreatable` describes. */
module MinConfig {
  import opened Wrappers
  import opened Model
  import opened Numbers
  import opened Values
  import opened Support
  import opened Transfer
  import opened Reference
  import opened CacheInvariant
  import opened Assignments
  import opened Comparison
  import opened ChoiceModes
  import opened ConfigLines
  import opened ConfigFile
  import opened LoadedUsers
  import opened RoundTrip

  // _str_default().  Unlike the value itself, it takes implies into account whatever the direct
  // dependencies are, and does not apply ranges.
  function StrDefault(k: Config, v: Valuation, x: Id): string {
    var it := k.Item(x);
    if !it.Symbol? then ""
    else if it.Logical() then
      if it.choice.Some? then "n"
      else
        var val := Max(Max(ExprValue(k, v, it.revDep), ExprValue(k, v, it.weakRevDep)), DefaultTri(k, v, it.defaults));
        TriToStr(if val == 1 && TypeOf(k, v, x) == BOOL then 2 else val)
    else if it.origType == UNKNOWN then ""
    else
      var d := DefaultStr(k, v, it.defaults);
      if d.Some? then d.value else ""
  }

  // The symbols that are left out: those that cannot be changed, those that have their default value, and
  // those that are selected by default in a choice.
  predicate CannotChange(k: Config, v: Valuation, x: Id) {
    k.Item(x).Symbol? && k.Item(x).choice.None? && ValOf(v, x).vis <= ExprValue(k, v, k.Item(x).revDep)
  }

  predicate DefaultSelection(k: Config, v: Valuation, x: Id) {
    var it := k.Item(x);
    && it.InChoice() && k.Item(it.choice.value).Choice? && !k.Item(it.choice.value).optional
    && SelectionFromDefaults(k, v, it.choice.value) == Some(x)
    && it.origType == BOOL && ValOf(v, x).tri == 2
  }

  predicate LeftOut(k: Config, v: Valuation, x: Id) {
    CannotChange(k, v, x) || ValOf(v, x).str == StrDefault(k, v, x) || DefaultSelection(k, v, x)
  }

  function MinLine(k: Config, v: Valuation, x: Id): Option<string> {
    if LeftOut(k, v, x) then None else ConfigString(k, v, x)
  }

  // _min_config_contents(), without the header.
  function MinBody(k: Config, v: Valuation, syms: seq<Id>): seq<string>
    decreases |syms|
  {
    if syms == [] then []
    else
      var line := MinLine(k, v, syms[0]);
      (if line.Some? then [line.value] else []) + MinBody(k, v, syms[1..])
  }

  // The symbols that are written.
  ghost function MinWritten(k: Config, v: Valuation): set<Id> {
    set x: Id | x < |k.items| && DefinedSymbol(k, x) && MinLine(k, v, x).Some?
  }

  // The user value that loading the file gives to a symbol.
  function MinKept(k: Config, v: Valuation, x: Id): Option<UserValue> {
    if MinLine(k, v, x).None? then None else LineValue(k, v, x)
  }

  // The text that a symbol has without a user value.
  function TextDefault(k: Config, v: Valuation, x: Id): string {
    var it := k.Item(x);
    if it.Symbol? && it.Numeric() then
      Clamp(it.origType, it.Base(), ActiveRange(k, v, it.ranges, it.Base()), StrDefault(k, v, x))
    else StrDefault(k, v, x)
  }

  // The value is recreated.  What is lost is m, if the symbol is visible and selected with m, but y by default,
  // and text that is not the default, if the symbol is selected although it is neither bool nor tristate.  The
  // mode of a choice can be inferred, or is the one without user values.
  predicate Recreatable(k: Config, v: Valuation, x: Id) {
    match k.Item(x)
    case Symbol(_, type_, _, _, _, choice, _, defaults, _, revDep, _, _, _) =>
      var vis, rev := ValOf(v, x).vis, ExprValue(k, v, revDep);
      choice.Some? || type_ == UNKNOWN
      || if k.Item(x).Logical() then !(vis == rev == ValOf(v, x).tri == 1 && DefaultTri(k, v, defaults) == 2)
         else vis == 0 || rev < vis || ValOf(v, x).str == TextDefault(k, v, x)
    case Choice(_, _, _, _, _) => ModeKept(k, v, x, ModeSaid(k, v, x))
  }

  // Some symbol of the choice is written and tells the mode.
  predicate ModeSaid(k: Config, v: Valuation, c: Id) {
    k.Item(c).Choice? && exists s :: s in k.Item(c).syms && ValOf(v, s).tri != 0 && !DefaultSelection(k, v, s)
  }

  // ---------- What the loader makes of the file ----------

  ghost function MinLined(k: Config, v: Valuation, syms: seq<Id>): set<Id> {
    set x | x in syms && MinLine(k, v, x).Some?
  }

  lemma {:induction false} MinBodyLoads(k: Config, v: Valuation, before: seq<Setting>, now: seq<Setting>, xs: set<Id>,
                                        syms: seq<Id>)
    requires UniqueNames(k) && LinesAgree(k, v, MinWritten(k, v))
    requires Loading(k, v, before, now, xs) && xs <= MinWritten(k, v)
    requires forall i :: 0 <= i < |syms| ==> DefinedSymbol(k, syms[i]) && syms[i] !in xs
    requires forall i, j :: 0 <= i < j < |syms| ==> syms[i] != syms[j]
    ensures Loading(k, v, before, LoadLines(k, now, MinBody(k, v, syms)), xs + MinLined(k, v, syms))
    decreases |syms|
  {
    if syms == [] {
      assert xs + MinLined(k, v, syms) == xs;
    } else {
      var x, rest := syms[0], syms[1..];
      var line := MinLine(k, v, x);
      if line.Some? {
        assert xs + MinLined(k, v, syms) == (xs + {x}) + MinLined(k, v, rest);
        LineLoads(k, v, before, now, MinWritten(k, v), xs, x);
        MinBodyLoads(k, v, before, LoadLine(k, now, line.value), xs + {x}, rest);
        assert ([line.value] + MinBody(k, v, rest))[1..] == MinBody(k, v, rest);
      } else {
        assert xs + MinLined(k, v, syms) == xs + MinLined(k, v, rest);
        MinBodyLoads(k, v, before, now, xs, rest);
        assert [] + MinBody(k, v, rest) == MinBody(k, v, rest);
      }
    }
  }

  function MinContents(k: Config, v: Valuation, header: seq<string>, syms: seq<Id>): seq<string> {
    header + MinBody(k, v, syms)
  }

  lemma MinFileLoads(k: Config, v: Valuation, st: seq<Setting>, header: seq<string>, syms: seq<Id>)
    requires WellFormed(k) && UniqueNames(k) && LinesAgree(k, v, MinWritten(k, v))
    requires |st| == |k.items| && AllDefined(k, syms) && HeaderInert(header)
    ensures Reloaded(k, v, UsersIn(Loaded(k, st, MinContents(k, v, header, syms))), MinWritten(k, v))
  {
    var before := NothingSet(k, st);
    InertLines(k, before, header);
    assert Loading(k, v, before, before, {});
    MinBodyLoads(k, v, before, before, {}, syms);
    LoadConcat(k, before, header, MinBody(k, v, syms));
    assert {} + MinLined(k, v, syms) == MinWritten(k, v);
    AllLoaded(k, v, st, LoadLines(k, before, MinContents(k, v, header, syms)), MinWritten(k, v));
  }

  // ---------- What the recreated user values mean ----------

  // What else is needed: a visible symbol has its direct dependencies met, as these are part of its prompt
  // condition.
  ghost predicate Sound(k: Config, v: Valuation) {
    forall x: Id :: DefinedSymbol(k, x) && k.Item(x).choice.None? && ValOf(v, x).vis != 0 ==>
      ExprValue(k, v, k.Item(x).directDep) != 0
  }

  ghost predicate MinReload(k: Config, us: Users, us': Users) {
    && Good(k, us) && Good(k, us') && UsersTyped(k, us) && ProperChoices(k)
    && Sound(k, Evaluate(k, us)) && Reloaded(k, Evaluate(k, us), us', MinWritten(k, Evaluate(k, us)))
  }

  // Without a user value a symbol outside choices has the default that is compared with its value.
  lemma DefaultIsStrDefault(k: Config, us: Users, v: Valuation, x: Id)
    requires k.Item(x).Symbol? && k.Item(x).Logical() && k.Item(x).choice.None? && UserOf(us, x).value.None?
    requires ExprValue(k, v, k.Item(x).directDep) != 0
    ensures TriToStr(FreeTri(k, us, v, x).val) == StrDefault(k, v, x)
  {
  }

  // A symbol outside choices that is left out has no user value afterwards.
  lemma LeftOutRecreated(k: Config, us: Users, us': Users, v: Valuation, v': Valuation, x: Id)
    requires SameIngredients(k, v, v', x) && k.Item(x).Logical() && k.Item(x).choice.None?
    requires SymbolWellValued(k, v, x) && LeftOut(k, v, x) && UserOf(us', x).value.None?
    requires FreeTri(k, us, v, x) == Tri2(ValOf(v, x).tri, ValOf(v, x).write)
    requires ValOf(v, x).vis != 0 ==> ExprValue(k, v, k.Item(x).directDep) != 0
    requires ValOf(v, x).vis == 1 ==> TypeOf(k, v, x) != BOOL
    ensures FreeTri(k, us', v', x).val == ValOf(v, x).tri <==> Recreatable(k, v, x)
  {
    assert FreeTri(k, us', v', x).val == FreeTri(k, us', v, x).val;
    if CannotChange(k, v, x) {
    } else {
      DefaultIsStrDefault(k, us', v, x);
    }
  }

  lemma FreeRecreated(k: Config, us: Users, us': Users, v: Valuation, v': Valuation, x: Id)
    requires SameIngredients(k, v, v', x) && k.Item(x).Logical() && k.Item(x).choice.None? && !k.Item(x).noConf
    requires SymbolWellValued(k, v, x) && UserOf(us', x).value == MinKept(k, v, x)
    requires FreeTri(k, us, v, x) == Tri2(ValOf(v, x).tri, ValOf(v, x).write)
    requires ValOf(v, x).vis != 0 ==> ExprValue(k, v, k.Item(x).directDep) != 0
    requires ValOf(v, x).vis == 1 ==> TypeOf(k, v, x) != BOOL
    ensures FreeTri(k, us', v', x).val == ValOf(v, x).tri <==> Recreatable(k, v, x)
  {
    if LeftOut(k, v, x) {
      LeftOutRecreated(k, us, us', v, v', x);
    } else {
      WrittenHasUser(k, us, v, x);
      LogicalReloads(k, us, us', v, v', x);
    }
  }

  // What is not left out has a user value, which is why it can be restored.
  lemma WrittenHasUser(k: Config, us: Users, v: Valuation, x: Id)
    requires k.Item(x).Symbol? && k.Item(x).Logical() && k.Item(x).choice.None? && !k.Item(x).noConf
    requires SymbolWellValued(k, v, x) && FreeTri(k, us, v, x) == Tri2(ValOf(v, x).tri, ValOf(v, x).write)
    requires ValOf(v, x).vis != 0 ==> ExprValue(k, v, k.Item(x).directDep) != 0
    requires !LeftOut(k, v, x)
    ensures MinKept(k, v, x) == Kept(k, v, x) && Restorable(k, v, x) && Recreatable(k, v, x)
  {
    if UserOf(us, x).value.None? {
      DefaultIsStrDefault(k, us, v, x);
    }
  }

  lemma StringRecreated(k: Config, us: Users, us': Users, v: Valuation, v': Valuation, x: Id)
    requires SameIngredients(k, v, v', x) && k.Item(x).origType == STRING && !k.Item(x).noConf && k.Item(x).choice.None?
    requires UserOf(us', x).value == MinKept(k, v, x)
    requires StringText(k, us, v, x) == Text(ValOf(v, x).str, ValOf(v, x).write)
    ensures StringText(k, us', v', x).val == ValOf(v, x).str <==> Recreatable(k, v, x)
  {
    if MinLine(k, v, x).Some? {
      StringReloads(k, us, us', v, v', x);
    }
  }

  lemma NumberRecreated(k: Config, us: Users, us': Users, v: Valuation, v': Valuation, x: Id)
    requires SameIngredients(k, v, v', x) && k.Item(x).Numeric() && !k.Item(x).noConf && k.Item(x).choice.None?
    requires UserOf(us', x).value == MinKept(k, v, x)
    requires UserOf(us, x).value.Some? ==> ValidUserValue(k.Item(x), UserOf(us, x).value.value)
    requires NumberText(k, us, v, x) == Text(ValOf(v, x).str, ValOf(v, x).write)
    ensures NumberText(k, us', v', x).val == ValOf(v, x).str <==> Recreatable(k, v, x)
  {
    if MinLine(k, v, x).Some? {
      NumberReloads(k, us, us', v, v', x);
    } else {
      NumberUnset(k, us', v, v', x);
      NumberLeftOut(k, us, v, x);
    }
  }

  // Without a user value, a number is the default moved into the range.
  lemma NumberUnset(k: Config, us': Users, v: Valuation, v': Valuation, x: Id)
    requires SameIngredients(k, v, v', x) && k.Item(x).Numeric() && UserOf(us', x).value.None?
    ensures NumberText(k, us', v', x).val == TextDefault(k, v, x)
  {
  }

  // A number that is left out is that default, unless the symbol cannot be changed.
  lemma NumberLeftOut(k: Config, us: Users, v: Valuation, x: Id)
    requires k.Item(x).Symbol? && k.Item(x).Numeric() && !k.Item(x).noConf && k.Item(x).choice.None?
    requires UserOf(us, x).value.Some? ==> ValidUserValue(k.Item(x), UserOf(us, x).value.value)
    requires NumberText(k, us, v, x) == Text(ValOf(v, x).str, ValOf(v, x).write) && MinLine(k, v, x).None?
    ensures ValOf(v, x).str == TextDefault(k, v, x) <==> Recreatable(k, v, x)
  {
    var it := k.Item(x);
    var b := ActiveRange(k, v, it.ranges, it.Base());
    if UserNumberOk(us, ValOf(v, x).vis, x, it.Base(), b) {
      if !CannotChange(k, v, x) {
        assert ValOf(v, x).str == StrDefault(k, v, x);
        ClampInside(it.origType, it.Base(), b, ValOf(v, x).str);
      }
    } else {
      assert NumberText(k, us, v, x).val == TextDefault(k, v, x);
    }
  }

  lemma ClampInside(t: Type, base: nat, b: Bounds, val: string)
    requires InBounds(b, NumOrZero(val, base))
    ensures Clamp(t, base, b, val) == val
  {
  }

  // A choice symbol is left out if it is n, or the selection by default.
  lemma MemberWritten(k: Config, us: Users, x: Id, c: Id)
    requires Good(k, us) && ProperChoices(k) && c < |k.items| && k.Item(c).Choice? && x in k.Item(c).syms
    ensures var v := Evaluate(k, us);
      (ValOf(v, x).tri != 0 && !DefaultSelection(k, v, x)) <==> x in MinWritten(k, v) && SetsMode(k, v, x, c)
    ensures ValOf(Evaluate(k, us), x).tri == 0 <==> ValOf(Evaluate(k, us), x).str == "n"
    ensures k.Item(x).choice == Some(c)
  {
    assert ItemOk(k, c);
    assert ItemOk(k, x);
    ModeIsWritten(k, us, x, c);
    EvaluatedSymbol(k, us, x);
  }

  // No other symbol tells the mode.
  lemma MinOnlyMembers(k: Config, us: Users, x: Id, c: Id)
    requires Good(k, us) && x in MinWritten(k, Evaluate(k, us)) && SetsMode(k, Evaluate(k, us), x, c)
    ensures c < |k.items| && k.Item(c).Choice? && x in k.Item(c).syms
  {
    assert ItemOk(k, x);
  }

  // The user mode that is inferred from the symbols.
  lemma MinModeInferred(k: Config, us: Users, us': Users, c: Id)
    requires MinReload(k, us, us') && c < |k.items| && k.Item(c).Choice?
    ensures ModeAsTold(us', Evaluate(k, us), c, ModeSaid(k, Evaluate(k, us), c))
  {
    var v := Evaluate(k, us);
    assert ChoiceReloaded(k, v, us', c, MinWritten(k, v));
    if s :| s in k.Item(c).syms && ValOf(v, s).tri != 0 && !DefaultSelection(k, v, s) {
      MemberWritten(k, us, s, c);
      ModeIsWritten(k, us, s, c);
      assert FollowsLine(k, v, UserOf(us', c), s, c);
      ModeAccepted(k, us, c, ValOf(v, c).tri);
    } else {
      forall x | x in MinWritten(k, v) ensures !SetsMode(k, v, x, c) {
        if SetsMode(k, v, x, c) {
          MinOnlyMembers(k, us, x, c);
          MemberWritten(k, us, x, c);
        }
      }
    }
  }

  lemma ModeRecreated(k: Config, us: Users, us': Users, c: Id)
    requires MinReload(k, us, us') && c < |k.items| && k.Item(c).Choice?
    requires Agree(k, Place(k, c, MODE), Evaluate(k, us), Evaluate(k, us'))
    ensures Mode(k, us', Evaluate(k, us'), c) == ValOf(Evaluate(k, us), c).tri <==> Recreatable(k, Evaluate(k, us), c)
  {
    var v, v' := Evaluate(k, us), Evaluate(k, us');
    ModeIngredients(k, us, us', c);
    MinModeInferred(k, us, us', c);
    ModeFromUser(k, us, us', v, v', c, ModeSaid(k, v, c));
  }

  lemma SameDefaultSelection(k: Config, us: Users, v: Valuation, v': Valuation, c: Id)
    requires Good(k, us) && |v| == |v'| == |k.items| && c < |k.items| && k.Item(c).Choice?
    requires Agree(k, Place(k, c, SEL), v, v') && ValOf(v, c).tri == ValOf(v', c).tri == 2
    ensures SelectionFromDefaults(k, v, c) == SelectionFromDefaults(k, v', c)
  {
    var none: Users := seq(|k.items|, _ => NO_USER);
    assert SelectionsOk(k, none);
    ComputeChoice(k, none, v, v', c);
    assert UserOf(none, c) == NO_USER;
  }

  // The selection is written, or there is nothing in the file about the choice and it is selected by default.
  lemma SelectionSaid(k: Config, us: Users, us': Users, c: Id, x: Id)
    requires MinReload(k, us, us') && c < |k.items| && k.Item(c).Choice? && ValOf(Evaluate(k, us), c).sel == Some(x)
    ensures if DefaultSelection(k, Evaluate(k, us), x) then
              UserOf(us', c) == NO_USER && SelectionFromDefaults(k, Evaluate(k, us), c) == Some(x)
            else UserOf(us', c).selection == Some(x)
  {
    var v := Evaluate(k, us);
    SelectionVisible(k, us, c);
    ModeDecides(k, us, c, x);
    MemberWritten(k, us, x, c);
    assert ChoiceReloaded(k, v, us', c, MinWritten(k, v));
    if DefaultSelection(k, v, x) {
      forall y | y in MinWritten(k, v) ensures !SetsMode(k, v, y, c) {
        if SetsMode(k, v, y, c) {
          MinOnlyMembers(k, us, y, c);
          MemberWritten(k, us, y, c);
          ModeDecides(k, us, c, y);
        }
      }
    } else {
      ModeIsWritten(k, us, x, c);
      assert FollowsLine(k, v, UserOf(us', c), x, c);
    }
  }

  // In the same mode, a choice whose symbols are as visible as before has its selection again.
  lemma SelectionRecreated(k: Config, us: Users, us': Users, c: Id)
    requires MinReload(k, us, us') && c < |k.items| && k.Item(c).Choice?
    requires Agree(k, Place(k, c, SEL), Evaluate(k, us), Evaluate(k, us'))
    ensures ValOf(Evaluate(k, us), c).sel == ValOf(Evaluate(k, us'), c).sel
  {
    var v, v' := Evaluate(k, us), Evaluate(k, us');
    assert AgreeAt(k, Place(k, c, SEL), v, v', c);
    SelectionVisible(k, us, c);
    SelectionVisible(k, us', c);
    forall x | x in k.Item(c).syms ensures ValOf(v, x).vis == ValOf(v', x).vis {
      assert ItemOk(k, c) && AgreeAt(k, Place(k, c, SEL), v, v', x);
    }
    if ValOf(v, c).sel.Some? {
      SelectionSaid(k, us, us', c, ValOf(v, c).sel.value);
      SameDefaultSelection(k, us, v, v', c);
      SolvedChoice(k, us', c);
    }
  }

  // A choice symbol has its value again if it is as visible as before, and the selection is the same.
  lemma MemberRecreated(k: Config, us: Users, us': Users, x: Id, c: Id)
    requires MinReload(k, us, us') && DefinedSymbol(k, x) && k.Item(x).choice == Some(c)
    requires Agree(k, Place(k, x, TRI), Evaluate(k, us), Evaluate(k, us'))
    ensures MemberTri(us, Evaluate(k, us), x, c).val == MemberTri(us', Evaluate(k, us'), x, c).val
  {
    var v, v' := Evaluate(k, us), Evaluate(k, us');
    MemberOf(k, us, x);
    EvaluatedSymbol(k, us, x);
    assert AgreeAt(k, Place(k, x, TRI), v, v', x) && AgreeAt(k, Place(k, x, TRI), v, v', c);
    if ValOf(v, x).vis == 1 {
      MemberSetAgain(k, us, us', x, c);
      SolvedTri(k, us, x);
    }
    MemberSame(us, us', v, v', x, c);
  }

  // As a matter of values only.
  lemma MemberSame(us: Users, us': Users, v: Valuation, v': Valuation, x: Id, c: Id)
    requires ValOf(v, x).vis == ValOf(v', x).vis && ValOf(v, c).sel == ValOf(v', c).sel
    requires ValOf(v, x).vis == 1 ==>
      var t := MemberTri(us, v, x, c).val;
      UserOf(us', x).value == if t == 0 then None else Some(TriValue(t))
    ensures MemberTri(us, v, x, c).val == MemberTri(us', v', x, c).val
  {
  }

  lemma MemberRecreatable(k: Config, v: Valuation, x: Id)
    requires k.Item(x).InChoice()
    ensures Recreatable(k, v, x)
  {
  }

  // In m mode the user value is kept if it is not n.
  lemma MemberSetAgain(k: Config, us: Users, us': Users, x: Id, c: Id)
    requires MinReload(k, us, us') && DefinedSymbol(k, x) && k.Item(x).choice == Some(c)
    requires ValOf(Evaluate(k, us), x).vis == 1
    ensures var t := ValOf(Evaluate(k, us), x).tri;
      UserOf(us', x).value == if t == 0 then None else Some(TriValue(t))
  {
    MemberOf(k, us, x);
    EvaluatedSymbol(k, us, x);
    MemberWritten(k, us, x, c);
    ModeDecides(k, us, c, x);
    TriAccepted(k, x, ValOf(Evaluate(k, us), x).tri);
  }

  lemma TriRecreated(k: Config, us: Users, us': Users, x: Id)
    requires MinReload(k, us, us') && DefinedSymbol(k, x)
    requires Agree(k, Place(k, x, TRI), Evaluate(k, us), Evaluate(k, us'))
    ensures SymTri(k, us, Evaluate(k, us), x).val == SymTri(k, us', Evaluate(k, us'), x).val
       <==> !k.Item(x).Logical() || Recreatable(k, Evaluate(k, us), x)
  {
    var v, v' := Evaluate(k, us), Evaluate(k, us');
    assert ItemOk(k, x);
    if k.Item(x).InChoice() {
      MemberRecreated(k, us, us', x, k.Item(x).choice.value);
      MemberRecreatable(k, v, x);
    } else if k.Item(x).Logical() {
      EvaluatedSymbol(k, us, x);
      SolvedVis(k, us, x);
      IngredientsSame(k, us, v, v', x);
      FreeRecreated(k, us, us', v, v', x);
    }
  }

  lemma TextRecreated(k: Config, us: Users, us': Users, x: Id)
    requires MinReload(k, us, us') && DefinedSymbol(k, x)
    requires Agree(k, Place(k, x, STR), Evaluate(k, us), Evaluate(k, us'))
    ensures SymText(k, us, Evaluate(k, us), x).val == SymText(k, us', Evaluate(k, us'), x).val
       <==> k.Item(x).Logical() || Recreatable(k, Evaluate(k, us), x)
  {
    var v, v' := Evaluate(k, us), Evaluate(k, us');
    assert ItemOk(k, x);
    assert AgreeAt(k, Place(k, x, STR), v, v', x);
    if !k.Item(x).Logical() {
      NotLogicalIsFree(k, us, x);
      AgreeLess(k, Place(k, x, STR), Place(k, x, TRI), v, v');
      EvaluatedSymbol(k, us, x);
      IngredientsSame(k, us, v, v', x);
      if k.Item(x).origType == STRING {
        StringRecreated(k, us, us', v, v', x);
      } else if k.Item(x).Numeric() {
        assert UserOf(us, x).value.Some? ==> ValidUserValue(k.Item(x), UserOf(us, x).value.value);
        NumberRecreated(k, us, us', v, v', x);
      }
    }
  }

  // Symbols of proper choices are bool or tristate.
  lemma NotLogicalIsFree(k: Config, us: Users, x: Id)
    requires Good(k, us) && ProperChoices(k) && DefinedSymbol(k, x) && !k.Item(x).Logical()
    ensures k.Item(x).choice.None?
  {
    if k.Item(x).InChoice() {
      MemberOf(k, us, x);
    }
  }

  lemma MinStep(k: Config, us: Users, us': Users, m: nat, x: Id)
    requires MinReload(k, us, us') && x < |k.items| && Agree(k, m, Evaluate(k, us), Evaluate(k, us'))
    requires Recreatable(k, Evaluate(k, us), x)
    ensures AgreeAt(k, m + 1, Evaluate(k, us), Evaluate(k, us'), x)
  {
    var v, v' := Evaluate(k, us), Evaluate(k, us');
    if k.Item(x).Choice? {
      MinStepChoice(k, us, us', m, x);
    } else if k.Item(x).defined {
      if Place(k, x, TRI) <= m {
        AgreeLess(k, m, Place(k, x, TRI), v, v');
        TriRecreated(k, us, us', x);
      }
      if Place(k, x, STR) <= m {
        AgreeLess(k, m, Place(k, x, STR), v, v');
        TextRecreated(k, us, us', x);
      }
    } else {
      UndefinedReloads(k, us, us', v, v', x);
      assert AgreeAt(k, m, v, v', x);
    }
    NextAgrees(k, us, us', m, x);
  }

  lemma MinStepChoice(k: Config, us: Users, us': Users, m: nat, c: Id)
    requires MinReload(k, us, us') && c < |k.items| && k.Item(c).Choice?
    requires Agree(k, m, Evaluate(k, us), Evaluate(k, us')) && Recreatable(k, Evaluate(k, us), c)
    ensures Place(k, c, MODE) <= m ==> Mode(k, us, Evaluate(k, us), c) == Mode(k, us', Evaluate(k, us'), c)
    ensures Place(k, c, SEL) <= m ==> Selection(k, us, Evaluate(k, us), c) == Selection(k, us', Evaluate(k, us'), c)
  {
    var v, v' := Evaluate(k, us), Evaluate(k, us');
    SolvedChoice(k, us, c);
    SolvedChoice(k, us', c);
    if Place(k, c, MODE) <= m {
      AgreeLess(k, m, Place(k, c, MODE), v, v');
      ModeRecreated(k, us, us', c);
    }
    if Place(k, c, SEL) <= m {
      AgreeLess(k, m, Place(k, c, SEL), v, v');
      SelectionRecreated(k, us, us', c);
    }
  }

  lemma {:induction false} MinAgrees(k: Config, us: Users, us': Users, m: nat)
    requires MinReload(k, us, us') && forall x: Id :: x < |k.items| ==> Recreatable(k, Evaluate(k, us), x)
    ensures Agree(k, m, Evaluate(k, us), Evaluate(k, us'))
    decreases m
  {
    var v, v' := Evaluate(k, us), Evaluate(k, us');
    if m == 0 {
      AgreeZero(k, m, v, v');
    } else {
      var prev: nat, n := m - 1, m;
      MinAgrees(k, us, us', prev);
      forall x: Id | x < |k.items| ensures AgreeAt(k, n, v, v', x) {
        MinStep(k, us, us', prev, x);
      }
    }
  }

  lemma RecreatableMeansSame(k: Config, us: Users, us': Users)
    requires MinReload(k, us, us') && forall x: Id :: x < |k.items| ==> Recreatable(k, Evaluate(k, us), x)
    ensures SameValues(k, us, us')
  {
    var all := 6 * Highest(k.order) + 10;
    MinAgrees(k, us, us', all);
    forall x: Id | x < |k.items|
      ensures ValOf(Evaluate(k, us), x).tri == ValOf(Evaluate(k, us'), x).tri
      ensures ValOf(Evaluate(k, us), x).str == ValOf(Evaluate(k, us'), x).str
    {
      RankBounded(k, x);
      assert AgreeAt(k, all, Evaluate(k, us), Evaluate(k, us'), x);
      if k.Item(x).Choice? {
        SolvedRest(k, us, x);
        SolvedRest(k, us', x);
      }
    }
  }

  lemma SameMeansRecreatable(k: Config, us: Users, us': Users, x: Id)
    requires MinReload(k, us, us') && SameValues(k, us, us') && x < |k.items|
    ensures Recreatable(k, Evaluate(k, us), x)
  {
    if k.Item(x).Choice? {
      SameValuesAgree(k, us, us', Place(k, x, MODE));
      ModeRecreated(k, us, us', x);
      SolvedChoice(k, us', x);
    } else if k.Item(x).defined {
      SameValuesAgree(k, us, us', Place(k, x, TRI));
      SameValuesAgree(k, us, us', Place(k, x, STR));
      TriRecreated(k, us, us', x);
      TextRecreated(k, us, us', x);
      SolvedTri(k, us, x);
      SolvedTri(k, us', x);
      SolvedStr(k, us, x);
      SolvedStr(k, us', x);
    } else {
      SolvedVis(k, us, x);
      UndefinedInvisible(k, Evaluate(k, us), x);
    }
  }

  // A configuration that is replaced by a minimal file has all the values of the one that the file was
  // written for, if and only if all of them are recreated.
  lemma MinimalExact(k: Config, us: Users, us': Users)
    requires MinReload(k, us, us')
    ensures SameValues(k, us, us') <==> forall x: Id :: x < |k.items| ==> Recreatable(k, Evaluate(k, us), x)
  {
    if forall x: Id :: x < |k.items| ==> Recreatable(k, Evaluate(k, us), x) {
      RecreatableMeansSame(k, us, us');
    }
    if SameValues(k, us, us') {
      forall x: Id | x < |k.items| ensures Recreatable(k, Evaluate(k, us), x) {
        SameMeansRecreatable(k, us, us', x);
      }
    }
  }

  // No tristates, no optional choices, and only bools are selected.
  ghost predicate AllBool(k: Config, v: Valuation) {
    forall x: Id {:trigger k.Item(x)} :: x < |k.items| ==>
      && ((k.Item(x).Symbol? && k.Item(x).defined) ==> k.Item(x).origType != TRISTATE)
      && (k.Item(x).Choice? ==> k.Item(x).origType == BOOL && !k.Item(x).optional)
      && (k.Item(x).Symbol? && !k.Item(x).Logical() ==> ExprValue(k, v, k.Item(x).revDep) == 0)
  }

  lemma BoolRecreatable(k: Config, us: Users, x: Id)
    requires Good(k, us) && AllBool(k, Evaluate(k, us)) && x < |k.items|
    ensures Recreatable(k, Evaluate(k, us), x)
  {
    if k.Item(x).Symbol? && !k.Item(x).defined {
      SolvedVis(k, us, x);
      UndefinedInvisible(k, Evaluate(k, us), x);
    } else if k.Item(x).origType == BOOL {
      BoolVisibility(k, us, x);
    }
  }

  // Then nothing is ever lost.
  lemma MinimalIsComplete(k: Config, us: Users, us': Users)
    requires MinReload(k, us, us') && AllBool(k, Evaluate(k, us))
    ensures SameValues(k, us, us')
  {
    forall x: Id | x < |k.items| ensures Recreatable(k, Evaluate(k, us), x) {
      BoolRecreatable(k, us, x);
    }
    MinimalExact(k, us, us');
  }
}
