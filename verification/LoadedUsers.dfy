/** The user values that are left when a configuration is replaced by a file with lines for some symbols.

    A line gives a symbol its value.  For a choice symbol that is not n it also gives the choice its mode,
    and for y its selection. */
module LoadedUsers {
  import opened Wrappers
  import opened Model
  import opened Numbers
  import opened Values
  import opened Support
  import opened Transfer
  import opened Reference
  import opened CacheInvariant
  import opened Assignments
  import opened ChoiceModes
  import opened ConfigLines
  import opened ConfigFile

  // Choices are proper, and every symbol that is defined may be written.
  ghost predicate ProperChoices(k: Config) {
    forall x: Id {:trigger k.Item(x)} :: x < |k.items| ==>
      (k.Item(x).Choice? ==> ProperChoice(k, x)) && (DefinedSymbol(k, x) ==> !k.Item(x).noConf)
  }

  // The values that are written survive it.
  ghost predicate Textual(k: Config, v: Valuation) {
    forall x: Id :: DefinedSymbol(k, x) ==> Writable(k.Item(x), ValOf(v, x).str)
  }

  // The user value that the line of a symbol gives it, if the value is valid.
  function LineValue(k: Config, v: Valuation, x: Id): Option<UserValue> {
    Accepted(k.Item(x), StrValue(ValOf(v, x).str))
  }

  // The line of `x` gives choice `c` its mode.
  predicate SetsMode(k: Config, v: Valuation, x: Id, c: Id) {
    k.Item(x).InChoice() && k.Item(x).choice.value == c && ValOf(v, x).str != "n"
  }

  // What the user values of a choice are after that.
  predicate FollowsLine(k: Config, v: Valuation, user: User, x: Id, c: Id) {
    && user.value == Accepted(k.Item(c), StrValue(ValOf(v, x).str))
    && (ValOf(v, x).str == "y" ==> user.selection == Some(x))
  }

  // ---------- Lines that do not contradict each other ----------

  predicate SymbolWellValued(k: Config, v: Valuation, x: Id) {
    && (k.Item(x).Logical() ==>
          ValOf(v, x).str == TriToStr(ValOf(v, x).tri) && (k.Item(x).origType == BOOL ==> ValOf(v, x).tri != 1))
    && (k.Item(x).origType == UNKNOWN ==> !ValOf(v, x).write)
  }

  ghost predicate LineOk(k: Config, v: Valuation, x: Id) {
    && DefinedSymbol(k, x) && ConfigString(k, v, x).Some? && Writable(k.Item(x), ValOf(v, x).str)
    && SymbolWellValued(k, v, x) && (k.Item(x).InChoice() ==> MemberLineOk(k, v, x, k.Item(x).choice.value))
  }

  ghost predicate MemberLineOk(k: Config, v: Valuation, x: Id, c: Id) {
    && c < |k.items| && k.Item(c).Choice? && k.Item(x).Logical()
    && (ValOf(v, x).str != "n" ==> Accepted(k.Item(c), StrValue(ValOf(v, x).str)).Some?)
  }

  // The symbols of a choice agree on the mode, and at most one of them is y.
  ghost predicate OneMode(k: Config, v: Valuation, x: Id, y: Id, c: Id) {
    SetsMode(k, v, x, c) && SetsMode(k, v, y, c) ==>
      ValOf(v, x).str == ValOf(v, y).str && (ValOf(v, x).str == "y" ==> x == y)
  }

  ghost predicate LinesAgree(k: Config, v: Valuation, xs: set<Id>) {
    && (forall x :: x in xs ==> LineOk(k, v, x))
    && (forall x, y, c :: x in xs && y in xs ==> OneMode(k, v, x, y, c))
  }

  // ---------- Loading ----------

  // The settings once the lines of the symbols `xs` have been loaded.
  ghost predicate Loading(k: Config, v: Valuation, before: seq<Setting>, now: seq<Setting>, xs: set<Id>) {
    && |before| == |now| == |k.items|
    && (forall x: Id :: DefinedSymbol(k, x) ==> SymbolLoaded(k, v, before[x], now[x], x, x in xs))
    && (forall c: Id :: c < |k.items| && k.Item(c).Choice? ==> ChoiceLoaded(k, v, before[c], now[c], c, xs))
  }

  ghost predicate SymbolLoaded(k: Config, v: Valuation, before: Setting, now: Setting, x: Id, loaded: bool) {
    if loaded && LineValue(k, v, x).Some? then now.user.value == LineValue(k, v, x) && now.wasSet
    else now.user.value == before.user.value && now.wasSet == before.wasSet
  }

  ghost predicate ChoiceLoaded(k: Config, v: Valuation, before: Setting, now: Setting, c: Id, xs: set<Id>) {
    && (forall x :: x in xs && SetsMode(k, v, x, c) ==> FollowsLine(k, v, now.user, x, c) && now.wasSet)
    && ((forall x :: x in xs ==> !SetsMode(k, v, x, c)) ==> now.user == before.user && now.wasSet == before.wasSet)
  }

  // What setting a symbol changes.
  lemma SetSymbol(k: Config, now: seq<Setting>, v: Valuation, x: Id)
    requires x < |now| == |k.items| && k.Item(x).Symbol?
    ensures var after := SetTo(k, now, x, StrValue(ValOf(v, x).str));
      && (LineValue(k, v, x).Some? ==> after[x].user.value == LineValue(k, v, x) && after[x].wasSet)
      && (LineValue(k, v, x).None? ==> after == now)
      && forall y ::
           0 <= y < |now| && y != x
           && (!k.Item(x).InChoice() || ValOf(v, x).str != "y" || k.Item(x).choice != Some(y))
           ==> after[y] == now[y]
  {
  }

  lemma PlainLineLoads(k: Config, v: Valuation, before: seq<Setting>, now: seq<Setting>, xs: set<Id>, x: Id)
    requires Loading(k, v, before, now, xs) && LineOk(k, v, x) && x !in xs
    requires k.Item(x).choice.None? || ValOf(v, x).str == "n"
    ensures Loading(k, v, before, SetTo(k, now, x, StrValue(ValOf(v, x).str)), xs + {x})
  {
    var after := SetTo(k, now, x, StrValue(ValOf(v, x).str));
    SetSymbol(k, now, v, x);
    forall y: Id | DefinedSymbol(k, y) ensures SymbolLoaded(k, v, before[y], after[y], y, y in xs + {x}) {
      assert SymbolLoaded(k, v, before[y], now[y], y, y in xs);
    }
    forall c: Id | c < |k.items| && k.Item(c).Choice? ensures ChoiceLoaded(k, v, before[c], after[c], c, xs + {x}) {
      assert ChoiceLoaded(k, v, before[c], now[c], c, xs) && after[c] == now[c];
    }
  }

  // What the line of a choice symbol changes.
  lemma SetMember(k: Config, now: seq<Setting>, v: Valuation, x: Id, c: Id)
    requires |now| == |k.items| && LineOk(k, v, x) && SetsMode(k, v, x, c)
    ensures var after := Reassigned(k, now, v, x);
      && LineValue(k, v, x).Some? && after[x].user.value == LineValue(k, v, x) && after[x].wasSet
      && FollowsLine(k, v, after[c].user, x, c) && after[c].wasSet
      && (ValOf(v, x).str != "y" ==> after[c].user.selection == now[c].user.selection)
      && forall y :: 0 <= y < |now| && y != x && y != c ==> after[y] == now[y]
  {
    assert MemberLineOk(k, v, x, c);
  }

  lemma MemberLineLoads(k: Config, v: Valuation, before: seq<Setting>, now: seq<Setting>, xs: set<Id>, x: Id, c: Id)
    requires Loading(k, v, before, now, xs) && LinesAgree(k, v, xs + {x}) && x !in xs && SetsMode(k, v, x, c)
    ensures Loading(k, v, before, Reassigned(k, now, v, x), xs + {x})
  {
    var after := Reassigned(k, now, v, x);
    assert LineOk(k, v, x);
    SetMember(k, now, v, x, c);
    forall y: Id | DefinedSymbol(k, y) ensures SymbolLoaded(k, v, before[y], after[y], y, y in xs + {x}) {
      assert SymbolLoaded(k, v, before[y], now[y], y, y in xs);
    }
    forall d: Id | d < |k.items| && k.Item(d).Choice? ensures ChoiceLoaded(k, v, before[d], after[d], d, xs + {x}) {
      assert ChoiceLoaded(k, v, before[d], now[d], d, xs);
      if d == c {
        assert x in xs + {x};
        forall y | y in xs + {x} && SetsMode(k, v, y, c)
          ensures FollowsLine(k, v, after[c].user, y, c) && after[c].wasSet
        {
          assert OneMode(k, v, x, y, c);
        }
      }
    }
  }

  lemma LineLoads(k: Config, v: Valuation, before: seq<Setting>, now: seq<Setting>, all: set<Id>, xs: set<Id>, x: Id)
    requires UniqueNames(k) && LinesAgree(k, v, all) && xs + {x} <= all && x !in xs
    requires Loading(k, v, before, now, xs)
    ensures ConfigString(k, v, x).Some?
    ensures Loading(k, v, before, LoadLine(k, now, ConfigString(k, v, x).value), xs + {x})
  {
    assert LineOk(k, v, x) && k.Item(x) == k.items[x];
    WrittenLineLoads(k, now, v, x);
    if k.Item(x).choice.None? || ValOf(v, x).str == "n" {
      PlainLineLoads(k, v, before, now, xs, x);
    } else {
      MemberLineLoads(k, v, before, now, xs, x, k.Item(x).choice.value);
    }
  }

  // ---------- Afterwards ----------

  // The user values when exactly the lines of the symbols `xs` have been loaded.
  ghost predicate Reloaded(k: Config, v: Valuation, us': Users, xs: set<Id>) {
    && (forall x: Id :: DefinedSymbol(k, x) ==> UserOf(us', x).value == if x in xs then LineValue(k, v, x) else None)
    && (forall c: Id :: c < |k.items| && k.Item(c).Choice? ==> ChoiceReloaded(k, v, us', c, xs))
  }

  ghost predicate ChoiceReloaded(k: Config, v: Valuation, us': Users, c: Id, xs: set<Id>) {
    && (forall x :: x in xs && SetsMode(k, v, x, c) ==> FollowsLine(k, v, UserOf(us', c), x, c))
    && ((forall x :: x in xs ==> !SetsMode(k, v, x, c)) ==> UserOf(us', c) == NO_USER)
  }

  lemma AllLoaded(k: Config, v: Valuation, st: seq<Setting>, after: seq<Setting>, xs: set<Id>)
    requires WellFormed(k) && |st| == |k.items| && Loading(k, v, NothingSet(k, st), after, xs)
    ensures Reloaded(k, v, UsersIn(UnsetOthers(k, after)), xs)
  {
    var before, us' := NothingSet(k, st), UsersIn(UnsetOthers(k, after));
    forall x: Id | DefinedSymbol(k, x) ensures UserOf(us', x).value == if x in xs then LineValue(k, v, x) else None {
      assert ItemOk(k, x) && SymbolLoaded(k, v, before[x], after[x], x, x in xs);
    }
    forall c: Id | c < |k.items| && k.Item(c).Choice? ensures ChoiceReloaded(k, v, us', c, xs) {
      assert ChoiceLoaded(k, v, before[c], after[c], c, xs);
    }
  }

  // ---------- Lines of an evaluated configuration ----------

  // A bool symbol is never visible with m only.
  lemma BoolVisibility(k: Config, us: Users, x: Id)
    requires Good(k, us) && x < |k.items| && k.Item(x).origType == BOOL
    ensures ValOf(Evaluate(k, us), x).vis != 1
  {
    SolvedVis(k, us, x);
  }

  lemma EvaluatedSymbol(k: Config, us: Users, x: Id)
    requires Good(k, us) && ProperChoices(k) && DefinedSymbol(k, x)
    ensures SymbolWellValued(k, Evaluate(k, us), x)
    ensures ValOf(Evaluate(k, us), x).write
         == if k.Item(x).Logical() then SymTri(k, us, Evaluate(k, us), x).write
            else SymText(k, us, Evaluate(k, us), x).write
    ensures ValOf(Evaluate(k, us), x).tri == SymTri(k, us, Evaluate(k, us), x).val
    ensures ValOf(Evaluate(k, us), x).str == SymText(k, us, Evaluate(k, us), x).val
  {
    assert ItemOk(k, x);
    SolvedTri(k, us, x);
    SolvedStr(k, us, x);
    SolvedWrite(k, us, x);
    if k.Item(x).origType == BOOL {
      BoolVisibility(k, us, x);
    }
  }

  // The choice of a symbol.
  lemma MemberOf(k: Config, us: Users, x: Id)
    requires Good(k, us) && ProperChoices(k) && DefinedSymbol(k, x) && k.Item(x).InChoice()
    ensures var c := k.Item(x).choice.value;
      && c < |k.items| && k.Item(c).Choice? && ProperChoice(k, c) && x in k.Item(c).syms && k.Item(x).Logical()
      && k.Rank(x) == k.Rank(c) + 1
  {
    assert ItemOk(k, x);
  }

  // A symbol of a choice that is not n has the value of the mode, and is the selection if that is y.
  lemma EvaluatedMode(k: Config, us: Users, x: Id, c: Id)
    requires Good(k, us) && ProperChoices(k) && DefinedSymbol(k, x) && k.Item(x).choice == Some(c)
    ensures var v := Evaluate(k, us);
      SetsMode(k, v, x, c) ==>
        && ValOf(v, x).str == TriToStr(ValOf(v, c).tri)
        && (ValOf(v, c).tri == 2 ==> ValOf(v, c).sel == Some(x))
  {
    MemberOf(k, us, x);
    EvaluatedSymbol(k, us, x);
    ModeDecides(k, us, c, x);
  }

  lemma EvaluatedMember(k: Config, us: Users, x: Id, c: Id)
    requires Good(k, us) && ProperChoices(k) && DefinedSymbol(k, x) && k.Item(x).choice == Some(c)
    ensures MemberLineOk(k, Evaluate(k, us), x, c)
  {
    MemberOf(k, us, x);
    EvaluatedMode(k, us, x, c);
    ModeFits(k, us, c);
  }

  // The mode of a choice can be assigned to it.
  lemma ModeFits(k: Config, us: Users, c: Id)
    requires Good(k, us) && ProperChoice(k, c)
    ensures Accepted(k.Item(c), StrValue(TriToStr(ValOf(Evaluate(k, us), c).tri))).Some?
  {
    SolvedChoice(k, us, c);
  }

  // What is written for an evaluated configuration does not contradict itself.
  lemma EvaluatedLinesAgree(k: Config, us: Users, xs: set<Id>)
    requires Good(k, us) && ProperChoices(k) && Textual(k, Evaluate(k, us))
    requires forall x :: x in xs ==> DefinedSymbol(k, x) && ConfigString(k, Evaluate(k, us), x).Some?
    ensures LinesAgree(k, Evaluate(k, us), xs)
  {
    var v := Evaluate(k, us);
    forall x | x in xs ensures LineOk(k, v, x) {
      EvaluatedSymbol(k, us, x);
      if k.Item(x).InChoice() {
        EvaluatedMember(k, us, x, k.Item(x).choice.value);
      }
    }
    forall x, y, c | x in xs && y in xs ensures OneMode(k, v, x, y, c) {
      if SetsMode(k, v, x, c) && SetsMode(k, v, y, c) {
        EvaluatedMode(k, us, x, c);
        EvaluatedMode(k, us, y, c);
      }
    }
  }
}
