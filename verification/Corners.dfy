/** Small configurations at which the exceptions to the general results occur.

    All of them have modules enabled, and one symbol FOO:

        config MODULES
            def_bool y

    together with what is given for each. */
module Corners {
  import opened Wrappers
  import opened Model
  import opened Values
  import opened Support
  import opened Transfer
  import opened Reference
  import opened Assignments
  import opened ChoiceModes
  import opened ConfigFile
  import opened AssignableValues
  import opened LoadedUsers
  import opened MinConfig
  import opened RoundTrip
  import opened MenuForest
  import opened MenuLines
  import opened ConfigWalk
  import opened KconfigFiles

  const N: Id := 0
  const M: Id := 1
  const Y: Id := 2
  const MODULES: Id := 3

  function ConstantSymbol(name: string, t: Tri): Item {
    Symbol(name, TRISTATE, true, Some(t), false, None, [], [], [], NEVER, NEVER, NEVER, false)
  }

  // n, m, y and MODULES, which come first.
  function Basics(): seq<Item> {
    [ConstantSymbol("n", 0), ConstantSymbol("m", 1), ConstantSymbol("y", 2),
     Symbol("MODULES", BOOL, false, None, true, None, [], [Default(Ref(Y), Ref(Y))], [], Ref(N), Ref(N), Ref(Y), false)]
  }

  function BasicValues(): Valuation {
    [Val(0, 0, "n", [], None, false), Val(0, 1, "m", [], None, false), Val(0, 2, "y", [], None, false),
     Val(0, 2, "y", [], None, true)]
  }

  function NoUsers(k: Config): (us: Users)
    ensures |us| == |k.items|
  {
    seq(|k.items|, _ => NO_USER)
  }

  // No user values for the first four, and only values that fit elsewhere.
  ghost predicate PlainUsers(k: Config, us: Users) {
    && UsersTyped(k, us)
    && forall x: Id {:trigger UserOf(us, x)} ::
         UserOf(us, x).selection == None && (x < 4 ==> UserOf(us, x).value == None)
  }

  ghost predicate Extends(k: Config, v: Valuation) {
    && Basics() <= k.items && BasicValues() <= v && |v| == |k.items| == |k.order| && k.modules == MODULES
    && k.order[..4] == [0, 0, 0, 1]
  }

  lemma BasicsOk(k: Config, v: Valuation, x: Id)
    requires Extends(k, v) && x < 4
    ensures k.Item(x) == Basics()[x] && ItemOk(k, x) && ItemRefs(k.Item(x)) == (if x == MODULES then {N, Y} else {})
  {
    assert k.items[x] == Basics()[x];
    SingleRefs(Ref(Y));
  }

  lemma SingleRefs(e: Expr)
    ensures AllRefs([e]) == Refs(e) && DefaultRefs([Default(e, Ref(Y))]) == Refs(e) + {Y}
  {
    assert [e][1..] == [];
    assert [Default(e, Ref(Y))][1..] == [];
  }

  lemma SinglePrompt(k: Config, v: Valuation, e: Expr)
    ensures PromptMax(k, v, [e]) == ExprValue(k, v, e)
  {
    assert [e][1..] == [];
  }

  lemma BasicsSolve(k: Config, us: Users, v: Valuation, x: Id)
    requires Extends(k, v) && PlainUsers(k, us) && x < 4
    ensures v[x] == Compute(k, us, v, x)
  {
    BasicsOk(k, v, x);
    assert v[x] == BasicValues()[x] && v[N] == BasicValues()[N] && v[Y] == BasicValues()[Y];
    assert UserOf(us, x) == NO_USER;
  }

  // What is left to show of the items after the first four.
  ghost predicate RestOk(k: Config) {
    forall x: Id :: 4 <= x < |k.items| ==> RestItemOk(k, x)
  }

  ghost predicate RestItemOk(k: Config, x: Id) {
    && ItemOk(k, x) && k.Rank(x) > 1
    && (forall y :: y in ItemRefs(k.Item(x)) ==> k.Rank(y) < k.Rank(x))
    && (k.Item(x).Choice? ==> forall s :: s in k.Item(x).syms ==> k.Rank(s) == k.Rank(x) + 1)
  }

  // Everything that is asked of an item, together with its rank.
  ghost predicate InPlace(k: Config, x: Id) {
    && ItemOk(k, x)
    && (forall y :: y in ItemRefs(k.Item(x)) ==> k.Rank(y) < k.Rank(x))
    && (k.Item(x).Choice? ==> forall s :: s in k.Item(x).syms ==> k.Rank(s) == k.Rank(x) + 1)
    && (k.Item(x).ConsultsModules() ==> k.Rank(MODULES) < k.Rank(x))
  }

  lemma ItemInPlace(k: Config, v: Valuation, x: Id)
    requires Extends(k, v) && RestOk(k) && x < |k.items|
    ensures InPlace(k, x)
  {
    assert k.order[0] == k.order[..4][0] && k.order[1] == k.order[..4][1] && k.order[2] == k.order[..4][2];
    assert k.order[3] == k.order[..4][3];
    if x < 4 {
      BasicsOk(k, v, x);
    } else {
      assert RestItemOk(k, x);
    }
  }

  lemma AllInPlace(k: Config, v: Valuation)
    requires Extends(k, v) && RestOk(k)
    ensures WellFormed(k) && Ordered(k)
  {
    forall x: Id | x < |k.items| ensures ItemOk(k, x) {
      ItemInPlace(k, v, x);
    }
    forall x: Id, y | x < |k.items| && y in ItemRefs(k.Item(x)) ensures k.Rank(y) < k.Rank(x) {
      ItemInPlace(k, v, x);
    }
    forall c: Id, s | c < |k.items| && k.Item(c).Choice? && s in k.Item(c).syms ensures k.Rank(s) == k.Rank(c) + 1 {
      ItemInPlace(k, v, c);
    }
    forall x: Id | x < |k.items| && k.Item(x).ConsultsModules() ensures k.Rank(MODULES) < k.Rank(x) {
      ItemInPlace(k, v, x);
    }
    BasicsOk(k, v, MODULES);
  }

  lemma AllGood(k: Config, us: Users, v: Valuation)
    requires Extends(k, v) && RestOk(k) && PlainUsers(k, us)
    ensures Good(k, us)
  {
    AllInPlace(k, v);
    assert SelectionsOk(k, us);
  }

  ghost predicate SolvedAt(k: Config, us: Users, v: Valuation, x: Id)
    requires x < |v|
  {
    v[x] == Compute(k, us, v, x)
  }

  // There are one or two items besides the first four.
  lemma AllSolved(k: Config, us: Users, v: Valuation)
    requires Extends(k, v) && RestOk(k) && PlainUsers(k, us) && 5 <= |k.items| <= 6
    requires SolvedAt(k, us, v, 4) && (|k.items| == 6 ==> SolvedAt(k, us, v, 5))
    ensures Good(k, us) && Evaluate(k, us) == v
  {
    AllGood(k, us, v);
    forall x: Id | x < |k.items| ensures v[x] == Compute(k, us, v, x) {
      if x < 4 {
        BasicsSolve(k, us, v, x);
      } else {
        assert x == 4 || x == 5;
      }
    }
    SolutionUnique(k, us, v);
  }

  lemma NoUsersPlain(k: Config)
    ensures PlainUsers(k, NoUsers(k)) && UsersTyped(k, NoUsers(k))
  {
    forall x: Id ensures UserOf(NoUsers(k), x) == NO_USER {}
  }

  // FOO is `tristate "foo" if m`.

  const FOO: Id := 4

  function OneFoo(defaults: seq<Default>, revDep: Expr, weakRevDep: Expr): Config {
    Config(Basics() + [Symbol("FOO", TRISTATE, false, None, true, None, [Ref(M)], defaults, [], revDep, weakRevDep,
                              Ref(Y), false)],
           MODULES, [0, 0, 0, 1, 2])
  }

  lemma OneFooOk(defaults: seq<Default>, revDep: Expr, weakRevDep: Expr)
    requires defaults == [] || defaults == [Default(Ref(Y), Ref(Y))]
    requires revDep == Ref(N) || revDep == And(Ref(MODULES), Ref(M))
    requires weakRevDep == Ref(N) || weakRevDep == Ref(MODULES)
    ensures RestOk(OneFoo(defaults, revDep, weakRevDep))
  {
    var k := OneFoo(defaults, revDep, weakRevDep);
    SingleRefs(Ref(M));
    SingleRefs(Ref(Y));
    assert ItemRefs(k.Item(FOO)) <= {N, M, Y, MODULES};
    assert RelationsOk(k, k.Item(FOO));
  }

  // ---------- Implied past its visibility ----------

  // MODULES also has `select FOO if m` and `imply FOO`.

  function Implied(): Config {
    OneFoo([], And(Ref(MODULES), Ref(M)), Ref(MODULES))
  }

  function ImpliedValues(): Valuation {
    BasicValues() + [Val(1, 2, "y", [1], None, true)]
  }

  lemma ImpliedSolved()
    ensures var k := Implied();
      Good(k, NoUsers(k)) && UsersTyped(k, NoUsers(k)) && Evaluate(k, NoUsers(k)) == ImpliedValues()
  {
    var k, v := Implied(), ImpliedValues();
    OneFooOk([], And(Ref(MODULES), Ref(M)), Ref(MODULES));
    SinglePrompt(k, v, Ref(M));
    assert UserOf(NoUsers(k), FOO) == NO_USER;
    NoUsersPlain(k);
    AllSolved(k, NoUsers(k), v);
  }

  lemma ImpliedFoo()
    ensures var k, v := Implied(), ImpliedValues(); var foo := k.Item(FOO);
      && foo.Symbol? && foo.origType == TRISTATE && foo.choice.None? && foo.defined && ValOf(v, FOO).vis == 1
      && ExprValue(k, v, foo.revDep) == 1 && ExprValue(k, v, foo.weakRevDep) == 2
  {
    var k, v := Implied(), ImpliedValues();
    assert k.Item(FOO).revDep == And(Ref(MODULES), Ref(M)) && k.Item(FOO).weakRevDep == Ref(MODULES);
    assert ValOf(v, MODULES).tri == 2 && ValOf(v, M).tri == 1;
  }

  lemma ImpliedIsCorner()
    ensures FreeSymbol(Implied(), NoUsers(Implied()), FOO) && ImpliedPastVisibility(Implied(), NoUsers(Implied()), FOO)
    ensures ValidUserValue(Implied().Item(FOO), TriValue(1))
  {
    ImpliedSolved();
    ImpliedFoo();
  }

  // m is listed as the only assignable value, and assigning it gives y.
  lemma ImpliedIsWrong()
    ensures var k := Implied();
      && Good(k, NoUsers(k)) && UsersTyped(k, NoUsers(k)) && FreeSymbol(k, NoUsers(k), FOO)
      && ImpliedPastVisibility(k, NoUsers(k), FOO) && !Exact(k, NoUsers(k), FOO)
      && ValOf(Evaluate(k, NoUsers(k)), FOO).asg == [1] && ValueAfter(k, NoUsers(k), FOO, 1) == 2
  {
    var k := Implied();
    ImpliedSolved();
    ImpliedIsCorner();
    AssignableExact(k, NoUsers(k), FOO);
    ValueIsLimited(k, NoUsers(k), FOO, 1);
  }

  // ---------- More than its visibility by default ----------

  // FOO has `default y`.

  function Defaulted(): Config {
    OneFoo([Default(Ref(Y), Ref(Y))], Ref(N), Ref(N))
  }

  function DefaultedValues(): Valuation {
    BasicValues() + [Val(1, 2, "y", [0, 1], None, true)]
  }

  lemma DefaultedSolved()
    ensures var k := Defaulted();
      Good(k, NoUsers(k)) && UsersTyped(k, NoUsers(k)) && Evaluate(k, NoUsers(k)) == DefaultedValues()
  {
    var k, v := Defaulted(), DefaultedValues();
    OneFooOk([Default(Ref(Y), Ref(Y))], Ref(N), Ref(N));
    SinglePrompt(k, v, Ref(M));
    assert UserOf(NoUsers(k), FOO) == NO_USER;
    NoUsersPlain(k);
    AllSolved(k, NoUsers(k), v);
  }

  lemma NoChoices(k: Config)
    requires forall i :: 0 <= i < |k.items| ==> k.items[i].Symbol? && k.items[i].choice.None? && !k.items[i].noConf
    ensures ProperChoices(k)
  {
    forall x: Id | x < |k.items| ensures k.Item(x).Symbol? && k.Item(x).choice.None? && !k.Item(x).noConf {
      assert k.Item(x) == k.items[x];
    }
  }

  lemma DefaultedCorner()
    ensures var k, v := Defaulted(), DefaultedValues();
      ProperChoices(k) && ValOf(v, FOO).tri == 2 && !Restorable(k, v, FOO)
  {
    var k, v := Defaulted(), DefaultedValues();
    NoChoices(k);
    assert TypeOf(k, v, FOO) == TRISTATE && ExprValue(k, v, k.Item(FOO).weakRevDep) == 0;
  }

  // What loading the file leaves: both symbols are set to y.
  function DefaultedAgain(): Users {
    NoUsers(Defaulted())[MODULES := User(Some(TriValue(2)), None)][FOO := User(Some(TriValue(2)), None)]
  }

  lemma DefaultedReloaded()
    ensures var k, v := Defaulted(), DefaultedValues(); Reloaded(k, v, DefaultedAgain(), Written(k, v))
    ensures NoSelections(DefaultedAgain())
  {
    var k, v, us := Defaulted(), DefaultedValues(), DefaultedAgain();
    assert UserOf(us, MODULES).value == UserOf(us, FOO).value == Some(TriValue(2));
    forall x: Id | DefinedSymbol(k, x) ensures x == MODULES || x == FOO {}
    assert LineValue(k, v, MODULES) == LineValue(k, v, FOO) == Some(TriValue(2));
    assert MODULES in Written(k, v) && FOO in Written(k, v);
    forall c: Id | c < |k.items| ensures k.Item(c).Symbol? {}
  }

  // The value is y, and loading the file that was written for it gives another.
  lemma DefaultedIsLost()
    ensures var k := Defaulted(); var us, us' := NoUsers(k), DefaultedAgain();
      && Good(k, us) && ProperChoices(k) && ValOf(Evaluate(k, us), FOO).tri == 2
      && Reload(k, us, us') && !SameValues(k, us, us')
  {
    DefaultedSolved();
    DefaultedCorner();
    DefaultedReloaded();
    LostIn(Defaulted(), NoUsers(Defaulted()), DefaultedAgain(), FOO);
  }

  ghost predicate NoSelections(us: Users) {
    forall x: Id :: UserOf(us, x).selection == None
  }

  // A symbol or choice that is not restorable.
  lemma LostIn(k: Config, us: Users, us': Users, x: Id)
    requires Good(k, us) && UsersTyped(k, us) && ProperChoices(k) && x < |k.items|
    requires NoSelections(us') && !Restorable(k, Evaluate(k, us), x)
    requires Reloaded(k, Evaluate(k, us), us', Written(k, Evaluate(k, us)))
    ensures Reload(k, us, us') && !SameValues(k, us, us')
  {
    assert SelectionsOk(k, us');
    ReloadExact(k, us, us');
  }

  // Files that this configuration is read from.
  function DefaultedFiles(): seq<Line> {
    [ConfigLine(MODULES, Attr(Ref(Y), None, [Default(Ref(Y), Ref(Y))], [], [], [])),
     SourceLine([ConfigLine(FOO, Attr(Ref(Y), Some(Ref(M)), [Default(Ref(Y), Ref(Y))], [], [], []))])]
  }

  lemma LastLine(line: Line)
    requires line.ConfigLine?
    ensures ReadBlock([line], None, Y) == Block(Item(HeadOf(line, Y).value, Empty, Empty), [])
  {
    var one := Item(HeadOf(line, Y).value, Empty, Empty);
    assert [line][1..] == [] && ReadBlock([], None, Y) == Block(Empty, []);
    ReadsOn([line], None, Y, one, []);
    JoinEmpty(one);
  }

  function DefaultedOutline(): Outline {
    var lines := DefaultedFiles();
    Item(HeadOf(lines[0], Y).value, Empty, Item(HeadOf(lines[1].file[0], Y).value, Empty, Empty))
  }

  lemma DefaultedReads()
    ensures ReadBlock(DefaultedFiles(), None, Y) == Block(DefaultedOutline(), [])
  {
    var lines := DefaultedFiles();
    LastLine(lines[1].file[0]);
    assert lines[1].file == [lines[1].file[0]] && lines[1..][1..] == [];
    assert ReadBlock(lines[1..], None, Y) == Block(DefaultedOutline().rest, []);
  }

  lemma DefaultedHeads(h: Head)
    requires h in Heads(DefaultedOutline())
    ensures HeadFits(Defaulted(), h)
  {
    NoTitleInert();
  }

  lemma DefaultedRead()
    ensures ReadBlock(DefaultedFiles(), None, Y).Block? && FilesFit(DefaultedFiles(), Defaulted(), N, M, Y)
  {
    var o := DefaultedOutline();
    DefaultedReads();
    forall i | 0 <= i < |Heads(o)| ensures HeadFits(Defaulted(), Heads(o)[i]) {
      DefaultedHeads(Heads(o)[i]);
    }
    assert Heads(o) == [o.head, o.rest.head];
    assert Heads(o)[0].entry.item == OfSymbol(MODULES) && Heads(o)[1].entry.item == OfSymbol(FOO);
    forall x: Id | DefinedSymbol(Defaulted(), x) ensures x == MODULES || x == FOO {}
  }

  // ---------- Left out of a minimal file ----------

  // FOO has `default y`, MODULES has `select FOO if m`, and FOO has been set to m.

  function Pinned(): Config {
    OneFoo([Default(Ref(Y), Ref(Y))], And(Ref(MODULES), Ref(M)), Ref(N))
  }

  function PinnedUsers(): Users {
    NoUsers(Pinned())[FOO := User(Some(TriValue(1)), None)]
  }

  function PinnedValues(): Valuation {
    BasicValues() + [Val(1, 1, "m", [1], None, true)]
  }

  lemma PinnedSolved()
    ensures Good(Pinned(), PinnedUsers()) && UsersTyped(Pinned(), PinnedUsers())
    ensures Evaluate(Pinned(), PinnedUsers()) == PinnedValues()
  {
    var k, us, v := Pinned(), PinnedUsers(), PinnedValues();
    OneFooOk([Default(Ref(Y), Ref(Y))], And(Ref(MODULES), Ref(M)), Ref(N));
    SinglePrompt(k, v, Ref(M));
    assert UserOf(us, FOO) == User(Some(TriValue(1)), None);
    AllSolved(k, us, v);
  }

  lemma PinnedCorner()
    ensures var k, v := Pinned(), PinnedValues();
      ProperChoices(k) && Sound(k, v) && MinLine(k, v, FOO) == None && !Recreatable(k, v, FOO)
  {
    var k, v := Pinned(), PinnedValues();
    NoChoices(k);
    forall x: Id | DefinedSymbol(k, x) ensures x == MODULES || x == FOO {}
  }

  lemma PinnedReloaded()
    ensures var k, v := Pinned(), PinnedValues(); Reloaded(k, v, NoUsers(k), MinWritten(k, v))
  {
    var k, v := Pinned(), PinnedValues();
    NoUsersPlain(k);
    forall x: Id | DefinedSymbol(k, x) ensures x !in MinWritten(k, v) {
      assert x == MODULES || x == FOO;
    }
    forall x: Id ensures UserOf(NoUsers(k), x) == NO_USER {}
    forall c: Id | c < |k.items| ensures k.Item(c).Symbol? {}
  }

  // The value is m, FOO is left out as it cannot be changed, and loading the file gives it another.
  lemma PinnedIsLost()
    ensures var k, us := Pinned(), PinnedUsers();
      && Good(k, us) && UsersTyped(k, us) && ProperChoices(k) && Sound(k, Evaluate(k, us))
      && ValOf(Evaluate(k, us), FOO).tri == 1 && MinLine(k, Evaluate(k, us), FOO) == None
      && MinReload(k, us, NoUsers(k)) && !SameValues(k, us, NoUsers(k))
  {
    PinnedSolved();
    PinnedCorner();
    PinnedReloaded();
    NotRecreated(Pinned(), PinnedUsers(), FOO);
  }

  // A symbol that is not recreated by a file in which nothing is left.
  lemma NotRecreated(k: Config, us: Users, x: Id)
    requires Good(k, us) && UsersTyped(k, us) && ProperChoices(k) && Sound(k, Evaluate(k, us)) && x < |k.items|
    requires !Recreatable(k, Evaluate(k, us), x)
    requires Reloaded(k, Evaluate(k, us), NoUsers(k), MinWritten(k, Evaluate(k, us)))
    ensures MinReload(k, us, NoUsers(k)) && !SameValues(k, us, NoUsers(k))
  {
    NoUsersPlain(k);
    assert SelectionsOk(k, NoUsers(k));
    MinimalExact(k, us, NoUsers(k));
  }

  // ---------- A selected choice symbol ----------

  // FOO is in a tristate choice with a prompt; it is `tristate "foo"`, and MODULES has `select FOO`.

  const CHOICE: Id := 4
  const MEMBER: Id := 5

  function OneMember(type_: Type, prompt: Expr, revDep: Expr): Config {
    Config(Basics() + [Choice(TRISTATE, false, [Ref(Y)], [], [MEMBER]),
                       Symbol("FOO", type_, false, None, true, Some(CHOICE), [prompt], [], [], revDep, Ref(N),
                              Ref(CHOICE), false)],
           MODULES, [0, 0, 0, 1, 2, 3])
  }

  lemma MemberChoiceOk(type_: Type, prompt: Expr, revDep: Expr)
    ensures RestItemOk(OneMember(type_, prompt, revDep), CHOICE)
  {
    var k := OneMember(type_, prompt, revDep);
    SingleRefs(Ref(Y));
    assert ItemRefs(k.Item(CHOICE)) == {Y} && k.Item(CHOICE).syms == [MEMBER];
  }

  lemma MemberSymbolOk(type_: Type, prompt: Id, revDep: Id)
    requires prompt == N || prompt == CHOICE
    requires revDep == N || revDep == MODULES
    ensures RestItemOk(OneMember(type_, Ref(prompt), Ref(revDep)), MEMBER)
  {
    var k := OneMember(type_, Ref(prompt), Ref(revDep));
    SingleRefs(Ref(prompt));
    assert ItemRefs(k.Item(MEMBER)) == {CHOICE, N, prompt, revDep};
    assert k.Item(CHOICE).syms == [MEMBER];
  }

  lemma OneMemberOk(type_: Type, prompt: Id, revDep: Id)
    requires prompt == N || prompt == CHOICE
    requires revDep == N || revDep == MODULES
    ensures RestOk(OneMember(type_, Ref(prompt), Ref(revDep)))
  {
    MemberChoiceOk(type_, Ref(prompt), Ref(revDep));
    MemberSymbolOk(type_, prompt, revDep);
  }

  lemma OneMemberProper(type_: Type, prompt: Id, revDep: Expr)
    requires (type_ == BOOL || type_ == TRISTATE) && (prompt == N || prompt == CHOICE)
    ensures var k := OneMember(type_, Ref(prompt), revDep); ProperChoices(k) && k.Item(CHOICE).syms == [MEMBER]
  {
    var k := OneMember(type_, Ref(prompt), revDep);
    assert k.Item(MEMBER).prompts == [Ref(prompt)];
  }

  function Selected(): Config {
    OneMember(TRISTATE, Ref(CHOICE), Ref(MODULES))
  }

  function SelectedValues(): Valuation {
    BasicValues() + [Val(2, 1, "m", [1, 2], None, false), Val(1, 0, "n", [2], None, true)]
  }

  lemma SelectedSolved()
    ensures var k := Selected();
      Good(k, NoUsers(k)) && UsersTyped(k, NoUsers(k)) && Evaluate(k, NoUsers(k)) == SelectedValues()
  {
    var k, v := Selected(), SelectedValues();
    OneMemberOk(TRISTATE, CHOICE, MODULES);
    SelectedChoice();
    SelectedMember();
    NoUsersPlain(k);
    AllSolved(k, NoUsers(k), v);
  }

  lemma SelectedChoice()
    ensures var k, v := Selected(), SelectedValues(); v[CHOICE] == Compute(k, NoUsers(k), v, CHOICE)
  {
    var k, v := Selected(), SelectedValues();
    SinglePrompt(k, v, Ref(Y));
    assert UserOf(NoUsers(k), CHOICE) == NO_USER;
  }

  lemma SelectedMember()
    ensures var k, v := Selected(), SelectedValues(); v[MEMBER] == Compute(k, NoUsers(k), v, MEMBER)
  {
    var k, v := Selected(), SelectedValues();
    SinglePrompt(k, v, Ref(CHOICE));
    assert UserOf(NoUsers(k), MEMBER) == NO_USER;
  }

  lemma SelectedProper()
    ensures ProperChoice(Selected(), CHOICE) && MEMBER in Selected().Item(CHOICE).syms
  {
    OneMemberProper(TRISTATE, CHOICE, Ref(MODULES));
    assert Selected().Item(CHOICE).Choice?;
  }

  // y is listed as the only assignable value, and assigning it gives m.
  lemma SelectedIsWrong()
    ensures var k := Selected();
      && Good(k, NoUsers(k)) && UsersTyped(k, NoUsers(k)) && ProperChoice(k, CHOICE) && MEMBER in k.Item(CHOICE).syms
      && !ImpliedPastVisibility(k, NoUsers(k), MEMBER) && !Exact(k, NoUsers(k), MEMBER)
      && ValOf(Evaluate(k, NoUsers(k)), MEMBER).asg == [2] && ValueAfter(k, NoUsers(k), MEMBER, 2) == 1
  {
    var k := Selected();
    SelectedSolved();
    SelectedProper();
    MemberAssignableExact(k, NoUsers(k), CHOICE, MEMBER);
    MemberValueAfter(k, NoUsers(k), CHOICE, MEMBER, 2);
  }

  // ---------- A mode that cannot be told from the symbols ----------

  // The choice has been set to y.

  function YMode(k: Config): Users
    requires |k.items| > CHOICE
  {
    NoUsers(k)[CHOICE := User(Some(TriValue(2)), None)]
  }

  lemma YModeSolved(type_: Type, prompt: Id, v: Valuation)
    requires prompt == N || prompt == CHOICE
    requires var k := OneMember(type_, Ref(prompt), Ref(N));
      Extends(k, v) && SolvedAt(k, YMode(k), v, CHOICE) && SolvedAt(k, YMode(k), v, MEMBER)
    ensures var k := OneMember(type_, Ref(prompt), Ref(N));
      Good(k, YMode(k)) && UsersTyped(k, YMode(k)) && Evaluate(k, YMode(k)) == v
  {
    var k := OneMember(type_, Ref(prompt), Ref(N));
    assert UserOf(YMode(k), CHOICE) == User(Some(TriValue(2)), None) && UserOf(YMode(k), MEMBER) == NO_USER;
    OneMemberOk(type_, prompt, N);
    AllSolved(k, YMode(k), v);
  }

  // FOO is never visible.
  function Unseen(): Config {
    OneMember(TRISTATE, Ref(N), Ref(N))
  }

  function UnseenValues(): Valuation {
    BasicValues() + [Val(2, 2, "y", [1, 2], None, false), Val(0, 0, "n", [], None, false)]
  }

  lemma UnseenSolved()
    ensures var k := Unseen();
      Good(k, YMode(k)) && UsersTyped(k, YMode(k)) && Evaluate(k, YMode(k)) == UnseenValues()
  {
    var k, v := Unseen(), UnseenValues();
    SinglePrompt(k, v, Ref(Y));
    SinglePrompt(k, v, Ref(N));
    assert FirstVisible(v, [MEMBER]) == None by {
      assert [MEMBER][1..] == [];
    }
    assert UserOf(YMode(k), CHOICE) == User(Some(TriValue(2)), None) && UserOf(YMode(k), MEMBER) == NO_USER;
    YModeSolved(TRISTATE, N, v);
  }

  lemma UnseenCorner()
    ensures var k, v := Unseen(), UnseenValues();
      ProperChoices(k) && ValOf(v, CHOICE).tri == 2 && !Restorable(k, v, CHOICE)
  {
    OneMemberProper(TRISTATE, N, Ref(N));
    assert Unseen().Item(CHOICE).syms == [MEMBER];
  }

  // What loading the file leaves: nothing is set but MODULES.
  function UnseenAgain(): Users {
    NoUsers(Unseen())[MODULES := User(Some(TriValue(2)), None)]
  }

  lemma UnseenReloaded()
    ensures var k, v := Unseen(), UnseenValues(); Reloaded(k, v, UnseenAgain(), Written(k, v))
    ensures NoSelections(UnseenAgain())
  {
    var k, v, us := Unseen(), UnseenValues(), UnseenAgain();
    forall x: Id ensures UserOf(us, x) == if x == MODULES then User(Some(TriValue(2)), None) else NO_USER {}
    forall x: Id | DefinedSymbol(k, x) ensures x == MODULES || x == MEMBER {}
    assert LineValue(k, v, MODULES) == Some(TriValue(2)) && MODULES in Written(k, v) && MEMBER !in Written(k, v);
    forall c: Id | c < |k.items| && k.Item(c).Choice? ensures c == CHOICE {}
    assert forall x :: x in Written(k, v) ==> !SetsMode(k, v, x, CHOICE);
  }

  // The choice is in y mode, and the file that is written for it does not give it this mode again.
  lemma UnseenIsLost()
    ensures var k := Unseen(); var us, us' := YMode(k), UnseenAgain();
      && Good(k, us) && UsersTyped(k, us) && ProperChoices(k) && ValOf(Evaluate(k, us), CHOICE).tri == 2
      && Reload(k, us, us') && !SameValues(k, us, us')
  {
    UnseenSolved();
    UnseenCorner();
    UnseenReloaded();
    LostIn(Unseen(), YMode(Unseen()), UnseenAgain(), CHOICE);
  }

  // FOO is bool, visible, and selected by default.
  function Unsaid(): Config {
    OneMember(BOOL, Ref(CHOICE), Ref(N))
  }

  function UnsaidValues(): Valuation {
    BasicValues() + [Val(2, 2, "y", [1, 2], Some(MEMBER), false), Val(2, 2, "y", [2], None, true)]
  }

  lemma UnsaidSolved()
    ensures var k := Unsaid();
      Good(k, YMode(k)) && UsersTyped(k, YMode(k)) && Evaluate(k, YMode(k)) == UnsaidValues()
  {
    var k, v := Unsaid(), UnsaidValues();
    SinglePrompt(k, v, Ref(Y));
    SinglePrompt(k, v, Ref(CHOICE));
    assert UserOf(YMode(k), CHOICE) == User(Some(TriValue(2)), None) && UserOf(YMode(k), MEMBER) == NO_USER;
    YModeSolved(BOOL, CHOICE, v);
  }

  lemma UnsaidCorner()
    ensures var k, v := Unsaid(), UnsaidValues();
      && ProperChoices(k) && Sound(k, v) && ValOf(v, MEMBER).tri == 2
      && MinLine(k, v, MEMBER) == None && !Recreatable(k, v, CHOICE)
  {
    var k, v := Unsaid(), UnsaidValues();
    OneMemberProper(BOOL, CHOICE, Ref(N));
    forall x: Id | DefinedSymbol(k, x) ensures x == MODULES || x == MEMBER {}
    assert DefaultSelection(k, v, MEMBER) && k.Item(CHOICE).syms == [MEMBER];
  }

  lemma UnsaidReloaded()
    ensures var k, v := Unsaid(), UnsaidValues(); Reloaded(k, v, NoUsers(k), MinWritten(k, v))
  {
    var k, v := Unsaid(), UnsaidValues();
    assert DefaultSelection(k, v, MEMBER);
    forall x: Id | DefinedSymbol(k, x) ensures x !in MinWritten(k, v) {
      assert x == MODULES || x == MEMBER;
    }
    assert MinWritten(k, v) == {};
    forall x: Id ensures UserOf(NoUsers(k), x) == NO_USER {}
  }

  // FOO is y and left out, and the minimal file does not give the choice its mode again.
  lemma UnsaidIsLost()
    ensures var k := Unsaid(); var us := YMode(k);
      && Good(k, us) && UsersTyped(k, us) && ProperChoices(k) && Sound(k, Evaluate(k, us))
      && ValOf(Evaluate(k, us), MEMBER).tri == 2 && MinLine(k, Evaluate(k, us), MEMBER) == None
      && MinReload(k, us, NoUsers(k)) && !SameValues(k, us, NoUsers(k))
  {
    UnsaidSolved();
    UnsaidCorner();
    UnsaidReloaded();
    NotRecreated(Unsaid(), YMode(Unsaid()), CHOICE);
  }
}
