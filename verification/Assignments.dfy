/** What assigning and removing user values does to the user values. */
module Assignments {
  import opened Wrappers
  import opened Model
  import opened Numbers
  import opened Values
  import opened Support
  import opened Transfer
  import opened Reference
  import opened CacheInvariant

  // What reading values leaves alone.
  datatype Setting = Setting(user: User, wasSet: bool, dependents: set<Id>)

  ghost function UsersIn(settings: seq<Setting>): Users {
    seq(|settings|, x requires 0 <= x < |settings| => settings[x].user)
  }

  const INITIAL_SETTING := Setting(NO_USER, false, {})

  function InitialCells(it: Model.Item): Cells {
    Cells(None, if it.Symbol? then it.preset else None, None, None, None, false)
  }

  ghost function InitialCache(k: Config): Cache {
    seq(|k.items|, x requires 0 <= x < |k.items| => InitialCells(k.items[x]))
  }

  // The settings after set_value() has stored a value.
  ghost function AfterSet(k: Config, st: seq<Setting>, x: Id, stored: UserValue): seq<Setting>
    requires x < |st|
  {
    var st' := st[x := Setting(st[x].user.(value := Some(stored)), true, st[x].dependents)];
    if SelectsMember(k, x, stored) && k.Item(x).choice.value < |st| then
      var c := k.Item(x).choice.value;
      st'[c := Setting(st'[c].user.(selection := Some(x)), true, st'[c].dependents)]
    else
      st'
  }

  lemma AfterSetUsers(k: Config, st: seq<Setting>, x: Id, stored: UserValue)
    requires |st| == |k.items| && x < |st|
    ensures UsersIn(AfterSet(k, st, x, stored)) == Assigned(k, UsersIn(st), x, stored)
  {
  }

  ghost predicate UsersTyped(k: Config, us: Users) {
    forall x: Id {:trigger UserOf(us, x)} :: x < |k.items| && UserOf(us, x).value.Some? ==>
      ValidUserValue(k.Item(x), UserOf(us, x).value.value)
  }

  // The values that set_value() accepts, after conversion from "n", "m" and "y".
  predicate ValidUserValue(it: Model.Item, value: UserValue) {
    match value
    case TriValue(t) => it.origType == TRISTATE || (it.origType == BOOL && t != 1)
    case StrValue(s) =>
      it.Symbol? &&
      (|| it.origType == STRING
       || (it.origType == INT && IsBaseN(s, 10))
       || (it.origType == HEX && IsBaseN(s, 16) && ParseInt(s, 16).value >= 0))
  }

  // What a value passed to set_value() is stored as, or None if it is invalid for the type.
  function Accepted(it: Model.Item, value: UserValue): Option<UserValue> {
    if it.Logical() then
      var t := match value
        case TriValue(t) => Some(t)
        case StrValue(s) =>
          if s == "y" then Some(2) else if s == "m" then Some(1) else if s == "n" then Some(0) else None;
      if t.Some? && ValidUserValue(it, TriValue(t.value)) then Some(TriValue(t.value)) else None
    else if ValidUserValue(it, value) then Some(value)
    else None
  }

  // Symbol.set_value(), for a value that is accepted and stored as `stored`.  Setting a choice symbol to y
  // also makes it the user's selection.
  ghost function Assigned(k: Config, us: Users, x: Id, stored: UserValue): Users
    requires |us| == |k.items| && x < |us|
  {
    var us' := us[x := us[x].(value := Some(stored))];
    if SelectsMember(k, x, stored) && k.Item(x).choice.value < |us| then
      var c := k.Item(x).choice.value;
      us'[c := us'[c].(selection := Some(x))]
    else
      us'
  }

  predicate SelectsMember(k: Config, x: Id, stored: UserValue) {
    k.Item(x).InChoice() && stored == TriValue(2)
  }

  lemma AssignedGood(k: Config, us: Users, x: Id, stored: UserValue)
    requires Good(k, us) && UsersTyped(k, us) && |us| == |k.items| && x < |us|
    requires ValidUserValue(k.Item(x), stored)
    ensures Good(k, Assigned(k, us, x, stored)) && UsersTyped(k, Assigned(k, us, x, stored))
  {
    var us' := Assigned(k, us, x, stored);
    assert ItemOk(k, x);
    forall c: Id | c < |k.items| ensures SelectionOk(k, us', c) {
      assert SelectionOk(k, us, c);
    }
    forall y: Id | y < |k.items| && UserOf(us', y).value.Some?
      ensures ValidUserValue(k.Item(y), UserOf(us', y).value.value)
    {
      if y != x {
        assert UserOf(us', y).value == UserOf(us, y).value;
      }
    }
  }

  // What set_value() invalidates covers everything the assignment may affect.
  lemma AssignmentInvalidates(k: Config, c: Cache, I: set<Id>, us: Users, x: Id, stored: UserValue)
    requires Inv(k, us, c) && |us| == |k.items| && x < |us| && k.Item(x).Symbol?
    requires Good(k, Assigned(k, us, x, stored)) && Invalidatable(k, I) && Closed(k, c, I)
    requires if SelectsMember(k, x, stored) then k.Item(x).choice.value in I else k.Item(x).prompts == [] || x in I
    ensures Invalidation(k, c, I, us, Assigned(k, us, x, stored))
  {
    var us' := Assigned(k, us, x, stored);
    assert ItemOk(k, x);
    forall y: Id | y < |k.items|
      ensures UserOf(us, y) == UserOf(us', y) || y in I
           || (k.Item(y).Symbol? && (k.Item(y).prompts == [] || CellsOf(c, y).vis.None?))
    {
      if y == x && SelectsMember(k, x, stored) {
        assert DependsOn(k, x, k.Item(x).choice.value);
      }
    }
  }

  // Changing the user values of one item in any way is covered by invalidating that item.
  lemma ChangeInvalidates(k: Config, c: Cache, I: set<Id>, us: Users, x: Id, user: User)
    requires Inv(k, us, c) && |us| == |k.items| && x < |us|
    requires Good(k, us[x := user]) && Invalidatable(k, I) && Closed(k, c, I)
    requires x in I || (k.Item(x).Symbol? && k.Item(x).prompts == [])
    ensures Invalidation(k, c, I, us, us[x := user])
  {
  }

  lemma NothingClosed(k: Config, c: Cache)
    ensures Closed(k, c, {}) && Invalidatable(k, {}) && ClearAll(c, {}) == c
  {
  }

  // The dependents relation that _build_dep() and _add_choice_deps() construct.
  ghost predicate DependentsOk(k: Config, settings: seq<Setting>) {
    && |settings| == |k.items|
    && forall x: Id, y: Id :: x < |settings| ==>
         (y in settings[x].dependents <==>
            y < |settings| && DependsOn(k, y, x) && !k.Item(x).Constant())
  }

  // All that is known of the engine's state between calls.
  ghost predicate Coherent(k: Config, st: seq<Setting>, c: Cache) {
    && Inv(k, UsersIn(st), c)
    && UsersTyped(k, UsersIn(st))
    && DependentsOk(k, st)
  }

  // Storing the same value again only leaves a note that the item was set.
  lemma SameValueAccepted(k: Config, st: seq<Setting>, c: Cache, x: Id, value: UserValue)
    requires Coherent(k, st, c) && x < |st| && st[x].user.value == Some(value)
    ensures Accepted(k.Item(x), value) == Some(value)
    ensures Coherent(k, st[x := Setting(st[x].user, true, st[x].dependents)], c)
    ensures k.Item(x).Symbol? && k.Item(x).choice.None? ==>
      AfterSet(k, st, x, value) == st[x := Setting(st[x].user, true, st[x].dependents)]
  {
    assert UserOf(UsersIn(st), x).value == Some(value);
    assert UsersIn(st[x := Setting(st[x].user, true, st[x].dependents)]) == UsersIn(st);
  }

  lemma AfterSetCoherent(k: Config, st: seq<Setting>, c: Cache, x: Id, stored: UserValue, I: set<Id>)
    requires Coherent(k, st, c) && x < |st| && k.Item(x).Symbol? && ValidUserValue(k.Item(x), stored)
    requires Invalidatable(k, I) && Closed(k, c, I)
    requires if SelectsMember(k, x, stored) then k.Item(x).choice.value in I else k.Item(x).prompts == [] || x in I
    ensures Coherent(k, AfterSet(k, st, x, stored), ClearAll(c, I))
  {
    AssignedGood(k, UsersIn(st), x, stored);
    AssignmentInvalidates(k, c, I, UsersIn(st), x, stored);
    AfterSetUsers(k, st, x, stored);
    InvalidationKeepsInv(k, c, I, UsersIn(st), Assigned(k, UsersIn(st), x, stored));
  }

  // The settings after the user data of one item have changed.
  ghost function AfterChange(st: seq<Setting>, x: Id, user: User, wasSet: bool): seq<Setting>
    requires x < |st|
  {
    st[x := Setting(user, wasSet, st[x].dependents)]
  }

  lemma AfterChangeCoherent(k: Config, st: seq<Setting>, c: Cache, x: Id, user: User, wasSet: bool, I: set<Id>)
    requires Coherent(k, st, c) && x < |st|
    requires user.value.Some? ==> ValidUserValue(k.Item(x), user.value.value)
    requires user.selection.None? || user.selection == st[x].user.selection
    requires Invalidatable(k, I) && Closed(k, c, I)
    requires x in I || (k.Item(x).Symbol? && k.Item(x).prompts == [])
    ensures Coherent(k, AfterChange(st, x, user, wasSet), ClearAll(c, I))
  {
    var us, us' := UsersIn(st), UsersIn(st)[x := user];
    assert UsersIn(AfterChange(st, x, user, wasSet)) == us';
    ChangeGood(k, us, x, user);
    ChangeInvalidates(k, c, I, us, x, user);
    InvalidationKeepsInv(k, c, I, us, us');
  }

  lemma ChangeGood(k: Config, us: Users, x: Id, user: User)
    requires Good(k, us) && UsersTyped(k, us) && |us| == |k.items| && x < |us|
    requires user.value.Some? ==> ValidUserValue(k.Item(x), user.value.value)
    requires user.selection.None? || user.selection == us[x].selection
    ensures Good(k, us[x := user]) && UsersTyped(k, us[x := user])
  {
    var us' := us[x := user];
    forall c: Id | c < |k.items| ensures SelectionOk(k, us', c) {
      assert SelectionOk(k, us, c);
    }
    forall y: Id | y < |k.items| && UserOf(us', y).value.Some?
      ensures ValidUserValue(k.Item(y), UserOf(us', y).value.value)
    {
      if y != x {
        assert UserOf(us', y).value == UserOf(us, y).value;
      }
    }
  }

  // ---------- The dependents relation ----------

  // `sc` is added to the dependents of every member of `refs` that is not a constant.
  ghost function AddEdges(k: Config, st: seq<Setting>, sc: Id, refs: set<Id>): seq<Setting> {
    seq(|st|, x requires 0 <= x < |st| =>
      if x in refs && !k.Item(x).Constant() then st[x].(dependents := st[x].dependents + {sc}) else st[x])
  }

  lemma AddNoEdges(k: Config, st: seq<Setting>, sc: Id)
    ensures AddEdges(k, st, sc, {}) == st
  {
  }

  lemma AddMoreEdges(k: Config, st: seq<Setting>, sc: Id, a: set<Id>, b: set<Id>)
    ensures AddEdges(k, AddEdges(k, st, sc, a), sc, b) == AddEdges(k, st, sc, a + b)
  {
  }

  // Before anything has been read or assigned, nothing is cached but n, m and y.
  lemma InitiallyCoherent(k: Config, st: seq<Setting>)
    requires WellFormed(k) && Ordered(k) && DependentsOk(k, st)
    requires UsersIn(st) == seq(|k.items|, _ => NO_USER)
    ensures Coherent(k, st, InitialCache(k))
  {
    var us, c := UsersIn(st), InitialCache(k);
    forall x: Id | x < |k.items| ensures SelectionOk(k, us, x) && UserOf(us, x).value.None? {
      assert us[x] == NO_USER;
    }
    forall x: Id | x < |k.items| ensures CellsOk(k, Now(k, us, c), x) {
      InitialCellsOk(k, us, x);
    }
  }

  lemma InitialCellsOk(k: Config, us: Users, x: Id)
    requires Good(k, us) && x < |k.items|
    ensures CellsOk(k, Now(k, us, InitialCache(k)), x)
  {
    assert ItemOk(k, x);
    if k.Item(x).Symbol? {
      SolvedTri(k, us, x);
      SolvedWrite(k, us, x);
    }
  }

  lemma {:induction false} PromptRefsSnoc(es: seq<Expr>, i: nat)
    requires i < |es|
    ensures AllRefs(es[..i + 1]) == AllRefs(es[..i]) + Refs(es[i]) && Refs(es[i]) <= AllRefs(es)
  {
    if i == 0 {
      assert es[..1] == [es[0]];
    } else {
      PromptRefsSnoc(es[1..], i - 1);
      assert es[..i + 1][1..] == es[1..][..i] && es[..i][1..] == es[1..][..i - 1];
    }
  }

  lemma {:induction false} DefaultRefsSnoc(ds: seq<Default>, i: nat)
    requires i < |ds|
    ensures DefaultRefs(ds[..i + 1]) == DefaultRefs(ds[..i]) + Refs(ds[i].value) + Refs(ds[i].cond)
    ensures Refs(ds[i].value) + Refs(ds[i].cond) <= DefaultRefs(ds)
  {
    if i == 0 {
      assert ds[..1] == [ds[0]];
    } else {
      DefaultRefsSnoc(ds[1..], i - 1);
      assert ds[..i + 1][1..] == ds[1..][..i] && ds[..i][1..] == ds[1..][..i - 1];
    }
  }

  lemma {:induction false} RangeRefsSnoc(rs: seq<Range>, i: nat)
    requires i < |rs|
    ensures RangeRefs(rs[..i + 1]) == RangeRefs(rs[..i]) + {rs[i].low, rs[i].high} + Refs(rs[i].cond)
    ensures {rs[i].low, rs[i].high} + Refs(rs[i].cond) <= RangeRefs(rs)
  {
    if i == 0 {
      assert rs[..1] == [rs[0]];
    } else {
      RangeRefsSnoc(rs[1..], i - 1);
      assert rs[..i + 1][1..] == rs[1..][..i] && rs[..i][1..] == rs[1..][..i - 1];
    }
  }

  lemma {:induction false} CondRefsSnoc(ds: seq<ChoiceDefault>, i: nat)
    requires i < |ds|
    ensures CondRefs(ds[..i + 1]) == CondRefs(ds[..i]) + Refs(ds[i].cond) && Refs(ds[i].cond) <= CondRefs(ds)
  {
    if i == 0 {
      assert ds[..1] == [ds[0]];
    } else {
      CondRefsSnoc(ds[1..], i - 1);
      assert ds[..i + 1][1..] == ds[1..][..i] && ds[..i][1..] == ds[1..][..i - 1];
    }
  }

  // The settings once _build_dep() has treated the first `n` items.
  ghost function Built(k: Config, n: nat): seq<Setting> {
    seq(|k.items|, x requires 0 <= x < |k.items| => Setting(NO_USER, false, BuiltDependents(k, n, x)))
  }

  ghost function BuiltDependents(k: Config, n: nat, x: Id): set<Id> {
    set y: Id | y < n && x in ItemRefs(k.Item(y)) && !k.Item(x).Constant()
  }

  lemma BuiltNext(k: Config, n: Id)
    requires n < |k.items|
    ensures AddEdges(k, Built(k, n), n, ItemRefs(k.Item(n))) == Built(k, n + 1)
  {
    forall x: Id | x < |k.items| ensures AddEdges(k, Built(k, n), n, ItemRefs(k.Item(n)))[x] == Built(k, n + 1)[x] {
      BuiltNextAt(k, n, x);
    }
  }

  lemma BuiltNextAt(k: Config, n: Id, x: Id)
    ensures BuiltDependents(k, n + 1, x)
         == if x in ItemRefs(k.Item(n)) && !k.Item(x).Constant() then BuiltDependents(k, n, x) + {n}
           else BuiltDependents(k, n, x)
  {
  }

  // The settings once _add_choice_deps() has treated the first `n` items.
  ghost function Linked(k: Config, n: nat): seq<Setting> {
    seq(|k.items|, x requires 0 <= x < |k.items| =>
      Setting(NO_USER, false, BuiltDependents(k, |k.items|, x) + LinkedDependents(k, n, x)))
  }

  ghost function LinkedDependents(k: Config, n: nat, x: Id): set<Id> {
    set c: Id | c < n && k.Item(c).Choice? && x in k.Item(c).syms
  }

  ghost function LinkSyms(st: seq<Setting>, c: Id, syms: seq<Id>): seq<Setting> {
    seq(|st|, x requires 0 <= x < |st| =>
      if x in syms then st[x].(dependents := st[x].dependents + {c}) else st[x])
  }

  lemma LinkedOneMore(st: seq<Setting>, c: Id, syms: seq<Id>, i: nat, next: nat)
    requires next == i + 1 && next <= |syms| && syms[i] < |st|
    ensures var s, linked := syms[i], LinkSyms(st, c, syms[..i]);
      LinkSyms(st, c, syms[..next]) == linked[s := linked[s].(dependents := linked[s].dependents + {c})]
  {
    assert syms[..next] == syms[..i] + [syms[i]];
    assert st[syms[i]].dependents + {c} + {c} == st[syms[i]].dependents + {c};
  }

  lemma LinkedNext(k: Config, n: Id)
    requires n < |k.items|
    ensures Linked(k, n + 1) == if k.Item(n).Choice? then LinkSyms(Linked(k, n), n, k.Item(n).syms) else Linked(k, n)
  {
    var linked := if k.Item(n).Choice? then LinkSyms(Linked(k, n), n, k.Item(n).syms) else Linked(k, n);
    forall x: Id | x < |k.items| ensures Linked(k, n + 1)[x] == linked[x] {
      LinkedNextAt(k, n, x);
      assert BuiltDependents(k, |k.items|, x) + (LinkedDependents(k, n, x) + {n})
          == BuiltDependents(k, |k.items|, x) + LinkedDependents(k, n, x) + {n};
    }
  }

  lemma LinkedNextAt(k: Config, n: Id, x: Id)
    requires n < |k.items|
    ensures LinkedDependents(k, n + 1, x)
         == if k.Item(n).Choice? && x in k.Item(n).syms then LinkedDependents(k, n, x) + {n}
           else LinkedDependents(k, n, x)
  {
  }

  lemma BuiltNone(k: Config)
    ensures Built(k, 0) == seq(|k.items|, _ => INITIAL_SETTING)
  {
    forall x: Id | x < |k.items| ensures BuiltDependents(k, 0, x) == {} {}
  }

  lemma LinkedNone(k: Config)
    ensures Linked(k, 0) == Built(k, |k.items|)
  {
    forall x: Id | x < |k.items| ensures Linked(k, 0)[x] == Built(k, |k.items|)[x] {
      assert LinkedDependents(k, 0, x) == {};
    }
  }

  lemma AllLinked(k: Config)
    requires WellFormed(k)
    ensures DependentsOk(k, Linked(k, |k.items|))
    ensures UsersIn(Linked(k, |k.items|)) == seq(|k.items|, _ => NO_USER)
  {
    var st := Linked(k, |k.items|);
    forall x: Id, y: Id | x < |st|
      ensures y in st[x].dependents <==> y < |st| && DependsOn(k, y, x) && !k.Item(x).Constant()
    {
      if y < |st| && k.Item(y).Choice? && x in k.Item(y).syms {
        assert ItemOk(k, y) && ItemOk(k, x);
      }
    }
  }
}
