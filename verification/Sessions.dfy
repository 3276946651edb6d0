/** Whole runs: any sequence of assignments and reads, followed by one more read. */
module Sessions {
  import opened Wrappers
  import opened Model
  import opened Values
  import opened Support
  import opened Reference
  import opened CacheInvariant
  import opened Assignments
  import opened Engine

  datatype Op =
    | SetValue(item: Id, value: UserValue)
    | UnsetValue(item: Id)
    | Read(item: Id)

  // What one operation does to the user values.  A value that is invalid for the type is refused, and
  // reading changes nothing.
  ghost function UsersAfterOp(k: Config, us: Users, op: Op): Users
    requires |us| == |k.items|
  {
    if op.item >= |us| then us
    else
      match op
      case SetValue(x, value) =>
        var stored := Accepted(k.Item(x), value);
        if stored.None? then us
        else if k.Item(x).Symbol? then Assigned(k, us, x, stored.value)
        else us[x := us[x].(value := stored)]
      case UnsetValue(x) => us[x := if k.Item(x).Symbol? then us[x].(value := None) else NO_USER]
      case Read(_) => us
  }

  ghost function UsersAfterFrom(k: Config, us: Users, ops: seq<Op>): (r: Users)
    requires |us| == |k.items|
    ensures |r| == |k.items|
    decreases |ops|
  {
    if ops == [] then us else UsersAfterOp(k, UsersAfterFrom(k, us, ops[..|ops| - 1]), ops[|ops| - 1])
  }

  // The user values after operations on a new configuration.
  ghost function UsersAfter(k: Config, ops: seq<Op>): (us: Users)
    ensures |us| == |k.items|
  {
    UsersAfterFrom(k, seq(|k.items|, _ => NO_USER), ops)
  }

  // Everything that can be read of an item.
  datatype Reading = Reading(vis: Tri, tri: Tri, str: string, assignable: seq<Tri>, selection: Option<Id>)

  ghost function ReadingOf(v: Val): Reading {
    Reading(v.vis, v.tri, v.str, v.asg, v.sel)
  }

  method ReadSymbol(kconfig: Kconfig, x: Id) returns (r: Reading)
    requires kconfig.Valid() && x < |kconfig.items| && kconfig.k.Item(x).Symbol?
    modifies kconfig, kconfig.items
    ensures kconfig.Valid() && kconfig.settings == old(kconfig.settings)
    ensures r == ReadingOf(ValOf(kconfig.S().v, x))
  {
    SolvedRest(kconfig.k, UsersIn(kconfig.settings), x);
    var vis := kconfig.GetVisibility(x);
    var tri := kconfig.GetTriValue(x);
    var str := kconfig.GetStrValue(x);
    var assignable := kconfig.GetAssignable(x);
    r := Reading(vis, tri, str, assignable, None);
  }

  method ReadChoice(kconfig: Kconfig, c: Id) returns (r: Reading)
    requires kconfig.Valid() && c < |kconfig.items| && kconfig.k.Item(c).Choice?
    modifies kconfig, kconfig.items
    ensures kconfig.Valid() && kconfig.settings == old(kconfig.settings)
    ensures r == ReadingOf(ValOf(kconfig.S().v, c))
  {
    SolvedRest(kconfig.k, UsersIn(kconfig.settings), c);
    var vis := kconfig.GetVisibility(c);
    var mode := kconfig.GetMode(c);
    var assignable := kconfig.GetAssignable(c);
    var selection := kconfig.GetSelection(c);
    r := Reading(vis, mode, TriToStr(mode), assignable, selection);
  }

  method ReadItem(kconfig: Kconfig, x: Id) returns (r: Reading)
    requires kconfig.Valid() && x < |kconfig.items|
    modifies kconfig, kconfig.items
    ensures kconfig.Valid() && kconfig.settings == old(kconfig.settings)
    ensures r == ReadingOf(ValOf(kconfig.S().v, x))
  {
    if kconfig.k.Item(x).Choice? {
      r := ReadChoice(kconfig, x);
    } else {
      r := ReadSymbol(kconfig, x);
    }
  }

  method Perform(kconfig: Kconfig, op: Op)
    requires kconfig.Valid()
    modifies kconfig, kconfig.items
    ensures kconfig.Valid()
    ensures UsersIn(kconfig.settings) == UsersAfterOp(kconfig.k, old(UsersIn(kconfig.settings)), op)
  {
    if op.item < |kconfig.items| {
      match op
      case SetValue(x, value) =>
        if kconfig.k.Item(x).Symbol? {
          AfterSetIsAssigned(kconfig.k, kconfig.settings, x, value);
          var ok := kconfig.SetSymbolValue(x, value);
        } else {
          var ok := kconfig.SetChoiceValue(x, value);
        }
      case UnsetValue(x) =>
        if kconfig.k.Item(x).Symbol? {
          kconfig.UnsetSymbolValue(x);
        } else {
          kconfig.UnsetChoiceValue(x);
        }
      case Read(x) =>
        var r := ReadItem(kconfig, x);
    }
  }

  method PerformAll(kconfig: Kconfig, ops: seq<Op>)
    requires kconfig.Valid()
    modifies kconfig, kconfig.items
    ensures kconfig.Valid()
    ensures UsersIn(kconfig.settings) == UsersAfterFrom(kconfig.k, old(UsersIn(kconfig.settings)), ops)
  {
    for i := 0 to |ops|
      invariant kconfig.Valid()
      invariant UsersIn(kconfig.settings) == UsersAfterFrom(kconfig.k, old(UsersIn(kconfig.settings)), ops[..i])
    {
      assert ops[..i + 1][..i] == ops[..i];
      Perform(kconfig, ops[i]);
    }
    assert ops[..|ops|] == ops;
  }

  lemma AfterSetIsAssigned(k: Config, st: seq<Setting>, x: Id, value: UserValue)
    requires |st| == |k.items| && x < |st|
    ensures Accepted(k.Item(x), value).Some? ==>
      UsersIn(AfterSet(k, st, x, Accepted(k.Item(x), value).value))
      == Assigned(k, UsersIn(st), x, Accepted(k.Item(x), value).value)
  {
    if Accepted(k.Item(x), value).Some? {
      AfterSetUsers(k, st, x, Accepted(k.Item(x), value).value);
    }
  }

  // What is read after any sequence of operations is what evaluating without a cache gives for the user
  // values at that point.
  method Replay(k: Config, ops: seq<Op>, x: Id) returns (r: Reading)
    requires WellFormed(k) && Ordered(k) && x < |k.items|
    ensures r == ReadingOf(ValOf(Evaluate(k, UsersAfter(k, ops)), x))
  {
    var kconfig := new Kconfig(k);
    PerformAll(kconfig, ops);
    r := ReadItem(kconfig, x);
  }
}
