/** Which rows are shown: those that have a value, and everything that they are shown under.

    A single pass from the last row to the first marks menus and untitled entries as used.  It suffices
    because what a row is shown under is always further up. */
module KernelRefcount {
  import opened Wrappers
  import opened KernelSettings
  import opened KernelMenu

  // The first row with a key.
  function FirstRow(rows: seq<Row>, key: Key, i: nat): (j: Option<nat>)
    requires i <= |rows|
    ensures j.Some? ==> i <= j.value < |rows| && rows[j.value].key == key
    ensures j.Some? ==> forall n :: i <= n < j.value ==> rows[n].key != key
    ensures j.None? ==> forall n :: i <= n < |rows| ==> rows[n].key != key
    decreases |rows| - i
  {
    if i == |rows| then None else if rows[i].key == key then Some(i) else FirstRow(rows, key, i + 1)
  }

  // The row that a row is shown under.
  function Parent(rows: seq<Row>, mainDep: map<Key, Key>, i: nat): (j: Option<nat>)
    requires i < |rows|
    ensures j.Some? ==> j.value < |rows| && rows[i].key in mainDep && rows[j.value].key == mainDep[rows[i].key]
  {
    if rows[i].key in mainDep then FirstRow(rows, mainDep[rows[i].key], 0) else None
  }

  // Menus, choices and untitled entries are marked as used; other options must have a value.
  predicate Markable(row: Row) {
    row.key.Numbered? || !row.Titled()
  }

  // The row has a value, or something that is needed is shown under it.
  ghost predicate Needed(rows: seq<Row>, mainDep: map<Key, Key>, i: nat)
    requires i < |rows|
    decreases |rows| - i
  {
    rows[i].val.Some?
    || exists c :: i < c < |rows| && Parent(rows, mainDep, c) == Some(i) && Needed(rows, mainDep, c)
  }

  ghost predicate NeededBelow(rows: seq<Row>, mainDep: map<Key, Key>, i: nat, n: nat)
    requires i < |rows|
  {
    exists c :: i < c < |rows| && n <= c && Parent(rows, mainDep, c) == Some(i) && Needed(rows, mainDep, c)
  }

  // Whatever is needed is shown under something that has a value or can be marked.
  ghost predicate Consistent(rows: seq<Row>, mainDep: map<Key, Key>) {
    forall c :: 0 <= c < |rows| ==> Supported(rows, mainDep, c)
  }

  ghost predicate Supported(rows: seq<Row>, mainDep: map<Key, Key>, c: nat)
    requires c < |rows|
  {
    Needed(rows, mainDep, c) && Parent(rows, mainDep, c).Some? ==>
      var p := rows[Parent(rows, mainDep, c).value];
      Markable(p) || p.val.Some?
  }

  // The value of a row once the rows from `n` on have been treated.
  ghost function Marked(rows: seq<Row>, mainDep: map<Key, Key>, i: nat, n: nat): Option<string>
    requires i < |rows|
  {
    if Markable(rows[i]) && NeededBelow(rows, mainDep, i, n) then Some("") else rows[i].val
  }

  // Every row is shown under an earlier one, if under any.
  ghost predicate ParentsBefore(rows: seq<Row>, mainDep: map<Key, Key>) {
    forall i :: 0 <= i < |rows| && rows[i].key in mainDep ==>
      Parent(rows, mainDep, i).Some? && Parent(rows, mainDep, i).value < i
  }

  lemma EarlierMeansBefore(rows: seq<Row>, mainDep: map<Key, Key>)
    requires ParentsEarlier(rows, mainDep)
    ensures ParentsBefore(rows, mainDep)
  {
    forall i | 0 <= i < |rows| && rows[i].key in mainDep
      ensures Parent(rows, mainDep, i).Some? && Parent(rows, mainDep, i).value < i
    {
      assert ParentAbove(rows, mainDep, i);
    }
  }

  // index_ikey: going backwards, the first row of each key is what remains.
  method BuildIndex(r: array<Row>) returns (index: map<Key, nat>)
    ensures forall k :: k in index <==> FirstRow(r[..], k, 0).Some?
    ensures forall k :: k in index ==> FirstRow(r[..], k, 0) == Some(index[k])
  {
    index := map[];
    var i := r.Length;
    while i > 0
      invariant 0 <= i <= r.Length
      invariant forall k :: (k in index <==> FirstRow(r[..], k, i).Some?)
      invariant forall k :: k in index ==> FirstRow(r[..], k, i) == Some(index[k])
    {
      i := i - 1;
      index := index[r[i].key := i];
    }
  }

  // The state of the pass before row n - 1 is treated.
  ghost predicate Passing(now: seq<Row>, rows: seq<Row>, mainDep: map<Key, Key>, n: nat) {
    && |now| == |rows| && n <= |rows|
    && (forall i :: 0 <= i < |rows| ==> now[i] == rows[i].(val := Marked(rows, mainDep, i, n)))
    && (forall c :: n <= c < |rows| ==> Supported(rows, mainDep, c))
  }

  // By the time a row is treated, it has a value exactly if it is needed.
  lemma ValueMeansNeeded(rows: seq<Row>, mainDep: map<Key, Key>, i: nat, n: nat)
    requires i < |rows| && n == i + 1 && ParentsBefore(rows, mainDep)
    requires forall c :: n <= c < |rows| ==> Supported(rows, mainDep, c)
    ensures Marked(rows, mainDep, i, n).Some? <==> Needed(rows, mainDep, i)
  {
    if Needed(rows, mainDep, i) && rows[i].val.None? {
      var c :| i < c < |rows| && Parent(rows, mainDep, c) == Some(i) && Needed(rows, mainDep, c);
      assert Supported(rows, mainDep, c);
    }
  }

  lemma OneMorePassed(rows: seq<Row>, mainDep: map<Key, Key>, now: seq<Row>, i: nat, n: nat)
    requires n == i + 1 && Passing(now, rows, mainDep, n) && ParentsBefore(rows, mainDep)
    ensures Needed(rows, mainDep, i) && Parent(rows, mainDep, i).Some? ==>
      var j := Parent(rows, mainDep, i).value;
      && (Supported(rows, mainDep, i) <==> Markable(rows[j]) || now[j].val.Some?)
      && (Supported(rows, mainDep, i) ==>
            Passing(if Markable(rows[j]) then now[j := now[j].(val := Some(""))] else now, rows, mainDep, i))
    ensures !(Needed(rows, mainDep, i) && Parent(rows, mainDep, i).Some?) ==> Passing(now, rows, mainDep, i)
  {
    var parent := Parent(rows, mainDep, i);
    if Needed(rows, mainDep, i) && parent.Some? {
      var j := parent.value;
      assert now[j].val == Marked(rows, mainDep, j, n);
      if Supported(rows, mainDep, i) {
        PassedOn(rows, mainDep, now, if Markable(rows[j]) then now[j := now[j].(val := Some(""))] else now, i, n);
      }
    } else {
      PassedOn(rows, mainDep, now, now, i, n);
    }
  }

  lemma PassedOn(rows: seq<Row>, mainDep: map<Key, Key>, now: seq<Row>, after: seq<Row>, i: nat, n: nat)
    requires n == i + 1 && Passing(now, rows, mainDep, n) && ParentsBefore(rows, mainDep) && Supported(rows, mainDep, i)
    requires |after| == |now|
    requires forall x :: 0 <= x < |rows| ==>
      after[x] == if Markable(rows[x]) && Parent(rows, mainDep, i) == Some(x) && Needed(rows, mainDep, i)
                  then now[x].(val := Some(""))
                  else now[x]
    ensures Passing(after, rows, mainDep, i)
  {
    forall x | 0 <= x < |rows| ensures after[x] == rows[x].(val := Marked(rows, mainDep, x, i)) {
      OneMoreMarked(rows, mainDep, x, i, n);
    }
  }

  lemma OneMoreMarked(rows: seq<Row>, mainDep: map<Key, Key>, x: nat, i: nat, n: nat)
    requires x < |rows| && n == i + 1 <= |rows| && ParentsBefore(rows, mainDep)
    ensures Marked(rows, mainDep, x, i)
         == if Markable(rows[x]) && Parent(rows, mainDep, i) == Some(x) && Needed(rows, mainDep, i) then Some("")
            else Marked(rows, mainDep, x, n)
  {
    assert NeededBelow(rows, mainDep, x, i)
      <==> NeededBelow(rows, mainDep, x, n) || (Parent(rows, mainDep, i) == Some(x) && Needed(rows, mainDep, i));
  }

  lemma AllPassed(rows: seq<Row>, mainDep: map<Key, Key>, now: seq<Row>)
    requires Passing(now, rows, mainDep, 0) && ParentsBefore(rows, mainDep)
    ensures Consistent(rows, mainDep)
    ensures forall i :: 0 <= i < |rows| ==> (now[i].val.Some? <==> Needed(rows, mainDep, i))
  {
    forall i | 0 <= i < |rows| ensures now[i].val.Some? <==> Needed(rows, mainDep, i) {
      assert forall c :: i + 1 <= c < |rows| ==> Supported(rows, mainDep, c);
      ValueMeansNeeded(rows, mainDep, i, i + 1);
      assert NeededBelow(rows, mainDep, i, 0) <==> NeededBelow(rows, mainDep, i, i + 1);
    }
  }

  // ---------- The pass ----------

  // A row after something that is shown under it has been found to be used.
  function Used(rows: seq<Row>, j: nat): (now: seq<Row>)
    requires j < |rows|
    ensures |now| == |rows| && Keys(now) == Keys(rows)
  {
    if Markable(rows[j]) then rows[j := rows[j].(val := Some(""))] else rows
  }

  // The pass over the first `n` rows, from the last one on.  None stands for an exception.
  function Pass(rows: seq<Row>, mainDep: map<Key, Key>, n: nat): Option<seq<Row>>
    requires n <= |rows|
    decreases n
  {
    if n == 0 then Some(rows)
    else
      var i := n - 1;
      if rows[i].val.None? || rows[i].key !in mainDep then Pass(rows, mainDep, i)
      else
        match Parent(rows, mainDep, i)
        case None => None
        case Some(j) =>
          var now := Used(rows, j);
          if now[j].val.None? then None else Pass(now, mainDep, i)
  }

  // In place, with the index of the first rows made beforehand.
  method Refcount(r: array<Row>, mainDep: map<Key, Key>) returns (ok: bool)
    modifies r
    ensures ok <==> Pass(old(r[..]), mainDep, r.Length).Some?
    ensures ok ==> Some(r[..]) == Pass(old(r[..]), mainDep, r.Length)
  {
    ghost var rows := r[..];
    var index := BuildIndex(r);
    var i := r.Length;
    while i > 0
      invariant 0 <= i <= r.Length && Keys(r[..]) == Keys(rows)
      invariant Pass(r[..], mainDep, i) == Pass(rows, mainDep, r.Length)
    {
      i := i - 1;
      if r[i].val.Some? && r[i].key in mainDep {
        var parent := mainDep[r[i].key];
        ghost var before := r[..];
        SameFirst(rows, before, parent, 0);
        if parent !in index {
          return false;
        }
        var j := index[parent];
        if parent.Numbered? || !r[j].Titled() {
          r[j] := r[j].(val := Some(""));
        }
        assert r[..] == Used(before, j);
        if r[j].val.None? {
          return false;
        }
      }
    }
    ok := true;
  }

  lemma {:induction false} SameFirst(a: seq<Row>, b: seq<Row>, key: Key, i: nat)
    requires Keys(a) == Keys(b) && i <= |a| == |b|
    ensures FirstRow(a, key, i) == FirstRow(b, key, i)
    decreases |a| - i
  {
    if i < |a| {
      assert Keys(a)[i] == Keys(b)[i];
      SameFirst(a, b, key, i + 1);
    }
  }

  lemma SameParent(a: seq<Row>, b: seq<Row>, mainDep: map<Key, Key>, i: nat)
    requires Keys(a) == Keys(b) && i < |a| == |b|
    ensures a[i].key == b[i].key && Parent(a, mainDep, i) == Parent(b, mainDep, i)
  {
    assert Keys(a)[i] == Keys(b)[i];
    if a[i].key in mainDep {
      SameFirst(a, b, mainDep[a[i].key], 0);
    }
  }

  // If every row is shown under an earlier one, the pass uses what is needed, or says that this is impossible.
  lemma {:induction false} PassesOn(rows: seq<Row>, mainDep: map<Key, Key>, now: seq<Row>, n: nat)
    requires Passing(now, rows, mainDep, n) && ParentsBefore(rows, mainDep)
    ensures Pass(now, mainDep, n).Some? <==> Consistent(rows, mainDep)
    ensures Pass(now, mainDep, n).Some? ==> Passing(Pass(now, mainDep, n).value, rows, mainDep, 0)
    decreases n
  {
    if n == 0 {
      AllPassed(rows, mainDep, now);
    } else {
      var i := n - 1;
      assert Keys(now) == Keys(rows);
      SameParent(now, rows, mainDep, i);
      ValueMeansNeeded(rows, mainDep, i, n);
      OneMorePassed(rows, mainDep, now, i, n);
      var parent := Parent(rows, mainDep, i);
      if !Needed(rows, mainDep, i) || parent.None? {
        PassesOn(rows, mainDep, now, i);
      } else if Supported(rows, mainDep, i) {
        PassesOn(rows, mainDep, Used(now, parent.value), i);
      }
    }
  }

  lemma PassExact(rows: seq<Row>, mainDep: map<Key, Key>)
    requires ParentsBefore(rows, mainDep)
    ensures var r := Pass(rows, mainDep, |rows|);
      && (r.Some? <==> Consistent(rows, mainDep))
      && (r.Some? ==> |r.value| == |rows| && forall i :: 0 <= i < |rows| ==>
            && r.value[i] == rows[i].(val := Marked(rows, mainDep, i, 0))
            && (r.value[i].val.Some? <==> Needed(rows, mainDep, i)))
  {
    PassesOn(rows, mainDep, rows, |rows|);
    if Consistent(rows, mainDep) {
      AllPassed(rows, mainDep, Pass(rows, mainDep, |rows|).value);
    }
  }

  // ---------- What is shown is shown under something that is shown ----------

  ghost predicate ShownUnder(rows: seq<Row>, mainDep: map<Key, Key>, i: nat)
    requires i < |rows|
  {
    rows[i].val.Some? && Parent(rows, mainDep, i).Some? ==> rows[Parent(rows, mainDep, i).value].val.Some?
  }

  ghost predicate Closed(rows: seq<Row>, mainDep: map<Key, Key>, n: nat) {
    forall i :: n <= i < |rows| ==> ShownUnder(rows, mainDep, i)
  }

  // A row that is shown under a later one, because a name is repeated, can only mark it as used after it has
  // been passed.  Then what that one is shown under must be one of the two.
  ghost predicate InOrderAt(rows: seq<Row>, mainDep: map<Key, Key>, i: nat)
    requires i < |rows|
  {
    Parent(rows, mainDep, i).Some? && Parent(rows, mainDep, i).value > i ==>
      var j := Parent(rows, mainDep, i).value;
      var p := Parent(rows, mainDep, j);
      p.Some? ==> p.value == i || p.value == j
  }

  ghost predicate InOrder(rows: seq<Row>, mainDep: map<Key, Key>) {
    forall i :: 0 <= i < |rows| ==> InOrderAt(rows, mainDep, i)
  }

  lemma SameOrder(a: seq<Row>, b: seq<Row>, mainDep: map<Key, Key>)
    requires Keys(a) == Keys(b) && |a| == |b| && InOrder(a, mainDep)
    ensures InOrder(b, mainDep)
  {
    forall i | 0 <= i < |b| ensures InOrderAt(b, mainDep, i) {
      assert InOrderAt(a, mainDep, i);
      SameParent(a, b, mainDep, i);
      var j := Parent(a, mainDep, i);
      if j.Some? {
        SameParent(a, b, mainDep, j.value);
      }
    }
  }

  lemma OneMoreClosed(rows: seq<Row>, mainDep: map<Key, Key>, i: nat, n: nat, now: seq<Row>)
    requires n == i + 1 <= |rows| && InOrder(rows, mainDep) && Closed(rows, mainDep, n)
    requires rows[i].val.Some? && Parent(rows, mainDep, i).Some?
    requires now == Used(rows, Parent(rows, mainDep, i).value) && now[Parent(rows, mainDep, i).value].val.Some?
    ensures InOrder(now, mainDep) && Closed(now, mainDep, i)
  {
    var j := Parent(rows, mainDep, i).value;
    SameOrder(rows, now, mainDep);
    assert InOrderAt(rows, mainDep, i);
    forall x | i <= x < |now| ensures ShownUnder(now, mainDep, x) {
      SameParent(rows, now, mainDep, x);
      if n <= x {
        assert ShownUnder(rows, mainDep, x);
      }
    }
  }

  lemma {:induction false} PassCloses(rows: seq<Row>, mainDep: map<Key, Key>, n: nat)
    requires n <= |rows| && InOrder(rows, mainDep) && Closed(rows, mainDep, n) && Pass(rows, mainDep, n).Some?
    ensures Closed(Pass(rows, mainDep, n).value, mainDep, 0)
    decreases n
  {
    if n > 0 {
      var i := n - 1;
      if rows[i].val.None? || rows[i].key !in mainDep {
        assert ShownUnder(rows, mainDep, i);
        PassCloses(rows, mainDep, i);
      } else {
        var now := Used(rows, Parent(rows, mainDep, i).value);
        OneMoreClosed(rows, mainDep, i, n, now);
        PassCloses(now, mainDep, i);
      }
    }
  }

  // Rows without values are passed by.
  lemma {:induction false} NothingToPass(rows: seq<Row>, mainDep: map<Key, Key>, low: nat, n: nat)
    requires low <= n <= |rows| && forall i :: low <= i < n ==> rows[i].val.None?
    ensures Pass(rows, mainDep, n) == Pass(rows, mainDep, low)
    decreases n
  {
    if low < n {
      NothingToPass(rows, mainDep, low, n - 1);
    }
  }

  // Rows of which only one has a value, and none a title.
  function OnlyRow(keys: seq<Key>, i: nat): (rows: seq<Row>)
    ensures Keys(rows) == keys
  {
    seq(|keys|, x requires 0 <= x < |keys| =>
      Row(0, if x == i then Some("[*]") else None, 0, None, false, keys[x], 0, false, None))
  }

  lemma LateRow(rows: seq<Row>, mainDep: map<Key, Key>, i: nat)
    requires i < |rows| && !InOrderAt(rows, mainDep, i)
    ensures var only := OnlyRow(Keys(rows), i);
      Pass(only, mainDep, |only|).Some? && !Closed(Pass(only, mainDep, |only|).value, mainDep, 0)
  {
    var only, n := OnlyRow(Keys(rows), i), i + 1;
    SameParent(rows, only, mainDep, i);
    var j := Parent(only, mainDep, i).value;
    SameParent(rows, only, mainDep, j);
    var now := Used(only, j);
    NothingToPass(only, mainDep, n, |only|);
    assert Pass(only, mainDep, n) == Pass(now, mainDep, i);
    NothingToPass(now, mainDep, 0, i);
    SameParent(only, now, mainDep, j);
    assert !ShownUnder(now, mainDep, j);
  }

  ghost predicate AlwaysClosed(rows: seq<Row>, mainDep: map<Key, Key>) {
    forall now: seq<Row> :: Keys(now) == Keys(rows) && |now| == |rows| && Pass(now, mainDep, |now|).Some? ==>
      Closed(Pass(now, mainDep, |now|).value, mainDep, 0)
  }

  // Whatever has values and titles, what remains is shown under rows that remain: this is so exactly if no row
  // can be marked too late.
  lemma ClosedExact(rows: seq<Row>, mainDep: map<Key, Key>)
    ensures AlwaysClosed(rows, mainDep) <==> InOrder(rows, mainDep)
  {
    if InOrder(rows, mainDep) {
      forall now: seq<Row> | Keys(now) == Keys(rows) && |now| == |rows| && Pass(now, mainDep, |now|).Some?
        ensures Closed(Pass(now, mainDep, |now|).value, mainDep, 0)
      {
        SameOrder(rows, now, mainDep);
        PassCloses(now, mainDep, |now|);
      }
    } else {
      var i :| 0 <= i < |rows| && !InOrderAt(rows, mainDep, i);
      LateRow(rows, mainDep, i);
    }
  }

  // A row and everything that it is shown under.
  ghost predicate Ancestor(rows: seq<Row>, mainDep: map<Key, Key>, a: nat, i: nat)
    requires i < |rows| && ParentsBefore(rows, mainDep)
    decreases i
  {
    a == i || (rows[i].key in mainDep && Ancestor(rows, mainDep, a, Parent(rows, mainDep, i).value))
  }

  // What is needed is needed with everything that it is shown under.
  lemma {:induction false} NeededUpward(rows: seq<Row>, mainDep: map<Key, Key>, a: nat, i: nat)
    requires i < |rows| && ParentsBefore(rows, mainDep) && Ancestor(rows, mainDep, a, i) && Needed(rows, mainDep, i)
    ensures a < |rows| && Needed(rows, mainDep, a)
    decreases i
  {
    if a != i {
      NeededUpward(rows, mainDep, a, Parent(rows, mainDep, i).value);
    }
  }

  // It can happen: an entry B without title comes first, and again in a menu within a menu, where D is shown
  // under it.  The inner menu is used in the end, and the outer one is not.

  function RepeatedRows(): seq<Row> {
    [Row(0, None, 0, None, false, Named("B"), 0, false, None),
     Row(0, None, 0, Some("Outer"), true, Numbered(2), 0, false, None),
     Row(2, None, 0, Some("Inner"), true, Numbered(3), 2, false, None),
     Row(4, None, 0, None, false, Named("B"), 3, false, None),
     Row(4, Some("[*]"), 0, Some("D"), false, Named("D"), 3, false, None)]
  }

  function RepeatedDeps(): map<Key, Key> {
    map[Numbered(3) := Numbered(2), Named("B") := Numbered(3), Named("D") := Named("B")]
  }

  lemma RepeatedParents()
    ensures var rows, deps := RepeatedRows(), RepeatedDeps();
      Parent(rows, deps, 0) == Some(2) && Parent(rows, deps, 2) == Some(1) && Parent(rows, deps, 4) == Some(0)
  {
  }

  // The rows after the pass, of which the second one alone has a title and no value.
  lemma RepeatedPass()
    ensures var rows := RepeatedRows();
      var last := rows[0 := rows[0].(val := Some(""))][2 := rows[2].(val := Some(""))];
      Pass(rows, RepeatedDeps(), 5) == Some(last)
  {
    var rows, deps := RepeatedRows(), RepeatedDeps();
    var once := rows[0 := rows[0].(val := Some(""))];
    RepeatedParents();
    assert Pass(rows, deps, 5) == Pass(once, deps, 4);
    NothingToPass(once, deps, 1, 4);
    SameParent(rows, once, deps, 0);
    assert Pass(once, deps, 1) == Pass(Used(once, 2), deps, 0);
  }

  lemma RepeatedNotClosed()
    ensures var rows, deps := RepeatedRows(), RepeatedDeps();
      Pass(rows, deps, 5).Some? && !InOrder(rows, deps) && !Closed(Pass(rows, deps, 5).value, deps, 0)
  {
    var rows, deps := RepeatedRows(), RepeatedDeps();
    RepeatedPass();
    RepeatedParents();
    var last := Pass(rows, deps, 5).value;
    SameParent(rows, last, deps, 2);
    assert !InOrderAt(rows, deps, 0) && !ShownUnder(last, deps, 2);
  }

  lemma BeforeIsInOrder(rows: seq<Row>, mainDep: map<Key, Key>)
    requires ParentsBefore(rows, mainDep)
    ensures InOrder(rows, mainDep)
  {
  }

  // Everything together.  There is a row for every entry, and the rows that remain are those that the pass
  // uses.  If names are not repeated, these are the needed ones, unless something that is needed is shown under
  // an option without a value.
  method SelectRows(known: map<string, Known>, events: seq<Event>)
      returns (loaded: bool, ok: bool, all: seq<Row>, shown: seq<Row>, mainDep: map<Key, Key>)
    requires WellNested(events)
    ensures loaded ==> Keys(all) == RowKeys(events) && RowsShow(known, events, all)
    ensures !loaded ==> exists i :: 0 <= i < |events| && CannotShow(known, events[i])
    ensures loaded ==> (ok <==> Pass(all, mainDep, |all|).Some?) && (ok ==> Some(shown) == Pass(all, mainDep, |all|))
    ensures loaded && ok && InOrder(all, mainDep) ==> Closed(shown, mainDep, 0)
    ensures loaded && DistinctNames(events) ==> ParentsBefore(all, mainDep) && InOrder(all, mainDep)
    ensures loaded && DistinctNames(events) ==> (ok <==> Consistent(all, mainDep))
    ensures loaded && DistinctNames(events) && ok ==> |shown| == |all| && forall i :: 0 <= i < |all| ==>
      && shown[i] == all[i].(val := Marked(all, mainDep, i, 0)) && (shown[i].val.Some? <==> Needed(all, mainDep, i))
  {
    var loader := new Loader(known);
    loaded := loader.Load(events);
    all, mainDep := loader.rows, loader.mainDep;
    shown, ok := all, false;
    if loaded {
      var r := new Row[|all|](i requires 0 <= i < |all| => all[i]);
      assert r[..] == all;
      ok := Refcount(r, mainDep);
      shown := r[..];
      if ok && InOrder(all, mainDep) {
        PassCloses(all, mainDep, |all|);
      }
      if DistinctNames(events) {
        EarlierMeansBefore(all, mainDep);
        BeforeIsInOrder(all, mainDep);
        PassExact(all, mainDep);
      }
    }
  }
}
