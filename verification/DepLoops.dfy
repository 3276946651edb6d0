/** Dependency loop detection: the depth-first search that runs before anything is evaluated.

    It follows the dependents of symbols, the choice of a choice symbol, and the symbols of a choice.  The
    result is an exception for a loop that has been put together completely, or a part of a loop that is
    handed back to the caller, or nothing. */
module DepLoops {
  import opened Wrappers
  import opened Model

  // Item `y` refers to `x`, which is not a constant.
  predicate IsDependent(k: Config, x: Id, y: Id) {
    y < |k.items| && x in ItemRefs(k.items[y]) && x < |k.items| && !k.items[x].Constant()
  }

  // `deps[x]` lists the dependents of item x, in the order in which the set is iterated.
  ghost predicate Dependents(k: Config, deps: seq<seq<Id>>) {
    && |deps| == |k.items|
    && (forall x: Id, i :: x < |k.items| && 0 <= i < |deps[x]| ==> IsDependent(k, x, deps[x][i]))
    && (forall x: Id, y: Id :: x < |k.items| && IsDependent(k, x, y) ==> y in deps[x])
  }

  // What the search needs to be well-defined; all of it follows from `Dependents` and `WellFormed`.
  predicate Searchable(k: Config, deps: seq<seq<Id>>) {
    && |deps| == |k.items|
    && (forall x: Id, i :: x < |deps| && 0 <= i < |deps[x]| ==> deps[x][i] < |k.items|)
    && (forall x: Id {:trigger k.items[x]} :: x < |k.items| ==>
          && (k.items[x].InChoice() ==> k.items[x].choice.value < |k.items| && k.items[k.items[x].choice.value].Choice?)
          && (k.items[x].Choice? ==> AllSymbols(k, k.items[x].syms)))
  }

  predicate AllSymbols(k: Config, xs: seq<Id>) {
    forall i :: 0 <= i < |xs| ==> xs[i] < |k.items| && k.items[xs[i]].Symbol?
  }

  lemma DependentsSearchable(k: Config, deps: seq<seq<Id>>)
    requires WellFormed(k) && Dependents(k, deps)
    ensures Searchable(k, deps)
  {
    forall x: Id | x < |k.items|
      ensures k.items[x].InChoice() ==> k.items[x].choice.value < |k.items| && k.items[k.items[x].choice.value].Choice?
      ensures k.items[x].Choice? ==> AllSymbols(k, k.items[x].syms)
    {
      assert k.items[x] == k.Item(x) && ItemOk(k, x);
      if k.items[x].Choice? {
        forall i | 0 <= i < |k.items[x].syms|
          ensures k.items[x].syms[i] < |k.items| && k.items[k.items[x].syms[i]].Symbol?
        {
          assert k.items[x].syms[i] in k.items[x].syms;
        }
      }
    }
    forall x: Id, i | x < |deps| && 0 <= i < |deps[x]| ensures deps[x][i] < |k.items| {
      assert IsDependent(k, x, deps[x][i]);
    }
  }

  datatype Loop = NoLoop | Partial(items: seq<Id>) | Raised(items: seq<Id>)

  // `_visited`: 0 is unvisited, 1 is being visited, and 2 is visited and not part of a loop.
  type Mark = x: int | 0 <= x <= 2

  datatype Search = Search(loop: Loop, visited: seq<Mark>)

  ghost function Unvisited(visited: seq<Mark>): set<Id> {
    set x: Id | x < |visited| && visited[x] == 0
  }

  lemma OneMoreVisited(visited: seq<Mark>, x: Id)
    requires x < |visited| && visited[x] == 0
    ensures Unvisited(visited[x := 1]) < Unvisited(visited)
  {
    assert x in Unvisited(visited) && x !in Unvisited(visited[x := 1]);
  }

  // _found_dep_loop()
  function FoundDepLoop(loop: Loop, cur: Id): Loop {
    if !loop.Partial? || loop.items == [] then loop
    else if cur != loop.items[0] then Partial(loop.items + [cur])
    else Raised(loop.items)
  }

  // _check_dep_loop_sym()
  function CheckSym(k: Config, deps: seq<seq<Id>>, visited: seq<Mark>, x: Id, ignoreChoice: bool): (s: Search)
    requires Searchable(k, deps) && |visited| == |k.items| && x < |k.items| && k.items[x].Symbol?
    ensures |s.visited| == |visited| && Unvisited(s.visited) <= Unvisited(visited)
    decreases Unvisited(visited), 0, 0
  {
    if visited[x] == 0 then
      var start := visited[x := 1];
      OneMoreVisited(visited, x);
      var s := CheckDependents(k, deps, start, deps[x]);
      if s.loop != NoLoop then Search(FoundDepLoop(s.loop, x), s.visited)
      else
        var t := if k.items[x].InChoice() && !ignoreChoice
                 then CheckChoice(k, deps, s.visited, k.items[x].choice.value, Some(x)) else s;
        if t.loop != NoLoop then Search(FoundDepLoop(t.loop, x), t.visited)
        else Search(NoLoop, t.visited[x := 2])
    else if visited[x] == 2 then Search(NoLoop, visited)
    else Search(Partial([x]), visited)
  }

  // The loop over the dependents of a symbol.
  function CheckDependents(k: Config, deps: seq<seq<Id>>, visited: seq<Mark>, todo: seq<Id>): (s: Search)
    requires Searchable(k, deps) && |visited| == |k.items|
    requires forall i :: 0 <= i < |todo| ==> todo[i] < |k.items|
    ensures |s.visited| == |visited| && Unvisited(s.visited) <= Unvisited(visited)
    decreases Unvisited(visited), 1, |todo|
  {
    if todo == [] then Search(NoLoop, visited)
    else
      var s := if k.items[todo[0]].Choice? then CheckChoice(k, deps, visited, todo[0], None)
               else CheckSym(k, deps, visited, todo[0], false);
      if s.loop != NoLoop then s else CheckDependents(k, deps, s.visited, todo[1..])
  }

  // _check_dep_loop_choice()
  function CheckChoice(k: Config, deps: seq<seq<Id>>, visited: seq<Mark>, c: Id, skip: Option<Id>): (s: Search)
    requires Searchable(k, deps) && |visited| == |k.items| && c < |k.items| && k.items[c].Choice?
    ensures |s.visited| == |visited| && Unvisited(s.visited) <= Unvisited(visited)
    decreases Unvisited(visited), 0, 0
  {
    if visited[c] == 0 then
      var start := visited[c := 1];
      OneMoreVisited(visited, c);
      var s := CheckMembers(k, deps, start, k.items[c].syms, skip);
      if s.loop != NoLoop then Search(FoundDepLoop(s.loop, c), s.visited)
      else Search(NoLoop, s.visited[c := 2])
    else if visited[c] == 2 then Search(NoLoop, visited)
    else Search(Partial([c]), visited)
  }

  // The loop over the symbols of a choice.
  function CheckMembers(k: Config, deps: seq<seq<Id>>, visited: seq<Mark>, todo: seq<Id>, skip: Option<Id>): (s: Search)
    requires Searchable(k, deps) && |visited| == |k.items|
    requires AllSymbols(k, todo)
    ensures |s.visited| == |visited| && Unvisited(s.visited) <= Unvisited(visited)
    decreases Unvisited(visited), 1, |todo|
  {
    if todo == [] then Search(NoLoop, visited)
    else if skip == Some(todo[0]) then CheckMembers(k, deps, visited, todo[1..], skip)
    else
      var s := CheckSym(k, deps, visited, todo[0], true);
      if s.loop != NoLoop then s else CheckMembers(k, deps, s.visited, todo[1..], skip)
  }

  // The search over all defined symbols; an exception ends it.
  function CheckAll(k: Config, deps: seq<seq<Id>>, visited: seq<Mark>, todo: seq<Id>): (s: Search)
    requires Searchable(k, deps) && |visited| == |k.items|
    requires AllSymbols(k, todo)
    ensures |s.visited| == |visited|
    decreases |todo|
  {
    if todo == [] then Search(NoLoop, visited)
    else
      var s := CheckSym(k, deps, visited, todo[0], false);
      if s.loop.Raised? then s else CheckAll(k, deps, s.visited, todo[1..])
  }

  // What a step of the search stands for: changing `x` may change `y`.

  predicate Dependency(k: Config, x: Id, y: Id) {
    x < |k.items| && k.items[x].Symbol? && IsDependent(k, x, y)
  }

  predicate Follows(k: Config, x: Id, y: Id) {
    && x < |k.items| && y < |k.items|
    && (Dependency(k, x, y) || (k.items[x].InChoice() && k.items[x].choice.value == y)
        || (k.items[x].Choice? && y in k.items[x].syms))
  }

  // The items of a loop are collected on the way back, so that each one affects the one before it.
  ghost predicate Walk(k: Config, items: seq<Id>) {
    forall i :: 0 <= i < |items| - 1 ==> Follows(k, items[i + 1], items[i])
  }

  ghost predicate HasDependency(k: Config, items: seq<Id>) {
    exists i :: 0 <= i < |items| - 1 && Dependency(k, items[i + 1], items[i])
  }

  ghost predicate Distinct(items: seq<Id>) {
    forall i, j :: 0 <= i < j < |items| ==> items[i] != items[j]
  }

  // A cycle, and not just one that goes back and forth between choices and their symbols.
  ghost predicate GenuineLoop(k: Config, items: seq<Id>) {
    && items != [] && Distinct(items) && Walk(k, items) && Follows(k, items[0], items[|items| - 1])
    && (HasDependency(k, items) || Dependency(k, items[0], items[|items| - 1]))
  }

  // A part of a loop, from an item that was being visited all along up to `x`.
  ghost predicate Trail(k: Config, visited: seq<Mark>, items: seq<Id>, x: Id) {
    && items != [] && items[|items| - 1] == x && Distinct(items) && Walk(k, items)
    && items[0] < |visited| && visited[items[0]] == 1
    && forall i :: 1 <= i < |items| ==> items[i] < |visited| && visited[items[i]] == 0
  }

  // A search that finds no loop: what was being visited still is, and nothing is forgotten.
  ghost predicate Passed(before: seq<Mark>, after: seq<Mark>) {
    && |before| == |after|
    && (forall y: Id :: y < |before| ==> (before[y] == 1 <==> after[y] == 1))
    && (forall y: Id :: y < |before| && before[y] == 2 ==> after[y] == 2)
    && (forall y: Id :: y < |before| && after[y] == 0 ==> before[y] == 0)
  }

  lemma TrailBefore(k: Config, before: seq<Mark>, after: seq<Mark>, items: seq<Id>, x: Id)
    requires Passed(before, after) && Trail(k, after, items, x)
    ensures Trail(k, before, items, x)
  {
  }

  // What is added to a trail on the way back through `x`.
  lemma Extended(k: Config, visited: seq<Mark>, items: seq<Id>, x: Id)
    requires x < |visited| && visited[x] == 0 && items != []
    requires Trail(k, visited[x := 1], items, items[|items| - 1]) && Follows(k, x, items[|items| - 1])
    requires x != items[0]
    ensures Trail(k, visited, items + [x], x)
    ensures Dependency(k, x, items[|items| - 1]) || HasDependency(k, items) ==> HasDependency(k, items + [x])
  {
    var longer := items + [x];
    if Dependency(k, x, items[|items| - 1]) {
      assert Dependency(k, longer[|items| - 1 + 1], longer[|items| - 1]);
    } else if HasDependency(k, items) {
      var i :| 0 <= i < |items| - 1 && Dependency(k, items[i + 1], items[i]);
      assert Dependency(k, longer[i + 1], longer[i]);
    }
  }

  // What can be said of a search of `x` that has handed back or raised a loop.
  ghost predicate SymVerdict(k: Config, visited: seq<Mark>, s: Search, x: Id, ignoreChoice: bool) {
    match s.loop
    case NoLoop => Passed(visited, s.visited)
    case Partial(items) =>
      Trail(k, visited, items, x) && (ignoreChoice ==> |items| == 1 || HasDependency(k, items))
    case Raised(items) => GenuineLoop(k, items)
  }

  ghost predicate ChoiceVerdict(k: Config, visited: seq<Mark>, s: Search, c: Id, skip: Option<Id>) {
    match s.loop
    case NoLoop => Passed(visited, s.visited)
    case Partial(items) =>
      && Trail(k, visited, items, c)
      && (|items| == 1 || HasDependency(k, items) || (|items| == 2 && Some(items[0]) != skip))
    case Raised(items) => GenuineLoop(k, items)
  }

  ghost predicate ListVerdict(k: Config, visited: seq<Mark>, s: Search, todo: seq<Id>, skip: Option<Id>,
                              members: bool) {
    match s.loop
    case NoLoop => Passed(visited, s.visited)
    case Partial(items) =>
      && items != [] && items[|items| - 1] in todo && Trail(k, visited, items, items[|items| - 1])
      && Some(items[|items| - 1]) != skip
      && (members ==> |items| == 1 || HasDependency(k, items))
    case Raised(items) => GenuineLoop(k, items)
  }

  lemma Closes(visited: seq<Mark>, after: seq<Mark>, x: Id)
    requires x < |visited| && visited[x] == 0 && Passed(visited[x := 1], after)
    ensures Passed(visited, after[x := 2])
  {
  }

  // Either more of a loop, or all of it.
  lemma WayBack(k: Config, visited: seq<Mark>, items: seq<Id>, x: Id)
    requires x < |visited| && visited[x] == 0 && items != []
    requires Trail(k, visited[x := 1], items, items[|items| - 1]) && Follows(k, x, items[|items| - 1])
    requires items[0] == x ==> Dependency(k, x, items[|items| - 1]) || HasDependency(k, items)
    ensures match FoundDepLoop(Partial(items), x)
            case Partial(longer) =>
              && longer == items + [x] && Trail(k, visited, longer, x)
              && (Dependency(k, x, items[|items| - 1]) || HasDependency(k, items) ==> HasDependency(k, longer))
            case Raised(loop) => GenuineLoop(k, loop)
            case NoLoop => false
  {
    if items[0] != x {
      Extended(k, visited, items, x);
    }
  }

  // What the searches from a symbol come to: the one over its dependents, and the one from its choice.

  lemma SymFromDependents(k: Config, deps: seq<seq<Id>>, visited: seq<Mark>, x: Id, s: Search)
    requires Searchable(k, deps) && Dependents(k, deps)
    requires |visited| == |k.items| && x < |k.items| && k.items[x].Symbol? && visited[x] == 0
    requires ListVerdict(k, visited[x := 1], s, deps[x], None, false) && s.loop != NoLoop
    ensures SymVerdict(k, visited, Search(FoundDepLoop(s.loop, x), s.visited), x, false)
    ensures SymVerdict(k, visited, Search(FoundDepLoop(s.loop, x), s.visited), x, true)
  {
    if s.loop.Partial? {
      DependentFollows(k, deps, x, s.loop.items[|s.loop.items| - 1]);
      WayBack(k, visited, s.loop.items, x);
    }
  }

  lemma SymFromChoice(k: Config, visited: seq<Mark>, mid: seq<Mark>, x: Id, c: Id, t: Search)
    requires |visited| == |k.items| && x < |k.items| && visited[x] == 0
    requires k.items[x].Symbol? && k.items[x].choice == Some(c) && c < |k.items| && k.items[c].Choice?
    requires Passed(visited[x := 1], mid) && ChoiceVerdict(k, mid, t, c, Some(x)) && t.loop != NoLoop
    ensures SymVerdict(k, visited, Search(FoundDepLoop(t.loop, x), t.visited), x, false)
  {
    if t.loop.Partial? {
      TrailBefore(k, visited[x := 1], mid, t.loop.items, c);
      WayBack(k, visited, t.loop.items, x);
    }
  }

  lemma {:induction false} SymSound(k: Config, deps: seq<seq<Id>>, visited: seq<Mark>, x: Id, ignoreChoice: bool)
    requires Searchable(k, deps) && Dependents(k, deps)
    requires |visited| == |k.items| && x < |k.items| && k.items[x].Symbol?
    ensures SymVerdict(k, visited, CheckSym(k, deps, visited, x, ignoreChoice), x, ignoreChoice)
    decreases Unvisited(visited), 0, 0
  {
    if visited[x] == 0 {
      var start := visited[x := 1];
      OneMoreVisited(visited, x);
      var s := CheckDependents(k, deps, start, deps[x]);
      DependentsSound(k, deps, start, deps[x]);
      if s.loop != NoLoop {
        SymFromDependents(k, deps, visited, x, s);
      } else if k.items[x].InChoice() && !ignoreChoice {
        var c := k.items[x].choice.value;
        var t := CheckChoice(k, deps, s.visited, c, Some(x));
        ChoiceSound(k, deps, s.visited, c, Some(x));
        if t.loop != NoLoop {
          SymFromChoice(k, visited, s.visited, x, c, t);
        } else {
          Closes(visited, t.visited, x);
        }
      } else {
        Closes(visited, s.visited, x);
      }
    }
  }

  lemma DependentFollows(k: Config, deps: seq<seq<Id>>, x: Id, y: Id)
    requires Searchable(k, deps) && Dependents(k, deps) && x < |k.items| && k.items[x].Symbol? && y in deps[x]
    ensures Dependency(k, x, y) && Follows(k, x, y)
  {
    var i :| 0 <= i < |deps[x]| && deps[x][i] == y;
    assert IsDependent(k, x, deps[x][i]);
  }

  lemma {:induction false} DependentsSound(k: Config, deps: seq<seq<Id>>, visited: seq<Mark>, todo: seq<Id>)
    requires Searchable(k, deps) && Dependents(k, deps) && |visited| == |k.items|
    requires forall i :: 0 <= i < |todo| ==> todo[i] < |k.items|
    ensures ListVerdict(k, visited, CheckDependents(k, deps, visited, todo), todo, None, false)
    decreases Unvisited(visited), 1, |todo|
  {
    if todo != [] {
      var s := if k.items[todo[0]].Choice? then CheckChoice(k, deps, visited, todo[0], None)
               else CheckSym(k, deps, visited, todo[0], false);
      if k.items[todo[0]].Choice? {
        ChoiceSound(k, deps, visited, todo[0], None);
      } else {
        SymSound(k, deps, visited, todo[0], false);
      }
      if s.loop == NoLoop {
        DependentsSound(k, deps, s.visited, todo[1..]);
        ListLater(k, visited, s.visited, CheckDependents(k, deps, s.visited, todo[1..]), todo, None, false);
      }
    }
  }

  lemma ListLater(k: Config, visited: seq<Mark>, next: seq<Mark>, s: Search, todo: seq<Id>, skip: Option<Id>,
                  members: bool)
    requires Passed(visited, next) && todo != [] && ListVerdict(k, next, s, todo[1..], skip, members)
    ensures ListVerdict(k, visited, s, todo, skip, members)
  {
    if s.loop.Partial? {
      TrailBefore(k, visited, next, s.loop.items, s.loop.items[|s.loop.items| - 1]);
    }
  }

  lemma {:induction false} ChoiceSound(k: Config, deps: seq<seq<Id>>, visited: seq<Mark>, c: Id, skip: Option<Id>)
    requires Searchable(k, deps) && Dependents(k, deps)
    requires |visited| == |k.items| && c < |k.items| && k.items[c].Choice?
    ensures ChoiceVerdict(k, visited, CheckChoice(k, deps, visited, c, skip), c, skip)
    decreases Unvisited(visited), 0, 0
  {
    if visited[c] == 0 {
      var start := visited[c := 1];
      OneMoreVisited(visited, c);
      var s := CheckMembers(k, deps, start, k.items[c].syms, skip);
      MembersSound(k, deps, start, k.items[c].syms, skip);
      if s.loop.Partial? {
        var last := s.loop.items[|s.loop.items| - 1];
        assert last in k.items[c].syms && Follows(k, c, last);
        WayBack(k, visited, s.loop.items, c);
      } else if s.loop == NoLoop {
        Closes(visited, s.visited, c);
      }
    }
  }

  lemma {:induction false} MembersSound(k: Config, deps: seq<seq<Id>>, visited: seq<Mark>, todo: seq<Id>,
                                        skip: Option<Id>)
    requires Searchable(k, deps) && Dependents(k, deps) && |visited| == |k.items| && AllSymbols(k, todo)
    ensures ListVerdict(k, visited, CheckMembers(k, deps, visited, todo, skip), todo, skip, true)
    decreases Unvisited(visited), 1, |todo|
  {
    if todo != [] {
      if skip == Some(todo[0]) {
        MembersSound(k, deps, visited, todo[1..], skip);
        ListLater(k, visited, visited, CheckMembers(k, deps, visited, todo[1..], skip), todo, skip, true);
      } else {
        var s := CheckSym(k, deps, visited, todo[0], true);
        SymSound(k, deps, visited, todo[0], true);
        if s.loop == NoLoop {
          MembersSound(k, deps, s.visited, todo[1..], skip);
          ListLater(k, visited, s.visited, CheckMembers(k, deps, s.visited, todo[1..], skip), todo, skip, true);
        }
      }
    }
  }

  ghost predicate Settled(visited: seq<Mark>) {
    forall y: Id :: y < |visited| ==> visited[y] != 1
  }

  // Every one of the searches that start from the outside, up to the first exception, ends without a part
  // of a loop, which would be ignored.
  ghost predicate NothingEscapes(k: Config, deps: seq<seq<Id>>, visited: seq<Mark>, todo: seq<Id>)
    requires Searchable(k, deps) && |visited| == |k.items| && AllSymbols(k, todo)
    decreases |todo|
  {
    todo == []
    || var s := CheckSym(k, deps, visited, todo[0], false);
       !s.loop.Partial? && (s.loop == NoLoop ==> NothingEscapes(k, deps, s.visited, todo[1..]))
  }

  lemma {:induction false} AllSound(k: Config, deps: seq<seq<Id>>, visited: seq<Mark>, todo: seq<Id>)
    requires Searchable(k, deps) && Dependents(k, deps) && |visited| == |k.items| && AllSymbols(k, todo)
    requires Settled(visited)
    ensures NothingEscapes(k, deps, visited, todo)
    ensures match CheckAll(k, deps, visited, todo).loop
            case NoLoop => true
            case Partial(_) => false
            case Raised(items) => GenuineLoop(k, items)
    decreases |todo|
  {
    if todo != [] {
      var s := CheckSym(k, deps, visited, todo[0], false);
      SymSound(k, deps, visited, todo[0], false);
      if s.loop == NoLoop {
        AllSound(k, deps, s.visited, todo[1..]);
      }
    }
  }

  ghost predicate Ranks(k: Config, order: seq<nat>) {
    Ranked(k.(order := order))
  }

  // Where a ranking puts the items, with a choice at the level of its symbols: dependencies go up, and the
  // other steps stay on the level.
  function Level(k: Config, order: seq<nat>, x: Id): nat
    requires x < |order|
  {
    if k.Item(x).Choice? then order[x] + 1 else order[x]
  }

  lemma StepLevels(k: Config, order: seq<nat>, x: Id, y: Id)
    requires WellFormed(k) && Ranks(k, order) && Follows(k, x, y)
    ensures Level(k, order, x) <= Level(k, order, y)
    ensures Dependency(k, x, y) || (k.items[x].InChoice() && k.items[x].choice.value != y)
            ==> Level(k, order, x) < Level(k, order, y)
  {
    var k' := k.(order := order);
    assert k'.Item(x) == k.Item(x) == k.items[x] && k'.Item(y) == k.Item(y) == k.items[y];
    assert k'.Rank(x) == order[x] && k'.Rank(y) == order[y];
    assert ItemOk(k, x) && ItemOk(k, y);
  }

  lemma {:induction false} WalkLevels(k: Config, order: seq<nat>, items: seq<Id>, i: nat, j: nat)
    requires WellFormed(k) && Ranks(k, order) && Walk(k, items) && i <= j < |items|
    requires forall l :: 0 <= l < |items| ==> items[l] < |order|
    ensures Level(k, order, items[j]) <= Level(k, order, items[i])
    decreases j
  {
    if i < j {
      var prev: nat := j - 1;
      WalkLevels(k, order, items, i, prev);
      assert Follows(k, items[prev + 1], items[prev]);
      StepLevels(k, order, items[j], items[prev]);
    }
  }

  lemma WalkInRange(k: Config, items: seq<Id>, i: int)
    requires Walk(k, items) && 0 <= i < |items| && |items| >= 2
    ensures items[i] < |k.items|
  {
    var prev := if i > 0 then i - 1 else 0;
    assert Follows(k, items[prev + 1], items[prev]);
  }

  // No ranking is possible if there is a loop.
  lemma LoopHasNoRanking(k: Config, order: seq<nat>, items: seq<Id>)
    requires WellFormed(k) && GenuineLoop(k, items)
    ensures !Ranks(k, order)
  {
    if Ranks(k, order) {
      forall i | 0 <= i < |items| ensures items[i] < |order| {
        if |items| >= 2 {
          WalkInRange(k, items, i);
        }
      }
      var last: nat := |items| - 1;
      StepLevels(k, order, items[0], items[last]);
      WalkLevels(k, order, items, 0, last);
      if HasDependency(k, items) {
        var i :| 0 <= i < |items| - 1 && Dependency(k, items[i + 1], items[i]);
        var next: nat := i + 1;
        WalkLevels(k, order, items, 0, i);
        WalkLevels(k, order, items, next, last);
        StepLevels(k, order, items[next], items[i]);
      }
    }
  }
}
