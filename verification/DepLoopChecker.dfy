/** The search with its `_visited` marks updated in place. */
module DepLoopChecker {
  import opened Wrappers
  import opened Model
  import D = DepLoops
  import O = DepLoopOrder

  class Checker {
    const k: Config
    const deps: seq<seq<Id>>
    var visited: seq<D.Mark>

    ghost predicate Valid()
      reads this
    {
      D.Searchable(k, deps) && |visited| == |k.items|
    }

    constructor (k: Config, deps: seq<seq<Id>>)
      requires D.Searchable(k, deps)
      ensures Valid() && this.k == k && this.deps == deps && visited == seq(|k.items|, _ => 0)
    {
      this.k := k;
      this.deps := deps;
      visited := seq(|k.items|, _ => 0);
    }

    // _check_dep_loop_sym()
    method CheckSym(x: Id, ignoreChoice: bool) returns (loop: D.Loop)
      requires Valid() && x < |k.items| && k.items[x].Symbol?
      modifies `visited
      ensures Valid()
      ensures D.Search(loop, visited) == D.CheckSym(k, deps, old(visited), x, ignoreChoice)
      decreases D.Unvisited(visited), 0
    {
      if visited[x] == 0 {
        assert x in D.Unvisited(visited);
        visited := visited[x := 1];
        assert x !in D.Unvisited(visited);
        ghost var start := visited;
        var i := 0;
        assert deps[x][i..] == deps[x];
        while i < |deps[x]|
          invariant Valid() && 0 <= i <= |deps[x]|
          invariant D.Unvisited(visited) <= D.Unvisited(start)
          invariant D.CheckDependents(k, deps, start, deps[x]) == D.CheckDependents(k, deps, visited, deps[x][i..])
        {
          assert deps[x][i..][1..] == deps[x][i + 1..];
          if k.items[deps[x][i]].Choice? {
            loop := CheckChoice(deps[x][i], None);
          } else {
            loop := CheckSym(deps[x][i], false);
          }
          if loop != D.NoLoop {
            loop := D.FoundDepLoop(loop, x);
            return;
          }
          i := i + 1;
        }
        if k.items[x].InChoice() && !ignoreChoice {
          loop := CheckChoice(k.items[x].choice.value, Some(x));
          if loop != D.NoLoop {
            loop := D.FoundDepLoop(loop, x);
            return;
          }
        }
        visited := visited[x := 2];
        return D.NoLoop;
      }
      if visited[x] == 2 {
        return D.NoLoop;
      }
      return D.Partial([x]);
    }

    // _check_dep_loop_choice()
    method CheckChoice(c: Id, skip: Option<Id>) returns (loop: D.Loop)
      requires Valid() && c < |k.items| && k.items[c].Choice?
      modifies `visited
      ensures Valid()
      ensures D.Search(loop, visited) == D.CheckChoice(k, deps, old(visited), c, skip)
      decreases D.Unvisited(visited), 0
    {
      if visited[c] == 0 {
        assert c in D.Unvisited(visited);
        visited := visited[c := 1];
        assert c !in D.Unvisited(visited);
        ghost var start := visited;
        var i, syms := 0, k.items[c].syms;
        assert syms[i..] == syms;
        while i < |syms|
          invariant Valid() && 0 <= i <= |syms|
          invariant D.Unvisited(visited) <= D.Unvisited(start)
          invariant D.CheckMembers(k, deps, start, syms, skip) == D.CheckMembers(k, deps, visited, syms[i..], skip)
        {
          assert syms[i..][1..] == syms[i + 1..];
          if skip != Some(syms[i]) {
            loop := CheckSym(syms[i], true);
            if loop != D.NoLoop {
              loop := D.FoundDepLoop(loop, c);
              return;
            }
          }
          i := i + 1;
        }
        visited := visited[c := 2];
        return D.NoLoop;
      }
      if visited[c] == 2 {
        return D.NoLoop;
      }
      return D.Partial([c]);
    }

    // The loop over all defined symbols.  What is not an exception is ignored.
    method CheckAll(todo: seq<Id>) returns (loop: D.Loop)
      requires Valid() && D.AllSymbols(k, todo)
      modifies `visited
      ensures Valid()
      ensures D.Search(loop, visited) == D.CheckAll(k, deps, old(visited), todo)
    {
      var i := 0;
      assert todo[i..] == todo;
      while i < |todo|
        invariant Valid() && 0 <= i <= |todo|
        invariant D.CheckAll(k, deps, old(visited), todo) == D.CheckAll(k, deps, visited, todo[i..])
      {
        assert todo[i..][1..] == todo[i + 1..];
        loop := CheckSym(todo[i], false);
        if loop.Raised? {
          return;
        }
        i := i + 1;
      }
      return D.NoLoop;
    }
  }

  // The check that runs once the dependents have been collected.
  method CheckDependencyLoops(k: Config, deps: seq<seq<Id>>, todo: seq<Id>) returns (loop: D.Loop)
    requires WellFormed(k) && D.Dependents(k, deps) && O.DefinedSymbols(k, todo) && O.OwnMembersOnly(k)
    ensures match loop
            case NoLoop => true
            case Partial(_) => false
            case Raised(items) => D.GenuineLoop(k, items)
    ensures loop == D.NoLoop && O.NoBackward(k) <==> exists order :: D.Ranks(k, order)
  {
    D.DependentsSearchable(k, deps);
    var checker := new Checker(k, deps);
    D.AllSound(k, deps, checker.visited, todo);
    O.LoopCheckExact(k, deps, todo);
    loop := checker.CheckAll(todo);
  }
}
