/** What it means that dependency loop detection finds nothing: exactly when the items can be ranked.

    The search sees a choice and its symbols as one cluster, and completes clusters in the reverse order of a
    ranking.  The exception is a symbol of a choice that an earlier symbol of the same choice depends on,
    when the choice is entered from anywhere else: by the time the later symbol is searched, the earlier one
    is already marked as not part of a loop.  `Backward` describes these walks. */
module DepLoopOrder {
  import opened Wrappers
  import opened Model
  import opened DepLoops

  function Cluster(k: Config, x: Id): Id {
    if k.Item(x).InChoice() then k.Item(x).choice.value else x
  }

  // Two symbols of a choice in the order in which it lists them.
  ghost predicate Earlier(k: Config, c: Id, s: Id, t: Id) {
    && c < |k.items| && k.items[c].Choice? && s != t
    && exists i, j :: 0 <= i < j < |k.items[c].syms| && k.items[c].syms[i] == s && k.items[c].syms[j] == t
  }

  // A walk from a symbol of a choice to an earlier one that does not pass through the choice.
  ghost predicate Backward(k: Config, c: Id, w: seq<Id>) {
    |w| >= 2 && Walk(k, w) && c !in w && Earlier(k, c, w[0], w[|w| - 1])
  }

  ghost predicate NoBackward(k: Config) {
    forall c: Id, w: seq<Id> :: !Backward(k, c, w)
  }

  ghost predicate Setup(k: Config, deps: seq<seq<Id>>) {
    WellFormed(k) && Dependents(k, deps) && Searchable(k, deps) && NoBackward(k)
  }

  // `a` was completed, and `b` was not by then.
  ghost predicate Before(done: seq<Id>, a: Id, b: Id) {
    exists i :: 0 <= i < |done| && done[i] == a && b !in done[..i + 1]
  }

  // The state of the search: the items being visited, innermost first, and the clusters that have been
  // completed, in order.

  ghost predicate OnPath(k: Config, visited: seq<Mark>, path: seq<Id>) {
    && |visited| == |k.items| && Distinct(path) && Walk(k, path)
    && (forall i :: 0 <= i < |path| ==> path[i] < |k.items|)
    && (forall x: Id :: x < |visited| ==> (visited[x] == 1 <==> x in path))
  }

  ghost predicate DependentsDone(k: Config, deps: seq<seq<Id>>, done: seq<Id>, x: Id)
    requires x < |deps|
  {
    forall i :: 0 <= i < |deps[x]| ==> Before(done, Cluster(k, deps[x][i]), Cluster(k, x))
  }

  ghost predicate AllDependentsDone(k: Config, deps: seq<seq<Id>>, visited: seq<Mark>, done: seq<Id>) {
    && |visited| == |k.items| == |deps|
    && forall x: Id :: x < |k.items| && k.items[x].Symbol? && visited[x] == 2 ==> DependentsDone(k, deps, done, x)
  }

  ghost predicate Complete(k: Config, visited: seq<Mark>, q: Id) {
    && q < |k.items| == |visited| && visited[q] == 2
    && (k.items[q].Choice? ==> forall i :: 0 <= i < |k.items[q].syms| ==>
          k.items[q].syms[i] < |visited| && visited[k.items[q].syms[i]] == 2)
  }

  ghost predicate DoneComplete(k: Config, visited: seq<Mark>, done: seq<Id>) {
    forall i :: 0 <= i < |done| ==> Complete(k, visited, done[i])
  }

  // Where a symbol is that has been visited while its choice has not been completed: it comes before the
  // symbol of the choice that is being visited.
  ghost predicate Overtaken(k: Config, path: seq<Id>, x: Id, c: Id) {
    exists i :: 0 <= i < |path| && path[i] == c && (i > 0 ==> Earlier(k, c, x, path[i - 1]))
  }

  ghost predicate VisitedDone(k: Config, visited: seq<Mark>, path: seq<Id>, done: seq<Id>) {
    && |visited| == |k.items|
    && forall x: Id :: x < |visited| && visited[x] == 2 && Cluster(k, x) !in done ==>
         k.items[x].InChoice() && Overtaken(k, path, x, Cluster(k, x))
  }

  ghost predicate Inv(k: Config, deps: seq<seq<Id>>, visited: seq<Mark>, path: seq<Id>, done: seq<Id>) {
    && OnPath(k, visited, path) && AllDependentsDone(k, deps, visited, done) && DoneComplete(k, visited, done)
    && VisitedDone(k, visited, path, done)
  }

  // The search has left the symbols of unfinished choices alone, apart from those in `except`.
  ghost predicate OnlyAdds(k: Config, before: seq<Mark>, after: seq<Mark>, done: seq<Id>, except: set<Id>) {
    && |before| == |after| == |k.items|
    && forall s: Id :: s < |after| && k.items[s].InChoice() && Cluster(k, s) !in done && after[s] == 2 ==>
         before[s] == 2 || s in except
  }

  ghost function Members(k: Config, c: Id): set<Id> {
    if c < |k.items| && k.items[c].Choice? then set s | s in k.items[c].syms else {}
  }

  lemma BeforeLater(done: seq<Id>, more: seq<Id>, a: Id, b: Id)
    requires Before(done, a, b)
    ensures Before(done + more, a, b)
  {
    var i :| 0 <= i < |done| && done[i] == a && b !in done[..i + 1];
    assert (done + more)[i] == a && (done + more)[..i + 1] == done[..i + 1];
  }

  lemma InBefore(done: seq<Id>, a: Id, b: Id)
    requires a in done && b !in done
    ensures Before(done, a, b)
  {
    var i :| 0 <= i < |done| && done[i] == a;
    assert b !in done[..i + 1];
  }

  // Nothing but the symbols that come before `x` has been visited in the choice from which `x` is entered.
  ghost predicate EarlierOnly(k: Config, visited: seq<Mark>, c: Id, x: Id) {
    |visited| == |k.items|
    && forall s: Id ::
         s < |visited| && k.items[s].InChoice() && Cluster(k, s) == c && visited[s] == 2 ==> Earlier(k, c, s, x)
  }

  // Entering `x`.
  lemma Push(k: Config, deps: seq<seq<Id>>, visited: seq<Mark>, path: seq<Id>, done: seq<Id>, x: Id)
    requires Inv(k, deps, visited, path, done) && x < |k.items| && visited[x] == 0
    requires path != [] ==> Follows(k, path[0], x) && EarlierOnly(k, visited, path[0], x)
    ensures Inv(k, deps, visited[x := 1], [x] + path, done)
  {
    var start, longer := visited[x := 1], [x] + path;
    assert OnPath(k, start, longer) by {
      assert forall i :: 0 <= i < |path| ==> longer[i + 1] == path[i];
    }
    forall s: Id | s < |start| && start[s] == 2 && Cluster(k, s) !in done
      ensures k.items[s].InChoice() && Overtaken(k, longer, s, Cluster(k, s))
    {
      PushOvertaken(k, path, s, Cluster(k, s), x);
    }
  }

  lemma PushOvertaken(k: Config, path: seq<Id>, s: Id, c: Id, x: Id)
    requires Overtaken(k, path, s, c) && (path[0] == c ==> Earlier(k, c, s, x))
    ensures Overtaken(k, [x] + path, s, c)
  {
    var longer := [x] + path;
    var i :| 0 <= i < |path| && path[i] == c && (i > 0 ==> Earlier(k, c, s, path[i - 1]));
    var j := i + 1;
    assert longer[j] == c && longer[j - 1] == if i > 0 then path[i - 1] else x;
  }

  // Leaving `x` again.
  lemma PopOvertaken(k: Config, path: seq<Id>, s: Id, c: Id, x: Id)
    requires Overtaken(k, [x] + path, s, c) && x != c
    ensures Overtaken(k, path, s, c)
  {
    var longer := [x] + path;
    var j :| 0 <= j < |longer| && longer[j] == c && (j > 0 ==> Earlier(k, c, s, longer[j - 1]));
    var i := j - 1;
    assert path[i] == c && (i > 0 ==> path[i - 1] == longer[j - 1]);
  }

  lemma PopPath(k: Config, visited: seq<Mark>, path: seq<Id>, x: Id)
    requires OnPath(k, visited, [x] + path)
    ensures x < |visited| && OnPath(k, visited[x := 2], path)
  {
    var longer := [x] + path;
    assert longer[0] == x;
    assert forall i :: 0 <= i < |path| ==> longer[i + 1] == path[i];
    forall i | 0 <= i < |path| - 1 ensures Follows(k, path[i + 1], path[i]) {
      var j := i + 1;
      assert Follows(k, longer[j + 1], longer[j]);
    }
  }

  lemma DoneGrows(k: Config, visited: seq<Mark>, x: Id, done: seq<Id>)
    requires DoneComplete(k, visited, done) && x < |visited|
    ensures DoneComplete(k, visited[x := 2], done)
  {
    forall i | 0 <= i < |done| ensures Complete(k, visited[x := 2], done[i]) {
      assert Complete(k, visited, done[i]);
    }
  }

  lemma DependentsStay(k: Config, deps: seq<seq<Id>>, done: seq<Id>, more: seq<Id>, x: Id)
    requires x < |deps| && DependentsDone(k, deps, done, x)
    ensures DependentsDone(k, deps, done + more, x)
  {
    forall i | 0 <= i < |deps[x]| ensures Before(done + more, Cluster(k, deps[x][i]), Cluster(k, x)) {
      BeforeLater(done, more, Cluster(k, deps[x][i]), Cluster(k, x));
    }
  }

  // An item whose cluster is still open is not complete, as it is being visited itself or its choice is.
  lemma OpenNotDone(k: Config, visited: seq<Mark>, path: seq<Id>, done: seq<Id>, q: Id)
    requires OnPath(k, visited, path) && DoneComplete(k, visited, done) && q in path
    ensures q !in done
  {
  }

  lemma ClustersDone(k: Config, deps: seq<seq<Id>>, done: seq<Id>, x: Id)
    requires x < |deps| && Cluster(k, x) !in done
    requires forall i :: 0 <= i < |deps[x]| ==> Cluster(k, deps[x][i]) in done
    ensures DependentsDone(k, deps, done, x)
  {
    forall i | 0 <= i < |deps[x]| ensures Before(done, Cluster(k, deps[x][i]), Cluster(k, x)) {
      InBefore(done, Cluster(k, deps[x][i]), Cluster(k, x));
    }
  }

  // Finishing a symbol of a choice that is being visited.
  lemma PopMember(k: Config, deps: seq<seq<Id>>, visited: seq<Mark>, path: seq<Id>, done: seq<Id>, x: Id)
    requires Setup(k, deps) && Inv(k, deps, visited, [x] + path, done)
    requires x < |k.items| && k.items[x].InChoice() && path != [] && path[0] == Cluster(k, x)
    requires forall i :: 0 <= i < |deps[x]| ==> Cluster(k, deps[x][i]) in done
    ensures Inv(k, deps, visited[x := 2], path, done)
  {
    var after := visited[x := 2];
    PopPath(k, visited, path, x);
    DoneGrows(k, visited, x, done);
    var longer := [x] + path;
    assert longer[1] == path[0];
    OpenNotDone(k, visited, longer, done, path[0]);
    ClustersDone(k, deps, done, x);
    forall s: Id | s < |after| && after[s] == 2 && Cluster(k, s) !in done
      ensures k.items[s].InChoice() && Overtaken(k, path, s, Cluster(k, s))
    {
      if s == x {
        assert path[0] == Cluster(k, s);
      } else {
        assert k.items[x].Symbol? && k.items[Cluster(k, s)].Choice?;
        PopOvertaken(k, path, s, Cluster(k, s), x);
      }
    }
  }

  // Completing a cluster: a symbol that is in no choice, or a choice all of whose symbols have been visited.
  lemma PopCluster(k: Config, deps: seq<seq<Id>>, visited: seq<Mark>, path: seq<Id>, done: seq<Id>, x: Id)
    requires Setup(k, deps) && Inv(k, deps, visited, [x] + path, done)
    requires x < |k.items| && Complete(k, visited[x := 2], x) && Cluster(k, x) == x
    requires k.items[x].Symbol? ==> forall i :: 0 <= i < |deps[x]| ==> Cluster(k, deps[x][i]) in done
    ensures Inv(k, deps, visited[x := 2], path, done + [x])
  {
    var after, more := visited[x := 2], done + [x];
    PopPath(k, visited, path, x);
    DoneGrows(k, visited, x, done);
    var longer := [x] + path;
    assert longer[0] == x;
    OpenNotDone(k, visited, longer, done, x);
    forall s: Id | s < |k.items| && k.items[s].Symbol? && after[s] == 2 ensures DependentsDone(k, deps, more, s) {
      if s == x {
        ClustersDone(k, deps, done, x);
      }
      DependentsStay(k, deps, done, [x], s);
    }
    forall s: Id | s < |after| && after[s] == 2 && Cluster(k, s) !in more
      ensures k.items[s].InChoice() && Overtaken(k, path, s, Cluster(k, s))
    {
      PopOvertaken(k, path, s, Cluster(k, s), x);
    }
  }

  // Completing the cluster of a choice that was entered through its symbol `x`.
  lemma PopBoth(k: Config, deps: seq<seq<Id>>, visited: seq<Mark>, path: seq<Id>, done: seq<Id>, x: Id, c: Id)
    requires Setup(k, deps) && Inv(k, deps, visited, [c] + ([x] + path), done)
    requires x < |k.items| && c < |k.items| && k.items[x].InChoice() && Cluster(k, x) == c
    requires Complete(k, visited[c := 2][x := 2], c)
    requires forall i :: 0 <= i < |deps[x]| ==> Cluster(k, deps[x][i]) in done
    ensures Inv(k, deps, visited[c := 2][x := 2], path, done + [c])
  {
    var inner, after, more := visited[c := 2], visited[c := 2][x := 2], done + [c];
    PopPath(k, visited, [x] + path, c);
    PopPath(k, inner, path, x);
    DoneGrows(k, visited, c, done);
    DoneGrows(k, inner, x, done);
    var longer := [c] + ([x] + path);
    assert longer[0] == c;
    OpenNotDone(k, visited, longer, done, c);
    assert k.items[c].Choice?;
    ClustersDone(k, deps, done, x);
    DependentsOfBoth(k, deps, visited, done, x, c);
    BothVisitedDone(k, visited, path, done, x, c);
  }

  lemma BothVisitedDone(k: Config, visited: seq<Mark>, path: seq<Id>, done: seq<Id>, x: Id, c: Id)
    requires VisitedDone(k, visited, [c] + ([x] + path), done) && x < |k.items| && c < |k.items|
    requires k.items[x].InChoice() && Cluster(k, x) == c && k.items[c].Choice?
    requires forall s: Id :: s < |k.items| && k.items[s].InChoice() ==>
               Cluster(k, s) < |k.items| && k.items[Cluster(k, s)].Choice?
    ensures VisitedDone(k, visited[c := 2][x := 2], path, done + [c])
  {
    var after, more, inner := visited[c := 2][x := 2], done + [c], [x] + path;
    forall s: Id | s < |after| && after[s] == 2 && Cluster(k, s) !in more
      ensures k.items[s].InChoice() && Overtaken(k, path, s, Cluster(k, s))
    {
      PopOvertaken(k, inner, s, Cluster(k, s), c);
      PopOvertaken(k, path, s, Cluster(k, s), x);
    }
  }

  lemma DependentsOfBoth(k: Config, deps: seq<seq<Id>>, visited: seq<Mark>, done: seq<Id>, x: Id, c: Id)
    requires AllDependentsDone(k, deps, visited, done) && x < |k.items| && c < |k.items| && k.items[c].Choice?
    requires DependentsDone(k, deps, done, x)
    ensures AllDependentsDone(k, deps, visited[c := 2][x := 2], done + [c])
  {
    var after := visited[c := 2][x := 2];
    forall s: Id | s < |k.items| && k.items[s].Symbol? && after[s] == 2 ensures DependentsDone(k, deps, done + [c], s) {
      assert s == x || visited[s] == 2;
      DependentsStay(k, deps, done, [c], s);
    }
  }

  lemma WalksBackward(k: Config, path: seq<Id>, x: Id, c: Id, i: int)
    requires Distinct(path) && Walk(k, path) && 0 < i < |path| && path[i] == c && x != c
    requires Follows(k, path[0], x) && Earlier(k, c, x, path[i - 1])
    ensures Backward(k, c, [x] + path[..i])
  {
    var w := [x] + path[..i];
    forall j | 0 <= j < |w| - 1 ensures Follows(k, w[j + 1], w[j]) {
      if j > 0 {
        var prev := j - 1;
        assert Follows(k, path[prev + 1], path[prev]) && w[j] == path[prev] && w[j + 1] == path[prev + 1];
      }
    }
    assert w[|w| - 1] == path[i - 1];
    assert c !in path[..i];
  }

  // A symbol that is reached again from outside its choice: its choice has been completed, or the search is
  // on a walk that leads back to an earlier symbol.
  lemma ReachedAgain(k: Config, deps: seq<seq<Id>>, visited: seq<Mark>, path: seq<Id>, done: seq<Id>, x: Id)
    requires Setup(k, deps) && Inv(k, deps, visited, path, done) && x < |k.items| && visited[x] == 2
    requires path != [] ==> Follows(k, path[0], x) && k.items[path[0]].Symbol?
    ensures Cluster(k, x) in done
  {
    var c := Cluster(k, x);
    if c !in done {
      ListedInChoice(k, deps, x);
      var i :| 0 <= i < |path| && path[i] == c && (i > 0 ==> Earlier(k, c, x, path[i - 1]));
      WalksBackward(k, path, x, c, i);
    }
  }

  lemma SymbolsOfChoice(k: Config, deps: seq<seq<Id>>, c: Id, i: int)
    requires Setup(k, deps) && c < |k.items| && k.items[c].Choice? && 0 <= i < |k.items[c].syms|
    ensures k.items[c].syms[i] < |k.items| && k.items[k.items[c].syms[i]].InChoice()
    ensures Cluster(k, k.items[c].syms[i]) == c && Follows(k, c, k.items[c].syms[i])
  {
    assert k.items[c] == k.Item(c) && ItemOk(k, c);
    assert k.items[c].syms[i] in k.items[c].syms;
  }

  lemma ListedInChoice(k: Config, deps: seq<seq<Id>>, s: Id)
    requires Setup(k, deps) && s < |k.items| && k.items[s].InChoice()
    ensures Cluster(k, s) < |k.items| && k.items[Cluster(k, s)].Choice? && s in k.items[Cluster(k, s)].syms
  {
    assert k.items[s] == k.Item(s) && ItemOk(k, s);
    assert k.items[Cluster(k, s)] == k.Item(Cluster(k, s));
  }

  // What a search that finds no loop does to the state.
  ghost predicate Kept(k: Config, deps: seq<seq<Id>>, visited: seq<Mark>, after: seq<Mark>, path: seq<Id>,
                       done: seq<Id>, more: seq<Id>, except: set<Id>) {
    && Inv(k, deps, after, path, more) && done <= more && Passed(visited, after)
    && OnlyAdds(k, visited, after, more, except)
  }

  lemma KeptTwice(k: Config, deps: seq<seq<Id>>, v0: seq<Mark>, v1: seq<Mark>, v2: seq<Mark>, path: seq<Id>,
                  d0: seq<Id>, d1: seq<Id>, d2: seq<Id>, except: set<Id>)
    requires Kept(k, deps, v0, v1, path, d0, d1, except) && Kept(k, deps, v1, v2, path, d1, d2, except)
    ensures Kept(k, deps, v0, v2, path, d0, d2, except)
  {
  }

  // The first `n` symbols of a choice have been visited, and none of the others.
  ghost predicate MembersVisited(k: Config, visited: seq<Mark>, c: Id, n: nat, skip: Option<Id>)
    requires c < |k.items| && k.items[c].Choice?
  {
    forall j :: 0 <= j < n && j < |k.items[c].syms| ==>
      skip == Some(k.items[c].syms[j]) || (k.items[c].syms[j] < |visited| && visited[k.items[c].syms[j]] == 2)
  }

  ghost predicate VisitedUpTo(k: Config, visited: seq<Mark>, c: Id, n: nat)
    requires c < |k.items| && k.items[c].Choice? && n <= |k.items[c].syms|
  {
    && |visited| == |k.items|
    && forall s: Id :: s < |k.items| && k.items[s].InChoice() && Cluster(k, s) == c && visited[s] == 2 ==>
         s in k.items[c].syms[..n]
  }

  // No symbol of a choice that has not been visited has been visited to the end.
  lemma NoneVisited(k: Config, deps: seq<seq<Id>>, visited: seq<Mark>, path: seq<Id>, done: seq<Id>, c: Id)
    requires Inv(k, deps, visited, path, done) && c < |k.items| && visited[c] == 0 && k.items[c].Choice?
    ensures VisitedUpTo(k, visited[c := 1], c, 0)
  {
    assert c !in done && c !in path;
  }

  lemma MemberNext(k: Config, visited: seq<Mark>, c: Id, i: nat)
    requires c < |k.items| && k.items[c].Choice? && i < |k.items[c].syms| && VisitedUpTo(k, visited, c, i)
    requires k.items[c].syms[i] < |k.items| && visited[k.items[c].syms[i]] == 0
    ensures EarlierOnly(k, visited, c, k.items[c].syms[i])
  {
    forall s: Id | s < |visited| && k.items[s].InChoice() && Cluster(k, s) == c && visited[s] == 2
      ensures Earlier(k, c, s, k.items[c].syms[i])
    {
      var j :| 0 <= j < i && k.items[c].syms[j] == s;
    }
  }

  lemma MemberVisited(k: Config, before: seq<Mark>, after: seq<Mark>, c: Id, i: nat, next: nat, skip: Option<Id>,
                      done: seq<Id>)
    requires c < |k.items| && k.items[c].Choice? && next == i + 1 <= |k.items[c].syms|
    requires VisitedUpTo(k, before, c, i) && MembersVisited(k, before, c, i, skip) && Passed(before, after)
    requires OnlyAdds(k, before, after, done, {k.items[c].syms[i]}) && c !in done
    requires k.items[c].syms[i] < |after| && after[k.items[c].syms[i]] == 2
    ensures VisitedUpTo(k, after, c, next) && MembersVisited(k, after, c, next, skip)
  {
    assert k.items[c].syms[..next] == k.items[c].syms[..i] + [k.items[c].syms[i]];
  }

  lemma MemberSkipped(k: Config, visited: seq<Mark>, c: Id, i: nat, next: nat, skip: Option<Id>)
    requires c < |k.items| && k.items[c].Choice? && next == i + 1 <= |k.items[c].syms|
    requires VisitedUpTo(k, visited, c, i) && MembersVisited(k, visited, c, i, skip) && skip == Some(k.items[c].syms[i])
    ensures VisitedUpTo(k, visited, c, next) && MembersVisited(k, visited, c, next, skip)
  {
    assert k.items[c].syms[..next] == k.items[c].syms[..i] + [k.items[c].syms[i]];
  }

  lemma LeaveAlone(k: Config, deps: seq<seq<Id>>, visited: seq<Mark>, after: seq<Mark>, path: seq<Id>, done: seq<Id>,
                   mid: seq<Id>, x: Id, except: set<Id>)
    requires Setup(k, deps) && x < |visited| == |k.items| && visited[x] == 0 && Cluster(k, x) == x
    requires Kept(k, deps, visited[x := 1], after, [x] + path, done, mid, except) && except <= Members(k, x)
    requires Complete(k, after[x := 2], x)
    requires k.items[x].Symbol? ==> forall i :: 0 <= i < |deps[x]| ==> Cluster(k, deps[x][i]) in mid
    ensures Kept(k, deps, visited, after[x := 2], path, done, mid + [x], {})
  {
    PopCluster(k, deps, after, path, mid, x);
    Closes(visited, after, x);
    forall s | s in except ensures Cluster(k, s) == x {
      var i :| 0 <= i < |k.items[x].syms| && k.items[x].syms[i] == s;
      SymbolsOfChoice(k, deps, x, i);
    }
  }

  lemma LeaveMember(k: Config, deps: seq<seq<Id>>, visited: seq<Mark>, after: seq<Mark>, path: seq<Id>, done: seq<Id>,
                    mid: seq<Id>, x: Id)
    requires Setup(k, deps) && x < |visited| == |k.items| && visited[x] == 0
    requires k.items[x].InChoice() && path != [] && path[0] == Cluster(k, x)
    requires Kept(k, deps, visited[x := 1], after, [x] + path, done, mid, {})
    requires forall i :: 0 <= i < |deps[x]| ==> Cluster(k, deps[x][i]) in mid
    ensures Kept(k, deps, visited, after[x := 2], path, done, mid, {x})
  {
    PopMember(k, deps, after, path, mid, x);
    Closes(visited, after, x);
  }

  lemma LeaveBoth(k: Config, deps: seq<seq<Id>>, visited: seq<Mark>, between: seq<Mark>, after: seq<Mark>,
                  path: seq<Id>, done: seq<Id>, mid: seq<Id>, more: seq<Id>, x: Id, c: Id)
    requires Setup(k, deps) && x < |visited| == |k.items| && visited[x] == 0 && k.items[x].InChoice()
    requires Cluster(k, x) == c < |k.items|
    requires Kept(k, deps, visited[x := 1], between, [x] + path, done, mid, {}) && between[c] == 0
    requires forall i :: 0 <= i < |deps[x]| ==> Cluster(k, deps[x][i]) in mid
    requires Kept(k, deps, between[c := 1], after, [c] + ([x] + path), mid, more, Members(k, c))
    requires k.items[c].Choice? && MembersVisited(k, after, c, |k.items[c].syms|, Some(x))
    ensures Kept(k, deps, visited, after[c := 2][x := 2], path, done, more + [c], {})
  {
    BothLeft(k, deps, after, path, mid, more, x, c);
    BothClose(visited, between, after, x, c);
    BothAdd(k, deps, visited, between, after, mid, more, x, c);
  }

  lemma BothLeft(k: Config, deps: seq<seq<Id>>, after: seq<Mark>, path: seq<Id>, mid: seq<Id>, more: seq<Id>, x: Id,
                 c: Id)
    requires Setup(k, deps) && x < |after| == |k.items| && k.items[x].InChoice() && Cluster(k, x) == c < |k.items|
    requires k.items[c].Choice? && Inv(k, deps, after, [c] + ([x] + path), more) && mid <= more
    requires forall i :: 0 <= i < |deps[x]| ==> Cluster(k, deps[x][i]) in mid
    requires MembersVisited(k, after, c, |k.items[c].syms|, Some(x))
    ensures Inv(k, deps, after[c := 2][x := 2], path, more + [c])
  {
    BothComplete(k, deps, after, x, c);
    PopBoth(k, deps, after, path, more, x, c);
  }

  lemma BothClose(visited: seq<Mark>, between: seq<Mark>, after: seq<Mark>, x: Id, c: Id)
    requires x < |visited| && visited[x] == 0 && Passed(visited[x := 1], between)
    requires c < |between| && between[c] == 0 && Passed(between[c := 1], after)
    ensures Passed(visited, after[c := 2][x := 2])
  {
    Closes(between, after, c);
    Closes(visited, after[c := 2], x);
  }

  lemma BothComplete(k: Config, deps: seq<seq<Id>>, after: seq<Mark>, x: Id, c: Id)
    requires Setup(k, deps) && x < |k.items| == |after| && c < |k.items| && k.items[c].Choice? && x != c
    requires MembersVisited(k, after, c, |k.items[c].syms|, Some(x))
    ensures Complete(k, after[c := 2][x := 2], c)
  {
    forall i | 0 <= i < |k.items[c].syms|
      ensures k.items[c].syms[i] < |k.items| && after[c := 2][x := 2][k.items[c].syms[i]] == 2
    {
      SymbolsOfChoice(k, deps, c, i);
    }
  }

  lemma BothAdd(k: Config, deps: seq<seq<Id>>, visited: seq<Mark>, between: seq<Mark>, after: seq<Mark>,
                mid: seq<Id>, more: seq<Id>, x: Id, c: Id)
    requires Setup(k, deps) && x < |visited| == |k.items| && Cluster(k, x) == c < |k.items| && k.items[c].Choice?
    requires |between| == |k.items| && mid <= more
    requires OnlyAdds(k, visited[x := 1], between, mid, {}) && OnlyAdds(k, between[c := 1], after, more, Members(k, c))
    ensures OnlyAdds(k, visited, after[c := 2][x := 2], more + [c], {})
  {
    forall s | s in Members(k, c) ensures Cluster(k, s) == c {
      var i :| 0 <= i < |k.items[c].syms| && k.items[c].syms[i] == s;
      SymbolsOfChoice(k, deps, c, i);
    }
  }

  lemma {:induction false} SymOrders(k: Config, deps: seq<seq<Id>>, visited: seq<Mark>, x: Id, ignoreChoice: bool,
                                     path: seq<Id>, done: seq<Id>) returns (more: seq<Id>)
    requires Setup(k, deps) && Inv(k, deps, visited, path, done) && x < |k.items| && k.items[x].Symbol?
    requires path != [] ==> Follows(k, path[0], x) && (visited[x] == 0 ==> EarlierOnly(k, visited, path[0], x))
    requires if ignoreChoice then k.items[x].InChoice() && path != [] && path[0] == Cluster(k, x)
             else path != [] ==> k.items[path[0]].Symbol?
    requires CheckSym(k, deps, visited, x, ignoreChoice).loop == NoLoop
    ensures Kept(k, deps, visited, CheckSym(k, deps, visited, x, ignoreChoice).visited, path, done, more,
                 if ignoreChoice then {x} else {})
    ensures CheckSym(k, deps, visited, x, ignoreChoice).visited[x] == 2
    ensures !ignoreChoice ==> Cluster(k, x) in more
    decreases Unvisited(visited), 0, 0
  {
    if visited[x] == 2 {
      more := done;
      if !ignoreChoice {
        ReachedAgain(k, deps, visited, path, done, x);
      }
    } else {
      var start, longer := visited[x := 1], [x] + path;
      OneMoreVisited(visited, x);
      Push(k, deps, visited, path, done, x);
      SymPassed(k, deps, visited, x, ignoreChoice);
      var mid := DependentsOrders(k, deps, start, x, 0, longer, done);
      var between := CheckDependents(k, deps, start, deps[x]).visited;
      if !k.items[x].InChoice() {
        LeaveAlone(k, deps, visited, between, path, done, mid, x, {});
        more := mid + [x];
      } else if ignoreChoice {
        LeaveMember(k, deps, visited, between, path, done, mid, x);
        more := mid;
      } else {
        more := ThroughChoice(k, deps, visited, between, x, path, done, mid);
      }
    }
  }

  // From a symbol whose dependents have been searched on to its choice.
  lemma {:induction false} ThroughChoice(k: Config, deps: seq<seq<Id>>, visited: seq<Mark>, between: seq<Mark>, x: Id,
                                         path: seq<Id>, done: seq<Id>, mid: seq<Id>) returns (more: seq<Id>)
    requires Setup(k, deps) && x < |visited| == |k.items| && visited[x] == 0 && k.items[x].InChoice()
    requires Kept(k, deps, visited[x := 1], between, [x] + path, done, mid, {})
    requires forall i :: 0 <= i < |deps[x]| ==> Cluster(k, deps[x][i]) in mid
    requires CheckChoice(k, deps, between, Cluster(k, x), Some(x)).loop == NoLoop
    ensures var after := CheckChoice(k, deps, between, Cluster(k, x), Some(x)).visited[x := 2];
            Kept(k, deps, visited, after, path, done, more, {})
    ensures Cluster(k, x) in more
    decreases Unvisited(between), 0, 1
  {
    var c := Cluster(k, x);
    ListedInChoice(k, deps, x);
    ChoiceFresh(k, deps, between, x, path, mid);
    var start, longer := between[c := 1], [c] + ([x] + path);
    OneMoreVisited(between, c);
    NoneVisited(k, deps, between, [x] + path, mid, c);
    Push(k, deps, between, [x] + path, mid, c);
    assert k.items[c].syms[0..] == k.items[c].syms;
    var last := MembersOrders(k, deps, start, c, 0, Some(x), longer, mid);
    LeaveBoth(k, deps, visited, between, CheckMembers(k, deps, start, k.items[c].syms, Some(x)).visited, path, done,
              mid, last, x, c);
    more := last + [c];
  }

  lemma ChoiceFresh(k: Config, deps: seq<seq<Id>>, visited: seq<Mark>, x: Id, path: seq<Id>, done: seq<Id>)
    requires Setup(k, deps) && Inv(k, deps, visited, [x] + path, done) && x < |k.items| && k.items[x].InChoice()
    requires CheckChoice(k, deps, visited, Cluster(k, x), Some(x)).loop == NoLoop
    ensures visited[Cluster(k, x)] == 0
  {
    var c := Cluster(k, x);
    ListedInChoice(k, deps, x);
    var longer := [x] + path;
    assert longer[0] == x;
  }

  // One step of each of the searches that find nothing.

  lemma DependentPassed(k: Config, deps: seq<seq<Id>>, visited: seq<Mark>, y: Id, i: nat, next: nat)
    requires Searchable(k, deps) && |visited| == |k.items| && y < |k.items| && k.items[y].Symbol?
    requires i < |deps[y]| && next == i + 1 && CheckDependents(k, deps, visited, deps[y][i..]).loop == NoLoop
    ensures var x := deps[y][i];
            var s := if k.items[x].Choice? then CheckChoice(k, deps, visited, x, None)
                     else CheckSym(k, deps, visited, x, false);
            s.loop == NoLoop
            && CheckDependents(k, deps, visited, deps[y][i..]) == CheckDependents(k, deps, s.visited, deps[y][next..])
  {
    assert deps[y][i..][1..] == deps[y][next..];
  }

  lemma MemberPassed(k: Config, deps: seq<seq<Id>>, visited: seq<Mark>, c: Id, i: nat, next: nat, skip: Option<Id>)
    requires Searchable(k, deps) && |visited| == |k.items| && c < |k.items| && k.items[c].Choice?
    requires i < |k.items[c].syms| && next == i + 1
    requires CheckMembers(k, deps, visited, k.items[c].syms[i..], skip).loop == NoLoop
    ensures var x, todo, rest := k.items[c].syms[i], k.items[c].syms[i..], k.items[c].syms[next..];
            if skip == Some(x) then
              CheckMembers(k, deps, visited, todo, skip) == CheckMembers(k, deps, visited, rest, skip)
            else
              var s := CheckSym(k, deps, visited, x, true);
              s.loop == NoLoop
              && CheckMembers(k, deps, visited, todo, skip) == CheckMembers(k, deps, s.visited, rest, skip)
  {
    assert k.items[c].syms[i..][1..] == k.items[c].syms[next..];
  }

  lemma SymPassed(k: Config, deps: seq<seq<Id>>, visited: seq<Mark>, x: Id, ignoreChoice: bool)
    requires Searchable(k, deps) && |visited| == |k.items| && x < |k.items| && k.items[x].Symbol?
    requires visited[x] == 0 && CheckSym(k, deps, visited, x, ignoreChoice).loop == NoLoop
    ensures var s := CheckDependents(k, deps, visited[x := 1], deps[x]);
            && CheckDependents(k, deps, visited[x := 1], deps[x][0..]) == s && s.loop == NoLoop
            && if k.items[x].InChoice() && !ignoreChoice then
                 var t := CheckChoice(k, deps, s.visited, Cluster(k, x), Some(x));
                 t.loop == NoLoop && CheckSym(k, deps, visited, x, ignoreChoice).visited == t.visited[x := 2]
               else
                 CheckSym(k, deps, visited, x, ignoreChoice).visited == s.visited[x := 2]
  {
    assert deps[x][0..] == deps[x];
  }

  lemma {:induction false} DependentsOrders(k: Config, deps: seq<seq<Id>>, visited: seq<Mark>, y: Id, i: nat,
                                            path: seq<Id>, done: seq<Id>) returns (more: seq<Id>)
    requires Setup(k, deps) && Inv(k, deps, visited, path, done) && y < |k.items| && k.items[y].Symbol?
    requires path != [] && path[0] == y && i <= |deps[y]|
    requires CheckDependents(k, deps, visited, deps[y][i..]).loop == NoLoop
    ensures Kept(k, deps, visited, CheckDependents(k, deps, visited, deps[y][i..]).visited, path, done, more, {})
    ensures forall j :: i <= j < |deps[y]| ==> Cluster(k, deps[y][j]) in more
    decreases Unvisited(visited), 1, |deps[y]| - i
  {
    if i == |deps[y]| {
      more := done;
    } else {
      var x, next: nat := deps[y][i], i + 1;
      DependentPassed(k, deps, visited, y, i, next);
      DependentFollows(k, deps, y, x);
      var s: Search;
      if k.items[x].Choice? {
        s := CheckChoice(k, deps, visited, x, None);
        more := ChoiceOrders(k, deps, visited, x, path, done);
      } else {
        s := CheckSym(k, deps, visited, x, false);
        more := SymOrders(k, deps, visited, x, false, path, done);
      }
      var d1 := more;
      more := DependentsOrders(k, deps, s.visited, y, next, path, d1);
      KeptTwice(k, deps, visited, s.visited, CheckDependents(k, deps, s.visited, deps[y][next..]).visited, path,
                done, d1, more, {});
    }
  }

  lemma {:induction false} ChoiceOrders(k: Config, deps: seq<seq<Id>>, visited: seq<Mark>, c: Id,
                                        path: seq<Id>, done: seq<Id>) returns (more: seq<Id>)
    requires Setup(k, deps) && Inv(k, deps, visited, path, done) && c < |k.items| && k.items[c].Choice?
    requires path != [] && k.items[path[0]].Symbol? && Follows(k, path[0], c)
    requires CheckChoice(k, deps, visited, c, None).loop == NoLoop
    ensures Kept(k, deps, visited, CheckChoice(k, deps, visited, c, None).visited, path, done, more, {})
    ensures c in more
    decreases Unvisited(visited), 0, 0
  {
    if visited[c] == 2 {
      more := done;
    } else {
      var start, longer := visited[c := 1], [c] + path;
      OneMoreVisited(visited, c);
      Push(k, deps, visited, path, done, c);
      assert k.items[c].syms[0..] == k.items[c].syms;
      NoneVisited(k, deps, visited, path, done, c);
      var mid := MembersOrders(k, deps, start, c, 0, None, longer, done);
      LeaveAlone(k, deps, visited, CheckMembers(k, deps, start, k.items[c].syms, None).visited, path, done, mid, c,
                 Members(k, c));
      more := mid + [c];
    }
  }

  lemma {:induction false} MembersOrders(k: Config, deps: seq<seq<Id>>, visited: seq<Mark>, c: Id, i: nat,
                                         skip: Option<Id>, path: seq<Id>, done: seq<Id>) returns (more: seq<Id>)
    requires Setup(k, deps) && Inv(k, deps, visited, path, done) && c < |k.items| && k.items[c].Choice?
    requires path != [] && path[0] == c && i <= |k.items[c].syms|
    requires VisitedUpTo(k, visited, c, i)
    requires MembersVisited(k, visited, c, i, skip)
    requires CheckMembers(k, deps, visited, k.items[c].syms[i..], skip).loop == NoLoop
    ensures Kept(k, deps, visited, CheckMembers(k, deps, visited, k.items[c].syms[i..], skip).visited, path, done, more,
                 Members(k, c))
    ensures MembersVisited(k, CheckMembers(k, deps, visited, k.items[c].syms[i..], skip).visited, c,
                           |k.items[c].syms|, skip)
    decreases Unvisited(visited), 1, |k.items[c].syms| - i
  {
    var syms := k.items[c].syms;
    if i == |syms| {
      more := done;
    } else {
      var x, next: nat := syms[i], i + 1;
      MemberPassed(k, deps, visited, c, i, next, skip);
      SymbolsOfChoice(k, deps, c, i);
      if skip == Some(x) {
        MemberSkipped(k, visited, c, i, next, skip);
        more := MembersOrders(k, deps, visited, c, next, skip, path, done);
      } else {
        var s := CheckSym(k, deps, visited, x, true);
        var after := CheckMembers(k, deps, s.visited, syms[next..], skip).visited;
        var d1 := MemberOrders(k, deps, visited, c, i, next, skip, path, done);
        more := MembersOrders(k, deps, s.visited, c, next, skip, path, d1);
        KeptTwice(k, deps, visited, s.visited, after, path, done, d1, more, Members(k, c));
      }
    }
  }

  // One symbol of a choice.
  lemma {:induction false} MemberOrders(k: Config, deps: seq<seq<Id>>, visited: seq<Mark>, c: Id, i: nat, next: nat,
                                        skip: Option<Id>, path: seq<Id>, done: seq<Id>) returns (more: seq<Id>)
    requires Setup(k, deps) && Inv(k, deps, visited, path, done) && c < |k.items| && k.items[c].Choice?
    requires path != [] && path[0] == c && next == i + 1 <= |k.items[c].syms|
    requires VisitedUpTo(k, visited, c, i) && MembersVisited(k, visited, c, i, skip)
    requires k.items[c].syms[i] < |k.items| && k.items[k.items[c].syms[i]].InChoice()
    requires Cluster(k, k.items[c].syms[i]) == c && Follows(k, c, k.items[c].syms[i])
    requires CheckSym(k, deps, visited, k.items[c].syms[i], true).loop == NoLoop
    ensures var after := CheckSym(k, deps, visited, k.items[c].syms[i], true).visited;
            && Kept(k, deps, visited, after, path, done, more, Members(k, c))
            && VisitedUpTo(k, after, c, next) && MembersVisited(k, after, c, next, skip)
    decreases Unvisited(visited), 1, 0
  {
    var x := k.items[c].syms[i];
    if visited[x] == 0 {
      MemberNext(k, visited, c, i);
    }
    more := SymOrders(k, deps, visited, x, true, path, done);
    var after := CheckSym(k, deps, visited, x, true).visited;
    OpenNotDone(k, after, path, more, c);
    MemberVisited(k, visited, after, c, i, next, skip, more);
  }

  lemma FirstSearched(k: Config, deps: seq<seq<Id>>, visited: seq<Mark>, todo: seq<Id>)
    requires Searchable(k, deps) && |visited| == |k.items| && todo != [] && AllSymbols(k, todo)
    requires CheckAll(k, deps, visited, todo).loop == NoLoop
    ensures var s := CheckSym(k, deps, visited, todo[0], false);
            !s.loop.Raised? && CheckAll(k, deps, s.visited, todo[1..]).loop == NoLoop
  {
  }

  // The first item and the later ones are all in the order.
  lemma AllInOrder(k: Config, todo: seq<Id>, mid: seq<Mark>, after: seq<Mark>, done: seq<Id>, more: seq<Id>)
    requires todo != [] && AllSymbols(k, todo) && |mid| == |k.items| && Passed(mid, after) && done <= more
    requires mid[todo[0]] == 2 && Cluster(k, todo[0]) in done
    requires forall i :: 0 <= i < |todo[1..]| ==> after[todo[1..][i]] == 2 && Cluster(k, todo[1..][i]) in more
    ensures forall i :: 0 <= i < |todo| ==> after[todo[i]] == 2 && Cluster(k, todo[i]) in more
  {
    forall i | 0 <= i < |todo| ensures after[todo[i]] == 2 && Cluster(k, todo[i]) in more {
      if i > 0 {
        assert todo[i] == todo[1..][i - 1];
      }
    }
  }

  lemma {:induction false} AllOrders(k: Config, deps: seq<seq<Id>>, visited: seq<Mark>, todo: seq<Id>, done: seq<Id>)
      returns (after: seq<Mark>, more: seq<Id>)
    requires Setup(k, deps) && Inv(k, deps, visited, [], done) && AllSymbols(k, todo)
    requires CheckAll(k, deps, visited, todo).loop == NoLoop
    ensures Inv(k, deps, after, [], more) && done <= more && Passed(visited, after)
    ensures forall i :: 0 <= i < |todo| ==> after[todo[i]] == 2 && Cluster(k, todo[i]) in more
    decreases |todo|
  {
    if todo == [] {
      after, more := visited, done;
    } else {
      var s := CheckSym(k, deps, visited, todo[0], false);
      FirstSearched(k, deps, visited, todo);
      SymSound(k, deps, visited, todo[0], false);
      var mid := SymOrders(k, deps, visited, todo[0], false, [], done);
      after, more := AllOrders(k, deps, s.visited, todo[1..], mid);
      AllInOrder(k, todo, s.visited, after, mid, more);
    }
  }

  // The ranking that the search finds.

  function Pos(done: seq<Id>, q: Id): (p: nat)
    ensures p <= |done| && (p < |done| <==> q in done)
  {
    if done == [] then 0 else if done[0] == q then 0 else 1 + Pos(done[1..], q)
  }

  lemma {:induction false} BeforePos(done: seq<Id>, a: Id, b: Id)
    requires Before(done, a, b)
    ensures Pos(done, a) < Pos(done, b)
    decreases |done|
  {
    var i :| 0 <= i < |done| && done[i] == a && b !in done[..i + 1];
    assert done[..i + 1][0] == done[0];
    if done[0] != a {
      var rest, j := done[1..], i - 1;
      assert rest[j] == a && rest[..j + 1] == done[..i + 1][1..];
      BeforePos(rest, a, b);
    }
  }

  function RankOf(k: Config, done: seq<Id>, x: Id): nat {
    if k.Item(x).Symbol? && !k.Item(x).defined then 0
    else if Cluster(k, x) in done then 2 * (|done| - Pos(done, Cluster(k, x))) + if k.Item(x).InChoice() then 1 else 0
    else if k.Item(x).Choice? then 1 else 0
  }

  function RankingFrom(k: Config, done: seq<Id>): seq<nat> {
    seq(|k.items|, x requires 0 <= x < |k.items| => RankOf(k, done, x))
  }

  // The symbols that the search starts from.
  ghost predicate DefinedSymbols(k: Config, todo: seq<Id>) {
    && AllSymbols(k, todo)
    && forall x: Id :: x < |k.items| && k.items[x].Symbol? && k.items[x].defined ==> x in todo
  }

  // The search does not follow the dependents of choices, so they must be the symbols of the choice.
  ghost predicate OwnMembersOnly(k: Config) {
    forall c: Id, y: Id :: c < |k.items| && k.items[c].Choice? && IsDependent(k, c, y) ==> y in k.items[c].syms
  }

  ghost predicate AllDone(k: Config, deps: seq<seq<Id>>, visited: seq<Mark>, done: seq<Id>) {
    && |visited| == |k.items| == |deps| && AllDependentsDone(k, deps, visited, done)
    && forall x: Id :: x < |k.items| && k.items[x].Symbol? && k.items[x].defined ==>
         visited[x] == 2 && Cluster(k, x) in done
  }

  lemma MemberRank(k: Config, deps: seq<seq<Id>>, visited: seq<Mark>, done: seq<Id>, c: Id, s: Id)
    requires Setup(k, deps) && AllDone(k, deps, visited, done) && c < |k.items| && k.items[c].Choice?
    requires s in k.items[c].syms
    ensures s < |k.items| && RankOf(k, done, s) == RankOf(k, done, c) + 1
  {
    var i :| 0 <= i < |k.items[c].syms| && k.items[c].syms[i] == s;
    SymbolsOfChoice(k, deps, c, i);
    assert ItemOk(k, s);
  }

  lemma ReferenceRank(k: Config, deps: seq<seq<Id>>, visited: seq<Mark>, done: seq<Id>, x: Id, y: Id)
    requires Setup(k, deps) && AllDone(k, deps, visited, done) && OwnMembersOnly(k)
    requires x < |k.items| && y in ItemRefs(k.Item(x))
    ensures y < |k.items| && RankOf(k, done, y) < RankOf(k, done, x)
  {
    assert ItemOk(k, x) && ItemOk(k, y) && k.items[x] == k.Item(x) && k.items[y] == k.Item(y);
    if k.items[y].Choice? {
      assert IsDependent(k, y, x);
      MemberRank(k, deps, visited, done, y, x);
    } else if k.items[y].defined {
      assert IsDependent(k, y, x);
      var i :| 0 <= i < |deps[y]| && deps[y][i] == x;
      assert Before(done, Cluster(k, deps[y][i]), Cluster(k, y));
      BeforePos(done, Cluster(k, x), Cluster(k, y));
    }
  }

  // Completeness: if no loop is found, the items can be ranked.
  lemma NoLoopMeansRanked(k: Config, deps: seq<seq<Id>>, todo: seq<Id>) returns (order: seq<nat>)
    requires Setup(k, deps) && DefinedSymbols(k, todo) && OwnMembersOnly(k)
    requires CheckAll(k, deps, seq(|k.items|, _ => 0), todo).loop == NoLoop
    ensures Ranks(k, order)
  {
    var none: seq<Mark> := seq(|k.items|, _ => 0);
    assert Inv(k, deps, none, [], []);
    var after, done := AllOrders(k, deps, none, todo, []);
    assert AllDone(k, deps, after, done);
    order := RankingFrom(k, done);
    DoneRanks(k, deps, after, done);
  }

  lemma DoneRanks(k: Config, deps: seq<seq<Id>>, after: seq<Mark>, done: seq<Id>)
    requires Setup(k, deps) && AllDone(k, deps, after, done) && OwnMembersOnly(k)
    ensures Ranks(k, RankingFrom(k, done))
  {
    var k' := k.(order := RankingFrom(k, done));
    forall x: Id, y | x < |k'.items| && y in ItemRefs(k'.Item(x)) ensures k'.Rank(y) < k'.Rank(x) {
      ReferenceRank(k, deps, after, done, x, y);
    }
    forall c: Id, s | c < |k'.items| && k'.Item(c).Choice? && s in k'.Item(c).syms
      ensures k'.Rank(s) == k'.Rank(c) + 1
    {
      MemberRank(k, deps, after, done, c, s);
    }
  }

  lemma RankedMeansNoBackward(k: Config, order: seq<nat>)
    requires WellFormed(k) && Ranks(k, order)
    ensures NoBackward(k)
  {
    forall c: Id, w: seq<Id> ensures !Backward(k, c, w) {
      if Backward(k, c, w) {
        NotBackward(k, order, c, w);
      }
    }
  }

  lemma NotBackward(k: Config, order: seq<nat>, c: Id, w: seq<Id>)
    requires WellFormed(k) && Ranks(k, order)
    ensures !Backward(k, c, w)
  {
    if Backward(k, c, w) {
      var k' := k.(order := order);
      forall i | 0 <= i < |w| ensures w[i] < |order| {
        WalkInRange(k, w, i);
      }
      var last: nat, prev: nat := |w| - 1, |w| - 2;
      WalkLevels(k, order, w, 0, prev);
      assert Follows(k, w[prev + 1], w[prev]);
      assert w[prev] != c;
      assert k'.Item(c) == k.items[c] == k.Item(c) && ItemOk(k, c);
      assert k'.Rank(w[0]) == k'.Rank(c) + 1 == k'.Rank(w[last]);
      StepLevels(k, order, w[last], w[prev]);
    }
  }

  // Dependency loop detection succeeds, and no choice has a walk backwards, if and only if the configuration
  // can be ranked.
  lemma LoopCheckExact(k: Config, deps: seq<seq<Id>>, todo: seq<Id>)
    requires WellFormed(k) && Dependents(k, deps) && Searchable(k, deps)
    requires DefinedSymbols(k, todo) && OwnMembersOnly(k)
    ensures CheckAll(k, deps, seq(|k.items|, _ => 0), todo).loop == NoLoop && NoBackward(k)
            <==> exists order :: Ranks(k, order)
  {
    var none: seq<Mark> := seq(|k.items|, _ => 0);
    AllSound(k, deps, none, todo);
    var s := CheckAll(k, deps, none, todo);
    if order :| Ranks(k, order) {
      RankedMeansNoBackward(k, order);
      if s.loop.Raised? {
        LoopHasNoRanking(k, order, s.loop.items);
      }
    }
    if s.loop == NoLoop && NoBackward(k) {
      var order := NoLoopMeansRanked(k, deps, todo);
    }
  }

  // The second condition is needed: a choice lists S1, S3 and S2, and S3 depends on S2.  The search enters
  // the choice through S1, so that S3 has already been visited when it is found to depend on S2.

  function Member(name: string, prompt: Expr): Item {
    Symbol(name, BOOL, false, None, true, Some(1), [prompt], [], [], NEVER, NEVER, prompt, false)
  }

  function MissedConfig(): Config {
    Config([Symbol("n", TRISTATE, true, Some(0), false, None, [], [], [], NEVER, NEVER, NEVER, false),
            Choice(BOOL, false, [Rel(EQUAL, 0, 0)], [], [2, 3, 4]),
            Member("S1", Ref(1)), Member("S3", And(Ref(1), Ref(4))), Member("S2", Ref(1))],
           0, [])
  }

  function MissedDependents(): seq<seq<Id>> {
    [[], [2, 3, 4], [], [], [3]]
  }

  lemma MissedRefs(x: Id)
    requires x < 5
    ensures ItemRefs(MissedConfig().Item(x))
         == if x == 0 then {} else if x == 1 then {0} else if x == 3 then {0, 1, 4} else {0, 1}
  {
    assert AllRefs([Rel(EQUAL, 0, 0)]) == {0} && AllRefs([Ref(1)]) == {1} && AllRefs([And(Ref(1), Ref(4))]) == {1, 4};
  }

  lemma MissedChoiceOk()
    ensures ItemOk(MissedConfig(), 1)
  {
    MissedRefs(1);
    assert MissedConfig().Item(1).syms == [2, 3, 4];
  }

  lemma MissedSymbolOk(x: Id)
    requires x < 5 && x != 1
    ensures ItemOk(MissedConfig(), x)
  {
    MissedRefs(x);
    assert x > 1 ==> ChoiceMember(MissedConfig(), 1, x) by {
      assert MissedConfig().Item(1).syms == [2, 3, 4];
    }
  }

  lemma MissedItem(x: Id)
    requires x < 5
    ensures ItemOk(MissedConfig(), x)
  {
    if x == 1 {
      MissedChoiceOk();
    } else {
      MissedSymbolOk(x);
    }
  }

  lemma MissedDependent(x: Id, y: Id)
    requires x < 5
    ensures IsDependent(MissedConfig(), x, y) <==> y in MissedDependents()[x]
  {
    if y < 5 {
      MissedRefs(y);
      assert MissedConfig().items[y] == MissedConfig().Item(y);
    }
  }

  lemma MissedWellFormed()
    ensures WellFormed(MissedConfig()) && Dependents(MissedConfig(), MissedDependents())
  {
    forall x: Id | x < 5 ensures ItemOk(MissedConfig(), x) {
      MissedItem(x);
    }
    forall x: Id, y: Id | x < 5
      ensures IsDependent(MissedConfig(), x, y) <==> y in MissedDependents()[x]
    {
      MissedDependent(x, y);
    }
  }

  lemma MissedMembersOnly()
    ensures OwnMembersOnly(MissedConfig()) && DefinedSymbols(MissedConfig(), [2, 3, 4])
  {
    var k := MissedConfig();
    forall c: Id, y: Id | c < |k.items| && k.items[c].Choice? && IsDependent(k, c, y) ensures y in k.items[c].syms {
      OnlyChoice(c);
      MissedDependent(c, y);
    }
    forall x: Id | x < |k.items| && k.items[x].Symbol? && k.items[x].defined ensures x in [2, 3, 4] {
      assert k.items[0] == k.Item(0);
    }
  }

  lemma OnlyChoice(c: Id)
    requires c < 5 && MissedConfig().items[c].Choice?
    ensures c == 1 && MissedConfig().items[c].syms == MissedDependents()[c]
  {
  }

  lemma MissedLoop()
    ensures GenuineLoop(MissedConfig(), [4, 1, 3]) && Backward(MissedConfig(), 1, [3, 4])
  {
    var k, loop, w := MissedConfig(), [4, 1, 3], [3, 4];
    MissedDependent(4, 3);
    assert k.items[1].syms == [2, 3, 4];
    assert Dependency(k, 4, 3);
    assert Follows(k, 1, 4) && Follows(k, 3, 1) && Follows(k, 4, 3);
    assert k.items[1].syms[1] == 3 && k.items[1].syms[2] == 4;
  }

  // The marks as the search from S1 goes through the choice to S3 and then S2.

  function MissedMarks(i: nat): seq<Mark> {
    if i == 0 then [0, 0, 0, 0, 0] else if i == 1 then [0, 0, 1, 0, 0] else if i == 2 then [0, 1, 1, 0, 0]
    else if i == 3 then [0, 1, 1, 2, 0] else if i == 4 then [0, 1, 1, 2, 2] else [0, 2, 2, 2, 2]
  }

  lemma MissedThird()
    requires Searchable(MissedConfig(), MissedDependents())
    ensures CheckSym(MissedConfig(), MissedDependents(), MissedMarks(2), 3, true) == Search(NoLoop, MissedMarks(3))
  {
    var k, deps, inner := MissedConfig(), MissedDependents(), MissedMarks(2)[3 := 1];
    assert CheckDependents(k, deps, inner, deps[3]) == Search(NoLoop, inner);
    assert inner[3 := 2] == MissedMarks(3);
  }

  lemma MissedFourth()
    requires Searchable(MissedConfig(), MissedDependents())
    ensures CheckSym(MissedConfig(), MissedDependents(), MissedMarks(3), 4, true) == Search(NoLoop, MissedMarks(4))
  {
    var k, deps, inner := MissedConfig(), MissedDependents(), MissedMarks(3)[4 := 1];
    assert deps[4][1..] == [];
    assert CheckSym(k, deps, inner, 3, false) == Search(NoLoop, inner);
    assert CheckDependents(k, deps, inner, deps[4]) == Search(NoLoop, inner);
    assert inner[4 := 2] == MissedMarks(4);
  }

  lemma MissedChoice()
    requires Searchable(MissedConfig(), MissedDependents())
    ensures CheckChoice(MissedConfig(), MissedDependents(), MissedMarks(1), 1, Some(2))
         == Search(NoLoop, MissedMarks(4)[1 := 2])
  {
    var k, deps, v2, v3, v4 := MissedConfig(), MissedDependents(), MissedMarks(2), MissedMarks(3), MissedMarks(4);
    MissedThird();
    MissedFourth();
    assert [2, 3, 4][1..] == [3, 4] && [3, 4][1..] == [4] && [4][1..] == [];
    assert CheckMembers(k, deps, v3, [4], Some(2)) == Search(NoLoop, v4);
    assert CheckMembers(k, deps, v2, [3, 4], Some(2)) == Search(NoLoop, v4);
    assert CheckMembers(k, deps, v2, [2, 3, 4], Some(2)) == Search(NoLoop, v4);
    assert MissedMarks(1)[1 := 1] == v2 && k.items[1].syms == [2, 3, 4];
  }

  lemma MissedFirst()
    requires Searchable(MissedConfig(), MissedDependents())
    ensures CheckSym(MissedConfig(), MissedDependents(), MissedMarks(0), 2, false) == Search(NoLoop, MissedMarks(5))
  {
    var k, deps, v1 := MissedConfig(), MissedDependents(), MissedMarks(1);
    MissedChoice();
    assert MissedMarks(0)[2 := 1] == v1 && MissedMarks(4)[1 := 2][2 := 2] == MissedMarks(5);
    assert CheckDependents(k, deps, v1, deps[2]) == Search(NoLoop, v1);
  }

  lemma MissedSearch()
    requires Searchable(MissedConfig(), MissedDependents())
    ensures CheckAll(MissedConfig(), MissedDependents(), [0, 0, 0, 0, 0], [2, 3, 4]) == Search(NoLoop, [0, 2, 2, 2, 2])
  {
    var k, deps, v5 := MissedConfig(), MissedDependents(), MissedMarks(5);
    MissedFirst();
    assert [2, 3, 4][1..] == [3, 4] && [3, 4][1..] == [4] && [4][1..] == [];
    assert CheckAll(k, deps, v5, [4]) == Search(NoLoop, v5);
    assert CheckAll(k, deps, v5, [3, 4]) == Search(NoLoop, v5);
    assert CheckSym(k, deps, MissedMarks(0), 2, false) == Search(NoLoop, v5);
  }

  lemma LoopCheckIncomplete()
    ensures var k, deps := MissedConfig(), MissedDependents();
            && WellFormed(k) && Dependents(k, deps) && OwnMembersOnly(k) && Searchable(k, deps)
            && DefinedSymbols(k, [2, 3, 4])
            && CheckAll(k, deps, [0, 0, 0, 0, 0], [2, 3, 4]).loop == NoLoop
            && GenuineLoop(k, [4, 1, 3]) && Backward(k, 1, [3, 4])
            && forall order :: !Ranks(k, order)
  {
    MissedWellFormed();
    DependentsSearchable(MissedConfig(), MissedDependents());
    MissedSearch();
    MissedLoop();
    MissedMembersOnly();
    forall order ensures !Ranks(MissedConfig(), order) {
      LoopHasNoRanking(MissedConfig(), order, [4, 1, 3]);
    }
  }
}
