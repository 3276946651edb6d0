/** The three-state depth-first search of `src/parsers/dependency_resolver.py`.

    A dependency graph is a dictionary from package names to lists of package
    names.  A dictionary remembers its insertion order, which is `keys` here. */
module TopologicalSort {

  datatype Graph = Graph(keys: seq<string>, deps: map<string, seq<string>>) {
    // What makes the pair a dictionary.
    ghost predicate Valid() {
      && Distinct(keys)
      && (forall k :: k in keys <==> k in deps)
    }

    // `n` lists `d` as a dependency and `d` is itself a key of the graph.
    ghost predicate Edge(n: string, d: string) {
      n in deps && d in deps[n] && d in deps
    }

    // A walk along edges, from dependent to dependency.
    ghost predicate IsPath(p: seq<string>) {
      forall i :: 0 <= i < |p| - 1 ==> Edge(p[i], p[i + 1])
    }

    // A walk of at least one step that ends where it began.
    ghost predicate IsCycle(p: seq<string>) {
      |p| >= 2 && IsPath(p) && p[0] == p[|p| - 1]
    }
  }

  // Every dependency of an element of `order` comes strictly before it.
  ghost predicate DepsFirst(g: Graph, order: seq<string>) {
    forall i, d :: 0 <= i < |order| && g.Edge(order[i], d) ==> d in order[..i]
  }

  ghost predicate Distinct(s: seq<string>) {
    forall i, j :: 0 <= i < j < |s| ==> s[i] != s[j]
  }

  datatype Mark = Visiting | Visited

  datatype Outcome = Order(order: seq<string>) | CircularAt(node: string)

  // The marks describe the chain of calls in progress, outermost first, and the order built so far.
  ghost predicate Marks(g: Graph, path: seq<string>, order: seq<string>, visited: map<string, Mark>) {
    && (forall n :: n in visited ==> n in g.deps)
    && (forall n :: n in path <==> n in visited && visited[n] == Visiting)
    && (forall n :: n in order <==> n in visited && visited[n] == Visited)
  }

  // The local state that the inner function `visit` closes over.
  class Sorter {
    const graph: Graph
    var order: seq<string>
    var visited: map<string, Mark>

    ghost predicate Valid(path: seq<string>)
      reads this
    {
      Marks(graph, path, order, visited) && Distinct(order) && DepsFirst(graph, order)
    }

    constructor (g: Graph)
      ensures Valid([]) && graph == g && order == []
    {
      graph := g;
      order := [];
      visited := map[];
    }

    // Returns true when a circular dependency was detected at `culprit`.
    method Visit(node: string, ghost path: seq<string>) returns (circular: bool, culprit: string)
      requires Valid(path) && node in graph.deps && graph.IsPath(path + [node])
      modifies this
      ensures circular ==> exists p :: graph.IsCycle(p) && p[0] == culprit
      ensures !circular ==> Valid(path) && node in order && old(order) <= order
      decreases graph.deps.Keys - Elements(path)
    {
      if node in visited && visited[node] == Visiting {
        ClosingEdge(graph, path, node);
        return true, node;
      }
      if node in visited && visited[node] == Visited {
        return false, "";
      }
      visited := visited[node := Visiting];
      ghost var inner := path + [node];
      assert Elements(inner) == Elements(path) + {node};
      var deps := graph.deps[node];
      for i := 0 to |deps|
        invariant Valid(inner) && old(order) <= order
        invariant forall j :: 0 <= j < i && deps[j] in graph.deps ==> deps[j] in order
      {
        if deps[i] in graph.deps {
          ExtendPath(graph, inner, deps[i]);
          circular, culprit := Visit(deps[i], inner);
          if circular {
            return;
          }
        }
      }
      visited := visited[node := Visited];
      Finish(graph, path, node, order, visited);
      order := order + [node];
      return false, "";
    }
  }

  method TopologicalSort(graph: Graph) returns (r: Outcome)
    requires graph.Valid()
    ensures r.Order? ==>
      && Distinct(r.order)
      && (forall n :: n in r.order <==> n in graph.keys)
      && DepsFirst(graph, r.order)
    ensures r.Order? <==> !(exists p :: graph.IsCycle(p))
    ensures r.CircularAt? ==> exists p :: graph.IsCycle(p) && p[0] == r.node
  {
    var sorter := new Sorter(graph);
    for i := 0 to |graph.keys|
      invariant sorter.Valid([]) && sorter.graph == graph
      invariant forall j :: 0 <= j < i ==> graph.keys[j] in sorter.order
    {
      var circular, culprit := sorter.Visit(graph.keys[i], []);
      if circular {
        return CircularAt(culprit);
      }
    }
    OrderedGraphHasNoCycle(graph, sorter.order);
    r := Order(sorter.order);
  }

  ghost function Elements(s: seq<string>): set<string> {
    set n | n in s
  }

  lemma ExtendPath(g: Graph, path: seq<string>, d: string)
    requires |path| > 0 && g.IsPath(path) && g.Edge(path[|path| - 1], d)
    ensures g.IsPath(path + [d])
  {
  }

  // Meeting a node that is still being visited closes a cycle through it.
  lemma ClosingEdge(g: Graph, path: seq<string>, node: string)
    requires g.IsPath(path + [node]) && node in path
    ensures exists p :: g.IsCycle(p) && p[0] == node
  {
    var k :| 0 <= k < |path| && path[k] == node;
    var all := path + [node];
    var p := all[k..];
    forall i | 0 <= i < |p| - 1 ensures g.Edge(p[i], p[i + 1]) {
      assert g.Edge(all[k + i], all[k + i + 1]);
    }
    assert g.IsCycle(p);
  }

  // A node whose dependencies are all ordered may be appended.
  lemma Finish(g: Graph, path: seq<string>, node: string, order: seq<string>, visited: map<string, Mark>)
    requires node in visited && visited[node] == Visited && node !in order && node !in path
    requires exists before :: Marks(g, path + [node], order, before) && visited == before[node := Visited]
    requires Distinct(order) && DepsFirst(g, order)
    requires forall d :: g.Edge(node, d) ==> d in order
    ensures Marks(g, path, order + [node], visited)
    ensures Distinct(order + [node]) && DepsFirst(g, order + [node])
  {
    var longer := order + [node];
    forall i, d | 0 <= i < |longer| && g.Edge(longer[i], d) ensures d in longer[..i] {
      assert longer[..i] == order[..i];
    }
    assert forall n :: n in path + [node] <==> n in path || n == node;
    assert forall n :: n in longer <==> n in order || n == node;
  }

  // Walking an edge moves strictly towards the front of the order.
  lemma {:induction false} PathGoesForward(g: Graph, order: seq<string>, p: seq<string>, at: nat) returns (end: nat)
    requires DepsFirst(g, order) && g.IsPath(p) && |p| > 0
    requires at < |order| && order[at] == p[0]
    ensures end <= at && order[end] == p[|p| - 1]
    ensures |p| > 1 ==> end < at
    decreases |p|
  {
    if |p| == 1 {
      end := at;
    } else {
      assert g.Edge(p[0], p[1]);
      var next :| 0 <= next < at && order[next] == p[1];
      var rest := p[1..];
      forall i | 0 <= i < |rest| - 1 ensures g.Edge(rest[i], rest[i + 1]) {
        assert g.Edge(p[i + 1], p[i + 2]);
      }
      end := PathGoesForward(g, order, rest, next);
    }
  }

  // An order that contains every key and puts dependencies first rules cycles out.
  lemma OrderedGraphHasNoCycle(g: Graph, order: seq<string>)
    requires DepsFirst(g, order) && Distinct(order)
    requires forall k :: k in g.deps ==> k in order
    ensures !(exists p :: g.IsCycle(p))
  {
    forall p | g.IsCycle(p) ensures false {
      assert g.Edge(p[0], p[1]);
      var at :| 0 <= at < |order| && order[at] == p[0];
      var end := PathGoesForward(g, order, p, at);
    }
  }
}
