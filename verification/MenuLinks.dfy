/** Pointers between menu nodes, and the forests that they make up. */
module MenuLinks {
  import opened Wrappers
  import opened Model
  import opened MenuForest

  datatype Link = Link(next: Option<Id>, list: Option<Id>, parent: Option<Id>)

  type Links = seq<Link>

  // From `x` on, the links make up the forest `f`, whose siblings end where `end` begins.
  ghost predicate Linked(links: Links, x: Option<Id>, f: Forest, parent: Option<Id>, end: Option<Id>)
    decreases f
  {
    match f
    case Nil => x == end
    case Cons(n, kids, rest) =>
      && x == Some(n) && n < |links| && links[n].parent == parent
      && Linked(links, links[n].list, kids, Some(n), None)
      && Linked(links, links[n].next, rest, parent, end)
  }

  lemma LinkedHead(links: Links, x: Option<Id>, f: Forest, parent: Option<Id>, end: Option<Id>)
    requires f.Cons? && Linked(links, x, f, parent, end)
    ensures x == Some(f.node) && f.node < |links| && links[f.node].parent == parent
    ensures Linked(links, links[f.node].list, f.kids, Some(f.node), None)
    ensures Linked(links, links[f.node].next, f.rest, parent, end)
    ensures links[f.node].list == None <==> f.kids == Nil
    ensures end == None ==> (links[f.node].next == None <==> f.rest == Nil)
  {
  }

  // Only links of nodes in `f` differ.
  ghost predicate OthersSame(a: Links, b: Links, f: Forest) {
    |a| == |b| && forall x: Id :: x < |a| && Nodes(f)[x] == 0 ==> a[x] == b[x]
  }

  ghost predicate SameIn(a: Links, b: Links, f: Forest) {
    |a| <= |b| && forall x: Id :: x < |a| && Nodes(f)[x] > 0 ==> a[x] == b[x]
  }

  ghost predicate Disjoint(f: Forest, g: Forest) {
    forall x: Id :: Nodes(f)[x] == 0 || Nodes(g)[x] == 0
  }

  lemma {:induction false} LinkedSame(a: Links, b: Links, x: Option<Id>, f: Forest, parent: Option<Id>, end: Option<Id>)
    requires Linked(a, x, f, parent, end) && SameIn(a, b, f)
    ensures Linked(b, x, f, parent, end)
    decreases f
  {
    if f.Cons? {
      assert Nodes(f)[f.node] > 0;
      LinkedSame(a, b, a[f.node].list, f.kids, Some(f.node), None);
      LinkedSame(a, b, a[f.node].next, f.rest, parent, end);
    }
  }

  lemma {:induction false} LinkedJoin(links: Links, x: Option<Id>, f: Forest, mid: Option<Id>, g: Forest,
                                      parent: Option<Id>, end: Option<Id>)
    requires Linked(links, x, f, parent, mid) && Linked(links, mid, g, parent, end)
    ensures Linked(links, x, Append(f, g), parent, end)
    decreases f
  {
    if f.Cons? {
      LinkedJoin(links, links[f.node].next, f.rest, mid, g, parent, end);
    }
  }

  function Last(f: Forest): Id
    requires f.Cons?
  {
    if f.rest == Nil then f.node else Last(f.rest)
  }

  lemma {:induction false} LastInside(f: Forest)
    requires f.Cons?
    ensures Nodes(f)[Last(f)] > 0
    decreases f
  {
    if f.rest != Nil {
      LastInside(f.rest);
    }
  }

  lemma {:induction false} LastAppend(f: Forest, x: Id, kids: Forest)
    ensures Append(f, Cons(x, kids, Nil)).Cons? && Last(Append(f, Cons(x, kids, Nil))) == x
    decreases f
  {
    if f.Cons? {
      LastAppend(f.rest, x, kids);
    }
  }

  // A change to a node outside a forest does not matter to the forest.
  lemma LinkedElsewhere(links: Links, n: Id, link: Link, x: Option<Id>, f: Forest, parent: Option<Id>, end: Option<Id>)
    requires Linked(links, x, f, parent, end) && n < |links| && Nodes(f)[n] == 0
    ensures Linked(links[n := link], x, f, parent, end)
  {
    LinkedSame(links, links[n := link], x, f, parent, end);
  }

  // Redirecting the last of a list of siblings.
  lemma {:induction false} LinkedEnd(links: Links, x: Option<Id>, f: Forest, parent: Option<Id>, end: Option<Id>,
                                     to: Option<Id>)
    requires f.Cons? && NoRepeats(f) && Linked(links, x, f, parent, end)
    ensures Last(f) < |links| && links[Last(f)].next == end
    ensures Linked(links[Last(f) := links[Last(f)].(next := to)], x, f, parent, to)
    decreases f
  {
    NoRepeatsParts(f);
    var n, last := f.node, Last(f);
    if f.rest == Nil {
      LinkedElsewhere(links, n, links[n].(next := to), links[n].list, f.kids, Some(n), None);
    } else {
      LinkedEnd(links, links[n].next, f.rest, parent, end, to);
      LastInside(f.rest);
      LinkedElsewhere(links, last, links[last].(next := to), links[n].list, f.kids, Some(n), None);
    }
  }

  lemma ChangeInside(links: Links, n: Id, link: Link, f: Forest)
    requires n < |links| && Nodes(f)[n] > 0
    ensures OthersSame(links, links[n := link], f)
  {
  }

  lemma LinkedOthers(a: Links, b: Links, x: Option<Id>, f: Forest, g: Forest, parent: Option<Id>, end: Option<Id>)
    requires Linked(a, x, f, parent, end) && OthersSame(a, b, g) && Disjoint(f, g)
    ensures Linked(b, x, f, parent, end)
  {
    LinkedSame(a, b, x, f, parent, end);
  }

  lemma OthersWider(a: Links, b: Links, f: Forest, g: Forest)
    requires OthersSame(a, b, f) && Nodes(f) <= Nodes(g)
    ensures OthersSame(a, b, g)
  {
  }

  lemma UpdatedTwice<T>(s: seq<T>, i: nat, u: T, v: T)
    requires i < |s|
    ensures s[i := u][i := v] == s[i := v]
  {
  }

  lemma OthersTwice(a: Links, b: Links, c: Links, f: Forest, g: Forest)
    requires OthersSame(a, b, f) && OthersSame(b, c, g) && Nodes(g) <= Nodes(f)
    ensures OthersSame(a, c, f)
  {
  }
}
