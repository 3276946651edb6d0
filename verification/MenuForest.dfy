/** The menu tree as a value, and what finalising it does.

    A menu node has a first child and a next sibling, so a list of siblings with everything below them is a
    `Forest`.  The functions here say what each step of _finalize_tree() does to the forest, to the
    properties of the menu nodes, and to the symbols; module `MenuTree` carries the steps out in place. */
module MenuForest {
  import opened Wrappers
  import opened Model

  datatype Content = OfSymbol(id: Id) | OfChoice(id: Id) | OfMenu | OfComment | OfIf
  {
    predicate SymbolOrChoice() { OfSymbol? || OfChoice? }
  }

  // What never changes about a menu node.  `visibility` is the 'visible if' condition of a menu.
  datatype Entry = Entry(item: Content, visibility: Expr)

  // The constant symbols, and the menu nodes.
  datatype Menus = Menus(n: Id, m: Id, y: Id, entries: seq<Entry>) {
    function Item(x: Id): Content {
      if x < |entries| then entries[x].item else OfIf
    }

    function Visibility(x: Id): Expr {
      if x < |entries| then entries[x].visibility else Ref(y)
    }
  }

  // A select or imply.
  datatype Select = Select(target: Id, cond: Expr)

  // The properties of a menu node; `prompt` is the prompt condition.
  datatype Attr = Attr(dep: Expr, prompt: Option<Expr>, defaults: seq<Default>, ranges: seq<Range>,
                       selects: seq<Select>, implies: seq<Select>)

  const NO_ATTR := Attr(NEVER, None, [], [], [], [])

  type Attrs = seq<Attr>

  function AttrOf(attrs: Attrs, x: Id): Attr {
    if x < |attrs| then attrs[x] else NO_ATTR
  }

  // The properties that symbols collect from their menu nodes.
  datatype Props = Props(directDep: Expr, revDep: Expr, weakRevDep: Expr, defaults: seq<Default>, ranges: seq<Range>)

  datatype State = State(attrs: Attrs, props: seq<Props>)

  // ---------- Forests ----------

  datatype Forest = Nil | Cons(node: Id, kids: Forest, rest: Forest)

  function Preorder(f: Forest): seq<Id> {
    match f
    case Nil => []
    case Cons(x, kids, rest) => [x] + Preorder(kids) + Preorder(rest)
  }

  function Size(f: Forest): (s: nat)
    ensures s == 0 <==> f == Nil
  {
    match f
    case Nil => 0
    case Cons(_, kids, rest) => 1 + Size(kids) + Size(rest)
  }

  function Append(f: Forest, g: Forest): (r: Forest)
    ensures Size(r) == Size(f) + Size(g)
  {
    match f
    case Nil => g
    case Cons(x, kids, rest) => Cons(x, kids, Append(rest, g))
  }

  function Nodes(f: Forest): multiset<Id> {
    match f
    case Nil => multiset{}
    case Cons(x, kids, rest) => multiset{x} + Nodes(kids) + Nodes(rest)
  }

  ghost predicate NoRepeats(f: Forest) {
    forall x: Id :: Nodes(f)[x] <= 1
  }

  lemma {:induction false} AppendNodes(f: Forest, g: Forest)
    ensures Nodes(Append(f, g)) == Nodes(f) + Nodes(g)
    decreases f
  {
    if f.Cons? {
      AppendNodes(f.rest, g);
    }
  }

  lemma CountParts(f: Forest, x: Id)
    requires f.Cons?
    ensures Nodes(f)[x] == (if x == f.node then 1 else 0) + Nodes(f.kids)[x] + Nodes(f.rest)[x]
  {
    assert (multiset{f.node} + Nodes(f.kids))[x] == multiset{f.node}[x] + Nodes(f.kids)[x];
  }

  lemma CountWithin(a: multiset<Id>, b: multiset<Id>, whole: multiset<Id>, x: Id)
    requires a + b <= whole
    ensures a[x] + b[x] <= whole[x]
  {
    assert (a + b)[x] <= whole[x];
  }

  lemma CountSmaller(a: multiset<Id>, b: multiset<Id>, x: Id)
    requires a <= b
    ensures a[x] <= b[x]
  {
  }

  lemma NoRepeatsParts(f: Forest)
    requires f.Cons? && NoRepeats(f)
    ensures NoRepeats(f.kids) && NoRepeats(f.rest) && Nodes(f.kids)[f.node] == 0 && Nodes(f.rest)[f.node] == 0
    ensures forall x: Id :: Nodes(f.kids)[x] == 0 || Nodes(f.rest)[x] == 0
  {
    forall x: Id ensures (if x == f.node then 1 else 0) + Nodes(f.kids)[x] + Nodes(f.rest)[x] <= 1 {
      CountParts(f, x);
    }
  }

  lemma NoRepeatsAppend(f: Forest, g: Forest)
    requires NoRepeats(Append(f, g))
    ensures NoRepeats(f) && NoRepeats(g) && forall x: Id :: Nodes(f)[x] == 0 || Nodes(g)[x] == 0
  {
    AppendNodes(f, g);
    forall x: Id ensures Nodes(f)[x] + Nodes(g)[x] <= 1 {
      assert Nodes(Append(f, g))[x] == (Nodes(f) + Nodes(g))[x];
    }
  }

  lemma Associate<T>(a: seq<T>, b: seq<T>, c: seq<T>)
    ensures (a + b) + c == a + (b + c)
  {
  }

  lemma {:induction false} AppendAssociative(f: Forest, g: Forest, h: Forest)
    ensures Append(Append(f, g), h) == Append(f, Append(g, h))
    decreases f
  {
    if f.Cons? {
      AppendAssociative(f.rest, g, h);
    }
  }

  lemma {:induction false} AppendNil(f: Forest)
    ensures Append(f, Nil) == f
    decreases f
  {
    if f.Cons? {
      AppendNil(f.rest);
    }
  }

  // ---------- _make_and() and _make_or() ----------

  function MakeAnd(t: Menus, a: Expr, b: Expr): Expr {
    if a == Ref(t.y) then b
    else if b == Ref(t.y) then a
    else if a == Ref(t.n) || b == Ref(t.n) then Ref(t.n)
    else And(a, b)
  }

  function MakeOr(t: Menus, a: Expr, b: Expr): Expr {
    if a == Ref(t.n) then b
    else if b == Ref(t.n) then a
    else if a == Ref(t.y) || b == Ref(t.y) then Ref(t.y)
    else Or(a, b)
  }

  // ---------- _propagate_deps() ----------

  function CondDefaults(t: Menus, ds: seq<Default>, dep: Expr): seq<Default> {
    seq(|ds|, i requires 0 <= i < |ds| => Default(ds[i].value, MakeAnd(t, ds[i].cond, dep)))
  }

  function CondRanges(t: Menus, rs: seq<Range>, dep: Expr): seq<Range> {
    seq(|rs|, i requires 0 <= i < |rs| => Range(rs[i].low, rs[i].high, MakeAnd(t, rs[i].cond, dep)))
  }

  function CondSelects(t: Menus, ss: seq<Select>, dep: Expr): seq<Select> {
    seq(|ss|, i requires 0 <= i < |ss| => Select(ss[i].target, MakeAnd(t, ss[i].cond, dep)))
  }

  // What propagation does to one child.
  function Propagated(t: Menus, a: Attr, item: Content, base: Expr, visible: Expr): Attr {
    var dep := MakeAnd(t, a.dep, base);
    if item.SymbolOrChoice() then
      Attr(dep,
           if a.prompt.Some? then Some(MakeAnd(t, a.prompt.value, MakeAnd(t, visible, dep))) else None,
           CondDefaults(t, a.defaults, dep), CondRanges(t, a.ranges, dep),
           CondSelects(t, a.selects, dep), CondSelects(t, a.implies, dep))
    else
      a.(dep := dep, prompt := if a.prompt.Some? then Some(MakeAnd(t, a.prompt.value, dep)) else None)
  }

  // The symbols of a choice depend on its mode, instead of its dependencies.
  function BaseDep(t: Menus, attrs: Attrs, x: Id): Expr {
    if t.Item(x).OfChoice? then Ref(t.Item(x).id) else AttrOf(attrs, x).dep
  }

  function PropagateLevel(t: Menus, attrs: Attrs, f: Forest, base: Expr, visible: Expr): (r: Attrs)
    ensures |r| == |attrs|
    decreases f
  {
    match f
    case Nil => attrs
    case Cons(x, _, rest) =>
      PropagateLevel(t, if x < |attrs| then attrs[x := Propagated(t, attrs[x], t.Item(x), base, visible)] else attrs,
                     rest, base, visible)
  }

  // ---------- _add_props_to_sym() ----------

  function AddReverse(t: Menus, props: seq<Props>, sym: Id, ss: seq<Select>): (r: seq<Props>)
    ensures |r| == |props|
    decreases |ss|
  {
    if ss == [] then props
    else
      var x := ss[0].target;
      AddReverse(t,
                 if x < |props| then
                   props[x := props[x].(revDep := MakeOr(t, props[x].revDep, MakeAnd(t, Ref(sym), ss[0].cond)))]
                 else props,
                 sym, ss[1..])
  }

  function AddWeakReverse(t: Menus, props: seq<Props>, sym: Id, ss: seq<Select>): (r: seq<Props>)
    ensures |r| == |props|
    decreases |ss|
  {
    if ss == [] then props
    else
      var x := ss[0].target;
      AddWeakReverse(t,
                     if x < |props| then
                       props[x := props[x].(weakRevDep := MakeOr(t, props[x].weakRevDep,
                                                                 MakeAnd(t, Ref(sym), ss[0].cond)))]
                     else props,
                     sym, ss[1..])
  }

  function AddProps(t: Menus, props: seq<Props>, sym: Id, a: Attr): (r: seq<Props>)
    ensures |r| == |props|
  {
    var own := if sym < |props| then
                 props[sym := props[sym].(directDep := MakeOr(t, props[sym].directDep, a.dep),
                                          defaults := props[sym].defaults + a.defaults,
                                          ranges := props[sym].ranges + a.ranges)]
               else props;
    AddWeakReverse(t, AddReverse(t, own, sym, a.selects), sym, a.implies)
  }

  // ---------- Implicit submenus ----------

  // _expr_depends_on(), which accepts more than it means to: `sym != y` as well as `sym = y`.
  predicate ExprDependsOn(t: Menus, e: Expr, sym: Id) {
    match e
    case Ref(id) => id == sym
    case Rel(rel, l, r) =>
      if rel != EQUAL && rel != UNEQUAL then false
      else if r != sym && l != sym then false
      else
        var other := if r == sym then l else r;
        (rel == EQUAL && other == t.m) || other == t.y || (rel == UNEQUAL && other == t.n)
    case And(l, r) => ExprDependsOn(t, l, sym) || ExprDependsOn(t, r, sym)
    case _ => false
  }

  // What _expr_depends_on() is meant to accept: the symbol itself, sym = m, sym = y and sym != n, on either
  // side, or a conjunction with such a part.
  predicate MeantToDependOn(t: Menus, e: Expr, sym: Id) {
    match e
    case Ref(id) => id == sym
    case Rel(rel, l, r) =>
      || (rel == EQUAL && ((l == sym && (r == t.m || r == t.y)) || (r == sym && (l == t.m || l == t.y))))
      || (rel == UNEQUAL && ((l == sym && r == t.n) || (r == sym && l == t.n)))
    case And(l, r) => MeantToDependOn(t, l, sym) || MeantToDependOn(t, r, sym)
    case _ => false
  }

  // Whether sym != y or y != sym is one of the parts of a conjunction.
  predicate HasUnequalToY(t: Menus, e: Expr, sym: Id) {
    match e
    case Rel(rel, l, r) => rel == UNEQUAL && ((l == sym && r == t.y) || (r == sym && l == t.y))
    case And(l, r) => HasUnequalToY(t, l, sym) || HasUnequalToY(t, r, sym)
    case _ => false
  }

  // Exactly what is accepted in excess.
  lemma {:induction false} DependsOnExact(t: Menus, e: Expr, sym: Id)
    ensures ExprDependsOn(t, e, sym) <==> MeantToDependOn(t, e, sym) || HasUnequalToY(t, e, sym)
  {
    match e
    case And(l, r) =>
      DependsOnExact(t, l, sym);
      DependsOnExact(t, r, sym);
    case _ =>
  }

  // _auto_menu_dep()
  predicate AutoMenuDep(t: Menus, attrs: Attrs, sym: Id, x: Id) {
    var a := AttrOf(attrs, x);
    ExprDependsOn(t, if a.prompt.Some? then a.prompt.value else a.dep, sym)
  }

  // ---------- _flatten() and _remove_ifs() ----------

  predicate Flattens(t: Menus, attrs: Attrs, x: Id) {
    AttrOf(attrs, x).prompt.None? && !t.Item(x).OfChoice?
  }

  function Flatten(t: Menus, attrs: Attrs, f: Forest): Forest
    decreases Size(f)
  {
    match f
    case Nil => Nil
    case Cons(x, kids, rest) =>
      if kids != Nil && Flattens(t, attrs, x) then Cons(x, Nil, Flatten(t, attrs, Append(kids, rest)))
      else Cons(x, kids, Flatten(t, attrs, rest))
  }

  function RemoveIfs(t: Menus, f: Forest): Forest {
    match f
    case Nil => Nil
    case Cons(x, kids, rest) => if t.Item(x).OfIf? then RemoveIfs(t, rest) else Cons(x, kids, RemoveIfs(t, rest))
  }

  // ---------- _finalize_choice() ----------

  // The symbols whose nodes are in a list of siblings.
  function SymsBeside(t: Menus, f: Forest): seq<Id> {
    match f
    case Nil => []
    case Cons(x, _, rest) => (if t.Item(x).OfSymbol? then [t.Item(x).id] else []) + SymsBeside(t, rest)
  }

  // The symbols that _finalize_choice() collects for a choice: those of the nodes directly below its own.
  function ChoiceSyms(t: Menus, f: Forest, c: Id): seq<Id> {
    match f
    case Nil => []
    case Cons(x, kids, rest) =>
      ChoiceSyms(t, kids, c) + (if t.Item(x) == OfChoice(c) then SymsBeside(t, kids) else []) + ChoiceSyms(t, rest, c)
  }

  // ---------- _finalize_tree() ----------

  datatype Finalized = Finalized(state: State, forest: Forest)

  datatype Absorbed = Absorbed(state: State, taken: Forest, rest: Forest)

  function VisibleIf(t: Menus, x: Id, visible: Expr): Expr {
    if t.Item(x).OfMenu? then MakeAnd(t, visible, t.Visibility(x)) else visible
  }

  // Finalises the first node of `f`.  A symbol may absorb siblings that follow it.
  function Finalize(t: Menus, s: State, f: Forest, visible: Expr): (r: Finalized)
    requires f.Cons?
    ensures r.forest.Cons? && r.forest.node == f.node && Size(r.forest.rest) <= Size(f.rest)
    decreases Size(f), 0
  {
    var x := f.node;
    if f.kids != Nil then
      var below := VisibleIf(t, x, visible);
      var s1 := s.(attrs := PropagateLevel(t, s.attrs, f.kids, BaseDep(t, s.attrs, x), below));
      var r := FinalizeList(t, s1, f.kids, below);
      Finalized(r.state, Cons(x, RemoveIfs(t, Flatten(t, r.state.attrs, r.forest)), f.rest))
    else if t.Item(x).OfSymbol? then
      var s1 := s.(props := AddProps(t, s.props, t.Item(x).id, AttrOf(s.attrs, x)));
      var r := Absorb(t, s1, t.Item(x).id, f.rest, visible);
      Finalized(r.state, Cons(x, RemoveIfs(t, Flatten(t, r.state.attrs, r.taken)), r.rest))
    else
      Finalized(s, f)
  }

  // Finalises a list of siblings, as far as they are not absorbed by earlier ones.
  function FinalizeList(t: Menus, s: State, f: Forest, visible: Expr): Finalized
    decreases Size(f), 1
  {
    if f == Nil then Finalized(s, Nil)
    else
      var first := Finalize(t, s, f, visible);
      var others := FinalizeList(t, first.state, first.forest.rest, visible);
      Finalized(others.state, Cons(first.forest.node, first.forest.kids, others.forest))
  }

  // The siblings that go into the implicit submenu of symbol `sym`.
  function Absorb(t: Menus, s: State, sym: Id, f: Forest, visible: Expr): (r: Absorbed)
    ensures Size(r.rest) <= Size(f)
    decreases Size(f), 1
  {
    if f == Nil || !AutoMenuDep(t, s.attrs, sym, f.node) then Absorbed(s, Nil, f)
    else
      var first := Finalize(t, s, f, visible);
      var others := Absorb(t, first.state, sym, first.forest.rest, visible);
      Absorbed(others.state, Cons(first.forest.node, first.forest.kids, others.taken), others.rest)
  }
}
