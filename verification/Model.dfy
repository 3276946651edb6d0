/** The configuration after parsing and finalisation: symbols, choices and expressions over them.

    Items refer to each other by their index in `Config.items`. */
module Model {
  import opened Wrappers

  // n, m and y
  type Tri = x: int | 0 <= x <= 2

  type Id = nat

  datatype Type = UNKNOWN | BOOL | TRISTATE | STRING | INT | HEX

  datatype Relation = EQUAL | UNEQUAL | LESS | LESS_EQUAL | GREATER | GREATER_EQUAL

  datatype Expr =
    | Ref(id: Id)
    | And(left: Expr, right: Expr)
    | Or(left: Expr, right: Expr)
    | Not(operand: Expr)
    | Rel(rel: Relation, lhs: Id, rhs: Id)

  datatype Default = Default(value: Expr, cond: Expr)

  datatype ChoiceDefault = ChoiceDefault(sym: Id, cond: Expr)

  datatype Range = Range(low: Id, high: Id, cond: Expr)

  datatype Item =
    | Symbol(name: string,
             origType: Type,
             constant: bool,             // n, m, y, and quoted strings
             preset: Option<Tri>,        // the value that n, m and y are created with
             defined: bool,              // has at least one menu node
             choice: Option<Id>,
             prompts: seq<Expr>,         // the prompt conditions, one for each menu node with a prompt
             defaults: seq<Default>,
             ranges: seq<Range>,
             revDep: Expr,
             weakRevDep: Expr,
             directDep: Expr,
             noConf: bool)               // 'option env' or the defconfig_list symbol
    | Choice(origType: Type,
             optional: bool,
             prompts: seq<Expr>,
             choiceDefaults: seq<ChoiceDefault>,
             syms: seq<Id>)
  {
    predicate Logical() { origType == BOOL || origType == TRISTATE }

    predicate Numeric() { origType == INT || origType == HEX }

    function Base(): nat {
      if origType == HEX then 16 else if origType == INT then 10 else 0
    }

    predicate InChoice() { Symbol? && choice.Some? }

    predicate Constant() { Symbol? && constant }

    predicate Preset() { Symbol? && preset.Some? }

    // Whether finding out the type may involve the value of MODULES.
    predicate ConsultsModules() { origType == TRISTATE && !Preset() }
  }

  const NEVER: Expr := Rel(UNEQUAL, 0, 0)

  const UNDEFINED: Item :=
    Symbol("", UNKNOWN, false, None, false, None, [], [], [], NEVER, NEVER, NEVER, false)

  // `order` ranks the items so that everything an item reads has a smaller rank; that such a ranking
  // exists is what dependency loop detection establishes.  `Item` is total so that formulas stay short:
  // no index in a well-formed configuration is out of range.
  datatype Config = Config(items: seq<Item>, modules: Id, order: seq<nat>) {
    function Item(x: Id): Item {
      if x < |items| then items[x] else UNDEFINED
    }

    function Rank(x: Id): nat {
      if x < |order| then order[x] else 0
    }
  }

  function Refs(e: Expr): set<Id> {
    match e
    case Ref(id) => {id}
    case And(l, r) => Refs(l) + Refs(r)
    case Or(l, r) => Refs(l) + Refs(r)
    case Not(o) => Refs(o)
    case Rel(_, l, r) => {l, r}
  }

  function AllRefs(es: seq<Expr>): set<Id> {
    if es == [] then {} else Refs(es[0]) + AllRefs(es[1..])
  }

  function DefaultRefs(ds: seq<Default>): set<Id> {
    if ds == [] then {} else Refs(ds[0].value) + Refs(ds[0].cond) + DefaultRefs(ds[1..])
  }

  function CondRefs(ds: seq<ChoiceDefault>): set<Id> {
    if ds == [] then {} else Refs(ds[0].cond) + CondRefs(ds[1..])
  }

  function RangeRefs(rs: seq<Range>): set<Id> {
    if rs == [] then {} else {rs[0].low, rs[0].high} + Refs(rs[0].cond) + RangeRefs(rs[1..])
  }

  // Everything that _build_dep() passes to _make_depend_on() for an item.
  function ItemRefs(it: Item): set<Id> {
    match it
    case Symbol(_, _, _, _, defined, _, prompts, defaults, ranges, revDep, weakRevDep, directDep, _) =>
      if defined then
        AllRefs(prompts) + DefaultRefs(defaults) + Refs(revDep) + Refs(weakRevDep)
          + RangeRefs(ranges) + Refs(directDep)
      else
        {}
    case Choice(_, _, prompts, defaults, _) =>
      AllRefs(prompts) + CondRefs(defaults)
  }

  // Whether changing `y` may change `x`: the edge from `y` to `x` in the dependents relation, once
  // _add_choice_deps() has added the edges from choice symbols to their choice.
  ghost predicate DependsOn(k: Config, x: Id, y: Id) {
    y in ItemRefs(k.Item(x)) || (k.Item(x).Choice? && y in k.Item(x).syms)
  }

  function Min(a: Tri, b: Tri): Tri { if a <= b then a else b }

  function Max(a: Tri, b: Tri): Tri { if a >= b then a else b }

  // What parsing and finalisation guarantee of every configuration, and the three restrictions that
  // they only warn about: a choice's defaults are its own symbols, a symbol is in the choice that lists
  // it, and the choice appears in the properties of each of its symbols.
  ghost predicate WellFormed(k: Config) {
    && k.modules < |k.items| && k.Item(k.modules).Symbol?
    && (forall x: Id {:trigger k.Item(x)} :: x < |k.items| ==> ItemOk(k, x))
  }

  ghost predicate ItemOk(k: Config, x: Id) {
    var it := k.Item(x);
    && (forall y :: y in ItemRefs(it) ==> y < |k.items|)
    && RelationsOk(k, it)
    && match it
    case Symbol(_, _, constant, preset, defined, choice, prompts, defaults, ranges, _, _, _, _) =>
      && (!defined ==> prompts == [] && defaults == [] && ranges == [] && choice == None)
      && (!defined ==> it.origType == UNKNOWN || preset.Some?)
      && (preset.Some? ==> constant && it.origType == TRISTATE)
      && (constant ==> !defined)
      && (choice.Some? ==> ChoiceMember(k, choice.value, x))
      && (!it.Logical() ==> forall d :: d in defaults ==> d.value.Ref? && k.Item(d.value.id).Symbol?)
      && (forall r :: r in ranges ==> k.Item(r.low).Symbol? && k.Item(r.high).Symbol?)
    case Choice(_, _, _, defaults, syms) =>
      && (forall d :: d in defaults ==> d.sym in syms)
      && (forall s :: s in syms ==> k.Item(s).Symbol? && k.Item(s).choice == Some(x) && s < |k.items|)
  }

  ghost predicate ChoiceMember(k: Config, c: Id, s: Id) {
    && c < |k.items|
    && k.Item(c).Choice?
    && s in k.Item(c).syms
    && c in ItemRefs(k.Item(s))
  }

  // Both operands of a relation are symbols.
  ghost predicate RelOk(k: Config, e: Expr) {
    match e
    case Ref(_) => true
    case And(l, r) => RelOk(k, l) && RelOk(k, r)
    case Or(l, r) => RelOk(k, l) && RelOk(k, r)
    case Not(o) => RelOk(k, o)
    case Rel(_, l, r) => k.Item(l).Symbol? && k.Item(r).Symbol?
  }

  ghost predicate RelationsOk(k: Config, it: Item) {
    && (forall e :: e in it.prompts ==> RelOk(k, e))
    && (it.Symbol? ==>
          && (forall d :: d in it.defaults ==> RelOk(k, d.value) && RelOk(k, d.cond))
          && (forall r :: r in it.ranges ==> RelOk(k, r.cond))
          && RelOk(k, it.revDep) && RelOk(k, it.weakRevDep) && RelOk(k, it.directDep))
    && (it.Choice? ==> forall d :: d in it.choiceDefaults ==> RelOk(k, d.cond))
  }

  // The ranking is one of what items read: everything that an item refers to has a smaller rank, and a
  // choice and its symbols occupy two consecutive ranks.
  ghost predicate Ranked(k: Config) {
    && |k.order| == |k.items|
    && (forall x: Id, y :: x < |k.items| && y in ItemRefs(k.Item(x)) ==> k.Rank(y) < k.Rank(x))
    && (forall c: Id, s :: c < |k.items| && k.Item(c).Choice? && s in k.Item(c).syms ==> k.Rank(s) == k.Rank(c) + 1)
  }

  // Whatever consults MODULES to find out its type is also ranked above MODULES.
  ghost predicate Ordered(k: Config) {
    && Ranked(k)
    && (forall x: Id :: x < |k.items| && k.Item(x).ConsultsModules() ==> k.Rank(k.modules) < k.Rank(x))
  }
}
