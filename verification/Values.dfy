/** What the values of symbols and choices mean, without any caching.

    A valuation gives every item a visibility, a value, and so on.  The functions below say what each of
    these has to be, given the user's settings and the valuation of the other items; the meaning of a
    configuration is the valuation that agrees with all of them (module `Reference`). */
module Values {
  import opened Wrappers
  import opened Model
  import opened Numbers

  datatype UserValue = TriValue(tri: Tri) | StrValue(str: string)

  // `value` is user_value; `selection` is the user_selection of a choice.
  datatype User = User(value: Option<UserValue>, selection: Option<Id>) {
    function Tri(): Option<Tri> {
      if value.Some? && value.value.TriValue? then Some(value.value.tri) else None
    }

    function Str(): Option<string> {
      if value.Some? && value.value.StrValue? then Some(value.value.str) else None
    }
  }

  type Users = seq<User>

  const NO_USER := User(None, None)

  function UserOf(us: Users, x: Id): User {
    if x < |us| then us[x] else NO_USER
  }

  // `tri` is the mode if the item is a choice, and `sel` its selection. `write` is _write_to_conf.
  datatype Val = Val(vis: Tri, tri: Tri, str: string, asg: seq<Tri>, sel: Option<Id>, write: bool)

  type Valuation = seq<Val>

  const NO_VAL := Val(0, 0, "", [], None, false)

  function ValOf(v: Valuation, x: Id): Val {
    if x < |v| then v[x] else NO_VAL
  }

  function TriToStr(t: Tri): string {
    if t == 0 then "n" else if t == 1 then "m" else "y"
  }

  // _sym_to_num()
  function SymToNum(k: Config, v: Valuation, x: Id): Option<int> {
    if k.Item(x).Logical() then Some(ValOf(v, x).tri) else ParseInt(ValOf(v, x).str, k.Item(x).Base())
  }

  function Subtract(a: Option<int>, b: Option<int>): Option<int> {
    if a.None? || b.None? then None else Some(a.value - b.value)
  }

  function Difference(k: Config, v: Valuation, a: Id, b: Id): Option<int> {
    Subtract(SymToNum(k, v, a), SymToNum(k, v, b))
  }

  // Numeric if both operands are numbers, and otherwise by characters.
  function Compare(k: Config, v: Valuation, a: Id, b: Id): int {
    var d := Difference(k, v, a, b);
    if (k.Item(a).origType == STRING && k.Item(b).origType == STRING) || d.None? then
      StrCmp(ValOf(v, a).str, ValOf(v, b).str)
    else
      d.value
  }

  function Holds(rel: Relation, comp: int): bool {
    match rel
    case EQUAL => comp == 0
    case UNEQUAL => comp != 0
    case LESS => comp < 0
    case LESS_EQUAL => comp <= 0
    case GREATER => comp > 0
    case GREATER_EQUAL => comp >= 0
  }

  // expr_value()
  function ExprValue(k: Config, v: Valuation, e: Expr): Tri {
    match e
    case Ref(id) => ValOf(v, id).tri
    case And(l, r) => Min(ExprValue(k, v, l), ExprValue(k, v, r))
    case Or(l, r) => Max(ExprValue(k, v, l), ExprValue(k, v, r))
    case Not(o) => 2 - ExprValue(k, v, o)
    case Rel(rel, l, r) => if Holds(rel, Compare(k, v, l, r)) then 2 else 0
  }

  // The `type` property.
  function TypeOf(k: Config, v: Valuation, x: Id): Type {
    var it := k.Item(x);
    if it.origType == TRISTATE
       && ((it.InChoice() && ValOf(v, it.choice.value).tri == 2) || ValOf(v, k.modules).tri == 0) then
      BOOL
    else
      it.origType
  }

  function PromptMax(k: Config, v: Valuation, prompts: seq<Expr>): Tri {
    if prompts == [] then 0 else Max(ExprValue(k, v, prompts[0]), PromptMax(k, v, prompts[1..]))
  }

  // Whether a choice hides one of its symbols, because of its mode, regardless of the prompt.
  predicate HiddenByMode(k: Config, v: Valuation, x: Id, vis: Tri) {
    var it := k.Item(x);
    it.InChoice()
    && var mode := ValOf(v, it.choice.value).tri;
       if it.origType != TRISTATE then k.Item(it.choice.value).origType == TRISTATE && mode != 2
       else vis == 1 && mode == 2
  }

  // _visibility()
  function Visibility(k: Config, v: Valuation, x: Id): Tri {
    var vis := PromptMax(k, v, k.Item(x).prompts);
    if HiddenByMode(k, v, x, vis) then 0
    else if vis == 1 && TypeOf(k, v, x) != TRISTATE then 2
    else vis
  }

  // Choice.tri_value
  function ModeBefore(k: Config, us: Users, v: Valuation, c: Id): Tri {
    var least: Tri := if k.Item(c).Choice? && k.Item(c).optional then 0 else 1;
    var user := UserOf(us, c).Tri();
    Min(if user.Some? then Max(least, user.value) else least, ValOf(v, c).vis)
  }

  function Mode(k: Config, us: Users, v: Valuation, c: Id): Tri {
    var val := ModeBefore(k, us, v, c);
    if val == 1 && TypeOf(k, v, c) == BOOL then 2 else val
  }

  function FirstDefault(k: Config, v: Valuation, ds: seq<ChoiceDefault>): Option<Id> {
    if ds == [] then None
    else if ExprValue(k, v, ds[0].cond) != 0 && ValOf(v, ds[0].sym).vis != 0 then Some(ds[0].sym)
    else FirstDefault(k, v, ds[1..])
  }

  function FirstVisible(v: Valuation, syms: seq<Id>): Option<Id> {
    if syms == [] then None
    else if ValOf(v, syms[0]).vis != 0 then Some(syms[0])
    else FirstVisible(v, syms[1..])
  }

  // Choice._get_selection_from_defaults()
  function SelectionFromDefaults(k: Config, v: Valuation, c: Id): Option<Id> {
    var it := k.Item(c);
    if !it.Choice? then None
    else
      var d := FirstDefault(k, v, it.choiceDefaults);
      if d.Some? then d else FirstVisible(v, it.syms)
  }

  // Choice._selection()
  function Selection(k: Config, us: Users, v: Valuation, c: Id): Option<Id> {
    var chosen := UserOf(us, c).selection;
    if ValOf(v, c).tri != 2 then None
    else if chosen.Some? && ValOf(v, chosen.value).vis != 0 then chosen
    else SelectionFromDefaults(k, v, c)
  }

  // The first default whose condition is not n, with the value of that condition.
  function ActiveDefault(k: Config, v: Valuation, ds: seq<Default>): Option<Default> {
    if ds == [] then None
    else if ExprValue(k, v, ds[0].cond) != 0 then Some(ds[0])
    else ActiveDefault(k, v, ds[1..])
  }

  function DefaultTri(k: Config, v: Valuation, ds: seq<Default>): Tri {
    var d := ActiveDefault(k, v, ds);
    if d.None? then 0 else Min(ExprValue(k, v, d.value.value), ExprValue(k, v, d.value.cond))
  }

  // A value, and whether a .config entry is written for it.
  datatype Tri2 = Tri2(val: Tri, write: bool)

  // The weak reverse dependencies, which count only if the direct dependencies are met.
  function Implied(k: Config, v: Valuation, x: Id): Tri {
    var it := k.Item(x);
    if it.Symbol? && ExprValue(k, v, it.weakRevDep) != 0 && ExprValue(k, v, it.directDep) != 0 then
      ExprValue(k, v, it.weakRevDep)
    else
      0
  }

  // From the user if the symbol is visible, and otherwise from defaults and implies.
  function BaseTri(k: Config, us: Users, v: Valuation, x: Id): Tri2 {
    var it := k.Item(x);
    var vis := ValOf(v, x).vis;
    var user := UserOf(us, x).Tri();
    if !it.Symbol? then Tri2(0, false)
    else if vis != 0 && user.Some? then
      Tri2(Min(user.value, vis), true)
    else
      var val := DefaultTri(k, v, it.defaults);
      var weak := Implied(k, v, x);
      if weak != 0 then Tri2(Max(weak, val), true) else Tri2(val, vis != 0 || val != 0)
  }

  function SelectedTri(k: Config, us: Users, v: Valuation, x: Id): Tri2 {
    var it := k.Item(x);
    var base := BaseTri(k, us, v, x);
    if !it.Symbol? then base
    else
      var rev := ExprValue(k, v, it.revDep);
      if rev != 0 then Tri2(Max(rev, base.val), true) else base
  }

  // m is not a possible value: for want of modules, or because of an imply with value y.
  predicate NeverM(k: Config, v: Valuation, x: Id) {
    TypeOf(k, v, x) == BOOL || (k.Item(x).Symbol? && ExprValue(k, v, k.Item(x).weakRevDep) == 2)
  }

  function FreeTri(k: Config, us: Users, v: Valuation, x: Id): Tri2 {
    var sel := SelectedTri(k, us, v, x);
    if sel.val == 1 && NeverM(k, v, x) then sel.(val := 2) else sel
  }

  function MemberTri(us: Users, v: Valuation, x: Id, c: Id): Tri2 {
    var vis := ValOf(v, x).vis;
    var user := UserOf(us, x).Tri();
    Tri2(if vis == 2 then (if ValOf(v, c).sel == Some(x) then 2 else 0)
         else if vis != 0 && user.Some? && user.value != 0 then 1
         else 0,
         vis != 0)
  }

  // Symbol.tri_value
  function SymTri(k: Config, us: Users, v: Valuation, x: Id): Tri2 {
    var it := k.Item(x);
    if it.Preset() then Tri2(it.preset.value, false)
    else if !it.Logical() then Tri2(0, false)
    else if it.InChoice() then MemberTri(us, v, x, it.choice.value)
    else FreeTri(k, us, v, x)
  }

  datatype Bounds = Unbounded | Bounds(low: int, high: int)

  function NumOrZero(s: string, base: nat): int {
    var n := ParseInt(s, base);
    if n.Some? then n.value else 0
  }

  // The first range whose condition is not n.
  function ActiveRange(k: Config, v: Valuation, rs: seq<Range>, base: nat): Bounds {
    if rs == [] then Unbounded
    else if ExprValue(k, v, rs[0].cond) != 0 then
      Bounds(NumOrZero(ValOf(v, rs[0].low).str, base), NumOrZero(ValOf(v, rs[0].high).str, base))
    else ActiveRange(k, v, rs[1..], base)
  }

  predicate InBounds(b: Bounds, n: int) {
    b.Unbounded? || b.low <= n <= b.high
  }

  function NumToString(t: Type, n: int): string {
    if t == INT then Str(n) else Hex(n)
  }

  // A value out of range is replaced by the bound it exceeds, in a standard form.
  function Clamp(t: Type, base: nat, b: Bounds, val: string): string {
    var n := NumOrZero(val, base);
    if b.Bounds? && n < b.low then NumToString(t, b.low)
    else if b.Bounds? && n > b.high then NumToString(t, b.high)
    else val
  }

  datatype Text = Text(val: string, write: bool)

  function DefaultStr(k: Config, v: Valuation, ds: seq<Default>): Option<string> {
    var d := ActiveDefault(k, v, ds);
    if d.None? then None else if d.value.value.Ref? then Some(ValOf(v, d.value.value.id).str) else Some("")
  }

  // A user value that is visible, not empty and in range.
  predicate UserNumberOk(us: Users, vis: Tri, x: Id, base: nat, b: Bounds) {
    var user := UserOf(us, x).Str();
    vis != 0 && user.Some? && user.value != "" && InBounds(b, NumOrZero(user.value, base))
  }

  function NumberText(k: Config, us: Users, v: Valuation, x: Id): Text {
    var it := k.Item(x);
    var vis := ValOf(v, x).vis;
    if !it.Symbol? then Text("", false)
    else
      var b := ActiveRange(k, v, it.ranges, it.Base());
      if UserNumberOk(us, vis, x, it.Base(), b) then
        Text(UserOf(us, x).Str().value, true)
      else
        var d := DefaultStr(k, v, it.defaults);
        Text(Clamp(it.origType, it.Base(), b, if d.Some? then d.value else ""), vis != 0 || d.Some?)
  }

  function StringText(k: Config, us: Users, v: Valuation, x: Id): Text {
    var it := k.Item(x);
    var vis := ValOf(v, x).vis;
    var user := UserOf(us, x).Str();
    if !it.Symbol? then Text("", false)
    else if vis != 0 && user.Some? then Text(user.value, true)
    else
      var d := DefaultStr(k, v, it.defaults);
      Text(if d.Some? then d.value else "", vis != 0 || d.Some?)
  }

  // Symbol.str_value
  function SymText(k: Config, us: Users, v: Valuation, x: Id): Text {
    var it := k.Item(x);
    if !it.Symbol? || it.Logical() then Text(TriToStr(ValOf(v, x).tri), false)
    else if it.origType == UNKNOWN then Text(it.name, false)
    else
      var t := if it.Numeric() then NumberText(k, us, v, x) else StringText(k, us, v, x);
      if it.noConf then t.(write := false) else t
  }

  // Symbol._assignable()
  function SymAssignable(k: Config, v: Valuation, x: Id): seq<Tri> {
    var it := k.Item(x);
    if !it.Symbol? || !it.Logical() || ValOf(v, x).vis == 0 then []
    else Levels(k, v, x, ExprValue(k, v, it.revDep))
  }

  // The assignable values of a visible symbol that is selected with value `rev`.
  function Levels(k: Config, v: Valuation, x: Id, rev: Tri): seq<Tri> {
    var it := k.Item(x);
    if ValOf(v, x).vis == 2 then
      if it.InChoice() || rev == 2 then [2]
      else if rev == 0 then (if NeverM(k, v, x) then [0, 2] else [0, 1, 2])
      else if NeverM(k, v, x) then [2] else [1, 2]
    else if rev == 0 then
      if it.Symbol? && ExprValue(k, v, it.weakRevDep) == 2 then [0, 2] else [0, 1]
    else if rev == 2 then [2]
    else [1]
  }

  // Choice._assignable()
  function ChoiceAssignable(k: Config, v: Valuation, c: Id): seq<Tri> {
    var it := k.Item(c);
    var vis := ValOf(v, c).vis;
    var optional := it.Choice? && it.optional;
    if vis == 0 then []
    else if vis == 2 then
      if !optional then (if TypeOf(k, v, c) == BOOL then [2] else [1, 2])
      else if TypeOf(k, v, c) == BOOL then [0, 2] else [0, 1, 2]
    else if optional then [0, 1] else [1]
  }

  // All the properties of one item, given those of the others.
  function Compute(k: Config, us: Users, v: Valuation, x: Id): Val {
    if k.Item(x).Choice? then
      Val(Visibility(k, v, x), Mode(k, us, v, x), TriToStr(ValOf(v, x).tri),
          ChoiceAssignable(k, v, x), Selection(k, us, v, x), false)
    else
      var t, s := SymTri(k, us, v, x), SymText(k, us, v, x);
      Val(Visibility(k, v, x), t.val, s.val, SymAssignable(k, v, x), None,
          if k.Item(x).Logical() then t.write else s.write)
  }

  // The valuation that satisfies all the equations.
  ghost predicate Solves(k: Config, us: Users, v: Valuation) {
    |v| == |k.items| && forall x: Id :: x < |k.items| ==> v[x] == Compute(k, us, v, x)
  }
}
