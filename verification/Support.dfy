/** Which cached values a computation reads.

    Evaluation short-circuits, so what is read depends on the values met on the way.  `Supported`
    says that every cached value actually read to compute one property of one item is present. */
module Support {
  import opened Wrappers
  import opened Model
  import opened Values

  // The _cached_* attributes of an item, None when invalidated, and _write_to_conf.
  datatype Cells = Cells(vis: Option<Tri>, tri: Option<Tri>, str: Option<string>,
                         asg: Option<seq<Tri>>, sel: Option<Option<Id>>, write: bool)

  type Cache = seq<Cells>

  const NO_CELLS := Cells(None, None, None, None, None, false)

  function CellsOf(c: Cache, x: Id): Cells {
    if x < |c| then c[x] else NO_CELLS
  }

  // User values, the valuation they give rise to, and a cache.
  datatype State = State(us: Users, v: Valuation, c: Cache)

  predicate VisLive(s: State, x: Id) { CellsOf(s.c, x).vis.Some? }
  predicate TriLive(s: State, x: Id) { CellsOf(s.c, x).tri.Some? }
  predicate StrLive(s: State, x: Id) { CellsOf(s.c, x).str.Some? }
  predicate AsgLive(s: State, x: Id) { CellsOf(s.c, x).asg.Some? }
  predicate SelLive(s: State, x: Id) { CellsOf(s.c, x).sel.Some? }

  // The mode of a choice is not cached: it is recomputed from the visibility and maybe from MODULES.
  predicate ModeReadable(k: Config, s: State, c: Id) {
    && VisLive(s, c)
    && (ModeBefore(k, s.us, s.v, c) == 1 && k.Item(c).origType == TRISTATE ==> TriLive(s, k.modules))
  }

  predicate TriReadable(k: Config, s: State, x: Id) {
    if k.Item(x).Choice? then ModeReadable(k, s, x) else TriLive(s, x)
  }

  predicate NumReadable(k: Config, s: State, x: Id) {
    if k.Item(x).Logical() then TriLive(s, x) else StrLive(s, x)
  }

  predicate NumsReadable(k: Config, s: State, a: Id, b: Id) {
    NumReadable(k, s, a) && (SymToNum(k, s.v, a).Some? ==> NumReadable(k, s, b))
  }

  predicate DifferenceRead(k: Config, s: State, a: Id, b: Id, d: Option<int>) {
    d == Difference(k, s.v, a, b) && NumsReadable(k, s, a, b)
  }

  predicate RelSupported(k: Config, s: State, a: Id, b: Id) {
    if k.Item(a).origType == STRING && k.Item(b).origType == STRING then
      StrLive(s, a) && StrLive(s, b)
    else
      NumsReadable(k, s, a, b) && (Difference(k, s.v, a, b).None? ==> StrLive(s, a) && StrLive(s, b))
  }

  predicate ExprSupported(k: Config, s: State, e: Expr) {
    match e
    case Ref(id) => TriReadable(k, s, id)
    case And(l, r) => ExprSupported(k, s, l) && (ExprValue(k, s.v, l) != 0 ==> ExprSupported(k, s, r))
    case Or(l, r) => ExprSupported(k, s, l) && (ExprValue(k, s.v, l) != 2 ==> ExprSupported(k, s, r))
    case Not(o) => ExprSupported(k, s, o)
    case Rel(_, l, r) => RelSupported(k, s, l, r)
  }

  predicate TypeSupported(k: Config, s: State, x: Id) {
    var it := k.Item(x);
    it.origType == TRISTATE ==>
      && (it.InChoice() ==> ModeReadable(k, s, it.choice.value))
      && ((it.InChoice() && ValOf(s.v, it.choice.value).tri == 2) || TriLive(s, k.modules))
  }

  predicate TypeRead(k: Config, s: State, x: Id, t: Type) {
    t == TypeOf(k, s.v, x) && TypeSupported(k, s, x)
  }

  predicate PromptsSupported(k: Config, s: State, prompts: seq<Expr>) {
    forall e :: e in prompts ==> ExprSupported(k, s, e)
  }

  predicate HiddenSupported(k: Config, s: State, x: Id, vis: Tri) {
    var it := k.Item(x);
    it.InChoice() && (if it.origType == TRISTATE then vis == 1 else k.Item(it.choice.value).origType == TRISTATE) ==>
      ModeReadable(k, s, it.choice.value)
  }

  predicate VisSupported(k: Config, s: State, x: Id) {
    var it := k.Item(x);
    var vis := PromptMax(k, s.v, it.prompts);
    && PromptsSupported(k, s, it.prompts)
    && HiddenSupported(k, s, x, vis)
    && (!HiddenByMode(k, s.v, x, vis) && vis == 1 ==> TypeSupported(k, s, x))
  }

  predicate FirstDefaultSupported(k: Config, s: State, ds: seq<ChoiceDefault>) {
    ds == [] ||
    (&& ExprSupported(k, s, ds[0].cond)
     && (ExprValue(k, s.v, ds[0].cond) != 0 ==> VisLive(s, ds[0].sym))
     && (ExprValue(k, s.v, ds[0].cond) == 0 || ValOf(s.v, ds[0].sym).vis == 0 ==>
           FirstDefaultSupported(k, s, ds[1..])))
  }

  predicate FirstVisibleSupported(s: State, syms: seq<Id>) {
    syms == [] || (VisLive(s, syms[0]) && (ValOf(s.v, syms[0]).vis == 0 ==> FirstVisibleSupported(s, syms[1..])))
  }

  predicate DefaultSelectionSupported(k: Config, s: State, c: Id) {
    var it := k.Item(c);
    it.Choice? ==>
      && FirstDefaultSupported(k, s, it.choiceDefaults)
      && (FirstDefault(k, s.v, it.choiceDefaults).None? ==> FirstVisibleSupported(s, it.syms))
  }

  predicate SelSupported(k: Config, s: State, c: Id) {
    var chosen := UserOf(s.us, c).selection;
    && ModeReadable(k, s, c)
    && (ValOf(s.v, c).tri == 2 ==>
          && (chosen.Some? ==> VisLive(s, chosen.value))
          && (chosen.None? || ValOf(s.v, chosen.value).vis == 0 ==> DefaultSelectionSupported(k, s, c)))
  }

  predicate ActiveDefaultSupported(k: Config, s: State, ds: seq<Default>) {
    ds == [] ||
    (&& ExprSupported(k, s, ds[0].cond)
     && (ExprValue(k, s.v, ds[0].cond) == 0 ==> ActiveDefaultSupported(k, s, ds[1..])))
  }

  predicate DefaultTriSupported(k: Config, s: State, ds: seq<Default>) {
    var d := ActiveDefault(k, s.v, ds);
    ActiveDefaultSupported(k, s, ds) && (d.Some? ==> ExprSupported(k, s, d.value.value))
  }

  predicate ImpliedSupported(k: Config, s: State, x: Id) {
    k.Item(x).Symbol? ==>
      && ExprSupported(k, s, k.Item(x).weakRevDep)
      && (ExprValue(k, s.v, k.Item(x).weakRevDep) != 0 ==> ExprSupported(k, s, k.Item(x).directDep))
  }

  predicate BaseTriSupported(k: Config, s: State, x: Id) {
    var it := k.Item(x);
    && VisLive(s, x)
    && (it.Symbol? && (ValOf(s.v, x).vis == 0 || UserOf(s.us, x).Tri().None?) ==>
          && DefaultTriSupported(k, s, it.defaults)
          && ImpliedSupported(k, s, x))
  }

  predicate BaseTriRead(k: Config, s: State, x: Id, t: Tri2) {
    t == BaseTri(k, s.us, s.v, x) && BaseTriSupported(k, s, x)
  }

  predicate NeverMSupported(k: Config, s: State, x: Id) {
    && TypeSupported(k, s, x)
    && (k.Item(x).Symbol? && TypeOf(k, s.v, x) != BOOL ==> ExprSupported(k, s, k.Item(x).weakRevDep))
  }

  predicate SelectedTriSupported(k: Config, s: State, x: Id) {
    BaseTriSupported(k, s, x) && (k.Item(x).Symbol? ==> ExprSupported(k, s, k.Item(x).revDep))
  }

  predicate FreeTriSupported(k: Config, s: State, x: Id) {
    && SelectedTriSupported(k, s, x)
    && (SelectedTri(k, s.us, s.v, x).val == 1 ==> NeverMSupported(k, s, x))
  }

  predicate TriSupported(k: Config, s: State, x: Id) {
    var it := k.Item(x);
    it.Symbol? && it.Logical() && !it.Preset() ==>
      if it.InChoice() then
        VisLive(s, x) && (ValOf(s.v, x).vis == 2 ==> SelLive(s, it.choice.value))
      else
        FreeTriSupported(k, s, x)
  }

  predicate ActiveRangeSupported(k: Config, s: State, rs: seq<Range>) {
    rs == [] ||
    (&& ExprSupported(k, s, rs[0].cond)
     && (if ExprValue(k, s.v, rs[0].cond) != 0 then StrLive(s, rs[0].low) && StrLive(s, rs[0].high)
         else ActiveRangeSupported(k, s, rs[1..])))
  }

  predicate DefaultStrSupported(k: Config, s: State, ds: seq<Default>) {
    var d := ActiveDefault(k, s.v, ds);
    && ActiveDefaultSupported(k, s, ds)
    && (d.Some? && d.value.value.Ref? ==> StrLive(s, d.value.value.id))
  }

  predicate NumberSupported(k: Config, s: State, x: Id) {
    var it := k.Item(x);
    it.Symbol? ==>
      && VisLive(s, x)
      && ActiveRangeSupported(k, s, it.ranges)
      && (UserNumberOk(s.us, ValOf(s.v, x).vis, x, it.Base(), ActiveRange(k, s.v, it.ranges, it.Base()))
          || DefaultStrSupported(k, s, it.defaults))
  }

  predicate NumberRead(k: Config, s: State, x: Id, t: Text) {
    t == NumberText(k, s.us, s.v, x) && NumberSupported(k, s, x)
  }

  predicate StringSupported(k: Config, s: State, x: Id) {
    var it := k.Item(x);
    it.Symbol? ==>
      && VisLive(s, x)
      && (ValOf(s.v, x).vis == 0 || UserOf(s.us, x).Str().None? ==> DefaultStrSupported(k, s, it.defaults))
  }

  predicate StrSupported(k: Config, s: State, x: Id) {
    var it := k.Item(x);
    if it.Logical() then TriLive(s, x)
    else it.origType != UNKNOWN ==> if it.Numeric() then NumberSupported(k, s, x) else StringSupported(k, s, x)
  }

  predicate SymAsgSupported(k: Config, s: State, x: Id) {
    var it := k.Item(x);
    it.Symbol? && it.Logical() ==>
      && VisLive(s, x)
      && (ValOf(s.v, x).vis != 0 ==> ExprSupported(k, s, it.revDep) && LevelsSupported(k, s, x))
  }

  predicate LevelsSupported(k: Config, s: State, x: Id) {
    var it := k.Item(x);
    it.Symbol? ==>
      var rev := ExprValue(k, s.v, it.revDep);
      if ValOf(s.v, x).vis == 2 then it.choice.None? && rev != 2 ==> NeverMSupported(k, s, x)
      else rev == 0 ==> ExprSupported(k, s, it.weakRevDep)
  }

  predicate AsgSupported(k: Config, s: State, x: Id) {
    if k.Item(x).Choice? then VisLive(s, x) && (ValOf(s.v, x).vis == 2 ==> TypeSupported(k, s, x))
    else SymAsgSupported(k, s, x)
  }

  // ---------- Loops that stop at the first entry that applies ----------

  // The first `i` defaults of a choice have been tried, and none of them applies.
  predicate DefaultsTried(k: Config, s: State, ds: seq<ChoiceDefault>, i: nat)
    requires i <= |ds|
  {
    forall j :: 0 <= j < i ==>
      && ExprSupported(k, s, ds[j].cond)
      && (ExprValue(k, s.v, ds[j].cond) != 0 ==> VisLive(s, ds[j].sym) && ValOf(s.v, ds[j].sym).vis == 0)
  }

  lemma {:induction false} AfterTriedDefaults(k: Config, s: State, ds: seq<ChoiceDefault>, i: nat)
    requires i <= |ds| && DefaultsTried(k, s, ds, i) && FirstDefaultSupported(k, s, ds[i..])
    ensures FirstDefaultSupported(k, s, ds) && FirstDefault(k, s.v, ds) == FirstDefault(k, s.v, ds[i..])
    decreases i
  {
    if i == 0 {
      assert ds[0..] == ds;
    } else {
      assert ds[i - 1..][1..] == ds[i..];
      AfterTriedDefaults(k, s, ds, i - 1);
    }
  }

  lemma OneMoreDefaultTried(k: Config, s: State, ds: seq<ChoiceDefault>, i: nat)
    requires i < |ds| && DefaultsTried(k, s, ds, i) && ExprSupported(k, s, ds[i].cond)
    requires ExprValue(k, s.v, ds[i].cond) != 0 ==> VisLive(s, ds[i].sym) && ValOf(s.v, ds[i].sym).vis == 0
    ensures DefaultsTried(k, s, ds, i + 1)
  {
  }

  lemma DefaultFound(k: Config, s: State, ds: seq<ChoiceDefault>, i: nat)
    requires i < |ds| && DefaultsTried(k, s, ds, i)
    requires ExprSupported(k, s, ds[i].cond) && ExprValue(k, s.v, ds[i].cond) != 0
    requires VisLive(s, ds[i].sym) && ValOf(s.v, ds[i].sym).vis != 0
    ensures FirstDefaultSupported(k, s, ds) && FirstDefault(k, s.v, ds) == Some(ds[i].sym)
  {
    AfterTriedDefaults(k, s, ds, i);
  }

  lemma NoDefaultFound(k: Config, s: State, ds: seq<ChoiceDefault>)
    requires DefaultsTried(k, s, ds, |ds|)
    ensures FirstDefaultSupported(k, s, ds) && FirstDefault(k, s.v, ds) == None
  {
    AfterTriedDefaults(k, s, ds, |ds|);
  }

  predicate SymsTried(s: State, syms: seq<Id>, i: nat)
    requires i <= |syms|
  {
    forall j :: 0 <= j < i ==> VisLive(s, syms[j]) && ValOf(s.v, syms[j]).vis == 0
  }

  lemma {:induction false} AfterTriedSyms(s: State, syms: seq<Id>, i: nat)
    requires i <= |syms| && SymsTried(s, syms, i) && FirstVisibleSupported(s, syms[i..])
    ensures FirstVisibleSupported(s, syms) && FirstVisible(s.v, syms) == FirstVisible(s.v, syms[i..])
    decreases i
  {
    if i == 0 {
      assert syms[0..] == syms;
    } else {
      assert syms[i - 1..][1..] == syms[i..];
      AfterTriedSyms(s, syms, i - 1);
    }
  }

  lemma OneMoreSymTried(s: State, syms: seq<Id>, i: nat)
    requires i < |syms| && SymsTried(s, syms, i) && VisLive(s, syms[i]) && ValOf(s.v, syms[i]).vis == 0
    ensures SymsTried(s, syms, i + 1)
  {
  }

  lemma SymFound(s: State, syms: seq<Id>, i: nat)
    requires i < |syms| && SymsTried(s, syms, i) && VisLive(s, syms[i]) && ValOf(s.v, syms[i]).vis != 0
    ensures FirstVisibleSupported(s, syms) && FirstVisible(s.v, syms) == Some(syms[i])
  {
    AfterTriedSyms(s, syms, i);
  }

  lemma NoSymFound(s: State, syms: seq<Id>)
    requires SymsTried(s, syms, |syms|)
    ensures FirstVisibleSupported(s, syms) && FirstVisible(s.v, syms) == None
  {
    AfterTriedSyms(s, syms, |syms|);
  }

  // The first `i` conditions evaluate to n.
  predicate ConditionsFail(k: Config, s: State, conds: seq<Expr>, i: nat)
    requires i <= |conds|
  {
    forall j :: 0 <= j < i ==> ExprSupported(k, s, conds[j]) && ExprValue(k, s.v, conds[j]) == 0
  }

  function Conds(ds: seq<Default>): seq<Expr> {
    seq(|ds|, i requires 0 <= i < |ds| => ds[i].cond)
  }

  function RangeConds(rs: seq<Range>): seq<Expr> {
    seq(|rs|, i requires 0 <= i < |rs| => rs[i].cond)
  }

  lemma {:induction false} AfterFailedDefaults(k: Config, s: State, ds: seq<Default>, i: nat)
    requires i <= |ds| && ConditionsFail(k, s, Conds(ds), i) && ActiveDefaultSupported(k, s, ds[i..])
    ensures ActiveDefaultSupported(k, s, ds) && ActiveDefault(k, s.v, ds) == ActiveDefault(k, s.v, ds[i..])
    decreases i
  {
    if i == 0 {
      assert ds[0..] == ds;
    } else {
      assert ds[i - 1..][1..] == ds[i..];
      assert ds[i - 1].cond == Conds(ds)[i - 1];
      AfterFailedDefaults(k, s, ds, i - 1);
    }
  }

  lemma {:induction false} AfterFailedRanges(k: Config, s: State, rs: seq<Range>, base: nat, i: nat)
    requires i <= |rs| && ConditionsFail(k, s, RangeConds(rs), i) && ActiveRangeSupported(k, s, rs[i..])
    ensures ActiveRangeSupported(k, s, rs)
    ensures ActiveRange(k, s.v, rs, base) == ActiveRange(k, s.v, rs[i..], base)
    decreases i
  {
    if i == 0 {
      assert rs[0..] == rs;
    } else {
      assert rs[i - 1..][1..] == rs[i..];
      assert rs[i - 1].cond == RangeConds(rs)[i - 1];
      AfterFailedRanges(k, s, rs, base, i - 1);
    }
  }

  lemma OneMoreConditionFails(k: Config, s: State, conds: seq<Expr>, i: nat)
    requires i < |conds| && ConditionsFail(k, s, conds, i)
    requires ExprSupported(k, s, conds[i]) && ExprValue(k, s.v, conds[i]) == 0
    ensures ConditionsFail(k, s, conds, i + 1)
  {
  }

  lemma ActiveDefaultFound(k: Config, s: State, ds: seq<Default>, i: nat)
    requires i < |ds| && ConditionsFail(k, s, Conds(ds), i)
    requires ExprSupported(k, s, ds[i].cond) && ExprValue(k, s.v, ds[i].cond) != 0
    ensures ActiveDefaultSupported(k, s, ds) && ActiveDefault(k, s.v, ds) == Some(ds[i])
  {
    AfterFailedDefaults(k, s, ds, i);
  }

  lemma NoActiveDefault(k: Config, s: State, ds: seq<Default>)
    requires ConditionsFail(k, s, Conds(ds), |ds|)
    ensures ActiveDefaultSupported(k, s, ds) && ActiveDefault(k, s.v, ds) == None
  {
    AfterFailedDefaults(k, s, ds, |ds|);
  }

  lemma ActiveRangeFound(k: Config, s: State, rs: seq<Range>, base: nat, i: nat)
    requires i < |rs| && ConditionsFail(k, s, RangeConds(rs), i)
    requires ExprSupported(k, s, rs[i].cond) && ExprValue(k, s.v, rs[i].cond) != 0
    requires StrLive(s, rs[i].low) && StrLive(s, rs[i].high)
    ensures ActiveRangeSupported(k, s, rs)
    ensures ActiveRange(k, s.v, rs, base)
         == Bounds(NumOrZero(ValOf(s.v, rs[i].low).str, base), NumOrZero(ValOf(s.v, rs[i].high).str, base))
  {
    AfterFailedRanges(k, s, rs, base, i);
  }

  lemma NoActiveRange(k: Config, s: State, rs: seq<Range>, base: nat)
    requires ConditionsFail(k, s, RangeConds(rs), |rs|)
    ensures ActiveRangeSupported(k, s, rs) && ActiveRange(k, s.v, rs, base) == Unbounded
  {
    AfterFailedRanges(k, s, rs, base, |rs|);
  }
}
