/** The lazily evaluated configuration: symbols and choices with cached values, which user assignments
    invalidate. */
module Engine {
  import opened Wrappers
  import opened Model
  import opened Numbers
  import opened Values
  import opened Support
  import opened Transfer
  import opened Reference
  import opened CacheInvariant
  import opened Assignments
  import opened Persistence

  // The changing part of a Symbol or Choice object.
  class SymbolOrChoice {
    var userValue: Option<UserValue>
    var userSelection: Option<Id>
    var wasSet: bool
    var cachedVis: Option<Tri>
    var cachedTri: Option<Tri>
    var cachedStr: Option<string>
    var cachedAssignable: Option<seq<Tri>>
    var cachedSelection: Option<Option<Id>>
    var writeToConf: bool
    var dependents: set<Id>

    constructor (preset: Option<Tri>)
      ensures userValue == None && userSelection == None && !wasSet && dependents == {}
      ensures cachedVis == None && cachedTri == preset && cachedStr == None
      ensures cachedAssignable == None && cachedSelection == None && !writeToConf
    {
      userValue, userSelection, wasSet := None, None, false;
      cachedVis, cachedTri, cachedStr := None, preset, None;
      cachedAssignable, cachedSelection, writeToConf := None, None, false;
      dependents := {};
    }

    ghost function CellsNow(): Cells
      reads this
    {
      Cells(cachedVis, cachedTri, cachedStr, cachedAssignable, cachedSelection, writeToConf)
    }

    ghost function UserNow(): User
      reads this
    {
      User(userValue, userSelection)
    }

    ghost function SettingNow(): Setting
      reads this
    {
      Setting(UserNow(), wasSet, dependents)
    }
  }

  class Kconfig {
    const k: Config
    const items: seq<SymbolOrChoice>

    ghost predicate Shape() {
      |items| == |k.items| && forall i, j :: 0 <= i < j < |items| ==> items[i] != items[j]
    }

    // What all the objects hold, side by side.
    ghost var cache: Cache
    ghost var settings: seq<Setting>

    ghost predicate Coupled()
      reads this, items
    {
      && Shape() && |cache| == |settings| == |items|
      && forall x: Id :: x < |items| ==> items[x].CellsNow() == cache[x] && items[x].SettingNow() == settings[x]
    }

    // The user values, what they mean, and what is cached.
    ghost function S(): State
      reads this
    {
      Now(k, UsersIn(settings), cache)
    }

    ghost predicate Valid()
      reads this, items
    {
      Coupled() && Coherent(k, settings, cache)
    }

    // ---------- Setting up ----------

    static method NewItems(k: Config) returns (items: seq<SymbolOrChoice>)
      ensures |items| == |k.items| && forall i, j :: 0 <= i < j < |items| ==> items[i] != items[j]
      ensures forall i: Id :: i < |items| ==> fresh(items[i])
      ensures forall i: Id :: i < |items| ==>
        items[i].CellsNow() == InitialCells(k.Item(i)) && items[i].SettingNow() == INITIAL_SETTING
    {
      items := [];
      for i := 0 to |k.items|
        invariant |items| == i && forall j: Id, l: Id :: j < l < i ==> items[j] != items[l]
        invariant forall j: Id :: j < i ==> fresh(items[j])
        invariant forall j: Id :: j < i ==>
          items[j].CellsNow() == InitialCells(k.Item(j)) && items[j].SettingNow() == INITIAL_SETTING
      {
        var item := new SymbolOrChoice(if k.items[i].Symbol? then k.items[i].preset else None);
        items := items + [item];
      }
    }

    constructor (k: Config)
      requires WellFormed(k) && Ordered(k)
      ensures Valid() && this.k == k && fresh(items)
      ensures UsersIn(settings) == seq(|k.items|, _ => NO_USER)
    {
      var its := NewItems(k);
      this.k := k;
      items := its;
      cache := InitialCache(k);
      settings := seq(|k.items|, _ => INITIAL_SETTING);
      new;
      BuiltNone(k);
      BuildDep();
      AddChoiceDeps();
      AllLinked(k);
      InitiallyCoherent(k, settings);
    }

    // _make_depend_on()
    method MakeDependOn(sc: Id, e: Expr)
      requires Coupled() && Refs(e) <= Ids(k)
      modifies this, items
      ensures Coupled() && cache == old(cache) && settings == AddEdges(k, old(settings), sc, Refs(e))
    {
      match e
      case Ref(id) =>
        assert id in Ids(k);
        AddDependent(sc, id);
      case And(left, right) =>
        MakeDependOn(sc, left);
        MakeDependOn(sc, right);
      case Or(left, right) =>
        MakeDependOn(sc, left);
        MakeDependOn(sc, right);
      case Not(o) =>
        MakeDependOn(sc, o);
      case Rel(_, left, right) =>
        assert left in Ids(k) && right in Ids(k);
        AddDependent(sc, left);
        AddDependent(sc, right);
    }

    method AddDependent(sc: Id, x: Id)
      requires Coupled() && x < |items|
      modifies this, items
      ensures Coupled() && cache == old(cache) && settings == AddEdges(k, old(settings), sc, {x})
    {
      if !k.Item(x).Constant() {
        items[x].dependents := items[x].dependents + {sc};
        settings := settings[x := settings[x].(dependents := settings[x].dependents + {sc})];
      }
    }

    method DependOnPrompts(sc: Id, prompts: seq<Expr>)
      requires Coupled() && AllRefs(prompts) <= Ids(k)
      modifies this, items
      ensures Coupled() && cache == old(cache) && settings == AddEdges(k, old(settings), sc, AllRefs(prompts))
    {
      AddNoEdges(k, settings, sc);
      for i := 0 to |prompts|
        invariant Coupled() && cache == old(cache)
        invariant settings == AddEdges(k, old(settings), sc, AllRefs(prompts[..i]))
      {
        PromptRefsSnoc(prompts, i);
        AddMoreEdges(k, old(settings), sc, AllRefs(prompts[..i]), Refs(prompts[i]));
        MakeDependOn(sc, prompts[i]);
      }
      assert prompts[..|prompts|] == prompts;
    }

    method DependOnDefaults(sc: Id, ds: seq<Default>)
      requires Coupled() && DefaultRefs(ds) <= Ids(k)
      modifies this, items
      ensures Coupled() && cache == old(cache) && settings == AddEdges(k, old(settings), sc, DefaultRefs(ds))
    {
      AddNoEdges(k, settings, sc);
      for i := 0 to |ds|
        invariant Coupled() && cache == old(cache)
        invariant settings == AddEdges(k, old(settings), sc, DefaultRefs(ds[..i]))
      {
        DefaultRefsSnoc(ds, i);
        AddMoreEdges(k, old(settings), sc, DefaultRefs(ds[..i]), Refs(ds[i].value));
        AddMoreEdges(k, old(settings), sc, DefaultRefs(ds[..i]) + Refs(ds[i].value), Refs(ds[i].cond));
        MakeDependOn(sc, ds[i].value);
        MakeDependOn(sc, ds[i].cond);
      }
      assert ds[..|ds|] == ds;
    }

    method DependOnRanges(sc: Id, rs: seq<Range>)
      requires Coupled() && RangeRefs(rs) <= Ids(k)
      modifies this, items
      ensures Coupled() && cache == old(cache) && settings == AddEdges(k, old(settings), sc, RangeRefs(rs))
    {
      AddNoEdges(k, settings, sc);
      for i := 0 to |rs|
        invariant Coupled() && cache == old(cache)
        invariant settings == AddEdges(k, old(settings), sc, RangeRefs(rs[..i]))
      {
        RangeRefsSnoc(rs, i);
        ghost var done := RangeRefs(rs[..i]);
        AddMoreEdges(k, old(settings), sc, done, Refs(Rel(EQUAL, rs[i].low, rs[i].high)));
        AddMoreEdges(k, old(settings), sc, done + {rs[i].low, rs[i].high}, Refs(rs[i].cond));
        MakeDependOn(sc, Rel(EQUAL, rs[i].low, rs[i].high));
        MakeDependOn(sc, rs[i].cond);
      }
      assert rs[..|rs|] == rs;
    }

    method DependOnConditions(sc: Id, ds: seq<ChoiceDefault>)
      requires Coupled() && CondRefs(ds) <= Ids(k)
      modifies this, items
      ensures Coupled() && cache == old(cache) && settings == AddEdges(k, old(settings), sc, CondRefs(ds))
    {
      AddNoEdges(k, settings, sc);
      for i := 0 to |ds|
        invariant Coupled() && cache == old(cache)
        invariant settings == AddEdges(k, old(settings), sc, CondRefs(ds[..i]))
      {
        CondRefsSnoc(ds, i);
        AddMoreEdges(k, old(settings), sc, CondRefs(ds[..i]), Refs(ds[i].cond));
        MakeDependOn(sc, ds[i].cond);
      }
      assert ds[..|ds|] == ds;
    }

    method DependOnDependencies(sc: Id, it: Model.Item)
      requires Coupled() && it.Symbol?
      requires Refs(it.revDep) + Refs(it.weakRevDep) + Refs(it.directDep) <= Ids(k)
      modifies this, items
      ensures Coupled() && cache == old(cache)
        && settings == AddEdges(k, old(settings), sc, Refs(it.revDep) + Refs(it.weakRevDep) + Refs(it.directDep))
    {
      MakeDependOn(sc, it.revDep);
      MakeDependOn(sc, it.weakRevDep);
      AddMoreEdges(k, old(settings), sc, Refs(it.revDep), Refs(it.weakRevDep));
      MakeDependOn(sc, it.directDep);
      AddMoreEdges(k, old(settings), sc, Refs(it.revDep) + Refs(it.weakRevDep), Refs(it.directDep));
    }

    method BuildItemDep(x: Id)
      requires Coupled() && x < |items| && ItemRefs(k.Item(x)) <= Ids(k)
      modifies this, items
      ensures Coupled() && cache == old(cache) && settings == AddEdges(k, old(settings), x, ItemRefs(k.Item(x)))
    {
      var it := k.Item(x);
      AddNoEdges(k, settings, x);
      if it.Choice? {
        DependOnPrompts(x, it.prompts);
        AddMoreEdges(k, old(settings), x, AllRefs(it.prompts), CondRefs(it.choiceDefaults));
        DependOnConditions(x, it.choiceDefaults);
      } else if it.defined {
        DependOnPrompts(x, it.prompts);
        DependOnDefaults(x, it.defaults);
        ghost var a := AllRefs(it.prompts) + DefaultRefs(it.defaults);
        AddMoreEdges(k, old(settings), x, AllRefs(it.prompts), DefaultRefs(it.defaults));
        DependOnDependencies(x, it);
        ghost var b := Refs(it.revDep) + Refs(it.weakRevDep) + Refs(it.directDep);
        AddMoreEdges(k, old(settings), x, a, b);
        DependOnRanges(x, it.ranges);
        AddMoreEdges(k, old(settings), x, a + b, RangeRefs(it.ranges));
        assert a + b + RangeRefs(it.ranges) == ItemRefs(it);
      }
    }

    method BuildDep()
      requires Coupled() && WellFormed(k) && settings == Built(k, 0)
      modifies this, items
      ensures Coupled() && cache == old(cache) && settings == Built(k, |k.items|)
    {
      for x := 0 to |items|
        invariant Coupled() && cache == old(cache) && settings == Built(k, x)
      {
        BuildOneDep(x);
      }
    }

    method BuildOneDep(x: Id)
      requires Coupled() && WellFormed(k) && x < |items| && settings == Built(k, x)
      modifies this, items
      ensures Coupled() && cache == old(cache) && settings == Built(k, x + 1)
    {
      RefsKnown(k, x);
      BuildItemDep(x);
      BuiltNext(k, x);
    }

    method AddChoiceDeps()
      requires Coupled() && WellFormed(k) && Ordered(k) && settings == Built(k, |k.items|)
      modifies this, items
      ensures Coupled() && cache == old(cache) && settings == Linked(k, |k.items|)
    {
      LinkedNone(k);
      for c := 0 to |items|
        invariant Coupled() && cache == old(cache) && settings == Linked(k, c)
      {
        LinkOne(c, c + 1);
      }
    }

    method LinkOne(c: Id, ghost next: nat)
      requires Coupled() && WellFormed(k) && Ordered(k) && c < |items| && settings == Linked(k, c) && next == c + 1
      modifies this, items
      ensures Coupled() && cache == old(cache) && settings == Linked(k, next)
    {
      LinkedNext(k, c);
      if k.Item(c).Choice? {
        ItemKnown(k, c);
        LinkChoice(c);
      }
    }

    method LinkChoice(c: Id)
      requires Coupled() && c < |items| && k.Item(c).Choice? && forall x :: x in k.Item(c).syms ==> x < |items|
      modifies this, items
      ensures Coupled() && cache == old(cache) && settings == LinkSyms(old(settings), c, k.Item(c).syms)
    {
      var syms := k.Item(c).syms;
      for i := 0 to |syms|
        invariant Coupled() && cache == old(cache) && settings == LinkSyms(old(settings), c, syms[..i])
      {
        assert syms[i] in syms;
        var s := syms[i];
        LinkedOneMore(old(settings), c, syms, i, i + 1);
        ghost var after := settings[s := settings[s].(dependents := settings[s].dependents + {c})];
        items[s].dependents := items[s].dependents + {c};
        settings := after;
      }
      assert syms[..|syms|] == syms;
    }

    // ---------- Reading values ----------

    // _sym_to_num()
    method EvalNum(x: Id) returns (n: Option<int>)
      requires Valid() && x < |items| && k.Item(x).Symbol?
      modifies this, items
      ensures Valid() && settings == old(settings) && Grows(old(cache), cache)
      ensures n == SymToNum(k, S().v, x) && NumReadable(k, S(), x)
      decreases k.Rank(x), 19
    {
      if k.Item(x).Logical() {
        var t := GetTriValue(x);
        n := Some(t);
      } else {
        var s := GetStrValue(x);
        n := ParseInt(s, k.Item(x).Base());
      }
    }

    // The difference of the operands of a relation, if both are numbers.
    method EvalDifference(a: Id, b: Id, ghost r: nat) returns (d: Option<int>)
      requires Valid() && a < |items| && b < |items| && k.Item(a).Symbol? && k.Item(b).Symbol?
      requires k.Rank(a) < r && k.Rank(b) < r
      modifies this, items
      ensures Valid() && settings == old(settings) && Grows(old(cache), cache)
      ensures DifferenceRead(k, S(), a, b, d)
      decreases r, 0
    {
      var n1 := EvalNum(a);
      if n1.None? {
        NoNumberRead(k, S(), a, b);
        return None;
      }
      ghost var c1 := cache;
      var n2 := EvalNum(b);
      NumbersRead(k, S(), c1, a, b, n1, n2);
      d := Subtract(n1, n2);
    }

    method EvalCompare(a: Id, b: Id, ghost r: nat) returns (comp: int)
      requires Valid() && a < |items| && b < |items| && k.Item(a).Symbol? && k.Item(b).Symbol?
      requires k.Rank(a) < r && k.Rank(b) < r
      modifies this, items
      ensures Valid() && settings == old(settings) && Grows(old(cache), cache)
      ensures comp == Compare(k, S().v, a, b) && RelSupported(k, S(), a, b)
      decreases r, 1
    {
      if k.Item(a).origType == STRING && k.Item(b).origType == STRING {
        var s1, s2 := GetStrValues(a, b, r);
        return StrCmp(s1, s2);
      }
      var d := EvalDifference(a, b, r);
      if d.Some? {
        return d.value;
      }
      ghost var c1 := cache;
      var s1, s2 := GetStrValues(a, b, r);
      GrowsTransitive(old(cache), c1, cache);
      NumsStay(k, S(), c1, a, b);
      comp := StrCmp(s1, s2);
    }

    // expr_value()
    method EvalExpr(e: Expr, ghost r: nat) returns (t: Tri)
      requires Valid() && Fits(k, r, e)
      modifies this, items
      ensures Valid() && settings == old(settings) && Grows(old(cache), cache)
      ensures t == ExprValue(k, S().v, e) && ExprSupported(k, S(), e)
      decreases r, 2, e
    {
      match e
      case Ref(id) =>
        assert id in Refs(e) && id in Ids(k);
        t := GetTriValue(id);
      case And(left, right) =>
        var v1 := EvalExpr(left, r);
        if v1 == 0 {
          return 0;
        }
        ghost var c1 := cache;
        var v2 := EvalExpr(right, r);
        GrowsTransitive(old(cache), c1, cache);
        ExprGrows(k, S().us, S().v, c1, cache, left);
        t := Min(v1, v2);
      case Or(left, right) =>
        var v1 := EvalExpr(left, r);
        if v1 == 2 {
          return 2;
        }
        ghost var c1 := cache;
        var v2 := EvalExpr(right, r);
        GrowsTransitive(old(cache), c1, cache);
        ExprGrows(k, S().us, S().v, c1, cache, left);
        t := Max(v1, v2);
      case Not(o) =>
        var v1 := EvalExpr(o, r);
        t := 2 - v1;
      case Rel(rel, a, b) =>
        assert a in Refs(e) && a in Ids(k) && b in Refs(e) && b in Ids(k);
        var comp := EvalCompare(a, b, r);
        t := if Holds(rel, comp) then 2 else 0;
    }

    // ---------- Visibility ----------

    method EvalPrompts(x: Id) returns (vis: Tri)
      requires Valid() && x < |items|
      modifies this, items
      ensures Valid() && settings == old(settings) && Grows(old(cache), cache)
      ensures vis == PromptMax(k, S().v, k.Item(x).prompts) && PromptsSupported(k, S(), k.Item(x).prompts)
      decreases k.Rank(x), 3
    {
      var prompts := k.Item(x).prompts;
      vis := 0;
      for i := 0 to |prompts|
        invariant Valid() && settings == old(settings) && Grows(old(cache), cache)
        invariant Max(vis, PromptMax(k, S().v, prompts[i..])) == PromptMax(k, S().v, prompts)
        invariant ExprsSupported(k, S(), prompts, i)
      {
        ghost var c1 := cache;
        PromptFits(k, x, i);
        var t := EvalExpr(prompts[i], k.Rank(x));
        ExprsStay(k, S().us, c1, cache, prompts, i);
        GrowsTransitive(old(cache), c1, cache);
        vis := Max(vis, t);
      }
    }

    // The `type` property.
    method GetType(x: Id) returns (t: Type)
      requires Valid() && x < |items| && !k.Item(x).Preset()
      modifies this, items
      ensures Valid() && settings == old(settings) && Grows(old(cache), cache)
      ensures TypeRead(k, S(), x, t)
      decreases k.Rank(x), 3
    {
      ItemKnown(k, x);
      t := k.Item(x).origType;
      if t != TRISTATE {
        PlainTypeRead(k, S(), x);
        return;
      }
      if k.Item(x).InChoice() {
        var mode := GetMode(k.Item(x).choice.value);
        if mode == 2 {
          MemberTypeRead(k, S(), x);
          return BOOL;
        }
      }
      ghost var c1 := cache;
      var modules := GetTriValue(k.modules);
      GrowsTransitive(old(cache), c1, cache);
      if k.Item(x).InChoice() {
        ModeStays(k, UsersIn(settings), c1, cache, k.Item(x).choice.value);
      }
      ModulesTypeRead(k, S(), x, modules);
      t := if modules == 0 then BOOL else TRISTATE;
    }

    // Whether the mode of its choice makes a choice symbol invisible.
    method EvalHidden(x: Id, vis: Tri) returns (hidden: bool)
      requires Valid() && x < |items|
      modifies this, items
      ensures Valid() && settings == old(settings) && Grows(old(cache), cache)
      ensures hidden == HiddenByMode(k, S().v, x, vis) && HiddenSupported(k, S(), x, vis)
      decreases k.Rank(x), 3
    {
      ItemKnown(k, x);
      var it := k.Item(x);
      hidden := false;
      if it.InChoice() {
        var c := it.choice.value;
        if it.origType != TRISTATE {
          if k.Item(c).origType == TRISTATE {
            var mode := GetMode(c);
            hidden := mode != 2;
          }
        } else if vis == 1 {
          var mode := GetMode(c);
          hidden := mode == 2;
        }
      }
    }

    // _visibility()
    method EvalVisibility(x: Id) returns (vis: Tri)
      requires Valid() && x < |items|
      modifies this, items
      ensures Valid() && settings == old(settings) && Grows(old(cache), cache)
      ensures vis == Visibility(k, S().v, x) && VisSupported(k, S(), x)
      decreases k.Rank(x), 4
    {
      ghost var us := UsersIn(settings);
      vis := EvalPrompts(x);
      ghost var c1 := cache;
      var hidden := EvalHidden(x, vis);
      GrowsTransitive(old(cache), c1, cache);
      PromptsStay(k, us, c1, cache, x);
      if hidden {
        return 0;
      }
      if vis == 1 {
        ghost var c2 := cache;
        if k.Item(x).Preset() {
          PresetInvisible(k, S().v, x);
        }
        var t := GetType(x);
        GrowsTransitive(old(cache), c2, cache);
        PromptsStay(k, us, c2, cache, x);
        HiddenStays(k, us, c2, cache, x, 1);
        if t != TRISTATE {
          return 2;
        }
      }
    }

    // The `visibility` property.
    method GetVisibility(x: Id) returns (vis: Tri)
      requires Valid() && x < |items|
      modifies this, items
      ensures Valid() && settings == old(settings) && Grows(old(cache), cache)
      ensures vis == ValOf(S().v, x).vis && VisLive(S(), x)
      decreases k.Rank(x), 5
    {
      CachedOk(k, UsersIn(settings), cache, x);
      if items[x].cachedVis.Some? {
        return items[x].cachedVis.value;
      }
      vis := EvalVisibility(x);
      ghost var c1 := cache;
      StoreVisibility(x, vis);
      GrowsTransitive(old(cache), c1, cache);
    }

    method StoreVisibility(x: Id, vis: Tri)
      requires Valid() && x < |items|
      requires vis == Visibility(k, S().v, x) && VisSupported(k, S(), x)
      modifies this, items
      ensures Valid() && settings == old(settings) && Grows(old(cache), cache)
      ensures vis == ValOf(S().v, x).vis && VisLive(S(), x)
    {
      ghost var after := cache[x := cache[x].(vis := Some(vis))];
      AddVis(k, UsersIn(settings), cache, after, x, vis);
      items[x].cachedVis := Some(vis);
      cache := after;
    }

    // Choice.tri_value
    method GetMode(c: Id) returns (mode: Tri)
      requires Valid() && c < |items| && k.Item(c).Choice?
      modifies this, items
      ensures Valid() && settings == old(settings) && Grows(old(cache), cache)
      ensures mode == ValOf(S().v, c).tri && ModeReadable(k, S(), c)
      decreases k.Rank(c), 6
    {
      mode := if k.Item(c).optional then 0 else 1;
      if items[c].userValue.Some? && items[c].userValue.value.TriValue? {
        mode := Max(mode, items[c].userValue.value.tri);
      }
      ghost var us := UsersIn(settings);
      assert UserOf(us, c) == items[c].UserNow();
      SolvedChoice(k, us, c);
      var vis := GetVisibility(c);
      mode := Min(mode, vis);
      if mode == 1 {
        ghost var c1 := cache;
        var t := GetType(c);
        GrowsTransitive(old(cache), c1, cache);
        assert CellGrows(c1[c], cache[c]);
        if t == BOOL {
          mode := 2;
        }
      }
    }

    // ---------- Choice selection ----------

    // The first default selection whose condition holds and whose symbol is visible.
    method EvalFirstDefault(c: Id) returns (sel: Option<Id>)
      requires Valid() && c < |items| && k.Item(c).Choice?
      modifies this, items
      ensures Valid() && settings == old(settings) && Grows(old(cache), cache)
      ensures sel == FirstDefault(k, S().v, k.Item(c).choiceDefaults)
      ensures FirstDefaultSupported(k, S(), k.Item(c).choiceDefaults)
      decreases k.Rank(c) + 1, 7
    {
      var ds := k.Item(c).choiceDefaults;
      ghost var us := UsersIn(settings);
      for i := 0 to |ds|
        invariant Valid() && settings == old(settings) && Grows(old(cache), cache)
        invariant DefaultsTried(k, S(), ds, i)
      {
        ghost var c1 := cache;
        CondFits(k, c, i);
        var vis := EvalIfHolds(ds[i].cond, ds[i].sym, k.Rank(c));
        GrowsTransitive(old(cache), c1, cache);
        DefaultsTriedStay(k, us, c1, cache, c, i);
        if vis != 0 {
          DefaultFound(k, S(), ds, i);
          return Some(ds[i].sym);
        }
        OneMoreDefaultTried(k, S(), ds, i);
      }
      NoDefaultFound(k, S(), ds);
      sel := None;
    }

    // The visibility of `sym` if the condition holds, and otherwise n.
    method EvalIfHolds(cond: Expr, sym: Id, ghost r: nat) returns (vis: Tri)
      requires Valid() && Fits(k, r, cond) && sym < |items| && k.Rank(sym) == r + 1
      modifies this, items
      ensures Valid() && settings == old(settings) && Grows(old(cache), cache)
      ensures ExprSupported(k, S(), cond) && (ExprValue(k, S().v, cond) != 0 ==> VisLive(S(), sym))
      ensures vis == if ExprValue(k, S().v, cond) != 0 then ValOf(S().v, sym).vis else 0
      decreases r + 1, 6
    {
      var t := EvalExpr(cond, r);
      if t == 0 {
        return 0;
      }
      ghost var c1 := cache;
      vis := GetVisibility(sym);
      GrowsTransitive(old(cache), c1, cache);
      ExprStays(k, UsersIn(settings), c1, cache, r, cond);
    }

    method EvalFirstVisible(c: Id) returns (sel: Option<Id>)
      requires Valid() && c < |items| && k.Item(c).Choice?
      modifies this, items
      ensures Valid() && settings == old(settings) && Grows(old(cache), cache)
      ensures sel == FirstVisible(S().v, k.Item(c).syms) && FirstVisibleSupported(S(), k.Item(c).syms)
      decreases k.Rank(c) + 1, 7
    {
      var syms := k.Item(c).syms;
      ItemKnown(k, c);
      for i := 0 to |syms|
        invariant Valid() && settings == old(settings) && Grows(old(cache), cache)
        invariant SymsTried(S(), syms, i)
      {
        ghost var c1 := cache;
        assert syms[i] in syms;
        var vis := GetVisibility(syms[i]);
        GrowsTransitive(old(cache), c1, cache);
        SymsTriedStay(k, UsersIn(settings), c1, cache, syms, i);
        if vis != 0 {
          SymFound(S(), syms, i);
          return Some(syms[i]);
        }
        OneMoreSymTried(S(), syms, i);
      }
      NoSymFound(S(), syms);
      sel := None;
    }

    // Choice._get_selection_from_defaults()
    method GetSelectionFromDefaults(c: Id) returns (sel: Option<Id>)
      requires Valid() && c < |items| && k.Item(c).Choice?
      modifies this, items
      ensures Valid() && settings == old(settings) && Grows(old(cache), cache)
      ensures sel == SelectionFromDefaults(k, S().v, c) && DefaultSelectionSupported(k, S(), c)
      decreases k.Rank(c) + 1, 8
    {
      sel := EvalFirstDefault(c);
      if sel.None? {
        ghost var c1 := cache;
        sel := EvalFirstVisible(c);
        FirstDefaultStays(k, UsersIn(settings), c1, cache, c);
      }
    }

    // The user's selection, if it is visible.
    method EvalChosen(c: Id) returns (sel: Option<Id>)
      requires Valid() && c < |items| && k.Item(c).Choice?
      modifies this, items
      ensures Valid() && settings == old(settings) && Grows(old(cache), cache)
      ensures var chosen := UserOf(UsersIn(settings), c).selection;
        && (chosen.Some? ==> VisLive(S(), chosen.value))
        && sel == if chosen.Some? && ValOf(S().v, chosen.value).vis != 0 then chosen else None
      decreases k.Rank(c) + 1, 8
    {
      sel := items[c].userSelection;
      assert UserOf(UsersIn(settings), c) == items[c].UserNow();
      if sel.Some? {
        ChosenKnown(k, UsersIn(settings), c);
        var vis := GetVisibility(sel.value);
        if vis == 0 {
          sel := None;
        }
      }
    }

    // Choice._selection()
    method EvalSelection(c: Id) returns (sel: Option<Id>)
      requires Valid() && c < |items| && k.Item(c).Choice?
      modifies this, items
      ensures Valid() && settings == old(settings) && Grows(old(cache), cache)
      ensures sel == Selection(k, UsersIn(settings), S().v, c) && SelSupported(k, S(), c)
      decreases k.Rank(c) + 1, 9
    {
      ghost var us := UsersIn(settings);
      sel := None;
      var mode := GetMode(c);
      if mode == 2 {
        ghost var c1 := cache;
        sel := EvalChosen(c);
        GrowsTransitive(old(cache), c1, cache);
        ModeStays(k, us, c1, cache, c);
        if sel.None? {
          ghost var c2 := cache;
          sel := GetSelectionFromDefaults(c);
          GrowsTransitive(old(cache), c2, cache);
          ModeStays(k, us, c2, cache, c);
          ChosenStays(k, us, c2, cache, c);
        }
      }
    }

    method StoreSelection(c: Id, sel: Option<Id>)
      requires Valid() && c < |items| && k.Item(c).Choice?
      requires sel == Selection(k, UsersIn(settings), S().v, c) && SelSupported(k, S(), c)
      modifies this, items
      ensures Valid() && settings == old(settings) && Grows(old(cache), cache)
      ensures sel == ValOf(S().v, c).sel && SelLive(S(), c)
    {
      ghost var after := cache[c := cache[c].(sel := Some(sel))];
      AddSel(k, UsersIn(settings), cache, after, c, sel);
      items[c].cachedSelection := Some(sel);
      cache := after;
    }

    // The `selection` property.
    method GetSelection(c: Id) returns (sel: Option<Id>)
      requires Valid() && c < |items| && k.Item(c).Choice?
      modifies this, items
      ensures Valid() && settings == old(settings) && Grows(old(cache), cache)
      ensures sel == ValOf(S().v, c).sel && SelLive(S(), c)
      decreases k.Rank(c) + 1, 10
    {
      CachedOk(k, UsersIn(settings), cache, c);
      if items[c].cachedSelection.Some? {
        return items[c].cachedSelection.value;
      }
      sel := EvalSelection(c);
      ghost var c1 := cache;
      StoreSelection(c, sel);
      GrowsTransitive(old(cache), c1, cache);
    }

    // ---------- Symbol values ----------

    // The first default whose condition is not n, and the value of that condition.
    method EvalActiveDefault(x: Id) returns (d: Option<Default>, t: Tri)
      requires Valid() && x < |items| && k.Item(x).Symbol? && k.Item(x).defined
      modifies this, items
      ensures Valid() && settings == old(settings) && Grows(old(cache), cache)
      ensures d == ActiveDefault(k, S().v, k.Item(x).defaults)
      ensures ActiveDefaultSupported(k, S(), k.Item(x).defaults)
      ensures d.Some? ==> t == ExprValue(k, S().v, d.value.cond) && d.value in k.Item(x).defaults
      ensures d.Some? ==> Fits(k, k.Rank(x), d.value.value)
      decreases k.Rank(x), 7
    {
      var ds := k.Item(x).defaults;
      ghost var us := UsersIn(settings);
      for i := 0 to |ds|
        invariant Valid() && settings == old(settings) && Grows(old(cache), cache)
        invariant ConditionsFail(k, S(), Conds(ds), i)
      {
        ghost var c1 := cache;
        DefaultFits(k, x, i);
        t := EvalExpr(ds[i].cond, k.Rank(x));
        GrowsTransitive(old(cache), c1, cache);
        DefaultConditionsStay(k, us, c1, cache, x, i);
        if t != 0 {
          ActiveDefaultFound(k, S(), ds, i);
          return Some(ds[i]), t;
        }
        OneMoreConditionFails(k, S(), Conds(ds), i);
      }
      NoActiveDefault(k, S(), ds);
      return None, 0;
    }

    method EvalDefaultTri(x: Id) returns (t: Tri)
      requires Valid() && x < |items| && k.Item(x).Symbol? && k.Item(x).defined
      modifies this, items
      ensures Valid() && settings == old(settings) && Grows(old(cache), cache)
      ensures t == DefaultTri(k, S().v, k.Item(x).defaults)
      ensures DefaultTriSupported(k, S(), k.Item(x).defaults)
      decreases k.Rank(x), 8
    {
      var d, cond := EvalActiveDefault(x);
      t := 0;
      if d.Some? {
        ghost var c1 := cache;
        t := EvalExpr(d.value.value, k.Rank(x));
        t := Min(t, cond);
        ActiveDefaultStays(k, UsersIn(settings), c1, cache, x);
      }
    }

    // The weak reverse dependencies, as far as the direct dependencies allow.
    method EvalImplied(x: Id) returns (weak: Tri)
      requires Valid() && x < |items| && k.Item(x).Symbol? && k.Item(x).defined
      modifies this, items
      ensures Valid() && settings == old(settings) && Grows(old(cache), cache)
      ensures ImpliedSupported(k, S(), x) && weak == Implied(k, S().v, x)
      decreases k.Rank(x), 7
    {
      SymbolFits(k, x);
      weak := EvalExpr(k.Item(x).weakRevDep, k.Rank(x));
      if weak != 0 {
        ghost var c1 := cache;
        var direct := EvalExpr(k.Item(x).directDep, k.Rank(x));
        GrowsTransitive(old(cache), c1, cache);
        ExprStays(k, UsersIn(settings), c1, cache, k.Rank(x), k.Item(x).weakRevDep);
        if direct == 0 {
          weak := 0;
        }
      }
    }

    method EvalBaseTri(x: Id) returns (t: Tri2)
      requires Valid() && x < |items| && k.Item(x).Symbol? && k.Item(x).defined
      modifies this, items
      ensures Valid() && settings == old(settings) && Grows(old(cache), cache)
      ensures BaseTriRead(k, S(), x, t)
      decreases k.Rank(x), 9
    {
      ghost var us := UsersIn(settings);
      assert UserOf(us, x) == items[x].UserNow();
      var vis := GetVisibility(x);
      if vis != 0 && items[x].userValue.Some? && items[x].userValue.value.TriValue? {
        UserTriRead(k, S(), x, vis);
        return Tri2(Min(items[x].userValue.value.tri, vis), true);
      }
      ghost var c1 := cache;
      var val := EvalDefaultTri(x);
      ghost var c2 := cache;
      var weak := EvalImplied(x);
      GrowsTransitive(c1, c2, cache);
      GrowsTransitive(old(cache), c1, cache);
      VisStays(k, us, c1, cache, x);
      DefaultTriStays(k, us, c2, cache, x);
      DefaultTriRead(k, S(), x, vis, val, weak);
      t := if weak != 0 then Tri2(Max(weak, val), true) else Tri2(val, vis != 0 || val != 0);
    }

    method EvalNeverM(x: Id) returns (never: bool)
      requires Valid() && x < |items| && k.Item(x).Symbol? && k.Item(x).defined
      modifies this, items
      ensures Valid() && settings == old(settings) && Grows(old(cache), cache)
      ensures never == NeverM(k, S().v, x) && NeverMSupported(k, S(), x)
      decreases k.Rank(x), 7
    {
      WeakDepFits(k, x);
      var t := GetType(x);
      never := t == BOOL;
      if !never {
        ghost var c1 := cache;
        var weak := EvalExpr(k.Item(x).weakRevDep, k.Rank(x));
        TypeStays(k, UsersIn(settings), c1, cache, x);
        never := weak == 2;
      }
    }

    method EvalSelectedTri(x: Id) returns (t: Tri2)
      requires Valid() && x < |items| && k.Item(x).Symbol? && k.Item(x).defined
      modifies this, items
      ensures Valid() && settings == old(settings) && Grows(old(cache), cache)
      ensures t == SelectedTri(k, UsersIn(settings), S().v, x) && SelectedTriSupported(k, S(), x)
      decreases k.Rank(x), 10
    {
      t := EvalBaseTri(x);
      ghost var c1 := cache;
      RevDepFits(k, x);
      var rev := EvalExpr(k.Item(x).revDep, k.Rank(x));
      GrowsTransitive(old(cache), c1, cache);
      BaseTriStays(k, UsersIn(settings), c1, cache, x);
      if rev != 0 {
        t := Tri2(Max(rev, t.val), true);
      }
    }

    // The value of a symbol that is not in a choice.
    method EvalFreeTri(x: Id) returns (t: Tri2)
      requires Valid() && x < |items| && k.Item(x).Symbol? && k.Item(x).defined
      modifies this, items
      ensures Valid() && settings == old(settings) && Grows(old(cache), cache)
      ensures t == FreeTri(k, UsersIn(settings), S().v, x) && FreeTriSupported(k, S(), x)
      decreases k.Rank(x), 11
    {
      t := EvalSelectedTri(x);
      if t.val == 1 {
        ghost var c1 := cache;
        var never := EvalNeverM(x);
        GrowsTransitive(old(cache), c1, cache);
        SelectedTriStays(k, UsersIn(settings), c1, cache, x);
        if never {
          t := t.(val := 2);
        }
      }
    }

    // The value of a choice symbol.
    method EvalMemberTri(x: Id) returns (t: Tri2)
      requires Valid() && x < |items| && k.Item(x).InChoice()
      modifies this, items
      ensures Valid() && settings == old(settings) && Grows(old(cache), cache)
      ensures t == MemberTri(UsersIn(settings), S().v, x, k.Item(x).choice.value)
      ensures VisLive(S(), x) && (ValOf(S().v, x).vis == 2 ==> SelLive(S(), k.Item(x).choice.value))
      decreases k.Rank(x), 11
    {
      ghost var us := UsersIn(settings);
      assert UserOf(us, x) == items[x].UserNow();
      ItemKnown(k, x);
      var vis := GetVisibility(x);
      if vis == 2 {
        ghost var c1 := cache;
        var sel := GetSelection(k.Item(x).choice.value);
        GrowsTransitive(old(cache), c1, cache);
        VisStays(k, us, c1, cache, x);
        t := Tri2(if sel == Some(x) then 2 else 0, true);
      } else {
        var user := items[x].userValue;
        var isSet := user.Some? && user.value.TriValue? && user.value.tri != 0;
        t := Tri2(if vis != 0 && isSet then 1 else 0, vis != 0);
      }
    }

    method EvalSymTri(x: Id) returns (t: Tri2)
      requires Valid() && x < |items| && k.Item(x).Symbol? && !k.Item(x).Preset()
      modifies this, items
      ensures Valid() && settings == old(settings) && Grows(old(cache), cache)
      ensures t == SymTri(k, UsersIn(settings), S().v, x) && TriSupported(k, S(), x)
      decreases k.Rank(x), 12
    {
      ItemKnown(k, x);
      if !k.Item(x).Logical() {
        t := Tri2(0, false);
      } else if k.Item(x).InChoice() {
        t := EvalMemberTri(x);
      } else {
        t := EvalFreeTri(x);
      }
    }

    method StoreTri(x: Id, t: Tri2)
      requires Valid() && x < |items| && k.Item(x).Symbol?
      requires t == SymTri(k, UsersIn(settings), S().v, x) && TriSupported(k, S(), x)
      modifies this, items
      ensures Valid() && settings == old(settings) && Grows(old(cache), cache)
      ensures t.val == ValOf(S().v, x).tri && TriLive(S(), x)
    {
      var write := if k.Item(x).Logical() then t.write else items[x].writeToConf;
      ghost var after := cache[x := cache[x].(tri := Some(t.val), write := write)];
      AddTri(k, UsersIn(settings), cache, after, x, t);
      items[x].cachedTri, items[x].writeToConf := Some(t.val), write;
      cache := after;
    }

    // Symbol.tri_value
    method GetSymTri(x: Id) returns (t: Tri)
      requires Valid() && x < |items| && k.Item(x).Symbol?
      modifies this, items
      ensures Valid() && settings == old(settings) && Grows(old(cache), cache)
      ensures t == ValOf(S().v, x).tri && TriLive(S(), x)
      decreases k.Rank(x), 13
    {
      CachedOk(k, UsersIn(settings), cache, x);
      if items[x].cachedTri.Some? {
        return items[x].cachedTri.value;
      }
      var val := EvalSymTri(x);
      ghost var c1 := cache;
      StoreTri(x, val);
      GrowsTransitive(old(cache), c1, cache);
      t := val.val;
    }

    // The `tri_value` property of a symbol or choice.
    method GetTriValue(x: Id) returns (t: Tri)
      requires Valid() && x < |items|
      modifies this, items
      ensures Valid() && settings == old(settings) && Grows(old(cache), cache)
      ensures t == ValOf(S().v, x).tri && TriReadable(k, S(), x)
      decreases k.Rank(x), 14
    {
      if k.Item(x).Choice? {
        t := GetMode(x);
      } else {
        t := GetSymTri(x);
      }
    }

    // ---------- String values ----------

    // The first range whose condition is not n, as numbers.
    method EvalRange(x: Id) returns (bounds: Bounds)
      requires Valid() && x < |items| && k.Item(x).Symbol? && k.Item(x).defined
      modifies this, items
      ensures Valid() && settings == old(settings) && Grows(old(cache), cache)
      ensures bounds == ActiveRange(k, S().v, k.Item(x).ranges, k.Item(x).Base())
      ensures ActiveRangeSupported(k, S(), k.Item(x).ranges)
      decreases k.Rank(x), 8
    {
      var rs, base := k.Item(x).ranges, k.Item(x).Base();
      ghost var us := UsersIn(settings);
      for i := 0 to |rs|
        invariant Valid() && settings == old(settings) && Grows(old(cache), cache)
        invariant ConditionsFail(k, S(), RangeConds(rs), i)
      {
        ghost var c1 := cache;
        RangeFits(k, x, i);
        var t, low, high := EvalRangeEntry(rs[i], k.Rank(x));
        GrowsTransitive(old(cache), c1, cache);
        RangeConditionsStay(k, us, c1, cache, x, i);
        if t != 0 {
          ActiveRangeFound(k, S(), rs, base, i);
          return Bounds(NumOrZero(low, base), NumOrZero(high, base));
        }
        OneMoreConditionFails(k, S(), RangeConds(rs), i);
      }
      NoActiveRange(k, S(), rs, base);
      return Unbounded;
    }

    method GetStrValues(a: Id, b: Id, ghost r: nat) returns (s1: string, s2: string)
      requires Valid() && a < |items| && b < |items| && k.Item(a).Symbol? && k.Item(b).Symbol?
      requires k.Rank(a) < r && k.Rank(b) < r
      modifies this, items
      ensures Valid() && settings == old(settings) && Grows(old(cache), cache)
      ensures StrLive(S(), a) && StrLive(S(), b) && s1 == ValOf(S().v, a).str && s2 == ValOf(S().v, b).str
      decreases r, 0
    {
      s1 := GetStrValue(a);
      ghost var c1 := cache;
      s2 := GetStrValue(b);
      StrStays(k, UsersIn(settings), c1, cache, a);
    }

    // The condition of one range and, if it is not n, the bounds as written.
    method EvalRangeEntry(g: Range, ghost r: nat) returns (t: Tri, low: string, high: string)
      requires Valid() && RangeOk(k, r, g)
      modifies this, items
      ensures Valid() && settings == old(settings) && Grows(old(cache), cache)
      ensures ExprSupported(k, S(), g.cond) && t == ExprValue(k, S().v, g.cond)
      ensures t != 0 ==> StrLive(S(), g.low) && StrLive(S(), g.high)
      ensures t != 0 ==> low == ValOf(S().v, g.low).str && high == ValOf(S().v, g.high).str
      decreases r, 3
    {
      t := EvalExpr(g.cond, r);
      low, high := "", "";
      if t != 0 {
        ghost var c1 := cache;
        low, high := GetStrValues(g.low, g.high, r);
        GrowsTransitive(old(cache), c1, cache);
        ExprStays(k, UsersIn(settings), c1, cache, r, g.cond);
      }
    }

    // The string value of the active default, if there is one.
    method EvalDefaultStr(x: Id) returns (d: Option<string>)
      requires Valid() && x < |items| && k.Item(x).Symbol? && k.Item(x).defined && !k.Item(x).Logical()
      modifies this, items
      ensures Valid() && settings == old(settings) && Grows(old(cache), cache)
      ensures d == DefaultStr(k, S().v, k.Item(x).defaults)
      ensures DefaultStrSupported(k, S(), k.Item(x).defaults)
      decreases k.Rank(x), 15
    {
      var def, t := EvalActiveDefault(x);
      d := None;
      if def.Some? {
        DefaultTyped(k, x, def.value);
        ghost var c1 := cache;
        var s := GetStrValue(def.value.value.id);
        d := Some(s);
        GrowsTransitive(old(cache), c1, cache);
        ActiveDefaultStays(k, UsersIn(settings), c1, cache, x);
      }
    }

    // Whether there is a user value that is used for a symbol of this visibility.
    method UserInBounds(x: Id, vis: Tri, bounds: Bounds) returns (ok: bool)
      requires Valid() && x < |items| && k.Item(x).Numeric()
      ensures ok == UserNumberOk(UsersIn(settings), vis, x, k.Item(x).Base(), bounds)
      ensures ok ==> items[x].userValue.Some? && items[x].userValue.value.StrValue?
      ensures ok ==> UserOf(UsersIn(settings), x).Str() == Some(items[x].userValue.value.str)
    {
      assert UserOf(UsersIn(settings), x) == items[x].UserNow();
      ok := false;
      if vis != 0 && items[x].userValue.Some? && items[x].userValue.value.StrValue? {
        var user := items[x].userValue.value.str;
        UserNumberParses(k, UsersIn(settings), x);
        ok := user != "" && InBounds(bounds, ParseInt(user, k.Item(x).Base()).value);
      }
    }

    // The visibility and the active range, which limit user values and defaults alike.
    method EvalLimits(x: Id) returns (vis: Tri, bounds: Bounds)
      requires Valid() && x < |items| && k.Item(x).Symbol? && k.Item(x).defined
      modifies this, items
      ensures Valid() && settings == old(settings) && Grows(old(cache), cache)
      ensures LimitsRead(k, S(), x, vis, bounds)
      decreases k.Rank(x), 15
    {
      vis := GetVisibility(x);
      ghost var c1 := cache;
      bounds := EvalRange(x);
      GrowsTransitive(old(cache), c1, cache);
      VisStays(k, UsersIn(settings), c1, cache, x);
    }

    method EvalNumber(x: Id) returns (t: Text)
      requires Valid() && x < |items| && k.Item(x).Symbol? && k.Item(x).defined && k.Item(x).Numeric()
      modifies this, items
      ensures Valid() && settings == old(settings) && Grows(old(cache), cache)
      ensures NumberRead(k, S(), x, t)
      decreases k.Rank(x), 16
    {
      var vis, bounds := EvalLimits(x);
      ghost var c1 := cache;
      var ok := UserInBounds(x, vis, bounds);
      if ok {
        UserNumberRead(k, S(), x, vis, bounds);
        return Text(items[x].userValue.value.str, true);
      }
      t := EvalDefaultNumber(x, vis, bounds);
      GrowsTransitive(old(cache), c1, cache);
    }

    // The default, or the empty text, moved into the active range.
    method EvalDefaultNumber(x: Id, vis: Tri, bounds: Bounds) returns (t: Text)
      requires Valid() && x < |items| && k.Item(x).Symbol? && k.Item(x).defined && k.Item(x).Numeric()
      requires LimitsRead(k, S(), x, vis, bounds)
      requires !UserNumberOk(UsersIn(settings), vis, x, k.Item(x).Base(), bounds)
      modifies this, items
      ensures Valid() && settings == old(settings) && Grows(old(cache), cache)
      ensures NumberRead(k, S(), x, t)
      decreases k.Rank(x), 16, 0
    {
      ghost var c1 := cache;
      var d := EvalDefaultStr(x);
      LimitsStay(k, UsersIn(settings), c1, cache, x, vis, bounds);
      DefaultNumberRead(k, S(), x, vis, bounds, d);
      t := Text(Clamp(k.Item(x).origType, k.Item(x).Base(), bounds, if d.Some? then d.value else ""),
                vis != 0 || d.Some?);
    }

    method EvalString(x: Id) returns (t: Text)
      requires Valid() && x < |items| && k.Item(x).Symbol? && k.Item(x).defined && k.Item(x).origType == STRING
      modifies this, items
      ensures Valid() && settings == old(settings) && Grows(old(cache), cache)
      ensures t == StringText(k, UsersIn(settings), S().v, x) && StringSupported(k, S(), x)
      decreases k.Rank(x), 16
    {
      ghost var us := UsersIn(settings);
      assert UserOf(us, x) == items[x].UserNow();
      var vis := GetVisibility(x);
      if vis != 0 && items[x].userValue.Some? && items[x].userValue.value.StrValue? {
        t := Text(items[x].userValue.value.str, true);
      } else {
        ghost var c1 := cache;
        var d := EvalDefaultStr(x);
        GrowsTransitive(old(cache), c1, cache);
        VisStays(k, us, c1, cache, x);
        t := Text(if d.Some? then d.value else "", vis != 0 || d.Some?);
      }
    }

    method EvalText(x: Id) returns (t: Text)
      requires Valid() && x < |items| && k.Item(x).Symbol?
      modifies this, items
      ensures Valid() && settings == old(settings) && Grows(old(cache), cache)
      ensures t == SymText(k, UsersIn(settings), S().v, x) && StrSupported(k, S(), x)
      decreases k.Rank(x), 17
    {
      ItemKnown(k, x);
      if k.Item(x).Logical() {
        var tri := GetSymTri(x);
        t := Text(TriToStr(tri), false);
      } else if k.Item(x).origType == UNKNOWN {
        t := Text(k.Item(x).name, false);
      } else {
        if k.Item(x).Numeric() {
          t := EvalNumber(x);
        } else {
          t := EvalString(x);
        }
        if k.Item(x).noConf {
          t := t.(write := false);
        }
      }
    }

    method StoreStr(x: Id, t: Text)
      requires Valid() && x < |items| && k.Item(x).Symbol?
      requires t == SymText(k, UsersIn(settings), S().v, x) && StrSupported(k, S(), x)
      modifies this, items
      ensures Valid() && settings == old(settings) && Grows(old(cache), cache)
      ensures t.val == ValOf(S().v, x).str && StrLive(S(), x)
    {
      var write := if TypedText(k.Item(x)) then t.write else items[x].writeToConf;
      ghost var after := cache[x := cache[x].(str := Some(t.val), write := write)];
      AddStr(k, UsersIn(settings), cache, after, x, t);
      items[x].cachedStr, items[x].writeToConf := Some(t.val), write;
      cache := after;
    }

    // Symbol.str_value
    method GetStrValue(x: Id) returns (s: string)
      requires Valid() && x < |items| && k.Item(x).Symbol?
      modifies this, items
      ensures Valid() && settings == old(settings) && Grows(old(cache), cache)
      ensures s == ValOf(S().v, x).str && StrLive(S(), x)
      decreases k.Rank(x), 18
    {
      CachedOk(k, UsersIn(settings), cache, x);
      if items[x].cachedStr.Some? {
        return items[x].cachedStr.value;
      }
      var t := EvalText(x);
      ghost var c1 := cache;
      StoreStr(x, t);
      GrowsTransitive(old(cache), c1, cache);
      s := t.val;
    }

    // ---------- Assignable values ----------

    method EvalLevels(x: Id, rev: Tri) returns (asg: seq<Tri>)
      requires Valid() && x < |items| && k.Item(x).Symbol? && k.Item(x).defined
      requires rev == ExprValue(k, S().v, k.Item(x).revDep) && VisLive(S(), x) && ValOf(S().v, x).vis != 0
      modifies this, items
      ensures Valid() && settings == old(settings) && Grows(old(cache), cache)
      ensures asg == Levels(k, S().v, x, rev) && LevelsSupported(k, S(), x)
      decreases k.Rank(x), 18
    {
      CachedOk(k, UsersIn(settings), cache, x);
      if items[x].cachedVis.value == 2 {
        if k.Item(x).choice.Some? || rev == 2 {
          return [2];
        }
        var never := EvalNeverM(x);
        asg := if rev == 0 then (if never then [0, 2] else [0, 1, 2]) else if never then [2] else [1, 2];
      } else if rev == 0 {
        WeakDepFits(k, x);
        var weak := EvalExpr(k.Item(x).weakRevDep, k.Rank(x));
        asg := if weak == 2 then [0, 2] else [0, 1];
      } else {
        asg := if rev == 2 then [2] else [1];
      }
    }

    // The assignable values of a visible symbol.
    method EvalVisibleLevels(x: Id) returns (asg: seq<Tri>)
      requires Valid() && x < |items| && k.Item(x).Symbol? && k.Item(x).defined
      requires VisLive(S(), x) && ValOf(S().v, x).vis != 0
      modifies this, items
      ensures Valid() && settings == old(settings) && Grows(old(cache), cache)
      ensures asg == Levels(k, S().v, x, ExprValue(k, S().v, k.Item(x).revDep))
      ensures VisLive(S(), x) && ExprSupported(k, S(), k.Item(x).revDep) && LevelsSupported(k, S(), x)
      decreases k.Rank(x), 19
    {
      ghost var us, c1 := UsersIn(settings), cache;
      RevDepFits(k, x);
      var rev := EvalExpr(k.Item(x).revDep, k.Rank(x));
      ghost var c2 := cache;
      VisStays(k, us, c1, c2, x);
      asg := EvalLevels(x, rev);
      GrowsTransitive(c1, c2, cache);
      VisStays(k, us, c1, cache, x);
      ExprStays(k, us, c2, cache, k.Rank(x), k.Item(x).revDep);
    }

    // Symbol._assignable()
    method EvalSymAssignable(x: Id) returns (asg: seq<Tri>)
      requires Valid() && x < |items| && k.Item(x).Symbol?
      modifies this, items
      ensures Valid() && settings == old(settings) && Grows(old(cache), cache)
      ensures asg == SymAssignable(k, S().v, x) && SymAsgSupported(k, S(), x)
      decreases k.Rank(x), 20
    {
      asg := [];
      if k.Item(x).Logical() {
        var vis := GetVisibility(x);
        if vis != 0 {
          VisibleDefined(k, UsersIn(settings), x);
          ghost var c1 := cache;
          asg := EvalVisibleLevels(x);
          GrowsTransitive(old(cache), c1, cache);
        }
      }
    }

    // Choice._assignable()
    method EvalChoiceAssignable(c: Id) returns (asg: seq<Tri>)
      requires Valid() && c < |items| && k.Item(c).Choice?
      modifies this, items
      ensures Valid() && settings == old(settings) && Grows(old(cache), cache)
      ensures asg == ChoiceAssignable(k, S().v, c) && AsgSupported(k, S(), c)
      decreases k.Rank(c), 19
    {
      var vis := GetVisibility(c);
      if vis == 0 {
        asg := [];
      } else if vis == 2 {
        ghost var c1 := cache;
        var t := GetType(c);
        VisStays(k, UsersIn(settings), c1, cache, c);
        asg := if !k.Item(c).optional then (if t == BOOL then [2] else [1, 2])
               else if t == BOOL then [0, 2] else [0, 1, 2];
      } else {
        asg := if k.Item(c).optional then [0, 1] else [1];
      }
    }

    method StoreAssignable(x: Id, asg: seq<Tri>)
      requires Valid() && x < |items| && AsgSupported(k, S(), x)
      requires asg == if k.Item(x).Choice? then ChoiceAssignable(k, S().v, x) else SymAssignable(k, S().v, x)
      modifies this, items
      ensures Valid() && settings == old(settings) && Grows(old(cache), cache)
      ensures asg == ValOf(S().v, x).asg && AsgLive(S(), x)
    {
      ghost var after := cache[x := cache[x].(asg := Some(asg))];
      AddAsg(k, UsersIn(settings), cache, after, x, asg);
      items[x].cachedAssignable := Some(asg);
      cache := after;
    }

    // The `assignable` property.
    method GetAssignable(x: Id) returns (asg: seq<Tri>)
      requires Valid() && x < |items|
      modifies this, items
      ensures Valid() && settings == old(settings) && Grows(old(cache), cache)
      ensures asg == ValOf(S().v, x).asg && AsgLive(S(), x)
    {
      CachedOk(k, UsersIn(settings), cache, x);
      if items[x].cachedAssignable.Some? {
        return items[x].cachedAssignable.value;
      }
      if k.Item(x).Choice? {
        asg := EvalChoiceAssignable(x);
      } else {
        asg := EvalSymAssignable(x);
      }
      ghost var c1 := cache;
      StoreAssignable(x, asg);
      GrowsTransitive(old(cache), c1, cache);
    }

    // Reading str_value also leaves _write_to_conf up to date; the writers rely on it.
    method GetTextAndWrite(x: Id) returns (s: string, write: bool)
      requires Valid() && x < |items| && k.Item(x).Symbol?
      modifies this, items
      ensures Valid() && settings == old(settings) && Grows(old(cache), cache)
      ensures s == ValOf(S().v, x).str && write == ValOf(S().v, x).write
    {
      s := GetStrValue(x);
      CachedOk(k, UsersIn(settings), cache, x);
      write := items[x].writeToConf;
    }

    // ---------- Invalidation ----------

    // _invalidate()
    method Invalidate(x: Id)
      requires Coupled() && x < |items|
      modifies this, items
      ensures Coupled() && settings == old(settings) && cache == ClearAll(old(cache), {x})
    {
      items[x].cachedVis, items[x].cachedTri, items[x].cachedStr := None, None, None;
      items[x].cachedAssignable, items[x].cachedSelection := None, None;
      cache := ClearAll(cache, {x});
    }

    // _invalidate_all()
    method InvalidateAll()
      requires Coupled()
      modifies this, items
      ensures Coupled() && settings == old(settings) && cache == ClearAll(old(cache), Variables(k))
    {
      ghost var I: set<Id> := {};
      ClearNone(cache);
      for x := 0 to |items|
        invariant Coupled() && settings == old(settings) && cache == ClearAll(old(cache), I)
        invariant I == set y: Id {:trigger k.Item(y)} | y < x && y in Variables(k)
      {
        if k.Item(x).Choice? || k.Item(x).defined {
          Invalidate(x);
          ClearTwice(old(cache), I, {x});
          I := I + {x};
        }
      }
      assert I == Variables(k);
    }

    // _rec_invalidate().  It terminates in spite of the mutual dependency between a choice and its
    // symbols, because an item is entered at most once while it is cached.
    method RecInvalidate(x: Id) returns (ghost I: set<Id>)
      requires Coupled() && DependentsOk(k, settings) && WellFormed(k) && x < |items| && Variable(k.Item(x))
      modifies this, items
      ensures Coupled() && settings == old(settings) && cache == ClearAll(old(cache), I)
      ensures x in I && Invalidatable(k, I) && Closed(k, old(cache), I)
      decreases LiveIds(cache) - {x}, 1
    {
      if x == k.modules {
        InvalidateAll();
        VariablesClosed(k, old(cache));
        return Variables(k);
      }
      Invalidate(x);
      I := InvalidateDependents(x, old(cache));
    }

    method InvalidateDependents(x: Id, ghost before: Cache) returns (ghost I: set<Id>)
      requires Coupled() && DependentsOk(k, settings) && WellFormed(k) && x < |items| && Variable(k.Item(x))
      requires x != k.modules && cache == ClearAll(before, {x}) && |before| == |items|
      modifies this, items
      ensures Coupled() && settings == old(settings) && cache == ClearAll(before, I)
      ensures x in I && Invalidatable(k, I) && Closed(k, before, I)
      decreases LiveIds(before) - {x}, 0
    {
      I := {x};
      var todo := items[x].dependents;
      VariableNotConstant(k, x);
      NothingLookedAt(k, before, x, todo);
      while todo != {}
        invariant Coupled() && settings == old(settings) && cache == ClearAll(before, I)
        invariant x in I && Invalidatable(k, I) && ClosedExcept(k, before, I, x, todo)
        invariant todo <= settings[x].dependents
        decreases todo
      {
        var y :| y in todo;
        if items[y].cachedVis.Some? {
          DependentVariable(k, y, x);
          LiveShrinks(before, I, x, y);
          ghost var J := RecInvalidate(y);
          ClearedOne(k, before, I, x, todo, y, J);
          I := I + J;
        } else {
          LookedAt(k, before, I, x, todo, y);
        }
        todo := todo - {y};
      }
      AllLookedAt(k, before, I, x);
    }

    // ---------- Assigning user values ----------

    method StoreUser(x: Id, value: Option<UserValue>, selection: Option<Id>, set_: bool)
      requires Coupled() && x < |items|
      modifies this, items
      ensures Coupled() && cache == old(cache)
      ensures settings == old(settings)[x := Setting(User(value, selection), set_, old(settings)[x].dependents)]
      ensures DependentsOk(k, old(settings)) ==> DependentsOk(k, settings)
    {
      items[x].userValue, items[x].userSelection, items[x].wasSet := value, selection, set_;
      settings := settings[x := Setting(User(value, selection), set_, settings[x].dependents)];
    }

    // _rec_invalidate_if_has_prompt()
    method RecInvalidateIfHasPrompt(x: Id) returns (ghost I: set<Id>)
      requires Coupled() && DependentsOk(k, settings) && WellFormed(k) && x < |items| && k.Item(x).Symbol?
      modifies this, items
      ensures Coupled() && settings == old(settings) && cache == ClearAll(old(cache), I)
      ensures (k.Item(x).prompts == [] || x in I) && Invalidatable(k, I) && Closed(k, old(cache), I)
    {
      if k.Item(x).prompts != [] {
        ItemTyped(k, x);
        I := RecInvalidate(x);
      } else {
        I := {};
        NothingClosed(k, cache);
      }
    }

    // Symbol.set_value()
    method SetSymbolValue(x: Id, value: UserValue) returns (ok: bool)
      requires Valid() && x < |items| && k.Item(x).Symbol?
      modifies this, items
      ensures Valid()
      ensures ok == Accepted(k.Item(x), value).Some?
      ensures settings == if ok then AfterSet(k, old(settings), x, Accepted(k.Item(x), value).value) else old(settings)
    {
      if items[x].userValue == Some(value) && k.Item(x).choice.None? {
        SameValueAccepted(k, settings, cache, x, value);
        StoreUser(x, items[x].userValue, items[x].userSelection, true);
        return true;
      }
      var accepted := Accepted(k.Item(x), value);
      if accepted.None? {
        return false;
      }
      AssignSymbol(x, accepted.value);
      ok := true;
    }

    method AssignSymbol(x: Id, stored: UserValue)
      requires Valid() && x < |items| && k.Item(x).Symbol? && ValidUserValue(k.Item(x), stored)
      modifies this, items
      ensures Valid() && settings == AfterSet(k, old(settings), x, stored)
    {
      ghost var I;
      ghost var after := AfterSet(k, settings, x, stored);
      StoreUser(x, Some(stored), items[x].userSelection, true);
      if k.Item(x).choice.Some? && stored == TriValue(2) {
        var c := k.Item(x).choice.value;
        ItemKnown(k, x);
        StoreUser(c, items[c].userValue, Some(x), true);
        assert settings == after;
        I := RecInvalidate(c);
      } else {
        assert settings == after;
        I := RecInvalidateIfHasPrompt(x);
      }
      AfterSetCoherent(k, old(settings), old(cache), x, stored, I);
    }

    // Symbol.unset_value()
    method UnsetSymbolValue(x: Id)
      requires Valid() && x < |items| && k.Item(x).Symbol?
      modifies this, items
      ensures Valid()
      ensures settings == AfterChange(old(settings), x, old(settings)[x].user.(value := None), old(settings)[x].wasSet)
    {
      if items[x].userValue.Some? {
        StoreUser(x, None, items[x].userSelection, items[x].wasSet);
        ghost var I := RecInvalidateIfHasPrompt(x);
        AfterChangeCoherent(k, old(settings), old(cache), x, old(settings)[x].user.(value := None),
                            old(settings)[x].wasSet, I);
      }
    }

    // Choice.set_value()
    method SetChoiceValue(c: Id, value: UserValue) returns (ok: bool)
      requires Valid() && c < |items| && k.Item(c).Choice?
      modifies this, items
      ensures Valid()
      ensures ok == Accepted(k.Item(c), value).Some?
      ensures ok ==>
        settings == AfterChange(old(settings), c, old(settings)[c].user.(value := Accepted(k.Item(c), value)), true)
      ensures !ok ==> settings == old(settings)
    {
      if items[c].userValue == Some(value) {
        SameValueAccepted(k, settings, cache, c, value);
        StoreUser(c, items[c].userValue, items[c].userSelection, true);
        return true;
      }
      var accepted := Accepted(k.Item(c), value);
      if accepted.None? {
        return false;
      }
      StoreUser(c, accepted, items[c].userSelection, true);
      ghost var I := RecInvalidate(c);
      AfterChangeCoherent(k, old(settings), old(cache), c, old(settings)[c].user.(value := accepted), true, I);
      ok := true;
    }

    // Choice.unset_value()
    method UnsetChoiceValue(c: Id)
      requires Valid() && c < |items| && k.Item(c).Choice?
      modifies this, items
      ensures Valid()
      ensures settings == AfterChange(old(settings), c, NO_USER, old(settings)[c].wasSet)
    {
      if items[c].userValue.Some? || items[c].userSelection.Some? {
        StoreUser(c, None, None, items[c].wasSet);
        ghost var I := RecInvalidate(c);
        AfterChangeCoherent(k, old(settings), old(cache), c, NO_USER, old(settings)[c].wasSet, I);
      }
    }
  }
}
