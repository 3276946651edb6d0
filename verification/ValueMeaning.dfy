/** What the values of an evaluated configuration are, in terms of the operands that they are calculated from. */
module ValueMeaning {
  import opened Wrappers
  import opened Model
  import opened Numbers
  import opened Values
  import opened Support
  import opened Transfer
  import opened Reference

  // ---------- Expressions ----------

  ghost predicate PrecedesAt(a: string, b: string, i: int) {
    0 <= i <= |a| && i < |b| && a[..i] == b[..i] && (i == |a| || a[i] < b[i])
  }

  // The order of a dictionary.
  ghost predicate Precedes(a: string, b: string) {
    exists i :: PrecedesAt(a, b, i)
  }

  lemma PrecedesBehind(a: string, b: string)
    requires a != "" && b != "" && a[0] == b[0]
    ensures Precedes(a, b) <==> Precedes(a[1..], b[1..])
  {
    var s, t := a[1..], b[1..];
    if i :| PrecedesAt(a, b, i) {
      var prev := i - 1;
      assert s[..prev] == a[..i][1..] && t[..prev] == b[..i][1..];
      assert PrecedesAt(s, t, prev);
    }
    if i :| PrecedesAt(s, t, i) {
      var next := i + 1;
      assert a[..next] == [a[0]] + s[..i] && b[..next] == [b[0]] + t[..i];
      assert PrecedesAt(a, b, next);
    }
  }

  lemma {:induction false} StrCmpOrder(a: string, b: string)
    ensures StrCmp(a, b) < 0 <==> Precedes(a, b)
    ensures StrCmp(a, b) > 0 <==> Precedes(b, a)
    ensures StrCmp(a, b) == 0 <==> a == b
    decreases |a|
  {
    if a != "" && b != "" && a[0] == b[0] {
      StrCmpOrder(a[1..], b[1..]);
      PrecedesBehind(a, b);
      PrecedesBehind(b, a);
      assert a == [a[0]] + a[1..] && b == [b[0]] + b[1..];
    } else {
      assert a != "" && b != "" && a[0] < b[0] ==> PrecedesAt(a, b, 0);
      assert a != "" && b != "" && b[0] < a[0] ==> PrecedesAt(b, a, 0);
      assert a == "" && b != "" ==> PrecedesAt(a, b, 0);
      assert b == "" && a != "" ==> PrecedesAt(b, a, 0);
      FirstDecides(a, b);
      FirstDecides(b, a);
    }
  }

  // Strings that differ at the start.
  lemma FirstDecides(a: string, b: string)
    requires a == "" || b == "" || a[0] != b[0]
    ensures Precedes(a, b) ==> b != "" && (a == "" || a[0] < b[0])
  {
    if i :| PrecedesAt(a, b, i) {
      SameAtStart(a, b, i);
    }
  }

  lemma SameAtStart(a: string, b: string, i: nat)
    requires i <= |a| && i <= |b| && a[..i] == b[..i]
    ensures i == 0 || a[0] == b[0]
  {
    if i > 0 {
      assert a[..i][0] == a[0] && b[..i][0] == b[0];
    }
  }

  // The number that a symbol stands for in a comparison.
  ghost predicate Denotes(k: Config, v: Valuation, x: Id, n: int) {
    var t := k.Item(x).origType;
    if t == BOOL || t == TRISTATE then n == ValOf(v, x).tri
    else ParseInt(ValOf(v, x).str, NumberBase(t)) == Some(n)
  }

  // 0 stands for the base that a prefix names.
  function NumberBase(t: Type): nat {
    match t
    case HEX => 16
    case INT => 10
    case _ => 0
  }

  lemma DenotedNumber(k: Config, v: Valuation, x: Id, n: int)
    ensures Denotes(k, v, x, n) <==> SymToNum(k, v, x) == Some(n)
  {
    BaseIsMeant(k.Item(x));
  }

  lemma BaseIsMeant(it: Model.Item)
    ensures it.Base() == NumberBase(it.origType)
  {
  }

  ghost predicate Relates(rel: Relation, m: int, n: int) {
    match rel
    case EQUAL => m == n
    case UNEQUAL => m != n
    case LESS => m < n
    case LESS_EQUAL => m <= n
    case GREATER => n < m
    case GREATER_EQUAL => n <= m
  }

  lemma DifferenceRelates(rel: Relation, m: int, n: int, d: int)
    requires d == m - n
    ensures Holds(rel, d) <==> Relates(rel, m, n)
  {
  }

  // Both operands are numbers, and they are not two strings.
  lemma RelationOnNumbers(k: Config, v: Valuation, rel: Relation, a: Id, b: Id, m: int, n: int)
    requires SymToNum(k, v, a) == Some(m) && SymToNum(k, v, b) == Some(n)
    requires k.Item(a).origType != STRING || k.Item(b).origType != STRING
    ensures ExprValue(k, v, Rel(rel, a, b)) == if Relates(rel, m, n) then 2 else 0
  {
    var comp := m - n;
    ComparedNumbers(k, v, a, b, m, n, comp);
    DifferenceRelates(rel, m, n, comp);
    RelationValue(k, v, rel, a, b, comp);
  }

  lemma ComparedNumbers(k: Config, v: Valuation, a: Id, b: Id, m: int, n: int, comp: int)
    requires SymToNum(k, v, a) == Some(m) && SymToNum(k, v, b) == Some(n) && comp == m - n
    requires k.Item(a).origType != STRING || k.Item(b).origType != STRING
    ensures Compare(k, v, a, b) == comp
  {
  }

  ghost predicate RelatesText(rel: Relation, s: string, t: string) {
    match rel
    case EQUAL => s == t
    case UNEQUAL => s != t
    case LESS => Precedes(s, t)
    case LESS_EQUAL => !Precedes(t, s)
    case GREATER => Precedes(t, s)
    case GREATER_EQUAL => !Precedes(s, t)
  }

  lemma OrderRelates(rel: Relation, s: string, t: string, comp: int)
    requires comp == StrCmp(s, t)
    ensures Holds(rel, comp) <==> RelatesText(rel, s, t)
  {
    StrCmpOrder(s, t);
  }

  lemma ComparedText(k: Config, v: Valuation, a: Id, b: Id, m: Option<int>, n: Option<int>)
    requires m == SymToNum(k, v, a) && n == SymToNum(k, v, b)
    requires (k.Item(a).origType == STRING && k.Item(b).origType == STRING) || m.None? || n.None?
    ensures Compare(k, v, a, b) == StrCmp(ValOf(v, a).str, ValOf(v, b).str)
  {
  }

  lemma RelationValue(k: Config, v: Valuation, rel: Relation, a: Id, b: Id, comp: int)
    requires comp == Compare(k, v, a, b)
    ensures ExprValue(k, v, Rel(rel, a, b)) == if Holds(rel, comp) then 2 else 0
  {
    var e := Rel(rel, a, b);
    assert ExprValue(k, v, e) == if Holds(rel, comp) then 2 else 0;
  }

  // Two strings, or an operand that is no number.
  lemma RelationOnText(k: Config, v: Valuation, rel: Relation, a: Id, b: Id)
    requires (k.Item(a).origType == STRING && k.Item(b).origType == STRING)
          || SymToNum(k, v, a).None? || SymToNum(k, v, b).None?
    ensures ExprValue(k, v, Rel(rel, a, b)) == if RelatesText(rel, ValOf(v, a).str, ValOf(v, b).str) then 2 else 0
  {
    var comp := Compare(k, v, a, b);
    ComparedText(k, v, a, b, SymToNum(k, v, a), SymToNum(k, v, b));
    OrderRelates(rel, ValOf(v, a).str, ValOf(v, b).str, comp);
    RelationValue(k, v, rel, a, b, comp);
  }

  // The lesser of two values.
  ghost predicate Lesser(t: Tri, a: Tri, b: Tri) {
    t <= a && t <= b && (t == a || t == b)
  }

  lemma ConnectiveValues(k: Config, v: Valuation, a: Expr, b: Expr)
    ensures Lesser(ExprValue(k, v, And(a, b)), ExprValue(k, v, a), ExprValue(k, v, b))
    ensures Lesser(2 - ExprValue(k, v, Or(a, b)), 2 - ExprValue(k, v, a), 2 - ExprValue(k, v, b))
    ensures ExprValue(k, v, Not(a)) + ExprValue(k, v, a) == 2
  {
  }

  // ---------- The first one that applies ----------

  ghost predicate DefaultApplies(k: Config, v: Valuation, ds: seq<Default>, i: int) {
    && 0 <= i < |ds| && ExprValue(k, v, ds[i].cond) != 0
    && forall j :: 0 <= j < i ==> ExprValue(k, v, ds[j].cond) == 0
  }

  lemma {:induction false} FirstApplies(k: Config, v: Valuation, ds: seq<Default>) returns (i: int)
    ensures ActiveDefault(k, v, ds).Some? ==> DefaultApplies(k, v, ds, i) && ActiveDefault(k, v, ds) == Some(ds[i])
    ensures ActiveDefault(k, v, ds).None? ==> forall j :: 0 <= j < |ds| ==> ExprValue(k, v, ds[j].cond) == 0
    decreases |ds|
  {
    i := 0;
    if ds != [] && ExprValue(k, v, ds[0].cond) == 0 {
      var j := FirstApplies(k, v, ds[1..]);
      i := j + 1;
      assert forall n :: 1 <= n < |ds| ==> ds[n] == ds[1..][n - 1];
    }
  }

  lemma OnlyOneApplies(k: Config, v: Valuation, ds: seq<Default>, i: int, j: int)
    requires DefaultApplies(k, v, ds, i) && DefaultApplies(k, v, ds, j)
    ensures i == j
  {
  }

  // The default that applies is the active one.
  lemma Active(k: Config, v: Valuation, ds: seq<Default>, i: int)
    requires DefaultApplies(k, v, ds, i)
    ensures ActiveDefault(k, v, ds) == Some(ds[i])
  {
    var j := FirstApplies(k, v, ds);
    if ActiveDefault(k, v, ds).Some? {
      OnlyOneApplies(k, v, ds, i, j);
    }
  }

  // ---------- bool and tristate symbols ----------

  ghost predicate UserApplies(us: Users, v: Valuation, x: Id) {
    ValOf(v, x).vis != 0 && UserOf(us, x).Tri().Some?
  }

  // What the user, a default, implies or selects call for.  Defaults and implies only count where the user
  // has no say, and implies only if the direct dependencies are not n.
  ghost predicate CalledFor(k: Config, us: Users, v: Valuation, x: Id, t: Tri) {
    var it := k.Item(x);
    it.Symbol? &&
    (|| t == ExprValue(k, v, it.revDep)
     || (UserApplies(us, v, x) && Lesser(t, UserOf(us, x).Tri().value, ValOf(v, x).vis))
     || (!UserApplies(us, v, x) && t == ExprValue(k, v, it.weakRevDep) && ExprValue(k, v, it.directDep) != 0)
     || (!UserApplies(us, v, x) && DefaultCallsFor(k, v, it.defaults, t)))
  }

  ghost predicate DefaultCallsFor(k: Config, v: Valuation, ds: seq<Default>, t: Tri) {
    exists i :: DefaultApplies(k, v, ds, i) && Lesser(t, ExprValue(k, v, ds[i].value), ExprValue(k, v, ds[i].cond))
  }

  // The greatest value that is called for, and n if there is none.
  ghost predicate Greatest(k: Config, us: Users, v: Valuation, x: Id, t: Tri) {
    (t == 0 || CalledFor(k, us, v, x, t)) && forall u: Tri :: CalledFor(k, us, v, x, u) ==> u <= t
  }

  // A symbol outside choices has the greatest value that is called for; m becomes y if the symbol is bool, or
  // for want of modules, or because of an imply with y.
  lemma FreeValue(k: Config, us: Users, x: Id) returns (t: Tri)
    requires Good(k, us) && x < |k.items| && k.Item(x).Symbol? && k.Item(x).Logical() && !k.Item(x).Preset()
    requires k.Item(x).choice.None?
    ensures var v := Evaluate(k, us);
      && Greatest(k, us, v, x, t)
      && ValOf(v, x).tri == if t == 1 && (|| k.Item(x).origType == BOOL || ValOf(v, k.modules).tri == 0
                                          || ExprValue(k, v, k.Item(x).weakRevDep) == 2) then 2 else t
  {
    var v := Evaluate(k, us);
    SolvedTri(k, us, x);
    t := SelectedTri(k, us, v, x).val;
    SelectedIsGreatest(k, us, v, x);
  }

  lemma SelectedIsGreatest(k: Config, us: Users, v: Valuation, x: Id)
    requires k.Item(x).Symbol?
    ensures Greatest(k, us, v, x, SelectedTri(k, us, v, x).val)
  {
    DefaultIsCalledFor(k, v, k.Item(x).defaults);
  }

  lemma DefaultIsCalledFor(k: Config, v: Valuation, ds: seq<Default>)
    ensures DefaultTri(k, v, ds) == 0 || DefaultCallsFor(k, v, ds, DefaultTri(k, v, ds))
    ensures forall t: Tri :: DefaultCallsFor(k, v, ds, t) ==> t == DefaultTri(k, v, ds)
  {
    var i := FirstApplies(k, v, ds);
    forall t: Tri | DefaultCallsFor(k, v, ds, t) ensures t == DefaultTri(k, v, ds) {
      var j :| DefaultApplies(k, v, ds, j) && Lesser(t, ExprValue(k, v, ds[j].value), ExprValue(k, v, ds[j].cond));
      Active(k, v, ds, j);
    }
  }

  // In particular: a symbol whose dependencies are not met is n, unless it is selected or has a default.
  lemma UnmetIsN(k: Config, us: Users, x: Id)
    requires Good(k, us) && x < |k.items| && k.Item(x).Symbol? && k.Item(x).Logical() && !k.Item(x).Preset()
    requires k.Item(x).choice.None?
    requires var v := Evaluate(k, us);
      && ExprValue(k, v, k.Item(x).directDep) == 0 && ExprValue(k, v, k.Item(x).revDep) == 0
      && !UserApplies(us, v, x) && forall i :: 0 <= i < |k.Item(x).defaults| ==>
           ExprValue(k, v, k.Item(x).defaults[i].cond) == 0
    ensures ValOf(Evaluate(k, us), x).tri == 0
  {
    var v := Evaluate(k, us);
    var t := FreeValue(k, us, x);
    assert forall i :: !DefaultApplies(k, v, k.Item(x).defaults, i);
  }

  // Which symbols have a line in a .config file.
  lemma FreeWritten(k: Config, us: Users, x: Id)
    requires Good(k, us) && x < |k.items| && k.Item(x).Symbol? && k.Item(x).Logical() && !k.Item(x).Preset()
    ensures var v := Evaluate(k, us);
      ValOf(v, x).write <==> ValOf(v, x).vis != 0 || (k.Item(x).choice.None? && ValOf(v, x).tri != 0)
  {
    SolvedTri(k, us, x);
    SolvedWrite(k, us, x);
  }

  // ---------- Visibility ----------

  ghost predicate GreatestPrompt(k: Config, v: Valuation, prompts: seq<Expr>, t: Tri) {
    && (t == 0 || exists i :: 0 <= i < |prompts| && ExprValue(k, v, prompts[i]) == t)
    && forall i :: 0 <= i < |prompts| ==> ExprValue(k, v, prompts[i]) <= t
  }

  lemma {:induction false} PromptMaxIsGreatest(k: Config, v: Valuation, prompts: seq<Expr>)
    ensures GreatestPrompt(k, v, prompts, PromptMax(k, v, prompts))
    decreases |prompts|
  {
    if prompts != [] {
      PromptMaxIsGreatest(k, v, prompts[1..]);
      assert forall i :: 1 <= i < |prompts| ==> prompts[i] == prompts[1..][i - 1];
      assert forall i :: 0 <= i < |prompts| - 1 ==> prompts[1..][i] == prompts[i + 1];
    }
  }

  // Whether a choice hides a symbol whose prompt has the value `t`.
  ghost predicate HiddenIn(k: Config, v: Valuation, x: Id, t: Tri) {
    k.Item(x).InChoice() &&
    var c := k.Item(x).choice.value;
    || (k.Item(c).origType == TRISTATE && k.Item(x).origType != TRISTATE && ValOf(v, c).tri != 2)
    || (k.Item(x).origType == TRISTATE && t == 1 && ValOf(v, c).tri == 2)
  }

  // The item is no tristate right now.
  ghost predicate NoModule(k: Config, v: Valuation, x: Id) {
    || k.Item(x).origType != TRISTATE || ValOf(v, k.modules).tri == 0
    || (k.Item(x).InChoice() && ValOf(v, k.Item(x).choice.value).tri == 2)
  }

  // The visibility is that of the most visible prompt, except for what choices hide and for m without modules.
  lemma VisibilityValue(k: Config, us: Users, x: Id) returns (t: Tri)
    requires Good(k, us) && x < |k.items|
    ensures var v := Evaluate(k, us);
      && GreatestPrompt(k, v, k.Item(x).prompts, t)
      && ValOf(v, x).vis == if HiddenIn(k, v, x, t) then 0 else if t == 1 && NoModule(k, v, x) then 2 else t
  {
    var v := Evaluate(k, us);
    SolvedVis(k, us, x);
    t := PromptMax(k, v, k.Item(x).prompts);
    PromptMaxIsGreatest(k, v, k.Item(x).prompts);
  }

  // ---------- Choices ----------

  // The mode is what the user wants, at least m unless the choice is optional, and not more than the visibility.
  lemma ModeValue(k: Config, us: Users, c: Id) returns (want: Tri, t: Tri)
    requires Good(k, us) && c < |k.items| && k.Item(c).Choice?
    ensures want == match UserOf(us, c).value
                    case Some(TriValue(u)) => if u == 0 && !k.Item(c).optional then 1 else u
                    case _ => if k.Item(c).optional then 0 else 1
    ensures var v := Evaluate(k, us);
      && Lesser(t, want, ValOf(v, c).vis)
      && ValOf(v, c).tri == if t == 1 && (k.Item(c).origType == BOOL || (k.Item(c).origType == TRISTATE
                                                                        && ValOf(v, k.modules).tri == 0)) then 2 else t
  {
    var v := Evaluate(k, us);
    SolvedChoice(k, us, c);
    t := ModeBefore(k, us, v, c);
    want := match UserOf(us, c).value
            case Some(TriValue(u)) => if u == 0 && !k.Item(c).optional then 1 else u
            case _ => if k.Item(c).optional then 0 else 1;
  }

  // A default of a choice that can be selected.
  ghost predicate Selectable(k: Config, v: Valuation, ds: seq<ChoiceDefault>, i: int)
    requires 0 <= i < |ds|
  {
    ExprValue(k, v, ds[i].cond) != 0 && ValOf(v, ds[i].sym).vis != 0
  }

  ghost predicate FirstSelectable(k: Config, v: Valuation, ds: seq<ChoiceDefault>, i: int) {
    0 <= i < |ds| && Selectable(k, v, ds, i) && forall j :: 0 <= j < i ==> !Selectable(k, v, ds, j)
  }

  ghost predicate FirstSeen(v: Valuation, syms: seq<Id>, i: int) {
    0 <= i < |syms| && ValOf(v, syms[i]).vis != 0 && forall j :: 0 <= j < i ==> ValOf(v, syms[j]).vis == 0
  }

  lemma {:induction false} FirstDefaultFirst(k: Config, v: Valuation, ds: seq<ChoiceDefault>, i: int)
    requires FirstSelectable(k, v, ds, i)
    ensures FirstDefault(k, v, ds) == Some(ds[i].sym)
    decreases |ds|
  {
    assert i > 0 ==> !Selectable(k, v, ds, 0);
    assert i == 0 ==> Selectable(k, v, ds, 0);
    if i > 0 {
      var rest, prev := ds[1..], i - 1;
      assert forall j :: 0 <= j < |rest| ==> rest[j] == ds[j + 1];
      forall j | 0 <= j < prev ensures !Selectable(k, v, rest, j) {
        assert !Selectable(k, v, ds, j + 1);
      }
      assert Selectable(k, v, rest, prev);
      FirstDefaultFirst(k, v, rest, prev);
    }
  }

  lemma {:induction false} NoDefaultSelectable(k: Config, v: Valuation, ds: seq<ChoiceDefault>)
    requires forall i :: 0 <= i < |ds| ==> !Selectable(k, v, ds, i)
    ensures FirstDefault(k, v, ds) == None
    decreases |ds|
  {
    if ds != [] {
      assert !Selectable(k, v, ds, 0);
      forall j | 0 <= j < |ds[1..]| ensures !Selectable(k, v, ds[1..], j) {
        assert !Selectable(k, v, ds, j + 1);
      }
      NoDefaultSelectable(k, v, ds[1..]);
    }
  }

  lemma {:induction false} FirstVisibleFirst(v: Valuation, syms: seq<Id>, i: int)
    requires FirstSeen(v, syms, i)
    ensures FirstVisible(v, syms) == Some(syms[i])
    decreases |syms|
  {
    if i > 0 {
      assert forall j :: 0 <= j < |syms[1..]| ==> syms[1..][j] == syms[j + 1];
      FirstVisibleFirst(v, syms[1..], i - 1);
    }
  }

  // In y mode: the symbol that the user has selected if it is visible, or else the first default whose
  // condition is met and that is visible, or else the first symbol that is visible.
  lemma SelectionValue(k: Config, us: Users, c: Id)
    requires Good(k, us) && c < |k.items| && k.Item(c).Choice?
    ensures var v := Evaluate(k, us); ValOf(v, c).tri != 2 ==> ValOf(v, c).sel == None
    ensures var v, user := Evaluate(k, us), UserOf(us, c).selection;
      ValOf(v, c).tri == 2 && user.Some? && ValOf(v, user.value).vis != 0 ==> ValOf(v, c).sel == user
    ensures var v, user, ds := Evaluate(k, us), UserOf(us, c).selection, k.Item(c).choiceDefaults;
      ValOf(v, c).tri == 2 && (user.None? || ValOf(v, user.value).vis == 0) ==>
        && (forall i :: FirstSelectable(k, v, ds, i) ==> ValOf(v, c).sel == Some(ds[i].sym))
        && ((forall i :: 0 <= i < |ds| ==> !Selectable(k, v, ds, i)) ==>
              && (forall i :: FirstSeen(v, k.Item(c).syms, i) ==> ValOf(v, c).sel == Some(k.Item(c).syms[i])))
  {
    var v, ds := Evaluate(k, us), k.Item(c).choiceDefaults;
    SolvedChoice(k, us, c);
    forall i | FirstSelectable(k, v, ds, i) ensures FirstDefault(k, v, ds) == Some(ds[i].sym) {
      FirstDefaultFirst(k, v, ds, i);
    }
    if forall i :: 0 <= i < |ds| ==> !Selectable(k, v, ds, i) {
      NoDefaultSelectable(k, v, ds);
      forall i | FirstSeen(v, k.Item(c).syms, i) ensures FirstVisible(v, k.Item(c).syms) == Some(k.Item(c).syms[i]) {
        FirstVisibleFirst(v, k.Item(c).syms, i);
      }
    }
  }

  // ---------- Text ----------

  // The text of the default that applies, and nothing if none does.
  ghost predicate DefaultText(k: Config, v: Valuation, ds: seq<Default>, s: string) {
    || (exists i :: DefaultApplies(k, v, ds, i) && ds[i].value.Ref? && ValOf(v, ds[i].value.id).str == s)
    || (s == "" && forall i :: 0 <= i < |ds| ==> ExprValue(k, v, ds[i].cond) == 0)
  }

  lemma DefaultTextValue(k: Config, v: Valuation, ds: seq<Default>) returns (s: string)
    requires forall d :: d in ds ==> d.value.Ref?
    ensures DefaultText(k, v, ds, s)
    ensures var d := DefaultStr(k, v, ds); s == (if d.Some? then d.value else "")
    ensures DefaultStr(k, v, ds).None? <==> forall i :: 0 <= i < |ds| ==> ExprValue(k, v, ds[i].cond) == 0
  {
    var i := FirstApplies(k, v, ds);
    var d := DefaultStr(k, v, ds);
    s := if d.Some? then d.value else "";
    assert ActiveDefault(k, v, ds).Some? ==> ds[i] in ds;
  }

  lemma DefaultsAreSymbols(k: Config, us: Users, x: Id)
    requires Good(k, us) && x < |k.items| && k.Item(x).Symbol? && !k.Item(x).Logical()
    ensures forall d :: d in k.Item(x).defaults ==> d.value.Ref?
  {
    assert ItemOk(k, x);
  }

  // A string symbol has its user value if it is visible, and otherwise the text of its default.
  lemma StringValue(k: Config, us: Users, x: Id)
    requires Good(k, us) && x < |k.items| && k.Item(x).Symbol? && k.Item(x).origType == STRING
    ensures var v := Evaluate(k, us);
      if ValOf(v, x).vis != 0 && UserOf(us, x).Str().Some? then ValOf(v, x).str == UserOf(us, x).Str().value
      else DefaultText(k, v, k.Item(x).defaults, ValOf(v, x).str)
  {
    var v := Evaluate(k, us);
    SolvedStr(k, us, x);
    DefaultsAreSymbols(k, us, x);
    var s := DefaultTextValue(k, v, k.Item(x).defaults);
  }

  // A number that a text stands for, and 0 if it stands for none.
  ghost predicate Reads(s: string, base: nat, n: int) {
    ParseInt(s, base) == Some(n) || (ParseInt(s, base) == None && n == 0)
  }

  ghost predicate RangeApplies(k: Config, v: Valuation, rs: seq<Range>, i: int) {
    && 0 <= i < |rs| && ExprValue(k, v, rs[i].cond) != 0
    && forall j :: 0 <= j < i ==> ExprValue(k, v, rs[j].cond) == 0
  }

  ghost predicate LimitsAre(v: Valuation, r: Range, base: nat, low: int, high: int) {
    Reads(ValOf(v, r.low).str, base, low) && Reads(ValOf(v, r.high).str, base, high)
  }

  lemma RangeHere(k: Config, v: Valuation, rs: seq<Range>, r: Range, base: nat, low: int, high: int)
    requires rs != [] && r == rs[0] && ExprValue(k, v, r.cond) != 0 && ActiveRange(k, v, rs, base) == Bounds(low, high)
    ensures NumOrZero(ValOf(v, r.low).str, base) == low && NumOrZero(ValOf(v, r.high).str, base) == high
  {
  }

  lemma RangeLater(k: Config, v: Valuation, rs: seq<Range>, base: nat)
    requires rs != [] && ExprValue(k, v, rs[0].cond) == 0
    ensures ActiveRange(k, v, rs, base) == ActiveRange(k, v, rs[1..], base)
  {
  }

  lemma LimitsReached(v: Valuation, r: Range, base: nat, low: int, high: int)
    requires NumOrZero(ValOf(v, r.low).str, base) == low && NumOrZero(ValOf(v, r.high).str, base) == high
    ensures LimitsAre(v, r, base, low, high)
  {
    NumberReads(ValOf(v, r.low).str, base, low);
    NumberReads(ValOf(v, r.high).str, base, high);
  }

  lemma AppliesLater(k: Config, v: Valuation, rs: seq<Range>, rest: seq<Range>, j: int, i: int)
    requires rs != [] && rest == rs[1..] && ExprValue(k, v, rs[0].cond) == 0
    requires i == j + 1 && RangeApplies(k, v, rest, j)
    ensures RangeApplies(k, v, rs, i) && rs[i] == rest[j]
  {
    assert forall n :: 1 <= n < |rs| ==> rs[n] == rest[n - 1];
  }

  lemma {:induction false} FirstRange(k: Config, v: Valuation, rs: seq<Range>, base: nat, low: int, high: int)
      returns (i: int)
    requires ActiveRange(k, v, rs, base) == Bounds(low, high)
    ensures RangeApplies(k, v, rs, i) && LimitsAre(v, rs[i], base, low, high)
    decreases |rs|
  {
    if ExprValue(k, v, rs[0].cond) == 0 {
      RangeLater(k, v, rs, base);
      var j := FirstRange(k, v, rs[1..], base, low, high);
      i := j + 1;
      AppliesLater(k, v, rs, rs[1..], j, i);
    } else {
      i := 0;
      RangeHere(k, v, rs, rs[0], base, low, high);
      LimitsReached(v, rs[0], base, low, high);
    }
  }

  lemma {:induction false} NoRange(k: Config, v: Valuation, rs: seq<Range>, base: nat)
    requires ActiveRange(k, v, rs, base) == Unbounded
    ensures forall i :: 0 <= i < |rs| ==> ExprValue(k, v, rs[i].cond) == 0
    decreases |rs|
  {
    if rs != [] {
      NoRange(k, v, rs[1..], base);
      assert forall n :: 1 <= n < |rs| ==> rs[n] == rs[1..][n - 1];
    }
  }

  // The range that is in effect, if any.
  ghost predicate Limits(k: Config, v: Valuation, rs: seq<Range>, base: nat, b: Bounds) {
    match b
    case Unbounded => forall i :: 0 <= i < |rs| ==> ExprValue(k, v, rs[i].cond) == 0
    case Bounds(low, high) => exists i :: RangeApplies(k, v, rs, i) && LimitsAre(v, rs[i], base, low, high)
  }

  lemma ActiveRangeLimits(k: Config, v: Valuation, rs: seq<Range>, base: nat, b: Bounds)
    requires b == ActiveRange(k, v, rs, base)
    ensures Limits(k, v, rs, base, b)
  {
    match b
    case Unbounded => NoRange(k, v, rs, base);
    case Bounds(low, high) => var i := FirstRange(k, v, rs, base, low, high);
  }

  // A user value that is visible, not empty, and reads as a number within the limits, if there are any.
  ghost predicate UserKept(vis: Tri, user: Option<string>, base: nat, b: Bounds) {
    && vis != 0 && user.Some? && user.value != ""
    && (b.Bounds? ==> exists n :: Reads(user.value, base, n) && b.low <= n <= b.high)
  }

  // `s` is the text `d`, or the limit that it exceeds.
  ghost predicate Moved(t: Type, base: nat, b: Bounds, d: string, s: string) {
    exists n :: Reads(d, base, n) &&
      if b.Bounds? && n < b.low then s == (if t == INT then Str(b.low) else Hex(b.low))
      else if b.Bounds? && b.high < n then s == (if t == INT then Str(b.high) else Hex(b.high))
      else s == d
  }

  // The number is kept as the user gave it, or else the default is moved into the range.
  ghost predicate KeptOrMoved(t: Type, vis: Tri, user: Option<string>, b: Bounds, d: string, s: string) {
    if UserKept(vis, user, NumberBase(t), b) then user == Some(s) else Moved(t, NumberBase(t), b, d, s)
  }

  lemma UserKeptExact(vis: Tri, user: Option<string>, base: nat, b: Bounds, n: int)
    requires user.Some? ==> n == NumOrZero(user.value, base)
    ensures UserKept(vis, user, base, b) <==> vis != 0 && user.Some? && user.value != "" && InBounds(b, n)
  {
    if user.Some? {
      NumberReads(user.value, base, n);
    }
  }

  lemma ClampMoves(t: Type, base: nat, b: Bounds, d: string, s: string)
    requires s == Clamp(t, base, b, d)
    ensures Moved(t, base, b, d, s)
  {
    NumberReads(d, base, NumOrZero(d, base));
  }

  lemma NumberTextMeans(us: Users, x: Id, t: Type, vis: Tri, b: Bounds, d: string, s: string)
    requires s == if UserNumberOk(us, vis, x, NumberBase(t), b) then UserOf(us, x).Str().value
                  else Clamp(t, NumberBase(t), b, d)
    ensures KeptOrMoved(t, vis, UserOf(us, x).Str(), b, d, s)
  {
    var user := UserOf(us, x).Str();
    UserKeptExact(vis, user, NumberBase(t), b, if user.Some? then NumOrZero(user.value, NumberBase(t)) else 0);
    if !UserNumberOk(us, vis, x, NumberBase(t), b) {
      ClampMoves(t, NumberBase(t), b, d, s);
    }
  }

  lemma SolvedNumber(k: Config, us: Users, x: Id, base: nat, b: Bounds, d: Option<string>)
    requires Good(k, us) && x < |k.items| && k.Item(x).Symbol? && k.Item(x).Numeric() && base == k.Item(x).Base()
    requires b == ActiveRange(k, Evaluate(k, us), k.Item(x).ranges, base)
    requires d == DefaultStr(k, Evaluate(k, us), k.Item(x).defaults)
    ensures ValOf(Evaluate(k, us), x).str
         == if UserNumberOk(us, ValOf(Evaluate(k, us), x).vis, x, base, b) then UserOf(us, x).Str().value
            else Clamp(k.Item(x).origType, base, b, if d.Some? then d.value else "")
  {
    SolvedStr(k, us, x);
  }

  lemma NumberLimits(k: Config, us: Users, x: Id, b: Bounds)
    requires k.Item(x).Symbol? && k.Item(x).Numeric()
    requires b == ActiveRange(k, Evaluate(k, us), k.Item(x).ranges, k.Item(x).Base())
    ensures Limits(k, Evaluate(k, us), k.Item(x).ranges, NumberBase(k.Item(x).origType), b)
  {
    BaseIsMeant(k.Item(x));
    ActiveRangeLimits(k, Evaluate(k, us), k.Item(x).ranges, k.Item(x).Base(), b);
  }

  lemma NumberDefault(k: Config, us: Users, x: Id) returns (d: string)
    requires Good(k, us) && x < |k.items| && k.Item(x).Symbol? && k.Item(x).Numeric()
    ensures DefaultText(k, Evaluate(k, us), k.Item(x).defaults, d)
    ensures var text := DefaultStr(k, Evaluate(k, us), k.Item(x).defaults);
            d == if text.Some? then text.value else ""
  {
    DefaultsAreSymbols(k, us, x);
    d := DefaultTextValue(k, Evaluate(k, us), k.Item(x).defaults);
  }

  lemma NumberKept(k: Config, us: Users, x: Id, b: Bounds, d: string)
    requires Good(k, us) && x < |k.items| && k.Item(x).Symbol? && k.Item(x).Numeric()
    requires b == ActiveRange(k, Evaluate(k, us), k.Item(x).ranges, k.Item(x).Base())
    requires var text := DefaultStr(k, Evaluate(k, us), k.Item(x).defaults); d == if text.Some? then text.value else ""
    ensures KeptOrMoved(k.Item(x).origType, ValOf(Evaluate(k, us), x).vis, UserOf(us, x).Str(), b, d,
                        ValOf(Evaluate(k, us), x).str)
  {
    var v, it := Evaluate(k, us), k.Item(x);
    BaseIsMeant(it);
    SolvedNumber(k, us, x, it.Base(), b, DefaultStr(k, v, it.defaults));
    NumberTextMeans(us, x, it.origType, ValOf(v, x).vis, b, d, ValOf(v, x).str);
  }

  // An int or hex symbol has its user value if that is kept, and otherwise the text of its default, moved into
  // the range that applies.
  lemma NumberValue(k: Config, us: Users, x: Id) returns (b: Bounds, d: string)
    requires Good(k, us) && x < |k.items| && k.Item(x).Symbol? && k.Item(x).Numeric()
    ensures Limits(k, Evaluate(k, us), k.Item(x).ranges, NumberBase(k.Item(x).origType), b)
    ensures DefaultText(k, Evaluate(k, us), k.Item(x).defaults, d)
    ensures KeptOrMoved(k.Item(x).origType, ValOf(Evaluate(k, us), x).vis, UserOf(us, x).Str(), b, d,
                        ValOf(Evaluate(k, us), x).str)
  {
    b := ActiveRange(k, Evaluate(k, us), k.Item(x).ranges, k.Item(x).Base());
    NumberLimits(k, us, x, b);
    d := NumberDefault(k, us, x);
    NumberKept(k, us, x, b, d);
  }

  lemma NumberReads(s: string, base: nat, n: int)
    requires n == NumOrZero(s, base)
    ensures Reads(s, base, n) && forall m :: Reads(s, base, m) ==> m == n
  {
  }

  // The text of the other symbols: n, m or y, and the name of a symbol that has no type.
  lemma OtherText(k: Config, us: Users, x: Id)
    requires Good(k, us) && x < |k.items| && k.Item(x).Symbol?
    ensures var v := Evaluate(k, us);
      && (k.Item(x).Logical() ==> ValOf(v, x).str == match ValOf(v, x).tri case 0 => "n" case 1 => "m" case _ => "y")
      && (k.Item(x).origType == UNKNOWN ==> ValOf(v, x).str == k.Item(x).name)
      && (!k.Item(x).Logical() && !k.Item(x).Preset() ==> ValOf(v, x).tri == 0)
  {
    SolvedStr(k, us, x);
    SolvedTri(k, us, x);
  }

  // Which text symbols have a line: those that are visible or have a default that applies.
  lemma TextWritten(k: Config, us: Users, x: Id)
    requires Good(k, us) && x < |k.items| && k.Item(x).Symbol? && !k.Item(x).Logical() && k.Item(x).origType != UNKNOWN
    ensures var v := Evaluate(k, us);
      ValOf(v, x).write <==>
        && !k.Item(x).noConf
        && (ValOf(v, x).vis != 0 || exists i :: DefaultApplies(k, v, k.Item(x).defaults, i))
  {
    var v := Evaluate(k, us);
    SolvedWrite(k, us, x);
    DefaultsAreSymbols(k, us, x);
    var s := DefaultTextValue(k, v, k.Item(x).defaults);
    var i := FirstApplies(k, v, k.Item(x).defaults);
  }
}
