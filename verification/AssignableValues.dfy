/** `assignable` against what assignments do. */
module AssignableValues {
  import opened Wrappers
  import opened Model
  import opened Numbers
  import opened Values
  import opened Support
  import opened Transfer
  import opened Reference
  import opened Assignments
  import opened Comparison
  import opened ChoiceModes

  // What the value of `x` becomes when it is assigned `t`: of a choice, the mode.
  ghost function ValueAfter(k: Config, us: Users, x: Id, t: Tri): Tri
    requires |us| == |k.items| && x < |us|
  {
    ValOf(Evaluate(k, Assigned(k, us, x, TriValue(t))), x).tri
  }

  // The point in the evaluation order up to which assigning to `x` cannot have an effect: its own value or
  // mode, or already the selection if it is in a choice.
  function Horizon(k: Config, x: Id): int {
    if k.Item(x).Choice? then Place(k, x, MODE)
    else if k.Item(x).InChoice() then Place(k, x, VIS) + 1
    else Place(k, x, TRI)
  }

  lemma {:induction false} BeforeHorizon(k: Config, us: Users, x: Id, stored: UserValue, m: nat)
    requires |us| == |k.items| && x < |us| && Good(k, us) && Good(k, Assigned(k, us, x, stored))
    requires m <= Horizon(k, x)
    ensures Agree(k, m, Evaluate(k, us), Evaluate(k, Assigned(k, us, x, stored)))
  {
    if m == 0 {
      AgreeZero(k, 0, Evaluate(k, us), Evaluate(k, Assigned(k, us, x, stored)));
    } else {
      var prev: nat, n := m - 1, m;
      BeforeHorizon(k, us, x, stored, prev);
      var v, v' := Evaluate(k, us), Evaluate(k, Assigned(k, us, x, stored));
      forall y: Id | y < |k.items| ensures AgreeAt(k, n, v, v', y) {
        HorizonStep(k, us, x, stored, prev, n, y);
      }
    }
  }

  lemma HorizonStep(k: Config, us: Users, x: Id, stored: UserValue, m: nat, n: nat, y: Id)
    requires |us| == |k.items| && x < |us| && y < |us| && Good(k, us) && Good(k, Assigned(k, us, x, stored))
    requires m < Horizon(k, x) && n == m + 1
    requires Agree(k, m, Evaluate(k, us), Evaluate(k, Assigned(k, us, x, stored)))
    ensures AgreeAt(k, n, Evaluate(k, us), Evaluate(k, Assigned(k, us, x, stored)), y)
  {
    assert ItemOk(k, x);
    SameUserAgrees(k, us, Assigned(k, us, x, stored), m, y);
  }

  // A symbol's own user value does not change its visibility, its type, or what selects and implies it.
  lemma OwnValueFrame(k: Config, us: Users, x: Id, stored: UserValue)
    requires |us| == |k.items| && x < |us| && Good(k, us) && Good(k, Assigned(k, us, x, stored))
    requires k.Item(x).Symbol? && k.Item(x).defined && k.Item(x).choice.None?
    ensures SameIngredients(k, Evaluate(k, us), Evaluate(k, Assigned(k, us, x, stored)), x)
  {
    BeforeHorizon(k, us, x, stored, Horizon(k, x));
    IngredientsSame(k, us, Evaluate(k, us), Evaluate(k, Assigned(k, us, x, stored)), x);
  }

  // The value of a visible symbol with user value `t`, in terms of what limits it.
  function Limited(t: Tri, vis: Tri, rev: Tri, neverM: bool): Tri {
    var val := if rev != 0 then Max(rev, Min(t, vis)) else Min(t, vis);
    if val == 1 && neverM then 2 else val
  }

  lemma ValueIsLimited(k: Config, us: Users, x: Id, t: Tri)
    requires Good(k, us) && UsersTyped(k, us) && |us| == |k.items| && x < |us|
    requires FreeSymbol(k, us, x) && ValidUserValue(k.Item(x), TriValue(t))
    ensures var v := Evaluate(k, us);
      ValueAfter(k, us, x, t)
      == Limited(t, ValOf(v, x).vis, ExprValue(k, v, k.Item(x).revDep), NeverM(k, v, x))
  {
    var us' := Assigned(k, us, x, TriValue(t));
    AssignedGood(k, us, x, TriValue(t));
    OwnValueFrame(k, us, x, TriValue(t));
    assert ItemOk(k, x);
    SolvedTri(k, us', x);
    VisibleUserValue(k, us', Evaluate(k, us'), x, t);
  }

  lemma VisibleUserValue(k: Config, us: Users, v: Valuation, x: Id, t: Tri)
    requires k.Item(x).Symbol? && ValOf(v, x).vis != 0 && UserOf(us, x).Tri() == Some(t)
    ensures FreeTri(k, us, v, x).val
         == Limited(t, ValOf(v, x).vis, ExprValue(k, v, k.Item(x).revDep), NeverM(k, v, x))
  {
  }

  // A visible bool or tristate symbol outside choices.
  ghost predicate FreeSymbol(k: Config, us: Users, x: Id) {
    && k.Item(x).Symbol? && k.Item(x).Logical() && k.Item(x).choice.None? && k.Item(x).defined
    && ValOf(Evaluate(k, us), x).vis != 0
  }

  // The one case in which `assignable` disagrees with the value: m visibility, selected with value m, and
  // implied with value y.
  ghost predicate ImpliedPastVisibility(k: Config, us: Users, x: Id) {
    var v := Evaluate(k, us);
    && k.Item(x).Symbol?
    && ValOf(v, x).vis == 1
    && ExprValue(k, v, k.Item(x).revDep) == 1
    && ExprValue(k, v, k.Item(x).weakRevDep) == 2
  }

  // m visibility is only possible for a symbol whose type is tristate right now.
  lemma VisibleAsM(k: Config, us: Users, x: Id)
    requires Good(k, us) && x < |k.items| && ValOf(Evaluate(k, us), x).vis == 1
    ensures TypeOf(k, Evaluate(k, us), x) == TRISTATE
  {
    SolvedVis(k, us, x);
  }

  // Assigning any of the assignable values gives that value, and no accepted assignment gives another one.
  ghost predicate Exact(k: Config, us: Users, x: Id)
    requires |us| == |k.items| && x < |us|
  {
    var asg := ValOf(Evaluate(k, us), x).asg;
    && (forall t: Tri :: t in asg ==> ValidUserValue(k.Item(x), TriValue(t)) && ValueAfter(k, us, x, t) == t)
    && (forall t: Tri :: ValidUserValue(k.Item(x), TriValue(t)) ==> ValueAfter(k, us, x, t) in asg)
  }

  // What is assignable, and what assignments give, for a symbol that is visible.
  lemma LevelsAndLimits(k: Config, us: Users, x: Id)
    requires Good(k, us) && UsersTyped(k, us) && |us| == |k.items| && x < |us| && FreeSymbol(k, us, x)
    ensures var v := Evaluate(k, us);
            var vis, rev, never := ValOf(v, x).vis, ExprValue(k, v, k.Item(x).revDep), NeverM(k, v, x);
      && ValOf(v, x).asg == Levels(k, v, x, rev) && (vis == 1 ==> TypeOf(k, v, x) == TRISTATE)
      && forall t: Tri ::
           ValidUserValue(k.Item(x), TriValue(t)) ==> ValueAfter(k, us, x, t) == Limited(t, vis, rev, never)
  {
    var v := Evaluate(k, us);
    SolvedAsg(k, us, x);
    if ValOf(v, x).vis == 1 {
      VisibleAsM(k, us, x);
    }
    forall t: Tri | ValidUserValue(k.Item(x), TriValue(t))
      ensures ValueAfter(k, us, x, t) == Limited(t, ValOf(v, x).vis, ExprValue(k, v, k.Item(x).revDep), NeverM(k, v, x))
    {
      ValueIsLimited(k, us, x, t);
    }
  }

  lemma ImpliedNotExact(k: Config, us: Users, x: Id)
    requires Good(k, us) && UsersTyped(k, us) && |us| == |k.items| && x < |us| && FreeSymbol(k, us, x)
    requires ImpliedPastVisibility(k, us, x)
    ensures !Exact(k, us, x)
  {
    LevelsAndLimits(k, us, x);
    LevelsExact(k, Evaluate(k, us), x);
    assert 1 in ValOf(Evaluate(k, us), x).asg;
  }

  lemma OtherwiseExact(k: Config, us: Users, x: Id)
    requires Good(k, us) && UsersTyped(k, us) && |us| == |k.items| && x < |us| && FreeSymbol(k, us, x)
    requires !ImpliedPastVisibility(k, us, x)
    ensures Exact(k, us, x)
  {
    LevelsAndLimits(k, us, x);
    LevelsExact(k, Evaluate(k, us), x);
    BoolNeverM(k, Evaluate(k, us), x);
  }

  // Outside choices `assignable` is exact except in one case, and in that case it is wrong.
  lemma AssignableExact(k: Config, us: Users, x: Id)
    requires Good(k, us) && UsersTyped(k, us) && |us| == |k.items| && x < |us| && FreeSymbol(k, us, x)
    ensures Exact(k, us, x) <==> !ImpliedPastVisibility(k, us, x)
  {
    if ImpliedPastVisibility(k, us, x) {
      ImpliedNotExact(k, us, x);
    } else {
      OtherwiseExact(k, us, x);
    }
  }

  lemma BoolNeverM(k: Config, v: Valuation, x: Id)
    ensures k.Item(x).origType == BOOL ==> NeverM(k, v, x)
  {
  }

  // The table of assignable values, entry by entry.
  lemma LevelsExact(k: Config, v: Valuation, x: Id)
    requires k.Item(x).Symbol? && k.Item(x).choice.None? && ValOf(v, x).vis != 0
    requires ValOf(v, x).vis == 1 ==> TypeOf(k, v, x) == TRISTATE
    ensures var vis, rev, never := ValOf(v, x).vis, ExprValue(k, v, k.Item(x).revDep), NeverM(k, v, x);
      var corner := vis == 1 && rev == 1 && never;
      && (forall t: Tri ::
            t in Levels(k, v, x, rev) && !corner ==> Limited(t, vis, rev, never) == t && (never ==> t != 1))
      && (forall t: Tri :: !corner ==> Limited(t, vis, rev, never) in Levels(k, v, x, rev))
      && (corner ==> Levels(k, v, x, rev) == [1] && forall t: Tri :: Limited(t, vis, rev, never) == 2)
  {
  }

  // A choice symbol that is visible with y can be assigned y and nothing else, and doing so selects it.
  lemma MemberSelectable(k: Config, us: Users, c: Id, x: Id)
    requires Good(k, us) && UsersTyped(k, us) && |us| == |k.items| && x < |us|
    requires ProperChoice(k, c) && x in k.Item(c).syms && ValOf(Evaluate(k, us), x).vis == 2
    ensures ValOf(Evaluate(k, us), x).asg == [2]
    ensures var v' := Evaluate(k, Assigned(k, us, x, TriValue(2)));
      ValOf(v', c).sel == Some(x) && ValOf(v', x).tri == 2
      && forall y :: y in k.Item(c).syms && y != x ==> ValOf(v', y).tri == 0
  {
    var us' := Assigned(k, us, x, TriValue(2));
    var v, v' := Evaluate(k, us), Evaluate(k, us');
    assert ItemOk(k, c);
    MemberVisibility(k, us, c, x);
    SolvedAsg(k, us, x);
    AssignedGood(k, us, x, TriValue(2));
    BeforeHorizon(k, us, x, TriValue(2), Horizon(k, x));
    assert AgreeAt(k, Horizon(k, x), v, v', x) && AgreeAt(k, Horizon(k, x), v, v', c);
    SelectedNow(k, us', c, x);
    forall y | y in k.Item(c).syms ensures ValOf(v', y).tri == if y == x then 2 else 0 {
      ModeDecides(k, us', c, y);
    }
  }

  // Assigning a value to a symbol of a choice does not change its visibility.
  lemma MemberStaysVisible(k: Config, us: Users, c: Id, x: Id, t: Tri)
    requires Good(k, us) && UsersTyped(k, us) && |us| == |k.items| && x < |us|
    requires ProperChoice(k, c) && x in k.Item(c).syms && ValOf(Evaluate(k, us), x).vis == 1
    ensures var us' := Assigned(k, us, x, TriValue(t));
            ValidUserValue(k.Item(x), TriValue(t)) && Good(k, us') && ValOf(Evaluate(k, us'), x).vis == 1
  {
    VisibleAsM(k, us, x);
    AssignedGood(k, us, x, TriValue(t));
    BeforeHorizon(k, us, x, TriValue(t), Horizon(k, x));
    var v, v' := Evaluate(k, us), Evaluate(k, Assigned(k, us, x, TriValue(t)));
    assert AgreeAt(k, Horizon(k, x), v, v', x);
  }

  // The value that the user gives, which is m at most when visible with m.
  lemma UserTri(us: Users, v: Valuation, x: Id, c: Id, t: Tri)
    requires UserOf(us, x).value == Some(TriValue(t)) && ValOf(v, x).vis == 1
    ensures MemberTri(us, v, x, c).val == if t == 0 then 0 else 1
  {
  }

  // A choice symbol that is visible with m follows its user value; what selects or implies it has no effect.
  lemma MemberValueAfter(k: Config, us: Users, c: Id, x: Id, t: Tri)
    requires Good(k, us) && UsersTyped(k, us) && |us| == |k.items| && x < |us|
    requires ProperChoice(k, c) && x in k.Item(c).syms && ValOf(Evaluate(k, us), x).vis == 1
    ensures ValidUserValue(k.Item(x), TriValue(t)) && ValueAfter(k, us, x, t) == if t == 0 then 0 else 1
  {
    var us' := Assigned(k, us, x, TriValue(t));
    MemberStaysVisible(k, us, c, x, t);
    MemberValue(k, us', c, x);
    assert UserOf(us', x).value == Some(TriValue(t)) by {
      assert ItemOk(k, c);
    }
    UserTri(us', Evaluate(k, us'), x, c, t);
  }

  // For such a symbol `assignable` is exact if and only if it is neither selected nor implied with y, which
  // the code only warns about.
  lemma MemberAssignableExact(k: Config, us: Users, c: Id, x: Id)
    requires Good(k, us) && UsersTyped(k, us) && |us| == |k.items| && x < |us|
    requires ProperChoice(k, c) && x in k.Item(c).syms && ValOf(Evaluate(k, us), x).vis == 1
    ensures var v := Evaluate(k, us);
      Exact(k, us, x) <==> ExprValue(k, v, k.Item(x).revDep) == 0 && ExprValue(k, v, k.Item(x).weakRevDep) != 2
  {
    var v := Evaluate(k, us);
    MemberLevels(k, us, c, x);
    forall t: Tri ensures ValidUserValue(k.Item(x), TriValue(t)) && ValueAfter(k, us, x, t) == if t == 0 then 0 else 1 {
      MemberValueAfter(k, us, c, x, t);
    }
    FollowingLevels(k, us, x, ExprValue(k, v, k.Item(x).revDep), ExprValue(k, v, k.Item(x).weakRevDep));
  }

  function LevelsAsM(rev: Tri, weak: Tri): seq<Tri> {
    if rev == 0 then (if weak == 2 then [0, 2] else [0, 1]) else if rev == 2 then [2] else [1]
  }

  lemma MemberLevels(k: Config, us: Users, c: Id, x: Id)
    requires Good(k, us) && ProperChoice(k, c) && x in k.Item(c).syms && ValOf(Evaluate(k, us), x).vis == 1
    ensures var v := Evaluate(k, us);
      ValOf(v, x).asg == LevelsAsM(ExprValue(k, v, k.Item(x).revDep), ExprValue(k, v, k.Item(x).weakRevDep))
  {
    assert ItemOk(k, c);
    SolvedAsg(k, us, x);
  }

  lemma FollowingLevels(k: Config, us: Users, x: Id, rev: Tri, weak: Tri)
    requires |us| == |k.items| && x < |us| && ValOf(Evaluate(k, us), x).asg == LevelsAsM(rev, weak)
    requires forall t: Tri ::
      ValidUserValue(k.Item(x), TriValue(t)) && ValueAfter(k, us, x, t) == if t == 0 then 0 else 1
    ensures Exact(k, us, x) <==> rev == 0 && weak != 2
  {
    var asg := LevelsAsM(rev, weak);
    assert ValueAfter(k, us, x, 0) == 0 && ValueAfter(k, us, x, 2) == 1;
    assert rev == 0 && weak == 2 ==> 2 in asg;
    assert rev == 2 ==> 2 in asg;
    assert rev == 1 ==> 0 !in asg;
  }

  lemma SelectedNow(k: Config, us: Users, c: Id, x: Id)
    requires Good(k, us) && c < |k.items| && k.Item(c).Choice?
    requires ValOf(Evaluate(k, us), c).tri == 2 && UserOf(us, c).selection == Some(x)
    requires ValOf(Evaluate(k, us), x).vis != 0
    ensures ValOf(Evaluate(k, us), c).sel == Some(x)
  {
    SolvedChoice(k, us, c);
  }

  // The mode that a visible choice gets from a user value.
  function ModeFor(t: Tri, vis: Tri, optional: bool, neverM: bool): Tri {
    var mode := Min(if optional then t else Max(1, t), vis);
    if mode == 1 && neverM then 2 else mode
  }

  lemma ModeAfter(k: Config, us: Users, c: Id, t: Tri)
    requires Good(k, us) && UsersTyped(k, us) && |us| == |k.items| && c < |us| && k.Item(c).Choice?
    requires ValidUserValue(k.Item(c), TriValue(t))
    ensures var v := Evaluate(k, us);
      ValueAfter(k, us, c, t) == ModeFor(t, ValOf(v, c).vis, k.Item(c).optional, TypeOf(k, v, c) == BOOL)
  {
    var us' := Assigned(k, us, c, TriValue(t));
    var v, v' := Evaluate(k, us), Evaluate(k, us');
    AssignedGood(k, us, c, TriValue(t));
    BeforeHorizon(k, us, c, TriValue(t), Horizon(k, c));
    assert ValOf(v, c).vis == ValOf(v', c).vis && TypeOf(k, v, c) == TypeOf(k, v', c) by {
      assert AgreeAt(k, Horizon(k, c), v, v', c) && AgreeAt(k, Horizon(k, c), v, v', k.modules);
    }
    SolvedChoice(k, us', c);
  }

  function ModeLevels(vis: Tri, optional: bool, neverM: bool): seq<Tri> {
    (if optional then [0] else []) + (if neverM then [] else [1]) + (if vis == 2 then [2] else [])
  }

  lemma ChoiceLevels(k: Config, us: Users, c: Id)
    requires Good(k, us) && c < |k.items| && k.Item(c).Choice? && ValOf(Evaluate(k, us), c).vis != 0
    ensures var v := Evaluate(k, us); var vis, never := ValOf(v, c).vis, TypeOf(k, v, c) == BOOL;
      && ValOf(v, c).asg == ModeLevels(vis, k.Item(c).optional, never)
      && (vis == 1 ==> !never) && (k.Item(c).origType == BOOL ==> never)
  {
    SolvedAsg(k, us, c);
    if ValOf(Evaluate(k, us), c).vis == 1 {
      VisibleAsM(k, us, c);
    }
  }

  lemma ModeLevelsExact(vis: Tri, optional: bool, neverM: bool)
    requires vis != 0 && (vis == 1 ==> !neverM)
    ensures forall t: Tri :: t in ModeLevels(vis, optional, neverM) ==>
              ModeFor(t, vis, optional, neverM) == t && (neverM ==> t != 1)
    ensures forall t: Tri :: ModeFor(t, vis, optional, neverM) in ModeLevels(vis, optional, neverM)
  {
  }

  // The assignable modes of a visible choice are exact, without exception.
  lemma ModesExact(k: Config, us: Users, c: Id)
    requires Good(k, us) && UsersTyped(k, us) && |us| == |k.items| && c < |us| && k.Item(c).Choice?
      && k.Item(c).Logical()
    requires ValOf(Evaluate(k, us), c).vis != 0
    ensures Exact(k, us, c)
  {
    var v := Evaluate(k, us);
    var vis, never := ValOf(v, c).vis, TypeOf(k, v, c) == BOOL;
    ChoiceLevels(k, us, c);
    ModeLevelsExact(vis, k.Item(c).optional, never);
    forall t: Tri | ValidUserValue(k.Item(c), TriValue(t))
      ensures ValueAfter(k, us, c, t) == ModeFor(t, vis, k.Item(c).optional, never)
    {
      ModeAfter(k, us, c, t);
    }
  }
}
