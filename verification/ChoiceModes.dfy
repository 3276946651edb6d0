/** What choice modes mean for the symbols of a choice, in every state a user can bring about. */
module ChoiceModes {
  import opened Wrappers
  import opened Model
  import opened Values
  import opened Support
  import opened Transfer
  import opened Reference

  // Dependency propagation makes the mode of the choice an upper bound of the prompt condition: the
  // choice is a conjunct of it, unless the condition has been simplified to n.
  predicate CappedBy(k: Config, e: Expr, c: Id) {
    match e
    case Ref(id) => id == c || (id < |k.items| && k.Item(id).Preset() && k.Item(id).preset == Some(0))
    case And(l, r) => CappedBy(k, l, c) || CappedBy(k, r, c)
    case _ => false
  }

  // A bool or tristate choice of bool or tristate symbols that are defined nowhere else.
  ghost predicate ProperChoice(k: Config, c: Id) {
    && c < |k.items| && k.Item(c).Choice? && k.Item(c).Logical()
    && forall x :: x in k.Item(c).syms ==>
         k.Item(x).Logical() && forall e :: e in k.Item(x).prompts ==> CappedBy(k, e, c)
  }

  lemma {:induction false} CappedValue(k: Config, us: Users, e: Expr, c: Id)
    requires Good(k, us) && CappedBy(k, e, c)
    ensures ExprValue(k, Evaluate(k, us), e) <= ValOf(Evaluate(k, us), c).tri
  {
    match e
    case Ref(id) =>
      if id != c {
        SolvedTri(k, us, id);
      }
    case And(l, r) =>
      if CappedBy(k, l, c) {
        CappedValue(k, us, l, c);
      } else {
        CappedValue(k, us, r, c);
      }
    case _ =>
  }

  lemma {:induction false} CappedPrompts(k: Config, us: Users, prompts: seq<Expr>, c: Id)
    requires Good(k, us) && forall e :: e in prompts ==> CappedBy(k, e, c)
    ensures PromptMax(k, Evaluate(k, us), prompts) <= ValOf(Evaluate(k, us), c).tri
  {
    if prompts != [] {
      CappedValue(k, us, prompts[0], c);
      CappedPrompts(k, us, prompts[1..], c);
    }
  }

  // The visibility of a choice symbol follows from the mode.
  lemma MemberVisibility(k: Config, us: Users, c: Id, x: Id)
    requires Good(k, us) && ProperChoice(k, c) && x in k.Item(c).syms
    ensures var mode, vis := ValOf(Evaluate(k, us), c).tri, ValOf(Evaluate(k, us), x).vis;
      vis <= mode && (mode == 2 ==> vis != 1)
  {
    assert ItemOk(k, c);
    CappedPrompts(k, us, k.Item(x).prompts, c);
    SolvedVis(k, us, x);
    SolvedChoice(k, us, c);
  }

  lemma {:induction false} FirstVisibleIsVisible(v: Valuation, syms: seq<Id>)
    ensures FirstVisible(v, syms).None? <==> forall x :: x in syms ==> ValOf(v, x).vis == 0
    ensures var s := FirstVisible(v, syms); s.Some? ==> s.value in syms && ValOf(v, s.value).vis != 0
  {
    if syms != [] {
      FirstVisibleIsVisible(v, syms[1..]);
    }
  }

  lemma {:induction false} FirstDefaultIsVisible(k: Config, v: Valuation, ds: seq<ChoiceDefault>)
    ensures var s := FirstDefault(k, v, ds);
      s.Some? ==> ValOf(v, s.value).vis != 0 && exists d :: d in ds && d.sym == s.value
  {
    if ds != [] && !(ExprValue(k, v, ds[0].cond) != 0 && ValOf(v, ds[0].sym).vis != 0) {
      FirstDefaultIsVisible(k, v, ds[1..]);
    }
  }

  // In y mode a choice has a selection if and only if one of its symbols is visible, and the selection is
  // itself visible; in the other modes it has none.
  lemma SelectionVisible(k: Config, us: Users, c: Id)
    requires Good(k, us) && ProperChoice(k, c)
    ensures var v := Evaluate(k, us); var sel := ValOf(v, c).sel;
      && (sel.Some? <==> ValOf(v, c).tri == 2 && exists x :: x in k.Item(c).syms && ValOf(v, x).vis != 0)
      && (sel.Some? ==> sel.value in k.Item(c).syms && ValOf(v, sel.value).vis != 0)
  {
    var v := Evaluate(k, us);
    assert ItemOk(k, c);
    assert SelectionOk(k, us, c);
    SolvedChoice(k, us, c);
    FirstVisibleIsVisible(v, k.Item(c).syms);
    FirstDefaultIsVisible(k, v, k.Item(c).choiceDefaults);
  }

  lemma MemberValue(k: Config, us: Users, c: Id, x: Id)
    requires Good(k, us) && ProperChoice(k, c) && x in k.Item(c).syms
    ensures ValOf(Evaluate(k, us), x).tri == MemberTri(us, Evaluate(k, us), x, c).val
  {
    assert ItemOk(k, c);
    assert ItemOk(k, x);
    SolvedTri(k, us, x);
  }

  // In y mode the selection is y and every other symbol is n; in m mode no symbol is y; in n mode all are n.
  lemma ModeDecides(k: Config, us: Users, c: Id, x: Id)
    requires Good(k, us) && ProperChoice(k, c) && x in k.Item(c).syms
    ensures var v := Evaluate(k, us); var mode, t := ValOf(v, c).tri, ValOf(v, x).tri;
      && (mode == 2 ==> t == if ValOf(v, c).sel == Some(x) then 2 else 0)
      && (mode == 1 ==> t == if ValOf(v, x).vis == 1 && IsSet(us, x) then 1 else 0)
      && (mode == 0 ==> t == 0)
      && (ValOf(v, x).vis == 2 ==> mode == 2)
  {
    MemberVisibility(k, us, c, x);
    MemberValue(k, us, c, x);
    if ValOf(Evaluate(k, us), c).tri == 2 {
      SelectionVisible(k, us, c);
    }
  }

  predicate IsSet(us: Users, x: Id) {
    UserOf(us, x).Tri().Some? && UserOf(us, x).Tri().value != 0
  }

  // "One symbol will be y, the rest n": in y mode there is exactly one y symbol, provided that any symbol of
  // the choice is visible at all, and otherwise there is none.
  lemma OneSymbolIsY(k: Config, us: Users, c: Id)
    requires Good(k, us) && ProperChoice(k, c) && ValOf(Evaluate(k, us), c).tri == 2
    ensures var v := Evaluate(k, us);
      (exists x :: x in k.Item(c).syms && ValOf(v, x).vis != 0)
      <==> (exists x :: x in k.Item(c).syms && ValOf(v, x).tri == 2
              && forall y :: y in k.Item(c).syms && y != x ==> ValOf(v, y).tri == 0)
    ensures var v := Evaluate(k, us);
      forall x, y :: x in k.Item(c).syms && y in k.Item(c).syms && ValOf(v, x).tri != 0 && ValOf(v, y).tri != 0
        ==> x == y
  {
    var v := Evaluate(k, us);
    SelectionVisible(k, us, c);
    forall x | x in k.Item(c).syms ensures ValOf(v, x).tri == if ValOf(v, c).sel == Some(x) then 2 else 0 {
      ModeDecides(k, us, c, x);
    }
  }
}
