/** What a minimal configuration file has lines for: what would be different without user values. */
module MinimalLines {
  import opened Wrappers
  import opened Model
  import opened Numbers
  import opened Values
  import opened Support
  import opened Transfer
  import opened Reference
  import opened Assignments
  import opened Comparison
  import opened ChoiceModes
  import opened ConfigFile
  import opened LoadedUsers
  import opened MinConfig
  import opened ValueMeaning

  // The user values with that of one symbol removed.
  function Unset(us: Users, x: Id): Users
    requires x < |us|
  {
    us[x := us[x].(value := None)]
  }

  // The user values with the selection of one choice removed.
  function Unselected(us: Users, c: Id): Users
    requires c < |us|
  {
    us[c := us[c].(selection := None)]
  }

  lemma StaysGood(k: Config, us: Users, x: Id)
    requires Good(k, us) && x < |us|
    ensures Good(k, Unset(us, x)) && Good(k, Unselected(us, x))
  {
    forall c: Id | c < |k.items| ensures SelectionOk(k, Unset(us, x), c) && SelectionOk(k, Unselected(us, x), c) {
      assert SelectionOk(k, us, c);
    }
  }

  // Two lists of user values that only differ for one item, of a choice in the selection only.
  ghost predicate OthersSame(k: Config, us: Users, us': Users, x: Id) {
    && x < |us| == |us'| && (forall y: Id :: y < |us| && y != x ==> us[y] == us'[y])
    && (k.Item(x).Choice? ==> us[x].value == us'[x].value)
  }

  function Change(k: Config, x: Id): int {
    Place(k, x, if k.Item(x).Choice? then SEL else TRI)
  }

  // Up to the value of the symbol, or the selection of the choice, this makes no difference.
  lemma {:induction false} SameBefore(k: Config, us: Users, us': Users, x: Id, m: nat)
    requires Good(k, us) && Good(k, us') && OthersSame(k, us, us', x) && m <= Change(k, x)
    ensures Agree(k, m, Evaluate(k, us), Evaluate(k, us'))
    decreases m
  {
    if m == 0 {
      AgreeZero(k, 0, Evaluate(k, us), Evaluate(k, us'));
    } else {
      var prev: nat, n := m - 1, m;
      SameBefore(k, us, us', x, prev);
      forall y: Id | y < |k.items| ensures AgreeAt(k, n, Evaluate(k, us), Evaluate(k, us'), y) {
        SameStep(k, us, us', x, prev, n, y);
      }
    }
  }

  lemma SameStep(k: Config, us: Users, us': Users, x: Id, m: nat, n: nat, y: Id)
    requires Good(k, us) && Good(k, us') && OthersSame(k, us, us', x) && m < Change(k, x) && n == m + 1
    requires y < |k.items| && Agree(k, m, Evaluate(k, us), Evaluate(k, us'))
    ensures AgreeAt(k, n, Evaluate(k, us), Evaluate(k, us'), y)
  {
    SameUserAgrees(k, us, us', m, y);
  }

  lemma UnsetIngredients(k: Config, us: Users, x: Id)
    requires Good(k, us) && x < |us| == |k.items| && k.Item(x).Symbol? && k.Item(x).defined
    ensures Good(k, Unset(us, x)) && SameIngredients(k, Evaluate(k, us), Evaluate(k, Unset(us, x)), x)
  {
    StaysGood(k, us, x);
    SameBefore(k, us, Unset(us, x), x, Place(k, x, TRI));
    IngredientsSame(k, us, Evaluate(k, us), Evaluate(k, Unset(us, x)), x);
  }

  // ---------- Symbols outside choices ----------

  // The symbol can be changed: it is more visible than it is selected, has a type, and is written at all.
  ghost predicate Changeable(k: Config, v: Valuation, x: Id) {
    var it := k.Item(x);
    && it.Symbol? && ValOf(v, x).vis > ExprValue(k, v, it.revDep)
    && it.origType != UNKNOWN && (it.Logical() || !it.noConf)
  }

  // The value without a user value is not the text of the default, as it has been moved into a range.
  ghost predicate MovedDefault(k: Config, v: Valuation, x: Id, s: string) {
    k.Item(x).Symbol? && k.Item(x).Numeric() && !DefaultText(k, v, k.Item(x).defaults, s)
  }

  // A symbol outside choices has a line if and only if it can be changed and its value is not the one that it
  // has without its user value; a default that has been moved into a range counts as changed.
  lemma FreeLine(k: Config, us: Users, x: Id)
    requires Good(k, us) && UsersTyped(k, us) && x < |us| == |k.items| && DefinedSymbol(k, x) && k.Item(x).choice.None?
    requires var v := Evaluate(k, us); ValOf(v, x).vis != 0 ==> ExprValue(k, v, k.Item(x).directDep) != 0
    ensures var v, v' := Evaluate(k, us), Evaluate(k, Unset(us, x));
      MinLine(k, v, x).Some? <==>
        Changeable(k, v, x) && (ValOf(v, x).str != ValOf(v', x).str || MovedDefault(k, v, x, ValOf(v', x).str))
  {
    UnsetIngredients(k, us, x);
    if k.Item(x).Logical() {
      LogicalLine(k, us, x);
    } else if k.Item(x).origType == STRING {
      StringLine(k, us, x);
    } else if k.Item(x).Numeric() {
      NumberLine(k, us, x);
    } else {
      SolvedWrite(k, us, x);
    }
  }

  lemma LineExact(k: Config, v: Valuation, x: Id)
    requires k.Item(x).Symbol? && k.Item(x).choice.None?
    ensures MinLine(k, v, x).Some? <==>
              && ValOf(v, x).vis > ExprValue(k, v, k.Item(x).revDep) && ValOf(v, x).write
              && ValOf(v, x).str != StrDefault(k, v, x)
  {
  }

  lemma LogicalLine(k: Config, us: Users, x: Id)
    requires Good(k, us) && x < |us| == |k.items| && DefinedSymbol(k, x) && k.Item(x).choice.None?
    requires k.Item(x).Logical() && Good(k, Unset(us, x))
    requires SameIngredients(k, Evaluate(k, us), Evaluate(k, Unset(us, x)), x)
    requires var v := Evaluate(k, us); ValOf(v, x).vis != 0 ==> ExprValue(k, v, k.Item(x).directDep) != 0
    ensures var v, v' := Evaluate(k, us), Evaluate(k, Unset(us, x));
      MinLine(k, v, x).Some? <==> Changeable(k, v, x) && ValOf(v, x).str != ValOf(v', x).str
  {
    LineExact(k, Evaluate(k, us), x);
    assert !k.Item(x).Preset() by {
      assert ItemOk(k, x);
    }
    FreeWritten(k, us, x);
    if ValOf(Evaluate(k, us), x).vis != 0 {
      DefaultWithoutUser(k, us, x);
    }
  }

  lemma DefaultWithoutUser(k: Config, us: Users, x: Id)
    requires Good(k, us) && x < |us| == |k.items| && DefinedSymbol(k, x) && k.Item(x).choice.None?
    requires k.Item(x).Logical() && !k.Item(x).Preset() && Good(k, Unset(us, x))
    requires SameIngredients(k, Evaluate(k, us), Evaluate(k, Unset(us, x)), x)
    requires ExprValue(k, Evaluate(k, us), k.Item(x).directDep) != 0
    ensures ValOf(Evaluate(k, Unset(us, x)), x).str == StrDefault(k, Evaluate(k, us), x)
  {
    var us' := Unset(us, x);
    SolvedStr(k, us', x);
    SolvedTri(k, us', x);
    SameFree(k, us', Evaluate(k, us), Evaluate(k, us'), x);
    DefaultIsStrDefault(k, us', Evaluate(k, us), x);
  }

  lemma SameFree(k: Config, us: Users, v: Valuation, v': Valuation, x: Id)
    requires SameIngredients(k, v, v', x)
    ensures FreeTri(k, us, v, x).val == FreeTri(k, us, v', x).val
  {
  }

  lemma StringLine(k: Config, us: Users, x: Id)
    requires Good(k, us) && x < |us| == |k.items| && DefinedSymbol(k, x) && k.Item(x).choice.None?
    requires k.Item(x).origType == STRING && Good(k, Unset(us, x))
    requires SameIngredients(k, Evaluate(k, us), Evaluate(k, Unset(us, x)), x)
    ensures var v, v' := Evaluate(k, us), Evaluate(k, Unset(us, x));
      MinLine(k, v, x).Some? <==> Changeable(k, v, x) && ValOf(v, x).str != ValOf(v', x).str
  {
    LineExact(k, Evaluate(k, us), x);
    TextWritten(k, us, x);
    SolvedStr(k, Unset(us, x), x);
  }

  lemma NumberLine(k: Config, us: Users, x: Id)
    requires Good(k, us) && UsersTyped(k, us) && x < |us| == |k.items| && DefinedSymbol(k, x)
    requires k.Item(x).choice.None? && k.Item(x).Numeric() && Good(k, Unset(us, x))
    requires SameIngredients(k, Evaluate(k, us), Evaluate(k, Unset(us, x)), x)
    ensures var v, v' := Evaluate(k, us), Evaluate(k, Unset(us, x));
      MinLine(k, v, x).Some? <==>
        Changeable(k, v, x) && (ValOf(v, x).str != ValOf(v', x).str || MovedDefault(k, v, x, ValOf(v', x).str))
  {
    var v, v', it := Evaluate(k, us), Evaluate(k, Unset(us, x)), k.Item(x);
    var base, text := it.Base(), DefaultStr(k, v, it.defaults);
    var b, d := ActiveRange(k, v, it.ranges, base), if text.Some? then text.value else "";
    LineExact(k, v, x);
    TextWritten(k, us, x);
    OnlyDefaultText(k, us, x, d, ValOf(v', x).str);
    NumberTexts(k, us, x, base, b, text);
    if ValOf(v, x).str != ValOf(v', x).str {
      NotMovedBack(it.origType, base, b, d, ValOf(v, x).str, ValOf(v', x).str);
    }
  }

  // With a user value in range, or without a user value.
  lemma NumberTexts(k: Config, us: Users, x: Id, base: nat, b: Bounds, text: Option<string>)
    requires Good(k, us) && x < |us| == |k.items| && k.Item(x).Symbol? && k.Item(x).Numeric() && Good(k, Unset(us, x))
    requires SameIngredients(k, Evaluate(k, us), Evaluate(k, Unset(us, x)), x) && base == k.Item(x).Base()
    requires b == ActiveRange(k, Evaluate(k, us), k.Item(x).ranges, base)
    requires text == DefaultStr(k, Evaluate(k, us), k.Item(x).defaults)
    ensures var s, s' := ValOf(Evaluate(k, us), x).str, ValOf(Evaluate(k, Unset(us, x)), x).str;
      && s' == Clamp(k.Item(x).origType, base, b, if text.Some? then text.value else "")
      && (s == s' || InBounds(b, NumOrZero(s, base)))
  {
    ValueMeaning.SolvedNumber(k, us, x, base, b, text);
    ValueMeaning.SolvedNumber(k, Unset(us, x), x, base, b, text);
  }

  lemma OnlyDefaultText(k: Config, us: Users, x: Id, d: string, s: string)
    requires Good(k, us) && x < |k.items| && k.Item(x).Symbol? && !k.Item(x).Logical()
    requires var text := DefaultStr(k, Evaluate(k, us), k.Item(x).defaults); d == if text.Some? then text.value else ""
    ensures DefaultText(k, Evaluate(k, us), k.Item(x).defaults, s) <==> s == d
  {
    var v, ds := Evaluate(k, us), k.Item(x).defaults;
    DefaultsAreSymbols(k, us, x);
    var t := DefaultTextValue(k, v, ds);
    forall i | DefaultApplies(k, v, ds, i) ensures ActiveDefault(k, v, ds) == Some(ds[i]) {
      Active(k, v, ds, i);
    }
  }

  // A number in range is not the text of a default that is out of range.
  lemma NotMovedBack(t: Type, base: nat, b: Bounds, d: string, s: string, s': string)
    requires s' == Clamp(t, base, b, d) && s != s' && InBounds(b, NumOrZero(s, base))
    ensures s != d
  {
  }

  // ---------- Choice symbols ----------

  // What the choice would select without the user.
  ghost predicate SelectedByDefault(k: Config, us: Users, c: Id, x: Id)
    requires c < |us|
  {
    ValOf(Evaluate(k, Unselected(us, c)), c).sel == Some(x)
  }

  // A choice symbol has a line if and only if it is not n, except for a bool symbol that the choice, unless it is
  // optional, would select without the user.
  lemma MemberLine(k: Config, us: Users, c: Id, x: Id)
    requires Good(k, us) && |us| == |k.items| && ProperChoice(k, c) && x in k.Item(c).syms && DefinedSymbol(k, x)
    ensures var v := Evaluate(k, us);
      MinLine(k, v, x).Some? <==>
        && ValOf(v, x).tri != 0
        && !(&& ValOf(v, x).tri == 2 && k.Item(x).origType == BOOL && !k.Item(c).optional
             && SelectedByDefault(k, us, c, x))
  {
    var v := Evaluate(k, us);
    assert ItemOk(k, c);
    assert ItemOk(k, x);
    FreeWritten(k, us, x);
    SolvedStr(k, us, x);
    ModeDecides(k, us, c, x);
    MemberValue(k, us, c, x);
    if ValOf(v, c).tri == 2 {
      DefaultOfChoice(k, us, c);
    }
  }

  lemma DefaultOfChoice(k: Config, us: Users, c: Id)
    requires Good(k, us) && c < |us| == |k.items| && k.Item(c).Choice? && ValOf(Evaluate(k, us), c).tri == 2
    ensures ValOf(Evaluate(k, Unselected(us, c)), c).sel == SelectionFromDefaults(k, Evaluate(k, us), c)
  {
    var v, us' := Evaluate(k, us), Unselected(us, c);
    StaysGood(k, us, c);
    var v' := Evaluate(k, us');
    SameBefore(k, us, us', c, Place(k, c, SEL));
    ComputeChoice(k, us', v, v', c);
    SolvedChoice(k, us', c);
  }
}
