/** The effect of an active range on the value of an int or hex symbol. */
module NumericRanges {
  import opened Wrappers
  import opened Model
  import opened Numbers
  import opened Values
  import opened Support
  import opened Transfer
  import opened Reference

  // The value of an int or hex symbol, read as a number; it is 0 when it is not one.
  ghost function NumberOf(k: Config, us: Users, x: Id): int {
    NumOrZero(ValOf(Evaluate(k, us), x).str, k.Item(x).Base())
  }

  ghost function RangeOf(k: Config, us: Users, x: Id): Bounds {
    if k.Item(x).Symbol? then ActiveRange(k, Evaluate(k, us), k.Item(x).ranges, k.Item(x).Base()) else Unbounded
  }

  lemma NumToStringParses(t: Type, base: nat, n: int)
    requires (t == INT && base == 10) || (t == HEX && base == 16)
    ensures NumOrZero(NumToString(t, n), base) == n
  {
    ParseStr(n);
    ParseHex(n);
  }

  // Clamping moves a number to the nearest bound; with an empty range it ends up outside.
  lemma ClampInRange(t: Type, base: nat, low: int, high: int, val: string)
    requires (t == INT && base == 10) || (t == HEX && base == 16)
    ensures low <= NumOrZero(Clamp(t, base, Bounds(low, high), val), base) <= high <==> low <= high
  {
    var n := NumOrZero(val, base);
    if n < low {
      NumToStringParses(t, base, low);
    } else if n > high {
      NumToStringParses(t, base, high);
    }
  }

  // For every user value, default and visibility: the value lies in the active range, if that is not empty.
  lemma ValueInRange(k: Config, us: Users, x: Id)
    requires Good(k, us) && x < |k.items| && k.Item(x).Symbol? && k.Item(x).Numeric()
    requires RangeOf(k, us, x).Bounds?
    ensures var b := RangeOf(k, us, x);
      b.low <= NumberOf(k, us, x) <= b.high <==> b.low <= b.high
  {
    SolvedNumber(k, us, x);
    NumberTextInRange(k, us, Evaluate(k, us), x);
  }

  lemma SolvedNumber(k: Config, us: Users, x: Id)
    requires Good(k, us) && x < |k.items| && k.Item(x).Symbol? && k.Item(x).Numeric()
    ensures NumberOf(k, us, x) == NumOrZero(NumberText(k, us, Evaluate(k, us), x).val, k.Item(x).Base())
  {
    SolvedStr(k, us, x);
  }

  lemma NumberTextInRange(k: Config, us: Users, v: Valuation, x: Id)
    requires k.Item(x).Symbol? && k.Item(x).Numeric()
    requires ActiveRange(k, v, k.Item(x).ranges, k.Item(x).Base()).Bounds?
    ensures var b := ActiveRange(k, v, k.Item(x).ranges, k.Item(x).Base());
      b.low <= NumOrZero(NumberText(k, us, v, x).val, k.Item(x).Base()) <= b.high <==> b.low <= b.high
  {
    var it := k.Item(x);
    var b := ActiveRange(k, v, it.ranges, it.Base());
    if !UserNumberOk(us, ValOf(v, x).vis, x, it.Base(), b) {
      var d := DefaultStr(k, v, it.defaults);
      ClampInRange(it.origType, it.Base(), b.low, b.high, if d.Some? then d.value else "");
    }
  }

  // A well-formed user value of a visible symbol is kept, exactly as written, if and only if it is in range.
  lemma UserNumberKept(k: Config, us: Users, x: Id)
    requires Good(k, us) && x < |k.items| && k.Item(x).Symbol? && k.Item(x).Numeric()
    requires ValOf(Evaluate(k, us), x).vis != 0
    requires UserOf(us, x).Str().Some? && IsBaseN(UserOf(us, x).Str().value, k.Item(x).Base())
    requires RangeOf(k, us, x).Bounds? ==> RangeOf(k, us, x).low <= RangeOf(k, us, x).high
    ensures var user := UserOf(us, x).Str().value;
      ValOf(Evaluate(k, us), x).str == user <==> InBounds(RangeOf(k, us, x), NumOrZero(user, k.Item(x).Base()))
  {
    var b, user := RangeOf(k, us, x), UserOf(us, x).Str().value;
    if InBounds(b, NumOrZero(user, k.Item(x).Base())) {
      EmptyIsNoNumber(k.Item(x).Base());
      UserNumberUsed(k, us, x);
    } else {
      ValueInRange(k, us, x);
      assert InBounds(b, NumberOf(k, us, x));
    }
  }

  lemma EmptyIsNoNumber(base: nat)
    ensures !IsBaseN("", base)
  {
  }

  lemma UserNumberUsed(k: Config, us: Users, x: Id)
    requires Good(k, us) && x < |k.items| && k.Item(x).Symbol? && k.Item(x).Numeric()
    requires UserNumberOk(us, ValOf(Evaluate(k, us), x).vis, x, k.Item(x).Base(), RangeOf(k, us, x))
    ensures ValOf(Evaluate(k, us), x).str == UserOf(us, x).Str().value
  {
    SolvedStr(k, us, x);
  }
}
