/** Which number a text is read as: digits from left to right, with a sign, a prefix and blanks around them. */
module NumberText {
  import opened Wrappers
  import opened Numbers

  // The value of a digit, in decimal and hexadecimal numbers.
  function DigitIs(c: char, base: Radix): Option<nat> {
    if '0' <= c <= '9' && c as nat - '0' as nat < base then Some(c as nat - '0' as nat)
    else if base == 16 && 'a' <= c <= 'f' then Some(10 + (c as nat - 'a' as nat))
    else if base == 16 && 'A' <= c <= 'F' then Some(10 + (c as nat - 'A' as nat))
    else None
  }

  predicate AllDigits(s: string, base: Radix) {
    s != "" && forall i :: 0 <= i < |s| ==> DigitIs(s[i], base).Some?
  }

  lemma DigitRead(c: char, base: Radix)
    requires base == 10 || base == 16
    ensures IsDigit(c, base) <==> DigitIs(c, base).Some?
    ensures DigitIs(c, base).Some? ==>
              && DigitValue(c) == DigitIs(c, base)
              && !IsSpace(c) && c != '_' && c != '-' && c != '+' && c != 'x' && c != 'X'
  {
  }

  lemma PlainDigits(s: string, base: Radix)
    requires AllDigits(s, base) && (base == 10 || base == 16)
    ensures ParseInt(s, base) == Unsigned(s, base) == Digits(s, base)
  {
    DigitRead(s[0], base);
    DigitRead(s[|s| - 1], base);
    ParsePlain(s, base);
    NoPrefix(s, base);
  }

  lemma NoPrefix(s: string, base: Radix)
    requires AllDigits(s, base) && (base == 10 || base == 16)
    ensures Unsigned(s, base) == Digits(s, base)
  {
    if |s| > 1 {
      DigitRead(s[1], base);
    }
  }

  // One digit stands for its value, ...
  lemma OneDigitIs(c: char, base: Radix)
    requires (base == 10 || base == 16) && DigitIs(c, base).Some?
    ensures ParseInt([c], base) == Some(DigitIs(c, base).value as int)
  {
    PlainDigits([c], base);
    DigitRead(c, base);
    OneDigit(c, base);
  }

  lemma AllWithOneMore(s: string, c: char, base: Radix)
    requires AllDigits(s, base) && DigitIs(c, base).Some?
    ensures AllDigits(s + [c], base)
  {
  }

  function Shifted(n: nat, base: Radix): nat {
    if base == 10 then 10 * n else 16 * n
  }

  lemma DigitThen(higher: nat, c: char, base: Radix)
    requires (base == 10 || base == 16) && DigitIs(c, base).Some?
    ensures ThenDigit(Some(higher), c, base) == Some(Shifted(higher, base) + DigitIs(c, base).value)
  {
    DigitRead(c, base);
  }

  // ... and every further one shifts what comes before it.
  lemma MoreDigitsAre(s: string, c: char, base: Radix, n: nat)
    requires AllDigits(s, base) && DigitIs(c, base).Some? && (base == 10 || base == 16)
    requires ParseInt(s, base) == Some(n as int)
    ensures ParseInt(s + [c], base) == Some((Shifted(n, base) + DigitIs(c, base).value) as int)
  {
    DigitRead(s[|s| - 1], base);
    AllWithOneMore(s, c, base);
    PlainDigits(s, base);
    PlainDigits(s + [c], base);
    DigitsSnoc(s, c, base);
    DigitThen(n, c, base);
  }

  lemma LastApart(s: string, init: string, c: char, base: Radix)
    requires AllDigits(s, base) && init == s[..|s| - 1] && c == s[|s| - 1]
    ensures s == init + [c] && DigitIs(c, base).Some? && (init == "" || AllDigits(init, base))
  {
  }

  // So all digits together are a number.
  lemma {:induction false} DigitsAreNumber(s: string, base: Radix) returns (n: nat)
    requires AllDigits(s, base) && (base == 10 || base == 16)
    ensures ParseInt(s, base) == Some(n as int)
    decreases |s|
  {
    var last := |s| - 1;
    var c, init := s[last], s[..last];
    LastApart(s, init, c, base);
    if init == "" {
      OneDigitIs(c, base);
      assert [c] == s;
      n := DigitIs(c, base).value;
    } else {
      var m := DigitsAreNumber(init, base);
      MoreDigitsAre(init, c, base, m);
      n := Shifted(m, base) + DigitIs(c, base).value;
    }
  }

  // A minus sign negates, and 0x may precede hexadecimal digits.
  lemma MinusNegates(s: string, base: Radix)
    requires AllDigits(s, base) && (base == 10 || base == 16)
    ensures ParseInt("-" + s, base) == Negated(ParseInt(s, base))
  {
    DigitRead(s[|s| - 1], base);
    PlainDigits(s, base);
    ParseNegated(s, base);
  }

  lemma PrefixSkipped(s: string)
    requires AllDigits(s, 16)
    ensures ParseInt("0x" + s, 16) == ParseInt(s, 16)
  {
    DigitRead(s[0], 16);
    DigitRead(s[|s| - 1], 16);
    ParsePlainHex("0x" + s, s);
    UnsignedHex(s);
    PlainDigits(s, 16);
  }

  // Blanks around it do not matter.
  lemma {:induction false} BlanksStripped(before: string, s: string, after: string, base: nat)
    requires forall i :: 0 <= i < |before| ==> IsSpace(before[i])
    requires forall i :: 0 <= i < |after| ==> IsSpace(after[i])
    requires s != "" && !IsSpace(s[0]) && !IsSpace(s[|s| - 1])
    ensures ParseInt(before + s + after, base) == ParseInt(s, base)
  {
    LeftStripped(before, s + after);
    RightStripped(s, after);
    assert before + s + after == before + (s + after);
    StripKeeps(s);
  }

  lemma {:induction false} LeftStripped(before: string, s: string)
    requires forall i :: 0 <= i < |before| ==> IsSpace(before[i])
    requires s != "" && !IsSpace(s[0])
    ensures StripLeft(before + s) == s
    decreases |before|
  {
    if before == "" {
      assert before + s == s;
    } else {
      LeftStripped(before[1..], s);
      assert (before + s)[1..] == before[1..] + s;
    }
  }

  lemma {:induction false} RightStripped(s: string, after: string)
    requires forall i :: 0 <= i < |after| ==> IsSpace(after[i])
    requires s != "" && !IsSpace(s[|s| - 1])
    ensures StripRight(s + after) == s
    decreases |after|
  {
    if after == "" {
      assert s + after == s;
    } else {
      var shorter := after[..|after| - 1];
      RightStripped(s, shorter);
      assert (s + after)[..|s + after| - 1] == s + shorter;
    }
  }

  // Anything but digits and underscores makes it no number.
  lemma {:induction false} NoDigits(s: string, i: nat, base: Radix)
    requires i < |s| && s[i] != '_' && (base == 10 || base == 16) && DigitIs(s[i], base).None?
    ensures Digits(s, base) == None
    decreases |s|
  {
    var last := |s| - 1;
    var init := s[..last];
    if i == last {
      DigitRead(s[i], base);
    } else {
      NoDigits(DropUnderscore(init), i, base);
    }
  }

  lemma LettersAreNoNumber(s: string, i: nat)
    requires i < |s| && !IsSpace(s[0]) && !IsSpace(s[|s| - 1]) && s[0] != '-' && s[0] != '+'
    requires s[i] != '_' && DigitIs(s[i], 10).None?
    ensures ParseInt(s, 10) == None
  {
    ParsePlain(s, 10);
    NoDigits(s, i, 10);
  }
}
