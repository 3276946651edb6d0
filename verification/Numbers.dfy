/** Python's conversions between integers and text, as far as the configuration engine uses them:
    `int(s, base)` for the bases 0, 10 and 16, `str(n)` and `hex(n)`.  ASCII text only. */
module Numbers {
  import opened Wrappers

  predicate IsSpace(c: char) {
    c == ' ' || '\t' <= c <= '\r' || '\U{1c}' <= c <= '\U{1f}'
  }

  function StripLeft(s: string): (r: string)
    ensures |r| <= |s| && r == s[|s| - |r|..]
    ensures r != "" ==> !IsSpace(r[0])
  {
    if s != "" && IsSpace(s[0]) then StripLeft(s[1..]) else s
  }

  function StripRight(s: string): (r: string)
    ensures r <= s
    ensures r != "" ==> !IsSpace(r[|r| - 1])
  {
    if s != "" && IsSpace(s[|s| - 1]) then StripRight(s[..|s| - 1]) else s
  }

  lemma StripRightKeeps(s: string)
    requires s == "" || !IsSpace(s[|s| - 1])
    ensures StripRight(s) == s
  {
  }

  function Strip(s: string): string {
    StripRight(StripLeft(s))
  }

  function DigitValue(c: char): Option<nat> {
    if '0' <= c <= '9' then Some(c as nat - '0' as nat)
    else if 'a' <= c <= 'z' then Some(c as nat - 'a' as nat + 10)
    else if 'A' <= c <= 'Z' then Some(c as nat - 'A' as nat + 10)
    else None
  }

  predicate IsDigit(c: char, base: nat) {
    DigitValue(c).Some? && DigitValue(c).value < base
  }

  type Radix = base: nat | base == 2 || base == 8 || base == 10 || base == 16 witness 10

  function Times(n: nat, base: Radix): nat {
    if base == 2 then n * 2 else if base == 8 then n * 8 else if base == 10 then n * 10 else n * 16
  }

  function Over(n: nat, base: Radix): (q: nat)
    ensures n >= base ==> 0 < q < n
  {
    if base == 2 then n / 2 else if base == 8 then n / 8 else if base == 10 then n / 10 else n / 16
  }

  function LastDigit(n: nat, base: Radix): (r: nat)
    ensures r < base && Times(Over(n, base), base) + r == n
  {
    if base == 2 then n % 2 else if base == 8 then n % 8 else if base == 10 then n % 10 else n % 16
  }

  function ThenDigit(higher: Option<nat>, c: char, base: Radix): Option<nat> {
    if higher.None? || !IsDigit(c, base) then None else Some(Times(higher.value, base) + DigitValue(c).value)
  }

  function DropUnderscore(s: string): (r: string)
    ensures |r| <= |s|
  {
    if s != "" && s[|s| - 1] == '_' then s[..|s| - 1] else s
  }

  // Digits, with single underscores allowed between two of them.
  function Digits(s: string, base: Radix): Option<nat> {
    if s == "" then None
    else
      var init := s[..|s| - 1];
      ThenDigit(if init == "" then Some(0) else Digits(DropUnderscore(init), base), s[|s| - 1], base)
  }

  // A base prefix may be followed by one underscore.
  function AfterPrefix(s: string): string {
    if s != "" && s[0] == '_' then s[1..] else s
  }

  predicate HasPrefix(s: string, lower: char, upper: char) {
    |s| >= 2 && s[0] == '0' && (s[1] == lower || s[1] == upper)
  }

  // Base 0 goes by the prefix.
  function RadixOf(s: string, base: nat): Radix {
    if base == 16 then 16
    else if base == 10 then 10
    else if HasPrefix(s, 'x', 'X') then 16
    else if HasPrefix(s, 'o', 'O') then 8
    else if HasPrefix(s, 'b', 'B') then 2
    else 10
  }

  predicate Prefixed(s: string, base: nat) {
    if base == 16 then HasPrefix(s, 'x', 'X') else base != 10 && RadixOf(s, base) != 10
  }

  function Unsigned(s: string, base: nat): Option<int> {
    var n := Digits(if Prefixed(s, base) then AfterPrefix(s[2..]) else s, RadixOf(s, base));
    // "010" is ambiguous in base 0 and therefore rejected, but "00" is zero
    if base != 10 && base != 16 && !Prefixed(s, base) && n.Some? && n.value != 0 && s[0] == '0' then None else n
  }

  function Negated(n: Option<int>): Option<int> {
    if n.None? then None else Some(-n.value)
  }

  function Signed(t: string, base: nat): Option<int> {
    if t != "" && t[0] == '-' then Negated(Unsigned(t[1..], base))
    else Unsigned(if t != "" && t[0] == '+' then t[1..] else t, base)
  }

  // int(s, base); None stands for ValueError.
  function ParseInt(s: string, base: nat): Option<int> {
    Signed(Strip(s), base)
  }

  predicate IsBaseN(s: string, base: nat) {
    ParseInt(s, base).Some?
  }

  function DigitChar(d: nat): (c: char)
    requires d < 16
    ensures DigitValue(c) == Some(d) && !IsSpace(c) && c != '_' && c != '-' && c != '+'
  {
    if d < 10 then '0' + d as char else 'a' + (d - 10) as char
  }

  function NatToString(n: nat, base: Radix): (s: string)
    ensures s != "" && forall i :: 0 <= i < |s| ==> !IsSpace(s[i]) && s[i] != '_' && s[i] != '-' && s[i] != '+'
    decreases n
  {
    if n < base then [DigitChar(n)] else NatToString(Over(n, base), base) + [DigitChar(LastDigit(n, base))]
  }

  // str(n)
  function Str(n: int): string {
    if n < 0 then "-" + NatToString(-n, 10) else NatToString(n, 10)
  }

  // hex(n)
  function Hex(n: int): string {
    if n < 0 then "-0x" + NatToString(-n, 16) else "0x" + NatToString(n, 16)
  }

  lemma DigitsSnoc(init: string, c: char, base: Radix)
    requires init != "" && init[|init| - 1] != '_'
    ensures Digits(init + [c], base) == ThenDigit(Digits(init, base), c, base)
  {
    var s := init + [c];
    assert s[|s| - 1] == c && s[..|s| - 1] == init;
  }

  lemma OneDigit(c: char, base: Radix)
    requires IsDigit(c, base)
    ensures Digits([c], base) == DigitValue(c)
  {
  }

  lemma {:induction false} DigitsOfNat(n: nat, base: Radix)
    ensures Digits(NatToString(n, base), base) == Some(n)
    decreases n
  {
    if n < base {
      OneDigit(DigitChar(n), base);
    } else {
      var init, c := NatToString(Over(n, base), base), DigitChar(LastDigit(n, base));
      assert Digits(init + [c], base) == ThenDigit(Some(Over(n, base)), c, base) by {
        DigitsOfNat(Over(n, base), base);
        DigitsSnoc(init, c, base);
      }
      OneMoreDigit(n, base);
    }
  }

  lemma OneMoreDigit(n: nat, base: Radix)
    ensures ThenDigit(Some(Over(n, base)), DigitChar(LastDigit(n, base)), base) == Some(n)
  {
  }

  lemma StripKeeps(s: string)
    requires s != "" && !IsSpace(s[0]) && !IsSpace(s[|s| - 1])
    ensures Strip(s) == s
  {
    StripRightKeeps(s);
  }

  // Text without a sign or surrounding space is read as a number without a sign.
  lemma ParsePlain(t: string, base: nat)
    requires t != "" && !IsSpace(t[0]) && !IsSpace(t[|t| - 1]) && t[0] != '-' && t[0] != '+'
    ensures ParseInt(t, base) == Unsigned(t, base)
  {
    StripKeeps(t);
  }

  lemma ParseNegated(t: string, base: nat)
    requires t != "" && !IsSpace(t[|t| - 1])
    ensures ParseInt("-" + t, base) == Negated(Unsigned(t, base))
  {
    StripKeeps("-" + t);
    assert ("-" + t)[1..] == t;
  }

  lemma UnsignedDecimal(n: nat)
    ensures Unsigned(NatToString(n, 10), 10) == Some(n as int)
  {
    DigitsOfNat(n, 10);
  }

  // int() undoes str(), and int(_, 16) undoes hex(), also below zero.
  lemma ParseStr(n: int)
    ensures ParseInt(Str(n), 10) == Some(n)
  {
    var m: nat := if n < 0 then -n else n;
    UnsignedDecimal(m);
    if n < 0 {
      ParseNegated(NatToString(m, 10), 10);
    } else {
      ParsePlain(NatToString(m, 10), 10);
    }
  }

  lemma UnsignedHex(digits: string)
    requires digits != "" && digits[0] != '_'
    ensures Unsigned("0x" + digits, 16) == Digits(digits, 16)
  {
    assert ("0x" + digits)[2..] == digits;
  }

  lemma SignBeforePrefix(digits: string)
    ensures "-0x" + digits == "-" + ("0x" + digits)
  {
  }

  lemma ParsePlainHex(t: string, digits: string)
    requires digits != "" && digits[0] != '_' && !IsSpace(digits[|digits| - 1]) && t == "0x" + digits
    ensures ParseInt(t, 16) == Unsigned(t, 16)
  {
    ParsePlain(t, 16);
  }

  lemma ParseNegatedHex(t: string, digits: string)
    requires digits != "" && !IsSpace(digits[|digits| - 1]) && t == "0x" + digits
    ensures ParseInt("-" + t, 16) == Negated(Unsigned(t, 16))
  {
    ParseNegated(t, 16);
  }

  lemma ParseHex(n: int)
    ensures ParseInt(Hex(n), 16) == Some(n)
  {
    var m: nat := if n < 0 then -n else n;
    var digits := NatToString(m, 16);
    DigitsOfNat(m, 16);
    UnsignedHex(digits);
    if n < 0 {
      SignBeforePrefix(digits);
      ParseNegatedHex("0x" + digits, digits);
    } else {
      ParsePlainHex("0x" + digits, digits);
    }
  }

  // _strcmp(): a negative, zero or positive number like the lexicographic order of the strings.
  function StrCmp(a: string, b: string): int {
    if a == "" then (if b == "" then 0 else -1)
    else if b == "" then 1
    else if a[0] != b[0] then (if a[0] < b[0] then -1 else 1)
    else StrCmp(a[1..], b[1..])
  }
}
