/** The string searches and number conversions the configuration scanner is built from. */
module Text {
  import opened Basics

  predicate Occurs(s: string, pat: string, at: nat) {
    at + |pat| <= |s| && s[at..at + |pat|] == pat
  }

  /** The first position from `from` on at which `pat` occurs in `s`. */
  function Find(s: string, pat: string, from: nat): (r: Option<nat>)
    ensures r.Some? ==> from <= r.value && r.value + |pat| <= |s|
    decreases |s| - from
  {
    if from + |pat| > |s| then None
    else if Occurs(s, pat, from) then Some(from)
    else Find(s, pat, from + 1)
  }

  /** The first position from `from` on whose character is in `chars`, or is not in `chars` if `within` is false. */
  function FirstAt(s: string, chars: set<char>, within: bool, from: nat): (r: Option<nat>)
    ensures r.Some? ==> from <= r.value < |s| && (s[r.value] in chars) == within
    ensures forall i :: from <= i < (if r.Some? then r.value else |s|) ==> (s[i] in chars) != within
    decreases |s| - from
  {
    if from >= |s| then None
    else if (s[from] in chars) == within then Some(from)
    else FirstAt(s, chars, within, from + 1)
  }

  function Shift(r: Option<nat>, n: nat): Option<nat> {
    if r.Some? then Some(r.value + n) else None
  }

  lemma SliceInSuffix(a: string, b: string, i: nat, j: nat)
    requires i <= j <= |b|
    ensures (a + b)[|a| + i..|a| + j] == b[i..j]
    ensures i < |b| ==> (a + b)[|a| + i] == b[i]
  {
  }

  lemma {:induction false} FindInSuffix(a: string, b: string, pat: string, from: nat)
    ensures Find(a + b, pat, |a| + from) == Shift(Find(b, pat, from), |a|)
    decreases |b| - from
  {
    if from + |pat| <= |b| {
      assert (a + b)[|a| + from..|a| + from + |pat|] == b[from..from + |pat|];
      if !Occurs(b, pat, from) {
        FindInSuffix(a, b, pat, from + 1);
      }
    }
  }

  lemma {:induction false} FindSkips(s: string, pat: string, from: nat, to: nat)
    requires from <= to
    requires forall i: nat :: from <= i < to ==> !Occurs(s, pat, i)
    ensures Find(s, pat, from) == Find(s, pat, to)
    decreases |s| - from
  {
    if from < to && from + |pat| <= |s| {
      FindSkips(s, pat, from + 1, to);
    }
  }

  lemma FirstAtIs(s: string, chars: set<char>, within: bool, from: nat, at: nat)
    requires from <= at < |s| && (s[at] in chars) == within
    requires forall i :: from <= i < at ==> (s[i] in chars) != within
    ensures FirstAt(s, chars, within, from) == Some(at)
  {
    assert FirstAt(s, chars, within, from).Some?;
  }

  lemma FirstAtInSuffix(a: string, b: string, chars: set<char>, within: bool, from: nat)
    ensures FirstAt(a + b, chars, within, |a| + from) == Shift(FirstAt(b, chars, within, from), |a|)
  {
    var r, q := FirstAt(b, chars, within, from), FirstAt(a + b, chars, within, |a| + from);
    assert forall i :: from <= i < |b| ==> (a + b)[|a| + i] == b[i];
    if r.Some? {
      assert forall i :: |a| + from <= i < |a| + r.value ==> (a + b)[i] == b[i - |a|];
      FirstAtIs(a + b, chars, within, |a| + from, |a| + r.value);
    } else {
      assert forall i :: |a| + from <= i < |a + b| ==> (a + b)[i] == b[i - |a|];
      assert q.None?;
    }
  }

  // ---- Numbers ----

  predicate IsDigit(c: char) {
    '0' <= c <= '9'
  }

  function DigitValue(c: char): (d: nat)
    requires IsDigit(c)
    ensures d < 10
  {
    (c as int) - ('0' as int)
  }

  function DigitChar(d: nat): (c: char)
    requires d < 10
    ensures IsDigit(c) && DigitValue(c) == d
  {
    ('0' as int + d) as char
  }

  predicate AllDigits(s: string) {
    forall i :: 0 <= i < |s| ==> IsDigit(s[i])
  }

  /** Decimal notation, without leading zeros. */
  function Decimal(n: nat): (s: string)
    ensures s != "" && AllDigits(s)
  {
    if n < 10 then [DigitChar(n)] else Decimal(n / 10) + [DigitChar(n % 10)]
  }

  function DigitsValue(s: string): nat
    requires AllDigits(s)
  {
    if s == "" then 0 else 10 * DigitsValue(s[..|s| - 1]) + DigitValue(s[|s| - 1])
  }

  lemma {:induction false} DecimalValue(n: nat)
    ensures DigitsValue(Decimal(n)) == n
  {
    if n >= 10 {
      DecimalValue(n / 10);
      assert Decimal(n)[..|Decimal(n)| - 1] == Decimal(n / 10);
    } else {
      assert Decimal(n)[..0] == "";
    }
  }

  /** How many digits `s` begins with. */
  function DigitPrefix(s: string): (n: nat)
    ensures n <= |s| && AllDigits(s[..n])
    ensures n < |s| ==> !IsDigit(s[n])
  {
    if s == "" || !IsDigit(s[0]) then 0
    else
      var n := DigitPrefix(s[1..]);
      assert s[..n + 1] == [s[0]] + s[1..][..n];
      n + 1
  }

  lemma DigitPrefixIs(s: string, n: nat)
    requires n <= |s| && AllDigits(s[..n]) && (n < |s| ==> !IsDigit(s[n]))
    ensures DigitPrefix(s) == n
  {
    var k := DigitPrefix(s);
    assert forall i :: 0 <= i < n ==> s[i] == s[..n][i];
    assert forall i :: 0 <= i < k ==> s[i] == s[..k][i];
  }

  const C_SPACES: set<char> := {' ', '\t', '\n', '\r', '\U{000B}', '\U{000C}'}

  /** The number at the start of `s`: spaces, a sign, digits. */
  function Number(s: string): int {
    if s != "" && s[0] in C_SPACES then Number(s[1..])
    else if s != "" && s[0] == '-' then -(DigitsValue(s[1..][..DigitPrefix(s[1..])]) as int)
    else if s != "" && s[0] == '+' then DigitsValue(s[1..][..DigitPrefix(s[1..])])
    else DigitsValue(s[..DigitPrefix(s)])
  }

  /** What `atoi` returns; nothing for a number that does not fit an int, where C leaves the result undefined. */
  function Atoi(s: string): Option<int> {
    Fitting(Number(s))
  }

  function ShowInt(n: int): (s: string)
    ensures s != "" && (IsDigit(s[0]) || s[0] == '-')
    ensures forall i :: 0 <= i < |s| ==> IsDigit(s[i]) || s[i] == '-'
  {
    if n < 0 then "-" + Decimal(-n) else Decimal(n)
  }

  lemma NumberUnsigned(digits: string, rest: string)
    requires digits != "" && AllDigits(digits) && (rest != "" ==> !IsDigit(rest[0]))
    ensures DigitPrefix(digits + rest) == |digits| && Number(digits + rest) == DigitsValue(digits)
  {
    var s := digits + rest;
    assert s[..|digits|] == digits;
    DigitPrefixIs(s, |digits|);
    assert s[0] == digits[0] && IsDigit(digits[0]);
  }

  /** Reading stops at the first character that is no digit. */
  lemma {:induction false} NumberShown(n: int, rest: string)
    requires rest != "" ==> !IsDigit(rest[0])
    ensures Number(ShowInt(n) + rest) == n
  {
    var digits := Decimal(if n < 0 then -n else n);
    DecimalValue(if n < 0 then -n else n);
    NumberUnsigned(digits, rest);
    if n < 0 {
      var s := ShowInt(n) + rest;
      assert s[0] == '-' && s[1..] == digits + rest;
      assert s[1..][..|digits|] == digits;
    }
  }

  /** A printed integer reads back if it fits an int, whatever follows that is no digit. */
  lemma AtoiShowInt(n: int, rest: string)
    requires rest != "" ==> !IsDigit(rest[0])
    ensures Atoi(ShowInt(n) + rest) == Fitting(n)
  {
    NumberShown(n, rest);
  }

  // ---- What a number in a text is worth ----

  function Power10(k: nat): nat {
    if k == 0 then 1 else 10 * Power10(k - 1)
  }

  /** The sum of the digits, each times the power of ten of its place. */
  function PlaceValue(digits: string): int {
    if digits == "" then 0
    else (digits[0] as int - '0' as int) * Power10(|digits| - 1) + PlaceValue(digits[1..])
  }

  lemma {:induction false} PlaceValueSnoc(digits: string, c: char)
    ensures PlaceValue(digits + [c]) == 10 * PlaceValue(digits) + (c as int - '0' as int)
    decreases |digits|
  {
    if digits == "" {
      assert [c][1..] == "" && digits + [c] == [c];
    } else {
      assert (digits + [c])[1..] == digits[1..] + [c];
      PlaceValueSnoc(digits[1..], c);
      TimesTen(digits[0] as int - '0' as int, Power10(|digits| - 1));
    }
  }

  lemma TimesTen(d: int, power: int)
    ensures d * (10 * power) == 10 * (d * power)
  {
  }

  lemma {:induction false} DigitsInPlace(digits: string)
    requires AllDigits(digits)
    ensures DigitsValue(digits) == PlaceValue(digits)
  {
    if digits != "" {
      var front, last := digits[..|digits| - 1], digits[|digits| - 1];
      DigitsInPlace(front);
      PlaceValueSnoc(front, last);
      assert digits == front + [last];
    }
  }

  /** What C counts as white space: the blank, and the five control characters from tab to carriage return. */
  predicate IsCSpace(c: char) {
    c == ' ' || '\t' <= c <= '\r'
  }

  predicate AllCSpaces(s: string) {
    forall i :: 0 <= i < |s| ==> IsCSpace(s[i])
  }

  /** The worth of digits behind a sign, which may be missing. */
  function Signed(sign: string, digits: string): int {
    if sign == "-" then -PlaceValue(digits) else PlaceValue(digits)
  }

  /** A sign, or none; without a sign and without digits nothing else may pass for the start of a number. */
  predicate SignedText(sign: string, digits: string, rest: string) {
    && sign in {"", "-", "+"} && AllDigits(digits)
    && (rest != "" ==> !IsDigit(rest[0]))
    && (rest != "" && sign == "" && digits == "" ==> !IsCSpace(rest[0]) && rest[0] != '-' && rest[0] != '+')
  }

  /** Any text is read as the place value of the digits behind its leading white space and sign. */
  lemma {:induction false} NumberIsPlaceValue(spaces: string, sign: string, digits: string, rest: string)
    requires AllCSpaces(spaces) && SignedText(sign, digits, rest)
    ensures Number(spaces + (sign + digits + rest)) == Signed(sign, digits)
    decreases |spaces|
  {
    var s := sign + digits + rest;
    if spaces == "" {
      assert spaces + s == s;
      SignedIsPlaceValue(sign, digits, rest);
    } else {
      assert (spaces + s)[1..] == spaces[1..] + s;
      NumberIsPlaceValue(spaces[1..], sign, digits, rest);
    }
  }

  lemma {:induction false} DigitsBegin(digits: string, rest: string)
    requires AllDigits(digits) && (rest != "" ==> !IsDigit(rest[0]))
    ensures var s := digits + rest; DigitPrefix(s) == |digits| && DigitsValue(s[..DigitPrefix(s)]) == PlaceValue(digits)
  {
    assert (digits + rest)[..|digits|] == digits;
    DigitPrefixIs(digits + rest, |digits|);
    DigitsInPlace(digits);
  }

  lemma {:induction false} SignedIsPlaceValue(sign: string, digits: string, rest: string)
    requires SignedText(sign, digits, rest)
    ensures Number(sign + digits + rest) == Signed(sign, digits)
  {
    DigitsBegin(digits, rest);
    if sign == "" {
      if digits + rest != "" {
        UnsignedStarts(digits, rest);
      }
      assert sign + digits + rest == digits + rest;
    } else {
      SignStarts(sign, digits, rest);
    }
  }

  lemma SignStarts(sign: string, digits: string, rest: string)
    requires sign in {"-", "+"}
    ensures (sign + digits + rest)[0] == sign[0] && (sign + digits + rest)[1..] == digits + rest
  {
  }

  lemma UnsignedStarts(digits: string, rest: string)
    requires SignedText("", digits, rest) && digits + rest != ""
    ensures var c := (digits + rest)[0]; !IsCSpace(c) && c != '-' && c != '+'
  {
  }

  /** So is a text in `atoi`, within the range of an int. */
  lemma AtoiIsPlaceValue(spaces: string, sign: string, digits: string, rest: string)
    requires AllCSpaces(spaces) && SignedText(sign, digits, rest)
    ensures Atoi(spaces + (sign + digits + rest)) ==
            var n := Signed(sign, digits); if -2147483648 <= n <= 2147483647 then Some(n) else None
  {
    NumberIsPlaceValue(spaces, sign, digits, rest);
  }
}
