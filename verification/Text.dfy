/**
 Texts of the security kernel.  A Rust string is a sequence of UTF-8 bytes, and everything the
 kernel signs, compares or hashes is `as_bytes()` of such a string, so texts are byte sequences here.
 */
module Text {

  datatype Option<+T> = None | Some(value: T)

  type byte = bv8
  type text = seq<byte>

  const DOT: byte := 0x2e
  const COLON: byte := 0x3a
  const PLUS: byte := 0x2b
  const HYPHEN: byte := 0x2d
  const DIGITS: text := [0x30, 0x31, 0x32, 0x33, 0x34, 0x35, 0x36, 0x37, 0x38, 0x39]

  /** The symbol `b` does not occur in `t`. */
  predicate Free<T(==)>(t: seq<T>, b: T) {
    forall i :: 0 <= i < |t| ==> t[i] != b
  }

  predicate IsLowerHex(b: byte) {
    0x30 <= b <= 0x39 || 0x61 <= b <= 0x66
  }

  /** The form `Uuid::to_string` prints: 8-4-4-4-12 lower-case hexadecimal digits. */
  predicate CanonicalUuid(t: text) {
    && |t| == 36
    && forall i :: 0 <= i < 36 ==>
         if i == 8 || i == 13 || i == 18 || i == 23 then t[i] == HYPHEN else IsLowerHex(t[i])
  }

  type Uuid = t: text | CanonicalUuid(t)
    witness seq(36, i => if i == 8 || i == 13 || i == 18 || i == 23 then HYPHEN else 0x30)

  lemma UuidHasNoSeparator(u: Uuid)
    ensures Free(u, DOT) && Free(u, COLON) && |u| == 36
  {
  }

  /** A separator that does not occur in the heads determines where they end. */
  lemma SplitAtFirst<T>(a: seq<T>, x: seq<T>, b: seq<T>, y: seq<T>, separator: T)
    requires Free(a, separator) && Free(b, separator)
    requires a + [separator] + x == b + [separator] + y
    ensures a == b && x == y
  {
    var s := a + [separator] + x;
    assert s[|a|] == separator && s[|b|] == separator;
    assert forall i :: 0 <= i < |a| ==> s[i] == a[i];
    assert forall i :: 0 <= i < |b| ==> s[i] == b[i];
    assert s[..|a|] == a && s[..|b|] == b;
    assert s[|a| + 1..] == x && s[|b| + 1..] == y;
  }

  /** A separator that does not occur in the tails determines where they start. */
  lemma SplitAtLast<T>(a: seq<T>, x: seq<T>, b: seq<T>, y: seq<T>, separator: T)
    requires Free(x, separator) && Free(y, separator)
    requires a + [separator] + x == b + [separator] + y
    ensures a == b && x == y
  {
    var s := a + [separator] + x;
    assert |s| == |a| + 1 + |x| == |b| + 1 + |y|;
    assert s[|a|] == separator && s[|b|] == separator;
    assert forall i :: |a| < i < |s| ==> s[i] == x[i - |a| - 1];
    assert forall i :: |b| < i < |s| ==> s[i] == y[i - |b| - 1];
    assert s[..|a|] == a && s[..|b|] == b;
    assert s[|a| + 1..] == x && s[|b| + 1..] == y;
  }

  /** Tails of equal length determine the heads. */
  lemma SplitByLength(a: text, x: text, b: text, y: text)
    requires |x| == |y| && a + x == b + y
    ensures a == b && x == y
  {
    assert (a + x)[..|a|] == a && (b + y)[..|b|] == b;
    assert (a + x)[|a|..] == x && (b + y)[|b|..] == y;
  }

  // Decimal numbers

  predicate IsDigit(b: byte) {
    0x30 <= b <= 0x39
  }

  predicate AllDigits(t: text) {
    forall i :: 0 <= i < |t| ==> IsDigit(t[i])
  }

  function DigitValue(b: byte): (v: nat)
    ensures v < 10
  {
    if b == 0x31 then 1 else if b == 0x32 then 2 else if b == 0x33 then 3 else
    if b == 0x34 then 4 else if b == 0x35 then 5 else if b == 0x36 then 6 else
    if b == 0x37 then 7 else if b == 0x38 then 8 else if b == 0x39 then 9 else 0
  }

  /** The canonical decimal rendering Rust's and Go's integer formatting produce. */
  function Decimal(n: nat): (t: text)
    ensures 1 <= |t| && AllDigits(t)
  {
    if n < 10 then [DIGITS[n]] else Decimal(n / 10) + [DIGITS[n % 10]]
  }

  /** Reads a digit string from left to right. */
  function DecimalValue(t: text): nat {
    if |t| == 0 then 0 else 10 * DecimalValue(t[..|t| - 1]) + DigitValue(t[|t| - 1])
  }

  /** The ten digits are the ASCII characters from `0` on, and read as their distance from it. */
  lemma DigitsAreAscii(d: nat)
    requires d < 10
    ensures DIGITS[d] as int == 0x30 + d && DigitValue(DIGITS[d]) == d
  {
  }

  lemma {:induction false} LeadingZero(t: text)
    ensures DecimalValue([0x30] + t) == DecimalValue(t)
  {
    var padded := [0x30] + t;
    if |t| == 0 {
      assert padded[..0] == [];
    } else {
      LeadingZero(t[..|t| - 1]);
      assert padded[..|t|] == [0x30] + t[..|t| - 1];
    }
  }

  /** The bytes are those of an ASCII text. */
  predicate Spells(t: text, s: string) {
    |t| == |s| && forall i :: 0 <= i < |t| ==> t[i] as int == s[i] as int
  }

  lemma DigitRoundTrip(d: nat)
    requires d < 10
    ensures DigitValue(DIGITS[d]) == d
  {
  }

  lemma {:induction false} DecimalRoundTrip(n: nat)
    ensures DecimalValue(Decimal(n)) == n
  {
    var t := Decimal(n);
    DigitRoundTrip(n % 10);
    if n < 10 {
      assert t[..0] == [];
    } else {
      DecimalRoundTrip(n / 10);
      assert t[..|t| - 1] == Decimal(n / 10);
    }
  }

  /** A digit string without a superfluous leading zero. */
  predicate CanonicalDecimal(t: text) {
    |t| > 0 && AllDigits(t) && (|t| == 1 || t[0] != 0x30)
  }

  lemma {:induction false} DecimalIsCanonical(n: nat)
    ensures CanonicalDecimal(Decimal(n)) && (n > 0 ==> Decimal(n)[0] != 0x30)
  {
    if n >= 10 {
      DecimalIsCanonical(n / 10);
    }
  }

  lemma ValuePositive(t: text)
    requires CanonicalDecimal(t) && t[0] != 0x30
    ensures DecimalValue(t) > 0
  {
    var n := |t| - 1;
    if n == 0 {
      assert IsDigit(t[0]);
    } else {
      assert t[..n][0] == t[0] && AllDigits(t[..n]);
      ValuePositive(t[..n]);
    }
  }

  lemma DigitOfValue(b: byte)
    requires IsDigit(b)
    ensures DIGITS[DigitValue(b)] == b
  {
  }

  /** One more digit behind a number. */
  lemma DecimalSnoc(m: nat, b: byte)
    requires m > 0 && IsDigit(b)
    ensures Decimal(10 * m + DigitValue(b)) == Decimal(m) + [b]
  {
    DigitOfValue(b);
  }

  lemma {:induction false} CanonicalRoundTrip(t: text)
    requires CanonicalDecimal(t)
    ensures Decimal(DecimalValue(t)) == t
  {
    var n := |t| - 1;
    var shorter := t[..n];
    assert t == shorter + [t[n]];
    if n == 0 {
      assert shorter == [];
      DigitOfValue(t[n]);
    } else {
      assert shorter[0] == t[0] && AllDigits(shorter);
      CanonicalRoundTrip(shorter);
      ValuePositive(shorter);
      DecimalSnoc(DecimalValue(shorter), t[n]);
    }
  }

  lemma DecimalInjective(m: nat, n: nat)
    requires Decimal(m) == Decimal(n)
    ensures m == n
  {
    DecimalRoundTrip(m);
    DecimalRoundTrip(n);
  }

  lemma DecimalHasNoSeparator(n: nat)
    ensures Free(Decimal(n), DOT) && Free(Decimal(n), COLON)
  {
  }
}
