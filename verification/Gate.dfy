/**
 What a request must pass before its nonce is claimed: the header checks, the body limit, the
 signature, the timestamp syntax and the clock window of security-kernel/src/main.rs, together with
 the clock of lib.rs and the expiry arithmetic of nonce_store.rs.
 */
module Gate {
  import opened Text
  import opened Signing

  const TWO_63: int := 0x8000_0000_0000_0000
  const I64_MIN: int := -TWO_63
  const I64_MAX: int := TWO_63 - 1
  const BODY_LIMIT: nat := 1024 * 1024

  /** Seconds below this bound are exact as `f64`, so `to_timestamp` receives them unchanged. */
  const EXACT_SECONDS: int := 0x20_0000_0000_0000

  // Signed 64-bit integers

  /** `str::parse::<i64>`: an optional sign, then at least one digit, within range. */
  function ParseI64(t: text): (r: Option<int>)
    ensures r.Some? ==> I64_MIN <= r.value <= I64_MAX
  {
    if |t| == 0 then None else
    var digits := if t[0] == PLUS || t[0] == HYPHEN then t[1..] else t;
    if |digits| == 0 || !AllDigits(digits) then None else
    var magnitude: int := DecimalValue(digits);
    var value := if t[0] == HYPHEN then -magnitude else magnitude;
    if I64_MIN <= value <= I64_MAX then Some(value) else None
  }

  function FormatI64(n: int): text {
    if n < 0 then [HYPHEN] + Decimal(-n) else Decimal(n)
  }

  lemma ParsedIsDotFree(t: text)
    requires ParseI64(t).Some?
    ensures Free(t, DOT)
  {
    var digits := if t[0] == PLUS || t[0] == HYPHEN then t[1..] else t;
    assert AllDigits(digits);
    forall i | 0 <= i < |t|
      ensures t[i] != DOT
    {
      if digits == t {
        assert IsDigit(digits[i]);
      } else if i > 0 {
        assert IsDigit(digits[i - 1]);
      }
    }
  }

  /** Exactly the texts that parse: digits, after a plus or minus sign if any, whose value is in range. */
  lemma ParseI64Iff(t: text, v: int)
    ensures ParseI64(t) == Some(v) <==>
              && -0x8000_0000_0000_0000 <= v <= 0x7fff_ffff_ffff_ffff
              && (|| (Numeral(t) && v == DecimalValue(t))
                  || (|t| > 0 && t[0] == 0x2b && Numeral(t[1..]) && v == DecimalValue(t[1..]))
                  || (|t| > 0 && t[0] == 0x2d && Numeral(t[1..]) && -v == DecimalValue(t[1..])))
  {
    NumeralIff(t);
    if |t| > 0 {
      NumeralIff(t[1..]);
      if Numeral(t) {
        assert 0x30 <= t[0] <= 0x39;
      }
    }
  }

  lemma NumeralIff(t: text)
    ensures Numeral(t) <==> |t| > 0 && AllDigits(t)
  {
  }

  predicate Numeral(t: text) {
    |t| > 0 && forall i :: 0 <= i < |t| ==> 0x30 <= t[i] <= 0x39
  }

  /** A minus sign before negative numbers only, no plus sign, no leading zeros. */
  lemma FormatI64Is(n: int)
    ensures if n >= 0 then CanonicalDecimal(FormatI64(n)) && DecimalValue(FormatI64(n)) == n
            else |FormatI64(n)| > 1 && FormatI64(n)[0] == 0x2d
                 && CanonicalDecimal(FormatI64(n)[1..]) && DecimalValue(FormatI64(n)[1..]) == -n
  {
    var magnitude: nat := if n < 0 then -n else n;
    DecimalIsCanonical(magnitude);
    DecimalRoundTrip(magnitude);
    if n < 0 {
      assert FormatI64(n)[1..] == Decimal(magnitude);
    }
  }

  lemma ParseFormat(n: int)
    requires I64_MIN <= n <= I64_MAX
    ensures ParseI64(FormatI64(n)) == Some(n)
  {
    var magnitude := if n < 0 then -n else n;
    DecimalRoundTrip(magnitude);
    var t := FormatI64(n);
    if n < 0 {
      assert t[1..] == Decimal(magnitude);
    }
  }

  function SaturatingAdd(a: int, b: int): (r: int)
    ensures I64_MIN <= a + b <= I64_MAX ==> r == a + b
    ensures a + b > I64_MAX ==> r == I64_MAX
    ensures a + b < I64_MIN ==> r == I64_MIN
  {
    if a + b > I64_MAX then I64_MAX else if a + b < I64_MIN then I64_MIN else a + b
  }

  /** `u64 as i64`. */
  function AsI64(n: nat): (r: int)
    ensures n <= I64_MAX ==> r == n
    ensures I64_MIN <= r <= I64_MAX && (r - n) % 0x1_0000_0000_0000_0000 == 0
  {
    var m := n % (2 * TWO_63);
    if m < TWO_63 then m else m - 2 * TWO_63
  }

  // Clock window

  /** Whole seconds since the epoch; a clock before the epoch reads zero. */
  function NowUnixSeconds(t: real): (n: nat)
    ensures t < 0.0 ==> n == 0
    ensures t >= 0.0 ==> n as real <= t < (n + 1) as real
  {
    if t < 0.0 then 0 else t.Floor
  }

  function AbsDiff(a: int, b: int): nat {
    if a < b then b - a else a - b
  }

  datatype Refusal =
    | MissingTimestamp | BadNonce | MissingSignature | BadBody | BadSignature
    | InvalidTimestamp | OutsideWindow

  datatype Admission = Admitted(timestamp: int) | Rejected(why: Refusal)

  function ValidateTimestamp(timestamp: text, now: int, skew: int): Admission {
    match ParseI64(timestamp)
    case None => Rejected(InvalidTimestamp)
    case Some(parsed) =>
      if AbsDiff(now, parsed) > skew then Rejected(OutsideWindow) else Admitted(parsed)
  }

  /** The expiry a claim stores; the source's `slack` is 1. */
  function Expiry(timestamp: int, skew: int, slack: int): int {
    SaturatingAdd(SaturatingAdd(timestamp, skew), slack)
  }

  /** The comparison of the cleanup statement, `expires_at < NOW()`. */
  predicate Expired(expires: int, at: real) {
    expires as real < at
  }

  predicate Accepted(timestamp: text, at: real, skew: int) {
    ValidateTimestamp(timestamp, AsI64(NowUnixSeconds(at)), skew).Admitted?
  }

  /** Every instant at which a timestamp is accepted lies before its expiry, when slack is one second. */
  lemma AcceptedBeforeExpiry(timestamp: text, at: real, skew: int, slack: int)
    requires at < EXACT_SECONDS as real && 0 < skew && 0 <= slack
    requires Accepted(timestamp, at, skew)
    ensures var ts := ParseI64(timestamp).value;
            && at < (ts + skew + 1) as real
            && ts <= NowUnixSeconds(at) + skew
            && (ts + skew + slack <= I64_MAX ==> Expiry(ts, skew, slack) == ts + skew + slack)
  {
    assert NowUnixSeconds(at) <= EXACT_SECONDS;
  }

  /** Some timestamp is still accepted at `at` although its row may already be deleted. */
  ghost predicate OutlivesRow(timestamp: text, at: real, skew: int, slack: int) {
    && 0.0 <= at < EXACT_SECONDS as real
    && Accepted(timestamp, at, skew)
    && Expired(Expiry(ParseI64(timestamp).value, skew, slack), at)
  }

  /** The `+ 1` of the expiry is exactly what keeps every acceptable request's row in the table. */
  lemma SlackOfOneIsNecessaryAndSufficient(skew: int, slack: int)
    requires 0 < skew < EXACT_SECONDS - 1 && 0 <= slack < EXACT_SECONDS
    ensures (exists timestamp, at :: OutlivesRow(timestamp, at, skew, slack)) <==> slack < 1
  {
    if slack < 1 {
      var timestamp, at := FormatI64(0), skew as real + 0.5;
      ParseFormat(0);
      assert at.Floor == skew;
      assert OutlivesRow(timestamp, at, skew, slack);
    }
    forall timestamp, at | OutlivesRow(timestamp, at, skew, slack)
      ensures slack < 1
    {
      AcceptedBeforeExpiry(timestamp, at, skew, slack);
    }
  }

  // Admission

  /** The parts of a request the gate looks at; `nonce` is `None` when the header is absent or no UUID. */
  datatype RawRequest = RawRequest(
    timestamp: Option<text>, nonce: Option<Uuid>, signature: Option<text>, body: Option<text>)

  function Admit(mac: Mac, raw: RawRequest, now: int, skew: int): Admission {
    if raw.timestamp.None? then Rejected(MissingTimestamp)
    else if raw.nonce.None? then Rejected(BadNonce)
    else if raw.signature.None? then Rejected(MissingSignature)
    else if raw.body.None? || |raw.body.value| > BODY_LIMIT then Rejected(BadBody)
    else if raw.signature.value != Signature(mac, raw.timestamp.value, raw.nonce.value, raw.body.value) then
      Rejected(BadSignature)
    else ValidateTimestamp(raw.timestamp.value, now, skew)
  }

  method CheckRequest(mac: Mac, raw: RawRequest, clock: real, skew: int) returns (r: Admission)
    ensures r == Admit(mac, raw, AsI64(NowUnixSeconds(clock)), skew)
  {
    if raw.timestamp.None? {
      return Rejected(MissingTimestamp);
    }
    if raw.nonce.None? {
      return Rejected(BadNonce);
    }
    if raw.signature.None? {
      return Rejected(MissingSignature);
    }
    if raw.body.None? || |raw.body.value| > BODY_LIMIT {
      return Rejected(BadBody);
    }
    var ok := VerifyServiceSignature(
      mac, raw.timestamp.value, raw.nonce.value, raw.body.value, raw.signature.value);
    if !ok {
      return Rejected(BadSignature);
    }
    var now := AsI64(NowUnixSeconds(clock));
    r := ValidateTimestamp(raw.timestamp.value, now, skew);
  }

  /** What an admitted request is known to be. */
  predicate WellSigned(mac: Mac, raw: RawRequest) {
    && raw.timestamp.Some? && raw.nonce.Some? && raw.signature.Some? && raw.body.Some?
    && ParseI64(raw.timestamp.value).Some?
    && raw.signature.value == Signature(mac, raw.timestamp.value, raw.nonce.value, raw.body.value)
  }

  lemma AdmittedIsWellSigned(mac: Mac, raw: RawRequest, now: int, skew: int)
    requires Admit(mac, raw, now, skew).Admitted?
    ensures WellSigned(mac, raw)
    ensures Admit(mac, raw, now, skew) == Admitted(ParseI64(raw.timestamp.value).value)
    ensures AbsDiff(now, ParseI64(raw.timestamp.value).value) <= skew
    ensures now - skew <= ParseI64(raw.timestamp.value).value <= now + skew
  {
  }

  /** Every answer of the gate and exactly when it is given. */
  lemma AdmissionIff(mac: Mac, raw: RawRequest, now: int, skew: int)
    ensures Admit(mac, raw, now, skew) == Rejected(MissingTimestamp) <==> raw.timestamp.None?
    ensures Admit(mac, raw, now, skew) == Rejected(BadNonce) <==> raw.timestamp.Some? && raw.nonce.None?
    ensures Admit(mac, raw, now, skew) == Rejected(MissingSignature) <==>
              raw.timestamp.Some? && raw.nonce.Some? && raw.signature.None?
    ensures Admit(mac, raw, now, skew) == Rejected(BadBody) <==>
              && raw.timestamp.Some? && raw.nonce.Some? && raw.signature.Some?
              && (raw.body.None? || |raw.body.value| > 1024 * 1024)
    ensures Admit(mac, raw, now, skew) == Rejected(BadSignature) <==> Complete(raw) && !Signed(mac, raw)
    ensures Admit(mac, raw, now, skew) == Rejected(InvalidTimestamp) <==>
              Complete(raw) && Signed(mac, raw) && ParseI64(raw.timestamp.value).None?
    ensures Admit(mac, raw, now, skew) == Rejected(OutsideWindow) <==>
              && Complete(raw) && Signed(mac, raw) && ParseI64(raw.timestamp.value).Some?
              && !(now - skew <= ParseI64(raw.timestamp.value).value <= now + skew)
    ensures Admit(mac, raw, now, skew).Admitted? <==>
              && Complete(raw) && Signed(mac, raw) && ParseI64(raw.timestamp.value).Some?
              && now - skew <= ParseI64(raw.timestamp.value).value <= now + skew
  {
  }

  /** The signature decodes to the MAC of the framed request and is its lower-case form. */
  predicate Signed(mac: Mac, raw: RawRequest)
    requires Complete(raw)
  {
    raw.signature.value == Hex(mac(raw.timestamp.value + [0x2e] + raw.nonce.value + [0x2e] + raw.body.value))
  }

  /** A request with all its parts, whose body the gate reads. */
  predicate Complete(raw: RawRequest) {
    && raw.timestamp.Some? && raw.nonce.Some? && raw.signature.Some? && raw.body.Some?
    && |raw.body.value| <= 1024 * 1024
  }

  ghost predicate RequestCollision(mac: Mac, a: RawRequest, b: RawRequest)
    requires WellSigned(mac, a) && WellSigned(mac, b)
  {
    Collision(mac, Message(a.timestamp.value, a.nonce.value, a.body.value),
                   Message(b.timestamp.value, b.nonce.value, b.body.value))
  }

  /** Two admitted requests that carry the same signature are the same request. */
  lemma SameSignatureSameRequest(mac: Mac, a: RawRequest, b: RawRequest)
    requires WellSigned(mac, a) && WellSigned(mac, b)
    requires a.signature == b.signature
    ensures a == b || RequestCollision(mac, a, b)
  {
    ParsedIsDotFree(a.timestamp.value);
    ParsedIsDotFree(b.timestamp.value);
    SignatureBindsTriple(mac, a.timestamp.value, a.nonce.value, a.body.value,
                              b.timestamp.value, b.nonce.value, b.body.value);
  }

  /**
   Another reading of a signed message carries the same valid signature; it is the timestamp check, and
   nothing before it, that turns it away.
   */
  lemma TwinRejected(mac: Mac, a: RawRequest, b: RawRequest, now: int, skew: int)
    requires WellSigned(mac, a) && Complete(b) && b != a && b.signature == a.signature
    requires Message(b.timestamp.value, b.nonce.value, b.body.value)
             == Message(a.timestamp.value, a.nonce.value, a.body.value)
    ensures b.signature.value == Signature(mac, b.timestamp.value, b.nonce.value, b.body.value)
    ensures Admit(mac, b, now, skew) == Rejected(InvalidTimestamp)
  {
    if ParseI64(b.timestamp.value).Some? {
      ParsedIsDotFree(a.timestamp.value);
      ParsedIsDotFree(b.timestamp.value);
      MessageInjective(a.timestamp.value, a.nonce.value, a.body.value,
                       b.timestamp.value, b.nonce.value, b.body.value);
    }
  }

  /** The request the Go client signs: decimal Unix seconds, a fresh nonce, the hexadecimal MAC. */
  function ClientRequest(mac: Mac, seconds: int, nonce: Uuid, body: text): RawRequest {
    var timestamp := FormatI64(seconds);
    RawRequest(Some(timestamp), Some(nonce), Some(Signature(mac, timestamp, nonce, body)), Some(body))
  }

  /** Client and kernel agree on the framing: only the clock window and the body limit can refuse. */
  lemma ClientRequestAdmittedIff(mac: Mac, seconds: int, nonce: Uuid, body: text, now: int, skew: int)
    requires I64_MIN <= seconds <= I64_MAX
    ensures Admit(mac, ClientRequest(mac, seconds, nonce, body), now, skew) == Admitted(seconds)
            <==> |body| <= 1024 * 1024 && now - skew <= seconds <= now + skew
  {
    ParseFormat(seconds);
  }
}
