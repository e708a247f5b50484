/**
 Request signatures: the hexadecimal printer, the comparison loop, the framing of the MAC input
 and the signature check of security-kernel/src/lib.rs.  The MAC is a parameter; the only thing
 ever asked of it is that two given messages do not collide.
 */
module Signing {
  import opened Text
  import opened Segments

  type Mac = text -> text

  const HEX_TABLE: text :=
    [0x30, 0x31, 0x32, 0x33, 0x34, 0x35, 0x36, 0x37, 0x38, 0x39, 0x61, 0x62, 0x63, 0x64, 0x65, 0x66]

  // Hexadecimal

  function HexDigit(nibble: byte): (d: byte)
    requires nibble < 16
    ensures IsLowerHex(d)
  {
    if nibble < 10 then 0x30 + nibble else 0x57 + nibble
  }

  function HexValue(d: byte): byte
  {
    if d < 0x3a then d - 0x30 else d - 0x57
  }

  function Hex(input: text): (out: text)
    ensures |out| == 2 * |input|
    ensures forall i :: 0 <= i < |out| ==> IsLowerHex(out[i])
  {
    if |input| == 0 then [] else
    var n := |input| - 1;
    Hex(input[..n]) + [HexDigit(input[n] >> 4), HexDigit(input[n] & 0x0f)]
  }

  function FromDigits(high: byte, low: byte): byte {
    (HexValue(high) << 4) | HexValue(low)
  }

  /** A decoder written without looking at the printer: every pair of digits is one byte. */
  function Unhex(digits: text): (out: text)
    requires |digits| % 2 == 0
    ensures |out| == |digits| / 2
  {
    seq(|digits| / 2, i requires 0 <= i < |digits| / 2 =>
      FromDigits(digits[2 * i], digits[2 * i + 1]))
  }

  lemma HexPair(b: byte)
    ensures b >> 4 < 16 && b & 0x0f < 16
    ensures FromDigits(HexDigit(b >> 4), HexDigit(b & 0x0f)) == b
  {
  }

  lemma {:induction false} UnhexHex(input: text)
    ensures Unhex(Hex(input)) == input
  {
    if |input| == 0 {
    } else {
      var n := |input| - 1;
      UnhexHex(input[..n]);
      HexPair(input[n]);
      var shorter, all := Hex(input[..n]), Hex(input);
      forall i | 0 <= i < |input|
        ensures Unhex(all)[i] == input[i]
      {
        if i < n {
          assert Unhex(shorter)[i] == input[..n][i];
          assert all[2 * i] == shorter[2 * i] && all[2 * i + 1] == shorter[2 * i + 1];
        }
      }
    }
  }

  lemma HexTableIs()
    ensures Spells(HEX_TABLE, "0123456789abcdef")
  {
  }

  lemma TableIsHexDigit(nibble: byte)
    requires nibble < 16
    ensures HEX_TABLE[nibble as nat] == HexDigit(nibble)
  {
  }

  /** One table access of the printing loop. */
  function TableAt(nibble: byte): (d: byte)
    requires nibble < 16
    ensures d == HexDigit(nibble)
  {
    TableIsHexDigit(nibble);
    HEX_TABLE[nibble as nat]
  }

  lemma HexSnoc(input: text, k: nat)
    requires k < |input|
    ensures input[k] >> 4 < 16 && input[k] & 0x0f < 16
    ensures Hex(input[..k + 1]) == Hex(input[..k]) + [HexDigit(input[k] >> 4), HexDigit(input[k] & 0x0f)]
  {
    HexPair(input[k]);
    assert input[..k + 1][..k] == input[..k];
  }

  method HexEncode(input: text) returns (out: text)
    ensures out == Hex(input)
  {
    out := [];
    for k := 0 to |input|
      invariant out == Hex(input[..k])
    {
      HexSnoc(input, k);
      var high := TableAt(input[k] >> 4);
      var low := TableAt(input[k] & 0x0f);
      out := out + [high];
      out := out + [low];
    }
    assert input[..|input|] == input;
  }

  // Comparison

  lemma OrOfXor(diff: byte, a: byte, b: byte)
    ensures diff | (a ^ b) == 0 <==> diff == 0 && a == b
  {
  }

  method ConstantTimeEq(left: text, right: text) returns (equal: bool)
    ensures equal <==> left == right
  {
    if |left| != |right| {
      return false;
    }
    var diff: byte := 0;
    for k := 0 to |left|
      invariant diff == 0 <==> left[..k] == right[..k]
    {
      OrOfXor(diff, left[k], right[k]);
      diff := diff | (left[k] ^ right[k]);
      assert left[..k + 1] == left[..k] + [left[k]] && right[..k + 1] == right[..k] + [right[k]];
    }
    assert left[..|left|] == left && right[..|right|] == right;
    return diff == 0;
  }

  // Framing

  /** The bytes fed to the MAC: timestamp, dot, canonical nonce, dot, body. */
  function Message(timestamp: text, nonce: Uuid, body: text): text {
    timestamp + [DOT] + nonce + [DOT] + body
  }

  lemma MessageInjective(t1: text, n1: Uuid, b1: text, t2: text, n2: Uuid, b2: text)
    requires Free(t1, DOT) && Free(t2, DOT)
    requires Message(t1, n1, b1) == Message(t2, n2, b2)
    ensures t1 == t2 && n1 == n2 && b1 == b2
  {
    assert Message(t1, n1, b1) == t1 + [DOT] + (n1 + [DOT] + b1);
    assert Message(t2, n2, b2) == t2 + [DOT] + (n2 + [DOT] + b2);
    SplitAtFirst(t1, n1 + [DOT] + b1, t2, n2 + [DOT] + b2, DOT);
    UuidHasNoSeparator(n1);
    UuidHasNoSeparator(n2);
    SplitAtFirst(n1, b1, n2, b2, DOT);
  }

  /** Another triple is fed to the MAC as the same bytes. */
  ghost predicate MessageShared(timestamp: text, nonce: Uuid, body: text) {
    exists t, n: Uuid, b ::
      !(t == timestamp && n == nonce && b == body) && Message(t, n, b) == Message(timestamp, nonce, body)
  }

  /**
   Exactly when a triple shares its message with another one, whatever the timestamp: some dot-delimited
   segment of the body but the last, or of the timestamp but the first, is a canonical UUID.
   */
  lemma MessageSharedIff(timestamp: text, nonce: Uuid, body: text)
    ensures MessageShared(timestamp, nonce, body) <==> MarkedElsewhere(DOT, timestamp, body, CanonicalUuid)
  {
    UuidsArePlain(DOT);
    if t, n: Uuid, b :|
      !(t == timestamp && n == nonce && b == body) && Message(t, n, b) == Message(timestamp, nonce, body)
    {
      OtherReadingMarksElsewhere(DOT, timestamp, nonce, body, t, n, b, CanonicalUuid);
    }
    if MarkedElsewhere(DOT, timestamp, body, CanonicalUuid) {
      var t, n, b := MarkedElsewhereReads(DOT, timestamp, nonce, body, CanonicalUuid);
      assert Message(t, n, b) == Message(timestamp, nonce, body);
    }
  }

  /** For a timestamp without a dot, as every number is, the body alone decides. */
  lemma PlainMessageSharedIff(timestamp: text, nonce: Uuid, body: text)
    requires Free(timestamp, DOT)
    ensures MessageShared(timestamp, nonce, body) <==> MarkBeforeLast(DOT, body, CanonicalUuid)
  {
    MessageSharedIff(timestamp, nonce, body);
    SplitPlain(DOT, timestamp);
  }

  /** Without the restriction on timestamps the framing is ambiguous: a concrete pair. */
  lemma DottedTimestampsCollide(nonce: Uuid)
    ensures var t := [0x31, DOT] + nonce;
            t != [0x31] && Message([0x31], nonce, nonce + [DOT]) == Message(t, nonce, [])
  {
    var t := [0x31, DOT] + nonce;
    assert |t| == 38;
    assert Message(t, nonce, []) == Message([0x31], nonce, nonce + [DOT]);
  }

  function Signature(mac: Mac, timestamp: text, nonce: Uuid, body: text): text {
    Hex(mac(Message(timestamp, nonce, body)))
  }

  method ServiceSignature(mac: Mac, timestamp: text, nonce: Uuid, body: text) returns (signature: text)
    ensures signature == Signature(mac, timestamp, nonce, body)
  {
    var fed := timestamp;
    fed := fed + [DOT];
    fed := fed + nonce;
    fed := fed + [DOT];
    fed := fed + body;
    signature := HexEncode(mac(fed));
  }

  /** Accepts exactly the byte strings equal to the MAC of the framed triple, in lower-case hexadecimal. */
  method VerifyServiceSignature(mac: Mac, timestamp: text, nonce: Uuid, body: text, signature: text)
    returns (ok: bool)
    ensures ok <==> signature == Signature(mac, timestamp, nonce, body)
    ensures ok <==> |signature| % 2 == 0 && Hex(Unhex(signature)) == signature
                    && Unhex(signature) == mac(Message(timestamp, nonce, body))
  {
    var expected := ServiceSignature(mac, timestamp, nonce, body);
    ok := ConstantTimeEq(expected, signature);
    UnhexHex(mac(Message(timestamp, nonce, body)));
  }

  ghost predicate Collision(f: text -> text, x: text, y: text) {
    x != y && f(x) == f(y)
  }

  /** One signature stands for one triple, unless the two framed messages collide under the MAC. */
  lemma SignatureBindsTriple(mac: Mac, t1: text, n1: Uuid, b1: text, t2: text, n2: Uuid, b2: text)
    requires Free(t1, DOT) && Free(t2, DOT)
    requires Signature(mac, t1, n1, b1) == Signature(mac, t2, n2, b2)
    ensures (t1 == t2 && n1 == n2 && b1 == b2)
         || Collision(mac, Message(t1, n1, b1), Message(t2, n2, b2))
  {
    UnhexHex(mac(Message(t1, n1, b1)));
    UnhexHex(mac(Message(t2, n2, b2)));
    if Message(t1, n1, b1) == Message(t2, n2, b2) {
      MessageInjective(t1, n1, b1, t2, n2, b2);
    }
  }
}
