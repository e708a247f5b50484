/**
 `encodeURIComponent`: characters become UTF-8 bytes, and every byte outside the unreserved set
 becomes a percent triple.  The decoder follows section 2.1 of RFC 3986 and RFC 3629.
 */
module Percent {
  import opened Text

  type octets = seq<int>

  const UPPER_HEX: string := "0123456789ABCDEF"

  /** Letters, digits and `-_.!~*'()`. */
  predicate Unreserved(c: char) {
    || 'A' <= c <= 'Z' || 'a' <= c <= 'z' || '0' <= c <= '9'
    || c == '-' || c == '_' || c == '.' || c == '!' || c == '~' || c == '*' || c == '\'' || c == '(' || c == ')'
  }

  function Utf8(c: char): (r: octets)
    ensures 1 <= |r| <= 4 && forall i :: 0 <= i < |r| ==> 0 <= r[i] < 256
  {
    var n := c as int;
    if n < 0x80 then [n]
    else if n < 0x800 then [0xC0 + n / 64, 0x80 + n % 64]
    else if n < 0x10000 then [0xE0 + n / 4096, 0x80 + n / 64 % 64, 0x80 + n % 64]
    else [0xF0 + n / 262144, 0x80 + n / 4096 % 64, 0x80 + n / 64 % 64, 0x80 + n % 64]
  }

  function Utf8Text(s: string): octets {
    if s == "" then [] else Utf8(s[0]) + Utf8Text(s[1..])
  }

  function HexChar(v: int): char
    requires 0 <= v < 16
  {
    UPPER_HEX[v]
  }

  function Triple(b: int): string
    requires 0 <= b < 256
  {
    ['%', HexChar(b / 16), HexChar(b % 16)]
  }

  function Triples(bytes: octets): string
    requires forall i :: 0 <= i < |bytes| ==> 0 <= bytes[i] < 256
  {
    if bytes == [] then "" else Triple(bytes[0]) + Triples(bytes[1..])
  }

  function EncodeChar(c: char): string {
    if Unreserved(c) then [c] else Triples(Utf8(c))
  }

  function Encode(s: string): string {
    if s == "" then "" else EncodeChar(s[0]) + Encode(s[1..])
  }

  // Decoding

  function HexDigitValue(c: char): Option<int> {
    if '0' <= c <= '9' then Some(c as int - '0' as int)
    else if 'A' <= c <= 'F' then Some(c as int - 'A' as int + 10)
    else if 'a' <= c <= 'f' then Some(c as int - 'a' as int + 10)
    else None
  }

  /** Percent triples and plain ASCII characters, as bytes. */
  function Bytes(t: string): Option<octets> {
    if t == "" then Some([])
    else if t[0] == '%' then
      if |t| < 3 then None else
      match (HexDigitValue(t[1]), HexDigitValue(t[2]), Bytes(t[3..]))
      case (Some(high), Some(low), Some(rest)) => Some([16 * high + low] + rest)
      case _ => None
    else if t[0] as int >= 0x80 then None
    else
      match Bytes(t[1..])
      case Some(rest) => Some([t[0] as int] + rest)
      case None => None
  }

  function CharOf(n: int): Option<char> {
    if 0 <= n < 0xD800 || 0xE000 <= n < 0x110000 then Some(n as char) else None
  }

  /** Byte `i` is the next six bits of a character. */
  predicate ContinuesAt(b: octets, i: nat) {
    i < |b| && 0x80 <= b[i] < 0xC0
  }

  /**
   The first character of a UTF-8 byte sequence and the number of bytes it takes, by section 4 of RFC 3629:
   no stray or missing continuation byte, no overlong form, no surrogate, nothing beyond U+10FFFF.
   */
  function FirstChar(b: octets): Option<(char, nat)> {
    if |b| == 0 then None
    else
      var (value, length, least) :=
        if b[0] < 0x80 then (b[0], 1, 0)
        else if 0xC0 <= b[0] < 0xE0 && ContinuesAt(b, 1) then ((b[0] - 0xC0) * 64 + b[1] - 0x80, 2, 0x80)
        else if 0xE0 <= b[0] < 0xF0 && ContinuesAt(b, 1) && ContinuesAt(b, 2) then
          ((b[0] - 0xE0) * 4096 + (b[1] - 0x80) * 64 + b[2] - 0x80, 3, 0x800)
        else if 0xF0 <= b[0] && ContinuesAt(b, 1) && ContinuesAt(b, 2) && ContinuesAt(b, 3) then
          ((b[0] - 0xF0) * 262144 + (b[1] - 0x80) * 4096 + (b[2] - 0x80) * 64 + b[3] - 0x80, 4, 0x10000)
        else (-1, 1, 0);
      match CharOf(value)
      case Some(c) => if value < least then None else Some((c, length))
      case None => None
  }

  function Characters(b: octets): Option<string>
    decreases |b|
  {
    if b == [] then Some("")
    else
      match FirstChar(b)
      case None => None
      case Some((c, length)) =>
        if length == 0 || length > |b| then None else
        match Characters(b[length..])
        case Some(rest) => Some([c] + rest)
        case None => None
  }

  function Decode(t: string): Option<string> {
    match Bytes(t)
    case Some(b) => Characters(b)
    case None => None
  }

  // Round trip

  lemma HexCharRoundTrip(v: int)
    requires 0 <= v < 16
    ensures HexDigitValue(HexChar(v)) == Some(v)
  {
  }

  lemma BytesOfTriple(b: int, tail: string)
    requires 0 <= b < 256 && Bytes(tail).Some?
    ensures Bytes(Triple(b) + tail) == Some([b] + Bytes(tail).value)
  {
    var t := Triple(b) + tail;
    assert t[0] == '%' && t[1] == HexChar(b / 16) && t[2] == HexChar(b % 16) && t[3..] == tail;
    HexCharRoundTrip(b / 16);
    HexCharRoundTrip(b % 16);
  }

  lemma Associative<T>(a: seq<T>, b: seq<T>, c: seq<T>)
    ensures a + b + c == a + (b + c)
  {
  }

  lemma {:induction false} BytesOfTriples(bytes: octets, rest: string)
    requires forall i :: 0 <= i < |bytes| ==> 0 <= bytes[i] < 256
    requires Bytes(rest).Some?
    ensures Bytes(Triples(bytes) + rest) == Some(bytes + Bytes(rest).value)
  {
    if bytes == [] {
      assert Triples(bytes) + rest == rest;
      assert bytes + Bytes(rest).value == Bytes(rest).value;
    } else {
      BytesOfTriples(bytes[1..], rest);
      Associative(Triple(bytes[0]), Triples(bytes[1..]), rest);
      BytesOfTriple(bytes[0], Triples(bytes[1..]) + rest);
      Associative([bytes[0]], bytes[1..], Bytes(rest).value);
      assert [bytes[0]] + bytes[1..] == bytes;
    }
  }

  lemma {:induction false} BytesOfEncode(s: string)
    ensures Bytes(Encode(s)) == Some(Utf8Text(s))
  {
    if s != "" {
      BytesOfEncode(s[1..]);
      if Unreserved(s[0]) {
        assert Encode(s)[1..] == Encode(s[1..]);
      } else {
        BytesOfTriples(Utf8(s[0]), Encode(s[1..]));
      }
    }
  }

  /** A number is its base-64 digits put together. */
  lemma Base64Digits(n: nat)
    ensures n == n / 64 * 64 + n % 64
    ensures n == n / 4096 * 4096 + n / 64 % 64 * 64 + n % 64
    ensures n == n / 262144 * 262144 + n / 4096 % 64 * 4096 + n / 64 % 64 * 64 + n % 64
  {
    assert n / 4096 == n / 64 / 64 && n / 262144 == n / 4096 / 64;
  }

  lemma ShortForms(c: char, b: octets)
    requires c as int < 0x800 && Utf8(c) <= b
    ensures FirstChar(b) == Some((c, |Utf8(c)|))
  {
    Base64Digits(c as int);
    assert b[0] == Utf8(c)[0];
    if c as int >= 0x80 {
      assert b[1] == Utf8(c)[1];
    }
  }

  lemma ThreeByteForm(c: char, b: octets)
    requires 0x800 <= c as int < 0x10000 && Utf8(c) <= b
    ensures FirstChar(b) == Some((c, 3))
  {
    Base64Digits(c as int);
    assert b[0] == Utf8(c)[0] && b[1] == Utf8(c)[1] && b[2] == Utf8(c)[2];
    assert (b[0] - 0xE0) * 4096 + (b[1] - 0x80) * 64 + b[2] - 0x80 == c as int;
  }

  lemma FourByteForm(c: char, b: octets)
    requires 0x10000 <= c as int && Utf8(c) <= b
    ensures FirstChar(b) == Some((c, 4))
  {
    Base64Digits(c as int);
    assert b[0] == Utf8(c)[0] && b[1] == Utf8(c)[1] && b[2] == Utf8(c)[2] && b[3] == Utf8(c)[3];
    assert (b[0] - 0xF0) * 262144 + (b[1] - 0x80) * 4096 + (b[2] - 0x80) * 64 + b[3] - 0x80 == c as int;
  }

  lemma FirstCharOfUtf8(c: char, b: octets)
    requires Utf8(c) <= b
    ensures FirstChar(b) == Some((c, |Utf8(c)|))
  {
    if c as int < 0x800 {
      ShortForms(c, b);
    } else if c as int < 0x10000 {
      ThreeByteForm(c, b);
    } else {
      FourByteForm(c, b);
    }
  }

  lemma {:induction false} CharactersOfUtf8(s: string)
    ensures Characters(Utf8Text(s)) == Some(s)
  {
    if s != "" {
      var b := Utf8Text(s);
      FirstCharOfUtf8(s[0], b);
      assert b[|Utf8(s[0])|..] == Utf8Text(s[1..]);
      CharactersOfUtf8(s[1..]);
      assert [s[0]] + s[1..] == s;
    }
  }

  lemma LastDigit(m: nat, z: nat)
    requires z < 64
    ensures (m * 64 + z) / 64 == m && (m * 64 + z) % 64 == z
  {
  }

  /** Digits put together are the digits taken apart. */
  lemma DigitsOf(n: nat, a: nat, x: nat, y: nat, z: nat)
    requires x < 64 && y < 64 && z < 64 && n == ((a * 64 + x) * 64 + y) * 64 + z
    ensures n / 64 / 64 / 64 == a && n / 64 / 64 % 64 == x && n / 64 % 64 == y && n % 64 == z
  {
    LastDigit((a * 64 + x) * 64 + y, z);
    LastDigit(a * 64 + x, y);
    LastDigit(a, x);
  }

  lemma NestedDivision(n: nat)
    ensures n / 4096 == n / 64 / 64 && n / 262144 == n / 64 / 64 / 64
  {
  }

  lemma TwoByteExact(b: octets)
    requires ContinuesAt(b, 1) && 0xC0 <= b[0] < 0xE0 && FirstChar(b).Some?
    ensures FirstChar(b).value.1 == 2 && Utf8(FirstChar(b).value.0) == [b[0], b[1]]
  {
    LastDigit(b[0] - 0xC0, b[1] - 0x80);
  }

  lemma ThreeByteExact(b: octets)
    requires ContinuesAt(b, 1) && ContinuesAt(b, 2) && 0xE0 <= b[0] < 0xF0 && FirstChar(b).Some?
    ensures FirstChar(b).value.1 == 3 && Utf8(FirstChar(b).value.0) == [b[0], b[1], b[2]]
  {
    var n := FirstChar(b).value.0 as int;
    assert n == (b[0] - 0xE0) * 4096 + (b[1] - 0x80) * 64 + b[2] - 0x80;
    NestedDivision(n);
    DigitsOf(n, 0, b[0] - 0xE0, b[1] - 0x80, b[2] - 0x80);
  }

  lemma FourByteExact(b: octets)
    requires ContinuesAt(b, 1) && ContinuesAt(b, 2) && ContinuesAt(b, 3) && 0xF0 <= b[0] && FirstChar(b).Some?
    ensures FirstChar(b).value.1 == 4 && Utf8(FirstChar(b).value.0) == [b[0], b[1], b[2], b[3]]
  {
    var n := FirstChar(b).value.0 as int;
    assert n == (b[0] - 0xF0) * 262144 + (b[1] - 0x80) * 4096 + (b[2] - 0x80) * 64 + b[3] - 0x80;
    NestedDivision(n);
    DigitsOf(n, b[0] - 0xF0, b[1] - 0x80, b[2] - 0x80, b[3] - 0x80);
  }

  /** A character is read only from its own encoding. */
  lemma FirstCharExact(b: octets)
    requires FirstChar(b).Some?
    ensures var (c, length) := FirstChar(b).value; length == |Utf8(c)| && Utf8(c) <= b
  {
    if 0xC0 <= b[0] < 0xE0 {
      TwoByteExact(b);
    } else if 0xE0 <= b[0] < 0xF0 {
      ThreeByteExact(b);
    } else if 0xF0 <= b[0] {
      FourByteExact(b);
    }
  }

  /** The decoder reads a byte sequence as a text exactly when it is the UTF-8 form of that text. */
  lemma {:induction false} CharactersIff(b: octets, s: string)
    ensures Characters(b) == Some(s) <==> b == Utf8Text(s)
    decreases |b|
  {
    if b == Utf8Text(s) {
      CharactersOfUtf8(s);
    }
    if Characters(b) == Some(s) && b != [] {
      var (c, length) := FirstChar(b).value;
      FirstCharExact(b);
      assert s[0] == c && s[1..] == Characters(b[length..]).value;
      CharactersIff(b[length..], s[1..]);
      assert b == b[..length] + b[length..] && b[..length] == Utf8(c);
    }
  }

  /** Decoding an encoded text gives it back, for every text. */
  lemma DecodeEncode(s: string)
    ensures Decode(Encode(s)) == Some(s)
  {
    BytesOfEncode(s);
    CharactersOfUtf8(s);
  }

  /** A character an encoded text can contain. */
  predicate Emitted(c: char) {
    c == '%' || Unreserved(c)
  }

  lemma {:induction false} EncodeEmits(s: string)
    ensures forall i :: 0 <= i < |Encode(s)| ==> Emitted(Encode(s)[i])
  {
    if s != "" {
      EncodeEmits(s[1..]);
      if !Unreserved(s[0]) {
        TriplesEmit(Utf8(s[0]));
      }
    }
  }

  /** A percent triple at the front of a text, with upper-case digits. */
  predicate TripleAt(t: string, i: nat) {
    i + 2 < |t| && t[i] == '%' && t[i + 1] in "0123456789ABCDEF" && t[i + 2] in "0123456789ABCDEF"
  }

  lemma HexCharUpper(v: int)
    requires 0 <= v < 16
    ensures HexChar(v) in "0123456789ABCDEF"
  {
  }

  lemma {:induction false} TriplesAreTriples(bytes: octets, i: nat)
    requires forall k :: 0 <= k < |bytes| ==> 0 <= bytes[k] < 256
    requires i < |Triples(bytes)| && Triples(bytes)[i] == '%'
    ensures TripleAt(Triples(bytes), i)
  {
    var first, rest := Triple(bytes[0]), Triples(bytes[1..]);
    HexCharUpper(bytes[0] / 16);
    HexCharUpper(bytes[0] % 16);
    if i >= 3 {
      assert (first + rest)[i] == rest[i - 3];
      TriplesAreTriples(bytes[1..], i - 3);
    }
  }

  /** An encoded text is plain characters and percent triples with upper-case digits, and nothing else. */
  lemma {:induction false} EncodeIsPlain(s: string, i: nat)
    requires i < |Encode(s)|
    ensures var c := Encode(s)[i];
            'A' <= c <= 'Z' || 'a' <= c <= 'z' || '0' <= c <= '9' || c in "-_.!~*'()" || c == '%'
    ensures Encode(s)[i] == '%' ==> TripleAt(Encode(s), i)
  {
    EncodeEmits(s);
    assert Emitted(Encode(s)[i]);
    var first, rest := EncodeChar(s[0]), Encode(s[1..]);
    if i >= |first| {
      assert (first + rest)[i] == rest[i - |first|];
      EncodeIsPlain(s[1..], i - |first|);
    } else if !Unreserved(s[0]) && Encode(s)[i] == '%' {
      assert first[i] == '%';
      TriplesAreTriples(Utf8(s[0]), i);
    }
  }

  lemma {:induction false} EncodePlain(s: string)
    requires forall i :: 0 <= i < |s| ==> Unreserved(s[i])
    ensures Encode(s) == s
  {
    if s != "" {
      EncodePlain(s[1..]);
      assert s == [s[0]] + s[1..];
    }
  }

  lemma EncodeCharLength(c: char)
    ensures |EncodeChar(c)| >= 1 && (!Unreserved(c) ==> |EncodeChar(c)| >= 3)
  {
    if !Unreserved(c) {
      assert |Triple(Utf8(c)[0])| == 3;
    }
  }

  lemma {:induction false} EncodeLength(s: string, i: nat)
    ensures |Encode(s)| >= |s|
    ensures i < |s| && !Unreserved(s[i]) ==> |Encode(s)| > |s|
  {
    if s != "" {
      EncodeCharLength(s[0]);
      EncodeLength(s[1..], if i > 0 then i - 1 else 0);
    }
  }

  lemma UnreservedIs(c: char)
    ensures Unreserved(c) <==> 'A' <= c <= 'Z' || 'a' <= c <= 'z' || '0' <= c <= '9' || c in "-_.!~*'()"
  {
  }

  /** A text stays as it is exactly when all its characters are plain. */
  lemma EncodeIdentityIff(s: string)
    ensures Encode(s) == s <==>
              forall i :: 0 <= i < |s| ==>
                'A' <= s[i] <= 'Z' || 'a' <= s[i] <= 'z' || '0' <= s[i] <= '9' || s[i] in "-_.!~*'()"
  {
    forall i | 0 <= i < |s|
      ensures Unreserved(s[i]) <==>
                'A' <= s[i] <= 'Z' || 'a' <= s[i] <= 'z' || '0' <= s[i] <= '9' || s[i] in "-_.!~*'()"
    {
      UnreservedIs(s[i]);
    }
    if i :| 0 <= i < |s| && !Unreserved(s[i]) {
      EncodeLength(s, i);
    } else {
      EncodePlain(s);
    }
  }

  lemma {:induction false} TriplesEmit(bytes: octets)
    requires forall i :: 0 <= i < |bytes| ==> 0 <= bytes[i] < 256
    ensures forall i :: 0 <= i < |Triples(bytes)| ==> Emitted(Triples(bytes)[i])
  {
    if bytes != [] {
      TriplesEmit(bytes[1..]);
      assert Emitted(HexChar(bytes[0] / 16)) && Emitted(HexChar(bytes[0] % 16));
    }
  }
}
