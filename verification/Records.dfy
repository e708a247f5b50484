/**
 Texts the kernel has signed or hashed: the identity challenge payload and the material of the audit
 hash chain.  SHA-256 is a parameter; results either identify the input or exhibit a collision.
 */
module Records {
  import opened Text
  import opened Signing
  import opened Segments

  // Identity challenges

  const META_ORG: text := [0x6d, 0x65, 0x74, 0x61, 0x2d, 0x6f, 0x72, 0x67]

  const TWO_64: int := 0x1_0000_0000_0000_0000

  type U64 = n: nat | n < TWO_64

  datatype Challenge = Challenge(
    challengeId: Uuid, subjectId: Uuid, purpose: text, expiresInSeconds: U64, nonce: text)

  function Payload(c: Challenge): text {
    META_ORG + [COLON] + c.challengeId + [COLON] + c.subjectId + [COLON] + c.purpose
      + [COLON] + Decimal(c.expiresInSeconds) + [COLON] + c.nonce
  }

  /** What follows the two fixed-length identifiers. */
  function Terms(c: Challenge): text {
    c.purpose + [COLON] + Decimal(c.expiresInSeconds) + [COLON] + c.nonce
  }

  lemma PayloadParts(c: Challenge)
    ensures Payload(c) == META_ORG + [COLON] + c.challengeId + [COLON] + c.subjectId + [COLON] + Terms(c)
    ensures |META_ORG + [COLON] + c.challengeId + [COLON] + c.subjectId + [COLON]| == 83
  {
  }

  lemma PayloadNested(c: Challenge)
    ensures Payload(c) == META_ORG + [COLON] + (c.challengeId + [COLON] + (c.subjectId + [COLON] + Terms(c)))
  {
    PayloadParts(c);
    Regrouped(META_ORG, c.challengeId, c.subjectId, Terms(c));
  }

  lemma Regrouped(a: text, b: text, c: text, d: text)
    ensures a + [COLON] + b + [COLON] + c + [COLON] + d == a + [COLON] + (b + [COLON] + (c + [COLON] + d))
  {
  }

  lemma ThreeBefore<T>(a: T, b: T, c: T, rest: seq<T>)
    ensures [a] + ([b] + ([c] + rest)) == [a, b, c] + rest
  {
  }

  lemma MetaOrgIsAscii()
    ensures Spells(META_ORG, "meta-org") && Free(META_ORG, COLON)
  {
  }

  /** Between the colons: "meta-org", the challenge, the subject, then purpose, seconds and nonce. */
  lemma PayloadLayout(c: Challenge)
    ensures Spells(META_ORG, "meta-org")
    ensures Split(COLON, Payload(c))
            == [META_ORG, c.challengeId, c.subjectId]
               + (Split(COLON, c.purpose) + [Decimal(c.expiresInSeconds)] + Split(COLON, c.nonce))
  {
    MetaOrgIsAscii();
    PayloadNested(c);
    UuidHasNoSeparator(c.challengeId);
    UuidHasNoSeparator(c.subjectId);
    DecimalHasNoSeparator(c.expiresInSeconds);
    var inner := c.subjectId + [COLON] + Terms(c);
    SplitPlainHead(COLON, META_ORG, c.challengeId + [COLON] + inner);
    SplitPlainHead(COLON, c.challengeId, inner);
    SplitPlainHead(COLON, c.subjectId, Terms(c));
    FramedSegments(COLON, c.purpose, Decimal(c.expiresInSeconds), c.nonce);
    ThreeBefore(META_ORG, c.challengeId, c.subjectId, Split(COLON, Terms(c)));
  }

  /** Equal payloads agree on the identifiers; the rest is one text read twice. */
  lemma SamePayloadTerms(c: Challenge, d: Challenge)
    ensures Payload(c) == Payload(d)
            <==> c.challengeId == d.challengeId && c.subjectId == d.subjectId && Terms(c) == Terms(d)
  {
    PayloadParts(c);
    PayloadParts(d);
    if Payload(c) == Payload(d) {
      var headC := META_ORG + [COLON] + c.challengeId + [COLON] + c.subjectId + [COLON];
      var headD := META_ORG + [COLON] + d.challengeId + [COLON] + d.subjectId + [COLON];
      SplitByLength(headC, Terms(c), headD, Terms(d));
      assert headC[9..45] == c.challengeId && headD[9..45] == d.challengeId;
      assert headC[46..82] == c.subjectId && headD[46..82] == d.subjectId;
    }
  }

  /** Purposes may hold colons and digits: with colon-free nonces, as `new` makes them, different challenges differ. */
  lemma PayloadInjective(c: Challenge, d: Challenge)
    requires Free(c.nonce, COLON) && Free(d.nonce, COLON)
    requires Payload(c) == Payload(d)
    ensures c == d
  {
    SamePayloadTerms(c, d);
    var beforeC, beforeD := c.purpose + [COLON] + Decimal(c.expiresInSeconds),
                            d.purpose + [COLON] + Decimal(d.expiresInSeconds);
    SplitAtLast(beforeC, c.nonce, beforeD, d.nonce, COLON);
    DecimalHasNoSeparator(c.expiresInSeconds);
    DecimalHasNoSeparator(d.expiresInSeconds);
    SplitAtLast(c.purpose, Decimal(c.expiresInSeconds), d.purpose, Decimal(d.expiresInSeconds), COLON);
    DecimalInjective(c.expiresInSeconds, d.expiresInSeconds);
  }

  /** A challenge that arrives as JSON may carry any nonce; with a colon in it two challenges share a payload. */
  lemma ColonInNonceAmbiguous(challengeId: Uuid, subjectId: Uuid, purpose: text, m: U64, n: U64, nonce: text)
    ensures var c := Challenge(challengeId, subjectId, purpose, m, Decimal(n) + [COLON] + nonce);
            var d := Challenge(challengeId, subjectId, purpose + [COLON] + Decimal(m), n, nonce);
            c != d && Payload(c) == Payload(d)
  {
    var c := Challenge(challengeId, subjectId, purpose, m, Decimal(n) + [COLON] + nonce);
    var d := Challenge(challengeId, subjectId, purpose + [COLON] + Decimal(m), n, nonce);
    assert |c.purpose| < |d.purpose|;
    PayloadParts(c);
    PayloadParts(d);
    assert Terms(c) == purpose + [COLON] + Decimal(m) + [COLON] + Decimal(n) + [COLON] + nonce == Terms(d);
  }

  /** What the payload prints for some number of seconds. */
  predicate PrintsSeconds(t: text) {
    CanonicalDecimal(t) && DecimalValue(t) < TWO_64
  }

  lemma SecondsPrinted(n: U64)
    ensures PrintsSeconds(Decimal(n))
  {
    DecimalIsCanonical(n);
    DecimalRoundTrip(n);
  }

  lemma PrintsSecondsIff(t: text)
    ensures PrintsSeconds(t) <==> exists n: U64 :: t == Decimal(n)
  {
    if PrintsSeconds(t) {
      CanonicalRoundTrip(t);
      var n: U64 := DecimalValue(t);
      assert t == Decimal(n);
    }
    if n: U64 :| t == Decimal(n) {
      SecondsPrinted(n);
    }
  }

  lemma SecondsArePlain()
    ensures PlainMarks(COLON, PrintsSeconds)
  {
  }

  /** Another challenge has the same payload. */
  ghost predicate PayloadShared(c: Challenge) {
    exists d :: d != c && Payload(d) == Payload(c)
  }

  /**
   Exactly when a challenge shares its payload with another one: some segment of its nonce but the last,
   or some segment of its purpose but the first, is a number of seconds as the payload prints it.
   */
  lemma PayloadSharedIff(c: Challenge)
    ensures PayloadShared(c) <==> MarkedElsewhere(COLON, c.purpose, c.nonce, PrintsSeconds)
  {
    SecondsArePlain();
    SecondsPrinted(c.expiresInSeconds);
    if d :| d != c && Payload(d) == Payload(c) {
      SamePayloadTerms(d, c);
      SecondsPrinted(d.expiresInSeconds);
      OtherReadingMarksElsewhere(
        COLON, c.purpose, Decimal(c.expiresInSeconds), c.nonce,
        d.purpose, Decimal(d.expiresInSeconds), d.nonce, PrintsSeconds);
      if c.expiresInSeconds != d.expiresInSeconds && Decimal(c.expiresInSeconds) == Decimal(d.expiresInSeconds) {
        DecimalInjective(c.expiresInSeconds, d.expiresInSeconds);
      }
    }
    if MarkedElsewhere(COLON, c.purpose, c.nonce, PrintsSeconds) {
      var h, m, t := MarkedElsewhereReads(COLON, c.purpose, Decimal(c.expiresInSeconds), c.nonce, PrintsSeconds);
      PrintsSecondsIff(m);
      var n: U64 :| m == Decimal(n);
      var d := Challenge(c.challengeId, c.subjectId, h, n, t);
      assert Terms(d) == Framed(COLON, h, m, t);
      SamePayloadTerms(d, c);
    }
  }

  /** For a colon-free nonce, as `new` makes it, only the purpose the client chose matters. */
  lemma FreshPayloadSharedIff(c: Challenge)
    requires Free(c.nonce, COLON)
    ensures PayloadShared(c) <==> MarkAfterFirst(COLON, c.purpose, PrintsSeconds)
  {
    PayloadSharedIff(c);
    SplitPlain(COLON, c.nonce);
  }

  // Hash chain

  const GENESIS: text := [0x67, 0x65, 0x6e, 0x65, 0x73, 0x69, 0x73]

  datatype Entry = Entry(eventType: text, subject: Uuid, payloadHash: text)

  datatype HashEvent = HashEvent(previousHash: Option<text>, eventHash: text, eventType: text, subject: Uuid)

  function PreviousText(previous: Option<text>): text {
    match previous
    case None => GENESIS
    case Some(hash) => hash
  }

  function Material(previous: Option<text>, e: Entry): text {
    PreviousText(previous) + [COLON] + e.eventType + [COLON] + e.subject + [COLON] + e.payloadHash
  }

  function AppendHashEvent(sha: text -> text, previous: Option<text>, e: Entry): HashEvent {
    HashEvent(previous, Hex(sha(Material(previous, e))), e.eventType, e.subject)
  }

  lemma GenesisIsAscii()
    ensures Spells(GENESIS, "genesis")
  {
  }

  lemma MaterialNested(previous: Option<text>, e: Entry)
    ensures Material(previous, e) == PreviousText(previous) + [COLON] + Details(e)
  {
    Regrouped(PreviousText(previous), e.eventType, e.subject, e.payloadHash);
  }

  /** Between the colons: the previous hash or "genesis", then event type, subject and payload hash. */
  lemma MaterialLayout(previous: Option<text>, e: Entry)
    ensures Spells(GENESIS, "genesis")
    ensures Split(COLON, Material(previous, e))
            == Split(COLON, if previous.Some? then previous.value else GENESIS)
               + (Split(COLON, e.eventType) + [e.subject] + Split(COLON, e.payloadHash))
  {
    GenesisIsAscii();
    MaterialNested(previous, e);
    SplitConcat(COLON, PreviousText(previous), Details(e));
    UuidHasNoSeparator(e.subject);
    FramedSegments(COLON, e.eventType, e.subject, e.payloadHash);
  }

  /** The events recorded when a history is appended entry by entry. */
  function Events(sha: text -> text, history: seq<Entry>): (r: seq<HashEvent>)
    ensures |r| == |history|
  {
    if history == [] then [] else
    var n := |history| - 1;
    Events(sha, history[..n]) + [AppendHashEvent(sha, ChainHash(sha, history[..n]), history[n])]
  }

  /** What one event records. */
  lemma EventFields(sha: text -> text, previous: Option<text>, e: Entry)
    ensures var event := AppendHashEvent(sha, previous, e);
            && event.eventType == e.eventType && event.subject == e.subject && event.previousHash == previous
            && event.eventHash == Hex(sha(Material(previous, e)))
  {
  }

  lemma EventsSnoc(sha: text -> text, history: seq<Entry>)
    requires |history| > 0
    ensures var n := |history| - 1;
            && Events(sha, history)[..n] == Events(sha, history[..n])
            && Events(sha, history)[n] == AppendHashEvent(sha, ChainHash(sha, history[..n]), history[n])
            && ChainHash(sha, history) == Some(Events(sha, history)[n].eventHash)
  {
  }

  lemma ChainStartsEmpty(sha: text -> text)
    ensures ChainHash(sha, []) == None
  {
  }

  lemma {:induction false} EventsPrefix(sha: text -> text, history: seq<Entry>, k: nat)
    requires k <= |history|
    ensures Events(sha, history)[..k] == Events(sha, history[..k])
  {
    var n := |history| - 1;
    if k == |history| {
      assert history[..k] == history;
    } else {
      EventsSnoc(sha, history);
      EventsPrefix(sha, history[..n], k);
      assert history[..n][..k] == history[..k];
      assert Events(sha, history)[..n][..k] == Events(sha, history)[..k];
    }
  }

  lemma PreviousInChain(sha: text -> text, history: seq<Entry>)
    requires |history| > 0
    ensures var n := |history| - 1;
            ChainHash(sha, history[..n]) == if n == 0 then None else Some(Events(sha, history)[n - 1].eventHash)
  {
    var n := |history| - 1;
    if n == 0 {
      ChainStartsEmpty(sha);
      assert history[..n] == [];
    } else {
      EventsSnoc(sha, history);
      EventsSnoc(sha, history[..n]);
      assert Events(sha, history)[n - 1] == Events(sha, history)[..n][n - 1];
    }
  }

  /** The last event carries its entry and the hash before it. */
  lemma LastEventLinked(sha: text -> text, history: seq<Entry>)
    requires |history| > 0
    ensures LinksAt(sha, Events(sha, history), history, |history| - 1)
  {
    var n := |history| - 1;
    EventsSnoc(sha, history);
    EventFields(sha, ChainHash(sha, history[..n]), history[n]);
    PreviousInChain(sha, history);
  }

  /** The event carries its entry and the hash before it, and its own hash follows from them. */
  predicate Links(sha: text -> text, event: HashEvent, entry: Entry, previous: Option<text>) {
    && event.eventType == entry.eventType && event.subject == entry.subject
    && event.previousHash == previous
    && event.eventHash == Hex(sha(Material(previous, entry)))
  }

  predicate LinksAt(sha: text -> text, events: seq<HashEvent>, history: seq<Entry>, i: nat)
    requires i < |events| && i < |history|
  {
    Links(sha, events[i], history[i], if i == 0 then None else Some(events[i - 1].eventHash))
  }

  lemma LinksInPrefix(sha: text -> text, events: seq<HashEvent>, history: seq<Entry>, i: nat)
    requires i < |events| && i < |history| && LinksAt(sha, events[..i + 1], history[..i + 1], i)
    ensures LinksAt(sha, events, history, i)
  {
    assert events[..i + 1][i] == events[i] && history[..i + 1][i] == history[i];
    assert i > 0 ==> events[..i + 1][i - 1] == events[i - 1];
  }

  /**
   Every recorded event carries its entry's type and subject, names the hash of the event before it, and
   its own hash can be computed again from the event and the payload hash.
   */
  lemma EventsLinked(sha: text -> text, history: seq<Entry>, i: nat)
    requires i < |history|
    ensures LinksAt(sha, Events(sha, history), history, i)
  {
    EventsPrefix(sha, history, i + 1);
    LastEventLinked(sha, history[..i + 1]);
    LinksInPrefix(sha, Events(sha, history), history, i);
  }

  /** The last `event_hash` after appending a history entry by entry, each on the hash before it. */
  function ChainHash(sha: text -> text, history: seq<Entry>): Option<text> {
    if |history| == 0 then None else
    var n := |history| - 1;
    Some(AppendHashEvent(sha, ChainHash(sha, history[..n]), history[n]).eventHash)
  }

  predicate ColonFreePayloads(history: seq<Entry>) {
    forall i :: 0 <= i < |history| ==> Free(history[i].payloadHash, COLON)
  }

  /** "genesis" and hexadecimal texts hold no colon, and "genesis" is not hexadecimal. */
  lemma ChainHashForm(sha: text -> text, history: seq<Entry>)
    ensures Free(PreviousText(ChainHash(sha, history)), COLON)
    ensures PreviousText(ChainHash(sha, history)) == GENESIS <==> |history| == 0
  {
    if |history| != 0 {
      var n := |history| - 1;
      var hash := Hex(sha(Material(ChainHash(sha, history[..n]), history[n])));
      assert forall i :: 0 <= i < |hash| ==> IsLowerHex(hash[i]);
      assert hash != GENESIS by {
        assert !IsLowerHex(GENESIS[0]);
        if |hash| > 0 {
          assert IsLowerHex(hash[0]);
        }
      }
    }
  }

  lemma MaterialInjective(p: Option<text>, e: Entry, q: Option<text>, f: Entry)
    requires Free(PreviousText(p), COLON) && Free(PreviousText(q), COLON)
    requires Free(e.payloadHash, COLON) && Free(f.payloadHash, COLON)
    requires Material(p, e) == Material(q, f)
    ensures PreviousText(p) == PreviousText(q) && e == f
  {
    var restE := e.eventType + [COLON] + e.subject + [COLON] + e.payloadHash;
    var restF := f.eventType + [COLON] + f.subject + [COLON] + f.payloadHash;
    assert Material(p, e) == PreviousText(p) + [COLON] + restE;
    assert Material(q, f) == PreviousText(q) + [COLON] + restF;
    SplitAtFirst(PreviousText(p), restE, PreviousText(q), restF, COLON);
    SplitAtLast(e.eventType + [COLON] + e.subject, e.payloadHash,
                f.eventType + [COLON] + f.subject, f.payloadHash, COLON);
    SplitByLength(e.eventType + [COLON], e.subject, f.eventType + [COLON], f.subject);
    assert (e.eventType + [COLON])[..|e.eventType|] == e.eventType;
    assert (f.eventType + [COLON])[..|f.eventType|] == f.eventType;
  }

  /** Some other segment of the event type or of the payload hash could be taken for the subject. */
  predicate Splittable(e: Entry) {
    MarkedElsewhere(COLON, e.eventType, e.payloadHash, CanonicalUuid)
  }

  function Details(e: Entry): text {
    Framed(COLON, e.eventType, e.subject, e.payloadHash)
  }

  /** Behind colon-free previous hashes, equal materials are one text of details read twice. */
  lemma SameMaterialDetails(p: Option<text>, e: Entry, q: Option<text>, f: Entry)
    requires Free(PreviousText(p), COLON) && Free(PreviousText(q), COLON)
    ensures Material(p, e) == Material(q, f) <==> PreviousText(p) == PreviousText(q) && Details(e) == Details(f)
  {
    assert Material(p, e) == PreviousText(p) + [COLON] + Details(e);
    assert Material(q, f) == PreviousText(q) + [COLON] + Details(f);
    if Material(p, e) == Material(q, f) {
      SplitAtFirst(PreviousText(p), Details(e), PreviousText(q), Details(f), COLON);
    }
  }

  /** An entry that is not splittable is the only one with its details. */
  lemma UnsplittableDetails(e: Entry, f: Entry)
    requires Details(e) == Details(f) && !Splittable(e)
    ensures e == f
  {
    UuidsArePlain(COLON);
    OtherReadingMarksElsewhere(
      COLON, e.eventType, e.subject, e.payloadHash, f.eventType, f.subject, f.payloadHash, CanonicalUuid);
  }

  /** A splittable entry has a twin. */
  lemma SplittableTwin(e: Entry) returns (f: Entry)
    requires Splittable(e)
    ensures f != e && Details(f) == Details(e)
  {
    UuidsArePlain(COLON);
    var h, m, t := MarkedElsewhereReads(COLON, e.eventType, e.subject, e.payloadHash, CanonicalUuid);
    f := Entry(h, m, t);
  }

  /** Another event has the same material, on some colon-free previous hash. */
  ghost predicate MaterialShared(p: Option<text>, e: Entry) {
    exists q, f :: f != e && Free(PreviousText(q), COLON) && Material(q, f) == Material(p, e)
  }

  /**
   Exactly when another event gives the same material, on whatever colon-free previous hash: some segment
   of the payload hash but the last, or some segment of the event type but the first, is a UUID.
   */
  lemma MaterialSharedIff(p: Option<text>, e: Entry)
    requires Free(PreviousText(p), COLON)
    ensures MaterialShared(p, e) <==> Splittable(e)
  {
    if q, f :| f != e && Free(PreviousText(q), COLON) && Material(q, f) == Material(p, e) {
      SameMaterialDetails(q, f, p, e);
      if !Splittable(e) {
        UnsplittableDetails(e, f);
      }
    }
    if Splittable(e) {
      var f := SplittableTwin(e);
      SameMaterialDetails(p, f, p, e);
      assert Material(p, f) == Material(p, e);
    }
  }

  function LastMaterial(sha: text -> text, history: seq<Entry>): text
    requires |history| > 0
  {
    Material(ChainHash(sha, history[..|history| - 1]), history[|history| - 1])
  }

  lemma LastMaterialHashed(sha: text -> text, history: seq<Entry>)
    requires |history| > 0
    ensures ChainHash(sha, history) == Some(Hex(sha(LastMaterial(sha, history))))
  {
  }

  /** Equal last materials mean equal last entries on equal chains. */
  lemma LastLink(sha: text -> text, a: seq<Entry>, b: seq<Entry>)
    requires |a| > 0 && |b| > 0 && ColonFreePayloads(a) && ColonFreePayloads(b)
    requires LastMaterial(sha, a) == LastMaterial(sha, b)
    ensures a[|a| - 1] == b[|b| - 1]
    ensures ChainHash(sha, a[..|a| - 1]) == ChainHash(sha, b[..|b| - 1])
  {
    var p, q := ChainHash(sha, a[..|a| - 1]), ChainHash(sha, b[..|b| - 1]);
    ChainHashForm(sha, a[..|a| - 1]);
    ChainHashForm(sha, b[..|b| - 1]);
    MaterialInjective(p, a[|a| - 1], q, b[|b| - 1]);
  }

  lemma EqualChainHashes(sha: text -> text, a: seq<Entry>, b: seq<Entry>)
    requires |a| > 0 && ChainHash(sha, a) == ChainHash(sha, b)
    ensures |b| > 0 && sha(LastMaterial(sha, a)) == sha(LastMaterial(sha, b))
  {
    LastMaterialHashed(sha, a);
    LastMaterialHashed(sha, b);
    UnhexHex(sha(LastMaterial(sha, a)));
    UnhexHex(sha(LastMaterial(sha, b)));
  }

  lemma SameHistory(a: seq<Entry>, b: seq<Entry>)
    requires |a| > 0 && |b| > 0
    requires a[..|a| - 1] == b[..|b| - 1] && a[|a| - 1] == b[|b| - 1]
    ensures a == b
  {
    assert a == a[..|a| - 1] + [a[|a| - 1]] && b == b[..|b| - 1] + [b[|b| - 1]];
  }

  /** The hashes of the first `i` and `j` entries collide. */
  ghost predicate CollisionAt(sha: text -> text, a: seq<Entry>, i: nat, b: seq<Entry>, j: nat) {
    && 0 < i <= |a| && 0 < j <= |b|
    && Collision(sha, LastMaterial(sha, a[..i]), LastMaterial(sha, b[..j]))
  }

  lemma CollisionInPrefix(sha: text -> text, a: seq<Entry>, m: nat, i: nat, b: seq<Entry>, n: nat, j: nat)
    requires m <= |a| && n <= |b| && CollisionAt(sha, a[..m], i, b[..n], j)
    ensures CollisionAt(sha, a, i, b, j)
  {
    assert a[..m][..i] == a[..i] && b[..n][..j] == b[..j];
  }

  /**
   Two chains that end in the same `event_hash` record the same events in the same order, or two of
   the materials hashed along the way collide.
   */
  lemma {:induction false} ChainTamperEvident(sha: text -> text, a: seq<Entry>, b: seq<Entry>)
    returns (i: nat, j: nat)
    requires ColonFreePayloads(a) && ColonFreePayloads(b)
    requires ChainHash(sha, a) == ChainHash(sha, b)
    ensures a == b || CollisionAt(sha, a, i, b, j)
  {
    i, j := |a|, |b|;
    if |a| != 0 {
      EqualChainHashes(sha, a, b);
      assert a[..i] == a && b[..j] == b;
      if LastMaterial(sha, a) == LastMaterial(sha, b) {
        LastLink(sha, a, b);
        var m, n := |a| - 1, |b| - 1;
        i, j := ChainTamperEvident(sha, a[..m], b[..n]);
        if a[..m] == b[..n] {
          SameHistory(a, b);
        } else {
          CollisionInPrefix(sha, a, m, i, b, n, j);
        }
      }
    }
  }

  /** The restriction on payload hashes is needed: a colon in one lets an identifier change sides. */
  lemma ColonInPayloadHashAmbiguous(sha: text -> text, eventType: text, first: Uuid, second: Uuid, rest: text)
    ensures var a := [Entry(eventType, first, second + [COLON] + rest)];
            var b := [Entry(eventType + [COLON] + first, second, rest)];
            a != b && ChainHash(sha, a) == ChainHash(sha, b)
  {
    var e, f := Entry(eventType, first, second + [COLON] + rest), Entry(eventType + [COLON] + first, second, rest);
    assert |e.eventType| < |f.eventType|;
    assert Material(None, e) == Material(None, f);
    assert [e][..0] == [] && [f][..0] == [];
  }

  // Which histories can be rewritten

  predicate Unsplittable(history: seq<Entry>) {
    forall i :: 0 <= i < |history| ==> !Splittable(history[i])
  }

  /** Step by step the same texts are hashed. */
  ghost predicate SameMaterials(sha: text -> text, a: seq<Entry>, b: seq<Entry>) {
    && |a| == |b|
    && forall i :: 0 < i <= |a| ==> LastMaterial(sha, a[..i]) == LastMaterial(sha, b[..i])
  }

  lemma UnsplittableLink(sha: text -> text, a: seq<Entry>, b: seq<Entry>)
    requires |a| > 0 && |b| > 0 && Unsplittable(a)
    requires LastMaterial(sha, a) == LastMaterial(sha, b)
    ensures a[|a| - 1] == b[|b| - 1]
    ensures ChainHash(sha, a[..|a| - 1]) == ChainHash(sha, b[..|b| - 1])
  {
    var m, n := |a| - 1, |b| - 1;
    ChainHashForm(sha, a[..m]);
    ChainHashForm(sha, b[..n]);
    SameMaterialDetails(ChainHash(sha, a[..m]), a[m], ChainHash(sha, b[..n]), b[n]);
    UnsplittableDetails(a[m], b[n]);
  }

  /** An unsplittable history is told apart from every other history, whatever that one holds. */
  lemma {:induction false} UnsplittableTamperEvident(sha: text -> text, a: seq<Entry>, b: seq<Entry>)
    returns (i: nat, j: nat)
    requires Unsplittable(a) && ChainHash(sha, a) == ChainHash(sha, b)
    ensures a == b || CollisionAt(sha, a, i, b, j)
  {
    i, j := |a|, |b|;
    if |a| != 0 {
      EqualChainHashes(sha, a, b);
      assert a[..i] == a && b[..j] == b;
      if LastMaterial(sha, a) == LastMaterial(sha, b) {
        UnsplittableLink(sha, a, b);
        var m, n := |a| - 1, |b| - 1;
        i, j := UnsplittableTamperEvident(sha, a[..m], b[..n]);
        if a[..m] == b[..n] {
          SameHistory(a, b);
        } else {
          CollisionInPrefix(sha, a, m, i, b, n, j);
        }
      }
    }
  }

  lemma SameMaterialsPrefix(sha: text -> text, a: seq<Entry>, b: seq<Entry>)
    requires SameMaterials(sha, a, b) && |a| > 0
    ensures SameMaterials(sha, a[..|a| - 1], b[..|b| - 1]) && LastMaterial(sha, a) == LastMaterial(sha, b)
  {
    var n := |a| - 1;
    assert a[..|a|] == a && b[..|b|] == b;
    forall i | 0 < i <= n
      ensures LastMaterial(sha, a[..n][..i]) == LastMaterial(sha, b[..n][..i])
    {
      assert a[..n][..i] == a[..i] && b[..n][..i] == b[..i];
    }
  }

  lemma {:induction false} SameMaterialsUnsplittable(sha: text -> text, a: seq<Entry>, b: seq<Entry>)
    requires SameMaterials(sha, a, b) && Unsplittable(a)
    ensures a == b
  {
    if |a| > 0 {
      SameMaterialsPrefix(sha, a, b);
      UnsplittableLink(sha, a, b);
      SameMaterialsUnsplittable(sha, a[..|a| - 1], b[..|b| - 1]);
      SameHistory(a, b);
    }
  }

  /** A rewriting that hashes the same texts keeps the final hash. */
  lemma SameMaterialsHash(sha: text -> text, a: seq<Entry>, b: seq<Entry>)
    requires SameMaterials(sha, a, b)
    ensures ChainHash(sha, a) == ChainHash(sha, b)
  {
    if |a| > 0 {
      SameMaterialsPrefix(sha, a, b);
      LastMaterialHashed(sha, a);
      LastMaterialHashed(sha, b);
    }
  }

  /** Exchanging an entry for one with the same details changes no hash. */
  lemma {:induction false} TwinHistory(sha: text -> text, a: seq<Entry>, k: nat, f: Entry, i: nat)
    requires k < |a| && Details(f) == Details(a[k]) && i <= |a|
    ensures ChainHash(sha, a[..i]) == ChainHash(sha, a[k := f][..i])
    ensures i > 0 ==> LastMaterial(sha, a[..i]) == LastMaterial(sha, a[k := f][..i])
  {
    if i > 0 {
      var b := a[k := f];
      TwinHistory(sha, a, k, f, i - 1);
      assert a[..i][..i - 1] == a[..i - 1] && b[..i][..i - 1] == b[..i - 1];
      ChainHashForm(sha, a[..i - 1]);
      SameMaterialDetails(ChainHash(sha, a[..i - 1]), a[i - 1], ChainHash(sha, b[..i - 1]), b[i - 1]);
      LastMaterialHashed(sha, a[..i]);
      LastMaterialHashed(sha, b[..i]);
    }
  }

  /** A history with a splittable entry has a twin. */
  lemma SplittableHistoryTwin(sha: text -> text, a: seq<Entry>) returns (b: seq<Entry>)
    requires !Unsplittable(a)
    ensures b != a && SameMaterials(sha, a, b)
  {
    var k :| 0 <= k < |a| && Splittable(a[k]);
    var f := SplittableTwin(a[k]);
    b := a[k := f];
    forall i | 0 < i <= |a|
      ensures LastMaterial(sha, a[..i]) == LastMaterial(sha, b[..i])
    {
      TwinHistory(sha, a, k, f, i);
    }
    assert b[k] == f;
  }

  /** Another history hashes the same texts and so ends in the same hash. */
  ghost predicate Rewritable(sha: text -> text, a: seq<Entry>) {
    exists b :: b != a && SameMaterials(sha, a, b) && ChainHash(sha, b) == ChainHash(sha, a)
  }

  /**
   Exactly which histories can be rewritten without touching a hash, the final one included: those with an
   entry whose event type or payload hash holds a UUID segment out of place.
   */
  lemma RewritableIff(sha: text -> text, a: seq<Entry>)
    ensures Rewritable(sha, a) <==> !Unsplittable(a)
  {
    if Unsplittable(a) {
      forall b | SameMaterials(sha, a, b)
        ensures b == a
      {
        SameMaterialsUnsplittable(sha, a, b);
      }
    } else {
      var b := SplittableHistoryTwin(sha, a);
      SameMaterialsHash(sha, a, b);
    }
  }
}
