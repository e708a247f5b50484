/**
 `buildOperationRequestPath` of frontend/src/app/operation-runner.tsx: placeholders of a path template
 replaced one after the other, each by `String.prototype.replace` with a percent-encoded value.
 */
module PathTemplate {
  import opened Text
  import opened Strings
  import opened Percent

  // String.prototype.replace with a string pattern

  /** GetSubstitution of ECMAScript for a pattern without captures: `$$`, `$&`, `` $` `` and `$'`. */
  function Expand(replacement: string, matched: string, before: string, after: string): string {
    if |replacement| < 2 then replacement
    else if replacement[0] == '$' && replacement[1] == '$' then "$" + Expand(replacement[2..], matched, before, after)
    else if replacement[0] == '$' && replacement[1] == '&' then
      matched + Expand(replacement[2..], matched, before, after)
    else if replacement[0] == '$' && replacement[1] == '`' then
      before + Expand(replacement[2..], matched, before, after)
    else if replacement[0] == '$' && replacement[1] == '\'' then
      after + Expand(replacement[2..], matched, before, after)
    else [replacement[0]] + Expand(replacement[1..], matched, before, after)
  }

  /** Replaces the first occurrence of `pattern` in `text`, which follows `before` in the whole string. */
  function ReplaceFrom(before: string, text: string, pattern: string, replacement: string): string
    decreases |text|
  {
    if |text| < |pattern| || text == "" then text
    else if pattern <= text then
      Expand(replacement, pattern, before, text[|pattern|..]) + text[|pattern|..]
    else [text[0]] + ReplaceFrom(before + [text[0]], text[1..], pattern, replacement)
  }

  function Replace(text: string, pattern: string, replacement: string): string {
    ReplaceFrom("", text, pattern, replacement)
  }

  function Placeholder(name: string): string {
    "{" + name + "}"
  }

  // The source's loop

  datatype Entry = Entry(name: string, value: string)

  function EncodedValue(value: string): string {
    Encode(Trim(value, ScriptWhitespace))
  }

  /** What the loop over `state.path` leaves. */
  function ReplaceAll(path: string, entries: seq<Entry>): string
    decreases |entries|
  {
    if entries == [] then path
    else ReplaceAll(Replace(path, Placeholder(entries[0].name), EncodedValue(entries[0].value)), entries[1..])
  }

  /** The query entries that are kept: trimmed, and not blank. */
  function KeptQuery(entries: seq<Entry>): seq<Entry> {
    if entries == [] then [] else
    var n := |entries| - 1;
    var trimmed := Trim(entries[n].value, ScriptWhitespace);
    KeptQuery(entries[..n]) + if trimmed == "" then [] else [Entry(entries[n].name, trimmed)]
  }

  /** Positions in increasing order, all below `n`. */
  predicate Increasing(at: seq<nat>, n: nat) {
    && (forall k :: 0 <= k < |at| ==> at[k] < n)
    && (forall j, k :: 0 <= j < k < |at| ==> at[j] < at[k])
  }

  lemma IncreasingSnoc(at: seq<nat>, n: nat)
    requires Increasing(at, n)
    ensures Increasing(at, n + 1) && Increasing(at + [n], n + 1) && n !in at
    ensures forall i :: i in at + [n] <==> i in at || i == n
  {
  }

  /** `kept` are the entries at the positions `at`, trimmed. */
  ghost predicate TrimmedAt(kept: seq<Entry>, entries: seq<Entry>, at: seq<nat>) {
    && Increasing(at, |entries|) && |kept| == |at|
    && forall k :: 0 <= k < |at| ==>
         kept[k] == Entry(entries[at[k]].name, Trim(entries[at[k]].value, ScriptWhitespace))
  }

  lemma TrimmedAtSnoc(kept: seq<Entry>, entries: seq<Entry>, at: seq<nat>, last: Entry)
    requires TrimmedAt(kept, entries, at)
    ensures TrimmedAt(kept, entries + [last], at)
    ensures TrimmedAt(kept + [Entry(last.name, Trim(last.value, ScriptWhitespace))], entries + [last], at + [|entries|])
  {
    IncreasingSnoc(at, |entries|);
  }

  /** Kept are exactly the entries with something between the blanks, in their order, with just that. */
  lemma {:induction false} KeptQueryIs(entries: seq<Entry>) returns (at: seq<nat>)
    ensures TrimmedAt(KeptQuery(entries), entries, at)
    ensures forall i :: 0 <= i < |entries| ==> (i in at <==> !AllBlank(entries[i].value, ScriptWhitespace))
  {
    at := [];
    if entries != [] {
      var n := |entries| - 1;
      var earlier, last := entries[..n], entries[n];
      assert entries == earlier + [last];
      at := KeptQueryIs(earlier);
      BlankTrimsEmpty(last.value, ScriptWhitespace);
      IncreasingSnoc(at, n);
      TrimmedAtSnoc(KeptQuery(earlier), earlier, at, last);
      if Trim(last.value, ScriptWhitespace) != "" {
        at := at + [n];
      } else {
        assert KeptQuery(entries) == KeptQuery(earlier) + [] == KeptQuery(earlier);
      }
    }
  }

  /** `serialize` stands for `URLSearchParams.toString`. */
  method BuildOperationRequestPath(
    template: string, path: seq<Entry>, query: seq<Entry>, serialize: seq<Entry> -> string)
    returns (r: string)
    ensures var queryString := serialize(KeptQuery(query));
            r == ReplaceAll(template, path) + if queryString == "" then "" else "?" + queryString
  {
    r := template;
    for k := 0 to |path|
      invariant ReplaceAll(r, path[k..]) == ReplaceAll(template, path)
    {
      r := Replace(r, Placeholder(path[k].name), Encode(Trim(path[k].value, ScriptWhitespace)));
    }
    var kept: seq<Entry> := [];
    for k := 0 to |query|
      invariant kept == KeptQuery(query[..k])
    {
      var trimmed := Trim(query[k].value, ScriptWhitespace);
      if trimmed != "" {
        kept := kept + [Entry(query[k].name, trimmed)];
      }
      assert query[..k + 1][..k] == query[..k];
    }
    assert query[..|query|] == query;
    var queryString := serialize(kept);
    if queryString != "" {
      r := r + "?" + queryString;
    }
  }

  // Templates

  datatype Piece = Lit(text: string) | Hole(name: string)

  function RenderPiece(p: Piece): string {
    match p
    case Lit(text) => text
    case Hole(name) => Placeholder(name)
  }

  function Render(template: seq<Piece>): string {
    if template == [] then "" else RenderPiece(template[0]) + Render(template[1..])
  }

  predicate Without(s: string, c: char) {
    forall i :: 0 <= i < |s| ==> s[i] != c
  }

  predicate PlainName(name: string) {
    Without(name, '{') && Without(name, '}')
  }

  /** Literal text holds no opening brace, placeholder names no brace at all. */
  predicate PlainPiece(p: Piece) {
    match p
    case Lit(text) => Without(text, '{')
    case Hole(name) => PlainName(name)
  }

  predicate Plain(template: seq<Piece>) {
    forall i :: 0 <= i < |template| ==> PlainPiece(template[i])
  }

  /** The first hole of that name becomes text. */
  function FillFirst(template: seq<Piece>, name: string, text: string): (r: seq<Piece>)
    ensures |r| == |template|
  {
    if template == [] then []
    else if template[0] == Hole(name) then [Lit(text)] + template[1..]
    else [template[0]] + FillFirst(template[1..], name, text)
  }

  // Encoded values are harmless

  lemma {:induction false} ExpandIsLiteral(replacement: string, matched: string, before: string, after: string)
    requires Without(replacement, '$')
    ensures Expand(replacement, matched, before, after) == replacement
  {
    if |replacement| >= 2 {
      ExpandIsLiteral(replacement[1..], matched, before, after);
    }
  }

  lemma EncodedValueIsInert(value: string)
    ensures var v := EncodedValue(value);
            Without(v, '{') && Without(v, '}') && Without(v, '/') && Without(v, '$')
  {
    EncodeEmits(Trim(value, ScriptWhitespace));
    var v := EncodedValue(value);
    assert forall i :: 0 <= i < |v| ==> Emitted(v[i]);
  }

  // One replacement

  /** A brace-free prefix is passed over. */
  lemma {:induction false} SkipsPrefix(
    before: string, prefix: string, rest: string, pattern: string, replacement: string)
    requires Without(prefix, '{') && pattern != "" && pattern[0] == '{'
    ensures ReplaceFrom(before, prefix + rest, pattern, replacement)
            == prefix + ReplaceFrom(before + prefix, rest, pattern, replacement)
    decreases |prefix|
  {
    if prefix == "" {
      assert prefix + rest == rest && before + prefix == before;
    } else {
      var t := prefix + rest;
      assert t[0] == prefix[0] && t[1..] == prefix[1..] + rest;
      SkipsPrefix(before + [prefix[0]], prefix[1..], rest, pattern, replacement);
      assert before + [prefix[0]] + prefix[1..] == before + prefix;
      assert !(pattern <= t);
      if |t| < |pattern| {
        assert ReplaceFrom(before + prefix, rest, pattern, replacement) == rest;
      }
    }
  }

  /** A text starts with at most one placeholder. */
  lemma OnePlaceholderAtStart(m: string, n: string, t: string)
    requires PlainName(m) && PlainName(n) && Placeholder(m) <= t && Placeholder(n) <= t
    ensures m == n
  {
    assert t[|m| + 1] == Placeholder(m)[|m| + 1] == '}';
    assert t[|n| + 1] == Placeholder(n)[|n| + 1] == '}';
    assert forall i :: 0 <= i < |m| ==> m[i] == Placeholder(m)[i + 1] == t[i + 1];
    assert forall i :: 0 <= i < |n| ==> n[i] == Placeholder(n)[i + 1] == t[i + 1];
    assert !(|m| < |n|) && !(|n| < |m|);
  }

  /** A placeholder does not match another placeholder's text. */
  lemma PlaceholdersDiffer(m: string, n: string, rest: string)
    requires PlainName(m) && PlainName(n) && m != n
    ensures !(Placeholder(n) <= Placeholder(m) + rest)
  {
    if Placeholder(n) <= Placeholder(m) + rest {
      OnePlaceholderAtStart(m, n, Placeholder(m) + rest);
    }
  }

  lemma SkipsPlaceholder(before: string, m: string, rest: string, n: string, replacement: string)
    requires PlainName(m) && PlainName(n) && m != n
    ensures ReplaceFrom(before, Placeholder(m) + rest, Placeholder(n), replacement)
            == Placeholder(m) + ReplaceFrom(before + Placeholder(m), rest, Placeholder(n), replacement)
  {
    var t, tail := Placeholder(m) + rest, m + "}";
    PlaceholdersDiffer(m, n, rest);
    assert t[0] == '{' && t[1..] == tail + rest;
    SkipsPrefix(before + ['{'], tail, rest, Placeholder(n), replacement);
    assert before + ['{'] + tail == before + Placeholder(m);
    assert ['{'] + tail == Placeholder(m);
    if |t| < |Placeholder(n)| {
      assert ReplaceFrom(before + Placeholder(m), rest, Placeholder(n), replacement) == rest;
    }
  }

  lemma FillsPlaceholder(before: string, rest: string, n: string, replacement: string)
    requires Without(replacement, '$')
    ensures ReplaceFrom(before, Placeholder(n) + rest, Placeholder(n), replacement) == replacement + rest
  {
    ExpandIsLiteral(replacement, Placeholder(n), before, rest);
    assert (Placeholder(n) + rest)[|Placeholder(n)|..] == rest;
  }

  /** On a rendered template, `replace` fills the first hole of that name and nothing else. */
  lemma {:induction false} ReplaceFillsFirst(before: string, template: seq<Piece>, name: string, text: string)
    requires Plain(template) && PlainName(name) && Without(text, '$')
    ensures ReplaceFrom(before, Render(template), Placeholder(name), text) == Render(FillFirst(template, name, text))
    decreases |template|
  {
    if template != [] {
      var p, rest := template[0], template[1..];
      assert PlainPiece(p);
      assert Plain(rest);
      if p == Hole(name) {
        FillsPlaceholder(before, Render(rest), name, text);
        var filled := FillFirst(template, name, text);
        assert filled[0] == Lit(text) && filled[1..] == rest;
      } else {
        match p {
          case Lit(s) => SkipsPrefix(before, s, Render(rest), Placeholder(name), text);
          case Hole(m) => SkipsPlaceholder(before, m, Render(rest), name, text);
        }
        ReplaceFillsFirst(before + RenderPiece(p), rest, name, text);
        var filled := FillFirst(template, name, text);
        assert filled[0] == p && filled[1..] == FillFirst(rest, name, text);
      }
    }
  }

  // All replacements

  predicate DistinctNames(entries: seq<Entry>) {
    forall i, j :: 0 <= i < j < |entries| ==> entries[i].name != entries[j].name
  }

  /** The encoded value an entry list gives a placeholder name. */
  function Lookup(entries: seq<Entry>, name: string): Option<string> {
    if entries == [] then None
    else if entries[0].name == name then Some(EncodedValue(entries[0].value))
    else Lookup(entries[1..], name)
  }

  /** Every hole the entries know, filled at once. */
  function Fill(p: Piece, entries: seq<Entry>): Piece {
    match p
    case Lit(_) => p
    case Hole(name) =>
      match Lookup(entries, name)
      case Some(text) => Lit(text)
      case None => p
  }

  function FillAll(template: seq<Piece>, entries: seq<Entry>): (r: seq<Piece>)
    ensures |r| == |template|
  {
    seq(|template|, i requires 0 <= i < |template| => Fill(template[i], entries))
  }

  /** The holes filled one entry after the other, each entry filling one hole. */
  function FillInTurn(template: seq<Piece>, entries: seq<Entry>): (r: seq<Piece>)
    ensures |r| == |template|
    decreases |entries|
  {
    if entries == [] then template
    else FillInTurn(FillFirst(template, entries[0].name, EncodedValue(entries[0].value)), entries[1..])
  }

  predicate FirstAt(template: seq<Piece>, name: string, i: nat) {
    && i < |template| && template[i] == Hole(name)
    && forall j :: 0 <= j < i ==> template[j] != Hole(name)
  }

  lemma {:induction false} FillFirstAt(template: seq<Piece>, name: string, text: string, i: nat)
    requires i < |template|
    ensures FillFirst(template, name, text)[i] == if FirstAt(template, name, i) then Lit(text) else template[i]
  {
    if template[0] == Hole(name) {
      assert FillFirst(template, name, text) == [Lit(text)] + template[1..];
    } else if i > 0 {
      FillFirstAt(template[1..], name, text, i - 1);
      assert FirstAt(template[1..], name, i - 1) <==> FirstAt(template, name, i) by {
        assert forall j :: 0 < j < i ==> template[j] == template[1..][j - 1];
        assert forall j :: 0 <= j < i - 1 ==> template[1..][j] == template[j + 1];
      }
    }
  }

  lemma FillFirstKeeps(template: seq<Piece>, name: string, text: string, other: string, i: nat)
    requires other != name && i < |template|
    ensures FirstAt(FillFirst(template, name, text), other, i) <==> FirstAt(template, other, i)
  {
    forall j | 0 <= j < |template|
      ensures FillFirst(template, name, text)[j] == Hole(other) <==> template[j] == Hole(other)
    {
      FillFirstAt(template, name, text, j);
    }
  }

  /** What the loop does to a piece depends on its name's first occurrence, not on the order of the entries. */
  lemma {:induction false} FillInTurnAt(template: seq<Piece>, entries: seq<Entry>, i: nat)
    requires DistinctNames(entries) && i < |template|
    ensures FillInTurn(template, entries)[i]
            == if template[i].Hole? && FirstAt(template, template[i].name, i) then Fill(template[i], entries)
               else template[i]
    decreases |entries|
  {
    if entries != [] {
      var name, text := entries[0].name, EncodedValue(entries[0].value);
      var next := FillFirst(template, name, text);
      FillFirstAt(template, name, text, i);
      FillInTurnAt(next, entries[1..], i);
      if template[i].Hole? && template[i].name != name {
        FillFirstKeeps(template, name, text, template[i].name, i);
      }
      if template[i] == Hole(name) {
        UnknownName(entries[1..], name);
      }
    }
  }

  lemma {:induction false} UnknownName(entries: seq<Entry>, name: string)
    requires forall k :: 0 <= k < |entries| ==> entries[k].name != name
    ensures Lookup(entries, name).None?
  {
    if entries != [] {
      UnknownName(entries[1..], name);
    }
  }

  lemma FillFirstPlain(template: seq<Piece>, name: string, text: string)
    requires Plain(template) && Without(text, '{')
    ensures Plain(FillFirst(template, name, text))
  {
    forall i | 0 <= i < |template|
      ensures PlainPiece(FillFirst(template, name, text)[i])
    {
      FillFirstAt(template, name, text, i);
    }
  }

  predicate PlainNames(entries: seq<Entry>) {
    forall i :: 0 <= i < |entries| ==> PlainName(entries[i].name)
  }

  /** The source's loop, on a rendered template, fills one hole per entry. */
  lemma {:induction false} LoopFillsInTurn(template: seq<Piece>, entries: seq<Entry>)
    requires Plain(template) && PlainNames(entries)
    ensures ReplaceAll(Render(template), entries) == Render(FillInTurn(template, entries))
    ensures Plain(FillInTurn(template, entries))
    decreases |entries|
  {
    if entries != [] {
      var name, text := entries[0].name, EncodedValue(entries[0].value);
      EncodedValueIsInert(entries[0].value);
      ReplaceFillsFirst("", template, name, text);
      FillFirstPlain(template, name, text);
      LoopFillsInTurn(FillFirst(template, name, text), entries[1..]);
    }
  }

  /** The order in which the entries are replaced never matters. */
  lemma OrderIrrelevant(template: seq<Piece>, a: seq<Entry>, b: seq<Entry>)
    requires Plain(template) && PlainNames(a) && PlainNames(b) && DistinctNames(a) && DistinctNames(b)
    requires forall name :: Lookup(a, name) == Lookup(b, name)
    ensures ReplaceAll(Render(template), a) == ReplaceAll(Render(template), b)
  {
    LoopFillsInTurn(template, a);
    LoopFillsInTurn(template, b);
    forall i | 0 <= i < |template|
      ensures FillInTurn(template, a)[i] == FillInTurn(template, b)[i]
    {
      FillInTurnAt(template, a, i);
      FillInTurnAt(template, b, i);
    }
    assert FillInTurn(template, a) == FillInTurn(template, b);
  }

  /** No placeholder that has an entry occurs twice. */
  ghost predicate OncePerEntry(template: seq<Piece>, entries: seq<Entry>) {
    forall i, j :: 0 <= i < j < |template| && template[i].Hole? && template[i] == template[j] ==>
      Lookup(entries, template[i].name).None?
  }

  lemma FirstIfOnce(template: seq<Piece>, entries: seq<Entry>, i: nat)
    requires OncePerEntry(template, entries) && i < |template| && template[i].Hole?
    requires Lookup(entries, template[i].name).Some?
    ensures FirstAt(template, template[i].name, i)
  {
  }

  function Braces(s: string): nat {
    if s == "" then 0 else (if s[0] == '{' then 1 else 0) + Braces(s[1..])
  }

  lemma {:induction false} BracesAdd(a: string, b: string)
    ensures Braces(a + b) == Braces(a) + Braces(b)
  {
    if a == "" {
      assert a + b == b;
    } else {
      assert (a + b)[1..] == a[1..] + b;
      BracesAdd(a[1..], b);
    }
  }

  lemma {:induction false} NoBraces(s: string)
    requires Without(s, '{')
    ensures Braces(s) == 0
  {
    if s != "" {
      NoBraces(s[1..]);
    }
  }

  function HoleCount(template: seq<Piece>): nat {
    if template == [] then 0 else (if template[0].Hole? then 1 else 0) + HoleCount(template[1..])
  }

  lemma {:induction false} BracesAreHoles(template: seq<Piece>)
    requires Plain(template)
    ensures Braces(Render(template)) == HoleCount(template)
  {
    if template != [] {
      var p := template[0];
      assert PlainPiece(p);
      BracesAdd(RenderPiece(p), Render(template[1..]));
      BracesAreHoles(template[1..]);
      match p {
        case Lit(text) => NoBraces(text);
        case Hole(name) =>
          NoBraces(name + "}");
          assert Placeholder(name)[1..] == name + "}";
      }
    }
  }

  lemma {:induction false} FewerHoles(a: seq<Piece>, b: seq<Piece>)
    requires |a| == |b| && forall i :: 0 <= i < |a| && b[i].Hole? ==> a[i].Hole?
    ensures HoleCount(b) <= HoleCount(a)
    ensures (exists i :: 0 <= i < |a| && a[i].Hole? && !b[i].Hole?) ==> HoleCount(b) < HoleCount(a)
  {
    if a != [] {
      FewerHoles(a[1..], b[1..]);
      if i :| 0 <= i < |a| && a[i].Hole? && !b[i].Hole? {
        if i > 0 {
          assert a[1..][i - 1].Hole? && !b[1..][i - 1].Hole?;
        }
      }
    }
  }

  lemma FillAllPlain(template: seq<Piece>, entries: seq<Entry>)
    requires Plain(template)
    ensures Plain(FillAll(template, entries))
  {
    forall i | 0 <= i < |template|
      ensures PlainPiece(FillAll(template, entries)[i])
    {
      if template[i].Hole? {
        LookupIsInert(entries, template[i].name);
      }
    }
  }

  lemma {:induction false} LookupIsInert(entries: seq<Entry>, name: string)
    ensures var v := Lookup(entries, name); v.Some? ==> Without(v.value, '{') && Without(v.value, '/')
  {
    if entries != [] {
      EncodedValueIsInert(entries[0].value);
      LookupIsInert(entries[1..], name);
    }
  }

  lemma InTurnIsAllIfOnce(template: seq<Piece>, entries: seq<Entry>)
    requires DistinctNames(entries) && OncePerEntry(template, entries)
    ensures FillInTurn(template, entries) == FillAll(template, entries)
  {
    forall i | 0 <= i < |template|
      ensures FillInTurn(template, entries)[i] == FillAll(template, entries)[i]
    {
      FillInTurnAt(template, entries, i);
      if template[i].Hole? && Lookup(entries, template[i].name).Some? {
        FirstIfOnce(template, entries, i);
      }
    }
  }

  lemma InTurnLeavesHoles(template: seq<Piece>, entries: seq<Entry>)
    requires DistinctNames(entries) && !OncePerEntry(template, entries)
    ensures HoleCount(FillAll(template, entries)) < HoleCount(FillInTurn(template, entries))
  {
    var inTurn, all := FillInTurn(template, entries), FillAll(template, entries);
    forall i | 0 <= i < |template|
      ensures all[i].Hole? ==> inTurn[i].Hole?
    {
      FillInTurnAt(template, entries, i);
    }
    var i, j :| 0 <= i < j < |template| && template[i].Hole? && template[i] == template[j]
                && Lookup(entries, template[i].name).Some?;
    FillInTurnAt(template, entries, j);
    assert inTurn[j].Hole? && !all[j].Hole?;
    FewerHoles(inTurn, all);
  }

  /** One replacement per entry amounts to filling all holes at once exactly when no filled hole occurs twice. */
  lemma SequentialIsSimultaneousIff(template: seq<Piece>, entries: seq<Entry>)
    requires Plain(template) && PlainNames(entries) && DistinctNames(entries)
    ensures ReplaceAll(Render(template), entries) == Render(FillAll(template, entries))
            <==> OncePerEntry(template, entries)
  {
    LoopFillsInTurn(template, entries);
    if OncePerEntry(template, entries) {
      InTurnIsAllIfOnce(template, entries);
    } else {
      InTurnLeavesHoles(template, entries);
      FillAllPlain(template, entries);
      BracesAreHoles(FillAll(template, entries));
      BracesAreHoles(FillInTurn(template, entries));
    }
  }

  // Segments

  /** `split('/')`. */
  function Split(s: string): (r: seq<string>)
    ensures |r| > 0
  {
    if s == "" then [""]
    else if s[0] == '/' then [""] + Split(s[1..])
    else var r := Split(s[1..]); [[s[0]] + r[0]] + r[1..]
  }

  lemma {:induction false} SplitPlain(s: string)
    requires Without(s, '/')
    ensures Split(s) == [s]
  {
    if s != "" {
      SplitPlain(s[1..]);
      assert [s[0]] + s[1..] == s;
    }
  }

  lemma {:induction false} SplitFirst(s: string, rest: string)
    requires Without(s, '/')
    ensures Split(s + "/" + rest) == [s] + Split(rest)
  {
    if s == "" {
      assert s + "/" + rest == "/" + rest && ("/" + rest)[1..] == rest;
    } else {
      var t := s + "/" + rest;
      assert t[1..] == s[1..] + "/" + rest;
      SplitFirst(s[1..], rest);
      assert [s[0]] + s[1..] == s;
    }
  }

  /** A path template of whole segments. */
  function PathOf(segments: seq<Piece>): seq<Piece> {
    if |segments| <= 1 then segments else [segments[0], Lit("/")] + PathOf(segments[1..])
  }

  predicate SlashFree(segments: seq<Piece>) {
    forall i :: 0 <= i < |segments| ==> Without(RenderPiece(segments[i]), '/')
  }

  function Texts(segments: seq<Piece>): (r: seq<string>)
    ensures |r| == |segments|
  {
    seq(|segments|, i requires 0 <= i < |segments| => RenderPiece(segments[i]))
  }

  lemma RenderPair(p: Piece, rest: seq<Piece>)
    ensures Render([p, Lit("/")] + rest) == RenderPiece(p) + "/" + Render(rest)
  {
    var t := [p, Lit("/")] + rest;
    assert t[1..] == [Lit("/")] + rest && t[1..][1..] == rest;
  }

  lemma {:induction false} SplitRendered(segments: seq<Piece>)
    requires |segments| > 0 && SlashFree(segments)
    ensures Split(Render(PathOf(segments))) == Texts(segments)
  {
    var s := RenderPiece(segments[0]);
    if |segments| == 1 {
      assert segments[1..] == [];
      assert Render(segments) == s + "" == s;
      SplitPlain(s);
    } else {
      RenderPair(segments[0], PathOf(segments[1..]));
      SplitFirst(s, Render(PathOf(segments[1..])));
      SplitRendered(segments[1..]);
      assert Texts(segments) == [s] + Texts(segments[1..]);
    }
  }

  lemma {:induction false} FillPath(segments: seq<Piece>, entries: seq<Entry>)
    ensures FillAll(PathOf(segments), entries) == PathOf(FillAll(segments, entries))
  {
    if |segments| > 1 {
      FillPath(segments[1..], entries);
      assert FillAll(segments, entries)[1..] == FillAll(segments[1..], entries);
    }
  }

  lemma FilledSlashFree(segments: seq<Piece>, entries: seq<Entry>)
    requires SlashFree(segments)
    ensures SlashFree(FillAll(segments, entries))
  {
    forall i | 0 <= i < |segments|
      ensures Without(RenderPiece(FillAll(segments, entries)[i]), '/')
    {
      if segments[i].Hole? {
        LookupIsInert(entries, segments[i].name);
      }
    }
  }

  /** The value an entry list gives a name, as typed but trimmed. */
  function TrimmedValue(entries: seq<Entry>, name: string): Option<string> {
    if entries == [] then None
    else if entries[0].name == name then Some(Trim(entries[0].value, ScriptWhitespace))
    else TrimmedValue(entries[1..], name)
  }

  lemma {:induction false} LookupDecodes(entries: seq<Entry>, name: string)
    ensures Lookup(entries, name).Some? <==> TrimmedValue(entries, name).Some?
    ensures Lookup(entries, name).Some? ==> Decode(Lookup(entries, name).value) == TrimmedValue(entries, name)
  {
    if entries != [] {
      DecodeEncode(Trim(entries[0].value, ScriptWhitespace));
      LookupDecodes(entries[1..], name);
    }
  }

  /**
   For a template of whole segments, the request path has the template's segments: literal ones
   unchanged, and each filled one decodes to the trimmed value of its entry.
   */
  lemma RequestPathSegments(segments: seq<Piece>, entries: seq<Entry>)
    requires |segments| > 0 && SlashFree(segments)
    requires Plain(PathOf(segments)) && PlainNames(entries) && DistinctNames(entries)
    requires OncePerEntry(PathOf(segments), entries)
    ensures var r := Split(ReplaceAll(Render(PathOf(segments)), entries));
            && |r| == |segments|
            && (forall i :: 0 <= i < |segments| ==>
                  if segments[i].Hole? && TrimmedValue(entries, segments[i].name).Some?
                  then Decode(r[i]) == TrimmedValue(entries, segments[i].name)
                  else r[i] == RenderPiece(segments[i]))
  {
    SequentialIsSimultaneousIff(PathOf(segments), entries);
    FillPath(segments, entries);
    FilledSlashFree(segments, entries);
    var filled := FillAll(segments, entries);
    SplitRendered(filled);
    forall i | 0 <= i < |segments|
      ensures if segments[i].Hole? && TrimmedValue(entries, segments[i].name).Some?
              then Decode(Texts(filled)[i]) == TrimmedValue(entries, segments[i].name)
              else Texts(filled)[i] == RenderPiece(segments[i])
    {
      assert Texts(filled)[i] == RenderPiece(Fill(segments[i], entries));
      if segments[i].Hole? {
        LookupDecodes(entries, segments[i].name);
      }
    }
  }
}
