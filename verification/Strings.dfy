/** String helpers shared by the authorization evaluator and the frontend models. */
module Strings {

  /** Unicode `White_Space`, which Rust's `str::trim` removes. */
  predicate RustWhitespace(c: char) {
    || '\U{0009}' <= c <= '\U{000d}' || c == ' ' || c == '\U{0085}' || c == '\U{00a0}' || c == '\U{1680}'
    || '\U{2000}' <= c <= '\U{200a}' || c == '\U{2028}' || c == '\U{2029}' || c == '\U{202f}' || c == '\U{205f}'
    || c == '\U{3000}'
  }

  /** `WhiteSpace` and `LineTerminator` of ECMAScript, which `String.prototype.trim` removes. */
  predicate ScriptWhitespace(c: char) {
    || '\U{0009}' <= c <= '\U{000d}' || c == ' ' || c == '\U{00a0}' || c == '\U{1680}'
    || '\U{2000}' <= c <= '\U{200a}' || c == '\U{2028}' || c == '\U{2029}' || c == '\U{202f}' || c == '\U{205f}'
    || c == '\U{3000}' || c == '\U{feff}'
  }

  /** The two character sets, written out. */
  lemma WhitespaceIs(c: char)
    ensures RustWhitespace(c) <==>
              || c in "\U{0009}\U{000a}\U{000b}\U{000c}\U{000d}\U{0020}\U{0085}\U{00a0}\U{1680}\U{2000}\U{2001}\U{2002}"
              || c in "\U{2003}\U{2004}\U{2005}\U{2006}\U{2007}\U{2008}\U{2009}\U{200a}\U{2028}\U{2029}\U{202f}\U{205f}"
              || c == '\U{3000}'
    ensures ScriptWhitespace(c) <==> (RustWhitespace(c) && c != '\U{0085}') || c == '\U{feff}'
  {
  }

  function TrimStart(s: string, blank: char -> bool): (r: string)
    ensures |r| <= |s|
  {
    if s == "" then "" else if blank(s[0]) then TrimStart(s[1..], blank) else s
  }

  function TrimEnd(s: string, blank: char -> bool): (r: string)
    ensures |r| <= |s|
  {
    if s == "" then "" else if blank(s[|s| - 1]) then TrimEnd(s[..|s| - 1], blank) else s
  }

  function Trim(s: string, blank: char -> bool): (r: string)
    ensures |r| <= |s|
  {
    TrimEnd(TrimStart(s, blank), blank)
  }

  /** Neither end is blank. */
  predicate Tight(s: string, blank: char -> bool) {
    s == "" || (!blank(s[0]) && !blank(s[|s| - 1]))
  }

  lemma {:induction false} TrimStartTight(s: string, blank: char -> bool)
    ensures TrimStart(s, blank) == "" || !blank(TrimStart(s, blank)[0])
  {
    if s != "" {
      TrimStartTight(s[1..], blank);
    }
  }

  lemma {:induction false} TrimEndTight(s: string, blank: char -> bool)
    ensures var r := TrimEnd(s, blank);
            r == "" || (r[0] == s[0] && !blank(r[|r| - 1]))
  {
    if s != "" {
      TrimEndTight(s[..|s| - 1], blank);
    }
  }

  predicate AllBlank(s: string, blank: char -> bool) {
    forall i :: 0 <= i < |s| ==> blank(s[i])
  }

  lemma {:induction false} TrimStartSkips(before: string, s: string, blank: char -> bool)
    requires AllBlank(before, blank) && (s == "" || !blank(s[0]))
    ensures TrimStart(before + s, blank) == s
  {
    if before == "" {
      assert before + s == s;
    } else {
      assert blank(before[0]) && (before + s)[0] == before[0] && (before + s)[1..] == before[1..] + s;
      TrimStartSkips(before[1..], s, blank);
    }
  }

  lemma {:induction false} TrimEndSkips(s: string, behind: string, blank: char -> bool)
    requires AllBlank(behind, blank) && (s == "" || !blank(s[|s| - 1]))
    ensures TrimEnd(s + behind, blank) == s
  {
    if behind == "" {
      assert s + behind == s;
    } else {
      var t, n := s + behind, |behind| - 1;
      assert blank(behind[n]) && t[|t| - 1] == behind[n] && t[..|t| - 1] == s + behind[..n];
      TrimEndSkips(s, behind[..n], blank);
    }
  }

  /** Trimming returns what stands between the blanks, nothing more and nothing less. */
  lemma TrimIs(before: string, s: string, behind: string, blank: char -> bool)
    requires AllBlank(before, blank) && AllBlank(behind, blank) && Tight(s, blank)
    ensures Trim(before + s + behind, blank) == s
  {
    assert before + s + behind == before + (s + behind);
    if s == "" {
      assert before + (s + behind) == (before + behind) + "" && AllBlank(before + behind, blank);
      TrimStartSkips(before + behind, "", blank);
    } else {
      TrimStartSkips(before, s + behind, blank);
      TrimEndSkips(s, behind, blank);
    }
  }

  /** How many blanks a text starts with. */
  lemma {:induction false} BlanksAtStart(s: string, blank: char -> bool) returns (n: nat)
    ensures n <= |s| && AllBlank(s[..n], blank) && (n < |s| ==> !blank(s[n]))
  {
    if s == "" || !blank(s[0]) {
      n := 0;
    } else {
      n := BlanksAtStart(s[1..], blank);
      n := n + 1;
      assert s[..n] == [s[0]] + s[1..][..n - 1];
    }
  }

  lemma {:induction false} BlanksAtEnd(s: string, blank: char -> bool) returns (n: nat)
    requires s != "" && !blank(s[0])
    ensures 0 < n <= |s| && AllBlank(s[n..], blank) && !blank(s[n - 1])
  {
    if !blank(s[|s| - 1]) {
      n := |s|;
    } else {
      var m := |s| - 1;
      n := BlanksAtEnd(s[..m], blank);
      assert s[n..] == s[..m][n..] + [s[m]];
    }
  }

  /** For every text: trimming cuts it out between blanks. */
  lemma TrimCutsBlanks(s: string, blank: char -> bool) returns (i: nat, j: nat)
    ensures i <= j <= |s| && Trim(s, blank) == s[i..j]
    ensures forall k :: 0 <= k < i || j <= k < |s| ==> blank(s[k])
    ensures i < j ==> !blank(s[i]) && !blank(s[j - 1])
  {
    i := BlanksAtStart(s, blank);
    j := |s|;
    if i < |s| {
      var n := BlanksAtEnd(s[i..], blank);
      j := i + n;
      assert s[i..][n..] == s[j..];
      assert s == s[..i] + s[i..j] + s[j..];
      TrimIs(s[..i], s[i..j], s[j..], blank);
      assert forall k :: j <= k < |s| ==> s[k] == s[j..][k - j];
    } else {
      assert s == s + "" + "" && s[i..j] == "" && s[..i] == s;
      TrimIs(s, "", "", blank);
    }
    assert forall k :: 0 <= k < i ==> s[k] == s[..i][k];
  }

  lemma BlankTrimsEmpty(s: string, blank: char -> bool)
    ensures Trim(s, blank) == "" <==> AllBlank(s, blank)
  {
    var i, j := TrimCutsBlanks(s, blank);
  }

  lemma TrimTight(s: string, blank: char -> bool)
    ensures Tight(Trim(s, blank), blank)
  {
    TrimStartTight(s, blank);
    TrimEndTight(TrimStart(s, blank), blank);
  }

  /** Trimming removes nothing exactly when there is nothing to remove. */
  lemma TrimFixpointIff(s: string, blank: char -> bool)
    ensures Trim(s, blank) == s <==> Tight(s, blank)
  {
    TrimTight(s, blank);
  }

  lemma TrimIdempotent(s: string, blank: char -> bool)
    ensures Trim(Trim(s, blank), blank) == Trim(s, blank)
  {
    TrimTight(s, blank);
    TrimFixpointIff(Trim(s, blank), blank);
  }
}
