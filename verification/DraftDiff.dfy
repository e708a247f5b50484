/**
 The review diff of frontend/src/app/document-import-workspace.tsx: two drafts are flattened to paths,
 and every path whose text differs is listed.
 */
module DraftDiff {
  import opened Text

  /** A draft value: missing, or anything whose `String(...)` is `text`. */
  datatype Value = Missing | Present(shown: string)

  datatype Property = Property(key: string, value: Value)

  datatype Draft = Draft(key: string, properties: seq<Property>, lines: seq<seq<Property>>)

  datatype Leaf = Leaf(path: string, shown: string)

  datatype Change = Change(path: string, before: string, after: string)

  predicate DistinctProperties(entries: seq<Property>) {
    forall i, j :: 0 <= i < j < |entries| ==> entries[i].key != entries[j].key
  }

  /** Objects have distinct keys. */
  predicate WellFormed(d: Draft) {
    && DistinctProperties(d.properties)
    && forall i :: 0 <= i < |d.lines| ==> DistinctProperties(d.lines[i])
  }

  // Flattening

  const NUMERALS: string := "0123456789"

  function IndexText(n: nat): (t: string)
    ensures |t| > 0 && forall i :: 0 <= i < |t| ==> '0' <= t[i] <= '9'
  {
    if n < 10 then [NUMERALS[n]] else IndexText(n / 10) + [NUMERALS[n % 10]]
  }

  function IndexValue(t: string): int {
    if t == "" then 0 else 10 * IndexValue(t[..|t| - 1]) + (t[|t| - 1] as int - '0' as int)
  }

  lemma {:induction false} IndexRoundTrip(n: nat)
    ensures IndexValue(IndexText(n)) == n
  {
    if n >= 10 {
      IndexRoundTrip(n / 10);
      var t := IndexText(n);
      assert t[..|t| - 1] == IndexText(n / 10);
    } else {
      assert IndexText(n)[..0] == "";
    }
  }

  lemma {:induction false} IndexTextCanonical(n: nat)
    ensures n > 0 ==> IndexText(n)[0] != '0'
  {
    if n >= 10 {
      IndexTextCanonical(n / 10);
    }
  }

  function PropertyPath(key: string): string {
    "properties." + key
  }

  function LinePath(index: nat, key: string): string {
    "lines." + IndexText(index) + "." + key
  }

  function Shown(v: Value): string {
    match v
    case Missing => ""
    case Present(shown) => shown
  }

  function PropertyLeaves(entries: seq<Property>): (r: seq<Leaf>)
    ensures |r| == |entries|
  {
    seq(|entries|, i requires 0 <= i < |entries| => Leaf(PropertyPath(entries[i].key), Shown(entries[i].value)))
  }

  function LineLeaves(line: seq<Property>, index: nat): (r: seq<Leaf>)
    ensures |r| == |line|
  {
    seq(|line|, i requires 0 <= i < |line| => Leaf(LinePath(index, line[i].key), Shown(line[i].value)))
  }

  function AllLineLeaves(lines: seq<seq<Property>>): seq<Leaf> {
    if lines == [] then [] else
    var n := |lines| - 1;
    AllLineLeaves(lines[..n]) + LineLeaves(lines[n], n)
  }

  function Flatten(draft: Option<Draft>): seq<Leaf> {
    match draft
    case None => []
    case Some(d) => PropertyLeaves(d.properties) + AllLineLeaves(d.lines)
  }

  /** `before[path] ?? ''`. */
  function Get(leaves: seq<Leaf>, path: string): string {
    if leaves == [] then "" else
    var n := |leaves| - 1;
    if leaves[n].path == path then leaves[n].shown else Get(leaves[..n], path)
  }

  // Paths never collide

  predicate DistinctPaths(leaves: seq<Leaf>) {
    forall i, j :: 0 <= i < j < |leaves| ==> leaves[i].path != leaves[j].path
  }

  lemma PathsDiffer(key: string, index: nat, other: string)
    ensures PropertyPath(key) != LinePath(index, other)
  {
    assert PropertyPath(key)[0] == 'p' && LinePath(index, other)[0] == 'l';
  }

  /** Keys may hold dots and digits: the index ends at the first dot after "lines.". */
  lemma LinePathInjective(i: nat, a: string, j: nat, b: string)
    requires LinePath(i, a) == LinePath(j, b)
    ensures i == j && a == b
  {
    assert LinePath(i, a) == "lines." + (IndexText(i) + ['.'] + a);
    assert LinePath(j, b) == "lines." + (IndexText(j) + ['.'] + b);
    assert LinePath(i, a)[6..] == IndexText(i) + ['.'] + a;
    assert LinePath(j, b)[6..] == IndexText(j) + ['.'] + b;
    SplitAtFirst(IndexText(i), a, IndexText(j), b, '.');
    IndexRoundTrip(i);
    IndexRoundTrip(j);
  }

  lemma PropertyLeavesDistinct(entries: seq<Property>)
    requires DistinctProperties(entries)
    ensures DistinctPaths(PropertyLeaves(entries))
  {
    forall i, j | 0 <= i < j < |entries|
      ensures PropertyPath(entries[i].key) != PropertyPath(entries[j].key)
    {
      assert PropertyPath(entries[i].key)[11..] == entries[i].key;
      assert PropertyPath(entries[j].key)[11..] == entries[j].key;
    }
  }

  lemma LineLeavesDistinct(line: seq<Property>, index: nat)
    requires DistinctProperties(line)
    ensures DistinctPaths(LineLeaves(line, index))
  {
    forall i, j | 0 <= i < j < |line|
      ensures LinePath(index, line[i].key) != LinePath(index, line[j].key)
    {
      if LinePath(index, line[i].key) == LinePath(index, line[j].key) {
        LinePathInjective(index, line[i].key, index, line[j].key);
      }
    }
  }

  ghost predicate IsLinePath(path: string, bound: nat) {
    exists index: nat, key :: index < bound && path == LinePath(index, key)
  }

  lemma {:induction false} LeavesOfLines(lines: seq<seq<Property>>, i: nat)
    requires i < |AllLineLeaves(lines)|
    ensures IsLinePath(AllLineLeaves(lines)[i].path, |lines|)
  {
    var n := |lines| - 1;
    var earlier := AllLineLeaves(lines[..n]);
    if i < |earlier| {
      LeavesOfLines(lines[..n], i);
      assert AllLineLeaves(lines)[i] == earlier[i];
      var index: nat, key :| index < n && earlier[i].path == LinePath(index, key);
      assert AllLineLeaves(lines)[i].path == LinePath(index, key);
    } else {
      assert AllLineLeaves(lines)[i].path == LinePath(n, lines[n][i - |earlier|].key);
    }
  }

  lemma DistinctConcat(a: seq<Leaf>, b: seq<Leaf>)
    requires DistinctPaths(a) && DistinctPaths(b)
    requires forall i, j :: 0 <= i < |a| && 0 <= j < |b| ==> a[i].path != b[j].path
    ensures DistinctPaths(a + b)
  {
  }

  lemma {:induction false} LinesDistinct(lines: seq<seq<Property>>)
    requires forall i :: 0 <= i < |lines| ==> DistinctProperties(lines[i])
    ensures DistinctPaths(AllLineLeaves(lines))
  {
    if lines != [] {
      var n := |lines| - 1;
      var earlier, latest := AllLineLeaves(lines[..n]), LineLeaves(lines[n], n);
      LinesDistinct(lines[..n]);
      LineLeavesDistinct(lines[n], n);
      forall i, j | 0 <= i < |earlier| && 0 <= j < |latest|
        ensures earlier[i].path != latest[j].path
      {
        LeavesOfLines(lines[..n], i);
        var index: nat, key :| index < n && earlier[i].path == LinePath(index, key);
        if earlier[i].path == latest[j].path {
          LinePathInjective(index, key, n, lines[n][j].key);
        }
      }
      DistinctConcat(earlier, latest);
    }
  }

  /** Flattening never gives two leaves one path, so `Object.fromEntries` loses nothing. */
  lemma FlattenDistinct(draft: Option<Draft>)
    requires draft.Some? ==> WellFormed(draft.value)
    ensures DistinctPaths(Flatten(draft))
  {
    match draft
    case None =>
    case Some(d) =>
      var a, b := PropertyLeaves(d.properties), AllLineLeaves(d.lines);
      PropertyLeavesDistinct(d.properties);
      LinesDistinct(d.lines);
      forall i, j | 0 <= i < |a| && 0 <= j < |b|
        ensures a[i].path != b[j].path
      {
        LeavesOfLines(d.lines, j);
        var index: nat, key :| index < |d.lines| && b[j].path == LinePath(index, key);
        PathsDiffer(d.properties[i].key, index, key);
      }
      DistinctConcat(a, b);
  }

  // The diff

  function Paths(leaves: seq<Leaf>): (r: seq<string>)
    ensures |r| == |leaves|
  {
    seq(|leaves|, i requires 0 <= i < |leaves| => leaves[i].path)
  }

  /** `Array.from(new Set(paths))`. */
  function Unique(paths: seq<string>): seq<string> {
    if paths == [] then [] else
    var n := |paths| - 1;
    var r := Unique(paths[..n]);
    if paths[n] in r then r else r + [paths[n]]
  }

  function Differing(paths: seq<string>, before: seq<Leaf>, after: seq<Leaf>): seq<Change> {
    if paths == [] then [] else
    var n := |paths| - 1;
    var r, path := Differing(paths[..n], before, after), paths[n];
    if Get(before, path) == Get(after, path) then r else r + [Change(path, Get(before, path), Get(after, path))]
  }

  function DraftChanges(original: Option<Draft>, reviewed: Draft): seq<Change> {
    var before, after := Flatten(original), Flatten(Some(reviewed));
    Differing(Unique(Paths(before) + Paths(after)), before, after)
  }

  lemma {:induction false} UniqueProperties(paths: seq<string>)
    ensures forall path :: path in Unique(paths) <==> path in paths
    ensures forall i, j :: 0 <= i < j < |Unique(paths)| ==> Unique(paths)[i] != Unique(paths)[j]
  {
    if paths != [] {
      var n := |paths| - 1;
      UniqueProperties(paths[..n]);
      assert paths == paths[..n] + [paths[n]];
    }
  }

  predicate Lists(changes: seq<Change>, path: string) {
    exists i :: 0 <= i < |changes| && changes[i].path == path
  }

  predicate DistinctChanges(changes: seq<Change>) {
    forall i, j :: 0 <= i < j < |changes| ==> changes[i].path != changes[j].path
  }

  lemma ListsSnoc(changes: seq<Change>, change: Change, path: string)
    ensures Lists(changes + [change], path) <==> Lists(changes, path) || change.path == path
  {
    var more := changes + [change];
    assert more[|changes|] == change;
    assert forall i :: 0 <= i < |changes| ==> more[i] == changes[i];
  }

  lemma {:induction false} DifferingLists(paths: seq<string>, before: seq<Leaf>, after: seq<Leaf>, path: string)
    ensures Lists(Differing(paths, before, after), path) <==> path in paths && Get(before, path) != Get(after, path)
  {
    if paths != [] {
      var n := |paths| - 1;
      DifferingLists(paths[..n], before, after, path);
      assert paths == paths[..n] + [paths[n]];
      var change := Change(paths[n], Get(before, paths[n]), Get(after, paths[n]));
      ListsSnoc(Differing(paths[..n], before, after), change, path);
    }
  }

  lemma {:induction false} DifferingDistinct(paths: seq<string>, before: seq<Leaf>, after: seq<Leaf>)
    requires forall i, j :: 0 <= i < j < |paths| ==> paths[i] != paths[j]
    ensures DistinctChanges(Differing(paths, before, after))
    ensures forall i :: 0 <= i < |Differing(paths, before, after)| ==>
              var c := Differing(paths, before, after)[i];
              c.before == Get(before, c.path) && c.after == Get(after, c.path)
  {
    if paths != [] {
      var n := |paths| - 1;
      DifferingDistinct(paths[..n], before, after);
      DifferingLists(paths[..n], before, after, paths[n]);
      assert paths[n] !in paths[..n];
    }
  }

  lemma {:induction false} GetKnown(leaves: seq<Leaf>, path: string)
    ensures Get(leaves, path) != "" ==> path in Paths(leaves)
  {
    if leaves != [] {
      var n := |leaves| - 1;
      GetKnown(leaves[..n], path);
      assert Paths(leaves) == Paths(leaves[..n]) + [leaves[n].path];
    }
  }

  /** The text at a path after the changes are applied to a draft. */
  function Patched(leaves: seq<Leaf>, changes: seq<Change>, path: string): string {
    if changes == [] then Get(leaves, path) else
    var n := |changes| - 1;
    if changes[n].path == path then changes[n].after else Patched(leaves, changes[..n], path)
  }

  lemma {:induction false} PatchedAt(leaves: seq<Leaf>, changes: seq<Change>, path: string)
    ensures !Lists(changes, path) ==> Patched(leaves, changes, path) == Get(leaves, path)
    ensures forall i :: 0 <= i < |changes| && changes[i].path == path && DistinctChanges(changes) ==>
              Patched(leaves, changes, path) == changes[i].after
  {
    if changes != [] {
      var n := |changes| - 1;
      PatchedAt(leaves, changes[..n], path);
      assert changes == changes[..n] + [changes[n]];
      ListsSnoc(changes[..n], changes[n], path);
    }
  }

  /** Reads a change list backwards. */
  function Undo(changes: seq<Change>): (r: seq<Change>)
    ensures |r| == |changes|
  {
    seq(|changes|, i requires 0 <= i < |changes| => Change(changes[i].path, changes[i].after, changes[i].before))
  }

  /**
   Every path at which the drafts differ is listed exactly once, with both texts; applying the changes
   to the original gives the reviewed draft, and applying them backwards gives the original again.
   */
  lemma ChangesAreTheDifference(original: Option<Draft>, reviewed: Draft, path: string)
    ensures var before, after := Flatten(original), Flatten(Some(reviewed));
            var changes := DraftChanges(original, reviewed);
            && DistinctChanges(changes)
            && (Lists(changes, path) <==> Get(before, path) != Get(after, path))
            && Patched(before, changes, path) == Get(after, path)
            && Patched(after, Undo(changes), path) == Get(before, path)
  {
    var before, after := Flatten(original), Flatten(Some(reviewed));
    var paths := Unique(Paths(before) + Paths(after));
    var changes := DraftChanges(original, reviewed);
    UniqueProperties(Paths(before) + Paths(after));
    DifferingLists(paths, before, after, path);
    DifferingDistinct(paths, before, after);
    GetKnown(before, path);
    GetKnown(after, path);
    PatchedAt(before, changes, path);
    PatchedAt(after, Undo(changes), path);
    if Lists(changes, path) {
      var i :| 0 <= i < |changes| && changes[i].path == path;
      assert Undo(changes)[i].path == path;
    } else {
      assert forall i :: 0 <= i < |changes| ==> Undo(changes)[i].path == changes[i].path;
    }
  }

  // The texts of a draft

  lemma {:induction false} GetLeaf(leaves: seq<Leaf>, k: nat)
    requires DistinctPaths(leaves) && k < |leaves|
    ensures Get(leaves, leaves[k].path) == leaves[k].shown
  {
    var n := |leaves| - 1;
    if k < n {
      GetLeaf(leaves[..n], k);
    }
  }

  /** At the path of a property stands its text, and nothing for a missing value. */
  lemma PropertyText(d: Draft, i: nat)
    requires WellFormed(d) && i < |d.properties|
    ensures Get(Flatten(Some(d)), "properties." + d.properties[i].key)
            == match d.properties[i].value
               case Missing => ""
               case Present(text) => text
  {
    FlattenDistinct(Some(d));
    assert Flatten(Some(d))[i] == PropertyLeaves(d.properties)[i];
    GetLeaf(Flatten(Some(d)), i);
  }

  lemma {:induction false} LineLeafAt(lines: seq<seq<Property>>, i: nat, j: nat) returns (k: nat)
    requires i < |lines| && j < |lines[i]|
    ensures k < |AllLineLeaves(lines)| && AllLineLeaves(lines)[k] == LineLeaves(lines[i], i)[j]
  {
    var n := |lines| - 1;
    if i < n {
      k := LineLeafAt(lines[..n], i, j);
    } else {
      k := |AllLineLeaves(lines[..n])| + j;
    }
  }

  /** At the path of a line's property stands its text, and nothing for a missing value. */
  lemma LineText(d: Draft, i: nat, j: nat)
    requires WellFormed(d) && i < |d.lines| && j < |d.lines[i]|
    ensures Get(Flatten(Some(d)), "lines." + IndexText(i) + "." + d.lines[i][j].key)
            == match d.lines[i][j].value
               case Missing => ""
               case Present(text) => text
  {
    FlattenDistinct(Some(d));
    var k := LineLeafAt(d.lines, i, j);
    var all := Flatten(Some(d));
    assert all[|d.properties| + k] == AllLineLeaves(d.lines)[k];
    GetLeaf(all, |d.properties| + k);
  }

  lemma {:induction false} LineLeafOrigin(lines: seq<seq<Property>>, k: nat) returns (i: nat, j: nat)
    requires k < |AllLineLeaves(lines)|
    ensures i < |lines| && j < |lines[i]| && AllLineLeaves(lines)[k] == LineLeaves(lines[i], i)[j]
  {
    var n := |lines| - 1;
    var earlier := AllLineLeaves(lines[..n]);
    if k < |earlier| {
      i, j := LineLeafOrigin(lines[..n], k);
    } else {
      i, j := n, k - |earlier|;
    }
  }

  /** The path belongs to a property of the draft or of one of its lines. */
  ghost predicate IsPathOf(d: Draft, path: string) {
    || (exists i :: 0 <= i < |d.properties| && path == "properties." + d.properties[i].key)
    || (exists i, j :: 0 <= i < |d.lines| && 0 <= j < |d.lines[i]|
                       && path == "lines." + IndexText(i) + "." + d.lines[i][j].key)
  }

  /** At every other path there is nothing. */
  lemma NoTextElsewhere(d: Draft, path: string)
    ensures Get(Flatten(Some(d)), path) == "" || IsPathOf(d, path)
  {
    var all := Flatten(Some(d));
    GetKnown(all, path);
    if path in Paths(all) {
      var k :| 0 <= k < |all| && Paths(all)[k] == path;
      if k >= |d.properties| {
        var i, j := LineLeafOrigin(d.lines, k - |d.properties|);
        assert path == "lines." + IndexText(i) + "." + d.lines[i][j].key;
      } else {
        assert path == "properties." + d.properties[k].key;
      }
    }
  }

  /** A change is listed with exactly the two texts of its path, and only where they differ. */
  lemma ListedIff(original: Option<Draft>, reviewed: Draft, c: Change)
    ensures c in DraftChanges(original, reviewed) <==>
              && c.before == Get(Flatten(original), c.path) && c.after == Get(Flatten(Some(reviewed)), c.path)
              && c.before != c.after
  {
    var before, after := Flatten(original), Flatten(Some(reviewed));
    var changes := DraftChanges(original, reviewed);
    UniqueProperties(Paths(before) + Paths(after));
    DifferingDistinct(Unique(Paths(before) + Paths(after)), before, after);
    ChangesAreTheDifference(original, reviewed, c.path);
    if c in changes {
      var i :| 0 <= i < |changes| && changes[i] == c;
      assert Lists(changes, c.path);
    }
  }

  /** An edited property is listed from its old text to its new one, and an unedited one is not. */
  lemma PropertyEditListed(original: Draft, reviewed: Draft, i: nat, j: nat)
    requires WellFormed(original) && WellFormed(reviewed)
    requires i < |original.properties| && j < |reviewed.properties|
    requires original.properties[i].key == reviewed.properties[j].key
    ensures var was := match original.properties[i].value { case Missing => "" case Present(text) => text };
            var now := match reviewed.properties[j].value { case Missing => "" case Present(text) => text };
            Change("properties." + original.properties[i].key, was, now) in DraftChanges(Some(original), reviewed)
            <==> was != now
  {
    PropertyText(original, i);
    PropertyText(reviewed, j);
    var path := "properties." + original.properties[i].key;
    var before, after := Flatten(Some(original)), Flatten(Some(reviewed));
    ListedIff(Some(original), reviewed, Change(path, Get(before, path), Get(after, path)));
  }

  lemma LineEditListed(original: Draft, reviewed: Draft, line: nat, i: nat, j: nat)
    requires WellFormed(original) && WellFormed(reviewed) && line < |original.lines| && line < |reviewed.lines|
    requires i < |original.lines[line]| && j < |reviewed.lines[line]|
    requires original.lines[line][i].key == reviewed.lines[line][j].key
    ensures var was := match original.lines[line][i].value { case Missing => "" case Present(text) => text };
            var now := match reviewed.lines[line][j].value { case Missing => "" case Present(text) => text };
            Change("lines." + IndexText(line) + "." + original.lines[line][i].key, was, now)
              in DraftChanges(Some(original), reviewed)
            <==> was != now
  {
    LineText(original, line, i);
    LineText(reviewed, line, j);
    var path := "lines." + IndexText(line) + "." + original.lines[line][i].key;
    var before, after := Flatten(Some(original)), Flatten(Some(reviewed));
    ListedIff(Some(original), reviewed, Change(path, Get(before, path), Get(after, path)));
  }

  /** `copyDraft`: the draft a review starts from, every value as text. */
  function CopyObject(entries: seq<Property>): (r: seq<Property>)
    ensures |r| == |entries|
  {
    seq(|entries|, i requires 0 <= i < |entries| => Property(entries[i].key, Present(Shown(entries[i].value))))
  }

  function CopyDraft(d: Draft): Draft {
    Draft(d.key, CopyObject(d.properties),
          seq(|d.lines|, i requires 0 <= i < |d.lines| => CopyObject(d.lines[i])))
  }

  /** The copy has the same key, properties and lines, with every text as it was and nothing missing. */
  lemma CopyKeepsTexts(d: Draft)
    ensures CopyDraft(d).key == d.key
    ensures |CopyDraft(d).properties| == |d.properties| && |CopyDraft(d).lines| == |d.lines|
    ensures forall i :: 0 <= i < |d.properties| ==>
              && CopyDraft(d).properties[i].key == d.properties[i].key
              && match d.properties[i].value {
                   case Missing => CopyDraft(d).properties[i].value == Present("")
                   case Present(text) => CopyDraft(d).properties[i].value == Present(text)
                 }
    ensures forall i :: 0 <= i < |d.lines| ==> |CopyDraft(d).lines[i]| == |d.lines[i]|
    ensures forall i, j :: 0 <= i < |d.lines| && 0 <= j < |d.lines[i]| ==>
              && CopyDraft(d).lines[i][j].key == d.lines[i][j].key
              && match d.lines[i][j].value {
                   case Missing => CopyDraft(d).lines[i][j].value == Present("")
                   case Present(text) => CopyDraft(d).lines[i][j].value == Present(text)
                 }
  {
  }

  lemma {:induction false} CopyKeepsLines(lines: seq<seq<Property>>, copy: seq<seq<Property>>)
    requires |copy| == |lines| && forall i :: 0 <= i < |lines| ==> copy[i] == CopyObject(lines[i])
    ensures AllLineLeaves(copy) == AllLineLeaves(lines)
  {
    if lines != [] {
      var n := |lines| - 1;
      CopyKeepsLines(lines[..n], copy[..n]);
      assert LineLeaves(copy[n], n) == LineLeaves(lines[n], n);
    }
  }

  /** A review that changed nothing lists nothing. */
  lemma CopyHasNoChanges(d: Draft)
    ensures Flatten(Some(CopyDraft(d))) == Flatten(Some(d))
    ensures DraftChanges(Some(d), CopyDraft(d)) == []
  {
    CopyKeepsLines(d.lines, CopyDraft(d).lines);
    assert PropertyLeaves(CopyDraft(d).properties) == PropertyLeaves(d.properties);
    var changes := DraftChanges(Some(d), CopyDraft(d));
    if changes != [] {
      assert Lists(changes, changes[0].path);
      ChangesAreTheDifference(Some(d), CopyDraft(d), changes[0].path);
    }
  }
}
