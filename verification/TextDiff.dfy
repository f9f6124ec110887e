/** The bounded line comparison (internal/cli/compare_text.go). */
module TextDiff {
  import opened Ids

  const LIMIT: nat := 64 * 1024
  const CELLS: nat := 1024 * 1024

  newtype uint32 = x: int | 0 <= x < 0x1_0000_0000

  // What the comparison prints: lines kept, as a count; lines removed; lines added.
  datatype Entry = Unchanged(count: nat) | Removed(line: string) | Added(line: string)

  // ------------------------------------------------------ replaying a script

  // Apply the entries to the lines before; None when they do not fit.
  function Replay(script: seq<Entry>, before: seq<string>): Option<seq<string>> {
    if script == [] then (if before == [] then Some([]) else None)
    else
      var init, n := script[..|script| - 1], |before|;
      match script[|script| - 1]
      case Unchanged(count) => if count <= n then Then(Replay(init, before[..n - count]), before[n - count..]) else None
      case Removed(line) => if n > 0 && before[n - 1] == line then Replay(init, before[..n - 1]) else None
      case Added(line) => Then(Replay(init, before), [line])
  }

  function Then(head: Option<seq<string>>, tail: seq<string>): Option<seq<string>> {
    if head.Some? then Some(head.value + tail) else None
  }

  function Kept(script: seq<Entry>): nat {
    if script == [] then 0
    else
      var last := script[|script| - 1];
      Kept(script[..|script| - 1]) + if last.Unchanged? then last.count else 0
  }

  // The lines a reader has to look at: removed or added.
  function Changes(script: seq<Entry>): nat {
    if script == [] then 0
    else Changes(script[..|script| - 1]) + if script[|script| - 1].Unchanged? then 0 else 1
  }

  lemma ReplayNext(script: seq<Entry>, e: Entry)
    ensures (script + [e])[..|script|] == script
    ensures Kept(script + [e]) == Kept(script) + if e.Unchanged? then e.count else 0
  {
  }

  // ------------------------------------------------- common subsequences

  ghost predicate Within(c: seq<string>, a: seq<string>) {
    c == [] || (a != [] && ((c[0] == a[0] && Within(c[1..], a[1..])) || Within(c, a[1..])))
  }

  ghost predicate Common(c: seq<string>, a: seq<string>, b: seq<string>) {
    Within(c, a) && Within(c, b)
  }

  lemma {:induction false} WithinTail(c: seq<string>, a: seq<string>)
    requires c != [] && Within(c, a)
    ensures a != [] && Within(c[1..], a[1..])
    decreases |a|
  {
    if !(c[0] == a[0] && Within(c[1..], a[1..])) {
      WithinTail(c, a[1..]);
      WithinLonger(c[1..], a[1..]);
    }
  }

  lemma WithinLonger(c: seq<string>, a: seq<string>)
    requires a != [] && Within(c, a[1..])
    ensures Within(c, a)
  {
  }

  lemma {:induction false} WithinAppend(c: seq<string>, a: seq<string>, d: seq<string>)
    requires Within(c, a)
    ensures Within(c + d, a + d)
    decreases |a|
  {
    if a == [] {
      WithinSelf(d);
      assert c + d == d && a + d == d;
    } else {
      assert (a + d)[1..] == a[1..] + d;
      if c != [] && c[0] == a[0] && Within(c[1..], a[1..]) {
        WithinAppend(c[1..], a[1..], d);
        assert (c + d)[1..] == c[1..] + d;
      } else {
        WithinAppend(c, a[1..], d);
      }
    }
  }

  lemma {:induction false} WithinSelf(d: seq<string>)
    ensures Within(d, d)
  {
    if d != [] {
      WithinSelf(d[1..]);
    }
  }

  lemma {:induction false} WithinBefore(c: seq<string>, a: seq<string>, d: seq<string>)
    requires Within(c, a)
    ensures Within(c, a + d)
    decreases |a|
  {
    if c != [] {
      assert (a + d)[1..] == a[1..] + d;
      if c[0] == a[0] && Within(c[1..], a[1..]) {
        WithinBefore(c[1..], a[1..], d);
      } else {
        WithinBefore(c, a[1..], d);
      }
    }
  }

  // --------------------------------------------------- the longest of them

  function Max(a: nat, b: nat): nat {
    if a >= b then a else b
  }

  // The length of a longest common subsequence of the lines from i and from j on.
  function Lcs(a: seq<string>, b: seq<string>, i: nat, j: nat): (n: nat)
    requires i <= |a| && j <= |b|
    ensures n <= |a| - i && n <= |b| - j
    decreases |a| - i + |b| - j
  {
    if i == |a| || j == |b| then 0
    else if a[i] == b[j] then Lcs(a, b, i + 1, j + 1) + 1
    else Max(Lcs(a, b, i + 1, j), Lcs(a, b, i, j + 1))
  }

  lemma {:induction false} NoLongerCommon(a: seq<string>, b: seq<string>, i: nat, j: nat, c: seq<string>)
    requires i <= |a| && j <= |b| && Common(c, a[i..], b[j..])
    ensures |c| <= Lcs(a, b, i, j)
    decreases |a| - i + |b| - j
  {
    if c != [] {
      WithinTail(c, a[i..]);
      WithinTail(c, b[j..]);
      assert a[i..][1..] == a[i + 1..] && b[j..][1..] == b[j + 1..];
      if a[i] == b[j] {
        NoLongerCommon(a, b, i + 1, j + 1, c[1..]);
      } else if c[0] != a[i] {
        NoLongerCommon(a, b, i + 1, j, c);
      } else {
        NoLongerCommon(a, b, i, j + 1, c);
      }
    }
  }

  lemma {:induction false} LongestCommon(a: seq<string>, b: seq<string>, i: nat, j: nat) returns (c: seq<string>)
    requires i <= |a| && j <= |b|
    ensures Common(c, a[i..], b[j..]) && |c| == Lcs(a, b, i, j)
    decreases |a| - i + |b| - j
  {
    c := [];
    if i < |a| && j < |b| {
      assert a[i..][1..] == a[i + 1..] && b[j..][1..] == b[j + 1..];
      if a[i] == b[j] {
        var rest := LongestCommon(a, b, i + 1, j + 1);
        c := [a[i]] + rest;
        assert c[1..] == rest;
      } else if Lcs(a, b, i + 1, j) >= Lcs(a, b, i, j + 1) {
        c := LongestCommon(a, b, i + 1, j);
      } else {
        c := LongestCommon(a, b, i, j + 1);
      }
    }
  }

  // ------------------------------------------------------------ minimality

  // The kept lines of any script that works are a common subsequence.
  lemma {:induction false} KeptIsCommon(script: seq<Entry>, before: seq<string>, after: seq<string>)
      returns (c: seq<string>)
    requires Replay(script, before) == Some(after)
    ensures Common(c, before, after) && |c| == Kept(script)
    ensures |before| + |after| == 2 * Kept(script) + Changes(script)
    decreases |script|
  {
    c := [];
    if script != [] {
      var init, n := script[..|script| - 1], |before|;
      match script[|script| - 1]
      case Unchanged(count) =>
        var head, tail := Replay(init, before[..n - count]).value, before[n - count..];
        c := KeptIsCommon(init, before[..n - count], head);
        WithinAppend(c, before[..n - count], tail);
        WithinAppend(c, head, tail);
        assert before[..n - count] + tail == before;
        c := c + tail;
      case Removed(line) =>
        c := KeptIsCommon(init, before[..n - 1], after);
        WithinBefore(c, before[..n - 1], [line]);
        assert before[..n - 1] + [line] == before;
      case Added(line) =>
        var head := Replay(init, before).value;
        c := KeptIsCommon(init, before, head);
        WithinBefore(c, head, [line]);
    }
  }

  // A script that keeps as many lines as the longest common subsequence is a shortest one.
  lemma ShortestScript(script: seq<Entry>, other: seq<Entry>, before: seq<string>, after: seq<string>)
    requires Replay(script, before) == Some(after) && Kept(script) == Lcs(before, after, 0, 0)
    requires Replay(other, before) == Some(after)
    ensures Kept(other) <= Kept(script) && Changes(script) <= Changes(other)
  {
    var kept := KeptIsCommon(script, before, after);
    var c := KeptIsCommon(other, before, after);
    assert before[0..] == before && after[0..] == after;
    NoLongerCommon(before, after, 0, 0, c);
  }

  // --------------------------------------------- which of the shortest scripts

  // A script line by line: 0 keeps a line, 1 removes one, 2 adds one.
  ghost function Steps(script: seq<Entry>): seq<nat> {
    if script == [] then [] else Steps(script[..|script| - 1]) + StepsOf(script[|script| - 1])
  }

  ghost function StepsOf(e: Entry): seq<nat> {
    match e
    case Unchanged(count) => Zeros(count)
    case Removed(line) => [1]
    case Added(line) => [2]
  }

  ghost function Zeros(count: nat): seq<nat> {
    if count == 0 then [] else [0] + Zeros(count - 1)
  }

  ghost function Keeps(s: seq<nat>): nat {
    if s == [] then 0 else (if s[0] == 0 then 1 else 0) + Keeps(s[1..])
  }

  // The steps lead from lines i and j on to the end of both sides.
  ghost predicate Aligns(s: seq<nat>, a: seq<string>, b: seq<string>, i: nat, j: nat) {
    if s == [] then i == |a| && j == |b|
    else
      || (s[0] == 0 && i < |a| && j < |b| && a[i] == b[j] && Aligns(s[1..], a, b, i + 1, j + 1))
      || (s[0] == 1 && i < |a| && Aligns(s[1..], a, b, i + 1, j))
      || (s[0] == 2 && j < |b| && Aligns(s[1..], a, b, i, j + 1))
  }

  lemma {:induction false} ZerosAlign(count: nat, s: seq<nat>, a: seq<string>, b: seq<string>, i: nat, j: nat)
    requires i + count <= |a| && j + count <= |b| && a[i..i + count] == b[j..j + count]
    requires Aligns(s, a, b, i + count, j + count)
    ensures Aligns(Zeros(count) + s, a, b, i, j)
  {
    if count == 0 {
      assert Zeros(0) + s == s;
    } else {
      assert a[i] == a[i..i + count][0] == b[j..j + count][0] == b[j];
      assert a[i + 1..i + count] == a[i..i + count][1..] && b[j + 1..j + count] == b[j..j + count][1..];
      ZerosAlign(count - 1, s, a, b, i + 1, j + 1);
      assert (Zeros(count) + s)[1..] == Zeros(count - 1) + s;
    }
  }

  lemma PrefixCut(b: seq<string>, j: nat, head: seq<string>, tail: seq<string>)
    requires j <= |b| && b[..j] == head + tail
    ensures |tail| <= j && head == b[..j - |tail|] && tail == b[j - |tail|..j]
  {
    assert head == (head + tail)[..|head|] && tail == (head + tail)[|head|..];
  }

  lemma PrefixOf(a: seq<string>, i: nat, k: nat)
    requires k <= i <= |a|
    ensures a[..i][..k] == a[..k] && a[..i][k..] == a[k..i]
  {
  }

  lemma StepsLast(script: seq<Entry>, s: seq<nat>)
    requires script != []
    ensures Steps(script) + s == Steps(script[..|script| - 1]) + (StepsOf(script[|script| - 1]) + s)
  {
  }

  // The lines of the last entry, one alignment further.
  lemma LastAligns(init: seq<Entry>, last: Entry, a: seq<string>, b: seq<string>, i: nat, j: nat, s: seq<nat>)
      returns (k: nat, l: nat)
    requires i <= |a| && j <= |b| && Replay(init + [last], a[..i]) == Some(b[..j]) && Aligns(s, a, b, i, j)
    ensures k <= |a| && l <= |b| && Replay(init, a[..k]) == Some(b[..l]) && Aligns(StepsOf(last) + s, a, b, k, l)
  {
    assert (init + [last])[..|init|] == init;
    match last
    case Unchanged(count) =>
      k := i - count;
      PrefixOf(a, i, k);
      PrefixCut(b, j, Replay(init, a[..k]).value, a[k..i]);
      l := j - count;
      ZerosAlign(count, s, a, b, k, l);
    case Removed(line) =>
      k, l := i - 1, j;
      PrefixOf(a, i, k);
      assert ([1] + s)[1..] == s;
    case Added(line) =>
      k, l := i, j - 1;
      PrefixCut(b, j, Replay(init, a[..i]).value, [line]);
      assert ([2] + s)[1..] == s;
  }

  // A script that works is an alignment of both sides.
  lemma {:induction false} ReplayAligns(script: seq<Entry>, a: seq<string>, b: seq<string>, i: nat, j: nat, s: seq<nat>)
    requires i <= |a| && j <= |b| && Replay(script, a[..i]) == Some(b[..j]) && Aligns(s, a, b, i, j)
    ensures Aligns(Steps(script) + s, a, b, 0, 0)
    decreases |script|
  {
    if script == [] {
      assert Steps(script) + s == s;
    } else {
      var init, last := script[..|script| - 1], script[|script| - 1];
      assert script == init + [last];
      var k, l := LastAligns(init, last, a, b, i, j, s);
      ReplayAligns(init, a, b, k, l, StepsOf(last) + s);
      StepsLast(script, s);
    }
  }

  lemma {:induction false} KeepsSplits(s: seq<nat>, t: seq<nat>)
    ensures Keeps(s + t) == Keeps(s) + Keeps(t)
  {
    if s == [] {
      assert s + t == t;
    } else {
      assert (s + t)[1..] == s[1..] + t;
      KeepsSplits(s[1..], t);
    }
  }

  lemma {:induction false} ZerosKeep(count: nat)
    ensures Keeps(Zeros(count)) == count
  {
    if count > 0 {
      ZerosKeep(count - 1);
      assert Zeros(count)[1..] == Zeros(count - 1);
    }
  }

  lemma {:induction false} StepsKeep(script: seq<Entry>)
    ensures Keeps(Steps(script)) == Kept(script)
  {
    if script != [] {
      var init, last := script[..|script| - 1], script[|script| - 1];
      StepsKeep(init);
      KeepsSplits(Steps(init), StepsOf(last));
      if last.Unchanged? {
        ZerosKeep(last.count);
      } else {
        assert StepsOf(last)[1..] == [];
      }
    }
  }

  lemma {:induction false} AlignsBound(s: seq<nat>, a: seq<string>, b: seq<string>, i: nat, j: nat)
    requires i <= |a| && j <= |b| && Aligns(s, a, b, i, j)
    ensures Keeps(s) <= Lcs(a, b, i, j) && |s| + Keeps(s) == |a| - i + |b| - j
    decreases |s|
  {
    if s != [] {
      if s[0] == 0 {
        AlignsBound(s[1..], a, b, i + 1, j + 1);
      } else if s[0] == 1 {
        AlignsBound(s[1..], a, b, i + 1, j);
        LcsNext(a, b, i, j);
      } else {
        AlignsBound(s[1..], a, b, i, j + 1);
        LcsNext(a, b, i, j);
      }
    }
  }

  // Giving up a line never helps, and costs at most one.
  lemma {:induction false} LcsNext(a: seq<string>, b: seq<string>, i: nat, j: nat)
    requires i <= |a| && j <= |b|
    ensures i < |a| ==> Lcs(a, b, i + 1, j) <= Lcs(a, b, i, j) <= Lcs(a, b, i + 1, j) + 1
    ensures j < |b| ==> Lcs(a, b, i, j + 1) <= Lcs(a, b, i, j) <= Lcs(a, b, i, j + 1) + 1
    decreases |a| - i + |b| - j
  {
    if i < |a| && j < |b| {
      LcsNext(a, b, i + 1, j);
      LcsNext(a, b, i, j + 1);
      LcsNext(a, b, i + 1, j + 1);
    }
  }

  // Of all ways that keep the most: keep where both lines agree, else remove if that costs nothing.
  ghost function Best(a: seq<string>, b: seq<string>, i: nat, j: nat): seq<nat>
    requires i <= |a| && j <= |b|
    decreases |a| - i + |b| - j
  {
    if i == |a| && j == |b| then []
    else if i == |a| then [2] + Best(a, b, i, j + 1)
    else if j == |b| then [1] + Best(a, b, i + 1, j)
    else if a[i] == b[j] then [0] + Best(a, b, i + 1, j + 1)
    else if Lcs(a, b, i + 1, j) >= Lcs(a, b, i, j + 1) then [1] + Best(a, b, i + 1, j)
    else [2] + Best(a, b, i, j + 1)
  }

  lemma {:induction false} BestSize(a: seq<string>, b: seq<string>, i: nat, j: nat)
    requires i <= |a| && j <= |b|
    ensures |Best(a, b, i, j)| + Lcs(a, b, i, j) == |a| - i + |b| - j
    decreases |a| - i + |b| - j
  {
    if i < |a| && (j == |b| || a[i] != b[j]) {
      BestSize(a, b, i + 1, j);
    }
    if j < |b| && (i == |a| || a[i] != b[j]) {
      BestSize(a, b, i, j + 1);
    }
    if i < |a| && j < |b| && a[i] == b[j] {
      BestSize(a, b, i + 1, j + 1);
    }
  }

  // The first step of an alignment that keeps as many lines: it comes later, or is the same.
  lemma FirstStep(s: seq<nat>, a: seq<string>, b: seq<string>, i: nat, j: nat) returns (k: nat, l: nat)
    requires i <= |a| && j <= |b| && s != [] && Aligns(s, a, b, i, j) && Keeps(s) == Lcs(a, b, i, j)
    ensures k <= |a| && l <= |b| && Best(a, b, i, j) != []
    ensures Best(a, b, i, j)[0] < s[0]
         || (Best(a, b, i, j) == [s[0]] + Best(a, b, k, l) && Aligns(s[1..], a, b, k, l)
             && Keeps(s[1..]) == Lcs(a, b, k, l))
  {
    LcsNext(a, b, i, j);
    if s[0] == 0 {
      k, l := i + 1, j + 1;
    } else if s[0] == 1 {
      k, l := i + 1, j;
      AlignsBound(s[1..], a, b, k, l);
    } else {
      k, l := i, j + 1;
      AlignsBound(s[1..], a, b, k, l);
    }
  }

  lemma LaterStep(p: seq<nat>, q: seq<nat>, s: seq<nat>)
    requires s != [] && p == [s[0]] + q && |s[1..]| == |q| && (s[1..] == q || LexLess(q, s[1..]))
    ensures |s| == |p| && (s == p || LexLess(p, s))
  {
    assert p[1..] == q && s == [s[0]] + s[1..];
  }

  // It comes first among all alignments that keep as many lines.
  lemma {:induction false} BestIsFirst(s: seq<nat>, a: seq<string>, b: seq<string>, i: nat, j: nat)
    requires i <= |a| && j <= |b| && Aligns(s, a, b, i, j) && Keeps(s) == Lcs(a, b, i, j)
    ensures |s| == |Best(a, b, i, j)| && (s == Best(a, b, i, j) || LexLess(Best(a, b, i, j), s))
    decreases |s|
  {
    BestSize(a, b, i, j);
    AlignsBound(s, a, b, i, j);
    if s != [] {
      var k, l := FirstStep(s, a, b, i, j);
      if Best(a, b, i, j)[0] >= s[0] {
        BestIsFirst(s[1..], a, b, k, l);
        LaterStep(Best(a, b, i, j), Best(a, b, k, l), s);
      }
    }
  }

  // Where scripts that keep as many lines part, this one keeps a line rather than removing
  // one, and removes one rather than adding one.
  ghost predicate Preferred(script: seq<Entry>, before: seq<string>, after: seq<string>) {
    forall other :: Replay(other, before) == Some(after) && Kept(other) == Kept(script) ==>
      |Steps(other)| == |Steps(script)|
      && (Steps(other) == Steps(script) || LexLess(Steps(script), Steps(other)))
  }

  lemma BestIsPreferred(script: seq<Entry>, before: seq<string>, after: seq<string>)
    requires Steps(script) == Best(before, after, 0, 0) && Kept(script) == Lcs(before, after, 0, 0)
    ensures Preferred(script, before, after)
  {
    forall other | Replay(other, before) == Some(after) && Kept(other) == Kept(script)
      ensures |Steps(other)| == |Steps(script)|
      ensures Steps(other) == Steps(script) || LexLess(Steps(script), Steps(other))
    {
      assert before[..|before|] == before && after[..|after|] == after && Steps(other) + [] == Steps(other);
      ReplayAligns(other, before, after, |before|, |after|, []);
      StepsKeep(other);
      BestIsFirst(Steps(other), before, after, 0, 0);
    }
  }

  // Kept lines are counted in one entry as long as nothing comes between them.
  ghost predicate Merged(script: seq<Entry>) {
    && (forall k :: 0 <= k < |script| && script[k].Unchanged? ==> script[k].count > 0)
    && forall k, l :: 0 <= k < l < |script| && l == k + 1 ==> !(script[k].Unchanged? && script[l].Unchanged?)
  }

  ghost predicate EndsOpen(script: seq<Entry>) {
    script == [] || !script[|script| - 1].Unchanged?
  }

  // -------------------------------------------------------------- the table

  // Where the flat table keeps row i, column j.
  function Cell(i: nat, j: nat, width: nat): nat {
    i * width + j
  }

  lemma {:induction false} RowStep(i: nat, k: nat, width: nat)
    requires i < k
    ensures k * width >= i * width + width
    decreases k
  {
    assert k * width == (k - 1) * width + width;
    if i < k - 1 {
      RowStep(i, k - 1, width);
    }
  }

  lemma CellBound(i: nat, j: nat, rows: nat, width: nat)
    requires i < rows && j < width
    ensures Cell(i, j, width) < rows * width
  {
    RowStep(i, rows, width);
  }

  lemma CellsDiffer(i: nat, j: nat, k: nat, l: nat, width: nat)
    requires j < width && l < width && (i != k || j != l)
    ensures Cell(i, j, width) != Cell(k, l, width)
  {
    if i < k {
      RowStep(i, k, width);
    } else if k < i {
      RowStep(k, i, width);
    }
  }

  ghost predicate CellHolds(table: array<uint32>, a: seq<string>, b: seq<string>, i: nat, j: nat)
    requires i <= |a| && j <= |b| && table.Length == (|a| + 1) * (|b| + 1)
    reads table
  {
    CellBound(i, j, |a| + 1, |b| + 1);
    table[Cell(i, j, |b| + 1)] as int == Lcs(a, b, i, j)
  }

  // All rows below row, and of row itself the columns from col on.
  ghost predicate FilledFrom(table: array<uint32>, a: seq<string>, b: seq<string>, row: nat, col: nat)
    requires table.Length == (|a| + 1) * (|b| + 1)
    reads table
  {
    forall i: nat, j: nat {:trigger CellHolds(table, a, b, i, j)} ::
      i <= |a| && j <= |b| && (i > row || (i == row && j >= col) || j == |b|) ==> CellHolds(table, a, b, i, j)
  }

  // One cell, from the three beside and below it.
  method FillCell(table: array<uint32>, a: seq<string>, b: seq<string>, i: nat, j: nat)
    requires table.Length == (|a| + 1) * (|b| + 1) <= CELLS && i < |a| && j < |b|
    requires FilledFrom(table, a, b, i, j + 1)
    modifies table
    ensures FilledFrom(table, a, b, i, j)
  {
    var width := |b| + 1;
    CellBound(i, j, |a| + 1, width);
    CellBound(i + 1, j, |a| + 1, width);
    CellBound(i, j + 1, |a| + 1, width);
    CellBound(i + 1, j + 1, |a| + 1, width);
    assert CellHolds(table, a, b, i + 1, j) && CellHolds(table, a, b, i, j + 1) && CellHolds(table, a, b, i + 1, j + 1);
    RowsFit(a, b);
    var value;
    if a[i] == b[j] {
      value := table[Cell(i + 1, j + 1, width)] + 1;
    } else {
      var below, right := table[Cell(i + 1, j, width)], table[Cell(i, j + 1, width)];
      value := if below >= right then below else right;
    }
    label L:
    table[Cell(i, j, width)] := value;
    forall k: nat, l: nat | k <= |a| && l <= |b| && (k > i || (k == i && l >= j) || l == |b|)
      ensures CellHolds(table, a, b, k, l)
    {
      CellBound(k, l, |a| + 1, width);
      if k != i || l != j {
        assert old@L(CellHolds(table, a, b, k, l));
        CellsDiffer(i, j, k, l, width);
      }
    }
  }

  lemma RowsFit(a: seq<string>, b: seq<string>)
    requires (|a| + 1) * (|b| + 1) <= CELLS
    ensures |a| < CELLS && |b| < CELLS
  {
    assert (|a| + 1) * (|b| + 1) >= |a| + 1 by { assert (|a| + 1) * |b| >= 0; }
    assert (|a| + 1) * (|b| + 1) >= |b| + 1 by { assert |a| * (|b| + 1) >= 0; }
  }

  // The table, filled from the last row up and from the last column left.
  method FillTable(a: seq<string>, b: seq<string>) returns (table: array<uint32>)
    requires (|a| + 1) * (|b| + 1) <= CELLS
    ensures fresh(table) && table.Length == (|a| + 1) * (|b| + 1) && FilledFrom(table, a, b, 0, 0)
  {
    table := new uint32[(|a| + 1) * (|b| + 1)](_ => 0);
    EmptyTable(table, a, b);
    var i := |a|;
    while i > 0
      invariant 0 <= i <= |a| && FilledFrom(table, a, b, i, 0)
    {
      i := i - 1;
      var j := |b|;
      NextRow(table, a, b, i);
      while j > 0
        invariant 0 <= j <= |b| && FilledFrom(table, a, b, i, j)
      {
        j := j - 1;
        FillCell(table, a, b, i, j);
      }
    }
  }

  lemma EmptyTable(table: array<uint32>, a: seq<string>, b: seq<string>)
    requires table.Length == (|a| + 1) * (|b| + 1) && forall k :: 0 <= k < table.Length ==> table[k] == 0
    ensures FilledFrom(table, a, b, |a|, 0)
  {
    forall i: nat, j: nat | i <= |a| && j <= |b| && (i == |a| || j == |b|) ensures CellHolds(table, a, b, i, j) {
      CellBound(i, j, |a| + 1, |b| + 1);
    }
  }

  lemma NextRow(table: array<uint32>, a: seq<string>, b: seq<string>, i: nat)
    requires table.Length == (|a| + 1) * (|b| + 1) && i < |a| && FilledFrom(table, a, b, i + 1, 0)
    ensures FilledFrom(table, a, b, i, |b|)
  {
    forall k: nat, l: nat | k <= |a| && l <= |b| && (k > i || (k == i && l >= |b|) || l == |b|)
      ensures CellHolds(table, a, b, k, l)
    {
    }
  }

  // -------------------------------------------------------------- the output

  // At most LIMIT bytes of removed and added lines are shown; quote renders one line.
  class TextOutput {
    const quote: string -> string
    var shown: seq<Entry>
    var remaining: nat
    var omitted: bool
    ghost var calls: seq<Entry>      // everything that was to be printed
    ghost var at: seq<nat>           // which of it is shown

    constructor (quote: string -> string)
      ensures Valid() && calls == [] && shown == [] && !omitted && this.quote == quote
    {
      this.quote := quote;
      shown, remaining, omitted, calls, at := [], LIMIT, false, [], [];
    }

    function Rendered(e: Entry): nat {
      match e
      case Unchanged(count) => 0
      case Removed(line) => |quote(line)| + 3
      case Added(line) => |quote(line)| + 3
    }

    function Size(entries: seq<Entry>): nat {
      if entries == [] then 0 else Size(entries[..|entries| - 1]) + Rendered(entries[|entries| - 1])
    }

    // The budget is never exceeded, and the output is marked omitted exactly when what is
    // shown is not everything.
    ghost predicate Valid()
      reads this
    {
      && Size(shown) + remaining == LIMIT && |shown| <= |calls| && (omitted <==> shown != calls)
      && Shows(shown, calls, at)
    }

    function Clipped(text: string): string {
      if |text| > LIMIT then text[..LIMIT] else text
    }

    ghost function Clip(e: Entry): Entry {
      match e
      case Unchanged(count) => e
      case Removed(line) => Removed(if |line| > LIMIT then line[..LIMIT] else line)
      case Added(line) => Added(if |line| > LIMIT then line[..LIMIT] else line)
    }

    // Before call k the first i of these places were reached.
    ghost predicate Reached(at: seq<nat>, k: nat, i: nat) {
      i <= |at| && (i > 0 ==> at[i - 1] < k) && (i < |at| ==> k < at[i])
    }

    // Call k does not fit what the calls shown before it leave.
    ghost predicate LeftOut(shown: seq<Entry>, calls: seq<Entry>, at: seq<nat>, k: nat)
      requires k < |calls| && |at| == |shown|
    {
      exists i: nat {:trigger Reached(at, k, i)} ::
        Reached(at, k, i) && Rendered(Clip(calls[k])) > LIMIT - Size(shown[..i])
    }

    ghost predicate ShownAt(shown: seq<Entry>, calls: seq<Entry>, at: seq<nat>, i: nat)
      requires |at| == |shown| && i < |at|
    {
      && at[i] < |calls| && shown[i] == Clip(calls[at[i]])
      && forall j {:trigger at[j]} :: i < j < |at| ==> at[i] < at[j]
    }

    // What is shown are the calls at these places, clipped, in order; every other one is left
    // out because it did not fit any more when its turn came.
    ghost predicate Shows(shown: seq<Entry>, calls: seq<Entry>, at: seq<nat>) {
      && |at| == |shown| && (forall i: nat {:trigger ShownAt(shown, calls, at, i)} ::
                               i < |at| ==> ShownAt(shown, calls, at, i))
      && forall k: nat {:trigger LeftOut(shown, calls, at, k)} ::
           k < |calls| && k !in at ==> LeftOut(shown, calls, at, k)
    }

    lemma ShowsOne(shown: seq<Entry>, calls: seq<Entry>, at: seq<nat>, e: Entry)
      requires Shows(shown, calls, at)
      ensures Shows(shown + [Clip(e)], calls + [e], at + [|calls|])
    {
      var shown', calls', at' := shown + [Clip(e)], calls + [e], at + [|calls|];
      forall i: nat | i < |at'| ensures ShownAt(shown', calls', at', i) {
        assert i < |at| ==> ShownAt(shown, calls, at, i);
        forall j | i < j < |at'| ensures at'[i] < at'[j] {
          assert j < |at| ==> at'[j] == at[j];
        }
      }
      forall k: nat | k < |calls'| && k !in at' ensures LeftOut(shown', calls', at', k) {
        assert k != |calls| && k !in at by {
          assert at'[|at|] == |calls| && forall x :: x in at ==> x in at';
        }
        assert LeftOut(shown, calls, at, k);
        var i: nat :| Reached(at, k, i) && Rendered(Clip(calls[k])) > LIMIT - Size(shown[..i]);
        assert shown'[..i] == shown[..i] && Reached(at', k, i);
      }
    }

    lemma ShowsNot(shown: seq<Entry>, calls: seq<Entry>, at: seq<nat>, e: Entry)
      requires Shows(shown, calls, at) && Rendered(Clip(e)) > LIMIT - Size(shown)
      ensures Shows(shown, calls + [e], at)
    {
      var calls' := calls + [e];
      forall i: nat | i < |at| ensures ShownAt(shown, calls', at, i) {
        assert ShownAt(shown, calls, at, i);
      }
      forall k: nat | k < |calls'| && k !in at ensures LeftOut(shown, calls', at, k) {
        if k < |calls| {
          assert LeftOut(shown, calls, at, k);
          var i: nat :| Reached(at, k, i) && Rendered(Clip(calls[k])) > LIMIT - Size(shown[..i]);
          assert Rendered(Clip(calls'[k])) > LIMIT - Size(shown[..i]);
        } else {
          assert |at| > 0 ==> ShownAt(shown, calls, at, |at| - 1);
          assert shown[..|at|] == shown && Reached(at, k, |at|);
        }
      }
    }

    // Where every line is short and all of it fits, everything is shown.
    lemma {:induction false} AllFits(shown: seq<Entry>, calls: seq<Entry>, at: seq<nat>, n: nat)
      requires Shows(shown, calls, at) && Size(calls) <= LIMIT && n <= |calls|
      requires forall e :: e in calls ==> Clip(e) == e
      ensures n <= |at| && (forall i :: 0 <= i < n ==> at[i] == i) && shown[..n] == calls[..n]
    {
      if n > 0 {
        AllFits(shown, calls, at, n - 1);
        NextFits(shown, calls, at, n - 1);
        assert shown[..n] == shown[..n - 1] + [shown[n - 1]] && calls[..n] == calls[..n - 1] + [calls[n - 1]];
      }
    }

    lemma NextFits(shown: seq<Entry>, calls: seq<Entry>, at: seq<nat>, k: nat)
      requires Shows(shown, calls, at) && Size(calls) <= LIMIT && k < |calls|
      requires forall e :: e in calls ==> Clip(e) == e
      requires k <= |at| && (forall i :: 0 <= i < k ==> at[i] == i) && shown[..k] == calls[..k]
      ensures k < |at| && at[k] == k && shown[k] == calls[k]
    {
      SizeGrows(calls, k);
      assert calls[k] in calls;
      forall i: nat | i < |at| ensures ShownAt(shown, calls, at, i) && (i >= k ==> at[i] >= k) {
        assert ShownAt(shown, calls, at, i);
        assert k > 0 && i >= k ==> ShownAt(shown, calls, at, k - 1);
      }
      assert k < |at| ==> ShownAt(shown, calls, at, k);
      if k !in at {
        assert LeftOut(shown, calls, at, k);
        var i: nat :| Reached(at, k, i) && Rendered(Clip(calls[k])) > LIMIT - Size(shown[..i]);
        PlaceIs(at, k, i);
      } else {
        var i :| 0 <= i < |at| && at[i] == k;
      }
    }

    lemma PlaceIs(at: seq<nat>, k: nat, i: nat)
      requires Reached(at, k, i) && k <= |at| && (forall j :: 0 <= j < k ==> at[j] == j)
      requires forall j :: k <= j < |at| ==> at[j] >= k
      ensures i == k
    {
    }

    lemma {:induction false} SizeGrows(entries: seq<Entry>, k: nat)
      requires k < |entries|
      ensures Size(entries[..k]) + Rendered(entries[k]) <= Size(entries)
    {
      var init := entries[..|entries| - 1];
      if k < |init| {
        SizeGrows(init, k);
        assert init[..k] == entries[..k];
      }
    }

    // So nothing is marked omitted then.
    lemma FitsMeansAll()
      requires Valid() && Size(calls) <= LIMIT && forall e :: e in calls ==> Clip(e) == e
      ensures shown == calls && !omitted
    {
      AllFits(shown, calls, at, |calls|);
    }

    method Line(removed: bool, text: string)
      requires Valid()
      modifies this`shown, this`remaining, this`omitted, this`calls, this`at
      ensures Valid() && calls == old(calls) + [if removed then Removed(text) else Added(text)]
      ensures var value := |quote(Clipped(text))| + 3;
              if value > old(remaining) then shown == old(shown) && remaining == old(remaining)
              else
                && shown == old(shown) + [if removed then Removed(Clipped(text)) else Added(Clipped(text))]
                && remaining == old(remaining) - value
    {
      var line := text;
      ghost var call := if removed then Removed(text) else Added(text);
      if |line| > LIMIT {
        line := line[..LIMIT];
        omitted := true;
      }
      var value := |quote(line)| + 3;
      if value > remaining {
        ShowsNot(shown, calls, at, call);
        omitted := true;
        calls := calls + [call];
        return;
      }
      var entry := if removed then Removed(line) else Added(line);
      ShowsOne(shown, calls, at, call);
      assert (shown + [entry])[..|shown|] == shown;
      AppendBoth(shown, calls, entry, call);
      at := at + [|calls|];
      shown := shown + [entry];
      calls := calls + [call];
      remaining := remaining - value;
    }

    method Flush(common: nat)
      requires Valid()
      modifies this`shown, this`calls, this`at
      ensures Valid() && calls == old(calls) + (if common > 0 then [Unchanged(common)] else [])
      ensures shown == old(shown) + (if common > 0 then [Unchanged(common)] else [])
    {
      if common > 0 {
        assert (shown + [Unchanged(common)])[..|shown|] == shown;
        AppendBoth(shown, calls, Unchanged(common), Unchanged(common));
        ShowsOne(shown, calls, at, Unchanged(common));
        at := at + [|calls|];
        shown := shown + [Unchanged(common)];
        calls := calls + [Unchanged(common)];
      }
    }
  }

  lemma AppendBoth(a: seq<Entry>, b: seq<Entry>, e: Entry, f: Entry)
    ensures a + [e] == b + [f] <==> a == b && e == f
  {
    if a + [e] == b + [f] {
      assert a == (a + [e])[..|a|] && b == (b + [f])[..|b|];
      assert e == (a + [e])[|a|] && f == (b + [f])[|b|];
    }
  }

  // The script so far covers the first i lines before and j lines after; the last common
  // of both are equal and still to be reported.
  ghost predicate Covers(script: seq<Entry>, common: nat, a: seq<string>, b: seq<string>, i: nat, j: nat) {
    && i <= |a| && j <= |b| && common <= i && common <= j
    && Replay(script, a[..i - common]) == Some(b[..j - common])
    && a[i - common..i] == b[j - common..j]
  }

  lemma CoversKept(script: seq<Entry>, common: nat, a: seq<string>, b: seq<string>, i: nat, j: nat)
    requires Covers(script, common, a, b, i, j) && i < |a| && j < |b| && a[i] == b[j]
    ensures Covers(script, common + 1, a, b, i + 1, j + 1)
  {
    assert a[i - common..i + 1] == a[i - common..i] + [a[i]];
    assert b[j - common..j + 1] == b[j - common..j] + [b[j]];
  }

  lemma CoversFlushed(script: seq<Entry>, common: nat, a: seq<string>, b: seq<string>, i: nat, j: nat)
    requires Covers(script, common, a, b, i, j) && common > 0
    ensures Covers(script + [Unchanged(common)], 0, a, b, i, j)
    ensures Kept(script + [Unchanged(common)]) == Kept(script) + common
  {
    ReplayNext(script, Unchanged(common));
    assert a[..i][..i - common] == a[..i - common] && a[..i][i - common..] == a[i - common..i];
    assert b[..j] == b[..j - common] + b[j - common..j];
  }

  lemma CoversRemoved(script: seq<Entry>, a: seq<string>, b: seq<string>, i: nat, j: nat)
    requires Covers(script, 0, a, b, i, j) && i < |a|
    ensures Covers(script + [Removed(a[i])], 0, a, b, i + 1, j) && Kept(script + [Removed(a[i])]) == Kept(script)
  {
    ReplayNext(script, Removed(a[i]));
    assert a[..i + 1][..i] == a[..i];
  }

  lemma CoversAdded(script: seq<Entry>, a: seq<string>, b: seq<string>, i: nat, j: nat)
    requires Covers(script, 0, a, b, i, j) && j < |b|
    ensures Covers(script + [Added(b[j])], 0, a, b, i, j + 1) && Kept(script + [Added(b[j])]) == Kept(script)
  {
    ReplayNext(script, Added(b[j]));
    assert b[..j + 1] == b[..j] + [b[j]];
  }

  // The script so far, with the lines to be counted, goes on as the preferred alignment does.
  ghost predicate OnBest(script: seq<Entry>, common: nat, a: seq<string>, b: seq<string>, i: nat, j: nat) {
    && i <= |a| && j <= |b| && Merged(script) && (common > 0 ==> EndsOpen(script))
    && Steps(script) + Zeros(common) + Best(a, b, i, j) == Best(a, b, 0, 0)
  }

  lemma {:induction false} ZerosMore(count: nat)
    ensures Zeros(count + 1) == Zeros(count) + [0]
  {
    if count > 0 {
      ZerosMore(count - 1);
    }
  }

  lemma StepsNext(script: seq<Entry>, e: Entry)
    ensures Steps(script + [e]) == Steps(script) + StepsOf(e)
    ensures Merged(script) && (e.Unchanged? ==> EndsOpen(script) && e.count > 0) ==> Merged(script + [e])
  {
    assert (script + [e])[..|script|] == script;
  }

  lemma JoinSteps(x: seq<nat>, y: seq<nat>, z: seq<nat>)
    ensures x + [] + (y + z) == (x + y) + [] + z && x + (y + z) == x + y + z
  {
  }

  lemma BestKept(script: seq<Entry>, common: nat, a: seq<string>, b: seq<string>, i: nat, j: nat)
    requires OnBest(script, common, a, b, i, j) && EndsOpen(script) && i < |a| && j < |b| && a[i] == b[j]
    ensures OnBest(script, common + 1, a, b, i + 1, j + 1)
  {
    ZerosMore(common);
    JoinSteps(Steps(script) + Zeros(common), [0], Best(a, b, i + 1, j + 1));
    JoinSteps(Steps(script), Zeros(common), [0]);
  }

  lemma BestFlushed(script: seq<Entry>, common: nat, a: seq<string>, b: seq<string>, i: nat, j: nat)
    requires OnBest(script, common, a, b, i, j) && common > 0
    ensures OnBest(script + [Unchanged(common)], 0, a, b, i, j)
  {
    StepsNext(script, Unchanged(common));
    assert Steps(script) + Zeros(common) + [] == Steps(script) + Zeros(common);
  }

  // A line is given up where the alignment gives it up.
  lemma BestGiven(script: seq<Entry>, e: Entry, step: nat, a: seq<string>, b: seq<string>, i: nat, j: nat, k: nat,
          l: nat)
    requires OnBest(script, 0, a, b, i, j) && k <= |a| && l <= |b| && StepsOf(e) == [step] && !e.Unchanged?
    requires Best(a, b, i, j) == [step] + Best(a, b, k, l)
    ensures OnBest(script + [e], 0, a, b, k, l) && EndsOpen(script + [e])
  {
    StepsNext(script, e);
    JoinSteps(Steps(script), [step], Best(a, b, k, l));
  }

  // Both sides agree: the line is to be counted.
  lemma KeepLine(script: seq<Entry>, common: nat, a: seq<string>, b: seq<string>, i: nat, j: nat)
    requires Covers(script, common, a, b, i, j) && OnBest(script, common, a, b, i, j) && EndsOpen(script)
    requires i < |a| && j < |b| && a[i] == b[j]
    ensures Covers(script, common + 1, a, b, i + 1, j + 1) && OnBest(script, common + 1, a, b, i + 1, j + 1)
    ensures Lcs(a, b, i, j) == Lcs(a, b, i + 1, j + 1) + 1
  {
    CoversKept(script, common, a, b, i, j);
    BestKept(script, common, a, b, i, j);
  }

  // What the emitter keeps from one step to the next.
  ghost predicate Emitting(script: seq<Entry>, common: nat, a: seq<string>, b: seq<string>, i: nat, j: nat, most: nat) {
    && Covers(script, common, a, b, i, j) && OnBest(script, common, a, b, i, j) && EndsOpen(script)
    && Kept(script) + common + Lcs(a, b, i, j) == most
  }

  // One step: a line both sides have is counted; otherwise what was counted is reported, and
  // one line is given up.
  method EmitStep(out: TextOutput, common: nat, a: seq<string>, b: seq<string>, table: array<uint32>, i: nat, j: nat,
          ghost most: nat) returns (i': nat, j': nat, common': nat)
    requires table.Length == (|a| + 1) * (|b| + 1) && FilledFrom(table, a, b, 0, 0)
    requires i < |a| && j < |b| && out.Valid() && Emitting(out.calls, common, a, b, i, j, most)
    modifies out
    ensures out.Valid() && Emitting(out.calls, common', a, b, i', j', most)
    ensures i <= i' <= |a| && j <= j' <= |b| && i' + j' > i + j
  {
    if a[i] == b[j] {
      KeepLine(out.calls, common, a, b, i, j);
      return i + 1, j + 1, common + 1;
    }
    EmitFlush(out, common, a, b, i, j);
    i', j' := EmitChange(out, a, b, table, i, j);
    common' := 0;
  }

  // emitAlignedText, while both sides have lines.
  method EmitBoth(out: TextOutput, a: seq<string>, b: seq<string>, table: array<uint32>) returns (i: nat, j: nat)
    requires table.Length == (|a| + 1) * (|b| + 1) && FilledFrom(table, a, b, 0, 0)
    requires out.Valid() && out.calls == []
    modifies out
    ensures out.Valid() && Covers(out.calls, 0, a, b, i, j) && (i == |a| || j == |b|)
    ensures Kept(out.calls) == Lcs(a, b, 0, 0) && OnBest(out.calls, 0, a, b, i, j)
  {
    i, j := 0, 0;
    var common := 0;
    ghost var most := Lcs(a, b, 0, 0);
    NothingYet(a, b);
    while i < |a| && j < |b|
      invariant i <= |a| && j <= |b| && out.Valid() && Emitting(out.calls, common, a, b, i, j, most)
      decreases |a| - i + |b| - j
    {
      i, j, common := EmitStep(out, common, a, b, table, i, j, most);
    }
    EmitFlush(out, common, a, b, i, j);
  }

  lemma NothingYet(a: seq<string>, b: seq<string>)
    ensures Emitting([], 0, a, b, 0, 0, Lcs(a, b, 0, 0))
  {
    assert [] + Zeros(0) + Best(a, b, 0, 0) == Best(a, b, 0, 0);
  }

  method EmitFlush(out: TextOutput, common: nat, ghost a: seq<string>, ghost b: seq<string>, ghost i: nat, ghost j: nat)
    requires out.Valid() && Covers(out.calls, common, a, b, i, j) && OnBest(out.calls, common, a, b, i, j)
    modifies out
    ensures out.Valid() && Covers(out.calls, 0, a, b, i, j) && Kept(out.calls) == old(Kept(out.calls)) + common
    ensures OnBest(out.calls, 0, a, b, i, j)
  {
    if common > 0 {
      BestFlushed(out.calls, common, a, b, i, j);
      CoversFlushed(out.calls, common, a, b, i, j);
    }
    out.Flush(common);
    assert common == 0 ==> out.calls == old(out.calls);
  }

  lemma RemovedStep(script: seq<Entry>, a: seq<string>, b: seq<string>, i: nat, j: nat)
    requires Covers(script, 0, a, b, i, j) && OnBest(script, 0, a, b, i, j) && i < |a| && j < |b| && a[i] != b[j]
    requires Lcs(a, b, i + 1, j) >= Lcs(a, b, i, j + 1)
    ensures var more := script + [Removed(a[i])];
            Covers(more, 0, a, b, i + 1, j) && OnBest(more, 0, a, b, i + 1, j) && EndsOpen(more)
            && Kept(more) == Kept(script) && Lcs(a, b, i + 1, j) == Lcs(a, b, i, j)
  {
    CoversRemoved(script, a, b, i, j);
    BestGiven(script, Removed(a[i]), 1, a, b, i, j, i + 1, j);
  }

  lemma AddedStep(script: seq<Entry>, a: seq<string>, b: seq<string>, i: nat, j: nat)
    requires Covers(script, 0, a, b, i, j) && OnBest(script, 0, a, b, i, j) && i < |a| && j < |b| && a[i] != b[j]
    requires Lcs(a, b, i + 1, j) < Lcs(a, b, i, j + 1)
    ensures var more := script + [Added(b[j])];
            Covers(more, 0, a, b, i, j + 1) && OnBest(more, 0, a, b, i, j + 1) && EndsOpen(more)
            && Kept(more) == Kept(script) && Lcs(a, b, i, j + 1) == Lcs(a, b, i, j)
  {
    CoversAdded(script, a, b, i, j);
    BestGiven(script, Added(b[j]), 2, a, b, i, j, i, j + 1);
  }

  // One line is given up, on the side that costs nothing.
  method EmitChange(out: TextOutput, a: seq<string>, b: seq<string>, table: array<uint32>, i: nat,
          j: nat) returns (i': nat, j': nat)
    requires table.Length == (|a| + 1) * (|b| + 1) && FilledFrom(table, a, b, 0, 0)
    requires i < |a| && j < |b| && a[i] != b[j] && out.Valid() && Covers(out.calls, 0, a, b, i, j)
    requires OnBest(out.calls, 0, a, b, i, j)
    modifies out
    ensures out.Valid() && Covers(out.calls, 0, a, b, i', j') && Kept(out.calls) == old(Kept(out.calls))
    ensures OnBest(out.calls, 0, a, b, i', j') && EndsOpen(out.calls)
    ensures Lcs(a, b, i', j') == Lcs(a, b, i, j) && i <= i' && j <= j' && i' + j' == i + j + 1
  {
    var width := |b| + 1;
    CellBound(i + 1, j, |a| + 1, width);
    CellBound(i, j + 1, |a| + 1, width);
    assert CellHolds(table, a, b, i + 1, j) && CellHolds(table, a, b, i, j + 1);
    if table[Cell(i + 1, j, width)] >= table[Cell(i, j + 1, width)] {
      RemovedStep(out.calls, a, b, i, j);
      out.Line(true, a[i]);
      i', j' := i + 1, j;
    } else {
      AddedStep(out.calls, a, b, i, j);
      out.Line(false, b[j]);
      i', j' := i, j + 1;
    }
  }

  function Removals(lines: seq<string>): (r: seq<Entry>)
    ensures |r| == |lines|
  {
    seq(|lines|, i requires 0 <= i < |lines| => Removed(lines[i]))
  }

  function Additions(lines: seq<string>): (r: seq<Entry>)
    ensures |r| == |lines|
  {
    seq(|lines|, i requires 0 <= i < |lines| => Added(lines[i]))
  }

  method EmitRemovals(out: TextOutput, a: seq<string>, ghost b: seq<string>, i: nat, ghost j: nat)
    requires out.Valid() && Covers(out.calls, 0, a, b, i, j)
    modifies out
    ensures out.Valid() && Covers(out.calls, 0, a, b, |a|, j) && Kept(out.calls) == old(Kept(out.calls))
    ensures out.calls == old(out.calls) + Removals(a[i..])
  {
    for k := i to |a|
      invariant out.Valid() && Covers(out.calls, 0, a, b, k, j) && Kept(out.calls) == old(Kept(out.calls))
      invariant out.calls == old(out.calls) + Removals(a[i..k])
    {
      CoversRemoved(out.calls, a, b, k, j);
      RemovalsNext(old(out.calls), a, i, k);
      out.Line(true, a[k]);
    }
    assert a[i..|a|] == a[i..];
  }

  lemma RemovalsNext(script: seq<Entry>, a: seq<string>, i: nat, k: nat)
    requires i <= k < |a|
    ensures script + Removals(a[i..k]) + [Removed(a[k])] == script + Removals(a[i..k + 1])
  {
    assert a[i..k + 1] == a[i..k] + [a[k]];
    assert Removals(a[i..k + 1]) == Removals(a[i..k]) + [Removed(a[k])];
  }

  method EmitAdditions(out: TextOutput, ghost a: seq<string>, b: seq<string>, j: nat)
    requires out.Valid() && Covers(out.calls, 0, a, b, |a|, j)
    modifies out
    ensures out.Valid() && Covers(out.calls, 0, a, b, |a|, |b|) && Kept(out.calls) == old(Kept(out.calls))
    ensures out.calls == old(out.calls) + Additions(b[j..])
  {
    for k := j to |b|
      invariant out.Valid() && Covers(out.calls, 0, a, b, |a|, k) && Kept(out.calls) == old(Kept(out.calls))
      invariant out.calls == old(out.calls) + Additions(b[j..k])
    {
      CoversAdded(out.calls, a, b, |a|, k);
      AdditionsNext(old(out.calls), b, j, k);
      out.Line(false, b[k]);
    }
    assert b[j..|b|] == b[j..];
  }

  lemma AdditionsNext(script: seq<Entry>, b: seq<string>, j: nat, k: nat)
    requires j <= k < |b|
    ensures script + Additions(b[j..k]) + [Added(b[k])] == script + Additions(b[j..k + 1])
  {
    assert b[j..k + 1] == b[j..k] + [b[k]];
    assert Additions(b[j..k + 1]) == Additions(b[j..k]) + [Added(b[k])];
  }

  // The lines left over on either side: what is left before, then what is left after.
  method EmitRest(out: TextOutput, a: seq<string>, b: seq<string>, i: nat, j: nat)
    requires out.Valid() && Covers(out.calls, 0, a, b, i, j)
    modifies out
    ensures out.Valid() && Replay(out.calls, a) == Some(b) && Kept(out.calls) == old(Kept(out.calls))
    ensures out.calls == old(out.calls) + Removals(a[i..]) + Additions(b[j..])
  {
    EmitRemovals(out, a, b, i, j);
    EmitAdditions(out, a, b, j);
    assert a[..|a|] == a && b[..|b|] == b;
  }

  // What is left over is what the alignment gives up at the end.
  lemma {:induction false} RestIsBest(script: seq<Entry>, a: seq<string>, b: seq<string>, i: nat, j: nat)
    requires OnBest(script, 0, a, b, i, j) && (i == |a| || j == |b|)
    ensures OnBest(script + Removals(a[i..]) + Additions(b[j..]), 0, a, b, |a|, |b|)
    decreases |a| - i + |b| - j
  {
    if i < |a| {
      BestGiven(script, Removed(a[i]), 1, a, b, i, j, i + 1, j);
      RestIsBest(script + [Removed(a[i])], a, b, i + 1, j);
      RemovalsFirst(script, a, i);
    } else if j < |b| {
      BestGiven(script, Added(b[j]), 2, a, b, i, j, i, j + 1);
      RestIsBest(script + [Added(b[j])], a, b, i, j + 1);
      assert Removals(a[i..]) == [];
      AdditionsFirst(script, b, j);
    } else {
      assert script + Removals(a[i..]) + Additions(b[j..]) == script;
    }
  }

  lemma RemovalsFirst(script: seq<Entry>, a: seq<string>, i: nat)
    requires i < |a|
    ensures script + [Removed(a[i])] + Removals(a[i + 1..]) == script + Removals(a[i..])
  {
    assert a[i..] == [a[i]] + a[i + 1..];
    assert Removals(a[i..]) == [Removed(a[i])] + Removals(a[i + 1..]);
  }

  lemma AdditionsFirst(script: seq<Entry>, b: seq<string>, j: nat)
    requires j < |b|
    ensures script + [Added(b[j])] + [] + Additions(b[j + 1..]) == script + [] + Additions(b[j..])
  {
    assert b[j..] == [b[j]] + b[j + 1..];
    assert Additions(b[j..]) == [Added(b[j])] + Additions(b[j + 1..]);
  }

  // printAlignedText. Replaying what it prints turns before into after; within the cell
  // budget it keeps as many lines as any script can, and where several do it prefers keeping
  // to removing and removing to adding; over it, the whole of both sides is printed, after a
  // notice. What is shown are the clipped calls that fit the byte budget when their turn comes.
  method PrintAligned(out: TextOutput, before: seq<string>, after: seq<string>) returns (aligned: bool)
    requires out.Valid() && out.calls == [] && out.shown == []
    modifies out
    ensures aligned <==> (|before| + 1) * (|after| + 1) <= CELLS
    ensures Replay(out.calls, before) == Some(after)
    ensures aligned ==> Kept(out.calls) == Lcs(before, after, 0, 0)
    ensures aligned ==> Preferred(out.calls, before, after) && Merged(out.calls)
    ensures !aligned ==> out.calls == Removals(before) + Additions(after)
    ensures out.Shows(out.shown, out.calls, out.at) && out.Size(out.shown) <= LIMIT
    ensures out.omitted <==> out.shown != out.calls
  {
    aligned := (|before| + 1) * (|after| + 1) <= CELLS;
    if !aligned {
      EmitRest(out, before, after, 0, 0);
      assert before[0..] == before && after[0..] == after;
      return;
    }
    var table := FillTable(before, after);
    var i, j := EmitBoth(out, before, after, table);
    RestIsBest(out.calls, before, after, i, j);
    EmitRest(out, before, after, i, j);
    AllIsBest(out.calls, before, after);
  }

  lemma AllIsBest(script: seq<Entry>, before: seq<string>, after: seq<string>)
    requires OnBest(script, 0, before, after, |before|, |after|) && Kept(script) == Lcs(before, after, 0, 0)
    ensures Preferred(script, before, after) && Merged(script)
  {
    assert Steps(script) + [] + [] == Steps(script);
    BestIsPreferred(script, before, after);
  }
}
