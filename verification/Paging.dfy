/** Paging over two occurrence streams (internal/cli/trace_occurrences_output.go, internal/traceoccurrence/page.go). */
module Paging {
  import opened Ids
  import opened Utf8

  datatype PageError = EmptyPattern | InvalidLimit | InvalidAfter

  // ---------------------------------------------------------- one stream

  predicate MatchesAt(data: Bytes, pattern: Bytes, s: int) {
    0 <= s <= |data| - |pattern| && data[s..s + |pattern|] == pattern
  }

  // Every start from an offset on, in order; occurrences may overlap.
  function StartsFrom(data: Bytes, pattern: Bytes, from: nat): seq<nat>
    decreases |data| - from
  {
    if from > |data| - |pattern| || from >= |data| then []
    else if MatchesAt(data, pattern, from) then [from] + StartsFrom(data, pattern, from + 1)
    else StartsFrom(data, pattern, from + 1)
  }

  lemma {:induction false} StartsExact(data: Bytes, pattern: Bytes, from: nat, s: nat)
    requires pattern != []
    ensures s in StartsFrom(data, pattern, from) <==> s >= from && MatchesAt(data, pattern, s)
    decreases |data| - from
  {
    if from <= |data| - |pattern| {
      StartsExact(data, pattern, from + 1, s);
    }
  }

  lemma {:induction false} StartsAscend(data: Bytes, pattern: Bytes, from: nat)
    requires pattern != []
    ensures Increasing(StartsFrom(data, pattern, from))
    decreases |data| - from
  {
    if from <= |data| - |pattern| {
      var rest := StartsFrom(data, pattern, from + 1);
      StartsAscend(data, pattern, from + 1);
      forall j | 0 <= j < |rest| ensures rest[j] > from {
        StartsExact(data, pattern, from + 1, rest[j]);
      }
    }
  }

  // Starting again after the k-th start gives the rest of the list.
  lemma {:induction false} StartsAfter(data: Bytes, pattern: Bytes, from: nat, k: nat)
    requires pattern != [] && k < |StartsFrom(data, pattern, from)|
    ensures StartsFrom(data, pattern, StartsFrom(data, pattern, from)[k] + 1)
              == StartsFrom(data, pattern, from)[k + 1..]
    decreases |data| - from
  {
    var rest := StartsFrom(data, pattern, from + 1);
    if MatchesAt(data, pattern, from) {
      if k > 0 {
        StartsAfter(data, pattern, from + 1, k - 1);
        assert ([from] + rest)[k + 1..] == rest[k..];
      }
    } else {
      StartsAfter(data, pattern, from + 1, k);
    }
  }

  function First<T>(s: seq<T>, limit: nat): seq<T> {
    if |s| <= limit then s else s[..limit]
  }

  // traceoccurrence.Page: the first limit starts after an offset, and whether there are more.
  method Page(data: Bytes, pattern: Bytes, after: int, limit: int) returns (res: Result<(seq<nat>, bool), PageError>)
    ensures res.Success? <==> pattern != [] && limit > 0 && after >= -1
    ensures res.Failure? ==>
              res.error == if pattern == [] then EmptyPattern else if limit <= 0 then InvalidLimit else InvalidAfter
    ensures res.Success? ==> res.value.0 == First(StartsFrom(data, pattern, after + 1), limit)
    ensures res.Success? ==> (res.value.1 <==> |StartsFrom(data, pattern, after + 1)| > limit)
  {
    if pattern == [] {
      return Failure(EmptyPattern);
    }
    if limit <= 0 {
      return Failure(InvalidLimit);
    }
    if after < -1 {
      return Failure(InvalidAfter);
    }
    if |pattern| > |data| || after >= |data| - 1 {
      return Success(([], false));
    }
    var first, last := after + 1, |data| - |pattern|;
    if first > last {
      return Success(([], false));
    }
    var starts, more := Scan(data, pattern, first, last, limit);
    res := Success((starts, more));
  }

  method Scan(data: Bytes, pattern: Bytes, first: nat, last: nat, limit: nat) returns (starts: seq<nat>, more: bool)
    requires pattern != [] && last == |data| - |pattern| && first <= last
    ensures starts == First(StartsFrom(data, pattern, first), limit)
    ensures more <==> |StartsFrom(data, pattern, first)| > limit
  {
    starts := [];
    ghost var all := StartsFrom(data, pattern, first);
    var offset := first;
    while offset <= last
      invariant first <= offset && |starts| <= limit
      invariant all == starts + StartsFrom(data, pattern, offset)
    {
      StartsNext(data, pattern, offset);
      if data[offset..offset + |pattern|] == pattern {
        if |starts| == limit {
          return starts, true;
        }
        starts := starts + [offset];
      }
      offset := offset + 1;
    }
    more := false;
  }

  lemma StartsNext(data: Bytes, pattern: Bytes, from: nat)
    requires pattern != [] && from <= |data| - |pattern|
    ensures StartsFrom(data, pattern, from) ==
            (if data[from..from + |pattern|] == pattern then [from] else []) + StartsFrom(data, pattern, from + 1)
  {
  }

  // ------------------------------------------------------ the two streams

  datatype View = SNAPSHOT | CURRENT | BOTH
  datatype Stream = OfSnapshot | OfCurrent
  datatype Entry = Entry(stream: Stream, start: nat)
  datatype Input = Input(snapshot: Bytes, current: Bytes, pattern: Bytes)

  function Entries(stream: Stream, starts: seq<nat>): (r: seq<Entry>)
    ensures |r| == |starts| && forall i :: 0 <= i < |r| ==> r[i] == Entry(stream, starts[i])
  {
    seq(|starts|, i requires 0 <= i < |starts| => Entry(stream, starts[i]))
  }

  function SnapshotFrom(input: Input, from: nat): seq<Entry> {
    Entries(OfSnapshot, StartsFrom(input.snapshot, input.pattern, from))
  }

  function CurrentFrom(input: Input, from: nat): seq<Entry> {
    Entries(OfCurrent, StartsFrom(input.current, input.pattern, from))
  }

  // The snapshot's entries from an offset on, then the current content's if the view has it.
  function SnapshotThenCurrent(input: Input, view: View, from: nat): seq<Entry> {
    if view == SNAPSHOT then SnapshotFrom(input, from) else SnapshotFrom(input, from) + CurrentFrom(input, 0)
  }

  // Every entry of the view.
  function All(input: Input, view: View): seq<Entry> {
    if view == CURRENT then CurrentFrom(input, 0) else SnapshotThenCurrent(input, view, 0)
  }

  // What is still to be listed after the cursor's entry.
  function Remaining(input: Input, view: View, previous: Option<Entry>): seq<Entry> {
    match previous
    case None => All(input, view)
    case Some(Entry(OfSnapshot, start)) => SnapshotThenCurrent(input, view, start + 1)
    case Some(Entry(OfCurrent, start)) => CurrentFrom(input, start + 1)
  }

  // validTraceOccurrencesLast: the cursor names an occurrence of a stream of this view.
  predicate ValidLast(input: Input, view: View, last: Entry) {
    && !(last.stream == OfSnapshot && view == CURRENT) && !(last.stream == OfCurrent && view == SNAPSHOT)
    && MatchesAt(if last.stream == OfCurrent then input.current else input.snapshot, input.pattern, last.start)
  }

  // collectTraceOccurrences: one page of what remains, and whether more would follow.
  method Collect(input: Input, view: View, limit: nat, previous: Option<Entry>) returns (res: Result<(seq<Entry>,
          bool), PageError>)
    requires limit > 0
    requires previous.Some? ==> ValidLast(input, view, previous.value)
    ensures res.Success? <==> input.pattern != []
    ensures res.Failure? ==> res.error == EmptyPattern
    ensures res.Success? ==> res.value.0 == First(Remaining(input, view, previous), limit)
    ensures res.Success? ==> (res.value.1 <==> |Remaining(input, view, previous)| > limit)
  {
    var entries: seq<Entry> := [];
    ghost var rest := Remaining(input, view, previous);
    ghost var snap: seq<Entry> := [];
    if view != CURRENT && (previous.None? || previous.value.stream == OfSnapshot) {
      var after: int := if previous.Some? then previous.value.start else -1;
      snap := SnapshotFrom(input, after + 1);
      var page := Page(input.snapshot, input.pattern, after, limit);
      if page.Failure? {
        return Failure(page.error);
      }
      entries := Entries(OfSnapshot, page.value.0);
      assert entries == First(snap, limit);
      if page.value.1 || view == SNAPSHOT {
        if view != SNAPSHOT {
          FirstOfMore(snap, CurrentFrom(input, 0), limit);
        }
        return Success((entries, page.value.1));
      }
      assert rest == snap + CurrentFrom(input, 0);
    }
    res := CollectCurrent(input, limit, previous, entries, rest, snap);
  }

  lemma FirstOfMore(a: seq<Entry>, b: seq<Entry>, limit: nat)
    requires |a| > limit
    ensures First(a + b, limit) == First(a, limit) && |a + b| > limit
  {
  }

  // The current content, after the entries that fitted on the page before it.
  method CollectCurrent(input: Input, limit: nat, previous: Option<Entry>, entries: seq<Entry>,
          ghost rest: seq<Entry>, ghost snap: seq<Entry>)
      returns (res: Result<(seq<Entry>, bool), PageError>)
    requires limit > 0 && entries == snap && |entries| <= limit
    requires previous.Some? && previous.value.stream == OfCurrent ==> entries == []
    requires rest == snap + CurrentFrom(input, if previous.Some? && previous.value.stream == OfCurrent then
              previous.value.start + 1 else 0)
    ensures res.Success? <==> input.pattern != []
    ensures res.Failure? ==> res.error == EmptyPattern
    ensures res.Success? ==> res.value.0 == First(rest, limit) && (res.value.1 <==> |rest| > limit)
  {
    var remaining := limit - |entries|;
    if remaining == 0 {
      var lookahead := Page(input.current, input.pattern, -1, 1);
      if lookahead.Failure? {
        return Failure(lookahead.error);
      }
      assert First(rest, limit) == entries;
      return Success((entries, lookahead.value.0 != []));
    }
    var after: int := if previous.Some? && previous.value.stream == OfCurrent then previous.value.start else -1;
    var page := Page(input.current, input.pattern, after, remaining);
    if page.Failure? {
      return Failure(page.error);
    }
    var more := Entries(OfCurrent, page.value.0);
    ghost var cur := CurrentFrom(input, after + 1);
    assert more == First(cur, remaining);
    assert First(rest, limit) == entries + more;
    res := Success((entries + more, page.value.1));
  }

  datatype Document = Document(entries: seq<Entry>, hasMore: bool, next: Option<Entry>)

  // fillTraceOccurrencesPage: with more to come the page is full, so it has a last entry
  // for the cursor, and that cursor is accepted by the next request.
  method FillPage(input: Input, view: View, limit: nat, previous: Option<Entry>)
      returns (res: Result<Document, PageError>)
    requires limit > 0
    requires previous.Some? ==> ValidLast(input, view, previous.value)
    ensures res.Success? <==> input.pattern != []
    ensures res.Failure? ==> res.error == EmptyPattern
    ensures res.Success? ==> res.value == PageOf(input, view, limit, previous)
    ensures res.Success? && res.value.hasMore ==>
              |res.value.entries| == limit && ValidLast(input, view, res.value.next.value)
  {
    var page := Collect(input, view, limit, previous);
    if page.Failure? {
      return Failure(page.error);
    }
    var entries, more := page.value.0, page.value.1;
    if more {
      var last := entries[|entries| - 1];
      RemainingValid(input, view, previous, limit - 1);
      return Success(Document(entries, true, Some(last)));
    }
    res := Success(Document(entries, false, None));
  }

  function PageOf(input: Input, view: View, limit: nat, previous: Option<Entry>): Document
    requires limit > 0
  {
    var rest := Remaining(input, view, previous);
    if |rest| > limit then Document(rest[..limit], true, Some(rest[limit - 1])) else Document(rest, false, None)
  }

  lemma SnapshotValid(input: Input, from: nat, k: nat)
    requires input.pattern != [] && k < |SnapshotFrom(input, from)|
    ensures SnapshotFrom(input, from)[k].stream == OfSnapshot
    ensures MatchesAt(input.snapshot, input.pattern, SnapshotFrom(input, from)[k].start)
  {
    StartsExact(input.snapshot, input.pattern, from, SnapshotFrom(input, from)[k].start);
  }

  lemma CurrentValid(input: Input, from: nat, k: nat)
    requires input.pattern != [] && k < |CurrentFrom(input, from)|
    ensures CurrentFrom(input, from)[k].stream == OfCurrent
    ensures MatchesAt(input.current, input.pattern, CurrentFrom(input, from)[k].start)
  {
    StartsExact(input.current, input.pattern, from, CurrentFrom(input, from)[k].start);
  }

  lemma BothValid(input: Input, view: View, from: nat, k: nat)
    requires input.pattern != [] && view != CURRENT && k < |SnapshotThenCurrent(input, view, from)|
    ensures ValidLast(input, view, SnapshotThenCurrent(input, view, from)[k])
  {
    var snaps := SnapshotFrom(input, from);
    if k < |snaps| {
      SnapshotValid(input, from, k);
    } else {
      CurrentValid(input, 0, k - |snaps|);
    }
  }

  lemma RemainingValid(input: Input, view: View, previous: Option<Entry>, k: nat)
    requires input.pattern != [] && k < |Remaining(input, view, previous)|
    requires previous.Some? ==> ValidLast(input, view, previous.value)
    ensures ValidLast(input, view, Remaining(input, view, previous)[k])
  {
    match previous
    case None => if view == CURRENT { CurrentValid(input, 0, k); } else { BothValid(input, view, 0, k); }
    case Some(Entry(OfSnapshot, start)) => BothValid(input, view, start + 1, k);
    case Some(Entry(OfCurrent, start)) => CurrentValid(input, start + 1, k);
  }

  lemma EntriesDrop(stream: Stream, starts: seq<nat>, k: nat)
    requires k <= |starts|
    ensures Entries(stream, starts[k..]) == Entries(stream, starts)[k..]
  {
  }

  lemma CurrentAfter(input: Input, from: nat, k: nat)
    requires input.pattern != [] && k < |CurrentFrom(input, from)|
    ensures CurrentFrom(input, CurrentFrom(input, from)[k].start + 1) == CurrentFrom(input, from)[k + 1..]
  {
    StartsAfter(input.current, input.pattern, from, k);
    EntriesDrop(OfCurrent, StartsFrom(input.current, input.pattern, from), k + 1);
  }

  lemma SnapshotAfter(input: Input, from: nat, k: nat)
    requires input.pattern != [] && k < |SnapshotFrom(input, from)|
    ensures SnapshotFrom(input, SnapshotFrom(input, from)[k].start + 1) == SnapshotFrom(input, from)[k + 1..]
  {
    StartsAfter(input.snapshot, input.pattern, from, k);
    EntriesDrop(OfSnapshot, StartsFrom(input.snapshot, input.pattern, from), k + 1);
  }

  lemma DropConcat(a: seq<Entry>, b: seq<Entry>, k: nat)
    requires k <= |a + b|
    ensures (a + b)[k..] == if k <= |a| then a[k..] + b else b[k - |a|..]
  {
  }

  // Asking again with the cursor of the k-th entry lists exactly the entries after it.
  lemma RemainingAfter(input: Input, view: View, previous: Option<Entry>, k: nat)
    requires input.pattern != [] && k < |Remaining(input, view, previous)|
    ensures Remaining(input, view, Some(Remaining(input, view, previous)[k]))
              == Remaining(input, view, previous)[k + 1..]
  {
    match previous
    case None => if view == CURRENT { CurrentAfter(input, 0, k); } else { BothAfter(input, view, 0, k); }
    case Some(Entry(OfSnapshot, start)) => BothAfter(input, view, start + 1, k);
    case Some(Entry(OfCurrent, start)) => CurrentAfter(input, start + 1, k);
  }

  lemma BothAfter(input: Input, view: View, from: nat, k: nat)
    requires input.pattern != [] && k < |SnapshotThenCurrent(input, view, from)|
    ensures Remaining(input, view, Some(SnapshotThenCurrent(input, view, from)[k]))
              == SnapshotThenCurrent(input, view, from)[k + 1..]
  {
    var all, snaps := SnapshotThenCurrent(input, view, from), SnapshotFrom(input, from);
    if k < |snaps| {
      assert all[k] == snaps[k];
      SnapshotValid(input, from, k);
      SnapshotAfter(input, from, k);
      AfterSnapshot(input, view, from, k, snaps[k].start);
      RemainingOfSnapshot(input, view, snaps[k]);
    } else {
      var curs := CurrentFrom(input, 0);
      assert all[k] == curs[k - |snaps|];
      CurrentValid(input, 0, k - |snaps|);
      DropConcat(snaps, curs, k + 1);
      CurrentAfter(input, 0, k - |snaps|);
      RemainingOfCurrent(input, view, curs[k - |snaps|]);
    }
  }

  lemma RemainingOfSnapshot(input: Input, view: View, e: Entry)
    requires e.stream == OfSnapshot
    ensures Remaining(input, view, Some(e)) == SnapshotThenCurrent(input, view, e.start + 1)
  {
  }

  lemma RemainingOfCurrent(input: Input, view: View, e: Entry)
    requires e.stream == OfCurrent
    ensures Remaining(input, view, Some(e)) == CurrentFrom(input, e.start + 1)
  {
  }

  lemma AfterSnapshot(input: Input, view: View, from: nat, k: nat, start: nat)
    requires k < |SnapshotFrom(input, from)| && SnapshotFrom(input, start + 1) == SnapshotFrom(input, from)[k + 1..]
    ensures SnapshotThenCurrent(input, view, start + 1) == SnapshotThenCurrent(input, view, from)[k + 1..]
  {
    DropConcat(SnapshotFrom(input, from), CurrentFrom(input, 0), k + 1);
  }

  // A full page leaves exactly the entries after it, behind a cursor that is accepted.
  lemma NextPage(input: Input, view: View, limit: nat, previous: Option<Entry>)
    requires limit > 0 && input.pattern != [] && (previous.Some? ==> ValidLast(input, view, previous.value))
    ensures var page := PageOf(input, view, limit, previous);
            page.hasMore ==> page.next.Some? && ValidLast(input, view, page.next.value) && |page.entries| == limit
    ensures var page := PageOf(input, view, limit, previous);
            page.hasMore ==> Remaining(input, view, previous) == page.entries + Remaining(input, view, page.next)
    ensures var page := PageOf(input, view, limit, previous);
            !page.hasMore ==> page.entries == Remaining(input, view, previous)
  {
    var rest := Remaining(input, view, previous);
    if |rest| > limit {
      RemainingAfter(input, view, previous, limit - 1);
      RemainingValid(input, view, previous, limit - 1);
      assert rest == rest[..limit] + rest[limit..];
    }
  }

  // Following the next cursors until there is no more: the sequence of pages.
  ghost function Pages(input: Input, view: View, limit: nat, previous: Option<Entry>): seq<Document>
    requires limit > 0 && input.pattern != []
    requires previous.Some? ==> ValidLast(input, view, previous.value)
    decreases |Remaining(input, view, previous)|
  {
    NextPage(input, view, limit, previous);
    var page := PageOf(input, view, limit, previous);
    if page.hasMore then [page] + Pages(input, view, limit, page.next) else [page]
  }

  function Concat(pages: seq<Document>): seq<Entry> {
    if pages == [] then [] else pages[0].entries + Concat(pages[1..])
  }

  // Lossless paging: the pages of any limit, joined, are the whole listing after the
  // cursor, each entry once and in order; all but the last are full.
  lemma {:induction false} PagingLossless(input: Input, view: View, limit: nat, previous: Option<Entry>)
    requires limit > 0 && input.pattern != []
    requires previous.Some? ==> ValidLast(input, view, previous.value)
    ensures Concat(Pages(input, view, limit, previous)) == Remaining(input, view, previous)
    ensures forall i :: 0 <= i < |Pages(input, view, limit, previous)| - 1 ==>
              |Pages(input, view, limit, previous)[i].entries| == limit
    decreases |Remaining(input, view, previous)|
  {
    var page := PageOf(input, view, limit, previous);
    NextPage(input, view, limit, previous);
    if page.hasMore {
      PagingLossless(input, view, limit, page.next);
      var more := Pages(input, view, limit, page.next);
      assert ([page] + more)[1..] == more;
    } else {
      assert Concat([page]) == page.entries;
    }
  }

  // The snapshot's occurrences, then those of the current content, each from left to right.
  ghost predicate InListingOrder(entries: seq<Entry>) {
    forall i, j :: 0 <= i < j < |entries| ==>
      if entries[i].stream == entries[j].stream then entries[i].start < entries[j].start
      else entries[i].stream == OfSnapshot
  }

  // The first request lists every snapshot start and then every current start.
  lemma AllPaged(input: Input, view: View, limit: nat, e: Entry)
    requires limit > 0 && input.pattern != []
    ensures Concat(Pages(input, view, limit, None)) == All(input, view)
    ensures e in All(input, view) <==> ValidLast(input, view, e)
    ensures InListingOrder(All(input, view))
  {
    PagingLossless(input, view, limit, None);
    StartsAscend(input.snapshot, input.pattern, 0);
    StartsAscend(input.current, input.pattern, 0);
    var snaps, curs := StartsFrom(input.snapshot, input.pattern, 0), StartsFrom(input.current, input.pattern, 0);
    StartsExact(input.snapshot, input.pattern, 0, e.start);
    StartsExact(input.current, input.pattern, 0, e.start);
    InEntries(OfSnapshot, snaps, e);
    InEntries(OfCurrent, curs, e);
  }

  lemma InEntries(stream: Stream, starts: seq<nat>, e: Entry)
    ensures e in Entries(stream, starts) <==> e.stream == stream && e.start in starts
  {
    if e.stream == stream && e.start in starts {
      var i :| 0 <= i < |starts| && starts[i] == e.start;
      assert Entries(stream, starts)[i] == e;
    }
  }
}
