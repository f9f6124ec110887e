/** The lock-free double collect of REF manifests (internal/repository/observation.go:23-90). */
module HeadSnapshot {
  import opened Ids

  type Ref = string
  datatype Manifest = Manifest(head: Id, tags: map<string, Id>)
  type Refs = map<Ref, Manifest>

  function At(refs: Refs, ref: Ref): Option<Manifest> {
    if ref in refs then Some(refs[ref]) else None
  }

  // ------------------------------------------------------- what the reads prove

  // Within [from, to] no REF comes back to a manifest (or to absence) it had left.
  ghost predicate NoReturn(states: seq<Refs>, from: nat, to: nat)
    requires from <= to < |states|
  {
    forall ref: Ref, a: nat, b: nat, c: nat :: from <= a <= b <= c <= to ==> !Returns(states, ref, a, b, c)
  }

  ghost predicate Returns(states: seq<Refs>, ref: Ref, a: nat, b: nat, c: nat)
    requires a < |states| && b < |states| && c < |states|
  {
    At(states[a], ref) == At(states[c], ref) && At(states[b], ref) != At(states[a], ref)
  }

  // Each REF was read with the observed value at its own moment in [from, to].
  ghost predicate ReadOnce(states: seq<Refs>, refs: Refs, universe: set<Ref>, from: nat, to: nat, moment: map<Ref, nat>)
    requires from <= to < |states|
  {
    universe <= moment.Keys
    && forall ref: Ref :: ref in universe ==> from <= moment[ref] <= to && At(states[moment[ref]], ref) == At(refs, ref)
  }

  // Two collects with the same values pin the whole map down at every instant between them.
  lemma DoubleCollect(states: seq<Refs>, refs: Refs, universe: set<Ref>, from: nat, middle: nat, to: nat,
                      first: map<Ref, nat>, second: map<Ref, nat>)
    requires from <= middle <= to < |states| && NoReturn(states, from, to)
    requires refs.Keys <= universe && states[middle].Keys <= universe
    requires ReadOnce(states, refs, universe, from, middle, first)
              && ReadOnce(states, refs, universe, middle, to, second)
    ensures states[middle] == refs
  {
    forall ref: Ref ensures At(states[middle], ref) == At(refs, ref) {
      if ref in universe {
        assert !Returns(states, ref, first[ref], middle, second[ref]);
      }
    }
    SameReads(states[middle], refs);
  }

  lemma SameReads(a: Refs, b: Refs)
    requires forall ref: Ref :: At(a, ref) == At(b, ref)
    ensures a == b
  {
    forall ref: Ref ensures (ref in a <==> ref in b) && (ref in a ==> a[ref] == b[ref]) {
      assert At(a, ref) == At(b, ref);
    }
    assert a.Keys == b.Keys;
  }

  // Two collects around middle that agree on refs, however far apart the single reads are.
  ghost predicate Agree(states: seq<Refs>, refs: Refs, universe: set<Ref>, from: nat, middle: nat, to: nat,
          first: map<Ref, nat>, second: map<Ref, nat>) {
    && from <= middle <= to < |states| && refs.Keys <= universe && states[middle].Keys <= universe
    && ReadOnce(states, refs, universe, from, middle, first) && ReadOnce(states, refs, universe, middle, to, second)
  }

  // The hypothesis is exactly what the double collect needs: every agreeing pair of collects
  // within [from, to] shows the REF map of the instant between them if and only if no REF
  // returns there.
  lemma DoubleCollectExact(states: seq<Refs>, from: nat, to: nat)
    requires from <= to < |states|
    ensures NoReturn(states, from, to) <==>
            forall refs: Refs, universe: set<Ref>, middle: nat, first: map<Ref, nat>, second: map<Ref, nat> ::
              Agree(states, refs, universe, from, middle, to, first, second) ==> states[middle] == refs
  {
    if NoReturn(states, from, to) {
      forall refs: Refs, universe: set<Ref>, middle: nat, first: map<Ref, nat>, second: map<Ref, nat>
        | Agree(states, refs, universe, from, middle, to, first, second)
        ensures states[middle] == refs
      {
        DoubleCollect(states, refs, universe, from, middle, to, first, second);
      }
    } else {
      var ref: Ref, a: nat, b: nat, c: nat :| from <= a <= b <= c <= to && Returns(states, ref, a, b, c);
      var refs, universe, first, second := ReturnFools(states, from, to, ref, a, b, c);
    }
  }

  // A REF that returns is read before and after the instant it was different at.
  lemma ReturnFools(states: seq<Refs>, from: nat, to: nat, ref: Ref, a: nat, b: nat, c: nat)
      returns (refs: Refs, universe: set<Ref>, first: map<Ref, nat>, second: map<Ref, nat>)
    requires from <= a <= b <= c <= to < |states| && Returns(states, ref, a, b, c)
    ensures Agree(states, refs, universe, from, b, to, first, second) && states[b] != refs
  {
    refs := if ref in states[a] then states[b][ref := states[a][ref]] else states[b] - {ref};
    universe := states[b].Keys + {ref};
    first := map r | r in universe :: if r == ref then a else b;
    second := map r | r in universe :: if r == ref then c else b;
    assert At(refs, ref) == At(states[a], ref) != At(states[b], ref);
  }

  // Without that hypothesis the reads can agree although no instant matches them: both
  // REFs are moved back in time for their second read.
  lemma ReturningValuesFool(x: Ref, y: Ref, a: Manifest, b: Manifest, a': Manifest, b': Manifest)
      returns (states: seq<Refs>, refs: Refs, first: map<Ref, nat>, second: map<Ref, nat>)
    requires x != y && a != a' && b != b'
    ensures |states| == 5 && refs.Keys == {x, y}
    ensures ReadOnce(states, refs, {x, y}, 0, 2, first) && ReadOnce(states, refs, {x, y}, 2, 4, second)
    ensures forall t :: 0 <= t < |states| ==> states[t] != refs
  {
    var start: Refs := map[x := a, y := b];
    var moved: Refs := map[x := a', y := b];
    var far: Refs := map[x := a', y := b'];
    states := [start, moved, far, start, far];
    refs := map[x := a, y := b'];
    first, second := map[x := 0, y := 2], map[x := 3, y := 4];
    assert At(start, x) == At(refs, x) && At(far, y) == At(refs, y);
    forall t | 0 <= t < |states| ensures states[t] != refs {
      assert states[t][x] != refs[x] || states[t][y] != refs[y];
    }
  }

  // How far one collect has come: listed REFs that were matched were read with their
  // manifest, and the REFs that were not listed were seen absent.
  ghost predicate Sighted(states: seq<Refs>, names: seq<Ref>, found: seq<Ref>, matched: seq<Ref>, manifests: Refs,
                          lo: nat, hi: nat, moment: map<Ref, nat>)
  {
    && hi < |states| && Elems(names) <= moment.Keys
    && (forall ref: Ref :: ref in names ==> lo <= moment[ref] <= hi)
    && (forall ref: Ref :: ref in names && ref !in found ==> ref !in states[moment[ref]])
    && (forall ref: Ref :: ref in matched ==>
         ref in manifests && ref in names && At(states[moment[ref]], ref) == Some(manifests[ref]))
  }

  lemma SightedNext(states: seq<Refs>, names: seq<Ref>, found: seq<Ref>, matched: seq<Ref>, manifests: Refs,
                    lo: nat, hi: nat, moment: map<Ref, nat>, ref: Ref, m: Manifest, now: nat)
    requires Sighted(states, names, found, matched, manifests, lo, hi, moment)
    requires lo <= hi <= now < |states| && ref in found && ref in names && At(states[now], ref) == Some(m)
    requires ref in matched ==> manifests[ref] == m
    ensures Sighted(states, names, found, matched + [ref], manifests[ref := m], lo, now, moment[ref := now])
  {
  }

  lemma SightedAll(states: seq<Refs>, names: seq<Ref>, found: seq<Ref>, manifests: Refs, lo: nat, hi: nat,
          moment: map<Ref, nat>)
    requires Sighted(states, names, found, found, manifests, lo, hi, moment) && manifests.Keys == Elems(found)
              && lo <= hi
    ensures ReadOnce(states, manifests, Elems(names), lo, hi, moment)
  {
  }

  // Nothing changes in [from, to].
  ghost predicate Quiet(states: seq<Refs>, from: nat, to: nat) {
    to < |states| && forall t :: from <= t <= to ==> states[t] == states[from]
  }

  lemma QuietPart(states: seq<Refs>, from: nat, middle: nat, to: nat)
    requires from <= middle <= to < |states|
    ensures Quiet(states, from, to) ==>
              && Quiet(states, from, middle) && Quiet(states, middle, to)
              && states[middle] == states[from]
  {
  }

  // The names that exist, in order.
  ghost function Present(names: seq<Ref>, refs: Refs): seq<Ref> {
    if names == [] then []
    else Present(names[..|names| - 1], refs) + if names[|names| - 1] in refs then [names[|names| - 1]] else []
  }

  lemma PresentNext(names: seq<Ref>, i: nat, refs: Refs)
    requires i < |names|
    ensures Present(names[..i + 1], refs) == Present(names[..i], refs) + if names[i] in refs then [names[i]] else []
  {
    assert names[..i + 1][..i] == names[..i];
  }

  lemma {:induction false} PresentAreIn(names: seq<Ref>, refs: Refs)
    ensures forall ref: Ref :: ref in Present(names, refs) ==> ref in refs
  {
    if names != [] {
      PresentAreIn(names[..|names| - 1], refs);
    }
  }

  // How far a directory walk has come: each of these names was seen, there or absent, at its
  // own moment; in quiet times the listing is what exists.
  ghost predicate Listed(states: seq<Refs>, names: seq<Ref>, found: seq<Ref>, moment: map<Ref, nat>, lo: nat, hi: nat) {
    && lo <= hi < |states| && moment.Keys == Elems(names)
    && NoDup(found) && (forall ref: Ref :: ref in found ==> ref in names)
    && (forall ref: Ref :: ref in names ==>
          lo <= moment[ref] <= hi && (ref in found <==> ref in states[moment[ref]]))
    && (Quiet(states, lo, hi) ==> found == Present(names, states[lo]))
  }

  lemma ListedNext(states: seq<Refs>, names: seq<Ref>, i: nat, found: seq<Ref>, moment: map<Ref, nat>, lo: nat, hi: nat,
          now: nat)
    requires i < |names| && NoDup(names) && Listed(states, names[..i], found, moment, lo, hi) && hi <= now < |states|
    ensures Listed(states, names[..i + 1], found + (if names[i] in states[now] then [names[i]] else []),
                   moment[names[i] := now], lo, now)
  {
    TakeNext(names, i);
    assert names[i] !in names[..i];
    PresentNext(names, i, states[lo]);
  }

  // In quiet times the reads are the REF map.
  lemma QuietReads(states: seq<Refs>, refs: Refs, universe: set<Ref>, from: nat, to: nat, moment: map<Ref, nat>)
    requires from <= to && Quiet(states, from, to) && ReadOnce(states, refs, universe, from, to, moment)
    requires refs.Keys <= universe && states[from].Keys <= universe
    ensures refs == states[from]
  {
    forall ref: Ref ensures At(refs, ref) == At(states[from], ref) {
      if ref in universe {
        assert states[moment[ref]] == states[from];
      }
    }
    SameReads(refs, states[from]);
  }

  // -------------------------------------------------------- the reader

  // The REF map as other processes leave it over time. Each read happens at its own
  // moment: any number of foreign changes may come before it.
  class World {
    const states: seq<Refs>
    const names: seq<Ref>         // every REF path that exists at some time, sorted
    const delay: nat -> nat
    var now: nat
    var ticks: nat

    constructor (states: seq<Refs>, names: seq<Ref>, delay: nat -> nat)
      requires states != []
      ensures this.states == states && this.names == names && this.delay == delay && now == 0
    {
      this.states, this.names, this.delay := states, names, delay;
      now, ticks := 0, 0;
    }

    ghost predicate Valid()
      reads this
    {
      && now < |states| && NoDup(names)
      && forall t :: 0 <= t < |states| ==> states[t].Keys <= Elems(names)
    }

    method Tick()
      requires Valid()
      modifies this
      ensures Valid() && old(now) <= now
    {
      now := now + delay(ticks);
      if now >= |states| {
        now := |states| - 1;
      }
      ticks := ticks + 1;
    }

    method Snapshot(ref: Ref) returns (m: Option<Manifest>)
      requires Valid()
      modifies this
      ensures Valid() && old(now) <= now && m == At(states[now], ref)
    {
      Tick();
      m := At(states[now], ref);
    }

    // The directory walk visits the REF paths one after the other.
    method List() returns (found: seq<Ref>, ghost moment: map<Ref, nat>)
      requires Valid()
      modifies this
      ensures Valid() && old(now) <= now
      ensures Listed(states, names, found, moment, old(now), now)
    {
      found, moment := [], map[];
      for i := 0 to |names|
        invariant Valid() && old(now) <= now
        invariant Listed(states, names[..i], found, moment, old(now), now)
      {
        ghost var before := now;
        var m := Snapshot(names[i]);
        ListedNext(states, names, i, found, moment, old(now), before, now);
        moment := moment[names[i] := now];
        if m.Some? {
          found := found + [names[i]];
        }
      }
      assert names[..|names|] == names;
    }

    // observeHeads: list the REFs, then capture each manifest.
    method ObserveHeads() returns (r: Option<(seq<Ref>, Refs)>, ghost moment: map<Ref, nat>)
      requires Valid()
      modifies this
      ensures Valid() && old(now) <= now
      ensures r.Some? ==> r.value.1.Keys == Elems(r.value.0) && Elems(r.value.0) <= Elems(names)
      ensures r.Some? ==> ReadOnce(states, r.value.1, Elems(names), old(now), now, moment)
      ensures Quiet(states, old(now), now) ==> r.Some? && r.value.0 == Present(names, states[old(now)])
    {
      ghost var from := now;
      var found;
      found, moment := List();
      var captured;
      captured, moment := CaptureAll(found, moment, from);
      r := if captured.None? then None else Some((found, captured.value));
      if Quiet(states, from, now) {
        PresentAreIn(names, states[from]);
      }
    }

    method CaptureAll(found: seq<Ref>, ghost listed: map<Ref, nat>, ghost from: nat) returns (r: Option<Refs>,
            ghost moment: map<Ref, nat>)
      requires Valid() && from <= now && NoDup(found) && Elems(found) <= Elems(names)
      requires Sighted(states, names, found, [], map[], from, now, listed)
      modifies this
      ensures Valid() && old(now) <= now
      ensures r.Some? ==> r.value.Keys == Elems(found) && ReadOnce(states, r.value, Elems(names), from, now, moment)
      ensures Quiet(states, old(now), now) && (forall ref: Ref :: ref in found ==> ref in states[old(now)]) ==> r.Some?
    {
      moment := listed;
      var manifests: Refs := map[];
      for i := 0 to |found|
        invariant Valid() && old(now) <= now
        invariant manifests.Keys == Elems(found[..i])
        invariant Sighted(states, names, found, found[..i], manifests, from, now, moment)
      {
        TakeNext(found, i);
        assert found[i] !in found[..i];
        ghost var before := now;
        var m := Snapshot(found[i]);
        if m.None? {
          return None, moment;
        }
        SightedNext(states, names, found, found[..i], manifests, from, before, moment, found[i], m.value, now);
        moment := moment[found[i] := now];
        manifests := manifests[found[i] := m.value];
      }
      assert found[..|found|] == found;
      SightedAll(states, names, found, manifests, from, now, moment);
      r := Some(manifests);
    }

    // Resolve, then snapshot, one REF; both must match what was captured.
    method ReadAgain(ref: Ref, captured: Manifest) returns (same: bool)
      requires Valid()
      modifies this
      ensures Valid() && old(now) <= now && (same ==> At(states[now], ref) == Some(captured))
      ensures Quiet(states, old(now), now) && At(states[old(now)], ref) == Some(captured) ==> same
    {
      var head := Snapshot(ref);
      var manifest := Snapshot(ref);
      same := head.Some? && manifest.Some? && head.value.head == captured.head && manifest.value == captured;
    }

    // revalidateHeads: list and read everything again, and compare.
    method RevalidateHeads(observed: seq<Ref>, manifests: Refs) returns (ok: bool, ghost moment: map<Ref, nat>)
      requires Valid() && manifests.Keys == Elems(observed) && Elems(observed) <= Elems(names)
      modifies this
      ensures Valid() && old(now) <= now
      ensures ok ==> ReadOnce(states, manifests, Elems(names), old(now), now, moment)
      ensures Quiet(states, old(now), now) ==>
                observed == Present(names, states[old(now)]) && manifests == states[old(now)] ==> ok
    {
      ghost var from := now;
      var found;
      found, moment := List();
      if found != observed {
        return false, moment;
      }
      ok, moment := CompareAll(found, manifests, moment, from);
    }

    // The manifests of the listed REFs, one after the other.
    method CompareAll(found: seq<Ref>, manifests: Refs, ghost listed: map<Ref, nat>,
            ghost from: nat) returns (ok: bool, ghost moment: map<Ref, nat>)
      requires Valid() && from <= now && manifests.Keys == Elems(found) && NoDup(found) && Elems(found) <= Elems(names)
      requires Sighted(states, names, found, [], manifests, from, now, listed)
      modifies this
      ensures Valid() && old(now) <= now
      ensures ok ==> ReadOnce(states, manifests, Elems(names), from, now, moment)
      ensures Quiet(states, old(now), now) && manifests == states[old(now)] ==> ok
    {
      moment := listed;
      for i := 0 to |found|
        invariant Valid() && old(now) <= now
        invariant Sighted(states, names, found, found[..i], manifests, from, now, moment)
      {
        TakeNext(found, i);
        ghost var before := now;
        var same := ReadAgain(found[i], manifests[found[i]]);
        if !same {
          QuietPart(states, old(now), before, now);
          return false, moment;
        }
        SightedNext(states, names, found, found[..i], manifests, from, before, moment, found[i], manifests[found[i]],
            now);
        assert manifests[found[i] := manifests[found[i]]] == manifests;
        moment := moment[found[i] := now];
      }
      assert found[..|found|] == found;
      SightedAll(states, names, found, manifests, from, now, moment);
      ok := true;
    }

    // A whole read-only command: observe, derive something, revalidate. When it succeeds
    // and no REF returned to an earlier manifest meanwhile, the observation is the exact
    // REF map of one instant between the two collects.
    method ObserveStable() returns (r: Option<Refs>, ghost instant: nat, ghost first: map<Ref, nat>,
            ghost second: map<Ref, nat>)
      requires Valid()
      modifies this
      ensures Valid() && old(now) <= now
      ensures r.Some? ==>
                && old(now) <= instant <= now < |states|
                && ReadOnce(states, r.value, Elems(names), old(now), instant, first)
                && ReadOnce(states, r.value, Elems(names), instant, now, second)
      ensures r.Some? && NoReturn(states, old(now), now) ==> old(now) <= instant <= now && states[instant] == r.value
      ensures Quiet(states, old(now), now) ==> r.Some?
    {
      ghost var from := now;
      var observed;
      second := map[];
      observed, first := ObserveHeads();
      instant := now;
      if observed.None? {
        return None, instant, first, second;
      }
      if Quiet(states, from, instant) {
        QuietReads(states, observed.value.1, Elems(names), from, instant, first);
      }
      var ok;
      ok, second := RevalidateHeads(observed.value.0, observed.value.1);
      if !ok {
        return None, instant, first, second;
      }
      if NoReturn(states, from, now) {
        DoubleCollect(states, observed.value.1, Elems(names), from, instant, now, first, second);
      }
      r := Some(observed.value.1);
    }
  }
}
