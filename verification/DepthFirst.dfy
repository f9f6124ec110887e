/** The three-colour depth-first cycle check (validateAcyclic in observation_v5.go, validateProjectedGraph in
    project_v5.go). */
module DepthFirst {
  import opened Ids
  import opened Walks

  datatype GraphError = Cycle(at: Id) | SelfEdge(at: Id) | Missing(at: Id)

  // Why the graph is refused, as a fact about the graph.
  ghost predicate Witnesses(nodes: set<Id>, succ: Edges, e: GraphError) {
    match e
    case Cycle(at) => at in nodes && exists p :: Joins(succ, p, at, at) && |p| >= 2
    case SelfEdge(at) => at in nodes && at in Out(succ, at)
    case Missing(at) => at !in nodes && exists n :: n in nodes && at in Out(succ, n)
  }

  lemma WitnessRefutes(nodes: set<Id>, succ: Edges, e: GraphError)
    requires Witnesses(nodes, succ, e)
    ensures !(ClosedUnder(succ, nodes) && Acyclic(nodes, succ))
  {
    match e
    case Cycle(at) =>
      var p :| Joins(succ, p, at, at) && |p| >= 2;
      assert IsWalk(succ, p);
    case SelfEdge(at) =>
      assert IsWalk(succ, [at, at]);
      assert Last([at, at]) == [at, at][0];
    case Missing(at) =>
  }

  class ColourSearch {
    const nodes: set<Id>
    const succ: Edges
    var state: map<Id, nat>          // absent: white, 1: on the recursion stack, 2: finished
    ghost var stack: seq<Id>         // the nodes coloured 1, outermost call first
    ghost var rank: map<Id, nat>     // the nodes coloured 2, numbered as they were finished
    ghost var clock: nat

    constructor (nodes: set<Id>, succ: Edges)
      ensures this.nodes == nodes && this.succ == succ
      ensures Valid() && stack == [] && rank == map[]
    {
      this.nodes := nodes;
      this.succ := succ;
      state, stack, rank, clock := map[], [], map[], 0;
    }

    ghost predicate Valid()
      reads this
    {
      && state.Keys <= nodes
      && (forall id :: id in state ==> state[id] == 1 || state[id] == 2)
      && (forall id :: id in stack <==> id in state && state[id] == 1)
      && (forall id :: id in rank <==> id in state && state[id] == 2)
      && (stack != [] ==> IsWalk(succ, stack))
      && (forall id :: id in rank ==> rank[id] < clock)
      && RankedOn(rank.Keys, succ, rank)
    }

    method Visit(id: Id) returns (err: Option<GraphError>)
      requires Valid()
      requires if stack == [] then id in nodes else id in Out(succ, Last(stack))
      modifies this
      ensures err.None? ==> Valid() && stack == old(stack) && id in rank
      ensures err.None? ==> old(rank.Keys) <= rank.Keys && old(state.Keys) <= state.Keys
      ensures err.Some? ==> Witnesses(nodes, succ, err.value)
      decreases |nodes - state.Keys|
    {
      if id in state && state[id] == 1 {
        GreyIsCycle(id);
        return Some(Cycle(id));
      }
      if id in state && state[id] == 2 {
        return None;
      }
      if id !in nodes {
        assert Last(stack) in stack;
        return Some(Missing(id));
      }
      ghost var outer := stack;
      StartNode(id);
      var next := Out(succ, id);
      for i := 0 to |next|
        invariant Valid() && stack == outer + [id]
        invariant old(state.Keys) + {id} <= state.Keys
        invariant old(rank.Keys) <= rank.Keys
        invariant AllIn(next[..i], rank.Keys)
      {
        assert next[i] in Out(succ, Last(stack));
        if next[i] == id {
          return Some(SelfEdge(id));
        }
        ShrinksInside(nodes, old(state.Keys), state.Keys, id);
        ghost var before := rank.Keys;
        err := Visit(next[i]);
        if err.Some? {
          return;
        }
        AllInNext(next, i, before, rank.Keys);
      }
      assert next[..|next|] == next;
      FinishNode(id, outer);
      err := None;
    }

    // A grey node met again closes a walk through the recursion stack.
    lemma GreyIsCycle(id: Id)
      requires Valid() && id in state && state[id] == 1 && stack != [] && id in Out(succ, Last(stack))
      ensures Witnesses(nodes, succ, Cycle(id))
    {
      var k :| 0 <= k < |stack| && stack[k] == id;
      var loop := stack[k..] + [id];
      assert Joins(succ, loop, id, id) && |loop| >= 2;
    }

    // Colour id grey and push its stack frame.
    method StartNode(id: Id)
      requires Valid() && id in nodes && id !in state
      requires stack != [] ==> id in Out(succ, Last(stack))
      modifies this
      ensures Valid() && stack == old(stack) + [id] && id !in old(stack)
      ensures rank == old(rank) && state.Keys == old(state.Keys) + {id}
    {
      state := state[id := 1];
      stack := stack + [id];
    }

    // Colour id black and leave its stack frame.
    method FinishNode(id: Id, ghost outer: seq<Id>)
      requires Valid() && stack == outer + [id] && id !in outer
      requires AllIn(Out(succ, id), rank.Keys)
      modifies this
      ensures Valid() && stack == outer
      ensures rank.Keys == old(rank.Keys) + {id} && state.Keys == old(state.Keys)
    {
      InnerWalk(succ, outer, id);
      RankFinished(succ, rank, clock, id, rank[id := clock]);
      assert id in stack;
      state := state[id := 2];
      stack := outer;
      rank, clock := rank[id := clock], clock + 1;
    }

    // Starts the search at every node, in identifier order.
    method Check() returns (err: Option<GraphError>)
      requires Valid() && stack == []
      modifies this
      ensures err.None? <==> ClosedUnder(succ, nodes) && Acyclic(nodes, succ)
      ensures err.None? ==> RankedOn(nodes, succ, rank)
      ensures err.Some? ==> Witnesses(nodes, succ, err.value)
    {
      var ids := SortedKeys(nodes);
      for i := 0 to |ids|
        invariant Valid() && stack == []
        invariant AllIn(ids[..i], rank.Keys)
      {
        assert ids[i] in ids;
        ghost var before := rank.Keys;
        err := Visit(ids[i]);
        if err.Some? {
          WitnessRefutes(nodes, succ, err.value);
          return;
        }
        AllInNext(ids, i, before, rank.Keys);
      }
      assert ids[..|ids|] == ids;
      assert forall x :: x in nodes ==> x in rank.Keys;
      assert rank.Keys == nodes;
      RankedIsAcyclic(nodes, succ, rank);
      err := None;
    }
  }

  lemma InnerWalk(succ: Edges, outer: seq<Id>, id: Id)
    requires IsWalk(succ, outer + [id])
    ensures outer != [] ==> IsWalk(succ, outer)
    ensures forall x: Id :: x in outer + [id] <==> x == id || x in outer
  {
    assert (outer + [id])[..|outer|] == outer;
    if outer != [] {
      WalkPart(succ, outer + [id], 0, |outer|);
    }
  }

  lemma RankFinished(succ: Edges, rank: map<Id, nat>, clock: nat, id: Id, rank': map<Id, nat>)
    requires RankedOn(rank.Keys, succ, rank) && id !in rank
    requires forall x: Id :: x in rank ==> rank[x] < clock
    requires AllIn(Out(succ, id), rank.Keys) && rank' == rank[id := clock]
    ensures RankedOn(rank'.Keys, succ, rank')
    ensures forall x: Id :: x in rank' ==> rank'[x] < clock + 1
  {
  }

  ghost predicate AllIn(s: seq<Id>, S: set<Id>) {
    forall x: Id :: x in s ==> x in S
  }

  lemma AllInNext(s: seq<Id>, i: nat, before: set<Id>, now: set<Id>)
    requires i < |s| && AllIn(s[..i], before) && before <= now && s[i] in now
    ensures AllIn(s[..i + 1], now)
  {
    assert s[..i + 1] == s[..i] + [s[i]];
  }

  lemma ShrinksInside(nodes: set<Id>, before: set<Id>, now: set<Id>, id: Id)
    requires before + {id} <= now && id !in before && id in nodes
    ensures |nodes - now| < |nodes - before|
  {
    assert nodes - now <= (nodes - before) - {id};
    SubsetSize(nodes - now, (nodes - before) - {id});
  }
}
