/**
 * The three network layouts of the batch simulation (simulation.py:8-19):
 * `create_edges(layout, agents)` numbers the agents 0 .. n-1 by position and
 * returns the edge list of the complete graph, the ring or the wheel over
 * them; any other layout name raises ValueError.
 */
module Layouts {
  import opened Wrappers
  import opened Pairs

  const LAYOUT_ERROR := "Layout must be \"connected\" or \"ring\" or \"wheel\"."

  /** 'connected': (i, j) for i in range(n) for j in range(i + 1, n). */
  function Connected(n: nat): seq<(nat, nat)>
  {
    AllPairs(Range(n))
  }

  /** 'ring': (i, (i + 1) % n) for i in range(n). */
  function Ring(n: nat): seq<(nat, nat)>
  {
    seq(n, i requires 0 <= i < n => (i, (i + 1) % n))
  }

  /**
   * 'wheel': the rim (i, (i + 1) % (n - 1)) for i in range(n - 1), then the
   * spokes (i, n - 1) for i in range(n - 1). range(-1) is empty, so n = 0
   * gives no edges and no division by zero.
   */
  function Wheel(n: nat): seq<(nat, nat)>
  {
    var m := if n == 0 then 0 else n - 1;
    seq(m, i requires 0 <= i < m => (i, (i + 1) % m)) + seq(m, i requires 0 <= i < m => (i, n - 1))
  }

  /** Every endpoint names one of the n agents. */
  predicate Within(edges: seq<(nat, nat)>, n: nat)
  {
    forall k | 0 <= k < |edges| :: edges[k].0 < n && edges[k].1 < n
  }

  /** `create_edges`: only the number of agents is used; an unknown layout is a ValueError. */
  function CreateEdges<T>(layout: string, agents: seq<T>): (r: Result<seq<(nat, nat)>>)
    ensures r.Failure? <==> layout != "connected" && layout != "ring" && layout != "wheel"
    ensures r.Failure? ==> r.error == LAYOUT_ERROR
    ensures r.Success? ==> Within(r.value, |agents|)
  {
    var n := |agents|;
    if layout == "connected" then
      ConnectedShape(n);
      Success(Connected(n))
    else if layout == "ring" then
      Success(Ring(n))
    else if layout == "wheel" then
      Success(Wheel(n))
    else
      Failure(LAYOUT_ERROR)
  }

  /**
   * The complete graph: exactly the pairs i < j < n, each once, in
   * lexicographic order, n(n-1)/2 of them.
   */
  lemma ConnectedShape(n: nat)
    ensures |Connected(n)| == Choose2(n)
    ensures forall i: nat, j: nat :: (i, j) in Connected(n) <==> i < j < n
    ensures LexSorted(Connected(n)) && Distinct(Connected(n))
    ensures Within(Connected(n), n)
  {
    var ids := Range(n);
    AllPairsLength(ids);
    AllPairsSorted(ids);
    forall i: nat, j: nat
      ensures (i, j) in Connected(n) <==> i < j < n
    {
      AllPairsMember(ids, i, j);
      assert i in ids <==> i < n by { if i < n { assert ids[i] == i; } }
      assert j in ids <==> j < n by { if j < n { assert ids[j] == j; } }
    }
    forall k | 0 <= k < |Connected(n)|
      ensures Connected(n)[k].0 < n && Connected(n)[k].1 < n
    {
      var (i, j) := Connected(n)[k];
      assert (i, j) in Connected(n);
    }
  }

  /**
   * The ring: n edges, edge k runs from agent k to agent k + 1 and the last
   * one back to agent 0, one cycle through every agent. One agent
   * gives the self-loop (0, 0); two give both (0, 1) and (1, 0).
   */
  lemma RingShape(n: nat)
    ensures |Ring(n)| == n && Within(Ring(n), n)
    ensures forall k | 0 <= k < n :: Ring(n)[k].0 == k
    ensures forall k | 0 <= k < n - 1 :: Ring(n)[k].1 == k + 1
    ensures n >= 1 ==> Ring(n)[n - 1].1 == 0
    ensures n == 1 ==> Ring(n) == [(0, 0)]
    ensures n == 2 ==> Ring(n) == [(0, 1), (1, 0)]
    ensures n >= 2 ==> forall k | 0 <= k < n :: Ring(n)[k].0 != Ring(n)[k].1
  {
    forall k | 0 <= k < n
      ensures Ring(n)[k].1 == (if k + 1 < n then k + 1 else 0)
    {
      Successor(k, n);
    }
    if n == 1 {
      assert Ring(n)[0] == (0, 0);
    }
    if n == 2 {
      assert Ring(n)[0] == (0, 1) && Ring(n)[1] == (1, 0);
    }
  }

  /** i + 1 wraps to 0 only at the last position. */
  lemma Successor(i: nat, m: nat)
    requires i < m
    ensures (i + 1) % m == if i + 1 < m then i + 1 else 0
  {
  }

  /**
   * The wheel: with n >= 2 agents, n - 1 rim edges among agents 0 .. n-2
   * followed by n - 1 spokes into the hub n - 1; with fewer agents, no edges.
   * Two agents give the rim self-loop (0, 0) and the spoke (0, 1).
   */
  lemma WheelShape(n: nat)
    ensures n <= 1 ==> Wheel(n) == []
    ensures n >= 2 ==> |Wheel(n)| == 2 * (n - 1)
    ensures Within(Wheel(n), n)
    ensures n >= 2 ==> forall k | 0 <= k < n - 1 :: Wheel(n)[k] == (k, if k + 1 < n - 1 then k + 1 else 0)
    ensures n >= 2 ==> forall k | n - 1 <= k < 2 * (n - 1) :: Wheel(n)[k] == (k - (n - 1), n - 1)
    ensures n == 2 ==> Wheel(n) == [(0, 0), (0, 1)]
    ensures n >= 3 ==> forall k | 0 <= k < |Wheel(n)| :: Wheel(n)[k].0 != Wheel(n)[k].1
  {
    if n >= 2 {
      var m := n - 1;
      forall k | 0 <= k < m
        ensures Wheel(n)[k] == (k, if k + 1 < m then k + 1 else 0)
      {
        Successor(k, m);
      }
      if n == 2 {
        assert Wheel(n)[0] == (0, 0) && Wheel(n)[1] == (0, 1);
      }
    }
  }
}
