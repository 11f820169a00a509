/**
 * The front-end graph editor: the `Network` class of static/js/network.js.
 * Nodes are the ids 0..numberOfNodes-1; the DOM class `deactivated` of node i
 * is the array cell `deactivated[i]`; the `edges` Map is the set of its keys
 * (the values are DOM elements and are not modelled).
 */
module GraphEditor {
  import opened Wrappers
  import opened EdgeKeys
  import opened Pairs
  import opened RandomGraph

  /** The ids `querySelectorAll('.node:not(.deactivated)')` returns, in document order, which is id order. */
  function ActiveIds(flags: seq<bool>): (ids: seq<nat>)
    ensures forall x: nat :: x in ids <==> x < |flags| && !flags[x]
    ensures StrictlyIncreasing(ids)
    ensures forall i | 0 <= i < |ids| :: ids[i] < |flags|
  {
    if |flags| == 0 then []
    else ActiveIds(flags[..|flags| - 1]) + (if flags[|flags| - 1] then [] else [|flags| - 1])
  }

  /** The keys `drawEdge` stores for a list of node pairs. */
  function KeySet(ps: seq<(nat, nat)>): set<string>
  {
    set p | p in ps :: Key(p.0, p.1)
  }

  lemma KeySetMember(ps: seq<(nat, nat)>, a: nat, b: nat)
    ensures Key(a, b) in KeySet(ps) <==> (a, b) in ps
  {
    if Key(a, b) in KeySet(ps) {
      var p :| p in ps && Key(p.0, p.1) == Key(a, b);
      KeyInjective(p.0, p.1, a, b);
    }
  }

  lemma KeySetAppend(ps: seq<(nat, nat)>, p: (nat, nat))
    ensures KeySet(ps + [p]) == KeySet(ps) + {Key(p.0, p.1)}
  {
  }

  /** Distinct pairs give distinct keys. */
  lemma {:induction false} KeySetSize(ps: seq<(nat, nat)>)
    requires Distinct(ps)
    ensures |KeySet(ps)| == |ps|
  {
    if ps != [] {
      var init, last := ps[..|ps| - 1], ps[|ps| - 1];
      assert ps == init + [last];
      KeySetAppend(init, last);
      KeySetMember(init, last.0, last.1);
      KeySetSize(init);
    }
  }

  /** A key as `drawEdge` writes it: it parses back to two ids and renders to itself. */
  predicate Canonical(k: string)
  {
    ParseKey(k).Some? && Key(ParseKey(k).value.0, ParseKey(k).value.1) == k
  }

  /** A key whose two ends are nodes in range that are not deactivated. */
  predicate EdgeOver(k: string, flags: seq<bool>)
  {
    Canonical(k) &&
    var (a, b) := ParseKey(k).value;
    a < |flags| && b < |flags| && !flags[a] && !flags[b]
  }

  lemma KeyEdgeOver(a: nat, b: nat, flags: seq<bool>)
    ensures EdgeOver(Key(a, b), flags) <==> a < |flags| && b < |flags| && !flags[a] && !flags[b]
  {
    KeyRoundTrip(a, b);
  }

  /** The other orientation of a key. */
  function Reversed(k: string): string
  {
    match ParseKey(k)
    case Some((a, b)) => Key(b, a)
    case None => k
  }

  /** No pair is stored under both `"a-b"` and `"b-a"`. */
  predicate OneOrientation(edges: set<string>)
  {
    forall k | k in edges :: Reversed(k) in edges ==> Reversed(k) == k
  }

  /** The edge part of a completed two-click gesture with pending node a and clicked node b. */
  function Toggle(edges: set<string>, a: nat, b: nat): set<string>
  {
    if Key(a, b) in edges || Key(b, a) in edges then edges - {Key(a, b)} - {Key(b, a)}
    else edges + {Key(a, b)}
  }

  /** The keys `removeEdges` keeps: those that neither start with `x-` nor end with `-x`. */
  function RemoveIncident(edges: set<string>, x: nat): set<string>
  {
    set k | k in edges && !HasEndpoint(k, x)
  }

  /** On canonical keys the string test of `removeEdges` deletes exactly the keys with x as an endpoint. */
  lemma RemoveIncidentExact(edges: set<string>, x: nat, a: nat, b: nat)
    ensures Key(a, b) in RemoveIncident(edges, x) <==> Key(a, b) in edges && a != x && b != x
  {
    HasEndpointExact(a, b, x);
  }

  /** A toggle keeps every key canonical with active ends, and keeps one orientation per pair. */
  lemma ToggleKeepsInvariant(edges: set<string>, flags: seq<bool>, a: nat, b: nat)
    requires forall k | k in edges :: EdgeOver(k, flags)
    requires OneOrientation(edges)
    requires a < |flags| && b < |flags| && !flags[a] && !flags[b]
    ensures forall k | k in Toggle(edges, a, b) :: EdgeOver(k, flags)
    ensures OneOrientation(Toggle(edges, a, b))
  {
    KeyEdgeOver(a, b, flags);
    KeyRoundTrip(a, b);
    var t := Toggle(edges, a, b);
    forall k | k in t && Reversed(k) in t
      ensures Reversed(k) == k
    {
      if k in edges && Reversed(k) in edges {
      } else {
        var (c, d) := ParseKey(k).value;
        assert k == Key(c, d);
        KeyRoundTrip(c, d);
        if Reversed(k) == Key(a, b) {
          KeyInjective(d, c, a, b);
        } else {
          KeyInjective(c, d, a, b);
        }
      }
    }
  }

  /** A toggle adds or removes exactly one key. */
  lemma ToggleChangesOne(edges: set<string>, a: nat, b: nat)
    requires OneOrientation(edges)
    ensures Key(a, b) in edges || Key(b, a) in edges ==> |Toggle(edges, a, b)| == |edges| - 1
    ensures Key(a, b) !in edges && Key(b, a) !in edges ==> |Toggle(edges, a, b)| == |edges| + 1
  {
    KeyRoundTrip(a, b);
    KeyRoundTrip(b, a);
    if a != b && Key(a, b) in edges {
      assert Reversed(Key(a, b)) == Key(b, a);
      if Key(b, a) == Key(a, b) {
        KeyInjective(a, b, b, a);
      }
    }
  }

  /** Repeating a gesture restores the key set exactly unless the pair was stored the other way round. */
  lemma ToggleTwice(edges: set<string>, a: nat, b: nat)
    ensures Toggle(Toggle(edges, a, b), a, b) == edges <==> Key(b, a) !in edges || a == b
  {
    if a != b && Key(a, b) == Key(b, a) {
      KeyInjective(a, b, b, a);
    }
    if a != b && Key(b, a) in edges {
      assert Key(b, a) !in Toggle(Toggle(edges, a, b), a, b);
    }
  }

  /** The stored edge `"2-0"`, toggled twice by clicking 0 then 2, comes back as `"0-2"`. */
  lemma ToggleTwiceReorients()
    ensures Toggle(Toggle({Key(2, 0)}, 0, 2), 0, 2) == {Key(0, 2)}
    ensures {Key(0, 2)} != {Key(2, 0)}
  {
    if Key(0, 2) == Key(2, 0) {
      KeyInjective(0, 2, 2, 0);
    }
  }

  /** Deactivating x after deleting the keys that touch x leaves every key over active nodes. */
  lemma DeactivateKeepsInvariant(edges: set<string>, flags: seq<bool>, x: nat)
    requires forall k | k in edges :: EdgeOver(k, flags)
    requires x < |flags|
    ensures forall k | k in RemoveIncident(edges, x) :: EdgeOver(k, flags[x := true])
  {
    forall k | k in RemoveIncident(edges, x)
      ensures EdgeOver(k, flags[x := true])
    {
      var (a, b) := ParseKey(k).value;
      RemoveIncidentExact(edges, x, a, b);
    }
  }

  /** The complete graph over the active ids: m(m-1)/2 keys, `"a-b"` with a < b both active. */
  lemma CompleteGraphShape(flags: seq<bool>)
    ensures |KeySet(AllPairs(ActiveIds(flags)))| == Choose2(|ActiveIds(flags)|)
    ensures forall a: nat, b: nat :: Key(a, b) in KeySet(AllPairs(ActiveIds(flags))) <==>
      a < b < |flags| && !flags[a] && !flags[b]
  {
    var ids := ActiveIds(flags);
    AllPairsSorted(ids);
    AllPairsLength(ids);
    KeySetSize(AllPairs(ids));
    forall a: nat, b: nat
      ensures Key(a, b) in KeySet(AllPairs(ids)) <==> a < b < |flags| && !flags[a] && !flags[b]
    {
      KeySetMember(AllPairs(ids), a, b);
      AllPairsMember(ids, a, b);
    }
  }

  /** Every subset of the complete key set satisfies the editor's invariant. */
  lemma CompleteSubsetValid(edges: set<string>, flags: seq<bool>)
    requires edges <= KeySet(AllPairs(ActiveIds(flags)))
    ensures forall k | k in edges :: EdgeOver(k, flags)
    ensures OneOrientation(edges)
  {
    var ids := ActiveIds(flags);
    forall k | k in edges
      ensures EdgeOver(k, flags) && (Reversed(k) in edges ==> Reversed(k) == k)
    {
      var p :| p in AllPairs(ids) && k == Key(p.0, p.1);
      AllPairsMember(ids, p.0, p.1);
      KeyEdgeOver(p.0, p.1, flags);
      KeyRoundTrip(p.0, p.1);
      KeySetMember(AllPairs(ids), p.1, p.0);
      AllPairsMember(ids, p.1, p.0);
    }
  }

  /** The pairs `drawRandomEdges` draws over the nodes `ids`: the first k of the shuffled list, k the sampled count. */
  function RandomEdgeList(ids: seq<nat>, z0: real, uniform: nat -> real): seq<(nat, nat)>
    requires IsUniformSource(uniform)
  {
    var count := SampledEdgeCount(|ids|, z0);
    SampledEdgeCountBounds(|ids|, z0);
    AllPairsLength(ids);
    ShufflePermutes(AllPairs(ids), uniform);
    assert |Shuffled(AllPairs(ids), uniform)| == |AllPairs(ids)| by {
      ShuffleFromPermutes(AllPairs(ids), uniform, |AllPairs(ids)| - 1);
    }
    Shuffled(AllPairs(ids), uniform)[..count]
  }

  /** The keys `drawRandomEdges` leaves. */
  function RandomEdgeKeys(flags: seq<bool>, z0: real, uniform: nat -> real): set<string>
    requires IsUniformSource(uniform)
  {
    KeySet(RandomEdgeList(ActiveIds(flags), z0, uniform))
  }

  /** Exactly k distinct keys `"i-j"`, i < j, both ends active, where k is the clamped, rounded sample. */
  lemma RandomEdgesShape(flags: seq<bool>, z0: real, uniform: nat -> real)
    requires IsUniformSource(uniform)
    ensures |RandomEdgeKeys(flags, z0, uniform)| == SampledEdgeCount(|ActiveIds(flags)|, z0)
    ensures 0 <= SampledEdgeCount(|ActiveIds(flags)|, z0) <= Choose2(|ActiveIds(flags)|)
    ensures RandomEdgeKeys(flags, z0, uniform) <= KeySet(AllPairs(ActiveIds(flags)))
  {
    var ids := ActiveIds(flags);
    var all := AllPairs(ids);
    var count := SampledEdgeCount(|ids|, z0);
    SampledEdgeCountBounds(|ids|, z0);
    AllPairsLength(ids);
    AllPairsSorted(ids);
    var sh := Shuffled(all, uniform);
    ShufflePermutes(all, uniform);
    ShuffleFromPermutes(all, uniform, |all| - 1);
    DistinctByMultiset(all, sh);
    KeySetSize(sh[..count]);
    forall p | p in sh[..count]
      ensures p in all
    {
      assert p in multiset(sh);
    }
  }

  /** The nested loops of lines 186-191 that push every pair (nodes[i], nodes[j]), i < j. */
  method CollectPossibleEdges(nodes: seq<nat>) returns (possibleEdges: seq<(nat, nat)>)
    ensures possibleEdges == AllPairs(nodes)
  {
    possibleEdges := [];
    for i := 0 to |nodes|
      invariant possibleEdges == PairsBefore(nodes, i)
    {
      for j := i + 1 to |nodes|
        invariant possibleEdges == PairsBefore(nodes, i) + Row(nodes, i)[..j - i - 1]
      {
        assert Row(nodes, i)[..j - i] == Row(nodes, i)[..j - i - 1] + [(nodes[i], nodes[j])];
        possibleEdges := possibleEdges + [(nodes[i], nodes[j])];
      }
      assert Row(nodes, i)[..|nodes| - i - 1] == Row(nodes, i);
    }
  }

  /** The selection part of `drawRandomEdges`: all pairs, the sampled count capped at their number, a shuffle, a prefix. */
  method PickRandomEdges(nodes: seq<nat>, z0: real, uniform: nat -> real) returns (randomEdges: seq<(nat, nat)>)
    requires IsUniformSource(uniform)
    ensures randomEdges == RandomEdgeList(nodes, z0, uniform)
  {
    var possibleEdges := CollectPossibleEdges(nodes);
    var maxNumberEdges := (|nodes| * (|nodes| - 1)) as real / 2.0;
    var std := maxNumberEdges / 6.0;
    var randNumberEdges := BoundedNormalSample(maxNumberEdges, std, z0);
    var count := Round(randNumberEdges);
    assert count == SampledEdgeCount(|nodes|, z0);
    SampledEdgeCountBounds(|nodes|, z0);
    AllPairsLength(nodes);
    count := if count < |possibleEdges| then count else |possibleEdges|;
    var shuffled := new (nat, nat)[|possibleEdges|](i requires 0 <= i < |possibleEdges| => possibleEdges[i]);
    assert shuffled[..] == possibleEdges;
    ShuffleArray(shuffled, uniform);
    randomEdges := shuffled[..count];
  }

  class Network {
    const numberOfNodes: nat
    const deactivated: array<bool>
    var edges: set<string>
    var lastClickedNode: Option<nat>

    ghost predicate Valid()
      reads this, deactivated
    {
      && deactivated.Length == numberOfNodes
      && (lastClickedNode.Some? ==> lastClickedNode.value < numberOfNodes)
      && (forall k | k in edges :: EdgeOver(k, deactivated[..]))
      && OneOrientation(edges)
    }

    /** The constructor followed by `createNode(i)` for i = 0..numberOfNodes-1: no edge, no pending node, nothing deactivated. */
    constructor (numberOfNodes: nat)
      ensures Valid() && fresh(deactivated)
      ensures this.numberOfNodes == numberOfNodes
      ensures edges == {} && lastClickedNode == None
      ensures forall i | 0 <= i < numberOfNodes :: !deactivated[i]
    {
      this.numberOfNodes := numberOfNodes;
      deactivated := new bool[numberOfNodes](_ => false);
      edges := {};
      lastClickedNode := None;
    }

    /** The key-insertion part of `drawEdge(node1, node2)`. */
    method DrawEdge(a: nat, b: nat)
      modifies this`edges
      ensures edges == old(edges) + {Key(a, b)}
    {
      edges := edges + {Key(a, b)};
    }

    /** `removeEdges(node)`: visits every key once and deletes those starting with `x-` or ending with `-x`. */
    method RemoveEdges(x: nat)
      modifies this`edges
      ensures edges == RemoveIncident(old(edges), x)
    {
      var pending := edges;
      while pending != {}
        invariant pending <= old(edges)
        invariant edges == pending + RemoveIncident(old(edges) - pending, x)
        decreases pending
      {
        var key :| key in pending;
        if HasEndpoint(key, x) {
          edges := edges - {key};
        }
        pending := pending - {key};
      }
    }

    /** `createRemoveEdge(node)`: the single-click state machine. */
    method CreateRemoveEdge(x: nat)
      requires Valid() && x < numberOfNodes
      modifies this`edges, this`lastClickedNode
      ensures Valid()
      ensures deactivated[x] ==> edges == old(edges) && lastClickedNode == old(lastClickedNode)
      ensures !deactivated[x] && old(lastClickedNode).None? ==>
        edges == old(edges) && lastClickedNode == Some(x)
      ensures !deactivated[x] && old(lastClickedNode).Some? && deactivated[old(lastClickedNode).value] ==>
        edges == old(edges) && lastClickedNode == None
      ensures !deactivated[x] && old(lastClickedNode).Some? && !deactivated[old(lastClickedNode).value] ==>
        edges == Toggle(old(edges), old(lastClickedNode).value, x) && lastClickedNode == None
    {
      if deactivated[x] {
        return;
      }
      if lastClickedNode.Some? {
        var a := lastClickedNode.value;
        if deactivated[a] {
          lastClickedNode := None;
          return;
        }
        ToggleKeepsInvariant(edges, deactivated[..], a, x);
        var edgeKey, reverseEdgeKey := Key(a, x), Key(x, a);
        if edgeKey in edges || reverseEdgeKey in edges {
          edges := edges - {edgeKey};
          edges := edges - {reverseEdgeKey};
        } else {
          DrawEdge(a, x);
        }
        lastClickedNode := None;
      } else {
        lastClickedNode := Some(x);
      }
    }

    /** `activateDeactivateNode(node)`: a double click flips the flag; deactivating also deletes the node's edges. */
    method ActivateDeactivateNode(x: nat)
      requires Valid() && x < numberOfNodes
      modifies deactivated, this`edges
      ensures Valid()
      ensures deactivated[..] == old(deactivated[..])[x := !old(deactivated[x])]
      ensures old(deactivated[x]) ==> edges == old(edges)
      ensures !old(deactivated[x]) ==> edges == RemoveIncident(old(edges), x)
      ensures lastClickedNode == old(lastClickedNode)
    {
      if deactivated[x] {
        deactivated[x] := false;
        assert forall k | k in edges :: EdgeOver(k, old(deactivated[..])) ==> EdgeOver(k, deactivated[..]);
      } else {
        ghost var flags := deactivated[..];
        deactivated[x] := true;
        RemoveEdges(x);
        DeactivateKeepsInvariant(old(edges), flags, x);
        assert deactivated[..] == flags[x := true];
      }
    }

    /** `clearEdges()`: `removeEdges` for every node, deactivated or not. */
    method ClearEdges()
      requires Valid()
      modifies this`edges
      ensures Valid() && edges == {}
    {
      for i := 0 to numberOfNodes
        invariant edges == set k | k in old(edges) && forall y | 0 <= y < i :: !HasEndpoint(k, y)
      {
        RemoveEdges(i);
      }
      forall k | k in old(edges)
        ensures HasEndpoint(k, ParseKey(k).value.0)
      {
        var (a, b) := ParseKey(k).value;
        HasEndpointExact(a, b, a);
      }
    }

    /** `drawAllEdges()`: clear, then one key `"i-j"` per pair of active nodes i < j. */
    method DrawAllEdges()
      requires Valid()
      modifies this`edges
      ensures Valid()
      ensures edges == KeySet(AllPairs(ActiveIds(deactivated[..])))
    {
      ClearEdges();
      var nodes := ActiveIds(deactivated[..]);
      for i := 0 to |nodes|
        invariant edges == KeySet(PairsBefore(nodes, i))
      {
        for j := i + 1 to |nodes|
          invariant edges == KeySet(PairsBefore(nodes, i) + Row(nodes, i)[..j - i - 1])
        {
          assert Row(nodes, i)[..j - i] == Row(nodes, i)[..j - i - 1] + [(nodes[i], nodes[j])];
          KeySetAppend(PairsBefore(nodes, i) + Row(nodes, i)[..j - i - 1], (nodes[i], nodes[j]));
          DrawEdge(nodes[i], nodes[j]);
        }
        assert Row(nodes, i)[..|nodes| - i - 1] == Row(nodes, i);
      }
      CompleteSubsetValid(edges, deactivated[..]);
    }

    /**
     * `drawRandomEdges()`: clear, enumerate the possible pairs, sample a count from
     * the bounded normal, round it, cap it, shuffle the pairs and draw the first ones.
     * z0 is the Box-Muller deviate; uniform(i) is the draw the shuffle makes at index i.
     */
    method DrawRandomEdges(z0: real, uniform: nat -> real)
      requires Valid() && IsUniformSource(uniform)
      modifies this`edges
      ensures Valid()
      ensures edges == RandomEdgeKeys(deactivated[..], z0, uniform)
    {
      ClearEdges();
      var nodes := ActiveIds(deactivated[..]);
      var randomEdges := PickRandomEdges(nodes, z0, uniform);
      for e := 0 to |randomEdges|
        invariant edges == KeySet(randomEdges[..e])
      {
        assert randomEdges[..e + 1] == randomEdges[..e] + [randomEdges[e]];
        KeySetAppend(randomEdges[..e], randomEdges[e]);
        DrawEdge(randomEdges[e].0, randomEdges[e].1);
      }
      assert randomEdges[..|randomEdges|] == randomEdges;
      RandomEdgesShape(deactivated[..], z0, uniform);
      CompleteSubsetValid(edges, deactivated[..]);
    }
  }
}
