/**
 * The backend belief-sharing network (network.py): agents keyed by id, a
 * neighbour list per agent, and one simulation round made of sampling, data
 * sharing and belief updates. The random draws (`uniform.rvs` for the priors,
 * `binom.rvs` inside `CoinTosser.sample`) are inputs of the methods that use them.
 */
module BeliefNetwork {
  import opened BeliefAgent

  /** Agents that are not curious stop sampling once their belief drops below this. */
  const SAMPLE_THRESHOLD: real := 0.5

  /** Priors are drawn uniformly from [0, MAX_PARAMETER). */
  const MAX_PARAMETER: real := 20.0

  /** A belief above this counts as certainty in the hypothesis. */
  const CONSENSUS: real := 0.99

  datatype Status = TrueConsensus | FalseConsensus | Polarization | Learning

  /** What `get_status` does: return a status, return None, or raise IndexError. */
  datatype Verdict = Reached(status: Status) | NoStatus | IndexError

  predicate InSamplerRange(p: Prior)
  {
    0.0 <= p.0 < MAX_PARAMETER && 0.0 <= p.1 < MAX_PARAMETER
  }

  /** `CoinTosser.sample(n)`: k successes (drawn by the caller) out of n trials. */
  function Sample(k: nat, n: nat): (d: Data)
    requires k <= n
    ensures WellFormed(d) && d.1 == n as real && d.0 == k as real
  {
    (k as real, n as real)
  }

  /** The skip rule of `run_experiments`. */
  predicate SkipsSampling(curious: bool, belief: real)
  {
    !curious && belief < SAMPLE_THRESHOLD
  }

  /** Every agent has a belief to report. */
  predicate AllReported(hs: seq<seq<real>>)
  {
    forall i :: 0 <= i < |hs| ==> |hs[i]| > 0
  }

  /** Every agent has at least two beliefs, so the polarization test can look one back. */
  predicate AllTwice(hs: seq<seq<real>>)
  {
    forall i :: 0 <= i < |hs| ==> |hs[i]| >= 2
  }

  /** The true-consensus test: every latest belief above CONSENSUS. */
  predicate AllAbove(hs: seq<seq<real>>)
    requires AllReported(hs)
  {
    forall i :: 0 <= i < |hs| ==> Last(hs[i]) > CONSENSUS
  }

  /** The false-consensus test: every latest belief below SAMPLE_THRESHOLD. */
  predicate AllBelow(hs: seq<seq<real>>)
    requires AllReported(hs)
  {
    forall i :: 0 <= i < |hs| ==> Last(hs[i]) < SAMPLE_THRESHOLD
  }

  /** The polarization test: every latest belief repeats the one before it or is above CONSENSUS. */
  predicate AllSettled(hs: seq<seq<real>>)
    requires AllTwice(hs)
  {
    forall i :: 0 <= i < |hs| ==> hs[i][|hs[i]| - 2] == Last(hs[i]) || Last(hs[i]) > CONSENSUS
  }

  /**
   * `get_status` over the agents' histories, in agent order. An empty history,
   * or a one-entry history reaching the polarization test, raises IndexError.
   */
  function Classify(hs: seq<seq<real>>, mistrust: real): (v: Verdict)
    ensures hs == [] ==> v == Reached(TrueConsensus)
    ensures v == IndexError <==>
              !AllReported(hs) || (mistrust != 0.0 && !AllAbove(hs) && !AllBelow(hs) && !AllTwice(hs))
    ensures AllReported(hs) ==> (v == Reached(TrueConsensus) <==> AllAbove(hs))
    ensures AllReported(hs) ==> (v == Reached(FalseConsensus) <==> !AllAbove(hs) && AllBelow(hs))
    ensures AllReported(hs) ==> (v == NoStatus <==> mistrust == 0.0 && !AllAbove(hs) && !AllBelow(hs))
    ensures mistrust == 0.0 ==> v != Reached(Polarization) && v != Reached(Learning)
    ensures mistrust != 0.0 && AllTwice(hs) ==>
              (v == Reached(Polarization) <==> !AllAbove(hs) && !AllBelow(hs) && AllSettled(hs))
    ensures mistrust != 0.0 && AllTwice(hs) ==>
              (v == Reached(Learning) <==> !AllAbove(hs) && !AllBelow(hs) && !AllSettled(hs))
  {
    if !AllReported(hs) then IndexError
    else if AllAbove(hs) then Reached(TrueConsensus)
    else if AllBelow(hs) then Reached(FalseConsensus)
    else if mistrust != 0.0 then
      if !AllTwice(hs) then IndexError
      else if AllSettled(hs) then Reached(Polarization)
      else Reached(Learning)
    else NoStatus
  }

  /** `add_edge` when both ids are known: b joins a's list, then a joins b's. */
  function Link(adj: map<int, seq<int>>, a: int, b: int): (r: map<int, seq<int>>)
    requires a in adj && b in adj
    ensures r.Keys == adj.Keys
    ensures forall x :: x in r && x != a && x != b ==> r[x] == adj[x]
    ensures a != b ==> r[a] == adj[a] + [b] && r[b] == adj[b] + [a]
    ensures a == b ==> r[a] == adj[a] + [a, a]
  {
    var r1 := adj[a := adj[a] + [b]];
    r1[b := r1[b] + [a]]
  }

  /** Each link adds one to the multiplicity of b in a's list and of a in b's list, two for a self-loop. */
  lemma LinkCounts(adj: map<int, seq<int>>, a: int, b: int, x: int, y: int)
    requires a in adj && b in adj && x in adj
    ensures multiset(Link(adj, a, b)[x])[y] ==
              multiset(adj[x])[y] + (if (x, y) == (a, b) then 1 else 0) + (if (y, x) == (a, b) then 1 else 0)
  {
    var r := Link(adj, a, b);
    if x == a && a == b {
      assert r[x] == adj[x] + [a] + [a];
    } else if x == a {
      assert r[x] == adj[x] + [b];
    } else if x == b {
      assert r[x] == adj[x] + [a];
    }
  }

  /** Every id listed as a neighbour has a neighbour list of its own. */
  ghost predicate NeighboursKnown(adj: map<int, seq<int>>)
  {
    forall i, j :: i in adj && j in adj[i] ==> j in adj
  }

  lemma LinkKeepsNeighboursKnown(adj: map<int, seq<int>>, a: int, b: int)
    requires NeighboursKnown(adj) && a in adj && b in adj
    ensures NeighboursKnown(Link(adj, a, b))
  {
    var r := Link(adj, a, b);
    forall i, j | i in r && j in r[i]
      ensures j in r
    {
      if i == a || i == b {
        assert r[i] == adj[i] + [b] || r[i] == adj[i] + [a] || r[i] == adj[i] + [a, a];
      }
    }
  }

  /**
   * The wiring of a network: every agent has a neighbour list, every
   * neighbour is an agent, and `order` lists each agent exactly once.
   */
  ghost predicate Wiring<T>(agents: map<int, T>, adj: map<int, seq<int>>, order: seq<int>)
  {
    && agents.Keys == adj.Keys
    && NeighboursKnown(adj)
    && (forall p :: 0 <= p < |order| ==> order[p] in agents)
    && (forall id :: id in agents ==> id in order)
    && (forall p, q :: 0 <= p < q < |order| ==> order[p] != order[q])
  }

  /** No two ids share a value. */
  ghost predicate Injective<T>(m: map<int, T>)
  {
    forall i, j :: i in m && j in m && i != j ==> m[i] != m[j]
  }

  /** Adding an agent with no neighbours keeps the wiring; a new id goes to the end of the order. */
  lemma AddKeepsWiring<T>(agents: map<int, T>, adj: map<int, seq<int>>, order: seq<int>, id: int, v: T)
    requires Wiring(agents, adj, order)
    ensures Wiring(agents[id := v], adj[id := []], if id in agents then order else order + [id])
  {
  }

  /** Storing a value no other id holds keeps the map injective. */
  lemma AddKeepsInjective<T>(m: map<int, T>, id: int, v: T)
    requires Injective(m) && v !in m.Values
    ensures Injective(m[id := v])
  {
  }

  /** Linking two agents keeps the wiring. */
  lemma LinkKeepsWiring<T>(agents: map<int, T>, adj: map<int, seq<int>>, order: seq<int>, a: int, b: int)
    requires Wiring(agents, adj, order) && a in agents && b in agents
    ensures Wiring(agents, Link(adj, a, b), order)
  {
    LinkKeepsNeighboursKnown(adj, a, b);
  }

  /** Linking (a, b) after the edges `es` gives the multiplicities of `es` followed by (a, b). */
  lemma LinkExtendsCounts(adj: map<int, seq<int>>, es: seq<(int, int)>, a: int, b: int)
    requires a in adj && b in adj
    requires forall x, y :: x in adj ==> multiset(adj[x])[y] == Occurrences(es, x, y)
    ensures forall x, y :: x in adj ==> multiset(Link(adj, a, b)[x])[y] == Occurrences(es + [(a, b)], x, y)
  {
    assert (es + [(a, b)])[..|es|] == es;
    forall x, y | x in adj
      ensures multiset(Link(adj, a, b)[x])[y] == Occurrences(es + [(a, b)], x, y)
    {
      LinkCounts(adj, a, b, x, y);
    }
  }

  /** The position of the last occurrence of x in s. */
  function LastIndexOf(s: seq<int>, x: int): (k: nat)
    requires x in s
    ensures k < |s| && s[k] == x
    ensures forall j :: k < j < |s| ==> s[j] != x
    decreases |s|
  {
    if s[|s| - 1] == x then |s| - 1 else LastIndexOf(s[..|s| - 1], x)
  }

  /** The first position of an id in a list. */
  function FirstIndexOf(s: seq<int>, x: int): (k: nat)
    requires x in s
    ensures k < |s| && s[k] == x
    ensures forall j :: 0 <= j < k ==> s[j] != x
  {
    if s[0] == x then 0 else 1 + FirstIndexOf(s[1..], x)
  }

  /**
   * The ids of a list, each kept where it first occurs: the key order of a
   * dict filled by assigning the ids in list order.
   */
  function FirstOccurrences(s: seq<int>): seq<int>
    decreases |s|
  {
    if s == [] then []
    else
      var prefix := FirstOccurrences(s[..|s| - 1]);
      if s[|s| - 1] in prefix then prefix else prefix + [s[|s| - 1]]
  }

  /**
   * `FirstOccurrences` lists every id of the list, each once, and an id first
   * seen earlier in the list comes earlier.
   */
  lemma {:induction false} FirstOccurrencesShape(s: seq<int>)
    ensures forall x :: x in FirstOccurrences(s) <==> x in s
    ensures forall p, q :: 0 <= p < q < |FirstOccurrences(s)| ==> FirstOccurrences(s)[p] != FirstOccurrences(s)[q]
    ensures forall p, q :: 0 <= p < q < |FirstOccurrences(s)| ==>
              FirstIndexOf(s, FirstOccurrences(s)[p]) < FirstIndexOf(s, FirstOccurrences(s)[q])
    decreases |s|
  {
    if s != [] {
      var init := s[..|s| - 1];
      FirstOccurrencesShape(init);
      assert s == init + [s[|s| - 1]];
      var r, prefix := FirstOccurrences(s), FirstOccurrences(init);
      forall x | x in init
        ensures FirstIndexOf(s, x) == FirstIndexOf(init, x)
      {
        var k, k' := FirstIndexOf(s, x), FirstIndexOf(init, x);
        assert s[k'] == x;
      }
      forall p, q | 0 <= p < q < |r|
        ensures FirstIndexOf(s, r[p]) < FirstIndexOf(s, r[q])
      {
        assert r[p] in prefix;
        if q == |prefix| {
          assert r[q] == s[|s| - 1] && r[q] !in init;
        }
      }
    }
  }

  /** Extending the list by one id adds that id at the end, unless it was already listed. */
  lemma FirstOccurrencesStep(s: seq<int>, i: nat, before: seq<int>, after: seq<int>)
    requires i < |s| && before == FirstOccurrences(s[..i])
    requires after == if s[i] in s[..i] then before else before + [s[i]]
    ensures after == FirstOccurrences(s[..i + 1])
  {
    var t := s[..i + 1];
    assert t[..i] == s[..i] && t[i] == s[i];
    FirstOccurrencesShape(s[..i]);
    assert s[i] in before <==> s[i] in s[..i];
  }

  /** Extending the list by one id moves that id's last position to the end and keeps the others. */
  lemma LastIndexOfStep(s: seq<int>, i: nat, x: int)
    requires i < |s| && x in s[..i + 1]
    ensures LastIndexOf(s[..i + 1], x) == if s[i] == x then i else LastIndexOf(s[..i], x)
  {
    assert s[..i + 1][..i] == s[..i];
  }

  /**
   * Storing under `s[i]` an agent created with `ps[i]` turns a map holding,
   * for the ids of `s[..i]`, agents created with the prior of their last
   * occurrence into one that does so for `s[..i + 1]`.
   */
  lemma AddedPriors(s: seq<int>, ps: seq<Prior>, i: nat, before: map<int, Agent>, after: map<int, Agent>)
    requires i < |s| && |ps| == |s|
    requires forall id :: id in before <==> id in s[..i]
    requires forall id :: id in before ==> before[id].initialPrior == ps[LastIndexOf(s[..i], id)]
    requires s[i] in after && after == before[s[i] := after[s[i]]] && after[s[i]].initialPrior == ps[i]
    ensures forall id :: id in after <==> id in s[..i + 1]
    ensures forall id :: id in after ==> after[id].initialPrior == ps[LastIndexOf(s[..i + 1], id)]
  {
    assert s[..i + 1] == s[..i] + [s[i]];
    forall id | id in after
      ensures after[id].initialPrior == ps[LastIndexOf(s[..i + 1], id)]
    {
      LastIndexOfStep(s, i, id);
    }
  }

  /** How often {x, y} is listed in `es`, each orientation counted (so (x, x) counts twice). */
  function Occurrences(es: seq<(int, int)>, x: int, y: int): nat
  {
    if es == [] then 0
    else
      var e := es[|es| - 1];
      Occurrences(es[..|es| - 1], x, y) + (if e == (x, y) then 1 else 0) + (if e == (y, x) then 1 else 0)
  }

  lemma {:induction false} OccurrencesSymmetric(es: seq<(int, int)>, x: int, y: int)
    ensures Occurrences(es, x, y) == Occurrences(es, y, x)
    decreases |es|
  {
    if es != [] {
      OccurrencesSymmetric(es[..|es| - 1], x, y);
    }
  }

  /** Sum of the data of the listed ids, left to right. */
  function SumData(nbs: seq<int>, data: map<int, Data>): Data
    requires forall j :: j in nbs ==> j in data
    decreases |nbs|
  {
    if nbs == [] then (0.0, 0.0)
    else
      var last := nbs[|nbs| - 1];
      assert last in nbs;
      Merge(SumData(nbs[..|nbs| - 1], data), data[last])
  }

  /**
   * What `combine_data` accumulates for an agent with this mistrust whose
   * latest belief is `mine`, when agent j's latest belief is `beliefs[j]` and
   * it holds `data[j]`: the agent's weighing of each neighbour's data (as
   * `weigh_data` computes it), summed left to right.
   */
  function Incoming(mistrust: real, mine: real, nbs: seq<int>, beliefs: map<int, real>, data: map<int, Data>): Data
    requires forall j :: j in nbs ==> j in beliefs && j in data
    decreases |nbs|
  {
    if nbs == [] then (0.0, 0.0)
    else
      var last := nbs[|nbs| - 1];
      assert last in nbs;
      Merge(Incoming(mistrust, mine, nbs[..|nbs| - 1], beliefs, data),
            Scale(data[last], Weight(mistrust, Abs(mine - beliefs[last]))))
  }

  /** Without mistrust an agent takes its neighbours' data at face value. */
  lemma {:induction false} IncomingWithoutMistrust(mine: real, nbs: seq<int>, beliefs: map<int, real>, data: map<int, Data>)
    requires forall j :: j in nbs ==> j in beliefs && j in data
    ensures Incoming(0.0, mine, nbs, beliefs, data) == SumData(nbs, data)
    decreases |nbs|
  {
    if nbs != [] {
      IncomingWithoutMistrust(mine, nbs[..|nbs| - 1], beliefs, data);
    }
  }

  /**
   * Weighed well-formed data is well formed; with non-negative mistrust it
   * never exceeds the raw sum.
   */
  lemma {:induction false} IncomingBounded(mistrust: real, mine: real, nbs: seq<int>, beliefs: map<int, real>, data: map<int, Data>)
    requires forall j :: j in nbs ==> j in beliefs && j in data && WellFormed(data[j])
    ensures WellFormed(Incoming(mistrust, mine, nbs, beliefs, data))
    ensures mistrust >= 0.0 ==> Incoming(mistrust, mine, nbs, beliefs, data).0 <= SumData(nbs, data).0
    ensures mistrust >= 0.0 ==> Incoming(mistrust, mine, nbs, beliefs, data).1 <= SumData(nbs, data).1
    decreases |nbs|
  {
    if nbs != [] {
      IncomingBounded(mistrust, mine, nbs[..|nbs| - 1], beliefs, data);
      var last := nbs[|nbs| - 1];
      assert last in nbs;
    }
  }

  /** The histories of the listed agents, in list order (the `hyps` list of `get_status`). */
  function HistoriesOf(ids: seq<int>, agents: map<int, Agent>): (hs: seq<seq<real>>)
    reads agents.Values`history
    requires forall j :: j in ids ==> j in agents
    ensures |hs| == |ids|
    ensures forall k :: 0 <= k < |ids| ==> var id := ids[k]; id in agents && hs[k] == agents[id].history
    decreases |ids|
  {
    if ids == [] then []
    else
      var last := ids[|ids| - 1];
      assert last in ids;
      HistoriesOf(ids[..|ids| - 1], agents) + [agents[last].history]
  }

  /** The latest belief of each agent. */
  ghost function Beliefs(agents: map<int, Agent>): (m: map<int, real>)
    reads agents.Values`history
    requires forall j :: j in agents ==> |agents[j].history| > 0
    ensures m.Keys == agents.Keys
    ensures forall j :: j in agents ==> m[j] == Last(agents[j].history)
  {
    map j | j in agents :: Last(agents[j].history)
  }

  /** The data each agent holds. */
  ghost function DataOf(agents: map<int, Agent>): (m: map<int, Data>)
    reads agents.Values`data
    ensures m.Keys == agents.Keys
    ensures forall j :: j in agents ==> m[j] == agents[j].data
  {
    map j | j in agents :: agents[j].data
  }

  /** `a` is as `reset` leaves it: initial prior, no data, a one-entry history. */
  predicate AtStart(a: Agent)
    reads a
  {
    && a.prior == a.initialPrior
    && a.data == (0.0, 0.0)
    && a.history == [Belief(a.betaCdf, a.hypothesis, a.initialPrior)]
  }

  /** Nothing about `a` has changed since the old state. */
  twostate predicate Untouched(a: Agent)
    reads a
  {
    a.prior == old(a.prior) && a.history == old(a.history) && a.data == old(a.data)
  }

  /** `merge_data(d)` has run on `a` since the old state, and nothing else. */
  twostate predicate MergedWith(a: Agent, d: Data)
    reads a
  {
    a.prior == old(a.prior) && a.history == old(a.history) && a.data == Merge(old(a.data), d)
  }

  /**
   * The data of an agent after its step of `run_experiments`: an incurious
   * agent whose latest belief is below SAMPLE_THRESHOLD keeps its data; any
   * other merges k successes out of n trials.
   */
  function AfterExperiment(curious: bool, history: seq<real>, data: Data, k: nat, n: nat): Data
  {
    if |history| > 0 && SkipsSampling(curious, Last(history)) then data
    else Merge(data, (k as real, n as real))
  }

  /** A sample of possible size keeps the data a batch of trials. */
  lemma ExperimentKeepsWellFormed(curious: bool, history: seq<real>, data: Data, k: nat, n: nat)
    requires WellFormed(data) && k <= n
    ensures WellFormed(AfterExperiment(curious, history, data, k, n))
  {
  }

  /** One agent's step of `run_experiments`. */
  twostate predicate Experimented(a: Agent, k: nat, n: nat)
    reads a
  {
    a.prior == old(a.prior) && a.history == old(a.history)
    && a.data == AfterExperiment(a.curious, old(a.history), old(a.data), k, n)
  }

  /** One agent's step of the merge loop of `combine_data`: it merges its entry of `combined`, if it has one. */
  twostate predicate MergedEntry(a: Agent, id: int, combined: map<int, Data>)
    reads a
  {
    if id in combined then MergedWith(a, combined[id]) else Untouched(a)
  }

  /** `update_belief` has run on `a` since the old state, and nothing else. */
  twostate predicate BeliefUpdated(a: Agent)
    reads a
  {
    && a.prior == Posterior(old(a.prior), old(a.data))
    && a.history == old(a.history) + [Belief(a.betaCdf, a.hypothesis, a.prior)]
    && a.data == (0.0, 0.0)
  }

  class Network {
    const hypothesis: (real, real)
    const curiousAgents: bool
    const mistrust: real
    const betaCdf: Cdf
    var agents: map<int, Agent>
    var edges: map<int, seq<int>>
    /** The insertion order of the `agents` dict, which is the order every loop visits them in. */
    var order: seq<int>

    /** An agent of this network: it keeps its own invariant and carries the network's parameters. */
    ghost predicate Member(a: Agent)
      reads a`history, a`prior
    {
      && |a.history| > 0
      && a.Valid()
      && a.hypothesis == hypothesis
      && a.curious == curiousAgents
      && a.mistrust == mistrust
      && a.betaCdf == betaCdf
    }

    /** The wiring holds, and the agents are distinct members. */
    ghost predicate Valid()
      reads this, agents.Values`history, agents.Values`prior
    {
      && Wiring(agents, edges, order)
      && Injective(agents)
      && (forall i :: i in agents ==> Member(agents[i]))
    }

    /** The first lines of `Network.__init__`: the parameters and two empty dicts. */
    constructor (hypothesis: (real, real), curiousAgents: bool, mistrust: real, betaCdf: Cdf)
      ensures Valid()
      ensures agents == map[] && edges == map[] && order == []
      ensures this.hypothesis == hypothesis && this.curiousAgents == curiousAgents
      ensures this.mistrust == mistrust && this.betaCdf == betaCdf
    {
      this.hypothesis := hypothesis;
      this.curiousAgents := curiousAgents;
      this.mistrust := mistrust;
      this.betaCdf := betaCdf;
      agents := map[];
      edges := map[];
      order := [];
    }

    /**
     * `add_agent`: a fresh agent with the drawn prior and an empty neighbour
     * list, both replacing any earlier entry for the id (which keeps its place
     * in the order).
     */
    method AddAgent(agentId: int, prior: Prior)
      requires Valid()
      modifies this`agents, this`edges, this`order
      ensures Valid()
      ensures agents.Keys == old(agents.Keys) + {agentId}
      ensures agents == old(agents)[agentId := agents[agentId]]
      ensures edges == old(edges)[agentId := []]
      ensures fresh(agents[agentId])
      ensures agents.Values <= old(agents.Values) + {agents[agentId]}
      ensures agents[agentId].initialPrior == prior && agents[agentId].prior == prior
      ensures agents[agentId].data == (0.0, 0.0) && agents[agentId].history == [Belief(betaCdf, hypothesis, prior)]
      ensures order == if agentId in old(agents) then old(order) else old(order) + [agentId]
    {
      var agent := new Agent(prior, hypothesis, curiousAgents, mistrust, betaCdf);
      AddKeepsWiring(agents, edges, order, agentId, agent);
      AddKeepsInjective(agents, agentId, agent);
      order := if agentId in agents then order else order + [agentId];
      agents := agents[agentId := agent];
      edges := edges[agentId := []];
    }

    /**
     * `add_edge`: b is appended to a's list and then a to b's. An unknown a
     * raises KeyError before any change; an unknown b raises it after b has
     * been appended to a's list.
     */
    method AddEdge(edge: (int, int)) returns (ok: bool)
      requires Valid()
      modifies this`edges
      ensures ok <==> edge.0 in agents && edge.1 in agents
      ensures ok ==> edges == Link(old(edges), edge.0, edge.1) && Valid()
      ensures edge.0 !in agents ==> edges == old(edges)
      ensures edge.0 in agents && edge.1 !in agents ==> edges == old(edges)[edge.0 := old(edges)[edge.0] + [edge.1]]
    {
      var (agent1Id, agent2Id) := edge;
      if agent1Id !in edges {
        return false;
      }
      edges := edges[agent1Id := edges[agent1Id] + [agent2Id]];
      if agent2Id !in edges {
        return false;
      }
      edges := edges[agent2Id := edges[agent2Id] + [agent1Id]];
      assert edges == Link(old(edges), agent1Id, agent2Id);
      LinkKeepsWiring(agents, old(edges), order, agent1Id, agent2Id);
      return true;
    }

    /**
     * `Network.__init__`: all agents are added (in list order; the prior of
     * the last occurrence of an id wins), then all edges, then every agent is
     * reset. The result is null exactly when an edge names an id that is not
     * an agent, where the source raises KeyError.
     */
    static method Create(hypothesis: (real, real), agentList: seq<int>, edgeList: seq<(int, int)>,
                         curiousAgents: bool, mistrust: real, betaCdf: Cdf, priors: seq<Prior>)
      returns (net: Network?)
      requires |priors| == |agentList|
      requires forall i :: 0 <= i < |priors| ==> InSamplerRange(priors[i])
      ensures net == null <==> exists e :: e in edgeList && (e.0 !in agentList || e.1 !in agentList)
      ensures net != null ==> fresh(net) && net.Valid()
      ensures net != null ==> net.hypothesis == hypothesis && net.curiousAgents == curiousAgents && net.mistrust == mistrust
      ensures net != null ==> net.betaCdf == betaCdf
      ensures net != null ==> forall id :: id in net.agents <==> id in agentList
      ensures net != null ==> net.order == FirstOccurrences(agentList)
      ensures net != null ==> forall id :: id in net.agents ==>
                && net.agents[id].initialPrior == priors[LastIndexOf(agentList, id)]
                && InSamplerRange(net.agents[id].initialPrior)
                && net.agents[id].prior == net.agents[id].initialPrior
                && net.agents[id].data == (0.0, 0.0)
                && |net.agents[id].history| == 1
      ensures net != null ==> forall x, y :: x in net.edges ==> multiset(net.edges[x])[y] == Occurrences(edgeList, x, y)
    {
      net := new Network(hypothesis, curiousAgents, mistrust, betaCdf);
      net.AddAgents(agentList, priors);
      var ok, bad := net.AddEdges(edgeList);
      if !ok {
        var (a, b) := edgeList[bad];
        assert (a, b) in edgeList && (a !in agentList || b !in agentList);
        return null;
      }
      forall e | e in edgeList
        ensures e.0 in agentList && e.1 in agentList
      {
        var (a, b) := e;
        assert a in net.agents && b in net.agents;
      }
      net.Reset();
    }

    /** The agent loop of `Network.__init__`, run on the empty network. */
    method AddAgents(agentList: seq<int>, priors: seq<Prior>)
      requires Valid() && agents == map[] && edges == map[] && order == []
      requires |priors| == |agentList|
      requires forall i :: 0 <= i < |priors| ==> InSamplerRange(priors[i])
      modifies this`agents, this`edges, this`order
      ensures Valid()
      ensures fresh(agents.Values)
      ensures forall id :: id in agents <==> id in agentList
      ensures forall id :: id in edges ==> edges[id] == []
      ensures forall id :: id in agents ==> agents[id].initialPrior == priors[LastIndexOf(agentList, id)]
      ensures order == FirstOccurrences(agentList)
    {
      for i := 0 to |agentList|
        invariant Valid()
        invariant order == FirstOccurrences(agentList[..i])
        invariant fresh(agents.Values)
        invariant forall id :: id in agents <==> id in agentList[..i]
        invariant forall id :: id in edges ==> edges[id] == []
        invariant forall id :: id in agents ==> agents[id].initialPrior == priors[LastIndexOf(agentList[..i], id)]
      {
        ghost var before, members := order, agents.Values;
        AddListed(agentList, priors, i);
        FirstOccurrencesStep(agentList, i, before, order);
        forall a | a in agents.Values
          ensures fresh(a)
        {
          if a !in members {
            assert a == agents[agentList[i]];
          }
        }
      }
      assert agentList[..|agentList|] == agentList;
    }

    /** One turn of the agent loop of `Network.__init__`: the agent at position i is added. */
    method AddListed(agentList: seq<int>, priors: seq<Prior>, i: nat)
      requires i < |agentList| && |priors| == |agentList|
      requires Valid()
      requires forall id :: id in agents <==> id in agentList[..i]
      requires forall id :: id in edges ==> edges[id] == []
      requires forall id :: id in agents ==> agents[id].initialPrior == priors[LastIndexOf(agentList[..i], id)]
      modifies this`agents, this`edges, this`order
      ensures Valid()
      ensures forall id :: id in agents <==> id in agentList[..i + 1]
      ensures forall id :: id in edges ==> edges[id] == []
      ensures forall id :: id in agents ==> agents[id].initialPrior == priors[LastIndexOf(agentList[..i + 1], id)]
      ensures fresh(agents[agentList[i]]) && agents.Values <= old(agents.Values) + {agents[agentList[i]]}
      ensures order == if agentList[i] in agentList[..i] then old(order) else old(order) + [agentList[i]]
    {
      var id := agentList[i];
      assert id in agents <==> id in agentList[..i];
      AddAgent(id, priors[i]);
      AddedPriors(agentList, priors, i, old(agents), agents);
    }

    /** The edge loop of `Network.__init__`, run while every neighbour list is empty; false where it raises KeyError. */
    method AddEdges(edgeList: seq<(int, int)>) returns (ok: bool, ghost bad: nat)
      requires Valid()
      requires forall id :: id in edges ==> edges[id] == []
      modifies this`edges
      ensures ok <==> forall e :: e in edgeList ==> e.0 in agents && e.1 in agents
      ensures !ok ==> bad < |edgeList| && (edgeList[bad].0 !in agents || edgeList[bad].1 !in agents)
      ensures ok ==> Valid()
      ensures ok ==> forall x, y :: x in edges ==> multiset(edges[x])[y] == Occurrences(edgeList, x, y)
    {
      for i := 0 to |edgeList|
        invariant Valid()
        invariant forall k :: 0 <= k < i ==> edgeList[k].0 in agents && edgeList[k].1 in agents
        invariant forall x, y :: x in edges ==> multiset(edges[x])[y] == Occurrences(edgeList[..i], x, y)
      {
        ghost var before := edges;
        var linked := AddEdge(edgeList[i]);
        if !linked {
          return false, i;
        }
        LinkExtendsCounts(before, edgeList[..i], edgeList[i].0, edgeList[i].1);
        assert edgeList[..i + 1] == edgeList[..i] + [(edgeList[i].0, edgeList[i].1)];
      }
      assert edgeList[..|edgeList|] == edgeList;
      return true, 0;
    }

    /** `reset`: every agent back to its initial prior, no data, a one-entry history. */
    method Reset()
      requires Valid()
      modifies agents.Values
      ensures Valid()
      ensures forall id :: id in agents ==> AtStart(agents[id])
    {
      var ids, members := order, agents;
      ghost var done: set<int> := {};
      for p := 0 to |ids|
        invariant forall q :: 0 <= q < |ids| ==> (ids[q] in done <==> q < p)
        invariant forall id :: id in members ==> if id in done then AtStart(members[id]) else Untouched(members[id])
      {
        var id := ids[p];
        members[id].Reset();
        done := done + {id};
      }
    }

    /**
     * `run_experiments`: every agent that is curious, or whose belief is at
     * least SAMPLE_THRESHOLD, merges one sample of `sampleSize` trials with
     * `successes[id]` successes; the others are left alone.
     */
    method RunExperiments(sampleSize: nat, successes: map<int, nat>)
      requires Valid()
      requires forall id :: id in agents ==> id in successes && successes[id] <= sampleSize
      modifies agents.Values
      ensures Valid()
      ensures forall id :: id in agents ==> Experimented(agents[id], successes[id], sampleSize)
    {
      var ids, members := order, agents;
      ghost var done: set<int> := {};
      for p := 0 to |ids|
        invariant forall q :: 0 <= q < |ids| ==> (ids[q] in done <==> q < p)
        invariant forall id :: id in members ==>
                    if id in done then Experimented(members[id], successes[id], sampleSize) else Untouched(members[id])
      {
        var id := ids[p];
        var agent := members[id];
        if !agent.curious && agent.history[|agent.history| - 1] < SAMPLE_THRESHOLD {
          // the agent skips this round
        } else {
          var data := Sample(successes[id], sampleSize);
          agent.MergeData(data);
        }
        done := done + {id};
      }
    }

    /** What agent `id` takes in during `combine_data`: its weighing of each neighbour's data, summed in list order. */
    ghost function Received(id: int): Data
      reads this, agents.Values`history, agents.Values`prior, agents.Values`data
      requires Valid() && id in agents
    {
      Incoming(mistrust, Last(agents[id].history), edges[id], Beliefs(agents), DataOf(agents))
    }

    /** The first loop of `combine_data`: every agent with neighbours gets the sum of its weighing of their data. */
    method AggregateNeighbourData() returns (combined: map<int, Data>)
      requires Valid()
      ensures forall id :: id in combined <==> id in agents && edges[id] != []
      ensures forall id :: id in combined ==> combined[id] == Received(id)
    {
      combined := map[];
      ghost var done: set<int> := {};
      for p := 0 to |order|
        invariant forall q :: 0 <= q < p ==> order[q] in done
        invariant done <= agents.Keys
        invariant forall id :: id in combined <==> id in done && edges[id] != []
        invariant forall id :: id in combined ==> combined[id] == Received(id)
      {
        var agentId := order[p];
        if edges[agentId] != [] {
          var total := WeighNeighbours(agentId);
          combined := combined[agentId := total];
        }
        done := done + {agentId};
      }
    }

    /** The inner loop of `combine_data`: one agent's weighing of its neighbours' data, summed in list order. */
    method WeighNeighbours(agentId: int) returns (total: Data)
      requires Valid() && agentId in agents
      ensures total == Received(agentId)
    {
      var agent := agents[agentId];
      var neighborIds := edges[agentId];
      total := (0.0, 0.0);
      for j := 0 to |neighborIds|
        invariant total == Incoming(mistrust, Last(agent.history), neighborIds[..j], Beliefs(agents), DataOf(agents))
      {
        var neighborId := neighborIds[j];
        assert neighborId in neighborIds;
        var neighbor := agents[neighborId];
        var weighed := agent.WeighData(neighbor.data, neighbor);
        assert neighborIds[..j + 1][..j] == neighborIds[..j];
        total := (total.0 + weighed.0, total.1 + weighed.1);
      }
      assert neighborIds[..|neighborIds|] == neighborIds;
    }

    /**
     * `combine_data`: all neighbour data is read and weighed before any agent
     * merges, so each agent's new data depends on the old state alone; agents
     * without neighbours are left unchanged.
     */
    method CombineData()
      requires Valid()
      modifies agents.Values
      ensures Valid()
      ensures forall id :: id in agents ==>
                if edges[id] == [] then Untouched(agents[id])
                else MergedWith(agents[id], old(Received(id)))
    {
      var combined := AggregateNeighbourData();
      MergeCombined(combined);
    }

    /** The second loop of `combine_data`: each agent with an entry merges it, in agent order. */
    method MergeCombined(combined: map<int, Data>)
      requires Valid()
      modifies agents.Values
      ensures Valid()
      ensures forall id :: id in agents ==> MergedEntry(agents[id], id, combined)
    {
      var ids, members := order, agents;
      ghost var done: set<int> := {};
      for p := 0 to |ids|
        invariant forall q :: 0 <= q < |ids| ==> (ids[q] in done <==> q < p)
        invariant forall id :: id in members ==>
                    if id in done then MergedEntry(members[id], id, combined) else Untouched(members[id])
      {
        var id := ids[p];
        if id in combined {
          members[id].MergeData(combined[id]);
        }
        done := done + {id};
      }
    }

    /** `collective_belief_update`: every agent applies the conjugate update to its own data. */
    method CollectiveBeliefUpdate()
      requires Valid()
      modifies agents.Values
      ensures Valid()
      ensures forall id :: id in agents ==> BeliefUpdated(agents[id])
    {
      var ids, members := order, agents;
      ghost var done: set<int> := {};
      for p := 0 to |ids|
        invariant forall q :: 0 <= q < |ids| ==> (ids[q] in done <==> q < p)
        invariant forall id :: id in members ==> if id in done then BeliefUpdated(members[id]) else Untouched(members[id])
      {
        var id := ids[p];
        members[id].UpdateBelief();
        done := done + {id};
      }
    }

    /** The data every agent holds once `run_experiments` has run from the current state. */
    ghost function Sampled(sampleSize: nat, successes: map<int, nat>): (m: map<int, Data>)
      reads this, agents.Values`history, agents.Values`data
      requires forall id :: id in agents ==> id in successes
      ensures m.Keys == agents.Keys
    {
      map id | id in agents ::
        AfterExperiment(agents[id].curious, agents[id].history, agents[id].data, successes[id], sampleSize)
    }

    /**
     * The data agent `id` updates its belief on in a round started from the
     * current state: its sampled data merged with its weighing of what its
     * neighbours sampled.
     */
    ghost function RoundData(id: int, sampleSize: nat, successes: map<int, nat>): Data
      reads this, agents.Values`history, agents.Values`prior, agents.Values`data
      requires Valid() && id in agents
      requires forall j :: j in agents ==> j in successes
    {
      var sampled := Sampled(sampleSize, successes);
      Merge(sampled[id], Incoming(mistrust, Last(agents[id].history), edges[id], Beliefs(agents), sampled))
    }

    /** From well-formed data and possible samples, a round gathers a well-formed batch for every agent. */
    lemma RoundDataWellFormed(id: int, sampleSize: nat, successes: map<int, nat>)
      requires Valid() && id in agents
      requires forall j :: j in agents ==> j in successes && successes[j] <= sampleSize && WellFormed(agents[j].data)
      ensures WellFormed(RoundData(id, sampleSize, successes))
    {
      var sampled := Sampled(sampleSize, successes);
      forall j | j in agents
        ensures WellFormed(sampled[j])
      {
        ExperimentKeepsWellFormed(agents[j].curious, agents[j].history, agents[j].data, successes[j], sampleSize);
      }
      IncomingBounded(mistrust, Last(agents[id].history), edges[id], Beliefs(agents), sampled);
    }

    /** Without mistrust an agent updates on its own sample plus the plain sum of its neighbours' samples. */
    lemma RoundDataWithoutMistrust(id: int, sampleSize: nat, successes: map<int, nat>)
      requires Valid() && id in agents && mistrust == 0.0
      requires forall j :: j in agents ==> j in successes
      ensures RoundData(id, sampleSize, successes) ==
                Merge(Sampled(sampleSize, successes)[id], SumData(edges[id], Sampled(sampleSize, successes)))
    {
      IncomingWithoutMistrust(Last(agents[id].history), edges[id], Beliefs(agents), Sampled(sampleSize, successes));
    }

    /**
     * `run_round`: experiments, then sharing, then the belief update. Every
     * agent's new prior is the conjugate update on the round's data, its
     * history grows by exactly one entry and its data is cleared, so the
     * status is defined afterwards.
     */
    method RunRound(sampleSize: nat, successes: map<int, nat>)
      requires Valid()
      requires forall id :: id in agents ==> id in successes && successes[id] <= sampleSize
      modifies agents.Values
      ensures Valid()
      ensures forall id :: id in agents ==>
                agents[id].prior == Posterior(old(agents[id].prior), old(RoundData(id, sampleSize, successes)))
      ensures forall id :: id in agents ==>
                && |agents[id].history| == |old(agents[id].history)| + 1
                && agents[id].history[..|old(agents[id].history)|] == old(agents[id].history)
                && Last(agents[id].history) == Belief(betaCdf, hypothesis, agents[id].prior)
                && agents[id].data == (0.0, 0.0)
      ensures GetStatus() != IndexError
    {
      ghost var sampled := Sampled(sampleSize, successes);
      ghost var beliefs := Beliefs(agents);
      RunExperiments(sampleSize, successes);
      forall j | j in agents
        ensures DataOf(agents)[j] == sampled[j] && Beliefs(agents)[j] == beliefs[j]
      {
        assert Experimented(agents[j], successes[j], sampleSize);
      }
      assert DataOf(agents) == sampled;
      assert Beliefs(agents) == beliefs;
      CombineData();
      assert forall id :: id in agents ==>
               agents[id].data == old(RoundData(id, sampleSize, successes)) && agents[id].prior == old(agents[id].prior);
      CollectiveBeliefUpdate();
    }

    /** `get_status`: the classification of the agents' latest beliefs. */
    function GetStatus(): (v: Verdict)
      reads this, agents.Values`history, agents.Values`prior
      requires Valid()
      ensures v == Reached(TrueConsensus) <==> forall id :: id in agents ==> Last(agents[id].history) > CONSENSUS
      ensures mistrust == 0.0 ==> v != IndexError
      ensures (forall id :: id in agents ==> |agents[id].history| >= 2) ==> v != IndexError
    {
      Classify(HistoriesOf(order, agents), mistrust)
    }
  }
}
