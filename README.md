# Epistemic network — a Dafny model

The repository is a small web application and batch simulator about how a group of
Bayesian agents, connected in a network, come to agree (or not) on a hypothesis about
a biased coin. This project models its sequential core and proves properties of it:

- **The graph editor of the web front end** (`Network` in static/js/network.js,
  module `GraphEditor`). Nodes are the ids `0 .. numberOfNodes-1`. The deactivated
  flag of each node is an `array<bool>`. The `edges` Map is the set of its string keys
  `"<id1>-<id2>"` (module `EdgeKeys`). The pending first click of a two-click gesture
  is an `Option<nat>`. The class is proved to keep an invariant throughout: every key
  parses back to two active node ids, and no pair is stored under both orientations.
  The bulk builders use the pair enumeration of module `Pairs` and, for the random
  graph, the clamp, rounding and Fisher-Yates shuffle of module `RandomGraph`.
- **The belief-sharing back end**: `Agent` (agent.py, module `BeliefAgent`) and
  `Network` (network.py, module `BeliefNetwork`). Agents are objects whose `prior`,
  `data` and `history` fields the methods update. The network keeps a map from ids to
  agents, a map from ids to neighbour lists, and the dict insertion order that every
  loop follows. Proved:
  - each agent keeps "the last history entry is the belief for the current prior";
  - the adjacency built by `add_edge` counts every edge in both directions;
  - `combine_data` hands each agent exactly the weighed sum of its neighbours' old data;
  - a round updates every agent's prior on its own sample plus its weighing of its
    neighbours' samples, adds one history entry per agent and clears its data;
  - `get_status` raises no IndexError after a round.
- **The pure edge-list builders**: `create_edges` of simulation.py (module `Layouts`),
  with the connected, ring and wheel shapes stated exactly.
- **The pentagram easter egg** (easteregg.py, module `EasterEgg`). This is an
  in-place sort of the caller's list followed by a comparison of undirected edge sets.

`create_edges` uses only the number of agents: `CreateEdges` reads `|agents|` and
nothing else.

The model follows the code where it differs from what one might expect of the editor:
- Clicking the same active node twice stores the self-loop `"a-a"`.
- Deactivating a node keeps it as the pending click. While that node is still deactivated,
  the next click on an active node only discards the pending click and draws nothing. Once
  the node is reactivated, the pending gesture completes as usual.
- A toggle stores its key in click order. Repeating a gesture therefore restores the
  key set only when the pair was absent or stored in that order. `ToggleTwice` states
  exactly when it does, and `ToggleTwiceReorients` shows `"2-0"` coming back as `"0-2"`.
- `add_edge` with a known first id and an unknown second id appends to the first
  list before it raises KeyError.
- For two agents, the wheel layout contains the self-loop `(0, 0)`. For one agent,
  the ring layout is `(0, 0)`.

## Model

| member | source | states |
|---|---|---|
| `EdgeKeys.NatToString` | static/js/network.js:50-52 | a node id renders as a non-empty string of decimal digits that starts with `0` only for id 0 |
| `EdgeKeys.ParseRender` | app.py:39 | `int()` of the decimal rendering of an id gives the id back |
| `EdgeKeys.Split` | app.py:39 | `str.split('-')` returns at least one part and no part contains the separator |
| `EdgeKeys.SplitAtSep` | app.py:39 | splitting `x + "-" + y` where `x` has no separator yields `x` followed by the parts of `y` |
| `EdgeKeys.KeyRoundTrip` | app.py:39 | splitting the key `"a-b"` on `-` and converting both parts recovers `(a, b)` |
| `EdgeKeys.KeyInjective` | static/js/network.js:52 | two pairs with the same key are the same pair |
| `EdgeKeys.DashOnlySeparator` | static/js/network.js:52 | the only `-` in a key is the one between the two ids |
| `EdgeKeys.PrefixExact` | static/js/network.js:59 | a key starts with `"x-"` exactly when its first id is x |
| `EdgeKeys.SuffixExact` | static/js/network.js:59 | a key ends with `"-x"` exactly when its second id is x |
| `EdgeKeys.HasEndpointExact` | static/js/network.js:59 | the string test of `removeEdges` matches a key exactly when x is one of its two ids |
| `Pairs.AllPairsLength` | static/js/network.js:145-149 | the nested loops over m ids produce m(m-1)/2 pairs |
| `Pairs.AllPairsMember` | static/js/network.js:145-149 | over increasing ids, a pair is produced exactly when both are ids and the first is smaller |
| `Pairs.AllPairsSorted` | static/js/network.js:145-149 | over increasing ids the pairs come out in lexicographic order and without repetition |
| `RandomGraph.BoundedNormalSample` | static/js/network.js:161-169 | the sample lies in [0, max]: it is 0 when the scaled deviate falls below 0, max when it exceeds max, and the scaled deviate itself otherwise |
| `RandomGraph.Round` | static/js/network.js:200 | `Math.round(x)` is the integer in (x - 0.5, x + 0.5] |
| `RandomGraph.RoundWithin` | static/js/network.js:200 | rounding a value in [0, m] gives an integer in [0, m] |
| `RandomGraph.MaxEdgesExact` | static/js/network.js:197 | the floating-point `m * (m - 1) / 2` is exactly the integer m choose 2 |
| `RandomGraph.SampledEdgeCountBounds` | static/js/network.js:197-201 | the clamped, rounded count lies in [0, m(m-1)/2], so the cap at `possibleEdges.length` never lowers it |
| `RandomGraph.Pick` | static/js/network.js:175 | `Math.floor(Math.random() * (i + 1))` is an index in [0, i] |
| `RandomGraph.SwapPermutes` | static/js/network.js:176 | swapping two cells keeps the length and the multiset of the elements |
| `RandomGraph.ShuffleFromPermutes` | static/js/network.js:174-177 | every remaining stretch of the shuffle loop permutes its input |
| `RandomGraph.ShufflePermutes` | static/js/network.js:173-179 | the shuffle is a permutation of its input |
| `RandomGraph.DistinctByMultiset` | static/js/network.js:204 | a permutation of a list without repeats has no repeats |
| `RandomGraph.ShuffleArray` | static/js/network.js:173-179 | the in-place loop leaves the array as the shuffle of its old contents, a permutation of them |
| `GraphEditor.ActiveIds` | static/js/network.js:144 | the active nodes are exactly the ids in range whose flag is off, listed in increasing order |
| `GraphEditor.KeySetMember` | static/js/network.js:147 | the key of (a, b) is among the keys drawn for a pair list exactly when (a, b) is in the list |
| `GraphEditor.KeySetSize` | static/js/network.js:205-207 | drawing a list of distinct pairs stores one key per pair |
| `GraphEditor.KeyEdgeOver` | static/js/network.js:119 | a key lies over the active nodes exactly when both of its ids are in range and active |
| `GraphEditor.RemoveIncidentExact` | static/js/network.js:56-64 | `removeEdges(x)` keeps a key exactly when it was present and neither id is x |
| `GraphEditor.ToggleKeepsInvariant` | static/js/network.js:74-89 | a completed gesture between active nodes keeps every key over active nodes and one orientation per pair |
| `GraphEditor.ToggleChangesOne` | static/js/network.js:79-88 | a completed gesture removes one key if the pair was present in either orientation and adds one key otherwise |
| `GraphEditor.ToggleTwice` | static/js/network.js:74-89 | repeating a gesture restores the keys exactly when the pair was not stored in the other orientation, or is a self-loop |
| `GraphEditor.ToggleTwiceReorients` | static/js/network.js:76-88 | the stored edge `"2-0"`, toggled twice by clicking 0 then 2, comes back as `"0-2"`, a different key |
| `GraphEditor.DeactivateKeepsInvariant` | static/js/network.js:95-101 | after the keys that touch x are deleted, every key lies over the nodes that are still active |
| `GraphEditor.CompleteGraphShape` | static/js/network.js:140-150 | the complete graph has m(m-1)/2 keys, and the key `"a-b"` is among them exactly when a < b and both are active |
| `GraphEditor.CompleteSubsetValid` | static/js/network.js:140-150 | any subset of the complete graph's keys satisfies the editor's invariant |
| `GraphEditor.RandomEdgesShape` | static/js/network.js:185-207 | the random graph has exactly k distinct keys, where k is the sampled count in [0, m(m-1)/2], all from the complete graph over the active nodes |
| `GraphEditor.CollectPossibleEdges` | static/js/network.js:186-191 | the nested loops push exactly the pair enumeration over the active nodes |
| `GraphEditor.PickRandomEdges` | static/js/network.js:185-204 | the selected pairs are the first k (the capped count) of the shuffled pair list |
| `GraphEditor.Network.constructor` | static/js/network.js:15-25 | a new editor has no edges, no pending click and every node active |
| `GraphEditor.Network.DrawEdge` | static/js/network.js:50-53 | `drawEdge(a, b)` adds the key `"a-b"` and changes nothing else |
| `GraphEditor.Network.RemoveEdges` | static/js/network.js:56-64 | visiting every key once, `removeEdges(x)` leaves exactly the keys that do not match `x-` or `-x` |
| `GraphEditor.Network.CreateRemoveEdge` | static/js/network.js:66-93 | the four cases of a click: on a deactivated node nothing changes; with no pending node the click becomes pending; with a deactivated pending node the pending click is dropped; otherwise the pair is toggled and the pending click cleared. The invariant is kept |
| `GraphEditor.Network.ActivateDeactivateNode` | static/js/network.js:95-102 | the flag of x flips; deactivating also deletes exactly the keys touching x; reactivating restores none; the pending click is untouched and the invariant kept |
| `GraphEditor.Network.ClearEdges` | static/js/network.js:133-138 | `removeEdges` for every node empties the edge set, because every key names two node ids |
| `GraphEditor.Network.DrawAllEdges` | static/js/network.js:140-150 | the edges become exactly the keys of the complete graph over the active nodes |
| `GraphEditor.Network.DrawRandomEdges` | static/js/network.js:152-208 | the edges become exactly the keys of the selected pairs, and the invariant is kept |
| `BeliefAgent.Merge` | agent.py:55-61 | merging two well-formed batches (0 <= k <= n) gives a well-formed batch, and the empty batch (0, 0) is an identity on either side |
| `BeliefAgent.Posterior` | agent.py:74-76 | the conjugate update adds k to a and n - k to b, so a + b grows by exactly n |
| `BeliefAgent.Weight` | agent.py:51 | the weight lies in [0, 1] for non-negative mistrust; it is 1 without mistrust and 0 once mistrust times the disagreement reaches 1 |
| `BeliefAgent.Scale` | agent.py:53 | scaling both components by one weight keeps the data at weight 1 and clears it at weight 0; a non-negative weight keeps a batch well formed, and a weight in [0, 1] keeps each component between 0 and itself |
| `BeliefAgent.ScaleWithin` | agent.py:53 | scaling a non-negative amount by a weight in [0, 1] keeps it between 0 and the amount |
| `BeliefAgent.Agent.DisagreementHypotheses` | agent.py:37-44 | the disagreement is non-negative and zero exactly when the two latest beliefs agree |
| `BeliefAgent.DisagreementSymmetric` | agent.py:37-44 | disagreement is symmetric, and zero between an agent and itself |
| `BeliefAgent.Agent.WeighData` | agent.py:46-53 | both components are scaled by the same weight `Weight(mistrust, disagreement)`: the data is kept without mistrust and cleared once mistrust times the disagreement reaches 1; a well-formed batch stays well formed, and with non-negative mistrust each component stays within [0, itself] |
| `BeliefAgent.Agent.constructor` | agent.py:4-9 | a new agent stores its parameters and starts from its prior, with no data and a one-entry history |
| `BeliefAgent.Agent.Reset` | agent.py:11-18 | `reset` restores the initial prior, empties the data, and leaves a history holding only the belief for that prior |
| `BeliefAgent.Agent.ResetData` | agent.py:20-24 | the data becomes (0, 0) |
| `BeliefAgent.Agent.MergeData` | agent.py:55-61 | the data becomes the old data merged with the new |
| `BeliefAgent.Agent.UpdateHistory` | agent.py:63-68 | one entry is appended to the history, the belief for the current prior, so the agent invariant holds |
| `BeliefAgent.Agent.UpdateBelief` | agent.py:70-78 | the prior becomes the conjugate posterior, one history entry is appended for it, and the data is cleared |
| `BeliefNetwork.Sample` | network.py:9-14 | a sample of k successes in n trials is well formed, with 0 <= k <= n |
| `BeliefNetwork.Classify` | network.py:100-114 | IndexError exactly when some history is empty, or when mistrust is non-zero, neither consensus holds and some history has one entry. With every history non-empty: true consensus exactly when every latest belief exceeds 0.99 (so for no agents); false consensus exactly when not all exceed 0.99 and all are below 0.5; None exactly when there is no mistrust and neither consensus holds. With mistrust and two entries everywhere, and neither consensus: polarization exactly when every latest belief equals the one before it or exceeds 0.99, learning otherwise |
| `BeliefNetwork.HistoriesOf` | network.py:104 | the histories are listed in the agents' order, one per agent |
| `BeliefNetwork.Link` | network.py:46-52 | `add_edge((a, b))` appends b to a's list and a to b's list (a twice for a self-loop) and changes no other list |
| `BeliefNetwork.LinkCounts` | network.py:50-52 | an edge raises the count of b in a's list by one, and the count of a in b's list by one; a self-loop raises a's own count by two |
| `BeliefNetwork.LinkKeepsNeighboursKnown` | network.py:46-52 | linking two agents keeps every listed neighbour an agent |
| `BeliefNetwork.AddKeepsWiring` | network.py:43-44 | adding an agent with an empty neighbour list keeps the wiring, and a new id joins the end of the agent order |
| `BeliefNetwork.AddKeepsInjective` | network.py:43 | storing a freshly created agent keeps every id mapped to a different agent |
| `BeliefNetwork.LinkKeepsWiring` | network.py:46-52 | linking two agents keeps the wiring |
| `BeliefNetwork.LinkExtendsCounts` | network.py:26 | after one more edge, the neighbour counts match the edge list extended by that edge |
| `BeliefNetwork.OccurrencesSymmetric` | network.py:50-52 | an edge list mentions {x, y} as often in one orientation as in the other, so the adjacency counts are symmetric |
| `BeliefNetwork.LastIndexOf` | network.py:25 | the last position of an id in the agent list, where its prior is drawn |
| `BeliefNetwork.LastIndexOfStep` | network.py:25 | one more id in the list makes it the last occurrence of that id and leaves the others' last occurrences alone |
| `BeliefNetwork.AddedPriors` | network.py:25 | storing under the next id of the list an agent created with that position's prior keeps the agents exactly the ids listed so far, each created with the prior of its last occurrence |
| `BeliefNetwork.FirstIndexOf` | network.py:25 | the first position of an id in the agent list |
| `BeliefNetwork.FirstOccurrencesShape` | network.py:25 | the dict's key order lists every id of the agent list once, and an id that appears earlier in the list comes earlier in the order |
| `BeliefNetwork.FirstOccurrencesStep` | network.py:43 | assigning one more id appends it to the key order unless it is already a key |
| `BeliefNetwork.IncomingWithoutMistrust` | network.py:71-79 | without mistrust, an agent takes in the plain sum of its neighbours' data |
| `BeliefNetwork.IncomingBounded` | network.py:71-79 | the weighed sum of well-formed data is well formed, and with non-negative mistrust it never exceeds the plain sum |
| `BeliefNetwork.ExperimentKeepsWellFormed` | network.py:59-64 | whether an agent skips or merges a sample of k <= n, well-formed data stays well formed |
| `BeliefNetwork.Network.constructor` | network.py:18-24 | the network stores its parameters and starts with no agents and no edges |
| `BeliefNetwork.Network.AddAgent` | network.py:36-44 | a fresh agent with the given prior, no data, a one-entry history and an empty neighbour list replaces any earlier entry for the id; other agents are kept; a new id joins the end of the agent order and a known id keeps its place; the network invariant holds |
| `BeliefNetwork.Network.AddEdge` | network.py:46-52 | linking two known ids appends each to the other's list; an unknown first id changes nothing; an unknown second id leaves only the first append; KeyError in both cases |
| `BeliefNetwork.Network.AddListed` | network.py:25 | one turn of the agent loop: the agents become the ids of the list up to and including position i, each with the prior of its last occurrence so far, and the order gains the id unless it was already listed |
| `BeliefNetwork.Network.AddAgents` | network.py:25 | the agents are exactly the listed ids, each with the prior of its last occurrence, and no neighbours; the agent order is the ids in order of first occurrence |
| `BeliefNetwork.Network.AddEdges` | network.py:26 | KeyError exactly when some edge names an unknown id; otherwise every list counts each edge in both directions |
| `BeliefNetwork.Network.Create` | network.py:18-27 | the constructor fails exactly when an edge names an id outside the agent list; otherwise it keeps the given parameters and belief function, the agents are the listed ids in order of first occurrence, each reset to its sampled prior, and the adjacency counts every edge in both directions |
| `BeliefNetwork.Network.Reset` | network.py:29-34 | every agent is back at its initial prior, with no data and a one-entry history |
| `BeliefNetwork.Network.RunExperiments` | network.py:54-64 | an agent that is not curious and whose latest belief is below 0.5 is left alone; every other agent merges exactly one sample |
| `BeliefNetwork.Network.WeighNeighbours` | network.py:72-79 | the inner loop sums the agent's weighing of each neighbour's data, in list order |
| `BeliefNetwork.Network.AggregateNeighbourData` | network.py:70-79 | the dict gets an entry exactly for the agents with neighbours, and the entry is their weighed neighbour sum; no agent changes |
| `BeliefNetwork.Network.MergeCombined` | network.py:81-83 | each agent with an entry merges it and the others are untouched |
| `BeliefNetwork.Network.CombineData` | network.py:66-83 | each agent with neighbours merges the weighed sum of its neighbours' data as it was before any merge; the others are untouched |
| `BeliefNetwork.Network.CollectiveBeliefUpdate` | network.py:85-90 | every agent applies the conjugate update to its own data |
| `BeliefNetwork.Network.RoundDataWellFormed` | network.py:54-83 | from well-formed data and sample counts k <= n, every agent gathers a well-formed batch in a round |
| `BeliefNetwork.Network.RoundDataWithoutMistrust` | network.py:54-83 | without mistrust, an agent gathers its own sample plus the plain sum of its neighbours' samples |
| `BeliefNetwork.Network.RunRound` | network.py:92-98 | after a round, every prior is the conjugate update of the old prior on the agent's own sample merged with its weighing of its neighbours' samples; every history has grown by exactly one entry (the belief for the new prior), every agent's data is (0, 0), and the status raises no IndexError |
| `BeliefNetwork.Network.GetStatus` | network.py:100-114 | true consensus exactly when every latest belief exceeds 0.99; no IndexError without mistrust or once every history has two entries |
| `Layouts.CreateEdges` | simulation.py:8-19 | ValueError with the source's message exactly for an unknown layout; otherwise every endpoint names one of the agents |
| `Layouts.ConnectedShape` | simulation.py:10-11 | 'connected' gives exactly the pairs i < j < n, in lexicographic order, without repetition, n(n-1)/2 of them |
| `Layouts.RingShape` | simulation.py:12-13 | 'ring' gives n edges from k to k + 1 and from n - 1 back to 0; one agent gives (0, 0); two give (0, 1) and (1, 0); no self-loop from two agents on |
| `Layouts.WheelShape` | simulation.py:14-16 | 'wheel' gives nothing for at most one agent, otherwise the n - 1 rim edges (k, k + 1), the last of them closing back to (n - 2, 0), followed by the n - 1 spokes (k, n - 1); two agents give (0, 0) and (0, 1); no self-loop from three agents on |
| `EasterEgg.Insert` | easteregg.py:5 | inserting adds exactly the one element |
| `EasterEgg.SortSeq` | easteregg.py:5 | sorting keeps the length and the multiset of the elements |
| `EasterEgg.InsertSorted` | easteregg.py:5 | inserting into a sorted list keeps it sorted |
| `EasterEgg.SortSeqSorted` | easteregg.py:5 | the sorted list is sorted |
| `EasterEgg.SortedUnique` | easteregg.py:5 | two sorted lists with the same elements are equal, so the sort result is determined by the elements |
| `EasterEgg.SortNodes` | easteregg.py:5 | `nodes.sort()` leaves the caller's list sorted and a permutation of what it held |
| `EasterEgg.SinkInto` | easteregg.py:5 | one insertion step extends the sorted prefix by one cell and keeps the multiset |
| `EasterEgg.Swap` | easteregg.py:5 | a swap exchanges two cells and keeps the multiset |
| `EasterEgg.StarEdges` | easteregg.py:7-9 | the loop joins each sorted node to the one two places on, cyclically |
| `EasterEgg.CheckPentagram` | easteregg.py:1-15 | a list of other than five nodes gives False and stays untouched; otherwise the list is left sorted and the answer is whether the normalised drawn edges and the normalised star are the same set |
| `EasterEgg.OrientationFree` | easteregg.py:12 | turning any drawn edge around leaves the answer unchanged |
| `EasterEgg.OrderAndRepeatsFree` | easteregg.py:12-15 | reordering or repeating the drawn edges leaves the answer unchanged |
| `EasterEgg.NodeOrderFree` | easteregg.py:5 | the order in which the nodes arrive does not change the answer |
| `EasterEgg.SortedOnceStrict` | easteregg.py:5 | a sorted list without repeated elements is strictly increasing |
| `EasterEgg.SortedDistinctStrict` | easteregg.py:5 | the sorted arrangement of five different nodes is strictly increasing |
| `EasterEgg.RearrangedCovers` | easteregg.py:5 | every node is one of the five entries of the sorted list |
| `EasterEgg.StarOfSorted` | easteregg.py:8-13 | over sorted, different nodes a < b < c < d < e the normalised star is {(a,c), (b,d), (c,e), (a,d), (b,e)} |
| `EasterEgg.StarCounts` | easteregg.py:8-13 | that star has five different edges and each of the five nodes lies on exactly two of them |
| `EasterEgg.StarShape` | easteregg.py:8-13 | for five different nodes, the expected edge set has exactly five pairs and every node lies on exactly two of them |

## Left out

- Rendering: the geometry and DOM work of `drawEdge` and `createNode` (static/js/network.js:28-48, 105-128) is not modelled. Only the key stored by `drawEdge` is kept, and a node is its id.
- Randomness: `Math.random`, the Box-Muller `normalSample`, `uniform.rvs` and `binom.rvs` are inputs. The normal deviate is the parameter `z0`. The shuffle's draws are a function `uniform` into [0, 1). The priors and the success counts are given to the methods. `CoinTosser.sample` is `Sample(k, n)` with the caller's k <= n.
- `scipy.stats.beta.cdf` is a function parameter `betaCdf` that every agent and network carries. Nothing is assumed about it.
- Default arguments are explicit parameters: `run_round`'s `sampleSize=20` and `run_experiments`'s `sampleSize=5` (network.py:54, 92), and the defaults of `Agent.__init__` (agent.py:4). The modelled code always receives them as arguments.
- Floating point: every number is a Dafny `real`. Rounding error, NaN and infinity are not modelled.
- The insertion order of the JavaScript `Map` is not modelled: `edges` is the set of its keys, and its values (DOM elements) are dropped.
- `GraphEditor.Network.DrawEdge`: states only the key insertion. The edge element it creates is not modelled.
- `EdgeKeys.ParseKey`: reads only keys made of two decimal digit strings, which are the keys the editor produces. Python's `int()` also accepts signs, surrounding spaces and underscores, which are not modelled.
- `BeliefNetwork.Network.GetStatus`: states the true-consensus case and when no IndexError arises. It returns `BeliefNetwork.Classify` of the histories in agent order (`BeliefNetwork.HistoriesOf`), and the other cases are stated there.
- `BeliefNetwork.Network.Create`: the loop of `add_agent` calls is given the drawn priors as a list, one per entry of the agent list.
- `run_simulation` and the `__main__` block of simulation.py, the Flask routes of app.py (except the key parse at app.py:39), and the front-end scripts static/js/plot.js, static/js/simulation.js and static/js/script.js are not part of this model. They are a random, unbounded loop, multiprocessing, file and network I/O, and DOM work.
- The commented-out `marginal_likelihood` and `kl_divergence_beta` (agent.py:80-108) are not in use and are not modelled.
- `EasterEgg.SortNodes` is an insertion sort. CPython's `list.sort` uses a different algorithm but leaves the same result, because a sorted permutation is unique (`EasterEgg.SortedUnique`).
