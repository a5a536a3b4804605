/**
 * `TemporalGraph`: nodes keyed by id, forward and reverse adjacency lists,
 * a `(timestamp, id)` index kept sorted with `bisect.insort`, and weekly
 * layers. Insertion changes these in place; the queries are breadth-first
 * searches over a FIFO queue with a visited set.
 */
module Graph {
  import opened Wrappers
  import opened PyStd
  import opened Assoc
  import opened TemporalTypes
  import opened Bisect
  import opened PathSearch
  import B = BfsTheory

  /** `d.get(k, [])` for the adjacency and layer dicts. */
  function ListAt<T>(d: map<string, seq<T>>, k: string): seq<T>
  {
    if k in d then d[k] else []
  }

  /** `chr(255) * 100`, the id the range query pairs with its end time. */
  function Sentinel(): (s: string)
    ensures |s| == 100 && forall i :: 0 <= i < 100 ==> s[i] == '\U{ff}'
  {
    seq(100, i => '\U{ff}')
  }

  /** The ids of the index entries that satisfy `keep`, in index order. */
  function SelectIds(s: seq<Entry>, keep: Entry -> bool): (r: seq<Id>)
    ensures |r| <= |s|
  {
    if |s| == 0 then []
    else SelectIds(s[..|s| - 1], keep) + (if keep(s[|s| - 1]) then [s[|s| - 1].1] else [])
  }

  /** When exactly the positions `a <= k < b` satisfy `keep`, selecting is
      slicing. */
  lemma {:induction false} SelectWindow(s: seq<Entry>, keep: Entry -> bool, a: nat, b: nat)
    requires a <= |s| && b <= |s|
    requires forall k :: 0 <= k < |s| ==> (keep(s[k]) <==> a <= k < b)
    ensures SelectIds(s, keep) == if a < b then Values(s[a..b]) else []
    decreases |s|
  {
    if |s| > 0 {
      var n := |s|;
      var s' := s[..n - 1];
      var a' := if a < n - 1 then a else n - 1;
      var b' := if b < n - 1 then b else n - 1;
      assert forall k :: 0 <= k < |s'| ==> s'[k] == s[k];
      SelectWindow(s', keep, a', b');
      if keep(s[n - 1]) {
        assert b == n && a < n;
        ValuesLast(s, a);
      } else if a < b {
        assert b < n;
        assert s'[a..b] == s[a..b];
      }
    }
  }

  /** The ids of a window ending at the last entry: those of the window
      one shorter, then the last id. */
  lemma {:induction false} ValuesLast(s: seq<Entry>, a: nat)
    requires a < |s|
    ensures Values(s[a..|s|]) ==
      (if a < |s| - 1 then Values(s[..|s| - 1][a..|s| - 1]) else []) + [s[|s| - 1].1]
  {
    var n := |s|;
    var l := Values(s[a..n]);
    var r := (if a < n - 1 then Values(s[..n - 1][a..n - 1]) else []) + [s[n - 1].1];
    assert |l| == |r|;
    forall i | 0 <= i < |l| ensures l[i] == r[i] {
      if i < n - 1 - a { assert r[i] == s[a + i].1; }
    }
  }

  /** Selected ids come from the index, so they are stored when the index
      only names stored nodes. */
  lemma {:induction false} SelectedStored(s: seq<Entry>, keep: Entry -> bool, nodes: map<Id, Node>)
    requires forall k :: 0 <= k < |s| ==> s[k].1 in nodes
    ensures forall id :: id in SelectIds(s, keep) ==> id in nodes
    decreases |s|
  {
    if |s| > 0 {
      SelectedStored(s[..|s| - 1], keep, nodes);
    }
  }

  /** The entries `get_nodes_in_timerange` returns as written: between
      `(start, "")` and `(end, chr(255) * 100)` in tuple order. */
  function KeepAsWritten(start: int, end: int): Entry -> bool
  {
    (e: Entry) => EntryLe((start, ""), e) && EntryLe(e, (end, Sentinel()))
  }

  /** The entries whose timestamp lies in `[start, end]`. */
  function KeepInRange(start: int, end: int): Entry -> bool
  {
    (e: Entry) => start <= e.0 <= end
  }

  /** The as-written bounds select exactly the entries in `[start, end]`,
      except those at `end` whose id sorts above `chr(255) * 100`. */
  lemma {:induction false} AsWrittenBounds(start: int, end: int, e: Entry)
    ensures KeepAsWritten(start, end)(e) <==>
      KeepInRange(start, end)(e) && (e.0 < end || StrLe(e.1, Sentinel()))
  {
  }

  /** An id beginning with a character above U+00FF, stored at exactly the
      end of the range, is dropped by the as-written query. */
  lemma {:induction false} SentinelDropsId()
    ensures SelectIds([(5, "\U{0444}")], KeepAsWritten(0, 5)) == []
    ensures SelectIds([(5, "\U{0444}")], KeepInRange(0, 5)) == ["\U{0444}"]
  {
    var s: seq<Entry> := [(5, "\U{0444}")];
    assert !StrLe("\U{0444}", Sentinel());
    assert s[..0] == [];
  }

  /** Nodes are stored under their own id; every edge joins two stored
      nodes and is filed under its source in `edges` and under its target in
      `reverseEdges`; the index is sorted and names stored nodes; layers list
      stored nodes. */
  ghost predicate GraphInv(nodes: map<Id, Node>, edges: map<Id, seq<Edge>>, reverseEdges: map<Id, seq<Edge>>,
                           index: seq<Entry>, layers: map<string, seq<Id>>)
  {
    && (forall id :: id in nodes ==> nodes[id].id == id)
    && (forall u, e :: u in edges && e in edges[u] ==>
          e.from == u && u in nodes && e.to in nodes && e in ListAt(reverseEdges, e.to))
    && (forall v, e :: v in reverseEdges && e in reverseEdges[v] ==>
          e.to == v && v in nodes && e.from in nodes && e in ListAt(edges, e.from))
    && IndexSorted(index)
    && (forall k :: 0 <= k < |index| ==> index[k].1 in nodes)
    && (forall l, id :: l in layers && id in layers[l] ==> id in nodes)
  }

  lemma {:induction false} AddNodeKeepsInv(nodes: map<Id, Node>, edges: map<Id, seq<Edge>>, reverseEdges: map<Id, seq<Edge>>,
                        index: seq<Entry>, layers: map<string, seq<Id>>, node: Node, index': seq<Entry>)
    requires GraphInv(nodes, edges, reverseEdges, index, layers)
    requires IndexSorted(index') && multiset(index') == multiset(index) + multiset{(node.timestamp, node.id)}
    ensures GraphInv(nodes[node.id := node.(temporalIndex := |index|)], edges, reverseEdges, index',
                     layers[node.layerId := ListAt(layers, node.layerId) + [node.id]])
  {
    var nodes' := nodes[node.id := node.(temporalIndex := |index|)];
    forall k | 0 <= k < |index'|
      ensures index'[k].1 in nodes'
    {
      assert index'[k] in multiset(index');
    }
  }

  lemma {:induction false} AddEdgeKeepsInv(nodes: map<Id, Node>, edges: map<Id, seq<Edge>>, reverseEdges: map<Id, seq<Edge>>,
                        index: seq<Entry>, layers: map<string, seq<Id>>, edge: Edge)
    requires GraphInv(nodes, edges, reverseEdges, index, layers)
    requires edge.from in nodes && edge.to in nodes
    ensures GraphInv(nodes, edges[edge.from := ListAt(edges, edge.from) + [edge]],
                     reverseEdges[edge.to := ListAt(reverseEdges, edge.to) + [edge]], index, layers)
  {
    var edges' := edges[edge.from := ListAt(edges, edge.from) + [edge]];
    var reverse' := reverseEdges[edge.to := ListAt(reverseEdges, edge.to) + [edge]];
    forall u: Id, e: Edge | u in edges' && e in edges'[u]
      ensures e.from == u && u in nodes && e.to in nodes && e in ListAt(reverse', e.to)
    {
      if e != edge {
        assert u in edges && e in edges[u];
      }
    }
    forall v: Id, e: Edge | v in reverse' && e in reverse'[v]
      ensures e.to == v && v in nodes && e.from in nodes && e in ListAt(edges', e.from)
    {
      if e != edge {
        assert v in reverseEdges && e in reverseEdges[v];
      }
    }
  }

  class TemporalGraph {
    /** Stored but never consulted: layer labels are always weekly. */
    const layerDurationDays: int
    var nodes: map<Id, Node>
    var edges: map<Id, seq<Edge>>
    var reverseEdges: map<Id, seq<Edge>>
    var timestampIndex: seq<Entry>
    var layers: map<string, seq<Id>>

    ghost predicate Valid()
      reads this
    {
      GraphInv(nodes, edges, reverseEdges, timestampIndex, layers)
    }

    constructor (layerDurationDays: int)
      ensures Valid()
      ensures this.layerDurationDays == layerDurationDays
      ensures nodes == map[] && edges == map[] && reverseEdges == map[]
      ensures timestampIndex == [] && layers == map[]
    {
      this.layerDurationDays := layerDurationDays;
      nodes := map[];
      edges := map[];
      reverseEdges := map[];
      timestampIndex := [];
      layers := map[];
    }

    /** `add_node`: stores the node under its id (replacing any node with
        that id), inserts `(timestamp, id)` into the index after every entry
        not above it, sets the node's `temporal_index` to the old index
        length, and appends the id to its layer. A repeated id therefore
        leaves a second index entry and a second layer entry. */
    method AddNode(node: Node) returns (ok: bool)
      requires Valid()
      modifies this
      ensures Valid() && ok
      ensures nodes == old(nodes)[node.id := node.(temporalIndex := |old(timestampIndex)|)]
      ensures edges == old(edges) && reverseEdges == old(reverseEdges)
      ensures |timestampIndex| == |old(timestampIndex)| + 1
      ensures multiset(timestampIndex) == multiset(old(timestampIndex)) + multiset{(node.timestamp, node.id)}
      ensures layers == old(layers)[node.layerId := ListAt(old(layers), node.layerId) + [node.id]]
    {
      var stored := node.(temporalIndex := |timestampIndex|);
      nodes := nodes[node.id := stored];
      var x := (node.timestamp, node.id);
      var p := BisectRight(timestampIndex, x);
      InsertKeepsSorted(timestampIndex, x, p);
      assert timestampIndex == timestampIndex[..p] + timestampIndex[p..];
      var index' := timestampIndex[..p] + [x] + timestampIndex[p..];
      AddNodeKeepsInv(old(nodes), edges, reverseEdges, timestampIndex, layers, node, index');
      timestampIndex := index';
      layers := layers[node.layerId := ListAt(layers, node.layerId) + [node.id]];
      ok := true;
    }

    /** `add_edge`: refuses an edge with a missing endpoint; otherwise
        appends it under its source and under its target. A sequential or
        causal edge that goes backward in time is still added; `backward`
        reports the warning the source prints for it. */
    method AddEdge(edge: Edge) returns (ok: bool, backward: bool)
      requires Valid()
      modifies this
      ensures Valid()
      ensures nodes == old(nodes) && timestampIndex == old(timestampIndex) && layers == old(layers)
      ensures ok <==> edge.from in old(nodes) && edge.to in old(nodes)
      ensures !ok ==> edges == old(edges) && reverseEdges == old(reverseEdges) && !backward
      ensures ok ==> edges == old(edges)[edge.from := ListAt(old(edges), edge.from) + [edge]]
      ensures ok ==> reverseEdges == old(reverseEdges)[edge.to := ListAt(old(reverseEdges), edge.to) + [edge]]
      ensures backward <==> ok && (edge.relation == Sequential || edge.relation == Causal) &&
                            nodes[edge.from].timestamp > nodes[edge.to].timestamp
    {
      if edge.from !in nodes || edge.to !in nodes {
        return false, false;
      }
      AddEdgeKeepsInv(nodes, edges, reverseEdges, timestampIndex, layers, edge);
      backward := (edge.relation == Sequential || edge.relation == Causal) &&
                  nodes[edge.from].timestamp > nodes[edge.to].timestamp;
      edges := edges[edge.from := ListAt(edges, edge.from) + [edge]];
      reverseEdges := reverseEdges[edge.to := ListAt(reverseEdges, edge.to) + [edge]];
      ok := true;
    }

    /** `get_nodes_in_timerange` as written: the index entries between
        `(start, "")` and `(end, chr(255) * 100)` in tuple order. An entry at
        exactly `end` whose id sorts above the sentinel is left out. */
    method GetNodesInTimerangeAsWritten(start: int, end: int) returns (r: seq<Id>)
      requires Valid()
      ensures r == SelectIds(timestampIndex, KeepAsWritten(start, end))
    {
      var lo := BisectLeft(timestampIndex, (start, ""));
      var hi := BisectRight(timestampIndex, (end, Sentinel()));
      r := if lo < hi then Values(timestampIndex[lo..hi]) else [];
      forall k | 0 <= k < |timestampIndex|
        ensures KeepAsWritten(start, end)(timestampIndex[k]) <==> lo <= k < hi
      {
        EntryLtIsNotLe(timestampIndex[k], (start, ""));
        EntryLtIsNotLe((end, Sentinel()), timestampIndex[k]);
      }
      SelectWindow(timestampIndex, KeepAsWritten(start, end), lo, hi);
    }

    /** `get_nodes_in_timerange` as intended: the ids of the index entries
        whose timestamp lies in `[start, end]`, in index order. */
    method GetNodesInTimerange(start: int, end: int) returns (r: seq<Id>)
      requires Valid()
      ensures r == SelectIds(timestampIndex, KeepInRange(start, end))
      ensures forall id :: id in r ==> id in nodes
    {
      var lo := BisectLeft(timestampIndex, (start, ""));
      var hi := BisectRightTime(timestampIndex, end);
      r := if lo < hi then Values(timestampIndex[lo..hi]) else [];
      forall k | 0 <= k < |timestampIndex|
        ensures KeepInRange(start, end)(timestampIndex[k]) <==> lo <= k < hi
      {
        EntryLtIsNotLe(timestampIndex[k], (start, ""));
      }
      SelectWindow(timestampIndex, KeepInRange(start, end), lo, hi);
      SelectedStored(timestampIndex, KeepInRange(start, end), nodes);
    }

    /** `get_layer_nodes`: a copy of the layer's id list. */
    function GetLayerNodes(layerId: string): (r: seq<Id>)
      reads this
      ensures layerId !in layers ==> r == []
      ensures Valid() ==> forall id :: id in r ==> id in nodes
    {
      ListAt(layers, layerId)
    }

    /** `get_direct_successors`: targets of the edges filed under `id`. */
    function GetDirectSuccessors(id: Id): (r: seq<Id>)
      reads this
      ensures |r| == |ListAt(edges, id)|
      ensures Valid() ==> forall v :: v in r ==> v in nodes
    {
      Targets(ListAt(edges, id))
    }

    /** `get_direct_predecessors`: sources of the edges filed under `id` in
        the reverse index. */
    function GetDirectPredecessors(id: Id): (r: seq<Id>)
      reads this
      ensures |r| == |ListAt(reverseEdges, id)|
      ensures Valid() ==> forall v :: v in r ==> v in nodes
    {
      Sources(ListAt(reverseEdges, id))
    }

    /** The forward and reverse indexes describe the same edges. */
    lemma {:induction false} SuccessorsMirrorPredecessors(u: Id, v: Id)
      requires Valid()
      ensures v in GetDirectSuccessors(u) <==> u in GetDirectPredecessors(v)
    {
      if v in GetDirectSuccessors(u) {
        var i :| 0 <= i < |ListAt(edges, u)| && ListAt(edges, u)[i].to == v;
        var e := ListAt(edges, u)[i];
        assert e in ListAt(reverseEdges, v);
        var j :| 0 <= j < |ListAt(reverseEdges, v)| && ListAt(reverseEdges, v)[j] == e;
        assert GetDirectPredecessors(v)[j] == u;
      }
      if u in GetDirectPredecessors(v) {
        var j :| 0 <= j < |ListAt(reverseEdges, v)| && ListAt(reverseEdges, v)[j].from == u;
        var e := ListAt(reverseEdges, v)[j];
        assert e in ListAt(edges, u);
        var i :| 0 <= i < |ListAt(edges, u)| && ListAt(edges, u)[i] == e;
        assert GetDirectSuccessors(u)[i] == v;
      }
    }

    /** `has_edge`: scans the edges filed under `from`. */
    method HasEdge(from: Id, to: Id) returns (r: bool)
      ensures r <==> to in GetDirectSuccessors(from)
    {
      var es := ListAt(edges, from);
      var i := 0;
      while i < |es|
        invariant 0 <= i <= |es|
        invariant forall k :: 0 <= k < i ==> es[k].to != to
      {
        if es[i].to == to {
          assert GetDirectSuccessors(from)[i] == to;
          return true;
        }
        i := i + 1;
      }
      return false;
    }

    // -------------------------------------------------------------------
    // Breadth-first traversal (`_bfs_forward`, `_bfs_backward`)
    // -------------------------------------------------------------------

    /** One step of a traversal: the direct successors going forward, the
        direct predecessors going backward. */
    function Neighbours(forward: bool, id: Id): seq<Id>
      reads this
    {
      if forward then GetDirectSuccessors(id) else GetDirectPredecessors(id)
    }

    ghost function Adjacency(forward: bool): map<Id, seq<Id>>
      reads this
    {
      if forward then map u | u in edges :: Targets(edges[u])
      else map u | u in reverseEdges :: Sources(reverseEdges[u])
    }

    /** Nodes a traversal visits but does not expand: those later than the
        end time going forward, earlier than the start time going backward. */
    ghost function Stopped(forward: bool, bound: int): set<Id>
      reads this
    {
      if forward then set u | u in nodes && nodes[u].timestamp > bound
      else set u | u in nodes && nodes[u].timestamp < bound
    }

    /** The set a traversal from `start` returns. */
    ghost function Reachable(forward: bool, start: Id, maxHops: int, bound: int): set<Id>
      reads this
    {
      B.ReachWithin(Adjacency(forward), Stopped(forward, bound), start, maxHops)
    }

    lemma {:induction false} AdjacencyFacts(forward: bool, start: Id)
      requires Valid()
      ensures B.AdjWithin(Adjacency(forward), nodes.Keys + {start})
      ensures forall u :: B.Adj(Adjacency(forward), u) == Neighbours(forward, u)
    {
    }

    /** The traversal both `_bfs_forward` and `_bfs_backward` perform. */
    method Traverse(forward: bool, start: Id, maxHops: int, bound: int) returns (visited: set<Id>)
      requires Valid()
      ensures visited == Reachable(forward, start, maxHops, bound)
      ensures visited <= nodes.Keys + {start}
    {
      ghost var adj := Adjacency(forward);
      ghost var blocked := Stopped(forward, bound);
      ghost var universe := nodes.Keys + {start};
      AdjacencyFacts(forward, start);
      visited := {};
      var queue: seq<(Id, int)> := [(start, 0)];
      ghost var hop: map<Id, nat> := map[];
      ghost var cur: nat := 0;
      B.InvInit(adj, blocked, start, maxHops, universe);
      while |queue| > 0
        invariant B.Inv(adj, blocked, start, maxHops, universe, visited, hop, queue, cur)
        decreases |universe - visited|, |queue|
      {
        var c, h := queue[0].0, queue[0].1;
        if c in visited || h > maxHops {
          B.SkipStep(adj, blocked, start, maxHops, universe, visited, hop, queue, cur);
          queue := queue[1..];
          cur := h;
        } else {
          visited, hop, queue, cur := Visit(forward, start, maxHops, bound, universe, visited, hop, queue, cur);
        }
      }
      B.Complete(adj, blocked, start, maxHops, universe, visited, hop, cur);
    }

    /** A visiting step of the traversal: the head of the queue is marked
        visited and, unless its timestamp is past `bound`, its unvisited
        neighbours are queued. */
    method Visit(forward: bool, start: Id, maxHops: int, bound: int, ghost universe: set<Id>,
                 visited: set<Id>, ghost hop: map<Id, nat>, queue: seq<(Id, int)>, ghost cur: nat)
      returns (visited': set<Id>, ghost hop': map<Id, nat>, queue': seq<(Id, int)>, ghost cur': nat)
      requires Valid() && universe == nodes.Keys + {start}
      requires B.Inv(Adjacency(forward), Stopped(forward, bound), start, maxHops, universe, visited, hop, queue, cur)
      requires |queue| > 0 && queue[0].0 !in visited && queue[0].1 <= maxHops
      ensures B.Inv(Adjacency(forward), Stopped(forward, bound), start, maxHops, universe, visited', hop', queue', cur')
      ensures |universe - visited'| < |universe - visited|
    {
      ghost var adj := Adjacency(forward);
      ghost var blocked := Stopped(forward, bound);
      AdjacencyFacts(forward, start);
      var c, h := queue[0].0, queue[0].1;
      var stop := c in nodes && (if forward then nodes[c].timestamp > bound else nodes[c].timestamp < bound);
      assert stop <==> c in blocked;
      queue' := queue[1..];
      if !stop {
        var es := if forward then ListAt(edges, c) else ListAt(reverseEdges, c);
        assert B.Adj(adj, c) == if forward then Targets(es) else Sources(es);
        queue' := PushNeighbours(es, forward, h, visited + {c}, queue');
      }
      B.VisitStep(adj, blocked, start, maxHops, universe, visited, hop, queue, cur,
                  visited + {c}, hop[c := h], queue', h);
      visited', hop', cur' := visited + {c}, hop[c := h], h;
    }

    /** `_bfs_forward`: every node reachable from `start` along at most
        `maxHops` edges, where a node later than `endTime` is visited but
        not expanded. */
    method BfsForward(start: Id, maxHops: int, endTime: int) returns (visited: set<Id>)
      requires Valid()
      ensures visited == B.ReachWithin(Adjacency(true), Stopped(true, endTime), start, maxHops)
      ensures visited <= nodes.Keys + {start}
    {
      visited := Traverse(true, start, maxHops, endTime);
    }

    /** `_bfs_backward`: every node that reaches `target` along at most
        `maxHops` edges, where a node earlier than `startTime` is visited but
        not expanded. */
    method BfsBackward(target: Id, maxHops: int, startTime: int) returns (visited: set<Id>)
      requires Valid()
      ensures visited == B.ReachWithin(Adjacency(false), Stopped(false, startTime), target, maxHops)
      ensures visited <= nodes.Keys + {target}
    {
      visited := Traverse(false, target, maxHops, startTime);
    }

    // -------------------------------------------------------------------
    // Windowed reachability (`get_forward_nodes`, `get_backward_nodes`)
    // -------------------------------------------------------------------

    /** Nodes other than `id`, reachable forward within `maxHops`, strictly
        after `id` and at most `windowDays` days after it. */
    ghost function ForwardCandidates(id: Id, windowDays: int, maxHops: int): set<Id>
      reads this
      requires id in nodes
    {
      var src := nodes[id].timestamp;
      var end := src + windowDays * SecondsPerDay;
      set v | v in Reachable(true, id, maxHops, end) && v != id && v in nodes &&
              src < nodes[v].timestamp <= end
    }

    /** Nodes other than `id` that reach it within `maxHops`, strictly
        before `id` and at most `windowDays` days before it. */
    ghost function BackwardCandidates(id: Id, windowDays: int, maxHops: int): set<Id>
      reads this
      requires id in nodes
    {
      var tgt := nodes[id].timestamp;
      var start := tgt - windowDays * SecondsPerDay;
      set v | v in Reachable(false, id, maxHops, start) && v != id && v in nodes &&
              start <= nodes[v].timestamp < tgt
    }

    /** `get_forward_nodes`: the candidates in ascending timestamp order,
        cut to `maxResults` with Python slice semantics; those cut are never
        earlier than those kept. (The candidates come out of a set, so ties
        may appear in any order.) */
    method GetForwardNodes(id: Id, windowDays: int, maxHops: int, maxResults: int) returns (r: seq<Id>)
      requires Valid()
      ensures id !in nodes ==> r == []
      ensures id in nodes ==> TimeRanked(nodes, ForwardCandidates(id, windowDays, maxHops), true, maxResults, r)
    {
      if id !in nodes {
        return [];
      }
      var src := nodes[id].timestamp;
      var end := src + windowDays * SecondsPerDay;
      var reachable := BfsForward(id, maxHops, end);
      var ns := nodes;
      var future := CollectSet(reachable, (v: Id) => v != id && v in ns && src < ns[v].timestamp <= end);
      ghost var cands := ForwardCandidates(id, windowDays, maxHops);
      assert forall v :: v in future <==> v in cands;
      r := Prefix(SortDesc(future, TimestampKey(ns, true)), maxResults);
      TimestampRanked(future, cands, ns, true, maxResults);
    }

    /** `get_backward_nodes`: the candidates in descending timestamp order,
        cut to `maxResults` with Python slice semantics; those cut are never
        later than those kept. */
    method GetBackwardNodes(id: Id, windowDays: int, maxHops: int, maxResults: int) returns (r: seq<Id>)
      requires Valid()
      ensures id !in nodes ==> r == []
      ensures id in nodes ==> TimeRanked(nodes, BackwardCandidates(id, windowDays, maxHops), false, maxResults, r)
    {
      if id !in nodes {
        return [];
      }
      var tgt := nodes[id].timestamp;
      var start := tgt - windowDays * SecondsPerDay;
      var reachable := BfsBackward(id, maxHops, start);
      var ns := nodes;
      var past := CollectSet(reachable, (v: Id) => v != id && v in ns && start <= ns[v].timestamp < tgt);
      ghost var cands := BackwardCandidates(id, windowDays, maxHops);
      assert forall v :: v in past <==> v in cands;
      r := Prefix(SortDesc(past, TimestampKey(ns, false)), maxResults);
      TimestampRanked(past, cands, ns, false, maxResults);
    }

    // -------------------------------------------------------------------
    // Paths (`has_path`, `get_shortest_path`)
    // -------------------------------------------------------------------

    /** Both ids are stored, and either they are equal or `to` lies within
        `maxHops + 1` forward edges of `from`: the target is recognised when
        it is popped, and entries up to `maxHops` hops are still expanded. */
    ghost predicate PathWithin(from: Id, to: Id, maxHops: int)
      reads this
    {
      from in nodes && to in nodes &&
      (from == to || (maxHops + 1 >= 0 && to in B.Reach(Adjacency(true), {}, from, maxHops + 1)))
    }

    /** Consecutive ids of `p` are joined by a forward edge. */
    predicate IsPath(p: seq<Id>)
      reads this
    {
      forall k :: 0 <= k < |p| - 1 ==> p[k + 1] in GetDirectSuccessors(p[k])
    }

    /** A path of at most `maxHops + 1` edges between stored nodes witnesses
        `PathWithin`. */
    lemma {:induction false} PathWitness(p: seq<Id>, maxHops: int)
      requires Valid() && |p| > 0 && IsPath(p)
      requires p[0] in nodes && p[|p| - 1] in nodes && |p| <= maxHops + 2
      ensures PathWithin(p[0], p[|p| - 1], maxHops)
    {
      AdjacencyFacts(true, p[0]);
      assert B.IsWalk(Adjacency(true), p);
      B.WalkReaches(Adjacency(true), p[0], p);
      B.ReachMono(Adjacency(true), {}, p[0], |p| - 1, maxHops + 1);
    }

    /** `has_path`: a breadth-first search from `from` that stops as soon
        as `to` is popped. */
    method HasPath(from: Id, to: Id, maxHops: int) returns (r: bool)
      requires Valid()
      ensures r <==> PathWithin(from, to, maxHops)
    {
      if from !in nodes || to !in nodes {
        return false;
      }
      if from == to {
        return true;
      }
      ghost var adj := Adjacency(true);
      ghost var universe := nodes.Keys + {from};
      AdjacencyFacts(true, from);
      var visited: set<Id> := {};
      var queue: seq<(Id, int)> := [(from, 0)];
      ghost var hop: map<Id, nat> := map[];
      ghost var cur: nat := 0;
      B.InvInit(adj, {}, from, maxHops, universe);
      B.TargetInit(adj, maxHops, to, from);
      while |queue| > 0
        invariant B.Inv(adj, {}, from, maxHops, universe, visited, hop, queue, cur)
        invariant B.TargetInv(adj, maxHops, to, visited, queue)
        decreases |universe - visited|, |queue|
      {
        var c, h := queue[0].0, queue[0].1;
        if c == to {
          B.TargetFound(adj, from, maxHops, universe, to, visited, hop, queue, cur);
          return true;
        }
        if c in visited || h > maxHops {
          B.TargetSkipStep(adj, from, maxHops, universe, to, visited, hop, queue, cur);
          queue, cur := queue[1..], h;
        } else {
          var es := ListAt(edges, c);
          assert B.Adj(adj, c) == Targets(es);
          var queue' := PushNeighbours(es, true, h, visited + {c}, queue[1..]);
          B.TargetVisitStep(adj, from, maxHops, universe, to, visited, hop, queue, cur,
                            visited + {c}, hop[c := h], queue', h);
          visited, hop, queue, cur := visited + {c}, hop[c := h], queue', h;
        }
      }
      if maxHops + 1 >= 0 {
        B.TargetUnreached(adj, from, maxHops, universe, to, visited, hop, cur);
      }
      return false;
    }

    /** `get_shortest_path`: the same search, with each queue entry carrying
        the path that reached it; the path of the first `to` entry popped is
        returned. */
    method GetShortestPath(from: Id, to: Id, maxHops: int) returns (r: Option<seq<Id>>)
      requires Valid()
      ensures r.Some? <==> PathWithin(from, to, maxHops)
      ensures r.Some? ==>
        var p := r.value;
        && |p| > 0 && p[0] == from && p[|p| - 1] == to
        && IsPath(p) && Distinct(p)
        && (from == to ==> p == [from])
        && (from != to ==> |p| <= maxHops + 2)
    {
      if from !in nodes || to !in nodes {
        return None;
      }
      if from == to {
        return Some([from]);
      }
      AdjacencyFacts(true, from);
      r := SearchPath(edges, Adjacency(true), nodes.Keys, from, to, maxHops);
      if r.Some? {
        AdjacencyFacts(true, from);
        assert B.IsWalk(Adjacency(true), r.value);
      }
    }

    /** `get_adjacent_layers`: the labels of the previous week (only when
        the week number is positive) and of the next week, those that exist,
        in that order; nothing when the label cannot be read. */
    function GetAdjacentLayers(layerId: string): (r: seq<string>)
      reads this
      ensures ParseLayer(layerId).None? ==> r == []
      ensures forall l :: l in r ==> l in layers
      ensures ParseLayer(layerId).Some? ==>
        var w := ParseLayer(layerId).value;
        forall l :: l in r <==>
          l in layers && ((w > 0 && l == LayerLabel(w - 1)) || l == LayerLabel(w + 1))
    {
      var w := ParseLayer(layerId);
      if w.None? then []
      else
        var next := LayerLabel(w.value + 1);
        ExistingLayers(if w.value > 0 then [LayerLabel(w.value - 1), next] else [next])
    }

    /** The layers adjacent to the one a timestamp falls in are those of
        the previous and the next week. */
    lemma {:induction false} AdjacentWeeks(ts: int)
      ensures var w := FloorDiv(ts, DaysPerLayer * SecondsPerDay);
        forall l :: l in GetAdjacentLayers(ComputeLayerId(ts)) <==>
          l in layers && ((w > 0 && l == LayerLabel(w - 1)) || l == LayerLabel(w + 1))
    {
      LayerIsWeek(ts);
    }

    /** The labels of `ls` that name a layer, in order. */
    function ExistingLayers(ls: seq<string>): (r: seq<string>)
      reads this
      ensures forall l :: l in r <==> l in ls && l in layers
    {
      if |ls| == 0 then []
      else (if ls[0] in layers then [ls[0]] else []) + ExistingLayers(ls[1..])
    }
  }

  /** The neighbour an edge leads to in the direction of travel. */
  function Endpoint(e: Edge, forward: bool): Id
  {
    if forward then e.to else e.from
  }

  /** The inner loop of a traversal step: appends `(n, h + 1)` for the
      neighbour `n` of each edge in `es`, in order, unless `n` is visited. */
  method PushNeighbours(es: seq<Edge>, forward: bool, h: int, visited: set<Id>, queue: seq<(Id, int)>)
    returns (q: seq<(Id, int)>)
    ensures q == queue + B.Pushes(if forward then Targets(es) else Sources(es), visited, h + 1)
  {
    ghost var ns := if forward then Targets(es) else Sources(es);
    q := queue;
    var j := 0;
    while j < |es|
      invariant 0 <= j <= |es| == |ns|
      invariant q == queue + B.Pushes(ns[..j], visited, h + 1)
    {
      var next := Endpoint(es[j], forward);
      assert ns[j] == next;
      B.PushesSnoc(ns, j, visited, h + 1);
      if next !in visited {
        AppendOne(queue, B.Pushes(ns[..j], visited, h + 1), (next, h + 1));
        q := q + [(next, h + 1)];
      }
      j := j + 1;
    }
    assert ns[..|es|] == ns;
  }

  /** The loop over a result set that keeps the members satisfying `keep`,
      each once; a set has no defined iteration order, so any order is
      allowed. */
  method CollectSet(s: set<Id>, keep: Id -> bool) returns (r: seq<Id>)
    ensures Distinct(r)
    ensures forall v :: v in r <==> v in s && keep(v)
  {
    var rest := s;
    r := [];
    while rest != {}
      invariant rest <= s
      invariant Distinct(r)
      invariant forall v :: v in r <==> v in s && v !in rest && keep(v)
      decreases |rest|
    {
      var x :| x in rest;
      rest := rest - {x};
      if keep(x) {
        r := r + [x];
      }
    }
  }

  /** The sort key of `nodes[id].timestamp`, negated for an ascending sort
      (so that a descending sort by the key is ascending by time). */
  function TimestampKey(ns: map<Id, Node>, ascending: bool): Id -> real
  {
    (v: Id) => if v !in ns then 0.0
               else if ascending then -(ns[v].timestamp as real) else ns[v].timestamp as real
  }

  /** `r` is the stored candidates `cands`, each once, in timestamp order
      (ascending or descending), cut to `n` with slice semantics, and
      every candidate cut lies on the far side of every one kept. */
  ghost predicate TimeRanked(ns: map<Id, Node>, cands: set<Id>, ascending: bool, n: int, r: seq<Id>)
  {
    && Distinct(r) && |r| == PrefixLen(|cands|, n)
    && (forall v :: v in cands ==> v in ns)
    && (forall v :: v in r ==> v in cands)
    && (forall i, j :: 0 <= i < j < |r| ==>
          if ascending then ns[r[i]].timestamp <= ns[r[j]].timestamp
          else ns[r[i]].timestamp >= ns[r[j]].timestamp)
    && (forall v, w :: v in cands && v !in r && w in r ==>
          if ascending then ns[w].timestamp <= ns[v].timestamp
          else ns[w].timestamp >= ns[v].timestamp)
  }

  /** Sorting stored ids by timestamp and keeping the first `n` ranks them
      in the sense of `TimeRanked`. */
  lemma {:induction false} TimestampRanked(found: seq<Id>, cands: set<Id>, ns: map<Id, Node>, ascending: bool, n: int)
    requires Distinct(found) && forall v :: v in found <==> v in cands
    requires forall v :: v in found ==> v in ns
    ensures TimeRanked(ns, cands, ascending, n, Prefix(SortDesc(found, TimestampKey(ns, ascending)), n))
  {
    var key := TimestampKey(ns, ascending);
    var r := Prefix(SortDesc(found, key), n);
    RankedPrefix(found, key, n, r);
    DistinctCard(found);
    assert (set v | v in found) == cands;
    forall i, j | 0 <= i < j < |r|
      ensures if ascending then ns[r[i]].timestamp <= ns[r[j]].timestamp
              else ns[r[i]].timestamp >= ns[r[j]].timestamp
    {
      assert key(r[i]) >= key(r[j]);
    }
    forall v, w | v in cands && v !in r && w in r
      ensures if ascending then ns[w].timestamp <= ns[v].timestamp
              else ns[w].timestamp >= ns[v].timestamp
    {
      assert key(w) >= key(v);
    }
  }

  /** A duplicate-free list of candidates as long as the candidate set
      holds all of them. */
  lemma {:induction false} AllKept(cands: set<Id>, r: seq<Id>)
    requires Distinct(r) && |r| == |cands|
    requires forall v :: v in r ==> v in cands
    ensures forall v :: v in cands ==> v in r
  {
    var inR := set x | x in r;
    DistinctCard(r);
    assert inR <= cands;
    forall v | v in cands
      ensures v in r
    {
      if v !in r {
        SubsetCard(inR, cands - {v});
      }
    }
  }

  lemma {:induction false} SubsetCard(a: set<Id>, b: set<Id>)
    requires a <= b
    ensures |a| <= |b|
    decreases a
  {
    if a != {} {
      var x :| x in a;
      SubsetCard(a - {x}, b - {x});
    }
  }

  /** The candidates other than `v` that are as near in time as `v`: no
      later than it (`ascending`) or no earlier. */
  ghost function Nearer(ns: map<Id, Node>, cands: set<Id>, ascending: bool, v: Id): set<Id>
  {
    set w | w in cands && w in ns && v in ns && w != v &&
            (if ascending then ns[w].timestamp <= ns[v].timestamp else ns[w].timestamp >= ns[v].timestamp)
  }

  /** The candidates a time-ordered slice to `n` keeps whatever the order
      of ties: those with fewer than `n` others as near in time. */
  ghost function Sure(ns: map<Id, Node>, cands: set<Id>, ascending: bool, n: nat): set<Id>
  {
    set v | v in cands && |Nearer(ns, cands, ascending, v)| < n
  }

  /** A time-ranked slice keeps every sure candidate. */
  lemma {:induction false} SureKept(ns: map<Id, Node>, cands: set<Id>, ascending: bool, n: nat, r: seq<Id>)
    requires TimeRanked(ns, cands, ascending, n, r)
    ensures forall v :: v in Sure(ns, cands, ascending, n) ==> v in r
  {
    forall v | v in Sure(ns, cands, ascending, n)
      ensures v in r
    {
      if v !in r {
        if |cands| <= n {
          AllKept(cands, r);
        } else {
          var inR := set x | x in r;
          DistinctCard(r);
          assert inR <= Nearer(ns, cands, ascending, v);
          SubsetCard(inR, Nearer(ns, cands, ascending, v));
        }
      }
    }
  }

  /** The candidates other than `v` strictly nearer in time than `v`:
      earlier (`ascending`) or later. */
  ghost function StrictlyNearer(ns: map<Id, Node>, cands: set<Id>, ascending: bool, v: Id): set<Id>
  {
    set w | w in cands && w in ns && v in ns &&
            (if ascending then ns[w].timestamp < ns[v].timestamp else ns[w].timestamp > ns[v].timestamp)
  }

  /** The candidates a time-ordered slice to `n` can keep under some
      order of ties: those with fewer than `n` others strictly nearer. */
  ghost function Possible(ns: map<Id, Node>, cands: set<Id>, ascending: bool, n: int): set<Id>
  {
    set v | v in cands && |StrictlyNearer(ns, cands, ascending, v)| < n
  }

  /** A time-ranked slice keeps only possible candidates: each kept one
      has fewer others strictly nearer than the slice is long. */
  lemma {:induction false} PossibleOnly(ns: map<Id, Node>, cands: set<Id>, ascending: bool, n: int, r: seq<Id>)
    requires TimeRanked(ns, cands, ascending, n, r)
    ensures forall v :: v in r ==> v in Possible(ns, cands, ascending, |r|)
  {
    forall v | v in r
      ensures |StrictlyNearer(ns, cands, ascending, v)| < |r|
    {
      var inR := set x | x in r;
      DistinctCard(r);
      var closer := StrictlyNearer(ns, cands, ascending, v);
      assert closer <= inR - {v};
      SubsetCard(closer, inR - {v});
    }
  }

  /** When at most `n` candidates exist, every one of them is sure. */
  lemma {:induction false} FewAreSure(ns: map<Id, Node>, cands: set<Id>, ascending: bool, n: nat)
    requires |cands| <= n
    ensures Sure(ns, cands, ascending, n) == cands
  {
    forall v | v in cands
      ensures |Nearer(ns, cands, ascending, v)| < n
    {
      SubsetCard(Nearer(ns, cands, ascending, v), cands - {v});
    }
  }

  /** The search of `get_shortest_path` between two distinct nodes, over
      the forward lists `edges` (whose targets `adj` lists, all within
      `universe`). */
  method SearchPath(edges: map<Id, seq<Edge>>, ghost adj: map<Id, seq<Id>>, ghost universe: set<Id>,
                    from: Id, to: Id, maxHops: int) returns (r: Option<seq<Id>>)
    requires forall u :: B.Adj(adj, u) == Targets(ListAt(edges, u))
    requires B.AdjWithin(adj, universe) && from in universe && from != to
    ensures r.Some? <==> maxHops + 1 >= 0 && to in B.Reach(adj, {}, from, maxHops + 1)
    ensures r.Some? ==>
      var p := r.value;
      && |p| > 0 && p[0] == from && p[|p| - 1] == to
      && B.IsWalk(adj, p) && Distinct(p) && |p| <= maxHops + 2
  {
    var visited: set<Id> := {};
    var queue: seq<Item> := [(from, [from], 0)];
    ghost var hop: map<Id, nat> := map[];
    ghost var cur: nat := 0;
    SearchInit(adj, from, maxHops, universe, to);
    while |queue| > 0
      invariant SearchInv(adj, from, maxHops, universe, to, visited, hop, queue, cur)
      decreases |universe - visited|, |queue|
    {
      if queue[0].0 == to {
        SearchFound(adj, from, maxHops, universe, to, visited, hop, queue, cur);
        return Some(queue[0].1);
      }
      visited, hop, queue, cur := Advance(edges, adj, universe, from, to, maxHops, visited, hop, queue, cur);
    }
    SearchExhausted(adj, from, maxHops, universe, to, visited, hop, cur);
    return None;
  }

  /** One step of the path search whose head is not the target: the head
      is skipped when already visited or beyond the hop limit; otherwise it
      is marked visited and the paths to its unvisited targets are queued. */
  method Advance(edges: map<Id, seq<Edge>>, ghost adj: map<Id, seq<Id>>, ghost universe: set<Id>,
                 from: Id, to: Id, maxHops: int, visited: set<Id>, ghost hop: map<Id, nat>,
                 queue: seq<Item>, ghost cur: nat)
    returns (visited': set<Id>, ghost hop': map<Id, nat>, queue': seq<Item>, ghost cur': nat)
    requires forall u :: B.Adj(adj, u) == Targets(ListAt(edges, u))
    requires SearchInv(adj, from, maxHops, universe, to, visited, hop, queue, cur)
    requires |queue| > 0 && queue[0].0 != to
    ensures SearchInv(adj, from, maxHops, universe, to, visited', hop', queue', cur')
    ensures |universe - visited'| < |universe - visited| ||
            (visited' == visited && |queue'| < |queue|)
  {
    var c, path, h := queue[0].0, queue[0].1, queue[0].2;
    if c in visited || h > maxHops {
      SearchSkip(adj, from, maxHops, universe, to, visited, hop, queue, cur);
      visited', hop', queue', cur' := visited, hop, queue[1..], h;
    } else {
      queue' := VisitHead(edges, adj, universe, from, to, maxHops, visited, hop, queue, cur);
      visited', hop', cur' := visited + {c}, hop[c := h], h;
    }
  }

  /** The visiting half of `Advance`: the head is new and within the hop
      limit, so the paths to its unvisited targets are queued. */
  method VisitHead(edges: map<Id, seq<Edge>>, ghost adj: map<Id, seq<Id>>, ghost universe: set<Id>,
                   from: Id, to: Id, maxHops: int, visited: set<Id>, ghost hop: map<Id, nat>,
                   queue: seq<Item>, ghost cur: nat)
    returns (queue': seq<Item>)
    requires forall u :: B.Adj(adj, u) == Targets(ListAt(edges, u))
    requires SearchInv(adj, from, maxHops, universe, to, visited, hop, queue, cur)
    requires |queue| > 0 && queue[0].0 != to && queue[0].0 !in visited && queue[0].2 <= maxHops
    ensures queue[0].2 >= 0
    ensures SearchInv(adj, from, maxHops, universe, to, visited + {queue[0].0},
                      hop[queue[0].0 := queue[0].2], queue', queue[0].2)
    ensures |universe - (visited + {queue[0].0})| < |universe - visited|
  {
    var c, path, h := queue[0].0, queue[0].1, queue[0].2;
    var es := ListAt(edges, c);
    queue' := PushPaths(es, path, h, visited + {c}, queue[1..]);
    SearchVisit(adj, from, maxHops, universe, to, visited, hop, queue, cur, es, queue');
  }

  /** Inserting `x` at its `bisect_right` position keeps the index sorted. */
  lemma {:induction false} InsertKeepsSorted(s: seq<Entry>, x: Entry, p: nat)
    requires IndexSorted(s) && p <= |s|
    requires forall k :: 0 <= k < p ==> !EntryLt(x, s[k])
    requires forall k :: p <= k < |s| ==> EntryLt(x, s[k])
    ensures IndexSorted(s[..p] + [x] + s[p..])
  {
    var r := s[..p] + [x] + s[p..];
    assert forall k :: 0 <= k < |r| ==> r[k] == if k < p then s[k] else if k == p then x else s[k - 1];
    forall i, j | 0 <= i < j < |r|
      ensures EntryLe(r[i], r[j])
    {
      if i < p && j == p {
        EntryLtIsNotLe(x, s[i]);
        EntryLeTotal(x, s[i]);
      } else if i == p {
        EntryLtLe(x, s[j - 1]);
      }
    }
  }
}
