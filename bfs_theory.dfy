/**
 * What the graph's breadth-first searches compute, and the loop invariant
 * that proves it.
 *
 * Every search in the graph pops `(node, hops)` pairs from a FIFO queue,
 * skips a node that was already visited or lies beyond the hop limit, marks
 * it visited, and (unless the node is "blocked", i.e. past the time bound)
 * appends each neighbour that is not yet visited with `hops + 1`. This module
 * states the set such a search visits (`ReachWithin`) and proves the two
 * steps of the loop preserve an invariant (`Inv`) from which, once the queue
 * is empty, the visited set equals that set.
 */
module BfsTheory {
  type Id = string

  /** Neighbours of `u`: `adj.get(u, [])`. */
  function Adj(adj: map<Id, seq<Id>>, u: Id): seq<Id>
  {
    if u in adj then adj[u] else []
  }

  /** Nodes reachable from `s` in at most `k` steps, where only nodes outside
      `blocked` may be left. */
  ghost function Reach(adj: map<Id, seq<Id>>, blocked: set<Id>, s: Id, k: nat): set<Id>
  {
    if k == 0 then {s}
    else
      var r := Reach(adj, blocked, s, k - 1);
      r + (set u, t | u in r && u !in blocked && t in Adj(adj, u) :: t)
  }

  /** The set a search with hop limit `maxHops` visits: empty when the limit
      is negative, since even the start entry `(s, 0)` is then skipped. */
  ghost function ReachWithin(adj: map<Id, seq<Id>>, blocked: set<Id>, s: Id, maxHops: int): set<Id>
  {
    if maxHops < 0 then {} else Reach(adj, blocked, s, maxHops)
  }

  lemma {:induction false} ReachStep(adj: map<Id, seq<Id>>, blocked: set<Id>, s: Id, k: nat, u: Id, t: Id)
    requires u in Reach(adj, blocked, s, k) && u !in blocked && t in Adj(adj, u)
    ensures t in Reach(adj, blocked, s, k + 1)
  {
    var r := Reach(adj, blocked, s, k);
    assert t in (set u, t | u in r && u !in blocked && t in Adj(adj, u) :: t);
  }

  lemma {:induction false} ReachMono(adj: map<Id, seq<Id>>, blocked: set<Id>, s: Id, k: nat, k': nat)
    requires k <= k'
    ensures Reach(adj, blocked, s, k) <= Reach(adj, blocked, s, k')
    decreases k' - k
  {
    if k < k' {
      ReachMono(adj, blocked, s, k, k' - 1);
    }
  }

  /** A node reached in `k + 1` steps was reached in `k`, or is a neighbour
      of an unblocked node reached in `k`. */
  lemma {:induction false} ReachLast(adj: map<Id, seq<Id>>, blocked: set<Id>, s: Id, k: nat, t: Id)
    requires t in Reach(adj, blocked, s, k + 1)
    ensures t in Reach(adj, blocked, s, k) ||
      exists u :: u in Reach(adj, blocked, s, k) && u !in blocked && t in Adj(adj, u)
  {
  }

  /** Every neighbour listed in `adj` lies in `universe`. */
  ghost predicate AdjWithin(adj: map<Id, seq<Id>>, universe: set<Id>)
  {
    forall u, t :: u in adj && t in adj[u] ==> t in universe
  }

  /** The entries one expansion appends: each neighbour not in `seen`, in
      order, with hop count `h` (duplicates included). */
  function Pushes(ts: seq<Id>, seen: set<Id>, h: int): (r: seq<(Id, int)>)
    ensures forall p :: p in r ==> p.1 == h && p.0 in ts && p.0 !in seen
    ensures forall t :: t in ts && t !in seen ==> (t, h) in r
  {
    if |ts| == 0 then []
    else
      var last := ts[|ts| - 1];
      assert ts == ts[..|ts| - 1] + [last];
      Pushes(ts[..|ts| - 1], seen, h) + (if last in seen then [] else [(last, h)])
  }

  /** Expanding one more neighbour appends at most one entry. */
  lemma {:induction false} PushesSnoc(ts: seq<Id>, j: nat, seen: set<Id>, h: int)
    requires j < |ts|
    ensures ts[j] in seen ==> Pushes(ts[..j + 1], seen, h) == Pushes(ts[..j], seen, h)
    ensures ts[j] !in seen ==> Pushes(ts[..j + 1], seen, h) == Pushes(ts[..j], seen, h) + [(ts[j], h)]
  {
    assert ts[..j + 1][..j] == ts[..j];
  }

  /** Some queue entry for `t` carries at most `h` hops. */
  ghost predicate Queued(queue: seq<(Id, int)>, t: Id, h: int)
  {
    exists i :: 0 <= i < |queue| && queue[i].0 == t && queue[i].1 <= h
  }

  /** Every edge out of a visited, unblocked node leads to a node visited no
      more than one hop later, or lies beyond the hop limit, or is still
      waiting in the queue. */
  ghost predicate Closed(adj: map<Id, seq<Id>>, blocked: set<Id>, maxHops: int,
                         visited: set<Id>, hop: map<Id, nat>, queue: seq<(Id, int)>)
    requires visited == hop.Keys
  {
    forall u, t :: u in visited && u !in blocked && t in Adj(adj, u) ==>
      (t in visited && hop[t] <= hop[u] + 1) || maxHops < hop[u] + 1 || Queued(queue, t, hop[u] + 1)
  }

  /** Facts about the queue alone: entries lie in the universe, are reachable
      with their hop count, and their hop counts are non-decreasing and lie in
      `[cur, cur + 1]`. */
  ghost predicate QueueOk(adj: map<Id, seq<Id>>, blocked: set<Id>, s: Id, universe: set<Id>,
                          queue: seq<(Id, int)>, cur: nat)
  {
    && (forall i :: 0 <= i < |queue| ==>
         queue[i].0 in universe && cur <= queue[i].1 <= cur + 1 &&
         queue[i].0 in Reach(adj, blocked, s, queue[i].1))
    && (forall i, j :: 0 <= i < j < |queue| ==> queue[i].1 <= queue[j].1)
  }

  /** The loop invariant of a search from `s`. `hop` (ghost) records the hop
      count with which each visited node was visited, and `cur` the hop count
      of the most recently popped entry. */
  ghost predicate Inv(adj: map<Id, seq<Id>>, blocked: set<Id>, s: Id, maxHops: int, universe: set<Id>,
                      visited: set<Id>, hop: map<Id, nat>, queue: seq<(Id, int)>, cur: nat)
  {
    && AdjWithin(adj, universe) && s in universe
    && visited == hop.Keys && visited <= universe
    && QueueOk(adj, blocked, s, universe, queue, cur)
    && (forall v :: v in visited ==>
         hop[v] <= cur && hop[v] <= maxHops && v in Reach(adj, blocked, s, hop[v]))
    && (visited == {} ==> maxHops < 0 || queue == [(s, 0)])
    && (visited != {} ==> s in visited && hop[s] == 0)
    && Closed(adj, blocked, maxHops, visited, hop, queue)
  }

  lemma {:induction false} InvInit(adj: map<Id, seq<Id>>, blocked: set<Id>, s: Id, maxHops: int, universe: set<Id>)
    requires AdjWithin(adj, universe) && s in universe
    ensures Inv(adj, blocked, s, maxHops, universe, {}, map[], [(s, 0)], 0)
  {
  }

  /** Popping an entry that is already visited or beyond the hop limit. */
  lemma {:induction false} SkipStep(adj: map<Id, seq<Id>>, blocked: set<Id>, s: Id, maxHops: int, universe: set<Id>,
                 visited: set<Id>, hop: map<Id, nat>, queue: seq<(Id, int)>, cur: nat)
    requires Inv(adj, blocked, s, maxHops, universe, visited, hop, queue, cur)
    requires |queue| > 0 && (queue[0].0 in visited || queue[0].1 > maxHops)
    ensures Inv(adj, blocked, s, maxHops, universe, visited, hop, queue[1..], queue[0].1)
  {
    VisitQueue(adj, blocked, s, universe, queue, cur, []);
    assert queue[1..] + [] == queue[1..];
    SkipClosed(adj, blocked, maxHops, visited, hop, queue, cur);
  }

  lemma {:induction false} SkipClosed(adj: map<Id, seq<Id>>, blocked: set<Id>, maxHops: int,
                   visited: set<Id>, hop: map<Id, nat>, queue: seq<(Id, int)>, cur: nat)
    requires visited == hop.Keys && Closed(adj, blocked, maxHops, visited, hop, queue)
    requires forall v :: v in visited ==> hop[v] <= cur
    requires |queue| > 0 && cur <= queue[0].1 && (queue[0].0 in visited || queue[0].1 > maxHops)
    ensures Closed(adj, blocked, maxHops, visited, hop, queue[1..])
  {
    var q' := queue[1..];
    forall u, t | u in visited && u !in blocked && t in Adj(adj, u)
      ensures (t in visited && hop[t] <= hop[u] + 1) || maxHops < hop[u] + 1 || Queued(q', t, hop[u] + 1)
    {
      if !(t in visited && hop[t] <= hop[u] + 1) && maxHops >= hop[u] + 1 {
        var i :| 0 <= i < |queue| && queue[i].0 == t && queue[i].1 <= hop[u] + 1;
        if i > 0 {
          assert q'[i - 1] == queue[i];
        }
      }
    }
  }

  /** Popping an unvisited entry within the hop limit: it is marked visited
      with its hop count and, unless blocked, its unvisited neighbours are
      appended. */
  lemma {:induction false} VisitStep(adj: map<Id, seq<Id>>, blocked: set<Id>, s: Id, maxHops: int, universe: set<Id>,
                  visited: set<Id>, hop: map<Id, nat>, queue: seq<(Id, int)>, cur: nat,
                  visited': set<Id>, hop': map<Id, nat>, queue': seq<(Id, int)>, cur': nat)
    requires Inv(adj, blocked, s, maxHops, universe, visited, hop, queue, cur)
    requires |queue| > 0 && queue[0].0 !in visited && queue[0].1 <= maxHops
    requires visited' == visited + {queue[0].0} && cur' == queue[0].1
    requires hop' == hop[queue[0].0 := cur']
    requires queue' == queue[1..] +
      (if queue[0].0 in blocked then [] else Pushes(Adj(adj, queue[0].0), visited', cur' + 1))
    ensures Inv(adj, blocked, s, maxHops, universe, visited', hop', queue', cur')
    ensures |universe - visited'| < |universe - visited|
  {
    var w, h := queue[0].0, queue[0].1;
    var ps := if w in blocked then [] else Pushes(Adj(adj, w), visited', h + 1);
    PushesOk(adj, blocked, s, universe, w, h, visited');
    VisitQueue(adj, blocked, s, universe, queue, cur, ps);
    VisitClosed(adj, blocked, maxHops, visited, hop, queue, cur, ps);
    VisitVisited(adj, blocked, s, maxHops, universe, visited, hop, queue, cur);
    Shrinks(universe, visited, w);
  }

  /** Visiting a new node of the universe leaves fewer to visit. */
  lemma {:induction false} Shrinks(universe: set<Id>, visited: set<Id>, w: Id)
    requires w in universe && w !in visited
    ensures |universe - (visited + {w})| < |universe - visited|
  {
    assert universe - (visited + {w}) == (universe - visited) - {w};
  }

  lemma {:induction false} VisitVisited(adj: map<Id, seq<Id>>, blocked: set<Id>, s: Id, maxHops: int, universe: set<Id>,
                     visited: set<Id>, hop: map<Id, nat>, queue: seq<(Id, int)>, cur: nat)
    requires Inv(adj, blocked, s, maxHops, universe, visited, hop, queue, cur)
    requires |queue| > 0 && queue[0].0 !in visited && queue[0].1 <= maxHops
    ensures var w, h := queue[0].0, queue[0].1;
      var v', hop' := visited + {w}, hop[w := h];
      h >= 0 && v' == hop'.Keys && v' <= universe &&
      (forall v :: v in v' ==> hop'[v] <= h && hop'[v] <= maxHops && v in Reach(adj, blocked, s, hop'[v])) &&
      s in v' && hop'[s] == 0
  {
  }

  lemma {:induction false} VisitClosed(adj: map<Id, seq<Id>>, blocked: set<Id>, maxHops: int,
                    visited: set<Id>, hop: map<Id, nat>, queue: seq<(Id, int)>, cur: nat, ps: seq<(Id, int)>)
    requires visited == hop.Keys && Closed(adj, blocked, maxHops, visited, hop, queue)
    requires forall v :: v in visited ==> hop[v] <= cur
    requires |queue| > 0 && cur <= queue[0].1 && queue[0].0 !in visited
    requires ps == if queue[0].0 in blocked then [] else Pushes(Adj(adj, queue[0].0), visited + {queue[0].0}, queue[0].1 + 1)
    ensures var w, h := queue[0].0, queue[0].1;
      h >= 0 ==> Closed(adj, blocked, maxHops, visited + {w}, hop[w := h as nat], queue[1..] + ps)
  {
    var w, h := queue[0].0, queue[0].1;
    if h >= 0 {
      var v' := visited + {w};
      var hop' := hop[w := h as nat];
      var q' := queue[1..] + ps;
      ClosedNew(adj, blocked, queue, ps, visited);
      ClosedOld(adj, blocked, maxHops, visited, hop, queue, ps);
    }
  }

  /** The edges out of the newly visited head `w`: each target is visited
      or queued one hop after `w`. */
  lemma {:induction false} ClosedNew(adj: map<Id, seq<Id>>, blocked: set<Id>, queue: seq<(Id, int)>,
                                     ps: seq<(Id, int)>, visited: set<Id>)
    requires |queue| > 0
    requires ps == if queue[0].0 in blocked then [] else Pushes(Adj(adj, queue[0].0), visited + {queue[0].0}, queue[0].1 + 1)
    ensures var w, h := queue[0].0, queue[0].1;
      forall t :: w !in blocked && t in Adj(adj, w) ==> t in visited + {w} || Queued(queue[1..] + ps, t, h + 1)
  {
    var w, h := queue[0].0, queue[0].1;
    forall t | w !in blocked && t in Adj(adj, w) && t !in visited + {w}
      ensures Queued(queue[1..] + ps, t, h + 1)
    {
      assert (t, h + 1) in ps;
      QueuedIn(queue, ps, (t, h + 1));
    }
  }

  /** The edges out of nodes visited before: what was queued stays queued,
      unless it is the popped head `w`, which is now visited. */
  lemma {:induction false} ClosedOld(adj: map<Id, seq<Id>>, blocked: set<Id>, maxHops: int,
                                     visited: set<Id>, hop: map<Id, nat>, queue: seq<(Id, int)>, ps: seq<(Id, int)>)
    requires visited == hop.Keys && Closed(adj, blocked, maxHops, visited, hop, queue)
    requires |queue| > 0
    ensures var w, h := queue[0].0, queue[0].1;
      forall u, t :: u in visited && u !in blocked && t in Adj(adj, u) ==>
        (t in visited && hop[t] <= hop[u] + 1) || maxHops < hop[u] + 1 || Queued(queue[1..] + ps, t, hop[u] + 1) ||
        (t == w && h <= hop[u] + 1)
  {
    forall u, t | u in visited && u !in blocked && t in Adj(adj, u) &&
                  !(t in visited && hop[t] <= hop[u] + 1) && maxHops >= hop[u] + 1
      ensures Queued(queue[1..] + ps, t, hop[u] + 1) || (t == queue[0].0 && queue[0].1 <= hop[u] + 1)
    {
      QueuedPop(queue, ps, t, hop[u] + 1);
    }
  }

  /** An appended entry is queued. */
  lemma {:induction false} QueuedIn(queue: seq<(Id, int)>, ps: seq<(Id, int)>, x: (Id, int))
    requires |queue| > 0 && x in ps
    ensures Queued(queue[1..] + ps, x.0, x.1)
  {
    var q' := queue[1..] + ps;
    var k :| 0 <= k < |ps| && ps[k] == x;
    assert q'[|queue| - 1 + k] == ps[k];
  }

  /** An entry queued before a pop is queued after it, unless it was the
      popped head. */
  lemma {:induction false} QueuedPop(queue: seq<(Id, int)>, ps: seq<(Id, int)>, t: Id, b: int)
    requires |queue| > 0 && Queued(queue, t, b)
    ensures Queued(queue[1..] + ps, t, b) || (queue[0].0 == t && queue[0].1 <= b)
  {
    var i :| 0 <= i < |queue| && queue[i].0 == t && queue[i].1 <= b;
    if i > 0 {
      assert (queue[1..] + ps)[i - 1] == queue[i];
    }
  }

  /** The entries an expansion of `w` (reached with `h` hops) appends are in
      the universe and reachable with their hop count `h + 1`. */
  lemma {:induction false} PushesOk(adj: map<Id, seq<Id>>, blocked: set<Id>, s: Id, universe: set<Id>,
                 w: Id, h: nat, seen: set<Id>)
    requires AdjWithin(adj, universe) && w in Reach(adj, blocked, s, h)
    ensures var ps := if w in blocked then [] else Pushes(Adj(adj, w), seen, h + 1);
      forall p :: p in ps ==> p.1 == h + 1 && p.0 in universe && p.0 in Reach(adj, blocked, s, h + 1)
  {
    var ps := if w in blocked then [] else Pushes(Adj(adj, w), seen, h + 1);
    forall p | p in ps
      ensures p.1 == h + 1 && p.0 in universe && p.0 in Reach(adj, blocked, s, h + 1)
    {
      ReachStep(adj, blocked, s, h, w, p.0);
    }
  }

  /** Dropping the head of the queue and appending entries one hop further
      keeps the queue facts, with the popped hop count as the new `cur`. */
  lemma {:induction false} VisitQueue(adj: map<Id, seq<Id>>, blocked: set<Id>, s: Id, universe: set<Id>,
                   queue: seq<(Id, int)>, cur: nat, ps: seq<(Id, int)>)
    requires QueueOk(adj, blocked, s, universe, queue, cur) && |queue| > 0
    requires forall p :: p in ps ==>
      p.1 == queue[0].1 + 1 && p.0 in universe && p.0 in Reach(adj, blocked, s, p.1)
    ensures queue[0].1 >= 0 && QueueOk(adj, blocked, s, universe, queue[1..] + ps, queue[0].1)
  {
    var h := queue[0].1;
    var q' := queue[1..] + ps;
    forall i | 0 <= i < |q'|
      ensures q'[i].0 in universe && h <= q'[i].1 <= h + 1 && q'[i].0 in Reach(adj, blocked, s, q'[i].1)
    {
      if i < |queue| - 1 {
        assert q'[i] == queue[i + 1];
      } else {
        assert q'[i] == ps[i - (|queue| - 1)];
        assert q'[i] in ps;
      }
    }
    forall i, j | 0 <= i < j < |q'|
      ensures q'[i].1 <= q'[j].1
    {
      if j < |queue| - 1 {
        assert q'[i] == queue[i + 1] && q'[j] == queue[j + 1];
      } else if i >= |queue| - 1 {
        assert q'[i] in ps && q'[j] in ps;
      } else {
        assert q'[j] in ps;
      }
    }
  }

  /** Once the queue is empty every node reachable within `k <= maxHops`
      steps has been visited, with a hop count of at most `k`. */
  lemma {:induction false} CompleteUpTo(adj: map<Id, seq<Id>>, blocked: set<Id>, s: Id, maxHops: int,
                                        universe: set<Id>, visited: set<Id>, hop: map<Id, nat>, cur: nat, k: nat)
    requires Inv(adj, blocked, s, maxHops, universe, visited, hop, [], cur)
    requires k <= maxHops
    ensures forall v :: v in Reach(adj, blocked, s, k) ==> v in visited && hop[v] <= k
    decreases k
  {
    if k > 0 {
      CompleteUpTo(adj, blocked, s, maxHops, universe, visited, hop, cur, k - 1);
      forall v | v in Reach(adj, blocked, s, k)
        ensures v in visited && hop[v] <= k
      {
        ReachLast(adj, blocked, s, k - 1, v);
        if v !in Reach(adj, blocked, s, k - 1) {
          var u :| u in Reach(adj, blocked, s, k - 1) && u !in blocked && v in Adj(adj, u);
          assert u in visited && hop[u] <= k - 1;
        }
      }
    }
  }

  /** When the queue runs empty the search has visited exactly the nodes
      reachable within the hop limit. */
  lemma {:induction false} Complete(adj: map<Id, seq<Id>>, blocked: set<Id>, s: Id, maxHops: int, universe: set<Id>,
                 visited: set<Id>, hop: map<Id, nat>, cur: nat)
    requires Inv(adj, blocked, s, maxHops, universe, visited, hop, [], cur)
    ensures visited == ReachWithin(adj, blocked, s, maxHops)
  {
    if maxHops >= 0 {
      CompleteUpTo(adj, blocked, s, maxHops, universe, visited, hop, cur, maxHops);
      forall v | v in visited
        ensures v in Reach(adj, blocked, s, maxHops)
      {
        ReachMono(adj, blocked, s, hop[v], maxHops);
      }
    }
  }

  // ---------------------------------------------------------------------
  // Searching for one target (`has_path`, `get_shortest_path`): the target
  // is tested when popped, before the visited and hop checks.
  // ---------------------------------------------------------------------

  /** The target was never visited, each of its queue entries is within
      `maxHops + 1` hops, and each visited node with an edge to it has left an
      entry for it in the queue. */
  ghost predicate TargetInv(adj: map<Id, seq<Id>>, maxHops: int, target: Id,
                            visited: set<Id>, queue: seq<(Id, int)>)
  {
    && target !in visited
    && (forall i :: 0 <= i < |queue| && queue[i].0 == target ==> queue[i].1 <= maxHops + 1)
    && (forall u :: u in visited && target in Adj(adj, u) ==>
         exists i :: 0 <= i < |queue| && queue[i].0 == target)
  }

  lemma {:induction false} TargetSkip(adj: map<Id, seq<Id>>, maxHops: int, target: Id, visited: set<Id>, queue: seq<(Id, int)>)
    requires TargetInv(adj, maxHops, target, visited, queue)
    requires |queue| > 0 && queue[0].0 != target
    ensures TargetInv(adj, maxHops, target, visited, queue[1..])
  {
    forall u | u in visited && target in Adj(adj, u)
      ensures exists i :: 0 <= i < |queue[1..]| && queue[1..][i].0 == target
    {
      var i :| 0 <= i < |queue| && queue[i].0 == target;
      assert queue[1..][i - 1] == queue[i];
    }
  }

  lemma {:induction false} TargetInit(adj: map<Id, seq<Id>>, maxHops: int, target: Id, s: Id)
    requires target != s
    ensures TargetInv(adj, maxHops, target, {}, [(s, 0)])
  {
  }

  lemma {:induction false} TargetVisit(adj: map<Id, seq<Id>>, maxHops: int, target: Id, visited: set<Id>, queue: seq<(Id, int)>,
                    visited': set<Id>, queue': seq<(Id, int)>)
    requires TargetInv(adj, maxHops, target, visited, queue)
    requires |queue| > 0 && queue[0].0 != target && queue[0].1 <= maxHops
    requires visited' == visited + {queue[0].0}
    requires queue' == queue[1..] + Pushes(Adj(adj, queue[0].0), visited', queue[0].1 + 1)
    ensures TargetInv(adj, maxHops, target, visited', queue')
  {
    var w := queue[0].0;
    var ps := Pushes(Adj(adj, w), visited', queue[0].1 + 1);
    TargetVisitBound(maxHops, target, queue, ps);
    TargetVisitFound(adj, maxHops, target, visited, queue, ps);
  }

  /** After a visit, the target is still queued with at most
      `maxHops + 1` hops. */
  lemma {:induction false} TargetVisitBound(maxHops: int, target: Id, queue: seq<(Id, int)>, ps: seq<(Id, int)>)
    requires |queue| > 0 && queue[0].1 <= maxHops
    requires forall i :: 0 <= i < |queue| && queue[i].0 == target ==> queue[i].1 <= maxHops + 1
    requires forall p :: p in ps ==> p.1 == queue[0].1 + 1
    ensures forall i :: 0 <= i < |queue[1..] + ps| && (queue[1..] + ps)[i].0 == target ==>
      (queue[1..] + ps)[i].1 <= maxHops + 1
  {
    var q' := queue[1..] + ps;
    forall i | 0 <= i < |q'| && q'[i].0 == target
      ensures q'[i].1 <= maxHops + 1
    {
      if i < |queue| - 1 {
        assert q'[i] == queue[i + 1];
      } else {
        assert q'[i] in ps;
      }
    }
  }

  /** After visiting `queue[0].0`, every visited node with an edge to the
      target still has the target queued. */
  lemma {:induction false} TargetVisitFound(adj: map<Id, seq<Id>>, maxHops: int, target: Id, visited: set<Id>,
                                            queue: seq<(Id, int)>, ps: seq<(Id, int)>)
    requires |queue| > 0 && queue[0].0 != target
    requires forall u :: u in visited && target in Adj(adj, u) ==>
      exists i :: 0 <= i < |queue| && queue[i].0 == target
    requires ps == Pushes(Adj(adj, queue[0].0), visited + {queue[0].0}, queue[0].1 + 1)
    requires target !in visited
    ensures forall u :: u in visited + {queue[0].0} && target in Adj(adj, u) ==>
      exists i :: 0 <= i < |queue[1..] + ps| && (queue[1..] + ps)[i].0 == target
  {
    var w := queue[0].0;
    var q' := queue[1..] + ps;
    forall u | u in visited + {w} && target in Adj(adj, u)
      ensures exists i :: 0 <= i < |q'| && q'[i].0 == target
    {
      if u == w {
        assert (target, queue[0].1 + 1) in ps;
        var k :| 0 <= k < |ps| && ps[k] == (target, queue[0].1 + 1);
        assert q'[|queue| - 1 + k] == ps[k];
      } else {
        var i :| 0 <= i < |queue| && queue[i].0 == target;
        assert q'[i - 1] == queue[i];
      }
    }
  }

  /** One skip step of a target search keeps both invariants. */
  lemma {:induction false} TargetSkipStep(adj: map<Id, seq<Id>>, s: Id, maxHops: int, universe: set<Id>, target: Id,
                       visited: set<Id>, hop: map<Id, nat>, queue: seq<(Id, int)>, cur: nat)
    requires Inv(adj, {}, s, maxHops, universe, visited, hop, queue, cur)
    requires TargetInv(adj, maxHops, target, visited, queue)
    requires |queue| > 0 && queue[0].0 != target && (queue[0].0 in visited || queue[0].1 > maxHops)
    ensures queue[0].1 >= 0
    ensures Inv(adj, {}, s, maxHops, universe, visited, hop, queue[1..], queue[0].1)
    ensures TargetInv(adj, maxHops, target, visited, queue[1..])
  {
    SkipStep(adj, {}, s, maxHops, universe, visited, hop, queue, cur);
    TargetSkip(adj, maxHops, target, visited, queue);
  }

  /** One visit step of a target search keeps both invariants. */
  lemma {:induction false} TargetVisitStep(adj: map<Id, seq<Id>>, s: Id, maxHops: int, universe: set<Id>, target: Id,
                        visited: set<Id>, hop: map<Id, nat>, queue: seq<(Id, int)>, cur: nat,
                        visited': set<Id>, hop': map<Id, nat>, queue': seq<(Id, int)>, cur': nat)
    requires Inv(adj, {}, s, maxHops, universe, visited, hop, queue, cur)
    requires TargetInv(adj, maxHops, target, visited, queue)
    requires |queue| > 0 && queue[0].0 != target && queue[0].0 !in visited && queue[0].1 <= maxHops
    requires visited' == visited + {queue[0].0} && cur' == queue[0].1
    requires hop' == hop[queue[0].0 := cur']
    requires queue' == queue[1..] + Pushes(Adj(adj, queue[0].0), visited', cur' + 1)
    ensures Inv(adj, {}, s, maxHops, universe, visited', hop', queue', cur')
    ensures TargetInv(adj, maxHops, target, visited', queue')
    ensures |universe - visited'| < |universe - visited|
  {
    TargetVisit(adj, maxHops, target, visited, queue, visited', queue');
    VisitStep(adj, {}, s, maxHops, universe, visited, hop, queue, cur, visited', hop', queue', cur');
  }

  /** Popping an entry for the target: it lies within `maxHops + 1` steps. */
  lemma {:induction false} TargetFound(adj: map<Id, seq<Id>>, s: Id, maxHops: int, universe: set<Id>, target: Id,
                    visited: set<Id>, hop: map<Id, nat>, queue: seq<(Id, int)>, cur: nat)
    requires Inv(adj, {}, s, maxHops, universe, visited, hop, queue, cur)
    requires TargetInv(adj, maxHops, target, visited, queue)
    requires |queue| > 0 && queue[0].0 == target
    ensures 0 <= queue[0].1 <= maxHops + 1
    ensures target in Reach(adj, {}, s, maxHops + 1)
  {
    ReachMono(adj, {}, s, queue[0].1, maxHops + 1);
  }

  /** When the queue of a target search runs empty, the target is not
      reachable from `s` within `maxHops + 1` steps. */
  lemma {:induction false} TargetUnreached(adj: map<Id, seq<Id>>, s: Id, maxHops: int, universe: set<Id>, target: Id,
                        visited: set<Id>, hop: map<Id, nat>, cur: nat)
    requires Inv(adj, {}, s, maxHops, universe, visited, hop, [], cur)
    requires TargetInv(adj, maxHops, target, visited, [])
    requires target != s && maxHops + 1 >= 0
    ensures target !in Reach(adj, {}, s, maxHops + 1)
  {
    if maxHops >= 0 && target in Reach(adj, {}, s, maxHops + 1) {
      ReachLast(adj, {}, s, maxHops, target);
      CompleteUpTo(adj, {}, s, maxHops, universe, visited, hop, cur, maxHops);
    }
  }

  /** Consecutive nodes of `p` are joined by an edge. */
  predicate IsWalk(adj: map<Id, seq<Id>>, p: seq<Id>)
  {
    forall k :: 0 <= k < |p| - 1 ==> p[k + 1] in Adj(adj, p[k])
  }

  /** A walk from `s` with `k` edges ends at a node reachable in `k` steps. */
  lemma {:induction false} WalkReaches(adj: map<Id, seq<Id>>, s: Id, p: seq<Id>)
    requires |p| > 0 && p[0] == s && IsWalk(adj, p)
    ensures p[|p| - 1] in Reach(adj, {}, s, |p| - 1)
    decreases |p|
  {
    if |p| > 1 {
      var p' := p[..|p| - 1];
      assert IsWalk(adj, p') by {
        forall k | 0 <= k < |p'| - 1
          ensures p'[k + 1] in Adj(adj, p'[k])
        {
          assert p'[k] == p[k] && p'[k + 1] == p[k + 1];
        }
      }
      WalkReaches(adj, s, p');
      ReachStep(adj, {}, s, |p| - 2, p[|p| - 2], p[|p| - 1]);
    }
  }
}
