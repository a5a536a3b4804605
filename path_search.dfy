/**
 * The queue of `get_shortest_path`: each entry carries the path that led to
 * it. Seen without the paths, the queue is the plain `(node, hops)` queue of
 * the other searches, so the invariant of `BfsTheory` applies to it; this
 * module adds what holds of the paths.
 */
module PathSearch {
  import opened PyStd
  import opened TemporalTypes
  import B = BfsTheory

  /** A queue entry `(node, path, hops)`. */
  type Item = (Id, seq<Id>, int)

  /** The queue without its paths. */
  function Proj(q: seq<Item>): (r: seq<(Id, int)>)
    ensures |r| == |q|
    ensures forall i :: 0 <= i < |q| ==> r[i] == (q[i].0, q[i].2)
  {
    seq(|q|, i requires 0 <= i < |q| => (q[i].0, q[i].2))
  }

  lemma {:induction false} ProjPop(q: seq<Item>)
    requires |q| > 0
    ensures Proj(q[1..]) == Proj(q)[1..]
  {
    assert forall i :: 0 <= i < |q| - 1 ==> Proj(q[1..])[i] == Proj(q)[1..][i];
  }

  /** `p` is a walk of `h` edges from `s` to `t` that repeats no node, and
      every node on it before `t` has been visited. */
  ghost predicate PathTo(adj: map<Id, seq<Id>>, s: Id, visited: set<Id>, t: Id, p: seq<Id>, h: int)
  {
    && h >= 0 && |p| == h + 1 && p[0] == s && p[h] == t
    && B.IsWalk(adj, p) && Distinct(p)
    && (forall k :: 0 <= k < h ==> p[k] in visited)
  }

  ghost predicate PathsOk(adj: map<Id, seq<Id>>, s: Id, visited: set<Id>, q: seq<Item>)
  {
    forall i :: 0 <= i < |q| ==> PathTo(adj, s, visited, q[i].0, q[i].1, q[i].2)
  }

  /** The inner loop of a path-search step: for each edge whose target `t`
      is not visited, appends `(t, path + [t], h + 1)`. */
  method PushPaths(es: seq<Edge>, path: seq<Id>, h: int, visited: set<Id>, queue: seq<Item>)
    returns (q: seq<Item>)
    ensures Proj(q) == Proj(queue) + B.Pushes(Targets(es), visited, h + 1)
    ensures |queue| <= |q| && q[..|queue|] == queue
    ensures forall i :: |queue| <= i < |q| ==>
      q[i].1 == path + [q[i].0] && q[i].2 == h + 1 && q[i].0 in Targets(es) && q[i].0 !in visited
  {
    ghost var ts := Targets(es);
    q := queue;
    var j := 0;
    while j < |es|
      invariant 0 <= j <= |es|
      invariant Proj(q) == Proj(queue) + B.Pushes(ts[..j], visited, h + 1)
      invariant |queue| <= |q| && q[..|queue|] == queue
      invariant forall i :: |queue| <= i < |q| ==> Extends(q[i], path, h, ts, visited)
    {
      q := PushPath(es, j, path, h, visited, queue, q);
      j := j + 1;
    }
    assert ts[..|es|] == ts;
  }

  /** One turn of the `PushPaths` loop, over the edge `es[j]`. */
  method PushPath(es: seq<Edge>, j: nat, path: seq<Id>, h: int, visited: set<Id>, queue: seq<Item>, q: seq<Item>)
    returns (q': seq<Item>)
    requires j < |es|
    requires Proj(q) == Proj(queue) + B.Pushes(Targets(es)[..j], visited, h + 1)
    requires |queue| <= |q| && q[..|queue|] == queue
    requires forall i :: |queue| <= i < |q| ==> Extends(q[i], path, h, Targets(es), visited)
    ensures Proj(q') == Proj(queue) + B.Pushes(Targets(es)[..j + 1], visited, h + 1)
    ensures |queue| <= |q'| && q'[..|queue|] == queue
    ensures forall i :: |queue| <= i < |q'| ==> Extends(q'[i], path, h, Targets(es), visited)
  {
    ghost var ts := Targets(es);
    var t := es[j].to;
    assert ts[j] == t;
    B.PushesSnoc(ts, j, visited, h + 1);
    q' := q;
    if t !in visited {
      var x := (t, path + [t], h + 1);
      ProjSnoc(q, x, |queue|);
      AppendOne(Proj(queue), B.Pushes(ts[..j], visited, h + 1), (t, h + 1));
      ExtendsSnoc(q, x, |queue|, path, h, ts, visited);
      q' := q + [x];
    }
  }

  /** `x` extends `path` (of `h` hops) by one unvisited node of `ts`. */
  ghost predicate Extends(x: Item, path: seq<Id>, h: int, ts: seq<Id>, visited: set<Id>)
  {
    x.1 == path + [x.0] && x.2 == h + 1 && x.0 in ts && x.0 !in visited
  }

  lemma {:induction false} ExtendsSnoc(q: seq<Item>, x: Item, n: nat, path: seq<Id>, h: int, ts: seq<Id>, visited: set<Id>)
    requires n <= |q| && forall i :: n <= i < |q| ==> Extends(q[i], path, h, ts, visited)
    requires Extends(x, path, h, ts, visited)
    ensures forall i :: n <= i < |q| + 1 ==> Extends((q + [x])[i], path, h, ts, visited)
  {
    forall i | n <= i < |q| + 1
      ensures Extends((q + [x])[i], path, h, ts, visited)
    {
      if i < |q| { assert (q + [x])[i] == q[i]; }
    }
  }

  lemma {:induction false} ProjSnoc(q: seq<Item>, x: Item, n: nat)
    requires n <= |q|
    ensures Proj(q + [x]) == Proj(q) + [(x.0, x.2)]
    ensures (q + [x])[..n] == q[..n]
  {
    assert forall i :: 0 <= i < |q| + 1 ==> Proj(q + [x])[i] == (Proj(q) + [(x.0, x.2)])[i];
  }

  /** Dropping the head entry keeps the path facts. */
  lemma {:induction false} PathsPop(adj: map<Id, seq<Id>>, s: Id, visited: set<Id>, queue: seq<Item>)
    requires |queue| > 0 && PathsOk(adj, s, visited, queue)
    ensures PathsOk(adj, s, visited, queue[1..])
  {
    forall i | 0 <= i < |queue| - 1
      ensures PathTo(adj, s, visited, queue[1..][i].0, queue[1..][i].1, queue[1..][i].2)
    {
      assert queue[1..][i] == queue[i + 1];
    }
  }

  /** Visiting the head node `c` and appending entries that extend its path
      by one unvisited neighbour keeps the path facts. */
  lemma {:induction false} PathsVisit(adj: map<Id, seq<Id>>, s: Id, visited: set<Id>, queue: seq<Item>, q: seq<Item>)
    requires |queue| > 0 && PathsOk(adj, s, visited, queue) && queue[0].0 !in visited
    requires |queue| - 1 <= |q| && q[..|queue| - 1] == queue[1..]
    requires forall i :: |queue| - 1 <= i < |q| ==>
      q[i].1 == queue[0].1 + [q[i].0] && q[i].2 == queue[0].2 + 1 &&
      q[i].0 in B.Adj(adj, queue[0].0) && q[i].0 !in visited + {queue[0].0}
    ensures PathsOk(adj, s, visited + {queue[0].0}, q)
  {
    var c, path, h := queue[0].0, queue[0].1, queue[0].2;
    var v' := visited + {c};
    assert PathTo(adj, s, visited, c, path, h);
    forall i | 0 <= i < |q|
      ensures PathTo(adj, s, v', q[i].0, q[i].1, q[i].2)
    {
      if i < |queue| - 1 {
        assert q[i] == queue[i + 1];
        assert PathTo(adj, s, visited, queue[i + 1].0, queue[i + 1].1, queue[i + 1].2);
      } else {
        var t := q[i].0;
        var p := path + [t];
        assert q[i].1 == p;
        forall k | 0 <= k < |p| - 1
          ensures p[k + 1] in B.Adj(adj, p[k])
        {
          if k < h {
            assert p[k] == path[k] && p[k + 1] == path[k + 1];
          }
        }
        forall a, b | 0 <= a < b < |p|
          ensures p[a] != p[b]
        {
          if b == h + 1 {
            assert p[a] == path[a];
            if a < h {
              assert path[a] in visited;
            }
          }
        }
      }
    }
  }

  /** The loop invariant of the path search: the plain search invariant and
      the target invariant hold of the queue without its paths, and the
      path facts hold of the paths. */
  ghost predicate SearchInv(adj: map<Id, seq<Id>>, s: Id, maxHops: int, universe: set<Id>, target: Id,
                            visited: set<Id>, hop: map<Id, nat>, queue: seq<Item>, cur: nat)
  {
    && B.Inv(adj, {}, s, maxHops, universe, visited, hop, Proj(queue), cur)
    && B.TargetInv(adj, maxHops, target, visited, Proj(queue))
    && PathsOk(adj, s, visited, queue)
  }

  lemma {:induction false} SearchInit(adj: map<Id, seq<Id>>, s: Id, maxHops: int, universe: set<Id>, target: Id)
    requires B.AdjWithin(adj, universe) && s in universe && s != target
    ensures SearchInv(adj, s, maxHops, universe, target, {}, map[], [(s, [s], 0)], 0)
  {
    B.InvInit(adj, {}, s, maxHops, universe);
    B.TargetInit(adj, maxHops, target, s);
    assert Proj([(s, [s], 0)]) == [(s, 0)];
  }

  lemma {:induction false} SearchFound(adj: map<Id, seq<Id>>, s: Id, maxHops: int, universe: set<Id>, target: Id,
                    visited: set<Id>, hop: map<Id, nat>, queue: seq<Item>, cur: nat)
    requires SearchInv(adj, s, maxHops, universe, target, visited, hop, queue, cur)
    requires |queue| > 0 && queue[0].0 == target
    ensures var p := queue[0].1;
      && |p| > 0 && p[0] == s && p[|p| - 1] == target
      && B.IsWalk(adj, p) && Distinct(p) && |p| <= maxHops + 2
      && maxHops + 1 >= 0 && target in B.Reach(adj, {}, s, maxHops + 1)
  {
    assert Proj(queue)[0] == (queue[0].0, queue[0].2);
    B.TargetFound(adj, s, maxHops, universe, target, visited, hop, Proj(queue), cur);
    assert PathTo(adj, s, visited, queue[0].0, queue[0].1, queue[0].2);
  }

  lemma {:induction false} SearchSkip(adj: map<Id, seq<Id>>, s: Id, maxHops: int, universe: set<Id>, target: Id,
                   visited: set<Id>, hop: map<Id, nat>, queue: seq<Item>, cur: nat)
    requires SearchInv(adj, s, maxHops, universe, target, visited, hop, queue, cur)
    requires |queue| > 0 && queue[0].0 != target && (queue[0].0 in visited || queue[0].2 > maxHops)
    ensures queue[0].2 >= 0
    ensures SearchInv(adj, s, maxHops, universe, target, visited, hop, queue[1..], queue[0].2)
  {
    assert Proj(queue)[0] == (queue[0].0, queue[0].2);
    ProjPop(queue);
    B.TargetSkipStep(adj, s, maxHops, universe, target, visited, hop, Proj(queue), cur);
    PathsPop(adj, s, visited, queue);
  }

  lemma {:induction false} SearchVisit(adj: map<Id, seq<Id>>, s: Id, maxHops: int, universe: set<Id>, target: Id,
                    visited: set<Id>, hop: map<Id, nat>, queue: seq<Item>, cur: nat,
                    es: seq<Edge>, queue': seq<Item>)
    requires SearchInv(adj, s, maxHops, universe, target, visited, hop, queue, cur)
    requires |queue| > 0 && queue[0].0 != target && queue[0].0 !in visited && queue[0].2 <= maxHops
    requires B.Adj(adj, queue[0].0) == Targets(es)
    requires Proj(queue') == Proj(queue[1..]) + B.Pushes(Targets(es), visited + {queue[0].0}, queue[0].2 + 1)
    requires |queue| - 1 <= |queue'| && queue'[..|queue| - 1] == queue[1..]
    requires forall i :: |queue| - 1 <= i < |queue'| ==>
      queue'[i].1 == queue[0].1 + [queue'[i].0] && queue'[i].2 == queue[0].2 + 1 &&
      queue'[i].0 in Targets(es) && queue'[i].0 !in visited + {queue[0].0}
    ensures queue[0].2 >= 0
    ensures SearchInv(adj, s, maxHops, universe, target, visited + {queue[0].0},
                      hop[queue[0].0 := queue[0].2], queue', queue[0].2)
    ensures |universe - (visited + {queue[0].0})| < |universe - visited|
  {
    var c, h := queue[0].0, queue[0].2;
    assert Proj(queue)[0] == (c, h);
    ProjPop(queue);
    B.TargetVisitStep(adj, s, maxHops, universe, target, visited, hop, Proj(queue), cur,
                      visited + {c}, hop[c := h], Proj(queue'), h);
    PathsVisit(adj, s, visited, queue, queue');
  }

  lemma {:induction false} SearchExhausted(adj: map<Id, seq<Id>>, s: Id, maxHops: int, universe: set<Id>, target: Id,
                        visited: set<Id>, hop: map<Id, nat>, cur: nat)
    requires SearchInv(adj, s, maxHops, universe, target, visited, hop, [], cur)
    requires s != target
    ensures !(maxHops + 1 >= 0 && target in B.Reach(adj, {}, s, maxHops + 1))
  {
    assert Proj([]) == [];
    if maxHops + 1 >= 0 {
      B.TargetUnreached(adj, s, maxHops, universe, target, visited, hop, cur);
    }
  }
}
