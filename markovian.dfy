/**
 * `MarkovianTOTG`: analyses a long temporal chain chunk by chunk, carrying
 * a bounded state from one chunk to the next. Each chunk's documents are
 * found by a breadth-first search over the graph's forward and backward
 * neighbours, scored, linked and mined for entities; the carryover is then
 * extracted and passed on.
 */
module Markovian {
  import opened Wrappers
  import opened PyStd
  import opened Assoc
  import opened TemporalTypes
  import opened MarkovState
  import opened Graph
  import B = BfsTheory

  /** Appending to the BFS queue every id of `ns` not yet visited. */
  method Enqueue(queue: seq<Id>, ns: seq<Id>, visited: set<Id>) returns (q: seq<Id>)
    ensures forall v :: v in q <==> v in queue || (v in ns && v !in visited)
    ensures queue <= q && |q| <= |queue| + |ns|
  {
    q := queue;
    for k := 0 to |ns|
      invariant forall v :: v in q <==> v in queue || (v in ns[..k] && v !in visited)
      invariant queue <= q && |q| <= |queue| + k
    {
      if ns[k] !in visited {
        q := q + [ns[k]];
      }
      assert ns[..k + 1] == ns[..k] + [ns[k]];
    }
    assert ns[..|ns|] == ns;
  }

  /** The triples `(src, t, "sequential")` for the targets `t` of `src`
      that are documents of the chunk, in target order. */
  function Links(src: Id, targets: seq<Id>, ids: seq<Id>): seq<Chain>
    decreases |targets|
  {
    if |targets| == 0 then []
    else
      var n := |targets| - 1;
      Links(src, targets[..n], ids) + (if targets[n] in ids then [(src, targets[n], "sequential")] else [])
  }

  lemma {:induction false} LinksFacts(src: Id, targets: seq<Id>, ids: seq<Id>)
    ensures forall c :: c in Links(src, targets, ids) <==>
      c.0 == src && c.1 in targets && c.1 in ids && c.2 == "sequential"
    decreases |targets|
  {
    if |targets| > 0 {
      var n := |targets| - 1;
      LinksFacts(src, targets[..n], ids);
      assert targets == targets[..n] + [targets[n]];
    }
  }

  /** Links to distinct targets in time order are distinct and in time
      order. */
  lemma {:induction false} LinksSorted(src: Id, targets: seq<Id>, ids: seq<Id>, ns: map<Id, Node>)
    requires Distinct(targets) && forall v :: v in targets ==> v in ns
    requires forall i, j :: 0 <= i < j < |targets| ==> ns[targets[i]].timestamp <= ns[targets[j]].timestamp
    ensures Distinct(Links(src, targets, ids))
    ensures forall a, b :: 0 <= a < b < |Links(src, targets, ids)| ==>
      Links(src, targets, ids)[a].1 in ns && Links(src, targets, ids)[b].1 in ns &&
      ns[Links(src, targets, ids)[a].1].timestamp <= ns[Links(src, targets, ids)[b].1].timestamp
    decreases |targets|
  {
    if |targets| > 0 {
      var n := |targets| - 1;
      var t := targets[n];
      var prev := Links(src, targets[..n], ids);
      LinksSorted(src, targets[..n], ids, ns);
      LinksFacts(src, targets[..n], ids);
      forall a | 0 <= a < |prev|
        ensures prev[a].1 != t && ns[prev[a].1].timestamp <= ns[t].timestamp
      {
        assert prev[a] in prev;
        var k :| 0 <= k < n && targets[..n][k] == prev[a].1;
        assert targets[k] == prev[a].1;
      }
    }
  }

  /** The triples come grouped by source document in document order,
      each group's targets in time order, and no triple twice. */
  ghost predicate CausalOrdered(ns: map<Id, Node>, docs: seq<Node>, rels: seq<Chain>)
  {
    && Distinct(rels)
    && (forall a, b, p, q ::
          0 <= a < b < |rels| && 0 <= p < |docs| && 0 <= q < |docs| && rels[a].0 == docs[p].id && rels[b].0 == docs[q].id
          ==> p <= q)
    && (forall a, b :: 0 <= a < b < |rels| && rels[a].0 == rels[b].0 ==>
          rels[a].1 in ns && rels[b].1 in ns && ns[rels[a].1].timestamp <= ns[rels[b].1].timestamp)
  }

  /** Every triple's source is a document before position `i`. */
  ghost predicate SourcesBefore(docs: seq<Node>, rels: seq<Chain>, i: int)
  {
    forall a, p :: 0 <= a < |rels| && 0 <= p < |docs| && rels[a].0 == docs[p].id ==> p < i
  }

  /** Appending the links of document `i`, to distinct targets in time
      order, keeps the triples ordered. */
  lemma {:induction false} LinksOrdered(ns: map<Id, Node>, docs: seq<Node>, i: nat, targets: seq<Id>,
                                        before: seq<Chain>, rels: seq<Chain>)
    requires i < |docs| && Distinct(DocIds(docs))
    requires Distinct(targets) && forall v :: v in targets ==> v in ns
    requires forall i, j :: 0 <= i < j < |targets| ==> ns[targets[i]].timestamp <= ns[targets[j]].timestamp
    requires rels == before + Links(docs[i].id, targets, DocIds(docs))
    requires CausalOrdered(ns, docs, before) && SourcesBefore(docs, before, i)
    ensures CausalOrdered(ns, docs, rels) && SourcesBefore(docs, rels, i + 1)
  {
    var src := docs[i].id;
    var links := Links(src, targets, DocIds(docs));
    var n := |before|;
    LinksSorted(src, targets, DocIds(docs), ns);
    LinksFacts(src, targets, DocIds(docs));
    assert forall q :: 0 <= q < |docs| && docs[q].id == src ==> q == i by {
      forall q | 0 <= q < |docs| && docs[q].id == src
        ensures q == i
      {
        assert DocIds(docs)[q] == DocIds(docs)[i];
      }
    }
    assert forall a :: 0 <= a < n ==> rels[a] == before[a] && before[a].0 != src;
    assert forall b :: n <= b < |rels| ==> rels[b] == links[b - n] && links[b - n] in links;
    forall a, b | 0 <= a < b < |rels|
      ensures rels[a] != rels[b]
      ensures rels[a].0 == rels[b].0 ==>
        rels[a].1 in ns && rels[b].1 in ns && ns[rels[a].1].timestamp <= ns[rels[b].1].timestamp
    {
      if a < n && n <= b {
        assert rels[a].0 != rels[b].0;
      }
    }
    forall a, b, p, q | 0 <= a < b < |rels| && 0 <= p < |docs| && 0 <= q < |docs| &&
                        rels[a].0 == docs[p].id && rels[b].0 == docs[q].id
      ensures p <= q
    {
      if n <= a {
        assert p == i && q == i;
      } else if n <= b {
        assert q == i;
      }
    }
  }

  /** Documents of a window whose ids begin with the window ids of `[s]`,
      for a stored `s` inside the window, begin with `s`'s node. */
  lemma {:induction false} WindowFirst(ns: map<Id, Node>, lo: int, hi: int, docs: seq<Node>, s: Id)
    requires InWindow(ns, lo, hi, docs) && s in ns && lo <= ns[s].timestamp <= hi
    requires WindowIds(ns, lo, hi, [s]) <= DocIds(docs)
    ensures |docs| > 0 && docs[0] == ns[s]
  {
    assert WindowIds(ns, lo, hi, [s]) == [s] by {
      assert [s][..0] == [];
    }
    assert DocIds(docs)[0] == s;
  }

  /** `_extract_key_entities`: a tally over the words longer than four
      characters, then the records with two or more mentions. */
  method ExtractKeyEntities(docs: seq<Node>) returns (entities: seq<(string, Entity)>)
    ensures entities == KeyEntities(docs)
  {
    var tally: seq<(string, Entity)> := [];
    for i := 0 to |docs|
      invariant tally == TallyDocs(docs[..i])
    {
      var words := Words(docs[i]);
      var ts := docs[i].timestamp;
      ghost var start := tally;
      for k := 0 to |words|
        invariant tally == TallyWords(start, words[..k], ts)
      {
        if |words[k]| > 4 {
          tally := Note(tally, words[k], ts);
        }
        TallyWordsStep(start, words, k, ts);
      }
      TallyDocsStep(docs, i);
    }
    assert docs[..|docs|] == docs;
    entities := Repeated(tally);
  }

  lemma {:induction false} TallyWordsStep(start: seq<(string, Entity)>, words: seq<string>, k: nat, ts: int)
    requires k < |words|
    ensures var prev := TallyWords(start, words[..k], ts);
      TallyWords(start, words[..k + 1], ts) == if IsLong(words[k]) then Note(prev, words[k], ts) else prev
  {
    assert words[..k + 1][..k] == words[..k];
  }

  lemma {:induction false} TallyDocsStep(docs: seq<Node>, i: nat)
    requires i < |docs|
    ensures TallyDocs(docs[..i + 1]) ==
      TallyWords(TallyDocs(docs[..i]), Words(docs[i])[..|Words(docs[i])|], docs[i].timestamp)
  {
    assert docs[..i + 1][..i] == docs[..i];
    assert Words(docs[i])[..|Words(docs[i])|] == Words(docs[i]);
  }

  /** The importance of one document, accumulated as the source does. */
  method ScoreDoc(docs: seq<Node>, i: nat, attention: seq<(Id, real)>, degree: int) returns (importance: real)
    requires i < |docs|
    ensures importance == ImportanceAt(docs, i, attention, degree)
  {
    importance := 0.5;
    if docs[i] == docs[0] {
      importance := importance + 0.2;
    }
    var a := Get(attention, docs[i].id);
    if a.Some? {
      importance := importance + a.value * 0.3;
    }
    if degree > 2 {
      importance := importance + 0.2;
    }
  }

  /** The inner loop of `_identify_causal_relationships` over the forward
      neighbours of one document. */
  method LinkTargets(src: Id, targets: seq<Id>, ids: seq<Id>) returns (links: seq<Chain>)
    ensures links == Links(src, targets, ids)
  {
    links := [];
    for k := 0 to |targets|
      invariant links == Links(src, targets[..k], ids)
    {
      if targets[k] in ids {
        links := links + [(src, targets[k], "sequential")];
      }
      assert targets[..k + 1][..k] == targets[..k];
    }
    assert targets[..|targets|] == targets;
  }

  /** The union of the neighbour sets of the stored ids of `order`. */
  ghost function ReachedBy(nb: map<Id, set<Id>>, order: seq<Id>): set<Id>
    decreases |order|
  {
    if |order| == 0 then {}
    else
      var u := order[|order| - 1];
      ReachedBy(nb, order[..|order| - 1]) + (if u in nb then nb[u] else {})
  }

  /** `v` is reached by `order` exactly when it is a neighbour of one of
      its stored ids. */
  lemma {:induction false} ReachedByIff(nb: map<Id, set<Id>>, order: seq<Id>, v: Id)
    ensures v in ReachedBy(nb, order) <==> exists p :: 0 <= p < |order| && order[p] in nb && v in nb[order[p]]
    decreases |order|
  {
    if |order| > 0 {
      var n := |order| - 1;
      ReachedByIff(nb, order[..n], v);
      if exists p :: 0 <= p < |order| && order[p] in nb && v in nb[order[p]] {
        var p :| 0 <= p < |order| && order[p] in nb && v in nb[order[p]];
        if p < n {
          assert order[..n][p] == order[p];
        }
      }
      if exists p :: 0 <= p < n && order[..n][p] in nb && v in nb[order[..n][p]] {
        var p :| 0 <= p < n && order[..n][p] in nb && v in nb[order[..n][p]];
        assert order[p] == order[..n][p];
      }
    }
  }

  /** The state of the BFS of `_get_docs_in_window`, over the stored nodes
      `ns`, the neighbour sets `nb` and the sure neighbour sets `sure`:
      `order` lists the visited ids, each a start point or reached by the
      ids before it; every queued id is a start point or reached by the
      visited ones; the sure neighbours of every visited stored id are
      visited or queued; `docs` are the visited stored nodes in the
      window. */
  ghost predicate BfsInv(ns: map<Id, Node>, nb: map<Id, set<Id>>, sure: map<Id, set<Id>>,
                         starts: seq<Id>, lo: int, hi: int, queue: seq<Id>, visited: set<Id>,
                         order: seq<Id>, docs: seq<Node>)
  {
    && Distinct(order)
    && (forall v :: v in visited <==> v in order)
    && (forall s :: s in starts ==> s in visited || s in queue)
    && (forall k :: 0 <= k < |order| ==> order[k] in starts || order[k] in ReachedBy(nb, order[..k]))
    && (forall v :: v in queue ==> v in starts || v in ReachedBy(nb, order))
    && (forall u, v :: u in visited && u in sure && v in sure[u] ==> v in visited || v in queue)
    && InWindow(ns, lo, hi, docs)
    && (forall i :: 0 <= i < |docs| ==> docs[i].id in visited)
    && (forall v :: v in visited && v in ns && lo <= ns[v].timestamp <= hi ==> ns[v] in docs)
    && StartsFirst(starts, order, queue)
    && DocIds(docs) == WindowIds(ns, lo, hi, order)
  }

  /** The FIFO queue pops the start points first: until all are visited,
      the visit order is a prefix of them and the queue begins with the
      rest; afterwards the order begins with all of them. (Duplicated
      start points are not given this order.) */
  ghost predicate StartsFirst(starts: seq<Id>, order: seq<Id>, queue: seq<Id>)
  {
    Distinct(starts) ==>
      if |order| < |starts| then order == starts[..|order|] && starts[|order|..] <= queue
      else starts <= order
  }

  /** The stored ids of `order` whose timestamp lies in `[lo, hi]`, in
      order. */
  function WindowIds(ns: map<Id, Node>, lo: int, hi: int, order: seq<Id>): seq<Id>
    decreases |order|
  {
    if |order| == 0 then []
    else
      var v := order[|order| - 1];
      WindowIds(ns, lo, hi, order[..|order| - 1]) + (if v in ns && lo <= ns[v].timestamp <= hi then [v] else [])
  }

  lemma {:induction false} WindowIdsSnoc(ns: map<Id, Node>, lo: int, hi: int, order: seq<Id>, v: Id)
    ensures WindowIds(ns, lo, hi, order + [v]) ==
      WindowIds(ns, lo, hi, order) + (if v in ns && lo <= ns[v].timestamp <= hi then [v] else [])
  {
    assert (order + [v])[..|order|] == order;
  }

  /** A prefix of the visit order keeps a prefix of its window ids. */
  lemma {:induction false} WindowIdsPrefix(ns: map<Id, Node>, lo: int, hi: int, a: seq<Id>, b: seq<Id>)
    requires a <= b
    ensures WindowIds(ns, lo, hi, a) <= WindowIds(ns, lo, hi, b)
    decreases |b|
  {
    if |a| < |b| {
      var n := |b| - 1;
      assert a <= b[..n];
      WindowIdsPrefix(ns, lo, hi, a, b[..n]);
    } else {
      assert a == b;
    }
  }

  /** Popping an already visited id: with distinct start points, none is
      still pending. */
  lemma {:induction false} StartsSkip(starts: seq<Id>, order: seq<Id>, queue: seq<Id>)
    requires |queue| > 0 && queue[0] in order
    requires StartsFirst(starts, order, queue)
    ensures StartsFirst(starts, order, queue[1..])
  {
    if Distinct(starts) && |order| < |starts| {
      assert false;
    }
  }

  /** Visiting a new id: while start points are pending it is the next
      one of them. */
  lemma {:induction false} StartsVisit(starts: seq<Id>, order: seq<Id>, queue: seq<Id>, queue': seq<Id>)
    requires |queue| > 0 && queue[1..] <= queue'
    requires StartsFirst(starts, order, queue)
    ensures StartsFirst(starts, order + [queue[0]], queue')
  {
    var o := order + [queue[0]];
    if Distinct(starts) {
      var m := |order|;
      if m < |starts| {
        assert queue[0] == starts[m];
        assert o == starts[..m + 1];
        if m + 1 < |starts| {
          assert starts[m + 1..] == starts[m..][1..];
          assert starts[m..][1..] <= queue[1..];
        }
      } else {
        assert o[..|starts|] == order[..|starts|];
      }
    }
  }

  /** Popping an id already visited. */
  lemma {:induction false} SkipVisited(ns: map<Id, Node>, nb: map<Id, set<Id>>, sure: map<Id, set<Id>>,
                                       starts: seq<Id>, lo: int, hi: int, queue: seq<Id>, visited: set<Id>,
                                       order: seq<Id>, docs: seq<Node>)
    requires |queue| > 0 && queue[0] in visited
    requires BfsInv(ns, nb, sure, starts, lo, hi, queue, visited, order, docs)
    ensures BfsInv(ns, nb, sure, starts, lo, hi, queue[1..], visited, order, docs)
  {
    assert forall v :: v in queue ==> v == queue[0] || v in queue[1..];
    StartsSkip(starts, order, queue);
  }

  /** Visiting a new id records it in the order; it was a start point or
      reached, so the order stays justified. */
  lemma {:induction false} RecordVisit(nb: map<Id, set<Id>>, starts: seq<Id>, order: seq<Id>, cur: Id)
    requires cur !in order && (cur in starts || cur in ReachedBy(nb, order))
    requires Distinct(order)
    requires forall k :: 0 <= k < |order| ==> order[k] in starts || order[k] in ReachedBy(nb, order[..k])
    ensures Distinct(order + [cur])
    ensures forall k :: 0 <= k < |order| + 1 ==>
      (order + [cur])[k] in starts || (order + [cur])[k] in ReachedBy(nb, (order + [cur])[..k])
    ensures ReachedBy(nb, order) <= ReachedBy(nb, order + [cur])
  {
    var o := order + [cur];
    assert o[..|order|] == order;
    forall k | 0 <= k < |o|
      ensures o[k] in starts || o[k] in ReachedBy(nb, o[..k])
    {
      if k < |order| {
        assert o[..k] == order[..k];
      }
    }
  }

  /** Popping a new id that is not stored. */
  lemma {:induction false} VisitMissing(ns: map<Id, Node>, nb: map<Id, set<Id>>, sure: map<Id, set<Id>>,
                                        starts: seq<Id>, lo: int, hi: int, queue: seq<Id>, visited: set<Id>,
                                        order: seq<Id>, docs: seq<Node>)
    requires |queue| > 0 && queue[0] !in visited && queue[0] !in ns && queue[0] !in sure
    requires BfsInv(ns, nb, sure, starts, lo, hi, queue, visited, order, docs)
    ensures BfsInv(ns, nb, sure, starts, lo, hi, queue[1..], visited + {queue[0]}, order + [queue[0]], docs)
  {
    var cur := queue[0];
    RecordVisit(nb, starts, order, cur);
    assert forall v :: v in queue ==> v == cur || v in queue[1..];
    StartsVisit(starts, order, queue, queue[1..]);
    WindowIdsSnoc(ns, lo, hi, order, cur);
  }

  /** Popping a new stored id, whose neighbours `found` (as returned by
      the queries) are queued unless visited. */
  lemma {:induction false} VisitStored(ns: map<Id, Node>, nb: map<Id, set<Id>>, sure: map<Id, set<Id>>,
                                       starts: seq<Id>, lo: int, hi: int, queue: seq<Id>, visited: set<Id>,
                                       order: seq<Id>, docs: seq<Node>,
                                       found: seq<Id>, queue': seq<Id>, docs': seq<Node>)
    requires |queue| > 0 && queue[0] !in visited && queue[0] in ns && queue[0] in nb && queue[0] in sure
    requires ns[queue[0]].id == queue[0]
    requires forall v :: v in found ==> v in nb[queue[0]]
    requires forall v :: v in sure[queue[0]] ==> v in found
    requires forall v :: v in queue' <==> v in queue[1..] || (v in found && v !in visited + {queue[0]})
    requires queue[1..] <= queue'
    requires docs' == if lo <= ns[queue[0]].timestamp <= hi then docs + [ns[queue[0]]] else docs
    requires BfsInv(ns, nb, sure, starts, lo, hi, queue, visited, order, docs)
    ensures BfsInv(ns, nb, sure, starts, lo, hi, queue', visited + {queue[0]}, order + [queue[0]], docs')
  {
    var cur := queue[0];
    var order' := order + [cur];
    RecordVisit(nb, starts, order, cur);
    assert order'[..|order|] == order;
    assert ReachedBy(nb, order') == ReachedBy(nb, order) + nb[cur];
    VisitQueue(nb, sure, starts, queue, visited, order, found, queue');
    VisitDocs(ns, lo, hi, visited, order, docs, cur, docs');
    StartsVisit(starts, order, queue, queue');
  }

  /** Popping a new id keeps every start point and every sure neighbour of
      a visited id in reach, and every queued id reached. */
  lemma {:induction false} VisitQueue(nb: map<Id, set<Id>>, sure: map<Id, set<Id>>, starts: seq<Id>,
                                      queue: seq<Id>, visited: set<Id>, order: seq<Id>,
                                      found: seq<Id>, queue': seq<Id>)
    requires |queue| > 0 && queue[0] !in visited && queue[0] in nb && queue[0] in sure
    requires forall v :: v in found ==> v in nb[queue[0]]
    requires forall v :: v in sure[queue[0]] ==> v in found
    requires forall v :: v in queue' <==> v in queue[1..] || (v in found && v !in visited + {queue[0]})
    requires ReachedBy(nb, order + [queue[0]]) == ReachedBy(nb, order) + nb[queue[0]]
    requires forall s :: s in starts ==> s in visited || s in queue
    requires forall v :: v in queue ==> v in starts || v in ReachedBy(nb, order)
    requires forall u, v :: u in visited && u in sure && v in sure[u] ==> v in visited || v in queue
    ensures forall s :: s in starts ==> s in visited + {queue[0]} || s in queue'
    ensures forall v :: v in queue' ==> v in starts || v in ReachedBy(nb, order + [queue[0]])
    ensures forall u, v :: u in visited + {queue[0]} && u in sure && v in sure[u] ==>
      v in visited + {queue[0]} || v in queue'
  {
    assert forall v :: v in queue ==> v == queue[0] || v in queue[1..];
  }

  /** Recording a new stored id keeps the window documents exact. */
  lemma {:induction false} VisitDocs(ns: map<Id, Node>, lo: int, hi: int, visited: set<Id>, order: seq<Id>,
                                     docs: seq<Node>, cur: Id, docs': seq<Node>)
    requires cur !in visited && cur in ns && ns[cur].id == cur
    requires docs' == if lo <= ns[cur].timestamp <= hi then docs + [ns[cur]] else docs
    requires InWindow(ns, lo, hi, docs)
    requires forall i :: 0 <= i < |docs| ==> docs[i].id in visited
    requires forall v :: v in visited && v in ns && lo <= ns[v].timestamp <= hi ==> ns[v] in docs
    requires DocIds(docs) == WindowIds(ns, lo, hi, order)
    ensures InWindow(ns, lo, hi, docs')
    ensures DocIds(docs') == WindowIds(ns, lo, hi, order + [cur])
    ensures forall i :: 0 <= i < |docs'| ==> docs'[i].id in visited + {cur}
    ensures forall v :: v in visited + {cur} && v in ns && lo <= ns[v].timestamp <= hi ==> ns[v] in docs'
  {
    WindowIdsSnoc(ns, lo, hi, order, cur);
    if lo <= ns[cur].timestamp <= hi {
      assert DocIds(docs') == DocIds(docs) + [cur];
      assert cur !in DocIds(docs);
    } else {
      assert DocIds(docs') == DocIds(docs);
    }
  }

  /** What a finished search from `starts` establishes: the documents are
      the visited stored ids in the window; the visit order holds every
      start point, and each other id in it is a neighbour of an earlier
      one; the visited ids are closed under sure neighbours. */
  ghost predicate Searched(ns: map<Id, Node>, nb: map<Id, set<Id>>, sure: map<Id, set<Id>>,
                           starts: seq<Id>, lo: int, hi: int, order: seq<Id>, docs: seq<Node>)
  {
    && InWindow(ns, lo, hi, docs)
    && Distinct(order)
    && (forall s :: s in starts ==> s in order)
    && (forall k :: 0 <= k < |order| ==> order[k] in starts || order[k] in ReachedBy(nb, order[..k]))
    && (forall u, v :: u in order && u in sure && v in sure[u] ==> v in order)
    && (forall v :: v in order && v in ns && lo <= ns[v].timestamp <= hi <==> v in DocIds(docs))
    && (Distinct(starts) ==> starts <= order)
    && DocIds(docs) == WindowIds(ns, lo, hi, order)
  }

  /** A finished search holds every start point stored in the window,
      and, when the start points are distinct, their in-window ids come
      first among the documents. */
  lemma {:induction false} SearchedStarts(ns: map<Id, Node>, nb: map<Id, set<Id>>, sure: map<Id, set<Id>>,
                                          starts: seq<Id>, lo: int, hi: int, order: seq<Id>, docs: seq<Node>)
    requires Searched(ns, nb, sure, starts, lo, hi, order, docs)
    ensures forall s :: s in starts && s in ns && lo <= ns[s].timestamp <= hi ==> ns[s] in docs
    ensures Distinct(starts) ==> WindowIds(ns, lo, hi, starts) <= DocIds(docs)
  {
    forall s | s in starts && s in ns && lo <= ns[s].timestamp <= hi
      ensures ns[s] in docs
    {
      var i :| 0 <= i < |docs| && DocIds(docs)[i] == s;
    }
    if Distinct(starts) {
      WindowIdsPrefix(ns, lo, hi, starts, order);
    }
  }

  /** The first id a search visits is a start point. */
  lemma {:induction false} FirstIsStart(ns: map<Id, Node>, nb: map<Id, set<Id>>, sure: map<Id, set<Id>>,
                                        starts: seq<Id>, lo: int, hi: int, order: seq<Id>, docs: seq<Node>)
    requires Searched(ns, nb, sure, starts, lo, hi, order, docs)
    ensures |order| > 0 ==> order[0] in starts
  {
    if |order| > 0 {
      assert order[..0] == [];
    }
  }

  /** A search from no start points visits nothing and finds no
      documents. */
  lemma {:induction false} NoStartsNoDocs(ns: map<Id, Node>, nb: map<Id, set<Id>>, sure: map<Id, set<Id>>,
                                          lo: int, hi: int, order: seq<Id>, docs: seq<Node>)
    requires Searched(ns, nb, sure, [], lo, hi, order, docs)
    ensures order == [] && docs == []
  {
    FirstIsStart(ns, nb, sure, [], lo, hi, order, docs);
    assert |DocIds(docs)| == |WindowIds(ns, lo, hi, [])|;
  }

  /** With the queue empty, the visited ids are closed under sure
      neighbours and hold every start point. */
  lemma {:induction false} BfsDone(ns: map<Id, Node>, nb: map<Id, set<Id>>, sure: map<Id, set<Id>>,
                                   starts: seq<Id>, lo: int, hi: int, visited: set<Id>,
                                   order: seq<Id>, docs: seq<Node>)
    requires BfsInv(ns, nb, sure, starts, lo, hi, [], visited, order, docs)
    requires forall v :: v in ns ==> ns[v].id == v
    ensures Searched(ns, nb, sure, starts, lo, hi, order, docs)
  {
    forall v | v in order && v in ns && lo <= ns[v].timestamp <= hi
      ensures v in DocIds(docs)
    {
      var i :| 0 <= i < |docs| && docs[i] == ns[v];
      assert DocIds(docs)[i] == v;
    }
    forall v | v in DocIds(docs)
      ensures v in order && v in ns && lo <= ns[v].timestamp <= hi
    {
      var i :| 0 <= i < |docs| && DocIds(docs)[i] == v;
      assert docs[i].id in visited;
    }
  }

  /** Visiting an id that is not stored leaves the unvisited stored ids
      as they were. */
  lemma {:induction false} Unstored(ks: set<Id>, visited: set<Id>, cur: Id)
    requires cur !in ks
    ensures ks - (visited + {cur}) == ks - visited
  {
  }

  /** The start points of `_get_docs_in_window`, built as the source
      builds them. */
  method ComputeStartPoints(startingDoc: Option<Id>, prev: Carryover) returns (starts: seq<Id>)
    ensures starts == StartPoints(startingDoc, prev)
  {
    if Given(startingDoc) {
      return [startingDoc.value];
    }
    starts := Prefix(Keys(prev.attentionScores), 10);
    var evs := Prefix(prev.criticalEvents, 5);
    for i := 0 to |evs|
      invariant starts == AddMissing(Prefix(Keys(prev.attentionScores), 10), EventIds(evs[..i]))
    {
      if evs[i].docId !in starts {
        starts := starts + [evs[i].docId];
      }
      assert EventIds(evs[..i + 1]) == EventIds(evs[..i]) + [evs[i].docId];
    }
    assert evs[..|evs|] == evs;
  }

  /** A merge loop over a chunk's entity records, in order: each record is
      put back combined, by `f`, with the running dict's record of the
      same key. */
  method MergeInto(d: seq<(string, Entity)>, items: seq<(string, Entity)>,
                   f: (Option<Entity>, Entity) -> Entity)
    returns (r: seq<(string, Entity)>)
    ensures r == MergeEntities(d, items, f)
  {
    r := d;
    for i := 0 to |items|
      invariant r == MergeEntities(d, items[..i], f)
    {
      assert items[..i + 1][..i] == items[..i];
      r := Put(r, items[i].0, f(Get(r, items[i].0), items[i].1));
    }
    assert items[..|items|] == items;
  }

  /** `d[k] = v` for each `k` of `ks`, in order. */
  method PutEach(d: seq<(Id, real)>, ks: seq<Id>, v: real) returns (r: seq<(Id, real)>)
    ensures r == PutAll(d, ks, v)
  {
    r := d;
    for i := 0 to |ks|
      invariant r == PutAll(d, ks[..i], v)
    {
      assert ks[..i + 1][..i] == ks[..i];
      r := Put(r, ks[i], v);
    }
    assert ks[..|ks|] == ks;
  }

  /** The aggregation loop of `analyze_long_chain`: the events and the
      chains of all chunks, in order, and the entities merged chunk by
      chunk adding up mentions. */
  method Aggregate(chunks: seq<ChunkResult>)
    returns (events: seq<Event>, chains: seq<Chain>, entities: seq<(string, Entity)>)
    ensures events == AllEvents(chunks) && chains == AllChains(chunks)
    ensures entities == AggregateEntities(chunks)
  {
    events, chains, entities := [], [], [];
    for i := 0 to |chunks|
      invariant events == AllEvents(chunks[..i]) && chains == AllChains(chunks[..i])
      invariant entities == AggregateEntities(chunks[..i])
    {
      assert chunks[..i + 1][..i] == chunks[..i];
      events := events + chunks[i].criticalEvents;
      chains := chains + chunks[i].causalRelationships;
      entities := MergeInto(entities, chunks[i].keyEntities, AddMentions);
    }
    assert chunks[..|chunks|] == chunks;
  }

  /** `MarkovianAnalysisResult`, without the timing fields. */
  datatype Analysis = Analysis(
    startDocId: Id,
    endDocId: Option<Id>,
    totalTimeSpan: int,
    chunks: seq<ChunkResult>,
    numChunks: int,
    allCriticalEvents: seq<Event>,
    allCausalChains: seq<Chain>,
    allKeyEntities: seq<(string, Entity)>,
    finalCarryover: Carryover,
    totalDocuments: int,
    avgChunkSize: real)

  /** The parts of an analysis from `start` to `end` in steps of `step`
      seconds that do not depend on the graph: the chunks tile the span,
      `priors[k]` is the carryover chunk `k` was processed from, and the
      totals and aggregates are taken over all chunks. */
  ghost predicate Analysed(lim: Limits, a: Analysis, priors: seq<Carryover>, start: int, end: int, step: int)
    requires step > 0 || start >= end
  {
    && a.totalTimeSpan == end - start
    && Tiled(a.chunks, start, end, step)
    && |a.chunks| == ChunkCount(start, end, step)
    && a.numChunks == |a.chunks|
    && Carried(lim, start, a.chunks, priors, a.finalCarryover)
    && a.allCriticalEvents == AllEvents(a.chunks)
    && a.allCausalChains == AllChains(a.chunks)
    && a.allKeyEntities == AggregateEntities(a.chunks)
    && a.totalDocuments == TotalDocs(a.chunks)
    && a.avgChunkSize == if |a.chunks| == 0 then 0.0 else a.totalDocuments as real / |a.chunks| as real
  }

  /** The synthesis after the chunk loop of `analyze_long_chain`. */
  method Synthesize(ghost lim: Limits, startId: Id, endId: Option<Id>, start: int, end: int, ghost step: int,
                    current: int, chunks: seq<ChunkResult>, ghost priors: seq<Carryover>, state: Carryover, total: int)
    returns (a: Analysis)
    requires (step > 0 || start >= end) && current >= end
    requires Cut(start, end, step, current, chunks)
    requires Carried(lim, start, chunks, priors, state) && total == TotalDocs(chunks)
    ensures Analysed(lim, a, priors, start, end, step)
    ensures a.startDocId == startId && a.endDocId == endId && a.chunks == chunks
  {
    var events, chains, entities := Aggregate(chunks);
    var avg := if |chunks| == 0 then 0.0 else total as real / |chunks| as real;
    a := Analysis(startId, endId, end - start, chunks, |chunks|, events, chains, entities, state, total, avg);
  }

  /** The formatting loop of `get_temporal_summary`: one summary per
      chunk, in order. */
  method Summarise(chunks: seq<ChunkResult>) returns (summaries: seq<ChunkSummary>)
    ensures |summaries| == |chunks|
    ensures forall k :: 0 <= k < |chunks| ==> summaries[k] == SummaryOf(chunks[k])
  {
    summaries := [];
    for i := 0 to |chunks|
      invariant |summaries| == i
      invariant forall k :: 0 <= k < i ==> summaries[k] == SummaryOf(chunks[k])
    {
      summaries := summaries + [SummaryOf(chunks[i])];
    }
  }

  class MarkovianAnalyzer {
    const graph: TemporalGraph
    var chunkSizeDays: int
    const limits: Limits

    ghost predicate Valid()
      reads graph
    {
      graph.Valid()
    }

    /** `MarkovianTOTG(api, chunk_size_days, ...)`; the source's defaults
        are 90 days and `DefaultLimits`. */
    constructor (graph: TemporalGraph, chunkSizeDays: int, limits: Limits)
      ensures this.graph == graph && this.chunkSizeDays == chunkSizeDays && this.limits == limits
    {
      this.graph := graph;
      this.chunkSizeDays := chunkSizeDays;
      this.limits := limits;
    }

    // -------------------------------------------------------------------
    // Reach of a document (`get_forward_nodes` / `get_backward_nodes`
    // with their defaults: 30 days, 5 hops, 50 results)
    // -------------------------------------------------------------------

    /** Number of ids the two default neighbour queries return. */
    ghost function Degree(id: Id): int
      reads graph
    {
      if id in graph.nodes then
        PrefixLen(|graph.ForwardCandidates(id, 30, 5)|, 50) + PrefixLen(|graph.BackwardCandidates(id, 30, 5)|, 50)
      else 0
    }

    ghost function Degrees(docs: seq<Node>): (r: seq<int>)
      reads graph
      ensures |r| == |docs|
      decreases |docs|
    {
      if |docs| == 0 then [] else Degrees(docs[..|docs| - 1]) + [Degree(docs[|docs| - 1].id)]
    }

    /** All ids the two default queries may return for a stored `u`,
        under some order of ties: the candidates of each direction with
        fewer than 50 others strictly nearer in time. */
    ghost function Neighbours(u: Id): set<Id>
      reads graph
      requires u in graph.nodes
    {
      var f := graph.ForwardCandidates(u, 30, 5);
      var b := graph.BackwardCandidates(u, 30, 5);
      Possible(graph.nodes, f, true, 50) + Possible(graph.nodes, b, false, 50)
    }

    /** The ids the two default queries are sure to return for a stored
        `u`, whatever the order of ties: the candidates of each direction
        with fewer than 50 others as near in time. */
    ghost function SureNeighbours(u: Id): set<Id>
      reads graph
      requires u in graph.nodes
    {
      var f := graph.ForwardCandidates(u, 30, 5);
      var b := graph.BackwardCandidates(u, 30, 5);
      Sure(graph.nodes, f, true, 50) + Sure(graph.nodes, b, false, 50)
    }

    method ReachDegree(id: Id) returns (n: int)
      requires Valid()
      ensures n == Degree(id)
    {
      var f := graph.GetForwardNodes(id, 30, 5, 50);
      var b := graph.GetBackwardNodes(id, 30, 5, 50);
      n := |f| + |b|;
    }

    // -------------------------------------------------------------------
    // _get_docs_in_window
    // -------------------------------------------------------------------

    /** Every stored id with the ids the default queries may return for
        it. */
    ghost function NeighbourMap(): map<Id, set<Id>>
      reads graph
    {
      map u | u in graph.nodes :: Neighbours(u)
    }

    /** Every stored id with the ids the default queries are sure to
        return for it. */
    ghost function SureMap(): map<Id, set<Id>>
      reads graph
    {
      map u | u in graph.nodes :: SureNeighbours(u)
    }

    /** One round of the BFS loop: pop the head and, if it is new and
        stored, record it and queue its unvisited neighbours. */
    method BfsStep(ghost ns: map<Id, Node>, ghost nb: map<Id, set<Id>>, ghost sure: map<Id, set<Id>>,
                   ghost starts: seq<Id>, lo: int, hi: int, queue: seq<Id>, visited: set<Id>,
                   ghost order: seq<Id>, docs: seq<Node>)
      returns (queue': seq<Id>, visited': set<Id>, ghost order': seq<Id>, docs': seq<Node>)
      requires Valid() && |queue| > 0
      requires ns == graph.nodes && nb == NeighbourMap() && sure == SureMap()
      requires BfsInv(ns, nb, sure, starts, lo, hi, queue, visited, order, docs)
      ensures BfsInv(ns, nb, sure, starts, lo, hi, queue', visited', order', docs')
      ensures |ns.Keys - visited'| < |ns.Keys - visited| ||
        (ns.Keys - visited' == ns.Keys - visited && |queue'| < |queue|)
    {
      var cur := queue[0];
      if cur in visited {
        queue', visited', order', docs' := queue[1..], visited, order, docs;
        SkipVisited(graph.nodes, nb, sure, starts, lo, hi, queue, visited, order, docs);
        return;
      }
      visited', order' := visited + {cur}, order + [cur];
      if cur !in graph.nodes {
        queue', docs' := queue[1..], docs;
        VisitMissing(graph.nodes, nb, sure, starts, lo, hi, queue, visited, order, docs);
        Unstored(graph.nodes.Keys, visited, cur);
        return;
      }
      var doc := graph.nodes[cur];
      docs' := docs;
      if lo <= doc.timestamp <= hi {
        docs' := docs + [doc];
      }
      var fwd := graph.GetForwardNodes(cur, 30, 5, 50);
      var bwd := graph.GetBackwardNodes(cur, 30, 5, 50);
      var q1 := Enqueue(queue[1..], fwd, visited');
      queue' := Enqueue(q1, bwd, visited');
      NeighboursQueued(cur, fwd, bwd);
      VisitStored(graph.nodes, nb, sure, starts, lo, hi, queue, visited, order, docs, fwd + bwd, queue', docs');
      B.Shrinks(graph.nodes.Keys, visited, cur);
    }

    /** The default neighbour queries of a stored id return only its
        neighbours, and all its sure neighbours. */
    lemma {:induction false} NeighboursQueued(u: Id, fwd: seq<Id>, bwd: seq<Id>)
      requires Valid() && u in graph.nodes
      requires TimeRanked(graph.nodes, graph.ForwardCandidates(u, 30, 5), true, 50, fwd)
      requires TimeRanked(graph.nodes, graph.BackwardCandidates(u, 30, 5), false, 50, bwd)
      ensures forall v :: v in fwd + bwd ==> v in NeighbourMap()[u]
      ensures forall v :: v in SureMap()[u] ==> v in fwd + bwd
    {
      SureKept(graph.nodes, graph.ForwardCandidates(u, 30, 5), true, 50, fwd);
      SureKept(graph.nodes, graph.BackwardCandidates(u, 30, 5), false, 50, bwd);
      PossibleOnly(graph.nodes, graph.ForwardCandidates(u, 30, 5), true, 50, fwd);
      PossibleOnly(graph.nodes, graph.BackwardCandidates(u, 30, 5), false, 50, bwd);
    }

    /** `_get_docs_in_window`. The search visits ids in the order `seen`:
        the start points first (when distinct), each other id a neighbour
        of an earlier stored one, and the sure neighbours of every stored
        id visited. The result is exactly the visited stored nodes in
        `[lo, hi]`, in visit order. */
    method DocsInWindow(lo: int, hi: int, startingDoc: Option<Id>, prev: Carryover)
      returns (docs: seq<Node>, ghost seen: seq<Id>)
      requires Valid()
      ensures Searched(graph.nodes, NeighbourMap(), SureMap(), StartPoints(startingDoc, prev), lo, hi, seen, docs)
    {
      var starts := ComputeStartPoints(startingDoc, prev);
      docs, seen := [], [];
      if starts == [] {
        return;
      }
      docs, seen := Search(starts, lo, hi);
    }

    /** The BFS loop of `_get_docs_in_window` from `starts`. */
    method Search(starts: seq<Id>, lo: int, hi: int) returns (docs: seq<Node>, ghost seen: seq<Id>)
      requires Valid()
      ensures Searched(graph.nodes, NeighbourMap(), SureMap(), starts, lo, hi, seen, docs)
    {
      var queue := starts;
      var visited: set<Id> := {};
      docs, seen := [], [];
      ghost var ns, nb, sure := graph.nodes, NeighbourMap(), SureMap();
      assert forall v :: v in ns ==> ns[v].id == v;
      while queue != []
        invariant ns == graph.nodes && nb == NeighbourMap() && sure == SureMap()
        invariant BfsInv(ns, nb, sure, starts, lo, hi, queue, visited, seen, docs)
        decreases |ns.Keys - visited|, |queue|
      {
        queue, visited, seen, docs := BfsStep(ns, nb, sure, starts, lo, hi, queue, visited, seen, docs);
      }
      BfsDone(ns, nb, sure, starts, lo, hi, visited, seen, docs);
    }

    // -------------------------------------------------------------------
    // The analyses of a chunk
    // -------------------------------------------------------------------

    /** `_identify_critical_events`, with the reach degree of each document
        taken from the two default neighbour queries. */
    method IdentifyCriticalEvents(docs: seq<Node>, prev: Carryover) returns (events: seq<Event>)
      requires Valid()
      ensures events == CriticalEvents(docs, prev.attentionScores, Degrees(docs))
    {
      events := [];
      ghost var degs: seq<int> := [];
      for i := 0 to |docs|
        invariant degs == Degrees(docs[..i])
        invariant events == CriticalEvents(docs[..i], prev.attentionScores, degs)
      {
        var n := ReachDegree(docs[i].id);
        var importance := ScoreDoc(docs, i, prev.attentionScores, n);
        if importance > 0.6 {
          events := events + [MakeEvent(docs[i], importance)];
        }
        CriticalStep(docs, i, prev.attentionScores, degs, n, events);
        assert docs[..i + 1][..i] == docs[..i];
        degs := degs + [n];
      }
      assert docs[..|docs|] == docs;
    }

    /** `_identify_causal_relationships`: a triple for every forward
        neighbour of a document that is itself a document of the chunk.
        Every triple links two documents of the chunk, the second a
        forward candidate of the first with fewer than 50 others strictly
        earlier; every pair is linked when fewer than 50 other candidates
        of the first are as early as the second; the triples come document by document, each document's
        targets in time order, none twice. */
    method IdentifyCausalRelationships(docs: seq<Node>) returns (rels: seq<Chain>)
      requires Valid()
      ensures CausalSound(docs, rels)
      ensures CausalComplete(docs, rels)
      ensures Distinct(DocIds(docs)) ==> CausalOrdered(graph.nodes, docs, rels)
    {
      rels := [];
      var ids := DocIds(docs);
      for i := 0 to |docs|
        invariant CausalSound(docs, rels)
        invariant forall p, j :: 0 <= p < i && 0 <= j < |docs| && Linked(docs[p].id, docs[j].id) ==>
          (docs[p].id, docs[j].id, "sequential") in rels
        invariant Distinct(ids) ==> CausalOrdered(graph.nodes, docs, rels) && SourcesBefore(docs, rels, i)
      {
        var src := docs[i].id;
        var targets := graph.GetForwardNodes(src, 30, 5, 50);
        var links := LinkTargets(src, targets, ids);
        LinksFacts(src, targets, ids);
        LinksFound(docs, i, targets, rels, rels + links);
        if Distinct(ids) {
          LinksOrdered(graph.nodes, docs, i, targets, rels, rels + links);
        }
        rels := rels + links;
      }
    }

    /** `src` is stored and `t` is a forward candidate of it that the
        default query is sure to return: fewer than 50 other candidates
        are as early as `t`. */
    ghost predicate Linked(src: Id, t: Id)
      reads graph
    {
      src in graph.nodes && t in Sure(graph.nodes, graph.ForwardCandidates(src, 30, 5), true, 50)
    }

    ghost predicate CausalSound(docs: seq<Node>, rels: seq<Chain>)
      reads graph
    {
      forall c :: c in rels ==>
        c.2 == "sequential" && c.0 in DocIds(docs) && c.1 in DocIds(docs) &&
        c.0 in graph.nodes && c.1 in Possible(graph.nodes, graph.ForwardCandidates(c.0, 30, 5), true, 50)
    }

    ghost predicate CausalComplete(docs: seq<Node>, rels: seq<Chain>)
      reads graph
    {
      forall p, j :: 0 <= p < |docs| && 0 <= j < |docs| && Linked(docs[p].id, docs[j].id) ==>
        (docs[p].id, docs[j].id, "sequential") in rels
    }

    /** One document's links keep the triples sound and add every linked
        pair starting at it. */
    lemma {:induction false} LinksFound(docs: seq<Node>, i: nat, targets: seq<Id>, before: seq<Chain>, rels: seq<Chain>)
      requires Valid() && i < |docs|
      requires docs[i].id !in graph.nodes ==> targets == []
      requires docs[i].id in graph.nodes ==>
        TimeRanked(graph.nodes, graph.ForwardCandidates(docs[i].id, 30, 5), true, 50, targets)
      requires rels == before + Links(docs[i].id, targets, DocIds(docs))
      requires forall c :: c in Links(docs[i].id, targets, DocIds(docs)) <==>
        c.0 == docs[i].id && c.1 in targets && c.1 in DocIds(docs) && c.2 == "sequential"
      requires CausalSound(docs, before)
      requires forall p, j :: 0 <= p < i && 0 <= j < |docs| && Linked(docs[p].id, docs[j].id) ==>
        (docs[p].id, docs[j].id, "sequential") in before
      ensures CausalSound(docs, rels)
      ensures forall p, j :: 0 <= p < i + 1 && 0 <= j < |docs| && Linked(docs[p].id, docs[j].id) ==>
        (docs[p].id, docs[j].id, "sequential") in rels
    {
      LinksSound(docs, i, targets, before, rels);
      LinksComplete(docs, i, targets, before, rels);
    }

    lemma {:induction false} LinksSound(docs: seq<Node>, i: nat, targets: seq<Id>, before: seq<Chain>, rels: seq<Chain>)
      requires Valid() && i < |docs|
      requires docs[i].id !in graph.nodes ==> targets == []
      requires docs[i].id in graph.nodes ==>
        TimeRanked(graph.nodes, graph.ForwardCandidates(docs[i].id, 30, 5), true, 50, targets)
      requires rels == before + Links(docs[i].id, targets, DocIds(docs))
      requires forall c :: c in Links(docs[i].id, targets, DocIds(docs)) <==>
        c.0 == docs[i].id && c.1 in targets && c.1 in DocIds(docs) && c.2 == "sequential"
      requires CausalSound(docs, before)
      ensures CausalSound(docs, rels)
    {
      var src := docs[i].id;
      assert DocIds(docs)[i] == src;
      forall c | c in rels
        ensures c.2 == "sequential" && c.0 in DocIds(docs) && c.1 in DocIds(docs) &&
          c.0 in graph.nodes && c.1 in Possible(graph.nodes, graph.ForwardCandidates(c.0, 30, 5), true, 50)
      {
        if c !in before {
          assert c in Links(src, targets, DocIds(docs));
          PossibleOnly(graph.nodes, graph.ForwardCandidates(src, 30, 5), true, 50, targets);
        }
      }
    }

    lemma {:induction false} LinksComplete(docs: seq<Node>, i: nat, targets: seq<Id>, before: seq<Chain>, rels: seq<Chain>)
      requires Valid() && i < |docs|
      requires docs[i].id in graph.nodes ==>
        TimeRanked(graph.nodes, graph.ForwardCandidates(docs[i].id, 30, 5), true, 50, targets)
      requires rels == before + Links(docs[i].id, targets, DocIds(docs))
      requires forall c :: c in Links(docs[i].id, targets, DocIds(docs)) <==>
        c.0 == docs[i].id && c.1 in targets && c.1 in DocIds(docs) && c.2 == "sequential"
      requires forall p, j :: 0 <= p < i && 0 <= j < |docs| && Linked(docs[p].id, docs[j].id) ==>
        (docs[p].id, docs[j].id, "sequential") in before
      ensures forall p, j :: 0 <= p < i + 1 && 0 <= j < |docs| && Linked(docs[p].id, docs[j].id) ==>
        (docs[p].id, docs[j].id, "sequential") in rels
    {
      var src := docs[i].id;
      forall p, j | 0 <= p < i + 1 && 0 <= j < |docs| && Linked(docs[p].id, docs[j].id)
        ensures (docs[p].id, docs[j].id, "sequential") in rels
      {
        if p < i {
          assert (docs[p].id, docs[j].id, "sequential") in before;
        } else {
          SureKept(graph.nodes, graph.ForwardCandidates(src, 30, 5), true, 50, targets);
          assert DocIds(docs)[j] == docs[j].id;
          assert (src, docs[j].id, "sequential") in Links(src, targets, DocIds(docs));
        }
      }
    }

    /** Extending the events and degrees by one document. */
    lemma {:induction false} CriticalStep(docs: seq<Node>, i: nat, attention: seq<(Id, real)>, degs: seq<int>,
                                          n: int, events: seq<Event>)
      requires i < |docs| && |degs| == i
      requires var imp := ImportanceAt(docs, i, attention, n);
        events == CriticalEvents(docs[..i], attention, degs) + (if IsCritical(imp) then [MakeEvent(docs[i], imp)] else [])
      ensures events == CriticalEvents(docs[..i + 1], attention, degs + [n])
    {
      var d := docs[..i + 1];
      assert d[..i] == docs[..i] && d[i] == docs[i] && d[0] == docs[0];
      assert (degs + [n])[..i] == degs;
    }

    /** What `_process_chunk` promises about one chunk, given the previous
        carryover and starting document: its documents are those of a
        traversal from the start points, and the analyses are of them. */
    ghost predicate ChunkSpec(c: ChunkResult, lo: int, hi: int, prev: Carryover, startingDoc: Option<Id>)
      reads graph
    {
      && c.chunkIndex == prev.chunkIndex && c.startTime == lo && c.endTime == hi
      && InWindow(graph.nodes, lo, hi, c.documents)
      && c.docIds == DocIds(c.documents)
      && c.criticalEvents == CriticalEvents(c.documents, prev.attentionScores, Degrees(c.documents))
      && c.keyEntities == KeyEntities(c.documents)
      && CausalSound(c.documents, c.causalRelationships)
      && CausalComplete(c.documents, c.causalRelationships)
      && CausalOrdered(graph.nodes, c.documents, c.causalRelationships)
      && (exists seen :: Searched(graph.nodes, NeighbourMap(), SureMap(), StartPoints(startingDoc, prev), lo, hi, seen, c.documents))
      && (forall s ::
            s in StartPoints(startingDoc, prev) && s in graph.nodes && lo <= graph.nodes[s].timestamp <= hi
            ==> graph.nodes[s] in c.documents)
      && (Distinct(StartPoints(startingDoc, prev)) ==>
            WindowIds(graph.nodes, lo, hi, StartPoints(startingDoc, prev)) <= c.docIds)
    }

    /** With no start points the chunk is empty, as the search returns
        nothing for an empty frontier. */
    lemma {:induction false} EmptyFrontierEmptyChunk(c: ChunkResult, lo: int, hi: int, prev: Carryover, startingDoc: Option<Id>)
      requires ChunkSpec(c, lo, hi, prev, startingDoc)
      requires StartPoints(startingDoc, prev) == []
      ensures c.documents == [] && c.docIds == []
    {
      var seen :| Searched(graph.nodes, NeighbourMap(), SureMap(), [], lo, hi, seen, c.documents);
      NoStartsNoDocs(graph.nodes, NeighbourMap(), SureMap(), lo, hi, seen, c.documents);
    }

    /** `_process_chunk`. */
    method ProcessChunk(lo: int, hi: int, prev: Carryover, startingDoc: Option<Id>) returns (c: ChunkResult)
      requires Valid()
      ensures ChunkSpec(c, lo, hi, prev, startingDoc)
    {
      var docs, seen := DocsInWindow(lo, hi, startingDoc, prev);
      SearchedStarts(graph.nodes, NeighbourMap(), SureMap(), StartPoints(startingDoc, prev), lo, hi, seen, docs);
      if docs == [] {
        c := ChunkResult(prev.chunkIndex, lo, hi, [], [], [], [], []);
      } else {
        var events := IdentifyCriticalEvents(docs, prev);
        var rels := IdentifyCausalRelationships(docs);
        var entities := ExtractKeyEntities(docs);
        c := ChunkResult(prev.chunkIndex, lo, hi, docs, DocIds(docs), events, rels, entities);
      }
      assert Searched(graph.nodes, NeighbourMap(), SureMap(), StartPoints(startingDoc, prev), lo, hi, seen, c.documents);
    }
  
    // -------------------------------------------------------------------
    // _extract_carryover and analyze_long_chain
    // -------------------------------------------------------------------

    /** `_extract_carryover` with this analyzer's limits. */
    method NextCarryover(chunk: ChunkResult, prev: Carryover) returns (c: Carryover)
      ensures c == ExtractCarryover(limits, chunk, prev)
    {
      var all := prev.criticalEvents + chunk.criticalEvents;
      var events := Prefix(SortDesc(all, EventImportance), limits.maxEvents);
      var merged := MergeInto(prev.keyEntities, chunk.keyEntities, Combine);
      var entities := Prefix(SortDesc(merged, EntityMentions), limits.maxEntities);
      var chains := KeepLast(prev.causalChains + chunk.causalRelationships, limits.maxChains);
      var recent := PutEach([], SuffixAsWritten(chunk.docIds, 10), 0.8);
      var scores := PutEach(recent, EventIds(events), 1.0);
      c := Carryover(events, entities, chains, scores, prev.openQuestions, prev.chunkIndex + 1,
                     (prev.timeRange.0, Some(chunk.endTime)), prev.documentCount + |chunk.documents|);
    }

    /** Every chunk `k` of `chunks` satisfies what `_process_chunk`
        promises given the carryover `priors[k]` it was processed from; the
        first one was also given the start document. */
    ghost predicate ChunksProcessed(startId: Id, chunks: seq<ChunkResult>, priors: seq<Carryover>)
      reads graph
    {
      && |priors| == |chunks|
      && forall k {:trigger priors[k]} :: 0 <= k < |chunks| ==>
           ChunkSpec(chunks[k], chunks[k].startTime, chunks[k].endTime, priors[k],
                     if k == 0 then Some(startId) else None)
    }

    /** Processing one more chunk from `p` extends the record. */
    lemma {:induction false} ProcessedStep(startId: Id, chunks: seq<ChunkResult>, priors: seq<Carryover>,
                                           c: ChunkResult, p: Carryover)
      requires ChunksProcessed(startId, chunks, priors)
      requires ChunkSpec(c, c.startTime, c.endTime, p, if |chunks| == 0 then Some(startId) else None)
      ensures ChunksProcessed(startId, chunks + [c], priors + [p])
    {
    }

    /** One round of the chunk loop of `analyze_long_chain`: the chunk
        from `current` is processed from `state` and the carryover is
        extracted from it. */
    method Advance(ghost start: int, end: int, step: int, startId: Id, current: int, state: Carryover,
                   ghost chunks: seq<ChunkResult>, ghost priors: seq<Carryover>, total: int)
      returns (c: ChunkResult, current': int, state': Carryover, total': int)
      requires Valid() && step > 0 && current < end
      requires Cut(start, end, step, current, chunks)
      requires Carried(limits, start, chunks, priors, state) && state.chunkIndex == 2 * |chunks|
      requires total == TotalDocs(chunks)
      requires ChunksProcessed(startId, chunks, priors)
      ensures Cut(start, end, step, current', chunks + [c])
      ensures Carried(limits, start, chunks + [c], priors + [state], state')
      ensures state'.chunkIndex == 2 * |chunks + [c]|
      ensures total' == TotalDocs(chunks + [c])
      ensures ChunksProcessed(startId, chunks + [c], priors + [state])
      ensures current < current'
    {
      current' := Min(current + step, end);
      c := ProcessChunk(current, current', state, if state.chunkIndex == 0 then Some(startId) else None);
      state', total' := Carry(start, c, state, chunks, priors, total);
      CutStep(start, end, step, current, chunks, c);
      ProcessedStep(startId, chunks, priors, c, state);
    }

    /** The state update after each chunk of `analyze_long_chain`: the
        carryover is extracted, then its chunk index is bumped once more and
        its document count set to the running total. */
    method Carry(ghost start: int, c: ChunkResult, state: Carryover, ghost chunks: seq<ChunkResult>,
                 ghost priors: seq<Carryover>, total: int)
      returns (state': Carryover, total': int)
      requires Carried(limits, start, chunks, priors, state) && total == TotalDocs(chunks)
      ensures Carried(limits, start, chunks + [c], priors + [state], state')
      ensures state'.chunkIndex == 2 * |chunks + [c]|
      ensures total' == TotalDocs(chunks + [c])
    {
      total' := total + |c.documents|;
      var e := NextCarryover(c, state);
      state' := e.(chunkIndex := e.chunkIndex + 1, documentCount := total');
      NextStateUpdate(limits, c, state, total', e);
      CarriedAppend(limits, start, chunks, priors, state, c, total');
    }

    /** The start and end times of an analysis: the start document's
        timestamp, and the end document's when one is given, otherwise
        `maxDays` days later. */
    ghost function Span(startId: Id, endId: Option<Id>, maxDays: int): (int, int)
      reads graph
      requires startId in graph.nodes && (Given(endId) ==> endId.value in graph.nodes)
    {
      var start := graph.nodes[startId].timestamp;
      (start, if Given(endId) then graph.nodes[endId.value].timestamp else start + maxDays * SecondsPerDay)
    }

    /** The chunk loop of `analyze_long_chain` ends: the chunk size is
        positive, or a document is missing (an error before the loop), or
        the span is empty (the loop does not run). */
    ghost predicate LoopEnds(startId: Id, endId: Option<Id>, maxDays: int)
      reads this, graph
    {
      || chunkSizeDays > 0
      || startId !in graph.nodes
      || (Given(endId) && endId.value !in graph.nodes)
      || Span(startId, endId, maxDays).0 >= Span(startId, endId, maxDays).1
    }

    /** What `analyze_long_chain` returns for a found start (and end)
        document, cutting the span into chunks of `chunkDays` days, each
        processed from `priors[k]`. */
    ghost predicate AnalysisSpec(a: Analysis, priors: seq<Carryover>, startId: Id, endId: Option<Id>,
                                 maxDays: int, chunkDays: int)
      reads graph
    {
      && startId in graph.nodes
      && (Given(endId) ==> endId.value in graph.nodes)
      && (chunkDays > 0 || Span(startId, endId, maxDays).0 >= Span(startId, endId, maxDays).1)
      && a.startDocId == startId && a.endDocId == endId
      && Analysed(limits, a, priors, Span(startId, endId, maxDays).0, Span(startId, endId, maxDays).1,
                  chunkDays * SecondsPerDay)
      && ChunksProcessed(startId, a.chunks, priors)
    }

    /** `analyze_long_chain`: a missing start document, or a missing end
        document when one is given, is an error; otherwise the span from the
        start document to the end document (or `maxDays` days on) is cut
        into chunks of `chunkSizeDays` days, processed in order, each from
        the carryover of the chunks before it. */
    method AnalyzeLongChain(startId: Id, endId: Option<Id>, maxDays: int)
      returns (r: Result<Analysis, string>, ghost priors: seq<Carryover>)
      requires Valid() && LoopEnds(startId, endId, maxDays)
      ensures startId !in graph.nodes ==> r == Failure("Start document not found: " + startId)
      ensures startId in graph.nodes && Given(endId) && endId.value !in graph.nodes ==>
        r == Failure("End document not found: " + endId.value)
      ensures r.Success? <==> startId in graph.nodes && (Given(endId) ==> endId.value in graph.nodes)
      ensures r.Success? ==> AnalysisSpec(r.value, priors, startId, endId, maxDays, chunkSizeDays)
    {
      priors := [];
      if startId !in graph.nodes {
        return Failure("Start document not found: " + startId), priors;
      }
      if Given(endId) && endId.value !in graph.nodes {
        return Failure("End document not found: " + endId.value), priors;
      }
      var a;
      a, priors := Run(startId, endId, maxDays);
      r := Success(a);
    }

    /** `analyze_long_chain` once both documents are found. */
    method Run(startId: Id, endId: Option<Id>, maxDays: int) returns (a: Analysis, ghost priors: seq<Carryover>)
      requires Valid() && startId in graph.nodes && (Given(endId) ==> endId.value in graph.nodes)
      requires chunkSizeDays > 0 || Span(startId, endId, maxDays).0 >= Span(startId, endId, maxDays).1
      ensures AnalysisSpec(a, priors, startId, endId, maxDays, chunkSizeDays)
    {
      var start := graph.nodes[startId].timestamp;
      var end := start + maxDays * SecondsPerDay;
      if Given(endId) {
        end := graph.nodes[endId.value].timestamp;
      }
      assert (start, end) == Span(startId, endId, maxDays);
      var step := chunkSizeDays * SecondsPerDay;
      var current, state, chunks, total;
      current, state, chunks, priors, total := ChunkLoop(startId, start, end, step);
      a := Synthesize(limits, startId, endId, start, end, step, current, chunks, priors, state, total);
    }

    /** The chunk loop of `analyze_long_chain`, from `start` to `end` in
        steps of `step` seconds, the first chunk starting from `startId`. */
    method ChunkLoop(startId: Id, start: int, end: int, step: int)
      returns (current: int, state: Carryover, chunks: seq<ChunkResult>, ghost priors: seq<Carryover>, total: int)
      requires Valid() && (step > 0 || start >= end)
      ensures current >= end && Cut(start, end, step, current, chunks)
      ensures Carried(limits, start, chunks, priors, state) && total == TotalDocs(chunks)
      ensures ChunksProcessed(startId, chunks, priors)
    {
      state := Initial(start);
      chunks, priors := [], [];
      current := start;
      total := 0;
      while current < end
        invariant Cut(start, end, step, current, chunks)
        invariant Carried(limits, start, chunks, priors, state) && state.chunkIndex == 2 * |chunks|
        invariant total == TotalDocs(chunks)
        invariant ChunksProcessed(startId, chunks, priors)
        decreases end - current
      {
        var c, nextCurrent, nextState, nextTotal := Advance(start, end, step, startId, current, state, chunks, priors, total);
        chunks, priors := chunks + [c], priors + [state];
        current, state, total := nextCurrent, nextState, nextTotal;
      }
    }

    /** The start document, when its id is not empty, is the first
        document of the first chunk. */
    lemma {:induction false} StartDocInFirstChunk(a: Analysis, priors: seq<Carryover>, startId: Id, endId: Option<Id>,
                                                  maxDays: int, chunkDays: int)
      requires AnalysisSpec(a, priors, startId, endId, maxDays, chunkDays)
      requires |a.chunks| > 0 && startId != ""
      ensures graph.nodes[startId] in a.chunks[0].documents
      ensures a.chunks[0].documents[0] == graph.nodes[startId]
    {
      var start := Span(startId, endId, maxDays).0;
      var c := a.chunks[0];
      assert ChunkSpec(c, c.startTime, c.endTime, priors[0], Some(startId));
      assert graph.nodes[startId].timestamp == start == c.startTime < c.endTime;
      FirstDocument(c, priors[0], startId);
    }

    /** A chunk processed from a given starting document whose time lies in
        the chunk begins with that document. */
    lemma {:induction false} FirstDocument(c: ChunkResult, prev: Carryover, s: Id)
      requires s != "" && s in graph.nodes && c.startTime <= graph.nodes[s].timestamp <= c.endTime
      requires ChunkSpec(c, c.startTime, c.endTime, prev, Some(s))
      ensures graph.nodes[s] in c.documents && c.documents[0] == graph.nodes[s]
    {
      assert StartPoints(Some(s), prev) == [s];
      WindowFirst(graph.nodes, c.startTime, c.endTime, c.documents, s);
    }

    /** However many chunks the span is cut into, every carryover of the
        analysis stays within the bound set by the limits; the final one
        has chunk index `2 numChunks` and counts every document. */
    lemma {:induction false} AnalysisBounded(a: Analysis, priors: seq<Carryover>, startId: Id, endId: Option<Id>,
                                             maxDays: int, chunkDays: int)
      requires AnalysisSpec(a, priors, startId, endId, maxDays, chunkDays)
      requires limits.maxEvents >= 0 && limits.maxChains >= 0 && limits.maxEntities >= 0
      ensures forall k :: 0 <= k < |priors| ==>
        GetSize(priors[k]) <= 2 * limits.maxEvents + limits.maxEntities + limits.maxChains + 10
      ensures GetSize(a.finalCarryover) <= 2 * limits.maxEvents + limits.maxEntities + limits.maxChains + 10
      ensures a.finalCarryover.chunkIndex == 2 * a.numChunks
      ensures a.finalCarryover.documentCount == a.totalDocuments
    {
      var start := Span(startId, endId, maxDays).0;
      forall k | 0 <= k < |a.chunks|
        ensures KeysDistinct(a.chunks[k].keyEntities)
      {
        assert ChunkSpec(a.chunks[k], a.chunks[k].startTime, a.chunks[k].endTime, priors[k],
                         if k == 0 then Some(startId) else None);
        KeyEntitiesFacts(a.chunks[k].documents, "");
      }
      forall k | 0 <= k < |priors|
        ensures GetSize(priors[k]) <= 2 * limits.maxEvents + limits.maxEntities + limits.maxChains + 10
      {
        assert forall j :: 0 <= j < k ==> a.chunks[..k][j] == a.chunks[j];
        CarryoverAfterBound(limits, start, a.chunks[..k]);
      }
      CarryoverAfterBound(limits, start, a.chunks);
      CarryoverAfterCounts(limits, start, a.chunks);
    }

    // -------------------------------------------------------------------
    // get_temporal_summary
    // -------------------------------------------------------------------

    /** `get_temporal_summary`: no summary when either document is missing;
        a zero number of chunks is Python's division error; otherwise the
        span between the two documents is analysed with chunks of
        `max(1, days // numChunks)` days (the chunk size being restored
        afterwards) and each chunk is summarised. */
    method GetTemporalSummary(startId: Id, endId: Id, numChunks: int)
      returns (r: Result<seq<ChunkSummary>, string>, ghost a: Analysis, ghost priors: seq<Carryover>)
      requires Valid()
      modifies this
      ensures chunkSizeDays == old(chunkSizeDays)
      ensures startId !in graph.nodes || endId !in graph.nodes ==> r == Success([])
      ensures startId in graph.nodes && endId in graph.nodes && numChunks == 0 ==>
        r == Failure("integer division or modulo by zero")
      ensures startId in graph.nodes && endId in graph.nodes && numChunks != 0 ==>
        && r.Success?
        && AnalysisSpec(a, priors, startId, Some(endId), 1825,
                        SummaryChunkDays(graph.nodes[startId].timestamp, graph.nodes[endId].timestamp, numChunks))
        && |r.value| == |a.chunks|
        && forall k :: 0 <= k < |a.chunks| ==> r.value[k] == SummaryOf(a.chunks[k])
    {
      a, priors := Analysis(startId, Some(endId), 0, [], 0, [], [], [], Initial(0), 0, 0.0), [];
      if startId !in graph.nodes || endId !in graph.nodes {
        return Success([]), a, priors;
      }
      if numChunks == 0 {
        return Failure("integer division or modulo by zero"), a, priors;
      }
      var days := SummaryChunkDays(graph.nodes[startId].timestamp, graph.nodes[endId].timestamp, numChunks);
      var original := chunkSizeDays;
      chunkSizeDays := days;
      var result;
      result, priors := AnalyzeLongChain(startId, Some(endId), 1825);
      chunkSizeDays := original;
      a := result.value;
      var summaries := Summarise(result.value.chunks);
      r := Success(summaries);
    }
}
}
