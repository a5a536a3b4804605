/**
 * The entity records of a long-chain analysis as the analyzer actually
 * shares them. `_extract_carryover` copies the previous dict shallowly and
 * stores a chunk's own record object for a new key, so the carryover's
 * records ARE the records of the chunks they came from; merging a later
 * chunk adds to that shared record in place, and the final aggregation,
 * which also stores the first chunk's record object, adds to it once more.
 * Records live in a heap `Ref -> Entity`; a dict maps keys to references.
 * The value model in `MarkovState` is the evidently intended behaviour.
 */
module EntityAliasing {
  import opened Wrappers
  import opened PyStd
  import opened Assoc
  import opened MarkovState

  type Ref = nat
  type Heap = map<Ref, Entity>
  type Dict = seq<(string, Ref)>

  /** Every record the dict names is in the heap. */
  predicate Allocated(h: Heap, d: Dict)
  {
    forall i :: 0 <= i < |d| ==> d[i].1 in h
  }

  /** The dict read out as values, as a caller sees it after the run. */
  function Read(h: Heap, d: Dict): (r: seq<(string, Entity)>)
    requires Allocated(h, d)
    ensures |r| == |d|
    ensures forall i :: 0 <= i < |d| ==> r[i] == (d[i].0, h[d[i].1])
  {
    seq(|d|, i requires 0 <= i < |d| => (d[i].0, h[d[i].1]))
  }

  /** The merge loop as written: a key already in `d` has its record
      updated IN PLACE by `f`, a new key is stored with the chunk's own
      record. No record is allocated or freed. */
  function MergeShared(h: Heap, d: Dict, items: Dict, f: (Entity, Entity) -> Entity): (r: (Heap, Dict))
    requires Allocated(h, d) && Allocated(h, items)
    ensures r.0.Keys == h.Keys
    ensures Allocated(r.0, r.1)
    decreases |items|
  {
    if |items| == 0 then (h, d)
    else
      var m := |items| - 1;
      var prev := MergeShared(h, d, items[..m], f);
      var x := items[m];
      match Get(prev.1, x.0)
      case Some(o) =>
        assert (x.0, o) in prev.1;
        (prev.0[o := f(prev.0[o], prev.0[x.1])], prev.1)
      case None =>
        PutAllocated(prev.0, prev.1, x.0, x.1);
        (prev.0, Put(prev.1, x.0, x.1))
  }

  lemma {:induction false} PutAllocated(h: Heap, d: Dict, k: string, ref: Ref)
    requires Allocated(h, d) && ref in h
    ensures Allocated(h, Put(d, k, ref))
  {
  }

  /** `key_entities[entity]['mentions'] += ...; ['last_seen'] = ...`. */
  function CombineInPlace(o: Entity, e: Entity): Entity
  {
    Combine(Some(o), e)
  }

  /** `all_entities[entity]['mentions'] += ...`. */
  function AddInPlace(o: Entity, e: Entity): Entity
  {
    AddMentions(Some(o), e)
  }

  /** The entity part of `_extract_carryover` as written: shallow copy,
      in-place merge, then the top `n` references by their record's
      current mentions. */
  function CarryShared(h: Heap, prev: Dict, chunk: Dict, n: int): (r: (Heap, Dict))
    requires Allocated(h, prev) && Allocated(h, chunk)
    ensures r.0.Keys == h.Keys
    ensures Allocated(r.0, r.1)
  {
    var merged := MergeShared(h, prev, chunk, CombineInPlace);
    var h1 := merged.0;
    var key := (x: (string, Ref)) => if x.1 in h1 then h1[x.1].mentions as real else 0.0;
    var top := Prefix(SortDesc(merged.1, key), n);
    assert forall i :: 0 <= i < |top| ==> top[i] in multiset(SortDesc(merged.1, key));
    (h1, top)
  }

  /** The chunks' own dicts: all allocated. */
  predicate AllAllocated(h: Heap, dicts: seq<Dict>)
  {
    forall k :: 0 <= k < |dicts| ==> Allocated(h, dicts[k])
  }

  /** The carryover's entity dict after each chunk of `dicts` in turn,
      starting from the empty dict of the initial state. */
  function CarryAll(h: Heap, dicts: seq<Dict>, n: int): (r: (Heap, Dict))
    requires AllAllocated(h, dicts)
    ensures r.0.Keys == h.Keys
    ensures Allocated(r.0, r.1)
    decreases |dicts|
  {
    if |dicts| == 0 then (h, [])
    else
      var m := |dicts| - 1;
      var prev := CarryAll(h, dicts[..m], n);
      assert Allocated(h, dicts[m]);
      CarryShared(prev.0, prev.1, dicts[m], n)
  }

  /** The final aggregation as written over the chunks' own dicts. */
  function AggregateShared(h: Heap, dicts: seq<Dict>): (r: (Heap, Dict))
    requires AllAllocated(h, dicts)
    ensures r.0.Keys == h.Keys
    ensures Allocated(r.0, r.1)
    decreases |dicts|
  {
    if |dicts| == 0 then (h, [])
    else
      var m := |dicts| - 1;
      var prev := AggregateShared(h, dicts[..m]);
      assert Allocated(h, dicts[m]);
      MergeShared(prev.0, prev.1, dicts[m], AddInPlace)
  }

  /** A run as written: the carryover loop, then the aggregation over the
      heap the loop left. Returns the final heap, the final carryover dict
      and the aggregate dict; the chunks' own dicts are read in the final
      heap too. */
  function RunShared(h: Heap, dicts: seq<Dict>, n: int): (r: (Heap, Dict, Dict))
    requires AllAllocated(h, dicts)
    ensures r.0.Keys == h.Keys
    ensures Allocated(r.0, r.1) && Allocated(r.0, r.2)
  {
    var carried := CarryAll(h, dicts, n);
    var aggregated := AggregateShared(carried.0, dicts);
    (aggregated.0, carried.1, aggregated.1)
  }

  /** The two chunks of the counterexample, as values: "alpha" mentioned
      twice at time 1, then three times at time 2. */
  function AlphaChunks(): seq<ChunkResult>
  {
    [ChunkResult(0, 0, 1, [], [], [], [], [("alpha", Entity(2, 1, 1))]),
     ChunkResult(1, 1, 2, [], [], [], [], [("alpha", Entity(3, 2, 2))])]
  }

  /** The same two chunks with their records in a heap. */
  function AlphaHeap(): Heap
  {
    map[0 := Entity(2, 1, 1), 1 := Entity(3, 2, 2)]
  }

  function AlphaDicts(): seq<Dict>
  {
    [[("alpha", 0)], [("alpha", 1)]]
  }

  /** Merging a single item: an in-place update when the key is there, a
      new entry holding the item's own reference otherwise. */
  lemma {:induction false} MergeOne(h: Heap, d: Dict, x: (string, Ref), f: (Entity, Entity) -> Entity)
    requires Allocated(h, d) && x.1 in h
    ensures Get(d, x.0).Some? ==> Get(d, x.0).value in h
    ensures MergeShared(h, d, [x], f)
            == match Get(d, x.0)
               case Some(o) => (h[o := f(h[o], h[x.1])], d)
               case None => (h, Put(d, x.0, x.1))
  {
    var items: Dict := [x];
    assert items[..0] == [];
    if Get(d, x.0).Some? {
      assert (x.0, Get(d, x.0).value) in d;
    }
  }

  /** A merge that leaves a single key keeps it among the top `n >= 1`. */
  lemma {:induction false} CarryOne(h: Heap, prev: Dict, chunk: Dict, n: int, one: Dict)
    requires Allocated(h, prev) && Allocated(h, chunk) && n >= 1 && |one| == 1
    requires MergeShared(h, prev, chunk, CombineInPlace).1 == one
    ensures CarryShared(h, prev, chunk, n) == (MergeShared(h, prev, chunk, CombineInPlace).0, one)
  {
    forall key: ((string, Ref)) -> real
      ensures SortDesc(one, key) == one
    {
      assert SortDesc(one, key)[0] in multiset(one);
    }
    var c := CarryShared(h, prev, chunk, n);
    assert |c.1| == 1 && c.1[0] == one[0];
    assert c.1 == one;
  }

  /** The first chunk's record, under key `k` at reference `a`, is stored
      itself in the empty carryover and in the empty aggregate. */
  lemma {:induction false} FirstChunk(h: Heap, n: int, k: string, a: Ref)
    requires a in h && n >= 1
    ensures CarryAll(h, [[(k, a)]], n) == (h, [(k, a)])
    ensures AggregateShared(h, [[(k, a)]]) == (h, [(k, a)])
  {
    var one: Dict := [(k, a)];
    var none: Dict := [];
    assert IndexOf(none, k) == -1;
    assert Put(none, k, a) == one;
    MergeOne(h, none, (k, a), CombineInPlace);
    MergeOne(h, none, (k, a), AddInPlace);
    CarryOne(h, none, one, n, one);
    var ds: seq<Dict> := [one];
    assert ds[..0] == [];
  }

  /** A chunk holding `k` at reference `b` merged into a dict holding it at
      reference `a`: the record at `a` is updated in place. */
  lemma {:induction false} MergeIntoShared(h: Heap, f: (Entity, Entity) -> Entity, k: string, a: Ref, b: Ref)
    requires a in h && b in h
    ensures MergeShared(h, [(k, a)], [(k, b)], f) == (h[a := f(h[a], h[b])], [(k, a)])
  {
    var one: Dict := [(k, a)];
    assert IndexOf(one, k) == 0;
    MergeOne(h, one, (k, b), f);
  }

  /** The carryover loop over two chunks that both hold `k`. */
  lemma {:induction false} CarryTwo(h: Heap, n: int, k: string, a: Ref, b: Ref)
    requires a in h && b in h && n >= 1
    ensures CarryAll(h, [[(k, a)], [(k, b)]], n) == (h[a := CombineInPlace(h[a], h[b])], [(k, a)])
  {
    var ds: seq<Dict> := [[(k, a)], [(k, b)]];
    assert ds[..1] == [[(k, a)]];
    FirstChunk(h, n, k, a);
    MergeIntoShared(h, CombineInPlace, k, a, b);
    CarryOne(h, [(k, a)], [(k, b)], n, [(k, a)]);
  }

  /** The aggregation over two chunks that both hold `k`. */
  lemma {:induction false} AggregateTwo(h: Heap, k: string, a: Ref, b: Ref)
    requires a in h && b in h
    ensures AggregateShared(h, [[(k, a)], [(k, b)]]) == (h[a := AddInPlace(h[a], h[b])], [(k, a)])
  {
    var ds: seq<Dict> := [[(k, a)], [(k, b)]];
    assert ds[..1] == [[(k, a)]];
    FirstChunk(h, 1, k, a);
    MergeIntoShared(h, AddInPlace, k, a, b);
  }

  /** A run over two chunks that both hold `k`: the first chunk's record
      takes the second's mentions twice, once in the carryover merge and
      once in the aggregation, and every dict naming `k` points at it. */
  lemma {:induction false} RunTwo(h: Heap, n: int, k: string, a: Ref, b: Ref)
    requires a in h && b in h && a != b && n >= 1
    ensures var r := RunShared(h, [[(k, a)], [(k, b)]], n);
            && r.1 == [(k, a)] && r.2 == [(k, a)]
            && a in r.0 && r.0[a] == AddInPlace(CombineInPlace(h[a], h[b]), h[b])
  {
    CarryTwo(h, n, k, a, b);
    var h1 := h[a := CombineInPlace(h[a], h[b])];
    AggregateTwo(h1, k, a, b);
  }

  /** The value model over the same two chunks: 5 mentions in all, and
      the first chunk's record keeps its own 2 mentions. */
  lemma {:induction false} AggregateAlphaValues()
    ensures MentionsOf(AggregateEntities(AlphaChunks()), "alpha") == TotalMentions(AlphaChunks(), "alpha") == 5
  {
    var cs: seq<ChunkResult> := AlphaChunks();
    assert cs[..1] == [cs[0]] && cs[..1][..0] == [];
    assert IndexOf(cs[0].keyEntities, "alpha") == 0 && IndexOf(cs[1].keyEntities, "alpha") == 0;
    assert MentionsOf(cs[0].keyEntities, "alpha") == 2 && MentionsOf(cs[1].keyEntities, "alpha") == 3;
    AggregateFacts(cs, "alpha");
  }

  /** As written, the aggregate, the final carryover and the first chunk's
      own dict all report "alpha" with 8 mentions and last seen at time 2. */
  lemma {:induction false} AlphaAsWritten()
    ensures var r := RunShared(AlphaHeap(), AlphaDicts(), 20);
            && r.1 == [("alpha", 0)] && r.2 == [("alpha", 0)] && AlphaDicts()[0] == [("alpha", 0)]
            && 0 in r.0 && r.0[0] == Entity(8, 1, 2)
  {
    var h := AlphaHeap();
    assert 0 in h && 1 in h && h[0] == Entity(2, 1, 1) && h[1] == Entity(3, 2, 2);
    RunTwo(h, 20, "alpha", 0, 1);
  }

  /** As written, the aggregate, the final carryover and the first chunk's
      own dict all report "alpha" with 8 mentions and last seen at time 2,
      where the value model reports 5 mentions in all, from 2 and 3, and
      leaves the first chunk's record at 2 mentions, last seen at time 1. */
  lemma AliasingDoubleCounts()
    ensures var r := RunShared(AlphaHeap(), AlphaDicts(), 20);
            && Read(r.0, r.2) == [("alpha", Entity(8, 1, 2))]
            && Read(r.0, r.1) == [("alpha", Entity(8, 1, 2))]
            && Read(r.0, AlphaDicts()[0]) == [("alpha", Entity(8, 1, 2))]
    ensures MentionsOf(AggregateEntities(AlphaChunks()), "alpha") == TotalMentions(AlphaChunks(), "alpha") == 5
    ensures AlphaChunks()[0].keyEntities == [("alpha", Entity(2, 1, 1))]
  {
    AlphaAsWritten();
    var r := RunShared(AlphaHeap(), AlphaDicts(), 20);
    var d: Dict := [("alpha", 0)];
    assert Read(r.0, d) == [("alpha", Entity(8, 1, 2))];
    AggregateAlphaValues();
  }
}
