/**
 * The values the Markovian analyzer passes from one temporal chunk to the
 * next: critical events, entity records, causal triples and the
 * `TemporalCarryover` that bundles them, together with the pure parts of
 * the analysis (event scoring, entity counting and carryover extraction).
 */
module MarkovState {
  import opened Wrappers
  import opened PyStd
  import opened Assoc
  import opened TemporalTypes

  /** A critical event `{"doc_id", "timestamp", "type", "importance",
      "summary"}`. */
  datatype Event = Event(docId: Id, timestamp: int, nodeType: NodeType, importance: real, summary: string)

  /** An entity record `{"mentions", "first_seen", "last_seen"}`. */
  datatype Entity = Entity(mentions: int, firstSeen: int, lastSeen: int)

  /** A causal triple `(from, to, relation)`. */
  type Chain = (Id, Id, string)

  /** `TemporalCarryover`. Dicts are item sequences with distinct keys. */
  datatype Carryover = Carryover(
    criticalEvents: seq<Event>,
    keyEntities: seq<(string, Entity)>,
    causalChains: seq<Chain>,
    attentionScores: seq<(Id, real)>,
    openQuestions: seq<string>,
    chunkIndex: int,
    timeRange: (Option<int>, Option<int>),
    documentCount: int)

  /** `ChunkResult`, without its timing and memory estimates. */
  datatype ChunkResult = ChunkResult(
    chunkIndex: int,
    startTime: int,
    endTime: int,
    documents: seq<Node>,
    docIds: seq<Id>,
    criticalEvents: seq<Event>,
    causalRelationships: seq<Chain>,
    keyEntities: seq<(string, Entity)>)

  /** The analyzer's three carryover limits. */
  datatype Limits = Limits(maxEvents: int, maxChains: int, maxEntities: int)

  const DefaultLimits := Limits(10, 20, 15)

  /** Both dicts of a carryover have distinct keys. */
  predicate CarryoverOk(c: Carryover)
  {
    KeysDistinct(c.keyEntities) && KeysDistinct(c.attentionScores)
  }

  /** `get_size`: the number of entries over all five collections. */
  function GetSize(c: Carryover): nat
  {
    |c.criticalEvents| + |c.keyEntities| + |c.causalChains| + |c.attentionScores| + |c.openQuestions|
  }

  // ---------------------------------------------------------------------
  // Critical events
  // ---------------------------------------------------------------------

  /** The importance of a document: 0.5, plus 0.2 for the chunk's first
      document, plus 0.3 times its attention from the previous carryover,
      plus 0.2 when more than two nodes are reachable from it. */
  function Importance(isFirst: bool, attention: Option<real>, degree: int): real
  {
    0.5 + (if isFirst then 0.2 else 0.0)
        + (if attention.Some? then attention.value * 0.3 else 0.0)
        + (if degree > 2 then 0.2 else 0.0)
  }

  /** A document is critical when its importance exceeds 0.6. */
  predicate IsCritical(importance: real)
  {
    importance > 0.6
  }

  /** The event summary: the content, cut to 100 characters plus "..." when
      longer. */
  function Summary(content: string): (s: string)
    ensures |content| <= 100 ==> s == content
    ensures |content| > 100 ==> |s| == 103 && s[..100] == content[..100] && s[100..] == "..."
  {
    if |content| > 100 then content[..100] + "..." else content
  }

  function MakeEvent(doc: Node, importance: real): Event
  {
    Event(doc.id, doc.timestamp, doc.nodeType, importance, Summary(doc.content))
  }

  /** The importance of `docs[i]`, given the previous attention scores and
      the reach degree `degree` of the document. */
  function ImportanceAt(docs: seq<Node>, i: nat, attention: seq<(Id, real)>, degree: int): real
    requires i < |docs|
  {
    Importance(docs[i] == docs[0], Get(attention, docs[i].id), degree)
  }

  /** `_identify_critical_events` for documents whose reach degrees are
      `degrees`: one event per critical document, in document order. */
  function CriticalEvents(docs: seq<Node>, attention: seq<(Id, real)>, degrees: seq<int>): seq<Event>
    requires |degrees| == |docs|
    decreases |docs|
  {
    if |docs| == 0 then []
    else
      var n := |docs| - 1;
      CriticalEvents(docs[..n], attention, degrees[..n]) + CriticalAt(docs, n, attention, degrees[n])
  }

  /** The event of `docs[i]` if it is critical. */
  function CriticalAt(docs: seq<Node>, i: nat, attention: seq<(Id, real)>, degree: int): seq<Event>
    requires i < |docs|
  {
    var imp := ImportanceAt(docs, i, attention, degree);
    if IsCritical(imp) then [MakeEvent(docs[i], imp)] else []
  }

  /** Whether a document is critical, spelled out: it is the first, or it
      reaches more than two nodes, or its previous attention exceeds 1/3
      (attention never being negative). */
  lemma {:induction false} CriticalIff(isFirst: bool, attention: Option<real>, degree: int)
    requires attention.Some? ==> attention.value >= 0.0
    ensures IsCritical(Importance(isFirst, attention, degree)) <==>
      isFirst || degree > 2 || (attention.Some? && attention.value * 3.0 > 1.0)
  {
  }

  /** Every event is about one of the documents, keeps that document's id,
      time, type and summary, and has importance above 0.6; there are at
      most as many events as documents. */
  lemma {:induction false} CriticalEventsSound(docs: seq<Node>, attention: seq<(Id, real)>, degrees: seq<int>)
    requires |degrees| == |docs|
    ensures |CriticalEvents(docs, attention, degrees)| <= |docs|
    ensures forall e :: e in CriticalEvents(docs, attention, degrees) ==>
      IsCritical(e.importance) &&
      exists i :: 0 <= i < |docs| && e == MakeEvent(docs[i], ImportanceAt(docs, i, attention, degrees[i]))
    decreases |docs|
  {
    if |docs| > 0 {
      var n := |docs| - 1;
      CriticalEventsSound(docs[..n], attention, degrees[..n]);
      forall e | e in CriticalEvents(docs, attention, degrees)
        ensures IsCritical(e.importance) &&
          exists i :: 0 <= i < |docs| && e == MakeEvent(docs[i], ImportanceAt(docs, i, attention, degrees[i]))
      {
        if e in CriticalEvents(docs[..n], attention, degrees[..n]) {
          var i :| 0 <= i < n && e == MakeEvent(docs[..n][i], ImportanceAt(docs[..n], i, attention, degrees[..n][i]));
          assert docs[..n][i] == docs[i] && docs[..n][0] == docs[0] && degrees[..n][i] == degrees[i];
        }
      }
    }
  }

  /** The first document of a chunk always yields the first event. */
  lemma {:induction false} FirstIsCritical(docs: seq<Node>, attention: seq<(Id, real)>, degrees: seq<int>)
    requires |degrees| == |docs| > 0
    requires forall k :: 0 <= k < |attention| ==> attention[k].1 >= 0.0
    ensures var es := CriticalEvents(docs, attention, degrees);
      |es| > 0 && es[0] == MakeEvent(docs[0], ImportanceAt(docs, 0, attention, degrees[0]))
    decreases |docs|
  {
    var n := |docs| - 1;
    var a := Get(attention, docs[0].id);
    if a.Some? {
      assert (docs[0].id, a.value) in attention;
    }
    CriticalIff(true, a, degrees[0]);
    if n > 0 {
      FirstIsCritical(docs[..n], attention, degrees[..n]);
      assert docs[..n][0] == docs[0] && degrees[..n][0] == degrees[0];
    }
  }

  // ---------------------------------------------------------------------
  // Key entities of a chunk
  // ---------------------------------------------------------------------

  /** The words of a document: `doc.content.lower().split()`. */
  function Words(doc: Node): seq<string>
  {
    SplitWhitespace(Lower(doc.content))
  }

  /** The words of all documents, in order. */
  function AllWords(docs: seq<Node>): seq<string>
    decreases |docs|
  {
    if |docs| == 0 then [] else AllWords(docs[..|docs| - 1]) + Words(docs[|docs| - 1])
  }

  /** A word long enough to count as an entity. */
  predicate IsLong(w: string)
  {
    |w| > 4
  }

  /** The mention count recorded for `w`, 0 when absent. */
  function MentionsOf(d: seq<(string, Entity)>, w: string): int
  {
    match Get(d, w)
    case None => 0
    case Some(e) => e.mentions
  }

  /** Recording one mention of `w` at time `ts`: a new record starts at one
      mention first and last seen at `ts`; an existing one gains a mention
      and is last seen at `ts`. */
  function Note(d: seq<(string, Entity)>, w: string, ts: int): seq<(string, Entity)>
  {
    match Get(d, w)
    case None => Put(d, w, Entity(1, ts, ts))
    case Some(e) => Put(d, w, Entity(e.mentions + 1, e.firstSeen, ts))
  }

  /** The inner loop over a document's words. */
  function TallyWords(d: seq<(string, Entity)>, ws: seq<string>, ts: int): seq<(string, Entity)>
    decreases |ws|
  {
    if |ws| == 0 then d
    else
      var prev := TallyWords(d, ws[..|ws| - 1], ts);
      var w := ws[|ws| - 1];
      if IsLong(w) then Note(prev, w, ts) else prev
  }

  /** The outer loop over the documents. */
  function TallyDocs(docs: seq<Node>): seq<(string, Entity)>
    decreases |docs|
  {
    if |docs| == 0 then []
    else
      var n := |docs| - 1;
      TallyWords(TallyDocs(docs[..n]), Words(docs[n]), docs[n].timestamp)
  }

  /** The records with at least two mentions, in order. */
  function Repeated(d: seq<(string, Entity)>): seq<(string, Entity)>
    decreases |d|
  {
    if |d| == 0 then []
    else
      var n := |d| - 1;
      Repeated(d[..n]) + (if d[n].1.mentions >= 2 then [d[n]] else [])
  }

  /** `_extract_key_entities`. */
  function KeyEntities(docs: seq<Node>): seq<(string, Entity)>
  {
    Repeated(TallyDocs(docs))
  }

  /** Every record has at least one mention. */
  ghost predicate Positive(d: seq<(string, Entity)>)
  {
    forall k :: 0 <= k < |d| ==> d[k].1.mentions >= 1
  }

  lemma {:induction false} NoteFacts(d: seq<(string, Entity)>, w: string, ts: int, u: string)
    requires KeysDistinct(d) && Positive(d)
    ensures KeysDistinct(Note(d, w, ts)) && Positive(Note(d, w, ts))
    ensures Get(Note(d, w, ts), u).Some? <==> Get(d, u).Some? || u == w
    ensures MentionsOf(Note(d, w, ts), u) == MentionsOf(d, u) + (if u == w then 1 else 0)
  {
    var e := match Get(d, w) case None => Entity(1, ts, ts) case Some(o) => Entity(o.mentions + 1, o.firstSeen, ts);
    if Get(d, w).Some? {
      assert (w, Get(d, w).value) in d;
    }
    PutFacts(d, w, e);
    var r := Put(d, w, e);
    forall k | 0 <= k < |r|
      ensures r[k].1.mentions >= 1
    {
      if r[k].0 == w {
        GetAt(r, k);
      } else {
        GetAt(r, k);
        assert Get(d, r[k].0) == Some(r[k].1);
        assert (r[k].0, r[k].1) in d;
      }
    }
  }

  /** Tallying a word list adds each long word's occurrences to its count,
      and records exactly the long words seen. */
  lemma {:induction false} TallyWordsFacts(d: seq<(string, Entity)>, ws: seq<string>, ts: int, u: string)
    requires KeysDistinct(d) && Positive(d)
    ensures KeysDistinct(TallyWords(d, ws, ts)) && Positive(TallyWords(d, ws, ts))
    ensures Get(TallyWords(d, ws, ts), u).Some? <==> Get(d, u).Some? || (IsLong(u) && u in ws)
    ensures MentionsOf(TallyWords(d, ws, ts), u) == MentionsOf(d, u) + (if IsLong(u) then Count(ws, u) else 0)
    decreases |ws|
  {
    if |ws| > 0 {
      var n := |ws| - 1;
      var w := ws[n];
      TallyWordsFacts(d, ws[..n], ts, u);
      TallyWordsFacts(d, ws[..n], ts, w);
      assert ws == ws[..n] + [w];
      CountConcat(ws[..n], [w], u);
      if IsLong(w) {
        NoteFacts(TallyWords(d, ws[..n], ts), w, ts, u);
      }
    }
  }

  /** The tally of a chunk counts, for every long word, its occurrences
      over all the documents' words. */
  lemma {:induction false} TallyDocsFacts(docs: seq<Node>, u: string)
    ensures KeysDistinct(TallyDocs(docs)) && Positive(TallyDocs(docs))
    ensures Get(TallyDocs(docs), u).Some? <==> IsLong(u) && u in AllWords(docs)
    ensures MentionsOf(TallyDocs(docs), u) == if IsLong(u) then Count(AllWords(docs), u) else 0
    decreases |docs|
  {
    if |docs| > 0 {
      var n := |docs| - 1;
      TallyDocsFacts(docs[..n], u);
      TallyWordsFacts(TallyDocs(docs[..n]), Words(docs[n]), docs[n].timestamp, u);
      assert AllWords(docs) == AllWords(docs[..n]) + Words(docs[n]);
      CountConcat(AllWords(docs[..n]), Words(docs[n]), u);
    }
  }

  /** Filtering keeps the keys distinct and only records with two or more
      mentions. */
  lemma {:induction false} RepeatedDistinct(d: seq<(string, Entity)>)
    requires KeysDistinct(d)
    ensures KeysDistinct(Repeated(d))
    ensures forall k :: 0 <= k < |Repeated(d)| ==> Repeated(d)[k].1.mentions >= 2
    decreases |d|
  {
    if |d| > 0 {
      var n := |d| - 1;
      var d' := d[..n];
      assert KeysDistinct(d');
      RepeatedDistinct(d');
      var r' := Repeated(d');
      var r := Repeated(d);
      if d[n].1.mentions >= 2 {
        assert r == r' + [d[n]];
        RepeatedSub(d');
        forall i, j | 0 <= i < j < |r|
          ensures r[i].0 != r[j].0
        {
          if j == |r'| {
            assert r[i] in d';
            var p :| 0 <= p < n && d'[p] == r[i];
            assert d[p] == r[i];
          } else {
            assert r[i] == r'[i] && r[j] == r'[j];
          }
        }
      } else {
        assert r == r';
      }
    }
  }

  /** A key keeps its record through the filter exactly when the record has
      two or more mentions. */
  lemma {:induction false} RepeatedGet(d: seq<(string, Entity)>, u: string)
    requires KeysDistinct(d)
    ensures Get(Repeated(d), u) == if Get(d, u).Some? && Get(d, u).value.mentions >= 2 then Get(d, u) else None
    decreases |d|
  {
    if |d| > 0 {
      var n := |d| - 1;
      var d' := d[..n];
      assert KeysDistinct(d');
      RepeatedGet(d', u);
      var r' := Repeated(d');
      var r := Repeated(d);
      GetAt(d, n);
      if u != d[n].0 {
        GetDropLast(d, u);
        if d[n].1.mentions >= 2 {
          assert r == r' + [d[n]];
          GetDropLast(r, u);
          assert r[..|r| - 1] == r';
        } else {
          assert r == r';
        }
      } else if d[n].1.mentions >= 2 {
        RepeatedDistinct(d);
        assert r == r' + [d[n]];
        GetAt(r, |r| - 1);
      } else {
        assert r == r';
        RepeatedKeys(d', u);
        assert u !in Keys(d');
      }
    }
  }

  /** Filtering keeps only items of the dict. */
  lemma {:induction false} RepeatedSub(d: seq<(string, Entity)>)
    ensures forall x :: x in Repeated(d) ==> x in d
    decreases |d|
  {
    if |d| > 0 {
      var n := |d| - 1;
      RepeatedSub(d[..n]);
      assert d == d[..n] + [d[n]];
    }
  }

  /** Filtering keeps no key the dict did not have. */
  lemma {:induction false} RepeatedKeys(d: seq<(string, Entity)>, u: string)
    ensures u in Keys(Repeated(d)) ==> u in Keys(d)
  {
    if u in Keys(Repeated(d)) {
      RepeatedSub(d);
      var k :| 0 <= k < |Repeated(d)| && Keys(Repeated(d))[k] == u;
      assert Repeated(d)[k] in d;
      var p :| 0 <= p < |d| && d[p] == Repeated(d)[k];
      assert Keys(d)[p] == u;
    }
  }

  /** The key entities of a chunk: exactly the words longer than four
      characters that occur at least twice among its documents' words, each
      with its number of occurrences. */
  lemma {:induction false} KeyEntitiesFacts(docs: seq<Node>, u: string)
    ensures KeysDistinct(KeyEntities(docs))
    ensures forall k :: 0 <= k < |KeyEntities(docs)| ==> KeyEntities(docs)[k].1.mentions >= 2
    ensures Get(KeyEntities(docs), u).Some? <==> IsLong(u) && Count(AllWords(docs), u) >= 2
    ensures Get(KeyEntities(docs), u).Some? ==> Get(KeyEntities(docs), u).value.mentions == Count(AllWords(docs), u)
  {
    TallyDocsFacts(docs, u);
    RepeatedDistinct(TallyDocs(docs));
    RepeatedGet(TallyDocs(docs), u);
    if IsLong(u) && Count(AllWords(docs), u) >= 2 {
      assert u in multiset(AllWords(docs));
    }
  }

  // ---------------------------------------------------------------------
  // Carryover extraction
  // ---------------------------------------------------------------------

  function EventImportance(e: Event): real
  {
    e.importance
  }

  function EntityMentions(x: (string, Entity)): real
  {
    x.1.mentions as real
  }

  /** `all_events.sort(key=importance, reverse=True)` then `[:n]`. */
  function TopEvents(events: seq<Event>, n: int): seq<Event>
  {
    Prefix(SortDesc(events, EventImportance), n)
  }

  /** `sorted(entities.items(), key=mentions, reverse=True)[:n]`. */
  function TopEntities(d: seq<(string, Entity)>, n: int): seq<(string, Entity)>
  {
    Prefix(SortDesc(d, EntityMentions), n)
  }

  /** Merging one chunk record into the carryover's record of the same
      key: mentions add up, `last_seen` comes from the chunk, `first_seen`
      stays. */
  function Combine(prior: Option<Entity>, e: Entity): Entity
  {
    match prior
    case None => e
    case Some(o) => Entity(o.mentions + e.mentions, o.firstSeen, e.lastSeen)
  }

  /** Merging one chunk record into the final aggregate: only the mentions
      add up. */
  function AddMentions(prior: Option<Entity>, e: Entity): Entity
  {
    match prior
    case None => e
    case Some(o) => Entity(o.mentions + e.mentions, o.firstSeen, o.lastSeen)
  }

  /** A merge loop over a chunk's records in order: each key is put back
      combined, by `f`, with what the running dict holds for it. */
  function MergeEntities(d: seq<(string, Entity)>, items: seq<(string, Entity)>,
                         f: (Option<Entity>, Entity) -> Entity): seq<(string, Entity)>
    decreases |items|
  {
    if |items| == 0 then d
    else
      var prev := MergeEntities(d, items[..|items| - 1], f);
      var x := items[|items| - 1];
      Put(prev, x.0, f(Get(prev, x.0), x.1))
  }

  /** Every key of the merge is looked up as the chunk's record combined
      with the previous one, or the previous record when the chunk has
      none; keys stay distinct. */
  lemma {:induction false} MergeEntitiesFacts(d: seq<(string, Entity)>, items: seq<(string, Entity)>,
                                              f: (Option<Entity>, Entity) -> Entity, u: string)
    requires KeysDistinct(d) && KeysDistinct(items)
    ensures KeysDistinct(MergeEntities(d, items, f))
    ensures Get(MergeEntities(d, items, f), u) ==
      match Get(items, u)
      case None => Get(d, u)
      case Some(e) => Some(f(Get(d, u), e))
    decreases |items|
  {
    if |items| > 0 {
      var n := |items| - 1;
      var x := items[n];
      var items' := items[..n];
      assert KeysDistinct(items');
      MergeEntitiesFacts(d, items', f, u);
      MergeEntitiesFacts(d, items', f, x.0);
      var prev := MergeEntities(d, items', f);
      PutFacts(prev, x.0, f(Get(prev, x.0), x.1));
      GetAt(items, n);
      if u != x.0 {
        GetDropLast(items, u);
      } else {
        assert x.0 !in Keys(items');
      }
    }
  }

  /** Under either merge, a key's mentions are the sum of its mentions on
      both sides. */
  lemma {:induction false} MergeMentions(d: seq<(string, Entity)>, items: seq<(string, Entity)>, u: string)
    requires KeysDistinct(d) && KeysDistinct(items)
    ensures MentionsOf(MergeEntities(d, items, Combine), u) == MentionsOf(d, u) + MentionsOf(items, u)
    ensures MentionsOf(MergeEntities(d, items, AddMentions), u) == MentionsOf(d, u) + MentionsOf(items, u)
  {
    MergeEntitiesFacts(d, items, Combine, u);
    MergeEntitiesFacts(d, items, AddMentions, u);
  }

  /** `d[k] = v` for every `k` of `ks`, in order. */
  function PutAll(d: seq<(Id, real)>, ks: seq<Id>, v: real): seq<(Id, real)>
    decreases |ks|
  {
    if |ks| == 0 then d else Put(PutAll(d, ks[..|ks| - 1], v), ks[|ks| - 1], v)
  }

  lemma {:induction false} PutAllFacts(d: seq<(Id, real)>, ks: seq<Id>, v: real, u: Id)
    requires KeysDistinct(d)
    ensures KeysDistinct(PutAll(d, ks, v))
    ensures |PutAll(d, ks, v)| <= |d| + |ks|
    ensures Get(PutAll(d, ks, v), u) == if u in ks then Some(v) else Get(d, u)
    decreases |ks|
  {
    if |ks| > 0 {
      var n := |ks| - 1;
      PutAllFacts(d, ks[..n], v, u);
      PutFacts(PutAll(d, ks[..n], v), ks[n], v);
      assert ks == ks[..n] + [ks[n]];
    }
  }

  function EventIds(events: seq<Event>): (ids: seq<Id>)
    ensures |ids| == |events|
    ensures forall i :: 0 <= i < |events| ==> ids[i] == events[i].docId
  {
    seq(|events|, i requires 0 <= i < |events| => events[i].docId)
  }

  /** The attention scores for the next chunk: 0.8 for each of the chunk's
      last ten documents, then 1.0 for each retained critical event. */
  function SeedAttention(docIds: seq<Id>, events: seq<Event>): seq<(Id, real)>
  {
    PutAll(PutAll([], SuffixAsWritten(docIds, 10), 0.8), EventIds(events), 1.0)
  }

  /** Every event's document scores 1.0, every other of the last ten
      documents 0.8, and nothing else has a score. */
  lemma {:induction false} SeedAttentionFacts(docIds: seq<Id>, events: seq<Event>, u: Id)
    ensures KeysDistinct(SeedAttention(docIds, events))
    ensures |SeedAttention(docIds, events)| <= 10 + |events|
    ensures Get(SeedAttention(docIds, events), u) ==
      if u in EventIds(events) then Some(1.0)
      else if u in SuffixAsWritten(docIds, 10) then Some(0.8)
      else None
  {
    var last := SuffixAsWritten(docIds, 10);
    PutAllFacts([], last, 0.8, u);
    PutAllFacts(PutAll([], last, 0.8), EventIds(events), 1.0, u);
  }

  /** `_extract_carryover`, with the chain trim as evidently intended: the
      most recent `maxChains` triples and none when `maxChains <= 0`. */
  function ExtractCarryover(lim: Limits, chunk: ChunkResult, prev: Carryover): Carryover
  {
    var events := TopEvents(prev.criticalEvents + chunk.criticalEvents, lim.maxEvents);
    Carryover(
      events,
      TopEntities(MergeEntities(prev.keyEntities, chunk.keyEntities, Combine), lim.maxEntities),
      KeepLast(prev.causalChains + chunk.causalRelationships, lim.maxChains),
      SeedAttention(chunk.docIds, events),
      prev.openQuestions,
      prev.chunkIndex + 1,
      (prev.timeRange.0, Some(chunk.endTime)),
      prev.documentCount + |chunk.documents|)
  }

  /** The chain trim as written, `chains[-n:]`: for `n == 0` it keeps every
      triple. */
  function TrimChainsAsWritten(chains: seq<Chain>, n: int): seq<Chain>
  {
    SuffixAsWritten(chains, n)
  }

  /** With a limit of zero the trim as written keeps a chain it should
      drop. */
  lemma ZeroLimitKeepsChains()
    ensures TrimChainsAsWritten([("a", "b", "sequential")], 0) == [("a", "b", "sequential")]
    ensures KeepLast([("a", "b", "sequential")], 0) == []
  {
  }

  /** The retained events are the `maxEvents` most important of the
      previous and the chunk's events, in non-increasing importance; the
      chains are the most recent `maxChains`. */
  lemma {:induction false} CarryoverEventsAndChains(lim: Limits, chunk: ChunkResult, prev: Carryover)
    ensures var c := ExtractCarryover(lim, chunk, prev);
      var all := prev.criticalEvents + chunk.criticalEvents;
      && |c.criticalEvents| == PrefixLen(|all|, lim.maxEvents)
      && SortedDesc(c.criticalEvents, EventImportance)
      && multiset(c.criticalEvents) <= multiset(all)
      && (forall x, y :: x in c.criticalEvents && y in multiset(all) - multiset(c.criticalEvents) ==>
            x.importance >= y.importance)
      && c.causalChains == KeepLast(prev.causalChains + chunk.causalRelationships, lim.maxChains)
  {
    var all := prev.criticalEvents + chunk.criticalEvents;
    var c := ExtractCarryover(lim, chunk, prev);
    TopRanked(all, EventImportance, lim.maxEvents);
    assert c.criticalEvents == Prefix(SortDesc(all, EventImportance), lim.maxEvents);
    forall x, y | x in c.criticalEvents && y in multiset(all) - multiset(c.criticalEvents)
      ensures x.importance >= y.importance
    {
      assert EventImportance(x) >= EventImportance(y);
    }
  }

  /** The retained entities: at most `maxEntities` (slice semantics) of the
      merged records, taken from the merge unchanged, keys distinct, in
      non-increasing mentions, none dropped having more mentions than one
      kept. */
  lemma {:induction false} CarryoverEntities(lim: Limits, chunk: ChunkResult, prev: Carryover)
    requires KeysDistinct(prev.keyEntities) && KeysDistinct(chunk.keyEntities)
    ensures var c := ExtractCarryover(lim, chunk, prev);
      var merged := MergeEntities(prev.keyEntities, chunk.keyEntities, Combine);
      && KeysDistinct(c.keyEntities)
      && |c.keyEntities| == PrefixLen(|merged|, lim.maxEntities)
      && multiset(c.keyEntities) <= multiset(merged)
      && SortedDesc(c.keyEntities, EntityMentions)
      && (forall x, y :: x in c.keyEntities && y in multiset(merged) - multiset(c.keyEntities) ==>
            EntityMentions(x) >= EntityMentions(y))
  {
    var merged := MergeEntities(prev.keyEntities, chunk.keyEntities, Combine);
    assert ExtractCarryover(lim, chunk, prev).keyEntities == TopEntities(merged, lim.maxEntities);
    MergeEntitiesFacts(prev.keyEntities, chunk.keyEntities, Combine, "");
    TopRanked(merged, EntityMentions, lim.maxEntities);
    KeysDistinctTop(merged, EntityMentions, lim.maxEntities);
  }

  /** The bookkeeping fields: open questions pass through, the chunk index
      and document count advance, the time range runs from the previous
      start to the chunk's end; the attention scores are those seeded from
      the chunk's last ten documents and the retained events. */
  lemma {:induction false} CarryoverBookkeeping(lim: Limits, chunk: ChunkResult, prev: Carryover, u: Id)
    ensures var c := ExtractCarryover(lim, chunk, prev);
      && c.openQuestions == prev.openQuestions
      && c.chunkIndex == prev.chunkIndex + 1
      && c.documentCount == prev.documentCount + |chunk.documents|
      && c.timeRange == (prev.timeRange.0, Some(chunk.endTime))
      && KeysDistinct(c.attentionScores)
      && Get(c.attentionScores, u) ==
           if u in EventIds(c.criticalEvents) then Some(1.0)
           else if u in SuffixAsWritten(chunk.docIds, 10) then Some(0.8)
           else None
  {
    var c := ExtractCarryover(lim, chunk, prev);
    SeedAttentionFacts(chunk.docIds, c.criticalEvents, u);
  }

  /** The size of an extracted carryover is bounded by the limits, whatever
      the length of the chain analysed: at most `maxEvents` events and
      entities and chains within their limits, and at most ten plus
      `maxEvents` attention scores, beside the open questions passed on. */
  lemma {:induction false} CarryoverSizeBound(lim: Limits, chunk: ChunkResult, prev: Carryover)
    requires lim.maxEvents >= 0 && lim.maxChains >= 0 && lim.maxEntities >= 0
    requires KeysDistinct(prev.keyEntities) && KeysDistinct(chunk.keyEntities)
    ensures CarryoverOk(ExtractCarryover(lim, chunk, prev))
    ensures GetSize(ExtractCarryover(lim, chunk, prev)) <=
      lim.maxEvents + lim.maxEntities + lim.maxChains + (10 + lim.maxEvents) + |prev.openQuestions|
  {
    var c := ExtractCarryover(lim, chunk, prev);
    CarryoverEventsAndChains(lim, chunk, prev);
    CarryoverEntities(lim, chunk, prev);
    SeedAttentionFacts(chunk.docIds, c.criticalEvents, "");
  }

  /** With the default limits and no open questions, a carryover holds
      fewer than 100 entries. */
  lemma {:induction false} DefaultSizeBelow100(chunk: ChunkResult, prev: Carryover)
    requires KeysDistinct(prev.keyEntities) && KeysDistinct(chunk.keyEntities)
    requires prev.openQuestions == []
    ensures GetSize(ExtractCarryover(DefaultLimits, chunk, prev)) <= 65 < 100
  {
    CarryoverSizeBound(DefaultLimits, chunk, prev);
  }

  /** `is_empty`: the carryover holds no entry at all. */
  predicate IsEmpty(c: Carryover)
  {
    GetSize(c) == 0
  }

  lemma {:induction false} IsEmptyIff(c: Carryover)
    ensures IsEmpty(c) <==>
      c.criticalEvents == [] && c.keyEntities == [] && c.causalChains == [] &&
      c.attentionScores == [] && c.openQuestions == []
  {
  }

  // ---------------------------------------------------------------------
  // Documents of a chunk
  // ---------------------------------------------------------------------

  /** `[doc.id for doc in docs]`. */
  function DocIds(docs: seq<Node>): (ids: seq<Id>)
    ensures |ids| == |docs|
    ensures forall i :: 0 <= i < |docs| ==> ids[i] == docs[i].id
  {
    seq(|docs|, i requires 0 <= i < |docs| => docs[i].id)
  }

  /** The documents of a chunk: stored nodes, each once, with timestamps
      in `[lo, hi]`. */
  ghost predicate InWindow(ns: map<Id, Node>, lo: int, hi: int, docs: seq<Node>)
  {
    && Distinct(DocIds(docs))
    && forall i :: 0 <= i < |docs| ==>
         docs[i].id in ns && ns[docs[i].id] == docs[i] && lo <= docs[i].timestamp <= hi
  }

  /** Appending each id of `ids` not yet present, in order. */
  function AddMissing(pts: seq<Id>, ids: seq<Id>): seq<Id>
    decreases |ids|
  {
    if |ids| == 0 then pts
    else
      var p := AddMissing(pts, ids[..|ids| - 1]);
      if ids[|ids| - 1] in p then p else p + [ids[|ids| - 1]]
  }

  /** The result holds exactly the ids of both, the original ones first,
      with no repetition added. */
  lemma {:induction false} AddMissingFacts(pts: seq<Id>, ids: seq<Id>)
    ensures forall x :: x in AddMissing(pts, ids) <==> x in pts || x in ids
    ensures Distinct(pts) ==> Distinct(AddMissing(pts, ids))
    ensures |pts| <= |AddMissing(pts, ids)| <= |pts| + |ids|
    ensures AddMissing(pts, ids)[..|pts|] == pts
    decreases |ids|
  {
    if |ids| > 0 {
      var n := |ids| - 1;
      AddMissingFacts(pts, ids[..n]);
      assert ids == ids[..n] + [ids[n]];
      var p := AddMissing(pts, ids[..n]);
      if ids[n] !in p {
        assert (p + [ids[n]])[..|pts|] == p[..|pts|];
      }
    }
  }

  /** Whether a starting document was passed: Python treats `None` and the
      empty string alike. */
  predicate Given(doc: Option<Id>)
  {
    doc.Some? && doc.value != ""
  }

  /** The BFS start points of `_get_docs_in_window`: the starting document
      when given, otherwise the first ten ids with attention followed by
      the new ids among the first five carried events. */
  function StartPoints(startingDoc: Option<Id>, prev: Carryover): seq<Id>
  {
    if Given(startingDoc) then [startingDoc.value]
    else AddMissing(Prefix(Keys(prev.attentionScores), 10), EventIds(Prefix(prev.criticalEvents, 5)))
  }

  /** At most fifteen distinct start points: the starting document alone,
      or exactly the ids named by the first ten attention entries and the
      first five events. */
  lemma {:induction false} StartPointsFacts(startingDoc: Option<Id>, prev: Carryover)
    requires KeysDistinct(prev.attentionScores)
    ensures Distinct(StartPoints(startingDoc, prev))
    ensures |StartPoints(startingDoc, prev)| <= 15
    ensures Given(startingDoc) ==> StartPoints(startingDoc, prev) == [startingDoc.value]
    ensures !Given(startingDoc) ==> forall x :: x in StartPoints(startingDoc, prev) <==>
      x in Prefix(Keys(prev.attentionScores), 10) || x in EventIds(Prefix(prev.criticalEvents, 5))
  {
    var base := Prefix(Keys(prev.attentionScores), 10);
    var ks := Keys(prev.attentionScores);
    assert Distinct(base) by {
      forall i, j | 0 <= i < j < |base|
        ensures base[i] != base[j]
      {
        assert base[i] == ks[i] && base[j] == ks[j];
      }
    }
    AddMissingFacts(base, EventIds(Prefix(prev.criticalEvents, 5)));
  }

  // ---------------------------------------------------------------------
  // The chunk loop of analyze_long_chain
  // ---------------------------------------------------------------------

  function Min(a: int, b: int): int
  {
    if a <= b then a else b
  }

  /** The number of chunks of `step` seconds `[cur, end)` is cut into. */
  function ChunkCount(cur: int, end: int, step: int): nat
    requires step > 0 || cur >= end
    decreases end - cur
  {
    if cur >= end then 0 else 1 + ChunkCount(cur + step, end, step)
  }

  /** The count is the ceiling of the span over the step: `n` chunks cover
      the span and `n - 1` do not. */
  lemma {:induction false} ChunkCountCeil(cur: int, end: int, step: int)
    requires step > 0
    ensures var n := ChunkCount(cur, end, step);
      cur + n * step >= end && (n > 0 ==> cur + (n - 1) * step < end)
    decreases end - cur
  {
    if cur < end {
      var n' := ChunkCount(cur + step, end, step);
      ChunkCountCeil(cur + step, end, step);
      assert cur + (n' + 1) * step == cur + step + n' * step;
      assert n' > 0 ==> cur + n' * step == cur + step + (n' - 1) * step;
    }
  }

  /** One chunk fewer remains after a step of the loop. */
  lemma {:induction false} ChunkCountStep(cur: int, end: int, step: int)
    requires step > 0 && cur < end
    ensures ChunkCount(cur, end, step) == 1 + ChunkCount(Min(cur + step, end), end, step)
  {
    assert ChunkCount(cur, end, step) == 1 + ChunkCount(cur + step, end, step);
    if cur + step >= end {
      assert ChunkCount(end, end, step) == 0;
    }
  }

  /** The chunks tile `[start, end)`: the first starts at `start`, each
      starts where the previous ends, before `end`, and lasts `step`
      seconds or up to `end`. */
  ghost predicate Tiled(chunks: seq<ChunkResult>, start: int, end: int, step: int)
  {
    && (|chunks| > 0 ==> chunks[0].startTime == start)
    && (forall k :: 0 <= k < |chunks| ==>
          chunks[k].startTime < end && chunks[k].endTime == Min(chunks[k].startTime + step, end))
    && (forall k :: 0 < k < |chunks| ==> chunks[k].startTime == chunks[k - 1].endTime)
  }

  /** The chunk `k` of a tiling starts `k` steps after `start`. */
  lemma {:induction false} TiledStarts(chunks: seq<ChunkResult>, start: int, end: int, step: int, k: nat)
    requires Tiled(chunks, start, end, step) && k < |chunks|
    ensures chunks[k].startTime == start + k * step
  {
    if k > 0 {
      TiledStarts(chunks, start, end, step, k - 1);
      assert start + (k - 1) * step + step == start + k * step;
    }
  }

  /** The chunks so far of the loop, up to `current`: they tile
      `[start, current)` and as many chunks remain as the span still needs. */
  ghost predicate Cut(start: int, end: int, step: int, current: int, chunks: seq<ChunkResult>)
    requires step > 0 || start >= end
  {
    && Tiled(chunks, start, end, step)
    && current == (if |chunks| == 0 then start else chunks[|chunks| - 1].endTime)
    && (step > 0 || current >= end)
    && |chunks| + ChunkCount(current, end, step) == ChunkCount(start, end, step)
  }

  /** Adding the next chunk of the loop keeps the cut. */
  lemma {:induction false} CutStep(start: int, end: int, step: int, current: int, chunks: seq<ChunkResult>, c: ChunkResult)
    requires step > 0 && current < end
    requires Cut(start, end, step, current, chunks)
    requires c.startTime == current && c.endTime == Min(current + step, end)
    ensures Cut(start, end, step, c.endTime, chunks + [c])
  {
    ChunkCountStep(current, end, step);
  }

  /** The carryover before the first chunk. */
  function Initial(start: int): Carryover
  {
    Carryover([], [], [], [], [], 0, (Some(start), None), 0)
  }

  /** The state update after each chunk: extract the carryover, bump the
      chunk index once more, and set the document count to the running
      total. */
  function NextState(lim: Limits, chunk: ChunkResult, s: Carryover, total: int): Carryover
  {
    var e := ExtractCarryover(lim, chunk, s);
    e.(chunkIndex := e.chunkIndex + 1, documentCount := total)
  }

  /** One chunk step keeps the carryover within its fixed bound and
      advances the chunk index by two. */
  lemma {:induction false} NextStateBound(lim: Limits, chunk: ChunkResult, s: Carryover, total: int)
    requires lim.maxEvents >= 0 && lim.maxChains >= 0 && lim.maxEntities >= 0
    requires KeysDistinct(s.keyEntities) && KeysDistinct(chunk.keyEntities)
    ensures var s' := NextState(lim, chunk, s, total);
      && CarryoverOk(s') && s'.openQuestions == s.openQuestions
      && s'.chunkIndex == s.chunkIndex + 2
      && GetSize(s') <= lim.maxEvents + lim.maxEntities + lim.maxChains + (10 + lim.maxEvents) + |s.openQuestions|
  {
    CarryoverSizeBound(lim, chunk, s);
  }

  /** The carryover after processing `chunks` from `start`: the state is a
      function of the chunks alone, updated once per chunk. */
  function CarryoverAfter(lim: Limits, start: int, chunks: seq<ChunkResult>): Carryover
    decreases |chunks|
  {
    if |chunks| == 0 then Initial(start)
    else
      var n := |chunks| - 1;
      NextState(lim, chunks[n], CarryoverAfter(lim, start, chunks[..n]), TotalDocs(chunks))
  }

  /** `priors[k]` is the carryover each chunk `k` was processed from, and
      `state` the carryover after all of them. */
  ghost predicate Carried(lim: Limits, start: int, chunks: seq<ChunkResult>, priors: seq<Carryover>, state: Carryover)
  {
    && |priors| == |chunks|
    && (forall k {:trigger priors[k]} :: 0 <= k < |chunks| ==> priors[k] == CarryoverAfter(lim, start, chunks[..k]))
    && state == CarryoverAfter(lim, start, chunks)
  }

  /** The carryover after one more chunk is one state update of the
      carryover before it. */
  lemma {:induction false} CarryoverAfterSnoc(lim: Limits, start: int, chunks: seq<ChunkResult>, ch: seq<ChunkResult>,
                                              c: ChunkResult)
    requires |ch| > 0 && ch[..|ch| - 1] == chunks && ch[|ch| - 1] == c
    ensures CarryoverAfter(lim, start, ch) == NextState(lim, c, CarryoverAfter(lim, start, chunks), TotalDocs(ch))
  {
  }

  /** The running total after one more chunk. */
  lemma {:induction false} TotalDocsSnoc(chunks: seq<ChunkResult>, c: ChunkResult)
    ensures TotalDocs(chunks + [c]) == TotalDocs(chunks) + |c.documents|
  {
    PrefixOfAppend(chunks, c, |chunks|);
    assert (chunks + [c])[..|chunks|] == chunks;
  }

  /** The carryovers before each chunk are unchanged by appending a chunk. */
  lemma {:induction false} PriorsStep(lim: Limits, start: int, chunks: seq<ChunkResult>, ch: seq<ChunkResult>,
                                      priors: seq<Carryover>)
    requires |ch| == |chunks| + 1 && ch[..|chunks|] == chunks
    requires |priors| == |chunks|
    requires forall k {:trigger priors[k]} :: 0 <= k < |chunks| ==> priors[k] == CarryoverAfter(lim, start, chunks[..k])
    ensures forall k {:trigger (priors + [CarryoverAfter(lim, start, chunks)])[k]} :: 0 <= k < |ch| ==>
      (priors + [CarryoverAfter(lim, start, chunks)])[k] == CarryoverAfter(lim, start, ch[..k])
  {
    var state := CarryoverAfter(lim, start, chunks);
    forall k | 0 <= k < |ch|
      ensures (priors + [state])[k] == CarryoverAfter(lim, start, ch[..k])
    {
      assert ch[..k] == chunks[..k];
      if k < |chunks| {
        assert (priors + [state])[k] == priors[k];
      }
    }
  }

  /** Processing one more chunk `c` from `state` extends the record to
      `ch`, the chunks followed by `c`, with `total` documents in all. */
  lemma {:induction false} CarriedStep(lim: Limits, start: int, chunks: seq<ChunkResult>, ch: seq<ChunkResult>,
                                       priors: seq<Carryover>, state: Carryover, c: ChunkResult, total: int)
    requires |ch| == |chunks| + 1 && ch[..|chunks|] == chunks && ch[|chunks|] == c
    requires total == TotalDocs(ch)
    requires Carried(lim, start, chunks, priors, state)
    ensures Carried(lim, start, ch, priors + [state], NextState(lim, c, state, total))
  {
    CarryoverAfterSnoc(lim, start, chunks, ch, c);
    PriorsStep(lim, start, chunks, ch, priors);
  }

  /** One state update after `chunks` extends the record by `c`, with the
      chunk index at twice the number of chunks and the running total
      recorded. */
  lemma {:induction false} CarriedAppend(lim: Limits, start: int, chunks: seq<ChunkResult>, priors: seq<Carryover>,
                                         state: Carryover, c: ChunkResult, total: int)
    requires Carried(lim, start, chunks, priors, state)
    requires total == TotalDocs(chunks) + |c.documents|
    ensures Carried(lim, start, chunks + [c], priors + [state], NextState(lim, c, state, total))
    ensures NextState(lim, c, state, total).chunkIndex == 2 * |chunks + [c]|
    ensures total == TotalDocs(chunks + [c])
  {
    var ch := chunks + [c];
    PrefixOfAppend(chunks, c, |chunks|);
    TotalDocsSnoc(chunks, c);
    assert total == TotalDocs(ch);
    CarriedStep(lim, start, chunks, ch, priors, state, c, total);
    CarryoverAfterCounts(lim, start, ch);
  }

  /** The state update is the extracted carryover with its chunk index
      bumped and the running total recorded. */
  lemma {:induction false} NextStateUpdate(lim: Limits, c: ChunkResult, s: Carryover, total: int, e: Carryover)
    requires e == ExtractCarryover(lim, c, s)
    ensures e.(chunkIndex := e.chunkIndex + 1, documentCount := total) == NextState(lim, c, s, total)
  {
  }

  /** The bookkeeping fields of one state update. */
  lemma {:induction false} NextStateFields(lim: Limits, chunk: ChunkResult, s: Carryover, total: int)
    ensures var s' := NextState(lim, chunk, s, total);
      && s'.chunkIndex == s.chunkIndex + 2
      && s'.documentCount == total
      && s'.openQuestions == s.openQuestions
      && s'.timeRange == (s.timeRange.0, Some(chunk.endTime))
  {
  }

  /** After `n` chunks the chunk index is `2 n`, the document count is the
      running total and the open questions are still none. */
  lemma {:induction false} CarryoverAfterCounts(lim: Limits, start: int, chunks: seq<ChunkResult>)
    ensures CarryoverAfter(lim, start, chunks).chunkIndex == 2 * |chunks|
    ensures CarryoverAfter(lim, start, chunks).documentCount == TotalDocs(chunks)
    ensures CarryoverAfter(lim, start, chunks).openQuestions == []
    decreases |chunks|
  {
    if |chunks| > 0 {
      var n := |chunks| - 1;
      CarryoverAfterCounts(lim, start, chunks[..n]);
      NextStateFields(lim, chunks[n], CarryoverAfter(lim, start, chunks[..n]), TotalDocs(chunks));
    }
  }

  /** After the chunks the time range runs from `start` to the end of the
      last chunk. */
  lemma {:induction false} CarryoverAfterRange(lim: Limits, start: int, chunks: seq<ChunkResult>)
    ensures CarryoverAfter(lim, start, chunks).timeRange ==
      (Some(start), if |chunks| == 0 then None else Some(chunks[|chunks| - 1].endTime))
    decreases |chunks|
  {
    if |chunks| > 0 {
      var n := |chunks| - 1;
      CarryoverAfterRange(lim, start, chunks[..n]);
      NextStateFields(lim, chunks[n], CarryoverAfter(lim, start, chunks[..n]), TotalDocs(chunks));
    }
  }

  /** The carryover stays within a bound set by the limits alone, however
      many chunks the chain is cut into: the Markovian property of the
      analysis. */
  lemma {:induction false} CarryoverAfterBound(lim: Limits, start: int, chunks: seq<ChunkResult>)
    requires lim.maxEvents >= 0 && lim.maxChains >= 0 && lim.maxEntities >= 0
    requires forall k :: 0 <= k < |chunks| ==> KeysDistinct(chunks[k].keyEntities)
    ensures CarryoverOk(CarryoverAfter(lim, start, chunks))
    ensures GetSize(CarryoverAfter(lim, start, chunks)) <= 2 * lim.maxEvents + lim.maxEntities + lim.maxChains + 10
    decreases |chunks|
  {
    if |chunks| > 0 {
      var n := |chunks| - 1;
      var prior := CarryoverAfter(lim, start, chunks[..n]);
      CarryoverAfterBound(lim, start, chunks[..n]);
      CarryoverAfterCounts(lim, start, chunks[..n]);
      NextStateBound(lim, chunks[n], prior, TotalDocs(chunks));
    }
  }

  function TotalDocs(chunks: seq<ChunkResult>): int
    decreases |chunks|
  {
    if |chunks| == 0 then 0 else TotalDocs(chunks[..|chunks| - 1]) + |chunks[|chunks| - 1].documents|
  }

  function AllEvents(chunks: seq<ChunkResult>): seq<Event>
    decreases |chunks|
  {
    if |chunks| == 0 then [] else AllEvents(chunks[..|chunks| - 1]) + chunks[|chunks| - 1].criticalEvents
  }

  function AllChains(chunks: seq<ChunkResult>): seq<Chain>
    decreases |chunks|
  {
    if |chunks| == 0 then [] else AllChains(chunks[..|chunks| - 1]) + chunks[|chunks| - 1].causalRelationships
  }

  /** The final entity aggregation: chunk by chunk, adding mentions. */
  function AggregateEntities(chunks: seq<ChunkResult>): seq<(string, Entity)>
    decreases |chunks|
  {
    if |chunks| == 0 then []
    else MergeEntities(AggregateEntities(chunks[..|chunks| - 1]), chunks[|chunks| - 1].keyEntities, AddMentions)
  }

  /** The mentions of `u` summed over the chunks. */
  function TotalMentions(chunks: seq<ChunkResult>, u: string): int
    decreases |chunks|
  {
    if |chunks| == 0 then 0
    else TotalMentions(chunks[..|chunks| - 1], u) + MentionsOf(chunks[|chunks| - 1].keyEntities, u)
  }

  /** The aggregate is a dict holding, for every entity, its mentions
      summed over all chunks, and it names exactly the entities of some
      chunk. */
  lemma {:induction false} AggregateFacts(chunks: seq<ChunkResult>, u: string)
    requires forall k :: 0 <= k < |chunks| ==> KeysDistinct(chunks[k].keyEntities)
    ensures KeysDistinct(AggregateEntities(chunks))
    ensures MentionsOf(AggregateEntities(chunks), u) == TotalMentions(chunks, u)
    ensures u in Keys(AggregateEntities(chunks)) <==> exists k :: 0 <= k < |chunks| && u in Keys(chunks[k].keyEntities)
    decreases |chunks|
  {
    if |chunks| > 0 {
      var n := |chunks| - 1;
      var prev := chunks[..n];
      assert forall k :: 0 <= k < n ==> prev[k] == chunks[k];
      AggregateFacts(prev, u);
      MergeMentions(AggregateEntities(prev), chunks[n].keyEntities, u);
      MergeEntitiesFacts(AggregateEntities(prev), chunks[n].keyEntities, AddMentions, u);
      if u in Keys(AggregateEntities(prev)) {
        var k :| 0 <= k < n && u in Keys(prev[k].keyEntities);
        assert u in Keys(chunks[k].keyEntities);
      }
    }
  }

  /** A chunk's entry in `get_temporal_summary`; the period string is kept
      as its two timestamps. */
  datatype ChunkSummary = ChunkSummary(startTime: int, endTime: int, numDocs: int, criticalEvents: int,
                                       keyEvents: seq<string>, causalChains: int)

  function SummaryOf(c: ChunkResult): (s: ChunkSummary)
    ensures |s.keyEvents| == PrefixLen(|c.criticalEvents|, 3)
    ensures forall i :: 0 <= i < |s.keyEvents| ==> s.keyEvents[i] == c.criticalEvents[i].summary
  {
    var first := Prefix(c.criticalEvents, 3);
    ChunkSummary(c.startTime, c.endTime, |c.documents|, |c.criticalEvents|,
                 seq(|first|, i requires 0 <= i < |first| => first[i].summary), |c.causalRelationships|)
  }

  /** The chunk loop of `get_temporal_summary` splits the span into chunks
      of `max(1, total_days // num_chunks)` days. */
  function SummaryChunkDays(start: int, end: int, numChunks: int): (d: int)
    requires numChunks != 0
    ensures d >= 1
  {
    var totalDays := FloorDiv(end - start, SecondsPerDay);
    var q := FloorDiv(totalDays, numChunks);
    if q > 1 then q else 1
  }
}
