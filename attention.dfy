/**
 * Bidirectional attention over the temporal graph: attention heads with an
 * exponential temporal decay, per-head weights built from TF-IDF
 * similarity, decay and keyword boost, their aggregation over the heads
 * that apply to a direction, the top-N ranking, and the result cache.
 *
 * The wall clock is a parameter `now` (whole seconds).
 */
module Attention {
  import opened Wrappers
  import opened PyStd
  import opened Assoc
  import opened TemporalTypes
  import opened Semantic
  import opened Graph

  datatype AttentionType = Forward | Backward | Bidirectional | TemporalFocus | SemanticFocus

  datatype AttentionHead = AttentionHead(
    headId: string,
    attentionType: AttentionType,
    focusKeywords: seq<string>,
    temporalWindowDays: int,
    decayFactor: real)

  /** The four heads every attention system starts with. */
  const DefaultHeads: seq<AttentionHead> := [
    AttentionHead("short_forward", Forward, [], 7, 0.8),
    AttentionHead("long_backward", Backward, [], 90, 0.98),
    AttentionHead("semantic_focus", SemanticFocus,
                  ["important", "key", "critical", "main", "significant"], 30, 0.95),
    AttentionHead("temporal_focus", TemporalFocus, [], 14, 0.9)
  ]

  // ---------------------------------------------------------------------
  // Temporal decay
  // ---------------------------------------------------------------------

  /** `x ** n` for a whole exponent. */
  function Pow(x: real, n: nat): real
  {
    if n == 0 then 1.0 else x * Pow(x, n - 1)
  }

  lemma {:induction false} PowBounds(x: real, n: nat)
    requires 0.0 <= x <= 1.0
    ensures 0.0 <= Pow(x, n) <= 1.0
    decreases n
  {
    if n > 0 {
      PowBounds(x, n - 1);
      ScaleDown(x, Pow(x, n - 1));
    }
  }

  /** A factor in `[0, 1]` keeps a non-negative number non-negative and no
      larger. */
  lemma {:induction false} ScaleDown(x: real, p: real)
    requires 0.0 <= x <= 1.0 && 0.0 <= p
    ensures 0.0 <= x * p <= p
  {
  }

  /** A factor in `[0, 1]` shrinks its powers as the exponent grows. */
  lemma {:induction false} PowAntitone(x: real, m: nat, n: nat)
    requires 0.0 <= x <= 1.0 && m <= n
    ensures Pow(x, n) <= Pow(x, m)
    decreases n - m
  {
    if m < n {
      PowAntitone(x, m, n - 1);
      PowBounds(x, n - 1);
      ScaleDown(x, Pow(x, n - 1));
    }
  }

  /** `compute_temporal_decay`: 1 for no distance, otherwise the decay
      factor raised to the distance in days, but never below 0.01. */
  function ComputeTemporalDecay(h: AttentionHead, days: int): (r: real)
    ensures days <= 0 ==> r == 1.0
    ensures days > 0 ==> r >= 0.01 && r >= Pow(h.decayFactor, days)
    ensures days > 0 && Pow(h.decayFactor, days) > 0.01 ==> r == Pow(h.decayFactor, days)
  {
    if days <= 0 then 1.0
    else
      var d := Pow(h.decayFactor, days);
      if 0.01 >= d then 0.01 else d
  }

  /** With a decay factor in `[0, 1]`, the decay lies in `[0.01, 1]`. */
  lemma {:induction false} DecayBounds(h: AttentionHead, days: int)
    requires 0.0 <= h.decayFactor <= 1.0
    ensures 0.01 <= ComputeTemporalDecay(h, days) <= 1.0
  {
    if days > 0 {
      PowBounds(h.decayFactor, days);
    }
  }

  /** With a decay factor in `[0, 1]`, farther nodes never weigh more. */
  lemma {:induction false} DecayNonIncreasing(h: AttentionHead, d1: int, d2: int)
    requires 0.0 <= h.decayFactor <= 1.0 && d1 <= d2
    ensures ComputeTemporalDecay(h, d2) <= ComputeTemporalDecay(h, d1)
  {
    DecayBounds(h, d2);
    if d1 > 0 {
      PowAntitone(h.decayFactor, d1, d2);
    }
  }

  // ---------------------------------------------------------------------
  // The factors of a head weight
  // ---------------------------------------------------------------------

  /** `max(h.temporal_window_days for h in heads)`. */
  function MaxWindow(heads: seq<AttentionHead>): (r: int)
    requires |heads| > 0
    ensures exists i :: 0 <= i < |heads| && heads[i].temporalWindowDays == r
    ensures forall i :: 0 <= i < |heads| ==> heads[i].temporalWindowDays <= r
  {
    if |heads| == 1 then heads[0].temporalWindowDays
    else
      var m := MaxWindow(heads[1..]);
      assert forall i :: 1 <= i < |heads| ==> heads[i] == heads[1..][i - 1];
      if heads[0].temporalWindowDays >= m then heads[0].temporalWindowDays else m
  }

  /** The default heads look 90 days ahead and back. */
  lemma {:induction false} DefaultWindow()
    ensures MaxWindow(DefaultHeads) == 90
  {
    assert DefaultHeads[1].temporalWindowDays == 90;
  }

  /** The heads a direction consults: FORWARD, BIDIRECTIONAL and
      TEMPORAL_FOCUS going forward; BACKWARD, BIDIRECTIONAL and
      SEMANTIC_FOCUS going backward. */
  predicate Applies(t: AttentionType, forward: bool)
  {
    if forward then t == Forward || t == Bidirectional || t == TemporalFocus
    else t == Backward || t == Bidirectional || t == SemanticFocus
  }

  /** Python's `kw in text` on strings. */
  predicate Contains(text: string, kw: string)
  {
    exists i :: 0 <= i <= |text| && kw <= text[i..]
  }

  /** `sum(1 for kw in keywords if kw in text)`. */
  function KeywordMatches(keywords: seq<string>, text: string): (n: nat)
    ensures n <= |keywords|
    ensures n == |keywords| <==> forall i :: 0 <= i < |keywords| ==> Contains(text, keywords[i])
    ensures n == 0 <==> forall i :: 0 <= i < |keywords| ==> !Contains(text, keywords[i])
  {
    if |keywords| == 0 then 0
    else
      assert forall i :: 1 <= i < |keywords| ==> keywords[i] == keywords[1..][i - 1];
      (if Contains(text, keywords[0]) then 1 else 0) + KeywordMatches(keywords[1..], text)
  }

  /** The keyword boost: `1 + 0.2 * matches` for a semantic-focus head with
      keywords, 1 for every other head. */
  function FocusBoost(h: AttentionHead, lowered: string): (r: real)
    ensures h.attentionType != SemanticFocus || |h.focusKeywords| == 0 ==> r == 1.0
    ensures 1.0 <= r <= 1.0 + 0.2 * |h.focusKeywords| as real
  {
    if h.attentionType == SemanticFocus && |h.focusKeywords| > 0 then
      1.0 + KeywordMatches(h.focusKeywords, lowered) as real * 0.2
    else 1.0
  }

  /** `abs((b - a).days)` for timestamps in seconds. */
  function DaysApart(a: int, b: int): nat
  {
    var d := FloorDiv(b - a, SecondsPerDay);
    if d < 0 then -d else d
  }

  /** `similarity * decay * boost`. */
  function Combine(similarity: real, decay: real, boost: real): real
  {
    similarity * decay * boost
  }

  /** `max(0.001, x)`. */
  function Floor001(x: real): (r: real)
    ensures r >= 0.001 && r >= x && (r == x || r == 0.001)
  {
    if 0.001 >= x then 0.001 else x
  }

  // ---------------------------------------------------------------------
  // Aggregation over heads
  // ---------------------------------------------------------------------

  /** `d.get(k, 0.0)`. */
  function GetOr0(d: seq<(Id, real)>, k: Id): real
  {
    match Get(d, k)
    case None => 0.0
    case Some(v) => v
  }

  /** One head's share of a weight: the weight divided by the number of
      heads. */
  function Share(w: real, n: nat): real
    requires n > 0
  {
    w / n as real
  }

  /** The inner aggregation loop: each `(id, w)` of a head's weights adds
      `w / n` to the score of `id`, a new id entering with 0 first. */
  function AddScaled(scores: seq<(Id, real)>, hw: seq<(Id, real)>, n: nat): (r: seq<(Id, real)>)
    requires n > 0
  {
    if |hw| == 0 then scores
    else
      var prev := AddScaled(scores, hw[..|hw| - 1], n);
      var k, w := hw[|hw| - 1].0, hw[|hw| - 1].1;
      Put(prev, k, GetOr0(prev, k) + Share(w, n))
  }

  /** Adding a head's weights keeps the scores a dict: no id twice. */
  lemma {:induction false} AddScaledDistinct(scores: seq<(Id, real)>, hw: seq<(Id, real)>, n: nat)
    requires n > 0 && KeysDistinct(scores)
    ensures KeysDistinct(AddScaled(scores, hw, n))
    decreases |hw|
  {
    if |hw| > 0 {
      var hw' := hw[..|hw| - 1];
      AddScaledDistinct(scores, hw', n);
      var prev := AddScaled(scores, hw', n);
      var k := hw[|hw| - 1].0;
      AddScaledLast(scores, hw, n, prev, hw[|hw| - 1]);
      PutShape(prev, k, GetOr0(prev, k) + Share(hw[|hw| - 1].1, n));
    }
  }

  /** The ids scored after adding a head's weights are those scored before
      and those the head weighs. */
  lemma {:induction false} AddScaledKeys(scores: seq<(Id, real)>, hw: seq<(Id, real)>, n: nat)
    requires n > 0
    ensures forall t :: t in Keys(AddScaled(scores, hw, n)) <==> t in Keys(scores) || t in Keys(hw)
    decreases |hw|
  {
    if |hw| > 0 {
      var hw' := hw[..|hw| - 1];
      var k, w := hw[|hw| - 1].0, hw[|hw| - 1].1;
      AddScaledKeys(scores, hw', n);
      var prev := AddScaled(scores, hw', n);
      AddScaledLast(scores, hw, n, prev, hw[|hw| - 1]);
      PutKeys(prev, k, GetOr0(prev, k) + Share(w, n));
      forall t ensures t in Keys(hw) <==> t in Keys(hw') || t == k { KeysLast(hw, t); }
    }
  }

  /** The keys after `d[k] = v` are the old keys and `k`. */
  lemma {:induction false} PutKeys(d: seq<(Id, real)>, k: Id, v: real)
    ensures forall t :: t in Keys(Put(d, k, v)) <==> t in Keys(d) || t == k
  {
    PutFacts(d, k, v);
    forall t
      ensures t in Keys(Put(d, k, v)) <==> t in Keys(d) || t == k
    {
      if t != k {
        assert Get(Put(d, k, v), t) == Get(d, t);
      }
    }
  }

  lemma {:induction false} GetOr0Snoc(d: seq<(Id, real)>, k: Id, v: real, t: Id)
    requires k !in Keys(d)
    ensures GetOr0(d + [(k, v)], t) == if t == k then v else GetOr0(d, t)
  {
    GetSnoc(d, k, v, t);
  }

  /** Looking up in a dict whose last key is new. */
  lemma {:induction false} GetOr0Last(d: seq<(Id, real)>, t: Id)
    requires |d| > 0 && d[|d| - 1].0 !in Keys(d[..|d| - 1])
    ensures GetOr0(d, t) == if t == d[|d| - 1].0 then d[|d| - 1].1 else GetOr0(d[..|d| - 1], t)
    ensures GetOr0(d[..|d| - 1], d[|d| - 1].0) == 0.0
  {
    assert d == d[..|d| - 1] + [d[|d| - 1]];
    GetOr0Snoc(d[..|d| - 1], d[|d| - 1].0, d[|d| - 1].1, t);
  }

  lemma {:induction false} GetOr0Put(d: seq<(Id, real)>, k: Id, v: real, t: Id)
    ensures GetOr0(Put(d, k, v), t) == if t == k then v else GetOr0(d, t)
  {
    PutGet(d, k, v);
  }

  /** Adding a head's weights adds, to each id's score, that id's weight
      divided by `n`. */
  lemma {:induction false} AddScaledValue(scores: seq<(Id, real)>, hw: seq<(Id, real)>, n: nat, t: Id)
    requires KeysDistinct(hw) && n > 0
    ensures GetOr0(AddScaled(scores, hw, n), t) == GetOr0(scores, t) + Share(GetOr0(hw, t), n)
    decreases |hw|
  {
    if |hw| > 0 {
      var hw' := hw[..|hw| - 1];
      var k, w := hw[|hw| - 1].0, hw[|hw| - 1].1;
      KeysDistinctPrefix(hw);
      var prev := AddScaled(scores, hw', n);
      var v := GetOr0(prev, k) + Share(w, n);
      GetOr0Put(prev, k, v, t);
      GetOr0Last(hw, t);
      if t == k {
        AddScaledValue(scores, hw', n, k);
        ZeroDiv(GetOr0(hw', k), n);
      } else {
        AddScaledValue(scores, hw', n, t);
      }
    }
  }

  /** The sort key of a score item: its value. */
  function ScoreOf(p: (Id, real)): real
  {
    p.1
  }

  /** Sorting the scores by descending value and keeping the first `n`. */
  function Rank(scores: seq<(Id, real)>, n: int): seq<(Id, real)>
  {
    Prefix(SortDesc(scores, ScoreOf), n)
  }

  /** The ranked scores: as many as the slice allows, by non-increasing
      value, no id twice, drawn from the scores, and nothing dropped
      outranks anything kept. */
  lemma {:induction false} RankFacts(scores: seq<(Id, real)>, n: int)
    requires KeysDistinct(scores)
    ensures var r := Rank(scores, n);
      && |r| == PrefixLen(|scores|, n)
      && KeysDistinct(r)
      && (forall i, j :: 0 <= i < j < |r| ==> r[i].1 >= r[j].1)
      && (forall p :: p in r ==> p in scores)
      && (forall p, q :: p in scores && p !in r && q in r ==> q.1 >= p.1)
  {
    var r := Rank(scores, n);
    var key := ScoreOf;
    DistinctItems(scores);
    RankedPrefix(scores, key, n, r);
    RankedKeysDistinct(scores, r);
    forall i, j | 0 <= i < j < |r|
      ensures r[i].1 >= r[j].1
    {
      assert key(r[i]) >= key(r[j]);
    }
    forall p, q | p in scores && p !in r && q in r
      ensures q.1 >= p.1
    {
      assert key(q) >= key(p);
    }
  }

  /** Distinct items drawn from a dict have distinct keys. */
  lemma {:induction false} RankedKeysDistinct(scores: seq<(Id, real)>, r: seq<(Id, real)>)
    requires KeysDistinct(scores) && Distinct(r) && forall p :: p in r ==> p in scores
    ensures KeysDistinct(r)
  {
    forall i, j | 0 <= i < j < |r|
      ensures r[i].0 != r[j].0
    {
      assert r[i] in r && r[j] in r;
      var a :| 0 <= a < |scores| && scores[a] == r[i];
      var b :| 0 <= b < |scores| && scores[b] == r[j];
      assert a != b;
    }
  }

  /** Items with distinct keys are distinct. */
  lemma {:induction false} DistinctItems(d: seq<(Id, real)>)
    requires KeysDistinct(d)
    ensures Distinct(d)
  {
  }

  /** `sum(d.values())`. */
  function TotalWeight(d: seq<(Id, real)>): real
  {
    if |d| == 0 then 0.0 else TotalWeight(d[..|d| - 1]) + d[|d| - 1].1
  }

  /** `max(d.items(), key=lambda x: x[1])`: the position of the first
      item of largest value. */
  function ArgMax(d: seq<(Id, real)>): (i: nat)
    requires |d| > 0
    ensures i < |d|
    ensures forall j :: 0 <= j < |d| ==> d[j].1 <= d[i].1
    ensures forall j :: 0 <= j < i ==> d[j].1 < d[i].1
  {
    if |d| == 1 then 0
    else
      var k := ArgMax(d[..|d| - 1]);
      if d[|d| - 1].1 > d[k].1 then |d| - 1 else k
  }

  /** The most attended item, if any. */
  function MostAttended(d: seq<(Id, real)>): (r: Option<(Id, real)>)
    ensures r.None? <==> |d| == 0
    ensures r.Some? ==> r.value in d && forall p :: p in d ==> p.1 <= r.value.1
  {
    if |d| == 0 then None else Some(d[ArgMax(d)])
  }

  /** What `compute_bidirectional_attention` returns. */
  datatype BidirectionalResult = BidirectionalResult(
    forward: seq<(Id, real)>,
    backward: seq<(Id, real)>,
    totalForwardWeight: real,
    totalBackwardWeight: real,
    attentionBalance: real,
    mostAttendedForward: Option<(Id, real)>,
    mostAttendedBackward: Option<(Id, real)>)

  /** `"forward_{id}_{max_nodes}"` or `"backward_{id}_{max_nodes}"`. */
  function CacheKey(forward: bool, id: Id, maxNodes: int): string
  {
    (if forward then "forward_" else "backward_") + id + "_" + IntToString(maxNodes)
  }

  /** The candidates whose weight exceeds 0.01, each with its weight, in
      candidate order (a repeated candidate keeps its first place). */
  function KeepSignificant(cands: seq<Id>, weight: map<Id, real>): seq<(Id, real)>
  {
    if |cands| == 0 then []
    else
      var prev := KeepSignificant(cands[..|cands| - 1], weight);
      var c := cands[|cands| - 1];
      if c in weight && weight[c] > 0.01 then Put(prev, c, weight[c]) else prev
  }

  /** The kept items form a dict of candidates, each with its weight, which
      exceeds 0.01; every candidate whose weight exceeds 0.01 is kept. */
  lemma {:induction false} KeepSignificantFacts(cands: seq<Id>, weight: map<Id, real>)
    ensures var r := KeepSignificant(cands, weight);
      && KeysDistinct(r)
      && (forall i :: 0 <= i < |r| ==>
            r[i].0 in cands && r[i].0 in weight && r[i].1 == weight[r[i].0] && r[i].1 > 0.01)
      && (forall c :: c in cands && c in weight && weight[c] > 0.01 ==> c in Keys(r))
  {
    KeepDistinct(cands, weight);
    KeepItems(cands, weight);
    KeepComplete(cands, weight);
  }

  lemma {:induction false} KeepDistinct(cands: seq<Id>, weight: map<Id, real>)
    ensures KeysDistinct(KeepSignificant(cands, weight))
    decreases |cands|
  {
    if |cands| > 0 {
      var prefix := cands[..|cands| - 1];
      var prev := KeepSignificant(prefix, weight);
      var c := cands[|cands| - 1];
      KeepDistinct(prefix, weight);
      KeepLast(cands, weight, prev);
      if c in weight && weight[c] > 0.01 {
        PutShape(prev, c, weight[c]);
      }
    }
  }

  lemma {:induction false} KeepItems(cands: seq<Id>, weight: map<Id, real>)
    ensures var r := KeepSignificant(cands, weight);
      forall i :: 0 <= i < |r| ==>
        r[i].0 in cands && r[i].0 in weight && r[i].1 == weight[r[i].0] && r[i].1 > 0.01
    decreases |cands|
  {
    if |cands| > 0 {
      var prefix := cands[..|cands| - 1];
      var prev := KeepSignificant(prefix, weight);
      var c := cands[|cands| - 1];
      KeepItems(prefix, weight);
      KeepLast(cands, weight, prev);
      assert forall x :: x in prefix ==> x in cands;
      if c in weight && weight[c] > 0.01 {
        KeepDistinct(prefix, weight);
        PutItems(prev, c, weight[c]);
        var r := Put(prev, c, weight[c]);
        forall i | 0 <= i < |r| && r[i] in prev
          ensures r[i].0 in cands && r[i].0 in weight && r[i].1 == weight[r[i].0] && r[i].1 > 0.01
        {
          var j :| 0 <= j < |prev| && prev[j] == r[i];
        }
      }
    }
  }

  lemma {:induction false} KeepComplete(cands: seq<Id>, weight: map<Id, real>)
    ensures forall c :: c in cands && c in weight && weight[c] > 0.01 ==> c in Keys(KeepSignificant(cands, weight))
    decreases |cands|
  {
    if |cands| > 0 {
      var prefix := cands[..|cands| - 1];
      var prev := KeepSignificant(prefix, weight);
      var c := cands[|cands| - 1];
      KeepComplete(prefix, weight);
      KeepLast(cands, weight, prev);
      assert forall x :: x in cands <==> x in prefix || x == c by {
        assert cands == prefix + [c];
      }
      if c in weight && weight[c] > 0.01 {
        PutKeys(prev, c, weight[c]);
      }
    }
  }

  lemma {:induction false} KeepLast(cands: seq<Id>, weight: map<Id, real>, prev: seq<(Id, real)>)
    requires |cands| > 0 && prev == KeepSignificant(cands[..|cands| - 1], weight)
    ensures var c := cands[|cands| - 1];
      KeepSignificant(cands, weight) ==
        if c in weight && weight[c] > 0.01 then Put(prev, c, weight[c]) else prev
  {
  }

  /** One more candidate: it is kept, with its weight, exactly when it has
      a weight above 0.01. */
  lemma {:induction false} KeepStep(cands: seq<Id>, weight: map<Id, real>, i: nat, prev: seq<(Id, real)>)
    requires i < |cands| && prev == KeepSignificant(cands[..i], weight)
    ensures var c := cands[i];
      KeepSignificant(cands[..i + 1], weight) ==
        if c in weight && weight[c] > 0.01 then Put(prev, c, weight[c]) else prev
  {
    var h := cands[..i + 1];
    assert h[..|h| - 1] == cands[..i];
    KeepLast(h, weight, prev);
  }

  /** The inner aggregation loop over one head's weights. */
  method AddHeadWeights(scores: seq<(Id, real)>, hw: seq<(Id, real)>, n: nat) returns (r: seq<(Id, real)>)
    requires n > 0
    ensures r == AddScaled(scores, hw, n)
  {
    r := scores;
    var k := 0;
    assert hw[..0] == [];
    while k < |hw|
      invariant 0 <= k <= |hw|
      invariant r == AddScaled(scores, hw[..k], n)
    {
      AddScaledStep(scores, hw, k, n, r);
      r := Put(r, hw[k].0, GetOr0(r, hw[k].0) + Share(hw[k].1, n));
      k := k + 1;
    }
    assert hw[..|hw|] == hw;
  }

  /** One more head weight is added into the running scores. */
  lemma {:induction false} AddScaledStep(scores: seq<(Id, real)>, hw: seq<(Id, real)>, k: nat, n: nat, prev: seq<(Id, real)>)
    requires n > 0 && k < |hw| && prev == AddScaled(scores, hw[..k], n)
    ensures AddScaled(scores, hw[..k + 1], n) == Put(prev, hw[k].0, GetOr0(prev, hw[k].0) + Share(hw[k].1, n))
  {
    var h := hw[..k + 1];
    assert h[..|h| - 1] == hw[..k];
    AddScaledLast(scores, h, n, prev, hw[k]);
  }

  lemma {:induction false} AddScaledLast(scores: seq<(Id, real)>, h: seq<(Id, real)>, n: nat, prev: seq<(Id, real)>, x: (Id, real))
    requires n > 0 && |h| > 0 && prev == AddScaled(scores, h[..|h| - 1], n) && x == h[|h| - 1]
    ensures AddScaled(scores, h, n) == Put(prev, x.0, GetOr0(prev, x.0) + Share(x.1, n))
  {
    var k, w := h[|h| - 1].0, h[|h| - 1].1;
    assert AddScaled(scores, h, n) == Put(prev, k, GetOr0(prev, k) + Share(w, n));
  }

  /** The scores after adding in each list of head weights, divided by
      `n`. */
  function Aggregate(hws: seq<seq<(Id, real)>>, n: nat): (r: seq<(Id, real)>)
    requires n > 0
    ensures KeysDistinct(r)
  {
    if |hws| == 0 then []
    else
      var prev := Aggregate(hws[..|hws| - 1], n);
      AddScaledDistinct(prev, hws[|hws| - 1], n);
      AddScaled(prev, hws[|hws| - 1], n)
  }

  lemma {:induction false} AggregateSnoc(hws: seq<seq<(Id, real)>>, hw: seq<(Id, real)>, n: nat)
    requires n > 0
    ensures Aggregate(hws + [hw], n) == AddScaled(Aggregate(hws, n), hw, n)
  {
    assert (hws + [hw])[..|hws|] == hws;
  }

  /** Every list is a dict. */
  predicate AllDicts(hws: seq<seq<(Id, real)>>)
  {
    forall i :: 0 <= i < |hws| ==> KeysDistinct(hws[i])
  }

  /** The weight of `t` summed over the lists. */
  function SumAt(hws: seq<seq<(Id, real)>>, t: Id): real
  {
    if |hws| == 0 then 0.0 else SumAt(hws[..|hws| - 1], t) + GetOr0(hws[|hws| - 1], t)
  }

  /** Each id's score is the sum of its weights over the lists, divided by
      `n`; an id no list names has none. */
  lemma {:induction false} AggregateValue(hws: seq<seq<(Id, real)>>, n: nat, t: Id)
    requires n > 0 && AllDicts(hws)
    ensures GetOr0(Aggregate(hws, n), t) == SumAt(hws, t) / n as real
    decreases |hws|
  {
    if |hws| > 0 {
      var prev, last := hws[..|hws| - 1], hws[|hws| - 1];
      assert forall i :: 0 <= i < |prev| ==> prev[i] == hws[i];
      AggregateValue(prev, n, t);
      assert Aggregate(hws, n) == AddScaled(Aggregate(prev, n), last, n);
      AddScaledValue(Aggregate(prev, n), last, n, t);
      AddShare(GetOr0(Aggregate(hws, n), t), GetOr0(Aggregate(prev, n), t),
               SumAt(prev, t), GetOr0(last, t), SumAt(hws, t), n);
    } else {
      ZeroDiv(SumAt(hws, t), n);
    }
  }

  // ---------------------------------------------------------------------
  // The attention system
  // ---------------------------------------------------------------------

  /** The ids whose node has non-empty content. */
  ghost function WithContent(nodes: map<Id, Node>): set<Id>
  {
    set v | v in nodes && nodes[v].content != ""
  }

  /** The ids among `done` whose node has content containing the token
      `t`. */
  ghost function Holders(nodes: map<Id, Node>, done: set<Id>, stopwords: set<string>, t: string): set<Id>
  {
    set v | v in done && v in nodes && nodes[v].content != "" && t in Tokenize(nodes[v].content, stopwords)
  }

  /** `_initialize_semantic_model`: one document per node with content;
      each token's document frequency grows by the number of those nodes
      whose content has it. */
  method SeedCorpus(sem: SemanticSimilarity, nodes: map<Id, Node>)
    requires sem.Valid()
    modifies sem
    ensures sem.Valid()
    ensures sem.documentCount == old(sem.documentCount) + |WithContent(nodes)|
    ensures forall t :: DfGet(sem.df, t) == DfGet(old(sem.df), t) + |Holders(nodes, nodes.Keys, sem.stopwords, t)|
  {
    var rest := nodes.Keys;
    ghost var df0 := sem.df;
    while rest != {}
      invariant rest <= nodes.Keys
      invariant sem.Valid()
      invariant sem.documentCount == old(sem.documentCount) + |WithContent(nodes) - rest|
      invariant forall t :: DfGet(sem.df, t) == DfGet(df0, t) + |Holders(nodes, nodes.Keys - rest, sem.stopwords, t)|
      decreases |rest|
    {
      var v :| v in rest;
      SeedStep(nodes, rest, v);
      if nodes[v].content != "" {
        sem.AddDocument(nodes[v].content);
      }
      forall t
        ensures DfGet(sem.df, t) == DfGet(df0, t) + |Holders(nodes, nodes.Keys - (rest - {v}), sem.stopwords, t)|
      {
        HoldersStep(nodes, rest, v, sem.stopwords, t);
      }
      rest := rest - {v};
    }
    assert WithContent(nodes) - rest == WithContent(nodes);
    assert nodes.Keys - rest == nodes.Keys;
  }

  /** Taking `v` out of the nodes still to visit adds one counted document
      when `v` has content. */
  lemma {:induction false} SeedStep(nodes: map<Id, Node>, rest: set<Id>, v: Id)
    requires v in rest && rest <= nodes.Keys
    ensures |WithContent(nodes) - (rest - {v})| == |WithContent(nodes) - rest| + (if nodes[v].content != "" then 1 else 0)
  {
    if nodes[v].content != "" {
      assert WithContent(nodes) - (rest - {v}) == (WithContent(nodes) - rest) + {v};
    } else {
      assert WithContent(nodes) - (rest - {v}) == WithContent(nodes) - rest;
    }
  }

  /** Taking `v` out of the nodes still to visit adds it to the holders
      of `t` exactly when its content has `t`. */
  lemma {:induction false} HoldersStep(nodes: map<Id, Node>, rest: set<Id>, v: Id, stopwords: set<string>, t: string)
    requires v in rest && rest <= nodes.Keys
    ensures |Holders(nodes, nodes.Keys - (rest - {v}), stopwords, t)| == |Holders(nodes, nodes.Keys - rest, stopwords, t)| +
      (if nodes[v].content != "" && t in Tokenize(nodes[v].content, stopwords) then 1 else 0)
  {
    var done := nodes.Keys - rest;
    assert nodes.Keys - (rest - {v}) == done + {v};
    HoldersAdd(nodes, done, v, stopwords, t);
  }

  lemma {:induction false} HoldersAdd(nodes: map<Id, Node>, done: set<Id>, v: Id, stopwords: set<string>, t: string)
    requires v !in done && v in nodes
    ensures |Holders(nodes, done + {v}, stopwords, t)| == |Holders(nodes, done, stopwords, t)| +
      (if nodes[v].content != "" && t in Tokenize(nodes[v].content, stopwords) then 1 else 0)
  {
    var before, after := Holders(nodes, done, stopwords, t), Holders(nodes, done + {v}, stopwords, t);
    if nodes[v].content != "" && t in Tokenize(nodes[v].content, stopwords) {
      assert after == before + {v};
    } else {
      assert after == before;
    }
  }

  /** The weight a head gives to `cand` seen from `ref`: similarity times
      temporal decay times keyword boost. */
  function HeadWeight(corpus: Corpus, ref: Node, cand: Node, h: AttentionHead): real
  {
    Combine(SimilarityOf(corpus, ref.content, cand.content),
            ComputeTemporalDecay(h, DaysApart(ref.timestamp, cand.timestamp)),
            FocusBoost(h, Lower(cand.content)))
  }

  /** Every stored candidate's weight under head `h`. */
  function Weights(corpus: Corpus, nodes: map<Id, Node>, ref: Node, cands: seq<Id>, h: AttentionHead): map<Id, real>
  {
    map c | c in cands && c in nodes :: HeadWeight(corpus, ref, nodes[c], h)
  }

  /** The weights head `h` keeps. */
  function HeadWeights(corpus: Corpus, nodes: map<Id, Node>, ref: Node, cands: seq<Id>, h: AttentionHead): seq<(Id, real)>
  {
    KeepSignificant(cands, Weights(corpus, nodes, ref, cands, h))
  }

  /** The weights of the heads among `hs` that apply to the direction. */
  function ApplicableWeights(corpus: Corpus, nodes: map<Id, Node>, ref: Node, cands: seq<Id>,
                             hs: seq<AttentionHead>, forward: bool): seq<seq<(Id, real)>>
  {
    if |hs| == 0 then []
    else
      var prev := ApplicableWeights(corpus, nodes, ref, cands, hs[..|hs| - 1], forward);
      var h := hs[|hs| - 1];
      if Applies(h.attentionType, forward) then prev + [HeadWeights(corpus, nodes, ref, cands, h)] else prev
  }

  /** One more head: its weights are added when it applies. */
  lemma {:induction false} ApplicableStep(corpus: Corpus, nodes: map<Id, Node>, ref: Node, cands: seq<Id>,
                                          hs: seq<AttentionHead>, forward: bool, j: nat, prev: seq<seq<(Id, real)>>)
    requires j < |hs| && prev == ApplicableWeights(corpus, nodes, ref, cands, hs[..j], forward)
    ensures ApplicableWeights(corpus, nodes, ref, cands, hs[..j + 1], forward) ==
      if Applies(hs[j].attentionType, forward) then prev + [HeadWeights(corpus, nodes, ref, cands, hs[j])] else prev
  {
    var h := hs[..j + 1];
    assert h[..|h| - 1] == hs[..j];
  }

  /** Each applicable head's weights form a dict. */
  lemma {:induction false} ApplicableDistinct(corpus: Corpus, nodes: map<Id, Node>, ref: Node, cands: seq<Id>,
                                              hs: seq<AttentionHead>, forward: bool)
    ensures AllDicts(ApplicableWeights(corpus, nodes, ref, cands, hs, forward))
    decreases |hs|
  {
    if |hs| > 0 {
      var j := |hs| - 1;
      ApplicableDistinct(corpus, nodes, ref, cands, hs[..j], forward);
      ApplicableStep(corpus, nodes, ref, cands, hs, forward, j, ApplicableWeights(corpus, nodes, ref, cands, hs[..j], forward));
      assert hs[..j + 1] == hs;
      KeepSignificantFacts(cands, Weights(corpus, nodes, ref, cands, hs[j]));
    }
  }

  /** The aggregated scores of one direction, over the heads `hs`. */
  function Scores(corpus: Corpus, nodes: map<Id, Node>, hs: seq<AttentionHead>, ref: Node, cands: seq<Id>, forward: bool): seq<(Id, real)>
    requires |hs| > 0
  {
    Aggregate(ApplicableWeights(corpus, nodes, ref, cands, hs, forward), |hs|)
  }

  /** Each candidate's score is the sum of the weights the applicable
      heads give it, divided by the number of heads (all of them, whether
      they apply or not); a candidate no applicable head weighs above 0.01
      scores nothing. */
  lemma {:induction false} ScoreIsShare(corpus: Corpus, nodes: map<Id, Node>, hs: seq<AttentionHead>, ref: Node, cands: seq<Id>,
                     forward: bool, t: Id)
    requires |hs| > 0
    ensures GetOr0(Scores(corpus, nodes, hs, ref, cands, forward), t)
      == SumAt(ApplicableWeights(corpus, nodes, ref, cands, hs, forward), t) / |hs| as real
  {
    var applied := ApplicableWeights(corpus, nodes, ref, cands, hs, forward);
    ApplicableDistinct(corpus, nodes, ref, cands, hs, forward);
    AggregateValue(applied, |hs|, t);
  }

  /** What a query promises, given the candidate set `cset` of its
      direction: `cands` are the members of `cset` nearest in time to the
      reference node (the earliest later ones forward, the latest earlier
      ones backward), in that order, as many as the slice to
      `2 * maxNodes` keeps, and `r` ranks their scores (nothing when there
      are none). */
  ghost predicate Attended(cset: set<Id>, corpus: Corpus, nodes: map<Id, Node>, hs: seq<AttentionHead>, ref: Node,
                           forward: bool, maxNodes: int, r: seq<(Id, real)>, cands: seq<Id>)
    requires |hs| > 0
  {
    && TimeRanked(nodes, cset, forward, maxNodes * 2, cands)
    && (|cands| == 0 ==> r == [])
    && (|cands| > 0 ==> r == Rank(Scores(corpus, nodes, hs, ref, cands, forward), maxNodes))
  }

  /** The part of the attention system a query reads and changes: the
      cache, its time stamp and time to live, and the statistics. */
  datatype CacheState = CacheState(
    cache: map<string, seq<(Id, real)>>,
    stamp: int,
    ttlMinutes: int,
    computations: nat,
    hits: nat,
    misses: nat,
    forwardQueries: nat,
    backwardQueries: nat)

  /** `_is_cache_valid`: the key is cached and the cache is younger than
      its time to live. */
  predicate Fresh(s: CacheState, key: string, now: int)
  {
    key in s.cache && (now - s.stamp) as real / 60.0 < s.ttlMinutes as real
  }

  /** One query of a direction about the stored node `id`, taking the
      state from `s` to `s'`: with the cache on, a valid entry is returned
      as it is and counted as a hit; otherwise the query is counted as a
      miss of its direction, `r` is what `Attended` promises over
      `cands`, and a non-empty computation is counted and, with the cache
      on, cached. */
  ghost predicate Queried(s: CacheState, s': CacheState, cset: set<Id>, corpus: Corpus, nodes: map<Id, Node>,
                          hs: seq<AttentionHead>, id: Id, forward: bool, maxNodes: int, useCache: bool, now: int,
                          r: seq<(Id, real)>, cands: seq<Id>)
    requires |hs| > 0 && id in nodes
  {
    var key := CacheKey(forward, id, maxNodes);
    if useCache && Fresh(s, key, now) then
      r == s.cache[key] && s' == s.(hits := s.hits + 1)
    else
      && Attended(cset, corpus, nodes, hs, nodes[id], forward, maxNodes, r, cands)
      && s' == s.(misses := s.misses + 1,
                  forwardQueries := s.forwardQueries + (if forward then 1 else 0),
                  backwardQueries := s.backwardQueries + (if forward then 0 else 1),
                  cache := if |cands| > 0 && useCache then s.cache[key := r] else s.cache,
                  computations := s.computations + (if |cands| > 0 then 1 else 0))
  }

  /** A query answered from the cache, or computed non-empty with the
      cache on, is answered again, unchanged and as a hit, by the same
      query while the cache is younger than its time to live. */
  lemma {:induction false} CachedReplay(s: CacheState, s': CacheState, s'': CacheState, cset: set<Id>, cset': set<Id>,
                                        corpus: Corpus, corpus': Corpus, nodes: map<Id, Node>, hs: seq<AttentionHead>,
                                        id: Id, forward: bool, maxNodes: int, now: int, now': int,
                                        r: seq<(Id, real)>, cands: seq<Id>, r': seq<(Id, real)>, cands': seq<Id>)
    requires |hs| > 0 && id in nodes
    requires Queried(s, s', cset, corpus, nodes, hs, id, forward, maxNodes, true, now, r, cands)
    requires Queried(s', s'', cset', corpus', nodes, hs, id, forward, maxNodes, true, now', r', cands')
    requires (now' - s.stamp) as real / 60.0 < s.ttlMinutes as real
    requires Fresh(s, CacheKey(forward, id, maxNodes), now) || |cands| > 0
    ensures r' == r && s'' == s'.(hits := s'.hits + 1)
  {
    assert Fresh(s', CacheKey(forward, id, maxNodes), now');
  }

  class BidirectionalAttention {
    const graph: TemporalGraph
    const semantic: SemanticSimilarity
    const heads: seq<AttentionHead>
    const cacheTtlMinutes: int
    var cache: map<string, seq<(Id, real)>>
    var cacheTimestamp: int
    var attentionComputations: nat
    var cacheHits: nat
    var cacheMisses: nat
    var forwardQueries: nat
    var backwardQueries: nat

    ghost predicate Valid()
      reads this, graph, semantic
    {
      graph.Valid() && semantic.Valid() && |heads| > 0 && cacheTtlMinutes == 60
    }

    /** `__init__`: the corpus holds one document per stored node with
        content; the four default heads; an empty cache stamped `now`. */
    constructor (graph: TemporalGraph, math: RealMath, now: int)
      requires graph.Valid() && Lawful(math)
      ensures Valid() && this.graph == graph && fresh(semantic) && heads == DefaultHeads
      ensures semantic.math == math && semantic.stopwords == DefaultStopwords
      ensures semantic.documentCount == |WithContent(graph.nodes)|
      ensures forall t :: DfGet(semantic.df, t) == |Holders(graph.nodes, graph.nodes.Keys, DefaultStopwords, t)|
      ensures cache == map[] && cacheTimestamp == now
      ensures attentionComputations == 0 && cacheHits == 0 && cacheMisses == 0
      ensures forwardQueries == 0 && backwardQueries == 0
    {
      var sem := new SemanticSimilarity(math);
      SeedCorpus(sem, graph.nodes);
      this.graph := graph;
      semantic := sem;
      heads := DefaultHeads;
      cacheTtlMinutes := 60;
      cache := map[];
      cacheTimestamp := now;
      attentionComputations, cacheHits, cacheMisses := 0, 0, 0;
      forwardQueries, backwardQueries := 0, 0;
    }

    /** The weight of one candidate: similarity of the contents times the
        decay over the days apart times the keyword boost. */
    method CandidateWeight(ref: Node, cand: Node, h: AttentionHead) returns (total: real)
      ensures total == HeadWeight(semantic.State(), ref, cand, h)
    {
      var sim := semantic.Similarity(ref.content, cand.content);
      var decay := ComputeTemporalDecay(h, DaysApart(ref.timestamp, cand.timestamp));
      var boost := FocusBoost(h, Lower(cand.content));
      total := Combine(sim, decay, boost);
    }

    /** `_compute_head_attention`: the stored candidates whose weight under
        `h` exceeds 0.01, each with that weight. */
    method ComputeHeadAttention(ref: Node, cands: seq<Id>, h: AttentionHead) returns (weights: seq<(Id, real)>)
      ensures weights == HeadWeights(semantic.State(), graph.nodes, ref, cands, h)
    {
      ghost var w := Weights(semantic.State(), graph.nodes, ref, cands, h);
      weights := [];
      var i := 0;
      assert cands[..0] == [];
      while i < |cands|
        invariant 0 <= i <= |cands|
        invariant weights == KeepSignificant(cands[..i], w)
      {
        var c := cands[i];
        KeepStep(cands, w, i, weights);
        if c in graph.nodes {
          var total := CandidateWeight(ref, graph.nodes[c], h);
          assert c in w && w[c] == total;
          if total > 0.01 {
            weights := Put(weights, c, total);
          }
        } else {
          assert c !in w;
        }
        i := i + 1;
      }
      assert cands[..|cands|] == cands;
    }

    /** Aggregation over the heads: the outer loop over heads and the inner
        loop over a head's weights. */
    method AggregateScores(ref: Node, cands: seq<Id>, forward: bool) returns (scores: seq<(Id, real)>)
      requires |heads| > 0
      ensures scores == Scores(semantic.State(), graph.nodes, heads, ref, cands, forward)
    {
      ghost var corpus, nodes := semantic.State(), graph.nodes;
      scores := [];
      var j := 0;
      ghost var applied: seq<seq<(Id, real)>> := [];
      assert heads[..0] == [];
      while j < |heads|
        invariant 0 <= j <= |heads|
        invariant applied == ApplicableWeights(corpus, nodes, ref, cands, heads[..j], forward)
        invariant scores == Aggregate(applied, |heads|)
      {
        var h := heads[j];
        ApplicableStep(corpus, nodes, ref, cands, heads, forward, j, applied);
        if Applies(h.attentionType, forward) {
          var hw := ComputeHeadAttention(ref, cands, h);
          AggregateSnoc(applied, hw, |heads|);
          scores := AddHeadWeights(scores, hw, |heads|);
          applied := applied + [hw];
        }
        j := j + 1;
      }
      assert heads[..|heads|] == heads;
    }

    /** The cache and the statistics as one value. */
    function Snapshot(): CacheState
      reads this
    {
      CacheState(cache, cacheTimestamp, cacheTtlMinutes, attentionComputations, cacheHits, cacheMisses,
                 forwardQueries, backwardQueries)
    }

    predicate IsCacheValid(key: string, now: int)
      reads this
    {
      Fresh(Snapshot(), key, now)
    }

    /** The nodes a direction may attend to, before truncation. */
    ghost function Candidates(forward: bool, id: Id): set<Id>
      reads graph
      requires id in graph.nodes && |heads| > 0
    {
      if forward then graph.ForwardCandidates(id, MaxWindow(heads), 5)
      else graph.BackwardCandidates(id, MaxWindow(heads), 5)
    }

    /** The uncached part of `compute_forward_attention` (`forward`) and
        `compute_backward_attention`: the reachable nodes within the heads'
        widest window, at most `2 * maxNodes` of them (`cands`), scored,
        ranked and cut to `maxNodes`; nothing when there are none. */
    method Attend(forward: bool, id: Id, maxNodes: int) returns (r: seq<(Id, real)>, cands: seq<Id>)
      requires Valid() && id in graph.nodes
      ensures Attended(Candidates(forward, id), semantic.State(), graph.nodes, heads, graph.nodes[id],
                       forward, maxNodes, r, cands)
    {
      var ref := graph.nodes[id];
      var window := MaxWindow(heads);
      if forward {
        cands := graph.GetForwardNodes(id, window, 5, maxNodes * 2);
      } else {
        cands := graph.GetBackwardNodes(id, window, 5, maxNodes * 2);
      }
      if |cands| == 0 {
        return [], cands;
      }
      var scores := AggregateScores(ref, cands, forward);
      r := Rank(scores, maxNodes);
    }

    /** `compute_forward_attention` (`forward`) and
        `compute_backward_attention`: an unknown id gives nothing; a valid
        cache entry is returned as it is; otherwise the result of `Attend`,
        cached when `useCache` unless there was nothing to attend to. */
    method ComputeAttention(forward: bool, id: Id, maxNodes: int, useCache: bool, now: int)
      returns (r: seq<(Id, real)>, ghost cands: seq<Id>)
      requires Valid()
      modifies this
      ensures Valid()
      ensures id !in graph.nodes ==> r == [] && unchanged(this)
      ensures id in graph.nodes ==>
        Queried(old(Snapshot()), Snapshot(), old(Candidates(forward, id)), old(semantic.State()), old(graph.nodes),
                heads, id, forward, maxNodes, useCache, now, r, cands)
    {
      cands := [];
      if id !in graph.nodes {
        return [], cands;
      }
      var key := CacheKey(forward, id, maxNodes);
      if useCache && IsCacheValid(key, now) {
        cacheHits := cacheHits + 1;
        return cache[key], cands;
      }
      var found;
      r, found := Attend(forward, id, maxNodes);
      cands := found;
      Record(forward, key, r, |found| > 0, useCache);
    }

    /** The bookkeeping of a cache miss: the query is counted and a
        non-empty result is counted and, when `useCache`, cached under
        `key`. */
    method Record(forward: bool, key: string, r: seq<(Id, real)>, computed: bool, useCache: bool)
      modifies this
      ensures cacheHits == old(cacheHits) && cacheMisses == old(cacheMisses) + 1
      ensures forwardQueries == old(forwardQueries) + (if forward then 1 else 0)
      ensures backwardQueries == old(backwardQueries) + (if forward then 0 else 1)
      ensures !computed ==> cache == old(cache) && attentionComputations == old(attentionComputations)
      ensures computed ==>
        && cache == (if useCache then old(cache)[key := r] else old(cache))
        && attentionComputations == old(attentionComputations) + 1
      ensures cacheTimestamp == old(cacheTimestamp)
    {
      cacheMisses := cacheMisses + 1;
      if forward {
        forwardQueries := forwardQueries + 1;
      } else {
        backwardQueries := backwardQueries + 1;
      }
      if computed {
        if useCache {
          cache := cache[key := r];
        }
        attentionComputations := attentionComputations + 1;
      }
    }

    /** `compute_bidirectional_attention`: both directions with the cache
        on, their totals, the balance `forward / max(0.001, backward)` and
        each direction's most attended item. */
    method ComputeBidirectionalAttention(id: Id, maxNodesPerDirection: int, now: int)
      returns (res: BidirectionalResult, ghost mid: CacheState, ghost fwd: seq<Id>, ghost bwd: seq<Id>)
      requires Valid()
      modifies this
      ensures Valid()
      ensures res.totalForwardWeight == TotalWeight(res.forward)
      ensures res.totalBackwardWeight == TotalWeight(res.backward)
      ensures res.attentionBalance == res.totalForwardWeight / Floor001(res.totalBackwardWeight)
      ensures res.mostAttendedForward == MostAttended(res.forward)
      ensures res.mostAttendedBackward == MostAttended(res.backward)
      ensures id !in graph.nodes ==> res.forward == [] && res.backward == [] && unchanged(this)
      ensures id in graph.nodes ==>
        && Queried(old(Snapshot()), mid, Candidates(true, id), semantic.State(), graph.nodes, heads,
                   id, true, maxNodesPerDirection, true, now, res.forward, fwd)
        && Queried(mid, Snapshot(), Candidates(false, id), semantic.State(), graph.nodes, heads,
                   id, false, maxNodesPerDirection, true, now, res.backward, bwd)
    {
      var f, b;
      f, fwd := ComputeAttention(true, id, maxNodesPerDirection, true, now);
      mid := Snapshot();
      b, bwd := ComputeAttention(false, id, maxNodesPerDirection, true, now);
      var tf := TotalWeight(f);
      var tb := TotalWeight(b);
      res := BidirectionalResult(f, b, tf, tb, tf / Floor001(tb), MostAttended(f), MostAttended(b));
    }

    /** `invalidate_cache`: every entry goes, and the cache is stamped
        `now`; no key is valid afterwards, at any time. */
    method InvalidateCache(now: int)
      modifies this
      ensures cache == map[] && cacheTimestamp == now
      ensures forall key, t :: !IsCacheValid(key, t)
      ensures attentionComputations == old(attentionComputations) && cacheHits == old(cacheHits)
      ensures cacheMisses == old(cacheMisses)
      ensures forwardQueries == old(forwardQueries) && backwardQueries == old(backwardQueries)
    {
      cache := map[];
      cacheTimestamp := now;
    }
  }

  lemma {:induction false} ZeroDiv(z: real, n: nat)
    requires z == 0.0 && n > 0
    ensures z / n as real == 0.0
  {
  }

  /** A running share `b = x / n` plus a new share `y / n` is the share of
      the new total `x + y`. */
  lemma {:induction false} AddShare(a: real, b: real, x: real, y: real, s: real, n: nat)
    requires n > 0 && a == b + y / n as real && b == x / n as real && s == x + y
    ensures a == s / n as real
  {
    SumDiv(x, y, n);
  }

  /** Dividing a sum divides each addend. */
  lemma {:induction false} SumDiv(a: real, b: real, n: nat)
    requires n > 0
    ensures (a + b) / n as real == a / n as real + b / n as real
  {
  }

  /** Putting a new key appends it; putting an old key keeps the keys. */
  lemma {:induction false} PutItems(d: seq<(Id, real)>, k: Id, v: real)
    requires KeysDistinct(d)
    ensures forall i :: 0 <= i < |Put(d, k, v)| ==>
      (Put(d, k, v)[i].0 == k && Put(d, k, v)[i].1 == v) || Put(d, k, v)[i] in d
  {
    var r := Put(d, k, v);
    PutFacts(d, k, v);
    forall i | 0 <= i < |r|
      ensures (r[i].0 == k && r[i].1 == v) || r[i] in d
    {
      if r[i].0 != k {
        assert Get(r, r[i].0) == Get(d, r[i].0);
        GetAt(r, i);
      } else {
        GetAt(r, i);
      }
    }
  }
}
