/**
 * Values of the temporal graph: node and edge records, the weekly layer
 * label a node gets when it is created, and the `(timestamp, id)` entries of
 * the timestamp index with Python's tuple ordering.
 *
 * Timestamps are whole seconds since 1970-01-01 UTC, already normalised to
 * UTC; `timedelta(days=w)` is `w * SecondsPerDay`.
 */
module TemporalTypes {
  import opened Wrappers
  import opened PyStd

  type Id = string

  const SecondsPerDay: int := 86400
  const DaysPerLayer: int := 7

  datatype NodeType = Content | BranchPoint | MergePoint | MemoryCompressed

  datatype Relation = Sequential | Causal | Concurrent | Branch | Merge

  /** A `TemporalNode` (its free-form metadata dict is not modelled). */
  datatype Node = Node(
    id: Id,
    timestamp: int,
    nodeType: NodeType,
    content: string,
    temporalIndex: int,
    layerId: string)

  /** A `TemporalEdge` (its metadata dict is not modelled). */
  datatype Edge = Edge(from: Id, to: Id, relation: Relation, weight: real)

  /** Whole days between the epoch and `ts`, as `timedelta.days` counts them:
      rounded toward negative infinity. */
  function DaysSinceEpoch(ts: int): (d: int)
    ensures d * SecondsPerDay <= ts < d * SecondsPerDay + SecondsPerDay
  {
    FloorDiv(ts, SecondsPerDay)
  }

  /** Decimal digits of a natural number, most significant first. */
  function NatToString(n: nat): (s: string)
    ensures |s| > 0
    ensures forall c :: c in s ==> '0' <= c <= '9'
    decreases n
  {
    if n < 10 then [DigitChar(n)] else NatToString(n / 10) + [DigitChar(n % 10)]
  }

  function DigitChar(d: nat): (c: char)
    requires d < 10
    ensures '0' <= c <= '9' && c as int - '0' as int == d
  {
    ('0' as int + d) as char
  }

  /** Python's `str(n)` / `f"{n}"` for an integer. */
  function IntToString(n: int): (s: string)
    ensures '_' !in s
    ensures forall c :: c in s ==> !IsSpace(c)
  {
    if n < 0 then "-" + NatToString(-n) else NatToString(n)
  }

  /** Layer label of a timestamp: `layer_{days_since_epoch // 7}`. The
      graph's `layer_duration_days` plays no part in it. */
  function ComputeLayerId(ts: int): string
  {
    LayerLabel(FloorDiv(DaysSinceEpoch(ts), DaysPerLayer))
  }

  /** The label `layer_{w}` of week `w`. */
  function LayerLabel(w: int): string
  {
    "layer_" + IntToString(w)
  }

  /** `TemporalNode(...)` as constructed: `temporal_index` starts at -1 and an
      empty `layer_id` is replaced by the computed weekly label. */
  function MakeNode(id: Id, ts: int, nodeType: NodeType, content: string, layerId: string): (n: Node)
    ensures n.id == id && n.timestamp == ts && n.nodeType == nodeType && n.content == content
    ensures n.temporalIndex == -1
    ensures layerId != "" ==> n.layerId == layerId
    ensures layerId == "" ==> n.layerId == ComputeLayerId(ts)
  {
    Node(id, ts, nodeType, content, -1, if layerId == "" then ComputeLayerId(ts) else layerId)
  }

  // ---------------------------------------------------------------------
  // Reading a layer label back: `int(layer_id.split('_')[1])`.
  // ---------------------------------------------------------------------

  /** Index of the first `c` in `s`, or `|s|` when there is none. */
  function FindChar(s: string, c: char): (i: nat)
    ensures i <= |s|
    ensures c !in s[..i]
    ensures i < |s| ==> s[i] == c
  {
    if |s| == 0 then 0
    else if s[0] == c then 0
    else
      assert s[..1 + FindChar(s[1..], c)] == [s[0]] + s[1..][..FindChar(s[1..], c)];
      1 + FindChar(s[1..], c)
  }

  lemma {:induction false} FindCharSkip(s: string, c: char, k: nat)
    requires k <= |s| && c !in s[..k]
    ensures FindChar(s, c) == k + FindChar(s[k..], c)
    decreases k
  {
    if k > 0 {
      assert s[0] == s[..k][0];
      assert s[1..][..k - 1] == s[1..k];
      assert s[1..][k - 1..] == s[k..];
      FindCharSkip(s[1..], c, k - 1);
    }
  }

  /** `s.split(c)[1]`: the text between the first and the second `c`, or
      `None` where Python raises `IndexError` (no `c` at all). */
  function SecondField(s: string, c: char): (r: Option<string>)
    ensures r.None? <==> c !in s
    ensures r.Some? ==> c !in r.value
  {
    var i := FindChar(s, c);
    if i == |s| then
      assert s[..i] == s;
      None
    else
      var rest := s[i + 1..];
      Some(rest[..FindChar(rest, c)])
  }

  function TrimLeft(s: string): (r: string)
    ensures |r| <= |s| && r == s[|s| - |r|..]
    ensures |r| > 0 ==> !IsSpace(r[0])
  {
    if |s| > 0 && IsSpace(s[0]) then TrimLeft(s[1..]) else s
  }

  function TrimRight(s: string): (r: string)
    ensures |r| <= |s| && r == s[..|r|]
    ensures |r| > 0 ==> !IsSpace(r[|r| - 1])
  {
    if |s| > 0 && IsSpace(s[|s| - 1]) then TrimRight(s[..|s| - 1]) else s
  }

  predicate AllDigits(s: string)
  {
    forall i :: 0 <= i < |s| ==> '0' <= s[i] <= '9'
  }

  /** Value of a string of decimal digits. */
  function DigitsValue(s: string): (n: nat)
    requires AllDigits(s)
  {
    if |s| == 0 then 0
    else DigitsValue(s[..|s| - 1]) * 10 + (s[|s| - 1] as int - '0' as int)
  }

  /** Python's `int(s)` for ASCII input: surrounding whitespace is ignored,
      then an optional sign and at least one decimal digit; anything else is
      the `ValueError` case, `None`. */
  function ParseInt(s: string): (r: Option<int>)
  {
    var t := TrimLeft(TrimRight(s));
    if |t| > 0 && (t[0] == '-' || t[0] == '+') then
      var d := t[1..];
      if |d| > 0 && AllDigits(d) then
        var v: int := DigitsValue(d);
        Some(if t[0] == '-' then -v else v)
      else None
    else if |t| > 0 && AllDigits(t) then Some(DigitsValue(t))
    else None
  }

  /** The week number of a layer label, or `None` where the source catches
      `IndexError` or `ValueError`. */
  function ParseLayer(layerId: string): Option<int>
  {
    var f := SecondField(layerId, '_');
    if f.None? then None else ParseInt(f.value)
  }

  lemma {:induction false} DigitsRoundTrip(n: nat)
    ensures AllDigits(NatToString(n)) && DigitsValue(NatToString(n)) == n
    decreases n
  {
    if n >= 10 {
      DigitsRoundTrip(n / 10);
      var s := NatToString(n);
      assert s[..|s| - 1] == NatToString(n / 10);
    }
  }

  lemma {:induction false} TrimNoSpace(s: string)
    requires |s| > 0 && !IsSpace(s[0]) && !IsSpace(s[|s| - 1])
    ensures TrimLeft(TrimRight(s)) == s
  {
    assert TrimRight(s) == s;
  }

  /** A string of digits reads as its value. */
  lemma {:induction false} ParseDigits(s: string, v: nat)
    requires |s| > 0 && AllDigits(s) && DigitsValue(s) == v
    ensures ParseInt(s) == Some(v)
  {
    TrimNoSpace(s);
  }

  /** A minus sign before a string of digits reads as the negated value. */
  lemma {:induction false} ParseMinusDigits(d: string, v: nat)
    requires |d| > 0 && AllDigits(d) && DigitsValue(d) == v
    ensures ParseInt("-" + d) == Some(-(v as int))
  {
    var s := "-" + d;
    assert s[1..] == d && s[0] == '-';
    assert s[|s| - 1] == d[|d| - 1];
    TrimNoSpace(s);
  }

  /** `int(str(n)) == n` for every `n`. */
  lemma {:induction false} ParseIntRoundTrip(n: int)
    ensures ParseInt(IntToString(n)) == Some(n)
  {
    if n < 0 {
      DigitsRoundTrip(-n);
      ParseMinusDigits(NatToString(-n), -n);
    } else {
      DigitsRoundTrip(n);
      ParseDigits(NatToString(n), n);
    }
  }

  /** Reading back the label `layer_{w}` gives `w`, for every `w`. */
  lemma {:induction false} LayerLabelRoundTrip(w: int)
    ensures ParseLayer(LayerLabel(w)) == Some(w)
  {
    var s := LayerLabel(w);
    assert s[..5] == "layer";
    FindCharSkip(s, '_', 5);
    assert s[5..][0] == '_';
    var rest := s[6..];
    assert rest == IntToString(w);
    assert FindChar(rest, '_') == |rest|;
    assert rest[..|rest|] == rest;
    ParseIntRoundTrip(w);
  }

  /** A node's computed layer is the week (seven whole days, counted from the
      epoch) that contains its timestamp. */
  lemma {:induction false} LayerIsWeek(ts: int)
    ensures ParseLayer(ComputeLayerId(ts)) == Some(FloorDiv(ts, DaysPerLayer * SecondsPerDay))
  {
    var d := DaysSinceEpoch(ts);
    var w := FloorDiv(d, DaysPerLayer);
    LayerLabelRoundTrip(w);
    assert w * 604800 <= ts < w * 604800 + 604800 by {
      assert w * 7 <= d < w * 7 + 7;
      assert d * 86400 <= ts < d * 86400 + 86400;
      assert (w * 7) * 86400 <= d * 86400;
      assert d * 86400 + 86400 <= (w * 7 + 7) * 86400;
    }
    FloorDivUnique(ts, w);
  }

  lemma {:induction false} FloorDivUnique(a: int, q: int)
    requires q * 604800 <= a < q * 604800 + 604800
    ensures FloorDiv(a, 604800) == q
  {
  }

  // ---------------------------------------------------------------------
  // The timestamp index: `(timestamp, id)` tuples in Python's order.
  // ---------------------------------------------------------------------

  type Entry = (int, Id)

  /** Python's `str < str`. */
  predicate StrLt(a: string, b: string)
  {
    StrLe(a, b) && a != b
  }

  /** Python's `(t1, s1) <= (t2, s2)`. */
  predicate EntryLe(x: Entry, y: Entry)
  {
    x.0 < y.0 || (x.0 == y.0 && StrLe(x.1, y.1))
  }

  /** Python's `(t1, s1) < (t2, s2)`. */
  predicate EntryLt(x: Entry, y: Entry)
  {
    x.0 < y.0 || (x.0 == y.0 && StrLt(x.1, y.1))
  }

  lemma {:induction false} EntryLtIsNotLe(x: Entry, y: Entry)
    ensures EntryLt(x, y) <==> !EntryLe(y, x)
  {
    StrLeTotal(x.1, y.1);
    if StrLe(x.1, y.1) && StrLe(y.1, x.1) {
      StrLeAntisym(x.1, y.1);
    }
  }

  lemma {:induction false} EntryLeTrans(x: Entry, y: Entry, z: Entry)
    requires EntryLe(x, y) && EntryLe(y, z)
    ensures EntryLe(x, z)
  {
    if x.0 == y.0 && y.0 == z.0 {
      StrLeTrans(x.1, y.1, z.1);
    }
  }

  lemma {:induction false} EntryLeChain(x: Entry, y: Entry, z: Entry)
    ensures EntryLe(x, y) && EntryLe(y, z) ==> EntryLe(x, z)
  {
    if EntryLe(x, y) && EntryLe(y, z) {
      EntryLeTrans(x, y, z);
    }
  }

  lemma {:induction false} EntryLeTotal(x: Entry, y: Entry)
    ensures EntryLe(x, y) || EntryLe(y, x)
  {
    StrLeTotal(x.1, y.1);
  }

  /** The index order that `bisect.insort` maintains. */
  predicate IndexSorted(s: seq<Entry>)
  {
    forall i, j :: 0 <= i < j < |s| ==> EntryLe(s[i], s[j])
  }

  /** Python's `(t, s) < (t', s')` implies `<=`. */
  lemma {:induction false} EntryLtLe(x: Entry, y: Entry)
    requires EntryLt(x, y)
    ensures EntryLe(x, y)
  {
  }

  /** `[e.to_node for e in edges]`. */
  function Targets(es: seq<Edge>): (r: seq<Id>)
    ensures |r| == |es|
    ensures forall i :: 0 <= i < |es| ==> r[i] == es[i].to
  {
    seq(|es|, i requires 0 <= i < |es| => es[i].to)
  }

  /** `[e.from_node for e in edges]`. */
  function Sources(es: seq<Edge>): (r: seq<Id>)
    ensures |r| == |es|
    ensures forall i :: 0 <= i < |es| ==> r[i] == es[i].from
  {
    seq(|es|, i requires 0 <= i < |es| => es[i].from)
  }
}
