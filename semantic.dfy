/**
 * TF-IDF similarity between texts (`SemanticSimilarity`): a tokenizer, a
 * corpus of document frequencies that grows as documents are added, term
 * frequencies, inverse document frequencies and the cosine of two TF-IDF
 * vectors.
 *
 * `math.log` and `math.sqrt` are not computed: they are given as function
 * values in a `RealMath`, of which only what `Lawful` says is assumed.
 */
module Semantic {
  import opened Wrappers
  import opened PyStd
  import opened Assoc

  /** The natural logarithm and the square root the scores are built from. */
  datatype RealMath = RealMath(ln: real -> real, sqrt: real -> real)

  /** What the model relies on: `log` is non-negative from 1 on, `sqrt` is
      non-negative, vanishes exactly at 0 and squares back to its
      argument. */
  ghost predicate Lawful(m: RealMath)
  {
    && (forall x :: x >= 1.0 ==> m.ln(x) >= 0.0)
    && (forall x :: x >= 0.0 ==> m.sqrt(x) >= 0.0)
    && (forall x :: x >= 0.0 ==> (m.sqrt(x) == 0.0 <==> x == 0.0))
    && (forall x :: x >= 0.0 ==> m.sqrt(x) * m.sqrt(x) == x)
  }

  // ---------------------------------------------------------------------
  // Tokens
  // ---------------------------------------------------------------------

  /** The stopwords a new `SemanticSimilarity` filters out. */
  const DefaultStopwords: set<string> := {
    "the", "a", "an", "and", "or", "but", "in", "on", "at", "to", "for",
    "of", "with", "by", "from", "as", "is", "was", "are", "were", "be",
    "been", "being", "have", "has", "had", "do", "does", "did", "will",
    "would", "should", "could", "may", "might", "can", "this", "that",
    "these", "those", "i", "you", "he", "she", "it", "we", "they"
  }

  /** The characters `\w` matches, restricted to ASCII. */
  predicate IsWordChar(c: char)
  {
    ('a' <= c <= 'z') || ('A' <= c <= 'Z') || ('0' <= c <= '9') || c == '_'
  }

  /** The words kept by `_tokenize`: longer than two characters and not a
      stopword. */
  function KeepTokens(ws: seq<string>, stopwords: set<string>): (r: seq<string>)
    ensures forall t :: t in r <==> t in ws && t !in stopwords && |t| > 2
  {
    if |ws| == 0 then []
    else (if ws[0] !in stopwords && |ws[0]| > 2 then [ws[0]] else []) + KeepTokens(ws[1..], stopwords)
  }

  /** `_tokenize`: the runs of word characters of the lower-cased text,
      without stopwords and short words. */
  function Tokenize(text: string, stopwords: set<string>): (r: seq<string>)
  {
    KeepTokens(Runs(Lower(text), IsWordChar), stopwords)
  }

  /** Lower-casing leaves no upper-case letter behind. */
  lemma {:induction false} LowerFixed(s: string)
    ensures forall c :: c in Lower(s) ==> LowerChar(c) == c
  {
    forall c | c in Lower(s)
      ensures LowerChar(c) == c
    {
      var i :| 0 <= i < |s| && Lower(s)[i] == c;
    }
  }

  /** Every token is lower-case, made of word characters, longer than two
      characters and not a stopword. */
  lemma {:induction false} TokensClean(text: string, stopwords: set<string>)
    ensures forall t :: t in Tokenize(text, stopwords) ==>
      |t| > 2 && t !in stopwords &&
      forall c :: c in t ==> IsWordChar(c) && LowerChar(c) == c
  {
    var low := Lower(text);
    var ws := Runs(low, IsWordChar);
    RunsChars(low, IsWordChar);
    LowerFixed(text);
    assert forall t :: t in Tokenize(text, stopwords) ==> t in ws;
  }

  // ---------------------------------------------------------------------
  // Term frequency
  // ---------------------------------------------------------------------

  /** The distinct elements of `s` in order of first occurrence (the key
      order of `Counter(s)`). */
  function Dedup<T(==,!new)>(s: seq<T>): (r: seq<T>)
    ensures Distinct(r)
    ensures forall x :: x in r <==> x in s
  {
    if |s| == 0 then []
    else
      var d := Dedup(s[..|s| - 1]);
      assert forall x :: x in s <==> x in s[..|s| - 1] || x == s[|s| - 1] by {
        assert s == s[..|s| - 1] + [s[|s| - 1]];
      }
      if s[|s| - 1] in d then d else d + [s[|s| - 1]]
  }

  /** `{token: count / total for token, count in Counter(tokens).items()}`
      for keys drawn from the tokens. */
  function TfItems(ks: seq<string>, tokens: seq<string>): (r: seq<(string, real)>)
    requires |tokens| > 0 && forall k :: k in ks ==> k in tokens
    ensures |r| == |ks| && Keys(r) == ks
    ensures forall i :: 0 <= i < |ks| ==>
      r[i] == (ks[i], Count(tokens, ks[i]) as real / |tokens| as real) && r[i].1 > 0.0
  {
    var r := seq(|ks|, i requires 0 <= i < |ks| => (ks[i], Count(tokens, ks[i]) as real / |tokens| as real));
    forall i | 0 <= i < |ks|
      ensures r[i].1 > 0.0
    {
      assert ks[i] in tokens;
      PositiveRatio(Count(tokens, ks[i]), |tokens|);
    }
    r
  }

  lemma {:induction false} PositiveRatio(a: nat, n: nat)
    requires a > 0 && n > 0
    ensures a as real / n as real > 0.0
  {
  }

  lemma {:induction false} RatioSelf(n: nat)
    requires n > 0
    ensures n as real / n as real == 1.0
  {
  }

  lemma {:induction false} RatioAdd(x: real, y: real, a: nat, b: nat, sum: nat, n: nat)
    requires n > 0 && sum == a + b
    requires x == a as real / n as real && y == b as real / n as real
    ensures x + y == sum as real / n as real
  {
  }

  /** `compute_tf`: empty for no tokens; otherwise one item per distinct
      token, in order of first occurrence, valued by its relative
      frequency. */
  function ComputeTf(tokens: seq<string>): (r: seq<(string, real)>)
    ensures |tokens| == 0 ==> r == []
    ensures Keys(r) == Dedup(tokens) && KeysDistinct(r)
    ensures forall i :: 0 <= i < |r| ==>
      r[i].1 == Count(tokens, r[i].0) as real / |tokens| as real && r[i].1 > 0.0
  {
    if |tokens| == 0 then [] else TfItems(Dedup(tokens), tokens)
  }

  /** The sum of a dict's values. */
  function SumValues(d: seq<(string, real)>): real
  {
    if |d| == 0 then 0.0 else SumValues(d[..|d| - 1]) + d[|d| - 1].1
  }

  /** Total number of occurrences in `tokens` of the keys `ks`. */
  function SumCounts(ks: seq<string>, tokens: seq<string>): nat
  {
    if |ks| == 0 then 0 else SumCounts(ks[..|ks| - 1], tokens) + Count(tokens, ks[|ks| - 1])
  }

  lemma {:induction false} SumCountsSnocToken(ks: seq<string>, tokens: seq<string>, x: string)
    ensures SumCounts(ks, tokens + [x]) == SumCounts(ks, tokens) + Count(ks, x)
    decreases |ks|
  {
    if |ks| > 0 {
      var ks' := ks[..|ks| - 1];
      SumCountsSnocToken(ks', tokens, x);
      assert ks == ks' + [ks[|ks| - 1]];
      assert multiset(ks) == multiset(ks') + multiset{ks[|ks| - 1]};
    }
  }

  /** The distinct tokens account for every token exactly once. */
  lemma {:induction false} SumCountsDedup(tokens: seq<string>)
    ensures SumCounts(Dedup(tokens), tokens) == |tokens|
    decreases |tokens|
  {
    if |tokens| > 0 {
      var t' := tokens[..|tokens| - 1];
      var x := tokens[|tokens| - 1];
      var d := Dedup(t');
      assert tokens == t' + [x];
      SumCountsDedup(t');
      SumCountsSnocToken(d, t', x);
      DistinctCounts(d);
      if x in d {
        assert multiset(d)[x] >= 1;
      } else {
        assert Count(d, x) == 0;
        var d' := d + [x];
        assert d'[..|d'| - 1] == d;
        assert SumCounts(d', tokens) == SumCounts(d, tokens) + Count(tokens, x);
      }
    }
  }

  lemma {:induction false} SumTfItems(ks: seq<string>, tokens: seq<string>)
    requires |tokens| > 0 && forall k :: k in ks ==> k in tokens
    ensures SumValues(TfItems(ks, tokens)) == SumCounts(ks, tokens) as real / |tokens| as real
    decreases |ks|
  {
    if |ks| > 0 {
      var n := |ks|;
      var ks' := ks[..n - 1];
      assert forall k :: k in ks' ==> k in ks;
      SumTfItems(ks', tokens);
      var last := TfLast(ks, tokens);
      RatioAdd(SumValues(TfItems(ks', tokens)), last, SumCounts(ks', tokens), Count(tokens, ks[n - 1]),
               SumCounts(ks, tokens), |tokens|);
    }
  }

  /** Splitting off the last term frequency. */
  lemma {:induction false} TfLast(ks: seq<string>, tokens: seq<string>) returns (last: real)
    requires |tokens| > 0 && |ks| > 0 && forall k :: k in ks ==> k in tokens
    ensures forall k :: k in ks[..|ks| - 1] ==> k in tokens
    ensures last == Count(tokens, ks[|ks| - 1]) as real / |tokens| as real
    ensures SumValues(TfItems(ks, tokens)) == SumValues(TfItems(ks[..|ks| - 1], tokens)) + last
    ensures SumCounts(ks, tokens) == SumCounts(ks[..|ks| - 1], tokens) + Count(tokens, ks[|ks| - 1])
  {
    var n := |ks|;
    var t := TfItems(ks, tokens);
    assert forall k :: k in ks[..n - 1] ==> k in ks;
    assert t[..n - 1] == TfItems(ks[..n - 1], tokens);
    last := t[n - 1].1;
  }

  /** The term frequencies of a non-empty token list add up to one. */
  lemma {:induction false} TfSumsToOne(tokens: seq<string>)
    requires |tokens| > 0
    ensures SumValues(ComputeTf(tokens)) == 1.0
  {
    var n := |tokens|;
    var ks := Dedup(tokens);
    SumTfItems(ks, tokens);
    SumCountsDedup(tokens);
    assert ComputeTf(tokens) == TfItems(ks, tokens);
    RatioSelf(n);
  }

  // ---------------------------------------------------------------------
  // Cosine similarity
  // ---------------------------------------------------------------------

  /** `x * v[k]` when `v` holds `k`, else nothing. */
  function Weighted(v: seq<(string, real)>, k: string, x: real): real
  {
    match Get(v, k)
    case None => 0.0
    case Some(y) => x * y
  }

  /** `v1[k] * v2[k]` summed over the keys the two vectors share. */
  function Dot(v1: seq<(string, real)>, v2: seq<(string, real)>): real
  {
    if |v1| == 0 then 0.0
    else Dot(v1[..|v1| - 1], v2) + Weighted(v2, v1[|v1| - 1].0, v1[|v1| - 1].1)
  }

  /** `sum(v * v for v in vec.values())`. */
  function SumSquares(v: seq<(string, real)>): (r: real)
    ensures r >= 0.0
  {
    if |v| == 0 then 0.0 else SumSquares(v[..|v| - 1]) + v[|v| - 1].1 * v[|v| - 1].1
  }

  /** `cosine_similarity`: zero when either vector is empty or has zero
      magnitude, otherwise the dot product over the product of the
      magnitudes. */
  function CosineSimilarity(m: RealMath, v1: seq<(string, real)>, v2: seq<(string, real)>): (r: real)
    ensures |v1| == 0 || |v2| == 0 ==> r == 0.0
    ensures Lawful(m) && (SumSquares(v1) == 0.0 || SumSquares(v2) == 0.0) ==> r == 0.0
  {
    if |v1| == 0 || |v2| == 0 then 0.0
    else
      var mag1 := m.sqrt(SumSquares(v1));
      var mag2 := m.sqrt(SumSquares(v2));
      if mag1 == 0.0 || mag2 == 0.0 then 0.0 else Dot(v1, v2) / (mag1 * mag2)
  }

  /** Appending a key that is not yet present. */
  lemma {:induction false} GetSnoc(d: seq<(string, real)>, k: string, v: real, k': string)
    requires k !in Keys(d)
    ensures Get(d + [(k, v)], k') == if k' == k then Some(v) else Get(d, k')
  {
    PutFacts(d, k, v);
  }

  lemma {:induction false} KeysDistinctPrefix(d: seq<(string, real)>)
    requires KeysDistinct(d) && |d| > 0
    ensures KeysDistinct(d[..|d| - 1]) && d[|d| - 1].0 !in Keys(d[..|d| - 1])
  {
  }

  /** Appending a new key to a vector: weights of other keys stay. */
  lemma {:induction false} WeightedSnoc(d: seq<(string, real)>, k: string, v: real, k': string, x: real)
    requires k !in Keys(d)
    ensures Weighted(d + [(k, v)], k', x) == if k' == k then x * v else Weighted(d, k', x)
  {
    GetSnoc(d, k, v, k');
  }

  /** Adding an item to the right-hand vector adds its product with the
      matching left-hand value. */
  lemma {:induction false} DotSnocRight(w: seq<(string, real)>, u: seq<(string, real)>, a: string, x: real)
    requires KeysDistinct(w) && a !in Keys(u)
    ensures Dot(w, u + [(a, x)]) == Dot(w, u) + Weighted(w, a, x)
    decreases |w|
  {
    if |w| > 0 {
      var w' := w[..|w| - 1];
      var b, y := w[|w| - 1].0, w[|w| - 1].1;
      KeysDistinctPrefix(w);
      DotSnocRight(w', u, a, x);
      assert w == w' + [(b, y)];
      WeightedSnoc(u, a, x, b, y);
      WeightedSnoc(w', b, y, a, x);
      assert Dot(w, u + [(a, x)]) == Dot(w', u + [(a, x)]) + Weighted(u + [(a, x)], b, y);
      assert Dot(w, u) == Dot(w', u) + Weighted(u, b, y);
    }
  }

  /** Nothing is shared with the empty vector. */
  lemma {:induction false} DotNilRight(w: seq<(string, real)>)
    ensures Dot(w, []) == 0.0
    decreases |w|
  {
    if |w| > 0 {
      DotNilRight(w[..|w| - 1]);
    }
  }

  /** The dot product does not depend on the order of its arguments. */
  lemma {:induction false} DotSymmetric(v1: seq<(string, real)>, v2: seq<(string, real)>)
    requires KeysDistinct(v1) && KeysDistinct(v2)
    ensures Dot(v1, v2) == Dot(v2, v1)
    decreases |v1|
  {
    if |v1| > 0 {
      var u := v1[..|v1| - 1];
      var a, x := v1[|v1| - 1].0, v1[|v1| - 1].1;
      KeysDistinctPrefix(v1);
      DotSymmetric(u, v2);
      assert v1 == u + [(a, x)];
      DotSnocRight(v2, u, a, x);
      assert Dot(v1, v2) == Dot(u, v2) + Weighted(v2, a, x);
      assert Dot(v2, v1) == Dot(v2, u) + Weighted(v2, a, x);
    } else {
      DotNilRight(v2);
    }
  }

  lemma {:induction false} NonNegProduct(a: real, b: real)
    requires a >= 0.0 && b >= 0.0
    ensures a * b >= 0.0
  {
  }

  lemma {:induction false} RatioAtLeastOne(n: nat, d: nat)
    requires 0 < d <= n
    ensures n as real / d as real >= 1.0
  {
  }

  /** Vectors without negative weights have a non-negative dot product. */
  lemma {:induction false} DotNonNeg(v1: seq<(string, real)>, v2: seq<(string, real)>)
    requires forall i :: 0 <= i < |v1| ==> v1[i].1 >= 0.0
    requires forall i :: 0 <= i < |v2| ==> v2[i].1 >= 0.0
    ensures Dot(v1, v2) >= 0.0
    decreases |v1|
  {
    if |v1| > 0 {
      var k, x := v1[|v1| - 1].0, v1[|v1| - 1].1;
      DotNonNeg(v1[..|v1| - 1], v2);
      match Get(v2, k)
      case None =>
      case Some(y) =>
        var j :| 0 <= j < |v2| && v2[j] == (k, y);
        NonNegProduct(x, y);
    }
  }

  /** Between vectors without negative weights the cosine is never
      negative. */
  lemma {:induction false} CosineNonNeg(m: RealMath, v1: seq<(string, real)>, v2: seq<(string, real)>)
    requires Lawful(m)
    requires forall i :: 0 <= i < |v1| ==> v1[i].1 >= 0.0
    requires forall i :: 0 <= i < |v2| ==> v2[i].1 >= 0.0
    ensures CosineSimilarity(m, v1, v2) >= 0.0
  {
    if |v1| > 0 && |v2| > 0 {
      var mag1 := m.sqrt(SumSquares(v1));
      var mag2 := m.sqrt(SumSquares(v2));
      if mag1 != 0.0 && mag2 != 0.0 {
        DotNonNeg(v1, v2);
        assert mag1 > 0.0 && mag2 > 0.0;
        NonNegProduct(mag1, mag2);
        NonNegRatio(Dot(v1, v2), mag1 * mag2);
      }
    }
  }

  /** The value `v` holds for `k`, or 0. */
  function ValueAt(v: seq<(string, real)>, k: string): real
  {
    match Get(v, k)
    case None => 0.0
    case Some(y) => y
  }

  /** The squares of `v2`'s values at the keys of `v1`: the part of
      `v2`'s magnitude that `v1` sees. */
  function Projected(v1: seq<(string, real)>, v2: seq<(string, real)>): (r: real)
    ensures r >= 0.0
  {
    if |v1| == 0 then 0.0
    else Projected(v1[..|v1| - 1], v2) + ValueAt(v2, v1[|v1| - 1].0) * ValueAt(v2, v1[|v1| - 1].0)
  }

  /** `d * d <= s * p`: the shape of the Cauchy–Schwarz inequality. */
  predicate SquareAtMost(d: real, s: real, p: real)
  {
    d * d <= s * p
  }

  /** `d` is `c` plus `x * y`: one entry added to a running sum. */
  predicate AddsProduct(d: real, c: real, x: real, y: real)
  {
    d == c + x * y
  }

  /** One step of the Cauchy–Schwarz induction: from `C*C <= A*B` with
      `A` and `B` non-negative, adding `x*y` to `C`, `x*x` to `A` and
      `y*y` to `B` keeps the inequality. */
  lemma {:induction false} CauchyStep(a: real, b: real, c: real, x: real, y: real)
    requires a >= 0.0 && b >= 0.0 && c * c <= a * b
    ensures (c + x * y) * (c + x * y) <= (a + x * x) * (b + y * y)
  {
    ExpandSquare(c, x * y);
    ExpandProduct(a, b, x * x, y * y);
    SquareOfProduct(x, y);
    CrossBound(a, b, c, x, y);
  }

  lemma {:induction false} ExpandSquare(c: real, t: real)
    ensures (c + t) * (c + t) == c * c + 2.0 * (c * t) + t * t
  {
  }

  lemma {:induction false} ExpandProduct(a: real, b: real, p: real, q: real)
    ensures (a + p) * (b + q) == a * b + a * q + b * p + p * q
  {
  }

  lemma {:induction false} SquareOfProduct(x: real, y: real)
    ensures (x * y) * (x * y) == (x * x) * (y * y)
  {
  }

  /** The cross term of one Cauchy–Schwarz step is bounded by the two
      mixed terms. */
  lemma {:induction false} CrossBound(a: real, b: real, c: real, x: real, y: real)
    requires a >= 0.0 && b >= 0.0 && c * c <= a * b
    ensures 2.0 * (c * (x * y)) <= a * (y * y) + b * (x * x)
  {
    if a > 0.0 {
      CrossPositive(a, b, c, x, y);
    } else {
      CrossZero(a, b, c, x, y);
    }
  }

  lemma {:induction false} CrossPositive(a: real, b: real, c: real, x: real, y: real)
    requires a > 0.0 && c * c <= a * b
    ensures 2.0 * (c * (x * y)) <= a * (y * y) + b * (x * x)
  {
    var e := a * (y * y) + b * (x * x) - 2.0 * (c * (x * y));
    var z := a * y - c * x;
    CrossIdentity(a, b, c, x, y);
    SquareNonNeg(z);
    SquareNonNeg(x);
    NonNegProduct(x * x, a * b - c * c);
    PositiveFactor(a, e);
  }

  /** a * (a*y*y + b*x*x - 2*c*x*y) == (a*y - c*x)^2 + x*x*(a*b - c*c) */
  lemma {:induction false} CrossIdentity(a: real, b: real, c: real, x: real, y: real)
    ensures a * (a * (y * y) + b * (x * x) - 2.0 * (c * (x * y)))
         == (a * y - c * x) * (a * y - c * x) + (x * x) * (a * b - c * c)
  {
  }

  lemma {:induction false} CrossZero(a: real, b: real, c: real, x: real, y: real)
    requires a == 0.0 && b >= 0.0 && c * c <= a * b
    ensures 2.0 * (c * (x * y)) <= a * (y * y) + b * (x * x)
  {
    assert a * b == 0.0;
    ZeroOfSquare(c, c);
    SquareNonNeg(x);
    NonNegProduct(b, x * x);
    assert a * (y * y) == 0.0;
  }

  lemma {:induction false} SquareNonNeg(z: real)
    ensures z * z >= 0.0
  {
    if z < 0.0 {
      assert z * z == (-z) * (-z);
      NonNegProduct(-z, -z);
    } else {
      NonNegProduct(z, z);
    }
  }

  /** Only 0 squares to 0 (the square is taken as `c * d` with `c == d`). */
  lemma {:induction false} ZeroOfSquare(c: real, d: real)
    requires c == d && c * d <= 0.0
    ensures c == 0.0
  {
    if c != 0.0 {
      PositiveProduct(c, d);
    }
  }

  lemma {:induction false} PositiveProduct(c: real, d: real)
    requires c == d && c != 0.0
    ensures c * d > 0.0
  {
    if c < 0.0 {
      assert c * d == (-c) * (-d);
    }
  }

  lemma {:induction false} PositiveFactor(a: real, e: real)
    requires a > 0.0 && a * e >= 0.0
    ensures e >= 0.0
  {
  }

  /** The Cauchy–Schwarz step restated over the extended sums. */
  lemma {:induction false} CauchyExtend(a: real, b: real, c: real, x: real, y: real, d: real, s: real, p: real)
    requires a >= 0.0 && b >= 0.0 && SquareAtMost(c, a, b)
    requires AddsProduct(d, c, x, y) && AddsProduct(s, a, x, x) && AddsProduct(p, b, y, y)
    ensures SquareAtMost(d, s, p)
  {
    CauchyStep(a, b, c, x, y);
  }

  /** The dot product squared is at most the first vector's squares times
      the squares of the second's values at the first's keys. */
  lemma {:induction false} DotProjected(v1: seq<(string, real)>, v2: seq<(string, real)>)
    ensures SquareAtMost(Dot(v1, v2), SumSquares(v1), Projected(v1, v2))
    decreases |v1|
  {
    if |v1| > 0 {
      DotProjected(v1[..|v1| - 1], v2);
      DotProjectedStep(v1, v2);
    }
  }

  lemma {:induction false} DotProjectedStep(v1: seq<(string, real)>, v2: seq<(string, real)>)
    requires |v1| > 0
    requires var w := v1[..|v1| - 1]; SquareAtMost(Dot(w, v2), SumSquares(w), Projected(w, v2))
    ensures SquareAtMost(Dot(v1, v2), SumSquares(v1), Projected(v1, v2))
  {
    var w := v1[..|v1| - 1];
    SumsSnoc(v1, v2);
    CauchyExtend(SumSquares(w), Projected(w, v2), Dot(w, v2), v1[|v1| - 1].1, ValueAt(v2, v1[|v1| - 1].0),
                 Dot(v1, v2), SumSquares(v1), Projected(v1, v2));
  }

  /** The three sums of the Cauchy–Schwarz induction, one entry on. */
  lemma {:induction false} SumsSnoc(v1: seq<(string, real)>, v2: seq<(string, real)>)
    requires |v1| > 0
    ensures var w, x, y := v1[..|v1| - 1], v1[|v1| - 1].1, ValueAt(v2, v1[|v1| - 1].0);
      && AddsProduct(Dot(v1, v2), Dot(w, v2), x, y)
      && AddsProduct(SumSquares(v1), SumSquares(w), x, x)
      && AddsProduct(Projected(v1, v2), Projected(w, v2), y, y)
  {
    assert Weighted(v2, v1[|v1| - 1].0, v1[|v1| - 1].1) == v1[|v1| - 1].1 * ValueAt(v2, v1[|v1| - 1].0);
  }

  /** Appending a key absent from `v2` adds its square once when `v1`
      holds that key. */
  lemma {:induction false} ProjectedSnoc(v1: seq<(string, real)>, v2: seq<(string, real)>, a: string, x: real)
    requires KeysDistinct(v1) && a !in Keys(v2)
    ensures Projected(v1, v2 + [(a, x)]) == Projected(v1, v2) + (if a in Keys(v1) then x * x else 0.0)
    decreases |v1|
  {
    if |v1| > 0 {
      var w := v1[..|v1| - 1];
      var k := v1[|v1| - 1].0;
      KeysDistinctPrefix(v1);
      ProjectedSnoc(w, v2, a, x);
      GetSnoc(v2, a, x, k);
      KeysLast(v1, a);
      assert ValueAt(v2 + [(a, x)], k) == if k == a then x else ValueAt(v2, k);
    }
  }

  /** With distinct keys on both sides, `v1` sees at most all of `v2`'s
      magnitude. */
  lemma {:induction false} ProjectedBound(v1: seq<(string, real)>, v2: seq<(string, real)>)
    requires KeysDistinct(v1) && KeysDistinct(v2)
    ensures Projected(v1, v2) <= SumSquares(v2)
    decreases |v2|
  {
    if |v2| == 0 {
      ProjectedNil(v1);
    } else {
      var u := v2[..|v2| - 1];
      var a, x := v2[|v2| - 1].0, v2[|v2| - 1].1;
      KeysDistinctPrefix(v2);
      ProjectedBound(v1, u);
      assert v2 == u + [(a, x)];
      ProjectedSnoc(v1, u, a, x);
      assert SumSquares(v2) == SumSquares(u) + x * x;
      assert x * x >= 0.0;
    }
  }

  lemma {:induction false} ProjectedNil(v1: seq<(string, real)>)
    ensures Projected(v1, []) == 0.0
    decreases |v1|
  {
    if |v1| > 0 {
      ProjectedNil(v1[..|v1| - 1]);
    }
  }

  /** Cauchy–Schwarz for vectors with distinct keys. */
  lemma {:induction false} CauchySchwarz(v1: seq<(string, real)>, v2: seq<(string, real)>)
    requires KeysDistinct(v1) && KeysDistinct(v2)
    ensures SquareAtMost(Dot(v1, v2), SumSquares(v1), SumSquares(v2))
  {
    DotProjected(v1, v2);
    ProjectedBound(v1, v2);
    MulChain(Dot(v1, v2), SumSquares(v1), Projected(v1, v2), SumSquares(v2));
  }

  lemma {:induction false} MulChain(d: real, s: real, p: real, q: real)
    requires SquareAtMost(d, s, p) && s >= 0.0 && p <= q
    ensures SquareAtMost(d, s, q)
  {
    NonNegProduct(s, q - p);
    assert s * q - s * p == s * (q - p);
  }

  /** `cosine_similarity` of vectors with distinct keys lies in [-1, 1]. */
  lemma {:induction false} CosineBounded(m: RealMath, v1: seq<(string, real)>, v2: seq<(string, real)>)
    requires Lawful(m) && KeysDistinct(v1) && KeysDistinct(v2)
    ensures -1.0 <= CosineSimilarity(m, v1, v2) <= 1.0
  {
    if |v1| > 0 && |v2| > 0 {
      var mag1 := m.sqrt(SumSquares(v1));
      var mag2 := m.sqrt(SumSquares(v2));
      if mag1 != 0.0 && mag2 != 0.0 {
        CauchySchwarz(v1, v2);
        RatioOfRoots(Dot(v1, v2), SumSquares(v1), SumSquares(v2), mag1, mag2);
      }
    }
  }

  /** `d / (m1 * m2)` lies in [-1, 1] when `m1` and `m2` are the positive
      square roots of `s1` and `s2` and `d * d <= s1 * s2`. */
  lemma {:induction false} RatioOfRoots(d: real, s1: real, s2: real, m1: real, m2: real)
    requires m1 >= 0.0 && m2 >= 0.0 && m1 != 0.0 && m2 != 0.0
    requires m1 * m1 == s1 && m2 * m2 == s2 && SquareAtMost(d, s1, s2)
    ensures -1.0 <= d / (m1 * m2) <= 1.0
  {
    RatioBounded(d, m1, m2);
  }

  /** `d / (p * q)` lies in [-1, 1] when `d * d <= (p * p) * (q * q)`
      for positive `p` and `q`. */
  lemma {:induction false} RatioBounded(d: real, p: real, q: real)
    requires p > 0.0 && q > 0.0 && SquareAtMost(d, p * p, q * q)
    ensures -1.0 <= d / (p * q) <= 1.0
  {
    var s := p * q;
    assert s > 0.0;
    assert d * d <= s * s;
    assert (s - d) * (s + d) == s * s - d * d;
    assert -s <= d <= s;
    assert d / s <= s / s && -s / s <= d / s;
  }

  lemma {:induction false} NonNegRatio(a: real, b: real)
    requires a >= 0.0 && b > 0.0
    ensures a / b >= 0.0
  {
  }

  /** `cosine_similarity` is symmetric. */
  lemma {:induction false} CosineSymmetric(m: RealMath, v1: seq<(string, real)>, v2: seq<(string, real)>)
    requires KeysDistinct(v1) && KeysDistinct(v2)
    ensures CosineSimilarity(m, v1, v2) == CosineSimilarity(m, v2, v1)
  {
    DotSymmetric(v1, v2);
    var mag1 := m.sqrt(SumSquares(v1));
    var mag2 := m.sqrt(SumSquares(v2));
    assert mag1 * mag2 == mag2 * mag1;
  }

  // ---------------------------------------------------------------------
  // The corpus
  // ---------------------------------------------------------------------

  /** `term_document_freq.get(t, 0)`. */
  function DfGet<T>(df: map<T, nat>, t: T): nat
  {
    if t in df then df[t] else 0
  }

  /** `d` is `df` with one more for each member of `done`. */
  ghost predicate CountedOnce<T(!new)>(df: map<T, nat>, d: map<T, nat>, done: set<T>)
  {
    && d.Keys == df.Keys + done
    && forall t :: DfGet(d, t) == DfGet(df, t) + (if t in done then 1 else 0)
  }

  lemma {:induction false} CountStep<T(!new)>(df: map<T, nat>, d: map<T, nat>, tokens: set<T>, rest: set<T>, t: T)
    requires CountedOnce(df, d, tokens - rest) && t in rest && rest <= tokens
    ensures CountedOnce(df, d[t := DfGet(d, t) + 1], tokens - (rest - {t}))
  {
    var d' := d[t := DfGet(d, t) + 1];
    var done' := tokens - (rest - {t});
    forall u
      ensures DfGet(d', u) == DfGet(df, u) + (if u in done' then 1 else 0)
    {
      if u != t {
        assert DfGet(d', u) == DfGet(d, u);
      }
    }
  }

  /** The loop of `add_document`: one more for each member of `tokens`. */
  method CountOnce<T(!new)>(df: map<T, nat>, tokens: set<T>) returns (d: map<T, nat>)
    ensures forall t :: t in d <==> t in df || t in tokens
    ensures forall t :: DfGet(d, t) == DfGet(df, t) + (if t in tokens then 1 else 0)
    ensures forall t :: t in d ==> d[t] >= 1 || (t in df && d[t] == df[t])
  {
    d := df;
    var rest := tokens;
    while rest != {}
      invariant rest <= tokens && CountedOnce(df, d, tokens - rest)
      decreases |rest|
    {
      var t :| t in rest;
      CountStep(df, d, tokens, rest, t);
      d := d[t := DfGet(d, t) + 1];
      rest := rest - {t};
    }
    CountedFacts(df, d, tokens);
  }

  /** What `CountedOnce` says of the finished loop. */
  lemma {:induction false} CountedFacts<T(!new)>(df: map<T, nat>, d: map<T, nat>, tokens: set<T>)
    requires CountedOnce(df, d, tokens - {})
    ensures forall t :: t in d <==> t in df || t in tokens
    ensures forall t :: DfGet(d, t) == DfGet(df, t) + (if t in tokens then 1 else 0)
    ensures forall t :: t in d ==> d[t] >= 1 || (t in df && d[t] == df[t])
  {
    assert tokens - {} == tokens;
    forall t | t in d
      ensures d[t] >= 1 || (t in df && d[t] == df[t])
    {
      assert DfGet(d, t) == d[t];
    }
  }

  /** The state the scores are computed from: the two math functions, the
      stopwords, the number of documents and each term's document
      frequency. */
  datatype Corpus = Corpus(math: RealMath, stopwords: set<string>, documentCount: nat, df: map<string, nat>)

  /** No term occurs in more documents than were added. */
  ghost predicate CorpusValid(c: Corpus)
  {
    Lawful(c.math) && forall t :: t in c.df ==> 1 <= c.df[t] <= c.documentCount
  }

  /** `compute_idf`: zero for an empty corpus or an unseen term, otherwise
      `log(N / df)`, which is never negative. */
  function ComputeIdf(c: Corpus, token: string): (r: real)
    ensures c.documentCount == 0 || DfGet(c.df, token) == 0 ==> r == 0.0
    ensures CorpusValid(c) ==> r >= 0.0
  {
    if c.documentCount == 0 then 0.0
    else
      var d := DfGet(c.df, token);
      if d == 0 then 0.0
      else
        assert CorpusValid(c) ==> c.documentCount as real / d as real >= 1.0 by {
          if CorpusValid(c) { RatioAtLeastOne(c.documentCount, d); }
        }
        c.math.ln(c.documentCount as real / d as real)
  }

  /** One term frequency multiplied by the term's inverse document
      frequency. */
  function WeighItem(c: Corpus, item: (string, real)): (string, real)
  {
    (item.0, item.1 * ComputeIdf(c, item.0))
  }

  /** `{t: tf * idf(t) for t, tf in tf.items()}`. */
  function Weigh(c: Corpus, tf: seq<(string, real)>): (r: seq<(string, real)>)
    ensures |r| == |tf| && Keys(r) == Keys(tf)
    ensures forall i :: 0 <= i < |tf| ==> r[i] == WeighItem(c, tf[i])
  {
    if |tf| == 0 then []
    else Weigh(c, tf[..|tf| - 1]) + [WeighItem(c, tf[|tf| - 1])]
  }

  /** The TF-IDF vector of a token list: one item per distinct token, in
      order of first occurrence, never negative. */
  lemma {:induction false} TfidfFacts(c: Corpus, tokens: seq<string>)
    ensures Keys(Weigh(c, ComputeTf(tokens))) == Dedup(tokens)
    ensures KeysDistinct(Weigh(c, ComputeTf(tokens)))
    ensures CorpusValid(c) ==> forall i :: 0 <= i < |Weigh(c, ComputeTf(tokens))| ==>
      Weigh(c, ComputeTf(tokens))[i].1 >= 0.0
  {
    var tf := ComputeTf(tokens);
    assert Keys(Weigh(c, tf)) == Keys(tf);
    if CorpusValid(c) {
      WeighNonNeg(c, tf);
    }
  }

  /** Weighing non-negative frequencies by a valid corpus gives
      non-negative weights. */
  lemma {:induction false} WeighNonNeg(c: Corpus, tf: seq<(string, real)>)
    requires CorpusValid(c) && forall i :: 0 <= i < |tf| ==> tf[i].1 >= 0.0
    ensures forall i :: 0 <= i < |Weigh(c, tf)| ==> Weigh(c, tf)[i].1 >= 0.0
  {
    var r := Weigh(c, tf);
    forall i | 0 <= i < |r|
      ensures r[i].1 >= 0.0
    {
      assert r[i] == WeighItem(c, tf[i]);
      NonNegProduct(tf[i].1, ComputeIdf(c, tf[i].0));
    }
  }

  /** Assigning the next weighted term appends it, as the terms are
      distinct. */
  lemma {:induction false} WeighStep(c: Corpus, tf: seq<(string, real)>, i: nat)
    requires KeysDistinct(tf) && i < |tf|
    ensures Put(Weigh(c, tf[..i]), tf[i].0, WeighItem(c, tf[i]).1) == Weigh(c, tf[..i + 1])
  {
    var r := Weigh(c, tf[..i]);
    assert Keys(r) == Keys(tf[..i]);
    assert tf[i].0 !in Keys(r);
    PutFacts(r, tf[i].0, WeighItem(c, tf[i]).1);
    assert tf[..i + 1][..i] == tf[..i];
  }

  /** The TF-IDF vector of a text. */
  function TfidfOf(c: Corpus, text: string): seq<(string, real)>
  {
    Weigh(c, ComputeTf(Tokenize(text, c.stopwords)))
  }

  /** The similarity score of two texts: the cosine of their TF-IDF
      vectors. */
  function SimilarityOf(c: Corpus, text1: string, text2: string): real
  {
    CosineSimilarity(c.math, TfidfOf(c, text1), TfidfOf(c, text2))
  }

  /** Similarity never exceeds 1: the cosine of two TF-IDF vectors, whose
      keys are distinct. */
  lemma {:induction false} SimilarityAtMostOne(c: Corpus, text1: string, text2: string)
    requires Lawful(c.math)
    ensures SimilarityOf(c, text1, text2) <= 1.0
  {
    TfidfFacts(c, Tokenize(text1, c.stopwords));
    TfidfFacts(c, Tokenize(text2, c.stopwords));
    CosineBounded(c.math, TfidfOf(c, text1), TfidfOf(c, text2));
  }

  /** Similarity does not depend on the order of the texts. */
  lemma {:induction false} SimilaritySymmetric(c: Corpus, text1: string, text2: string)
    ensures SimilarityOf(c, text1, text2) == SimilarityOf(c, text2, text1)
  {
    TfidfFacts(c, Tokenize(text1, c.stopwords));
    TfidfFacts(c, Tokenize(text2, c.stopwords));
    CosineSymmetric(c.math, TfidfOf(c, text1), TfidfOf(c, text2));
  }

  /** With a consistent corpus, similarity is never negative. */
  lemma {:induction false} SimilarityNonNeg(c: Corpus, text1: string, text2: string)
    requires CorpusValid(c)
    ensures SimilarityOf(c, text1, text2) >= 0.0
  {
    TfidfFacts(c, Tokenize(text1, c.stopwords));
    TfidfFacts(c, Tokenize(text2, c.stopwords));
    CosineNonNeg(c.math, TfidfOf(c, text1), TfidfOf(c, text2));
  }

  class SemanticSimilarity {
    /** The functions standing for `math.log` and `math.sqrt`. */
    const math: RealMath
    const stopwords: set<string>
    var documentCount: nat
    var df: map<string, nat>

    /** The fields as one value. */
    function State(): Corpus
      reads this
    {
      Corpus(math, stopwords, documentCount, df)
    }

    ghost predicate Valid()
      reads this
    {
      CorpusValid(State())
    }

    constructor (math: RealMath)
      requires Lawful(math)
      ensures Valid() && this.math == math && stopwords == DefaultStopwords
      ensures documentCount == 0 && df == map[]
    {
      this.math := math;
      stopwords := DefaultStopwords;
      documentCount := 0;
      df := map[];
    }

    /** `add_document`: one more document, and one more document for each
        distinct token of its text, however often it repeats. */
    method AddDocument(text: string)
      requires Valid()
      modifies this
      ensures Valid()
      ensures documentCount == old(documentCount) + 1
      ensures forall t :: t in df <==> t in old(df) || t in Tokenize(text, stopwords)
      ensures forall t :: DfGet(df, t) == DfGet(old(df), t) + (if t in Tokenize(text, stopwords) then 1 else 0)
    {
      var tokens := set t | t in Tokenize(text, stopwords);
      var d := CountOnce(df, tokens);
      forall t | t in d
        ensures 1 <= d[t] <= documentCount + 1
      {
        assert DfGet(d, t) == d[t];
      }
      documentCount := documentCount + 1;
      df := d;
    }

    /** `compute_tfidf_vector`: the loop over the term frequencies. */
    method ComputeTfidfVector(text: string) returns (r: seq<(string, real)>)
      ensures r == TfidfOf(State(), text)
      ensures Keys(r) == Dedup(Tokenize(text, stopwords)) && KeysDistinct(r)
      ensures Valid() ==> forall i :: 0 <= i < |r| ==> r[i].1 >= 0.0
    {
      var c := State();
      var tf := ComputeTf(Tokenize(text, stopwords));
      r := [];
      var i := 0;
      while i < |tf|
        invariant 0 <= i <= |tf|
        invariant r == Weigh(c, tf[..i])
      {
        WeighStep(c, tf, i);
        r := Put(r, tf[i].0, WeighItem(c, tf[i]).1);
        i := i + 1;
      }
      assert tf[..|tf|] == tf;
      TfidfFacts(c, Tokenize(text, stopwords));
    }

    /** `similarity`: the cosine of the two texts' TF-IDF vectors; zero
        when either text has no token, and never negative. */
    method Similarity(text1: string, text2: string) returns (r: real)
      ensures r == SimilarityOf(State(), text1, text2)
      ensures Tokenize(text1, stopwords) == [] || Tokenize(text2, stopwords) == [] ==> r == 0.0
      ensures Valid() ==> 0.0 <= r <= 1.0
    {
      var v1 := ComputeTfidfVector(text1);
      var v2 := ComputeTfidfVector(text2);
      r := CosineSimilarity(math, v1, v2);
      if Valid() {
        CosineNonNeg(math, v1, v2);
        SimilarityAtMostOne(State(), text1, text2);
      }
    }
  }
}
