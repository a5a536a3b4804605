/**
 * The few pieces of Python's built-in semantics that the modelled code leans
 * on: floor division, slicing with possibly negative bounds, string
 * comparison by code points, `str.split()`, `str.lower()` and counting.
 */
module PyStd {

  /** Python's `a // b`: rounds toward negative infinity. (Dafny's `/` is
      Euclidean and differs from it when the divisor is negative.) */
  function FloorDiv(a: int, b: int): (q: int)
    requires b != 0
    ensures b > 0 ==> q * b <= a < q * b + b
    ensures b < 0 ==> q * b + b < a <= q * b
  {
    if b > 0 then a / b
    else if a % b == 0 then a / b
    else a / b - 1
  }

  /** Length of Python's `s[:n]` for a sequence of length `len`. */
  function PrefixLen(len: nat, n: int): (k: nat)
    ensures k <= len
    ensures 0 <= n ==> k == if n < len then n else len
    ensures n < 0 ==> k == if len + n < 0 then 0 else len + n
  {
    if 0 <= n then (if n < len then n else len)
    else if len + n < 0 then 0 else len + n
  }

  /** Python's `s[:n]`: the first `n` elements, or all but the last `-n`
      when `n` is negative. */
  function Prefix<T>(s: seq<T>, n: int): (r: seq<T>)
    ensures |r| == PrefixLen(|s|, n)
    ensures r == s[..|r|]
  {
    s[..PrefixLen(|s|, n)]
  }

  /** Python's `s[-n:]`, exactly as the language evaluates it: the last `n`
      elements when `n > 0`, but the WHOLE sequence when `n == 0`
      (since `-0 == 0`), and all but the first `-n` when `n < 0`. */
  function SuffixAsWritten<T>(s: seq<T>, n: int): (r: seq<T>)
    ensures n == 0 ==> r == s
    ensures 0 < n ==> |r| == (if n < |s| then n else |s|)
    ensures |r| <= |s| && r == s[|s| - |r|..]
  {
    if 0 < n then (if n < |s| then s[|s| - n..] else s)
    else if -n < |s| then s[-n..] else []
  }

  /** The last `max(n, 0)` elements of `s`: what "keep the most recent `n`"
      means for every `n`. */
  function KeepLast<T>(s: seq<T>, n: int): (r: seq<T>)
    ensures |r| <= (if n < 0 then 0 else n)
    ensures |r| == (if n <= 0 then 0 else if n < |s| then n else |s|)
    ensures r == s[|s| - |r|..]
  {
    if n <= 0 then [] else if n < |s| then s[|s| - n..] else s
  }

  /** Appending one element after a concatenation. */
  lemma {:induction false} AppendOne<T>(a: seq<T>, b: seq<T>, x: T)
    ensures (a + b) + [x] == a + (b + [x])
  {
    assert forall i :: 0 <= i < |a| + |b| + 1 ==> ((a + b) + [x])[i] == (a + (b + [x]))[i];
  }

  /** A prefix of an extended sequence that stops before the new element. */
  lemma {:induction false} PrefixOfAppend<T>(s: seq<T>, x: T, k: nat)
    requires k <= |s|
    ensures (s + [x])[..k] == s[..k]
  {
  }

  /** Python's `str <= str`: lexicographic by code point, a proper prefix
      being the smaller. */
  predicate StrLe(a: string, b: string)
    decreases |a|
  {
    |a| == 0 || (|b| > 0 && (a[0] < b[0] || (a[0] == b[0] && StrLe(a[1..], b[1..]))))
  }

  lemma {:induction false} StrLeRefl(a: string)
    ensures StrLe(a, a)
    decreases |a|
  {
    if |a| > 0 {
      StrLeRefl(a[1..]);
    }
  }

  lemma {:induction false} StrLeTotal(a: string, b: string)
    ensures StrLe(a, b) || StrLe(b, a)
    decreases |a|
  {
    if |a| > 0 && |b| > 0 && a[0] == b[0] {
      StrLeTotal(a[1..], b[1..]);
    }
  }

  lemma {:induction false} StrLeTrans(a: string, b: string, c: string)
    requires StrLe(a, b) && StrLe(b, c)
    ensures StrLe(a, c)
    decreases |a|
  {
    if |a| > 0 && a[0] == b[0] && b[0] == c[0] {
      StrLeTrans(a[1..], b[1..], c[1..]);
    }
  }

  lemma {:induction false} StrLeAntisym(a: string, b: string)
    requires StrLe(a, b) && StrLe(b, a)
    ensures a == b
    decreases |a|
  {
    if |a| > 0 {
      StrLeAntisym(a[1..], b[1..]);
      assert a == [a[0]] + a[1..] && b == [b[0]] + b[1..];
    }
  }

  /** Python's `str.isspace()` for one character. */
  predicate IsSpace(c: char)
  {
    c == ' ' || ('\t' <= c <= '\r') || ('\U{1c}' <= c <= '\U{1f}') || c == '\U{85}' ||
    c == '\U{a0}' || c == '\U{1680}' || ('\U{2000}' <= c <= '\U{200a}') ||
    c == '\U{2028}' || c == '\U{2029}' || c == '\U{202f}' || c == '\U{205f}' || c == '\U{3000}'
  }

  predicate NotSpace(c: char) { !IsSpace(c) }

  /** Length of the longest prefix of `s` whose characters all satisfy `p`. */
  function RunLen(s: string, p: char -> bool): (n: nat)
    ensures n <= |s|
    ensures forall i :: 0 <= i < n ==> p(s[i])
    ensures n < |s| ==> !p(s[n])
    decreases |s|
  {
    if |s| == 0 || !p(s[0]) then 0 else 1 + RunLen(s[1..], p)
  }

  /** The maximal runs of characters satisfying `p`, left to right. This is
      `str.split()` for `p == NotSpace` and `re.findall(r'\b\w+\b', s)` for a
      word-character predicate. */
  function Runs(s: string, p: char -> bool): (r: seq<string>)
    ensures forall w :: w in r ==> |w| > 0 && forall c :: c in w ==> p(c)
    decreases |s|
  {
    if |s| == 0 then []
    else if !p(s[0]) then Runs(s[1..], p)
    else
      var n := RunLen(s, p);
      [s[..n]] + Runs(s[n..], p)
  }

  /** Every character of a run is a character of the string. */
  lemma {:induction false} RunsChars(s: string, p: char -> bool)
    ensures forall w, c :: w in Runs(s, p) && c in w ==> c in s
    decreases |s|
  {
    if |s| > 0 {
      if !p(s[0]) {
        RunsChars(s[1..], p);
      } else {
        var n := RunLen(s, p);
        RunsChars(s[n..], p);
        forall w, c | w in Runs(s, p) && c in w
          ensures c in s
        {
          if w == s[..n] {
            var i :| 0 <= i < |w| && w[i] == c;
            assert s[i] == c;
          } else {
            assert w in Runs(s[n..], p);
            var i :| 0 <= i < |s[n..]| && s[n..][i] == c;
            assert s[n + i] == c;
          }
        }
      }
    }
  }

  /** Python's `str.split()` with no argument. */
  function SplitWhitespace(s: string): (r: seq<string>)
    ensures forall w :: w in r ==> |w| > 0 && forall c :: c in w ==> !IsSpace(c)
  {
    Runs(s, NotSpace)
  }

  /** Python's `str.lower()` on ASCII letters; other characters are kept. */
  function LowerChar(c: char): char
  {
    if 'A' <= c <= 'Z' then (c as int + 32) as char else c
  }

  function Lower(s: string): (r: string)
    ensures |r| == |s|
    ensures forall i :: 0 <= i < |s| ==> r[i] == LowerChar(s[i])
  {
    seq(|s|, i requires 0 <= i < |s| => LowerChar(s[i]))
  }

  /** Number of occurrences of `x` in `s` (Python's `list.count`). */
  function Count<T(==)>(s: seq<T>, x: T): (n: nat)
    ensures n == multiset(s)[x]
  {
    if |s| == 0 then 0
    else
      assert s == [s[0]] + s[1..];
      (if s[0] == x then 1 else 0) + Count(s[1..], x)
  }

  /** Counting over a concatenation adds the counts of the parts. */
  lemma {:induction false} CountConcat<T>(a: seq<T>, b: seq<T>, x: T)
    ensures Count(a + b, x) == Count(a, x) + Count(b, x)
  {
    assert multiset(a + b) == multiset(a) + multiset(b);
  }

  /** No element occurs twice. */
  predicate Distinct<T(==)>(s: seq<T>)
  {
    forall i, j :: 0 <= i < j < |s| ==> s[i] != s[j]
  }

  lemma {:induction false} DistinctCounts<T>(s: seq<T>)
    requires Distinct(s)
    ensures forall x :: multiset(s)[x] <= 1
    decreases |s|
  {
    if |s| > 0 {
      DistinctCounts(s[1..]);
      assert s == [s[0]] + s[1..];
      assert s[0] !in s[1..];
    }
  }

  lemma {:induction false} PairCount<T>(b: seq<T>, i: nat, j: nat)
    requires i < j < |b|
    ensures multiset(b)[b[i]] >= 1 + (if b[j] == b[i] then 1 else 0)
  {
    assert b == b[..i] + [b[i]] + b[i + 1..j] + [b[j]] + b[j + 1..];
  }

  /** A permutation of a sequence without repetitions has none either. */
  lemma {:induction false} DistinctPerm<T>(a: seq<T>, b: seq<T>)
    requires multiset(a) == multiset(b) && Distinct(a)
    ensures Distinct(b)
  {
    DistinctCounts(a);
    forall i, j | 0 <= i < j < |b|
      ensures b[i] != b[j]
    {
      PairCount(b, i, j);
    }
  }

  /** A sequence without repetitions has as many distinct elements as
      entries. */
  lemma {:induction false} DistinctCard<T>(s: seq<T>)
    requires Distinct(s)
    ensures |(set x | x in s)| == |s|
    decreases |s|
  {
    if |s| > 0 {
      DistinctCard(s[1..]);
      assert (set x | x in s) == {s[0]} + (set x | x in s[1..]);
      assert s[0] !in (set x | x in s[1..]);
    }
  }
}
