/**
 * Python's `bisect` module on the timestamp index: binary searches over a
 * list of `(timestamp, id)` entries kept in tuple order.
 */
module Bisect {
  import opened TemporalTypes

  /** `bisect.bisect_left(a, x)`: the first position whose entry is not
      below `x`. */
  method BisectLeft(a: seq<Entry>, x: Entry) returns (lo: nat)
    requires IndexSorted(a)
    ensures lo <= |a|
    ensures forall k :: 0 <= k < lo ==> EntryLt(a[k], x)
    ensures forall k :: lo <= k < |a| ==> !EntryLt(a[k], x)
  {
    lo := 0;
    var hi := |a|;
    while lo < hi
      invariant 0 <= lo <= hi <= |a|
      invariant forall k :: 0 <= k < lo ==> EntryLt(a[k], x)
      invariant forall k :: hi <= k < |a| ==> !EntryLt(a[k], x)
      decreases hi - lo
    {
      var mid := (lo + hi) / 2;
      if EntryLt(a[mid], x) {
        forall k | 0 <= k < mid
          ensures EntryLt(a[k], x)
        {
          EntryLtIsNotLe(a[k], x);
          EntryLtIsNotLe(a[mid], x);
          EntryLeChain(x, a[k], a[mid]);
        }
        lo := mid + 1;
      } else {
        forall k | mid < k < |a|
          ensures !EntryLt(a[k], x)
        {
          EntryLtIsNotLe(a[k], x);
          EntryLtIsNotLe(a[mid], x);
          EntryLeTrans(x, a[mid], a[k]);
        }
        hi := mid;
      }
    }
  }

  /** `bisect.bisect_right(a, x)`: the first position whose entry is above
      `x`. */
  method BisectRight(a: seq<Entry>, x: Entry) returns (lo: nat)
    requires IndexSorted(a)
    ensures lo <= |a|
    ensures forall k :: 0 <= k < lo ==> !EntryLt(x, a[k])
    ensures forall k :: lo <= k < |a| ==> EntryLt(x, a[k])
  {
    lo := 0;
    var hi := |a|;
    while lo < hi
      invariant 0 <= lo <= hi <= |a|
      invariant forall k :: 0 <= k < lo ==> !EntryLt(x, a[k])
      invariant forall k :: hi <= k < |a| ==> EntryLt(x, a[k])
      decreases hi - lo
    {
      var mid := (lo + hi) / 2;
      if EntryLt(x, a[mid]) {
        forall k | mid < k < |a|
          ensures EntryLt(x, a[k])
        {
          EntryLtIsNotLe(x, a[k]);
          EntryLtIsNotLe(x, a[mid]);
          EntryLeChain(a[mid], a[k], x);
        }
        hi := mid;
      } else {
        forall k | 0 <= k < mid
          ensures !EntryLt(x, a[k])
        {
          EntryLtIsNotLe(x, a[k]);
          EntryLtIsNotLe(x, a[mid]);
          EntryLeTrans(a[k], a[mid], x);
        }
        lo := mid + 1;
      }
    }
  }

  /** The first position whose timestamp is above `t`, comparing timestamps
      only. */
  method BisectRightTime(a: seq<Entry>, t: int) returns (lo: nat)
    requires IndexSorted(a)
    ensures lo <= |a|
    ensures forall k :: 0 <= k < lo ==> a[k].0 <= t
    ensures forall k :: lo <= k < |a| ==> t < a[k].0
  {
    lo := 0;
    var hi := |a|;
    while lo < hi
      invariant 0 <= lo <= hi <= |a|
      invariant forall k :: 0 <= k < lo ==> a[k].0 <= t
      invariant forall k :: hi <= k < |a| ==> t < a[k].0
      decreases hi - lo
    {
      var mid := (lo + hi) / 2;
      if t < a[mid].0 {
        hi := mid;
      } else {
        lo := mid + 1;
      }
    }
  }
}
