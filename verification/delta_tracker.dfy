/**
 The delta tracker and the stat arithmetic. The client keeps, per workload
 key, the last extrapolated cumulative total. A new extrapolated total `t`
 yields the request count `t - previous` (previous 0 for an unseen key),
 computed in int64 and truncated to int32, and unconditionally replaces the
 stored value, even when the count is negative.
 */
module DeltaTracker {
  import opened GoInt

  /** Go's read of a missing map key: 0. */
  function Previous(last: map<string, int>, key: string): (v: int)
    ensures key !in last ==> v == 0
  {
    if key in last then last[key] else 0
  }

  /** Every stored value fits int64, as `map[string]int64` guarantees. */
  predicate StoredInt64(last: map<string, int>)
  {
    forall k | k in last :: InInt64(last[k])
  }

  /** A sample scaled by the replica count with int64 multiplication. */
  function Extrapolate(sample: int, podCount: nat): (r: int)
    ensures InInt64(r)
    ensures podCount == 0 ==> r == 0
  {
    Wrap64(sample * podCount)
  }

  /** Without overflow the scaled sample is the exact product. */
  lemma ExtrapolateExact(sample: int, podCount: nat)
    requires InInt64(sample * podCount)
    ensures Extrapolate(sample, podCount) == sample * podCount
  {
  }

  datatype Tracked = Tracked(requestCount: int, last: map<string, int>)

  /** One read-modify-write of the stored total for `key`. */
  function Track(last: map<string, int>, key: string, extrapolated: int): (t: Tracked)
    requires InInt64(extrapolated)
    ensures t.last.Keys == last.Keys + {key}
    ensures t.last[key] == extrapolated
    ensures forall k | k in last && k != key :: t.last[k] == last[k]
    ensures InInt32(t.requestCount)
    ensures Wrap32(Previous(last, key) + t.requestCount) == Wrap32(extrapolated)
    ensures InInt64(Previous(last, key)) && InInt32(extrapolated - Previous(last, key)) ==>
              t.requestCount == extrapolated - Previous(last, key)
  {
    var count := Wrap32(Wrap64(extrapolated - Previous(last, key)));
    TrackedCountAddsUp(Previous(last, key), extrapolated, count);
    Tracked(count, last[key := extrapolated])
  }

  /** The truncated delta added to the previous total is congruent to the new total modulo 2^32. */
  lemma TrackedCountAddsUp(prev: int, next: int, count: int)
    requires count == Wrap32(Wrap64(next - prev))
    ensures Wrap32(prev + count) == Wrap32(next)
  {
    Wrap32OfWrap64(next - prev);
    assert (next - prev - count) % TwoTo32 == 0;
    assert (prev + count) - next == -(next - prev - count);
    NegatedMultiple(next - prev - count);
    Wrap32Congruent(prev + count, next);
  }

  lemma NegatedMultiple(x: int)
    requires x % TwoTo32 == 0
    ensures (-x) % TwoTo32 == 0
  {
    var q := x / TwoTo32;
    assert x == q * TwoTo32;
    assert -x == (-q) * TwoTo32;
    ModShift(0, -q, TwoTo32);
  }

  /** Tracking preserves that every stored value fits int64. */
  lemma TrackKeepsInt64(last: map<string, int>, key: string, extrapolated: int)
    requires StoredInt64(last) && InInt64(extrapolated)
    ensures StoredInt64(Track(last, key, extrapolated).last)
  {
  }

  /** The request counts of a run of extrapolated totals for one key, and the final store. */
  function Replay(last: map<string, int>, key: string, totals: seq<int>): (r: (seq<int>, map<string, int>))
    requires forall i | 0 <= i < |totals| :: InInt64(totals[i])
    decreases |totals|
  {
    if |totals| == 0 then ([], last)
    else
      var t := Track(last, key, totals[0]);
      var rest := Replay(t.last, key, totals[1..]);
      ([t.requestCount] + rest.0, rest.1)
  }

  /** Replay reports one count per total, and leaves the last total stored. */
  lemma {:induction false} ReplayShape(last: map<string, int>, key: string, totals: seq<int>)
    requires forall i | 0 <= i < |totals| :: InInt64(totals[i])
    ensures |Replay(last, key, totals).0| == |totals|
    ensures |totals| > 0 ==> Replay(last, key, totals).1 == last[key := totals[|totals| - 1]]
    ensures |totals| == 0 ==> Replay(last, key, totals).1 == last
    decreases |totals|
  {
    if |totals| > 0 {
      var t := Track(last, key, totals[0]);
      var tail := totals[1..];
      ReplayShape(t.last, key, tail);
      if |tail| > 0 {
        assert tail[|tail| - 1] == totals[|totals| - 1];
        assert t.last[key := tail[|tail| - 1]] == last[key := totals[|totals| - 1]];
      }
    }
  }

  /** The i-th count of a replay is the i-th total minus the value stored before it, truncated to int32. */
  lemma {:induction false} ReplayCount(last: map<string, int>, key: string, totals: seq<int>, i: nat)
    requires forall j | 0 <= j < |totals| :: InInt64(totals[j])
    requires i < |totals|
    ensures |Replay(last, key, totals).0| == |totals|
    ensures Replay(last, key, totals).0[i] ==
              Wrap32(totals[i] - (if i == 0 then Previous(last, key) else totals[i - 1]))
    decreases i
  {
    ReplayShape(last, key, totals);
    var t := Track(last, key, totals[0]);
    var tail := totals[1..];
    ReplayShape(t.last, key, tail);
    if i == 0 {
      Wrap32OfWrap64(totals[0] - Previous(last, key));
    } else {
      ReplayCount(t.last, key, tail, i - 1);
      assert tail[i - 1] == totals[i];
      if i == 1 {
        assert Previous(t.last, key) == totals[0];
      } else {
        assert tail[i - 2] == totals[i - 1];
      }
    }
  }

  /**
   Successive tracking reports successive differences: the first count is
   the first total minus the stored value, each later count is the total
   minus the one before it (all truncated to int32), and the store ends
   holding the last total.
   */
  lemma ReplayDeltas(last: map<string, int>, key: string, totals: seq<int>)
    requires forall i | 0 <= i < |totals| :: InInt64(totals[i])
    ensures |Replay(last, key, totals).0| == |totals|
    ensures |totals| > 0 ==> Replay(last, key, totals).0[0] == Wrap32(totals[0] - Previous(last, key))
    ensures forall i | 0 < i < |totals| :: Replay(last, key, totals).0[i] == Wrap32(totals[i] - totals[i - 1])
    ensures |totals| > 0 ==> Replay(last, key, totals).1 == last[key := totals[|totals| - 1]]
    ensures |totals| == 0 ==> Replay(last, key, totals).1 == last
  {
    ReplayShape(last, key, totals);
    var counts := Replay(last, key, totals).0;
    if |totals| > 0 {
      ReplayCount(last, key, totals, 0);
    }
    forall i | 0 < i < |totals|
      ensures counts[i] == Wrap32(totals[i] - totals[i - 1])
    {
      ReplayCount(last, key, totals, i);
    }
  }

  /** From an unseen key, extrapolated totals s1, s2, s3 (deltas within int32) report s1, s2-s1, s3-s2. */
  lemma ThreeCycles(last: map<string, int>, key: string, s1: int, s2: int, s3: int)
    requires key !in last
    requires InInt32(s1) && InInt64(s2) && InInt64(s3)
    requires InInt32(s2 - s1) && InInt32(s3 - s2)
    ensures Replay(last, key, [s1, s2, s3]).0 == [s1, s2 - s1, s3 - s2]
    ensures Replay(last, key, [s1, s2, s3]).1 == last[key := s3]
  {
    ReplayDeltas(last, key, [s1, s2, s3]);
  }

  /**
   Updates of two different keys do not disturb each other, in either
   order. This is about the store map alone: a client keeps a map of its
   own and only ever stores its own key, so no single client holds two.
   */
  lemma DistinctKeysCommute(last: map<string, int>, a: string, x: int, b: string, y: int)
    requires a != b && InInt64(x) && InInt64(y)
    ensures var ab := Track(Track(last, a, x).last, b, y);
            var ba := Track(Track(last, b, y).last, a, x);
            && ab.last == ba.last
            && ab.requestCount == Track(last, b, y).requestCount
            && ba.requestCount == Track(last, a, x).requestCount
  {
    assert Previous(Track(last, a, x).last, b) == Previous(last, b);
    assert Previous(Track(last, b, y).last, a) == Previous(last, a);
  }
}
