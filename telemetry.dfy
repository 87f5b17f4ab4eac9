/** The vendor's samples, the normalized points the transformers produce, and
    the sequence functions the transformers are specified with: the samples
    that carry a value, their values, and sums. */
module Telemetry {
  import opened Wrappers

  /** One entry of a vendor response's `values` list: a local time string and
      a number, or None where the vendor has no data. */
  datatype Sample = Sample(date: string, value: Option<int>)

  /** A normalized point: a UTC instant (in seconds) and a number. */
  datatype Point = Point(timestamp: int, value: int)

  /** The samples that carry a value, in input order. */
  function Present(samples: seq<Sample>): (r: seq<Sample>)
    ensures |r| <= |samples|
    ensures forall k :: 0 <= k < |r| ==> r[k].value.Some?
  {
    if samples == [] then []
    else if samples[0].value.None? then Present(samples[1..])
    else [samples[0]] + Present(samples[1..])
  }

  /** The numbers the samples carry, None skipped, in input order. */
  function Deltas(samples: seq<Sample>): (r: seq<int>)
    ensures |r| == |Present(samples)|
    ensures forall k :: 0 <= k < |r| ==> r[k] == Present(samples)[k].value.value
  {
    if samples == [] then []
    else if samples[0].value.None? then Deltas(samples[1..])
    else [samples[0].value.value] + Deltas(samples[1..])
  }

  function Sum(xs: seq<int>): (r: int) {
    if xs == [] then 0 else xs[0] + Sum(xs[1..])
  }

  /** The numbers carried by a sequence of points. */
  function Values(points: seq<Point>): (r: seq<int>) {
    seq(|points|, k requires 0 <= k < |points| => points[k].value)
  }

  /** The positions of the samples that carry a value. */
  function Positions(samples: seq<Sample>): (r: seq<nat>)
    ensures |r| == |Present(samples)|
  {
    if samples == [] then []
    else if samples[0].value.None? then Shift(Positions(samples[1..]))
    else [0] + Shift(Positions(samples[1..]))
  }

  /** Every position moved one place to the right. */
  function Shift(idx: seq<nat>): (r: seq<nat>) {
    seq(|idx|, k requires 0 <= k < |idx| => idx[k] + 1)
  }

  /** Present keeps exactly the samples with a value, in their original order:
      it picks them at strictly increasing positions, and every sample with a
      value is picked. */
  lemma PresentOrder(samples: seq<Sample>)
    ensures var idx := Positions(samples);
      && |idx| == |Present(samples)|
      && (forall k :: 0 <= k < |idx| ==> idx[k] < |samples| && samples[idx[k]] == Present(samples)[k])
      && (forall j, k :: 0 <= j < k < |idx| ==> idx[j] < idx[k])
      && (forall i :: 0 <= i < |samples| && samples[i].value.Some? ==> i in idx)
  {
    PositionsPick(samples);
    PositionsIncreasing(samples);
    PositionsComplete(samples);
  }

  lemma {:induction false} PositionsPick(samples: seq<Sample>)
    ensures forall k :: 0 <= k < |Positions(samples)| ==>
      Positions(samples)[k] < |samples| && samples[Positions(samples)[k]] == Present(samples)[k]
  {
    if samples != [] {
      PositionsPick(samples[1..]);
      var idx, rest := Positions(samples), Positions(samples[1..]);
      forall k | 0 <= k < |idx|
        ensures idx[k] < |samples| && samples[idx[k]] == Present(samples)[k]
      {
        if samples[0].value.None? {
          assert idx[k] == rest[k] + 1;
          assert samples[idx[k]] == samples[1..][rest[k]];
        } else if k > 0 {
          assert idx[k] == rest[k - 1] + 1;
          assert samples[idx[k]] == samples[1..][rest[k - 1]];
          assert Present(samples)[k] == Present(samples[1..])[k - 1];
        }
      }
    }
  }

  lemma {:induction false} PositionsIncreasing(samples: seq<Sample>)
    ensures forall j, k :: 0 <= j < k < |Positions(samples)| ==> Positions(samples)[j] < Positions(samples)[k]
  {
    if samples != [] {
      PositionsIncreasing(samples[1..]);
      var idx, rest := Positions(samples), Positions(samples[1..]);
      forall j, k | 0 <= j < k < |idx|
        ensures idx[j] < idx[k]
      {
        if samples[0].value.None? {
          assert idx[j] == rest[j] + 1 && idx[k] == rest[k] + 1;
        } else if j > 0 {
          assert idx[j] == rest[j - 1] + 1 && idx[k] == rest[k - 1] + 1;
        } else {
          assert idx[k] == rest[k - 1] + 1;
        }
      }
    }
  }

  lemma {:induction false} PositionsComplete(samples: seq<Sample>)
    ensures forall i :: 0 <= i < |samples| && samples[i].value.Some? ==> i in Positions(samples)
  {
    if samples != [] {
      PositionsComplete(samples[1..]);
      var idx, rest := Positions(samples), Positions(samples[1..]);
      forall i | 0 <= i < |samples| && samples[i].value.Some?
        ensures i in idx
      {
        if i == 0 {
          assert idx[0] == 0;
        } else {
          assert samples[1..][i - 1] == samples[i];
          var k :| 0 <= k < |rest| && rest[k] == i - 1;
          if samples[0].value.None? {
            assert idx[k] == i;
          } else {
            assert idx[k + 1] == i;
          }
        }
      }
    }
  }

  /** Filtering a concatenation filters each part. */
  lemma {:induction false} PresentAppend(a: seq<Sample>, b: seq<Sample>)
    ensures Present(a + b) == Present(a) + Present(b)
  {
    if a == [] {
      assert a + b == b;
    } else {
      assert (a + b)[0] == a[0];
      assert (a + b)[1..] == a[1..] + b;
      PresentAppend(a[1..], b);
    }
  }

  /** Adding one more number at the end adds it to the sum. */
  lemma {:induction false} SumSnoc(xs: seq<int>, x: int)
    ensures Sum(xs + [x]) == Sum(xs) + x
  {
    if xs == [] {
      assert xs + [x] == [x];
    } else {
      assert (xs + [x])[1..] == xs[1..] + [x];
      SumSnoc(xs[1..], x);
    }
  }
}
