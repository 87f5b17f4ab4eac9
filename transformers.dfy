/** The two data transformers: vendor power samples to power points, and
    vendor energy deltas plus a starting lifetime reading to lifetime-energy
    points stamped at the end of each interval.

    Each transformer is a method with the source's loop, proved equal to a
    recursive specification function; the lemmas below characterize those
    functions sample by sample. */
module Transformers {
  import opened Wrappers
  import opened TimeConversion
  import opened Telemetry

  /** The parts of the vendor's responses the transformers read. */
  datatype PowerResponse = PowerResponse(values: seq<Sample>)
  datatype EnergyResponse = EnergyResponse(timeUnit: string, values: seq<Sample>)
  datatype TimeFrameEnergy = TimeFrameEnergy(startLifetimeEnergy: int, endLifetimeEnergy: int)

  /** Points already emitted, followed by the outcome of the rest of the loop:
      an error raised later discards them. */
  function Prepend(emitted: seq<Point>, rest: Result<seq<Point>, Error>): (r: Result<seq<Point>, Error>) {
    match rest
    case Success(points) => Success(emitted + points)
    case Failure(e) => Failure(e)
  }

  lemma PrependPrepend(a: seq<Point>, b: seq<Point>, rest: Result<seq<Point>, Error>)
    ensures Prepend(a, Prepend(b, rest)) == Prepend(a + b, rest)
  {
    if rest.Success? {
      assert a + (b + rest.value) == (a + b) + rest.value;
    }
  }

  lemma PrependNothing(rest: Result<seq<Point>, Error>)
    ensures Prepend([], rest) == rest
  {
    if rest.Success? {
      assert [] + rest.value == rest.value;
    }
  }

  /** Every date of the given samples is a well-formed vendor timestamp. */
  predicate AllParse(lib: Library, samples: seq<Sample>) {
    forall k :: 0 <= k < |samples| ==> ParseSolaredgeTimestamp(lib, samples[k].date).Success?
  }

  /** The k-th sample is the first whose date is malformed. */
  predicate FirstMalformedAt(lib: Library, samples: seq<Sample>, k: int) {
    && 0 <= k < |samples|
    && AllParse(lib, samples[..k])
    && ParseSolaredgeTimestamp(lib, samples[k].date).Failure?
  }

  // ---------------------------------------------------------------------------
  // Power

  /** Specification of the power transformer: samples without a value are
      skipped, every other one becomes a point at its UTC time with its value
      unchanged; a malformed date raises. */
  function PowerPoints(lib: Library, samples: seq<Sample>): (r: Result<seq<Point>, Error>)
    decreases |samples|
  {
    if samples == [] then Success([])
    else if samples[0].value.None? then PowerPoints(lib, samples[1..])
    else
      match ParseSolaredgeTimestamp(lib, samples[0].date)
      case Failure(e) => Failure(e)
      case Success(t) => Prepend([Point(t, samples[0].value.value)], PowerPoints(lib, samples[1..]))
  }

  method ParseCurrentPowerData(lib: Library, power: PowerResponse) returns (r: Result<seq<Point>, Error>)
    ensures r == PowerPoints(lib, power.values)
  {
    var dataPoints: seq<Point> := [];
    var values := power.values;
    assert values[0..] == values;
    PrependNothing(PowerPoints(lib, values));
    for i := 0 to |values|
      invariant PowerPoints(lib, values) == Prepend(dataPoints, PowerPoints(lib, values[i..]))
    {
      var pd := values[i];
      assert values[i..][0] == pd && values[i..][1..] == values[i + 1..];
      if pd.value.None? {
        continue;
      }
      var timestamp :- ParseSolaredgeTimestamp(lib, pd.date);
      PrependPrepend(dataPoints, [Point(timestamp, pd.value.value)], PowerPoints(lib, values[i + 1..]));
      dataPoints := dataPoints + [Point(timestamp, pd.value.value)];
    }
    assert values[|values|..] == [];
    assert dataPoints + [] == dataPoints;
    return Success(dataPoints);
  }

  /** On success there is exactly one point per sample with a value, in input
      order: the k-th point carries the k-th such sample's value unchanged, at
      that sample's date converted from vendor local time to UTC. */
  lemma {:induction false} PowerPointsAt(lib: Library, samples: seq<Sample>)
    requires PowerPoints(lib, samples).Success?
    ensures var points := PowerPoints(lib, samples).value;
      && |points| == |Present(samples)|
      && forall k :: 0 <= k < |points| ==>
           && ParseSolaredgeTimestamp(lib, Present(samples)[k].date) == Success(points[k].timestamp)
           && points[k].value == Present(samples)[k].value.value
    decreases |samples|
  {
    if samples == [] {
    } else if samples[0].value.None? {
      PowerPointsAt(lib, samples[1..]);
    } else {
      PowerPointsAt(lib, samples[1..]);
      var points := PowerPoints(lib, samples).value;
      var rest := PowerPoints(lib, samples[1..]).value;
      assert Present(samples) == [samples[0]] + Present(samples[1..]);
      forall k | 0 < k < |points|
        ensures points[k] == rest[k - 1] && Present(samples)[k] == Present(samples[1..])[k - 1]
      {
      }
    }
  }

  /** The power transformer raises exactly when a sample with a value has a
      malformed date, and it reports the first such date. Samples without a
      value are never parsed. */
  lemma {:induction false} PowerPointsFailure(lib: Library, samples: seq<Sample>)
    ensures PowerPoints(lib, samples).Success? <==> AllParse(lib, Present(samples))
    ensures PowerPoints(lib, samples).Failure? ==>
      exists k :: FirstMalformedAt(lib, Present(samples), k)
               && PowerPoints(lib, samples).error == MalformedTimestamp(Present(samples)[k].date)
    decreases |samples|
  {
    if samples == [] {
    } else if samples[0].value.None? {
      PowerPointsFailure(lib, samples[1..]);
    } else {
      PowerPointsFailure(lib, samples[1..]);
      var present := Present(samples);
      var tail := Present(samples[1..]);
      assert present == [samples[0]] + tail;
      assert AllParse(lib, present) <==>
             ParseSolaredgeTimestamp(lib, samples[0].date).Success? && AllParse(lib, tail)
      by {
        if ParseSolaredgeTimestamp(lib, samples[0].date).Success? && AllParse(lib, tail) {
          forall k | 0 <= k < |present|
            ensures ParseSolaredgeTimestamp(lib, present[k].date).Success?
          {
            if k > 0 {
              assert present[k] == tail[k - 1];
            }
          }
        }
        if AllParse(lib, present) {
          assert present[0] == samples[0];
          forall k | 0 <= k < |tail|
            ensures ParseSolaredgeTimestamp(lib, tail[k].date).Success?
          {
            assert tail[k] == present[k + 1];
          }
        }
      }
      if PowerPoints(lib, samples).Failure? {
        if ParseSolaredgeTimestamp(lib, samples[0].date).Failure? {
          assert FirstMalformedAt(lib, present, 0);
        } else {
          var j :| FirstMalformedAt(lib, tail, j)
                   && PowerPoints(lib, samples[1..]).error == MalformedTimestamp(tail[j].date);
          assert present[j + 1] == tail[j];
          assert present[..j + 1] == [samples[0]] + tail[..j];
          var prefix := present[..j + 1];
          assert AllParse(lib, prefix) by {
            forall k | 0 <= k < |prefix|
              ensures ParseSolaredgeTimestamp(lib, prefix[k].date).Success?
            {
              if k > 0 {
                assert prefix[k] == tail[..j][k - 1];
              }
            }
          }
          assert FirstMalformedAt(lib, present, j + 1);
        }
      }
    }
  }

  /** Example: a None sample between two samples with values is dropped, not
      turned into a zero. */
  lemma PowerExample(lib: Library, t1: Seconds, t3: Seconds)
    requires lib.strptime("2023-06-01 10:00:00", SeFmtDateTime) == Some(t1)
    requires lib.strptime("2023-06-01 10:30:00", SeFmtDateTime) == Some(t3)
    ensures PowerPoints(lib, [Sample("2023-06-01 10:00:00", Some(150)),
                              Sample("2023-06-01 10:15:00", None),
                              Sample("2023-06-01 10:30:00", Some(200))])
         == Success([Point(lib.cetToUtc(t1), 150), Point(lib.cetToUtc(t3), 200)])
  {
    var s := [Sample("2023-06-01 10:00:00", Some(150)),
              Sample("2023-06-01 10:15:00", None),
              Sample("2023-06-01 10:30:00", Some(200))];
    var p1, p3 := Point(lib.cetToUtc(t1), 150), Point(lib.cetToUtc(t3), 200);
    assert s[1..][1..] == [s[2]] && [s[2]][1..] == [];
    assert PowerPoints(lib, [s[2]]) == Success([p3]) by {
      assert ParseSolaredgeTimestamp(lib, s[2].date) == Success(lib.cetToUtc(t3));
      assert [p3] + [] == [p3];
    }
    assert PowerPoints(lib, s[1..]) == Success([p3]);
    assert ParseSolaredgeTimestamp(lib, s[0].date) == Success(lib.cetToUtc(t1));
    assert PowerPoints(lib, s) == Prepend([p1], PowerPoints(lib, s[1..]));
    assert [p1] + [p3] == [p1, p3];
  }

  // ---------------------------------------------------------------------------
  // Lifetime energy

  /** Specification of the energy loop, from running total `total` on: a
      sample without a value changes nothing; any other one adds its delta to
      the total and emits the new total, stamped one interval (`offset`) after
      the sample's UTC time; a malformed date raises. */
  function EnergyPoints(lib: Library, offset: Seconds, total: int, samples: seq<Sample>): (r: Result<seq<Point>, Error>)
    decreases |samples|
  {
    if samples == [] then Success([])
    else if samples[0].value.None? then EnergyPoints(lib, offset, total, samples[1..])
    else
      var total' := total + samples[0].value.value;
      match ParseSolaredgeTimestamp(lib, samples[0].date)
      case Failure(e) => Failure(e)
      case Success(t) => Prepend([Point(t + offset, total')], EnergyPoints(lib, offset, total', samples[1..]))
  }

  /** Specification of the energy transformer: the running total starts at the
      range's starting lifetime energy and the offset is the interval length of
      the response's time unit, looked up before any sample is read. The
      range's end lifetime energy plays no part. */
  function LifetimeEnergyPoints(lib: Library, timeFrame: TimeFrameEnergy, energy: EnergyResponse): (r: Result<seq<Point>, Error>)
    ensures OffsetFromTimeUnit(energy.timeUnit).Failure? ==> r == Failure(UnsupportedTimeUnit(energy.timeUnit))
  {
    match OffsetFromTimeUnit(energy.timeUnit)
    case Failure(e) => Failure(e)
    case Success(offset) => EnergyPoints(lib, offset, timeFrame.startLifetimeEnergy, energy.values)
  }

  method ParseLifetimeEnergyData(lib: Library, timeFrame: TimeFrameEnergy, energy: EnergyResponse)
    returns (r: Result<seq<Point>, Error>)
    ensures r == LifetimeEnergyPoints(lib, timeFrame, energy)
  {
    var dataPoints: seq<Point> := [];
    var lifetimeEnergy := timeFrame.startLifetimeEnergy;
    var timeUnit := energy.timeUnit;
    var offset :- OffsetFromTimeUnit(timeUnit);
    var values := energy.values;
    assert values[0..] == values;
    PrependNothing(EnergyPoints(lib, offset, lifetimeEnergy, values));
    for i := 0 to |values|
      invariant EnergyPoints(lib, offset, timeFrame.startLifetimeEnergy, values)
             == Prepend(dataPoints, EnergyPoints(lib, offset, lifetimeEnergy, values[i..]))
    {
      var ed := values[i];
      assert values[i..][0] == ed && values[i..][1..] == values[i + 1..];
      if ed.value.None? {
        continue;
      }
      lifetimeEnergy := lifetimeEnergy + ed.value.value;
      var timestamp :- ParseSolaredgeTimestamp(lib, ed.date);
      PrependPrepend(dataPoints, [Point(timestamp + offset, lifetimeEnergy)],
                     EnergyPoints(lib, offset, lifetimeEnergy, values[i + 1..]));
      dataPoints := dataPoints + [Point(timestamp + offset, lifetimeEnergy)];
    }
    assert values[|values|..] == [];
    assert dataPoints + [] == dataPoints;
    return Success(dataPoints);
  }

  /** Points moved `offset` later, each carrying the running total after its
      own value is added, the total starting from `total`. */
  function Accumulate(offset: Seconds, total: int, points: seq<Point>): (r: seq<Point>)
    decreases |points|
  {
    if points == [] then []
    else
      var total' := total + points[0].value;
      [Point(points[0].timestamp + offset, total')] + Accumulate(offset, total', points[1..])
  }

  /** The energy loop is the power loop followed by Accumulate: it skips and
      raises on the same samples, and its points are the power points moved one
      interval later and carrying the running total instead of the delta. */
  lemma {:induction false} EnergyIsAccumulatedPower(lib: Library, offset: Seconds, seed: int, samples: seq<Sample>)
    ensures EnergyPoints(lib, offset, seed, samples).Success? == PowerPoints(lib, samples).Success?
    ensures PowerPoints(lib, samples).Failure? ==>
              EnergyPoints(lib, offset, seed, samples) == Failure(PowerPoints(lib, samples).error)
    ensures PowerPoints(lib, samples).Success? ==>
              EnergyPoints(lib, offset, seed, samples) == Success(Accumulate(offset, seed, PowerPoints(lib, samples).value))
    decreases |samples|
  {
    if samples == [] {
    } else if samples[0].value.None? {
      EnergyIsAccumulatedPower(lib, offset, seed, samples[1..]);
    } else {
      var v := samples[0].value.value;
      EnergyIsAccumulatedPower(lib, offset, seed + v, samples[1..]);
      match ParseSolaredgeTimestamp(lib, samples[0].date)
      case Failure(e) =>
      case Success(t) =>
        if PowerPoints(lib, samples[1..]).Success? {
          var rest := PowerPoints(lib, samples[1..]).value;
          var points := [Point(t, v)] + rest;
          assert points[0] == Point(t, v) && points[1..] == rest;
        }
    }
  }

  /** The k-th accumulated point is the k-th point moved `offset` later,
      carrying the seed plus the first k+1 values. */
  lemma {:induction false} AccumulateAt(offset: Seconds, seed: int, points: seq<Point>)
    ensures |Accumulate(offset, seed, points)| == |points|
    ensures forall k :: 0 <= k < |points| ==>
      Accumulate(offset, seed, points)[k] == Point(points[k].timestamp + offset, seed + Sum(Values(points)[..k + 1]))
    decreases |points|
  {
    if points != [] {
      var v := points[0].value;
      AccumulateAt(offset, seed + v, points[1..]);
      var acc, rest := Accumulate(offset, seed, points), Accumulate(offset, seed + v, points[1..]);
      assert Values(points) == [v] + Values(points[1..]);
      forall k | 0 <= k < |points|
        ensures acc[k] == Point(points[k].timestamp + offset, seed + Sum(Values(points)[..k + 1]))
      {
        SumCons(v, Values(points[1..]), k);
        if k > 0 {
          assert acc[k] == rest[k - 1];
          assert points[k] == points[1..][k - 1];
        }
      }
    }
  }

  /** Each accumulated point is the one before it (the seed, for the first)
      plus its own value. */
  lemma {:induction false} AccumulateStep(offset: Seconds, seed: int, points: seq<Point>)
    ensures |Accumulate(offset, seed, points)| == |points|
    ensures |points| > 0 ==> Accumulate(offset, seed, points)[0].value == seed + points[0].value
    ensures forall k :: 0 < k < |points| ==>
      Accumulate(offset, seed, points)[k].value == Accumulate(offset, seed, points)[k - 1].value + points[k].value
    decreases |points|
  {
    if points != [] {
      var v := points[0].value;
      AccumulateStep(offset, seed + v, points[1..]);
      var acc, rest := Accumulate(offset, seed, points), Accumulate(offset, seed + v, points[1..]);
      forall k | 0 < k < |points|
        ensures acc[k].value == acc[k - 1].value + points[k].value
      {
        assert acc[k] == rest[k - 1];
        assert points[k] == points[1..][k - 1];
        if k > 1 {
          assert acc[k - 1] == rest[k - 2];
        }
      }
    }
  }

  /** The sum of a prefix of `[v] + tail` is v plus the sum of the prefix of
      the tail that is one shorter. */
  lemma SumCons(v: int, tail: seq<int>, k: nat)
    requires k <= |tail|
    ensures Sum(([v] + tail)[..k + 1]) == v + Sum(tail[..k])
  {
    assert ([v] + tail)[..k + 1] == [v] + tail[..k];
    assert ([v] + tail[..k])[1..] == tail[..k];
  }

  /** The values of the power points are the deltas that have a value. */
  lemma PowerValuesAreDeltas(lib: Library, samples: seq<Sample>)
    requires PowerPoints(lib, samples).Success?
    ensures Values(PowerPoints(lib, samples).value) == Deltas(samples)
  {
    PowerPointsAt(lib, samples);
  }

  /** On success there is exactly one point per delta with a value, in input
      order; the k-th point carries the seed plus the first k+1 such deltas and
      is stamped one interval after the UTC time of its sample. */
  lemma EnergyPointsAt(lib: Library, offset: Seconds, seed: int, samples: seq<Sample>)
    requires EnergyPoints(lib, offset, seed, samples).Success?
    ensures var points := EnergyPoints(lib, offset, seed, samples).value;
      && |points| == |Present(samples)|
      && forall k :: 0 <= k < |points| ==>
           && ParseSolaredgeTimestamp(lib, Present(samples)[k].date) == Success(points[k].timestamp - offset)
           && points[k].value == seed + Sum(Deltas(samples)[..k + 1])
  {
    EnergyIsAccumulatedPower(lib, offset, seed, samples);
    PowerPointsAt(lib, samples);
    PowerValuesAreDeltas(lib, samples);
    AccumulateAt(offset, seed, PowerPoints(lib, samples).value);
  }

  /** The energy transformer's success case stated in terms of the response's
      granularity: one point per delta with a value, in input order, the k-th
      stamped one interval of that granularity after its sample's UTC time and
      carrying the starting reading plus the first k+1 deltas. */
  lemma LifetimeEnergyPointsAt(lib: Library, timeFrame: TimeFrameEnergy, energy: EnergyResponse, g: Granularity)
    requires g.Name() == energy.timeUnit
    requires LifetimeEnergyPoints(lib, timeFrame, energy).Success?
    ensures var points := LifetimeEnergyPoints(lib, timeFrame, energy).value;
      && |points| == |Present(energy.values)|
      && forall k :: 0 <= k < |points| ==>
           && ParseSolaredgeTimestamp(lib, Present(energy.values)[k].date) == Success(points[k].timestamp - g.Duration())
           && points[k].value == timeFrame.startLifetimeEnergy + Sum(Deltas(energy.values)[..k + 1])
  {
    OffsetFromTimeUnitIsDuration(energy.timeUnit);
    EnergyPointsAt(lib, g.Duration(), timeFrame.startLifetimeEnergy, energy.values);
  }

  /** Each point advances the running total by exactly its own delta: the first
      one by the first delta from the seed, every later one from the point
      before it. */
  lemma EnergyPointsStep(lib: Library, offset: Seconds, seed: int, samples: seq<Sample>)
    requires EnergyPoints(lib, offset, seed, samples).Success?
    ensures var points := EnergyPoints(lib, offset, seed, samples).value;
      && |points| == |Deltas(samples)|
      && (|points| > 0 ==> points[0].value == seed + Deltas(samples)[0])
      && forall k :: 0 < k < |points| ==> points[k].value == points[k - 1].value + Deltas(samples)[k]
  {
    EnergyIsAccumulatedPower(lib, offset, seed, samples);
    PowerValuesAreDeltas(lib, samples);
    var power := PowerPoints(lib, samples).value;
    AccumulateStep(offset, seed, power);
    assert forall k :: 0 <= k < |power| ==> power[k].value == Values(power)[k];
  }

  /** With no negative delta the reconstructed lifetime energy never decreases. */
  lemma EnergyPointsNonDecreasing(lib: Library, offset: Seconds, seed: int, samples: seq<Sample>)
    requires EnergyPoints(lib, offset, seed, samples).Success?
    requires forall k :: 0 <= k < |samples| && samples[k].value.Some? ==> samples[k].value.value >= 0
    ensures var points := EnergyPoints(lib, offset, seed, samples).value;
      forall j, k :: 0 <= j <= k < |points| ==> seed <= points[j].value <= points[k].value
  {
    EnergyPointsAt(lib, offset, seed, samples);
    var points := EnergyPoints(lib, offset, seed, samples).value;
    var deltas := Deltas(samples);
    PresentOrder(samples);
    var idx := Positions(samples);
    forall k | 0 <= k < |deltas|
      ensures deltas[k] >= 0
    {
      assert samples[idx[k]] == Present(samples)[k];
    }
    forall j, k | 0 <= j <= k < |points|
      ensures seed <= points[j].value <= points[k].value
    {
      SumPrefixMonotone(deltas, 0, j + 1);
      SumPrefixMonotone(deltas, j + 1, k + 1);
      assert deltas[..0] == [];
    }
  }

  /** Over non-negative numbers a longer prefix never has a smaller sum. */
  lemma {:induction false} SumPrefixMonotone(xs: seq<int>, j: nat, k: nat)
    requires j <= k <= |xs|
    requires forall i :: 0 <= i < |xs| ==> xs[i] >= 0
    ensures Sum(xs[..j]) <= Sum(xs[..k])
    decreases k
  {
    if j < k {
      SumPrefixMonotone(xs, j, k - 1);
      assert xs[..k] == xs[..k - 1] + [xs[k - 1]];
      SumSnoc(xs[..k - 1], xs[k - 1]);
    }
  }

  /** Samples without a value are skipped entirely: the transformer gives the
      same result on the samples with a value alone. */
  lemma {:induction false} EnergyIgnoresNullSamples(lib: Library, offset: Seconds, total: int, samples: seq<Sample>)
    ensures EnergyPoints(lib, offset, total, samples) == EnergyPoints(lib, offset, total, Present(samples))
    decreases |samples|
  {
    if samples == [] {
    } else if samples[0].value.None? {
      EnergyIgnoresNullSamples(lib, offset, total, samples[1..]);
    } else {
      var total' := total + samples[0].value.value;
      EnergyIgnoresNullSamples(lib, offset, total', samples[1..]);
      var present := Present(samples);
      assert present == [samples[0]] + Present(samples[1..]);
      assert present[0] == samples[0] && present[1..] == Present(samples[1..]);
    }
  }

  /** Inserting a sample without a value anywhere neither advances the running
      total nor emits a point. */
  lemma NullDeltaChangesNothing(lib: Library, offset: Seconds, seed: int,
                                before: seq<Sample>, after: seq<Sample>, date: string)
    ensures EnergyPoints(lib, offset, seed, before + [Sample(date, None)] + after)
         == EnergyPoints(lib, offset, seed, before + after)
  {
    var gap := [Sample(date, None)];
    PresentAppend(before + gap, after);
    PresentAppend(before, gap);
    PresentAppend(before, after);
    assert Present(gap) == [] by {
      assert gap[1..] == [];
    }
    assert Present(before + gap) == Present(before);
    EnergyIgnoresNullSamples(lib, offset, seed, before + gap + after);
    EnergyIgnoresNullSamples(lib, offset, seed, before + after);
  }

  /** The reconstructed lifetime energy at the end of the range (the last
      point's value, or the starting reading when nothing was emitted) is the
      starting reading plus every delta that has a value. */
  lemma FinalLifetimeEnergy(lib: Library, timeFrame: TimeFrameEnergy, energy: EnergyResponse)
    requires LifetimeEnergyPoints(lib, timeFrame, energy).Success?
    ensures var points := LifetimeEnergyPoints(lib, timeFrame, energy).value;
      (if points == [] then timeFrame.startLifetimeEnergy else points[|points| - 1].value)
        == timeFrame.startLifetimeEnergy + Sum(Deltas(energy.values))
  {
    var offset := OffsetFromTimeUnit(energy.timeUnit).value;
    EnergyPointsAt(lib, offset, timeFrame.startLifetimeEnergy, energy.values);
    var deltas := Deltas(energy.values);
    assert deltas[..|deltas|] == deltas;
  }

  /** The range's end lifetime energy reported by the vendor is never read. */
  lemma EndLifetimeEnergyIgnored(lib: Library, a: TimeFrameEnergy, b: TimeFrameEnergy, energy: EnergyResponse)
    requires a.startLifetimeEnergy == b.startLifetimeEnergy
    ensures LifetimeEnergyPoints(lib, a, energy) == LifetimeEnergyPoints(lib, b, energy)
  {
  }

  /** An unknown time unit is an error whatever the samples are, so it is
      raised before any point is produced. */
  lemma UnsupportedUnitRaisesFirst(lib: Library, timeFrame: TimeFrameEnergy, energy: EnergyResponse)
    requires forall g: Granularity :: g.Name() != energy.timeUnit
    ensures LifetimeEnergyPoints(lib, timeFrame, energy) == Failure(UnsupportedTimeUnit(energy.timeUnit))
  {
    OffsetFromTimeUnitIsDuration(energy.timeUnit);
  }

  /** Example: with unit DAY, starting reading 1000 and deltas 5, None, 3 give
      the totals 1005 and 1008, each stamped one day after its sample. The vendor's dates carry a time of day, as the date-time format
      the transformer parses them with requires. */
  lemma EnergyExample(lib: Library, endReading: int, t1: Seconds, t3: Seconds)
    requires lib.strptime("2023-06-01 00:00:00", SeFmtDateTime) == Some(t1)
    requires lib.strptime("2023-06-03 00:00:00", SeFmtDateTime) == Some(t3)
    ensures LifetimeEnergyPoints(lib, TimeFrameEnergy(1000, endReading),
              EnergyResponse("DAY", [Sample("2023-06-01 00:00:00", Some(5)),
                                     Sample("2023-06-02 00:00:00", None),
                                     Sample("2023-06-03 00:00:00", Some(3))]))
         == Success([Point(lib.cetToUtc(t1) + 86400, 1005), Point(lib.cetToUtc(t3) + 86400, 1008)])
  {
    var s := [Sample("2023-06-01 00:00:00", Some(5)),
              Sample("2023-06-02 00:00:00", None),
              Sample("2023-06-03 00:00:00", Some(3))];
    var p1, p3 := Point(lib.cetToUtc(t1) + 86400, 1005), Point(lib.cetToUtc(t3) + 86400, 1008);
    assert OffsetFromTimeUnit("DAY") == Success(86400);
    assert s[1..][1..] == [s[2]] && [s[2]][1..] == [];
    assert EnergyPoints(lib, 86400, 1005, [s[2]]) == Success([p3]) by {
      assert ParseSolaredgeTimestamp(lib, s[2].date) == Success(lib.cetToUtc(t3));
      assert [p3] + [] == [p3];
    }
    assert EnergyPoints(lib, 86400, 1005, s[1..]) == Success([p3]);
    assert ParseSolaredgeTimestamp(lib, s[0].date) == Success(lib.cetToUtc(t1));
    assert EnergyPoints(lib, 86400, 1000, s) == Prepend([p1], EnergyPoints(lib, 86400, 1005, s[1..]));
    assert [p1] + [p3] == [p1, p3];
  }
}
