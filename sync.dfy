/** A sync run: the requests it sends to the vendor API for a begin and end
    time, and what it writes once the responses are in.

    Power is asked for the literal date-time range, energy deltas for the
    date range as given, and the range's starting lifetime energy for the date
    range with its end moved one day later, because the vendor treats that end
    as exclusive while the tool includes the end date. Each answered dataset is
    transformed and written under its own measurement, tags and field name. */
module Sync {
  import opened Wrappers
  import opened TimeConversion
  import opened Telemetry
  import opened Transformers
  import opened Storage

  datatype Request =
    | GetPower(startTime: string, endTime: string)
    | GetTimeFrameEnergy(startDate: string, endDate: string, timeUnit: string)
    | GetEnergy(startDate: string, endDate: string, timeUnit: string)

  /** Power is requested for the begin and end times themselves, with their
      time of day. */
  function PullCurrentPowerData(lib: Library, begin: Seconds, end: Seconds): (r: Request)
    ensures r.GetPower?
    ensures r.startTime == FormatTimestamp(lib, begin, SeFmtDateTime)
    ensures r.endTime == FormatTimestamp(lib, end, SeFmtDateTime)
  {
    GetPower(FormatTimestamp(lib, begin, SeFmtDateTime), FormatTimestamp(lib, end, SeFmtDateTime))
  }

  /** The starting and ending lifetime energy are requested for whole dates,
      from the begin date to the date one day after the end. */
  function PullTimeframeEnergyData(lib: Library, begin: Seconds, end: Seconds, timeUnit: string): (r: Request)
    ensures r.GetTimeFrameEnergy?
    ensures r.startDate == FormatTimestamp(lib, begin, SeFmtDate)
    ensures r.endDate == FormatTimestamp(lib, end + 86400, SeFmtDate)
    ensures r.timeUnit == timeUnit
  {
    var end' := end + DaySeconds;
    GetTimeFrameEnergy(FormatTimestamp(lib, begin, SeFmtDate), FormatTimestamp(lib, end', SeFmtDate), timeUnit)
  }

  /** The energy deltas are requested for whole dates, from the begin date to
      the end date, in the given time unit. */
  function PullEnergyData(lib: Library, begin: Seconds, end: Seconds, timeUnit: string): (r: Request)
    ensures r.GetEnergy?
    ensures r.startDate == FormatTimestamp(lib, begin, SeFmtDate)
    ensures r.endDate == FormatTimestamp(lib, end, SeFmtDate)
    ensures r.timeUnit == timeUnit
  {
    GetEnergy(FormatTimestamp(lib, begin, SeFmtDate), FormatTimestamp(lib, end, SeFmtDate), timeUnit)
  }

  /** The timeframe request covers the same dates as the interval-energy
      request for an end exactly one day (86400 seconds) later: same start
      date and time unit, and the end date of the day after. */
  lemma TimeframeEndIsOneDayLater(lib: Library, begin: Seconds, end: Seconds, timeUnit: string)
    ensures var timeframe := PullTimeframeEnergyData(lib, begin, end, timeUnit);
      && timeframe.startDate == PullEnergyData(lib, begin, end, timeUnit).startDate
      && timeframe.endDate == PullEnergyData(lib, begin, end + 86400, timeUnit).endDate
      && timeframe.timeUnit == timeUnit
  {
  }

  /** The energy branch once both energy responses are in: the lifetime-energy
      points, written as `sensor__energy` records with field `value`. The
      branch raises exactly when the transformer does, and then writes
      nothing. */
  method SyncLifetimeEnergy(lib: Library, timeFrame: TimeFrameEnergy, energy: EnergyResponse)
    returns (r: Result<seq<Record>, Error>)
    ensures r.Failure? <==> LifetimeEnergyPoints(lib, timeFrame, energy).Failure?
    ensures r.Failure? ==> r.error == LifetimeEnergyPoints(lib, timeFrame, energy).error
    ensures r.Success? ==>
      var present := Present(energy.values);
      && OffsetFromTimeUnit(energy.timeUnit).Success?
      && |r.value| == |present|
      && forall k :: 0 <= k < |present| ==>
           && r.value[k].measurement == LifetimeEnergyMeasurement
           && r.value[k].tags == LifetimeEnergyTags
           && ParseSolaredgeTimestamp(lib, present[k].date).Success?
           && r.value[k].time == FormatTimestamp(lib, ParseSolaredgeTimestamp(lib, present[k].date).value
                                                      + OffsetFromTimeUnit(energy.timeUnit).value, IdbFmt)
           && r.value[k].fields.Keys == {LifetimeEnergyField}
           && r.value[k].fields[LifetimeEnergyField]
                == timeFrame.startLifetimeEnergy + Sum(Deltas(energy.values)[..k + 1])
  {
    var points := ParseLifetimeEnergyData(lib, timeFrame, energy);
    if points.Failure? {
      return Failure(points.error);
    }
    EnergyPointsAt(lib, OffsetFromTimeUnit(energy.timeUnit).value, timeFrame.startLifetimeEnergy, energy.values);
    var records := WriteData(lib, points.value, LifetimeEnergyMeasurement, LifetimeEnergyTags, LifetimeEnergyField);
    return Success(records);
  }

  /** The power branch once the power response is in: the power points,
      written as `sensor__power` records with field `value`. The branch raises
      exactly when the transformer does, and then writes nothing. */
  method SyncCurrentPower(lib: Library, power: PowerResponse) returns (r: Result<seq<Record>, Error>)
    ensures r.Failure? <==> PowerPoints(lib, power.values).Failure?
    ensures r.Failure? ==> r.error == PowerPoints(lib, power.values).error
    ensures r.Success? ==>
      var present := Present(power.values);
      && |r.value| == |present|
      && forall k :: 0 <= k < |present| ==>
           && r.value[k].measurement == CurrentPowerMeasurement
           && r.value[k].tags == CurrentPowerTags
           && ParseSolaredgeTimestamp(lib, present[k].date).Success?
           && r.value[k].time == FormatTimestamp(lib, ParseSolaredgeTimestamp(lib, present[k].date).value, IdbFmt)
           && r.value[k].fields.Keys == {CurrentPowerField}
           && r.value[k].fields[CurrentPowerField] == present[k].value.value
  {
    var points := ParseCurrentPowerData(lib, power);
    if points.Failure? {
      return Failure(points.error);
    }
    PowerPointsAt(lib, power.values);
    var records := WriteData(lib, points.value, CurrentPowerMeasurement, CurrentPowerTags, CurrentPowerField);
    return Success(records);
  }
}
