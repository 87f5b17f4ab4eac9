/** Turning normalized points into the records written to the time-series
    database: one record per point, with a fixed measurement, tag set and
    field name, and the point's time rendered in the database's UTC format. */
module Storage {
  import opened TimeConversion
  import opened Telemetry

  const CurrentPowerMeasurement: string := "sensor__power"
  const CurrentPowerTags: map<string, string> :=
    map["entity_id" := "solaredge_current_power", "domain" := "sensor"]
  const CurrentPowerField: string := "value"

  const LifetimeEnergyMeasurement: string := "sensor__energy"
  const LifetimeEnergyTags: map<string, string> :=
    map["entity_id" := "solaredge_lifetime_energy", "domain" := "sensor"]
  const LifetimeEnergyField: string := "value"

  /** One record of a bulk write. */
  datatype Record = Record(
    measurement: string,
    tags: map<string, string>,
    time: string,
    fields: map<string, int>)

  /** The list of records handed to the database client's bulk write. */
  method WriteData(lib: Library, data: seq<Point>, measurement: string,
                   tags: map<string, string>, fieldName: string)
    returns (dataPoints: seq<Record>)
    ensures |dataPoints| == |data|
    ensures forall k :: 0 <= k < |data| ==>
      && dataPoints[k].measurement == measurement
      && dataPoints[k].tags == tags
      && dataPoints[k].time == FormatTimestamp(lib, data[k].timestamp, IdbFmt)
      && dataPoints[k].fields.Keys == {fieldName}
      && dataPoints[k].fields[fieldName] == data[k].value
  {
    dataPoints := [];
    for i := 0 to |data|
      invariant |dataPoints| == i
      invariant forall k :: 0 <= k < i ==>
        dataPoints[k] == Record(measurement, tags, FormatTimestamp(lib, data[k].timestamp, IdbFmt),
                                map[fieldName := data[k].value])
    {
      var d := data[i];
      var dp := Record(measurement, tags, FormatTimestamp(lib, d.timestamp, IdbFmt),
                       map[fieldName := d.value]);
      dataPoints := dataPoints + [dp];
    }
  }
}
