# SolarEdge to InfluxDB sync: a Dafny model of the data-transformation core

The tool pulls inverter telemetry from the SolarEdge cloud API and stores it
as time-series points in InfluxDB. Its logic, all in `seindb.py`, comes in
four parts:

- time conversion: parsing command-line timestamps (date-only first, then
  date-time), turning vendor local time (CET) into UTC, and the interval
  length of each energy time unit (`WEEK`, `DAY`, `HOUR`,
  `QUARTER_OF_AN_HOUR`);
- the power transformer: every sample with a value becomes a point at its
  UTC time with the value unchanged, and samples whose value is None are
  dropped;
- the lifetime-energy transformer: a running total is seeded with the
  range's starting lifetime energy. Each interval delta that has a value is
  added to it, and the new total is emitted stamped one interval after the
  sample's time, so each point marks the END of its interval. Deltas that
  are None change nothing. The vendor's end-of-range figure is never read;
- record building for the database write, and the request ranges sent to
  the vendor. The time-frame request's end is one day later than the given
  end; the interval-energy and power requests use the ends as given.

Modules, one per part:

- `Wrappers` (wrappers.dfy): `Option` for None, and `Result` for a
  computation that returns or raises.
- `TimeConversion` (time_conversion.dfy): `Error`, the format constants,
  `Library` (the date and time library calls, as functions passed in),
  `ParseInputTimestamp`, `ParseSolaredgeTimestamp`, `Granularity` and
  `OffsetFromTimeUnit`.
- `Telemetry` (telemetry.dfy): `Sample`, `Point`, the samples with a value
  (`Present`), their numbers (`Deltas`), and `Sum`.
- `Transformers` (transformers.dfy): the two transformers. Each is an
  imperative method with the source's loop. Each method is proved equal to a
  recursive specification function (`PowerPoints`, `EnergyPoints`,
  `LifetimeEnergyPoints`). Lemmas then characterize those functions point by
  point.
- `Storage` (storage.dfy): the measurement, tag and field constants
  (seindb.py:27-39), and `WriteData`, the loop that builds the bulk-write
  records.
- `Sync` (sync.dfy): the three vendor requests and their date ranges, and
  the two branches of a run that transform a dataset and write it under its
  own constants.

Times are whole seconds. A naive datetime is the count of seconds on its own
wall clock. An aware UTC datetime is Unix time. Adding a `timedelta` is
therefore integer addition: one day is 86400 seconds.

An energy response whose dates carry no time of day (`2023-06-01`) raises,
because `_parse_solaredge_timestamp` parses every vendor date with
`%Y-%m-%d %H:%M:%S` (seindb.py:49-52). `Transformers.EnergyExample`
therefore uses dates with `00:00:00`.

## Model

| member | source | states |
|---|---|---|
| `TimeConversion.ParseInputTimestamp` | seindb.py:42-46 | If the date-only format parses, its result is returned whatever the date-time format would give. The date-time format is used only when date-only fails. `MalformedTimestamp(text)` is raised exactly when both fail. |
| `TimeConversion.ParseSolaredgeTimestamp` | seindb.py:49-52 | A vendor date is parsed with the date-time format only; the date-only format is never tried. It succeeds exactly when that parse does, and then gives the parsed wall-clock time converted from vendor local time to UTC. Otherwise it raises `MalformedTimestamp` for that date. |
| `TimeConversion.OffsetFromTimeUnit` | seindb.py:59-69 | Every offset returned is positive, so points move forward in time. Any failure is `UnsupportedTimeUnit(unit)` for the unit asked about. |
| `TimeConversion.OffsetFromTimeUnitIsDuration` | seindb.py:59-69 | The lookup succeeds exactly on the names of the four granularities (the choices offered at seindb.py:155). It then returns that granularity's length. |
| `TimeConversion.DocumentedOffsets` | seindb.py:59-67 | WEEK is 604800 s, DAY 86400 s, HOUR 3600 s and QUARTER_OF_AN_HOUR 900 s. |
| `Telemetry.Present` | seindb.py:120-122 | The samples kept by the skip-on-None loop are no more than the input, and every one of them has a value. |
| `Telemetry.Deltas` | seindb.py:101-105 | There is one number per sample with a value, and it is that sample's value. |
| `Telemetry.PresentOrder` | seindb.py:101-103 | The kept samples stand at strictly increasing positions of the input, so order is preserved. Those positions are exactly the samples whose value is not None. |
| `Transformers.ParseCurrentPowerData` | seindb.py:118-129 | The loop's result, points or a raised error, equals the specification `PowerPoints` of the response's samples. |
| `Transformers.PowerPointsAt` | seindb.py:119-127 | On success there is exactly one point per sample with a value, in input order. The k-th point's value is that sample's value unchanged. Its timestamp is that sample's date converted from vendor local time to UTC. None samples never appear, not even as zero. |
| `Transformers.PowerPointsFailure` | seindb.py:118-129 | The transformer succeeds exactly when every sample with a value has a well-formed date. On failure, the error names the first malformed date among those samples. Dates of None samples are never parsed. |
| `Transformers.PowerExample` | seindb.py:118-129 | Samples 150, None, 200 give exactly two points, 150 and 200, at their UTC times. |
| `Transformers.LifetimeEnergyPoints` | seindb.py:94-99 | An unknown time unit raises `UnsupportedTimeUnit`, whatever the samples are. |
| `Transformers.ParseLifetimeEnergyData` | seindb.py:94-115 | The loop's result, points or a raised error, equals the specification `LifetimeEnergyPoints`. |
| `Transformers.EnergyPointsAt` | seindb.py:96-109 | On success there is exactly one point per delta with a value, in input order. The k-th point's value is the seed plus the first k+1 such deltas. Its timestamp is its sample's UTC time plus one interval. |
| `Transformers.LifetimeEnergyPointsAt` | seindb.py:94-109 | For a response whose time unit names a granularity, success gives one point per delta with a value, in input order. The k-th point is stamped one interval of that granularity after its sample's UTC time, and carries the starting lifetime energy plus the first k+1 deltas. |
| `Transformers.EnergyPointsStep` | seindb.py:101-109 | The first point is the seed plus the first delta. Every later point is the previous point plus its own delta. |
| `Transformers.EnergyPointsNonDecreasing` | seindb.py:101-109 | When no delta is negative, the reconstructed totals never fall, and none falls below the seed. |
| `Transformers.EnergyIsAccumulatedPower` | seindb.py:101-109 | The energy loop skips and raises on exactly the samples the power loop does, with the same error. On success, its points are the power points, each moved one interval later and carrying the running total instead of its delta. |
| `Transformers.AccumulateAt` | seindb.py:105-109 | The k-th accumulated point is the k-th input point moved one interval later. It carries the seed plus the first k+1 values. |
| `Transformers.AccumulateStep` | seindb.py:105-109 | Each accumulated total is the previous total (the seed, for the first) plus the point's own value. |
| `Transformers.EnergyIgnoresNullSamples` | seindb.py:102-103 | The result is the same with the None deltas removed. |
| `Transformers.NullDeltaChangesNothing` | seindb.py:102-103 | Inserting a None delta anywhere neither advances the total nor emits a point. |
| `Transformers.FinalLifetimeEnergy` | seindb.py:96-115 | The final reconstructed total equals the seed plus the sum of all deltas with a value. The final total is the last point's value, or the seed when no point was emitted. |
| `Transformers.EndLifetimeEnergyIgnored` | seindb.py:96-97 | Two time-frame responses with the same start reading give the same points. The end reading is never consulted. |
| `Transformers.UnsupportedUnitRaisesFirst` | seindb.py:98-101 | A unit that names no granularity raises before any sample is read, even when there are no samples. |
| `Transformers.EnergyExample` | seindb.py:94-115 | Seed 1000, unit DAY and deltas 5, None, 3 give totals 1005 and 1008. Each is stamped one day after its sample's UTC time. |
| `Storage.WriteData` | seindb.py:132-143 | There is one record per point, in the same order. Each record carries the given measurement and tags, the point's time in the database format, and a single field `{field_name: value}` holding the point's value. |
| `Sync.PullCurrentPowerData` | seindb.py:72-75 | Power is requested from the begin time to the end time, both rendered in the vendor's date-time format. |
| `Sync.PullTimeframeEnergyData` | seindb.py:78-84 | The lifetime-energy range is requested from the begin date to the date of the end plus 86400 s, both in the date-only format, with the given time unit. |
| `Sync.PullEnergyData` | seindb.py:87-91 | Energy deltas are requested from the begin date to the end date, both in the date-only format, with the given time unit. |
| `Sync.TimeframeEndIsOneDayLater` | seindb.py:78-91 | The time-frame request has the interval-energy request's start date and time unit. Its end date is the one the interval-energy request would send for an end 86400 s later. |
| `Sync.SyncLifetimeEnergy` | seindb.py:189-199 | The energy branch raises exactly when the lifetime-energy transformer does, with the same error. Otherwise it writes one `sensor__energy` record per delta with a value, tagged as the lifetime-energy sensor. The k-th record's time is its sample's UTC time plus one interval, and its single field `value` is the starting lifetime energy plus the first k+1 deltas. |
| `Sync.SyncCurrentPower` | seindb.py:208-218 | The power branch raises exactly when the power transformer does, with the same error. Otherwise it writes one `sensor__power` record per sample with a value, tagged as the current-power sensor. The k-th record's time is its sample's UTC time, and its single field `value` is that sample's value. |

## Left out

- Time-zone conversion (pytz's CET zone, `localize`, `astimezone`) is a field `cetToUtc` of `Library`, passed in. Nothing is proved about daylight saving.
- `strptime` and `strftime` are fields of `Library`, passed in. The model does not describe the string formats beyond naming them; a failed `strptime` is `None`.
- Power and energy values are Python numbers (floats from the vendor); the model uses `int`, so nothing is claimed about floating-point rounding of the running total.
- Because the time-zone conversion is abstract, the model does not state that timestamps are non-decreasing for chronologically ordered input.
- The vendor API client (`Solaredge`, site id, token) is not part of this model. The `pull_*` functions are modelled as the request they would send: `Sync.PullCurrentPowerData`, `Sync.PullTimeframeEnergyData`, `Sync.PullEnergyData`.
- The InfluxDB client (connection, `switch_database`, `write_points`) is not part of this model. `Storage.WriteData` returns the list it would hand to `write_points`.
- Of `main`, only the transform-and-write steps of its two branches are modelled (`Sync.SyncLifetimeEnergy`, `Sync.SyncCurrentPower`), taking the vendor responses as parameters. The rest is not part of this model. That covers argument parsing, the default of processing both datasets, the dry-run substitution of `example_data`, verbose printing and the `datetime.now()` default end. The `example_data` and `secrets` modules are not part of this model either.
- `TimeConversion.FormatTimestamp` has no contract of its own: `_format_timestamp` (seindb.py:55-56) is the library's `strftime` applied to the time unchanged, and `strftime` is abstract. The contracts of its callers (`Storage.WriteData`, the three `Sync.Pull*` functions, `Sync.SyncLifetimeEnergy` and `Sync.SyncCurrentPower`) state which time is rendered in which format.
- Python datetimes only cover the years 1 to 9999; `Seconds` is unbounded. Past the top of that range Python raises `OverflowError`: in `end + timedelta(days=1)` (seindb.py:80) for an end date of 9999-12-31, and in `+ offset` (seindb.py:107) for a UTC time in the last interval of the range. There, `Sync.PullTimeframeEnergyData` still returns a request and `Transformers.EnergyPoints` still emits a point.
- The unconditional `print` of the number of points in each branch of `main` (seindb.py:190, 209) is console output and is not modelled by `Sync.SyncLifetimeEnergy` or `Sync.SyncCurrentPower`.
- The vendor responses are typed records. A missing dictionary key, which would raise `KeyError` in Python, cannot occur.
- Errors carry only the offending string, not Python's exception message.
