/** Time conversion: parsing the command line's and the vendor's local time
    strings, converting vendor local time to UTC, formatting, and the interval
    length of each energy granularity.

    Times are whole seconds. A naive datetime is the number of seconds since
    1970-01-01 00:00:00 on its own wall clock; an aware UTC datetime is the same
    count on the UTC clock (Unix time). Adding a timedelta to either is then
    plain integer addition. */
module TimeConversion {
  import opened Wrappers

  type Seconds = int

  /** The errors the core raises: strptime's ValueError when a string matches
      no accepted format, and the exception for an unknown time unit. */
  datatype Error =
    | MalformedTimestamp(text: string)
    | UnsupportedTimeUnit(unit: string)

  // Formats of the vendor API (local time) and of the database (UTC).
  const SeFmtDate: string := "%Y-%m-%d"
  const SeFmtDateTime: string := "%Y-%m-%d %H:%M:%S"
  const IdbFmt: string := "%Y-%m-%dT%H:%M:%SZ"

  const MinuteSeconds: Seconds := 60
  const HourSeconds: Seconds := 60 * MinuteSeconds
  const DaySeconds: Seconds := 24 * HourSeconds
  const WeekSeconds: Seconds := 7 * DaySeconds

  /** The date and time library calls the core relies on, which this model does
      not look into:
      - strptime(text, format) parses a naive datetime, None where Python
        raises ValueError;
      - strftime(t, format) renders a datetime;
      - cetToUtc(t) localizes a naive wall-clock time in the vendor's zone
        (CET with its daylight-saving rules) and converts it to UTC. */
  datatype Library = Library(
    strptime: (string, string) -> Option<Seconds>,
    strftime: (Seconds, string) -> string,
    cetToUtc: Seconds -> Seconds)

  /** Parses a command-line timestamp: the date-only format is tried first and
      the date-time format only when that one fails. */
  function ParseInputTimestamp(lib: Library, text: string): (r: Result<Seconds, Error>)
    ensures lib.strptime(text, SeFmtDate).Some? ==> r == Success(lib.strptime(text, SeFmtDate).value)
    ensures lib.strptime(text, SeFmtDate).None? && lib.strptime(text, SeFmtDateTime).Some? ==>
              r == Success(lib.strptime(text, SeFmtDateTime).value)
    ensures r.Failure? <==> lib.strptime(text, SeFmtDate).None? && lib.strptime(text, SeFmtDateTime).None?
    ensures r.Failure? ==> r.error == MalformedTimestamp(text)
  {
    match lib.strptime(text, SeFmtDate)
    case Some(t) => Success(t)
    case None =>
      match lib.strptime(text, SeFmtDateTime)
      case Some(t) => Success(t)
      case None => Failure(MalformedTimestamp(text))
  }

  /** A vendor timestamp, always in the date-time format and in the vendor's
      local time, as a UTC instant. The date-only format is never tried. */
  function ParseSolaredgeTimestamp(lib: Library, text: string): (r: Result<Seconds, Error>)
    ensures r.Success? <==> lib.strptime(text, SeFmtDateTime).Some?
    ensures r.Success? ==> r.value == lib.cetToUtc(lib.strptime(text, SeFmtDateTime).value)
    ensures r.Failure? ==> r.error == MalformedTimestamp(text)
  {
    match lib.strptime(text, SeFmtDateTime)
    case Some(t) => Success(lib.cetToUtc(t))
    case None => Failure(MalformedTimestamp(text))
  }

  /** Renders a time in the given format, as it is: no time-zone conversion
      happens on the way out. */
  function FormatTimestamp(lib: Library, t: Seconds, format: string): (r: string) {
    lib.strftime(t, format)
  }

  /** The granularities the vendor's energy API reports in, as the command
      line offers them, each with its name on the wire and its length. */
  datatype Granularity = QuarterOfAnHour | Hour | Day | Week {

    function Name(): string {
      match this
      case QuarterOfAnHour => "QUARTER_OF_AN_HOUR"
      case Hour => "HOUR"
      case Day => "DAY"
      case Week => "WEEK"
    }

    function Duration(): Seconds {
      match this
      case QuarterOfAnHour => 15 * MinuteSeconds
      case Hour => HourSeconds
      case Day => DaySeconds
      case Week => WeekSeconds
    }
  }

  /** The length of one reporting interval of the named time unit; any name
      other than the four known ones is an error. */
  function OffsetFromTimeUnit(unit: string): (r: Result<Seconds, Error>)
    ensures r.Success? ==> r.value > 0
    ensures r.Failure? ==> r.error == UnsupportedTimeUnit(unit)
  {
    if unit == "WEEK" then Success(WeekSeconds)
    else if unit == "DAY" then Success(DaySeconds)
    else if unit == "HOUR" then Success(HourSeconds)
    else if unit == "QUARTER_OF_AN_HOUR" then Success(15 * MinuteSeconds)
    else Failure(UnsupportedTimeUnit(unit))
  }

  /** The lookup succeeds exactly on the names of the granularities, and then
      gives that granularity's length. */
  lemma OffsetFromTimeUnitIsDuration(unit: string)
    ensures OffsetFromTimeUnit(unit).Success? <==> exists g: Granularity :: g.Name() == unit
    ensures forall g: Granularity :: g.Name() == unit ==> OffsetFromTimeUnit(unit) == Success(g.Duration())
  {
    forall g: Granularity | g.Name() == unit
      ensures OffsetFromTimeUnit(unit) == Success(g.Duration())
    {
      match g
      case QuarterOfAnHour =>
      case Hour =>
      case Day =>
      case Week =>
    }
    if OffsetFromTimeUnit(unit).Success? {
      if unit == "WEEK" {
        assert Week.Name() == unit;
      } else if unit == "DAY" {
        assert Day.Name() == unit;
      } else if unit == "HOUR" {
        assert Hour.Name() == unit;
      } else {
        assert QuarterOfAnHour.Name() == unit;
      }
    }
  }

  /** The documented lengths: a week, a day, an hour and a quarter of an hour. */
  lemma DocumentedOffsets()
    ensures OffsetFromTimeUnit("WEEK") == Success(604800)
    ensures OffsetFromTimeUnit("DAY") == Success(86400)
    ensures OffsetFromTimeUnit("HOUR") == Success(3600)
    ensures OffsetFromTimeUnit("QUARTER_OF_AN_HOUR") == Success(900)
  {
  }
}
