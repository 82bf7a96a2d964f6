/**
 * The telemetry processor: `startGPSData` wires the serial port to the GPS
 * parser, and the parser's 'data' handler turns each parsed report into the
 * fix flag, the position and the speed.
 */
module Telemetry {
  import opened Wrappers
  import Series
  import opened CarState

  /**
   * The parser's state when it emits 'data': `fix` is None exactly when the
   * parser's fix indicator is null.
   */
  datatype GpsReport = GpsReport(fix: Option<string>, time: int, lat: real, lon: real, alt: real, speed: real)

  /** The serial device the receiver is attached to, its baud rate and line delimiter. */
  const GpsPortPath: string := "/dev/ttyS0"
  const GpsBaudRate: nat := 9600
  const GpsLineDelimiter: string := "\r\n"
  const OpenGpsPort: Call := OpenSerialPort(GpsPortPath, GpsBaudRate, GpsLineDelimiter)

  /**
   * The GPS 'data' handler. A report with a fix sets the fix flag and replaces
   * the position as a whole and the speed with that report's values; a report
   * without one clears the fix flag and keeps the last position and speed.
   */
  function OnGpsReport(s: Car, r: GpsReport): (t: Car)
    ensures t.gpsFixed <==> r.fix.Some?
    ensures r.fix.Some? ==> t.loc == Location(r.time, r.lat, r.lon, r.alt) && t.speed == r.speed
    ensures r.fix.None? ==> t.loc == s.loc && t.speed == s.speed
    ensures t == s.(gpsFixed := t.gpsFixed, loc := t.loc, speed := t.speed)
  {
    if r.fix.Some? then
      s.(gpsFixed := true, loc := Location(r.time, r.lat, r.lon, r.alt), speed := r.speed)
    else
      s.(gpsFixed := false)
  }

  /** The state after the handler has seen each report in arrival order. */
  function FeedReports(s: Car, reports: seq<GpsReport>): Car
    decreases |reports|
  {
    if reports == [] then s
    else OnGpsReport(FeedReports(s, reports[..|reports| - 1]), reports[|reports| - 1])
  }

  /** The last report that carried a fix, if any. */
  function LastFixed(reports: seq<GpsReport>): Option<GpsReport>
    decreases |reports|
  {
    if reports == [] then None
    else if reports[|reports| - 1].fix.Some? then Some(reports[|reports| - 1])
    else LastFixed(reports[..|reports| - 1])
  }

  /**
   * No stale mixing: after any stream of reports the position and the speed
   * are all taken from the last report that had a fix (or are all the old
   * ones when none had), the fix flag is that of the latest report, and no
   * other field has changed.
   */
  lemma {:induction false} FeedReportsKeepsLastFix(s: Car, reports: seq<GpsReport>)
    ensures var t := FeedReports(s, reports);
            t.gpsFixed == (if reports == [] then s.gpsFixed else reports[|reports| - 1].fix.Some?)
            && (match LastFixed(reports)
                case None => t.loc == s.loc && t.speed == s.speed
                case Some(r) => t.loc == Location(r.time, r.lat, r.lon, r.alt) && t.speed == r.speed)
            && t == s.(gpsFixed := t.gpsFixed, loc := t.loc, speed := t.speed)
    decreases |reports|
  {
    if reports != [] {
      FeedReportsKeepsLastFix(s, reports[..|reports| - 1]);
    }
  }

  /**
   * `startGPSData()`: opens the serial port only if none was created before,
   * registers the port's and the parser's 'data' handlers (again on every
   * call), and marks the service as listening.
   */
  function StartGpsData(s: Car): (e: Effect)
    ensures e.after == s.(gpsportCreated := true, gpsListening := true)
    ensures e.outcome == Pass
    ensures Count(e.calls, OpenGpsPort) == if s.gpsportCreated then 0 else 1
    ensures Count(e.calls, PortOnData) == 1 && Count(e.calls, GpsOnData) == 1
    ensures |e.calls| >= 2 && e.calls[|e.calls| - 2..] == [PortOnData, GpsOnData]
    ensures |e.calls| == Count(e.calls, OpenGpsPort) + 2
    ensures OpenGpsPort in e.calls ==> e.calls[0] == OpenGpsPort
  {
    var open := if s.gpsportCreated then [] else [OpenGpsPort];
    Series.Step(s.(gpsportCreated := true, gpsListening := true), open + [PortOnData, GpsOnData], Pass)
  }

  /**
   * Calling `startGPSData` twice opens the port at most once but registers
   * both handlers twice, and the second call changes no field.
   */
  lemma StartGpsDataTwice(s: Car)
    ensures var e1 := StartGpsData(s);
            var e2 := StartGpsData(e1.after);
            e2.after == e1.after
            && Count(e1.calls + e2.calls, OpenGpsPort) == (if s.gpsportCreated then 0 else 1)
            && Count(e1.calls + e2.calls, PortOnData) == 2
            && Count(e1.calls + e2.calls, GpsOnData) == 2
  {
    var e1 := StartGpsData(s);
    var e2 := StartGpsData(e1.after);
    assert e1.calls == (if s.gpsportCreated then [] else [OpenGpsPort]) + [PortOnData, GpsOnData];
    assert e2.calls == [PortOnData, GpsOnData];
    assert multiset(e1.calls + e2.calls) == multiset(e1.calls) + multiset(e2.calls);
  }
}
