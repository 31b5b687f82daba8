/**
 * Record shapes of the echo-analysis pipeline: the WSJT-X log lines, the
 * Pycom tracking samples, the echoes built from them, and the run's tunable
 * constants. Timestamps are whole seconds; the float fields of the logs
 * (carrier frequency, DT, azimuth, elevation, range) are `real` values that
 * the pipeline only copies, compares or clips.
 */
module Records {

  datatype Option<+T> = None | Some(value: T)

  /** Direction column of a WSJT-X log line. */
  datatype Direction = Rx | Tx

  /** One parsed WSJT-X log line. */
  datatype WsjtRecord = WsjtRecord(
    ts: int,          // timestamp, seconds
    tsStr: string,    // the timestamp as written in the log, YYMMDD_HHMMSS
    freq: real,       // carrier frequency
    dir: Direction,
    mode: string,
    snr: int,
    dt: real,
    f: int,           // audio offset, Hz
    msg: string)

  /** A transmission heard back by the station's own receiver. */
  datatype Echo = Echo(
    ts: int,
    tsStr: string,
    txFreq: real,
    txOffset: int,
    rxFreq: real,
    rxOffset: int,
    dt: real,
    snr: int,
    message: string)

  /** One Pycom satellite-tracking sample, as the log parser keeps it. */
  datatype Pycom = Pycom(
    ts: int,
    sat: string,
    az: real,
    el: real,
    rangeKm: real,
    main: int,
    sub: int,
    dopUp: int,
    dopDown: int,
    dopUpRate: int,
    dopDownRate: int,
    offset: int,
    rit: string,
    ritFreq: int)

  /** The tracking sample attached to an echo and its distance in time. */
  datatype SatFix = SatFix(pycom: Pycom, timeDiff: nat)

  /** An echo with its optional tracking sample ("no telemetry" is `None`). */
  datatype Combined = Combined(echo: Echo, fix: Option<SatFix>)

  /** The tolerances of one run, and the operator's callsign marker. */
  datatype Config = Config(
    timeTolerance: nat,        // |rx.ts - tx.ts| allowed for an echo
    maxTimeDiffForMatch: nat,  // a tracking sample must be strictly closer than this
    maxGapBetweenEchoes: nat,  // a larger gap between echoes opens a new pass
    passMargin: nat,           // track window extends the pass by this on both sides
    marker: string)            // must occur in the received message

  const DefaultConfig := Config(1, 5, 30 * 60, 10 * 60, "M0SNZ")

  function EchoTs(e: Echo): int { e.ts }

  function CombinedTs(c: Combined): int { c.echo.ts }

  function Abs(x: int): nat { if x < 0 then -x else x }
}
