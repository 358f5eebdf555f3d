/**
 * One pass of the firmware's `while (1)` loop: a byte or silence goes to the
 * line receiver, and a line it hands on is parsed; an accepted record is
 * what goes to inference. `DispatchAsWritten` is what the loop does with a
 * line given `parse_csv_line` as written, which never returns on some lines;
 * the rest of the loop uses the parser that rejects a line on which its
 * cursor gets stuck.
 */
module MainLoop {
  import opened Basics
  import opened CsvRecord
  import opened CsvParser
  import opened Ingestion
  import opened SerialInput

  /** What the loop does with a parsed line: run inference, report the failure and go on, or hang in the parser. */
  datatype Outcome = Infer(sample: Sample) | Drop | Hang

  /**
   * The branch on `parse_csv_line`'s result, with the parser as written. A
   * line on which its scan stalls never gets past the call, so the loop
   * handles no further byte; on every other line the outcome is the one the
   * corrected parser gives.
   */
  function DispatchAsWritten(line: seq<char>): (o: Outcome)
    ensures o == Hang <==> LineScan(line).stalled
    ensures o == Drop <==> !LineScan(line).stalled && |LineScan(line).fields| < FieldCount
    ensures o == Hang || o == Drop ==> Dispatch(Some(line)) == None
    ensures o.Infer? ==> Dispatch(Some(line)) == Some(o.sample) && |o.sample.pixels| == MnistSize
  {
    match ParseLine(line)
    case Accepted(sample) => Infer(sample)
    case Rejected => Drop
    case Diverges => Hang
  }

  /** What reaches `run_inference` for a line handed on: the record, when the parser accepts the line. */
  function Dispatch(line: Option<seq<char>>): (sample: Option<Sample>)
    ensures sample.Some? <==> line.Some? && ParseLineChecked(line.value).Accepted?
    ensures sample.Some? ==> sample.value == ParseLineChecked(line.value).sample && |sample.value.pixels| == MnistSize
  {
    if line.Some? && ParseLineChecked(line.value).Accepted? then Some(ParseLineChecked(line.value).sample) else None
  }

  /** Parsing a line handed on, into a fresh label and pixel array. */
  method HandleLine(line: seq<char>) returns (sample: Option<Sample>)
    ensures sample == Dispatch(Some(line))
  {
    var pixels := new Byte[MnistSize];
    var rc, classLabel := ParseCsvLineChecked(line, pixels);
    if rc == 0 {
      sample := Some(Sample(classLabel, pixels[..]));
    } else {
      sample := None;
    }
  }

  /** One pass of the loop on event `e`: the receiver steps, and a record accepted goes on to inference. */
  method Iterate(rx: LineReceiver, e: Event) returns (sample: Option<Sample>)
    requires rx.Valid()
    modifies rx, rx.buffer
    ensures rx.Valid()
    ensures rx.Current() == Step(old(rx.Current()), e).state
    ensures sample == Dispatch(Step(old(rx.Current()), e).line)
  {
    sample := None;
    match e
    case Received(ch, at) =>
      var line := rx.OnByte(ch, at);
      if line.Some? {
        sample := HandleLine(line.value);
      }
    case Silent(at) =>
      rx.OnIdle(at);
  }

  /** The line `hello` hangs the loop as written; the corrected loop drops it. */
  lemma HelloHangsTheLoop()
    ensures DispatchAsWritten("hello") == Hang && Dispatch(Some("hello")) == None
  {
    HelloNeverReturns();
  }

  // ---------------------------------------------------------------------
  // From the serial line to the classifier

  /** The values of a record are below 1000, so each is printed in at most 3 digits and a comma. */
  lemma {:induction false} JoinFits(vs: seq<nat>)
    requires forall k :: 0 <= k < |vs| ==> vs[k] < 1000
    ensures |Join(vs)| <= 4 * |vs| && AllPrintable(Join(vs))
    decreases |vs|
  {
    if |vs| > 0 {
      assert Pow10(3) == 1000;
      DecimalLength(vs[0], 3);
      JoinFits(vs[1..]);
    }
  }

  /**
   * A record printed as a CSV line, sent byte by byte into an empty buffer
   * and ended by a newline, reaches inference unchanged.
   */
  lemma RecordReachesInference(st: Ingestion.State, s: Sample, times: seq<int>, at: int)
    requires st.pending == [] && |s.pixels| == MnistSize && |times| == |Join(Fields(s))|
    ensures GoodLine(Join(Fields(s)))
    ensures Run(st, Keystrokes(Join(Fields(s)), times) + [Received(LineFeed, at)]).lines == [Join(Fields(s))]
    ensures Dispatch(Some(Join(Fields(s)))) == Some(s)
  {
    var vs := Fields(s);
    JoinFits(vs);
    JoinShape(vs);
    LineRoundTrip(st, Join(vs), times, at);
    RecordRoundTrip(s);
  }
}
