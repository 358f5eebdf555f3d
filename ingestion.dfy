/**
 * The byte handling of the firmware's main loop, as a state machine over the
 * characters buffered so far (`csv_buffer[0..csv_pos)`) and the time the last
 * byte arrived (`last_byte_time`). Each pass of the loop either receives one
 * byte or finds the line silent; a received terminator hands the buffered
 * line on for parsing.
 */
module Ingestion {
  import opened Basics

  /** `CSV_BUFFER_SIZE`. */
  const CsvBufferSize: nat := 8192
  /** At most this many characters are buffered: one slot is kept for the NUL written before parsing. */
  const MaxPending: nat := CsvBufferSize - 1
  /** A buffered line is dropped after more than 3 s without a byte. */
  const IdleTimeoutUs: int := 3000000

  const Tab: Byte := 9
  const LineFeed: Byte := 10
  const CarriageReturn: Byte := 13

  predicate IsPrintable(c: char) { ' ' <= c <= '~' }
  predicate IsTerminator(ch: Byte) { ch == LineFeed || ch == CarriageReturn }

  predicate AllPrintable(s: seq<char>)
  {
    forall k :: 0 <= k < |s| ==> IsPrintable(s[k])
  }

  /** The buffered characters and the time of the last byte, in microseconds. */
  datatype State = State(pending: seq<char>, lastByteTime: int)

  /** The buffer invariant: the NUL slot is always in bounds and only printable characters are kept. */
  predicate WellFormed(st: State)
  {
    |st.pending| <= MaxPending && AllPrintable(st.pending)
  }

  /** After start-up: an empty buffer, the clock read once. */
  function Initial(now: int): (st: State)
    ensures WellFormed(st) && st.pending == []
  {
    State([], now)
  }

  /**
   * What a byte other than a terminator adds to the buffer when there is
   * room: a printable byte itself, a tab as a space, anything else nothing.
   */
  function Admitted(ch: Byte): (t: seq<char>)
    ensures |t| <= 1 && AllPrintable(t)
    ensures |t| == 1 <==> (32 <= ch <= 126 || ch == Tab)
    ensures 32 <= ch <= 126 ==> t == [ch as char]
    ensures ch == Tab ==> t == [' ']
  {
    if 32 <= ch <= 126 then [ch as char] else if ch == Tab then [' '] else []
  }

  /** The state after a stimulus, and the line handed to the parser, if any. */
  datatype Reaction = Reaction(state: State, line: Option<seq<char>>)

  /**
   * One received byte. Its time is recorded. A terminator hands on a
   * non-empty buffer and empties it; on an empty buffer it does nothing
   * else. Another byte is buffered when there is room; at capacity it is
   * dropped together with the whole buffer.
   */
  function AfterByte(st: State, ch: Byte, now: int): (r: Reaction)
    ensures r.state.lastByteTime == now
    ensures WellFormed(st) ==> WellFormed(r.state)
    ensures r.line.Some? <==> IsTerminator(ch) && |st.pending| > 0
    ensures r.line.Some? ==> r.line.value == st.pending
    ensures IsTerminator(ch) || |st.pending| >= MaxPending ==> r.state.pending == []
    ensures !IsTerminator(ch) && |st.pending| < MaxPending ==> r.state.pending == st.pending + Admitted(ch)
  {
    if IsTerminator(ch) then
      if |st.pending| > 0 then Reaction(State([], now), Some(st.pending)) else Reaction(State(st.pending, now), None)
    else if |st.pending| < MaxPending then
      Reaction(State(st.pending + Admitted(ch), now), None)
    else
      Reaction(State([], now), None)
  }

  /** A pass with no byte: a non-empty buffer left alone for more than 3 s is dropped. */
  function AfterSilence(st: State, now: int): (r: State)
    ensures r.lastByteTime == st.lastByteTime
    ensures r.pending == if now - st.lastByteTime > IdleTimeoutUs then [] else st.pending
    ensures WellFormed(st) ==> WellFormed(r)
  {
    if |st.pending| > 0 && now - st.lastByteTime > IdleTimeoutUs then State([], st.lastByteTime) else st
  }

  // ---------------------------------------------------------------------
  // Runs of the loop

  /** What one pass of the loop observes: a byte and its arrival time, or silence at a time. */
  datatype Event = Received(ch: Byte, at: int) | Silent(at: int)

  /**
   * One pass of the loop. Only a terminator arriving on a non-empty buffer
   * hands a line on, and that line is the buffered text; the buffer
   * invariant is kept.
   */
  function Step(st: State, e: Event): (r: Reaction)
    ensures WellFormed(st) ==> WellFormed(r.state)
    ensures r.line.Some? <==> e.Received? && IsTerminator(e.ch) && |st.pending| > 0
    ensures r.line.Some? ==> r.line.value == st.pending
    ensures r.state.lastByteTime == if e.Received? then e.at else st.lastByteTime
  {
    match e
    case Received(ch, at) => AfterByte(st, ch, at)
    case Silent(at) => Reaction(AfterSilence(st, at), None)
  }

  /** The state after a run of passes, and the lines handed on in order. */
  datatype Trace = Trace(state: State, lines: seq<seq<char>>)

  function LinesOf(line: Option<seq<char>>): seq<seq<char>>
  {
    if line.Some? then [line.value] else []
  }

  /** A run of passes. Each pass hands on at most one line, and silence alone hands on none. */
  function Run(st: State, evs: seq<Event>): (t: Trace)
    ensures |t.lines| <= |evs|
    ensures (forall k :: 0 <= k < |evs| ==> evs[k].Silent?) ==> t.lines == []
    decreases |evs|
  {
    if |evs| == 0 then Trace(st, [])
    else
      var r := Step(st, evs[0]);
      var t := Run(r.state, evs[1..]);
      Trace(t.state, LinesOf(r.line) + t.lines)
  }

  /** Every line handed on is non-empty, fits the buffer with its NUL, and is printable. */
  predicate GoodLine(line: seq<char>)
  {
    0 < |line| <= MaxPending && AllPrintable(line)
  }

  /**
   * The buffer invariant holds along every run, so the NUL store is in
   * bounds, and every line handed to the parser holds printable characters
   * only: no NUL, newline or other control byte ends it early.
   */
  lemma {:induction false} RunKeepsWellFormed(st: State, evs: seq<Event>)
    requires WellFormed(st)
    ensures WellFormed(Run(st, evs).state)
    ensures forall k :: 0 <= k < |Run(st, evs).lines| ==> GoodLine(Run(st, evs).lines[k])
    decreases |evs|
  {
    if |evs| > 0 {
      var r := Step(st, evs[0]);
      RunKeepsWellFormed(r.state, evs[1..]);
    }
  }

  /** Running two stretches of events one after the other. */
  lemma {:induction false} RunAppend(st: State, a: seq<Event>, b: seq<Event>)
    ensures Run(st, a + b) == Trace(Run(Run(st, a).state, b).state, Run(st, a).lines + Run(Run(st, a).state, b).lines)
    decreases |a|
  {
    if |a| == 0 {
      assert a + b == b;
    } else {
      var r := Step(st, a[0]);
      assert (a + b)[0] == a[0] && (a + b)[1..] == a[1..] + b;
      RunAppend(r.state, a[1..], b);
      ConcatAssoc(LinesOf(r.line), Run(r.state, a[1..]).lines, Run(Run(r.state, a[1..]).state, b).lines);
    }
  }

  // ---------------------------------------------------------------------
  // Typing a line

  /** The bytes of a printable text arriving at the given times. */
  function Keystrokes(text: seq<char>, times: seq<int>): (evs: seq<Event>)
    requires AllPrintable(text) && |times| == |text|
    ensures |evs| == |text|
  {
    seq(|text|, i requires 0 <= i < |text| => Received(text[i] as int, times[i]))
  }

  /** The time of the last byte after a stretch of keystrokes. */
  function LastTime(st: State, times: seq<int>): int
  {
    if |times| == 0 then st.lastByteTime else times[|times| - 1]
  }

  /** Printable bytes that fit are buffered as they are, and nothing is handed on. */
  lemma {:induction false} TypedAppends(st: State, text: seq<char>, times: seq<int>)
    requires AllPrintable(text) && |times| == |text|
    requires |st.pending| + |text| <= MaxPending
    ensures Run(st, Keystrokes(text, times)) == Trace(State(st.pending + text, LastTime(st, times)), [])
    decreases |text|
  {
    if |text| > 0 {
      var st' := State(st.pending + [text[0]], times[0]);
      KeystrokesTail(text, times);
      assert Step(st, Keystrokes(text, times)[0]) == Reaction(st', None);
      TypedAppends(st', text[1..], times[1..]);
      AppendFirst(st.pending, text);
    }
  }

  lemma KeystrokesTail(text: seq<char>, times: seq<int>)
    requires AllPrintable(text) && |times| == |text| > 0
    ensures Keystrokes(text, times)[0] == Received(text[0] as int, times[0])
    ensures AllPrintable(text[1..]) && Keystrokes(text, times)[1..] == Keystrokes(text[1..], times[1..])
  {
  }

  lemma AppendFirst(pending: seq<char>, text: seq<char>)
    requires |text| > 0
    ensures (pending + [text[0]]) + text[1..] == pending + text
  {
    assert text == [text[0]] + text[1..];
  }

  /**
   * A line typed into an empty buffer and ended by a newline is handed on
   * exactly as typed, and the buffer is empty again.
   */
  lemma LineRoundTrip(st: State, text: seq<char>, times: seq<int>, at: int)
    requires st.pending == [] && GoodLine(text) && |times| == |text|
    ensures Run(st, Keystrokes(text, times) + [Received(LineFeed, at)]) == Trace(State([], at), [text])
  {
    var typed := Keystrokes(text, times);
    TypedAppends(st, text, times);
    RunAppend(st, typed, [Received(LineFeed, at)]);
    assert st.pending + text == text;
  }

  /**
   * A pause after typing: the line survives a pause of at most 3 s and is
   * handed on by the newline; after a longer pause it is dropped and the
   * newline hands on nothing.
   */
  lemma PausedLine(st: State, text: seq<char>, times: seq<int>, quiet: int, at: int)
    requires st.pending == [] && GoodLine(text) && |times| == |text|
    ensures Run(st, Keystrokes(text, times) + [Silent(quiet), Received(LineFeed, at)]).lines
         == if quiet - times[|text| - 1] > IdleTimeoutUs then [] else [text]
  {
    var typed := Keystrokes(text, times);
    var tail := [Silent(quiet), Received(LineFeed, at)];
    var mid := State(text, times[|text| - 1]);
    TypedAppends(st, text, times);
    assert st.pending + text == text;
    assert Run(st, typed) == Trace(mid, []);
    RunAppend(st, typed, tail);
    QuietThenNewline(mid, quiet, at);
    assert [] + Run(mid, tail).lines == Run(mid, tail).lines;
  }

  lemma QuietThenNewline(st: State, quiet: int, at: int)
    requires |st.pending| > 0
    ensures Run(st, [Silent(quiet), Received(LineFeed, at)]).lines
         == if quiet - st.lastByteTime > IdleTimeoutUs then [] else [st.pending]
  {
    assert [Silent(quiet), Received(LineFeed, at)][1..] == [Received(LineFeed, at)];
    RunOne(AfterSilence(st, quiet), Received(LineFeed, at));
  }

  lemma RunOne(st: State, e: Event)
    ensures Run(st, [e]) == Trace(Step(st, e).state, LinesOf(Step(st, e).line))
  {
    assert [e][1..] == [];
  }

  /**
   * A line longer than the buffer is never handed on whole: the byte that
   * finds the buffer full is dropped with the 8191 before it, and only what
   * follows reaches the parser.
   */
  lemma LongLineLosesItsHead(st: State, text: seq<char>, times: seq<int>, at: int)
    requires st.pending == [] && AllPrintable(text) && |times| == |text|
    requires MaxPending < |text| <= 2 * MaxPending + 1
    ensures Run(st, Keystrokes(text, times) + [Received(LineFeed, at)]).lines
         == if |text| == MaxPending + 1 then [] else [text[MaxPending + 1..]]
  {
    var head, rest := text[..MaxPending + 1], text[MaxPending + 1..];
    var headTimes, restTimes := times[..MaxPending + 1], times[MaxPending + 1..];
    KeystrokesAppend(head, rest, headTimes, restTimes);
    assert head + rest == text && headTimes + restTimes == times;
    var full := Run(st, Keystrokes(head, headTimes)).state;
    Overflow(st, head, headTimes);
    RunAppend(st, Keystrokes(head, headTimes), Keystrokes(rest, restTimes) + [Received(LineFeed, at)]);
    assert Keystrokes(head, headTimes) + (Keystrokes(rest, restTimes) + [Received(LineFeed, at)])
        == Keystrokes(text, times) + [Received(LineFeed, at)];
    if |rest| > 0 {
      LineRoundTrip(full, rest, restTimes, at);
    } else {
      assert Keystrokes(rest, restTimes) == [];
    }
  }

  /** 8191 printable bytes fill the buffer, and the next one empties it. */
  lemma Overflow(st: State, head: seq<char>, times: seq<int>)
    requires st.pending == [] && AllPrintable(head) && |times| == |head| == MaxPending + 1
    ensures Run(st, Keystrokes(head, times)) == Trace(State([], times[MaxPending]), [])
  {
    var fill := head[..MaxPending];
    var fillTimes := times[..MaxPending];
    KeystrokesAppend(fill, [head[MaxPending]], fillTimes, [times[MaxPending]]);
    assert fill + [head[MaxPending]] == head && fillTimes + [times[MaxPending]] == times;
    TypedAppends(st, fill, fillTimes);
    RunAppend(st, Keystrokes(fill, fillTimes), Keystrokes([head[MaxPending]], [times[MaxPending]]));
  }

  lemma KeystrokesAppend(a: seq<char>, b: seq<char>, ta: seq<int>, tb: seq<int>)
    requires AllPrintable(a) && AllPrintable(b) && |ta| == |a| && |tb| == |b|
    ensures AllPrintable(a + b)
    ensures Keystrokes(a + b, ta + tb) == Keystrokes(a, ta) + Keystrokes(b, tb)
  {
  }
}
