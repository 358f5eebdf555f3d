/**
 * The serial line receiver: the globals `csv_buffer`, `csv_pos` and
 * `last_byte_time`, and the two things a pass of the main loop does to them,
 * one per stimulus. The byte and the current time are passed in instead of
 * being read from the UART and the clock.
 */
module SerialInput {
  import opened Basics
  import opened Ingestion

  class LineReceiver {
    /** `csv_buffer`. */
    const buffer: array<char>
    /** `csv_pos`: how many characters are buffered. */
    var pos: int
    /** `last_byte_time`, in microseconds. */
    var lastByteTime: int

    /** The NUL slot `buffer[pos]` is in bounds and the buffered characters are printable. */
    ghost predicate Valid()
      reads this, buffer
    {
      buffer.Length == CsvBufferSize && 0 <= pos <= MaxPending && AllPrintable(buffer[..pos])
    }

    /** The receiver as a state of the ingestion state machine. */
    ghost function Current(): Ingestion.State
      reads this, buffer
      requires Valid()
    {
      Ingestion.State(buffer[..pos], lastByteTime)
    }

    /** The set-up before the main loop: an empty buffer and the clock read once. */
    constructor(now: int)
      ensures Valid() && Current() == Initial(now)
    {
      buffer := new char[CsvBufferSize];
      pos := 0;
      lastByteTime := now;
    }

    /**
     * A byte arrived at `now`. Returns the line to parse when the byte is a
     * terminator and the buffer is not empty; the line is NUL-terminated in
     * the buffer before it is handed on.
     */
    method OnByte(ch: Byte, now: int) returns (line: Option<seq<char>>)
      requires Valid()
      modifies this, buffer
      ensures Valid()
      ensures Current() == AfterByte(old(Current()), ch, now).state
      ensures line == AfterByte(old(Current()), ch, now).line
    {
      lastByteTime := now;
      line := None;
      if ch == LineFeed || ch == CarriageReturn {
        if pos > 0 {
          buffer[pos] := '\0';
          line := Some(buffer[..pos]);
          pos := 0;
        }
      } else if pos < CsvBufferSize - 1 {
        if 32 <= ch <= 126 {
          buffer[pos] := ch as char;
          pos := pos + 1;
        } else if ch == Tab {
          buffer[pos] := ' ';
          pos := pos + 1;
        }
      } else {
        pos := 0;
      }
    }

    /** No byte arrived by `now`: a non-empty buffer is dropped after more than 3 s of silence. */
    method OnIdle(now: int)
      requires Valid()
      modifies this
      ensures Valid()
      ensures Current() == AfterSilence(old(Current()), now)
    {
      if pos > 0 && now - lastByteTime > IdleTimeoutUs {
        pos := 0;
      }
    }
  }
}
