/**
 * `parse_csv_line`: the cursor walk over one line that fills the label and the
 * pixel array in place. `ParseCsvLine` is the loop as the firmware has it; it
 * only returns on lines whose scan never stalls. `ParseCsvLineChecked` is the
 * same loop with a stalled cursor rejected, the parser the main loop uses.
 */
module CsvParser {
  import opened Basics
  import opened CsvRecord

  /** The pixels the loop has written once it has counted `fields`; the rest keep their old values. */
  ghost predicate WrittenSoFar(pixels: seq<Byte>, before: seq<Byte>, fields: seq<nat>)
    requires |pixels| == |before| == MnistSize
  {
    forall k :: 0 <= k < MnistSize ==>
      pixels[k] == if k + 1 < |fields| then Clamp(fields[k + 1]) else before[k]
  }

  /** Counting one more field writes its pixel, clamped, and nothing else. */
  lemma CountField(pixels: seq<Byte>, before: seq<Byte>, start: seq<Byte>, fields: seq<nat>, v: nat)
    requires |pixels| == |before| == |start| == MnistSize && |fields| < FieldCount
    requires WrittenSoFar(before, start, fields)
    requires pixels == if |fields| == 0 then before else before[|fields| - 1 := Clamp(v)]
    ensures WrittenSoFar(pixels, start, fields + [v])
  {
  }

  /** Once all 785 fields are counted, the pixel array holds the record's pixels. */
  lemma AllWritten(pixels: seq<Byte>, start: seq<Byte>, fields: seq<nat>)
    requires |pixels| == |start| == MnistSize && |fields| == FieldCount
    requires WrittenSoFar(pixels, start, fields)
    ensures pixels == SampleOf(fields).pixels
  {
  }

  /** The leading-blank loop: the cursor ends on the first character that is not a space or a tab. */
  method SkipBlanks(line: seq<char>) returns (ptr: nat)
    ensures ptr == LeadingBlanks(line)
  {
    ptr := 0;
    while ptr < |line| && IsBlank(line[ptr])
      invariant ptr <= |line|
      invariant LeadingBlanks(line) == ptr + LeadingBlanks(line[ptr..])
    {
      assert line[ptr..][1..] == line[ptr + 1..];
      ptr := ptr + 1;
    }
  }

  /**
   * The digit loop: copies at most MaxDigits digits from the cursor into
   * `numBuf` and leaves the cursor after them.
   */
  method ReadToken(line: seq<char>, start: nat) returns (numBuf: seq<char>, ptr: nat)
    requires start <= |line|
    ensures ptr == start + TokenLength(line[start..]) && numBuf == line[start..ptr]
  {
    ptr := start;
    numBuf := [];
    while ptr < |line| && IsDigit(line[ptr]) && |numBuf| < MaxDigits
      invariant start <= ptr <= |line| && ptr - start <= MaxDigits
      invariant numBuf == line[start..ptr]
      invariant forall k :: start <= k < ptr ==> IsDigit(line[k])
    {
      numBuf := numBuf + [line[ptr]];
      ptr := ptr + 1;
    }
    TokenLengthIs(line[start..], ptr - start);
  }

  /** The separator loop: skips commas, spaces and tabs. */
  method SkipSeparators(line: seq<char>, start: nat) returns (ptr: nat)
    requires start <= |line|
    ensures ptr == start + LeadingSeparators(line[start..])
  {
    ptr := start;
    while ptr < |line| && IsSeparator(line[ptr])
      invariant start <= ptr <= |line|
      invariant LeadingSeparators(line[start..]) == (ptr - start) + LeadingSeparators(line[ptr..])
    {
      assert line[ptr..][1..] == line[ptr + 1..];
      ptr := ptr + 1;
    }
  }

  /** The token the digit loop copied is the field the pass counts. */
  lemma TokenIsCut(line: seq<char>, ptr: nat, afterDigits: nat, numBuf: seq<char>)
    requires ptr <= afterDigits <= |line|
    requires afterDigits == ptr + TokenLength(line[ptr..]) && numBuf == line[ptr..afterDigits]
    ensures AllDigits(numBuf)
    ensures Cut(line[ptr..]) == if |numBuf| > 0 then [Atoi(numBuf)] else []
  {
    ghost var s := line[ptr..];
    DropTake(line, ptr, afterDigits - ptr);
    assert numBuf == s[..TokenLength(s)];
  }

  /** The digit loop and the separator loop together move the cursor by one step. */
  lemma PassLength(line: seq<char>, ptr: nat, afterDigits: nat, next: nat)
    requires ptr <= afterDigits <= |line|
    requires afterDigits == ptr + TokenLength(line[ptr..])
    requires next == afterDigits + LeadingSeparators(line[afterDigits..])
    ensures next == ptr + StepLength(line[ptr..]) && line[next..] == line[ptr..][StepLength(line[ptr..])..]
  {
    ghost var s := line[ptr..];
    DropDrop(line, ptr, afterDigits - ptr);
    assert line[afterDigits..] == s[TokenLength(s)..];
    DropDrop(line, ptr, next - ptr);
  }

  /**
   * Counting the token `numBuf`, if the digit loop read any digit: the first
   * field is the label, the next 784 are clamped pixels, and later ones are
   * counted and dropped.
   */
  method StoreField(numBuf: seq<char>, fieldCount: nat, classLabel: Byte, pixels: array<Byte>,
                    ghost fields: seq<nat>, ghost start: seq<Byte>)
    returns (count: nat, newLabel: Byte, ghost counted: seq<nat>)
    requires AllDigits(numBuf) && fieldCount == |fields| < FieldCount
    requires pixels.Length == |start| == MnistSize
    requires |fields| > 0 ==> classLabel == fields[0] % 256
    requires WrittenSoFar(pixels[..], start, fields)
    modifies pixels
    ensures counted == fields + (if |numBuf| > 0 then [Atoi(numBuf)] else []) && count == |counted|
    ensures |counted| > 0 ==> newLabel == counted[0] % 256
    ensures WrittenSoFar(pixels[..], start, counted)
  {
    count, newLabel, counted := fieldCount, classLabel, fields;
    if |numBuf| > 0 {
      var value := Atoi(numBuf);
      ghost var before := pixels[..];
      if fieldCount == 0 {
        newLabel := value % 256;  // `value & 0xFF` on a non-negative value
      } else if fieldCount <= MnistSize {
        // `atoi` of digits is never negative, so only the upper clamp can apply
        pixels[fieldCount - 1] := if value > 255 then 255 else value;
      }
      CountField(pixels[..], before, start, fields, value);
      count := count + 1;
      counted := counted + [value];
    }
  }

  /**
   * One pass of the field loop: cut a token of at most 7 digits, count it
   * (the first as the label, the next 784 as clamped pixels), then skip the
   * separators after it. A pass over a character the loop cannot consume
   * leaves the cursor where it was.
   */
  method FieldPass(line: seq<char>, ptr: nat, fieldCount: nat, classLabel: Byte, pixels: array<Byte>,
                   ghost fields: seq<nat>, ghost start: seq<Byte>)
    returns (next: nat, count: nat, newLabel: Byte, ghost counted: seq<nat>)
    requires ptr <= |line| && fieldCount == |fields| < FieldCount
    requires pixels.Length == |start| == MnistSize
    requires |fields| > 0 ==> classLabel == fields[0] % 256
    requires WrittenSoFar(pixels[..], start, fields)
    modifies pixels
    ensures next == ptr + StepLength(line[ptr..]) && line[next..] == line[ptr..][StepLength(line[ptr..])..]
    ensures counted == fields + Cut(line[ptr..]) && count == |counted|
    ensures |counted| > 0 ==> newLabel == counted[0] % 256
    ensures WrittenSoFar(pixels[..], start, counted)
  {
    var numBuf, afterDigits := ReadToken(line, ptr);
    TokenIsCut(line, ptr, afterDigits, numBuf);
    count, newLabel, counted := StoreField(numBuf, fieldCount, classLabel, pixels, fields, start);
    next := SkipSeparators(line, afterDigits);
    PassLength(line, ptr, afterDigits, next);
  }

  /**
   * `parse_csv_line` as written. Returns 0 and the record when exactly 785
   * fields were counted, -1 otherwise; pixels of the fields counted are
   * written even when the line is then rejected. The C loop never returns on
   * a line whose scan stalls, hence the precondition.
   */
  method ParseCsvLine(line: seq<char>, pixels: array<Byte>) returns (rc: int, classLabel: Byte)
    requires pixels.Length == MnistSize
    requires !LineScan(line).stalled
    modifies pixels
    ensures rc == 0 || rc == -1
    ensures rc == 0 <==> ParseLine(line).Accepted?
    ensures rc == 0 ==> classLabel == ParseLine(line).sample.classLabel && pixels[..] == ParseLine(line).sample.pixels
    ensures |LineScan(line).fields| > 0 ==> classLabel == LineScan(line).fields[0] % 256
    ensures WrittenSoFar(pixels[..], old(pixels[..]), LineScan(line).fields)
  {
    classLabel := 0;  // the C code leaves `*label` unwritten here; callers read it only on success
    var ptr := SkipBlanks(line);
    if ptr == |line| || line[ptr] == '\0' || line[ptr] == '\n' || line[ptr] == '#' {
      return -1, classLabel;
    }
    ghost var fields: seq<nat> := [];
    var fieldCount := 0;
    while ptr < |line| && line[ptr] != '\0' && line[ptr] != '\n' && fieldCount <= MnistSize
      invariant ptr <= |line|
      invariant fieldCount == |fields| <= FieldCount
      invariant ScanFrom(line[ptr..], fields) == LineScan(line)
      invariant |fields| > 0 ==> classLabel == fields[0] % 256
      invariant WrittenSoFar(pixels[..], old(pixels[..]), fields)
      decreases |line| - ptr
    {
      ScanStep(line[ptr..], fields);
      ptr, fieldCount, classLabel, fields := FieldPass(line, ptr, fieldCount, classLabel, pixels, fields, old(pixels[..]));
    }
    assert LineScan(line) == Scan(fields, false);
    if fieldCount == FieldCount {
      AllWritten(pixels[..], old(pixels[..]), fields);
    }
    rc := if fieldCount == 785 then 0 else -1;
  }

  /**
   * The corrected parser: the same loop, except that a pass which leaves the
   * cursor where it was rejects the line instead of repeating forever.
   */
  method ParseCsvLineChecked(line: seq<char>, pixels: array<Byte>) returns (rc: int, classLabel: Byte)
    requires pixels.Length == MnistSize
    modifies pixels
    ensures rc == 0 || rc == -1
    ensures rc == 0 <==> ParseLineChecked(line).Accepted?
    ensures rc == 0 ==> classLabel == ParseLineChecked(line).sample.classLabel && pixels[..] == ParseLineChecked(line).sample.pixels
    ensures WrittenSoFar(pixels[..], old(pixels[..]), LineScan(line).fields)
  {
    classLabel := 0;
    var ptr := SkipBlanks(line);
    if ptr == |line| || line[ptr] == '\0' || line[ptr] == '\n' || line[ptr] == '#' {
      return -1, classLabel;
    }
    ghost var fields: seq<nat> := [];
    var fieldCount := 0;
    while ptr < |line| && line[ptr] != '\0' && line[ptr] != '\n' && fieldCount <= MnistSize
      invariant ptr <= |line|
      invariant fieldCount == |fields| <= FieldCount
      invariant ScanFrom(line[ptr..], fields) == LineScan(line)
      invariant |fields| > 0 ==> classLabel == fields[0] % 256
      invariant WrittenSoFar(pixels[..], old(pixels[..]), fields)
      decreases |line| - ptr
    {
      var from := ptr;
      ptr, fieldCount, classLabel, fields := FieldPass(line, ptr, fieldCount, classLabel, pixels, fields, old(pixels[..]));
      if ptr == from {
        assert LineScan(line) == Scan(fields, true);
        return -1, classLabel;
      }
    }
    assert LineScan(line) == Scan(fields, false);
    if fieldCount == FieldCount {
      AllWritten(pixels[..], old(pixels[..]), fields);
    }
    rc := if fieldCount == 785 then 0 else -1;
  }
}
