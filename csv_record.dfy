/**
 * The meaning of one CSV record line, `label,pixel1,...,pixel784`, as the
 * firmware's `parse_csv_line` reads it: character classes, the bounded field
 * scan with its 7-digit token cut, the verdict, and the properties of that
 * verdict (which lines are accepted, what they yield, and on which lines the
 * scan never ends).
 */
module CsvRecord {
  import opened Basics

  /** 28x28 pixels per image. */
  const MnistSize: nat := 784
  /** One label followed by MnistSize pixels. */
  const FieldCount: nat := MnistSize + 1
  /** `num_buf` has 8 chars, one kept for the NUL, so a token holds at most 7 digits. */
  const MaxDigits: nat := 7

  predicate IsDigit(c: char) { '0' <= c <= '9' }
  predicate IsBlank(c: char) { c == ' ' || c == '\t' }
  predicate IsSeparator(c: char) { c == ',' || IsBlank(c) }

  /**
   * `s` is the rest of the line from the cursor. The C string ends at its NUL,
   * which lies just past the end of `s`; the scan also stops at a NUL or a
   * newline met earlier.
   */
  predicate AtLineEnd(s: seq<char>) { |s| == 0 || s[0] == '\0' || s[0] == '\n' }

  /** How many digits the token loop copies into `num_buf`: at most `cap`. */
  function LeadingDigits(s: seq<char>, cap: nat): (n: nat)
    ensures n <= |s| && n <= cap
    ensures forall k :: 0 <= k < n ==> IsDigit(s[k])
    ensures n < |s| && n < cap ==> !IsDigit(s[n])
    decreases cap
  {
    if cap == 0 || |s| == 0 || !IsDigit(s[0]) then 0 else 1 + LeadingDigits(s[1..], cap - 1)
  }

  /** How many commas, spaces and tabs the separator loop skips. */
  function LeadingSeparators(s: seq<char>): (n: nat)
    ensures n <= |s|
    ensures forall k :: 0 <= k < n ==> IsSeparator(s[k])
    ensures n < |s| ==> !IsSeparator(s[n])
  {
    if |s| == 0 || !IsSeparator(s[0]) then 0 else 1 + LeadingSeparators(s[1..])
  }

  /** How many spaces and tabs are skipped before the first field. */
  function LeadingBlanks(s: seq<char>): (n: nat)
    ensures n <= |s|
    ensures forall k :: 0 <= k < n ==> IsBlank(s[k])
    ensures n < |s| ==> !IsBlank(s[n])
  {
    if |s| == 0 || !IsBlank(s[0]) then 0 else 1 + LeadingBlanks(s[1..])
  }

  predicate AllDigits(d: seq<char>) { forall k :: 0 <= k < |d| ==> IsDigit(d[k]) }

  function DigitValue(c: char): nat
    requires IsDigit(c)
  {
    c as int - '0' as int
  }

  function Pow10(k: nat): nat { if k == 0 then 1 else 10 * Pow10(k - 1) }

  /** `atoi` applied to a string of decimal digits. */
  function Atoi(d: seq<char>): nat
    requires AllDigits(d)
    decreases |d|
  {
    if |d| == 0 then 0 else 10 * Atoi(d[..|d| - 1]) + DigitValue(d[|d| - 1])
  }

  /** A token of k digits is below 10^k; so a 7-digit token fits an `int` and `atoi` cannot overflow. */
  lemma {:induction false} AtoiBound(d: seq<char>)
    requires AllDigits(d)
    ensures Atoi(d) < Pow10(|d|)
    decreases |d|
  {
    if |d| > 0 {
      AtoiBound(d[..|d| - 1]);
    }
  }

  /** The length of the token cut at the cursor (`num_pos` after the digit loop). */
  function TokenLength(s: seq<char>): nat
  {
    LeadingDigits(s, MaxDigits)
  }

  /** The token length is the one count that the digit loop can stop at. */
  lemma TokenLengthIs(s: seq<char>, n: nat)
    requires n <= |s| && n <= MaxDigits
    requires forall k :: 0 <= k < n ==> IsDigit(s[k])
    requires n == MaxDigits || n == |s| || !IsDigit(s[n])
    ensures TokenLength(s) == n
  {
  }

  /** How far one pass of the field loop moves the cursor: the token and the separators after it. */
  function StepLength(s: seq<char>): (n: nat)
    ensures TokenLength(s) <= n <= |s|
  {
    TokenLength(s) + LeadingSeparators(s[TokenLength(s)..])
  }

  /** The field one pass of the field loop counts: none when no digit was read. */
  function Cut(s: seq<char>): (t: seq<nat>)
    ensures |t| <= 1
  {
    if TokenLength(s) > 0 then [Atoi(s[..TokenLength(s)])] else []
  }

  /** The outcome of the field loop: the fields counted and whether the cursor got stuck. */
  datatype Scan = Scan(fields: seq<nat>, stalled: bool)

  /**
   * The field loop from cursor `s`, having counted `fields` so far. It stops at
   * the end of the line or once FieldCount fields are counted. A pass that
   * moves the cursor by nothing leaves the loop in the state it started from,
   * so the loop repeats forever: that outcome is reported as `stalled`.
   */
  function ScanFrom(s: seq<char>, fields: seq<nat>): Scan
    decreases |s|
  {
    if AtLineEnd(s) || |fields| >= FieldCount then Scan(fields, false)
    else if StepLength(s) == 0 then Scan(fields, true)
    else ScanFrom(s[StepLength(s)..], fields + Cut(s))
  }

  /**
   * The field loop only adds to the fields counted so far, never counts more
   * than FieldCount, and can get stuck only while fewer than FieldCount are
   * counted.
   */
  lemma {:induction false} ScanBounds(s: seq<char>, fields: seq<nat>)
    ensures |fields| <= |ScanFrom(s, fields).fields| && ScanFrom(s, fields).fields[..|fields|] == fields
    ensures |fields| <= FieldCount ==> |ScanFrom(s, fields).fields| <= FieldCount
    ensures ScanFrom(s, fields).stalled ==> |ScanFrom(s, fields).fields| < FieldCount
    decreases |s|
  {
    if !AtLineEnd(s) && |fields| < FieldCount && StepLength(s) > 0 {
      var counted := fields + Cut(s);
      ScanBounds(s[StepLength(s)..], counted);
      assert counted[..|fields|] == fields;
    }
  }

  /** The line with its leading spaces and tabs skipped. */
  function Body(line: seq<char>): seq<char>
  {
    line[LeadingBlanks(line)..]
  }

  /** Empty, blank and comment lines are turned away before the field loop. */
  predicate SkippedLine(body: seq<char>)
  {
    AtLineEnd(body) || body[0] == '#'
  }

  /** What the whole of `parse_csv_line` scans: nothing for a skipped line. */
  function LineScan(line: seq<char>): Scan
  {
    var body := Body(line);
    if SkippedLine(body) then Scan([], false) else ScanFrom(body, [])
  }

  datatype Sample = Sample(classLabel: Byte, pixels: seq<Byte>)

  /** The parser's verdict on a line; `Diverges` is a line on which the C loop never returns. */
  datatype Verdict = Accepted(sample: Sample) | Rejected | Diverges

  /** The pixel clamp to [0,255]; an `atoi` of digits is never negative. */
  function Clamp(v: nat): Byte
  {
    if v > 255 then 255 else v
  }

  /** The record made of the first FieldCount fields: label from the low 8 bits, pixels clamped. */
  function SampleOf(fields: seq<nat>): (r: Sample)
    requires |fields| >= FieldCount
    ensures r.classLabel == fields[0] % 256
    ensures |r.pixels| == MnistSize
    ensures forall k :: 0 <= k < MnistSize ==> r.pixels[k] == if fields[k + 1] < 256 then fields[k + 1] else 255
  {
    Sample(fields[0] % 256, seq(MnistSize, k requires 0 <= k < MnistSize => Clamp(fields[k + 1])))
  }

  /** `parse_csv_line` as written: 0 (Accepted) only when exactly FieldCount fields were counted. */
  function ParseLine(line: seq<char>): (v: Verdict)
    ensures v == Diverges <==> LineScan(line).stalled
    ensures v == Rejected <==> !LineScan(line).stalled && |LineScan(line).fields| < FieldCount
    ensures v.Accepted? ==> |LineScan(line).fields| == FieldCount && v.sample == SampleOf(LineScan(line).fields)
  {
    var r := LineScan(line);
    ScanBounds(Body(line), []);
    if r.stalled then Diverges
    else if |r.fields| == FieldCount then Accepted(SampleOf(r.fields))
    else Rejected
  }

  /** The evidently intended parser: a line on which the cursor gets stuck is rejected. */
  function ParseLineChecked(line: seq<char>): (v: Verdict)
    ensures v != Diverges
    ensures ParseLine(line) != Diverges ==> v == ParseLine(line)
    ensures ParseLine(line) == Diverges ==> v == Rejected
  {
    if LineScan(line).stalled then Rejected else ParseLine(line)
  }

  // ---------------------------------------------------------------------
  // Lines over digits, commas, spaces and tabs

  /** Every character is one the field loop can consume. */
  predicate InAlphabet(s: seq<char>)
  {
    forall k :: 0 <= k < |s| ==> IsDigit(s[k]) || IsSeparator(s[k])
  }

  lemma AlphabetMoves(s: seq<char>)
    requires InAlphabet(s) && |s| > 0
    ensures StepLength(s) > 0
  {
    if !IsDigit(s[0]) {
      assert s[TokenLength(s)..] == s;
    }
  }

  /** All the fields of a line, with no bound on their number. */
  function Tokens(s: seq<char>): seq<nat>
    requires InAlphabet(s)
    decreases |s|
  {
    if |s| == 0 then []
    else
      AlphabetMoves(s);
      Cut(s) + Tokens(s[StepLength(s)..])
  }

  /** A pass of the loop that does not stall moves the cursor and counts the token it cut. */
  lemma ScanStep(s: seq<char>, fields: seq<nat>)
    requires !AtLineEnd(s) && |fields| < FieldCount && !ScanFrom(s, fields).stalled
    ensures 0 < StepLength(s) && ScanFrom(s, fields) == ScanFrom(s[StepLength(s)..], fields + Cut(s))
  {
  }

  /** The first `n` elements of `t`, or all of `t` when it is shorter. */
  function Take(t: seq<nat>, n: nat): (r: seq<nat>)
    ensures |r| == if |t| <= n then |t| else n
    ensures r == t[..|r|]
  {
    if |t| <= n then t else t[..n]
  }

  lemma TakeAfter(c: seq<nat>, t: seq<nat>, n: nat)
    requires |c| <= n
    ensures Take(c + t, n) == c + Take(t, n - |c|)
  {
    if |c + t| > n {
      assert (c + t)[..n] == c + t[..n - |c|];
    }
  }

  /**
   * On a line in the alphabet the bounded field loop never gets stuck and
   * counts exactly the first FieldCount fields of the line.
   */
  lemma {:induction false} ScanTakesTokens(s: seq<char>, fields: seq<nat>)
    requires InAlphabet(s) && |fields| <= FieldCount
    ensures ScanFrom(s, fields) == Scan(fields + Take(Tokens(s), FieldCount - |fields|), false)
    decreases |s|
  {
    if |s| == 0 || |fields| == FieldCount {
      ScanDone(s, fields);
    } else {
      var rest := ScanPass(s, fields);
      var c, n := Cut(s), FieldCount - |fields|;
      var t := Tokens(rest);
      assert ScanFrom(rest, fields + c) == Scan((fields + c) + Take(t, n - |c|), false) by {
        ScanTakesTokens(rest, fields + c);
      }
      calc {
        ScanFrom(s, fields);
        ScanFrom(rest, fields + c);
        Scan((fields + c) + Take(t, n - |c|), false);
        { ConcatAssoc(fields, c, Take(t, n - |c|)); }
        Scan(fields + (c + Take(t, n - |c|)), false);
        { TakeAfter(c, t, n); }
        Scan(fields + Take(c + t, n), false);
        Scan(fields + Take(Tokens(s), n), false);
      }
    }
  }

  lemma ScanDone(s: seq<char>, fields: seq<nat>)
    requires InAlphabet(s) && |fields| <= FieldCount
    requires |s| == 0 || |fields| == FieldCount
    ensures ScanFrom(s, fields) == Scan(fields + Take(Tokens(s), FieldCount - |fields|), false)
  {
    assert Take(Tokens(s), FieldCount - |fields|) == [];
  }

  /** One pass of the field loop over a line in the alphabet: the cursor moves and the first field is cut. */
  lemma ScanPass(s: seq<char>, fields: seq<nat>) returns (rest: seq<char>)
    requires InAlphabet(s) && |s| > 0 && |fields| < FieldCount
    ensures rest == s[StepLength(s)..] && |rest| < |s| && InAlphabet(rest)
    ensures ScanFrom(s, fields) == ScanFrom(rest, fields + Cut(s))
    ensures Tokens(s) == Cut(s) + Tokens(rest)
  {
    AlphabetMoves(s);
    rest := s[StepLength(s)..];
    assert InAlphabet(rest) by {
      forall k | 0 <= k < |rest|
        ensures IsDigit(rest[k]) || IsSeparator(rest[k])
      {
        assert rest[k] == s[StepLength(s) + k];
      }
    }
    assert !AtLineEnd(s) by {
      assert IsDigit(s[0]) || IsSeparator(s[0]);
    }
  }

  /** At a separator the pass cuts no token and only skips the separators. */
  lemma SeparatorPass(s: seq<char>)
    requires InAlphabet(s) && |s| > 0 && IsSeparator(s[0])
    ensures StepLength(s) == LeadingSeparators(s) == 1 + LeadingSeparators(s[1..])
    ensures Tokens(s) == Tokens(s[LeadingSeparators(s)..])
  {
    assert TokenLength(s) == 0;
    assert s[TokenLength(s)..] == s;
    assert Cut(s) == [];
  }

  lemma DropSeparator(s: seq<char>)
    requires InAlphabet(s) && |s| > 0 && IsSeparator(s[0])
    ensures Tokens(s) == Tokens(s[1..])
  {
    SeparatorPass(s);
    var t := s[1..];
    if |t| > 0 && IsSeparator(t[0]) {
      SeparatorPass(t);
      DropDrop(s, 1, LeadingSeparators(t));
    }
  }

  lemma {:induction false} DropSeparators(s: seq<char>, j: nat)
    requires InAlphabet(s) && j <= |s|
    requires forall k :: 0 <= k < j ==> IsSeparator(s[k])
    ensures Tokens(s) == Tokens(s[j..])
    decreases j
  {
    if j > 0 {
      DropSeparator(s);
      DropSeparators(s[1..], j - 1);
      assert s[1..][j - 1..] == s[j..];
    }
  }

  /**
   * The accept/reject contract on lines made of digits, commas, spaces and
   * tabs: the parser returns, it accepts exactly when the line has at least
   * FieldCount fields (more are ignored), and what it accepts is the record of
   * the first FieldCount fields.
   */
  lemma AlphabetLineVerdict(line: seq<char>)
    requires InAlphabet(line)
    ensures ParseLine(line) != Diverges
    ensures ParseLine(line).Accepted? <==> |Tokens(line)| >= FieldCount
    ensures ParseLine(line).Accepted? ==> ParseLine(line).sample == SampleOf(Tokens(line)[..FieldCount])
  {
    AlphabetLineScan(line);
  }

  /** The whole scan of a line in the alphabet: its first FieldCount fields, never stuck. */
  lemma AlphabetLineScan(line: seq<char>)
    requires InAlphabet(line)
    ensures LineScan(line) == Scan(Take(Tokens(line), FieldCount), false)
  {
    var body := AlphabetBody(line);
    AlphabetNotSkipped(body);
    if |body| == 0 {
      assert Tokens(body) == [];
    } else {
      assert LineScan(line) == ScanFrom(body, []);
      assert ScanFrom(body, []) == Scan(Take(Tokens(body), FieldCount), false) by {
        ScanTakesTokens(body, []);
        EmptyConcat(Take(Tokens(body), FieldCount));
      }
    }
  }

  /** Skipping the leading blanks of a line in the alphabet skips no field. */
  lemma AlphabetBody(line: seq<char>) returns (body: seq<char>)
    requires InAlphabet(line)
    ensures body == Body(line) && InAlphabet(body)
    ensures Tokens(line) == Tokens(body)
  {
    var b := LeadingBlanks(line);
    body := line[b..];
    DropSeparators(line, b);
  }

  /** Of the lines in the alphabet, only the empty one is turned away before the field loop. */
  lemma AlphabetNotSkipped(body: seq<char>)
    requires InAlphabet(body)
    ensures SkippedLine(body) <==> |body| == 0
  {
  }

  // ---------------------------------------------------------------------
  // Writing records: the round trip

  function DigitChar(d: nat): (c: char)
    requires d < 10
    ensures IsDigit(c) && DigitValue(c) == d
  {
    ('0' as int + d) as char
  }

  /** The decimal digits of `n`, most significant first, as the record generator prints them. */
  function Decimal(n: nat): (d: seq<char>)
    ensures |d| >= 1 && AllDigits(d)
    decreases n
  {
    if n < 10 then [DigitChar(n)] else Decimal(n / 10) + [DigitChar(n % 10)]
  }

  /** A comma-separated line of decimal values. */
  function Join(vs: seq<nat>): seq<char>
    decreases |vs|
  {
    if |vs| == 0 then []
    else if |vs| == 1 then Decimal(vs[0])
    else Decimal(vs[0]) + [','] + Join(vs[1..])
  }

  lemma {:induction false} AtoiDecimal(n: nat)
    ensures Atoi(Decimal(n)) == n
    decreases n
  {
    if n >= 10 {
      var d := Decimal(n);
      assert d[..|d| - 1] == Decimal(n / 10);
      AtoiDecimal(n / 10);
    }
  }

  lemma {:induction false} DecimalLength(n: nat, k: nat)
    requires k >= 1 && n < Pow10(k)
    ensures |Decimal(n)| <= k
    decreases k
  {
    if n >= 10 {
      assert k >= 2;
      assert n / 10 < Pow10(k - 1);
      DecimalLength(n / 10, k - 1);
    }
  }

  /** Values of at most 7 digits: each is printed as one token. */
  predicate Printable(vs: seq<nat>)
  {
    forall k :: 0 <= k < |vs| ==> vs[k] < Pow10(MaxDigits)
  }

  lemma {:induction false} JoinShape(vs: seq<nat>)
    requires |vs| > 0
    ensures |Join(vs)| > 0 && IsDigit(Join(vs)[0])
    ensures InAlphabet(Join(vs))
    decreases |vs|
  {
    if |vs| > 1 {
      JoinShape(vs[1..]);
    }
  }

  /** A token of at most 7 digits followed by a non-digit is cut whole. */
  lemma WholeToken(d: seq<char>, rest: seq<char>)
    requires AllDigits(d) && 1 <= |d| <= MaxDigits
    requires |rest| == 0 || !IsDigit(rest[0])
    ensures TokenLength(d + rest) == |d|
  {
    TokenLengthIs(d + rest, |d|);
  }

  lemma {:induction false} SeparatorsBeforeDigit(sep: seq<char>, rest: seq<char>)
    requires forall k :: 0 <= k < |sep| ==> IsSeparator(sep[k])
    requires |rest| == 0 || IsDigit(rest[0])
    ensures LeadingSeparators(sep + rest) == |sep|
    decreases |sep|
  {
    if |sep| > 0 {
      SeparatorsBeforeDigit(sep[1..], rest);
      assert (sep + rest)[1..] == sep[1..] + rest;
    }
  }

  /**
   * One pass of the field loop over a printed value: a token of at most 7
   * digits, then a comma (or the end of the line), then the next value.
   */
  lemma PassOverValue(d: seq<char>, sep: seq<char>, rest: seq<char>)
    requires AllDigits(d) && 1 <= |d| <= MaxDigits
    requires sep == [','] || (sep == [] && rest == [])
    requires InAlphabet(rest) && (|rest| == 0 || IsDigit(rest[0]))
    ensures InAlphabet(d + sep + rest)
    ensures Tokens(d + sep + rest) == [Atoi(d)] + Tokens(rest)
  {
    var s := d + sep + rest;
    SplitThree(d, sep, rest);
    WholeToken(d, sep + rest);
    assert d + (sep + rest) == s;
    SeparatorsBeforeDigit(sep, rest);
    assert StepLength(s) == |d| + |sep|;
    assert Cut(s) == [Atoi(d)];
  }

  /** Reading a printed line gives back its values. */
  lemma {:induction false} TokensOfJoin(vs: seq<nat>)
    requires Printable(vs)
    ensures InAlphabet(Join(vs)) && Tokens(Join(vs)) == vs
    decreases |vs|
  {
    if |vs| > 0 {
      var d := Decimal(vs[0]);
      if |vs| == 1 {
        DecimalLength(vs[0], MaxDigits);
        AtoiDecimal(vs[0]);
        PassOverValue(d, [], []);
        assert d + [] + [] == Join(vs);
      } else {
        TokensOfJoin(vs[1..]);
        assert InAlphabet(Join(vs)) && Tokens(Join(vs)) == [vs[0]] + Tokens(Join(vs[1..])) by {
          DecimalLength(vs[0], MaxDigits);
          AtoiDecimal(vs[0]);
          JoinShape(vs[1..]);
          PassOverValue(d, [','], Join(vs[1..]));
        }
        assert [vs[0]] + vs[1..] == vs;
      }
    }
  }

  /** The values a record generator prints for one image: the label, then the pixels. */
  function Fields(s: Sample): (vs: seq<nat>)
    requires |s.pixels| == MnistSize
    ensures |vs| == FieldCount && Printable(vs) && SampleOf(vs) == s
  {
    var vs := [s.classLabel as nat] + seq(MnistSize, k requires 0 <= k < MnistSize => s.pixels[k] as nat);
    assert SampleOf(vs).pixels == s.pixels;
    vs
  }

  /** Every well-formed record survives printing and parsing unchanged. */
  lemma RecordRoundTrip(s: Sample)
    requires |s.pixels| == MnistSize
    ensures ParseLine(Join(Fields(s))) == Accepted(s)
  {
    var vs := Fields(s);
    TokensOfJoin(vs);
    AlphabetLineVerdict(Join(vs));
    assert vs[..FieldCount] == vs;
  }

  /** A printed line of more than 785 values is accepted on its first 785. */
  lemma ExtraFieldsAccepted(vs: seq<nat>)
    requires Printable(vs) && |vs| > FieldCount
    ensures ParseLine(Join(vs)) == Accepted(SampleOf(vs[..FieldCount]))
  {
    TokensOfJoin(vs);
    AlphabetLineVerdict(Join(vs));
  }

  /**
   * The loop stops once 785 fields are counted, so nothing after the comma
   * that follows the 785th value changes the verdict or the record: any text
   * there, digits or not, leaves the record accepted.
   */
  lemma TrailingTextAccepted(vs: seq<nat>, rest: seq<char>)
    requires Printable(vs) && |vs| == FieldCount
    ensures ParseLine(Join(vs) + [','] + rest) == Accepted(SampleOf(vs))
  {
    var line := Join(vs) + [','] + rest;
    JoinShape(vs);
    assert Body(line) == line;
    assert ScanFrom(line, []) == Scan([] + vs, false) by {
      ScanPrintedPrefix(vs, rest, []);
    }
    EmptyConcat(vs);
  }

  /** Scanning printed values up to the FieldCount-th, then a comma and any text. */
  lemma {:induction false} ScanPrintedPrefix(vs: seq<nat>, rest: seq<char>, fields: seq<nat>)
    requires Printable(vs) && |vs| > 0 && |fields| + |vs| == FieldCount
    ensures ScanFrom(Join(vs) + [','] + rest, fields) == Scan(fields + vs, false)
    decreases |vs|
  {
    var counted := fields + [vs[0]];
    if |vs| == 1 {
      var tail := [','] + rest;
      calc {
        ScanFrom(Join(vs) + [','] + rest, fields);
        { PrintedLineShape(vs, rest); }
        ScanFrom(Decimal(vs[0]) + tail, fields);
        { ScanOverValue(vs[0], tail, fields); }
        ScanFrom(tail[LeadingSeparators(tail)..], counted);
        Scan(counted, false);
        { assert counted == fields + vs; }
        Scan(fields + vs, false);
      }
    } else {
      var next := Join(vs[1..]) + [','] + rest;
      var tail := [','] + next;
      calc {
        ScanFrom(Join(vs) + [','] + rest, fields);
        { PrintedLineShape(vs, rest); }
        ScanFrom(Decimal(vs[0]) + tail, fields);
        { ScanOverValue(vs[0], tail, fields); }
        ScanFrom(tail[LeadingSeparators(tail)..], counted);
        { JoinShape(vs[1..]); SeparatorsBeforeDigit([','], next); }
        ScanFrom(next, counted);
        { ScanPrintedPrefix(vs[1..], rest, counted); }
        Scan(counted + vs[1..], false);
        { assert counted + vs[1..] == fields + vs; }
        Scan(fields + vs, false);
      }
    }
  }

  /** A printed line followed by a comma and more text: its first value, then a comma, then the rest. */
  lemma PrintedLineShape(vs: seq<nat>, rest: seq<char>)
    requires |vs| > 0
    ensures |vs| == 1 ==> Join(vs) + [','] + rest == Decimal(vs[0]) + ([','] + rest)
    ensures |vs| > 1 ==> Join(vs) + [','] + rest == Decimal(vs[0]) + ([','] + (Join(vs[1..]) + [','] + rest))
  {
    var d, c := Decimal(vs[0]), [','];
    if |vs| == 1 {
      ConcatAssoc(d, c, rest);
    } else {
      var j := Join(vs[1..]);
      calc {
        Join(vs) + c + rest;
        (d + c + j) + c + rest;
        { ConcatAssoc(d + c + j, c, rest); }
        (d + c + j) + (c + rest);
        { ConcatAssoc(d + c, j, c + rest); }
        (d + c) + (j + (c + rest));
        { ConcatAssoc(d, c, j + (c + rest)); }
        d + (c + (j + (c + rest)));
        { ConcatAssoc(j, c, rest); }
        d + (c + (j + c + rest));
      }
    }
  }

  /** A pass over a printed value followed by a comma counts that value and moves past the separators. */
  lemma ScanOverValue(v: nat, tail: seq<char>, fields: seq<nat>)
    requires v < Pow10(MaxDigits) && |tail| > 0 && tail[0] == ',' && |fields| < FieldCount
    ensures ScanFrom(Decimal(v) + tail, fields) == ScanFrom(tail[LeadingSeparators(tail)..], fields + [v])
  {
    PassOverLeadingValue(v, tail);
    ScanMoves(Decimal(v) + tail, fields);
  }

  /** A pass of the loop that moves the cursor counts the token it cut and goes on from there. */
  lemma ScanMoves(s: seq<char>, fields: seq<nat>)
    requires !AtLineEnd(s) && |fields| < FieldCount && StepLength(s) > 0
    ensures ScanFrom(s, fields) == ScanFrom(s[StepLength(s)..], fields + Cut(s))
  {
  }

  /** The first pass over a printed value followed by a comma cuts that value whole. */
  lemma PassOverLeadingValue(v: nat, tail: seq<char>)
    requires v < Pow10(MaxDigits) && |tail| > 0 && tail[0] == ','
    ensures !AtLineEnd(Decimal(v) + tail)
    ensures StepLength(Decimal(v) + tail) == |Decimal(v)| + LeadingSeparators(tail) > 0
    ensures (Decimal(v) + tail)[StepLength(Decimal(v) + tail)..] == tail[LeadingSeparators(tail)..]
    ensures Cut(Decimal(v) + tail) == [v]
  {
    var d := Decimal(v);
    var s := d + tail;
    DecimalLength(v, MaxDigits);
    AtoiDecimal(v);
    WholeToken(d, tail);
    assert s[|d|..] == tail;
    assert s[..|d|] == d;
  }

  /** A line with fewer than 785 fields (one pixel short, say) is rejected. */
  lemma MissingFieldsRejected(vs: seq<nat>)
    requires Printable(vs) && |vs| < FieldCount
    ensures ParseLine(Join(vs)) == Rejected
  {
    TokensOfJoin(vs);
    AlphabetLineVerdict(Join(vs));
  }

  /** A run of digits: one pass of the field loop cuts its first 7 digits, or all of them. */
  lemma PassOverDigits(d: seq<char>) returns (m: nat)
    requires AllDigits(d) && |d| > 0
    ensures m == if |d| < MaxDigits then |d| else MaxDigits
    ensures InAlphabet(d) && AllDigits(d[m..])
    ensures Tokens(d) == [Atoi(d[..m])] + Tokens(d[m..])
  {
    m := TokenLength(d);
    if m < |d| {
      assert IsDigit(d[m]);
    }
    assert InAlphabet(d);
    assert LeadingSeparators(d[m..]) == 0;
    assert StepLength(d) == m && Cut(d) == [Atoi(d[..m])];
    assert Tokens(d) == Cut(d) + Tokens(d[StepLength(d)..]);
  }

  /** A run of at most 7 digits is one field. */
  lemma ShortRun(d: seq<char>)
    requires AllDigits(d) && 0 < |d| <= MaxDigits
    ensures InAlphabet(d) && Tokens(d) == [Atoi(d)]
  {
    var m := PassOverDigits(d);
    assert d[..m] == d && d[m..] == [];
  }

  /** A run of 8 to 14 digits is cut after its 7th digit and counted as two fields. */
  lemma LongRunSplits(d: seq<char>)
    requires AllDigits(d) && MaxDigits < |d| <= 2 * MaxDigits
    ensures InAlphabet(d)
    ensures Tokens(d) == [Atoi(d[..MaxDigits]), Atoi(d[MaxDigits..])]
  {
    var m := PassOverDigits(d);
    var head, rest := d[..MaxDigits], d[MaxDigits..];
    assert Tokens(d) == [Atoi(head)] + Tokens(rest) by {
      assert m == MaxDigits && d[..m] == head && d[m..] == rest;
    }
    assert Tokens(rest) == [Atoi(rest)] by {
      ShortRun(rest);
    }
    PairConcat(Atoi(head), Atoi(rest));
  }

  /** A line of only blanks is rejected. */
  lemma BlankLineRejected(line: seq<char>)
    requires forall k :: 0 <= k < |line| ==> IsBlank(line[k])
    ensures ParseLine(line) == Rejected
  {
    assert LeadingBlanks(line) == |line|;
  }

  /** A comment line, `#` after any blanks, is rejected whatever follows. */
  lemma CommentLineRejected(blanks: seq<char>, rest: seq<char>)
    requires forall k :: 0 <= k < |blanks| ==> IsBlank(blanks[k])
    ensures ParseLine(blanks + ['#'] + rest) == Rejected
  {
    var line := blanks + ['#'] + rest;
    assert line[|blanks|] == '#';
    BlanksEndAt(line, |blanks|);
    assert Body(line)[0] == '#';
  }

  /** The blank loop stops at the first character that is not a space or a tab. */
  lemma BlanksEndAt(s: seq<char>, n: nat)
    requires n <= |s|
    requires forall k :: 0 <= k < n ==> IsBlank(s[k])
    requires n == |s| || !IsBlank(s[n])
    ensures LeadingBlanks(s) == n
  {
  }

  /**
   * Any other character reached while fewer than 785 fields are counted stops
   * the cursor: the C loop repeats forever. `hello` is such a line.
   */
  lemma HelloNeverReturns()
    ensures ParseLine("hello") == Diverges
  {
    assert LeadingBlanks("hello") == 0;
    assert TokenLength("hello") == 0;
    assert LeadingSeparators("hello") == 0;
  }

  /**
   * Wherever it happens: a character that is neither a digit, a separator, a
   * NUL nor a newline, reached before the 785th field, stalls the cursor.
   */
  lemma StrayCharacterStalls(s: seq<char>, fields: seq<nat>)
    requires |s| > 0 && !IsDigit(s[0]) && !IsSeparator(s[0]) && s[0] != '\0' && s[0] != '\n'
    requires |fields| < FieldCount
    ensures ScanFrom(s, fields) == Scan(fields, true)
  {
    assert TokenLength(s) == 0;
    assert s[0..] == s;
  }

  /** The corrected parser rejects those same lines instead of hanging. */
  lemma HelloRejectedWhenChecked()
    ensures ParseLineChecked("hello") == Rejected
  {
    HelloNeverReturns();
  }
}
