# MNIST serial classifier firmware: the integer and ordering logic

This project models the part of `firmware/cnn_mnist.c` that involves no floating point and no
hardware. The firmware runs on a Raspberry Pi Pico W. A host sends an MNIST test image over the
serial line as one CSV record: `label,pixel1,...,pixel784`. The firmware collects the bytes into a
line buffer, parses the record, runs a quantised CNN on it, and shows the top three classes and an
OK/ERR verdict on an OLED display. The model covers four pieces:

- **Record parser** (`parse_csv_line`):
  - `CsvRecord` gives the meaning of a line as pure functions: the bounded field scan, the 7-digit
    token cut, and the verdict.
  - `CsvParser` holds the parser itself, a cursor walk that writes the pixel array in place and
    returns the label as `classLabel` instead of storing it through `label`, proved against that
    meaning.
- **Ingestion** (the body of `main`'s `while (1)` loop):
  - `Ingestion` is the state machine over the buffered text and the last byte time, plus runs of
    events.
  - `SerialInput.LineReceiver` is a class over `csv_buffer`, `csv_pos` and `last_byte_time`, whose
    two methods are proved to step that state machine.
  - `MainLoop` joins the receiver to the parser: a record goes to inference only when it parses.
    `MainLoop.DispatchAsWritten` gives the loop's outcome with the parser as written, which can
    hang.
- **Ranking** (`show_results`): `Ranking` covers the in-place bubble sort of the ten
  (digit, probability) pairs and the OK/ERR verdict.
- **`argmax_i8`**: `ArgMax` covers the console's predicted class.

The byte read and the clock are parameters: a `Byte` and a time in microseconds. Probabilities are
only compared, so an `int` stands for the `float`.

Two contracts sit at the centre:

- **Parser round trip.** A record printed as decimal values separated by commas parses back to
  the same label and pixels. `CsvRecord.RecordRoundTrip` proves this, and
  `MainLoop.RecordReachesInference` extends it to the serial line.
- **Parser as written versus corrected.** The model keeps the parser as it is written next to
  the corrected one. The written parser never returns on some lines (see Findings).

## Model

| member | source | states |
|---|---|---|
| CsvRecord.LeadingBlanks | firmware/cnn_mnist.c:81 | the blank loop stops at the first character that is not a space or tab, having passed only spaces and tabs |
| CsvRecord.LeadingDigits | firmware/cnn_mnist.c:88-90 | the digit loop copies at most `cap` characters, all digits, and stops early only at a non-digit |
| CsvRecord.LeadingSeparators | firmware/cnn_mnist.c:109 | the separator loop skips only commas, spaces and tabs, and stops at the first other character |
| CsvRecord.TokenLengthIs | firmware/cnn_mnist.c:88-90 | the token length is the one count at which the 7-digit loop can stop |
| CsvRecord.AtoiBound | firmware/cnn_mnist.c:88-94 | `atoi` of a token of k digits is below 10^k, so a 7-digit token fits an `int` and `atoi` cannot overflow |
| CsvRecord.ScanBounds | firmware/cnn_mnist.c:85-110 | the field loop (`CsvRecord.ScanFrom`) only adds to the fields counted so far, never counts more than 785, and gets stuck only before the 785th field |
| CsvRecord.SampleOf | firmware/cnn_mnist.c:96-102 | the label is the low 8 bits of the first field; pixel k is field k+1 when it is below 256 and 255 otherwise |
| CsvRecord.ParseLine | firmware/cnn_mnist.c:74-113 | as written: the call never returns exactly when the scan stalls; it returns -1 exactly when the scan ends with fewer than 785 fields; otherwise 0 with the record of the 785 fields |
| CsvRecord.ParseLineChecked | firmware/cnn_mnist.c:74-113 | the corrected verdict never diverges; it agrees with the as-written verdict wherever that one returns, and rejects where it would hang |
| CsvRecord.ScanTakesTokens | firmware/cnn_mnist.c:85-110 | on a line of digits, commas, spaces and tabs, the bounded loop never gets stuck and counts exactly the first 785 fields of the line |
| CsvRecord.AlphabetLineVerdict | firmware/cnn_mnist.c:85-112 | on such a line the parser returns; it accepts if and only if the line has at least 785 fields, and then yields the record of the first 785 |
| CsvRecord.RecordRoundTrip | firmware/cnn_mnist.c:74-113 | printing a record (label, then 784 pixels, comma-separated) and parsing it gives back the same label and pixels |
| CsvRecord.ExtraFieldsAccepted | firmware/cnn_mnist.c:85 | a line of more than 785 printed values is accepted on its first 785 |
| CsvRecord.TrailingTextAccepted | firmware/cnn_mnist.c:85-112 | 785 printed values, a comma, then any text at all (letters, a NUL, more digits): the line is accepted on those 785 values: nothing after the comma changes the verdict or the record |
| CsvRecord.ScanPrintedPrefix | firmware/cnn_mnist.c:85-110 | the field loop over printed values that bring the count to 785, then a comma and any text, counts exactly those values and stops without getting stuck |
| CsvRecord.MissingFieldsRejected | firmware/cnn_mnist.c:112 | a line with fewer than 785 values is rejected |
| CsvRecord.PassOverDigits | firmware/cnn_mnist.c:88-91 | one pass over a digit run cuts its first 7 digits, or all of them if it is shorter, as one field |
| CsvRecord.LongRunSplits | firmware/cnn_mnist.c:88-91 | a run of 8 to 14 digits is counted as two fields: its first 7 digits, then the rest |
| CsvRecord.BlankLineRejected | firmware/cnn_mnist.c:81-82 | a line of only spaces and tabs is rejected |
| CsvRecord.CommentLineRejected | firmware/cnn_mnist.c:81-82 | a line whose first non-blank character is `#` is rejected, whatever follows |
| CsvRecord.StrayCharacterStalls | firmware/cnn_mnist.c:85-110 | a character other than a digit, separator, NUL or newline, met before the 785th field, leaves the cursor in place for good |
| CsvRecord.HelloNeverReturns | firmware/cnn_mnist.c:85-110 | the line `hello` makes the field loop repeat forever |
| CsvRecord.HelloRejectedWhenChecked | firmware/cnn_mnist.c:85-110 | the corrected parser rejects `hello` |
| CsvParser.SkipBlanks | firmware/cnn_mnist.c:81 | the blank loop leaves the cursor after the leading spaces and tabs |
| CsvParser.ReadToken | firmware/cnn_mnist.c:87-91 | the digit loop copies exactly the token (at most 7 digits) into `num_buf` and leaves the cursor after it |
| CsvParser.SkipSeparators | firmware/cnn_mnist.c:109 | the separator loop moves the cursor past exactly the leading separators |
| CsvParser.StoreField | firmware/cnn_mnist.c:93-106 | counting a token: the first sets the label to its low 8 bits, fields 1..784 write their clamped value to `pixels[k-1]`, and no other pixel changes |
| CsvParser.FieldPass | firmware/cnn_mnist.c:86-110 | one pass of the field loop moves the cursor by one scan step and counts the field that step cuts |
| CsvParser.ParseCsvLine | firmware/cnn_mnist.c:74-113 | as written, on lines where it returns: 0 if and only if exactly 785 fields were counted, in which case the label and the pixels are those of the record; -1 otherwise; pixels of counted fields are written even on -1 |
| CsvParser.ParseCsvLineChecked | firmware/cnn_mnist.c:74-113 | the corrected parser, on every line: it returns 0 exactly when the corrected verdict accepts, with that record's label and pixels |
| ArgMax.ArgMaxI8 | firmware/cnn_mnist.c:23-33 | for 1 <= n, the result indexes a maximum of `v[0..n)`, and every earlier value is strictly smaller |
| ArgMax.FirstMaxUnique | firmware/cnn_mnist.c:23-33 | the first maximum is unique, so `argmax_i8`'s answer is determined by its input |
| ArgMax.FirstMaxExists | firmware/cnn_mnist.c:23-33 | every non-empty sequence has a first maximum |
| Ranking.Indexed | firmware/cnn_mnist.c:124-128 | the table has one entry per class, each carrying its own digit's probability, with the digits ascending |
| Ranking.Bubbled | firmware/cnn_mnist.c:133-137 | one comparison leaves the pair at j holding the same two entries, in non-increasing order; a pair already in that order (ties included) is left alone, and nothing else is touched |
| Ranking.SwapKeepsTies | firmware/cnn_mnist.c:133-136 | swapping neighbours of different probability keeps equal probabilities in digit order |
| Ranking.CompareAndSwap | firmware/cnn_mnist.c:133-136 | one comparison swaps the neighbours only when the first is strictly less probable; the entries are kept and ties stay in digit order |
| Ranking.BubbleStep | firmware/cnn_mnist.c:132-138 | a comparison inside the unsorted prefix keeps the sorted suffix and carries the least probable entry seen so far forward |
| Ranking.BubblePass | firmware/cnn_mnist.c:132-138 | pass i places the least probable entry of the prefix at position 9-i, extending the sorted suffix |
| Ranking.SortByProbability | firmware/cnn_mnist.c:131-139 | the sort permutes the table into non-increasing probability, with equal probabilities in digit order (stable) |
| Ranking.ShowResults | firmware/cnn_mnist.c:117-162 | the ranked table is a permutation of (i, probs[i]) in non-increasing order with ties in digit order; the verdict is OK if and only if the true label is the first digit of highest probability |
| Ranking.RankingEntries | firmware/cnn_mnist.c:124-127 | a ranking holds each (digit, probability) pair of the table, and nothing else |
| Ranking.LeaderIsFirstMax | firmware/cnn_mnist.c:161 | the digit listed first is the lowest digit of highest probability |
| Ranking.StrictlyRankedUnique | firmware/cnn_mnist.c:131-139 | two strictly ranked sequences with the same entries are equal |
| Ranking.RankingUnique | firmware/cnn_mnist.c:131-139 | a table has only one ranking |
| Ranking.SortedTableStays | firmware/cnn_mnist.c:131-139 | re-ranking a table already in non-increasing order leaves it in digit order |
| Ranking.FirstMaxTransfers | firmware/cnn_mnist.c:226 | two sequences in the same order have the same first maximum |
| Ranking.ConsoleMatchesDisplay | firmware/cnn_mnist.c:226 | the console's `pred` (argmax of the logits) is the display's first digit, whenever the probabilities keep the order of the logits |
| Ingestion.Initial | firmware/cnn_mnist.c:285-286 | before the loop the buffer is empty and well formed |
| Ingestion.Admitted | firmware/cnn_mnist.c:318-322 | a byte 32..126 is kept as is, a tab becomes one space, any other byte adds nothing |
| Ingestion.AfterByte | firmware/cnn_mnist.c:292-332 | every byte refreshes the last byte time; a line is handed on if and only if the byte is a terminator and the buffer is not empty, and the line is the buffer; a terminator or a byte at capacity empties the buffer; below capacity the byte's admitted text is appended; the buffer invariant is kept |
| Ingestion.AfterSilence | firmware/cnn_mnist.c:333-339 | a non-empty buffer is emptied only when more than 3,000,000 µs passed since the last byte; the time is not touched |
| Ingestion.Step | firmware/cnn_mnist.c:289-343 | one pass of the loop keeps the buffer invariant, hands a line on only for a terminator on a non-empty buffer, and that line is the buffered text; a byte sets the last byte time, silence leaves it |
| Ingestion.Run | firmware/cnn_mnist.c:288-343 | a run hands on at most one line per pass, and none when every pass is silent |
| Ingestion.RunKeepsWellFormed | firmware/cnn_mnist.c:317-322 | along any run the buffer holds at most 8191 printable characters, so the NUL store is in bounds, and every line handed on is non-empty and printable |
| Ingestion.RunAppend | firmware/cnn_mnist.c:288-343 | running two stretches of events in turn is running their concatenation |
| Ingestion.TypedAppends | firmware/cnn_mnist.c:317-319 | printable bytes that fit are appended in order and hand on nothing |
| Ingestion.LineRoundTrip | firmware/cnn_mnist.c:296-313 | a line typed into an empty buffer and ended by a newline is handed on exactly as typed, and the buffer is empty afterwards |
| Ingestion.PausedLine | firmware/cnn_mnist.c:333-339 | after a pause, a newline hands the typed line on if the pause was at most 3 s, and nothing if it was longer |
| Ingestion.Overflow | firmware/cnn_mnist.c:328-332 | 8191 printable bytes fill the buffer, and the 8192nd empties it and is itself dropped |
| Ingestion.LongLineLosesItsHead | firmware/cnn_mnist.c:317-332 | a line of 8192 to 16383 characters is never handed on whole: only what follows its first 8192 characters reaches the parser |
| SerialInput.LineReceiver.constructor | firmware/cnn_mnist.c:285-286 | the receiver starts empty with the clock read once |
| SerialInput.LineReceiver.OnByte | firmware/cnn_mnist.c:292-332 | updates the buffer, `csv_pos` and the last byte time as `Ingestion.AfterByte` does, returns the line it hands on, and keeps the buffer invariant (the NUL store is in bounds) |
| SerialInput.LineReceiver.OnIdle | firmware/cnn_mnist.c:333-339 | updates the receiver as `Ingestion.AfterSilence` does |
| MainLoop.DispatchAsWritten | firmware/cnn_mnist.c:306-311 | with the parser as written, a line hangs the loop exactly when its scan stalls and is dropped exactly when the scan ends short of 785 fields; wherever the loop does not hang, it agrees with `MainLoop.Dispatch` |
| MainLoop.HelloHangsTheLoop | firmware/cnn_mnist.c:306 | the line `hello` hangs the loop as written, while the corrected loop drops it |
| MainLoop.Dispatch | firmware/cnn_mnist.c:306-311 | with the corrected parser, a line handed on reaches inference exactly when it is accepted, as the record the parser yields, which has 784 pixels |
| MainLoop.HandleLine | firmware/cnn_mnist.c:300-311 | a record goes to inference exactly when the parser accepts the line, and it is the parsed record |
| MainLoop.Iterate | firmware/cnn_mnist.c:288-343 | one pass of the loop steps the receiver as the state machine does, and sends to inference exactly the records that parse among the lines handed on |
| MainLoop.JoinFits | firmware/cnn_mnist.c:14 | a record's CSV line has at most four characters per value, all printable, so it fits the 8192-byte buffer |
| MainLoop.RecordReachesInference | firmware/cnn_mnist.c:292-311 | a record sent byte by byte and ended by a newline is handed on whole and reaches inference unchanged |

## Left out

- `quantize_f32_to_i8`, `softmax_i8_to_probs` and the pixel normalisation in `run_inference` are
  left out. They are floating-point arithmetic with `expf`.
- The 100-probability sum and the `%.1f` display of probabilities are left out. Probabilities are
  modelled as integers that are only compared.
- All `printf`/`snprintf` output is left out. This includes the "Receiving: n chars" progress line,
  printed whenever the buffered count is a multiple of 500.
- The 24-byte display lines and the `ssd1306_*` calls are left out. `Ranking.Report` keeps the true
  label, the ranked table (the display shows its first three lines) and the verdict.
- The TensorFlow Lite Micro session is left out: `tflm_*` calls, the cached tensor pointers and
  quantisation parameters, and the error path of `tflm_invoke`. `MainLoop` stops at the record
  handed to inference.
- Hardware set-up and the halt after a failed `tflm_init` are left out: `stdio_init_all`,
  `sleep_ms`, I2C/GPIO and the display.
- `getchar_timeout_us` and `get_absolute_time` are parameters: an `Ingestion.Event` carries the byte
  or the silence and its time. Times are unbounded integers. The 64-bit microsecond difference
  cannot wrap in practice.
- `Ranking.ConsoleMatchesDisplay`: softmax is float arithmetic and is not modelled, so the lemma
  assumes the probabilities keep the order of the logits. Float rounding that turns two different
  logits into equal probabilities is not covered.
- `Ranking.SortByProbability` states stability as "ties stay in digit order". That is stability
  for the table `show_results` builds, whose digits start in ascending order. General stability,
  for an arbitrary initial order, is not stated.
- `MainLoop.HandleLine` parses with the corrected parser. On a line whose scan stalls, such as
  `hello`, the firmware never returns from `parse_csv_line` (firmware/cnn_mnist.c:306) and handles
  no further byte. This member rejects the line instead. `MainLoop.DispatchAsWritten` models the
  hang.
- `MainLoop.Iterate` completes every pass, also one that hands on a line whose scan stalls. The
  firmware never completes such a pass and the loop stops there.
- `CsvParser.ParseCsvLine` requires that the scan does not stall. On other lines the C loop never
  returns, and no postcondition can describe that. The corrected `CsvParser.ParseCsvLineChecked`
  has no such precondition.
- `num_buf` is modelled as a sequence, not an 8-char array. Its bound of 7 digits plus the NUL is
  kept as `MaxDigits`.
- `(uint8_t)(value & 0xFF)` is modelled as `value % 256`. The value is a non-negative `atoi` of
  digits.
- The `value < 0` clamp cannot fire on a token of digits, so the model only clamps above 255.
- When the line is rejected before any field is counted, `*label` stays unwritten in C. The model
  returns 0 there, and callers read the label only on success.
- `firmware/tflm_wrapper.cpp` and `firmware/tflm_wrapper.h` are not part of this model. They are a
  shim over the external inference library.
- `test/Transf_imagens_test.py` is not part of this model. It is an offline dataset conversion
  script.

## Findings

| source | as written | input that shows it | evidently intended | confidence | as-written member | corrected member |
|---|---|---|---|---|---|---|
| firmware/cnn_mnist.c:85-110 | The field loop only advances over digits, commas, spaces and tabs. Any other character met before the 785th field leaves `ptr` in place, so `parse_csv_line` never returns and the firmware hangs. | `hello` (also `1,2,x` or `-5`) | reject the line with -1, as the function's comment at firmware/cnn_mnist.c:73 says for an error, so that the `Parse FALHOU` branch at :310 runs | high; not executed | CsvRecord.HelloNeverReturns | CsvParser.ParseCsvLineChecked |

The as-written side is `CsvParser.ParseCsvLine`. It is proved only on lines whose scan does not
stall. `CsvRecord.StrayCharacterStalls` shows that a stray character reached before the 785th
field stalls the scan. `MainLoop.DispatchAsWritten` and `MainLoop.HelloHangsTheLoop` carry the
hang up to the main loop.

The corrected side is `CsvParser.ParseCsvLineChecked`. It rejects a line as soon as a pass leaves
the cursor where it was. `CsvRecord.ParseLineChecked` proves that it agrees with the written parser
on every line where that parser returns. `MainLoop` uses the corrected parser.
