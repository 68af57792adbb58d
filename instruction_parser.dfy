/**
 * `InstructionParser.parseLine`: one text line becomes an `Instruction`.
 *
 * The line is split on a literal separator. A date may itself contain the
 * separator (`01 Jan 2016` with a space), so the date format is split the same
 * way to learn how many fields one date occupies, the field count is checked
 * against that, and each date is rebuilt by joining its fields back together.
 * `new BigDecimal(text)` and `SimpleDateFormat.parse` are library code and are
 * passed in as partial functions.
 */
module InstructionParser {
  import opened Wrappers
  import opened JavaStrings
  import opened Calendar
  import opened Transaction

  const DefaultDateFormat: string := "dd MMM yyyy"
  const DefaultSeparator: string := " "
  /** Entity, direction, forex, currency, two dates, units and price. */
  const ExpectedFields: int := 8

  /**
   * `InstructionParsingException`: either the counted number of fields is not
   * 8, or reading a field failed; `offset` is the value of the field counter
   * when it failed.
   */
  datatype ParseError =
    | WrongFieldCount(line: string, counted: int)
    | BadField(line: string, offset: int)

  /** `new BigDecimal(text)` and `new SimpleDateFormat(format).parse(text)`; `None` where they throw. */
  datatype Parsers = Parsers(decimal: string -> Option<real>, date: (string, string) -> Option<Day>)

  /** A `null` argument replaced by its default. */
  function OrDefault(s: Option<string>, default: string): string {
    if s.None? then default else s.value
  }

  /** How many fields one date occupies: the pieces of the date format around the separator. */
  function DateLength(dateFormat: string, separator: string): nat {
    |Split(dateFormat, separator)|
  }

  /** The field count with each date counted as one field. */
  function CountedFields(fieldCount: int, dateLength: int): int {
    fieldCount - (dateLength - 1) * 2
  }

  /** `parseDate`: the `dateLength` fields from `offset` joined with the separator, then parsed. */
  function ParseDate(parsers: Parsers, dateFormat: string, fields: seq<string>, dateLength: nat, offset: nat, separator: string): Option<Day>
    requires offset + dateLength <= |fields|
  {
    parsers.date(dateFormat, Join(fields[offset..offset + dateLength], separator))
  }

  /**
   * The fields of a line with the right count, read in order: entity,
   * direction, forex, currency, the two dates and units and price. A failure
   * reports how far the field counter had got: one past the field for single
   * fields, the first field of the date for dates.
   */
  function ReadFields(line: string, fields: seq<string>, dateLength: nat, dateFormat: string, separator: string, parsers: Parsers)
    : (r: Result<Instruction, ParseError>)
    requires |fields| == 6 + 2 * dateLength
    ensures r.Failure? ==> r.error.BadField? && 2 <= r.error.offset <= |fields|
    ensures r.Success? ==> r.value.entity == fields[0] && r.value.currency == fields[3]
  {
    var dl := dateLength;
    var direction := DirectionOf(fields[1]);
    var forex := parsers.decimal(fields[2]);
    var instructionDate := ParseDate(parsers, dateFormat, fields, dl, 4, separator);
    var settlementDate := ParseDate(parsers, dateFormat, fields, dl, 4 + dl, separator);
    var units := ParseInt(fields[4 + 2 * dl]);
    var price := parsers.decimal(fields[5 + 2 * dl]);
    if direction.None? then Failure(BadField(line, 2))
    else if forex.None? then Failure(BadField(line, 3))
    else if instructionDate.None? then Failure(BadField(line, 4))
    else if settlementDate.None? then Failure(BadField(line, 4 + dl))
    else if units.None? then Failure(BadField(line, 5 + 2 * dl))
    else if price.None? then Failure(BadField(line, 6 + 2 * dl))
    else Success(Instruction(fields[0], direction.value, forex.value, fields[3],
                             instructionDate.value, settlementDate.value, units.value, price.value))
  }

  /**
   * Whether reading step `k` succeeds: 0 the direction, 1 the forex, 2 and 3
   * the two dates, 4 the units, 5 the price.
   */
  predicate StepReads(fields: seq<string>, dateLength: nat, dateFormat: string, separator: string, parsers: Parsers, k: nat)
    requires |fields| == 6 + 2 * dateLength && k < 6
  {
    var dl := dateLength;
    if k == 0 then DirectionOf(fields[1]).Some?
    else if k == 1 then parsers.decimal(fields[2]).Some?
    else if k == 2 then ParseDate(parsers, dateFormat, fields, dl, 4, separator).Some?
    else if k == 3 then ParseDate(parsers, dateFormat, fields, dl, 4 + dl, separator).Some?
    else if k == 4 then ParseInt(fields[4 + 2 * dl]).Some?
    else parsers.decimal(fields[5 + 2 * dl]).Some?
  }

  /**
   * The field counter when step `k` fails: one past the field of a single
   * field, the first field of a date.
   */
  function CounterAt(k: nat, dateLength: nat): int
    requires k < 6
  {
    [2, 3, 4, 4 + dateLength, 5 + 2 * dateLength, 6 + 2 * dateLength][k]
  }

  /** Step `k` is the first that fails. */
  ghost predicate FirstUnreadable(fields: seq<string>, dateLength: nat, dateFormat: string, separator: string, parsers: Parsers, k: int)
    requires |fields| == 6 + 2 * dateLength
  {
    0 <= k < 6 && !StepReads(fields, dateLength, dateFormat, separator, parsers, k)
    && forall j :: 0 <= j < k ==> StepReads(fields, dateLength, dateFormat, separator, parsers, j)
  }

  /**
   * Reading succeeds exactly when every field reads, and then each field of
   * the instruction is what its reader returned; otherwise it fails at the
   * first field that does not read, reporting the counter of that field.
   */
  lemma ReadFieldsMeaning(line: string, fields: seq<string>, dateLength: nat, dateFormat: string, separator: string, parsers: Parsers)
    requires |fields| == 6 + 2 * dateLength
    ensures var r := ReadFields(line, fields, dateLength, dateFormat, separator, parsers);
      r.Success? <==> forall k :: 0 <= k < 6 ==> StepReads(fields, dateLength, dateFormat, separator, parsers, k)
    ensures var r := ReadFields(line, fields, dateLength, dateFormat, separator, parsers);
      r.Failure? ==> exists k :: FirstUnreadable(fields, dateLength, dateFormat, separator, parsers, k)
                                 && r.error == BadField(line, CounterAt(k, dateLength))
    ensures var r := ReadFields(line, fields, dateLength, dateFormat, separator, parsers);
      var dl := dateLength;
      r.Success? ==>
        && Some(r.value.transactionDirection) == DirectionOf(fields[1])
        && Some(r.value.forex) == parsers.decimal(fields[2])
        && Some(r.value.instructionDate) == ParseDate(parsers, dateFormat, fields, dl, 4, separator)
        && Some(r.value.settlementDate) == ParseDate(parsers, dateFormat, fields, dl, 4 + dl, separator)
        && Some(r.value.units) == ParseInt(fields[4 + 2 * dl])
        && Some(r.value.pricePerUnit) == parsers.decimal(fields[5 + 2 * dl])
  {
    var r := ReadFields(line, fields, dateLength, dateFormat, separator, parsers);
    var ok := (k: nat) requires k < 6 => StepReads(fields, dateLength, dateFormat, separator, parsers, k);
    if r.Failure? {
      var k := if !ok(0) then 0 else if !ok(1) then 1 else if !ok(2) then 2
               else if !ok(3) then 3 else if !ok(4) then 4 else 5;
      assert FirstUnreadable(fields, dateLength, dateFormat, separator, parsers, k);
    }
  }

  /**
   * What `parseLine` returns for a separator and a date format already
   * defaulted: the counted number of fields must be 8, then the fields are read.
   */
  function Parse(line: string, separator: string, dateFormat: string, parsers: Parsers): (r: Result<Instruction, ParseError>)
    ensures r.Failure? && r.error.WrongFieldCount? <==>
      CountedFields(|Split(line, separator)|, DateLength(dateFormat, separator)) != ExpectedFields
  {
    var fields := Split(line, separator);
    var dl := DateLength(dateFormat, separator);
    var counted := CountedFields(|fields|, dl);
    if counted != ExpectedFields then Failure(WrongFieldCount(line, counted))
    else ReadFields(line, fields, dl, dateFormat, separator, parsers)
  }

  /** The `try` block of `parseLine`: reads the fields in order while advancing `offset`. */
  method ReadFieldsInOrder(line: string, fields: seq<string>, dateLength: nat, dateFormat: string, separator: string, parsers: Parsers)
    returns (r: Result<Instruction, ParseError>)
    requires |fields| == 6 + 2 * dateLength
    ensures r == ReadFields(line, fields, dateLength, dateFormat, separator, parsers)
  {
    var offset := 0;
    var entity := fields[offset];
    offset := offset + 1;
    var direction := DirectionOf(fields[offset]);
    offset := offset + 1;
    if direction.None? {
      return Failure(BadField(line, offset));
    }
    var forex := parsers.decimal(fields[offset]);
    offset := offset + 1;
    if forex.None? {
      return Failure(BadField(line, offset));
    }
    var currency := fields[offset];
    offset := offset + 1;
    var instructionDate := ParseDate(parsers, dateFormat, fields, dateLength, offset, separator);
    if instructionDate.None? {
      return Failure(BadField(line, offset));
    }
    offset := offset + dateLength;
    var settlementDate := ParseDate(parsers, dateFormat, fields, dateLength, offset, separator);
    if settlementDate.None? {
      return Failure(BadField(line, offset));
    }
    offset := offset + dateLength;
    var units := ParseInt(fields[offset]);
    offset := offset + 1;
    if units.None? {
      return Failure(BadField(line, offset));
    }
    var price := parsers.decimal(fields[offset]);
    offset := offset + 1;
    if price.None? {
      return Failure(BadField(line, offset));
    }
    return Success(Instruction(entity, direction.value, forex.value, currency,
                               instructionDate.value, settlementDate.value, units.value, price.value));
  }

  /**
   * `parseLine(line, separator, dateFormat)`: defaults the arguments, splits the
   * line and the date format, checks the field count and reads the fields.
   */
  method ParseLine(line: string, separator: Option<string>, dateFormat: Option<string>, parsers: Parsers)
    returns (r: Result<Instruction, ParseError>)
    ensures r == Parse(line, OrDefault(separator, DefaultSeparator), OrDefault(dateFormat, DefaultDateFormat), parsers)
  {
    var sep := DefaultSeparator;
    if separator.Some? {
      sep := separator.value;
    }
    var format := DefaultDateFormat;
    if dateFormat.Some? {
      format := dateFormat.value;
    }
    assert sep == OrDefault(separator, DefaultSeparator) && format == OrDefault(dateFormat, DefaultDateFormat);
    var fields := Split(line, sep);
    var dateLength := |Split(format, sep)|;
    var countedFields := |fields| - (dateLength - 1) * 2;
    assert dateLength == DateLength(format, sep) && countedFields == CountedFields(|fields|, dateLength);
    if countedFields != ExpectedFields {
      return Failure(WrongFieldCount(line, countedFields));
    }
    r := ReadFieldsInOrder(line, fields, dateLength, format, sep, parsers);
  }

  /** `parseLine(line, separator)`: the date format is left to its default. */
  method ParseLineWithSeparator(line: string, separator: Option<string>, parsers: Parsers)
    returns (r: Result<Instruction, ParseError>)
    ensures r == Parse(line, OrDefault(separator, DefaultSeparator), DefaultDateFormat, parsers)
  {
    r := ParseLine(line, separator, None, parsers);
  }

  /** `parseLine(line)`: a space separator and the `dd MMM yyyy` date format. */
  method ParseLineWithDefaults(line: string, parsers: Parsers) returns (r: Result<Instruction, ParseError>)
    ensures r == Parse(line, DefaultSeparator, DefaultDateFormat, parsers)
  {
    r := ParseLineWithSeparator(line, None, parsers);
  }

  // ---------------------------------------------------------------------------
  // Writing an instruction as a line, and reading it back
  // ---------------------------------------------------------------------------

  /** The formatting counterparts of the two library parsers. */
  datatype Printers = Printers(decimal: real -> string, date: (string, Day) -> string)

  /** The fields of a line that states `ins`, each date written with the date format and split like the line. */
  function FieldsOf(ins: Instruction, separator: string, dateFormat: string, printers: Printers): seq<string> {
    [ins.entity, DirectionName(ins.transactionDirection), printers.decimal(ins.forex), ins.currency]
    + Split(printers.date(dateFormat, ins.instructionDate), separator)
    + Split(printers.date(dateFormat, ins.settlementDate), separator)
    + [DecimalString(ins.units), printers.decimal(ins.pricePerUnit)]
  }

  /** The line that states `ins`. */
  function Render(ins: Instruction, separator: string, dateFormat: string, printers: Printers): string {
    Join(FieldsOf(ins, separator, dateFormat, printers), separator)
  }

  /**
   * The printed date `d` reads back as `d`, splits into as many fields as the
   * date format does, and rejoins to itself (it does not end in a separator).
   */
  ghost predicate DateReadsBack(parsers: Parsers, printers: Printers, dateFormat: string, separator: string, d: Day) {
    var text := printers.date(dateFormat, d);
    parsers.date(dateFormat, text) == Some(d)
    && |Split(text, separator)| == DateLength(dateFormat, separator)
    && Join(Split(text, separator), separator) == text
  }

  /**
   * A line can state `ins` unambiguously: a one-character separator that is not
   * a digit, `-`, `B` or `S`, occurs in no text field and in no printed number,
   * a non-empty last field, numbers that read back, and a Java `int` of units.
   */
  ghost predicate Writable(ins: Instruction, separator: string, dateFormat: string, parsers: Parsers, printers: Printers) {
    |separator| == 1
    && !IsDigit(separator[0]) && separator[0] != '-' && separator[0] != 'B' && separator[0] != 'S'
    && Free(ins.entity, separator[0]) && Free(ins.currency, separator[0])
    && Free(printers.decimal(ins.forex), separator[0]) && Free(printers.decimal(ins.pricePerUnit), separator[0])
    && printers.decimal(ins.pricePerUnit) != ""
    && parsers.decimal(printers.decimal(ins.forex)) == Some(ins.forex)
    && parsers.decimal(printers.decimal(ins.pricePerUnit)) == Some(ins.pricePerUnit)
    && DateReadsBack(parsers, printers, dateFormat, separator, ins.instructionDate)
    && DateReadsBack(parsers, printers, dateFormat, separator, ins.settlementDate)
    && IntMin <= ins.units <= IntMax
  }

  lemma DecimalStringFree(n: int, c: char)
    requires !IsDigit(c) && c != '-'
    ensures Free(DecimalString(n), c)
  {
    var digits := NatDigits(if n < 0 then -n else n);
    assert AllDigits(digits);
  }

  /** Splitting the line that states `ins` gives back its fields, a date taking as many fields as the format. */
  lemma SplitRender(ins: Instruction, separator: string, dateFormat: string, parsers: Parsers, printers: Printers)
    requires Writable(ins, separator, dateFormat, parsers, printers)
    ensures Split(Render(ins, separator, dateFormat, printers), separator) == FieldsOf(ins, separator, dateFormat, printers)
    ensures |FieldsOf(ins, separator, dateFormat, printers)| == 6 + 2 * DateLength(dateFormat, separator)
  {
    var fields := FieldsOf(ins, separator, dateFormat, printers);
    RenderFieldsFree(ins, separator, dateFormat, parsers, printers);
    assert fields[|fields| - 1] == printers.decimal(ins.pricePerUnit);
    SplitJoin(fields, separator);
  }

  /** No field of the line that states `ins` holds the separator, and the line has as many fields as the layout says. */
  lemma RenderFieldsFree(ins: Instruction, separator: string, dateFormat: string, parsers: Parsers, printers: Printers)
    requires Writable(ins, separator, dateFormat, parsers, printers)
    ensures AllFree(FieldsOf(ins, separator, dateFormat, printers), separator[0])
    ensures |FieldsOf(ins, separator, dateFormat, printers)| == 6 + 2 * DateLength(dateFormat, separator)
  {
    var c := separator[0];
    var first := Split(printers.date(dateFormat, ins.instructionDate), separator);
    var second := Split(printers.date(dateFormat, ins.settlementDate), separator);
    HeadFree(ins.entity, ins.transactionDirection, printers.decimal(ins.forex), ins.currency, c);
    TailFree(ins.units, printers.decimal(ins.pricePerUnit), c);
    SplitFree(printers.date(dateFormat, ins.instructionDate), separator);
    SplitFree(printers.date(dateFormat, ins.settlementDate), separator);
    PartsFree([ins.entity, DirectionName(ins.transactionDirection), printers.decimal(ins.forex), ins.currency],
      first, second, [DecimalString(ins.units), printers.decimal(ins.pricePerUnit)], c);
  }

  lemma HeadFree(entity: string, direction: TransactionDirection, forex: string, currency: string, c: char)
    requires Free(entity, c) && Free(forex, c) && Free(currency, c) && c != 'B' && c != 'S'
    ensures AllFree([entity, DirectionName(direction), forex, currency], c)
  {
    assert Free(DirectionName(direction), c);
  }

  lemma TailFree(units: int, price: string, c: char)
    requires !IsDigit(c) && c != '-' && Free(price, c)
    ensures AllFree([DecimalString(units), price], c)
  {
    DecimalStringFree(units, c);
  }

  lemma PartsFree(head: seq<string>, first: seq<string>, second: seq<string>, tail: seq<string>, c: char)
    requires AllFree(head, c) && AllFree(first, c) && AllFree(second, c) && AllFree(tail, c)
    ensures AllFree(head + first + second + tail, c)
  {
    AllFreeConcat(head, first, c);
    AllFreeConcat(head + first, second, c);
    AllFreeConcat(head + first + second, tail, c);
  }

  lemma AllFreeConcat(a: seq<string>, b: seq<string>, c: char)
    requires AllFree(a, c) && AllFree(b, c)
    ensures AllFree(a + b, c)
  {
    forall i | 0 <= i < |a + b| ensures Free((a + b)[i], c) {
      if i >= |a| {
        assert (a + b)[i] == b[i - |a|];
      }
    }
  }

  /** Fields that hold, at their offsets, what `ins` holds are read as `ins`. */
  lemma ReadFieldsOf(ins: Instruction, line: string, fields: seq<string>, dl: nat, dateFormat: string, separator: string, parsers: Parsers)
    requires |fields| == 6 + 2 * dl
    requires fields[0] == ins.entity && DirectionOf(fields[1]) == Some(ins.transactionDirection)
    requires parsers.decimal(fields[2]) == Some(ins.forex) && fields[3] == ins.currency
    requires parsers.date(dateFormat, Join(fields[4..4 + dl], separator)) == Some(ins.instructionDate)
    requires parsers.date(dateFormat, Join(fields[4 + dl..4 + 2 * dl], separator)) == Some(ins.settlementDate)
    requires ParseInt(fields[4 + 2 * dl]) == Some(ins.units)
    requires parsers.decimal(fields[5 + 2 * dl]) == Some(ins.pricePerUnit)
    ensures ReadFields(line, fields, dl, dateFormat, separator, parsers) == Success(ins)
  {
  }

  /** Where the parts of a line's fields sit once they are put together. */
  lemma FieldLayout(head: seq<string>, first: seq<string>, second: seq<string>, tail: seq<string>)
    requires |head| == 4 && |first| == |second| && |tail| == 2
    ensures var fields, dl := head + first + second + tail, |first|;
      |fields| == 6 + 2 * dl && fields[0] == head[0] && fields[1] == head[1] && fields[2] == head[2] && fields[3] == head[3]
      && fields[4..4 + dl] == first && fields[4 + dl..4 + 2 * dl] == second
      && fields[4 + 2 * dl] == tail[0] && fields[5 + 2 * dl] == tail[1]
  {
    var fields, dl := head + first + second + tail, |first|;
    assert fields[4..4 + dl] == first;
    assert fields[4 + dl..4 + 2 * dl] == second;
  }

  /** The fields of the line that states `ins` are read as `ins`. */
  lemma ReadRendered(ins: Instruction, separator: string, dateFormat: string, parsers: Parsers, printers: Printers)
    requires Writable(ins, separator, dateFormat, parsers, printers)
    requires |FieldsOf(ins, separator, dateFormat, printers)| == 6 + 2 * DateLength(dateFormat, separator)
    ensures ReadFields(Render(ins, separator, dateFormat, printers), FieldsOf(ins, separator, dateFormat, printers),
                       DateLength(dateFormat, separator), dateFormat, separator, parsers) == Success(ins)
  {
    var line := Render(ins, separator, dateFormat, printers);
    var dl := DateLength(dateFormat, separator);
    var head := [ins.entity, DirectionName(ins.transactionDirection), printers.decimal(ins.forex), ins.currency];
    var first := Split(printers.date(dateFormat, ins.instructionDate), separator);
    var second := Split(printers.date(dateFormat, ins.settlementDate), separator);
    var tail := [DecimalString(ins.units), printers.decimal(ins.pricePerUnit)];
    var fields := FieldsOf(ins, separator, dateFormat, printers);
    assert fields == head + first + second + tail;
    FieldLayout(head, first, second, tail);
    assert Join(first, separator) == printers.date(dateFormat, ins.instructionDate);
    assert Join(second, separator) == printers.date(dateFormat, ins.settlementDate);
    ParseIntDecimalString(ins.units);
    DirectionRoundTrip(ins.transactionDirection);
    ReadFieldsOf(ins, line, fields, dl, dateFormat, separator, parsers);
  }

  /** Parsing the line that states an instruction gives that instruction back. */
  lemma ParseRender(ins: Instruction, separator: string, dateFormat: string, parsers: Parsers, printers: Printers)
    requires Writable(ins, separator, dateFormat, parsers, printers)
    ensures Parse(Render(ins, separator, dateFormat, printers), separator, dateFormat, parsers) == Success(ins)
  {
    var line := Render(ins, separator, dateFormat, printers);
    var fields := FieldsOf(ins, separator, dateFormat, printers);
    var dl := DateLength(dateFormat, separator);
    SplitRender(ins, separator, dateFormat, parsers, printers);
    assert Split(line, separator) == fields && CountedFields(|fields|, dl) == ExpectedFields;
    ReadRendered(ins, separator, dateFormat, parsers, printers);
  }

  /**
   * The same record written with different separators and date formats (a
   * space-separated line with `dd MMM yyyy` dates, a comma-separated one, one
   * with `yyyyMMdd` dates) parses to equal instructions.
   */
  lemma SameRecordAnyLayout(ins: Instruction, parsers: Parsers, printers: Printers,
                            separator1: string, dateFormat1: string, separator2: string, dateFormat2: string)
    requires Writable(ins, separator1, dateFormat1, parsers, printers)
    requires Writable(ins, separator2, dateFormat2, parsers, printers)
    ensures Parse(Render(ins, separator1, dateFormat1, printers), separator1, dateFormat1, parsers)
         == Parse(Render(ins, separator2, dateFormat2, printers), separator2, dateFormat2, parsers)
  {
    ParseRender(ins, separator1, dateFormat1, parsers, printers);
    ParseRender(ins, separator2, dateFormat2, parsers, printers);
  }
}
