/** The CSV writer of the Go drivers, and a reader that follows section 2 of RFC 4180 with LF line ends. */
module Csv {
  import opened Wrappers
  import opened Text

  datatype CsvOptions = CsvOptions(delimiter: char, quote: char, header: bool, nullString: string)

  datatype Cell = Null | Value(text: string)

  /** A field about to be written: its text, and whether it must be quoted. */
  datatype OutField = OutField(text: string, forceQuote: bool)

  predicate NeedsQuote(f: OutField, o: CsvOptions) {
    f.forceQuote || o.delimiter in f.text || o.quote in f.text || '\r' in f.text || '\n' in f.text
  }

  function FieldText(f: OutField, o: CsvOptions): string {
    if NeedsQuote(f, o) then [o.quote] + Doubled(f.text, o.quote) + [o.quote] else f.text
  }

  /** The fields with the delimiter in front of all but the first. */
  function FieldsText(fields: seq<OutField>, o: CsvOptions): string
    decreases |fields|
  {
    if fields == [] then ""
    else
      FieldsText(fields[..|fields| - 1], o)
      + (if |fields| > 1 then [o.delimiter] else "") + FieldText(fields[|fields| - 1], o)
  }

  function RecordText(fields: seq<OutField>, o: CsvOptions): string {
    FieldsText(fields, o) + "\n"
  }

  function CellField(c: Cell, o: CsvOptions): OutField {
    match c
    case Null => OutField(o.nullString, false)
    case Value(text) => OutField(text, text == "" || text == o.nullString)
  }

  function RowFields(row: seq<Cell>, o: CsvOptions): seq<OutField> {
    seq(|row|, i requires 0 <= i < |row| => CellField(row[i], o))
  }

  function HeaderFields(columns: seq<string>): seq<OutField> {
    seq(|columns|, i requires 0 <= i < |columns| => OutField(columns[i], false))
  }

  function RowsText(rows: seq<seq<Cell>>, o: CsvOptions): string
    decreases |rows|
  {
    if rows == [] then "" else RowsText(rows[..|rows| - 1], o) + RecordText(RowFields(rows[|rows| - 1], o), o)
  }

  function HeaderText(columns: seq<string>, o: CsvOptions): string {
    if o.header then RecordText(HeaderFields(columns), o) else ""
  }

  // ---------- the writer ----------

  class Buffer {
    var contents: string

    constructor ()
      ensures contents == ""
    {
      contents := "";
    }

    method Write(s: string)
      modifies this
      ensures contents == old(contents) + s
    {
      contents := contents + s;
    }
  }

  method WriteCSVField(out: Buffer, f: OutField, o: CsvOptions)
    modifies out
    ensures out.contents == old(out.contents) + FieldText(f, o)
  {
    if !NeedsQuote(f, o) {
      out.Write(f.text);
      return;
    }
    out.Write([o.quote]);
    ghost var start, done := out.contents, "";
    var i := 0;
    assert "" + Doubled(f.text[0..], o.quote) == Doubled(f.text, o.quote) && start + "" == start;
    while i < |f.text|
      invariant 0 <= i <= |f.text|
      invariant out.contents == start + done && done + Doubled(f.text[i..], o.quote) == Doubled(f.text, o.quote)
    {
      hide *;
      ghost var piece := if f.text[i] == o.quote then [o.quote] + [f.text[i]] else [f.text[i]];
      DoubledGoesOn(f.text, i, o.quote);
      Regroup(done, piece, Doubled(f.text[i + 1..], o.quote));
      Regroup(start, done, piece);
      if f.text[i] == o.quote {
        Regroup(start + done, [o.quote], [f.text[i]]);
        out.Write([o.quote]);
      }
      out.Write([f.text[i]]);
      done := done + piece;
      i := i + 1;
    }
    assert done + Doubled(f.text[i..], o.quote) == done;
    out.Write([o.quote]);
    Regroup(old(out.contents), [o.quote], done);
    Regroup(old(out.contents), [o.quote] + done, [o.quote]);
  }

  lemma DoubledGoesOn(text: string, i: nat, quote: char)
    requires i < |text|
    ensures Doubled(text[i..], quote) ==
      (if text[i] == quote then [quote] + [text[i]] else [text[i]]) + Doubled(text[i + 1..], quote)
  {
    assert text[i..][0] == text[i] && text[i..][1..] == text[i + 1..];
  }

  method WriteCSVRecord(out: Buffer, fields: seq<OutField>, o: CsvOptions)
    modifies out
    ensures out.contents == old(out.contents) + RecordText(fields, o)
  {
    var i := 0;
    assert fields[..0] == [] && old(out.contents) + "" == old(out.contents);
    hide FieldText;
    while i < |fields|
      invariant 0 <= i <= |fields|
      invariant out.contents == old(out.contents) + FieldsText(fields[..i], o)
    {
      hide FieldsText;
      FieldsGoOn(fields, i, o);
      ghost var written := FieldsText(fields[..i], o);
      Regroup(old(out.contents), written, [o.delimiter]);
      Regroup(old(out.contents), written, FieldText(fields[i], o));
      Regroup(old(out.contents), written + [o.delimiter], FieldText(fields[i], o));
      if i > 0 {
        out.Write([o.delimiter]);
      }
      WriteCSVField(out, fields[i], o);
      i := i + 1;
    }
    assert fields[..i] == fields;
    Regroup(old(out.contents), FieldsText(fields, o), "\n");
    out.Write("\n");
  }

  lemma FieldsGoOn(fields: seq<OutField>, i: nat, o: CsvOptions)
    requires i < |fields|
    ensures FieldsText(fields[..i + 1], o) ==
      if i > 0 then FieldsText(fields[..i], o) + [o.delimiter] + FieldText(fields[i], o)
      else FieldsText(fields[..i], o) + FieldText(fields[i], o)
  {
    hide FieldText;
    assert fields[..i + 1][..i] == fields[..i];
    assert FieldsText(fields[..i], o) + "" == FieldsText(fields[..i], o);
  }

  lemma RowsGoOn(rows: seq<seq<Cell>>, i: nat, o: CsvOptions)
    requires i < |rows|
    ensures RowsText(rows[..i + 1], o) == RowsText(rows[..i], o) + RecordText(RowFields(rows[i], o), o)
  {
    hide RecordText, RowFields;
    assert rows[..i + 1][..i] == rows[..i];
  }

  method ExportRowsCSV(columns: seq<string>, rows: seq<seq<Cell>>, o: CsvOptions) returns (data: string, count: nat)
    ensures data == HeaderText(columns, o) + RowsText(rows, o)
    ensures count == |rows|
  {
    hide RecordText, RowFields, HeaderFields;
    var out := new Buffer();
    if o.header {
      WriteCSVRecord(out, HeaderFields(columns), o);
    }
    count := 0;
    assert rows[..0] == [] && HeaderText(columns, o) + "" == HeaderText(columns, o);
    while count < |rows|
      invariant 0 <= count <= |rows|
      invariant out.contents == HeaderText(columns, o) + RowsText(rows[..count], o)
    {
      hide RowsText, HeaderText;
      RowsGoOn(rows, count, o);
      var record := RecordOf(rows[count], o);
      WriteCSVRecord(out, record, o);
      Regroup(HeaderText(columns, o), RowsText(rows[..count], o), RecordText(record, o));
      count := count + 1;
    }
    assert rows[..count] == rows;
    return out.contents, count;
  }

  method RecordOf(row: seq<Cell>, o: CsvOptions) returns (record: seq<OutField>)
    ensures record == RowFields(row, o)
  {
    record := [];
    var i := 0;
    while i < |row|
      invariant 0 <= i <= |row| && |record| == i
      invariant forall k :: 0 <= k < i ==> record[k] == CellField(row[k], o)
    {
      var field;
      match row[i] {
        case Null => field := OutField(o.nullString, false);
        case Value(text) => field := OutField(text, text == "" || text == o.nullString);
      }
      record := record + [field];
      i := i + 1;
    }
  }

  // ---------- a reader after RFC 4180 ----------

  /** A field that was read: its text, and whether it stood in quotes. */
  datatype InField = InField(text: string, quoted: bool)

  /** Unquoted text runs up to the delimiter or the line end; a bare quote or CR in it is an error. */
  function ReadPlain(s: string, o: CsvOptions): Option<(string, string)> {
    if s == "" then None
    else if s[0] == o.delimiter || s[0] == '\n' then Some(("", s))
    else if s[0] == o.quote || s[0] == '\r' then None
    else
      match ReadPlain(s[1..], o)
      case None => None
      case Some((text, rest)) => Some(([s[0]] + text, rest))
  }

  function ReadField(s: string, o: CsvOptions): (r: Option<(InField, string)>)
    ensures r.Some? ==> |r.value.1| <= |s|
  {
    if s != "" && s[0] == o.quote then
      match ReadQuoted(s[1..], o.quote)
      case None => None
      case Some((text, rest)) => ReadQuotedShrinks(s[1..], o.quote); Some((InField(text, true), rest))
    else
      match ReadPlain(s, o)
      case None => None
      case Some((text, rest)) => ReadPlainShrinks(s, o); Some((InField(text, false), rest))
  }

  lemma {:induction false} ReadQuotedShrinks(s: string, quote: char)
    ensures ReadQuoted(s, quote).Some? ==> |ReadQuoted(s, quote).value.1| <= |s|
    decreases |s|
  {
    if s != "" {
      ReadQuotedShrinks(s[1..], quote);
      if |s| > 1 {
        ReadQuotedShrinks(s[2..], quote);
      }
    }
  }

  lemma {:induction false} ReadPlainShrinks(s: string, o: CsvOptions)
    ensures ReadPlain(s, o).Some? ==> |ReadPlain(s, o).value.1| <= |s|
    decreases |s|
  {
    if s != "" {
      ReadPlainShrinks(s[1..], o);
    }
  }

  function ReadRecord(s: string, o: CsvOptions): (r: Option<(seq<InField>, string)>)
    ensures r.Some? ==> |r.value.1| < |s|
    decreases |s|
  {
    match ReadField(s, o)
    case None => None
    case Some((f, rest)) =>
      if rest == "" then None
      else if rest[0] == o.delimiter then
        match ReadRecord(rest[1..], o) {
          case None => None
          case Some((fields, rest')) => Some(([f] + fields, rest'))
        }
      else if rest[0] == '\n' then Some(([f], rest[1..]))
      else None
  }

  function ReadRecords(s: string, o: CsvOptions): Option<seq<seq<InField>>>
    decreases |s|
  {
    if s == "" then Some([])
    else
      match ReadRecord(s, o)
      case None => None
      case Some((record, rest)) =>
        match ReadRecords(rest, o)
        case None => None
        case Some(records) => Some([record] + records)
  }

  /** Only an unquoted field can be NULL. */
  function CellOf(f: InField, o: CsvOptions): Cell {
    if !f.quoted && f.text == o.nullString then Null else Value(f.text)
  }

  function CellsOf(record: seq<InField>, o: CsvOptions): seq<Cell> {
    seq(|record|, i requires 0 <= i < |record| => CellOf(record[i], o))
  }

  function TextsOf(record: seq<InField>): seq<string> {
    seq(|record|, i requires 0 <= i < |record| => record[i].text)
  }

  function RowsOf(records: seq<seq<InField>>, o: CsvOptions): seq<seq<Cell>> {
    seq(|records|, i requires 0 <= i < |records| => CellsOf(records[i], o))
  }

  function DecodeRows(s: string, o: CsvOptions): Option<seq<seq<Cell>>> {
    match ReadRecords(s, o)
    case None => None
    case Some(records) => Some(RowsOf(records, o))
  }

  /** A whole file: the column names if there is a header, and the rows. */
  function DecodeFile(s: string, o: CsvOptions): Option<(seq<string>, seq<seq<Cell>>)> {
    match ReadRecords(s, o)
    case None => None
    case Some(records) =>
      if !o.header then Some(([], RowsOf(records, o)))
      else if records == [] then None
      else Some((TextsOf(records[0]), RowsOf(records[1..], o)))
  }

  // ---------- round trip ----------

  /** Three different marks, and a null marker that never needs quotes. */
  predicate Readable(o: CsvOptions) {
    && o.delimiter != o.quote && o.delimiter != '\n' && o.quote != '\n'
    && !NeedsQuote(OutField(o.nullString, false), o)
  }

  predicate AllNonEmpty(rows: seq<seq<Cell>>) {
    forall i :: 0 <= i < |rows| ==> rows[i] != []
  }

  lemma {:induction false} PlainReadsBack(text: string, o: CsvOptions, rest: string)
    requires !NeedsQuote(OutField(text, false), o)
    requires rest != "" && (rest[0] == o.delimiter || rest[0] == '\n')
    ensures ReadPlain(text + rest, o) == Some((text, rest))
    decreases |text|
  {
    if text == "" {
      assert text + rest == rest;
    } else {
      assert text[0] in text;
      assert (text + rest)[1..] == text[1..] + rest;
      forall c | c in text[1..]
        ensures c in text
      {
      }
      PlainReadsBack(text[1..], o, rest);
      assert [text[0]] + text[1..] == text;
    }
  }

  lemma FieldReadsBack(f: OutField, o: CsvOptions, rest: string)
    requires Readable(o)
    requires rest != "" && (rest[0] == o.delimiter || rest[0] == '\n')
    ensures ReadField(FieldText(f, o) + rest, o) == Some((InField(f.text, NeedsQuote(f, o)), rest))
  {
    hide Doubled, ReadQuoted;
    if NeedsQuote(f, o) {
      QuotedFieldReadsBack(f, o, rest);
    } else {
      PlainFieldReadsBack(f, o, rest);
    }
  }

  lemma QuotedFieldReadsBack(f: OutField, o: CsvOptions, rest: string)
    requires NeedsQuote(f, o) && o.delimiter != o.quote && o.quote != '\n'
    requires rest != "" && (rest[0] == o.delimiter || rest[0] == '\n')
    ensures ReadField(FieldText(f, o) + rest, o) == Some((InField(f.text, true), rest))
  {
    hide Doubled, ReadQuoted, ReadPlain, NeedsQuote, Readable;
    var s, behind := FieldText(f, o) + rest, Doubled(f.text, o.quote) + [o.quote] + rest;
    QuotedReadsBack(f.text, o.quote, rest);
    assert FieldText(f, o) == [o.quote] + Doubled(f.text, o.quote) + [o.quote];
    assert s == [o.quote] + behind;
    assert s[1..] == behind;
  }

  lemma PlainFieldReadsBack(f: OutField, o: CsvOptions, rest: string)
    requires Readable(o) && !NeedsQuote(f, o)
    requires rest != "" && (rest[0] == o.delimiter || rest[0] == '\n')
    ensures ReadField(FieldText(f, o) + rest, o) == Some((InField(f.text, false), rest))
  {
    var s := FieldText(f, o) + rest;
    PlainReadsBack(f.text, o, rest);
    if f.text == "" {
      assert s == rest;
    } else {
      assert s[0] == f.text[0] && f.text[0] in f.text;
    }
  }

  function Written(fields: seq<OutField>, o: CsvOptions): seq<InField> {
    seq(|fields|, i requires 0 <= i < |fields| => InField(fields[i].text, NeedsQuote(fields[i], o)))
  }

  lemma {:induction false} FieldsFromFront(fields: seq<OutField>, o: CsvOptions)
    requires |fields| > 1
    ensures FieldsText(fields, o) == FieldText(fields[0], o) + [o.delimiter] + FieldsText(fields[1..], o)
    decreases |fields|
  {
    var front, last := fields[..|fields| - 1], fields[|fields| - 1];
    assert fields[1..][..|fields| - 2] == front[1..];
    if |fields| == 2 {
      assert front == [fields[0]] && fields[1..] == [last];
      assert front[..0] == [] && fields[1..][..0] == [];
      assert FieldsText(front, o) == FieldText(fields[0], o);
      assert FieldsText(fields[1..], o) == FieldText(last, o);
    } else {
      FieldsFromFront(front, o);
    }
  }

  lemma {:induction false} RecordReadsBack(fields: seq<OutField>, o: CsvOptions, rest: string)
    requires Readable(o) && fields != []
    ensures ReadRecord(RecordText(fields, o) + rest, o) == Some((Written(fields, o), rest))
    decreases |fields|
  {
    hide ReadField, FieldText, NeedsQuote, RecordText, ReadRecord, Written;
    var s, f := RecordText(fields, o) + rest, fields[0];
    assert o.delimiter != '\n';
    WrittenCons(fields, o);
    if |fields| == 1 {
      LastFieldText(f, fields, o, rest);
      FieldReadsBack(f, o, "\n" + rest);
      RecordEnds(s, o, InField(f.text, NeedsQuote(f, o)), rest);
      assert Written(fields, o) == [InField(f.text, NeedsQuote(f, o))];
    } else {
      var tail := RecordText(fields[1..], o) + rest;
      FirstFieldText(fields, o, rest);
      FieldReadsBack(f, o, [o.delimiter] + tail);
      RecordReadsBack(fields[1..], o, rest);
      RecordGoesOn(s, o, InField(f.text, NeedsQuote(f, o)), tail);
    }
  }

  lemma WrittenCons(fields: seq<OutField>, o: CsvOptions)
    requires fields != []
    ensures Written(fields, o) == [InField(fields[0].text, NeedsQuote(fields[0], o))] + Written(fields[1..], o)
    ensures |fields| == 1 ==> Written(fields[1..], o) == []
  {
    hide NeedsQuote;
  }

  lemma LastFieldText(f: OutField, fields: seq<OutField>, o: CsvOptions, rest: string)
    requires fields == [f]
    ensures RecordText(fields, o) + rest == FieldText(f, o) + ("\n" + rest)
  {
    hide FieldText;
    assert fields[..0] == [] && FieldsText([], o) == "";
    Regroup(FieldText(f, o), "\n", rest);
  }

  lemma FirstFieldText(fields: seq<OutField>, o: CsvOptions, rest: string)
    requires |fields| > 1
    ensures RecordText(fields, o) + rest
      == FieldText(fields[0], o) + ([o.delimiter] + (RecordText(fields[1..], o) + rest))
  {
    hide FieldText, FieldsText;
    FieldsFromFront(fields, o);
    var f, d, more := FieldText(fields[0], o), [o.delimiter], FieldsText(fields[1..], o);
    assert f + d + more + "\n" + rest == f + (d + (more + "\n" + rest));
  }

  lemma RecordEnds(s: string, o: CsvOptions, f: InField, rest: string)
    requires ReadField(s, o) == Some((f, "\n" + rest)) && o.delimiter != '\n'
    ensures ReadRecord(s, o) == Some(([f], rest))
  {
    hide ReadField;
    assert ("\n" + rest)[1..] == rest;
  }

  lemma RecordGoesOn(s: string, o: CsvOptions, f: InField, tail: string)
    requires ReadField(s, o) == Some((f, [o.delimiter] + tail)) && ReadRecord(tail, o).Some?
    ensures ReadRecord(s, o) == Some(([f] + ReadRecord(tail, o).value.0, ReadRecord(tail, o).value.1))
  {
    hide ReadField;
    assert ([o.delimiter] + tail)[1..] == tail;
  }

  lemma {:induction false} RowsFromFront(rows: seq<seq<Cell>>, o: CsvOptions)
    requires rows != []
    ensures RowsText(rows, o) == RecordText(RowFields(rows[0], o), o) + RowsText(rows[1..], o)
    decreases |rows|
  {
    var front := rows[..|rows| - 1];
    if |rows| == 1 {
      assert rows[1..] == [] && front == [];
    } else {
      RowsFromFront(front, o);
      assert rows[1..][..|rows| - 2] == front[1..];
    }
  }

  lemma RowReadsBack(row: seq<Cell>, o: CsvOptions)
    requires Readable(o)
    ensures CellsOf(Written(RowFields(row, o), o), o) == row
  {
    var cells := CellsOf(Written(RowFields(row, o), o), o);
    forall i | 0 <= i < |row|
      ensures cells[i] == row[i]
    {
      assert RowFields(row, o)[i] == CellField(row[i], o);
    }
  }

  lemma RowsOfCons(record: seq<InField>, records: seq<seq<InField>>, o: CsvOptions)
    ensures RowsOf([record] + records, o) == [CellsOf(record, o)] + RowsOf(records, o)
  {
  }

  lemma DecodeCons(s: string, record: seq<InField>, rest: string, o: CsvOptions)
    requires ReadRecord(s, o) == Some((record, rest))
    ensures DecodeRows(s, o) ==
            match DecodeRows(rest, o) { case None => None case Some(rows) => Some([CellsOf(record, o)] + rows) }
  {
    if ReadRecords(rest, o).Some? {
      RowsOfCons(record, ReadRecords(rest, o).value, o);
    }
  }

  lemma {:induction false} RowsReadBack(rows: seq<seq<Cell>>, o: CsvOptions)
    requires Readable(o) && AllNonEmpty(rows)
    ensures DecodeRows(RowsText(rows, o), o) == Some(rows)
    decreases |rows|
  {
    if rows == [] {
      assert RowsOf([], o) == [];
    } else {
      var fields, rest := RowFields(rows[0], o), RowsText(rows[1..], o);
      RowsFromFront(rows, o);
      RecordReadsBack(fields, o, rest);
      DecodeCons(RowsText(rows, o), Written(fields, o), rest, o);
      RowsReadBack(rows[1..], o);
      RowReadsBack(rows[0], o);
      assert [rows[0]] + rows[1..] == rows;
    }
  }

  /**
   * Reading back what was written recovers every cell of every table, and tells NULL, empty text and text equal to the
   * null marker apart, exactly when the three marks differ and the null marker needs no quotes.
   */
  lemma RoundTripIff(o: CsvOptions)
    ensures (forall rows: seq<seq<Cell>> :: AllNonEmpty(rows) ==> DecodeRows(RowsText(rows, o), o) == Some(rows))
            <==> Readable(o)
  {
    if Readable(o) {
      forall rows: seq<seq<Cell>> | AllNonEmpty(rows)
        ensures DecodeRows(RowsText(rows, o), o) == Some(rows)
      {
        RowsReadBack(rows, o);
      }
    } else {
      var rows := Unreadable(o);
      assert AllNonEmpty(rows) && DecodeRows(RowsText(rows, o), o) != Some(rows);
    }
  }

  lemma OneRowText(row: seq<Cell>, o: CsvOptions)
    requires row != []
    ensures RowsText([row], o) == RecordText(RowFields(row, o), o)
    ensures |row| == 1 ==> RowsText([row], o) == FieldText(CellField(row[0], o), o) + "\n"
    ensures |row| == 2 ==>
              RowsText([row], o)
              == FieldText(CellField(row[0], o), o) + [o.delimiter] + FieldText(CellField(row[1], o), o) + "\n"
  {
    hide FieldText, CellField;
    assert [row][..0] == [];
    assert RowsText([], o) == "";
    var fields := RowFields(row, o);
    hide RowsText, FieldsText;
    if |row| == 1 {
      OneField(fields, o);
    }
    if |row| == 2 {
      FieldsFromFront(fields, o);
      OneField(fields[1..], o);
    }
  }

  lemma OneField(fields: seq<OutField>, o: CsvOptions)
    requires |fields| == 1
    ensures FieldsText(fields, o) == FieldText(fields[0], o)
  {
    hide FieldText;
    assert fields[..0] == [] && FieldsText([], o) == "";
  }

  /** A table that does not survive, for each way the options can be unreadable. */
  lemma Unreadable(o: CsvOptions) returns (rows: seq<seq<Cell>>)
    requires !Readable(o)
    ensures AllNonEmpty(rows) && DecodeRows(RowsText(rows, o), o) != Some(rows)
  {
    var q := o.quote;
    if NeedsQuote(OutField(o.nullString, false), o) {
      rows := [[Null]];
      OneRowText([Null], o);
      NullIsQuoted(o);
    } else {
      var c := if o.delimiter == '\n' || q == '\n' then 'x' else if q == 'x' then 'y' else 'x';
      rows := [[Value(""), Value([c])]];
      if o.delimiter == q && q != '\n' {
        QuoteIsDelimiter(o, c);
      } else {
        rows := [[Value("")]];
        LineEndIsMark(o);
      }
    }
  }

  /** The first cell of whatever is read comes from the first field. */
  lemma FirstCell(s: string, o: CsvOptions)
    requires s != "" && DecodeRows(s, o).Some?
    ensures ReadField(s, o).Some?
    ensures var rows := DecodeRows(s, o).value;
            rows != [] && rows[0] != [] && rows[0][0] == CellOf(ReadField(s, o).value.0, o)
  {
    var record, rest := ReadRecord(s, o).value.0, ReadRecord(s, o).value.1;
    DecodeCons(s, record, rest, o);
    assert record[0] == ReadField(s, o).value.0;
    assert CellsOf(record, o)[0] == CellOf(record[0], o);
  }

  /** NULL written in quotes comes back as text, whatever else the options say. */
  lemma NullIsQuoted(o: CsvOptions)
    requires NeedsQuote(OutField(o.nullString, false), o)
    ensures DecodeRows(RowsText([[Null]], o), o) != Some([[Null]])
  {
    OneRowText([Null], o);
    var s := RowsText([[Null]], o);
    assert s[0] == o.quote;
    if DecodeRows(s, o).Some? {
      FirstCell(s, o);
      assert DecodeRows(s, o).value[0][0].Value?;
    }
  }

  lemma QuoteIsDelimiter(o: CsvOptions, c: char)
    requires o.delimiter == o.quote && o.quote != '\n' && c != o.quote && c != '\n'
    ensures DecodeRows(RowsText([[Value(""), Value([c])]], o), o) != Some([[Value(""), Value([c])]])
  {
    var row, q := [Value(""), Value([c])], o.quote;
    OneRowText(row, o);
    var s := RowsText([row], o);
    assert FieldText(CellField(Value(""), o), o) == [q, q];
    assert s[0] == q && s[1] == q && s[2] == q;
    assert s[1..][0] == q && s[1..][1] == q;
    if DecodeRows(s, o).Some? {
      FirstCell(s, o);
      assert ReadField(s, o).value.0.text != "";
      assert DecodeRows(s, o).value[0][0] != Value("");
    }
  }

  lemma LineEndIsMark(o: CsvOptions)
    requires o.delimiter == '\n' || o.quote == '\n'
    ensures DecodeRows(RowsText([[Value("")]], o), o) != Some([[Value("")]])
  {
    var q := o.quote;
    OneRowText([Value("")], o);
    var s := RowsText([[Value("")]], o);
    assert FieldText(CellField(Value(""), o), o) == [q, q];
    assert s == [q, q, '\n'];
    if q == '\n' {
      assert s[1..] == [q, q] && s[1..][2..] == "";
      assert ReadQuoted("", q) == None;
    } else {
      assert s[1..] == [q, '\n'] && s[1..][1..] == "\n";
      assert ReadField(s, o) == Some((InField("", true), "\n"));
      assert "\n"[1..] == "";
      assert ReadField("", o) == None;
      assert ReadRecord("", o) == None;
    }
  }

  /** A whole export, header included, decodes to the column names and every cell. */
  lemma FileReadsBack(columns: seq<string>, rows: seq<seq<Cell>>, o: CsvOptions)
    requires Readable(o) && columns != [] && AllNonEmpty(rows)
    ensures DecodeFile(HeaderText(columns, o) + RowsText(rows, o), o) == Some((if o.header then columns else [], rows))
  {
    RowsReadBack(rows, o);
    var records := ReadRecords(RowsText(rows, o), o).value;
    if o.header {
      var fields := HeaderFields(columns);
      RecordReadsBack(fields, o, RowsText(rows, o));
      assert HeaderText(columns, o) + RowsText(rows, o) != "";
      var all := [Written(fields, o)] + records;
      assert all[1..] == records;
      assert TextsOf(Written(fields, o)) == columns;
    } else {
      assert HeaderText(columns, o) + RowsText(rows, o) == RowsText(rows, o);
    }
  }

  // ---------- what stands in quotes ----------

  /** No delimiter, no quote and no line end, of either kind. */
  predicate IsPlain(text: string, o: CsvOptions) {
    forall i :: 0 <= i < |text| ==>
      text[i] != o.delimiter && text[i] != o.quote && text[i] != '\r' && text[i] != '\n'
  }

  lemma {:induction false} QuotedIsLonger(text: string, quote: char)
    ensures |Doubled(text, quote)| >= |text|
    decreases |text|
  {
    if text != "" {
      QuotedIsLonger(text[1..], quote);
    }
  }

  lemma FieldIsPlainIff(f: OutField, o: CsvOptions)
    ensures FieldText(f, o) == f.text <==> !f.forceQuote && IsPlain(f.text, o)
  {
    QuotedIsLonger(f.text, o.quote);
  }

  /**
   * Quotes stand exactly where they must: a value is written as it is if and only if it is neither empty nor the null
   * marker and is plain; NULL is the marker as it is if and only if the marker is plain; a name if and only if it is.
   */
  lemma WrittenAsItIsIff(text: string, o: CsvOptions)
    ensures FieldText(CellField(Value(text), o), o) == text <==> text != "" && text != o.nullString && IsPlain(text, o)
    ensures FieldText(CellField(Null, o), o) == o.nullString <==> IsPlain(o.nullString, o)
    ensures FieldText(HeaderFields([text])[0], o) == text <==> IsPlain(text, o)
  {
    FieldIsPlainIff(CellField(Value(text), o), o);
    FieldIsPlainIff(CellField(Null, o), o);
    FieldIsPlainIff(HeaderFields([text])[0], o);
  }
}
