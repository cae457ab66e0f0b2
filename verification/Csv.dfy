/** The reader of comma-separated provider feeds, in the form of section 2 of RFC 4180. */
module Csv {
  type Field = string
  type Row = seq<Field>

  const QUOTE := '\"'
  const COMMA := ','
  const LF := '\n'
  const CR := '\r'

  /** The reader's variables. */
  datatype Scan = Scan(rows: seq<Row>, row: Row, field: Field, quoted: bool)

  const START := Scan([], [], "", false)

  function FieldEnded(s: Scan): Scan {
    s.(row := s.row + [s.field], field := "")
  }

  function RowEnded(s: Scan): Scan {
    Scan(s.rows + [s.row + [s.field]], [], "", s.quoted)
  }

  /** What the reader takes at once: a doubled quote inside quotes, and CR LF outside, are one. */
  function Taken(s: Scan, text: string): nat
    requires text != ""
  {
    if s.quoted then (if text[0] == QUOTE && |text| > 1 && text[1] == QUOTE then 2 else 1)
    else (if text[0] == CR && |text| > 1 && text[1] == LF then 2 else 1)
  }

  function Step(s: Scan, text: string): Scan
    requires text != ""
  {
    var c := text[0];
    if s.quoted then
      if c != QUOTE || Taken(s, text) == 2 then s.(field := s.field + [c]) else s.(quoted := false)
    else if c == QUOTE then s.(quoted := true)
    else if c == COMMA then FieldEnded(s)
    else if c == LF || c == CR then RowEnded(s)
    else s.(field := s.field + [c])
  }

  function Read(s: Scan, text: string): Scan
    decreases |text|
  {
    if text == "" then s else Read(Step(s, text), text[Taken(s, text)..])
  }

  /** Text that does not end in a row end still ends its row, unless nothing was read of it. */
  function Finished(s: Scan): seq<Row> {
    if s.field != "" || s.row != [] then s.rows + [s.row + [s.field]] else s.rows
  }

  function Rows(text: string): seq<Row> {
    Finished(Read(START, text))
  }

  lemma {:induction false} ReadAt(s: Scan, text: string, index: nat)
    requires index < |text|
    ensures text[index..][0] == text[index] && |text[index..]| == |text| - index
    ensures index + 1 < |text| ==> text[index..][1] == text[index + 1]
    ensures Read(s, text[index..]) == Read(Step(s, text[index..]), text[index + Taken(s, text[index..])..])
  {
    var taken := Taken(s, text[index..]);
    assert text[index..][taken..] == text[index + taken..];
  }

  method ParseRows(text: string) returns (rows: seq<Row>)
    ensures rows == Rows(text)
  {
    rows := [];
    var row: Row, field: Field, quoted := [], "", false;
    var index := 0;
    while index < |text|
      invariant 0 <= index <= |text|
      invariant Read(START, text) == Read(Scan(rows, row, field, quoted), text[index..])
    {
      ReadAt(Scan(rows, row, field, quoted), text, index);
      var c := text[index];
      if quoted {
        if c != QUOTE {
          field := field + [c];
        } else if index + 1 < |text| && text[index + 1] == QUOTE {
          field := field + [QUOTE];
          index := index + 1;
        } else {
          quoted := false;
        }
      } else if c == QUOTE {
        quoted := true;
      } else if c == COMMA {
        row, field := row + [field], "";
      } else if c == LF || c == CR {
        if c == CR && index + 1 < |text| && text[index + 1] == LF {
          index := index + 1;
        }
        rows, row, field := rows + [row + [field]], [], "";
      } else {
        field := field + [c];
      }
      index := index + 1;
    }
    if field != "" || row != [] {
      rows := rows + [row + [field]];
    }
  }

  // ----- writing -----

  function Escaped(f: Field): string
    decreases |f|
  {
    if f == "" then "" else (if f[0] == QUOTE then [QUOTE, QUOTE] else [f[0]]) + Escaped(f[1..])
  }

  /** A field to be written, in quotes or plain. */
  datatype Cell = Quoted(text: Field) | Plain(text: Field)

  /** What a plain field may not contain. */
  predicate IsSpecial(c: char) {
    c == ',' || c == '\"' || c == '\n' || c == '\r'
  }

  predicate Writable(cell: Cell) {
    cell.Plain? ==> forall i | 0 <= i < |cell.text| :: !IsSpecial(cell.text[i])
  }

  function Written(cell: Cell): string {
    if cell.Quoted? then [QUOTE] + Escaped(cell.text) + [QUOTE] else cell.text
  }

  type Cells = seq<Cell>

  predicate RowWritable(row: Cells) {
    row != [] && forall i | 0 <= i < |row| :: Writable(row[i])
  }

  function Texts(row: Cells): Row {
    seq(|row|, (i: int) requires 0 <= i < |row| => row[i].text)
  }

  function AllTexts(rows: seq<Cells>): seq<Row> {
    seq(|rows|, (i: int) requires 0 <= i < |rows| => Texts(rows[i]))
  }

  function PrintRow(row: Cells): string
    requires row != []
    decreases |row|
  {
    if |row| == 1 then Written(row[0]) else Written(row[0]) + [COMMA] + PrintRow(row[1..])
  }

  datatype RowEnd = Lf | CrLf | Cr

  function End(e: RowEnd): string {
    match e case Lf => [LF] case CrLf => [CR, LF] case Cr => [CR]
  }

  predicate Printable(rows: seq<Cells>, ends: seq<RowEnd>) {
    |ends| == |rows| && forall i | 0 <= i < |rows| :: RowWritable(rows[i])
  }

  /** Rows, each followed by a row end of its own kind. */
  function Print(rows: seq<Cells>, ends: seq<RowEnd>): string
    requires Printable(rows, ends)
    decreases |rows|
  {
    if rows == [] then "" else PrintRow(rows[0]) + End(ends[0]) + Print(rows[1..], ends[1..])
  }

  /** A row of one empty plain field is written as nothing: its LF completes a CR before it. */
  predicate Completes(row: Cells, e: RowEnd) {
    row == [Plain("")] && e.Lf?
  }

  ghost predicate Merges(rows: seq<Cells>, ends: seq<RowEnd>)
    requires |ends| == |rows|
  {
    exists i | 0 <= i < |rows| - 1 :: ends[i].Cr? && Completes(rows[i + 1], ends[i + 1])
  }

  predicate StartsWith(text: string, c: char) {
    text != "" && text[0] == c
  }

  // ----- reading a field -----

  lemma {:induction false} ReadCons(s: Scan, c: char, rest: string)
    requires if s.quoted then c != QUOTE else !IsSpecial(c)
    ensures Read(s, [c] + rest) == Read(s.(field := s.field + [c]), rest)
  {
    assert ([c] + rest)[1..] == rest;
  }

  lemma {:induction false} ReadDoubledQuote(s: Scan, rest: string)
    requires s.quoted
    ensures Read(s, [QUOTE, QUOTE] + rest) == Read(s.(field := s.field + [QUOTE]), rest)
  {
    assert ([QUOTE, QUOTE] + rest)[2..] == rest;
  }

  lemma {:induction false} ReadClosingQuote(s: Scan, rest: string)
    requires s.quoted && !StartsWith(rest, QUOTE)
    ensures Read(s, [QUOTE] + rest) == Read(s.(quoted := false), rest)
  {
    var text := [QUOTE] + rest;
    assert text[1..] == rest;
    assert |text| > 1 ==> text[1] == rest[0];
  }

  lemma {:induction false} EscapedShape(f: Field, rest: string)
    requires f != ""
    ensures Escaped(f) + rest == (if f[0] == QUOTE then [QUOTE, QUOTE] else [f[0]]) + (Escaped(f[1..]) + rest)
  {
  }

  lemma {:induction false} ReadEscaped(s: Scan, f: Field, rest: string)
    requires s.quoted && !StartsWith(rest, QUOTE)
    ensures Read(s, Escaped(f) + ([QUOTE] + rest)) == Read(s.(field := s.field + f, quoted := false), rest)
    decreases |f|
  {
    if f == "" {
      assert Escaped(f) + ([QUOTE] + rest) == [QUOTE] + rest;
      assert s.field + f == s.field;
      ReadClosingQuote(s, rest);
    } else {
      ReadEscapedFirst(s, f, [QUOTE] + rest);
      ReadEscaped(s.(field := s.field + [f[0]]), f[1..], rest);
      assert s.field + [f[0]] + f[1..] == s.field + f;
    }
  }

  lemma {:induction false} ReadEscapedFirst(s: Scan, f: Field, rest: string)
    requires s.quoted && f != ""
    ensures Read(s, Escaped(f) + rest) == Read(s.(field := s.field + [f[0]]), Escaped(f[1..]) + rest)
  {
    EscapedShape(f, rest);
    if f[0] == QUOTE {
      ReadDoubledQuote(s, Escaped(f[1..]) + rest);
    } else {
      ReadCons(s, f[0], Escaped(f[1..]) + rest);
    }
  }

  /** A quoted field is read back whatever it contains: commas, quotes and row ends included. */
  lemma {:induction false} ReadQuoted(s: Scan, f: Field, rest: string)
    requires !s.quoted && s.field == "" && !StartsWith(rest, QUOTE)
    ensures Read(s, [QUOTE] + Escaped(f) + [QUOTE] + rest) == Read(s.(field := f), rest)
  {
    var text := [QUOTE] + Escaped(f) + [QUOTE] + rest;
    assert text[1..] == Escaped(f) + ([QUOTE] + rest);
    ReadEscaped(s.(quoted := true), f, rest);
    assert s.field + f == f;
  }

  lemma {:induction false} ReadPlain(s: Scan, f: Field, rest: string)
    requires !s.quoted && Writable(Plain(f))
    ensures Read(s, f + rest) == Read(s.(field := s.field + f), rest)
    decreases |f|
  {
    if f == "" {
      assert f + rest == rest && s.field + f == s.field;
    } else {
      assert f + rest == [f[0]] + (f[1..] + rest);
      ReadCons(s, f[0], f[1..] + rest);
      ReadPlain(s.(field := s.field + [f[0]]), f[1..], rest);
      assert s.field + [f[0]] + f[1..] == s.field + f;
    }
  }

  lemma {:induction false} ReadWritten(s: Scan, cell: Cell, rest: string)
    requires !s.quoted && s.field == "" && Writable(cell) && !StartsWith(rest, QUOTE)
    ensures Read(s, Written(cell) + rest) == Read(s.(field := cell.text), rest)
  {
    if cell.Quoted? {
      ReadQuoted(s, cell.text, rest);
    } else {
      ReadPlain(s, cell.text, rest);
      assert s.field + cell.text == cell.text;
    }
  }

  // ----- reading a row -----

  lemma {:induction false} ReadComma(s: Scan, rest: string)
    requires !s.quoted
    ensures Read(s, [COMMA] + rest) == Read(FieldEnded(s), rest)
  {
    assert ([COMMA] + rest)[1..] == rest;
  }

  lemma {:induction false} RowShape(row: Cells, rest: string)
    requires |row| > 1
    ensures PrintRow(row) + rest == Written(row[0]) + ([COMMA] + (PrintRow(row[1..]) + rest))
  {
  }

  lemma {:induction false} ReadFirstField(s: Scan, row: Cells, rest: string)
    requires |row| > 1 && Writable(row[0]) && !s.quoted && s.field == ""
    ensures Read(s, PrintRow(row) + rest) == Read(s.(row := s.row + [row[0].text]), PrintRow(row[1..]) + rest)
  {
    var more := PrintRow(row[1..]) + rest;
    RowShape(row, rest);
    ReadWritten(s, row[0], [COMMA] + more);
    ReadComma(s.(field := row[0].text), more);
  }

  lemma {:induction false} ReadRow(s: Scan, row: Cells, rest: string)
    requires RowWritable(row) && !s.quoted && s.field == "" && !StartsWith(rest, QUOTE)
    ensures Read(s, PrintRow(row) + rest) ==
      Read(s.(row := s.row + Texts(row)[..|row| - 1], field := row[|row| - 1].text), rest)
    decreases |row|
  {
    if |row| == 1 {
      ReadWritten(s, row[0], rest);
      assert s.row + Texts(row)[..0] == s.row;
    } else {
      ReadFirstField(s, row, rest);
      assert RowWritable(row[1..]);
      ReadRow(s.(row := s.row + [row[0].text]), row[1..], rest);
      FrontTexts(s.row, row);
    }
  }

  lemma {:induction false} FrontTexts(before: Row, row: Cells)
    requires |row| > 1
    ensures before + [row[0].text] + Texts(row[1..])[..|row| - 2] == before + Texts(row)[..|row| - 1]
  {
    assert Texts(row) == [row[0].text] + Texts(row[1..]);
  }

  lemma {:induction false} ReadEnd(s: Scan, e: RowEnd, rest: string)
    requires !s.quoted && (e.Cr? ==> !StartsWith(rest, LF))
    ensures Read(s, End(e) + rest) == Read(RowEnded(s), rest)
  {
    var text := End(e) + rest;
    assert text[|End(e)|..] == rest;
    assert |text| > 1 && e.Cr? ==> text[1] == rest[0];
  }

  predicate AtRowStart(s: Scan) {
    !s.quoted && s.field == "" && s.row == []
  }

  lemma {:induction false} ReadEndedRow(s: Scan, row: Cells, e: RowEnd, rest: string)
    requires RowWritable(row) && AtRowStart(s) && (e.Cr? ==> !StartsWith(rest, LF))
    ensures Read(s, PrintRow(row) + (End(e) + rest)) == Read(s.(rows := s.rows + [Texts(row)]), rest)
  {
    ReadRow(s, row, End(e) + rest);
    var inRow := s.(row := s.row + Texts(row)[..|row| - 1], field := row[|row| - 1].text);
    ReadEnd(inRow, e, rest);
    assert inRow.row + [inRow.field] == Texts(row);
  }

  // ----- reading rows -----

  /** The rows that are read: all but those whose end completes the one before. */
  function Unmerged(rows: seq<Cells>, ends: seq<RowEnd>, afterCr: bool): seq<Cells>
    requires |ends| == |rows|
    decreases |rows|
  {
    if rows == [] then []
    else
      (if afterCr && Completes(rows[0], ends[0]) then [] else [rows[0]])
      + Unmerged(rows[1..], ends[1..], ends[0].Cr?)
  }

  lemma {:induction false} RowStart(row: Cells, e: RowEnd, rest: string)
    requires RowWritable(row)
    ensures StartsWith(PrintRow(row) + (End(e) + rest), LF) <==> Completes(row, e)
    ensures Completes(row, e) ==> PrintRow(row) + (End(e) + rest) == [LF] + rest
  {
    var first := row[0];
    assert Writable(first);
    if first == Plain("") {
      assert |row| > 1 ==> PrintRow(row)[0] == COMMA;
    } else {
      assert Written(first) != "" && Written(first)[0] != LF;
      assert PrintRow(row)[0] == Written(first)[0];
    }
  }

  lemma {:induction false} PrintShape(rows: seq<Cells>, ends: seq<RowEnd>, rest: string)
    requires Printable(rows, ends) && rows != []
    ensures Printable(rows[1..], ends[1..])
    ensures Print(rows, ends) + rest == PrintRow(rows[0]) + (End(ends[0]) + (Print(rows[1..], ends[1..]) + rest))
  {
  }

  lemma {:induction false} PrintStart(rows: seq<Cells>, ends: seq<RowEnd>, rest: string)
    requires Printable(rows, ends) && !StartsWith(rest, LF)
    ensures StartsWith(Print(rows, ends) + rest, LF) <==> rows != [] && Completes(rows[0], ends[0])
    ensures rows != [] && Completes(rows[0], ends[0]) ==>
      Print(rows, ends) + rest == [LF] + (Print(rows[1..], ends[1..]) + rest)
  {
    if rows == [] {
      assert Print(rows, ends) + rest == rest;
    } else {
      PrintShape(rows, ends, rest);
      RowStart(rows[0], ends[0], Print(rows[1..], ends[1..]) + rest);
    }
  }

  lemma {:induction false} AllTextsCons(row: Cells, rows: seq<Cells>)
    ensures AllTexts([row] + rows) == [Texts(row)] + AllTexts(rows)
  {
  }

  lemma {:induction false} ReadPrinted(s: Scan, rows: seq<Cells>, ends: seq<RowEnd>, rest: string)
    requires Printable(rows, ends) && AtRowStart(s) && !StartsWith(rest, LF)
    ensures Read(s, Print(rows, ends) + rest) ==
      Read(s.(rows := s.rows + AllTexts(Unmerged(rows, ends, false))), rest)
    decreases |rows|
  {
    if rows == [] {
      assert Print(rows, ends) + rest == rest;
      assert s.rows + AllTexts([]) == s.rows;
    } else if ends[0].Cr? && |rows| > 1 && Completes(rows[1], ends[1]) {
      ReadMerged(s, rows, ends, rest);
      ReadPrinted(s.(rows := s.rows + [Texts(rows[0])]), rows[2..], ends[2..], rest);
      MergedRows(s.rows, rows, ends);
    } else {
      ReadFirstRow(s, rows, ends, rest);
      ReadPrinted(s.(rows := s.rows + [Texts(rows[0])]), rows[1..], ends[1..], rest);
      UnmergedRows(s.rows, rows, ends);
    }
  }

  lemma {:induction false} PrintTwo(rows: seq<Cells>, ends: seq<RowEnd>, rest: string)
    requires Printable(rows, ends) && |rows| > 1
    ensures Printable(rows[2..], ends[2..])
    ensures Print(rows, ends) + rest == PrintRow(rows[0]) + (End(ends[0]) +
      (PrintRow(rows[1]) + (End(ends[1]) + (Print(rows[2..], ends[2..]) + rest))))
  {
    var later, laterEnds := rows[1..], ends[1..];
    PrintShape(rows, ends, rest);
    PrintShape(later, laterEnds, rest);
    assert later[1..] == rows[2..] && laterEnds[1..] == ends[2..];
  }

  /** A CR and the LF of a row written as nothing are one row end. */
  lemma {:induction false} ReadMergedEnds(s: Scan, row: Cells, second: Cells, e: RowEnd, more: string)
    requires RowWritable(row) && AtRowStart(s) && Completes(second, e)
    ensures Read(s, PrintRow(row) + (End(Cr) + (PrintRow(second) + (End(e) + more)))) ==
      Read(s.(rows := s.rows + [Texts(row)]), more)
  {
    RowStart(second, e, more);
    assert End(Cr) + ([LF] + more) == End(CrLf) + more;
    ReadEndedRow(s, row, CrLf, more);
  }

  lemma {:induction false} ReadMerged(s: Scan, rows: seq<Cells>, ends: seq<RowEnd>, rest: string)
    requires Printable(rows, ends) && AtRowStart(s)
    requires |rows| > 1 && ends[0].Cr? && Completes(rows[1], ends[1])
    ensures Printable(rows[2..], ends[2..])
    ensures Read(s, Print(rows, ends) + rest) ==
      Read(s.(rows := s.rows + [Texts(rows[0])]), Print(rows[2..], ends[2..]) + rest)
  {
    PrintTwo(rows, ends, rest);
    ReadMergedEnds(s, rows[0], rows[1], ends[1], Print(rows[2..], ends[2..]) + rest);
  }

  lemma {:induction false} ReadFirstRow(s: Scan, rows: seq<Cells>, ends: seq<RowEnd>, rest: string)
    requires Printable(rows, ends) && AtRowStart(s) && !StartsWith(rest, LF)
    requires rows != [] && !(ends[0].Cr? && |rows| > 1 && Completes(rows[1], ends[1]))
    ensures Printable(rows[1..], ends[1..])
    ensures Read(s, Print(rows, ends) + rest) ==
      Read(s.(rows := s.rows + [Texts(rows[0])]), Print(rows[1..], ends[1..]) + rest)
  {
    PrintShape(rows, ends, rest);
    PrintStart(rows[1..], ends[1..], rest);
    ReadEndedRow(s, rows[0], ends[0], Print(rows[1..], ends[1..]) + rest);
  }

  lemma {:induction false} MergedRows(before: seq<Row>, rows: seq<Cells>, ends: seq<RowEnd>)
    requires |ends| == |rows| > 1 && ends[0].Cr? && Completes(rows[1], ends[1])
    ensures before + [Texts(rows[0])] + AllTexts(Unmerged(rows[2..], ends[2..], false)) ==
      before + AllTexts(Unmerged(rows, ends, false))
  {
    assert rows[1..][1..] == rows[2..] && ends[1..][1..] == ends[2..];
    assert Unmerged(rows[1..], ends[1..], true) == [] + Unmerged(rows[2..], ends[2..], false);
    AllTextsCons(rows[0], Unmerged(rows[2..], ends[2..], false));
  }

  lemma {:induction false} UnmergedRows(before: seq<Row>, rows: seq<Cells>, ends: seq<RowEnd>)
    requires |ends| == |rows| > 0 && !(ends[0].Cr? && |rows| > 1 && Completes(rows[1], ends[1]))
    ensures before + [Texts(rows[0])] + AllTexts(Unmerged(rows[1..], ends[1..], false)) ==
      before + AllTexts(Unmerged(rows, ends, false))
  {
    assert Unmerged(rows[1..], ends[1..], ends[0].Cr?) == Unmerged(rows[1..], ends[1..], false);
    AllTextsCons(rows[0], Unmerged(rows[1..], ends[1..], false));
  }

  /** Rows go missing exactly when some row's end completes the one before. */
  lemma {:induction false} UnmergedAll(rows: seq<Cells>, ends: seq<RowEnd>, afterCr: bool)
    requires |ends| == |rows|
    ensures var merges := (afterCr && rows != [] && Completes(rows[0], ends[0])) || Merges(rows, ends);
      if merges then |Unmerged(rows, ends, afterCr)| < |rows| else Unmerged(rows, ends, afterCr) == rows
    decreases |rows|
  {
    if rows != [] {
      UnmergedAll(rows[1..], ends[1..], ends[0].Cr?);
      MergesNext(rows, ends);
      assert rows == [rows[0]] + rows[1..];
    }
  }

  lemma {:induction false} MergesNext(rows: seq<Cells>, ends: seq<RowEnd>)
    requires |ends| == |rows| > 0
    ensures Merges(rows, ends) <==>
      (ends[0].Cr? && |rows| > 1 && Completes(rows[1], ends[1])) || Merges(rows[1..], ends[1..])
  {
    if Merges(rows, ends) {
      var i :| 0 <= i < |rows| - 1 && ends[i].Cr? && Completes(rows[i + 1], ends[i + 1]);
      if i > 0 {
        assert ends[1..][i - 1].Cr? && Completes(rows[1..][i - 1 + 1], ends[1..][i - 1 + 1]);
      }
    }
    if Merges(rows[1..], ends[1..]) {
      var i :| 0 <= i < |rows[1..]| - 1 && ends[1..][i].Cr? && Completes(rows[1..][i + 1], ends[1..][i + 1]);
      assert ends[i + 1].Cr? && Completes(rows[i + 1 + 1], ends[i + 1 + 1]);
    }
  }

  lemma {:induction false} AllTextsEqual(a: seq<Cells>, rows: seq<Cells>)
    requires a == rows || |a| < |rows|
    ensures AllTexts(a) == AllTexts(rows) <==> a == rows
  {
    assert |AllTexts(a)| == |a| && |AllTexts(rows)| == |rows|;
  }

  /** Writing a table and reading it back gives the same rows, for any contents, with fields in quotes or
      plain and rows ended by LF, CR LF or CR in any mixture, exactly unless a row of one empty plain field,
      ended by LF, follows a row ended by CR: the two ends then read as one. */
  lemma {:induction false} RoundTrip(rows: seq<Cells>, ends: seq<RowEnd>)
    requires Printable(rows, ends)
    ensures Rows(Print(rows, ends)) == AllTexts(rows) <==> !Merges(rows, ends)
  {
    ReadPrinted(START, rows, ends, "");
    assert Print(rows, ends) + "" == Print(rows, ends);
    var left := Unmerged(rows, ends, false);
    assert [] + AllTexts(left) == AllTexts(left);
    UnmergedAll(rows, ends, false);
    AllTextsEqual(left, rows);
  }

  lemma {:induction false} ReadLast(rows: seq<Cells>, ends: seq<RowEnd>, last: Cells)
    requires Printable(rows, ends) && RowWritable(last)
    ensures Rows(Print(rows, ends) + PrintRow(last)) ==
      AllTexts(Unmerged(rows, ends, false)) + (if Texts(last) == [""] then [] else [Texts(last)])
  {
    var text := PrintRow(last);
    var n := |last| - 1;
    RowStart(last, CrLf, "");
    assert StartsWith(text, LF) ==> StartsWith(text + (End(CrLf) + ""), LF);
    var left := AllTexts(Unmerged(rows, ends, false));
    ReadPrinted(START, rows, ends, text);
    assert [] + left == left;
    assert text + "" == text;
    ReadRow(START.(rows := left), last, "");
    assert [] + Texts(last)[..n] == Texts(last)[..n] && Texts(last)[..n] + [Texts(last)[n]] == Texts(last);
    assert Texts(last) == [""] <==> Texts(last)[..n] == [] && Texts(last)[n] == "";
  }

  /** Without the last row's end the same holds, except that a last row of one empty field, quoted or plain,
      is not read at all. */
  lemma {:induction false} RoundTripWithoutLastEnd(rows: seq<Cells>, ends: seq<RowEnd>, last: Cells)
    requires Printable(rows, ends) && RowWritable(last)
    ensures Rows(Print(rows, ends) + PrintRow(last)) == AllTexts(rows) + [Texts(last)] <==>
      !Merges(rows, ends) && Texts(last) != [""]
  {
    var left := Unmerged(rows, ends, false);
    ReadLast(rows, ends, last);
    UnmergedAll(rows, ends, false);
    AllTextsEqual(left, rows);
    assert |AllTexts(left)| == |left| && |AllTexts(rows)| == |rows|;
  }
}
