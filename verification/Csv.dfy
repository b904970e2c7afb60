/**
 CSV export (lib/csv.ts) against a reference reader: quoting as in RFC 4180,
 section 2, with the line feed as record separator and the carriage return as an
 ordinary character.
 */
module Csv {

  /** `null` and `undefined` print as nothing; every other value as its text. */
  datatype Cell = Nullish | Shown(text: string)

  datatype Property = Property(name: string, cell: Cell)

  /** An object with its properties in insertion order. */
  type Record = seq<Property>

  function Keys(r: Record): (k: seq<string>)
    ensures |k| == |r|
  {
    seq(|r|, i requires 0 <= i < |r| => r[i].name)
  }

  /** The text of one property; an absent one is `undefined`. */
  function Shows(r: Record, name: string): string
  {
    if r == [] then ""
    else if r[0].name == name then (if r[0].cell.Nullish? then "" else r[0].cell.text)
    else Shows(r[1..], name)
  }

  function RowTexts(r: Record, headers: seq<string>): (t: seq<string>)
    ensures |t| == |headers|
  {
    seq(|headers|, i requires 0 <= i < |headers| => Shows(r, headers[i]))
  }

  /** The header line and the cell texts that the export is meant to carry. */
  function Table(rows: seq<Record>): (t: seq<seq<string>>)
    requires rows != []
    ensures |t| == |rows| + 1
  {
    [Keys(rows[0])] + seq(|rows|, i requires 0 <= i < |rows| => RowTexts(rows[i], Keys(rows[0])))
  }

  // ---------------------------------------------------------------- printing

  predicate NeedsQuotes(text: string)
  {
    '"' in text || ',' in text || '\n' in text
  }

  function Doubled(text: string): string
  {
    if text == "" then "" else (if text[0] == '"' then "\"\"" else [text[0]]) + Doubled(text[1..])
  }

  function Escape(text: string): string
  {
    if NeedsQuotes(text) then "\"" + Doubled(text) + "\"" else text
  }

  function Line(cells: seq<string>): string
  {
    if cells == [] then ""
    else if |cells| == 1 then Escape(cells[0])
    else Escape(cells[0]) + "," + Line(cells[1..])
  }

  function JoinLines(lines: seq<string>): string
  {
    if lines == [] then ""
    else if |lines| == 1 then lines[0]
    else lines[0] + "\n" + JoinLines(lines[1..])
  }

  function Lines(table: seq<seq<string>>): (l: seq<string>)
    ensures |l| == |table|
  {
    seq(|table|, i requires 0 <= i < |table| => Line(table[i]))
  }

  /** The export as the loop builds it. */
  method ToCsv(rows: seq<Record>) returns (csv: string)
    ensures rows == [] ==> csv == ""
    ensures rows != [] ==> csv == JoinLines(Lines(Table(rows)))
  {
    if |rows| == 0 {
      return "";
    }
    var headers := Keys(rows[0]);
    ghost var table := Table(rows);
    var lines := [Line(headers)];
    var i := 0;
    while i < |rows|
      invariant 0 <= i <= |rows|
      invariant lines == Lines(table[..i + 1])
    {
      lines := lines + [Line(RowTexts(rows[i], headers))];
      assert table[..i + 2] == table[..i + 1] + [RowTexts(rows[i], headers)];
      i := i + 1;
    }
    assert table[..i + 1] == table;
    csv := JoinLines(lines);
  }

  /** A cell is quoted exactly when it holds a quote, a comma or a line feed; otherwise it stands as it is. */
  lemma QuotedExactly(text: string)
    ensures '"' !in text && ',' !in text && '\n' !in text ==> Escape(text) == text
    ensures '"' in text || ',' in text || '\n' in text ==>
              |Escape(text)| >= 2 && Escape(text)[0] == '"' && Escape(text)[|Escape(text)| - 1] == '"'
  {
  }

  /** Property `k` of the record is the first of its name. */
  ghost predicate IsFirstNamed(r: Record, k: nat, name: string)
  {
    && k < |r| && r[k].name == name
    && forall l :: 0 <= l < k ==> r[l].name != name
  }

  lemma {:induction false} ShowsExactly(r: Record, k: nat, name: string)
    ensures (forall l :: 0 <= l < |r| ==> r[l].name != name) ==> Shows(r, name) == ""
    ensures IsFirstNamed(r, k, name) ==> Shows(r, name) == if r[k].cell.Nullish? then "" else r[k].cell.text
    decreases |r|
  {
    if r != [] && r[0].name != name { ShowsExactly(r[1..], if k == 0 then 0 else k - 1, name); }
  }

  /** The header line names the first record's properties; under each stands the row's property of that name, or nothing. */
  lemma TableExactly(rows: seq<Record>, i: nat, j: nat, k: nat)
    requires i < |rows| && j < |rows[0]|
    ensures
      var table, name := Table(rows), rows[0][j].name;
      && |table| == |rows| + 1 && |table[0]| == |table[i + 1]| == |rows[0]| && table[0][j] == name
      && ((forall l :: 0 <= l < |rows[i]| ==> rows[i][l].name != name) ==> table[i + 1][j] == "")
      && (IsFirstNamed(rows[i], k, name) ==>
            table[i + 1][j] == if rows[i][k].cell.Nullish? then "" else rows[i][k].cell.text)
  {
    hide Shows;
    ShowsExactly(rows[i], k, rows[0][j].name);
  }

  // ----------------------------------------------------------------- reading

  datatype Mode = Start | Plain | Quoted | Closing | Bad

  datatype Reader = Reader(records: seq<seq<string>>, fields: seq<string>, cell: string, mode: Mode)

  const BEGIN := Reader([], [], "", Start)

  function EndField(p: Reader): Reader
  {
    Reader(p.records, p.fields + [p.cell], "", Start)
  }

  function EndRecord(p: Reader): Reader
  {
    Reader(p.records + [p.fields + [p.cell]], [], "", Start)
  }

  function Take(p: Reader, c: char): Reader
  {
    match p.mode
    case Start =>
      if c == '"' then p.(mode := Quoted)
      else if c == ',' then EndField(p)
      else if c == '\n' then EndRecord(p)
      else p.(cell := [c], mode := Plain)
    case Plain =>
      if c == ',' then EndField(p)
      else if c == '\n' then EndRecord(p)
      else if c == '"' then p.(mode := Bad)
      else p.(cell := p.cell + [c])
    case Quoted =>
      if c == '"' then p.(mode := Closing) else p.(cell := p.cell + [c])
    case Closing =>
      if c == '"' then p.(cell := p.cell + "\"", mode := Quoted)
      else if c == ',' then EndField(p)
      else if c == '\n' then EndRecord(p)
      else p.(mode := Bad)
    case Bad => p
  }

  function TakeAll(p: Reader, text: string): Reader
    decreases |text|
  {
    if text == "" then p else TakeAll(Take(p, text[0]), text[1..])
  }

  datatype Parsed = Unreadable | Parsed(table: seq<seq<string>>)

  /** The whole text; the last record has no separator after it. */
  function Parse(text: string): Parsed
  {
    var p := TakeAll(BEGIN, text);
    if p.mode in {Quoted, Bad} then Unreadable else Parsed(EndRecord(p).records)
  }

  // -------------------------------------------------------------- round trip

  lemma {:induction false} TakeAllAdds(p: Reader, a: string, b: string)
    ensures TakeAll(p, a + b) == TakeAll(TakeAll(p, a), b)
    decreases |a|
  {
    if a == "" {
      assert a + b == b;
    } else {
      assert (a + b)[1..] == a[1..] + b;
      TakeAllAdds(Take(p, a[0]), a[1..], b);
    }
  }

  lemma {:induction false} TakesDoubled(p: Reader, text: string)
    requires p.mode == Quoted
    ensures TakeAll(p, Doubled(text)) == p.(cell := p.cell + text)
    decreases |text|
  {
    if text == "" {
      assert p.cell + text == p.cell;
    } else {
      var head := if text[0] == '"' then "\"\"" else [text[0]];
      TakeAllAdds(p, head, Doubled(text[1..]));
      var next := p.(cell := p.cell + [text[0]]);
      TakesHead(p, text[0]);
      TakesDoubled(next, text[1..]);
      assert p.cell + text == (p.cell + [text[0]]) + text[1..];
    }
  }

  lemma TakesHead(p: Reader, c: char)
    requires p.mode == Quoted
    ensures TakeAll(p, if c == '"' then "\"\"" else [c]) == p.(cell := p.cell + [c])
  {
    if c == '"' {
      var q := Take(p, '"');
      assert "\"\""[1..] == "\"";
      assert TakeAll(q, "\"") == TakeAll(Take(q, '"'), "");
    } else {
      assert TakeAll(p, [c]) == TakeAll(Take(p, c), "");
    }
  }

  lemma {:induction false} TakesPlain(p: Reader, text: string)
    requires p.mode == Plain && !NeedsQuotes(text)
    ensures TakeAll(p, text) == p.(cell := p.cell + text)
    decreases |text|
  {
    if text == "" {
      assert p.cell + text == p.cell;
    } else {
      assert text[0] in text;
      assert !NeedsQuotes(text[1..]);
      TakesPlain(p.(cell := p.cell + [text[0]]), text[1..]);
      assert p.cell + text == (p.cell + [text[0]]) + text[1..];
    }
  }

  /** A field has been read and only a separator or the end may follow. */
  predicate FieldRead(p: Reader, q: Reader, text: string)
  {
    q.records == p.records && q.fields == p.fields && q.cell == text && q.mode in {Start, Plain, Closing}
  }

  /** A printed cell is read back as its text, whatever it contains. */
  lemma TakesField(p: Reader, text: string)
    requires p.mode == Start && p.cell == ""
    ensures FieldRead(p, TakeAll(p, Escape(text)), text)
  {
    if NeedsQuotes(text) {
      var q := p.(mode := Quoted);
      assert Escape(text) == "\"" + (Doubled(text) + "\"");
      assert TakeAll(p, "\"") == TakeAll(q, "");
      TakeAllAdds(p, "\"", Doubled(text) + "\"");
      TakeAllAdds(q, Doubled(text), "\"");
      TakesDoubled(q, text);
      assert "" + text == text;
      var r := q.(cell := text);
      assert TakeAll(r, "\"") == TakeAll(Take(r, '"'), "");
    } else if text != "" {
      assert text[0] in text;
      assert !NeedsQuotes(text[1..]);
      TakesPlain(p.(cell := [text[0]], mode := Plain), text[1..]);
      assert [text[0]] + text[1..] == text;
    }
  }

  lemma TakesSeparator(p: Reader, q: Reader, text: string)
    requires FieldRead(p, q, text)
    ensures TakeAll(q, ",") == Reader(p.records, p.fields + [text], "", Start)
    ensures TakeAll(q, "\n") == Reader(p.records + [p.fields + [text]], [], "", Start)
  {
    assert TakeAll(q, ",") == TakeAll(Take(q, ','), "");
    assert TakeAll(q, "\n") == TakeAll(Take(q, '\n'), "");
  }

  /** The first cell of a longer line, with its comma. */
  lemma LineStep(p: Reader, cells: seq<string>)
    requires p.mode == Start && p.cell == "" && |cells| > 1
    ensures TakeAll(p, Line(cells))
         == TakeAll(Reader(p.records, p.fields + [cells[0]], "", Start), Line(cells[1..]))
  {
    var head, rest := Escape(cells[0]), Line(cells[1..]);
    assert Line(cells) == head + "," + rest;
    hide Line;
    TakesField(p, cells[0]);
    hide Escape;
    hide TakeAll;
    TakesSeparator(p, TakeAll(p, head), cells[0]);
    TakesThree(p, head, ",", rest);
  }

  lemma TakesThree(p: Reader, a: string, b: string, c: string)
    ensures TakeAll(p, a + b + c) == TakeAll(TakeAll(TakeAll(p, a), b), c)
  {
    TakeAllAdds(p, a + b, c);
    TakeAllAdds(p, a, b);
  }

  /** Everything but the last cell has become a field, and the last cell has been read. */
  ghost predicate LineRead(p: Reader, q: Reader, cells: seq<string>)
    requires cells != []
  {
    && q.records == p.records && q.fields == p.fields + cells[..|cells| - 1]
    && q.cell == cells[|cells| - 1] && q.mode in {Start, Plain, Closing}
  }

  lemma LineReadShifts(p: Reader, q: Reader, cells: seq<string>)
    requires |cells| > 1 && LineRead(Reader(p.records, p.fields + [cells[0]], "", Start), q, cells[1..])
    ensures LineRead(p, q, cells)
  {
    assert p.fields + [cells[0]] + cells[1..][..|cells| - 2] == p.fields + cells[..|cells| - 1];
  }

  lemma {:induction false} TakesLine(p: Reader, cells: seq<string>)
    requires p.mode == Start && p.cell == "" && cells != []
    ensures LineRead(p, TakeAll(p, Line(cells)), cells)
    decreases |cells|
  {
    if |cells| == 1 {
      TakesField(p, cells[0]);
      assert p.fields + [] == p.fields;
    } else {
      hide TakeAll;
      hide Line;
      hide LineRead;
      LineStep(p, cells);
      var next := Reader(p.records, p.fields + [cells[0]], "", Start);
      TakesLine(next, cells[1..]);
      LineReadShifts(p, TakeAll(p, Line(cells)), cells);
    }
  }

  lemma LineEnds(p: Reader, q: Reader, cells: seq<string>)
    requires cells != [] && p.fields == [] && LineRead(p, q, cells)
    ensures q.mode !in {Quoted, Bad} && EndRecord(q) == Reader(p.records + [cells], [], "", Start)
    ensures TakeAll(q, "\n") == EndRecord(q)
  {
    assert [] + cells[..|cells| - 1] + [cells[|cells| - 1]] == cells;
    assert TakeAll(q, "\n") == TakeAll(Take(q, '\n'), "");
  }

  lemma {:induction false} TakesTable(p: Reader, table: seq<seq<string>>)
    requires p.mode == Start && p.cell == "" && p.fields == [] && table != []
    requires forall i :: 0 <= i < |table| ==> table[i] != []
    ensures var q := TakeAll(p, JoinLines(Lines(table)));
      q.mode !in {Quoted, Bad} && EndRecord(q).records == p.records + table
    decreases |table|
  {
    hide Line;
    hide LineRead;
    var lines := Lines(table);
    var row := table[0];
    TakesLine(p, row);
    var q := TakeAll(p, Line(row));
    LineEnds(p, q, row);
    hide TakeAll;
    hide Take;
    if |table| == 1 {
      assert table == [row];
    } else {
      var next := Reader(p.records + [row], [], "", Start);
      assert lines[1..] == Lines(table[1..]);
      assert JoinLines(lines) == Line(row) + "\n" + JoinLines(lines[1..]);
      TakesThree(p, Line(row), "\n", JoinLines(lines[1..]));
      TakesTable(next, table[1..]);
      assert p.records + table == next.records + table[1..];
    }
  }

  ghost predicate NoEmptyRecord(records: seq<seq<string>>)
  {
    forall i :: 0 <= i < |records| ==> records[i] != []
  }

  lemma {:induction false} RecordsHaveFields(p: Reader, text: string)
    requires NoEmptyRecord(p.records)
    ensures NoEmptyRecord(TakeAll(p, text).records)
    decreases |text|
  {
    if text != "" {
      assert NoEmptyRecord(Take(p, text[0]).records);
      RecordsHaveFields(Take(p, text[0]), text[1..]);
    }
  }

  /**
   For any rows, the printed text reads back as exactly the header and the cell
   texts, commas, quotes and line feeds included, precisely when there is a column.
   */
  lemma CsvRoundTrip(rows: seq<Record>)
    requires rows != []
    ensures Parse(JoinLines(Lines(Table(rows)))) == Parsed(Table(rows)) <==> rows[0] != []
  {
    var table := Table(rows);
    if rows[0] != [] {
      TakesTable(BEGIN, table);
      assert BEGIN.records + table == table;
    } else {
      assert table[0] == [];
      var text := JoinLines(Lines(table));
      RecordsHaveFields(BEGIN, text);
      var p := TakeAll(BEGIN, text);
      assert NoEmptyRecord(EndRecord(p).records);
      hide TakeAll;
      assert Parse(text).Parsed? ==> NoEmptyRecord(Parse(text).table);
    }
  }
}
