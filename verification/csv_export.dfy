/** The analytics page's CSV export, `toCSV`: a header of the first row's
    keys joined by commas, then one line per row holding, for each header
    key, `JSON.stringify(row[key] ?? "")`, all joined by newlines. Cells are
    JSON string literals, not RFC 4180 fields: a quote inside a value is
    written `\"`, not doubled. A reader for exactly this layout gives the
    round trip. */
module CsvExport {
  import opened Wrappers
  import Seqs
  import JsonString

  /** A property value of an exported record; an absent key is `undefined`. */
  datatype Value = Str(s: string) | Null

  /** One property of a record, in `Object.keys` order. */
  datatype Field = Field(key: string, value: Value)

  type Row = seq<Field>

  function RowKeys(r: Row): (ks: seq<string>)
    ensures |ks| == |r| && forall k :: 0 <= k < |r| ==> ks[k] == r[k].key
  {
    seq(|r|, k requires 0 <= k < |r| => r[k].key)
  }

  /** Position `k` holds the first field named `key`. */
  predicate FirstField(r: Row, key: string, k: int) {
    0 <= k < |r| && r[k].key == key && forall j :: 0 <= j < k ==> r[j].key != key
  }

  /** `r[key]`: the value of the first field named `key`, or None when the
      row has no such field. */
  function Lookup(r: Row, key: string): (v: Option<Value>)
    ensures v.None? <==> key !in RowKeys(r)
    ensures v.Some? ==> exists k :: FirstField(r, key, k) && r[k].value == v.value
    decreases |r|
  {
    if |r| == 0 then None
    else if r[0].key == key then
      assert FirstField(r, key, 0);
      Some(r[0].value)
    else
      assert RowKeys(r) == [r[0].key] + RowKeys(r[1..]);
      var v := Lookup(r[1..], key);
      if v.Some? then
        var k :| FirstField(r[1..], key, k) && r[1..][k].value == v.value;
        assert FirstField(r, key, k + 1);
        v
      else v
  }

  /** `r[key] ?? ""`: the string value, or "" when the property is missing or null. */
  function CellText(r: Row, key: string): (s: string)
    ensures key !in RowKeys(r) ==> s == ""
    ensures Lookup(r, key) == Some(Null) ==> s == ""
    ensures forall v :: Lookup(r, key) == Some(Str(v)) ==> s == v
  {
    match Lookup(r, key)
    case Some(Str(s)) => s
    case _ => ""
  }

  /** The header keys: `Object.keys(rows[0] || {})`. */
  function Columns(rows: seq<Row>): seq<string> {
    if |rows| == 0 then [] else RowKeys(rows[0])
  }

  /** The cells of one data line, one per header key. */
  function Cells(r: Row, keys: seq<string>): (cs: seq<string>)
    ensures |cs| == |keys|
  {
    seq(|keys|, i requires 0 <= i < |keys| => JsonString.Quote(CellText(r, keys[i])))
  }

  /** The decoded contents of a data line: each key's text. */
  function Texts(r: Row, keys: seq<string>): (ts: seq<string>)
    ensures |ts| == |keys|
  {
    seq(|keys|, i requires 0 <= i < |keys| => CellText(r, keys[i]))
  }

  function DataLine(r: Row, keys: seq<string>): string {
    Seqs.Join(Cells(r, keys), ',')
  }

  function DataLines(rows: seq<Row>, keys: seq<string>): (ls: seq<string>)
    ensures |ls| == |rows| && forall i :: 0 <= i < |rows| ==> ls[i] == DataLine(rows[i], keys)
    decreases |rows|
  {
    if |rows| == 0 then [] else [DataLine(rows[0], keys)] + DataLines(rows[1..], keys)
  }

  /** The header line followed by one data line per row. */
  function Lines(rows: seq<Row>): (ls: seq<string>)
    ensures |ls| == |rows| + 1
  {
    [Seqs.Join(Columns(rows), ',')] + DataLines(rows, Columns(rows))
  }

  /** What each data line should decode to: the texts of the header keys. */
  function AllTexts(rows: seq<Row>, keys: seq<string>): (ts: seq<seq<string>>)
    ensures |ts| == |rows| && forall i :: 0 <= i < |rows| ==> ts[i] == Texts(rows[i], keys)
    decreases |rows|
  {
    if |rows| == 0 then [] else [Texts(rows[0], keys)] + AllTexts(rows[1..], keys)
  }

  /** `toCSV(rows)` up to the download: the lines joined by newlines. */
  function ToCsv(rows: seq<Row>): (r: string)
    ensures rows == [] ==> r == ""
    ensures rows != [] ==> Seqs.Join(Columns(rows), ',') + "\n" <= r
  {
    var ls := Lines(rows);
    if |rows| > 0 then
      assert Seqs.Join(ls, '\n') == ls[0] + "\n" + Seqs.Join(ls[1..], '\n');
      Seqs.Join(ls, '\n')
    else Seqs.Join(ls, '\n')
  }

  /** Nothing to export gives the empty text. */
  lemma EmptyExport()
    ensures ToCsv([]) == ""
  {
  }

  /** Keys that only later rows have are not exported. */
  lemma LaterKeysNotExported(rows: seq<Row>, key: string)
    requires |rows| > 0 && key !in RowKeys(rows[0])
    ensures key !in Columns(rows)
  {
  }

  // ---------------------------------------------------------------------
  // Reading an export back

  /** Reads a data line: literals separated by single commas, nothing else. */
  function ParseCells(t: string): Option<seq<string>>
    decreases |t|
  {
    match JsonString.ReadLiteral(t)
    case None => None
    case Some((v, rest)) =>
      if rest == "" then Some([v])
      else if rest[0] != ',' then None
      else
        match ParseCells(rest[1..])
        case None => None
        case Some(vs) => Some([v] + vs)
  }

  function ParseRows(lines: seq<string>): Option<seq<seq<string>>>
    decreases |lines|
  {
    if |lines| == 0 then Some([])
    else
      match (ParseCells(lines[0]), ParseRows(lines[1..]))
      case (Some(v), Some(vs)) => Some([v] + vs)
      case _ => None
  }

  /** Reads an export: the header names and the decoded cells of each line. */
  function ParseCsv(text: string): Option<(seq<string>, seq<seq<string>>)> {
    var lines := Seqs.Split(text, '\n');
    match ParseRows(lines[1..])
    case None => None
    case Some(rows) => Some((Seqs.Split(lines[0], ','), rows))
  }

  function Quoted(vs: seq<string>): (qs: seq<string>)
    ensures |qs| == |vs|
  {
    seq(|vs|, i requires 0 <= i < |vs| => JsonString.Quote(vs[i]))
  }

  /** A line of written literals reads back as the values, commas inside
      values included. */
  lemma {:induction false} ParseCellsRoundTrip(vs: seq<string>)
    requires |vs| >= 1
    ensures ParseCells(Seqs.Join(Quoted(vs), ',')) == Some(vs)
    decreases |vs|
  {
    var qs := Quoted(vs);
    if |vs| == 1 {
      assert Seqs.Join(qs, ',') == JsonString.Quote(vs[0]);
      ParseLastCell(vs[0]);
      assert [vs[0]] == vs;
    } else {
      var tail := Seqs.Join(Quoted(vs[1..]), ',');
      assert Seqs.Join(qs, ',') == JsonString.Quote(vs[0]) + ([','] + tail) by {
        assert qs[1..] == Quoted(vs[1..]);
      }
      ParseCellsRoundTrip(vs[1..]);
      ParseNextCell(vs[0], tail, vs[1..]);
      assert [vs[0]] + vs[1..] == vs;
    }
  }

  lemma ParseLastCell(v: string)
    ensures ParseCells(JsonString.Quote(v)) == Some([v])
  {
    var q := JsonString.Quote(v);
    assert q + "" == q;
    JsonString.QuoteRoundTrip(v, "");
  }

  lemma ParseNextCell(v: string, tail: string, vs: seq<string>)
    requires ParseCells(tail) == Some(vs)
    ensures ParseCells(JsonString.Quote(v) + ([','] + tail)) == Some([v] + vs)
  {
    JsonString.QuoteRoundTrip(v, [','] + tail);
    assert ([','] + tail)[1..] == tail;
  }

  /** Data lines contain no raw line break. */
  lemma DataLineSingleLine(r: Row, keys: seq<string>)
    ensures '\n' !in DataLine(r, keys)
  {
    var cs := Cells(r, keys);
    forall k | 0 <= k < |cs|
      ensures '\n' !in cs[k]
    {
      var q := cs[k];
      assert forall j :: 0 <= j < |q| ==> q[j] != '\n';
    }
    Seqs.JoinChars(cs, ',', '\n');
  }

  /** For a non-empty export, the text splits at its line breaks into the
      header and exactly one line per row, as long as no header key itself
      contains a line break. */
  lemma ExportLines(rows: seq<Row>)
    requires |rows| > 0
    requires forall k :: 0 <= k < |Columns(rows)| ==> '\n' !in Columns(rows)[k]
    ensures Seqs.Split(ToCsv(rows), '\n') == Lines(rows)
    ensures |Seqs.Split(ToCsv(rows), '\n')| == |rows| + 1
  {
    var ls := Lines(rows);
    var keys := Columns(rows);
    forall k | 0 <= k < |ls|
      ensures '\n' !in ls[k]
    {
      if k == 0 {
        Seqs.JoinChars(keys, ',', '\n');
      } else {
        DataLineSingleLine(rows[k - 1], keys);
      }
    }
    Seqs.SplitJoin(ls, '\n');
  }

  /** Reading a non-empty export back gives the first row's keys as the
      header and, for every row in order, the text of each header key
      (missing and null values as ""), as long as there is at least one
      header key and none contains a comma or a line break. */
  lemma ExportRoundTrip(rows: seq<Row>)
    requires |rows| > 0 && |Columns(rows)| > 0
    requires forall k :: 0 <= k < |Columns(rows)| ==> '\n' !in Columns(rows)[k] && ',' !in Columns(rows)[k]
    ensures ParseCsv(ToCsv(rows)) == Some((Columns(rows), AllTexts(rows, Columns(rows))))
  {
    var keys := Columns(rows);
    ExportLines(rows);
    Seqs.SplitJoin(keys, ',');
    ParseRowsOfLines(rows, keys);
    assert Lines(rows)[1..] == DataLines(rows, keys);
  }

  lemma {:induction false} ParseRowsOfLines(rows: seq<Row>, keys: seq<string>)
    requires |keys| > 0
    ensures ParseRows(DataLines(rows, keys)) == Some(AllTexts(rows, keys))
    decreases |rows|
  {
    if |rows| > 0 {
      ParseRowsOfLines(rows[1..], keys);
      assert Cells(rows[0], keys) == Quoted(Texts(rows[0], keys));
      ParseCellsRoundTrip(Texts(rows[0], keys));
      assert DataLines(rows, keys)[1..] == DataLines(rows[1..], keys);
    }
  }
}
