/**
 * The CSV reader of the agents' shared utilities (`AgentUtils.parseCSV`): the trimmed
 * text is split into lines, the first line's trimmed comma-separated fields are the
 * headers, and every later line becomes a row that maps each header to the trimmed
 * field at the same position, or to `undefined` when the line is too short.
 */
module Csv {
  import opened Wrappers
  import opened JsString

  /** One parsed line: header name to field; `None` stands for JavaScript's `undefined`. */
  type Row = map<string, Option<string>>

  /** The object `{ headers, data }` that the reader returns. */
  datatype Table = Table(headers: seq<string>, data: seq<Row>)

  /** `text.trim().split('\n')`. */
  function Lines(text: string): seq<string> {
    Split(Trim(text), '\n')
  }

  /** Each element trimmed: `parts.map(p => p.trim())`. */
  function TrimAll(parts: seq<string>): (r: seq<string>)
    ensures |r| == |parts|
    ensures forall k :: 0 <= k < |r| ==> r[k] == Trim(parts[k])
  {
    seq(|parts|, k requires 0 <= k < |parts| => Trim(parts[k]))
  }

  /** `line.split(',').map(v => v.trim())`. */
  function Fields(line: string): seq<string> {
    TrimAll(Split(line, ','))
  }

  /** `values[index]`: the field at a position, or `undefined` past the end. */
  function FieldAt(values: seq<string>, index: nat): Option<string> {
    if index < |values| then Some(values[index]) else None
  }

  /** The row after the first `n` assignments `row[headers[j]] = values[j]`, in index order. */
  function FillRow(headers: seq<string>, values: seq<string>, n: nat): Row
    requires n <= |headers|
  {
    if n == 0 then map[]
    else FillRow(headers, values, n - 1)[headers[n - 1] := FieldAt(values, n - 1)]
  }

  /** The row the reader builds from one line's fields. */
  function RowOf(headers: seq<string>, values: seq<string>): Row {
    FillRow(headers, values, |headers|)
  }

  /** The table built from the split lines: headers from the first, one row per later line. */
  function TableOf(lines: seq<string>): Table
    requires |lines| >= 1
  {
    var headers := Fields(lines[0]);
    Table(headers, seq(|lines| - 1, r requires 0 <= r < |lines| - 1 => RowOf(headers, Fields(lines[r + 1]))))
  }

  /** The table the reader returns for `text`. */
  function Parse(text: string): Table {
    TableOf(Lines(text))
  }

  /**
   * The `headers.forEach` step: assigns `row[headers[j]] = values[j]` for j in
   * increasing order, so the row is `RowOf(headers, values)`.
   */
  method BuildRow(headers: seq<string>, values: seq<string>) returns (row: Row)
    ensures row == RowOf(headers, values)
  {
    row := map[];
    var j := 0;
    while j < |headers|
      invariant 0 <= j <= |headers|
      invariant row == FillRow(headers, values, j)
    {
      row := row[headers[j] := FieldAt(values, j)];
      j := j + 1;
    }
  }

  /**
   * The loop of the reader over the lines: the headers are the first line's trimmed
   * fields, and row r is built from line r + 1, pushed in line order. Together these
   * make the result `TableOf(lines)` (lemma TableOfPointwise).
   */
  method BuildTable(lines: seq<string>) returns (t: Table)
    requires |lines| >= 1
    ensures t.headers == Fields(lines[0])
    ensures |t.data| == |lines| - 1
    ensures forall r :: 0 <= r < |t.data| ==> t.data[r] == RowOf(t.headers, Fields(lines[r + 1]))
  {
    var headers := Fields(lines[0]);
    var data: seq<Row> := [];
    var i := 1;
    while i < |lines|
      invariant 1 <= i <= |lines|
      invariant |data| == i - 1
      invariant forall r :: 0 <= r < i - 1 ==> data[r] == RowOf(headers, Fields(lines[r + 1]))
    {
      var values := Fields(lines[i]);
      var row := BuildRow(headers, values);
      data := data + [row];
      i := i + 1;
    }
    t := Table(headers, data);
  }

  /**
   * `AgentUtils.parseCSV(text)`: the trimmed text split on line feeds, then read by
   * `BuildTable`. The result is `Parse(text)`.
   */
  method ParseCsv(text: string) returns (t: Table)
    ensures t == Parse(text)
    ensures t.headers == Fields(Lines(text)[0])
    ensures |t.data| == |Lines(text)| - 1
  {
    var lines := Split(Trim(text), '\n');
    t := BuildTable(lines);
    TableOfPointwise(lines, t);
  }

  /** A table with TableOf's headers, row count and rows is TableOf. */
  lemma TableOfPointwise(lines: seq<string>, t: Table)
    requires |lines| >= 1
    requires t.headers == Fields(lines[0])
    requires |t.data| == |lines| - 1
    requires forall r :: 0 <= r < |t.data| ==> t.data[r] == RowOf(t.headers, Fields(lines[r + 1]))
    ensures t == TableOf(lines)
  {
  }

  /** There is one row per line break inside the trimmed text. */
  lemma RowCount(text: string)
    ensures |Parse(text).data| == multiset(Trim(text))['\n']
  {
    SplitCount(Trim(text), '\n');
  }

  /** The keys of a row are exactly the header names. */
  lemma {:induction false} FillRowKeys(headers: seq<string>, values: seq<string>, n: nat)
    requires n <= |headers|
    ensures FillRow(headers, values, n).Keys == set j | 0 <= j < n :: headers[j]
  {
    if n > 0 {
      FillRowKeys(headers, values, n - 1);
      assert (set j | 0 <= j < n :: headers[j]) == (set j | 0 <= j < n - 1 :: headers[j]) + {headers[n - 1]};
    }
  }

  /**
   * A header maps to the field at the LAST position it occupies among the first `n`
   * headers: later assignments overwrite earlier ones.
   */
  lemma {:induction false} FillRowLastWins(headers: seq<string>, values: seq<string>, n: nat, j: nat)
    requires j < n <= |headers|
    requires forall k :: j < k < n ==> headers[k] != headers[j]
    ensures headers[j] in FillRow(headers, values, n)
    ensures FillRow(headers, values, n)[headers[j]] == FieldAt(values, j)
  {
    if j < n - 1 {
      FillRowLastWins(headers, values, n - 1, j);
    }
  }

  /** Header names and row keys coincide; each key holds the field under its last occurrence. */
  lemma RowOfSpec(headers: seq<string>, values: seq<string>, j: nat)
    requires j < |headers|
    requires forall k :: j < k < |headers| ==> headers[k] != headers[j]
    ensures RowOf(headers, values).Keys == set k | 0 <= k < |headers| :: headers[k]
    ensures RowOf(headers, values)[headers[j]] == FieldAt(values, j)
  {
    FillRowKeys(headers, values, |headers|);
    FillRowLastWins(headers, values, |headers|, j);
  }

  /** Only the first |headers| fields matter: extra fields on a line are dropped. */
  lemma {:induction false} FillRowIgnoresExtraFields(headers: seq<string>, values: seq<string>, n: nat)
    requires n <= |headers| <= |values|
    ensures FillRow(headers, values, n) == FillRow(headers, values[..|headers|], n)
  {
    if n > 0 {
      FillRowIgnoresExtraFields(headers, values, n - 1);
    }
  }

  /** Blank input (empty or white space only) gives the single empty header and no rows. */
  lemma ParseBlank(text: string)
    requires AllWhiteSpace(text)
    ensures Parse(text) == Table([""], [])
  {
    assert Trim(text) == [];
    assert Lines(text) == [""];
    assert Split("", ',') == [""];
    assert Trim("") == "";
  }

  lemma TrimKeepsChar(c: char)
    requires !IsWhiteSpace(c)
    ensures Trim([c]) == [c]
  {
    TrimIsUnique([c], 0, 1);
  }

  /** The fields of a line of three one-character, non-blank, comma-free values. */
  lemma FieldsOfThree(a: char, b: char, c: char)
    requires !IsWhiteSpace(a) && !IsWhiteSpace(b) && !IsWhiteSpace(c)
    requires a != ',' && b != ',' && c != ','
    ensures Fields([a, ',', b, ',', c]) == [[a], [b], [c]]
  {
    var parts: seq<string> := [[a], [b], [c]];
    assert parts[1..] == [[b], [c]] && parts[1..][1..] == [[c]];
    assert Join([[c]], ',') == [c];
    assert Join([[b], [c]], ',') == [b, ',', c];
    assert Join(parts, ',') == [a, ',', b, ',', c];
    SplitJoin([[a], [b], [c]], ',');
    TrimKeepsChar(a);
    TrimKeepsChar(b);
    TrimKeepsChar(c);
  }

  /** Two lines without line feeds, the first not starting and the second not ending with white space. */
  lemma LinesOfTwo(head: string, line: string)
    requires head != [] && line != []
    requires !IsWhiteSpace(head[0]) && !IsWhiteSpace(line[|line| - 1])
    requires '\n' !in head && '\n' !in line
    ensures Lines(head + ['\n'] + line) == [head, line]
  {
    var text := head + ['\n'] + line;
    TrimIsUnique(text, 0, |text|);
    assert text[0..|text|] == text;
    assert [head, line][1..] == [line];
    assert Join([head, line], '\n') == text;
    SplitJoin([head, line], '\n');
  }

  /** A row of three fields is the three assignments `row[hs[j]] = vs[j]`, in index order. */
  lemma RowOfThree(hs: seq<string>, vs: seq<string>)
    requires |hs| == 3 == |vs|
    ensures RowOf(hs, vs) == map[hs[0] := Some(vs[0])][hs[1] := Some(vs[1])][hs[2] := Some(vs[2])]
  {
    assert FillRow(hs, vs, 1) == map[hs[0] := Some(vs[0])];
    assert FillRow(hs, vs, 2) == map[hs[0] := Some(vs[0])][hs[1] := Some(vs[1])];
  }

  /**
   * A header line and a data line of three one-character fields each read as those
   * headers and the one row that maps them to the data fields.
   */
  lemma ParseThreeByThree(a: char, b: char, c: char, x: char, y: char, z: char)
    requires !IsWhiteSpace(a) && !IsWhiteSpace(b) && !IsWhiteSpace(c)
    requires !IsWhiteSpace(x) && !IsWhiteSpace(y) && !IsWhiteSpace(z)
    requires a != ',' && b != ',' && c != ',' && x != ',' && y != ',' && z != ','
    ensures Parse([a, ',', b, ',', c, '\n', x, ',', y, ',', z])
         == Table([[a], [b], [c]], [map[[a] := Some([x])][[b] := Some([y])][[c] := Some([z])]])
  {
    var head: string := [a, ',', b, ',', c];
    var line: string := [x, ',', y, ',', z];
    assert head + ['\n'] + line == [a, ',', b, ',', c, '\n', x, ',', y, ',', z];
    LinesOfTwo(head, line);
    FieldsOfThree(a, b, c);
    FieldsOfThree(x, y, z);
    RowOfThree([[a], [b], [c]], [[x], [y], [z]]);
  }

  /** `"a,b,c\n1,2,3"` reads as headers a, b, c and the one row {a: "1", b: "2", c: "3"}. */
  lemma ParseExample()
    ensures Parse("a,b,c\n1,2,3") == Table(["a", "b", "c"], [map["a" := Some("1"), "b" := Some("2"), "c" := Some("3")]])
  {
    ParseThreeByThree('a', 'b', 'c', '1', '2', '3');
  }
}
