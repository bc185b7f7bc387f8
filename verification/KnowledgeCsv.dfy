/** The knowledge export: cells guarded against formulas, quoted, joined; and the reader that undoes it, written
    from section 2 of RFC 4180 with a line feed between records. */
module KnowledgeCsv {
  import opened Wrappers

  datatype Value = Text(text: string) | List(items: seq<string>) | Missing

  // ---------- writing ----------

  function Join(parts: seq<string>, sep: string): string {
    if parts == [] then "" else if |parts| == 1 then parts[0] else parts[0] + sep + Join(parts[1..], sep)
  }

  function Plain(v: Value): string {
    match v
    case Text(t) => t
    case List(items) => Join(items, "; ")
    case Missing => ""
  }

  /** A spreadsheet may take the cell for a formula or a command. */
  predicate Dangerous(cell: string) {
    cell != "" && (cell[0] == '\t' || cell[0] == '\r' || cell[0] == '\n' || FormulaAfterSpaces(cell))
  }

  predicate IsFormulaLead(c: char) { c == '=' || c == '+' || c == '-' || c == '@' }

  predicate FormulaAfterSpaces(cell: string) {
    cell != "" && (IsFormulaLead(cell[0]) || (cell[0] == ' ' && FormulaAfterSpaces(cell[1..])))
  }

  function Guarded(cell: string): string { if Dangerous(cell) then "'" + cell else cell }

  predicate IsSpecial(c: char) { c == '"' || c == ',' || c == '\r' || c == '\n' }

  predicate NeedsQuotes(cell: string) { cell != "" && (IsSpecial(cell[0]) || NeedsQuotes(cell[1..])) }

  function Doubled(cell: string): string {
    if cell == "" then "" else (if cell[0] == '"' then "\"\"" else [cell[0]]) + Doubled(cell[1..])
  }

  function Quoted(cell: string): string { if NeedsQuotes(cell) then "\"" + Doubled(cell) + "\"" else cell }

  method ToCsvCell(v: Value) returns (cell: string)
    ensures cell == Quoted(Guarded(Plain(v)))
  {
    match v {
      case List(items) => cell := Join(items, "; ");
      case Missing => cell := "";
      case Text(t) => cell := t;
    }
    if Dangerous(cell) { cell := "'" + cell; }
    if NeedsQuotes(cell) { cell := "\"" + Doubled(cell) + "\""; }
  }

  type Record = seq<Value>

  function Cells(r: Record): (cells: seq<string>)
    ensures |cells| == |r| && forall i :: 0 <= i < |r| ==> cells[i] == Guarded(Plain(r[i]))
  {
    seq(|r|, i requires 0 <= i < |r| => Guarded(Plain(r[i])))
  }

  function QuotedAll(cells: seq<string>): (q: seq<string>)
    ensures |q| == |cells| && forall i :: 0 <= i < |cells| ==> q[i] == Quoted(cells[i])
  {
    seq(|cells|, i requires 0 <= i < |cells| => Quoted(cells[i]))
  }

  function Row(cells: seq<string>): string { Join(QuotedAll(cells), ",") }

  function Rows(records: seq<Record>): (rows: seq<string>)
    ensures |rows| == |records| && forall i :: 0 <= i < |records| ==> rows[i] == Row(Cells(records[i]))
  {
    seq(|records|, i requires 0 <= i < |records| => Row(Cells(records[i])))
  }

  /** The column names are written as they are: the fixed ones are lower-case words that need no quotes. */
  function BuildKnowledgeCsv(columns: seq<string>, records: seq<Record>): string {
    Join([Join(columns, ",")] + Rows(records), "\n")
  }

  // ---------- reading ----------

  datatype Field = Field(text: string, rest: string) | Bad

  function Then(c: char, f: Field): Field { if f.Bad? then Bad else Field([c] + f.text, f.rest) }

  function Bare(s: string): (f: Field)
    ensures f.Field? ==> |f.rest| <= |s|
  {
    if s == "" || s[0] == ',' || s[0] == '\n' then Field("", s)
    else if s[0] == '"' || s[0] == '\r' then Bad
    else Then(s[0], Bare(s[1..]))
  }

  /** After the opening quote: two quotes stand for one, a single one closes. */
  function Escaped(s: string): (f: Field)
    ensures f.Field? ==> |f.rest| <= |s|
    decreases |s|
  {
    if s == "" then Bad
    else if s[0] != '"' then Then(s[0], Escaped(s[1..]))
    else if |s| > 1 && s[1] == '"' then Then('"', Escaped(s[2..]))
    else Field("", s[1..])
  }

  function ParseField(s: string): (f: Field)
    ensures f.Field? ==> |f.rest| <= |s|
  {
    if s != "" && s[0] == '"' then Escaped(s[1..]) else Bare(s)
  }

  datatype ParsedRecord = Fields(cells: seq<string>, rest: string) | Malformed

  function ParseRecord(s: string): (r: ParsedRecord)
    ensures r.Fields? ==> |r.rest| <= |s|
    decreases |s|
  {
    match ParseField(s)
    case Bad => Malformed
    case Field(text, rest) =>
      if rest == "" || rest[0] == '\n' then Fields([text], rest)
      else if rest[0] != ',' then Malformed
      else (match ParseRecord(rest[1..]) case Malformed => Malformed case Fields(cells, rest') => Fields([text] + cells, rest'))
  }

  function ParseFile(s: string): Option<seq<seq<string>>>
    decreases |s|
  {
    match ParseRecord(s)
    case Malformed => None
    case Fields(cells, rest) =>
      if rest == "" then Some([cells])
      else (match ParseFile(rest[1..]) case None => None case Some(records) => Some([cells] + records))
  }

  // ---------- round trip ----------

  lemma {:induction false} BareReads(cell: string, tail: string)
    requires !NeedsQuotes(cell) && (tail == "" || tail[0] == ',' || tail[0] == '\n')
    ensures Bare(cell + tail) == Field(cell, tail)
  {
    if cell == "" {
      assert cell + tail == tail;
    } else {
      assert (cell + tail)[1..] == cell[1..] + tail;
      BareReads(cell[1..], tail);
    }
  }

  lemma {:induction false} EscapedCloses(tail: string)
    requires tail == "" || tail[0] != '"'
    ensures Escaped("\"" + tail) == Field("", tail)
  {
    assert ("\"" + tail)[1..] == tail;
  }

  lemma {:induction false} EscapedNext(c: char, s: string)
    ensures Escaped((if c == '"' then "\"\"" else [c]) + s) == Then(c, Escaped(s))
  {
    if c == '"' {
      assert ("\"\"" + s)[2..] == s;
    } else {
      assert ([c] + s)[1..] == s;
    }
  }

  lemma {:induction false} EscapedReads(cell: string, tail: string)
    requires tail == "" || tail[0] != '"'
    ensures Escaped(Doubled(cell) + "\"" + tail) == Field(cell, tail)
  {
    if cell == "" {
      assert Doubled(cell) + "\"" + tail == "\"" + tail;
      EscapedCloses(tail);
    } else {
      var rest := Doubled(cell[1..]) + "\"" + tail;
      EscapedReads(cell[1..], tail);
      EscapedNext(cell[0], rest);
      assert Doubled(cell) + "\"" + tail == (if cell[0] == '"' then "\"\"" else [cell[0]]) + rest;
    }
  }

  /** A written cell reads back whole, whatever it contains. */
  lemma {:induction false} CellReads(cell: string, tail: string)
    requires tail == "" || tail[0] == ',' || tail[0] == '\n'
    ensures ParseField(Quoted(cell) + tail) == Field(cell, tail)
  {
    if NeedsQuotes(cell) {
      EscapedReads(cell, tail);
      var body := Doubled(cell) + "\"";
      assert Quoted(cell) == "\"" + body;
      QuoteThenRest(body, tail);
    } else {
      BareReads(cell, tail);
      if cell == "" { assert cell + tail == tail; }
    }
  }

  lemma {:induction false} QuoteThenRest(body: string, tail: string)
    ensures ParseField("\"" + body + tail) == Escaped(body + tail)
  {
    assert ("\"" + body + tail)[1..] == body + tail;
  }

  lemma {:induction false} RowCons(cell: string, more: string, cells: seq<string>, tail: string)
    requires ParseRecord(more) == Fields(cells, tail)
    ensures ParseRecord(Quoted(cell) + ("," + more)) == Fields([cell] + cells, tail)
  {
    var rest := "," + more;
    CellReads(cell, rest);
    assert rest[1..] == more;
  }

  lemma {:induction false} RowReads(cells: seq<string>, tail: string)
    requires |cells| > 0 && (tail == "" || tail[0] == '\n')
    ensures ParseRecord(Row(cells) + tail) == Fields(cells, tail)
  {
    var q := QuotedAll(cells);
    if |cells| == 1 {
      CellReads(cells[0], tail);
      assert [cells[0]] == cells;
    } else {
      assert q[1..] == QuotedAll(cells[1..]);
      RowReads(cells[1..], tail);
      RowCons(cells[0], Row(cells[1..]) + tail, cells[1..], tail);
      JoinCons(q, ",", tail);
      assert [cells[0]] + cells[1..] == cells;
    }
  }

  lemma {:induction false} JoinCons(parts: seq<string>, sep: string, tail: string)
    requires |parts| > 1
    ensures Join(parts, sep) + tail == parts[0] + (sep + (Join(parts[1..], sep) + tail))
  {}

  lemma {:induction false} FileReads(table: seq<seq<string>>, rows: seq<string>)
    requires |table| > 0 && |rows| == |table| && forall i :: 0 <= i < |table| ==> |table[i]| > 0 && rows[i] == Row(table[i])
    ensures ParseFile(Join(rows, "\n")) == Some(table)
  {
    if |table| == 1 {
      RowReads(table[0], "");
      assert Row(table[0]) + "" == Join(rows, "\n");
      assert [table[0]] == table;
    } else {
      FileReads(table[1..], rows[1..]);
      var rest := "\n" + Join(rows[1..], "\n");
      RowReads(table[0], rest);
      assert Join(rows, "\n") == Row(table[0]) + rest;
      assert rest[1..] == Join(rows[1..], "\n");
      assert [table[0]] + table[1..] == table;
    }
  }

  function Table(header: seq<string>, records: seq<Record>): (t: seq<seq<string>>)
    ensures |t| == |records| + 1 && t[0] == header && forall i :: 0 <= i < |records| ==> t[i + 1] == Cells(records[i])
  {
    [header] + seq(|records|, i requires 0 <= i < |records| => Cells(records[i]))
  }

  /** No name needs quoting. */
  predicate PlainNames(names: seq<string>) {
    names == [] || (!NeedsQuotes(names[0]) && PlainNames(names[1..]))
  }

  lemma {:induction false} PlainHeader(names: seq<string>)
    requires PlainNames(names)
    ensures Join(names, ",") == Row(names)
  {
    if |names| > 0 {
      PlainHeader(names[1..]);
      assert QuotedAll(names)[1..] == QuotedAll(names[1..]);
    }
  }

  /** Reading the export back gives the header and exactly each record's guarded cells. */
  lemma {:induction false} CsvRoundTrip(columns: seq<string>, records: seq<Record>)
    requires |columns| > 0 && PlainNames(columns) && forall r :: r in records ==> |r| == |columns|
    ensures ParseFile(BuildKnowledgeCsv(columns, records)) == Some(Table(columns, records))
  {
    var rows, table := [Join(columns, ",")] + Rows(records), Table(columns, records);
    PlainHeader(columns);
    forall i | 0 <= i < |rows| ensures |table[i]| > 0 && rows[i] == Row(table[i]) {
      if i > 0 { assert records[i - 1] in records; }
    }
    FileReads(table, rows);
  }

  lemma {:induction false} GuardedIsSafe(cell: string)
    ensures !Dangerous(Guarded(cell))
  {}

  /** No data cell read back can be taken for a formula. */
  lemma {:induction false} NoDangerousCell(columns: seq<string>, records: seq<Record>, row: seq<string>, cell: string)
    requires |columns| > 0 && PlainNames(columns) && forall r :: r in records ==> |r| == |columns|
    requires var file := ParseFile(BuildKnowledgeCsv(columns, records)); file.Some? && file.value != [] && row in file.value[1..] && cell in row
    ensures !Dangerous(cell)
  {
    CsvRoundTrip(columns, records);
    var table := Table(columns, records);
    var i :| 0 <= i < |records| && table[1..][i] == row;
    var j :| 0 <= j < |row| && row[j] == cell;
    assert row == Cells(records[i]);
    GuardedIsSafe(Plain(records[i][j]));
  }

  // ---------- what the cells say ----------

  /** Optional spaces, then a formula character. */
  ghost predicate LeadsFormula(cell: string, n: nat) {
    n < |cell| && (forall i :: 0 <= i < n ==> cell[i] == ' ') && cell[n] in "=+-@"
  }

  lemma {:induction false} AfterSpacesIff(cell: string)
    ensures FormulaAfterSpaces(cell) <==> exists n: nat :: LeadsFormula(cell, n)
  {
    if cell != "" {
      AfterSpacesIff(cell[1..]);
      assert "=+-@"[0] == '=' && "=+-@"[1] == '+' && "=+-@"[2] == '-' && "=+-@"[3] == '@';
      if IsFormulaLead(cell[0]) { assert LeadsFormula(cell, 0); }
      if n: nat :| cell[0] == ' ' && LeadsFormula(cell[1..], n) { assert LeadsFormula(cell, n + 1); }
      if n: nat :| LeadsFormula(cell, n) { if n > 0 { assert cell[0] == ' ' && LeadsFormula(cell[1..], n - 1); } }
    }
  }

  /** A cell is guarded exactly when it starts with a tab, CR or LF, or with spaces and a formula character. */
  lemma {:induction false} DangerousIff(cell: string)
    ensures Dangerous(cell) <==> cell != "" && (cell[0] in "\t\r\n" || exists n: nat :: LeadsFormula(cell, n))
  {
    AfterSpacesIff(cell);
    assert "\t\r\n"[0] == '\t' && "\t\r\n"[1] == '\r' && "\t\r\n"[2] == '\n';
  }

  /** Undoing the guard. */
  function Unguarded(cell: string): string { if cell != "" && cell[0] == '\'' && Dangerous(cell[1..]) then cell[1..] else cell }

  /** Every cell can be told from its guarded form exactly when it does not itself look guarded. */
  lemma {:induction false} GuardRoundTripIff(cell: string)
    ensures Unguarded(Guarded(cell)) == cell <==> !(cell != "" && cell[0] == '\'' && Dangerous(cell[1..]))
  {
    assert ("'" + cell)[1..] == cell;
  }

  /** The items of a joined list: split at each semicolon and the space after it. */
  function Split(s: string): (items: seq<string>)
    ensures |items| > 0
  {
    if s == "" then [""]
    else if |s| > 1 && s[0] == ';' && s[1] == ' ' then [""] + Split(s[2..])
    else
      var rest := Split(s[1..]);
      [[s[0]] + rest[0]] + rest[1..]
  }

  lemma {:induction false} SplitItem(item: string, rest: string)
    requires forall i :: 0 <= i < |item| ==> item[i] != ';'
    ensures Split(item + "; " + rest) == [item] + Split(rest)
  {
    var s := item + "; " + rest;
    if item == "" {
      assert s[2..] == rest;
    } else {
      SplitItem(item[1..], rest);
      assert s[1..] == item[1..] + "; " + rest;
      assert [item[0]] + item[1..] == item;
    }
  }

  lemma {:induction false} SplitLast(item: string)
    requires forall i :: 0 <= i < |item| ==> item[i] != ';'
    ensures Split(item) == [item]
  {
    if item != "" {
      SplitLast(item[1..]);
      assert [item[0]] + item[1..] == item;
    }
  }

  ghost predicate NoSemicolon(items: seq<string>) { forall k :: 0 <= k < |items| ==> forall i :: 0 <= i < |items[k]| ==> items[k][i] != ';' }

  /** A text is written as it is, a missing value as nothing, and a list so that its items can be read back. */
  lemma {:induction false} PlainReads(v: Value)
    ensures v.Text? ==> Plain(v) == v.text
    ensures v.Missing? || v == List([]) ==> Plain(v) == ""
    ensures v.List? && v.items != [] && NoSemicolon(v.items) ==> Split(Plain(v)) == v.items
    decreases if v.List? then |v.items| else 0
  {
    if v.List? && v.items != [] && NoSemicolon(v.items) {
      if |v.items| == 1 {
        SplitLast(v.items[0]);
        assert v.items == [v.items[0]];
      } else {
        PlainReads(List(v.items[1..]));
        SplitItem(v.items[0], Join(v.items[1..], "; "));
        assert v.items == [v.items[0]] + v.items[1..];
      }
    }
  }
}
