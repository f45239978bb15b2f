/** The bank-statement importer of client/src/lib/csv-parser.ts: guessing the
    bank from the first line, the per-bank column names, splitting the text
    into rows keyed by header, and turning rows into transaction drafts. */
module CsvParser {
  import opened Common

  // ---------------------------------------------------------------------------
  // Options and bank formats

  /** The column names a statement uses; `category` is optional. */
  datatype ColumnMap = ColumnMap(date: string, description: string, amount: string, category: Option<string>)

  /** The caller's options; an absent field takes the default. */
  datatype ParserOptions = ParserOptions(skipHeader: Option<bool>, columnMap: Option<ColumnMap>)

  const DefaultSkipHeader: bool := true
  const DefaultColumnMap: ColumnMap := ColumnMap("date", "description", "amount", Some("category"))

  const Formats: set<string> := {"chase", "bank_of_america", "wells_fargo", "generic"}

  /** `csvText.split("\n")[0]` */
  function FirstLine(csvText: string): string {
    Split(csvText, {'\n'})[0]
  }

  /** The first line is the text up to its first line break. */
  lemma {:induction false} FirstLineOf(h: string, rest: string)
    requires '\n' !in h
    ensures FirstLine(h + "\n" + rest) == h
    ensures FirstLine(h) == h
  {
    if h != [] {
      assert (h + "\n" + rest)[1..] == h[1..] + "\n" + rest;
      FirstLineOf(h[1..], rest);
      assert h == [h[0]] + h[1..];
    }
  }

  /** `w` occurs somewhere in `line`: `includes`, stated by position. */
  ghost predicate Occurs(line: string, w: string) {
    exists i :: OccursAt(line, w, i)
  }

  /** The Chase test: "chase" or "post date". */
  ghost predicate ChaseTerms(line: string) {
    Occurs(line, "chase") || Occurs(line, "post date")
  }

  /** The Bank of America test: "bank of america" or "boa". */
  ghost predicate BoaTerms(line: string) {
    Occurs(line, "bank of america") || Occurs(line, "boa")
  }

  /** The Wells Fargo test: "wells fargo" or "wells". */
  ghost predicate WellsTerms(line: string) {
    Occurs(line, "wells fargo") || Occurs(line, "wells")
  }

  /** Guesses the bank from the lower-cased first line; the tests run in the
      order Chase, Bank of America, Wells Fargo, and the first that fires
      decides. */
  function DetectCsvFormat(csvText: string): (r: string)
    ensures r in Formats
    ensures var line := ToLower(FirstLine(csvText));
            && (r == "chase" <==> ChaseTerms(line))
            && (r == "bank_of_america" <==> !ChaseTerms(line) && BoaTerms(line))
            && (r == "wells_fargo" <==> !ChaseTerms(line) && !BoaTerms(line) && WellsTerms(line))
            && (r == "generic" <==> !ChaseTerms(line) && !BoaTerms(line) && !WellsTerms(line))
  {
    FormatOfLine(ToLower(FirstLine(csvText)))
  }

  /** The tests on the lower-cased first line. */
  function FormatOfLine(firstLine: string): (r: string)
    ensures r in Formats
    ensures r == "chase" <==> ChaseTerms(firstLine)
    ensures r == "bank_of_america" <==> !ChaseTerms(firstLine) && BoaTerms(firstLine)
    ensures r == "wells_fargo" <==> !ChaseTerms(firstLine) && !BoaTerms(firstLine) && WellsTerms(firstLine)
    ensures r == "generic" <==> !ChaseTerms(firstLine) && !BoaTerms(firstLine) && !WellsTerms(firstLine)
  {
    ContainsIff(firstLine, "chase");
    ContainsIff(firstLine, "post date");
    ContainsIff(firstLine, "bank of america");
    ContainsIff(firstLine, "boa");
    ContainsIff(firstLine, "wells fargo");
    ContainsIff(firstLine, "wells");
    if Contains(firstLine, "chase") || Contains(firstLine, "post date") then "chase"
    else if Contains(firstLine, "bank of america") || Contains(firstLine, "boa") then "bank_of_america"
    else if Contains(firstLine, "wells fargo") || Contains(firstLine, "wells") then "wells_fargo"
    else "generic"
  }

  /** Only the first line matters: whatever follows the first line break
      leaves the guess unchanged. */
  lemma DetectLooksAtFirstLineOnly(h: string, rest: string)
    requires '\n' !in h
    ensures DetectCsvFormat(h + "\n" + rest) == DetectCsvFormat(h)
  {
    FirstLineOf(h, rest);
  }

  /** Lower-casing commutes with taking the first line. */
  lemma {:induction false} FirstLineLower(s: string)
    ensures FirstLine(ToLower(s)) == ToLower(FirstLine(s))
  {
    if s != [] {
      FirstLineLower(s[1..]);
      assert ToLower(s) == [LowerChar(s[0])] + ToLower(s[1..]);
      assert ToLower(s)[1..] == ToLower(s[1..]);
      if s[0] != '\n' {
        var rest := Split(s[1..], {'\n'});
        assert ToLower([s[0]] + rest[0]) == [LowerChar(s[0])] + ToLower(rest[0]);
      }
    }
  }

  /** The guess ignores letter case. */
  lemma DetectIgnoresCase(csvText: string)
    ensures DetectCsvFormat(ToLower(csvText)) == DetectCsvFormat(csvText)
  {
    FirstLineLower(csvText);
    ToLowerIdempotent(FirstLine(csvText));
  }

  /** A first line naming Chase wins over any mention of the other banks. */
  lemma ChaseWins(h: string, other: string)
    requires '\n' !in h && '\n' !in other
    ensures DetectCsvFormat(h + "chase " + other) == "chase"
  {
    var line := h + "chase " + other;
    assert '\n' !in line;
    FirstLineOf(line, "");
    var low := ToLower(line);
    assert low[|h|..|h| + 5] == "chase";
    ContainsIff(low, "chase");
    assert OccursAt(low, "chase", |h|);
  }

  /** The column names of each known bank; any other name, "generic"
      included, gets the default map, the only one with a category column. */
  function GetBankColumnMap(bankFormat: string): (r: ColumnMap)
    ensures r.date != "" && r.description != "" && r.amount != ""
    ensures r.category.Some? <==> bankFormat !in {"chase", "bank_of_america", "wells_fargo"}
    ensures r.amount == "Amount" || r == DefaultColumnMap
  {
    match bankFormat
    case "chase" => ColumnMap("Post Date", "Description", "Amount", None)
    case "bank_of_america" => ColumnMap("Date", "Payee", "Amount", None)
    case "wells_fargo" => ColumnMap("Date", "Description", "Amount", None)
    case _ => DefaultColumnMap
  }

  // ---------------------------------------------------------------------------
  // parseCSV

  /** A cell value; None is JavaScript's `undefined` (a missing column). */
  type Cell = Option<string>

  /** A parsed row: a plain object whose keys are "date", "description",
      "amount", possibly "category", and the other header names. */
  type CsvRow = map<string, Cell>

  predicate IsBlank(line: string) {
    Trim(line) == ""
  }

  /** `lines.filter(line => line.trim() !== "")` */
  function NonBlank(lines: seq<string>): (r: seq<string>)
    ensures |r| <= |lines|
  {
    if lines == [] then []
    else if IsBlank(lines[0]) then NonBlank(lines[1..])
    else [lines[0]] + NonBlank(lines[1..])
  }

  /** The filter keeps exactly the lines that are not blank, in order. */
  lemma {:induction false} NonBlankKeeps(lines: seq<string>)
    ensures forall line :: line in NonBlank(lines) <==> line in lines && !IsBlank(line)
  {
    if lines != [] {
      NonBlankKeeps(lines[1..]);
      assert lines == [lines[0]] + lines[1..];
    }
  }

  function NonBlankLines(csvText: string): seq<string> {
    NonBlank(Split(csvText, {'\n'}))
  }

  /** `line.split(",").map(c => c.trim())` */
  function SplitCells(line: string): (r: seq<string>)
    ensures |r| == |Split(line, {','})|
    ensures forall k :: 0 <= k < |r| ==> r[k] == Trim(Split(line, {','})[k])
  {
    var parts := Split(line, {','});
    seq(|parts|, k requires 0 <= k < |parts| => Trim(parts[k]))
  }

  /** `columns[i]`, undefined out of range (including -1). */
  function CellAt(columns: seq<string>, i: int): Cell {
    if 0 <= i < |columns| then Some(columns[i]) else None
  }

  /** `headers.findIndex(h => h.toLowerCase() === name.toLowerCase())` */
  function FindIndex(headers: seq<string>, name: string): (r: int)
    ensures -1 <= r < |headers|
    ensures r >= 0 ==> EqualsIgnoreCase(headers[r], name)
    ensures forall j :: 0 <= j < |headers| && (r < 0 || j < r) ==> !EqualsIgnoreCase(headers[j], name)
  {
    if headers == [] then -1
    else if EqualsIgnoreCase(headers[0], name) then 0
    else
      var k := FindIndex(headers[1..], name);
      if k < 0 then -1 else k + 1
  }

  /** Where the date, description, amount and category columns are (-1 when
      absent). */
  datatype ColumnIndices = ColumnIndices(date: int, description: int, amount: int, category: int)

  /** `columnMap.date || "date"` and likewise: an empty name falls back. */
  function OrName(name: string, fallback: string): string {
    if name != "" then name else fallback
  }

  function FindColumns(headers: seq<string>, cm: ColumnMap): ColumnIndices
  {
    ColumnIndices(
      FindIndex(headers, OrName(cm.date, "date")),
      FindIndex(headers, OrName(cm.description, "description")),
      FindIndex(headers, OrName(cm.amount, "amount")),
      if cm.category.Some? && cm.category.value != "" then FindIndex(headers, cm.category.value) else -1)
  }

  predicate IsNamedColumn(idx: ColumnIndices, i: int) {
    i == idx.date || i == idx.description || i == idx.amount || i == idx.category
  }

  /** `headers.forEach((header, i) => { if (i is not a named column) row[header] = columns[i] })`
      from position i on; a later header of the same name overwrites. */
  function AddExtras(row: CsvRow, headers: seq<string>, columns: seq<string>, idx: ColumnIndices, i: nat): CsvRow
    requires i <= |headers|
    decreases |headers| - i
  {
    if i == |headers| then row
    else
      var row' := if IsNamedColumn(idx, i) then row else row[headers[i] := CellAt(columns, i)];
      AddExtras(row', headers, columns, idx, i + 1)
  }

  /** One data line as a row object. */
  function BuildRow(headers: seq<string>, idx: ColumnIndices, line: string): CsvRow {
    RowOf(headers, idx, SplitCells(line))
  }

  /** The row object of a line's trimmed cells. */
  function RowOf(headers: seq<string>, idx: ColumnIndices, columns: seq<string>): CsvRow {
    var row := map["date" := CellAt(columns, idx.date),
                   "description" := CellAt(columns, idx.description),
                   "amount" := CellAt(columns, idx.amount)];
    var cat := CellAt(columns, idx.category);
    var row' := if idx.category >= 0 && cat.Some? && cat.value != "" then row["category" := cat] else row;
    AddExtras(row', headers, columns, idx, 0)
  }

  /** `parseCSV(csvText, options)`; Err is the TypeError thrown by
      `lines[0].split` when there is no non-blank line. */
  function ParseCsv(csvText: string, options: ParserOptions): Result<seq<CsvRow>> {
    var lines := NonBlankLines(csvText);
    if lines == [] then Err("Cannot read properties of undefined (reading 'split')")
    else Ok(RowsOf(lines, options))
  }

  /** The rows of the non-blank lines: the header is the first line, the
      data lines are all lines or all but the first. */
  function RowsOf(lines: seq<string>, options: ParserOptions): seq<CsvRow>
    requires lines != []
  {
    var skipHeader := options.skipHeader.GetOr(DefaultSkipHeader);
    var dataLines := lines[if skipHeader then 1 else 0..];
    var headers := SplitCells(lines[0]);
    var idx := FindColumns(headers, options.columnMap.GetOr(DefaultColumnMap));
    RowsFrom(headers, idx, dataLines)
  }

  /** `dataLines.map(line => ...)`: one row object per data line. */
  function RowsFrom(headers: seq<string>, idx: ColumnIndices, dataLines: seq<string>): (r: seq<CsvRow>)
    ensures |r| == |dataLines|
  {
    seq(|dataLines|, k requires 0 <= k < |dataLines| => BuildRow(headers, idx, dataLines[k]))
  }

  /** Row k of the lines from position `off` on comes from line k + off. */
  lemma RowsFromShift(headers: seq<string>, idx: ColumnIndices, lines: seq<string>, off: nat)
    requires off <= |lines|
    ensures forall k :: 0 <= k < |lines| - off ==> RowsFrom(headers, idx, lines[off..])[k] == BuildRow(headers, idx, lines[k + off])
  {
  }

  /** Shape of the result: one row per non-blank line, less the first when
      the header is skipped; row k comes from non-blank line k (k + 1 when
      skipping); the header is always the first non-blank line, whether or
      not it is skipped. */
  lemma ParseCsvRows(csvText: string, options: ParserOptions)
    requires NonBlankLines(csvText) != []
    ensures var lines := NonBlankLines(csvText);
            var off := if options.skipHeader.GetOr(true) then 1 else 0;
            var headers := SplitCells(lines[0]);
            var idx := FindColumns(headers, options.columnMap.GetOr(DefaultColumnMap));
            && ParseCsv(csvText, options).Ok?
            && |ParseCsv(csvText, options).value| == |lines| - off
            && forall k :: 0 <= k < |lines| - off ==>
                 ParseCsv(csvText, options).value[k] == BuildRow(headers, idx, lines[k + off])
  {
    var lines := NonBlankLines(csvText);
    assert ParseCsv(csvText, options) == Ok(RowsOf(lines, options));
    RowsOfShape(lines, options);
  }

  lemma RowsOfShape(lines: seq<string>, options: ParserOptions)
    requires lines != []
    ensures var off := if options.skipHeader.GetOr(true) then 1 else 0;
            var headers := SplitCells(lines[0]);
            var idx := FindColumns(headers, options.columnMap.GetOr(DefaultColumnMap));
            && |RowsOf(lines, options)| == |lines| - off
            && forall k :: 0 <= k < |lines| - off ==> RowsOf(lines, options)[k] == BuildRow(headers, idx, lines[k + off])
  {
    var off := if options.skipHeader.GetOr(true) then 1 else 0;
    var headers := SplitCells(lines[0]);
    var idx := FindColumns(headers, options.columnMap.GetOr(DefaultColumnMap));
    RowsFromShift(headers, idx, lines, off);
  }

  predicate AllWhitespace(s: string) {
    forall i :: 0 <= i < |s| ==> IsWhitespace(s[i])
  }

  lemma AllWhitespaceCons(c: char, t: string)
    ensures AllWhitespace([c] + t) <==> IsWhitespace(c) && AllWhitespace(t)
  {
    if IsWhitespace(c) && AllWhitespace(t) {
      forall i | 0 <= i < |[c] + t| ensures IsWhitespace(([c] + t)[i]) {
        if i > 0 {
          assert ([c] + t)[i] == t[i - 1];
        }
      }
    }
    if AllWhitespace([c] + t) {
      assert ([c] + t)[0] == c;
      forall i | 0 <= i < |t| ensures IsWhitespace(t[i]) {
        assert ([c] + t)[i + 1] == t[i];
      }
    }
  }

  lemma NonBlankCons(line: string, lines: seq<string>)
    ensures NonBlank([line] + lines) == [] <==> IsBlank(line) && NonBlank(lines) == []
  {
    assert ([line] + lines)[1..] == lines;
  }

  /** All of the text is whitespace exactly when every line is blank. */
  lemma {:induction false} AllLinesBlankIff(s: string)
    ensures NonBlank(Split(s, {'\n'})) == [] <==> AllWhitespace(s)
  {
    if s != [] {
      var blank := NonBlank(Split(s, {'\n'})) == [];
      var restBlank := NonBlank(Split(s[1..], {'\n'})) == [];
      AllLinesBlankIff(s[1..]);
      assert restBlank <==> AllWhitespace(s[1..]);
      LinesBlankStep(s);
      assert blank <==> IsWhitespace(s[0]) && restBlank;
      AllWhitespaceStep(s);
    } else {
      TrimEmptyIff("");
      assert NonBlank([""]) == NonBlank([""][1..]);
    }
  }

  lemma AllWhitespaceStep(s: string)
    requires s != []
    ensures AllWhitespace(s) <==> IsWhitespace(s[0]) && AllWhitespace(s[1..])
  {
    assert s == [s[0]] + s[1..];
    AllWhitespaceCons(s[0], s[1..]);
  }

  /** Every line of s is blank exactly when its first character is
      whitespace and every line of the rest is blank. */
  lemma LinesBlankStep(s: string)
    requires s != []
    ensures NonBlank(Split(s, {'\n'})) == [] <==> IsWhitespace(s[0]) && NonBlank(Split(s[1..], {'\n'})) == []
  {
    var rest := Split(s[1..], {'\n'});
    if s[0] == '\n' {
      assert Split(s, {'\n'}) == [""] + rest;
      TrimEmptyIff("");
      NonBlankCons("", rest);
    } else {
      assert Split(s, {'\n'}) == [[s[0]] + rest[0]] + rest[1..];
      FirstLineBlankStep(s[0], rest);
    }
  }

  /** Putting a character that is not a newline in front of the first line
      keeps every line blank exactly when that character is whitespace. */
  lemma FirstLineBlankStep(c: char, rest: seq<string>)
    requires rest != []
    ensures NonBlank([[c] + rest[0]] + rest[1..]) == [] <==> IsWhitespace(c) && NonBlank(rest) == []
  {
    var first := [c] + rest[0];
    assert rest == [rest[0]] + rest[1..];
    NonBlankCons(first, rest[1..]);
    NonBlankCons(rest[0], rest[1..]);
    TrimEmptyIff(first);
    TrimEmptyIff(rest[0]);
    AllWhitespaceCons(c, rest[0]);
  }

  /** Parsing fails exactly on text with no non-whitespace character: there
      is then no header line to split. */
  lemma ParseCsvFailsIff(csvText: string, options: ParserOptions)
    ensures ParseCsv(csvText, options).Err? <==> AllWhitespace(csvText)
  {
    AllLinesBlankIff(csvText);
  }

  /** The key names a row object always uses for its own fields. */
  const FieldKeys: set<string> := {"date", "description", "amount", "category"}

  /** Keys the extra-column pass writes from position i on. */
  function ExtraKeys(headers: seq<string>, idx: ColumnIndices, i: nat): set<string>
    requires i <= |headers|
  {
    set j | i <= j < |headers| && !IsNamedColumn(idx, j) :: headers[j]
  }

  /** Column j is an extra column and no later extra column has its header. */
  predicate IsLastExtra(headers: seq<string>, idx: ColumnIndices, j: int) {
    && 0 <= j < |headers| && !IsNamedColumn(idx, j)
    && forall l :: j < l < |headers| && !IsNamedColumn(idx, l) ==> headers[l] != headers[j]
  }

  /** The extra-column pass writes exactly the other columns' headers. */
  lemma {:induction false} AddExtrasKeys(row: CsvRow, headers: seq<string>, columns: seq<string>, idx: ColumnIndices, i: nat)
    requires i <= |headers|
    ensures AddExtras(row, headers, columns, idx, i).Keys == row.Keys + ExtraKeys(headers, idx, i)
    decreases |headers| - i
  {
    if i < |headers| {
      var row' := if IsNamedColumn(idx, i) then row else row[headers[i] := CellAt(columns, i)];
      assert AddExtras(row, headers, columns, idx, i) == AddExtras(row', headers, columns, idx, i + 1);
      AddExtrasKeys(row', headers, columns, idx, i + 1);
      if IsNamedColumn(idx, i) {
        assert ExtraKeys(headers, idx, i) == ExtraKeys(headers, idx, i + 1);
      } else {
        assert ExtraKeys(headers, idx, i) == {headers[i]} + ExtraKeys(headers, idx, i + 1);
      }
    }
  }

  /** Keys the extra-column pass does not write keep their value. */
  lemma {:induction false} AddExtrasKeeps(row: CsvRow, headers: seq<string>, columns: seq<string>, idx: ColumnIndices, i: nat)
    requires i <= |headers|
    ensures forall key :: key in row && key !in ExtraKeys(headers, idx, i) ==>
              key in AddExtras(row, headers, columns, idx, i) && AddExtras(row, headers, columns, idx, i)[key] == row[key]
    decreases |headers| - i
  {
    if i < |headers| {
      var row' := if IsNamedColumn(idx, i) then row else row[headers[i] := CellAt(columns, i)];
      assert AddExtras(row, headers, columns, idx, i) == AddExtras(row', headers, columns, idx, i + 1);
      AddExtrasKeeps(row', headers, columns, idx, i + 1);
      AddExtrasKeys(row', headers, columns, idx, i + 1);
      if !IsNamedColumn(idx, i) {
        assert ExtraKeys(headers, idx, i) == {headers[i]} + ExtraKeys(headers, idx, i + 1);
      }
    }
  }

  /** The header of the last extra column with that header holds its cell
      once the pass from position i on is done. */
  lemma {:induction false} AddExtrasLastAt(row: CsvRow, headers: seq<string>, columns: seq<string>, idx: ColumnIndices,
                                           i: nat, j: nat)
    requires i <= j && IsLastExtra(headers, idx, j)
    ensures headers[j] in AddExtras(row, headers, columns, idx, i)
    ensures AddExtras(row, headers, columns, idx, i)[headers[j]] == CellAt(columns, j)
    decreases |headers| - i
  {
    var row' := if IsNamedColumn(idx, i) then row else row[headers[i] := CellAt(columns, i)];
    assert AddExtras(row, headers, columns, idx, i) == AddExtras(row', headers, columns, idx, i + 1);
    if i == j {
      assert headers[i] !in ExtraKeys(headers, idx, i + 1);
      AddExtrasKeeps(row', headers, columns, idx, i + 1);
    } else {
      AddExtrasLastAt(row', headers, columns, idx, i + 1, j);
    }
  }

  /** A key the extra-column pass writes holds the cell of the LAST column
      with that header. */
  lemma AddExtrasLast(row: CsvRow, headers: seq<string>, columns: seq<string>, idx: ColumnIndices, i: nat)
    requires i <= |headers|
    ensures forall j :: i <= j && IsLastExtra(headers, idx, j) ==>
              headers[j] in AddExtras(row, headers, columns, idx, i)
              && AddExtras(row, headers, columns, idx, i)[headers[j]] == CellAt(columns, j)
  {
    forall j | i <= j && IsLastExtra(headers, idx, j)
      ensures headers[j] in AddExtras(row, headers, columns, idx, i)
              && AddExtras(row, headers, columns, idx, i)[headers[j]] == CellAt(columns, j)
    {
      AddExtrasLastAt(row, headers, columns, idx, i, j);
    }
  }

  /** The whole of the extra-column pass: the keys it writes, the values it
      keeps and the values it writes. */
  lemma AddExtrasSpec(row: CsvRow, headers: seq<string>, columns: seq<string>, idx: ColumnIndices, i: nat)
    requires i <= |headers|
    ensures AddExtras(row, headers, columns, idx, i).Keys == row.Keys + ExtraKeys(headers, idx, i)
    ensures forall key :: key in row && key !in ExtraKeys(headers, idx, i) ==>
              AddExtras(row, headers, columns, idx, i)[key] == row[key]
    ensures forall j :: i <= j && IsLastExtra(headers, idx, j) ==>
              AddExtras(row, headers, columns, idx, i)[headers[j]] == CellAt(columns, j)
  {
    AddExtrasKeys(row, headers, columns, idx, i);
    AddExtrasKeeps(row, headers, columns, idx, i);
    AddExtrasLast(row, headers, columns, idx, i);
  }

  /** Field preservation for a row: when no other column is headed exactly
      "date", "description", "amount" or "category", the row's date,
      description and amount are the trimmed cells at the found positions,
      "category" is set only for a found, non-empty category cell, and every
      other column is copied under its header name. */
  lemma RowOfFields(headers: seq<string>, idx: ColumnIndices, columns: seq<string>)
    requires forall j :: 0 <= j < |headers| && !IsNamedColumn(idx, j) ==> headers[j] !in FieldKeys
    ensures var row := RowOf(headers, idx, columns);
            && row.Keys == {"date", "description", "amount"}
                           + (if "category" in row then {"category"} else {})
                           + ExtraKeys(headers, idx, 0)
            && row["date"] == CellAt(columns, idx.date)
            && row["description"] == CellAt(columns, idx.description)
            && row["amount"] == CellAt(columns, idx.amount)
            && ("category" in row <==> 0 <= idx.category < |columns| && columns[idx.category] != "")
            && ("category" in row ==> row["category"] == Some(columns[idx.category]))
            && forall j :: IsLastExtra(headers, idx, j) ==> row[headers[j]] == CellAt(columns, j)
  {
    var base := map["date" := CellAt(columns, idx.date),
                    "description" := CellAt(columns, idx.description),
                    "amount" := CellAt(columns, idx.amount)];
    var cat := CellAt(columns, idx.category);
    var row' := if idx.category >= 0 && cat.Some? && cat.value != "" then base["category" := cat] else base;
    assert RowOf(headers, idx, columns) == AddExtras(row', headers, columns, idx, 0);
    AddExtrasSpec(row', headers, columns, idx, 0);
    var extra := ExtraKeys(headers, idx, 0);
    assert forall key :: key in extra ==> key !in FieldKeys;
    assert "date" !in extra && "description" !in extra && "amount" !in extra && "category" !in extra;
  }

  // ---------------------------------------------------------------------------
  // csvRowsToTransactions

  /** A transaction draft from one row. `amount` is None when the number
      does not parse (JavaScript's NaN). */
  datatype TransactionDraft = TransactionDraft(amount: Option<int>, description: Cell, date: Date, isIncome: bool)

  /** `s.replace(/[$,]/g, "")` */
  function StripCurrency(s: string): (r: string)
    ensures |r| <= |s|
    ensures forall k :: 0 <= k < |r| ==> r[k] != '$' && r[k] != ','
  {
    if s == [] then []
    else if s[0] == '$' || s[0] == ',' then StripCurrency(s[1..])
    else [s[0]] + StripCurrency(s[1..])
  }

  /** Stripping removes exactly the dollar signs and commas: the text with
      none of them is left alone. */
  lemma {:induction false} StripCurrencyKeepsClean(s: string)
    requires forall k :: 0 <= k < |s| ==> s[k] != '$' && s[k] != ','
    ensures StripCurrency(s) == s
  {
    if s != [] {
      StripCurrencyKeepsClean(s[1..]);
    }
  }

  /** Stripping works character by character: it drops a lone "$" or ","
      and keeps any other character, and it distributes over
      concatenation, so the characters it keeps stay in order. */
  lemma {:induction false} StripCurrencyConcat(a: string, b: string)
    ensures StripCurrency(a + b) == StripCurrency(a) + StripCurrency(b)
    ensures |a| == 1 ==> StripCurrency(a) == (if a[0] == '$' || a[0] == ',' then [] else a)
  {
    if a != [] {
      assert (a + b)[1..] == a[1..] + b;
      StripCurrencyConcat(a[1..], b);
    } else {
      assert a + b == b;
    }
  }

  predicate IsDigit(c: char) {
    '0' <= c <= '9'
  }

  /** The longest prefix of decimal digits. */
  function LeadingDigits(s: string): (r: string)
    ensures r <= s
    ensures forall k :: 0 <= k < |r| ==> IsDigit(r[k])
    ensures |r| < |s| ==> !IsDigit(s[|r|])
  {
    if s != [] && IsDigit(s[0]) then [s[0]] + LeadingDigits(s[1..]) else []
  }

  function DigitsValue(ds: string): nat
    requires forall k :: 0 <= k < |ds| ==> IsDigit(ds[k])
  {
    if ds == [] then 0
    else
      assert IsDigit(ds[|ds| - 1]);
      DigitsValue(ds[..|ds| - 1]) * 10 + (ds[|ds| - 1] as int - '0' as int)
  }

  /** `parseInt(s, 10)`: leading whitespace, an optional sign, then the
      longest run of digits; None (NaN) when there is no digit. */
  function ParseInt(s: string): Option<int> {
    var t := TrimStart(s);
    var neg := t != [] && t[0] == '-';
    var body := if t != [] && (t[0] == '-' || t[0] == '+') then t[1..] else t;
    var ds := LeadingDigits(body);
    if ds == [] then None
    else Some(if neg then -(DigitsValue(ds) as int) else DigitsValue(ds))
  }

  /** The decimal numeral of n, without leading zeros. */
  function NatToDigits(n: nat): (r: string)
    ensures r != []
    ensures forall k :: 0 <= k < |r| ==> IsDigit(r[k])
  {
    if n < 10 then [('0' as int + n) as char]
    else NatToDigits(n / 10) + [('0' as int + n % 10) as char]
  }

  lemma {:induction false} DigitsValueOfNumeral(n: nat)
    ensures DigitsValue(NatToDigits(n)) == n
  {
    if n >= 10 {
      DigitsValueOfNumeral(n / 10);
      var r := NatToDigits(n);
      assert r[..|r| - 1] == NatToDigits(n / 10);
    }
  }

  lemma {:induction false} LeadingDigitsOfNumeral(ds: string, rest: string)
    requires forall k :: 0 <= k < |ds| ==> IsDigit(ds[k])
    requires rest == [] || !IsDigit(rest[0])
    ensures LeadingDigits(ds + rest) == ds
  {
    if ds != [] {
      assert (ds + rest)[1..] == ds[1..] + rest;
      LeadingDigitsOfNumeral(ds[1..], rest);
    }
  }

  /** parseInt reads back the numeral of any natural number, whatever
      non-digit text follows it. */
  lemma ParseIntNumeral(n: nat, rest: string)
    requires rest == [] || !IsDigit(rest[0])
    ensures ParseInt(NatToDigits(n) + rest) == Some(n)
  {
    var s := NatToDigits(n) + rest;
    assert !IsWhitespace(s[0]) && s[0] != '-' && s[0] != '+';
    assert TrimStart(s) == s;
    LeadingDigitsOfNumeral(NatToDigits(n), rest);
    DigitsValueOfNumeral(n);
  }

  /** A numeral has no date separator and parses back to its value. */
  lemma NumeralReads(n: nat)
    ensures NoSeparator(NatToDigits(n))
    ensures ParseInt(NatToDigits(n)) == Some(n)
  {
    var ds := NatToDigits(n);
    forall k | 0 <= k < |ds| ensures ds[k] !in DateSeparators {
      assert IsDigit(ds[k]);
    }
    ParseIntNumeral(n, []);
    assert ds + [] == ds;
  }

  /** The separators of /[\/\-\.]/ */
  const DateSeparators: set<char> := {'/', '-', '.'}

  /** `new Date(year, month, day)` maps the years 0 to 99 to 1900 to 1999. */
  function FullYear(year: int): int {
    if 0 <= year <= 99 then 1900 + year else year
  }

  /** The date of a row: a three-part date is read as month/day/year,
      other shapes go to the host's date parser, and an invalid date
      becomes `today`. */
  function ParseRowDate(s: string, parseDate: string -> Option<Date>, today: Date): Date {
    var parts := Split(s, DateSeparators);
    var parsed :=
      if |parts| == 3 then
        match (ParseInt(parts[0]), ParseInt(parts[1]), ParseInt(parts[2]))
        case (Some(month), Some(day), Some(year)) => Some(Date(FullYear(year), month, day))
        case _ => None
      else parseDate(s);
    parsed.GetOr(today)
  }

  lemma {:induction false} SplitAfterPiece(a: string, c: char, b: string, seps: set<char>)
    requires forall k :: 0 <= k < |a| ==> a[k] !in seps
    requires c in seps
    ensures Split(a + [c] + b, seps) == [a] + Split(b, seps)
  {
    if a != [] {
      assert (a + [c] + b)[1..] == a[1..] + [c] + b;
      SplitAfterPiece(a[1..], c, b, seps);
      assert a == [a[0]] + a[1..];
    } else {
      assert a + [c] + b == [c] + b;
    }
  }

  lemma {:induction false} SplitWhole(a: string, seps: set<char>)
    requires forall k :: 0 <= k < |a| ==> a[k] !in seps
    ensures Split(a, seps) == [a]
  {
    if a != [] {
      SplitWhole(a[1..], seps);
      assert a == [a[0]] + a[1..];
    }
  }

  predicate NoSeparator(s: string) {
    forall k :: 0 <= k < |s| ==> s[k] !in DateSeparators
  }

  lemma SplitThree(m: string, d: string, y: string, s1: char, s2: char)
    requires NoSeparator(m) && NoSeparator(d) && NoSeparator(y)
    requires s1 in DateSeparators && s2 in DateSeparators
    ensures Split(m + [s1] + d + [s2] + y, DateSeparators) == [m, d, y]
  {
    assert m + [s1] + d + [s2] + y == m + [s1] + (d + [s2] + y);
    SplitAfterPiece(m, s1, d + [s2] + y, DateSeparators);
    SplitAfterPiece(d, s2, y, DateSeparators);
    SplitWhole(y, DateSeparators);
  }

  /** A date text in three parts whose parts all parse is read as
      month/day/year. */
  lemma ThreePartsRead(s: string, parseDate: string -> Option<Date>, today: Date, month: int, day: int, year: int)
    requires |Split(s, DateSeparators)| == 3
    requires ParseInt(Split(s, DateSeparators)[0]) == Some(month)
    requires ParseInt(Split(s, DateSeparators)[1]) == Some(day)
    requires ParseInt(Split(s, DateSeparators)[2]) == Some(year)
    ensures ParseRowDate(s, parseDate, today) == Date(FullYear(year), month, day)
  {
  }

  /** Numeric month/day/year input, with any of the three separators, is
      read in that order. */
  lemma ReadsMonthDayYear(month: nat, day: nat, year: nat, s1: char, s2: char,
                          parseDate: string -> Option<Date>, today: Date)
    requires s1 in DateSeparators && s2 in DateSeparators
    ensures ParseRowDate(NatToDigits(month) + [s1] + NatToDigits(day) + [s2] + NatToDigits(year), parseDate, today)
            == Date(FullYear(year), month, day)
  {
    var m, d, y := NatToDigits(month), NatToDigits(day), NatToDigits(year);
    NumeralReads(month);
    NumeralReads(day);
    NumeralReads(year);
    SplitThree(m, d, y, s1, s2);
    ThreePartsRead(m + [s1] + d + [s2] + y, parseDate, today, month, day, year);
  }

  /** One row as a draft; Err is the TypeError of calling `replace` or
      `split` on a missing amount or date. */
  function RowToDraft(row: CsvRow, parse: string -> Option<int>, parseDate: string -> Option<Date>,
                      today: Date): Result<TransactionDraft>
  {
    var amountCell := if "amount" in row then row["amount"] else None;
    var dateCell := if "date" in row then row["date"] else None;
    if amountCell.None? then Err("Cannot read properties of undefined (reading 'replace')")
    else if dateCell.None? then Err("Cannot read properties of undefined (reading 'split')")
    else
      var signed := parse(StripCurrency(amountCell.value));
      var isIncome := signed.Some? && signed.value > 0;
      var amount := Magnitude(signed);
      var description := if "description" in row then row["description"] else None;
      Ok(TransactionDraft(amount, description, ParseRowDate(dateCell.value, parseDate, today), isIncome))
  }

  /** `Math.abs` of a parsed amount; NaN stays NaN. */
  function Magnitude(v: Option<int>): Option<int> {
    if v.Some? then Some(if v.value < 0 then -v.value else v.value) else None
  }

  predicate HasAmountAndDate(row: CsvRow) {
    "amount" in row && row["amount"].Some? && "date" in row && row["date"].Some?
  }

  /** `csvRowsToTransactions(rows)`: the drafts of all rows, or the first
      row's error. `parse` stands for parseFloat (in cents), `parseDate` for
      `new Date(text)` and `today` for `new Date()`. */
  function CsvRowsToTransactions(rows: seq<CsvRow>, parse: string -> Option<int>,
                                 parseDate: string -> Option<Date>, today: Date): (r: Result<seq<TransactionDraft>>)
    ensures r.Ok? <==> forall k :: 0 <= k < |rows| ==> HasAmountAndDate(rows[k])
    ensures r.Ok? ==> |r.value| == |rows|
    ensures r.Ok? ==> forall k :: 0 <= k < |rows| ==>
              && r.value[k].description == (if "description" in rows[k] then rows[k]["description"] else None)
              && (r.value[k].amount.Some? ==> r.value[k].amount.value >= 0)
              && (r.value[k].isIncome <==> var v := parse(StripCurrency(rows[k]["amount"].value)); v.Some? && v.value > 0)
              && r.value[k].amount == Magnitude(parse(StripCurrency(rows[k]["amount"].value)))
              && r.value[k].date == ParseRowDate(rows[k]["date"].value, parseDate, today)
  {
    if rows == [] then Ok([])
    else
      match RowToDraft(rows[0], parse, parseDate, today)
      case Err(e) => Err(e)
      case Ok(t) =>
        match CsvRowsToTransactions(rows[1..], parse, parseDate, today)
        case Err(e) => Err(e)
        case Ok(ts) => Ok([t] + ts)
  }
}
