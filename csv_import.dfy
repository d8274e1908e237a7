/** CSV import: the import page's column list (`makeImportData`), the upload probe
    (`checkFileImport`), the submission (`importSubmit`) and the import job's body
    (`importCSV`), which builds one row per CSV line, remaps its columns to fields
    and creates records one by one, counting successes and failures. */
module CsvImport {
  import opened Values
  import opened Resources

  const MaxUploadBytes := 137072
  const IgnoreMarker := "_IGNORE_"
  const InvalidFile := "Arquivo inválido..."
  const FileTooLarge := "Arquivo maior do que o permitido..."

  /** Columns the import page never offers. */
  const HiddenColumns: seq<string> := ["id", "created_at", "deleted_at", "updated_at",
    "email_verified_at", "confirmation_token", "recovery_token", "password"]

  // ---------------------------------------------------------------------------
  // Splitting a line: a plain split on the delimiter, without CSV quoting

  function Split(line: string, d: char): (fields: seq<string>)
    ensures |fields| >= 1
  {
    if line == [] then [""]
    else
      var rest := Split(line[1..], d);
      if line[0] == d then [""] + rest else [[line[0]] + rest[0]] + rest[1..]
  }

  function Join(fields: seq<string>, d: char): string
    requires |fields| >= 1
  {
    if |fields| == 1 then fields[0] else fields[0] + [d] + Join(fields[1..], d)
  }

  /** The line `str_getcsv` parses: `file()` keeps each line's terminator, and a
      trailing "\r\n", "\n" or "\r" is not part of the last field. */
  function Chomp(line: string): string {
    if |line| >= 2 && line[|line| - 2..] == "\r\n" then line[..|line| - 2]
    else if |line| >= 1 && (line[|line| - 1] == '\n' || line[|line| - 1] == '\r') then line[..|line| - 1]
    else line
  }

  /** Only the terminator goes: the line is its body followed by nothing, "\n",
      "\r\n" or "\r", and a line that does not end in a line break is unchanged. */
  lemma ChompStripsTerminator(line: string)
    ensures var body := Chomp(line);
      line == body || line == body + "\n" || line == body + "\r\n" || line == body + "\r"
    ensures |line| == 0 || (line[|line| - 1] != '\n' && line[|line| - 1] != '\r') ==> Chomp(line) == line
  {
  }

  /** `str_getcsv($line, $delimiter)`. */
  function ParseLine(line: string, d: char): seq<string> {
    Split(Chomp(line), d)
  }

  /** Splitting loses nothing: the fields, joined by the delimiter, give the line
      back, and no field holds the delimiter. */
  lemma {:induction false} SplitJoin(line: string, d: char)
    ensures Join(Split(line, d), d) == line
    ensures forall i :: 0 <= i < |Split(line, d)| ==> d !in Split(line, d)[i]
  {
    if line != [] {
      var rest := Split(line[1..], d);
      SplitJoin(line[1..], d);
      var fields := Split(line, d);
      if line[0] == d {
        assert fields[1..] == rest;
        assert line == [d] + line[1..];
      } else {
        assert fields[0] == [line[0]] + rest[0];
        assert fields[1..] == rest[1..];
        if |rest| > 1 {
          assert Join(rest, d) == rest[0] + [d] + Join(rest[1..], d);
        }
        assert line == [line[0]] + line[1..];
        forall i | 0 <= i < |fields| ensures d !in fields[i] {
          if i > 0 {
            assert fields[i] == rest[i];
          }
        }
      }
    }
  }

  // ---------------------------------------------------------------------------
  // The import page

  predicate Importable(column: string) {
    column !in HiddenColumns && Truthy(Str(column))
  }

  /** The `array_filter` of `makeImportData`: its callback returns the column name
      itself, so a name PHP finds falsy ("" or "0") is dropped as well. */
  function ImportableColumns(columns: seq<string>): seq<string> {
    if columns == [] then []
    else
      var last := columns[|columns| - 1];
      ImportableColumns(columns[..|columns| - 1]) + (if Importable(last) then [last] else [])
  }

  lemma {:induction false} ImportableColumnsMembers(columns: seq<string>, c: string)
    ensures c in ImportableColumns(columns) <==> c in columns && Importable(c)
    ensures |ImportableColumns(columns)| <= |columns|
  {
    if columns != [] {
      ImportableColumnsMembers(columns[..|columns| - 1], c);
      assert columns == columns[..|columns| - 1] + [columns[|columns| - 1]];
    }
  }

  datatype ImportData = ImportData(pluralLabel: string, singularLabel: string, route: string, columns: seq<string>)

  /** `import`: the import page needs both `canImport` and `canCreate`; `columns` is
      the table's column listing, as the schema builder reports it. */
  function ImportPage(registry: Registry, ident: string, columns: seq<string>): (r: Result<ImportData>)
    ensures r.Err? <==> Gate(registry, ident, ImportRows).Err?
    ensures r.Err? ==> r.failure == Gate(registry, ident, ImportRows).failure
    ensures r.Ok? ==> forall c :: c in r.value.columns <==> c in columns && Importable(c)
  {
    match Gate(registry, ident, ImportRows)
    case Err(e) => Err(e)
    case Ok(res) =>
      assert forall c :: c in ImportableColumns(columns) <==> c in columns && Importable(c) by {
        forall c { ImportableColumnsMembers(columns, c); }
      }
      Ok(ImportData(res.pluralLabel, res.singularLabel, res.route, ImportableColumns(columns)))
  }

  // ---------------------------------------------------------------------------
  // The upload probe and the submission's guards

  /** An uploaded file: its size in bytes and its lines as `file()` returns them
      (each with its line terminator). */
  datatype Upload = Upload(size: nat, lines: seq<string>)

  datatype Message = Message(kind: string, text: string)

  /** The JSON the import endpoints answer with. */
  datatype ImportReply = Refused(message: Message) | HeaderRow(columns: seq<string>) | Scheduled

  /** `@$csvFile[0]` is truthy: a first line exists and is neither "" nor "0". */
  predicate FirstLineUsable(lines: seq<string>) {
    |lines| > 0 && Truthy(Str(lines[0]))
  }

  /** The guards shared by the probe and the submission, in the order they run. */
  function UploadProblem(file: Option<Upload>): Option<string> {
    match file
    case None => Some(InvalidFile)
    case Some(u) =>
      if u.size > MaxUploadBytes then Some(FileTooLarge)
      else if !FirstLineUsable(u.lines) then Some(InvalidFile)
      else None
  }

  /** `checkFileImport`: the permission gate, then the upload guards, then the
      first line split by the delimiter. */
  function CheckFileImport(registry: Registry, ident: string, file: Option<Upload>, d: char): Result<ImportReply> {
    match Gate(registry, ident, ImportRows)
    case Err(e) => Err(e)
    case Ok(_) =>
      match UploadProblem(file)
      case Some(text) => Ok(Refused(Message("error", text)))
      case None => Ok(HeaderRow(ParseLine(file.value.lines[0], d)))
  }

  /** The probe's outcomes: 403/404 from the gate before anything else; then a
      missing file, then an oversized one (whatever its lines hold), then an
      unusable first line; otherwise the header, which joins back to the first line
      without its terminator. */
  lemma ProbeOutcomes(registry: Registry, ident: string, file: Option<Upload>, d: char)
    ensures var r := CheckFileImport(registry, ident, file, d);
      && (Gate(registry, ident, ImportRows).Err? ==> r == Err(Gate(registry, ident, ImportRows).failure))
      && (Gate(registry, ident, ImportRows).Ok? ==>
            && (file.None? ==> r == Ok(Refused(Message("error", InvalidFile))))
            && (file.Some? && file.value.size > MaxUploadBytes ==>
                  forall other :: CheckFileImport(registry, ident, Some(Upload(file.value.size, other)), d)
                    == Ok(Refused(Message("error", FileTooLarge))))
            && (file.Some? && file.value.size <= MaxUploadBytes && !FirstLineUsable(file.value.lines) ==>
                  r == Ok(Refused(Message("error", InvalidFile))))
            && (r.Ok? && r.value.HeaderRow? <==> UploadProblem(file).None?)
            && (r.Ok? && r.value.HeaderRow? ==> Join(r.value.columns, d) == Chomp(file.value.lines[0])))
  {
    if file.Some? && |file.value.lines| > 0 {
      SplitJoin(Chomp(file.value.lines[0]), d);
    }
  }

  // ---------------------------------------------------------------------------
  // Building the data rows

  /** The decoded import configuration: the delimiter, the CSV header chosen by the
      user, and the field list, column name to target field, in JSON order. */
  datatype Mapping = Mapping(key: string, target: string)
  datatype ImportConfig = ImportConfig(delimiter: char, csvHeader: seq<string>, fieldlist: seq<Mapping>)

  /** `$columns[$y]`: the column, or null past the end of a short line. */
  function Column(columns: seq<string>, y: nat): Value {
    if y < |columns| then Str(columns[y]) else Null
  }

  /** The row the first `n` headers build, a repeated header keeping its last column. */
  function RowOf(headers: seq<string>, columns: seq<string>, n: nat): Record
    requires n <= |headers|
  {
    if n == 0 then map[] else RowOf(headers, columns, n - 1)[headers[n - 1] := Column(columns, n - 1)]
  }

  /** Header `y` is the last of the first `n` with its name. */
  predicate LastOccurrence(s: seq<string>, y: nat, n: nat)
    requires y < n <= |s|
  {
    forall z :: y < z < n ==> s[z] != s[y]
  }

  /** The inner `for`: `$_data[$headers[$y]] = $columns[$y]`. */
  method BuildRow(headers: seq<string>, columns: seq<string>) returns (row: Record)
    ensures row == RowOf(headers, columns, |headers|)
  {
    row := map[];
    for y := 0 to |headers|
      invariant row == RowOf(headers, columns, y)
    {
      row := row[headers[y] := Column(columns, y)];
    }
  }

  /** A row's keys are the header names, and each header gets the column at its position. */
  lemma {:induction false} RowOfKeys(headers: seq<string>, columns: seq<string>, n: nat)
    requires n <= |headers|
    ensures RowOf(headers, columns, n).Keys == (set y | 0 <= y < n :: headers[y])
  {
    if n > 0 {
      RowOfKeys(headers, columns, n - 1);
      var before := set y | 0 <= y < n - 1 :: headers[y];
      var after := set y | 0 <= y < n :: headers[y];
      assert after == before + {headers[n - 1]} by {
        forall x | x in after ensures x in before + {headers[n - 1]} {
          var y :| 0 <= y < n && headers[y] == x;
          if y < n - 1 {
            assert x in before;
          }
        }
      }
    }
  }

  lemma {:induction false} RowOfValue(headers: seq<string>, columns: seq<string>, n: nat, y: nat)
    requires y < n <= |headers| && LastOccurrence(headers, y, n)
    ensures headers[y] in RowOf(headers, columns, n)
    ensures RowOf(headers, columns, n)[headers[y]] == Column(columns, y)
  {
    if y < n - 1 {
      assert LastOccurrence(headers, y, n - 1);
      RowOfValue(headers, columns, n - 1, y);
    }
  }

  /** The rows the job builds from lines 1 to `n - 1`; line 0 is the header line. A
      row is kept when it is a non-empty array. */
  function DataRows(lines: seq<string>, cfg: ImportConfig, n: nat): seq<Record>
    requires n <= |lines|
  {
    if n <= 1 then []
    else
      var row := RowOf(cfg.csvHeader, ParseLine(lines[n - 1], cfg.delimiter), |cfg.csvHeader|);
      DataRows(lines, cfg, n - 1) + (if row != map[] then [row] else [])
  }

  /** With a non-empty header every line after the first gives one row, built from
      that line's columns; with an empty header no line gives a row. */
  lemma {:induction false} DataRowsAt(lines: seq<string>, cfg: ImportConfig, n: nat)
    requires n <= |lines|
    ensures |cfg.csvHeader| == 0 ==> DataRows(lines, cfg, n) == []
    ensures |cfg.csvHeader| > 0 ==> |DataRows(lines, cfg, n)| == (if n == 0 then 0 else n - 1)
    ensures |cfg.csvHeader| > 0 ==> forall k :: 0 <= k < |DataRows(lines, cfg, n)| ==>
      DataRows(lines, cfg, n)[k] == RowOf(cfg.csvHeader, ParseLine(lines[k + 1], cfg.delimiter), |cfg.csvHeader|)
  {
    if n > 1 {
      DataRowsAt(lines, cfg, n - 1);
      var h := cfg.csvHeader;
      var row := RowOf(h, ParseLine(lines[n - 1], cfg.delimiter), |h|);
      RowOfKeys(h, ParseLine(lines[n - 1], cfg.delimiter), |h|);
      if |h| > 0 {
        assert h[0] in row.Keys;
      } else {
        assert row.Keys == {};
      }
    }
  }

  /** The outer `for`: one row per line after the header line. */
  method BuildDataRows(lines: seq<string>, cfg: ImportConfig) returns (data: seq<Record>)
    ensures data == DataRows(lines, cfg, |lines|)
  {
    var headers := cfg.csvHeader;
    data := [];
    var i := 1;
    while i < |lines|
      invariant 1 <= i
      invariant i <= |lines| || |lines| == 0
      invariant data == DataRows(lines, cfg, if i <= |lines| then i else 0)
    {
      var columns := ParseLine(lines[i], cfg.delimiter);
      var row := BuildRow(headers, columns);
      if row != map[] {
        data := data + [row];
      }
      i := i + 1;
    }
  }

  // ---------------------------------------------------------------------------
  // Remapping a row to the resource's fields

  /** `$new[$value] = $row[$key]` for the first `n` entries of the field list whose
      target is not the ignore marker. */
  function Remap(row: Record, fieldlist: seq<Mapping>, n: nat): Record
    requires n <= |fieldlist|
  {
    if n == 0 then map[]
    else
      var e := fieldlist[n - 1];
      var m := Remap(row, fieldlist, n - 1);
      if e.target != IgnoreMarker then m[e.target := Get(row, e.key)] else m
  }

  method RemapRow(row: Record, fieldlist: seq<Mapping>) returns (created: Record)
    ensures created == Remap(row, fieldlist, |fieldlist|)
  {
    created := map[];
    for k := 0 to |fieldlist|
      invariant created == Remap(row, fieldlist, k)
    {
      var e := fieldlist[k];
      if e.target != IgnoreMarker {
        created := created[e.target := Get(row, e.key)];
      }
    }
  }

  /** The remapped row holds exactly the targets that are not ignored: nothing else
      enters the created record. */
  lemma {:induction false} RemapKeys(row: Record, fieldlist: seq<Mapping>, n: nat)
    requires n <= |fieldlist|
    ensures Remap(row, fieldlist, n).Keys ==
      (set k | 0 <= k < n && fieldlist[k].target != IgnoreMarker :: fieldlist[k].target)
    ensures IgnoreMarker !in Remap(row, fieldlist, n)
  {
    if n > 0 {
      RemapKeys(row, fieldlist, n - 1);
      var before := set k | 0 <= k < n - 1 && fieldlist[k].target != IgnoreMarker :: fieldlist[k].target;
      var after := set k | 0 <= k < n && fieldlist[k].target != IgnoreMarker :: fieldlist[k].target;
      var e := fieldlist[n - 1];
      assert after == before + (if e.target != IgnoreMarker then {e.target} else {}) by {
        forall x | x in after ensures x in before + (if e.target != IgnoreMarker then {e.target} else {}) {
          var k :| 0 <= k < n && fieldlist[k].target != IgnoreMarker && fieldlist[k].target == x;
          if k < n - 1 {
            assert x in before;
          }
        }
      }
    }
  }

  /** Entry `k` is the last of the first `n` with its target. */
  predicate LastTarget(fieldlist: seq<Mapping>, k: nat, n: nat)
    requires k < n <= |fieldlist|
  {
    forall j :: k < j < n ==> fieldlist[j].target != fieldlist[k].target
  }

  /** Each kept target receives the row's value under its key. */
  lemma {:induction false} RemapValue(row: Record, fieldlist: seq<Mapping>, n: nat, k: nat)
    requires k < n <= |fieldlist| && LastTarget(fieldlist, k, n)
    requires fieldlist[k].target != IgnoreMarker
    ensures fieldlist[k].target in Remap(row, fieldlist, n)
    ensures Remap(row, fieldlist, n)[fieldlist[k].target] == Get(row, fieldlist[k].key)
  {
    if k < n - 1 {
      assert LastTarget(fieldlist, k, n - 1);
      RemapValue(row, fieldlist, n - 1, k);
    }
  }

  // ---------------------------------------------------------------------------
  // Creating the records and counting

  function CountTrue(s: seq<bool>): nat {
    if s == [] then 0 else CountTrue(s[..|s| - 1]) + (if s[|s| - 1] then 1 else 0)
  }

  /** The remapped rows whose creation succeeded, in order. */
  function Created(data: seq<Record>, fieldlist: seq<Mapping>, outcomes: seq<bool>): seq<Record>
    requires |data| == |outcomes|
  {
    if data == [] then []
    else
      var n := |data|;
      Created(data[..n - 1], fieldlist, outcomes[..n - 1])
        + (if outcomes[n - 1] then [Remap(data[n - 1], fieldlist, |fieldlist|)] else [])
  }

  /** The rows as stored: the keys `first`, `first + 1`, ... in creation order. */
  function Stamped(rows: seq<Record>, first: int): seq<Record> {
    if rows == [] then []
    else
      var n := |rows|;
      Stamped(rows[..n - 1], first) + [rows[n - 1]["id" := Int(first + n - 1)]]
  }

  lemma {:induction false} CreatedLength(data: seq<Record>, fieldlist: seq<Mapping>, outcomes: seq<bool>)
    requires |data| == |outcomes|
    ensures |Created(data, fieldlist, outcomes)| == CountTrue(outcomes)
  {
    if data != [] {
      CreatedLength(data[..|data| - 1], fieldlist, outcomes[..|outcomes| - 1]);
    }
  }

  lemma CreatedStep(data: seq<Record>, fieldlist: seq<Mapping>, outcomes: seq<bool>, i: nat, ok: bool)
    requires i < |data| && |outcomes| == i
    ensures ok ==> (Created(data[..i + 1], fieldlist, outcomes + [ok])
                    == Created(data[..i], fieldlist, outcomes) + [Remap(data[i], fieldlist, |fieldlist|)])
    ensures !ok ==> Created(data[..i + 1], fieldlist, outcomes + [ok]) == Created(data[..i], fieldlist, outcomes)
  {
    assert data[..i + 1][..i] == data[..i];
    assert (outcomes + [ok])[..i] == outcomes;
  }

  lemma StampedStep(rows: seq<Record>, r: Record, first: int)
    ensures Stamped(rows + [r], first) == Stamped(rows, first) + [r["id" := Int(first + |rows|)]]
  {
    assert (rows + [r])[..|rows|] == rows;
  }

  /** The success notice, as written: more than one row takes the plural label with
      the singular participle, one row the singular label with the plural one. */
  function SuccessText(res: Resource, count: nat): string {
    NatToString(count) + " "
      + (if count > 1 then res.pluralLabel + " importado" else res.singularLabel + " importados")
      + " com sucesso !!"
  }

  /** The failure notice, as written, with the verbs swapped the same way. */
  function DangerText(res: Resource, errors: nat): string {
    NatToString(errors) + " "
      + (if errors > 1 then res.pluralLabel + " não pode" else res.singularLabel + " não puderam")
      + " ser importados !!"
  }

  /** The notifications sent once the batch is done. */
  function ImportNotices(res: Resource, count: nat, errors: nat): seq<Notice> {
    (if count > 0 then [Notice("success", SuccessText(res, count))] else [])
      + (if errors > 0 then [Notice("danger", DangerText(res, errors))] else [])
  }

  /** At most one success and one danger notice: a success notice exactly when some
      row was created, a danger notice exactly when some row failed. */
  lemma ImportNoticesSummary(res: Resource, count: nat, errors: nat)
    ensures var ns := ImportNotices(res, count, errors);
      && |ns| <= 2
      && ((exists i :: 0 <= i < |ns| && ns[i].level == "success") <==> count > 0)
      && ((exists i :: 0 <= i < |ns| && ns[i].level == "danger") <==> errors > 0)
      && (forall i :: 0 <= i < |ns| && ns[i].level == "success" ==> ns[i].text == SuccessText(res, count))
      && (forall i :: 0 <= i < |ns| && ns[i].level == "danger" ==> ns[i].text == DangerText(res, errors))
  {
    var ns := ImportNotices(res, count, errors);
    if count > 0 {
      assert ns[0].level == "success";
    }
    if errors > 0 {
      assert ns[|ns| - 1].level == "danger";
    }
  }

  // ---------------------------------------------------------------------------
  // Number agreement of the two notices

  predicate EndsWith(t: string, e: string) {
    |e| <= |t| && t[|t| - |e|..] == e
  }

  const SuccessPlural := " importados com sucesso !!"
  const SuccessSingular := " importado com sucesso !!"
  const DangerPlural := " não puderam ser importados !!"
  const DangerSingular := " não pôde ser importado !!"

  /** A notice about `n` rows agrees in number: the plural ending for more than one
      row, the singular ending for one. */
  predicate Agrees(n: nat, text: string, plural: string, singular: string) {
    if n > 1 then EndsWith(text, plural) else EndsWith(text, singular)
  }

  /** The success notice with the participle agreeing with the count. */
  function IntendedSuccessText(res: Resource, count: nat): string {
    NatToString(count) + " " + (if count > 1 then res.pluralLabel + SuccessPlural else res.singularLabel + SuccessSingular)
  }

  /** The failure notice with verb and participle agreeing with the count. */
  function IntendedDangerText(res: Resource, errors: nat): string {
    NatToString(errors) + " " + (if errors > 1 then res.pluralLabel + DangerPlural else res.singularLabel + DangerSingular)
  }

  lemma EndsWithSuffix(p: string, e: string)
    ensures EndsWith(p + e, e)
  {
    assert (p + e)[|p|..] == e;
  }

  /** Two texts whose `k`-th characters from the end differ cannot share that suffix. */
  lemma DiffersNearEnd(p: string, s: string, e: string, k: nat)
    requires 0 < k <= |s| && k <= |e| && s[|s| - k] != e[|e| - k]
    ensures !EndsWith(p + s, e)
  {
    var t := p + s;
    assert t[|t| - k] == s[|s| - k];
  }

  /** As written, no success notice about a positive count agrees in number. */
  lemma SuccessTextDisagrees(res: Resource, count: nat)
    requires count > 0
    ensures !Agrees(count, SuccessText(res, count), SuccessPlural, SuccessSingular)
  {
    var n := NatToString(count);
    if count > 1 {
      var tail := " importado com sucesso !!";
      assert SuccessText(res, count) == (n + " " + res.pluralLabel) + tail;
      DiffersNearEnd(n + " " + res.pluralLabel, tail, SuccessPlural, 16);
    } else {
      var tail := " importados com sucesso !!";
      assert SuccessText(res, count) == (n + " " + res.singularLabel) + tail;
      DiffersNearEnd(n + " " + res.singularLabel, tail, SuccessSingular, 16);
    }
  }

  /** As written, no failure notice about a positive count agrees in number. */
  lemma DangerTextDisagrees(res: Resource, errors: nat)
    requires errors > 0
    ensures !Agrees(errors, DangerText(res, errors), DangerPlural, DangerSingular)
  {
    var n := NatToString(errors);
    if errors > 1 {
      var tail := " não pode ser importados !!";
      assert DangerText(res, errors) == (n + " " + res.pluralLabel) + tail;
      DiffersNearEnd(n + " " + res.pluralLabel, tail, DangerPlural, 19);
    } else {
      var tail := " não puderam ser importados !!";
      assert DangerText(res, errors) == (n + " " + res.singularLabel) + tail;
      DiffersNearEnd(n + " " + res.singularLabel, tail, DangerSingular, 4);
    }
  }

  lemma IntendedTextsAgree(res: Resource, n: nat)
    ensures Agrees(n, IntendedSuccessText(res, n), SuccessPlural, SuccessSingular)
    ensures Agrees(n, IntendedDangerText(res, n), DangerPlural, DangerSingular)
  {
    var name := if n > 1 then res.pluralLabel else res.singularLabel;
    var success := if n > 1 then SuccessPlural else SuccessSingular;
    var danger := if n > 1 then DangerPlural else DangerSingular;
    assert IntendedSuccessText(res, n) == (NatToString(n) + " " + name) + success;
    assert IntendedDangerText(res, n) == (NatToString(n) + " " + name) + danger;
    EndsWithSuffix(NatToString(n) + " " + name, success);
    EndsWithSuffix(NatToString(n) + " " + name, danger);
  }

  /** The job's `foreach`: try to create each remapped row; a failed creation is
      counted and the batch goes on. `outcomes` records which creations succeeded. */
  method CreateRows(data: seq<Record>, fieldlist: seq<Mapping>, table: Table)
    returns (count: nat, errors: nat, ghost outcomes: seq<bool>)
    requires table.Valid()
    modifies table
    ensures table.Valid()
    ensures |outcomes| == |data| && count == CountTrue(outcomes) && count + errors == |data|
    ensures table.rows == old(table.rows) + Stamped(Created(data, fieldlist, outcomes), old(table.nextId))
  {
    errors := 0;
    count := 0;
    outcomes := [];
    for i := 0 to |data|
      invariant |outcomes| == i && count == CountTrue(outcomes) && count + errors == i
      invariant table.Valid() && table.nextId == old(table.nextId) + count
      invariant table.rows == old(table.rows) + Stamped(Created(data[..i], fieldlist, outcomes), old(table.nextId))
    {
      var created := RemapRow(data[i], fieldlist);
      ghost var done := Created(data[..i], fieldlist, outcomes);
      CreatedLength(data[..i], fieldlist, outcomes);
      var ok := table.Insert(created);
      CreatedStep(data, fieldlist, outcomes, i, ok);
      if ok {
        StampedStep(done, created, old(table.nextId));
        assert table.rows == old(table.rows) + Stamped(done + [created], old(table.nextId));
        count := count + 1;
      } else {
        errors := errors + 1;
      }
      outcomes := outcomes + [ok];
    }
    assert data[..|data|] == data;
  }

  /** The job's body (`importCSV`), run synchronously: build the rows, create them,
      then send the notifications. */
  method ImportJob(res: Resource, lines: seq<string>, cfg: ImportConfig, table: Table)
    returns (count: nat, errors: nat, notices: seq<Notice>, ghost outcomes: seq<bool>)
    requires table.Valid()
    modifies table
    ensures table.Valid()
    ensures |outcomes| == |DataRows(lines, cfg, |lines|)|
    ensures count == CountTrue(outcomes) && count + errors == |outcomes|
    ensures table.rows == old(table.rows)
      + Stamped(Created(DataRows(lines, cfg, |lines|), cfg.fieldlist, outcomes), old(table.nextId))
    ensures notices == ImportNotices(res, count, errors)
  {
    var data := BuildDataRows(lines, cfg);
    count, errors, outcomes := CreateRows(data, cfg.fieldlist, table);
    notices := [];
    if count > 0 {
      notices := notices + [Notice("success", SuccessText(res, count))];
    }
    if errors > 0 {
      notices := notices + [Notice("danger", DangerText(res, errors))];
    }
  }

  /** Every data row is accounted for: with a non-empty header, created plus failed
      is the number of lines after the header line. */
  lemma ImportAccounting(lines: seq<string>, cfg: ImportConfig, outcomes: seq<bool>, errors: nat)
    requires |lines| > 0 && |cfg.csvHeader| > 0
    requires |outcomes| == |DataRows(lines, cfg, |lines|)| && CountTrue(outcomes) + errors == |outcomes|
    ensures CountTrue(outcomes) + errors == |lines| - 1
  {
    DataRowsAt(lines, cfg, |lines|);
  }

  /** The request's `file` entry as `importSubmit` reads it, with a plain index:
      missing altogether, or present and holding an upload or nothing usable. */
  datatype FileEntry = Missing | Entry(upload: Option<Upload>)

  /** `importSubmit`: the gate, then the same file checks as `checkFileImport`, then
      the decoded `config` entry, then the job; the reply does not wait for the job.
      A missing `file` or `config` entry is read with a plain index, which raises
      (HTTP 500) before anything is imported. */
  method ImportSubmit(registry: Registry, ident: string, file: FileEntry, config: Option<ImportConfig>, table: Table)
    returns (r: Result<ImportReply>, notices: seq<Notice>, ghost outcomes: seq<bool>)
    requires table.Valid()
    modifies table
    ensures table.Valid()
    ensures Gate(registry, ident, ImportRows).Err? ==>
      r == Err(Gate(registry, ident, ImportRows).failure) && table.rows == old(table.rows) && notices == []
    ensures Gate(registry, ident, ImportRows).Ok? && file.Missing? ==>
      r == Err(ServerError) && table.rows == old(table.rows) && notices == []
    ensures Gate(registry, ident, ImportRows).Ok? && file.Entry? && UploadProblem(file.upload).Some? ==>
      r == Ok(Refused(Message("error", UploadProblem(file.upload).value))) && table.rows == old(table.rows) && notices == []
    ensures Gate(registry, ident, ImportRows).Ok? && file.Entry? && UploadProblem(file.upload).None? && config.None? ==>
      r == Err(ServerError) && table.rows == old(table.rows) && notices == []
    ensures Gate(registry, ident, ImportRows).Ok? && file.Entry? && UploadProblem(file.upload).None? && config.Some? ==>
      var lines, cfg := file.upload.value.lines, config.value;
      var count := CountTrue(outcomes);
      && r == Ok(Scheduled)
      && |outcomes| == |DataRows(lines, cfg, |lines|)|
      && count <= |outcomes|
      && table.rows == old(table.rows) + Stamped(Created(DataRows(lines, cfg, |lines|), cfg.fieldlist, outcomes), old(table.nextId))
      && notices == ImportNotices(registry[ident], count, |outcomes| - count)
  {
    notices := [];
    outcomes := [];
    var gate := Gate(registry, ident, ImportRows);
    if gate.Err? {
      return Err(gate.failure), notices, outcomes;
    }
    if file.Missing? {
      return Err(ServerError), notices, outcomes;
    }
    var problem := UploadProblem(file.upload);
    if problem.Some? {
      return Ok(Refused(Message("error", problem.value))), notices, outcomes;
    }
    if config.None? {
      return Err(ServerError), notices, outcomes;
    }
    var count, errors;
    count, errors, notices, outcomes := ImportJob(gate.value, file.upload.value.lines, config.value, table);
    r := Ok(Scheduled);
  }
}
