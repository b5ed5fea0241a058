/**
 * `validarColumnasExcel` and `procesarArchivoExcel`: the rows of the first sheet, as
 * `sheet_to_json(hoja, { defval: null })` hands them over, are checked for the required columns
 * and turned into one debit record each.
 */
module Workbook {
  import opened Wrappers
  import opened JsText
  import opened Cells
  import opened HeaderNormalizer
  import opened ExcelDates

  /** One sheet row: (header, cell) pairs in `Object.keys` order. */
  type RawRow = seq<(string, Cell)>

  /**
   * The engine's own parsers, which the model takes as given: `new Date(s)` for text in no
   * recognised form, and `parseFloat(s)` for text (`None` is `NaN`).
   */
  datatype Engine = Engine(parseDate: string -> Option<int>, parseFloat: string -> Option<real>)

  const RequiredColumns: seq<string> := ["estado", "cod_tercero", "fecha_transmision"]

  // ---------------------------------------------------------------------------
  // Required columns

  /** `xs` is `ys` with some elements left out, order kept. */
  predicate IsSubsequence(xs: seq<string>, ys: seq<string>) {
    xs == [] || (ys != [] && (IsSubsequence(xs, ys[1..]) || (xs[0] == ys[0] && IsSubsequence(xs[1..], ys[1..]))))
  }

  /** `required.filter(col => !found.includes(col))`. */
  function MissingColumns(required: seq<string>, found: seq<string>): (r: seq<string>)
    ensures forall c :: c in r <==> c in required && c !in found
    ensures IsSubsequence(r, required)
  {
    if required == [] then []
    else
      var rest := MissingColumns(required[1..], found);
      if required[0] in found then rest else [required[0]] + rest
  }

  datatype ColumnCheck = ColumnCheck(valid: bool, found: seq<string>, missing: seq<string>)

  /** `Object.keys(fila).map(normalizarNombreColumna)`. */
  function Headers(row: RawRow): (hs: seq<string>)
    ensures |hs| == |row| && forall i :: 0 <= i < |row| ==> hs[i] == NormalizeHeader(row[i].0)
  {
    seq(|row|, i requires 0 <= i < |row| => NormalizeHeader(row[i].0))
  }

  /** The check on the normalised headers `found`. */
  function CheckColumns(found: seq<string>): (r: ColumnCheck)
    ensures r.found == found
    ensures forall c :: c in r.missing <==> c in RequiredColumns && c !in found
    ensures IsSubsequence(r.missing, RequiredColumns)
    ensures r.valid <==> forall c :: c in RequiredColumns ==> c in found
  {
    var missing := MissingColumns(RequiredColumns, found);
    assert |missing| > 0 ==> missing[0] in missing;
    ColumnCheck(|missing| == 0, found, missing)
  }

  /**
   * `validarColumnasExcel(primeraFila)`: the normalised headers of the first row, and the required
   * columns none of them names, in the fixed order estado, cod_tercero, fecha_transmision.
   */
  function ValidateColumns(first: RawRow): (r: ColumnCheck)
    ensures r.found == Headers(first)
    ensures forall c :: c in r.missing <==> c in RequiredColumns && c !in Headers(first)
    ensures IsSubsequence(r.missing, RequiredColumns)
    ensures r.valid <==> forall c :: c in RequiredColumns ==> c in Headers(first)
  {
    CheckColumns(Headers(first))
  }

  // ---------------------------------------------------------------------------
  // Normalising one row

  /** The columns of a row under their normalised names. */
  function Renamed(row: RawRow): (pairs: seq<(string, Cell)>)
    ensures |pairs| == |row|
    ensures forall i :: 0 <= i < |row| ==> pairs[i] == (NormalizeHeader(row[i].0), row[i].1)
  {
    seq(|row|, i requires 0 <= i < |row| => (NormalizeHeader(row[i].0), row[i].1))
  }

  /** The object built by assigning `obj[k] = v` for each pair in turn. */
  function Assign(pairs: seq<(string, Cell)>): map<string, Cell> {
    if pairs == [] then map[]
    else Assign(pairs[..|pairs| - 1])[pairs[|pairs| - 1].0 := pairs[|pairs| - 1].1]
  }

  /** The object `filaNormalizada` after the `forEach` over the columns of `row`. */
  function NormalizedRow(row: RawRow): map<string, Cell> {
    Assign(Renamed(row))
  }

  /** The `forEach` that copies every column under its normalised name. */
  method NormalizeRow(row: RawRow) returns (fila: map<string, Cell>)
    ensures fila == NormalizedRow(row)
  {
    ghost var pairs := Renamed(row);
    fila := map[];
    for i := 0 to |row|
      invariant fila == Assign(pairs[..i])
    {
      assert pairs[..i + 1][..i] == pairs[..i];
      fila := fila[NormalizeHeader(row[i].0) := row[i].1];
    }
    assert pairs[..|row|] == pairs;
  }

  /** A name is a key of the assigned object exactly when some pair carries it. */
  lemma {:induction false} AssignKeys(pairs: seq<(string, Cell)>, k: string)
    ensures k in Assign(pairs) <==> exists i :: 0 <= i < |pairs| && pairs[i].0 == k
  {
    if pairs != [] {
      var init := pairs[..|pairs| - 1];
      AssignKeys(init, k);
      if exists i :: 0 <= i < |init| && init[i].0 == k {
        var i :| 0 <= i < |init| && init[i].0 == k;
        assert pairs[i] == init[i];
      }
      if exists i :: 0 <= i < |pairs| && pairs[i].0 == k {
        var i :| 0 <= i < |pairs| && pairs[i].0 == k;
        if i < |init| {
          assert init[i] == pairs[i];
        }
      }
    }
  }

  /** The value kept under a name is that of the last pair carrying it. */
  lemma {:induction false} AssignLastWins(pairs: seq<(string, Cell)>, i: nat)
    requires i < |pairs|
    requires forall j :: i < j < |pairs| ==> pairs[j].0 != pairs[i].0
    ensures pairs[i].0 in Assign(pairs) && Assign(pairs)[pairs[i].0] == pairs[i].1
  {
    var init := pairs[..|pairs| - 1];
    if i < |pairs| - 1 {
      assert init[i] == pairs[i];
      forall j | i < j < |init| ensures init[j].0 != init[i].0 {
        assert init[j] == pairs[j];
      }
      AssignLastWins(init, i);
    }
  }

  /** A name is a key of the normalised row exactly when some column normalises to it. */
  lemma NormalizedRowKeys(row: RawRow, k: string)
    ensures k in NormalizedRow(row) <==> exists i :: 0 <= i < |row| && NormalizeHeader(row[i].0) == k
  {
    var pairs := Renamed(row);
    AssignKeys(pairs, k);
    if exists i :: 0 <= i < |row| && NormalizeHeader(row[i].0) == k {
      var i :| 0 <= i < |row| && NormalizeHeader(row[i].0) == k;
      assert pairs[i].0 == k;
    }
  }

  /** When two headers normalise to one name, the later column's cell is the one kept. */
  lemma LaterColumnWins(row: RawRow, i: nat)
    requires i < |row|
    requires forall j :: i < j < |row| ==> NormalizeHeader(row[j].0) != NormalizeHeader(row[i].0)
    ensures NormalizeHeader(row[i].0) in NormalizedRow(row)
    ensures NormalizedRow(row)[NormalizeHeader(row[i].0)] == row[i].1
  {
    AssignLastWins(Renamed(row), i);
  }

  // ---------------------------------------------------------------------------
  // The debit record of one row

  /** `filaNormalizada[k]`: a column the row does not have reads as `undefined`, which acts as null. */
  function Field(fila: map<string, Cell>, k: string): Cell {
    if k in fila then fila[k] else Blank
  }

  /** `v?.toString() || d`: the default replaces only a null cell or an empty text; `0` and `false` are kept as text. */
  function TextOr(c: Cell, d: string): (r: string)
    ensures c.Blank? ==> r == d
    ensures c.Text? ==> r == if c.s == [] then d else c.s
    ensures c.Num? ==> r == IntToString(c.n)
    ensures c.Flag? ==> r == if c.b then "true" else "false"
    ensures c.DateValue? ==> r == DateString(c.day)
    ensures d != [] ==> r != []
  {
    match ToText(c)
    case Some(s) => if s != [] then s else d
    case None => d
  }

  /** `v?.toString() || null`. */
  function TextOrNull(c: Cell): (r: Option<string>)
    ensures r.None? <==> c.Blank? || c == Text([])
    ensures r.Some? ==> r.value == TextOr(c, [])
  {
    if TextOr(c, []) == [] then None else Some(TextOr(c, []))
  }

  /** `parseFloat(v) || 0`: a number is itself, text goes to the engine's `parseFloat`, anything else is `NaN`, read as 0. */
  function Amount(c: Cell, parseFloat: string -> Option<real>): (r: real)
    ensures c.Num? ==> r == c.n as real
    ensures c.Text? ==> r == parseFloat(c.s).GetOr(0.0)
    ensures c.Blank? || c.Flag? || c.DateValue? ==> r == 0.0
  {
    match c
    case Num(n) => n as real
    case Text(s) => parseFloat(s).GetOr(0.0)
    case _ => 0.0
  }

  datatype DebitRecord = DebitRecord(
    excelRow: int,
    estadoRaw: string,
    moneda: string,
    formaPago: string,
    valorCobrado: real,
    codTercero: string,
    nomTerc: string,
    fechaTransmision: Option<int>,
    fechaPago: Option<int>,
    banco: string,
    tipoCuenta: string,
    numCuenta: string,
    observaciones: Option<string>)

  /**
   * The record built for the row at `index`: it is row `index + 2` of the sheet (row 1 holds the
   * headers), the currency, payment form and account type are never empty, and the payment date
   * falls back to the transmission date only when the payment cell is falsy.
   */
  function CanonicalRecord(fila: map<string, Cell>, index: nat, engine: Engine): (r: DebitRecord)
    ensures r.excelRow == index + 2
    ensures r.moneda != [] && r.formaPago != [] && r.tipoCuenta != []
    ensures r.fechaTransmision == ParseExcelDate(Field(fila, "fecha_transmision"), engine.parseDate)
    ensures Truthy(Field(fila, "fecha_pago")) ==> r.fechaPago == ParseExcelDate(Field(fila, "fecha_pago"), engine.parseDate)
    ensures !Truthy(Field(fila, "fecha_pago")) ==> r.fechaPago == r.fechaTransmision
  {
    var pago := Field(fila, "fecha_pago");
    var transmision := Field(fila, "fecha_transmision");
    DebitRecord(
      index + 2,
      TextOr(Field(fila, "estado"), ""),
      TextOr(Field(fila, "moneda"), "DOLAR"),
      TextOr(Field(fila, "forma_pago"), "DEBITO"),
      Amount(Field(fila, "valor_cobrado"), engine.parseFloat),
      TextOr(Field(fila, "cod_tercero"), ""),
      TextOr(Field(fila, "nom_terc"), ""),
      ParseExcelDate(transmision, engine.parseDate),
      ParseExcelDate(if Truthy(pago) then pago else transmision, engine.parseDate),
      TextOr(Field(fila, "banco"), ""),
      TextOr(Field(fila, "tipo_cuenta"), "DEBITO"),
      TextOr(Field(fila, "num_cuenta"), ""),
      TextOrNull(Field(fila, "observaciones")))
  }

  /** A row with no recognised column gets every default. */
  lemma EmptyRowDefaults(index: nat, engine: Engine)
    ensures CanonicalRecord(map[], index, engine)
      == DebitRecord(index + 2, "", "DOLAR", "DEBITO", 0.0, "", "", None, None, "", "DEBITO", "", None)
  {
  }

  /** Text cells reach the record unchanged: no field is trimmed. */
  lemma TextKeptVerbatim(fila: map<string, Cell>, index: nat, engine: Engine, s: string)
    requires s != [] && Field(fila, "cod_tercero") == Text(s)
    ensures CanonicalRecord(fila, index, engine).codTercero == s
  {
  }

  // ---------------------------------------------------------------------------
  // The whole sheet

  datatype SheetData = SheetData(fileName: string, sheetName: string, totalRows: nat, records: seq<DebitRecord>, hash: string)

  datatype SheetError = EmptySheet | MissingRequired(missing: seq<string>)

  /** The message of the error `procesarArchivoExcel` throws. */
  function SheetErrorMessage(e: SheetError): (msg: string)
    ensures |msg| > |"Error al procesar Excel: "|
    ensures msg[..|"Error al procesar Excel: "|] == "Error al procesar Excel: "
  {
    "Error al procesar Excel: " +
      match e
      case EmptySheet => "El archivo Excel est\U{E1} vac\U{ED}o"
      case MissingRequired(ms) => "El Excel no tiene las columnas requeridas. Faltantes: " + Join(ms, ", ")
  }

  /**
   * `procesarArchivoExcel` after the workbook has been read: an empty sheet and a first row without
   * the required columns are errors; otherwise there is one record per row, in order.
   * `hash` is the file's SHA-256, computed by the caller.
   */
  method ProcessSheet(rows: seq<RawRow>, fileName: string, sheetName: string, hash: string, engine: Engine)
    returns (r: Result<SheetData, SheetError>)
    ensures rows == [] ==> r == Failure(EmptySheet)
    ensures rows != [] && !ValidateColumns(rows[0]).valid ==> r == Failure(MissingRequired(ValidateColumns(rows[0]).missing))
    ensures rows != [] && ValidateColumns(rows[0]).valid ==> r.Success?
    ensures r.Success? ==>
      && r.value.totalRows == |r.value.records| == |rows|
      && r.value.fileName == fileName && r.value.sheetName == sheetName && r.value.hash == hash
      && r.value.records == SheetRecords(rows, engine)
  {
    if |rows| == 0 {
      return Failure(EmptySheet);
    }
    var check := ValidateColumns(rows[0]);
    if !check.valid {
      return Failure(MissingRequired(check.missing));
    }
    var records := CanonicalRecords(rows, engine);
    return Success(SheetData(fileName, sheetName, |records|, records, hash));
  }

  /** The records of a sheet: one per row, in order, the row at `i` numbered `i + 2`. */
  function SheetRecords(rows: seq<RawRow>, engine: Engine): (records: seq<DebitRecord>)
    ensures |records| == |rows|
  {
    seq(|rows|, i requires 0 <= i < |rows| => CanonicalRecord(NormalizedRow(rows[i]), i, engine))
  }

  /** `filas.map((fila, index) => ...)`: the record of every row, in order. */
  method CanonicalRecords(rows: seq<RawRow>, engine: Engine) returns (records: seq<DebitRecord>)
    ensures records == SheetRecords(rows, engine)
  {
    records := [];
    for i := 0 to |rows|
      invariant records == SheetRecords(rows, engine)[..i]
    {
      var record := RowRecord(rows[i], i, engine);
      SheetRecordsStep(rows, engine, i);
      records := records + [record];
    }
    assert SheetRecords(rows, engine)[..|rows|] == SheetRecords(rows, engine);
  }

  lemma SheetRecordsStep(rows: seq<RawRow>, engine: Engine, i: nat)
    requires i < |rows|
    ensures SheetRecords(rows, engine)[..i + 1] == SheetRecords(rows, engine)[..i] + [CanonicalRecord(NormalizedRow(rows[i]), i, engine)]
  {
    PrefixSnoc(SheetRecords(rows, engine), i);
  }

  lemma PrefixSnoc(s: seq<DebitRecord>, i: nat)
    requires i < |s|
    ensures s[..i + 1] == s[..i] + [s[i]]
  {
    assert s[..i + 1][..i] == s[..i];
  }

  /** The callback of the `map`: the row normalised, then read as a record. */
  method RowRecord(row: RawRow, index: nat, engine: Engine) returns (record: DebitRecord)
    ensures record == CanonicalRecord(NormalizedRow(row), index, engine)
  {
    var fila := NormalizeRow(row);
    record := CanonicalRecord(fila, index, engine);
  }
}
