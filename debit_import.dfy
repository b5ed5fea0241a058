/**
 * `importarExcelDebitos`: the import of one bank-debit workbook into the database, over an
 * abstract view of the three tables it touches (`lotes_importacion`, `cobros` and the approved
 * TITULAR rows of `benefactores`).
 *
 * The database follows PostgreSQL's transaction rules: once a statement inside `BEGIN` fails, the
 * transaction is aborted and every later statement fails with the same "transaction is aborted"
 * error until `ROLLBACK`. The batch id is drawn from a sequence, which a rollback does not rewind.
 */
module DebitImport {
  import opened Wrappers
  import opened Cells
  import opened Workbook
  import opened Period

  /** The columns `INSERT INTO lotes_importacion` writes. */
  datatype Batch = Batch(id: int, fileName: string, hash: string, mes: int, anio: int, totalRegistros: nat, userId: int)

  /** One row of `cobros`, as the import loop inserts it. */
  datatype Cobro = Cobro(
    idBenefactor: int,
    fechaTransmision: Option<int>,
    fechaPago: Option<int>,
    codTercero: string,
    estado: string,
    estadoBancoRaw: string,
    moneda: string,
    formaPago: string,
    valorCobrado: real,
    empresa: string,
    tipoMovimiento: string,
    pais: string,
    banco: string,
    tipoCuenta: string,
    numCuenta: string,
    observaciones: Option<string>,
    idLote: int,
    filaExcel: int)

  /** An entry of `errores`. */
  datatype RowError = RowError(fila: int, codTercero: string, error: string)

  /** What one record of the sheet becomes: a cobro or an error entry, never both. */
  datatype RowOutcome = Inserted(cobro: Cobro) | Rejected(rowError: RowError)

  /** The row `procesar_lote_debitos` returns; its body is not part of this model. */
  datatype Processing = Processing(
    totalProcesados: int, titularesAportados: int, titularesNoAportados: int, dependientesActualizados: int, errores: int)

  datatype ImportResult = ImportResult(
    batch: Batch, exitosos: nat, fallidos: nat, processing: Processing, errores: Option<seq<RowError>>)

  /** Why an import is refused; each is a thrown `Error` in the source. */
  datatype ImportError =
    | SheetInvalid(sheetError: SheetError)
    | NoDatedRows(message: string)
    | AlreadyImported(previousFileName: string)
    | DatabaseError(message: string)

  const NotFoundMessage := "Titular no encontrado o no aprobado"

  /** The message PostgreSQL gives every statement of an aborted transaction (SQLSTATE 25P02). */
  const AbortedMessage := "current transaction is aborted, commands ignored until end of transaction block"

  /**
   * The cobro inserted for `d` under batch `idLote`, for the titular `idBenefactor`: the bank's raw
   * status is stored twice, and company, movement type and country are fixed.
   */
  function MakeCobro(d: DebitRecord, idBenefactor: int, idLote: int): (c: Cobro)
    ensures c.idBenefactor == idBenefactor && c.idLote == idLote && c.filaExcel == d.excelRow
    ensures c.estado == d.estadoRaw && c.estadoBancoRaw == d.estadoRaw
    ensures c.codTercero == d.codTercero
    ensures c.empresa == "BANCO" && c.tipoMovimiento == "Cobro" && c.pais == "Ecuador"
  {
    Cobro(idBenefactor, d.fechaTransmision, d.fechaPago, d.codTercero, d.estadoRaw, d.estadoRaw, d.moneda,
      d.formaPago, d.valorCobrado, "BANCO", "Cobro", "Ecuador", d.banco, d.tipoCuenta, d.numCuenta,
      d.observaciones, idLote, d.excelRow)
  }

  /** The outcomes of the loop over a prefix of the records, and whether the transaction is aborted. */
  datatype Load = Load(outcomes: seq<RowOutcome>, aborted: bool)

  /**
   * One turn of the loop, in a transaction `aborted` or not: with the transaction aborted the
   * titular `SELECT` fails; a code with no approved titular gives the not-found entry; otherwise
   * the cobro is inserted, and an insert that fails records the database's message and aborts the
   * transaction. The second component tells whether the transaction is aborted afterwards.
   */
  function RowStep(aborted: bool, d: DebitRecord, titulares: map<string, int>, idLote: int, insertError: Cobro -> Option<string>): (RowOutcome, bool) {
    if aborted then (Rejected(RowError(d.excelRow, d.codTercero, AbortedMessage)), true)
    else if d.codTercero !in titulares then (Rejected(RowError(d.excelRow, d.codTercero, NotFoundMessage)), false)
    else
      var c := MakeCobro(d, titulares[d.codTercero], idLote);
      match insertError(c)
      case None => (Inserted(c), false)
      case Some(msg) => (Rejected(RowError(d.excelRow, d.codTercero, msg)), true)
  }

  function LoadStep(l: Load, d: DebitRecord, titulares: map<string, int>, idLote: int, insertError: Cobro -> Option<string>): Load {
    var (o, aborted) := RowStep(l.aborted, d, titulares, idLote, insertError);
    Load(l.outcomes + [o], aborted)
  }

  /** The loop `for (const dato of excel.datos)` over `records`, started in a healthy transaction. */
  function LoadRecords(records: seq<DebitRecord>, titulares: map<string, int>, idLote: int, insertError: Cobro -> Option<string>): (l: Load)
    ensures |l.outcomes| == |records|
  {
    if records == [] then Load([], false)
    else LoadStep(LoadRecords(records[..|records| - 1], titulares, idLote, insertError), records[|records| - 1], titulares, idLote, insertError)
  }

  /** The loop over one more record takes one more step. */
  lemma LoadPrefix(records: seq<DebitRecord>, i: nat, titulares: map<string, int>, idLote: int, insertError: Cobro -> Option<string>)
    requires i < |records|
    ensures var l := LoadRecords(records[..i], titulares, idLote, insertError);
      var step := RowStep(l.aborted, records[i], titulares, idLote, insertError);
      LoadRecords(records[..i + 1], titulares, idLote, insertError) == Load(l.outcomes + [step.0], step.1)
  {
    assert records[..i + 1][..i] == records[..i];
  }

  function Cobros(os: seq<RowOutcome>): (cs: seq<Cobro>)
    ensures |cs| <= |os|
  {
    if os == [] then []
    else Cobros(os[..|os| - 1]) + (if os[|os| - 1].Inserted? then [os[|os| - 1].cobro] else [])
  }

  function Errors(os: seq<RowOutcome>): (es: seq<RowError>)
    ensures |es| <= |os|
  {
    if os == [] then []
    else Errors(os[..|os| - 1]) + (if os[|os| - 1].Rejected? then [os[|os| - 1].rowError] else [])
  }

  /** The cobros and errors of one more outcome. */
  lemma SnocOutcome(os: seq<RowOutcome>, o: RowOutcome)
    ensures Cobros(os + [o]) == Cobros(os) + (if o.Inserted? then [o.cobro] else [])
    ensures Errors(os + [o]) == Errors(os) + (if o.Rejected? then [o.rowError] else [])
  {
    assert (os + [o])[..|os|] == os;
  }

  /** Each turn of the loop appends one outcome to those before it. */
  lemma LoadSnoc(records: seq<DebitRecord>, titulares: map<string, int>, idLote: int, insertError: Cobro -> Option<string>)
    returns (o: RowOutcome)
    requires records != []
    ensures LoadRecords(records, titulares, idLote, insertError).outcomes
      == LoadRecords(records[..|records| - 1], titulares, idLote, insertError).outcomes + [o]
  {
    var l := LoadRecords(records, titulares, idLote, insertError);
    o := l.outcomes[|records| - 1];
  }

  /** Every outcome is counted exactly once, as a cobro or as an error. */
  lemma {:induction false} CobrosPlusErrors(os: seq<RowOutcome>)
    ensures |Cobros(os)| + |Errors(os)| == |os|
  {
    if os != [] {
      CobrosPlusErrors(os[..|os| - 1]);
    }
  }

  /** The cobro a found titular would get, whatever happened before it. */
  function Attempt(d: DebitRecord, titulares: map<string, int>, idLote: int): Cobro
    requires d.codTercero in titulares
  {
    MakeCobro(d, titulares[d.codTercero], idLote)
  }

  /** The loop yields one outcome per record, and outcome `i` is about record `i`. */
  lemma {:induction false} LoadOutcomes(records: seq<DebitRecord>, titulares: map<string, int>, idLote: int, insertError: Cobro -> Option<string>, i: nat)
    requires i < |records|
    ensures var os := LoadRecords(records, titulares, idLote, insertError).outcomes;
      && |os| == |records|
      && (os[i].Inserted? ==> records[i].codTercero in titulares && os[i].cobro == Attempt(records[i], titulares, idLote))
      && (os[i].Rejected? ==> os[i].rowError.fila == records[i].excelRow && os[i].rowError.codTercero == records[i].codTercero)
      && (records[i].codTercero !in titulares ==> os[i].Rejected?)
  {
    var init := records[..|records| - 1];
    if i < |records| - 1 {
      LoadOutcomes(init, titulares, idLote, insertError, i);
      assert init[i] == records[i];
    } else if init != [] {
      LoadOutcomes(init, titulares, idLote, insertError, 0);
    }
  }

  /** The transaction ends aborted exactly when the insert of some found titular's cobro fails. */
  lemma {:induction false} LoadAborted(records: seq<DebitRecord>, titulares: map<string, int>, idLote: int, insertError: Cobro -> Option<string>)
    ensures LoadRecords(records, titulares, idLote, insertError).aborted
      <==> exists i :: 0 <= i < |records| && records[i].codTercero in titulares && insertError(Attempt(records[i], titulares, idLote)).Some?
  {
    if records != [] {
      var init := records[..|records| - 1];
      LoadAborted(init, titulares, idLote, insertError);
      if exists i :: 0 <= i < |init| && init[i].codTercero in titulares && insertError(Attempt(init[i], titulares, idLote)).Some? {
        var i :| 0 <= i < |init| && init[i].codTercero in titulares && insertError(Attempt(init[i], titulares, idLote)).Some?;
        assert records[i] == init[i];
      }
      if exists i :: 0 <= i < |records| && records[i].codTercero in titulares && insertError(Attempt(records[i], titulares, idLote)).Some? {
        var i :| 0 <= i < |records| && records[i].codTercero in titulares && insertError(Attempt(records[i], titulares, idLote)).Some?;
        if i < |init| {
          assert init[i] == records[i];
        }
      }
    }
  }

  /** In a transaction that was never aborted, every error entry is a titular that was not found. */
  lemma {:induction false} HealthyLoadErrors(records: seq<DebitRecord>, titulares: map<string, int>, idLote: int, insertError: Cobro -> Option<string>)
    requires !LoadRecords(records, titulares, idLote, insertError).aborted
    ensures forall e :: e in Errors(LoadRecords(records, titulares, idLote, insertError).outcomes) ==> e.error == NotFoundMessage
  {
    if records != [] {
      var prev := LoadRecords(records[..|records| - 1], titulares, idLote, insertError);
      assert !prev.aborted;
      HealthyLoadErrors(records[..|records| - 1], titulares, idLote, insertError);
      assert prev.outcomes + [LoadRecords(records, titulares, idLote, insertError).outcomes[|records| - 1]]
        == LoadRecords(records, titulares, idLote, insertError).outcomes by {
        LoadOutcomes(records, titulares, idLote, insertError, 0);
      }
    }
  }

  /** Every cobro of the loop is the attempt of a record whose titular was found, under this batch. */
  lemma {:induction false} LoadCobros(records: seq<DebitRecord>, titulares: map<string, int>, idLote: int, insertError: Cobro -> Option<string>, c: Cobro)
    requires c in Cobros(LoadRecords(records, titulares, idLote, insertError).outcomes)
    ensures c.idLote == idLote
    ensures exists i :: 0 <= i < |records| && records[i].codTercero in titulares && c == Attempt(records[i], titulares, idLote)
  {
    if records == [] { assert false; }
    var os := LoadRecords(records, titulares, idLote, insertError).outcomes;
    var init := records[..|records| - 1];
    var prev := LoadRecords(init, titulares, idLote, insertError).outcomes;
    LoadOutcomes(records, titulares, idLote, insertError, |records| - 1);
    assert os == prev + [os[|os| - 1]];
    assert os[..|os| - 1] == prev;
    if c in Cobros(prev) {
      LoadCobros(init, titulares, idLote, insertError, c);
      var i :| 0 <= i < |init| && init[i].codTercero in titulares && c == Attempt(init[i], titulares, idLote);
      assert init[i] == records[i];
    }
  }

  /** Error entries come in the order of their sheet rows. */
  predicate Ascending(es: seq<RowError>) {
    forall j, k :: 0 <= j < k < |es| ==> es[j].fila < es[k].fila
  }

  predicate AscendingRows(records: seq<DebitRecord>) {
    forall j, k :: 0 <= j < k < |records| ==> records[j].excelRow < records[k].excelRow
  }

  /** Every error entry of the loop carries the row number of one of the records. */
  lemma {:induction false} ErrorRowOfRecord(records: seq<DebitRecord>, titulares: map<string, int>, idLote: int, insertError: Cobro -> Option<string>, e: RowError)
    requires e in Errors(LoadRecords(records, titulares, idLote, insertError).outcomes)
    ensures exists i :: 0 <= i < |records| && e.fila == records[i].excelRow
  {
    if records == [] { assert false; }
    var init := records[..|records| - 1];
    var prev := LoadRecords(init, titulares, idLote, insertError).outcomes;
    var o := LoadSnoc(records, titulares, idLote, insertError);
    SnocOutcome(prev, o);
    if e in Errors(prev) {
      ErrorRowOfRecord(init, titulares, idLote, insertError, e);
      var i :| 0 <= i < |init| && e.fila == init[i].excelRow;
      assert init[i] == records[i];
    } else {
      LoadOutcomes(records, titulares, idLote, insertError, |records| - 1);
    }
  }

  /** When the records are in row order, so are the error entries. */
  lemma {:induction false} ErrorsInRowOrder(records: seq<DebitRecord>, titulares: map<string, int>, idLote: int, insertError: Cobro -> Option<string>)
    requires AscendingRows(records)
    ensures Ascending(Errors(LoadRecords(records, titulares, idLote, insertError).outcomes))
  {
    if records != [] {
      var init := records[..|records| - 1];
      var os := LoadRecords(records, titulares, idLote, insertError).outcomes;
      var prev := LoadRecords(init, titulares, idLote, insertError).outcomes;
      LoadOutcomes(records, titulares, idLote, insertError, |records| - 1);
      assert os == prev + [os[|os| - 1]];
      assert os[..|os| - 1] == prev;
      ErrorsInRowOrder(init, titulares, idLote, insertError);
      var es := Errors(os);
      var pes := Errors(prev);
      forall e | e in pes
        ensures e.fila < records[|records| - 1].excelRow
      {
        ErrorRowOfRecord(init, titulares, idLote, insertError, e);
      }
      assert Ascending(es) by {
        if os[|os| - 1].Rejected? {
          assert es == pes + [os[|os| - 1].rowError];
          forall j, k | 0 <= j < k < |es| ensures es[j].fila < es[k].fila {
            if k == |es| - 1 {
              assert es[j] == pes[j];
              assert es[j] in pes;
            }
          }
        }
      }
    }
  }

  /** The records of a sheet come in row order. */
  lemma SheetRowsAscending(rows: seq<RawRow>, engine: Engine)
    ensures AscendingRows(SheetRecords(rows, engine))
  {
    var records := SheetRecords(rows, engine);
    forall j, k | 0 <= j < k < |records| ensures records[j].excelRow < records[k].excelRow {
      assert records[j] == CanonicalRecord(NormalizedRow(rows[j]), j, engine);
      assert records[k] == CanonicalRecord(NormalizedRow(rows[k]), k, engine);
    }
  }

  /**
   * In an import that commits, `errores` lists, in sheet order, only rows whose `cod_tercero` has no
   * approved titular: a failed insert would have aborted the transaction.
   */
  lemma CommittedErrors(rows: seq<RawRow>, engine: Engine, titulares: map<string, int>, idLote: int, insertError: Cobro -> Option<string>)
    requires !LoadRecords(SheetRecords(rows, engine), titulares, idLote, insertError).aborted
    ensures var es := Errors(LoadRecords(SheetRecords(rows, engine), titulares, idLote, insertError).outcomes);
      Ascending(es) && forall e :: e in es ==> e.error == NotFoundMessage
  {
    SheetRowsAscending(rows, engine);
    ErrorsInRowOrder(SheetRecords(rows, engine), titulares, idLote, insertError);
    HealthyLoadErrors(SheetRecords(rows, engine), titulares, idLote, insertError);
  }

  /**
   * The refusal raised before the transaction opens, if any: an empty sheet, a first row without
   * the required columns, or no row with a transmission date.
   */
  function SheetCheck(rows: seq<RawRow>, engine: Engine): (e: Option<ImportError>)
    ensures rows == [] ==> e == Some(SheetInvalid(EmptySheet))
    ensures rows != [] && !ValidateColumns(rows[0]).valid ==> e == Some(SheetInvalid(MissingRequired(ValidateColumns(rows[0]).missing)))
    ensures rows != [] && ValidateColumns(rows[0]).valid ==>
      (e.None? <==> DatedKeys(SheetRecords(rows, engine)) != []) && (e.Some? ==> e == Some(NoDatedRows(NoDatesMessage)))
  {
    if rows == [] then Some(SheetInvalid(EmptySheet))
    else if !ValidateColumns(rows[0]).valid then Some(SheetInvalid(MissingRequired(ValidateColumns(rows[0]).missing)))
    else if DatedKeys(SheetRecords(rows, engine)) == [] then Some(NoDatedRows(NoDatesMessage))
    else None
  }

  /**
   * Steps 1 and 2 of `importarExcelDebitos`, before any query: `procesarArchivoExcel` and
   * `detectarPeriodoLote`, whose errors are the refusals of `SheetCheck`.
   */
  method Prepare(rows: seq<RawRow>, fileName: string, sheetName: string, hash: string, engine: Engine)
    returns (r: Result<(SheetData, YearMonth), ImportError>)
    ensures r.Failure? <==> SheetCheck(rows, engine).Some?
    ensures r.Failure? ==> r.error == SheetCheck(rows, engine).value
    ensures r.Success? ==>
      var (excel, period) := r.value;
      && excel == SheetData(fileName, sheetName, |rows|, SheetRecords(rows, engine), hash)
      && IsDetectedPeriod(DatedKeys(excel.records), period)
  {
    var sheet := ProcessSheet(rows, fileName, sheetName, hash, engine);
    if sheet.Failure? {
      return Failure(SheetInvalid(sheet.error));
    }
    var period := DetectPeriod(sheet.value.records);
    if period.Failure? {
      return Failure(NoDatedRows(period.error));
    }
    return Success((sheet.value, period.value));
  }

  predicate BatchIn(batches: seq<Batch>, id: int) {
    exists k :: 0 <= k < |batches| && batches[k].id == id
  }

  /**
   * Ids come from the sequence, so each is below its next value `next` and they grow; no file is
   * imported twice; and every cobro belongs to a recorded batch.
   */
  predicate Consistent(batches: seq<Batch>, cobros: seq<Cobro>, next: int) {
    && (forall k :: 0 <= k < |batches| ==> batches[k].id < next)
    && (forall j, k :: 0 <= j < k < |batches| ==> batches[j].id < batches[k].id)
    && (forall j, k :: 0 <= j < k < |batches| ==> batches[j].hash != batches[k].hash)
    && (forall i :: 0 <= i < |cobros| ==> BatchIn(batches, cobros[i].idLote))
  }

  /**
   * The database: batches and cobros in insertion order, the id of the approved TITULAR for each
   * `n_convenio`, and the next value of the batch-id sequence.
   */
  class DebitLedger {
    var batches: seq<Batch>
    var cobros: seq<Cobro>
    var titulares: map<string, int>
    var nextBatchId: int

    /** A batch id in use. */
    predicate BatchRecorded(id: int)
      reads this
    {
      BatchIn(batches, id)
    }

    /** A file whose hash some batch carries. */
    predicate HashRecorded(h: string)
      reads this
    {
      exists k :: 0 <= k < |batches| && batches[k].hash == h
    }

    predicate Valid()
      reads this
    {
      Consistent(batches, cobros, nextBatchId)
    }

    constructor (titulares: map<string, int>)
      ensures Valid()
      ensures batches == [] && cobros == [] && this.titulares == titulares && nextBatchId == 1
    {
      batches := [];
      cobros := [];
      this.titulares := titulares;
      nextBatchId := 1;
    }

    /** `SELECT ... FROM lotes_importacion WHERE hash_archivo = $1`: some batch with that hash, if any. */
    method FindBatchByHash(h: string) returns (b: Option<Batch>)
      ensures b.None? <==> !HashRecorded(h)
      ensures b.Some? ==> b.value in batches && b.value.hash == h
    {
      var k := 0;
      while k < |batches|
        invariant 0 <= k <= |batches|
        invariant forall j :: 0 <= j < k ==> batches[j].hash != h
      {
        if batches[k].hash == h {
          return Some(batches[k]);
        }
        k := k + 1;
      }
      return None;
    }

    /**
     * The loop over the records inside the transaction: counts successes and failures, collects
     * the error entries, and leaves the inserted cobros in the (uncommitted) table.
     */
    method LoadRows(records: seq<DebitRecord>, idLote: int, insertError: Cobro -> Option<string>)
      returns (exitosos: nat, fallidos: nat, errores: seq<RowError>, aborted: bool)
      modifies this
      ensures var l := LoadRecords(records, titulares, idLote, insertError);
        && cobros == old(cobros) + Cobros(l.outcomes)
        && errores == Errors(l.outcomes)
        && aborted == l.aborted
        && exitosos == |Cobros(l.outcomes)| && fallidos == |errores|
      ensures batches == old(batches) && titulares == old(titulares) && nextBatchId == old(nextBatchId)
    {
      ghost var l := Load([], false);
      exitosos, fallidos, errores, aborted := 0, 0, [], false;
      for i := 0 to |records|
        invariant l == LoadRecords(records[..i], titulares, idLote, insertError)
        invariant cobros == old(cobros) + Cobros(l.outcomes) && errores == Errors(l.outcomes) && aborted == l.aborted
        invariant exitosos == |Cobros(l.outcomes)| && fallidos == |errores|
        invariant batches == old(batches) && titulares == old(titulares) && nextBatchId == old(nextBatchId)
      {
        ghost var step := RowStep(aborted, records[i], titulares, idLote, insertError);
        ghost var next := Load(l.outcomes + [step.0], step.1);
        LoadPrefix(records, i, titulares, idLote, insertError);
        SnocOutcome(l.outcomes, step.0);
        var rejected;
        rejected, aborted := LoadRow(records[i], idLote, insertError, aborted);
        if rejected.Some? {
          errores := errores + [rejected.value];
          fallidos := fallidos + 1;
        } else {
          exitosos := exitosos + 1;
        }
        l := next;
      }
      assert records[..|records|] == records;
    }

    /** The body of the loop for one record: the error entry it yields, if any, and the transaction's state after it. */
    method LoadRow(d: DebitRecord, idLote: int, insertError: Cobro -> Option<string>, aborted: bool)
      returns (rejected: Option<RowError>, abortedAfter: bool)
      modifies this
      ensures var (o, a) := RowStep(aborted, d, titulares, idLote, insertError);
        && cobros == old(cobros) + (if o.Inserted? then [o.cobro] else [])
        && rejected == (if o.Rejected? then Some(o.rowError) else None)
        && abortedAfter == a
      ensures batches == old(batches) && titulares == old(titulares) && nextBatchId == old(nextBatchId)
    {
      if aborted {
        return Some(RowError(d.excelRow, d.codTercero, AbortedMessage)), true;
      }
      if d.codTercero !in titulares {
        return Some(RowError(d.excelRow, d.codTercero, NotFoundMessage)), false;
      }
      var c := MakeCobro(d, titulares[d.codTercero], idLote);
      var failure := insertError(c);
      if failure.None? {
        cobros := cobros + [c];
        return None, false;
      }
      return Some(RowError(d.excelRow, d.codTercero, failure.value)), true;
    }

    /**
     * `BEGIN` and `INSERT INTO lotes_importacion ... RETURNING id_lote`: the batch takes the next
     * value of the sequence.
     */
    method OpenBatch(fileName: string, hash: string, mes: int, anio: int, totalRows: nat, userId: int) returns (b: Batch)
      requires Valid() && !HashRecorded(hash)
      modifies this
      ensures Valid()
      ensures b == Batch(old(nextBatchId), fileName, hash, mes, anio, totalRows, userId)
      ensures batches == old(batches) + [b] && nextBatchId == old(nextBatchId) + 1
      ensures cobros == old(cobros) && titulares == old(titulares)
    {
      b := Batch(nextBatchId, fileName, hash, mes, anio, totalRows, userId);
      ghost var before := batches;
      nextBatchId := nextBatchId + 1;
      batches := batches + [b];
      forall i | 0 <= i < |cobros| ensures BatchRecorded(cobros[i].idLote) {
        assert old(BatchRecorded(cobros[i].idLote));
        var k :| 0 <= k < |before| && before[k].id == cobros[i].idLote;
        assert batches[k] == before[k];
      }
    }

    /**
     * Everything from `BEGIN` to `COMMIT`, or to the `ROLLBACK` of the `catch`: the batch header, the
     * loop over the records and `procesar_lote_debitos`. The transaction commits only when the loop
     * left it healthy and the procedure succeeded; otherwise batches and cobros are restored, but
     * the sequence has moved on.
     */
    method RunTransaction(records: seq<DebitRecord>, fileName: string, hash: string, mes: int, anio: int, totalRows: nat,
        userId: int, insertError: Cobro -> Option<string>, processing: Result<Processing, string>)
      returns (r: Result<ImportResult, ImportError>)
      requires Valid() && !HashRecorded(hash)
      modifies this
      ensures Valid()
      ensures titulares == old(titulares) && nextBatchId == old(nextBatchId) + 1
      ensures var l := LoadRecords(records, titulares, old(nextBatchId), insertError);
        && (l.aborted ==> r == Failure(DatabaseError(AbortedMessage)))
        && (!l.aborted && processing.Failure? ==> r == Failure(DatabaseError(processing.error)))
        && (!l.aborted && processing.Success? ==> r.Success?)
      ensures r.Failure? ==> batches == old(batches) && cobros == old(cobros)
      ensures r.Success? ==>
        var b := r.value.batch;
        var l := LoadRecords(records, titulares, b.id, insertError);
        && b == Batch(old(nextBatchId), fileName, hash, mes, anio, totalRows, userId)
        && batches == old(batches) + [b]
        && cobros == old(cobros) + Cobros(l.outcomes)
        && processing == Success(r.value.processing)
        && r.value.exitosos == |Cobros(l.outcomes)| && r.value.fallidos == |Errors(l.outcomes)|
        && r.value.exitosos + r.value.fallidos == |records|
        && (r.value.errores.None? <==> r.value.fallidos == 0)
        && (r.value.errores.Some? ==> r.value.errores.value == Errors(l.outcomes))
    {
      var savedBatches, savedCobros := batches, cobros;
      assert Consistent(savedBatches, savedCobros, nextBatchId + 1);
      var batch := OpenBatch(fileName, hash, mes, anio, totalRows, userId);
      var exitosos, fallidos, errores, aborted := LoadRows(records, batch.id, insertError);
      ghost var l := LoadRecords(records, titulares, batch.id, insertError);
      CobrosPlusErrors(l.outcomes);
      if aborted || processing.Failure? {
        Rollback(savedBatches, savedCobros);
        return Failure(DatabaseError(if aborted then AbortedMessage else processing.error));
      }
      NewCobrosRecorded(|savedCobros|, records, batch.id, insertError);
      var reported := if |errores| > 0 then Some(errores) else None;
      r := Success(ImportResult(batch, exitosos, fallidos, processing.value, reported));
    }

    /** `ROLLBACK`: the tables return to their state at `BEGIN`; the sequence keeps its value. */
    method Rollback(savedBatches: seq<Batch>, savedCobros: seq<Cobro>)
      requires Consistent(savedBatches, savedCobros, nextBatchId)
      modifies this
      ensures Valid()
      ensures batches == savedBatches && cobros == savedCobros
      ensures titulares == old(titulares) && nextBatchId == old(nextBatchId)
    {
      batches, cobros := savedBatches, savedCobros;
    }

    /** Cobros the loop added under the last batch belong to a recorded batch. */
    lemma NewCobrosRecorded(n: nat, records: seq<DebitRecord>, idLote: int, insertError: Cobro -> Option<string>)
      requires n <= |cobros| && |batches| > 0 && batches[|batches| - 1].id == idLote
      requires forall i :: 0 <= i < n ==> BatchRecorded(cobros[i].idLote)
      requires cobros[n..] == Cobros(LoadRecords(records, titulares, idLote, insertError).outcomes)
      ensures forall i :: 0 <= i < |cobros| ==> BatchRecorded(cobros[i].idLote)
    {
      forall i | n <= i < |cobros| ensures BatchRecorded(cobros[i].idLote) {
        assert cobros[i] == cobros[n..][i - n];
        LoadCobros(records, titulares, idLote, insertError, cobros[i]);
      }
    }

    /**
     * Steps 3 to 9 of `importarExcelDebitos` for a processed sheet: the duplicate lookup, made
     * before `BEGIN`, then the transaction.
     */
    method ImportRecords(records: seq<DebitRecord>, fileName: string, hash: string, period: YearMonth, totalRows: nat,
        userId: int, insertError: Cobro -> Option<string>, processing: Result<Processing, string>)
      returns (r: Result<ImportResult, ImportError>)
      requires Valid()
      modifies this
      ensures Valid()
      ensures titulares == old(titulares)
      ensures old(HashRecorded(hash)) ==>
        && r.Failure? && r.error.AlreadyImported? && nextBatchId == old(nextBatchId)
        && exists k :: 0 <= k < |batches| && batches[k].hash == hash && batches[k].fileName == r.error.previousFileName
      ensures !old(HashRecorded(hash)) ==>
        var l := LoadRecords(records, titulares, old(nextBatchId), insertError);
        && nextBatchId == old(nextBatchId) + 1
        && (l.aborted ==> r == Failure(DatabaseError(AbortedMessage)))
        && (!l.aborted && processing.Failure? ==> r == Failure(DatabaseError(processing.error)))
        && (!l.aborted && processing.Success? ==> r.Success?)
      ensures r.Failure? ==> batches == old(batches) && cobros == old(cobros)
      ensures r.Success? ==>
        var b := r.value.batch;
        var l := LoadRecords(records, titulares, b.id, insertError);
        && !old(HashRecorded(hash))
        && b == Batch(old(nextBatchId), fileName, hash, period.mes, period.anio, totalRows, userId)
        && batches == old(batches) + [b]
        && cobros == old(cobros) + Cobros(l.outcomes)
        && processing == Success(r.value.processing)
        && r.value.exitosos == |Cobros(l.outcomes)| && r.value.fallidos == |Errors(l.outcomes)|
        && r.value.exitosos + r.value.fallidos == |records|
        && (r.value.errores.None? <==> r.value.fallidos == 0)
        && (r.value.errores.Some? ==> r.value.errores.value == Errors(l.outcomes))
    {
      var existing := FindBatchByHash(hash);
      if existing.Some? {
        return Failure(AlreadyImported(existing.value.fileName));
      }
      r := RunTransaction(records, fileName, hash, period.mes, period.anio, totalRows, userId, insertError, processing);
    }

    /**
     * `importarExcelDebitos(buffer, nombreArchivo, idUsuario)` on the rows of the first sheet, the
     * file's `hash`, the database's verdict on each cobro insert and the result of
     * `procesar_lote_debitos`. The sheet is processed and its period detected before any query; a
     * refused import leaves batches and cobros as they were.
     */
    method Import(rows: seq<RawRow>, fileName: string, sheetName: string, hash: string, userId: int, engine: Engine,
        insertError: Cobro -> Option<string>, processing: Result<Processing, string>)
      returns (r: Result<ImportResult, ImportError>)
      requires Valid()
      modifies this
      ensures Valid()
      ensures titulares == old(titulares)
      ensures SheetCheck(rows, engine).Some? ==>
        r == Failure(SheetCheck(rows, engine).value) && nextBatchId == old(nextBatchId)
      ensures SheetCheck(rows, engine).None? && old(HashRecorded(hash)) ==>
        r.Failure? && r.error.AlreadyImported? && nextBatchId == old(nextBatchId)
      ensures SheetCheck(rows, engine).None? && !old(HashRecorded(hash)) ==>
        var l := LoadRecords(SheetRecords(rows, engine), titulares, old(nextBatchId), insertError);
        && nextBatchId == old(nextBatchId) + 1
        && (l.aborted ==> r == Failure(DatabaseError(AbortedMessage)))
        && (!l.aborted && processing.Failure? ==> r == Failure(DatabaseError(processing.error)))
        && (!l.aborted && processing.Success? ==> r.Success?)
      ensures r.Failure? ==> batches == old(batches) && cobros == old(cobros)
      ensures r.Success? ==>
        var records := SheetRecords(rows, engine);
        var b := r.value.batch;
        var l := LoadRecords(records, titulares, b.id, insertError);
        && b.id == old(nextBatchId) && b.fileName == fileName && b.hash == hash && b.totalRegistros == |rows| && b.userId == userId
        && IsDetectedPeriod(DatedKeys(records), YearMonth(b.anio, b.mes))
        && batches == old(batches) + [b]
        && cobros == old(cobros) + Cobros(l.outcomes) && !l.aborted
        && r.value.exitosos + r.value.fallidos == |rows|
        && (r.value.errores.None? <==> r.value.fallidos == 0)
    {
      var prepared := Prepare(rows, fileName, sheetName, hash, engine);
      if prepared.Failure? {
        return Failure(prepared.error);
      }
      var excel := prepared.value.0;
      r := ImportRecords(excel.records, fileName, excel.hash, prepared.value.1, excel.totalRows, userId, insertError, processing);
    }
  }
}
