/**
 * The case-level operations of `social.service.js` that decide something about a stored case:
 * the ownership checks `verificarPropietarioCasoSocial` and `verificarPropietarioSeguimientoSocial`,
 * which compare two values through JavaScript's `Number()`, and the two writes
 * `actualizarBeneficiarioSocial` and `cambiarEstadoCaso`, run against a table of case rows.
 */
module SocialCases {
  import opened Wrappers
  import opened JsText
  import opened JsonValues
  import opened SocialQueries

  const CaseNotFoundMessage := "Beneficiario social no encontrado"
  const CaseUnauthorizedMessage := "No autorizado para acceder a este caso social"
  const FollowUpNotFoundMessage := "Seguimiento no encontrado"
  const FollowUpUnauthorizedMessage := "No autorizado para acceder a este seguimiento"

  // ----- Number() -----

  /** A JavaScript number, as far as integers go: a finite value or `NaN`. */
  datatype Number = Finite(value: int) | NaN

  /** A run of decimal digits read as a number; anything else, the empty text included, is `NaN`. */
  function UnsignedNumber(t: string): (r: Number)
    ensures r.Finite? ==> r.value >= 0
  {
    if t != [] && AllDigits(t) then Finite(DecimalValue(t)) else NaN
  }

  function Negated(x: Number): Number {
    if x.Finite? then Finite(-x.value) else NaN
  }

  /**
   * `Number(s)` on a string: white space around it is ignored, the empty string is `0`, and a run
   * of decimal digits with an optional sign is its value.
   */
  function StringToNumber(s: string): Number {
    var t := Trim(s);
    if t == [] then Finite(0)
    else if t[0] == '-' then Negated(UnsignedNumber(t[1..]))
    else if t[0] == '+' then UnsignedNumber(t[1..])
    else UnsignedNumber(t)
  }

  /**
   * `Number(v)`: `null` is `0`, booleans `0` and `1`, strings as above; an array goes through its
   * text, so `[]` is `0`, a one-element array is its element's number (with `[null]` being `0` and
   * `[true]` not a number), and a longer one holds a comma and is `NaN`; an object is `NaN`.
   */
  function ToNumber(v: Json): Number
    decreases v
  {
    match v
    case JNull => Finite(0)
    case JBool(b) => Finite(if b then 1 else 0)
    case JNum(n) => Finite(n)
    case JStr(s) => StringToNumber(s)
    case JArr(items) =>
      if items == [] then Finite(0)
      else if |items| > 1 then NaN
      else if items[0] == JNull then Finite(0)
      else if items[0].JBool? then NaN
      else ToNumber(items[0])
    case JObj(_) => NaN
  }

  /** `a !== b` is false for the two numbers: `NaN` equals nothing, itself included. */
  predicate SameNumber(a: Number, b: Number) {
    a.Finite? && b.Finite? && a.value == b.value
  }

  // ----- Ownership -----

  /**
   * The check both `verificarPropietario*` share: `loader` is the `id_usuario_carga` of the row the
   * query found (`None` when it found none).
   */
  function CheckOwner(loader: Option<Json>, idUsuario: Json, notFound: string, unauthorized: string): (r: Result<bool, string>)
    ensures r.Success? <==> loader.Some? && SameNumber(ToNumber(loader.value), ToNumber(idUsuario))
    ensures r.Success? ==> r.value
    ensures loader.None? ==> r == Failure(notFound)
    ensures loader.Some? && r.Failure? ==> r.error == unauthorized
  {
    if loader.None? then Failure(notFound)
    else if !SameNumber(ToNumber(loader.value), ToNumber(idUsuario)) then Failure(unauthorized)
    else Success(true)
  }

  function VerifyCaseOwner(loader: Option<Json>, idUsuario: Json): Result<bool, string> {
    CheckOwner(loader, idUsuario, CaseNotFoundMessage, CaseUnauthorizedMessage)
  }

  function VerifyFollowUpOwner(loader: Option<Json>, idUsuario: Json): Result<bool, string> {
    CheckOwner(loader, idUsuario, FollowUpNotFoundMessage, FollowUpUnauthorizedMessage)
  }

  lemma TrimOfDigits(s: string)
    requires s != [] && AllDigits(s)
    ensures Trim(s) == s
  {
    TrimStartOfTrimmed(s);
    TrimEndOfTrimmed(s);
  }

  lemma NatTextMatches(n: nat)
    ensures StringToNumber(NatToString(n)) == Finite(n)
  {
    var d := NatToString(n);
    TrimOfDigits(d);
    DecimalOfNatToString(n);
    assert IsDigit(d[0]);
  }

  lemma NegativeTextMatches(n: nat)
    requires n > 0
    ensures StringToNumber("-" + NatToString(n)) == Finite(-(n as int))
  {
    var d := NatToString(n);
    var t := "-" + d;
    assert t[1..] == d;
    assert t[|t| - 1] == d[|d| - 1];
    TrimStartOfTrimmed(t);
    TrimEndOfTrimmed(t);
    DecimalOfNatToString(n);
  }

  /** The decimal text of an id is the same number as the id: `Number("12") === Number(12)`. */
  lemma TextIdMatches(n: int)
    ensures StringToNumber(IntToString(n)) == Finite(n)
  {
    if n < 0 {
      NegativeTextMatches(-n);
    } else {
      NatTextMatches(n);
    }
  }

  /** An id given as text owns the cases of the loader with that numeric id, and of no other. */
  lemma TextIdOwnership(loader: int, idUsuario: int)
    ensures VerifyCaseOwner(Some(JNum(loader)), JStr(IntToString(idUsuario))).Success? <==> loader == idUsuario
    ensures VerifyFollowUpOwner(Some(JStr(IntToString(loader))), JNum(idUsuario)).Success? <==> loader == idUsuario
  {
    TextIdMatches(idUsuario);
    TextIdMatches(loader);
  }

  /** A value that is not a number owns nothing, not even a case whose loader is the same value. */
  lemma NaNNeverOwns(v: Json, idUsuario: Json)
    requires ToNumber(v) == NaN
    ensures VerifyCaseOwner(Some(v), idUsuario) == Failure(CaseUnauthorizedMessage)
    ensures VerifyCaseOwner(Some(idUsuario), v) == Failure(CaseUnauthorizedMessage)
  {
  }

  /** A case whose loader is `NULL` counts as owned by user `0`: `Number(null)` is `0`. */
  lemma NullLoaderOwnedByZero()
    ensures VerifyCaseOwner(Some(JNull), JNum(0)).Success?
    ensures !VerifyCaseOwner(Some(JNull), JNum(1)).Success?
  {
  }

  /** ... and by a user whose id is the empty string: `Number("")` is `0` too. */
  lemma NullLoaderOwnedByEmptyId()
    ensures VerifyCaseOwner(Some(JNull), JStr("")).Success?
  {
    assert StringToNumber("") == Finite(0) by {
      assert TrimStart("") == "" && TrimEnd("") == "";
    }
  }

  /** A leading `+` does not change the number: `Number("+7") === 7`. */
  lemma PlusSignIgnored(n: nat)
    ensures StringToNumber("+" + NatToString(n)) == Finite(n)
  {
    var d := NatToString(n);
    var t := "+" + d;
    assert t[1..] == d;
    assert t[|t| - 1] == d[|d| - 1];
    TrimStartOfTrimmed(t);
    TrimEndOfTrimmed(t);
    DecimalOfNatToString(n);
  }

  // ----- Writes against the case table -----

  /** A case row: column name to stored value. */
  type Row = map<string, Json>

  /** What `actualizarBeneficiarioSocial` writes: every updatable column the body gives a value. */
  function Assigned(data: map<string, Json>): (changes: Row)
    ensures forall c :: c in changes <==> c in UpdatableFields && c in data
    ensures forall c :: c in changes ==> changes[c] == data[c]
  {
    map c | c in data && c in UpdatableFields :: data[c]
  }

  /** `SET columns[0] = values[0], ...`, applied to one row. */
  function ApplyAssignments(row: Row, columns: seq<string>, values: seq<Json>): Row
    requires |values| >= |columns|
  {
    if columns == [] then row
    else
      var n := |columns| - 1;
      ApplyAssignments(row, columns[..n], values)[columns[n] := values[n]]
  }

  /** Assigning each column its value from `data` overwrites exactly those columns with those values. */
  lemma {:induction false} ApplyFromData(row: Row, columns: seq<string>, values: seq<Json>, data: map<string, Json>)
    requires |values| >= |columns|
    requires forall k :: 0 <= k < |columns| ==> columns[k] in data && values[k] == data[columns[k]]
    ensures var after := ApplyAssignments(row, columns, values);
      (forall c :: c in after <==> c in row || c in columns)
        && (forall c :: c in after ==> after[c] == if c in columns then data[c] else row[c])
  {
    if columns != [] {
      var n := |columns| - 1;
      var init := columns[..n];
      ApplyFromData(row, init, values, data);
      assert forall c :: c in columns <==> c in init || c == columns[n] by {
        assert columns == init + [columns[n]];
      }
    }
  }

  /** Assigning the present fields their values writes the body's entries for those fields. */
  lemma WritesPresentFields(row: Row, fields: seq<string>, data: map<string, Json>, id: Json)
    ensures var columns := PresentFields(fields, data);
      ApplyAssignments(row, columns, SetValues(columns, data) + [id]) == row + map c | c in data && c in fields :: data[c]
  {
    var columns := PresentFields(fields, data);
    var values := SetValues(columns, data) + [id];
    forall k | 0 <= k < |columns| ensures columns[k] in data && values[k] == data[columns[k]] {
      assert columns[k] in columns;
    }
    ApplyFromData(row, columns, values, data);
    var after := ApplyAssignments(row, columns, values);
    var expected := row + map c | c in data && c in fields :: data[c];
    assert after.Keys == expected.Keys;
    assert forall c :: c in after ==> after[c] == expected[c];
  }

  /** Executing the built `UPDATE` on a row writes `Assigned(data)` into it and nothing else. */
  lemma UpdateWritesAssigned(row: Row, data: map<string, Json>, id: Json)
    ensures var columns := PresentFields(UpdatableFields, data);
      ApplyAssignments(row, columns, SetValues(columns, data) + [id]) == row + Assigned(data)
  {
    var fields := UpdatableFields;
    WritesPresentFields(row, fields, data, id);
  }

  /** The builder refuses a body exactly when it assigns nothing. */
  lemma NothingPresentIffNothingAssigned(data: map<string, Json>)
    ensures PresentFields(UpdatableFields, data) == [] <==> Assigned(data) == map[]
  {
    var columns := PresentFields(UpdatableFields, data);
    if columns != [] {
      assert columns[0] in columns;
      assert columns[0] in Assigned(data);
    } else {
      assert Assigned(data).Keys == {};
    }
  }

  /**
   * The columns `cambiarEstadoCaso` writes: `estado`, `fecha_cierre` (today) when the case is
   * closed, and `observaciones` when a truthy one is given.
   */
  function StatusChanges(nuevoEstado: string, observaciones: Option<Json>, today: Json): Row {
    map["estado" := JStr(nuevoEstado)]
      + (if nuevoEstado == "Cerrado" then map["fecha_cierre" := today] else map[])
      + (if Truthy(observaciones) then map["observaciones" := observaciones.value] else map[])
  }

  /**
   * What executing the status statement writes: its first value into `estado`, today into
   * `fecha_cierre` when the text closes the case, and its third value, when it has one, into
   * `observaciones`.
   */
  function ExecuteStatus(row: Row, values: seq<Json>, closes: bool, today: Json): Row
    requires |values| >= 2
  {
    var r := row["estado" := values[0]];
    var r' := if closes then r["fecha_cierre" := today] else r;
    if |values| >= 3 then r'["observaciones" := values[2]] else r'
  }

  /** The statement `cambiarEstadoCaso` builds writes exactly `StatusChanges`. */
  lemma StatusStatementWrites(row: Row, id: Json, nuevoEstado: string, observaciones: Option<Json>, today: Json)
    ensures var values := [JStr(nuevoEstado), id] + (if Truthy(observaciones) then [observaciones.value] else []);
      ExecuteStatus(row, values, nuevoEstado == "Cerrado", today) == row + StatusChanges(nuevoEstado, observaciones, today)
  {
  }

  /** A status change only writes updatable columns, and writes the new status. */
  lemma StatusChangesAreUpdatable(nuevoEstado: string, observaciones: Option<Json>, today: Json)
    ensures forall c :: c in StatusChanges(nuevoEstado, observaciones, today) ==> c in UpdatableFields
    ensures StatusChanges(nuevoEstado, observaciones, today)["estado"] == JStr(nuevoEstado)
    ensures "fecha_cierre" in StatusChanges(nuevoEstado, observaciones, today) <==> nuevoEstado == "Cerrado"
  {
    assert UpdatableFields[9] == "estado";
    assert UpdatableFields[12] == "fecha_cierre";
    assert UpdatableFields[13] == "observaciones";
  }

  /**
   * `actualizarBeneficiarioSocial` does not apply the status check of `cambiarEstadoCaso`: a body
   * with an `estado` outside the valid statuses is written as given.
   */
  lemma UpdateSkipsStatusCheck()
    ensures "Borrado" !in ValidStatuses
    ensures Assigned(map["estado" := JStr("Borrado")]) == map["estado" := JStr("Borrado")]
  {
    assert UpdatableFields[9] == "estado";
  }

  /** The case table, `beneficiarios_sociales`, keyed by `id_beneficiario_social`. */
  class CaseTable {
    var rows: map<int, Row>

    constructor (initial: map<int, Row>)
      ensures rows == initial
    {
      rows := initial;
    }

    /**
     * `actualizarBeneficiarioSocial(id, data)`: a body with no updatable field is refused before
     * any statement; an unknown id finds no row and the transaction is rolled back; otherwise the
     * row gets the assigned columns and is returned.
     */
    method Update(id: int, data: map<string, Json>) returns (r: Result<Row, string>)
      modifies this
      ensures Assigned(data) == map[] ==> r == Failure(NothingToUpdateMessage) && rows == old(rows)
      ensures Assigned(data) != map[] && id !in old(rows) ==> r == Failure(CaseNotFoundMessage) && rows == old(rows)
      ensures Assigned(data) != map[] && id in old(rows) ==>
        rows == old(rows)[id := old(rows)[id] + Assigned(data)] && r == Success(rows[id])
    {
      NothingPresentIffNothingAssigned(data);
      var built := BuildUpdate(JNum(id), data);
      if built.Failure? {
        return Failure(built.error);
      }
      var statement := built.value;
      // The `WHERE` placeholder is the last value: the id.
      var target := statement.values[|statement.columns|];
      assert target == JNum(id);
      if target.n !in rows {
        return Failure(CaseNotFoundMessage);
      }
      UpdateWritesAssigned(rows[target.n], data, JNum(id));
      rows := rows[target.n := ApplyAssignments(rows[target.n], statement.columns, statement.values)];
      r := Success(rows[id]);
    }

    /**
     * `cambiarEstadoCaso(id, nuevoEstado, observaciones)`: an invalid status is refused before any
     * statement; an unknown id is refused; otherwise the row gets the status changes. `today` is
     * the database's `CURRENT_DATE`.
     */
    method ChangeStatus(id: int, nuevoEstado: string, observaciones: Option<Json>, today: Json) returns (r: Result<Row, string>)
      modifies this
      ensures nuevoEstado !in ValidStatuses ==> r == Failure(InvalidStatusMessage) && rows == old(rows)
      ensures nuevoEstado in ValidStatuses && id !in old(rows) ==> r == Failure(CaseNotFoundMessage) && rows == old(rows)
      ensures nuevoEstado in ValidStatuses && id in old(rows) ==>
        rows == old(rows)[id := old(rows)[id] + StatusChanges(nuevoEstado, observaciones, today)] && r == Success(rows[id])
    {
      var built := BuildStatusUpdate(JNum(id), nuevoEstado, observaciones);
      if built.Failure? {
        return Failure(built.error);
      }
      var statement := built.value;
      // `$2` is the id.
      var target := statement.values[1];
      if target.n !in rows {
        return Failure(CaseNotFoundMessage);
      }
      StatusStatementWrites(rows[target.n], JNum(id), nuevoEstado, observaciones, today);
      rows := rows[target.n := ExecuteStatus(rows[target.n], statement.values, nuevoEstado == "Cerrado", today)];
      r := Success(rows[id]);
    }
  }
}
