/**
 * The parameterised statements `social.service.js` builds: the `SET` list of
 * `actualizarBeneficiarioSocial`, the filters of `obtenerBeneficiariosSociales` and the status
 * change of `cambiarEstadoCaso`. Each builder appends text and values step by step; the lemmas show
 * that the placeholders of the text are exactly `$1` to `$n` for `n` values.
 */
module SocialQueries {
  import opened Wrappers
  import opened JsText
  import opened JsonValues
  import opened SqlText

  const NothingToUpdateMessage := "No hay campos para actualizar"
  const InvalidStatusMessage := "Estado no válido"

  /** The columns `actualizarBeneficiarioSocial` may change, in the order it tries them. */
  const UpdatableFields := ["nombre_completo", "cedula", "telefono", "email", "direccion",
    "ciudad", "provincia", "tipo_caso", "prioridad", "estado",
    "descripcion_caso", "fecha_inicio", "fecha_cierre", "observaciones"]

  const ValidStatuses := ["Activo", "En seguimiento", "Cerrado"]

  // Fixed pieces of statement text (kept short so that their characters can be checked one by one).
  const UpdateCases := "UPDATE " + "beneficiarios_sociales" + " SET "
  const WhereCase := " WHERE " + "id_beneficiario_social" + " = "
  const Returning := " RETURNING *"
  const SelectCases := "SELECT * FROM " + "vista_casos_sociales_completa" + " WHERE 1=1"
  const OrderByRegistration := " ORDER BY " + "fecha_registro DESC"
  const AndWord := " AND "
  const EqualsWord := " = "
  const ILikeWord := " ILIKE "
  const SearchByName := " AND (" + "nombre_completo" + " ILIKE "
  const SearchById := " OR cedula ILIKE "
  const SetStatus := UpdateCases + "estado = "
  const SetClosingDate := ", fecha_cierre = " + "CURRENT_DATE"
  const SetNotes := ", observaciones = "

  lemma UpdateTextDollarFree()
    ensures '$' !in UpdateCases && '$' !in WhereCase && '$' !in Returning
  {
  }

  lemma SelectTextDollarFree()
    ensures '$' !in SelectCases && '$' !in OrderByRegistration
  {
  }

  lemma WordsDollarFree()
    ensures '$' !in AndWord && '$' !in EqualsWord && '$' !in ILikeWord && '$' !in ")"
  {
  }

  lemma SearchTextDollarFree()
    ensures '$' !in SearchByName && '$' !in SearchById
  {
  }

  lemma StatusTextDollarFree()
    ensures '$' !in SetStatus && '$' !in SetClosingDate && '$' !in SetNotes
  {
    UpdateTextDollarFree();
  }

  /** None of the fixed pieces holds a `$`. */
  lemma FixedTextDollarFree()
    ensures '$' !in UpdateCases && '$' !in WhereCase && '$' !in Returning
    ensures '$' !in SelectCases && '$' !in OrderByRegistration
    ensures '$' !in AndWord && '$' !in EqualsWord && '$' !in ILikeWord && '$' !in ")"
    ensures '$' !in SearchByName && '$' !in SearchById
    ensures '$' !in SetStatus && '$' !in SetClosingDate && '$' !in SetNotes
  {
    UpdateTextDollarFree();
    SelectTextDollarFree();
    WordsDollarFree();
    SearchTextDollarFree();
    StatusTextDollarFree();
  }

  /** A column name: no `$` in it, and not starting with a digit. */
  predicate Plain(s: string) {
    s != [] && '$' !in s && !IsDigit(s[0])
  }

  lemma UpdatableFieldsArePlain()
    ensures forall c :: c in UpdatableFields ==> Plain(c)
  {
    forall i | 0 <= i < |UpdatableFields| ensures Plain(UpdatableFields[i]) {
      var f := UpdatableFields[i];
      assert forall j :: 0 <= j < |f| ==> 'a' <= f[j] <= 'z' || f[j] == '_';
    }
  }

  // ----- SET builder -----

  /** The fields among `fields` that the body gives a value (`!== undefined`; `null` counts), in order. */
  function PresentFields(fields: seq<string>, data: map<string, Json>): (present: seq<string>)
    ensures forall c :: c in present <==> c in fields && c in data
  {
    if fields == [] then []
    else
      var last := fields[|fields| - 1];
      PresentFields(fields[..|fields| - 1], data) + (if last in data then [last] else [])
  }

  /** `campo = $n`. */
  function SetClause(campo: string, n: nat): string {
    campo + EqualsWord + Placeholder(n)
  }

  /** The `SET` clauses for the given columns, numbered from `$start`. */
  function SetClausesFrom(columns: seq<string>, start: nat): (clauses: seq<string>)
    ensures |clauses| == |columns|
  {
    seq(|columns|, k requires 0 <= k < |columns| => SetClause(columns[k], start + k))
  }

  function SetClauses(columns: seq<string>): (clauses: seq<string>)
    ensures |clauses| == |columns|
  {
    SetClausesFrom(columns, 1)
  }

  /** The values bound to the `SET` clauses, one per column. */
  function SetValues(columns: seq<string>, data: map<string, Json>): (values: seq<Json>)
    requires forall c :: c in columns ==> c in data
    ensures |values| == |columns|
  {
    seq(|columns|, k requires 0 <= k < |columns| => data[columns[k]])
  }

  function UpdateSql(clauses: seq<string>, idParam: nat): string {
    UpdateCases + Join(clauses, ", ") + WhereCase + Placeholder(idParam) + Returning
  }

  /** A statement and its values; `columns` names what each `SET` clause assigns. */
  datatype UpdateStatement = UpdateStatement(sql: string, values: seq<Json>, columns: seq<string>)

  lemma PresentFieldsStep(fields: seq<string>, i: nat, data: map<string, Json>)
    requires i < |fields|
    ensures PresentFields(fields[..i + 1], data) == PresentFields(fields[..i], data) + (if fields[i] in data then [fields[i]] else [])
  {
    assert fields[..i + 1][..i] == fields[..i];
  }

  lemma AssignmentsSnoc(columns: seq<string>, campo: string, data: map<string, Json>)
    requires forall c :: c in columns ==> c in data
    requires campo in data
    ensures SetClauses(columns + [campo]) == SetClauses(columns) + [SetClause(campo, |columns| + 1)]
    ensures SetValues(columns + [campo], data) == SetValues(columns, data) + [data[campo]]
  {
  }

  /**
   * Lines 201-217 of `actualizarBeneficiarioSocial`: a `SET` clause and a value per present field, in
   * the order of `UpdatableFields`, numbered from `$1`.
   */
  method CollectAssignments(data: map<string, Json>) returns (setClauses: seq<string>, values: seq<Json>, columns: seq<string>, paramCount: nat)
    ensures columns == PresentFields(UpdatableFields, data)
    ensures setClauses == SetClauses(columns) && values == SetValues(columns, data)
    ensures paramCount == |columns| + 1
  {
    setClauses, values, columns, paramCount := [], [], [], 1;
    var campos := UpdatableFields;
    for i := 0 to |campos|
      invariant columns == PresentFields(campos[..i], data)
      invariant setClauses == SetClauses(columns)
      invariant values == SetValues(columns, data)
      invariant paramCount == |columns| + 1
    {
      var campo := campos[i];
      PresentFieldsStep(campos, i, data);
      if campo in data {
        AssignmentsSnoc(columns, campo, data);
        setClauses := setClauses + [SetClause(campo, paramCount)];
        values := values + [data[campo]];
        paramCount := paramCount + 1;
        columns := columns + [campo];
      }
    }
    assert campos[..|campos|] == campos;
  }

  /**
   * Lines 219-230: no statement when no field is present; otherwise the id is the last value and the
   * `WHERE` placeholder.
   */
  method BuildUpdate(id: Json, data: map<string, Json>) returns (r: Result<UpdateStatement, string>)
    ensures r.Failure? <==> PresentFields(UpdatableFields, data) == []
    ensures r.Failure? ==> r.error == NothingToUpdateMessage
    ensures r.Success? ==>
      var columns := PresentFields(UpdatableFields, data);
      r.value.columns == columns
        && r.value.values == SetValues(columns, data) + [id]
        && r.value.sql == UpdateSql(SetClauses(columns), |columns| + 1)
  {
    var setClauses, values, columns, paramCount := CollectAssignments(data);
    if setClauses == [] {
      return Failure(NothingToUpdateMessage);
    }
    values := values + [id];
    r := Success(UpdateStatement(UpdateSql(setClauses, paramCount), values, columns));
  }

  lemma SetClausePlaceholders(campo: string, n: nat)
    requires Plain(campo)
    ensures Placeholders(SetClause(campo, n)) == {n}
    ensures StartsApart(SetClause(campo, n))
  {
    FixedTextDollarFree();
    PlaceholderAfter(campo + EqualsWord, n);
  }

  lemma {:induction false} SetClausesPlaceholders(columns: seq<string>, start: nat)
    requires forall c :: c in columns ==> Plain(c)
    ensures PlaceholdersOfAll(SetClausesFrom(columns, start)) == Interval(start, |columns|)
  {
    if columns != [] {
      var rest := columns[1..];
      assert SetClausesFrom(columns, start)[1..] == SetClausesFrom(rest, start + 1);
      assert forall c :: c in rest ==> c in columns;
      SetClausesPlaceholders(rest, start + 1);
      assert columns[0] in columns;
      SetClausePlaceholders(columns[0], start);
    }
  }

  /** The `SET` list of the present columns holds the placeholders `$1` to `$n`. */
  lemma SetListPlaceholders(data: map<string, Json>)
    ensures var columns := PresentFields(UpdatableFields, data);
      Placeholders(Join(SetClauses(columns), ", ")) == Range(|columns|)
  {
    var columns := PresentFields(UpdatableFields, data);
    UpdatableFieldsArePlain();
    var clauses := SetClauses(columns);
    SetClausesPlaceholders(columns, 1);
    PlaceholdersJoin(clauses);
  }

  /** The placeholders of the built `UPDATE` are `$1` to `$(n+1)`: one per column, then the id. */
  lemma UpdatePlaceholders(data: map<string, Json>)
    ensures var columns := PresentFields(UpdatableFields, data);
      Placeholders(UpdateSql(SetClauses(columns), |columns| + 1)) == Range(|columns| + 1)
  {
    var columns := PresentFields(UpdatableFields, data);
    var n := |columns|;
    SetListPlaceholders(data);
    FixedTextDollarFree();
    var joined := Join(SetClauses(columns), ", ");
    PlaceholdersAfterText(UpdateCases, joined);
    PlaceholdersAppend(UpdateCases + joined, WhereCase);
    PlaceholdersWithoutDollar(WhereCase);
    PlaceholdersAppend(UpdateCases + joined + WhereCase, Placeholder(n + 1));
    PlaceholderNumber(n + 1);
    PlaceholdersAppend(UpdateCases + joined + WhereCase + Placeholder(n + 1), Returning);
    PlaceholdersWithoutDollar(Returning);
  }

  /** The `i`-th `SET` clause names the `i`-th present column and is bound to that column's value in the body. */
  lemma UpdateBindings(data: map<string, Json>, i: nat)
    requires i < |PresentFields(UpdatableFields, data)|
    ensures var columns := PresentFields(UpdatableFields, data);
      SetClauses(columns)[i] == SetClause(columns[i], i + 1)
        && SetValues(columns, data)[i] == data[columns[i]]
        && columns[i] in UpdatableFields
  {
    var columns := PresentFields(UpdatableFields, data);
    assert columns[i] in columns;
  }

  // ----- Filter builder -----

  /** How a filter compares: equality, `ILIKE '%v%'` on its column, or the name-or-id search. */
  datatype Comparison = Equals | Contains | Search

  datatype Filter = Filter(key: string, comparison: Comparison)

  /** The filters of `obtenerBeneficiariosSociales`, in the order it applies them. */
  const ByStatus := Filter("estado", Equals)
  const ByRecordStatus := Filter("estado_registro", Equals)
  const ByPriority := Filter("prioridad", Equals)
  const ByCity := Filter("ciudad", Contains)
  const ByCaseType := Filter("tipo_caso", Equals)
  const ByLoader := Filter("id_usuario_carga", Equals)
  const BySearch := Filter("busqueda", Search)
  const Filters := [ByStatus, ByRecordStatus, ByPriority, ByCity, ByCaseType, ByLoader, BySearch]

  /** A filter is applied when the query string gives it a non-empty (truthy) value. */
  predicate Given(filtros: map<string, string>, key: string) {
    key in filtros && filtros[key] != ""
  }

  /** The condition a filter adds, bound to placeholder `n`; the search uses `n` twice. */
  function Condition(f: Filter, n: nat): string {
    match f.comparison
    case Equals => AndWord + f.key + EqualsWord + Placeholder(n)
    case Contains => AndWord + f.key + ILikeWord + Placeholder(n)
    case Search => SearchByName + Placeholder(n) + SearchById + Placeholder(n) + ")"
  }

  /** The value a filter binds: `ILIKE` patterns wrap it in `%`. */
  function Bound(f: Filter, v: string): string {
    if f.comparison == Equals then v else "%" + v + "%"
  }

  /** `[f]` when the filter is given, else nothing. */
  function Keep(filtros: map<string, string>, f: Filter): seq<Filter> {
    if Given(filtros, f.key) then [f] else []
  }

  /** The given filters, in the order of `Filters`. */
  function GivenFilters(filtros: map<string, string>): seq<Filter> {
    Keep(filtros, ByStatus) + Keep(filtros, ByRecordStatus) + Keep(filtros, ByPriority) + Keep(filtros, ByCity)
      + Keep(filtros, ByCaseType) + Keep(filtros, ByLoader) + Keep(filtros, BySearch)
  }

  /** A filter is applied iff it is one of `Filters` and given. */
  lemma GivenFiltersMembers(filtros: map<string, string>)
    ensures forall f :: f in GivenFilters(filtros) <==> f in Filters && Given(filtros, f.key)
  {
  }

  /** The query text once the given filters have added their conditions, numbered `$1`, `$2`, … in order. */
  function FilterText(given: seq<Filter>): string {
    if given == [] then SelectCases
    else FilterText(given[..|given| - 1]) + Condition(given[|given| - 1], |given|)
  }

  function FilterSql(given: seq<Filter>): string {
    FilterText(given) + OrderByRegistration
  }

  function FilterValues(filtros: map<string, string>, given: seq<Filter>): (values: seq<string>)
    requires forall f :: f in given ==> f.key in filtros
    ensures |values| == |given|
  {
    seq(|given|, k requires 0 <= k < |given| => Bound(given[k], filtros[given[k].key]))
  }

  /** The state once the filters `given` have been applied: the text, the values and the next placeholder. */
  predicate FiltersApplied(filtros: map<string, string>, given: seq<Filter>, query: string, values: seq<string>, paramCount: nat) {
    (forall f :: f in given ==> f.key in filtros)
      && query == FilterText(given) && values == FilterValues(filtros, given) && paramCount == |given| + 1
  }

  /**
   * One of the seven blocks of lines 72-118: a given filter appends its condition with the next
   * placeholder number and pushes its value; a missing or empty one changes nothing.
   */
  method AddFilter(filtros: map<string, string>, f: Filter, ghost given: seq<Filter>, query: string, values: seq<string>, paramCount: nat)
    returns (query': string, values': seq<string>, paramCount': nat)
    requires FiltersApplied(filtros, given, query, values, paramCount)
    ensures FiltersApplied(filtros, given + Keep(filtros, f), query', values', paramCount')
  {
    if Given(filtros, f.key) {
      query' := query + Condition(f, paramCount);
      values' := values + [Bound(f, filtros[f.key])];
      paramCount' := paramCount + 1;
      assert (given + [f])[..|given|] == given;
      assert FilterValues(filtros, given + [f]) == values';
    } else {
      query', values', paramCount' := query, values, paramCount;
      assert given + [] == given;
    }
  }

  /**
   * Lines 63-120 of `obtenerBeneficiariosSociales`: the filters are tried in their fixed order, then
   * the ordering is appended.
   */
  method BuildFilterQuery(filtros: map<string, string>) returns (query: string, values: seq<string>)
    ensures query == FilterSql(GivenFilters(filtros))
    ensures values == FilterValues(filtros, GivenFilters(filtros))
  {
    query := SelectCases;
    values := [];
    var paramCount: nat := 1;
    query, values, paramCount := AddFilter(filtros, ByStatus, [], query, values, paramCount);
    ghost var given := [] + Keep(filtros, ByStatus);
    query, values, paramCount := AddFilter(filtros, ByRecordStatus, given, query, values, paramCount);
    given := given + Keep(filtros, ByRecordStatus);
    query, values, paramCount := AddFilter(filtros, ByPriority, given, query, values, paramCount);
    given := given + Keep(filtros, ByPriority);
    query, values, paramCount := AddFilter(filtros, ByCity, given, query, values, paramCount);
    given := given + Keep(filtros, ByCity);
    query, values, paramCount := AddFilter(filtros, ByCaseType, given, query, values, paramCount);
    given := given + Keep(filtros, ByCaseType);
    query, values, paramCount := AddFilter(filtros, ByLoader, given, query, values, paramCount);
    given := given + Keep(filtros, ByLoader);
    query, values, paramCount := AddFilter(filtros, BySearch, given, query, values, paramCount);
    given := given + Keep(filtros, BySearch);
    assert [] + Keep(filtros, ByStatus) == Keep(filtros, ByStatus);
    query := query + OrderByRegistration;
  }

  /** Every filter key is a plain column name. */
  lemma FiltersArePlain()
    ensures forall f :: f in Filters ==> Plain(f.key)
  {
    forall i | 0 <= i < |Filters| ensures Plain(Filters[i].key) {
      var k := Filters[i].key;
      assert forall j :: 0 <= j < |k| ==> 'a' <= k[j] <= 'z' || k[j] == '_';
    }
  }

  /** Every condition holds exactly its own placeholder: the search repeats it rather than taking a second. */
  lemma ConditionPlaceholders(f: Filter, n: nat)
    requires Plain(f.key)
    ensures Placeholders(Condition(f, n)) == {n}
    ensures StartsApart(Condition(f, n))
  {
    FixedTextDollarFree();
    var p := Placeholder(n);
    PlaceholderNumber(n);
    match f.comparison
    case Equals =>
      PlaceholderAfter(AndWord + f.key + EqualsWord, n);
    case Contains =>
      PlaceholderAfter(AndWord + f.key + ILikeWord, n);
    case Search =>
      PlaceholderAfter(SearchByName, n);
      PlaceholdersAppend(SearchByName + p, SearchById);
      PlaceholdersWithoutDollar(SearchById);
      PlaceholdersAppend(SearchByName + p + SearchById, p);
      PlaceholdersAppend(SearchByName + p + SearchById + p, ")");
      PlaceholdersWithoutDollar(")");
  }

  lemma {:induction false} FilterTextPlaceholders(given: seq<Filter>)
    requires forall f :: f in given ==> Plain(f.key)
    ensures Placeholders(FilterText(given)) == Range(|given|)
  {
    if given == [] {
      FixedTextDollarFree();
      PlaceholdersWithoutDollar(SelectCases);
    } else {
      var init := given[..|given| - 1];
      var last := given[|given| - 1];
      assert forall f :: f in init ==> f in given;
      FilterTextPlaceholders(init);
      ConditionPlaceholders(last, |given|);
      PlaceholdersAppend(FilterText(init), Condition(last, |given|));
    }
  }

  /**
   * The filter query's placeholders are `$1` to `$n` for its `n` values: each given filter takes the
   * next number and exactly one value.
   */
  lemma FilterPlaceholders(filtros: map<string, string>)
    ensures var given := GivenFilters(filtros);
      Placeholders(FilterSql(given)) == Range(|FilterValues(filtros, given)|)
  {
    var given := GivenFilters(filtros);
    FiltersArePlain();
    GivenFiltersMembers(filtros);
    FilterTextPlaceholders(given);
    FixedTextDollarFree();
    PlaceholdersAppend(FilterText(given), OrderByRegistration);
    PlaceholdersWithoutDollar(OrderByRegistration);
  }

  /** A filter is applied iff it is given; its value is bound as given, or wrapped in `%` for `ciudad` and `busqueda`. */
  lemma FilterBindings(filtros: map<string, string>, k: nat)
    requires k < |GivenFilters(filtros)|
    ensures var given := GivenFilters(filtros);
      var f := given[k];
      Given(filtros, f.key)
        && FilterValues(filtros, given)[k] == (if f.key == "ciudad" || f.key == "busqueda" then "%" + filtros[f.key] + "%" else filtros[f.key])
  {
    var given := GivenFilters(filtros);
    GivenFiltersMembers(filtros);
    assert given[k] in given;
  }

  // ----- Status change -----

  datatype StatusStatement = StatusStatement(sql: string, values: seq<Json>)

  function StatusSql(closes: bool, notes: bool): string {
    StatusSetList(closes, notes) + WhereCase + Placeholder(2) + Returning
  }

  /**
   * Lines 253-274 of `cambiarEstadoCaso`: an unknown status is refused before any statement; closing
   * also stamps `fecha_cierre`, and a truthy `observaciones` is bound to `$3`.
   */
  method BuildStatusUpdate(id: Json, nuevoEstado: string, observaciones: Option<Json>) returns (r: Result<StatusStatement, string>)
    ensures r.Failure? <==> nuevoEstado !in ValidStatuses
    ensures r.Failure? ==> r.error == InvalidStatusMessage
    ensures r.Success? ==> r.value.values == [JStr(nuevoEstado), id] + (if Truthy(observaciones) then [observaciones.value] else [])
    ensures r.Success? ==> r.value.sql == StatusSql(nuevoEstado == "Cerrado", Truthy(observaciones))
  {
    if nuevoEstado !in ValidStatuses {
      return Failure(InvalidStatusMessage);
    }
    var values := [JStr(nuevoEstado), id];
    var query := SetStatus + Placeholder(1);
    if nuevoEstado == "Cerrado" {
      query := query + SetClosingDate;
    }
    if Truthy(observaciones) {
      query := query + (SetNotes + Placeholder(3));
      values := values + [observaciones.value];
    }
    query := query + WhereCase + Placeholder(2) + Returning;
    r := Success(StatusStatement(query, values));
  }

  /** The status statement uses `$1` to `$3` with observations and `$1` to `$2` without: one per value. */
  lemma StatusPlaceholders(closes: bool, notes: bool)
    ensures Placeholders(StatusSql(closes, notes)) == Range(if notes then 3 else 2)
  {
    var q2 := StatusSetList(closes, notes);
    StatusSetListPlaceholders(closes, notes);
    UpdateTextDollarFree();
    PlaceholdersAppend(q2, WhereCase);
    PlaceholdersWithoutDollar(WhereCase);
    PlaceholdersAppend(q2 + WhereCase, Placeholder(2));
    PlaceholderNumber(2);
    PlaceholdersAppend(q2 + WhereCase + Placeholder(2), Returning);
    PlaceholdersWithoutDollar(Returning);
  }

  /** The text of the status statement up to its `WHERE`. */
  function StatusSetList(closes: bool, notes: bool): string {
    Appended(Appended(SetStatus + Placeholder(1), closes, SetClosingDate), notes, SetNotes + Placeholder(3))
  }

  lemma StatusSetListPlaceholders(closes: bool, notes: bool)
    ensures Placeholders(StatusSetList(closes, notes)) == {1} + (if notes then {3} else {})
  {
    StatusTextDollarFree();
    var q0 := SetStatus + Placeholder(1);
    PlaceholderAfter(SetStatus, 1);
    PlaceholdersWithoutDollar(SetClosingDate);
    PlaceholdersAppended(q0, closes, SetClosingDate);
    var q1 := Appended(q0, closes, SetClosingDate);
    PlaceholderAfter(SetNotes, 3);
    PlaceholdersAppended(q1, notes, SetNotes + Placeholder(3));
  }
}
