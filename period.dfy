/**
 * `detectarPeriodoLote`: the (month, year) of a batch is the most frequent month among the
 * transmission dates of its records. The source counts the dates in a dictionary keyed by the
 * text `${anio}-${mes}`, folds the keys in order of first appearance, keeping the later key on a
 * tie, and reads the winning key back with `split('-').map(Number)`.
 */
module Period {
  import opened Wrappers
  import opened JsText
  import opened CivilDates
  import opened Workbook
  import Cells
  import ExcelDates

  datatype YearMonth = YearMonth(anio: int, mes: int)

  const NoDatesMessage := "No se encontraron fechas de transmisi\U{F3}n v\U{E1}lidas en el archivo. "
    + "Verifique que el Excel tenga registros con fecha_transmision correctamente formateada."

  // ---------------------------------------------------------------------------
  // Keys

  /** The key `${anio}-${mes}`. */
  function PeriodKey(year: int, month: int): string {
    IntToString(year) + "-" + IntToString(month)
  }

  /** The key of a day: its year and month (`getFullYear()`, `getMonth() + 1`). */
  function KeyOfDay(day: int): string {
    var c := CivilFromDays(day);
    PeriodKey(c.year, c.month)
  }

  /** The key a record adds to the count: one when it has a transmission date, none otherwise. */
  function RecordKeys(record: DebitRecord): (keys: seq<string>)
    ensures |keys| <= 1
  {
    if record.fechaTransmision.Some? then [KeyOfDay(record.fechaTransmision.value)] else []
  }

  /** The keys of the records that carry a transmission date, in record order. */
  function DatedKeys(records: seq<DebitRecord>): (keys: seq<string>)
    ensures |keys| <= |records|
  {
    if records == [] then [] else DatedKeys(records[..|records| - 1]) + RecordKeys(records[|records| - 1])
  }

  /** The distinct elements of `s` in order of first appearance (the order of `Object.keys`). */
  function Distinct(s: seq<string>): (d: seq<string>)
    ensures forall x :: x in d <==> x in s
    ensures forall i, j :: 0 <= i < j < |d| ==> d[i] != d[j]
  {
    if s == [] then []
    else
      var init := Distinct(s[..|s| - 1]);
      var x := s[|s| - 1];
      if x in s[..|s| - 1] then init else init + [x]
  }

  /** How many times `k` occurs in `keys`: the value of `conteoFechas[k]`. */
  function Occurrences(keys: seq<string>, k: string): nat {
    multiset(keys)[k]
  }

  /**
   * `k` is the key the `reduce` returns: it occurs in `keys`, no key occurs more often, and every
   * key first seen after it occurs strictly less often.
   */
  predicate IsLastMostFrequent(keys: seq<string>, k: string) {
    var d := Distinct(keys);
    && k in keys
    && (forall x :: x in keys ==> Occurrences(keys, x) <= Occurrences(keys, k))
    && (forall i, j :: 0 <= i < j < |d| && d[i] == k ==> Occurrences(keys, d[j]) < Occurrences(keys, k))
  }

  /** At most one key is the last most frequent one: the definition fixes the answer. */
  lemma LastMostFrequentUnique(keys: seq<string>, k1: string, k2: string)
    requires IsLastMostFrequent(keys, k1) && IsLastMostFrequent(keys, k2)
    ensures k1 == k2
  {
    var d := Distinct(keys);
    assert k1 in d && k2 in d;
    var i1 :| 0 <= i1 < |d| && d[i1] == k1;
    var i2 :| 0 <= i2 < |d| && d[i2] == k2;
    assert Occurrences(keys, k1) == Occurrences(keys, k2);
    if i1 < i2 {
      assert Occurrences(keys, d[i2]) < Occurrences(keys, k1);
    }
  }

  // ---------------------------------------------------------------------------
  // Counting and the fold

  /**
   * `detectarPeriodoLote` up to the reading of the key: the `forEach` that fills `conteoFechas`,
   * then the `reduce` over `Object.keys(conteoFechas)`.
   */
  method MostFrequentKey(records: seq<DebitRecord>) returns (best: Option<string>)
    ensures best.None? <==> DatedKeys(records) == []
    ensures best.Some? ==> IsLastMostFrequent(DatedKeys(records), best.value)
  {
    var counts, order := CountDates(records);
    ghost var keys := DatedKeys(records);
    if |order| == 0 {
      DistinctOfNonEmpty(keys);
      return None;
    }
    var bi := LastMostCounted(order, counts);
    best := Some(order[bi]);
    ghost var k := order[bi];
    assert k in keys by {
      assert k in order;
    }
    forall x | x in keys ensures Occurrences(keys, x) <= Occurrences(keys, k) {
      assert x in order;
      var l :| 0 <= l < |order| && order[l] == x;
      assert counts[x] <= counts[k];
    }
    forall i, j | 0 <= i < j < |order| && order[i] == k ensures Occurrences(keys, order[j]) < Occurrences(keys, k) {
      assert i == bi;
      assert counts[order[j]] < counts[k];
    }
  }

  /** The `forEach` over the records. */
  method CountDates(records: seq<DebitRecord>) returns (counts: map<string, nat>, order: seq<string>)
    ensures CountsOf(DatedKeys(records), counts, order)
  {
    counts := map[];
    order := [];
    for i := 0 to |records|
      invariant CountsOf(DatedKeys(records[..i]), counts, order)
    {
      DatedKeysStep(records, i);
      counts, order := CountRecord(records[i], counts, order, DatedKeys(records[..i]));
    }
    assert records[..|records|] == records;
  }

  /**
   * The body of the `forEach`: a dated record adds one to `conteoFechas[clave]` (`|| 0` starts a
   * new key at 0); `order` is the order in which the keys were first set.
   */
  method CountRecord(record: DebitRecord, counts: map<string, nat>, order: seq<string>, ghost keys: seq<string>)
    returns (counts': map<string, nat>, order': seq<string>)
    requires CountsOf(keys, counts, order)
    ensures CountsOf(keys + RecordKeys(record), counts', order')
  {
    if record.fechaTransmision.Some? {
      var key := KeyOfDay(record.fechaTransmision.value);
      CountStep(keys, key, counts, order);
      order' := if key in counts then order else order + [key];
      counts' := counts[key := (if key in counts then counts[key] else 0) + 1];
    } else {
      assert keys + [] == keys;
      counts', order' := counts, order;
    }
  }

  /** `counts` holds the number of occurrences of every key of `keys`, and `order` the keys in order of first appearance. */
  ghost predicate CountsOf(keys: seq<string>, counts: map<string, nat>, order: seq<string>) {
    && (forall k :: k in counts <==> k in keys)
    && (forall k :: k in counts ==> counts[k] == Occurrences(keys, k))
    && order == Distinct(keys)
  }

  lemma DatedKeysStep(records: seq<DebitRecord>, i: nat)
    requires i < |records|
    ensures DatedKeys(records[..i + 1]) == DatedKeys(records[..i]) + RecordKeys(records[i])
  {
    assert records[..i + 1][..i] == records[..i];
  }

  /** Counting one more key keeps the counts and the order of first appearance. */
  lemma CountStep(keys: seq<string>, key: string, counts: map<string, nat>, order: seq<string>)
    requires CountsOf(keys, counts, order)
    ensures CountsOf(keys + [key], counts[key := (if key in counts then counts[key] else 0) + 1],
      if key in counts then order else order + [key])
  {
    var keys' := keys + [key];
    assert keys'[..|keys'| - 1] == keys;
    assert multiset(keys') == multiset(keys) + multiset{key};
  }

  lemma DistinctOfNonEmpty(s: seq<string>)
    ensures Distinct(s) == [] ==> s == []
  {
    if s != [] {
      assert s[0] in Distinct(s);
    }
  }

  /** The `reduce((a, b) => conteo[a] > conteo[b] ? a : b)`: the position of the last key with the largest count. */
  method LastMostCounted(order: seq<string>, counts: map<string, nat>) returns (bi: nat)
    requires order != [] && forall k :: k in order ==> k in counts
    ensures bi < |order|
    ensures forall l :: 0 <= l < |order| ==> counts[order[l]] <= counts[order[bi]]
    ensures forall l :: bi < l < |order| ==> counts[order[l]] < counts[order[bi]]
  {
    bi := 0;
    for j := 1 to |order|
      invariant 0 <= bi < j
      invariant forall l :: 0 <= l < j ==> counts[order[l]] <= counts[order[bi]]
      invariant forall l :: bi < l < j ==> counts[order[l]] < counts[order[bi]]
    {
      if !(counts[order[bi]] > counts[order[j]]) {
        bi := j;
      }
    }
  }

  // ---------------------------------------------------------------------------
  // Reading the key back

  /** `Number(s)` for a string of decimal digits; `Number('')` is 0. */
  function Number(s: string): nat
    requires AllDigits(s)
  {
    DecimalValue(s)
  }

  /** No key the source builds can fail to split into digit strings. */
  predicate IsKeyText(key: string) {
    forall i :: 0 <= i < |key| ==> IsDigit(key[i]) || key[i] == '-'
  }

  lemma {:induction false} SplitPartsAreDigits(s: string)
    requires IsKeyText(s)
    ensures forall p :: p in Split(s, '-') ==> AllDigits(p)
  {
    if s != [] {
      var rest := Split(s[1..], '-');
      assert IsKeyText(s[1..]) by {
        forall i | 0 <= i < |s[1..]| ensures IsDigit(s[1..][i]) || s[1..][i] == '-' {
          assert s[1..][i] == s[i + 1];
        }
      }
      SplitPartsAreDigits(s[1..]);
      if s[0] != '-' {
        var h := [s[0]] + rest[0];
        assert rest[0] in rest;
        assert AllDigits(h) by {
          forall i | 0 <= i < |h| ensures IsDigit(h[i]) {
            if i > 0 {
              assert h[i] == rest[0][i - 1];
            }
          }
        }
        assert Split(s, '-') == [h] + rest[1..];
        forall p | p in rest[1..] ensures p in rest {
        }
      }
    }
  }

  /**
   * `const [anio, mes] = clave.split('-').map(Number)`, as the source reads the winning key: the
   * first two pieces. A key with a negative year starts with `-`, so its first piece is empty.
   */
  function SplitPeriodKey(key: string): (p: YearMonth)
    requires IsKeyText(key) && '-' in key
  {
    var parts := Split(key, '-');
    SplitPartsAreDigits(key);
    SplitHasTwoParts(key);
    YearMonth(Number(parts[0]), Number(parts[1]))
  }

  lemma {:induction false} SplitHasTwoParts(s: string)
    requires '-' in s
    ensures |Split(s, '-')| >= 2
  {
    if s[0] != '-' {
      assert '-' in s[1..];
      SplitHasTwoParts(s[1..]);
    }
  }

  /** The corrected reading: a key that starts with `-` belongs to a negative year. */
  function ReadPeriodKey(key: string): (p: YearMonth)
    requires IsKeyText(key) && '-' in key
  {
    var parts := Split(key, '-');
    SplitPartsAreDigits(key);
    SplitHasTwoParts(key);
    if parts[0] == [] && |parts| >= 3 then YearMonth(-(Number(parts[1]) as int), Number(parts[2]))
    else YearMonth(Number(parts[0]), Number(parts[1]))
  }

  lemma NatToStringIsKeyText(n: nat)
    ensures IsKeyText(NatToString(n)) && '-' !in NatToString(n)
  {
  }

  lemma KeyTextJoin(a: string, b: string)
    requires IsKeyText(a) && IsKeyText(b)
    ensures IsKeyText(a + "-" + b) && '-' in a + "-" + b
  {
    var s := a + "-" + b;
    assert s[|a|] == '-';
    forall i | 0 <= i < |s| ensures IsDigit(s[i]) || s[i] == '-' {
      if i < |a| {
        assert s[i] == a[i];
      } else if i > |a| {
        assert s[i] == b[i - |a| - 1];
      }
    }
  }

  lemma IntToStringIsKeyText(n: int)
    ensures IsKeyText(IntToString(n))
  {
    NatToStringIsKeyText(if n < 0 then -n else n);
    if n < 0 {
      KeyTextJoin([], NatToString(-n));
      assert IntToString(n) == [] + "-" + NatToString(-n);
    }
  }

  lemma PeriodKeyIsKeyText(year: int, month: int)
    ensures PeriodKeySplitPre(year, month)
  {
    IntToStringIsKeyText(year);
    IntToStringIsKeyText(month);
    KeyTextJoin(IntToString(year), IntToString(month));
  }

  lemma PeriodKeySplitNonNegative(year: nat, month: nat)
    ensures Split(PeriodKey(year, month), '-') == [NatToString(year), NatToString(month)]
  {
    var m := NatToString(month);
    var y := NatToString(year);
    NatToStringIsKeyText(month);
    NatToStringIsKeyText(year);
    SplitWithout(m, '-');
    assert PeriodKey(year, month) == y + ['-'] + m;
    SplitAt(y, '-', m);
  }

  lemma PeriodKeySplitNegative(year: int, month: nat)
    requires year < 0
    ensures Split(PeriodKey(year, month), '-') == [[], NatToString(-year), NatToString(month)]
  {
    var m := NatToString(month);
    var y := NatToString(-year);
    NatToStringIsKeyText(month);
    NatToStringIsKeyText(-year);
    SplitWithout(m, '-');
    assert PeriodKey(year, month) == [] + ['-'] + (y + ['-'] + m);
    SplitAt(y, '-', m);
    SplitAt([], '-', y + ['-'] + m);
  }

  /** For years from 0 on, the source's reading of a key gives back its year and month. */
  lemma SplitPeriodKeyOfNonNegativeYear(year: nat, month: nat)
    ensures PeriodKeySplitPre(year, month) && SplitPeriodKey(PeriodKey(year, month)) == YearMonth(year, month)
  {
    PeriodKeyIsKeyText(year, month);
    PeriodKeySplitNonNegative(year, month);
    DecimalOfNatToString(year);
    DecimalOfNatToString(month);
  }

  /** A key with a negative year is misread: the year becomes 0 and the month becomes the year's magnitude. */
  lemma SplitPeriodKeyOfNegativeYear(year: int, month: nat)
    requires year < 0
    ensures PeriodKeySplitPre(year, month) && SplitPeriodKey(PeriodKey(year, month)) == YearMonth(0, -year)
  {
    PeriodKeyIsKeyText(year, month);
    PeriodKeySplitNegative(year, month);
    DecimalOfNatToString(-year);
    assert DecimalValue([]) == 0;
  }

  /** The corrected reading gives back the year and month of every key. */
  lemma ReadPeriodKeyRoundTrip(year: int, month: nat)
    ensures PeriodKeySplitPre(year, month) && ReadPeriodKey(PeriodKey(year, month)) == YearMonth(year, month)
  {
    PeriodKeyIsKeyText(year, month);
    DecimalOfNatToString(month);
    if year >= 0 {
      PeriodKeySplitNonNegative(year, month);
      DecimalOfNatToString(year);
    } else {
      PeriodKeySplitNegative(year, month);
      DecimalOfNatToString(-year);
    }
  }

  /**
   * A numeric cell -700000 is the day 18 June of year -17; its key `-17-6` is read by the source as
   * month 17 of year 0, and by the corrected reading as month 6 of year -17.
   */
  lemma NegativeYearExample(native: string -> Option<int>)
    ensures ExcelDates.ParseExcelDate(Cells.Num(-700000), native) == Some(-700000 - 25569)
    ensures CivilFromDays(-700000 - 25569) == Civil(-17, 6, 18)
    ensures PeriodKeySplitPre(-17, 6)
    ensures SplitPeriodKey(PeriodKey(-17, 6)) == YearMonth(0, 17)
    ensures ReadPeriodKey(PeriodKey(-17, 6)) == YearMonth(-17, 6)
  {
    assert (-700000 - 25569 + 719468) / 146097 == -1 && (-700000 - 25569 + 719468) % 146097 == 139996;
    assert YearOfEra(139996) == (383, 109);
    assert MonthOfYearDay(109) == (3, 18);
    SplitPeriodKeyOfNegativeYear(-17, 6);
    ReadPeriodKeyRoundTrip(-17, 6);
  }

  predicate PeriodKeySplitPre(year: int, month: int) {
    IsKeyText(PeriodKey(year, month)) && '-' in PeriodKey(year, month)
  }

  // ---------------------------------------------------------------------------
  // The detector

  /**
   * What `split('-').map(Number)` makes of the key of month `month` of year `year`: that year and
   * month from year 0 on, and year 0 with the year's magnitude as the month before it.
   */
  function ReadAsWritten(year: int, month: nat): (p: YearMonth)
    ensures PeriodKeySplitPre(year, month) && p == SplitPeriodKey(PeriodKey(year, month))
  {
    if year >= 0 then
      SplitPeriodKeyOfNonNegativeYear(year, month);
      YearMonth(year, month)
    else
      SplitPeriodKeyOfNegativeYear(year, month);
      YearMonth(0, -year)
  }

  /**
   * `p` is what the source stores as the period of `keys`: the reading of the last most frequent
   * key, which is the key of a calendar month.
   */
  ghost predicate IsDetectedPeriod(keys: seq<string>, p: YearMonth) {
    exists year: int, month: nat :: 1 <= month <= 12 && IsLastMostFrequent(keys, PeriodKey(year, month)) && p == ReadAsWritten(year, month)
  }

  /**
   * A detected period with a positive year is the winning calendar month itself; a month outside
   * 1..12 can only come with year 0, from a key of a negative year.
   */
  lemma DetectedPeriodShape(keys: seq<string>, p: YearMonth)
    requires IsDetectedPeriod(keys, p)
    ensures p.anio > 0 ==> 1 <= p.mes <= 12 && IsLastMostFrequent(keys, PeriodKey(p.anio, p.mes))
    ensures !(1 <= p.mes <= 12) ==> p.anio == 0
  {
    var year: int, month: nat :| 1 <= month <= 12 && IsLastMostFrequent(keys, PeriodKey(year, month)) && p == ReadAsWritten(year, month);
  }

  /** The keys of a batch determine its detected period. */
  lemma DetectedPeriodUnique(keys: seq<string>, p: YearMonth, q: YearMonth)
    requires IsDetectedPeriod(keys, p) && IsDetectedPeriod(keys, q)
    ensures p == q
  {
    var y1: int, m1: nat :| 1 <= m1 <= 12 && IsLastMostFrequent(keys, PeriodKey(y1, m1)) && p == ReadAsWritten(y1, m1);
    var y2: int, m2: nat :| 1 <= m2 <= 12 && IsLastMostFrequent(keys, PeriodKey(y2, m2)) && q == ReadAsWritten(y2, m2);
    LastMostFrequentUnique(keys, PeriodKey(y1, m1), PeriodKey(y2, m2));
  }

  /**
   * `detectarPeriodoLote(datos)`: an error when no record has a transmission date; otherwise the
   * winning key read back as the source reads it (line 288).
   */
  method DetectPeriod(records: seq<DebitRecord>) returns (r: Result<YearMonth, string>)
    ensures r.Failure? <==> DatedKeys(records) == []
    ensures r.Failure? ==> r.error == NoDatesMessage
    ensures r.Success? ==> exists key :: IsLastMostFrequent(DatedKeys(records), key) && IsKeyText(key) && '-' in key && r.value == SplitPeriodKey(key)
    ensures r.Success? ==> IsDetectedPeriod(DatedKeys(records), r.value)
  {
    var best := MostFrequentKey(records);
    if best.None? {
      return Failure(NoDatesMessage);
    }
    var key := best.value;
    ghost var c := DatedKeyCivil(records, key);
    PeriodKeyIsKeyText(c.year, c.month);
    r := Success(SplitPeriodKey(key));
    assert r.value == ReadAsWritten(c.year, c.month);
  }

  /**
   * `detectarPeriodoLote(datos)` with the corrected reading of the winning key: the year and month
   * of the most frequent calendar month, for every year.
   */
  method DetectPeriodCorrected(records: seq<DebitRecord>) returns (r: Result<YearMonth, string>)
    ensures r.Failure? <==> DatedKeys(records) == []
    ensures r.Failure? ==> r.error == NoDatesMessage
    ensures r.Success? ==> IsLastMostFrequent(DatedKeys(records), PeriodKey(r.value.anio, r.value.mes))
    ensures r.Success? ==> 1 <= r.value.mes <= 12
  {
    var best := MostFrequentKey(records);
    if best.None? {
      return Failure(NoDatesMessage);
    }
    var key := best.value;
    ghost var c := DatedKeyCivil(records, key);
    ReadPeriodKeyRoundTrip(c.year, c.month);
    r := Success(ReadPeriodKey(key));
  }

  /** Every dated key is the key of the calendar date of some record's transmission date. */
  lemma {:induction false} DatedKeyCivil(records: seq<DebitRecord>, key: string) returns (c: Civil)
    requires key in DatedKeys(records)
    ensures 1 <= c.month <= 12 && key == PeriodKey(c.year, c.month)
    ensures exists i :: 0 <= i < |records| && records[i].fechaTransmision.Some? && CivilFromDays(records[i].fechaTransmision.value) == c
  {
    var init := records[..|records| - 1];
    var last := records[|records| - 1];
    if key in DatedKeys(init) {
      c := DatedKeyCivil(init, key);
      var i :| 0 <= i < |init| && init[i].fechaTransmision.Some? && CivilFromDays(init[i].fechaTransmision.value) == c;
      assert records[i] == init[i];
    } else {
      c := CivilFromDays(last.fechaTransmision.value);
    }
  }
}
