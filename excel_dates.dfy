/**
 * `parsearFechaExcel`: a cell of the bank's spreadsheet read as a calendar day, or null.
 * Dates pass through, numbers are spreadsheet serials (serial 25569 is 1970-01-01), text in
 * `DD/MM/YYYY` or `DD-MM-YYYY` goes to the local-time `Date(y, m - 1, d)` constructor, text in
 * the standard `YYYY-MM-DD` form is a UTC date, and any other text is left to the engine's own
 * `Date` string parser, which is a parameter here.
 */
module ExcelDates {
  import opened Wrappers
  import opened JsText
  import opened CivilDates
  import opened Cells

  /** The serial of 1970-01-01 in the spreadsheet's 1900 date system. */
  const UnixEpochSerial := 25569

  /** A JavaScript time value lies within 8.64e15 ms, that is 10^8 days, of 1970-01-01. */
  const MaxDays := 100000000

  predicate IsSeparator(c: char) {
    c == '/' || c == '-'
  }

  /** How many decimal digits start at index `i` of `s`, counted up to three. */
  function DigitRun(s: string, i: nat): (n: nat)
    requires i <= |s|
    ensures n <= 3 && i + n <= |s|
    ensures (n >= 1 ==> IsDigit(s[i])) && (n >= 2 ==> IsDigit(s[i + 1])) && (n >= 3 ==> IsDigit(s[i + 2]))
    ensures n < 3 && i + n < |s| ==> !IsDigit(s[i + n])
  {
    if i < |s| && IsDigit(s[i]) then
      if i + 1 < |s| && IsDigit(s[i + 1]) then
        if i + 2 < |s| && IsDigit(s[i + 2]) then 3 else 2
      else 1
    else 0
  }

  /** The value of the one or two digits at index `i`. */
  function ShortNumber(s: string, i: nat, n: nat): nat
    requires 1 <= n <= 2 && i + n <= |s| && IsDigit(s[i]) && (n == 2 ==> IsDigit(s[i + 1]))
  {
    if n == 1 then DigitValue(s[i]) else 10 * DigitValue(s[i]) + DigitValue(s[i + 1])
  }

  predicate FourDigitsAt(s: string, i: nat) {
    i + 4 <= |s| && IsDigit(s[i]) && IsDigit(s[i + 1]) && IsDigit(s[i + 2]) && IsDigit(s[i + 3])
  }

  /** The value of the four digits at index `i`. */
  function FourDigitNumber(s: string, i: nat): nat
    requires FourDigitsAt(s, i)
  {
    1000 * DigitValue(s[i]) + 100 * DigitValue(s[i + 1]) + 10 * DigitValue(s[i + 2]) + DigitValue(s[i + 3])
  }

  /** The regular expression `^(\d{1,2})[\/-](\d{1,2})[\/-](\d{4})$`: (day, month, year). */
  function MatchDmy(s: string): Option<(nat, nat, nat)> {
    var a := DigitRun(s, 0);
    if !(1 <= a <= 2 && a < |s| && IsSeparator(s[a])) then None
    else
      var b := DigitRun(s, a + 1);
      if !(1 <= b <= 2 && a + 1 + b < |s| && IsSeparator(s[a + 1 + b])) then None
      else
        var c := a + b + 2;
        if |s| == c + 4 && FourDigitsAt(s, c) then
          Some((ShortNumber(s, 0, a), ShortNumber(s, a + 1, b), FourDigitNumber(s, c)))
        else None
  }

  /**
   * The date-only form `YYYY-MM-DD` of the ECMAScript Date Time String Format, which every engine
   * reads as a UTC date: (year, month, day), when the month and day name a real calendar day.
   */
  function MatchIsoDate(s: string): (r: Option<(nat, nat, nat)>)
    ensures r.Some? ==> r.value.0 < 10000 && IsValidCivil(Civil(r.value.0, r.value.1, r.value.2))
  {
    if |s| == 10 && FourDigitsAt(s, 0) && s[4] == '-' && IsDigit(s[5]) && IsDigit(s[6])
      && s[7] == '-' && IsDigit(s[8]) && IsDigit(s[9])
    then
      var y, m, d := FourDigitNumber(s, 0), ShortNumber(s, 5, 2), ShortNumber(s, 8, 2);
      if 1 <= m <= 12 && 1 <= d <= DaysInMonth(y, m) then Some((y, m, d)) else None
    else None
  }

  /** `new Date(y, m, d)` with a full year: years 0..99 are read as 1900..1999. */
  function LocalDateYear(y: int): int {
    if 0 <= y <= 99 then 1900 + y else y
  }

  /**
   * `parsearFechaExcel(valor)` as a day number. `native` is the engine's `Date` parser for the
   * strings that reach `new Date(s)` without being in the standard form; both the ISO branch and
   * the final attempt of the source call it on the trimmed text and keep only a valid date.
   */
  function ParseExcelDate(c: Cell, native: string -> Option<int>): (r: Option<int>)
    ensures !Truthy(c) ==> r == None
    ensures c.Flag? ==> r == None
    ensures c.DateValue? ==> r == Some(c.day)
    ensures c.Num? ==> (r.Some? <==> c.n != 0 && -MaxDays <= c.n - UnixEpochSerial <= MaxDays)
    ensures c.Num? && r.Some? ==> r.value == c.n - UnixEpochSerial
  {
    if !Truthy(c) then None
    else
      match c
      case DateValue(d) => Some(d)
      case Num(n) =>
        var days := n - UnixEpochSerial;
        if -MaxDays <= days <= MaxDays then Some(days) else None
      case Text(s) => ParseDateText(Trim(s), native)
      case _ => None
  }

  /** The string branch of `parsearFechaExcel`, on the trimmed text. */
  function ParseDateText(t: string, native: string -> Option<int>): Option<int> {
    match MatchDmy(t)
    case Some((d, m, y)) => Some(MakeDay(LocalDateYear(y), m - 1, d))
    case None =>
      match MatchIsoDate(t)
      case Some((y, m, d)) => Some(DaysFromCivil(y, m, d))
      case None => native(t)
  }

  // ---------------------------------------------------------------------------
  // The written forms of a date

  /** `DD/MM/YYYY` (or with `-`), zero-padded. */
  function DmyText(d: nat, m: nat, y: nat, sep1: char, sep2: char): string {
    Pad(d, 2) + [sep1] + Pad(m, 2) + [sep2] + Pad(y, 4)
  }

  /** `YYYY-MM-DD`, zero-padded. */
  function IsoText(y: nat, m: nat, d: nat): string {
    Pad(y, 4) + "-" + Pad(m, 2) + "-" + Pad(d, 2)
  }

  lemma {:induction false} DecimalOfZerosPrefix(k: nat, t: string)
    requires AllDigits(t)
    ensures AllDigits(Zeros(k) + t)
    ensures DecimalValue(Zeros(k) + t) == DecimalValue(t)
    decreases k + |t|
  {
    var s := Zeros(k) + t;
    assert AllDigits(s) by {
      forall i | 0 <= i < |s| ensures IsDigit(s[i]) {
        if i >= k {
          assert s[i] == t[i - k];
        }
      }
    }
    if t != [] {
      assert s[..|s| - 1] == Zeros(k) + t[..|t| - 1];
      DecimalOfZerosPrefix(k, t[..|t| - 1]);
    } else if k > 0 {
      assert s == Zeros(k - 1) + "0";
      assert s[..|s| - 1] == Zeros(k - 1) + [];
      DecimalOfZerosPrefix(k - 1, []);
    }
  }

  /** A zero-padded number of at most `w` digits is exactly `w` digits that read back as the number. */
  lemma PadDigits(n: nat, w: nat)
    requires 1 <= w && n < Pow10(w)
    ensures |Pad(n, w)| == w
    ensures AllDigits(Pad(n, w))
    ensures DecimalValue(Pad(n, w)) == n
  {
    var digits := NatToString(n);
    NatToStringLength(n, w);
    DecimalOfNatToString(n);
    if |digits| < w {
      PadWithZeros(n, w, digits);
    }
  }

  lemma PadWithZeros(n: nat, w: nat, digits: string)
    requires digits == NatToString(n) && |digits| < w && DecimalValue(digits) == n
    ensures Pad(n, w) == Zeros(w - |digits|) + digits
    ensures AllDigits(Pad(n, w)) && DecimalValue(Pad(n, w)) == n
  {
    assert AllDigits(digits);
    DecimalOfZerosPrefix(w - |digits|, digits);
  }

  lemma ShortNumberValue(s: string, i: nat, t: string)
    requires 1 <= |t| <= 2 && AllDigits(t) && i + |t| <= |s| && s[i..i + |t|] == t
    ensures IsDigit(s[i]) && (|t| == 2 ==> IsDigit(s[i + 1]))
    ensures ShortNumber(s, i, |t|) == DecimalValue(t)
  {
    assert s[i] == t[0];
    assert DecimalValue(t[..1]) == DigitValue(t[0]) by {
      assert t[..1] == [t[0]];
      DecimalValueOfDigit(t[0]);
    }
    if |t| == 2 {
      assert s[i + 1] == t[1];
    } else {
      assert t[..1] == t;
    }
  }

  lemma FourDigitNumberValue(s: string, i: nat, t: string)
    requires |t| == 4 && AllDigits(t) && i + 4 <= |s| && s[i..i + 4] == t
    ensures FourDigitsAt(s, i) && FourDigitNumber(s, i) == DecimalValue(t)
  {
    assert s[i] == t[0] && s[i + 1] == t[1] && s[i + 2] == t[2] && s[i + 3] == t[3];
    var v1 := DecimalValue(t[..1]);
    assert v1 == DigitValue(t[0]) by {
      assert t[..1] == [t[0]];
      DecimalValueOfDigit(t[0]);
    }
    var v2 := DecimalValue(t[..2]);
    assert v2 == 10 * v1 + DigitValue(t[1]) by {
      assert t[..2][..1] == t[..1];
    }
    var v3 := DecimalValue(t[..3]);
    assert v3 == 10 * v2 + DigitValue(t[2]) by {
      assert t[..3][..2] == t[..2];
    }
    assert DecimalValue(t) == 10 * v3 + DigitValue(t[3]) by {
      assert t[..3] == t[..|t| - 1];
    }
  }

  /**
   * `s` is `a` digits (1 or 2), a separator, `b` digits (1 or 2), a separator and four digits:
   * the strings `MatchDmy` accepts.
   */
  predicate DmyShape(s: string, a: nat, b: nat) {
    1 <= a <= 2 && 1 <= b <= 2 && |s| == a + b + 6
    && IsDigit(s[0]) && (a == 2 ==> IsDigit(s[1])) && IsSeparator(s[a])
    && IsDigit(s[a + 1]) && (b == 2 ==> IsDigit(s[a + 2])) && IsSeparator(s[a + 1 + b])
    && FourDigitsAt(s, a + b + 2)
  }

  /** Every text of that shape is matched, and its three digit groups are the numbers. */
  lemma DmyShapeMatched(s: string, a: nat, b: nat)
    requires DmyShape(s, a, b)
    ensures MatchDmy(s) == Some((ShortNumber(s, 0, a), ShortNumber(s, a + 1, b), FourDigitNumber(s, a + b + 2)))
  {
    assert DigitRun(s, 0) == a;
    assert DigitRun(s, a + 1) == b;
  }

  /** Conversely, whatever is matched has that shape. */
  lemma MatchDmySound(s: string)
    requires MatchDmy(s).Some?
    ensures exists a: nat, b: nat :: DmyShape(s, a, b)
  {
    var a := DigitRun(s, 0);
    var b := DigitRun(s, a + 1);
    assert DmyShape(s, a, b);
  }

  /** Every separated day/month/year text of one or two, one or two and four digits is matched, with its numbers. */
  lemma MatchDmyComplete(ds: string, c1: char, ms: string, c2: char, ys: string)
    requires 1 <= |ds| <= 2 && AllDigits(ds) && 1 <= |ms| <= 2 && AllDigits(ms)
    requires |ys| == 4 && AllDigits(ys) && IsSeparator(c1) && IsSeparator(c2)
    ensures MatchDmy(ds + [c1] + ms + [c2] + ys) == Some((DecimalValue(ds), DecimalValue(ms), DecimalValue(ys)))
  {
    DmyPieces(ds, c1, ms, c2, ys);
    MatchDmyOfPieces(ds + [c1] + ms + [c2] + ys, ds, c1, ms, c2, ys);
  }

  lemma DmyPieces(ds: string, c1: char, ms: string, c2: char, ys: string)
    ensures var s, a, b := ds + [c1] + ms + [c2] + ys, |ds|, |ms|;
      && |s| == a + b + 2 + |ys| && s[0..a] == ds && s[a] == c1
      && s[a + 1..a + 1 + b] == ms && s[a + 1 + b] == c2 && s[a + b + 2..] == ys
  {
  }

  lemma MatchDmyOfPieces(s: string, ds: string, c1: char, ms: string, c2: char, ys: string)
    requires 1 <= |ds| <= 2 && AllDigits(ds) && 1 <= |ms| <= 2 && AllDigits(ms)
    requires |ys| == 4 && AllDigits(ys) && IsSeparator(c1) && IsSeparator(c2)
    requires |s| == |ds| + |ms| + 6 && s[0..|ds|] == ds && s[|ds|] == c1
    requires s[|ds| + 1..|ds| + 1 + |ms|] == ms && s[|ds| + 1 + |ms|] == c2 && s[|ds| + |ms| + 2..] == ys
    ensures MatchDmy(s) == Some((DecimalValue(ds), DecimalValue(ms), DecimalValue(ys)))
  {
    var a, b := |ds|, |ms|;
    ShortNumberValue(s, 0, ds);
    ShortNumberValue(s, a + 1, ms);
    assert s[a + b + 2..a + b + 6] == ys;
    FourDigitNumberValue(s, a + b + 2, ys);
    DmyShapeMatched(s, a, b);
  }

  /** Text of the ISO shape: four digits, `-`, two digits, `-`, two digits. */
  predicate IsoShape(s: string) {
    |s| == 10 && FourDigitsAt(s, 0) && s[4] == '-' && IsDigit(s[5]) && IsDigit(s[6])
    && s[7] == '-' && IsDigit(s[8]) && IsDigit(s[9])
  }

  /** Text of the ISO shape whose numbers name a real calendar day is matched as that day. */
  lemma IsoShapeMatched(s: string, y: nat, m: nat, d: nat)
    requires IsoShape(s) && IsValidCivil(Civil(y, m, d))
    requires FourDigitNumber(s, 0) == y && ShortNumber(s, 5, 2) == m && ShortNumber(s, 8, 2) == d
    ensures MatchIsoDate(s) == Some((y, m, d))
  {
  }

  lemma IsoPieces(ys: string, ms: string, ds: string)
    ensures var s := ys + "-" + ms + "-" + ds;
      && |s| == |ys| + |ms| + |ds| + 2 && s[0..|ys|] == ys && s[|ys|] == '-'
      && s[|ys| + 1..|ys| + 1 + |ms|] == ms && s[|ys| + 1 + |ms|] == '-' && s[|ys| + |ms| + 2..] == ds
  {
  }

  lemma IsoOfPieces(s: string, ys: string, ms: string, ds: string)
    requires |ys| == 4 && |ms| == 2 && |ds| == 2 && AllDigits(ys) && AllDigits(ms) && AllDigits(ds)
    requires |s| == 10 && s[0..4] == ys && s[4] == '-' && s[5..7] == ms && s[7] == '-' && s[8..] == ds
    ensures IsoShape(s)
    ensures FourDigitNumber(s, 0) == DecimalValue(ys)
    ensures ShortNumber(s, 5, 2) == DecimalValue(ms) && ShortNumber(s, 8, 2) == DecimalValue(ds)
  {
    FourDigitNumberValue(s, 0, ys);
    ShortNumberValue(s, 5, ms);
    assert s[8..10] == ds;
    ShortNumberValue(s, 8, ds);
  }

  /** The zero-padded ISO text of a real calendar day is matched as that day. */
  lemma MatchIsoComplete(y: nat, m: nat, d: nat)
    requires y < 10000 && IsValidCivil(Civil(y, m, d))
    ensures MatchIsoDate(IsoText(y, m, d)) == Some((y, m, d))
  {
    assert Pow10(2) == 100 && Pow10(4) == 10000;
    PadDigits(y, 4);
    PadDigits(m, 2);
    PadDigits(d, 2);
    IsoPieces(Pad(y, 4), Pad(m, 2), Pad(d, 2));
    IsoOfPieces(IsoText(y, m, d), Pad(y, 4), Pad(m, 2), Pad(d, 2));
    IsoShapeMatched(IsoText(y, m, d), y, m, d);
  }

  /** A text that starts and ends with a digit is left alone by `trim()`. */
  lemma TrimOfDigitEnds(s: string)
    requires s != [] && IsDigit(s[0]) && IsDigit(s[|s| - 1])
    ensures Trim(s) == s
  {
    assert IsTrimmed(s);
    TrimStartOfTrimmed(s);
    TrimEndOfTrimmed(s);
  }

  lemma DmyTextMatched(d: nat, m: nat, y: nat, sep1: char, sep2: char)
    requires d < 100 && m < 100 && y < 10000 && IsSeparator(sep1) && IsSeparator(sep2)
    ensures Trim(DmyText(d, m, y, sep1, sep2)) == DmyText(d, m, y, sep1, sep2)
    ensures MatchDmy(DmyText(d, m, y, sep1, sep2)) == Some((d, m, y))
  {
    assert Pow10(2) == 100 && Pow10(4) == 10000;
    PadDigits(d, 2);
    PadDigits(m, 2);
    PadDigits(y, 4);
    DmyPiecesTrimmed(Pad(d, 2), sep1, Pad(m, 2), sep2, Pad(y, 4));
    MatchDmyComplete(Pad(d, 2), sep1, Pad(m, 2), sep2, Pad(y, 4));
  }

  /** Day-first text glued from digit pieces starts and ends with a digit, so `trim()` keeps it. */
  lemma DmyPiecesTrimmed(ds: string, c1: char, ms: string, c2: char, ys: string)
    requires |ds| == 2 && AllDigits(ds) && |ys| == 4 && AllDigits(ys)
    ensures Trim(ds + [c1] + ms + [c2] + ys) == ds + [c1] + ms + [c2] + ys
  {
    var s := ds + [c1] + ms + [c2] + ys;
    assert s[0] == ds[0];
    assert s[|s| - 1] == ys[3];
    TrimOfDigitEnds(s);
  }

  lemma IsoTextMatched(y: nat, m: nat, d: nat)
    requires y < 10000 && IsValidCivil(Civil(y, m, d))
    ensures Trim(IsoText(y, m, d)) == IsoText(y, m, d)
    ensures MatchDmy(IsoText(y, m, d)) == None
    ensures MatchIsoDate(IsoText(y, m, d)) == Some((y, m, d))
  {
    var s := IsoText(y, m, d);
    MatchIsoComplete(y, m, d);
    IsoMatchedShape(s);
    IsoIsNotDmy(s);
    TrimOfDigitEnds(s);
  }

  /** Whatever `MatchIsoDate` accepts has the ISO shape. */
  lemma IsoMatchedShape(s: string)
    requires MatchIsoDate(s).Some?
    ensures IsoShape(s)
  {
  }

  // ---------------------------------------------------------------------------
  // What the parser makes of matched text

  /** A standard ISO date never matches the day-first pattern: its first digit run has four digits. */
  lemma IsoIsNotDmy(t: string)
    requires MatchIsoDate(t).Some?
    ensures MatchDmy(t).None?
  {
    assert DigitRun(t, 0) == 3;
  }

  /** Non-empty text is trimmed and handed to the string branch. */
  lemma ParseNonEmptyText(s: string, native: string -> Option<int>)
    requires s != []
    ensures ParseExcelDate(Text(s), native) == ParseDateText(Trim(s), native)
  {
  }

  /** Text whose trimmed form matches `DD/MM/YYYY` or `DD-MM-YYYY` is `Date(y, m - 1, d)`: never null. */
  lemma ParseMatchedDmy(s: string, d: nat, m: nat, y: nat, native: string -> Option<int>)
    requires MatchDmy(Trim(s)) == Some((d, m, y))
    ensures ParseExcelDate(Text(s), native) == Some(MakeDay(LocalDateYear(y), m - 1, d))
  {
    assert |Trim(s)| <= |s|;
    ParseNonEmptyText(s, native);
    DateTextOfDmy(Trim(s), d, m, y, native);
  }

  lemma DateTextOfDmy(t: string, d: nat, m: nat, y: nat, native: string -> Option<int>)
    requires MatchDmy(t) == Some((d, m, y))
    ensures ParseDateText(t, native) == Some(MakeDay(LocalDateYear(y), m - 1, d))
  {
  }

  /** Text whose trimmed form is a standard ISO date is that UTC date; the engine's parser is not consulted. */
  lemma ParseMatchedIso(s: string, y: nat, m: nat, d: nat, native: string -> Option<int>)
    requires MatchIsoDate(Trim(s)) == Some((y, m, d))
    ensures 1 <= m <= 12 && ParseExcelDate(Text(s), native) == Some(DaysFromCivil(y, m, d))
  {
    IsoIsNotDmy(Trim(s));
    assert |Trim(s)| <= |s|;
    ParseNonEmptyText(s, native);
  }

  /** Only text that matches neither pattern reaches the engine's own `Date` parser. */
  lemma ParseOtherText(s: string, native: string -> Option<int>)
    requires s != [] && MatchDmy(Trim(s)).None? && MatchIsoDate(Trim(s)).None?
    ensures ParseExcelDate(Text(s), native) == native(Trim(s))
  {
  }

  /**
   * One calendar day written three ways (a `DD/MM/YYYY` or `DD-MM-YYYY` text, an ISO
   * `YYYY-MM-DD` text and the spreadsheet serial) is parsed to the same day number, for every
   * year from 1900 on.
   */
  lemma SameDayThreeWays(dmy: string, iso: string, y: nat, m: nat, d: nat, native: string -> Option<int>)
    requires MatchIsoDate(Trim(iso)) == Some((y, m, d))
    requires MatchDmy(Trim(dmy)) == Some((d, m, y))
    requires 1900 <= y
    ensures var day := DaysFromCivil(y, m, d);
      && ParseExcelDate(Text(dmy), native) == Some(day)
      && ParseExcelDate(Text(iso), native) == Some(day)
      && ParseExcelDate(Num(day + UnixEpochSerial), native) == Some(day)
  {
    ParseMatchedIso(iso, y, m, d, native);
    ParseMatchedDmy(dmy, d, m, y, native);
    MakeDayInMonth(y, m, d);
    assert IsValidCivil(Civil(y, m, d));
    ParseSerialOfCivil(y, m, d, native);
  }

  /** The spreadsheet serial of a day from 1900 to 9999 is parsed back to that day. */
  lemma ParseSerialOfCivil(y: int, m: int, d: int, native: string -> Option<int>)
    requires 1900 <= y < 10000 && 1 <= m <= 12 && 1 <= d <= 31
    ensures ParseExcelDate(Num(DaysFromCivil(y, m, d) + UnixEpochSerial), native) == Some(DaysFromCivil(y, m, d))
  {
    DaysFromCivilRange(y, m, d);
  }

  /** Day numbers of the years 1900..9999 lie after serial 0 and well inside the `Date` range. */
  lemma DaysFromCivilRange(y: int, m: int, d: int)
    requires 1900 <= y < 10000 && 1 <= m <= 12 && 1 <= d <= 31
    ensures -UnixEpochSerial < DaysFromCivil(y, m, d) <= MaxDays
  {
    var yy := if m <= 2 then y - 1 else y;
    var era := yy / 400;
    var yoe := yy % 400;
    assert yy == era * 400 + yoe;
    MarchStartOf(era, yoe);
    assert 4 <= era <= 24;
    if era == 4 {
      assert yoe >= 299;
      assert yoe == 299 ==> m <= 2;
    }
  }

  /**
   * Two-digit years disagree between the forms: `DD/MM/00YY` goes through the `Date(y, m, d)`
   * constructor, which reads years 0..99 as 1900..1999, while ISO `00YY-MM-DD` is year `YY` itself.
   */
  lemma TwoDigitYears(dmy: string, iso: string, y: nat, m: nat, d: nat, native: string -> Option<int>)
    requires MatchIsoDate(Trim(iso)) == Some((y, m, d))
    requires MatchDmy(Trim(dmy)) == Some((d, m, y))
    requires y <= 99
    ensures ParseExcelDate(Text(dmy), native) == Some(MakeDay(1900 + y, m - 1, d))
    ensures ParseExcelDate(Text(iso), native) == Some(DaysFromCivil(y, m, d))
  {
    ParseMatchedIso(iso, y, m, d, native);
    ParseMatchedDmy(dmy, d, m, y, native);
  }

  /** A day past the end of its month rolls into the next month instead of being rejected. */
  lemma DmyRollsOver(s: string, d: nat, m: nat, y: nat, native: string -> Option<int>)
    requires MatchDmy(Trim(s)) == Some((d, m, y)) && 1 <= m <= 12 && d > DaysInMonth(LocalDateYear(y), m)
    ensures ParseExcelDate(Text(s), native) == Some(MakeDay(LocalDateYear(y), m, d - DaysInMonth(LocalDateYear(y), m)))
  {
    ParseMatchedDmy(s, d, m, y, native);
    RolloverOf(ParseExcelDate(Text(s), native), LocalDateYear(y), m, d);
  }

  lemma RolloverOf(r: Option<int>, year: int, m: int, d: int)
    requires 1 <= m <= 12 && d > DaysInMonth(year, m) && r == Some(MakeDay(year, m - 1, d))
    ensures r == Some(MakeDay(year, m, d - DaysInMonth(year, m)))
  {
    MakeDayRollover(year, m, d);
  }

  /** `31/02/2024` (the text `DmyText(31, 2, 2024, '/', '/')`) is 2 March 2024. */
  lemma ThirtyFirstOfFebruary(native: string -> Option<int>)
    ensures ParseExcelDate(Text(DmyText(31, 2, 2024, '/', '/')), native) == Some(DaysFromCivil(2024, 3, 2))
  {
    var s := DmyText(31, 2, 2024, '/', '/');
    DmyTextMatched(31, 2, 2024, '/', '/');
    DmyRollsOver(s, 31, 2, 2024, native);
    assert DaysInMonth(2024, 2) == 29;
    MakeDayInMonth(2024, 3, 2);
  }
}
