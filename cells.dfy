/**
 * Spreadsheet cells as the sheet reader hands them over (`sheet_to_json` with `defval: null`
 * and `cellDates: true`): empty, text, an integral number, a boolean or a date. A date is its
 * day number (days since 1970-01-01, UTC midnight). JavaScript truthiness and `toString()` are
 * given for each kind.
 */
module Cells {
  import JsText
  import CivilDates
  import opened Wrappers

  datatype Cell = Blank | Text(s: string) | Num(n: int) | Flag(b: bool) | DateValue(day: int)

  /** `!!v`: null, `''`, `0` and `false` are falsy; every date object is truthy. */
  predicate Truthy(c: Cell) {
    match c
    case Blank => false
    case Text(s) => s != []
    case Num(n) => n != 0
    case Flag(b) => b
    case DateValue(_) => true
  }

  /** `v?.toString()`: `None` stands for `undefined` (a null cell). */
  function ToText(c: Cell): (r: Option<string>)
    ensures r.None? <==> c.Blank?
    ensures c.Text? ==> r == Some(c.s)
    ensures c.Num? || c.Flag? || c.DateValue? ==> r.Some? && r.value != []
  {
    match c
    case Blank => None
    case Text(s) => Some(s)
    case Num(n) => Some(JsText.IntToString(n))
    case Flag(b) => Some(if b then "true" else "false")
    case DateValue(d) => Some(DateString(d))
  }

  /**
   * `Date.prototype.toString` at UTC midnight: weekday, month, two-digit day, four-digit year,
   * `00:00:00 GMT+0000`. The optional time-zone name, which is implementation-defined, is left empty.
   */
  function DateString(day: int): (r: string)
    ensures r != []
  {
    var c := CivilDates.CivilFromDays(day);
    WeekdayName((day + 4) % 7) + " " + MonthName(c.month) + " " + Pad(c.day, 2) + " "
      + YearString(c.year) + " 00:00:00 GMT+0000"
  }

  function WeekdayName(w: int): string
    requires 0 <= w < 7
  {
    ["Sun", "Mon", "Tue", "Wed", "Thu", "Fri", "Sat"][w]
  }

  function MonthName(m: int): string
    requires 1 <= m <= 12
  {
    ["Jan", "Feb", "Mar", "Apr", "May", "Jun", "Jul", "Aug", "Sep", "Oct", "Nov", "Dec"][m - 1]
  }

  /** Decimal digits of `n`, left-padded with zeros to `width`. */
  function Pad(n: nat, width: nat): (r: string)
    ensures |r| >= width
  {
    var digits := JsText.NatToString(n);
    if |digits| >= width then digits else Zeros(width - |digits|) + digits
  }

  function Zeros(k: nat): (r: string)
    ensures |r| == k && forall i :: 0 <= i < k ==> r[i] == '0'
  {
    if k == 0 then [] else Zeros(k - 1) + "0"
  }

  function YearString(y: int): string {
    if y >= 0 then Pad(y, 4) else "-" + Pad(-y, 4)
  }
}
