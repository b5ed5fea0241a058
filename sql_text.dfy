/**
 * The placeholders of a parameterised PostgreSQL statement: every `$n` in its text, `n` a run of
 * decimal digits, refers to the `n`-th entry (from 1) of the values sent with it.
 */
module SqlText {
  import opened JsText

  /** The length of the run of digits that starts `s`. */
  function DigitRun(s: string): (k: nat)
    ensures k <= |s|
    ensures forall i :: 0 <= i < k ==> IsDigit(s[i])
    ensures k < |s| ==> !IsDigit(s[k])
  {
    if s != [] && IsDigit(s[0]) then 1 + DigitRun(s[1..]) else 0
  }

  /** The numbers of the placeholders that occur in a statement. */
  function Placeholders(s: string): set<nat>
    decreases |s|
  {
    if s == [] then {}
    else if s[0] == '$' && DigitRun(s[1..]) > 0 then
      var k := DigitRun(s[1..]);
      {DecimalValue(s[1..1 + k])} + Placeholders(s[1 + k..])
    else Placeholders(s[1..])
  }

  /** The placeholders `$1` to `$n`. */
  function Range(n: nat): (r: set<nat>)
    ensures forall p :: p in r <==> 1 <= p <= n
  {
    if n == 0 then {} else Range(n - 1) + {n}
  }

  /** The placeholders `$lo` to `$(lo + n - 1)`. */
  function Interval(lo: nat, n: nat): (r: set<nat>)
    ensures forall p :: p in r <==> lo <= p < lo + n
    decreases n
  {
    if n == 0 then {} else {lo} + Interval(lo + 1, n - 1)
  }

  /** Text that cannot continue a run of digits. */
  predicate StartsApart(b: string) {
    b == [] || !IsDigit(b[0])
  }

  lemma {:induction false} DigitRunAppend(a: string, b: string)
    requires StartsApart(b)
    ensures DigitRun(a + b) == DigitRun(a)
  {
    if a == [] {
      assert a + b == b;
    } else {
      assert (a + b)[1..] == a[1..] + b;
      if IsDigit(a[0]) {
        DigitRunAppend(a[1..], b);
      }
    }
  }

  /** Statement text glued to a piece that starts apart has the placeholders of both. */
  lemma {:induction false} PlaceholdersAppend(a: string, b: string)
    requires StartsApart(b)
    ensures Placeholders(a + b) == Placeholders(a) + Placeholders(b)
    decreases |a|, 1
  {
    if a == [] {
      assert a + b == b;
    } else if a[0] == '$' && DigitRun(a[1..]) > 0 {
      PlaceholderAppendAt(a, b);
    } else {
      assert (a + b)[1..] == a[1..] + b;
      DigitRunAppend(a[1..], b);
      PlaceholdersAppend(a[1..], b);
    }
  }

  /** The case of `PlaceholdersAppend` where `a` starts with a placeholder. */
  lemma {:induction false} PlaceholderAppendAt(a: string, b: string)
    requires StartsApart(b) && a != [] && a[0] == '$' && DigitRun(a[1..]) > 0
    ensures Placeholders(a + b) == Placeholders(a) + Placeholders(b)
    decreases |a|, 0
  {
    var ab := a + b;
    var k := DigitRun(a[1..]);
    assert ab[1..] == a[1..] + b;
    DigitRunAppend(a[1..], b);
    assert ab[1..1 + k] == a[1..1 + k];
    assert ab[1 + k..] == a[1 + k..] + b;
    PlaceholdersAppend(a[1 + k..], b);
    var n := DecimalValue(a[1..1 + k]);
    PlaceholdersAtDollar(a, k);
    PlaceholdersAtDollar(ab, k);
    assert Placeholders(ab) == {n} + Placeholders(a[1 + k..] + b);
  }

  lemma PlaceholdersAtDollar(s: string, k: nat)
    requires s != [] && s[0] == '$' && k == DigitRun(s[1..]) && k > 0
    ensures Placeholders(s) == {DecimalValue(s[1..1 + k])} + Placeholders(s[1 + k..])
  {
  }

  /** Text without a `$` holds no placeholder. */
  lemma {:induction false} PlaceholdersWithoutDollar(s: string)
    requires '$' !in s
    ensures Placeholders(s) == {}
  {
    if s != [] {
      assert s[0] in s;
      assert forall c :: c in s[1..] ==> c in s;
      PlaceholdersWithoutDollar(s[1..]);
    }
  }

  /** Text without a `$` in front of a statement adds no placeholder, whatever follows. */
  lemma {:induction false} PlaceholdersAfterText(a: string, b: string)
    requires '$' !in a
    ensures Placeholders(a + b) == Placeholders(b)
  {
    if a != [] {
      assert a[0] in a;
      assert forall c :: c in a[1..] ==> c in a;
      assert (a + b)[1..] == a[1..] + b;
      PlaceholdersAfterText(a[1..], b);
    } else {
      assert a + b == b;
    }
  }

  /** The text of placeholder `$n`. */
  function Placeholder(n: nat): string {
    "$" + NatToString(n)
  }

  lemma PlaceholderNumber(n: nat)
    ensures Placeholders(Placeholder(n)) == {n}
  {
    var s := Placeholder(n);
    var d := NatToString(n);
    assert s[1..] == d;
    assert DigitRun(d) == |d| by {
      DigitRunOfDigits(d);
    }
    assert s[1..1 + |d|] == d;
    assert s[1 + |d|..] == [];
    DecimalOfNatToString(n);
  }

  lemma {:induction false} DigitRunOfDigits(s: string)
    requires forall i :: 0 <= i < |s| ==> IsDigit(s[i])
    ensures DigitRun(s) == |s|
  {
    if s != [] {
      assert forall i :: 0 <= i < |s[1..]| ==> s[1..][i] == s[i + 1];
      DigitRunOfDigits(s[1..]);
    }
  }

  /** `text $n` has the single placeholder `n` when `text` has none. */
  lemma PlaceholderAfter(text: string, n: nat)
    requires '$' !in text
    ensures Placeholders(text + Placeholder(n)) == {n}
  {
    PlaceholdersAppend(text, Placeholder(n));
    PlaceholdersWithoutDollar(text);
    PlaceholderNumber(n);
  }

  /** The placeholders of a list of pieces. */
  function PlaceholdersOfAll(parts: seq<string>): set<nat> {
    if parts == [] then {} else Placeholders(parts[0]) + PlaceholdersOfAll(parts[1..])
  }

  /** A `", "` between two pieces of text adds no placeholder and joins none. */
  lemma PlaceholdersAroundSeparator(a: string, b: string)
    ensures Placeholders(a + ", " + b) == Placeholders(a) + Placeholders(b)
  {
    assert a + ", " + b == a + (", " + b);
    PlaceholdersAppend(a, ", " + b);
    assert '$' !in ", ";
    PlaceholdersAfterText(", ", b);
  }

  /** Joining pieces by `", "` keeps exactly their placeholders. */
  lemma {:induction false} PlaceholdersJoin(parts: seq<string>)
    ensures Placeholders(Join(parts, ", ")) == PlaceholdersOfAll(parts)
  {
    if |parts| == 1 {
      assert parts[1..] == [];
    } else if |parts| > 1 {
      PlaceholdersJoin(parts[1..]);
      PlaceholdersAroundSeparator(parts[0], Join(parts[1..], ", "));
    }
  }

  /** `if (cond) query += t`. */
  function Appended(query: string, cond: bool, t: string): string {
    if cond then query + t else query
  }

  lemma PlaceholdersAppended(query: string, cond: bool, t: string)
    requires StartsApart(t)
    ensures Placeholders(Appended(query, cond, t)) == Placeholders(query) + (if cond then Placeholders(t) else {})
  {
    if cond {
      PlaceholdersAppend(query, t);
    }
  }
}
