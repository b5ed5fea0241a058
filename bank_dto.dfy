/**
 * `validarBancoCreacion` and `validarBancoActualizacion`: the checks on a bank's name before it is
 * stored, and the normalised name handed on (trimmed and upper-cased). Lengths are JavaScript
 * `length`s, in UTF-16 code units.
 */
module BankDto {
  import opened Wrappers
  import opened JsText

  /** The `nombre` property of the request body: absent, `null`, or a string. */
  datatype NameField = Missing | Null | Name(s: string)

  datatype Validation = Validation(valid: bool, errors: seq<string>, name: Option<string>)

  const RequiredMessage := "El nombre del banco es requerido"
  const NotTextMessage := "El nombre del banco debe ser texto"
  const TooShortMessage := "El nombre del banco debe tener al menos 3 caracteres"
  const TooLongMessage := "El nombre del banco no puede exceder 100 caracteres"

  const MinLength := 3
  const MaxLength := 100

  /** `nombre.trim().toUpperCase()`. */
  function Normalized(s: string): string {
    ToUpper(Trim(s))
  }

  /** The length checks on a string name, in order: too short once trimmed, then too long as given. */
  function LengthErrors(s: string): (errors: seq<string>)
    ensures |errors| <= 1
    ensures errors == [] <==> MinLength <= Utf16Length(Trim(s)) && Utf16Length(s) <= MaxLength
  {
    if Utf16Length(Trim(s)) < MinLength then [TooShortMessage]
    else if Utf16Length(s) > MaxLength then [TooLongMessage]
    else []
  }

  /**
   * `validarBancoCreacion(data)`: a missing, `null` or empty name is required, otherwise the length
   * checks apply; the normalised name is returned whenever a string was given, valid or not.
   */
  function ValidateCreation(nombre: NameField): (v: Validation)
    ensures v.valid <==> v.errors == []
    ensures |v.errors| <= 1
    ensures v.valid <==> nombre.Name? && MinLength <= Utf16Length(Trim(nombre.s)) && Utf16Length(nombre.s) <= MaxLength
    ensures !nombre.Name? || nombre.s == [] ==> v.errors == [RequiredMessage]
    ensures nombre.Name? && nombre.s != [] ==> v.errors == LengthErrors(nombre.s)
    ensures v.name == if nombre.Name? then Some(Normalized(nombre.s)) else None
  {
    var errors := if !nombre.Name? || nombre.s == [] then [RequiredMessage] else LengthErrors(nombre.s);
    Validation(errors == [], errors, if nombre.Name? then Some(Normalized(nombre.s)) else None)
  }

  /**
   * `validarBancoActualizacion(data)`: an absent name is not checked; `null` is not text; a string
   * gets the length checks. The name is returned only when it is a non-empty string.
   */
  function ValidateUpdate(nombre: NameField): (v: Validation)
    ensures v.valid <==> v.errors == []
    ensures |v.errors| <= 1
    ensures nombre == Missing ==> v == Validation(true, [], None)
    ensures nombre == Null ==> v == Validation(false, [NotTextMessage], None)
    ensures nombre.Name? ==> v.errors == LengthErrors(nombre.s)
    ensures v.name.Some? <==> nombre.Name? && nombre.s != []
    ensures v.name.Some? ==> v.name.value == Normalized(nombre.s)
  {
    var errors := match nombre
      case Missing => []
      case Null => [NotTextMessage]
      case Name(s) => LengthErrors(s);
    Validation(errors == [], errors, if nombre.Name? && nombre.s != [] then Some(Normalized(nombre.s)) else None)
  }

  /** An empty name is too short for an update, and nothing is handed on. */
  lemma EmptyUpdate()
    ensures ValidateUpdate(Name("")) == Validation(false, [TooShortMessage], None)
  {
    assert Trim("") == "";
  }

  /** For a non-empty string, creation and update agree on validity, errors and the normalised name. */
  lemma CreationMatchesUpdate(s: string)
    requires s != []
    ensures ValidateCreation(Name(s)) == ValidateUpdate(Name(s))
  {
  }

  /** Trimming and upper-casing an already trimmed, upper-cased name changes nothing. */
  lemma NormalizedIsFixed(s: string)
    ensures Normalized(Normalized(s)) == Normalized(s)
  {
    var t := Trim(s);
    TrimIsTrimmed(s);
    ToUpperKeepsTrimmed(t);
    var u := ToUpper(t);
    TrimStartOfTrimmed(u);
    TrimEndOfTrimmed(u);
    assert Trim(u) == u;
    ToUpperIdempotent(t);
  }

  lemma {:induction false} Utf16LengthAppend(a: string, b: string)
    ensures Utf16Length(a + b) == Utf16Length(a) + Utf16Length(b)
  {
    if a != [] {
      assert (a + b)[0] == a[0];
      assert (a + b)[1..] == a[1..] + b;
      Utf16LengthAppend(a[1..], b);
    } else {
      assert a + b == b;
    }
  }

  /** Upper-casing never shortens a string, and without a sharp s keeps its UTF-16 length. */
  lemma {:induction false} UpperUtf16Length(s: string)
    ensures Utf16Length(ToUpper(s)) >= Utf16Length(s)
    ensures !HasSharpS(s) ==> Utf16Length(ToUpper(s)) == Utf16Length(s)
  {
    if s != [] {
      Utf16LengthAppend(UpperChar(s[0]), ToUpper(s[1..]));
      UpperUtf16Length(s[1..]);
      if !HasSharpS(s) {
        NoSharpSInTail(s);
      }
    }
  }

  /** A slice is never longer in UTF-16 than the string it is cut from. */
  lemma SliceUtf16Length(s: string, k: nat)
    requires k <= |s|
    ensures Utf16Length(s[..k]) <= Utf16Length(s) && Utf16Length(s[k..]) <= Utf16Length(s)
  {
    assert s == s[..k] + s[k..];
    Utf16LengthAppend(s[..k], s[k..]);
  }

  /** Trimming removes whole characters, so it never lengthens a string. */
  lemma TrimUtf16Length(s: string)
    ensures Utf16Length(Trim(s)) <= Utf16Length(s)
  {
    var t := TrimStart(s);
    SliceUtf16Length(s, |s| - |t|);
    SliceUtf16Length(t, |TrimEnd(t)|);
  }

  lemma TrimmedHasNoSharpS(s: string)
    requires !HasSharpS(s)
    ensures !HasSharpS(Trim(s))
  {
    var t := TrimStart(s);
    var r := TrimEnd(t);
    forall i | 0 <= i < |r| ensures r[i] as int != 0xDF {
      assert r[i] == t[i];
      assert t[i] == s[|s| - |t| + i];
    }
  }

  /**
   * Validating the name a valid creation returned is valid again and returns that name, provided
   * the name has no sharp s (which upper-cases to two characters and can push it past 100).
   */
  lemma RevalidationIdempotent(s: string)
    requires ValidateCreation(Name(s)).valid && !HasSharpS(s)
    ensures var n := ValidateCreation(Name(s)).name.value;
      ValidateCreation(Name(n)).valid && ValidateCreation(Name(n)).name == Some(n)
  {
    var t := Trim(s);
    var n := Normalized(s);
    NormalizedIsFixed(s);
    TrimIsTrimmed(s);
    TrimmedHasNoSharpS(s);
    UpperUtf16Length(t);
    TrimUtf16Length(s);
    ToUpperKeepsTrimmed(t);
    TrimStartOfTrimmed(n);
    TrimEndOfTrimmed(n);
    assert Trim(n) == n;
  }

  /** A name of 51 sharp s is valid, but its normalised form of 102 letters is too long. */
  lemma SharpSRevalidation()
    ensures var s := seq(51, _ => '\U{DF}');
      ValidateCreation(Name(s)).valid && !ValidateCreation(Name(ValidateCreation(Name(s)).name.value)).valid
  {
    var s := seq(51, _ => '\U{DF}');
    ShortRunLength(s);
    TrimOfSharpS(s);
    var u := seq(102, _ => 'S');
    UpperOfSharpS(51);
    ShortRunLength(u);
    TrimOfLetters(u);
  }

  /** The UTF-16 length of a string of characters of the Basic Multilingual Plane is its length. */
  lemma {:induction false} ShortRunLength(s: string)
    requires forall i :: 0 <= i < |s| ==> s[i] as int <= 0xFFFF
    ensures Utf16Length(s) == |s|
  {
    if s != [] {
      assert forall i :: 0 <= i < |s[1..]| ==> s[1..][i] == s[i + 1];
      ShortRunLength(s[1..]);
    }
  }

  lemma TrimOfSharpS(s: string)
    requires forall i :: 0 <= i < |s| ==> s[i] == '\U{DF}'
    ensures Trim(s) == s
  {
    if s != [] {
      TrimStartOfTrimmed(s);
      TrimEndOfTrimmed(s);
    }
  }

  lemma TrimOfLetters(s: string)
    requires forall i :: 0 <= i < |s| ==> s[i] == 'S'
    ensures Trim(s) == s
  {
    if s != [] {
      TrimStartOfTrimmed(s);
      TrimEndOfTrimmed(s);
    }
  }

  lemma {:induction false} UpperOfSharpS(n: nat)
    ensures ToUpper(seq(n, _ => '\U{DF}')) == seq(2 * n, _ => 'S')
  {
    var s := seq(n, _ => '\U{DF}');
    if n > 0 {
      assert s[1..] == seq(n - 1, _ => '\U{DF}');
      UpperOfSharpS(n - 1);
      assert seq(2 * n, _ => 'S') == ['S', 'S'] + seq(2 * (n - 1), _ => 'S');
    }
  }

  /**
   * The 100-character bound counts surrounding white space and the 3-character bound does not: a
   * valid 100-character name with one leading space becomes invalid, though its trimmed form is unchanged.
   */
  lemma PaddingCounts(s: string)
    requires ValidateCreation(Name(s)).valid && IsTrimmed(s) && Utf16Length(s) == MaxLength
    ensures Trim(" " + s) == s
    ensures ValidateCreation(Name(" " + s)).errors == [TooLongMessage]
  {
    TrimOfPadded(s);
    Utf16LengthAppend(" ", s);
  }

  /** A leading space is all `trim()` removes from a space and a trimmed string. */
  lemma TrimOfPadded(s: string)
    requires IsTrimmed(s)
    ensures Trim(" " + s) == s
  {
    var p := " " + s;
    assert p[1..] == s;
    TrimStartOfTrimmed(s);
    TrimEndOfTrimmed(s);
  }
}
