/**
 * `normalizarNombreColumna`: the spreadsheet header normaliser. A header is lower-cased,
 * white-space runs and dots become `_`, accented vowels and `ñ` lose their accent, every
 * other character outside `[a-z0-9_]` is dropped, runs of `_` collapse and one `_` is
 * stripped from each end; the result is then looked up in the alias table.
 */
module HeaderNormalizer {
  import JsText

  predicate IsNameChar(c: char) {
    ('a' <= c <= 'z') || ('0' <= c <= '9') || c == '_'
  }

  predicate OnlyNameChars(s: string) {
    forall i :: 0 <= i < |s| ==> IsNameChar(s[i])
  }

  predicate NoDoubleUnderscore(s: string) {
    forall i :: 0 <= i < |s| - 1 ==> !(s[i] == '_' && s[i + 1] == '_')
  }

  predicate NoEdgeUnderscore(s: string) {
    s == [] || (s[0] != '_' && s[|s| - 1] != '_')
  }

  /** The shape of every header name the normaliser returns. */
  predicate IsCanonicalName(s: string) {
    OnlyNameChars(s) && NoDoubleUnderscore(s) && NoEdgeUnderscore(s)
  }

  /** `/\s+/g` replaced by `_`: each maximal run of white space becomes one underscore. */
  function ReplaceWhitespaceRuns(s: string): string
    decreases |s|
  {
    if s == [] then []
    else if JsText.IsWhitespace(s[0]) then "_" + ReplaceWhitespaceRuns(JsText.TrimStart(s[1..]))
    else [s[0]] + ReplaceWhitespaceRuns(s[1..])
  }

  /** `/\./g` replaced by `_`. */
  function ReplaceDots(s: string): string {
    if s == [] then [] else [if s[0] == '.' then '_' else s[0]] + ReplaceDots(s[1..])
  }

  /** The six accent classes `[áàäâ]`, `[éèëê]`, `[íìïî]`, `[óòöô]`, `[úùüû]` and `ñ`. */
  function UnaccentChar(c: char): char {
    var n := c as int;
    if n == 0xE1 || n == 0xE0 || n == 0xE4 || n == 0xE2 then 'a'
    else if n == 0xE9 || n == 0xE8 || n == 0xEB || n == 0xEA then 'e'
    else if n == 0xED || n == 0xEC || n == 0xEF || n == 0xEE then 'i'
    else if n == 0xF3 || n == 0xF2 || n == 0xF6 || n == 0xF4 then 'o'
    else if n == 0xFA || n == 0xF9 || n == 0xFC || n == 0xFB then 'u'
    else if n == 0xF1 then 'n'
    else c
  }

  function Unaccent(s: string): string {
    if s == [] then [] else [UnaccentChar(s[0])] + Unaccent(s[1..])
  }

  /** `/[^a-z0-9_]/g` replaced by the empty string. */
  function KeepNameChars(s: string): string {
    if s == [] then [] else (if IsNameChar(s[0]) then [s[0]] else []) + KeepNameChars(s[1..])
  }

  function DropUnderscores(s: string): (r: string)
    ensures |r| <= |s| && (r == [] || r[0] != '_') && r == s[|s| - |r|..]
  {
    if s != [] && s[0] == '_' then DropUnderscores(s[1..]) else s
  }

  /** `/_+/g` replaced by `_`. */
  function CollapseUnderscores(s: string): string
    decreases |s|
  {
    if s == [] then []
    else if s[0] == '_' then "_" + CollapseUnderscores(DropUnderscores(s[1..]))
    else [s[0]] + CollapseUnderscores(s[1..])
  }

  /** `/^_|_$/g` replaced by the empty string: one leading and one trailing underscore go. */
  function StripEdgeUnderscores(s: string): string {
    var t := if s != [] && s[0] == '_' then s[1..] else s;
    if t != [] && t[|t| - 1] == '_' then t[..|t| - 1] else t
  }

  /** The replace chain of the normaliser, before the alias lookup. */
  function NormalizedText(header: string): string {
    StripEdgeUnderscores(CollapseUnderscores(KeepNameChars(Unaccent(ReplaceDots(
      ReplaceWhitespaceRuns(JsText.ToLower(header)))))))
  }

  /** The alias table `mapeo`: known spellings and truncations of the bank's headers. */
  const Aliases: map<string, string> := map[
    "estado" := "estado",
    "moneda" := "moneda",
    "forma" := "forma_pago",
    "forma_pago" := "forma_pago",
    "formapago" := "forma_pago",
    "valor" := "valor_cobrado",
    "valor_cobrado" := "valor_cobrado",
    "cod_tercero" := "cod_tercero",
    "cod_tercer" := "cod_tercero",
    "codtercero" := "cod_tercero",
    "cod__tercero" := "cod_tercero",
    "cod_terc" := "cod_tercero",
    "nom_terc" := "nom_terc",
    "nomterc" := "nom_terc",
    "nom__terc" := "nom_terc",
    "nom_tercero" := "nom_terc",
    "fecha_transmision" := "fecha_transmision",
    "fechatransmision" := "fecha_transmision",
    "fecha__transmision" := "fecha_transmision",
    "fch_transmision" := "fecha_transmision",
    "fch_transm" := "fecha_transmision",
    "fecha_tra" := "fecha_transmision",
    "fecha_transm" := "fecha_transmision",
    "fch_tra" := "fecha_transmision",
    "fecha_trasm" := "fecha_transmision",
    "banco" := "banco",
    "banco_pld" := "banco",
    "tipo_cta" := "tipo_cuenta",
    "tipocta" := "tipo_cuenta",
    "tipo__cta" := "tipo_cuenta",
    "tipo_cuenta" := "tipo_cuenta",
    "num_cta" := "num_cuenta",
    "numcta" := "num_cuenta",
    "num__cta" := "num_cuenta",
    "num_cuenta" := "num_cuenta",
    "fch_pago" := "fecha_pago",
    "fchpago" := "fecha_pago",
    "fch__pago" := "fecha_pago",
    "fecha_pago" := "fecha_pago",
    "fechapago" := "fecha_pago",
    "fch_pago_26" := "fecha_pago"
  ]

  /** The canonical names the alias table maps to. */
  const CanonicalFields: set<string> := {
    "estado", "moneda", "forma_pago", "valor_cobrado", "cod_tercero", "nom_terc",
    "fecha_transmision", "banco", "tipo_cuenta", "num_cuenta", "fecha_pago"
  }

  /**
   * `normalizarNombreColumna`: the empty header gives the empty name; otherwise the cleaned text
   * is looked up in the alias table (`mapeo[normalizado] || normalizado`). Every result is a
   * canonical name.
   */
  function NormalizeHeader(header: string): (r: string)
    ensures IsCanonicalName(r)
    ensures header == [] ==> r == []
    ensures header != [] && NormalizedText(header) in Aliases ==> r == Aliases[NormalizedText(header)]
    ensures header != [] && NormalizedText(header) !in Aliases ==> r == NormalizedText(header)
  {
    if header == [] then []
    else
      var n := NormalizedText(header);
      NormalizedTextIsCanonical(header);
      AliasesMapIntoCanonicalFields(n);
      if n in Aliases then Aliases[n] else n
  }

  // ---------------------------------------------------------------------------
  // The alias table

  lemma AliasesMapIntoCanonicalFields(k: string)
    ensures k in Aliases ==> Aliases[k] in CanonicalFields && IsCanonicalName(Aliases[k])
  {
    CanonicalFieldsAreFixed();
  }

  /** Every canonical field is a canonical name that the alias table maps to itself. */
  lemma CanonicalFieldsAreFixed()
    ensures forall t :: t in CanonicalFields ==> t in Aliases && Aliases[t] == t && IsCanonicalName(t)
  {
    forall t | t in CanonicalFields ensures t in Aliases && Aliases[t] == t {
      SelfMapped(t);
    }
    CanonicalFieldsAreNames();
  }

  lemma SelfMapped(t: string)
    requires t in CanonicalFields
    ensures t in Aliases && Aliases[t] == t
  {
    if t == "estado" {
      MapsEstado();
    }     else if t == "moneda" {
      MapsMoneda();
    }     else if t == "forma_pago" {
      MapsFormaPago();
    }     else if t == "valor_cobrado" {
      MapsValorCobrado();
    }     else if t == "cod_tercero" {
      MapsCodTercero();
    }     else if t == "nom_terc" {
      MapsNomTerc();
    }     else if t == "fecha_transmision" {
      MapsFechaTransmision();
    }     else if t == "banco" {
      MapsBanco();
    }     else if t == "tipo_cuenta" {
      MapsTipoCuenta();
    }     else if t == "num_cuenta" {
      MapsNumCuenta();
    }     else if t == "fecha_pago" {
      MapsFechaPago();
    }
  }

  // One lookup per lemma keeps each proof small.
  lemma MapsEstado() ensures "estado" in Aliases && Aliases["estado"] == "estado" {}
  lemma MapsMoneda() ensures "moneda" in Aliases && Aliases["moneda"] == "moneda" {}
  lemma MapsFormaPago() ensures "forma_pago" in Aliases && Aliases["forma_pago"] == "forma_pago" {}
  lemma MapsValorCobrado() ensures "valor_cobrado" in Aliases && Aliases["valor_cobrado"] == "valor_cobrado" {}
  lemma MapsCodTercero() ensures "cod_tercero" in Aliases && Aliases["cod_tercero"] == "cod_tercero" {}
  lemma MapsNomTerc() ensures "nom_terc" in Aliases && Aliases["nom_terc"] == "nom_terc" {}
  lemma MapsFechaTransmision() ensures "fecha_transmision" in Aliases && Aliases["fecha_transmision"] == "fecha_transmision" {}
  lemma MapsBanco() ensures "banco" in Aliases && Aliases["banco"] == "banco" {}
  lemma MapsTipoCuenta() ensures "tipo_cuenta" in Aliases && Aliases["tipo_cuenta"] == "tipo_cuenta" {}
  lemma MapsNumCuenta() ensures "num_cuenta" in Aliases && Aliases["num_cuenta"] == "num_cuenta" {}
  lemma MapsFechaPago() ensures "fecha_pago" in Aliases && Aliases["fecha_pago"] == "fecha_pago" {}

  lemma CanonicalFieldsAreNames()
    ensures forall t :: t in CanonicalFields ==> IsCanonicalName(t)
  {
    NameCheckSound("estado");
    NameCheckSound("moneda");
    NameCheckSound("forma_pago");
    assert NameCheckFrom("valor_cobrado", 6);
    NameCheckSound("valor_cobrado");
    NameCheckSound("cod_tercero");
    NameCheckSound("nom_terc");
    assert NameCheckFrom("fecha_transmision", 8);
    NameCheckSound("fecha_transmision");
    NameCheckSound("banco");
    NameCheckSound("tipo_cuenta");
    NameCheckSound("num_cuenta");
    NameCheckSound("fecha_pago");
  }

  /** An executable check of `IsCanonicalName` from index `i` on, which Dafny evaluates on literals. */
  function NameCheckFrom(s: string, i: nat): bool
    decreases |s| - i
  {
    if i >= |s| then true
    else IsNameChar(s[i]) && (i + 1 == |s| || !(s[i] == '_' && s[i + 1] == '_')) && NameCheckFrom(s, i + 1)
  }

  lemma NameCheckSound(s: string)
    requires NameCheckFrom(s, 0) && NoEdgeUnderscore(s)
    ensures IsCanonicalName(s)
  {
    NameCheckChars(s, 0);
  }

  lemma {:induction false} NameCheckChars(s: string, i: nat)
    requires NameCheckFrom(s, i)
    ensures forall j :: i <= j < |s| ==> IsNameChar(s[j])
    ensures forall j :: i <= j < |s| - 1 ==> !(s[j] == '_' && s[j + 1] == '_')
    decreases |s| - i
  {
    if i < |s| {
      NameCheckChars(s, i + 1);
    }
  }

  // ---------------------------------------------------------------------------
  // Shape of the normalised text

  lemma {:induction false} KeepNameCharsOnly(s: string)
    ensures OnlyNameChars(KeepNameChars(s))
  {
    if s != [] {
      KeepNameCharsOnly(s[1..]);
    }
  }

  lemma {:induction false} CollapseShape(s: string)
    requires OnlyNameChars(s)
    ensures var r := CollapseUnderscores(s);
      OnlyNameChars(r) && NoDoubleUnderscore(r) && (s == [] <==> r == []) && (r != [] ==> r[0] == s[0])
    decreases |s|
  {
    if s != [] {
      if s[0] == '_' {
        var t := DropUnderscores(s[1..]);
        assert OnlyNameChars(t) by {
          forall i | 0 <= i < |t| ensures IsNameChar(t[i]) {
            assert t[i] == s[1..][|s[1..]| - |t| + i];
          }
        }
        CollapseShape(t);
      } else {
        assert OnlyNameChars(s[1..]) by {
          forall i | 0 <= i < |s[1..]| ensures IsNameChar(s[1..][i]) {
            assert s[1..][i] == s[i + 1];
          }
        }
        CollapseShape(s[1..]);
      }
    }
  }

  lemma StripShape(s: string)
    requires OnlyNameChars(s) && NoDoubleUnderscore(s)
    ensures IsCanonicalName(StripEdgeUnderscores(s))
  {
    var t := if s != [] && s[0] == '_' then s[1..] else s;
    assert OnlyNameChars(t) && NoDoubleUnderscore(t) by {
      if s != [] && s[0] == '_' {
        forall i | 0 <= i < |t| ensures t[i] == s[i + 1] {}
      }
    }
    assert t != [] ==> t[0] != '_' by {
      if s != [] && s[0] == '_' && t != [] {
        assert t[0] == s[1];
      }
    }
    var u := if t != [] && t[|t| - 1] == '_' then t[..|t| - 1] else t;
    assert u == StripEdgeUnderscores(s);
    if t != [] && t[|t| - 1] == '_' && u != [] {
      assert u[|u| - 1] == t[|t| - 2];
      assert u[0] == t[0];
    }
  }

  lemma NormalizedTextIsCanonical(header: string)
    ensures IsCanonicalName(NormalizedText(header))
  {
    var k := KeepNameChars(Unaccent(ReplaceDots(ReplaceWhitespaceRuns(JsText.ToLower(header)))));
    KeepNameCharsOnly(Unaccent(ReplaceDots(ReplaceWhitespaceRuns(JsText.ToLower(header)))));
    CollapseShape(k);
    StripShape(CollapseUnderscores(k));
  }

  // ---------------------------------------------------------------------------
  // Canonical names are left alone by every step

  lemma {:induction false} LowerOfCanonical(s: string)
    requires OnlyNameChars(s)
    ensures JsText.ToLower(s) == s
  {
    if s != [] {
      assert OnlyNameChars(s[1..]) by {
        forall i | 0 <= i < |s[1..]| ensures IsNameChar(s[1..][i]) {
          assert s[1..][i] == s[i + 1];
        }
      }
      LowerOfCanonical(s[1..]);
    }
  }

  lemma {:induction false} CharStepsOfCanonical(s: string)
    requires OnlyNameChars(s)
    ensures ReplaceWhitespaceRuns(s) == s && ReplaceDots(s) == s && Unaccent(s) == s
    ensures KeepNameChars(s) == s
  {
    if s != [] {
      assert !JsText.IsWhitespace(s[0]);
      assert OnlyNameChars(s[1..]) by {
        forall i | 0 <= i < |s[1..]| ensures IsNameChar(s[1..][i]) {
          assert s[1..][i] == s[i + 1];
        }
      }
      CharStepsOfCanonical(s[1..]);
    }
  }

  lemma {:induction false} CollapseOfCanonical(s: string)
    requires NoDoubleUnderscore(s)
    ensures CollapseUnderscores(s) == s
    decreases |s|
  {
    if s != [] {
      assert NoDoubleUnderscore(s[1..]) by {
        forall i | 0 <= i < |s[1..]| - 1 ensures !(s[1..][i] == '_' && s[1..][i + 1] == '_') {
          assert s[1..][i] == s[i + 1] && s[1..][i + 1] == s[i + 2];
        }
      }
      if s[0] == '_' {
        assert DropUnderscores(s[1..]) == s[1..] by {
          if |s| > 1 {
            assert s[1] != '_';
          }
        }
      }
      CollapseOfCanonical(s[1..]);
    }
  }

  /** The replace chain leaves a canonical name unchanged. */
  lemma NormalizedTextOfCanonical(s: string)
    requires IsCanonicalName(s)
    ensures NormalizedText(s) == s
  {
    LowerOfCanonical(s);
    CharStepsOfCanonical(s);
    CollapseOfCanonical(s);
  }

  /** Normalising a normalised header changes nothing. */
  lemma NormalizeHeaderIdempotent(header: string)
    ensures NormalizeHeader(NormalizeHeader(header)) == NormalizeHeader(header)
  {
    var r := NormalizeHeader(header);
    if r != [] {
      NormalizedTextOfCanonical(r);
      CanonicalFieldsAreFixed();
      if r !in CanonicalFields {
        assert r == NormalizedText(header);
        assert header != [];
        AliasesMapIntoCanonicalFields(NormalizedText(header));
        assert r !in Aliases;
      }
    }
  }

  /** A header already written as a known alias key comes out as that key's canonical field. */
  lemma AliasKeyResolves(k: string)
    requires k in Aliases && IsCanonicalName(k)
    ensures NormalizeHeader(k) == Aliases[k]
  {
    NormalizedTextOfCanonical(k);
  }

  /** Alias keys containing `__` can never be looked up: the replace chain collapses every `__`. */
  lemma DoubleUnderscoreKeysUnreachable(header: string, k: string)
    requires !NoDoubleUnderscore(k)
    ensures NormalizedText(header) != k
  {
    NormalizedTextIsCanonical(header);
  }

  // ---------------------------------------------------------------------------
  // Spellings that normalise alike

  /** The character-by-character steps of the replace chain, before the runs of `_` are collapsed. */
  function CharSteps(header: string): string {
    KeepNameChars(Unaccent(ReplaceDots(ReplaceWhitespaceRuns(JsText.ToLower(header)))))
  }

  lemma NormalizedTextOfCharSteps(header: string)
    ensures NormalizedText(header) == StripEdgeUnderscores(CollapseUnderscores(CharSteps(header)))
  {
  }

  lemma {:induction false} ReplaceDotsAppend(s: string, t: string)
    ensures ReplaceDots(s + t) == ReplaceDots(s) + ReplaceDots(t)
  {
    if s == [] {
      assert s + t == t;
    } else {
      assert (s + t)[0] == s[0] && (s + t)[1..] == s[1..] + t;
      ReplaceDotsAppend(s[1..], t);
    }
  }

  lemma {:induction false} UnaccentAppend(s: string, t: string)
    ensures Unaccent(s + t) == Unaccent(s) + Unaccent(t)
  {
    if s == [] {
      assert s + t == t;
    } else {
      assert (s + t)[0] == s[0] && (s + t)[1..] == s[1..] + t;
      UnaccentAppend(s[1..], t);
    }
  }

  lemma {:induction false} KeepNameCharsAppend(s: string, t: string)
    ensures KeepNameChars(s + t) == KeepNameChars(s) + KeepNameChars(t)
  {
    if s == [] {
      assert s + t == t;
    } else {
      assert (s + t)[0] == s[0] && (s + t)[1..] == s[1..] + t;
      KeepNameCharsAppend(s[1..], t);
    }
  }

  lemma RunsOfCons(h: char, t: string)
    ensures ReplaceWhitespaceRuns([h] + t)
      == if JsText.IsWhitespace(h) then "_" + ReplaceWhitespaceRuns(JsText.TrimStart(t)) else [h] + ReplaceWhitespaceRuns(t)
  {
    assert ([h] + t)[0] == h && ([h] + t)[1..] == t;
  }

  /** One step of `replace(/\s+/g, '_')` on a piece followed by `rest`: the first character and what it leaves. */
  lemma RunsStep(x: string, rest: string) returns (t: string)
    requires x != [] && rest != [] && !JsText.IsWhitespace(rest[0])
    ensures |t| < |x|
    ensures JsText.IsWhitespace(x[0]) ==> ReplaceWhitespaceRuns(x + rest) == "_" + ReplaceWhitespaceRuns(t + rest)
    ensures JsText.IsWhitespace(x[0]) ==> ReplaceWhitespaceRuns(x) == "_" + ReplaceWhitespaceRuns(t)
    ensures !JsText.IsWhitespace(x[0]) ==> ReplaceWhitespaceRuns(x + rest) == [x[0]] + ReplaceWhitespaceRuns(t + rest)
    ensures !JsText.IsWhitespace(x[0]) ==> ReplaceWhitespaceRuns(x) == [x[0]] + ReplaceWhitespaceRuns(t)
  {
    var h := x[0];
    assert x == [h] + x[1..];
    assert x + rest == [h] + (x[1..] + rest);
    RunsOfCons(h, x[1..] + rest);
    RunsOfCons(h, x[1..]);
    if JsText.IsWhitespace(h) {
      t := JsText.TrimStart(x[1..]);
      JsText.TrimStartAppend(x[1..], rest);
    } else {
      t := x[1..];
    }
  }

  /** A piece that starts with a character other than white space is replaced on its own. */
  lemma {:induction false} WhitespaceRunsAppend(x: string, rest: string)
    requires rest != [] && !JsText.IsWhitespace(rest[0])
    ensures ReplaceWhitespaceRuns(x + rest) == ReplaceWhitespaceRuns(x) + ReplaceWhitespaceRuns(rest)
    decreases |x|
  {
    if x == [] {
      assert x + rest == rest;
    } else {
      var t := RunsStep(x, rest);
      WhitespaceRunsAppend(t, rest);
    }
  }

  /** A character other than white space ends a run of white space and is kept as it is. */
  lemma WhitespaceRunsAround(x: string, c: char, y: string)
    requires !JsText.IsWhitespace(c)
    ensures ReplaceWhitespaceRuns(x + [c] + y) == ReplaceWhitespaceRuns(x) + [c] + ReplaceWhitespaceRuns(y)
  {
    var rest := [c] + y;
    assert x + [c] + y == x + rest;
    WhitespaceRunsAppend(x, rest);
    RunsOfCons(c, y);
  }

  lemma LowerAround(x: string, c: char, y: string)
    requires c == '.' || c == '_'
    ensures JsText.ToLower(x + [c] + y) == JsText.ToLower(x) + [c] + JsText.ToLower(y)
  {
    JsText.ToLowerAppend(x + [c], y);
    JsText.ToLowerAppend(x, [c]);
    assert JsText.ToLower([c]) == [c];
  }

  lemma DotsAround(x: string, c: char, y: string)
    requires c == '.' || c == '_'
    ensures ReplaceDots(x + [c] + y) == ReplaceDots(x) + "_" + ReplaceDots(y)
  {
    ReplaceDotsAppend(x + [c], y);
    ReplaceDotsAppend(x, [c]);
    assert ReplaceDots([c]) == "_";
  }

  lemma UnaccentAround(x: string, y: string)
    ensures Unaccent(x + "_" + y) == Unaccent(x) + "_" + Unaccent(y)
  {
    UnaccentAppend(x + "_", y);
    UnaccentAppend(x, "_");
    assert Unaccent("_") == "_";
  }

  lemma KeepNameCharsAround(x: string, y: string)
    ensures KeepNameChars(x + "_" + y) == KeepNameChars(x) + "_" + KeepNameChars(y)
  {
    KeepNameCharsAppend(x + "_", y);
    KeepNameCharsAppend(x, "_");
    assert KeepNameChars("_") == "_";
  }

  /** A `.` or a `_` between two pieces of a header becomes one `_` between their cleaned forms. */
  lemma CharStepsAround(x: string, c: char, y: string)
    requires c == '.' || c == '_'
    ensures CharSteps(x + [c] + y) == CharSteps(x) + "_" + CharSteps(y)
  {
    var lx, ly := JsText.ToLower(x), JsText.ToLower(y);
    LowerAround(x, c, y);
    WhitespaceRunsAround(lx, c, ly);
    var wx, wy := ReplaceWhitespaceRuns(lx), ReplaceWhitespaceRuns(ly);
    DotsAround(wx, c, wy);
    var dx, dy := ReplaceDots(wx), ReplaceDots(wy);
    UnaccentAround(dx, dy);
    KeepNameCharsAround(Unaccent(dx), Unaccent(dy));
  }

  /** A header spelled with a dot normalises as the one spelled with an underscore (`Cod.Tercer`, `Cod_Tercer`). */
  lemma DotActsAsUnderscore(a: string, b: string)
    ensures NormalizedText(a + "." + b) == NormalizedText(a + "_" + b)
  {
    CharStepsAround(a, '.', b);
    CharStepsAround(a, '_', b);
  }

  lemma {:induction false} DropUnderscoresAppend(u: string, v: string)
    ensures DropUnderscores(u + v) == if DropUnderscores(u) == [] then DropUnderscores(v) else DropUnderscores(u) + v
  {
    if u == [] {
      assert u + v == v;
    } else {
      assert (u + v)[0] == u[0] && (u + v)[1..] == u[1..] + v;
      if u[0] == '_' {
        DropUnderscoresAppend(u[1..], v);
      }
    }
  }

  lemma CollapseOfUnderscore(t: string)
    ensures CollapseUnderscores(['_'] + t) == "_" + CollapseUnderscores(DropUnderscores(t))
  {
    assert (['_'] + t)[0] == '_' && (['_'] + t)[1..] == t;
  }

  lemma CollapseOfOther(h: char, t: string)
    requires h != '_'
    ensures CollapseUnderscores([h] + t) == [h] + CollapseUnderscores(t)
  {
    assert ([h] + t)[0] == h && ([h] + t)[1..] == t;
  }

  lemma CollapseExtraUnderscoreAlone(v: string)
    requires v != [] && v[0] == '_'
    ensures CollapseUnderscores(['_'] + v) == CollapseUnderscores(v)
  {
    var t := v[1..];
    assert v == ['_'] + t;
    CollapseOfUnderscore(v);
    CollapseOfUnderscore(t);
  }

  /**
   * One step of `replace(/_+/g, '_')` on `x + w` and on `x + v`, where `w` is `v` with one more
   * leading underscore: what is left to compare is `rest + w` against `rest + v`.
   */
  lemma DropExtraUnderscore(u: string, v: string, w: string)
    requires v != [] && v[0] == '_' && w == ['_'] + v
    ensures DropUnderscores(u) == [] ==> DropUnderscores(u + w) == DropUnderscores(u + v)
    ensures DropUnderscores(u) != [] ==> DropUnderscores(u + w) == DropUnderscores(u) + w
    ensures DropUnderscores(u) != [] ==> DropUnderscores(u + v) == DropUnderscores(u) + v
  {
    DropUnderscoresAppend(u, w);
    DropUnderscoresAppend(u, v);
    assert w[0] == '_' && w[1..] == v;
  }

  lemma CollapseStep(x: string, v: string, w: string) returns (rest: string, same: bool)
    requires x != [] && v != [] && v[0] == '_' && w == ['_'] + v
    ensures |rest| < |x|
    ensures same ==> CollapseUnderscores(x + w) == CollapseUnderscores(x + v)
    ensures !same ==> CollapseUnderscores(x + w) == [x[0]] + CollapseUnderscores(rest + w)
    ensures !same ==> CollapseUnderscores(x + v) == [x[0]] + CollapseUnderscores(rest + v)
  {
    var h, u := x[0], x[1..];
    assert x + w == [h] + (u + w) && x + v == [h] + (u + v);
    if h == '_' {
      CollapseOfUnderscore(u + w);
      CollapseOfUnderscore(u + v);
      DropExtraUnderscore(u, v, w);
      rest := DropUnderscores(u);
      same := rest == [];
    } else {
      CollapseOfOther(h, u + w);
      CollapseOfOther(h, u + v);
      rest, same := u, false;
    }
  }

  /** An underscore in front of another one is absorbed by `/_+/g`. */
  lemma {:induction false} CollapseExtraUnderscore(x: string, v: string)
    requires v != [] && v[0] == '_'
    ensures CollapseUnderscores(x + (['_'] + v)) == CollapseUnderscores(x + v)
    decreases |x|
  {
    var w := ['_'] + v;
    if x == [] {
      assert x + w == w && x + v == v;
      CollapseExtraUnderscoreAlone(v);
    } else {
      var rest, same := CollapseStep(x, v, w);
      if !same {
        CollapseExtraUnderscore(rest, v);
      }
    }
  }

  /** `/_+/g` makes a doubled underscore and a single one alike. */
  lemma CollapseDoubleUnderscore(x: string, y: string)
    ensures CollapseUnderscores(x + "__" + y) == CollapseUnderscores(x + "_" + y)
  {
    var v := ['_'] + y;
    assert x + "__" + y == x + (['_'] + v) && x + "_" + y == x + v;
    CollapseExtraUnderscore(x, v);
  }

  lemma SameCollapsedSteps(h1: string, h2: string)
    requires CollapseUnderscores(CharSteps(h1)) == CollapseUnderscores(CharSteps(h2))
    ensures NormalizedText(h1) == NormalizedText(h2)
  {
    NormalizedTextOfCharSteps(h1);
    NormalizedTextOfCharSteps(h2);
  }

  lemma CharStepsOfEmpty()
    ensures CharSteps([]) == []
  {
  }

  lemma CharStepsOfLeadingUnderscore(b: string)
    ensures CharSteps("_" + b) == "_" + CharSteps(b)
  {
    assert "_" + b == [] + ['_'] + b;
    CharStepsAround([], '_', b);
    CharStepsOfEmpty();
  }

  lemma DoubleUnderscoreSplit(p: string, q: string)
    ensures p + "__" + q == p + ['_'] + ("_" + q)
  {
  }

  lemma CharStepsOfDoubled(a: string, b: string)
    ensures CharSteps(a + "__" + b) == CharSteps(a) + "__" + CharSteps(b)
  {
    DoubleUnderscoreSplit(a, b);
    CharStepsAround(a, '_', "_" + b);
    CharStepsOfLeadingUnderscore(b);
    DoubleUnderscoreSplit(CharSteps(a), CharSteps(b));
  }

  /** A header spelled with `__` normalises as the one spelled with `_` (`COD__TERCERO`, `COD_TERCERO`). */
  lemma DoubledUnderscoreActsAsOne(a: string, b: string)
    ensures NormalizedText(a + "__" + b) == NormalizedText(a + "_" + b)
  {
    CharStepsOfDoubled(a, b);
    CharStepsAround(a, '_', b);
    CollapseDoubleUnderscore(CharSteps(a), CharSteps(b));
    SameCollapsedSteps(a + "__" + b, a + "_" + b);
  }

  /** Capitals are ignored: a header normalises as its lower-cased form. */
  lemma LowerCaseIgnored(header: string)
    ensures NormalizedText(JsText.ToLower(header)) == NormalizedText(header)
  {
    JsText.ToLowerIdempotent(header);
  }
}
