/**
 * `auth.middleware.js`: `verificarToken` takes the bearer token from the `Authorization` header or
 * the `token` query parameter and hands it to the JWT verifier; `verificarPermiso` and
 * `verificarCualquierPermiso` look up the `permisos` object carried by the decoded token.
 * The verifier is a parameter: it returns the decoded payload or the name of the error it threw.
 */
module TokenAuth {
  import opened Wrappers
  import opened JsText
  import opened JsonValues

  /** `verificarToken`'s decision: `next()` with `req.usuario` set to the payload, or an error. */
  datatype AuthOutcome = Authenticated(usuario: Json) | Refused(code: int, message: string)

  const MissingTokenMessage := "Token no proporcionado"
  const InvalidTokenMessage := "Token inválido"
  const ExpiredTokenMessage := "Token expirado"
  const VerifyErrorMessage := "Error al verificar el token"
  const NoPermissionsMessage := "Usuario sin permisos asignados"
  const DeniedPrefix := "No tienes permiso para realizar esta acción. "
  const CheckErrorMessage := "Error al verificar permisos"

  /**
   * The token: the second space-separated piece of the header, or else the query parameter; `None`
   * when both are absent or empty (an empty string is falsy).
   */
  function ExtractToken(authorization: Option<string>, query: Option<string>): (token: Option<string>)
    ensures token.Some? ==> token.value != []
  {
    var header := if authorization.Some? && |Split(authorization.value, ' ')| >= 2 then Split(authorization.value, ' ')[1] else [];
    if header != [] then Some(header)
    else if query.Some? && query.value != [] then query
    else None
  }

  /** `Bearer <t>` yields `t` whatever the query says, for a non-empty token without spaces. */
  lemma BearerToken(t: string, query: Option<string>)
    requires t != [] && ' ' !in t
    ensures ExtractToken(Some("Bearer " + t), query) == Some(t)
  {
    assert "Bearer " + t == "Bearer" + [' '] + t;
    SplitAt("Bearer", ' ', t);
    SplitWithout(t, ' ');
  }

  /** Without a usable header the query parameter is the token, if it is non-empty. */
  lemma QueryFallback(authorization: Option<string>, query: Option<string>)
    requires authorization.None? || ' ' !in authorization.value
    ensures ExtractToken(authorization, query) == if query.Some? && query.value != [] then query else None
  {
    if authorization.Some? {
      SplitWithout(authorization.value, ' ');
    }
  }

  /** `verificarToken`: no token is 401 before the verifier is consulted; its errors map by name. */
  function VerifyToken(authorization: Option<string>, query: Option<string>, verify: string -> Result<Json, string>): (r: AuthOutcome)
    ensures r.Refused? ==> r.code == 401 || r.code == 500
  {
    match ExtractToken(authorization, query)
    case None => Refused(401, MissingTokenMessage)
    case Some(t) =>
      match verify(t)
      case Success(decoded) => Authenticated(decoded)
      case Failure(name) =>
        if name == "JsonWebTokenError" then Refused(401, InvalidTokenMessage)
        else if name == "TokenExpiredError" then Refused(401, ExpiredTokenMessage)
        else Refused(500, VerifyErrorMessage)
  }

  /** A request is authenticated exactly when a token is found and the verifier accepts it, as `req.usuario`. */
  lemma AuthenticatedIff(authorization: Option<string>, query: Option<string>, verify: string -> Result<Json, string>, usuario: Json)
    ensures VerifyToken(authorization, query, verify) == Authenticated(usuario)
      <==> ExtractToken(authorization, query).Some? && verify(ExtractToken(authorization, query).value) == Success(usuario)
  {
  }

  /** Without a token the outcome does not depend on the verifier (the secret is never used). */
  lemma MissingTokenIgnoresVerifier(authorization: Option<string>, query: Option<string>, v1: string -> Result<Json, string>, v2: string -> Result<Json, string>)
    requires ExtractToken(authorization, query).None?
    ensures VerifyToken(authorization, query, v1) == VerifyToken(authorization, query, v2) == Refused(401, MissingTokenMessage)
  {
  }

  /** The permission map of `req.usuario`: `None` when it has none, so it is nullish. */
  function Permissions(usuario: Option<Json>): (p: Option<Json>)
    requires !Nullish(usuario)
    ensures p.Some? <==> usuario.value.JObj? && "permisos" in usuario.value.members
  {
    Get(usuario, "permisos")
  }

  /**
   * `verificarPermiso(permiso)`: reading `req.usuario` when it is missing is a server error; a user
   * without a truthy `permisos` is refused, and so is one whose `permisos[permiso]` is falsy.
   */
  function RequirePermission(usuario: Option<Json>, permiso: string): (r: Response)
    ensures r.Status? ==> r.code == 403 || r.code == 500
  {
    if Nullish(usuario) then Status(500, CheckErrorMessage)
    else
      var permisos := Permissions(usuario);
      if !Truthy(permisos) then Status(403, NoPermissionsMessage)
      else if !Truthy(Get(permisos, permiso)) then Status(403, DeniedPrefix + "Permiso requerido: " + permiso)
      else Next
  }

  /** `permisos.some(permiso => permisosUsuario[permiso])`. */
  function AnyGranted(permisos: Option<Json>, required: seq<string>): bool
    requires !Nullish(permisos)
  {
    required != [] && (Truthy(Get(permisos, required[0])) || AnyGranted(permisos, required[1..]))
  }

  lemma {:induction false} AnyGrantedExists(permisos: Option<Json>, required: seq<string>)
    requires !Nullish(permisos)
    ensures AnyGranted(permisos, required) <==> exists i :: 0 <= i < |required| && Truthy(Get(permisos, required[i]))
  {
    if required != [] {
      AnyGrantedExists(permisos, required[1..]);
      if !Truthy(Get(permisos, required[0])) && AnyGranted(permisos, required[1..]) {
        var i :| 0 <= i < |required[1..]| && Truthy(Get(permisos, required[1..][i]));
        assert required[i + 1] == required[1..][i];
      }
      if exists i :: 0 <= i < |required| && Truthy(Get(permisos, required[i])) {
        var i :| 0 <= i < |required| && Truthy(Get(permisos, required[i]));
        if i > 0 {
          assert required[1..][i - 1] == required[i];
        }
      }
    }
  }

  /** `verificarCualquierPermiso(required)`: passes when the user holds at least one of the listed permissions. */
  function RequireAny(usuario: Option<Json>, required: seq<string>): (r: Response)
    ensures r.Status? ==> r.code == 403 || r.code == 500
  {
    if Nullish(usuario) then Status(500, CheckErrorMessage)
    else
      var permisos := Permissions(usuario);
      if !Truthy(permisos) then Status(403, NoPermissionsMessage)
      else if !AnyGranted(permisos, required) then Status(403, DeniedPrefix + "Se requiere al menos uno de: " + Join(required, ", "))
      else Next
  }

  /** The permission a request needs is held: `Truthy(permisos[p])`. */
  predicate Holds(usuario: Option<Json>, p: string)
    requires !Nullish(usuario)
  {
    Truthy(Permissions(usuario)) && Truthy(Get(Permissions(usuario), p))
  }

  /** `verificarCualquierPermiso` passes exactly when some listed permission is held. */
  lemma RequireAnyPasses(usuario: Option<Json>, required: seq<string>)
    ensures RequireAny(usuario, required) == Next
      <==> !Nullish(usuario) && exists i :: 0 <= i < |required| && Holds(usuario, required[i])
  {
    if !Nullish(usuario) && Truthy(Permissions(usuario)) {
      AnyGrantedExists(Permissions(usuario), required);
    }
  }

  /** An empty list of alternatives is never satisfied. */
  lemma EmptyAlternativesRefused(usuario: Option<Json>)
    ensures RequireAny(usuario, []).Status?
  {
  }

  /** A single required permission and a one-element list of alternatives pass alike. */
  lemma SingleMatchesAny(usuario: Option<Json>, permiso: string)
    ensures RequirePermission(usuario, permiso) == Next <==> RequireAny(usuario, [permiso]) == Next
    ensures RequireAny(usuario, [permiso]).Status? ==>
      RequireAny(usuario, [permiso]).message
        == (if !Nullish(usuario) && Truthy(Permissions(usuario)) then DeniedPrefix + "Se requiere al menos uno de: " + permiso
            else RequirePermission(usuario, permiso).message)
  {
    if !Nullish(usuario) && Truthy(Permissions(usuario)) {
      AnyGrantedExists(Permissions(usuario), [permiso]);
    }
  }

  /** Listing more alternatives never turns a pass into a refusal. */
  lemma MoreAlternativesPass(usuario: Option<Json>, required: seq<string>, extra: seq<string>)
    requires RequireAny(usuario, required) == Next
    ensures RequireAny(usuario, required + extra) == Next
    ensures RequireAny(usuario, extra + required) == Next
  {
    RequireAnyPasses(usuario, required);
    RequireAnyPasses(usuario, required + extra);
    RequireAnyPasses(usuario, extra + required);
    var i :| 0 <= i < |required| && Holds(usuario, required[i]);
    assert (required + extra)[i] == required[i];
    assert (extra + required)[|extra| + i] == required[i];
  }

  /** A user holding every permission another holds passes every check the other passes. */
  lemma MorePermissionsPass(u1: Option<Json>, u2: Option<Json>, required: seq<string>)
    requires !Nullish(u1) && !Nullish(u2)
    requires forall p :: Holds(u1, p) ==> Holds(u2, p)
    requires RequireAny(u1, required) == Next
    ensures RequireAny(u2, required) == Next
  {
    RequireAnyPasses(u1, required);
    RequireAnyPasses(u2, required);
    var i :| 0 <= i < |required| && Holds(u1, required[i]);
    assert Holds(u2, required[i]);
  }
}
