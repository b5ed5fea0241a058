/**
 * The decisions of `verificarPermiso`, `verificarPermisoVer` and `verificarPermisoEditar` in
 * `permisos.middleware.js`: the first role of the user selects an entry of `permisos_por_rol` in
 * the permissions file, and a truthy flag under that entry lets the request through.
 * The file read is a parameter: `None` when it cannot be read or parsed (`leerPermisos` returns
 * `null`).
 */
module RolePermissions {
  import opened Wrappers
  import opened JsText
  import opened JsonValues

  const AccessDeniedMessage := "No tienes permisos para acceder a este recurso"
  const EditDeniedMessage := "No tienes permisos para modificar este recurso"
  const CheckErrorMessage := "Error al verificar permisos"
  /** The permission type `verificarPermiso` checks when none is given. */
  const DefaultType := "lectura"

  /** A role's `id_rol` used as a property key: the number's decimal text. */
  function RoleKey(idRol: int): string {
    IntToString(idRol)
  }

  /** `tipoPermiso === 'acceso' ? recurso : `${recurso}_${tipoPermiso}``. */
  function PermissionKey(recurso: string, tipo: string): string {
    if tipo == "acceso" then recurso else recurso + "_" + tipo
  }

  /** One resource's permission types give distinct keys. */
  lemma PermissionKeysDistinct(recurso: string, t1: string, t2: string)
    requires t1 != t2
    ensures PermissionKey(recurso, t1) != PermissionKey(recurso, t2)
  {
    if t1 != "acceso" && t2 != "acceso" {
      assert (recurso + "_" + t1)[|recurso| + 1..] == t1;
      assert (recurso + "_" + t2)[|recurso| + 1..] == t2;
    } else {
      assert |PermissionKey(recurso, t1)| != |PermissionKey(recurso, t2)|;
    }
  }

  /**
   * `verificarPermiso(recurso, tipoPermiso)` for a user whose roles have the given `id_rol`s
   * (`None` when `roles` is absent).
   */
  function CheckPermission(roles: Option<seq<int>>, file: Option<Json>, recurso: string, tipo: string): (r: Response)
    ensures r.Status? ==> r.code == 403 || r.code == 500
  {
    if roles.None? || roles.value == [] then Status(403, AccessDeniedMessage)
    else if !Truthy(file) then Status(500, CheckErrorMessage)
    else
      var porRol := Get(file, "permisos_por_rol");
      if Nullish(porRol) then Status(500, CheckErrorMessage)
      else
        var permisosRol := Get(porRol, RoleKey(roles.value[0]));
        var clave := PermissionKey(recurso, tipo);
        if !Truthy(permisosRol) then Status(403, "No tienes permiso para " + tipo + " en " + recurso)
        else
          var permisos := Get(permisosRol, "permisos");
          if Nullish(permisos) then Status(500, CheckErrorMessage)
          else if !Truthy(Get(permisos, clave)) then Status(403, "No tienes permiso para " + tipo + " en " + recurso)
          else Next
  }

  /**
   * `verificarPermisoVer` and `verificarPermisoEditar`: the same lookup, then the `flag` member
   * (`ver` or `editar`) of the resource's entry, read with optional chaining.
   */
  function CheckFlag(roles: Option<seq<int>>, file: Option<Json>, recurso: string, flag: string, noRoles: string, denied: string): (r: Response)
    ensures r.Status? ==> r.code == 403 || r.code == 500
  {
    if roles.None? || roles.value == [] then Status(403, noRoles)
    else if !Truthy(file) then Status(500, CheckErrorMessage)
    else
      var porRol := Get(file, "permisos_por_rol");
      if Nullish(porRol) then Status(500, CheckErrorMessage)
      else
        var permisosRol := Get(porRol, RoleKey(roles.value[0]));
        if !Truthy(permisosRol) then Status(403, denied)
        else
          var permisos := Get(permisosRol, "permisos");
          if Nullish(permisos) then Status(500, CheckErrorMessage)
          else if !Truthy(OptionalGet(Get(permisos, recurso), flag)) then Status(403, denied)
          else Next
  }

  function CheckView(roles: Option<seq<int>>, file: Option<Json>, recurso: string): Response {
    CheckFlag(roles, file, recurso, "ver", AccessDeniedMessage, "No tienes permiso para ver " + recurso)
  }

  function CheckEdit(roles: Option<seq<int>>, file: Option<Json>, recurso: string): Response {
    CheckFlag(roles, file, recurso, "editar", EditDeniedMessage, "No tienes permiso para editar " + recurso)
  }

  /** Without roles the request is refused before the file is consulted. */
  lemma NoRolesForbidden(roles: Option<seq<int>>, file: Option<Json>, recurso: string, tipo: string)
    requires roles.None? || roles.value == []
    ensures CheckPermission(roles, file, recurso, tipo) == Status(403, AccessDeniedMessage)
    ensures CheckView(roles, file, recurso) == Status(403, AccessDeniedMessage)
    ensures CheckEdit(roles, file, recurso) == Status(403, EditDeniedMessage)
  {
  }

  /** A user with roles and an unreadable (or falsy) permissions file gets a server error. */
  lemma UnreadableFileFails(roles: seq<int>, file: Option<Json>, recurso: string, tipo: string)
    requires roles != [] && !Truthy(file)
    ensures CheckPermission(Some(roles), file, recurso, tipo) == Status(500, CheckErrorMessage)
    ensures CheckView(Some(roles), file, recurso) == Status(500, CheckErrorMessage)
    ensures CheckEdit(Some(roles), file, recurso) == Status(500, CheckErrorMessage)
  {
  }

  /** Only the first role is consulted: the others never change the decision. */
  lemma FirstRoleOnly(first: int, rest: seq<int>, file: Option<Json>, recurso: string, tipo: string)
    ensures CheckPermission(Some([first] + rest), file, recurso, tipo) == CheckPermission(Some([first]), file, recurso, tipo)
    ensures CheckView(Some([first] + rest), file, recurso) == CheckView(Some([first]), file, recurso)
    ensures CheckEdit(Some([first] + rest), file, recurso) == CheckEdit(Some([first]), file, recurso)
  {
    assert ([first] + rest)[0] == first;
  }

  lemma WalkStep(v: Json, k: string, path: seq<string>)
    ensures Walk(v, [k] + path) == if v.JObj? && k in v.members then Walk(v.members[k], path) else None
  {
    assert ([k] + path)[1..] == path;
  }

  /** The four steps from the file to a permission's flag. */
  lemma WalkPermission(file: Json, role: string, key: string)
    ensures Walk(file, ["permisos_por_rol", role, "permisos", key])
      == if file.JObj? && "permisos_por_rol" in file.members then
           var porRol := file.members["permisos_por_rol"];
           if porRol.JObj? && role in porRol.members then
             var permisosRol := porRol.members[role];
             if permisosRol.JObj? && "permisos" in permisosRol.members then
               Walk(permisosRol.members["permisos"], [key])
             else None
           else None
         else None
  {
    WalkStep(file, "permisos_por_rol", [role, "permisos", key]);
    if file.JObj? && "permisos_por_rol" in file.members {
      var porRol := file.members["permisos_por_rol"];
      WalkStep(porRol, role, ["permisos", key]);
      if porRol.JObj? && role in porRol.members {
        WalkStep(porRol.members[role], "permisos", [key]);
      }
    }
  }

  /**
   * `verificarPermiso` lets the request through exactly when the user has a role and the file maps
   * the first role's `permisos` entry for the permission key to a truthy value.
   */
  lemma CheckPermissionPasses(roles: Option<seq<int>>, file: Option<Json>, recurso: string, tipo: string)
    requires roles.Some? && roles.value != [] && file.Some?
    ensures CheckPermission(roles, file, recurso, tipo) == Next
      <==> Truthy(Walk(file.value, ["permisos_por_rol", RoleKey(roles.value[0]), "permisos", PermissionKey(recurso, tipo)]))
  {
    var key := PermissionKey(recurso, tipo);
    WalkPermission(file.value, RoleKey(roles.value[0]), key);
    WalkStep(file.value, key, []);
    if file.value.JObj? && "permisos_por_rol" in file.value.members {
      var porRol := file.value.members["permisos_por_rol"];
      if porRol.JObj? && RoleKey(roles.value[0]) in porRol.members {
        var permisosRol := porRol.members[RoleKey(roles.value[0])];
        if permisosRol.JObj? && "permisos" in permisosRol.members {
          WalkStep(permisosRol.members["permisos"], key, []);
        }
      }
    }
  }

  /** `verificarPermisoVer` / `verificarPermisoEditar` pass exactly when `permisos[recurso][flag]` is truthy for the first role. */
  lemma CheckFlagPasses(roles: Option<seq<int>>, file: Option<Json>, recurso: string, flag: string, noRoles: string, denied: string)
    requires roles.Some? && roles.value != [] && file.Some?
    ensures CheckFlag(roles, file, recurso, flag, noRoles, denied) == Next
      <==> Truthy(Walk(file.value, ["permisos_por_rol", RoleKey(roles.value[0]), "permisos", recurso, flag]))
  {
    var role := RoleKey(roles.value[0]);
    var path := ["permisos_por_rol", role, "permisos", recurso, flag];
    var r := CheckFlag(roles, file, recurso, flag, noRoles, denied);
    var w := Walk(file.value, path);
    assert path[1..] == [role, "permisos", recurso, flag];
    assert path[2..] == ["permisos", recurso, flag];
    assert path[3..] == [recurso, flag];
    assert path[4..] == [flag];
    if file.value.JObj? && "permisos_por_rol" in file.value.members {
      var porRol := file.value.members["permisos_por_rol"];
      assert w == Walk(porRol, path[1..]);
      if porRol.JObj? && role in porRol.members {
        var permisosRol := porRol.members[role];
        assert w == Walk(permisosRol, path[2..]);
        if permisosRol.JObj? && "permisos" in permisosRol.members {
          var permisos := permisosRol.members["permisos"];
          assert w == Walk(permisos, path[3..]);
          if permisos.JObj? && recurso in permisos.members {
            var entry := permisos.members[recurso];
            assert w == Walk(entry, [flag]);
            assert Get(Some(permisos), recurso) == Some(entry);
            if entry.JObj? && flag in entry.members {
              assert [flag][1..] == [];
              assert w == Walk(entry.members[flag], []);
            }
            assert w == OptionalGet(Some(entry), flag);
          } else {
            assert w.None?;
          }
        } else {
          assert w.None?;
        }
      } else {
        assert w.None?;
      }
    } else {
      assert w.None?;
    }
  }
}
