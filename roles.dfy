/** Role predicates: the views' `require_role` helper (accounts/views.py, repeated in
    knowledge_base/views.py), which compares role names ignoring case, and the two REST
    framework permission classes of tickets/permissions.py, which compare them exactly. */
module Roles {
  import opened Text
  import opened Accounts

  /** `request.user`: the anonymous user or a stored, logged-in Usuario. */
  datatype Principal = Anonymous | Authenticated(user: Usuario)

  /** The user's role is named `name`, ignoring case (`nombre_rol.upper() == name.upper()`,
      and the `rol__nombre_rol__iexact` lookup). */
  predicate HasRoleIgnoringCase(u: Usuario, name: string) {
    u.rol.Some? && EqualsIgnoreCase(u.rol.value.nombre, name)
  }

  /** `require_role(user, rol_nombre)`. */
  predicate RequireRole(p: Principal, name: string) {
    p.Authenticated? && HasRoleIgnoringCase(p.user, name)
  }

  /** The outcome of a `has_permission` call: a verdict, or the AttributeError raised by
      `request.user.rol.nombre_rol` when the role is null. */
  datatype Permission = Verdict(allowed: bool) | NullRoleError

  /** `EsAdministrador.has_permission`. */
  function EsAdministrador(p: Principal): (r: Permission)
    ensures p.Anonymous? ==> r == Verdict(false)
    ensures p.Authenticated? && p.user.rol.None? ==> r == NullRoleError
    ensures r == Verdict(true) <==> p.Authenticated? && p.user.rol.Some? && p.user.rol.value.nombre == "ADMIN"
  {
    ExactRole(p, "ADMIN")
  }

  /** `EsTecnico.has_permission`. */
  function EsTecnico(p: Principal): (r: Permission)
    ensures p.Anonymous? ==> r == Verdict(false)
    ensures p.Authenticated? && p.user.rol.None? ==> r == NullRoleError
    ensures r == Verdict(true) <==> p.Authenticated? && p.user.rol.Some? && p.user.rol.value.nombre == "TECNICO"
  {
    ExactRole(p, "TECNICO")
  }

  /** `bool(user and user.is_authenticated and user.rol.nombre_rol == name)`. */
  function ExactRole(p: Principal, name: string): Permission {
    if p.Anonymous? then Verdict(false)
    else if p.user.rol.None? then NullRoleError
    else Verdict(p.user.rol.value.nombre == name)
  }

  /** `require_role` holds exactly for a logged-in user whose role is named `name` up to
      case, so the name passed in may itself be written in any case. */
  lemma RequireRoleIgnoresCase(p: Principal, a: string, b: string)
    requires EqualsIgnoreCase(a, b)
    ensures RequireRole(p, a) <==> RequireRole(p, b)
    ensures RequireRole(p, a) <==> p.Authenticated? && p.user.rol.Some? && Upper(p.user.rol.value.nombre) == Upper(a)
  {
  }

  /** Anyone the exact REST check admits as administrator passes the view helper too. */
  lemma ExactAdminImpliesRequireRole(p: Principal)
    ensures EsAdministrador(p) == Verdict(true) ==> RequireRole(p, "ADMIN")
    ensures EsTecnico(p) == Verdict(true) ==> RequireRole(p, "TECNICO")
  {
  }

  /** The converse fails: a role stored as "admin" passes `require_role(user, "ADMIN")`
      but is refused by `EsAdministrador`. */
  lemma CaseSensitivityDiffers(u: Usuario)
    requires u.rol == Some(Rol(0, "admin"))
    ensures RequireRole(Authenticated(u), "ADMIN")
    ensures EsAdministrador(Authenticated(u)) == Verdict(false)
  {
    assert Upper("admin") == "ADMIN";
  }

  /** A role name cannot both be exactly "ADMIN" and exactly "TECNICO", nor match both
      ignoring case. */
  lemma RolesExclusive(p: Principal)
    ensures !(EsAdministrador(p) == Verdict(true) && EsTecnico(p) == Verdict(true))
    ensures !(RequireRole(p, "ADMIN") && RequireRole(p, "TECNICO"))
  {
  }
}
