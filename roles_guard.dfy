/** The role guard: a route that names required roles admits only a caller
    whose role name is among them; a route that names none admits everyone.
    It admits by returning true and refuses by throwing Forbidden. */
module RolesGuard {
  import opened Common

  /** The `role` claim of the caller; its `name` may be missing. */
  datatype RoleClaim = RoleClaim(name: Option<string>)

  /** The authenticated caller attached to the request. */
  datatype AuthUser = AuthUser(id: string, email: string, role: Option<RoleClaim>)

  /** `getAllAndMerge` over the handler and then the class: the role lists set
      at either level, handler first; a level without the decorator adds nothing. */
  function MergedRoles(handlerRoles: Option<seq<string>>, classRoles: Option<seq<string>>): (r: seq<string>)
    ensures |r| == |handlerRoles.GetOr([])| + |classRoles.GetOr([])|
    ensures forall x :: x in r <==> x in handlerRoles.GetOr([]) || x in classRoles.GetOr([])
  {
    handlerRoles.GetOr([]) + classRoles.GetOr([])
  }

  /** `user?.role?.name`, with the empty string counted as missing (it is falsy). */
  function RoleName(user: Option<AuthUser>): (n: Option<string>)
    ensures n.Some? ==> n.value != ""
    ensures n.Some? <==> user.Some? && user.value.role.Some? && user.value.role.value.name.Some? && user.value.role.value.name.value != ""
    ensures n.Some? ==> n == user.value.role.value.name
  {
    if user.None? || user.value.role.None? then None
    else
      match user.value.role.value.name
      case None => None
      case Some(name) => if name == "" then None else Some(name)
  }

  /** The decision for a request: `Ok(true)` admits it, `Err(Forbidden)` refuses it. */
  function CanActivate(handlerRoles: Option<seq<string>>, classRoles: Option<seq<string>>, user: Option<AuthUser>): (r: Result<bool>)
    ensures r == Ok(true) || r == Err(Forbidden)
    ensures (handlerRoles.GetOr([]) == [] && classRoles.GetOr([]) == []) ==> r == Ok(true)
    ensures r.Ok? <==>
      || (handlerRoles.GetOr([]) == [] && classRoles.GetOr([]) == [])
      || (user.Some? && user.value.role.Some? && user.value.role.value.name.Some? &&
          user.value.role.value.name.value != "" &&
          (user.value.role.value.name.value in handlerRoles.GetOr([]) ||
           user.value.role.value.name.value in classRoles.GetOr([])))
  {
    var requiredRoles := MergedRoles(handlerRoles, classRoles);
    if |requiredRoles| == 0 then Ok(true)
    else
      var name := RoleName(user);
      if name.None? || name.value !in requiredRoles then Err(Forbidden)
      else Ok(true)
  }
}
