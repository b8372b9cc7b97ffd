/** The self guard: a route admits a caller only when the route parameter it
    names (by default `id`) equals the caller's own id. It admits by returning
    true and refuses by throwing Forbidden. */
module IsSelfGuard {
  import opened Common

  /** The authenticated caller attached to the request; its `id` may be missing. */
  datatype AuthUser = AuthUser(id: Option<string>, email: string)

  const DefaultParamKey: string := "id"

  /** The key the `IsSelf(paramKey = 'id')` decorator records for a handler. */
  function DecoratorKey(paramKey: Option<string>): (k: string)
    ensures paramKey.None? ==> k == DefaultParamKey
    ensures paramKey.Some? ==> k == paramKey.value
  {
    paramKey.GetOr(DefaultParamKey)
  }

  /** `paramKey || 'id'`: the recorded key, unless it is missing or empty. */
  function EffectiveKey(recorded: Option<string>): (k: string)
    ensures k != ""
    ensures recorded.Some? && recorded.value != "" ==> k == recorded.value
    ensures recorded.None? || recorded.value == "" ==> k == DefaultParamKey
  {
    if recorded.None? || recorded.value == "" then DefaultParamKey else recorded.value
  }


  /** The key the guard reads for a handler decorated with `IsSelf(paramKey)`:
      the given key when it is non-empty, `id` otherwise and when none is given. */
  lemma DecoratedKey(paramKey: Option<string>)
    ensures EffectiveKey(Some(DecoratorKey(paramKey))) ==
      if paramKey.Some? && paramKey.value != "" then paramKey.value else DefaultParamKey
  {
  }

  /** The decision for a request with route parameters `params`: `Ok(true)`
      admits it, `Err(Forbidden)` refuses it. */
  function CanActivate(recorded: Option<string>, params: map<string, string>, user: Option<AuthUser>): (r: Result<bool>)
    ensures r == Ok(true) || r == Err(Forbidden)
    ensures user.None? || user.value.id.None? || user.value.id == Some("") ==> r == Err(Forbidden)
    ensures r.Ok? <==>
      user.Some? && user.value.id.Some? &&
      EffectiveKey(recorded) in params && Some(params[EffectiveKey(recorded)]) == user.value.id &&
      params[EffectiveKey(recorded)] != ""
  {
    var key := EffectiveKey(recorded);
    var routeParam := if key in params then Some(params[key]) else None;
    if user.None? || user.value.id.None? || user.value.id.value == "" || routeParam != user.value.id then Err(Forbidden)
    else Ok(true)
  }
}
