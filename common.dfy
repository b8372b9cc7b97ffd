/** Values shared by every service: optional fields, the exceptions the services
    throw, and the first-match search every table lookup performs. */
module Common {

  /** A field or lookup result that may be absent (`undefined` / `null`). */
  datatype Option<T> = None | Some(value: T) {
    function GetOr(default: T): T {
      if Some? then value else default
    }
  }

  /** The exceptions the services and guards raise. `Plain` is a bare `Error`
      carrying its message; `QueryFailed` is the database refusing a write (a
      unique constraint violated); the other two are the framework's HTTP
      exceptions. */
  datatype Exception = NotFound | Forbidden | Plain(message: string) | QueryFailed

  /** The outcome of an operation that either returns a value or throws. */
  datatype Result<T> = Ok(value: T) | Err(error: Exception)

  /** Index of the first element of `s` satisfying `p`, or `None` when no element
      does: what `Array.prototype.find` and a repository `findOne({ where })`
      over the rows in table order select. */
  function FirstIndex<T>(s: seq<T>, p: T -> bool): (r: Option<nat>)
    ensures r.Some? ==> r.value < |s| && p(s[r.value])
    ensures r.Some? ==> forall j :: 0 <= j < r.value ==> !p(s[j])
    ensures r.None? <==> forall j :: 0 <= j < |s| ==> !p(s[j])
  {
    if |s| == 0 then None
    else if p(s[0]) then Some(0)
    else
      match FirstIndex(s[1..], p)
      case None => None
      case Some(k) => Some(k + 1)
  }

  /** `s` with the element at `i` taken out, as `splice(i, 1)` and a row
      deletion do. */
  function RemoveAt<T>(s: seq<T>, i: nat): (r: seq<T>)
    requires i < |s|
    ensures |r| == |s| - 1
    ensures forall j :: 0 <= j < i ==> r[j] == s[j]
    ensures forall j :: i <= j < |r| ==> r[j] == s[j + 1]
  {
    s[..i] + s[i + 1..]
  }
}
