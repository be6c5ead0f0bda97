/**
 * Shared vocabulary of the services: optional values, request results, the
 * HTTP errors the services raise, and the partial-update patches that
 * `model_dump(exclude_unset=True)` produces.
 */
module Common {

  datatype Option<+T> = None | Some(value: T) {
    function GetOr(default: T): T {
      if Some? then value else default
    }
  }

  /** What a request can fail with. `HttpError` is a raised `HTTPException`;
      `IntegrityError` is a NOT NULL constraint rejected by the database at
      flush time (the client sees a server error). */
  datatype Error = HttpError(status: nat, detail: string) | IntegrityError

  datatype Result<+T> = Ok(value: T) | Err(error: Error)

  /** One field of a partial update: left out of the request body, or given
      (possibly as an explicit JSON null, written `Put(None)`). */
  datatype Patch<+T> = Keep | Put(value: T)

  /** The value a field has after a patch is applied. */
  function Patched<T>(prev: T, p: Patch<T>): (r: T)
    ensures p.Keep? ==> r == prev
    ensures p.Put? ==> r == p.value
  {
    match p
    case Keep => prev
    case Put(v) => v
  }

  /** True when a patch writes an explicit null into a column that is NOT NULL. */
  predicate NullsRequired<T>(p: Patch<Option<T>>) {
    p.Put? && p.value.None?
  }

  /** The value of a NOT NULL column after a patch that does not null it. */
  function PatchedRequired<T>(prev: T, p: Patch<Option<T>>): (r: T)
    requires !NullsRequired(p)
    ensures p.Keep? ==> r == prev
    ensures p.Put? ==> Some(r) == p.value
  {
    match p
    case Keep => prev
    case Put(v) => v.value
  }

  /** Python truthiness of an optional string query parameter: None and "" are falsy. */
  predicate Truthy(s: Option<string>) {
    s.Some? && s.value != ""
  }
}
