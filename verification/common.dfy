/** Small shared vocabulary: optional values, results, JavaScript truthiness
    of optional strings, and the output effects the session core emits. */
module Common {

  /** A value that may be absent (`null` / `undefined` in the application). */
  datatype Option<+T> = None | Some(value: T)

  /** A computation that either yields a value or throws an error. */
  datatype Result<+T, +E> = Ok(value: T) | Err(error: E)

  /** JavaScript truthiness of a `string | null`: present and not the empty string. */
  predicate Truthy(s: Option<string>)
  {
    s.Some? && s.value != ""
  }

  /** Effects the core hands to collaborators it cannot see: a router
      navigation (`router.push`) and the session-expiry notification. */
  datatype Effect =
    | Push(path: string)
    | ExpireSession
}
