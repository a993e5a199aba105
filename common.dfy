/**
 * Values shared by every screen and service of the application:
 * optional values, the outcome of an operation that may throw,
 * the shape of a backend reply, toast notifications and the
 * JavaScript truthiness rules the screens rely on.
 */
module Common {

  datatype Option<T> = None | Some(value: T)

  /** The outcome of an async operation that either resolves or throws an `Error`. */
  datatype Result<T> = Ok(value: T) | Thrown(message: string)

  /** What a service that resolves to nothing (`Promise<void>`) gives back. */
  datatype Outcome = Done | Raised(message: string)

  /** An error object returned by the hosted backend (a Postgres / PostgREST code and a message). */
  datatype ApiError = ApiError(code: string, message: string)

  /** A backend reply `{ data, error }`: either part may be absent. */
  datatype Reply<T> = Reply(data: Option<T>, error: Option<ApiError>)

  datatype ToastKind = SuccessToast | ErrorToast | WarningToast | InfoToast

  datatype Toast = Toast(kind: ToastKind, message: string)

  /** JavaScript truthiness of an optional string: `null`, `undefined` and `""` are falsy. */
  predicate Truthy(s: Option<string>)
  {
    s.Some? && s.value != ""
  }

  /** `s || fallback` for an optional string. */
  function OrElse(s: Option<string>, fallback: string): (r: string)
    ensures Truthy(s) ==> r == s.value
    ensures !Truthy(s) ==> r == fallback
  {
    if Truthy(s) then s.value else fallback
  }
}
