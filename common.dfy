/** Values shared by every component of the MEL client: optional values, the outcome of a
    remote call, the error a failed call carries, and the file handles that the drop zones
    deliver. */
module Common {

  datatype Option<+T> = None | Some(value: T) {
    function GetOr(default: T): T {
      match this
      case Some(v) => v
      case None => default
    }
  }

  /** What a failed remote call (or a parent callback that rethrows one) carries: the
      service's `detail` field and the exception's `message`; an absent one is "". */
  datatype ServiceError = ServiceError(detail: string, message: string)

  /** The outcome of one awaited remote call: it resolves with a value or it throws. */
  datatype Result<+T> = Ok(value: T) | Err(error: ServiceError)

  /** A file as the drop zones hand it over; only its name and size in bytes are observed. */
  datatype File = File(name: string, size: nat)

  /** JavaScript's `a || b` on strings: the empty string is falsy. */
  function OrElse(a: string, b: string): (r: string)
    ensures a != "" ==> r == a
    ensures a == "" ==> r == b
  {
    if a != "" then a else b
  }

  /** `m[k] || d` for a record whose absent fields are undefined. */
  function FieldOr(m: map<string, string>, k: string, d: string): (r: string)
    ensures k in m && m[k] != "" ==> r == m[k]
    ensures (k !in m || m[k] == "") ==> r == d
  {
    if k in m then OrElse(m[k], d) else d
  }

  /** The message every dialog shows for a failed call:
      `err.response?.data?.detail || err.message || fallback`. */
  function ErrorText(e: ServiceError, fallback: string): (r: string)
    ensures r == e.detail || r == e.message || r == fallback
    ensures e.detail != "" ==> r == e.detail
    ensures e.detail == "" && e.message != "" ==> r == e.message
    ensures fallback != "" ==> r != ""
  {
    OrElse(OrElse(e.detail, e.message), fallback)
  }
}
