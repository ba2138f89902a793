/** Values shared by every component of the application model: optional
    values with JavaScript's truthiness, and the toast notifications the
    components emit. */
module Common {

  /** A value that may be missing (`undefined`/`null` in the application). */
  datatype Option<T> = None | Some(value: T) {

    /** The carried value, or `default` when there is none. */
    function GetOr(default: T): T {
      match this
      case Some(v) => v
      case None => default
    }
  }

  /** An optional string is truthy when it is present and non-empty. */
  predicate Truthy(o: Option<string>) {
    o.Some? && o.value != ""
  }

  /** JavaScript's `o || fallback` on an optional string. */
  function OrElse(o: Option<string>, fallback: string): (r: string)
    ensures Truthy(o) ==> r == o.value
    ensures !Truthy(o) ==> r == fallback
  {
    if o.Some? && o.value != "" then o.value else fallback
  }

  /** A computation that either yields a value or fails with a message
      (a thrown error in the application). */
  datatype Result<T> = Success(value: T) | Failure(error: string)

  /** How a call to the backend settled: resolved, or rejected with an
      error whose `message` may be missing. */
  datatype Outcome = Succeeded | Failed(message: Option<string>)

  /** The visual style of a toast. */
  datatype Variant = Plain | Destructive

  /** A toast notification as handed to the notification surface. The
      display duration is carried only where the source sets one. */
  datatype Toast = Toast(title: string, description: string, variant: Variant, duration: Option<nat>)

  function PlainToast(title: string, description: string): Toast {
    Toast(title, description, Plain, None)
  }

  function ErrorToast(title: string, description: string): Toast {
    Toast(title, description, Destructive, None)
  }
}
