/** Vocabulary shared by every table and repository: identifiers, instants, the
    three per-event roles, and the sentinel errors a repository may return. */
module Domain {
  type Id = nat

  /** An instant, in nanoseconds. */
  type Time = int

  datatype Option<+T> = None | Some(value: T)

  datatype Role = Admin | Contributor | Attendee

  /** `ErrNoRow` is the driver's "no rows" outcome of a versioned write, before
      a diagnostic read classifies it; `ErrInternal` is any other failure. */
  datatype Error =
    | ErrConflict
    | ErrForbidden
    | ErrNotFound
    | ErrVersionMismatch
    | ErrInvalidRoom
    | ErrInvalidSpeaker
    | ErrNoRow
    | ErrInternal

  datatype Result<+T> = Ok(value: T) | Err(error: Error)

  /** No identifier occurs twice. */
  predicate Distinct(s: seq<Id>) {
    forall i, j | 0 <= i < j < |s| :: s[i] != s[j]
  }

  /** Half-open intervals [s0, e0) and [s1, e1) share an instant. */
  predicate Overlaps(s0: Time, e0: Time, s1: Time, e1: Time) {
    s0 < e1 && s1 < e0
  }
}
