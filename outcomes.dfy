/**
 * What the browser-side handlers receive from the services they call: a
 * thrown value (an `Error` with its message, or anything else), and the
 * result of an `insert(...).select().single()` that hands back the new row's id.
 */
module Outcomes {
  import opened Types

  /** A value caught by `catch (err)`. */
  datatype Thrown = ErrorInstance(message: string) | OtherValue

  /** `err instanceof Error ? err.message : fallback`. */
  function Message(t: Thrown, fallback: string): (m: string)
    ensures t.ErrorInstance? ==> m == t.message
    ensures t.OtherValue? ==> m == fallback
  {
    match t
    case ErrorInstance(message) => message
    case OtherValue => fallback
  }

  /** An insert either reports an error (which the handler throws) or returns the new row's id. */
  datatype InsertOutcome = InsertFailed(thrown: Thrown) | Inserted(id: Id)
}
