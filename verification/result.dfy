/**
 * The tagged union returned by fallible operations: either `ok` with a
 * `value`, or not `ok` with a human-readable `error` message.
 */
module Results {

  datatype Result<+T> = Ok(value: T) | Err(error: string)
  {
    /** The `ok` tag that discriminates the two variants. */
    const ok: bool := Ok?
  }

  /** `Result.ok(value)`: the success variant carrying `value`. */
  function MakeOk<T>(value: T): (r: Result<T>)
    ensures r.ok && r.value == value
  {
    Ok(value)
  }

  /** `Result.err(error)`: the failure variant carrying the message. */
  function MakeErr<T>(error: string): (r: Result<T>)
    ensures !r.ok && r.error == error
  {
    Err(error)
  }

  /** Every result is exactly one of the two variants, and `ok` tells which. */
  lemma OkDiscriminates<T>(r: Result<T>)
    ensures r.ok <==> r.Ok?
    ensures !r.ok <==> r.Err?
    ensures r.Ok? != r.Err?
  {
  }

  /** Building one variant never yields the other. */
  lemma VariantsDisjoint<T>(value: T, error: string)
    ensures MakeOk(value).ok != MakeErr<T>(error).ok
    ensures MakeOk(value) != MakeErr<T>(error)
  {
  }
}
