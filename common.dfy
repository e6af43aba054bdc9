/** Result shapes shared by the whole model. */
module Common {

  /** A value that may be absent: JavaScript's `null`/`undefined` next to a value. */
  datatype Option<+T> = None | Some(value: T)

  /**
   * The outcome of awaiting a call that may throw: either the value it
   * returned or the message of the error it threw.
   */
  datatype Fetch<+T> = Fetched(value: T) | Threw(error: string)

  /**
   * The `{ success: true, data }` / `{ success: false, error }` objects that
   * the server actions hand back to the pages instead of throwing.
   */
  datatype ActionResult<+T> = Succeeded(data: T) | Failed(error: string)

  /** A `try { return { success: true, data: await f() } } catch (error) { return { success: false, error } }` block. */
  function Wrap<T>(f: Fetch<T>): (r: ActionResult<T>)
    ensures r.Succeeded? <==> f.Fetched?
    ensures f.Fetched? ==> r.data == f.value
    ensures f.Threw? ==> r.error == f.error
  {
    match f
    case Fetched(v) => Succeeded(v)
    case Threw(e) => Failed(e)
  }
}
