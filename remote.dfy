/**
 * Values shared by the models: an optional value (JavaScript's
 * null/undefined, Python's None) and the outcome of one remote call.
 */
module Remote {

  datatype Option<+T> = None | Some(value: T) {
    /** The value, or `default` when there is none. */
    function GetOr(default: T): T {
      match this
      case Some(v) => v
      case None => default
    }
  }

  /**
   * What came back from one HTTP request: either a parsed JSON body, or a
   * transport or parse failure (the `.catch` branch of a fetch chain).
   */
  datatype Reply<+T> = Answered(body: T) | NetworkError

  /** A task-endpoint reply whose `success` field is true. */
  predicate Succeeded(reply: Reply<bool>)
    ensures Succeeded(reply) <==> reply.Answered? && reply.body
  {
    reply == Answered(true)
  }
}
