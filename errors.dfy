/** The cross-cutting error helpers: which thrown values count as expected
    network churn (`ignores`), which are aborts (`catch_abortable`'s test), and
    how an arbitrary thrown value becomes an `Error` (`try_catch`). */
module Errors {
  import opened Js

  /** `ignores(e)`: `e` is an instance of one of the five classes of expected
      connection churn. */
  predicate Ignores(t: Thrown) {
    t.Raised? && t.err.kind in {BadResource, BrokenPipe, ConnectionReset, Interrupted, Deadline}
  }

  /** Only the instance check decides: name, message and cause play no part,
      a plain `Error` is never ignorable, and neither is a non-`Error` value. */
  lemma IgnoresOnlyByClass(t: Thrown)
    ensures Ignores(t) <==> t.Raised? && t.err.kind != OtherKind
    ensures t.Raised? ==> forall n, m, c :: Ignores(Raised(Error(t.err.kind, n, m, c))) == Ignores(t)
    ensures !Ignores(Raised(PlainError("no http port")))
  {
  }

  /** The test `catch_abortable` applies: an `Error` instance named 'AbortError'. */
  predicate IsAbortError(t: Thrown) {
    t.Raised? && t.err.name == "AbortError"
  }

  /** What a call evaluated by `try_catch` did. */
  datatype Completion<T> = Returned(returned: T) | Threw(thrown: Thrown)

  /** `T | Error`: the value the function returned, or an `Error`. */
  datatype ValueOrError<T> = Value(v: T) | Caught(e: Error)

  /** `try_catch(fn)`: the returned value, the thrown `Error` itself, or a new
      `Error('unknown', { cause: e })` around a thrown value that is no `Error`. */
  function TryCatch<T>(c: Completion<T>): (r: ValueOrError<T>)
    ensures r.Value? <==> c.Returned?
    ensures r.Value? ==> r.v == c.returned
    ensures c.Threw? && c.thrown.Raised? ==> r == Caught(c.thrown.err)
    ensures c.Threw? && c.thrown.NonError? ==>
      r.Caught? && r.e.kind == OtherKind && r.e.message == "unknown" && r.e.cause == Some(c.thrown.shown)
  {
    match c
    case Returned(v) => Value(v)
    case Threw(Raised(e)) => Caught(e)
    case Threw(NonError(shown)) => Caught(ErrorWithCause("unknown", shown))
  }

  /** Normalising twice changes nothing: an `Error` produced by `try_catch`,
      thrown again, comes back as itself. */
  lemma TryCatchIdempotent<T>(c: Completion<T>)
    requires c.Threw?
    ensures TryCatch<T>(Threw(Raised(TryCatch(c).e))) == TryCatch(c)
  {
  }
}
