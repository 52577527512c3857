/** Async iteration as a finite run of values that ends either cleanly or by
    throwing, and the generators that wrap one: `catch_iterable_when` with its
    two instances `catch_all` and `catch_abortable`, and `prepend`. */
module Streams {
  import opened Js
  import opened Errors

  /** What a consumer of an async iterable observes: the values in order, then
      either the end of iteration or a thrown value. */
  datatype Stream<T> = Done | Fail(error: Thrown) | Next(head: T, tail: Stream<T>)

  /** The values a consumer receives. */
  function Items<T>(s: Stream<T>): seq<T> {
    match s
    case Done => []
    case Fail(_) => []
    case Next(h, t) => [h] + Items(t)
  }

  /** How iteration ends: None when it ends cleanly. */
  function Ending<T>(s: Stream<T>): Option<Thrown> {
    match s
    case Done => None
    case Fail(e) => Some(e)
    case Next(_, t) => Ending(t)
  }

  /** `catch_iterable_when(p)(it)`: `yield*` of every value; a thrown `e` ends
      the generator quietly when `p(e)` is true and is re-thrown otherwise. */
  function CatchWhen<T>(p: Thrown -> bool, s: Stream<T>): (r: Stream<T>)
    ensures Items(r) == Items(s)
    ensures Ending(r) == if Ending(s).Some? && p(Ending(s).value) then None else Ending(s)
  {
    match s
    case Done => Done
    case Fail(e) => if p(e) then Done else Fail(e)
    case Next(h, t) => Next(h, CatchWhen(p, t))
  }

  /** `catch_all`: every value passes, and nothing is ever re-thrown. */
  function CatchAll<T>(s: Stream<T>): (r: Stream<T>)
    ensures Items(r) == Items(s)
    ensures Ending(r) == None
  {
    CatchWhen(_ => true, s)
  }

  /** `catch_abortable`: every value passes; exactly the aborts end it quietly. */
  function CatchAbortable<T>(s: Stream<T>): (r: Stream<T>)
    ensures Items(r) == Items(s)
    ensures Ending(r).Some? <==> Ending(s).Some? && !IsAbortError(Ending(s).value)
    ensures Ending(r).Some? ==> Ending(r) == Ending(s)
  {
    CatchWhen(IsAbortError, s)
  }

  /** Wrapping twice with the same predicate is the same as wrapping once. */
  lemma {:induction false} CatchWhenIdempotent<T>(p: Thrown -> bool, s: Stream<T>)
    ensures CatchWhen(p, CatchWhen(p, s)) == CatchWhen(p, s)
  {
    match s
    case Done =>
    case Fail(e) =>
    case Next(h, t) => CatchWhenIdempotent(p, t);
  }

  /** `prepend(head, tail)`: `head` first, then everything `tail` yields. */
  function Prepend<T>(head: T, tail: Stream<T>): (r: Stream<T>)
    ensures Items(r) == [head] + Items(tail)
    ensures Ending(r) == Ending(tail)
  {
    Next(head, tail)
  }

  /** The bytes a stream of chunks carries. */
  function Flatten<T>(chunks: seq<seq<T>>): seq<T> {
    if chunks == [] then [] else chunks[0] + Flatten(chunks[1..])
  }
}
