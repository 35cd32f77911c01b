/** Values that stand for the reactive results the service composes.
    A reactive single-value pipeline ends in one of three ways: it emits a
    value, it completes without one, or it fails. Every peer reply the service
    consumes is given to the model as one of these values. */
module Reactive {

  datatype Option<+T> = None | Some(value: T)

  /** The outcome of a single-value pipeline. */
  datatype Mono<+T> = Just(value: T) | Empty | Error(message: string)

  /** A peer reply whose body the service never reads: only whether it
      arrived, came back empty or failed decides what happens next. */
  type Ack = Mono<()>

  /** A peer reply that streams a list of records, or fails. */
  datatype Listing<+T> = Listed(items: seq<T>) | ListFailed(message: string)

  /** What `flatMap` does with a pipeline that did not emit: an empty
      pipeline stays empty and a failure passes through unchanged. */
  function Propagate<T, U>(m: Mono<T>): (r: Mono<U>)
    requires !m.Just?
    ensures r.Empty? <==> m.Empty?
    ensures m.Error? ==> r == Error(m.message)
  {
    if m.Empty? then Empty else Error(m.message)
  }
}
