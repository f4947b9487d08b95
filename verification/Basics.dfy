/** What several modules share. */
module Basics {

  datatype Option<+T> = None | Some(value: T)

  /** The outcome of one statement sent to Cassandra or Redis. NoEffect: it failed and did nothing.
      LostReply: it took effect and an error was reported. */
  datatype Fault = NoFault | NoEffect | LostReply

  function Min(a: int, b: int): int { if a < b then a else b }

  function Max(a: int, b: int): int { if a < b then b else a }

  lemma ConcatAssociates<T>(a: seq<T>, b: seq<T>, c: seq<T>)
    ensures (a + b) + c == a + (b + c)
  {}
}
