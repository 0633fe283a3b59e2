/** PHP throwables as immutable values: what `getClass`, `getMessage`, ... report. */
module Throwables {
  import opened Wrappers
  import opened Php

  /** The class PHP falls back to: `\Exception`. */
  const GenericClass: string := "Exception"

  /**
    One frame of `getTrace()`. The runtime always sets the function name `func`; `file`,
    `line`, `class`, `type` and `args` may be missing.
   */
  datatype Frame = Frame(
    file: Option<string>,
    line: Option<int>,
    func: string,
    cls: Option<string>,
    callType: Option<string>,
    args: Option<seq<Entry>>)

  /**
    A throwable: its concrete class, message, integer code, origin, trace and
    the previous throwable it wraps. The chain of previous throwables is finite
    by construction.
   */
  datatype Throwable = Throwable(
    cls: string,
    message: string,
    code: int,
    file: string,
    line: int,
    trace: seq<Frame>,
    previous: Option<Throwable>)

  /** The number of throwables in the chain that starts at `e`. */
  function ChainLength(e: Throwable): (n: nat)
    ensures n >= 1
    ensures e.previous.None? <==> n == 1
  {
    match e.previous
    case None => 1
    case Some(p) => 1 + ChainLength(p)
  }
}
