/** Failure-carrying wrappers shared by every module of the model. */
module Wrappers {

  datatype Option<+T> = None | Some(value: T)

  /** A computation that either yields a value or fails with a message.
      Schema errors of the generator (`unimplemented!`, a failed `unwrap` on a
      parse result) and validator failures of a generated builder are both
      failures with a message. */
  datatype Result<+T> = Ok(value: T) | Err(error: string)

  /** The outcome of running generated code: a value, a returned `Err`, or a
      panic (`unreachable!`, `unimplemented!`, `Option::unwrap` on `None`).

      A panic message, here and in the `Err` of a generator's schema error,
      is the whole text Rust reports: `unimplemented!()` gives
      "not implemented" and `unimplemented!(m)` gives "not implemented: m";
      `unreachable!()` gives "internal error: entered unreachable code" and
      `unreachable!(m)` that text followed by ": m". */
  datatype Outcome<+T> = Done(value: T) | Failed(error: string) | Panicked(message: string)

  /** Collecting outcomes in order (`collect::<Result<Vec<_>, _>>` and
      straight-line code alike): the first outcome that is not a value
      decides. */
  function Collect<T(==)>(outs: seq<Outcome<T>>): (r: Outcome<seq<T>>)
    ensures r.Done? <==> forall k :: 0 <= k < |outs| ==> outs[k].Done?
    ensures r.Done? ==> |r.value| == |outs| && forall k :: 0 <= k < |outs| ==> r.value[k] == outs[k].value
    ensures !r.Done? ==>
      exists k :: 0 <= k < |outs| && !outs[k].Done? && r == Stop(outs[k]) && forall j :: 0 <= j < k ==> outs[j].Done?
  {
    if outs == [] then Done([])
    else if !outs[0].Done? then Stop(outs[0])
    else
      match Collect(outs[1..])
      case Done(rest) => Done([outs[0].value] + rest)
      case other =>
        var k :| 0 <= k < |outs[1..]| && !outs[1..][k].Done? && other == Stop(outs[1..][k]) && forall j :: 0 <= j < k ==> outs[1..][j].Done?;
        assert !outs[k + 1].Done? && other == Stop(outs[k + 1]);
        assert forall j :: 0 <= j < k + 1 ==> outs[j].Done? by {
          forall j | 0 <= j < k + 1 ensures outs[j].Done? {
            if j > 0 {
              assert outs[j] == outs[1..][j - 1];
            }
          }
        }
        Stop(other)
  }

  /** A failure or panic re-typed for the enclosing computation. */
  function Stop<T, U>(o: Outcome<T>): (r: Outcome<U>)
    requires !o.Done?
    ensures !r.Done?
  {
    match o
    case Failed(e) => Failed(e)
    case Panicked(m) => Panicked(m)
  }
}
