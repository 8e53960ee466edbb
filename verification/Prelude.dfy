/** Types shared by the models. */
module Prelude {

  type byte = b: int | 0 <= b < 256

  datatype Option<+T> = None | Some(value: T)

  /** What a C++ function that may throw leaves behind; the message text is not kept. */
  datatype Outcome<+T> = Ok(value: T) | Throws {
    predicate IsFailure() { Throws? }

    function PropagateFailure<U>(): Outcome<U>
      requires Throws?
    {
      Throws
    }

    function Extract(): T
      requires Ok?
    {
      value
    }
  }

  /** Text as the bytes of its UTF-8 encoding. */
  type Text = seq<byte>

  ghost function Ids(lo: nat, hi: nat): (r: set<nat>)
    requires lo <= hi
    ensures forall t: nat :: t in r <==> lo <= t < hi
    ensures |r| == hi - lo
    decreases hi - lo
  {
    if lo == hi then {} else Ids(lo + 1, hi) + {lo}
  }

  lemma SubsetCount<A>(a: set<A>, b: set<A>)
    requires a <= b
    ensures |a| <= |b|
  {
    if a != {} {
      var x :| x in a;
      SubsetCount(a - {x}, b - {x});
    }
  }
}
