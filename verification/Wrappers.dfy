/** Values that may be absent, results that may fail, and numbers shared by many modules. */
module Wrappers {

  datatype Option<+T> = None | Some(value: T)

  datatype Result<+T, +E> = Success(value: T) | Failure(error: E)

  const TWO_64: int := 0x1_0000_0000_0000_0000

  /** The numbers below `n`. */
  ghost function Upto(n: nat): set<nat> {
    if n == 0 then {} else Upto(n - 1) + {n - 1}
  }

  lemma {:induction false} UptoHas(n: nat)
    ensures forall i: nat :: i in Upto(n) <==> i < n
  {
    if n > 0 {
      UptoHas(n - 1);
    }
  }
}
