/** Result shapes, bytes and two small facts, shared by the models. */
module Wrappers {

  datatype Option<+T> = None | Some(value: T)

  datatype Result<+T, +E> = Ok(value: T) | Err(error: E)

  type Byte = b: int | 0 <= b < 256

  function Clamp(value: int, low: nat, high: nat): (r: nat)
    requires low <= high
    ensures low <= r <= high
    ensures low <= value <= high ==> r == value
  {
    if value < low then low else if value > high then high else value
  }

  lemma {:induction false} SubsetSize<T>(a: set<T>, b: set<T>)
    requires a <= b
    ensures |a| <= |b|
  {
    if a != {} {
      var x :| x in a;
      SubsetSize(a - {x}, b - {x});
    }
  }
}
