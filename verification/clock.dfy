/** Wall-clock instants. `time.time()` is a float of seconds; the model reads it
    as a real number supplied by the caller. */
module Clock {

  /** Python's `int(x)` on a float: truncation toward zero. */
  function Trunc(x: real): (r: int)
    ensures 0.0 <= x ==> r as real <= x < r as real + 1.0
    ensures x < 0.0 ==> r as real - 1.0 < x <= r as real
  {
    if 0.0 <= x then x.Floor else -((-x).Floor)
  }

  function Abs(i: int): (r: nat)
    ensures r == i || r == -i
  {
    if i < 0 then -i else i
  }

  /** Truncation moves an instant by less than a second, in either direction. */
  lemma TruncClose(x: real)
    ensures x - 1.0 < Trunc(x) as real < x + 1.0
  {
  }
}
