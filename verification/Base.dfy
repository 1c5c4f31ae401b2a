/** Small shared vocabulary: optional values, request errors and the machine
    integer range the Router stores amounts and versions in. */
module Base {

  datatype Option<+T> = None | Some(value: T)

  /** The request errors that matter to the modelled code paths. */
  datatype Error = NotFound | Forbidden | Conflict | BadRequest | FinanceHold | Internal

  datatype Result<+T> = Ok(value: T) | Err(error: Error)

  const I64_MAX: int := 0x7FFF_FFFF_FFFF_FFFF
  const I64_MIN: int := -0x8000_0000_0000_0000

  function Max(a: int, b: int): int { if a < b then b else a }
  function Min(a: int, b: int): int { if a < b then a else b }

  /** `value as i64` and unchecked i64 arithmetic: reduction modulo 2^64. */
  function WrapI64(x: int): (r: int)
    ensures I64_MIN <= r <= I64_MAX
    ensures I64_MIN <= x <= I64_MAX ==> r == x
  {
    (x + 0x8000_0000_0000_0000) % 0x1_0000_0000_0000_0000 - 0x8000_0000_0000_0000
  }

  function SaturateI64(x: int): int { Max(I64_MIN, Min(x, I64_MAX)) }

  lemma SubsetSize<T>(a: set<T>, b: set<T>)
    requires a <= b
    ensures |a| <= |b|
    ensures a != b ==> |a| < |b|
  {
    assert b == a + (b - a);
    assert |b| == |a| + |b - a|;
    if a != b { assert b - a != {}; }
  }

  lemma {:induction false} SubsetOfSize<T>(s: set<T>, n: nat) returns (t: set<T>)
    requires n <= |s|
    ensures t <= s && |t| == n
    decreases |s|
  {
    if s == {} {
      t := {};
    } else if n == |s| {
      t := s;
    } else {
      var x :| x in s;
      t := SubsetOfSize(s - {x}, n);
    }
  }

  newtype byte = x: int | 0 <= x < 256

  const NEWLINE: byte := 10
  const RETURN: byte := 13
}
