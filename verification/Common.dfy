// Integer widths, failure types and addresses shared by every module.
module Common {
  type byte = x: int | 0 <= x < 0x100
  type u16 = x: int | 0 <= x < 0x1_0000
  type u32 = x: int | 0 <= x < 0x1_0000_0000
  type i32 = x: int | -0x8000_0000 <= x < 0x8000_0000
  type i64 = x: int | -0x8000_0000_0000_0000 <= x < 0x8000_0000_0000_0000

  const I64_MAX: int := 0x7fff_ffff_ffff_ffff
  const I64_MIN: int := -0x8000_0000_0000_0000

  datatype Option<+T> = None | Some(value: T) {
    predicate IsFailure() {
      None?
    }

    function PropagateFailure<U>(): Option<U>
      requires None?
    {
      None
    }

    function Extract(): T
      requires Some?
    {
      value
    }
  }

  datatype Result<+T, +E> = Ok(value: T) | Err(error: E) {
    predicate IsFailure() {
      Err?
    }

    function PropagateFailure<U>(): Result<U, E>
      requires Err?
    {
      Err(error)
    }

    function Extract(): T
      requires Ok?
    {
      value
    }
  }

  /** An address is its octets: 4 of them or 16 of them. */
  datatype IpAddr = V4(octets: seq<byte>) | V6(octets: seq<byte>)

  predicate WellFormedIp(a: IpAddr) {
    |a.octets| == if a.V4? then 4 else 16
  }

  /** Two's-complement narrowing, as Rust's `as i32` and `as u32`. */
  function WrapI32(n: int): i32 {
    (n + 0x8000_0000) % 0x1_0000_0000 - 0x8000_0000
  }

  function WrapU32(n: int): u32 {
    n % 0x1_0000_0000
  }

  function Min(a: int, b: int): int {
    if a <= b then a else b
  }

  function Max(a: int, b: int): int {
    if a >= b then a else b
  }

  function Abs(a: int): nat {
    if a < 0 then -a else a
  }

  /** Integer division of Rust and C: the quotient is truncated toward zero. */
  function TruncDiv(a: int, b: int): int
    requires b > 0
  {
    if a >= 0 then a / b else -((-a) / b)
  }

  /** Narrowing keeps the low 32 bits, and keeps what fits. */
  lemma NarrowingKeepsLowBits(n: int)
    ensures (WrapI32(n) - n) % 0x1_0000_0000 == 0 && (-0x8000_0000 <= n < 0x8000_0000 ==> WrapI32(n) == n)
    ensures (WrapU32(n) - n) % 0x1_0000_0000 == 0 && (0 <= n < 0x1_0000_0000 ==> WrapU32(n) == n)
  {
    var q, r := (n + 0x8000_0000) / 0x1_0000_0000, (n + 0x8000_0000) % 0x1_0000_0000;
    assert WrapI32(n) - n == -0x1_0000_0000 * q;
    var q', r' := n / 0x1_0000_0000, n % 0x1_0000_0000;
    assert WrapU32(n) - n == -0x1_0000_0000 * q';
  }
}
