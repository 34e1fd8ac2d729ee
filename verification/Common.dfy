/** Types and constants that several components share. */
module Common {
  datatype Option<T> = None | Some(value: T)

  /** `Err` stands for an exception. */
  datatype Result<T> = Ok(value: T) | Err

  type Byte = b: int | 0 <= b < 256

  function Scale(n: nat): nat {
    if n == 0 then 1 else 256 * Scale(n - 1)
  }

  /** Bytes in memory order, least significant first. */
  function LittleEndian(bytes: seq<Byte>): (r: nat)
    ensures r < Scale(|bytes|)
  {
    if bytes == [] then 0 else bytes[0] + 256 * LittleEndian(bytes[1..])
  }

  lemma DivideTwice(x: nat, s: nat)
    requires s > 0
    ensures x / (256 * s) == x / 256 / s
  {
    var q := x / 256;
    var a, t := q / s, q % s;
    assert q == s * a + t;
    assert x == 256 * (s * a + t) + x % 256;
    assert 256 * (s * a) == (256 * s) * a;
    var m, r := 256 * s, 256 * t + x % 256;
    assert x == m * a + r && 0 <= r < m;
    QuotientIs(x, m, a, r);
  }

  lemma QuotientIs(x: nat, m: nat, a: nat, r: nat)
    requires 0 <= r < m && x == m * a + r
    ensures x / m == a
  {
    OneQuotient(m, a, r, x / m, x % m);
  }

  lemma OneQuotient(m: nat, a: int, r: nat, q: int, t: nat)
    requires r < m && t < m && m * a + r == m * q + t
    ensures a == q
  {
    assert m * (q - a) == m * q - m * a && m * (a - q) == m * a - m * q;
    if q > a {
      AtLeast(m, q - a);
    } else if q < a {
      AtLeast(m, a - q);
    }
  }

  lemma AtLeast(m: nat, k: nat)
    requires k > 0
    ensures m * k >= m
  {
    assert m * k == m + m * (k - 1);
  }

  /** The bytes are the digits of the number to base 256. */
  lemma {:induction false} LittleEndianDigits(bytes: seq<Byte>, i: nat)
    requires i < |bytes|
    ensures Scale(i) > 0 && LittleEndian(bytes) / Scale(i) % 256 == bytes[i]
    decreases i
  {
    ScalePositive(i);
    var n, rest := LittleEndian(bytes), LittleEndian(bytes[1..]);
    assert n == bytes[0] + 256 * rest;
    if i > 0 {
      ScalePositive(i - 1);
      LittleEndianDigits(bytes[1..], i - 1);
      DivideTwice(n, Scale(i - 1));
      assert n / 256 == rest;
    }
  }

  lemma {:induction false} ScalePositive(n: nat)
    ensures Scale(n) > 0
    decreases n
  {
    if n > 0 {
      ScalePositive(n - 1);
    }
  }

  const EBADF: int := 9
  const EAGAIN: int := 11
  const EFAULT: int := 14
  const EINVAL: int := 22
  const ENOSYS: int := 38
  const ETIMEDOUT: int := 110
}
