/** Fixed-width unsigned words of the firmware, as subset types of `int`. */
module Words {

  const TWO_16: int := 0x1_0000
  const TWO_32: int := 0x1_0000_0000
  const TWO_64: int := 0x1_0000_0000_0000_0000

  type byte = x: int | 0 <= x < 0x100
  type u16 = x: int | 0 <= x < 0x1_0000
  type u32 = x: int | 0 <= x < 0x1_0000_0000

  type Bytes = seq<byte>

  datatype Option<+T> = None | Some(value: T)

  function Min(a: int, b: int): int {
    if a < b then a else b
  }

  /** Unsigned 32-bit subtraction `now - start`, as C computes it. */
  function Elapsed32(now: u32, start: u32): u32 {
    (now - start) % TWO_32
  }

  /** Little-endian words on the wire. */
  function Le16(v: u16): (b: Bytes)
    ensures |b| == 2
  {
    [v % 256, v / 256]
  }

  function Le32(v: u32): (b: Bytes)
    ensures |b| == 4
  {
    Le16(v % TWO_16) + Le16(v / TWO_16)
  }

  function GetLe16(b: Bytes, i: nat): (v: u16)
    requires i + 2 <= |b|
  {
    b[i] + (b[i + 1] as int) * 256
  }

  function GetLe32(b: Bytes, i: nat): (v: u32)
    requires i + 4 <= |b|
  {
    GetLe16(b, i) + (GetLe16(b, i + 2) as int) * TWO_16
  }

  lemma Le16RoundTrip(b: Bytes, i: nat, v: u16)
    requires i + 2 <= |b| && b[i..i + 2] == Le16(v)
    ensures GetLe16(b, i) == v
  {
    assert b[i] == b[i..i + 2][0] && b[i + 1] == b[i..i + 2][1];
  }

  lemma Le32RoundTrip(b: Bytes, i: nat, v: u32)
    requires i + 4 <= |b| && b[i..i + 4] == Le32(v)
    ensures GetLe32(b, i) == v
  {
    assert b[i..i + 2] == b[i..i + 4][..2] == Le16(v % TWO_16);
    assert b[i + 2..i + 4] == b[i..i + 4][2..] == Le16(v / TWO_16);
    Le16RoundTrip(b, i, v % TWO_16);
    Le16RoundTrip(b, i + 2, v / TWO_16);
  }

  /** `n` copies of `x`. */
  function Times<T>(x: T, n: nat): (s: seq<T>)
    ensures |s| == n
  {
    if n == 0 then [] else Times(x, n - 1) + [x]
  }

  // ---- sequences ------------------------------------------------------------

  lemma LastApart<T>(a: seq<T>, b: seq<T>)
    requires b != []
    ensures a + b == a + b[..|b| - 1] + [b[|b| - 1]] && b == b[..|b| - 1] + [b[|b| - 1]]
  {}

  lemma Joined<T>(a: seq<T>, b: seq<T>, c: seq<T>)
    ensures a + b + c == a + (b + c)
  {}

  lemma Regroup<T>(a: seq<T>, b: seq<T>, c: seq<T>, d: seq<T>)
    ensures a + b + c + d == a + (b + c + d)
  {}

  // ---- division -------------------------------------------------------------

  lemma MulMonotone(b: nat, m: nat, n: nat)
    requires m <= n
    ensures b * m <= b * n
  {
    assert b * n == b * m + b * (n - m);
  }

  lemma DivModUnique(x: nat, b: nat, q: nat, r: nat)
    requires b > 0 && x == b * q + r && r < b
    ensures x / b == q && x % b == r
  {
    if x / b > q {
      MulMonotone(b, q + 1, x / b);
      assert false;
    } else if x / b < q {
      MulMonotone(b, x / b + 1, q);
      assert false;
    }
  }

  /** Counting on by one within blocks of `b`. */
  lemma BlockStep(p: nat, b: nat)
    requires b > 0
    ensures (p + 1) % b == if p % b + 1 == b then 0 else p % b + 1
    ensures (p + 1) / b == if p % b + 1 == b then p / b + 1 else p / b
    ensures 0 <= p % b < b
  {
    var q, r := p / b, p % b;
    if r + 1 == b {
      assert p + 1 == b * (q + 1) + 0;
      DivModUnique(p + 1, b, q + 1, 0);
    } else {
      DivModUnique(p + 1, b, q, r + 1);
    }
  }

  /** Indices less than `b` apart have different remainders. */
  lemma ModDiffers(i: nat, j: nat, b: nat)
    requires i < j < i + b
    ensures i % b != j % b
  {
    var q, r, d := i / b, i % b, j - i;
    if r + d < b {
      DivModUnique(j, b, q, r + d);
    } else {
      assert j == b * (q + 1) + (r + d - b);
      DivModUnique(j, b, q + 1, r + d - b);
    }
  }

  /** A difference may be taken before or after reducing to 16 bits. */
  lemma Difference16(x: nat, y: nat)
    ensures (y % TWO_16 - x % TWO_16) % TWO_16 == (y - x) % TWO_16
  {}
}
