/** Bytes, little-endian words and the sums that several formats share. */
module Bytes {

  type byte = x: int | 0 <= x < 256
  type word = x: int | 0 <= x < 0x1_0000
  type dword = x: int | 0 <= x < 0x1_0000_0000

  type size = x: int | 0 <= x < 0x1_0000_0000_0000_0000

  const WORD_MODULUS: nat := 0x1_0000
  const DWORD_MODULUS: nat := 0x1_0000_0000
  const SIZE_MODULUS: nat := 0x1_0000_0000_0000_0000

  datatype Option<+T> = None | Some(value: T)

  // Undefined stands for a read or write outside the caller's memory, which the C code does not prevent.
  datatype Error = Corrupt | Invalid | Unknown | Signature | Logic | Slt | Undefined

  datatype Result<+T> = Ok(value: T) | Err(error: Error)

  /** What a C counter of the given modulus counts to before it equals n again: n itself,
      or a whole turn when n is 0. */
  function Turns(n: nat, modulus: nat): nat {
    if n == 0 then modulus else n
  }

  function Repeat<T>(x: T, n: nat): (r: seq<T>)
    ensures |r| == n && forall i :: 0 <= i < n ==> r[i] == x
  {
    seq(n, _ => x)
  }

  lemma Assoc<T>(a: seq<T>, b: seq<T>, c: seq<T>)
    ensures a + (b + c) == a + b + c
  {
  }

  function Sum(xs: seq<int>): int {
    if xs == [] then 0 else xs[0] + Sum(xs[1..])
  }

  lemma {:induction false} SumAppend(xs: seq<int>, ys: seq<int>)
    ensures Sum(xs + ys) == Sum(xs) + Sum(ys)
  {
    if xs == [] {
      assert xs + ys == ys;
    } else {
      assert (xs + ys)[1..] == xs[1..] + ys;
      SumAppend(xs[1..], ys);
    }
  }

  lemma {:induction false} SumRepeat(x: int, n: nat)
    ensures Sum(Repeat(x, n)) == n * x
  {
    if n > 0 {
      assert Repeat(x, n)[1..] == Repeat(x, n - 1);
      SumRepeat(x, n - 1);
    }
  }

  lemma Difference(k: nat, n: nat, q: nat)
    requires k > 0 && 0 <= k * n - k * q < k
    ensures n == q
  {
    if n > q {
      Distribute(k, n, q);
      AtLeast(k, n - q);
      assert false;
    } else if n < q {
      Distribute(k, q, n);
      AtLeast(k, q - n);
      assert false;
    }
  }

  lemma Distribute(k: nat, a: nat, b: nat)
    requires a >= b
    ensures k * (a - b) == k * a - k * b
  {
  }

  lemma AtLeast(k: nat, d: nat)
    requires d >= 1
    ensures k * d >= k
  {
  }

  lemma QuotientAndRest(q: nat, r: nat, k: nat)
    requires r < k
    ensures (q * k + r) / k == q && (q * k + r) % k == r
  {
    var x := q * k + r;
    var p, t := x / k, x % k;
    assert x == k * p + t && x == k * q + r;
    if t >= r {
      Difference(k, q, p);
    } else {
      Difference(k, p, q);
    }
  }

  function WordBytes(n: nat): (r: seq<byte>)
    ensures |r| == 2
  {
    [n % 256, n / 256 % 256]
  }

  function DwordBytes(n: nat): (r: seq<byte>)
    ensures |r| == 4
  {
    [n % 256, n / 256 % 256, n / 65536 % 256, n / 16777216 % 256]
  }

  function WordAt(b: seq<byte>, i: nat): word
    requires i + 2 <= |b|
  {
    var lo: int, hi: int := b[i], b[i + 1];
    lo + 256 * hi
  }

  function DwordAt(b: seq<byte>, i: nat): dword
    requires i + 4 <= |b|
  {
    var b0: int, b1: int, b2: int, b3: int := b[i], b[i + 1], b[i + 2], b[i + 3];
    b0 + 256 * b1 + 65536 * b2 + 16777216 * b3
  }

  lemma WordRoundTrip(n: nat, b: seq<byte>, i: nat)
    requires i + 2 <= |b| && b[i..i + 2] == WordBytes(n)
    ensures WordAt(b, i) == n % WORD_MODULUS
  {
    assert b[i] == b[i..i + 2][0] && b[i + 1] == b[i..i + 2][1];
  }

  lemma DwordRoundTrip(n: nat, b: seq<byte>, i: nat)
    requires i + 4 <= |b| && b[i..i + 4] == DwordBytes(n)
    ensures DwordAt(b, i) == n % DWORD_MODULUS
  {
    var s := b[i..i + 4];
    assert b[i] == s[0] && b[i + 1] == s[1] && b[i + 2] == s[2] && b[i + 3] == s[3];
    FourDigits(n);
  }

  /** The lowest byte comes first. */
  lemma LowestFirst()
    ensures WordBytes(0x0201) == [1, 2] && DwordBytes(0x0403_0201) == [1, 2, 3, 4]
    ensures WordAt([9, 1, 2], 1) == 0x0201 && DwordAt([9, 1, 2, 3, 4], 1) == 0x0403_0201
  {
  }

  lemma FourDigits(n: nat)
    ensures n % 256 + 256 * (n / 256 % 256) + 65536 * (n / 65536 % 256) + 16777216 * (n / 16777216 % 256)
         == n % DWORD_MODULUS
  {
    var a, c, d := n / 256, n / 65536, n / 16777216;
    assert c == a / 256 && d == c / 256;
    var q := d / 256;
    assert n == 256 * a + n % 256 && a == 256 * c + a % 256 && c == 256 * d + c % 256 && d == 256 * q + d % 256;
    assert n == DWORD_MODULUS * q + (n % 256 + 256 * (a % 256) + 65536 * (c % 256) + 16777216 * (d % 256));
  }

  lemma WordIsRead(n: nat, rest: seq<byte>)
    ensures var d := WordBytes(n) + rest; d[2..] == rest && WordAt(d, 0) == n % WORD_MODULUS
  {
    var d := WordBytes(n) + rest;
    assert d[0..2] == WordBytes(n);
    WordRoundTrip(n, d, 0);
  }

  // ----- Reading something, with the bytes behind it -----

  datatype Read<+T> = Read(value: T, rest: seq<byte>)

  /** Some values read already, and those read next. */
  function Behind<T>(done: seq<T>, r: Result<Read<seq<T>>>): Result<Read<seq<T>>> {
    if r.Err? then r else Ok(Read(done + r.value.value, r.value.rest))
  }

  lemma NothingBehind<T>(r: Result<Read<seq<T>>>)
    ensures Behind([], r) == r
  {
    if r.Ok? {
      assert [] + r.value.value == r.value.value;
    }
  }

  lemma OneMoreBehind<T>(done: seq<T>, x: T, r: Result<Read<seq<T>>>)
    ensures Behind(done + [x], r) == Behind(done, Behind([x], r))
  {
    if r.Ok? {
      Assoc(done, [x], r.value.value);
    }
  }

  lemma SameParts<T>(a: T, x: seq<T>, b: T, y: seq<T>)
    ensures [a] + x == [b] + y <==> a == b && x == y
  {
    if [a] + x == [b] + y {
      assert ([a] + x)[0] == ([b] + y)[0];
      assert x == ([a] + x)[1..] && y == ([b] + y)[1..];
    }
  }
}
