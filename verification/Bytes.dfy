/** Bytes, options and the sequence helpers every other module shares. */
module Bytes {

  type byte = x: int | 0 <= x < 256

  /** The largest machine word of a 64-bit target. */
  const USIZE_MAX: nat := 0xffff_ffff_ffff_ffff

  datatype Option<+T> = None | Some(value: T)

  /** Bitwise exclusive or of the low `bits` bits of two naturals. */
  function XorBits(a: nat, b: nat, bits: nat): (r: nat)
    ensures r < Pow2(bits)
  {
    if bits == 0 then 0
    else (if a % 2 == b % 2 then 0 else 1) + 2 * XorBits(a / 2, b / 2, bits - 1)
  }

  function Pow2(n: nat): (r: nat)
    ensures 0 < r
  {
    if n == 0 then 1 else 2 * Pow2(n - 1)
  }

  function Xor(a: byte, b: byte): byte {
    assert Pow2(8) == 256;
    XorBits(a, b, 8)
  }

  lemma {:induction false} XorBitsCancels(a: nat, b: nat, bits: nat)
    requires a < Pow2(bits)
    ensures XorBits(XorBits(a, b, bits), b, bits) == a
  {
    if bits != 0 {
      var high, low := XorBits(a / 2, b / 2, bits - 1), if a % 2 == b % 2 then 0 else 1;
      var x := XorBits(a, b, bits);
      XorBitsCancels(a / 2, b / 2, bits - 1);
      assert x / 2 == high && x % 2 == low by { LowBit(low, high); }
      assert XorBits(x, b, bits) == (if low == b % 2 then 0 else 1) + 2 * (a / 2);
    }
  }

  lemma LowBit(low: nat, high: nat)
    requires low < 2
    ensures (low + 2 * high) / 2 == high && (low + 2 * high) % 2 == low
  {
  }

  /** Masking twice with the same byte gives the byte back. */
  lemma XorCancels(a: byte, b: byte)
    ensures Xor(Xor(a, b), b) == a
  {
    assert Pow2(8) == 256;
    XorBitsCancels(a, b, 8);
  }

  lemma XorZero(b: byte)
    ensures Xor(0, b) == b
  {
    assert Pow2(8) == 256;
    XorBitsZero(b, 8);
  }

  lemma {:induction false} XorBitsZero(b: nat, bits: nat)
    requires b < Pow2(bits)
    ensures XorBits(0, b, bits) == b
  {
    if bits != 0 {
      XorBitsZero(b / 2, bits - 1);
    }
  }

  /** Bit `k` of a natural, from the low end. */
  function Bit(x: nat, k: nat): nat
    decreases k
  {
    if k == 0 then x % 2 else Bit(x / 2, k - 1)
  }

  lemma {:induction false} XorBitsAt(a: nat, b: nat, bits: nat, k: nat)
    requires k < bits
    ensures Bit(XorBits(a, b, bits), k) == (Bit(a, k) + Bit(b, k)) % 2
  {
    LowBit(if a % 2 == b % 2 then 0 else 1, XorBits(a / 2, b / 2, bits - 1));
    if k != 0 {
      XorBitsAt(a / 2, b / 2, bits - 1, k - 1);
    }
  }

  /** The mask flips exactly the bits that are set in it. */
  lemma XorAt(a: byte, b: byte, k: nat)
    requires k < 8
    ensures Bit(Xor(a, b), k) == if Bit(b, k) == 0 then Bit(a, k) else 1 - Bit(a, k)
  {
    hide Xor, XorBits, Bit, Pow2;
    XorIs(a, b);
    XorBitsAt(a, b, 8, k);
    BitRange(a, k);
    BitRange(b, k);
    Parity(Bit(a, k), Bit(b, k));
  }

  lemma XorIs(a: byte, b: byte)
    ensures Xor(a, b) == XorBits(a, b, 8)
  {
  }

  lemma Parity(x: nat, y: nat)
    requires x < 2 && y < 2
    ensures (x + y) % 2 == if y == 0 then x else 1 - x
  {
  }

  lemma {:induction false} BitRange(x: nat, k: nat)
    ensures Bit(x, k) < 2
    decreases k
  {
    if k != 0 {
      BitRange(x / 2, k - 1);
    }
  }

  /** What a peer has after receiving these pieces one after the other. */
  function Flatten<T>(parts: seq<seq<T>>): (r: seq<T>) {
    if parts == [] then [] else parts[0] + Flatten(parts[1..])
  }

  lemma FlattenCons<T>(a: seq<T>, rest: seq<seq<T>>)
    ensures Flatten([a] + rest) == a + Flatten(rest)
  {
    assert ([a] + rest)[1..] == rest;
  }

  lemma FlattenOne<T>(a: seq<T>)
    ensures Flatten([a]) == a
  {
    assert [a][1..] == [];
  }

  lemma {:induction false} FlattenAppend<T>(a: seq<seq<T>>, b: seq<seq<T>>)
    ensures Flatten(a + b) == Flatten(a) + Flatten(b)
  {
    if a == [] {
      assert a + b == b;
    } else {
      FlattenAppend(a[1..], b);
      FlattenCons(a[0], a[1..] + b);
      assert a + b == [a[0]] + (a[1..] + b);
      Assoc(a[0], Flatten(a[1..]), Flatten(b));
    }
  }

  lemma Assoc<T>(a: seq<T>, b: seq<T>, c: seq<T>)
    ensures a + b + c == a + (b + c)
  {
  }

  lemma Slices<T>(a: seq<T>, b: seq<T>, c: seq<T>)
    ensures (a + b + c)[..|a|] == a && (a + b + c)[|a|..|a| + |b|] == b && (a + b + c)[|a| + |b|..] == c
    ensures forall i :: 0 <= i < |b| ==> (a + b + c)[|a| + i] == b[i]
  {
  }

  /** A slice of a slice. */
  lemma Sub<T>(s: seq<T>, a: nat, b: nat, i: nat, j: nat)
    requires a <= b <= |s| && i <= j <= b - a
    ensures s[a..b][i..j] == s[a + i..a + j]
  {
    var l, r := s[a..b][i..j], s[a + i..a + j];
    assert |l| == |r| && forall k :: 0 <= k < |l| ==> l[k] == s[a + (i + k)] == r[k];
  }

  lemma SubToEnd<T>(s: seq<T>, i: nat, j: nat)
    requires i <= j == |s|
    ensures s[i..j] == s[i..]
  {
  }

  lemma SubOfPrefix<T>(a: seq<T>, b: seq<T>, i: nat, j: nat)
    requires a <= b && i <= j <= |a|
    ensures a[i..j] == b[i..j]
  {
    assert a == b[0..|a|];
    Sub(b, 0, |a|, i, j);
  }

  lemma FourParts<T>(a: seq<T>, b: seq<T>, c: seq<T>, d: seq<T>)
    ensures a + (b + c + d) == a + b + c + d
  {
    Assoc(a, b, c);
    Assoc(a, b + c, d);
  }

  /** Big-endian 16-bit field, as `u16::to_be_bytes` writes it. */
  function Be16(n: nat): (r: seq<byte>)
    requires n < 0x1_0000
    ensures |r| == 2 && ReadBe16(r[0], r[1]) == n
  {
    [n / 256, n % 256]
  }

  function ReadBe16(hi: nat, lo: nat): nat { 0x100 * hi + lo }

  function ReadLe16(lo: nat, hi: nat): nat { lo + 0x100 * hi }

  function ReadLe24(b0: nat, b1: nat, b2: nat): nat { b0 + 0x100 * b1 + 0x1_0000 * b2 }

  function ReadLe32(b0: nat, b1: nat, b2: nat, b3: nat): nat { ReadLe24(b0, b1, b2) + 0x100_0000 * b3 }

  lemma DigitsLe24(n: nat)
    requires n < 0x100_0000
    ensures n / 0x1_0000 < 0x100
    ensures ReadLe24(n % 0x100, n / 0x100 % 0x100, n / 0x1_0000) == n
  {
    assert n / 0x1_0000 == n / 0x100 / 0x100;
  }

  lemma DigitsLe32(n: nat)
    requires n < 0x8000_0000
    ensures n / 0x100_0000 < 0x80
    ensures ReadLe32(n % 0x100, n / 0x100 % 0x100, n / 0x1_0000 % 0x100, n / 0x100_0000) == n
  {
    assert n / 0x1_0000 == n / 0x100 / 0x100 && n / 0x100_0000 == n / 0x1_0000 / 0x100;
  }

  function Reverse(s: seq<byte>): (r: seq<byte>)
    ensures |r| == |s|
    ensures forall i :: 0 <= i < |s| ==> r[i] == s[|s| - 1 - i]
  {
    seq(|s|, i requires 0 <= i < |s| => s[|s| - 1 - i])
  }

  function Abs(n: int): nat { if n < 0 then -n else n }

  function Min(a: nat, b: nat): nat { if a < b then a else b }
}
