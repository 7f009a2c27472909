/**
  AES-256 in counter mode (section 6.5 of NIST SP 800-38A) over uninterpreted
  primitives: every theorem of the project holds for all of them.
 */
module Ctr {
  import opened Bytes

  type Digest = d: seq<byte> | |d| == 32 witness seq(32, _ => 0)

  /** SHA-256, HMAC-SHA-256, the AES keystream byte at a position, and UTF-8 validity. */
  datatype Primitives = Primitives(
    aesCtr: (seq<byte>, seq<byte>, nat) -> byte,
    sha256: seq<byte> -> Digest,
    hmac: (seq<byte>, seq<byte>) -> Digest,
    utf8: seq<byte> -> bool)

  /** The keystream a key and an IV select: position to mask byte. */
  type Keystream = nat -> byte

  function KeystreamOf(p: Primitives, key: seq<byte>, iv: seq<byte>): Keystream {
    i => p.aesCtr(key, iv, i)
  }

  /** `data` masked with the keystream from position `pos` on. */
  function Apply(ks: Keystream, pos: nat, data: seq<byte>): (r: seq<byte>)
    ensures |r| == |data|
  {
    seq(|data|, i requires 0 <= i < |data| => Xor(data[i], ks(pos + i)))
  }

  /** Byte `i` of a masked message meets keystream byte `pos + i`: no byte of it is skipped or used twice. */
  lemma ApplyAt(p: Primitives, key: seq<byte>, iv: seq<byte>, pos: nat, data: seq<byte>, i: nat, k: nat)
    requires i < |data| && k < 8
    ensures var mask := Bit(p.aesCtr(key, iv, pos + i), k);
            Bit(Apply(KeystreamOf(p, key, iv), pos, data)[i], k) == if mask == 0 then Bit(data[i], k) else 1 - Bit(data[i], k)
  {
    XorAt(data[i], p.aesCtr(key, iv, pos + i), k);
  }

  /** Only the bytes of a keystream matter. */
  lemma ApplySame(a: Keystream, b: Keystream, pos: nat, data: seq<byte>)
    requires forall i: nat :: a(i) == b(i)
    ensures Apply(a, pos, data) == Apply(b, pos, data)
  {
  }

  /** Decryption is encryption from the same position. */
  lemma ApplyCancels(ks: Keystream, pos: nat, data: seq<byte>)
    ensures Apply(ks, pos, Apply(ks, pos, data)) == data
  {
    forall i | 0 <= i < |data| ensures Apply(ks, pos, Apply(ks, pos, data))[i] == data[i] {
      XorCancels(data[i], ks(pos + i));
    }
  }

  /** Masking may be cut anywhere as long as the position follows. */
  lemma ApplyAppend(ks: Keystream, pos: nat, a: seq<byte>, b: seq<byte>)
    ensures Apply(ks, pos, a + b) == Apply(ks, pos, a) + Apply(ks, pos + |a|, b)
  {
    var l := Apply(ks, pos, a + b);
    var r := Apply(ks, pos, a) + Apply(ks, pos + |a|, b);
    forall i | 0 <= i < |l| ensures l[i] == r[i] {
      if i >= |a| {
        assert pos + i == pos + |a| + (i - |a|);
      }
    }
  }

  /** Consecutive messages, each masked where the previous one stopped. */
  function ApplyParts(ks: Keystream, pos: nat, parts: seq<seq<byte>>): (r: seq<seq<byte>>)
    ensures |r| == |parts|
    decreases |parts|
  {
    if parts == [] then []
    else [Apply(ks, pos, parts[0])] + ApplyParts(ks, pos + |parts[0]|, parts[1..])
  }

  lemma ApplyPartsHead(ks: Keystream, pos: nat, parts: seq<seq<byte>>)
    requires parts != []
    ensures ApplyParts(ks, pos, parts) == [Apply(ks, pos, parts[0])] + ApplyParts(ks, pos + |parts[0]|, parts[1..])
  {
  }

  /** Message boundaries do not show in the masked stream. */
  lemma {:induction false} ApplyPartsFlatten(ks: Keystream, pos: nat, parts: seq<seq<byte>>)
    ensures Flatten(ApplyParts(ks, pos, parts)) == Apply(ks, pos, Flatten(parts))
    decreases |parts|
  {
    hide Apply;
    if parts != [] {
      var head, tail := Apply(ks, pos, parts[0]), ApplyParts(ks, pos + |parts[0]|, parts[1..]);
      ApplyPartsFlatten(ks, pos + |parts[0]|, parts[1..]);
      ApplyAppend(ks, pos, parts[0], Flatten(parts[1..]));
      FlattenCons(head, tail);
      assert ApplyParts(ks, pos, parts) == [head] + tail;
    }
  }

  lemma {:induction false} ApplyPartsAppend(ks: Keystream, pos: nat, a: seq<seq<byte>>, b: seq<seq<byte>>)
    ensures ApplyParts(ks, pos, a + b) == ApplyParts(ks, pos, a) + ApplyParts(ks, pos + |Flatten(a)|, b)
    decreases |a|
  {
    hide Apply;
    if a == [] {
      assert a + b == b;
    } else {
      assert (a + b)[1..] == a[1..] + b;
      ApplyPartsAppend(ks, pos + |a[0]|, a[1..], b);
    }
  }

  lemma {:induction false} ApplyPartsCancels(ks: Keystream, pos: nat, parts: seq<seq<byte>>)
    ensures ApplyParts(ks, pos, ApplyParts(ks, pos, parts)) == parts
    decreases |parts|
  {
    hide Apply;
    if parts != [] {
      ApplyCancels(ks, pos, parts[0]);
      ApplyPartsCancels(ks, pos + |parts[0]|, parts[1..]);
      var enc := ApplyParts(ks, pos, parts);
      assert enc[1..] == ApplyParts(ks, pos + |parts[0]|, parts[1..]);
    }
  }

  lemma ApplyPartsOne(ks: Keystream, pos: nat, a: seq<byte>)
    ensures ApplyParts(ks, pos, [a]) == [Apply(ks, pos, a)]
  {
    assert [a][1..] == [];
  }

  /** One more message goes out under the keystream right after the earlier ones. */
  lemma ApplyPartsPush(ks: Keystream, pos: nat, parts: seq<seq<byte>>, last: seq<byte>)
    ensures ApplyParts(ks, pos, parts + [last]) == ApplyParts(ks, pos, parts) + [Apply(ks, pos + |Flatten(parts)|, last)]
  {
    ApplyPartsAppend(ks, pos, parts, [last]);
    ApplyPartsOne(ks, pos + |Flatten(parts)|, last);
  }

  /** A buffer that held `data0`, encrypted in place up to index `n`. */
  function MaskedTo(ks: Keystream, pos: nat, data0: seq<byte>, n: nat): (r: seq<byte>)
    requires n <= |data0|
    ensures |r| == |data0|
  {
    Apply(ks, pos, data0[..n]) + data0[n..]
  }

  lemma MaskedEnds(ks: Keystream, pos: nat, data0: seq<byte>)
    ensures MaskedTo(ks, pos, data0, 0) == data0
    ensures MaskedTo(ks, pos, data0, |data0|) == Apply(ks, pos, data0)
  {
    assert data0[..|data0|] == data0;
  }

  lemma MaskMore(ks: Keystream, pos: nat, data0: seq<byte>, lo: nat, hi: nat)
    requires lo <= hi <= |data0|
    ensures var d := MaskedTo(ks, pos, data0, lo);
            && d[lo..hi] == data0[lo..hi]
            && d[..lo] + Apply(ks, pos + lo, d[lo..hi]) + d[hi..] == MaskedTo(ks, pos, data0, hi)
  {
    var d, masked := MaskedTo(ks, pos, data0, lo), Apply(ks, pos, data0[..lo]);
    hide Apply;
    ApplyAppend(ks, pos, data0[..lo], data0[lo..hi]);
    assert data0[..lo] + data0[lo..hi] == data0[..hi];
    assert d == masked + data0[lo..] && |masked| == lo;
    assert d[..lo] == masked && d[lo..hi] == data0[lo..hi] && d[hi..] == data0[hi..];
  }

  /** The cipher object: a keystream and the next unused position in it. */
  class Cipher {
    const ks: Keystream
    var pos: nat

    constructor (ks: Keystream)
      ensures this.ks == ks && pos == 0
    {
      this.ks := ks;
      pos := 0;
    }

    /** Mask `data[lo..hi]` in place and move past the keystream it used. */
    method ApplyKeystream(data: array<byte>, lo: nat, hi: nat)
      requires lo <= hi <= data.Length
      modifies this`pos, data
      ensures pos == old(pos) + (hi - lo)
      ensures data[lo..hi] == Apply(ks, old(pos), old(data[lo..hi]))
      ensures data[..] == old(data[..lo]) + Apply(ks, old(pos), old(data[lo..hi])) + old(data[hi..])
    {
      var i := lo;
      while i < hi
        invariant lo <= i <= hi
        invariant pos == old(pos) + (i - lo)
        invariant forall k :: lo <= k < i ==> data[k] == Xor(old(data[k]), ks(old(pos) + (k - lo)))
        invariant forall k :: 0 <= k < data.Length && !(lo <= k < i) ==> data[k] == old(data[k])
      {
        data[i] := Xor(data[i], ks(pos));
        pos := pos + 1;
        i := i + 1;
      }
    }

    /** Skip `n` keystream bytes, as masking a dummy buffer does. */
    method FastForward(n: nat)
      modifies this`pos
      ensures pos == old(pos) + n
    {
      var dummy := new byte[n];
      ApplyKeystream(dummy, 0, n);
    }
  }
}
