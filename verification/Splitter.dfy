/**
  The MTProto packet splitter (src/splitter.rs): an incremental header parser
  fused with the encryption of what it cuts.
 */
module Splitter {
  import opened Bytes
  import opened Ctr
  import opened Framing

  const MAX_HEADER_LEN := 4

  class MsgSplitter {
    const proto: ProtoTag
    /** Encrypted bytes of the packet being assembled, and their plaintext. */
    var packet: seq<byte>
    ghost var plain: seq<byte>
    const header: array<byte>
    var headerLen: nat
    var packetLen: Option<nat>
    var disabled: bool

    ghost function St(): State
      reads this
    {
      State(plain, disabled)
    }

    ghost predicate Valid()
      reads this, header
    {
      && header.Length == MAX_HEADER_LEN
      && |packet| == |plain|
      && Resting(proto, St())
      && headerLen <= |plain| && headerLen <= MAX_HEADER_LEN
      && header[..headerLen] == plain[..headerLen]
      && packetLen == (if disabled then None else PacketLen(proto, plain))
      && (packetLen.None? ==> headerLen == |plain|)
    }

    /** The assembled bytes are the plaintext under `enc`'s most recent keystream. */
    ghost predicate InStep(enc: Cipher)
      reads this, enc
    {
      |plain| <= enc.pos && packet == Apply(enc.ks, enc.pos - |plain|, plain)
    }

    constructor (proto: ProtoTag)
      ensures Valid() && fresh(header)
      ensures this.proto == proto && St() == START && packet == []
    {
      this.proto := proto;
      packet, plain := [], [];
      header := new byte[MAX_HEADER_LEN](_ => 0);
      headerLen := 0;
      packetLen := None;
      disabled := false;
    }

    method RequiredHeader() returns (n: nat)
      requires header.Length == MAX_HEADER_LEN && headerLen <= MAX_HEADER_LEN
      ensures n == RequiredHeaderLen(proto, header[..headerLen])
    {
      match proto {
        case Abridged =>
          if headerLen == 0 || !Extended(header[0]) {
            return 1;
          }
          return 4;
        case _ =>
          return 4;
      }
    }

    method ParsedPacketLen() returns (r: Option<nat>)
      requires header.Length == MAX_HEADER_LEN && 0 < headerLen <= MAX_HEADER_LEN
      ensures r == PacketLen(proto, header[..headerLen])
    {
      var required := RequiredHeader();
      if headerLen < required {
        return None;
      }
      var payload: nat;
      if proto.Abridged? {
        var words: nat := if Extended(header[0])
                          then ReadLe24(header[1], header[2], header[3])
                          else Low7(header[0]);
        payload := words * 4;
      } else {
        payload := Low31(ReadLe32(header[0], header[1], header[2], header[3]));
      }
      return if payload == 0 then Some(0) else Some(payload + required);
    }

    /** Encrypt `data[lo..hi]` in place and append it to the assembled packet. */
    method EncryptIntoPacket(data: array<byte>, lo: nat, hi: nat, enc: Cipher, ghost data0: seq<byte>, ghost pos0: nat)
      requires lo <= hi <= data.Length && data != header && InStep(enc)
      requires |data0| == data.Length && data[..] == MaskedTo(enc.ks, pos0, data0, lo) && enc.pos == pos0 + lo
      modifies this`packet, this`plain, data, enc`pos
      ensures plain == old(plain) + data0[lo..hi]
      ensures InStep(enc) && enc.pos == pos0 + hi
      ensures data[..] == MaskedTo(enc.ks, pos0, data0, hi)
    {
      hide MaskedTo, Apply;
      MaskMore(enc.ks, pos0, data0, lo, hi);
      assert data[..][lo..hi] == data[lo..hi] && data[..][..lo] == data[..lo] && data[..][hi..] == data[hi..];
      enc.ApplyKeystream(data, lo, hi);
      ApplyAppend(enc.ks, old(enc.pos) - |plain|, plain, data0[lo..hi]);
      packet, plain := packet + data[lo..hi], plain + data0[lo..hi];
    }

    /** Remember the plaintext header bytes `data[lo..hi]`. */
    method CopyHeader(data: array<byte>, lo: nat, hi: nat)
      requires header.Length == MAX_HEADER_LEN && data != header
      requires lo <= hi <= data.Length && headerLen + (hi - lo) <= MAX_HEADER_LEN
      modifies this`headerLen, header
      ensures headerLen == old(headerLen) + (hi - lo)
      ensures header[..headerLen] == old(header[..headerLen]) + data[lo..hi]
    {
      ghost var n := headerLen;
      for i := lo to hi
        invariant headerLen == n + (i - lo) <= MAX_HEADER_LEN
        invariant header[..headerLen] == old(header[..headerLen]) + data[lo..i]
      {
        header[headerLen] := data[i];
        headerLen := headerLen + 1;
      }
    }

    /** Read as much of the header as is there; the length once the header is complete. */
    method TakeHeader(plaintext: array<byte>, offset: nat, enc: Cipher, ghost data0: seq<byte>, ghost pos0: nat)
      returns (end: nat, len: Option<nat>)
      requires Valid() && !disabled && packetLen.None? && InStep(enc) && plaintext != header
      requires offset < plaintext.Length == |data0| && plaintext[..] == MaskedTo(enc.ks, pos0, data0, offset) && enc.pos == pos0 + offset
      modifies this`packet, this`plain, this`headerLen, header, plaintext, enc`pos
      ensures offset < end <= plaintext.Length && plaintext[..] == MaskedTo(enc.ks, pos0, data0, end)
      ensures plain == old(plain) + data0[offset..end] && InStep(enc) && enc.pos == pos0 + end
      ensures headerLen == |plain| <= MAX_HEADER_LEN && header[..headerLen] == plain
      ensures len == PacketLen(proto, plain)
      ensures len.Some? && len.value != 0 ==> |plain| < len.value
    {
      var required := RequiredHeader();
      assert header[..headerLen] == plain;
      HeaderOpen(proto, plain);
      hide PacketLen, Split;
      var take := Min(required - headerLen, plaintext.Length - offset);
      end := offset + take;
      CopyHeader(plaintext, offset, end);
      MaskMore(enc.ks, pos0, data0, offset, end);
      assert plaintext[offset..end] == plaintext[..][offset..end];
      EncryptIntoPacket(plaintext, offset, end, enc, data0, pos0);
      assert header[..headerLen] == plain;
      len := ParsedPacketLen();
      HeaderFits(proto, old(plain), data0[offset..end]);
    }

    /** Read as much of the announced packet as is there. */
    method TakeBody(plaintext: array<byte>, offset: nat, enc: Cipher, ghost data0: seq<byte>, ghost pos0: nat)
      returns (end: nat)
      requires packetLen.Some? && |plain| == |packet| < packetLen.value && PacketLen(proto, plain) == packetLen
      requires InStep(enc) && plaintext != header
      requires offset <= plaintext.Length == |data0| && plaintext[..] == MaskedTo(enc.ks, pos0, data0, offset) && enc.pos == pos0 + offset
      modifies this`packet, this`plain, plaintext, enc`pos
      ensures offset <= end <= plaintext.Length && plaintext[..] == MaskedTo(enc.ks, pos0, data0, end)
      ensures offset < plaintext.Length ==> offset < end
      ensures plain == old(plain) + data0[offset..end] && InStep(enc) && enc.pos == pos0 + end
      ensures |plain| == |packet| <= packetLen.value && PacketLen(proto, plain) == packetLen
      ensures |packet| < packetLen.value ==> end == plaintext.Length
    {
      var remaining := packetLen.value - |packet|;
      var take := Min(remaining, plaintext.Length - offset);
      end := offset + take;
      EncryptIntoPacket(plaintext, offset, end, enc, data0, pos0);
      PacketLenStable(proto, old(plain), data0[offset..end]);
    }

    /** Where the loop of `SplitAndEncrypt` is, as ghost values: what it cut from `s0 + data0[..offset]`. */
    ghost predicate At(plaintext: array<byte>, offset: nat, enc: Cipher, s0: seq<byte>, data0: seq<byte>, pos0: nat,
                       clear: seq<seq<byte>>, parts: seq<seq<byte>>)
      reads this, header, plaintext, enc
    {
      && Valid() && !disabled && InStep(enc) && plaintext != header
      && offset <= plaintext.Length == |data0|
      && plaintext[..] == MaskedTo(enc.ks, pos0, data0, offset) && enc.pos == pos0 + offset
      && |s0| <= pos0 && parts == ApplyParts(enc.ks, pos0 - |s0|, clear)
      && Split(proto, s0 + data0[..offset]) == Cut(clear, plain, false)
      && |Flatten(clear)| + |plain| == |s0| + offset
    }

    /** One round of the loop after the header: complete the packet, or run out of bytes. */
    method TakePacket(plaintext: array<byte>, from: nat, enc: Cipher, parts: seq<seq<byte>>, ghost at: nat,
                      ghost s0: seq<byte>, ghost data0: seq<byte>, ghost pos0: nat, ghost clear: seq<seq<byte>>,
                      ghost rest: seq<byte>)
      returns (offset: nat, parts': seq<seq<byte>>, ghost clear': seq<seq<byte>>)
      requires !disabled && InStep(enc) && plaintext != header && header.Length == MAX_HEADER_LEN
      requires packetLen.Some? && |plain| == |packet| < packetLen.value && PacketLen(proto, plain) == packetLen
      requires headerLen <= |plain| && headerLen <= MAX_HEADER_LEN && header[..headerLen] == plain[..headerLen]
      requires at <= from <= plaintext.Length == |data0| && at < plaintext.Length
      requires plaintext[..] == MaskedTo(enc.ks, pos0, data0, from) && enc.pos == pos0 + from
      requires |s0| <= pos0 && parts == ApplyParts(enc.ks, pos0 - |s0|, clear)
      requires Split(proto, s0 + data0[..at]) == Cut(clear, rest, false) && plain == rest + data0[at..from]
      requires |Flatten(clear)| + |rest| == |s0| + at
      modifies this`packet, this`plain, this`headerLen, this`packetLen, plaintext, enc`pos
      ensures at < offset && At(plaintext, offset, enc, s0, data0, pos0, clear', parts')
    {
      hide PacketLen, Split, MaskedTo, Apply, ApplyParts;
      offset := TakeBody(plaintext, from, enc, data0, pos0);
      assert plain == rest + data0[at..offset];
      ghost var cut := Cut(clear, rest, false);
      if |packet| == packetLen.value {
        AdvanceWhole(proto, s0, data0, at, offset, cut);
        ApplyPartsPush(enc.ks, pos0 - |s0|, clear, plain);
        FlattenAppend(clear, [plain]);
        FlattenOne(plain);
        clear' := clear + [plain];
        parts' := parts + [packet];
        packet, plain, headerLen, packetLen := [], [], 0, None;
        EmptyRests(proto);
        assert Apply(enc.ks, enc.pos, []) == [];
      } else {
        AdvanceOpen(proto, s0, data0, at, offset, cut);
        clear', parts' := clear, parts;
      }
    }

    /** One round of the loop. `done` means a zero-length header took the whole read. */
    method Round(plaintext: array<byte>, at: nat, enc: Cipher, parts: seq<seq<byte>>,
                 ghost s0: seq<byte>, ghost data0: seq<byte>, ghost pos0: nat, ghost clear: seq<seq<byte>>)
      returns (offset: nat, parts': seq<seq<byte>>, done: bool, ghost clear': seq<seq<byte>>)
      requires at < plaintext.Length && At(plaintext, at, enc, s0, data0, pos0, clear, parts)
      modifies this, header, plaintext, enc`pos
      ensures !done ==> at < offset && At(plaintext, offset, enc, s0, data0, pos0, clear', parts')
      ensures done ==>
                && Valid() && St() == State([], true) && packet == []
                && plaintext[..] == MaskedTo(enc.ks, pos0, data0, |data0|) && enc.pos == pos0 + |data0|
                && parts' == ApplyParts(enc.ks, pos0 - |s0|, clear')
                && Split(proto, s0 + data0).poisoned
                && clear' == Split(proto, s0 + data0).parts + [Split(proto, s0 + data0).rest]
    {
      hide PacketLen, Split, MaskedTo, Apply, ApplyParts;
      ghost var rest := plain;
      offset, parts', done, clear' := at, parts, false, clear;
      if packetLen.None? {
        var len;
        offset, len := TakeHeader(plaintext, at, enc, data0, pos0);
        if len.None? {
          AdvanceOpen(proto, s0, data0, at, offset, Cut(clear, rest, false));
          return;
        }
        if len.value == 0 {
          AdvancePoisoned(proto, s0, data0, at, offset, Cut(clear, rest, false));
          EncryptIntoPacket(plaintext, offset, plaintext.Length, enc, data0, pos0);
          ApplyPartsPush(enc.ks, pos0 - |s0|, clear, plain);
          assert data0[offset..plaintext.Length] == data0[offset..];
          clear' := clear + [plain];
          parts' := parts + [packet];
          packet, plain, disabled, headerLen, done := [], [], true, 0, true;
          return;
        }
        packetLen := len;
      } else {
        RestOpen(proto, plain);
        assert plain == rest + data0[at..at];
      }
      offset, parts', clear' := TakePacket(plaintext, offset, enc, parts, at, s0, data0, pos0, clear, rest);
    }

    /**
      Split one read into packets and encrypt them in stream order.  Whatever
      the earlier reads were, the messages are those `Feed` cuts, each under the
      keystream right after the previous one, and the keystream moves by exactly
      the bytes read.
     */
    method SplitAndEncrypt(plaintext: array<byte>, enc: Cipher) returns (parts: seq<seq<byte>>)
      requires Valid() && InStep(enc) && plaintext != header
      modifies this, header, plaintext, enc`pos
      ensures Valid() && InStep(enc)
      ensures enc.pos == old(enc.pos) + plaintext.Length
      ensures plaintext[..] == Apply(enc.ks, old(enc.pos), old(plaintext[..]))
      ensures var fed := Feed(proto, old(St()), old(plaintext[..]));
              && St() == fed.1
              && parts == ApplyParts(enc.ks, old(enc.pos) - |old(plain)|, fed.0)
    {
      hide PacketLen, Split;
      ghost var s0, data0, pos0 := plain, plaintext[..], enc.pos;
      if plaintext.Length == 0 {
        return [];
      }
      if disabled {
        enc.ApplyKeystream(plaintext, 0, plaintext.Length);
        ApplyPartsOne(enc.ks, pos0, data0);
        assert plaintext[0..plaintext.Length] == plaintext[..] && old(plaintext[0..plaintext.Length]) == data0;
        return [plaintext[..]];
      }

      parts := [];
      ghost var clear: seq<seq<byte>> := [];
      var offset, done := 0, false;
      MaskedEnds(enc.ks, pos0, data0);
      assert s0 + data0[..0] == s0 && data0[..|data0|] == data0;
      hide MaskedTo;
      while offset < plaintext.Length
        invariant At(plaintext, offset, enc, s0, data0, pos0, clear, parts)
      {
        offset, parts, done, clear := Round(plaintext, offset, enc, parts, s0, data0, pos0, clear);
        if done {
          return;
        }
      }
    }

    /** Hand over the bytes of an unfinished last packet. */
    method Flush() returns (parts: seq<seq<byte>>)
      requires Valid()
      modifies this
      ensures Valid() && packet == [] && St() == State([], old(disabled))
      ensures parts == (if old(packet) == [] then [] else [old(packet)])
    {
      if packet == [] {
        return [];
      }
      parts := [packet];
      packet, plain, headerLen, packetLen := [], [], 0, None;
    }
  }
}
