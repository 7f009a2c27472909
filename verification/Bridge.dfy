/**
  The re-encryption bridges (src/proxy.rs): client bytes are decrypted with one
  CTR stream, cut into messages and encrypted with a second one; the download
  direction is symmetric.
 */
module Bridge {
  import opened Bytes
  import opened Ctr
  import opened Framing
  import opened Splitter
  import opened Crypto
  import opened Records
  import opened Inbound

  // ----- Destinations that may fail ---------------------------------------

  /** A message sink that accepts `capacity` messages and fails from then on. */
  class Sink {
    const capacity: nat
    var sent: seq<seq<byte>>

    constructor (capacity: nat)
      ensures this.capacity == capacity && sent == []
    {
      this.capacity := capacity;
      sent := [];
    }

    method Send(msg: seq<byte>) returns (ok: bool)
      modifies this
      ensures ok == (|old(sent)| < capacity)
      ensures sent == if ok then old(sent) + [msg] else old(sent)
    {
      ok := |sent| < capacity;
      if ok {
        sent := sent + [msg];
      }
    }

    /** Send in order, giving up at the first failure. */
    method SendParts(parts: seq<seq<byte>>) returns (ok: bool)
      requires |sent| <= capacity
      modifies this
      ensures sent == FirstOf(old(sent) + parts, capacity)
      ensures |sent| <= capacity && (ok <==> |old(sent)| + |parts| <= capacity)
    {
      var i := 0;
      ghost var all := sent + parts;
      assert FirstOf(all, |sent|) == sent;
      while i < |parts|
        invariant 0 <= i <= |parts| && |sent| == |old(sent)| + i <= capacity && sent == all[..|sent|]
      {
        ok := Send(parts[i]);
        if !ok {
          return;
        }
        i := i + 1;
      }
      ok := true;
    }
  }

  function FirstOf<T>(s: seq<T>, n: nat): seq<T> { s[..Min(n, |s|)] }

  // ----- Upload over a WebSocket ------------------------------------------

  /** Where an upload stands: the splitter's state and the two stream positions. */
  datatype Progress = Progress(st: State, cltPos: nat, tgPos: nat)

  /** Plaintext messages still to come from these reads, the final flush included. */
  function PlainMessages(framing: WsFraming, proto: ProtoTag, st: State, plain: seq<seq<byte>>): seq<seq<byte>> {
    match framing
    case Tunnel => plain
    case Packets => FeedAll(proto, st, plain).0 + Framing.Flush(FeedAll(proto, st, plain).1)
  }

  function Remaining(framing: WsFraming, proto: ProtoTag, at: Progress, clt: Keystream, tg: Keystream, chunks: seq<seq<byte>>)
    : seq<seq<byte>>
    requires |at.st.pending| <= at.tgPos
  {
    ApplyParts(tg, at.tgPos - |at.st.pending|, PlainMessages(framing, proto, at.st, ApplyParts(clt, at.cltPos, chunks)))
  }

  /** Every message an upload sends when nothing fails. */
  function UploadMessages(framing: WsFraming, proto: ProtoTag, init: Packet, clt: Keystream, tg: Keystream,
                          chunks: seq<seq<byte>>): seq<seq<byte>>
  {
    [init] + Remaining(framing, proto, Progress(START, HANDSHAKE_LEN, HANDSHAKE_LEN), clt, tg, chunks)
  }

  /** Messages of one read, and the splitter's state after it. */
  function OneRead(framing: WsFraming, proto: ProtoTag, st: State, plain: seq<byte>): (seq<seq<byte>>, State) {
    if framing.Tunnel? then ([plain], st) else Feed(proto, st, plain)
  }

  lemma PlainMessagesStep(framing: WsFraming, proto: ProtoTag, st: State, plain: seq<byte>, later: seq<seq<byte>>)
    requires Resting(proto, st) && (framing.Tunnel? ==> st == START)
    ensures var (parts, st') := OneRead(framing, proto, st, plain);
            && PlainMessages(framing, proto, st, [plain] + later) == parts + PlainMessages(framing, proto, st', later)
            && Resting(proto, st') && |Flatten(parts)| + |st'.pending| == |st.pending| + |plain|
  {
    assert ([plain] + later)[1..] == later;
    hide Feed, PacketLen, Split;
    var (parts, st') := OneRead(framing, proto, st, plain);
    if framing.Tunnel? {
      FlattenOne(plain);
    } else {
      var (more, end) := FeedAll(proto, st', later);
      FeedKeeps(proto, st, plain);
      Assoc(parts, more, Framing.Flush(end));
    }
  }

  /** One read: its messages come first, the rest follows from the new position. */
  lemma RemainingStep(framing: WsFraming, proto: ProtoTag, at: Progress, clt: Keystream, tg: Keystream,
                      chunks: seq<seq<byte>>, plain: seq<byte>, parts: seq<seq<byte>>, st: State)
    requires Resting(proto, at.st) && |at.st.pending| <= at.tgPos && (framing.Tunnel? ==> at.st == START)
    requires chunks != [] && plain == Apply(clt, at.cltPos, chunks[0])
    requires (parts, st) == OneRead(framing, proto, at.st, plain)
    ensures |st.pending| <= at.tgPos + |plain| && Resting(proto, st)
    ensures Remaining(framing, proto, at, clt, tg, chunks)
         == ApplyParts(tg, at.tgPos - |at.st.pending|, parts)
            + Remaining(framing, proto, Progress(st, at.cltPos + |plain|, at.tgPos + |plain|), clt, tg, chunks[1..])
  {
    hide Apply, ApplyParts, OneRead, PlainMessages, Resting, Flatten, Split, PacketLen, Feed, FeedAll;
    var later := ApplyParts(clt, at.cltPos + |plain|, chunks[1..]);
    var base := at.tgPos - |at.st.pending|;
    ApplyPartsHead(clt, at.cltPos, chunks);
    PlainMessagesStep(framing, proto, at.st, plain, later);
    ApplyPartsAppend(tg, base, parts, PlainMessages(framing, proto, st, later));
  }

  lemma RemainingDone(framing: WsFraming, proto: ProtoTag, at: Progress, clt: Keystream, tg: Keystream)
    requires |at.st.pending| <= at.tgPos && (framing.Tunnel? ==> at.st == START)
    ensures Remaining(framing, proto, at, clt, tg, [])
         == if at.st.pending == [] then [] else [Apply(tg, at.tgPos - |at.st.pending|, at.st.pending)]
  {
    assert [] + Framing.Flush(at.st) == Framing.Flush(at.st);
    ApplyPartsOne(tg, at.tgPos - |at.st.pending|, at.st.pending);
    hide Apply;
  }

  /** One read of the upload loop: decrypt in place, cut, encrypt in place. */
  method ForwardRead(chunk: seq<byte>, framing: WsFraming, splitter: MsgSplitter, cltDec: Cipher, tgEnc: Cipher)
    returns (parts: seq<seq<byte>>)
    requires splitter.Valid() && splitter.InStep(tgEnc) && cltDec != tgEnc
    requires framing.Tunnel? ==> splitter.St() == START
    modifies splitter, splitter.header, cltDec, tgEnc
    ensures splitter.Valid() && splitter.InStep(tgEnc)
    ensures cltDec.pos == old(cltDec.pos) + |chunk| && tgEnc.pos == old(tgEnc.pos) + |chunk|
    ensures var (clear, st) := OneRead(framing, splitter.proto, old(splitter.St()), Apply(cltDec.ks, old(cltDec.pos), chunk));
            && splitter.St() == st
            && parts == ApplyParts(tgEnc.ks, old(tgEnc.pos) - |old(splitter.plain)|, clear)
  {
    hide PacketLen, Split, Feed, Apply, ApplyParts;
    var buf := new byte[|chunk|](k requires 0 <= k < |chunk| => chunk[k]);
    assert buf[0..buf.Length] == chunk;
    cltDec.ApplyKeystream(buf, 0, buf.Length);
    assert buf[..] == buf[0..buf.Length];
    if framing.Packets? {
      parts := splitter.SplitAndEncrypt(buf, tgEnc);
    } else {
      ApplyPartsOne(tgEnc.ks, tgEnc.pos, buf[..]);
      tgEnc.ApplyKeystream(buf, 0, buf.Length);
      assert buf[..] == buf[0..buf.Length];
      EmptyApply(tgEnc.ks, tgEnc.pos);
      parts := [buf[..]];
    }
  }

  lemma EmptyApply(ks: Keystream, pos: nat)
    ensures Apply(ks, pos, []) == []
  {
  }

  /** After `i` reads: the sink holds all messages but those the other reads will bring. */
  ghost predicate UpTo(chunks: seq<seq<byte>>, i: nat, framing: WsFraming, splitter: MsgSplitter,
                       cltDec: Cipher, tgEnc: Cipher, sink: Sink, all: seq<seq<byte>>)
    reads splitter, splitter.header, cltDec, tgEnc, sink
  {
    && splitter.Valid() && splitter.InStep(tgEnc) && cltDec != tgEnc
    && |sink.sent| <= sink.capacity && i <= |chunks|
    && (framing.Tunnel? ==> splitter.St() == START)
    && all == sink.sent + Remaining(framing, splitter.proto, Progress(splitter.St(), cltDec.pos, tgEnc.pos),
                                    cltDec.ks, tgEnc.ks, chunks[i..])
  }

  /** Forward one read. */
  method UploadStep(chunks: seq<seq<byte>>, i: nat, framing: WsFraming, splitter: MsgSplitter,
                    cltDec: Cipher, tgEnc: Cipher, sink: Sink, ghost all: seq<seq<byte>>)
    returns (ok: bool)
    requires i < |chunks| && UpTo(chunks, i, framing, splitter, cltDec, tgEnc, sink, all)
    modifies splitter, splitter.header, cltDec, tgEnc, sink
    ensures ok ==> UpTo(chunks, i + 1, framing, splitter, cltDec, tgEnc, sink, all)
    ensures !ok ==> sink.sent == FirstOf(all, sink.capacity)
  {
    hide PacketLen, Split, Apply, ApplyParts, OneRead, Remaining, Resting, FirstOf;
    ghost var at := Progress(splitter.St(), cltDec.pos, tgEnc.pos);
    ghost var plain := Apply(cltDec.ks, cltDec.pos, chunks[i]);
    ghost var one := OneRead(framing, splitter.proto, at.st, plain);
    RemainingStep(framing, splitter.proto, at, cltDec.ks, tgEnc.ks, chunks[i..], plain, one.0, one.1);
    TunnelKeeps(framing, splitter.proto, at.st, plain);
    assert chunks[i..][1..] == chunks[i + 1..];
    var parts := ForwardRead(chunks[i], framing, splitter, cltDec, tgEnc);
    ghost var before, rest := sink.sent, Remaining(framing, splitter.proto, Progress(splitter.St(), cltDec.pos, tgEnc.pos),
                                                   cltDec.ks, tgEnc.ks, chunks[i + 1..]);
    Assoc(before, parts, rest);
    CutShort(before + parts, rest, sink.capacity);
    ok := sink.SendParts(parts);
  }

  /** Flush an unfinished packet at the end of the session. */
  method UploadEnd(chunks: seq<seq<byte>>, framing: WsFraming, splitter: MsgSplitter,
                   cltDec: Cipher, tgEnc: Cipher, sink: Sink, ghost all: seq<seq<byte>>)
    requires UpTo(chunks, |chunks|, framing, splitter, cltDec, tgEnc, sink, all)
    modifies splitter, sink
    ensures sink.sent == FirstOf(all, sink.capacity)
  {
    hide PacketLen, Split, Apply, ApplyParts, Remaining, Resting, FirstOf;
    RemainingDone(framing, splitter.proto, Progress(splitter.St(), cltDec.pos, tgEnc.pos), cltDec.ks, tgEnc.ks);
    assert chunks[|chunks|..] == [];
    var last := splitter.Flush();
    var ok := sink.SendParts(last);
  }

  /**
    The upload half of `bridge_ws`.  Whatever the reads, what reaches the sink
    is `UploadMessages`, up to the first message the sink refuses.
   */
  method UploadWs(chunks: seq<seq<byte>>, framing: WsFraming, proto: ProtoTag, init: Packet,
                  cltDec: Cipher, tgEnc: Cipher, sink: Sink)
    requires cltDec != tgEnc && cltDec.pos == HANDSHAKE_LEN == tgEnc.pos && sink.sent == []
    modifies cltDec, tgEnc, sink
    ensures sink.sent == FirstOf(UploadMessages(framing, proto, init, cltDec.ks, tgEnc.ks, chunks), sink.capacity)
  {
    hide Remaining, PacketLen, Split, Apply, ApplyParts, Resting;
    ghost var all := UploadMessages(framing, proto, init, cltDec.ks, tgEnc.ks, chunks);
    var ok := sink.Send(init);
    if !ok {
      return;
    }
    var splitter := new MsgSplitter(proto);
    EmptyApply(tgEnc.ks, tgEnc.pos);
    var i := 0;
    assert UpTo(chunks, 0, framing, splitter, cltDec, tgEnc, sink, all) by {
      assert chunks[0..] == chunks;
    }
    hide UpTo, UploadMessages, FirstOf;
    while i < |chunks|
      invariant i <= |chunks| && UpTo(chunks, i, framing, splitter, cltDec, tgEnc, sink, all)
      invariant fresh(splitter) && fresh(splitter.header)
    {
      ok := UploadStep(chunks, i, framing, splitter, cltDec, tgEnc, sink, all);
      if !ok {
        return;
      }
      i := i + 1;
    }
    UploadEnd(chunks, framing, splitter, cltDec, tgEnc, sink, all);
  }

  lemma TunnelKeeps(framing: WsFraming, proto: ProtoTag, st: State, plain: seq<byte>)
    ensures framing.Tunnel? ==> OneRead(framing, proto, st, plain).1 == st
  {
  }

  lemma CutShort<T>(sent: seq<T>, rest: seq<T>, capacity: nat)
    ensures capacity <= |sent| ==> FirstOf(sent, capacity) == FirstOf(sent + rest, capacity)
    ensures |sent| <= capacity ==> FirstOf(sent, capacity) == sent
  {
  }

  // ----- Byte-stream directions -------------------------------------------

  /** What a series of writes puts on the wire, plain or as Application Data records. */
  function Wire(tls: bool, writes: seq<seq<byte>>): seq<byte> {
    if tls then EncodeRecords(WrittenRecords(writes)) else Flatten(writes)
  }

  /** What the peer takes off that wire. */
  function Unwire(tls: bool, wire: seq<byte>): seq<byte> {
    if tls then Flatten(ReadAll(wire, TLS_MAX_READ)) else wire
  }

  lemma WireRoundTrip(tls: bool, writes: seq<seq<byte>>)
    ensures Unwire(tls, Wire(tls, writes)) == Flatten(writes)
  {
    WriteReadRoundTrip(writes, TLS_MAX_READ);
  }

  lemma WirePush(tls: bool, writes: seq<seq<byte>>, data: seq<byte>)
    ensures Wire(tls, writes + [data]) == Wire(tls, writes) + if tls then EncodeRecords(AppRecords(data)) else data
  {
    hide EncodeRecords, AppRecords;
    FlattenAppend(writes, [data]);
    FlattenOne(data);
    WrittenPush(writes, data);
    EncodeRecordsAppend(WrittenRecords(writes), AppRecords(data));
  }

  lemma {:induction false} WrittenPush(writes: seq<seq<byte>>, data: seq<byte>)
    ensures WrittenRecords(writes + [data]) == WrittenRecords(writes) + AppRecords(data)
  {
    hide AppRecords;
    if writes == [] {
      assert [data][1..] == [] && [] + [data] == [data];
      assert AppRecords(data) + [] == AppRecords(data);
    } else {
      WrittenPush(writes[1..], data);
      assert (writes + [data])[1..] == writes[1..] + [data];
      Assoc(AppRecords(writes[0]), WrittenRecords(writes[1..]), AppRecords(data));
    }
  }

  /** Every chunk decrypted with one stream and encrypted with the other. */
  function Reencrypted(dec: Keystream, decPos: nat, enc: Keystream, encPos: nat, chunks: seq<seq<byte>>): (r: seq<seq<byte>>)
    ensures |r| == |chunks|
  {
    ApplyParts(enc, encPos, ApplyParts(dec, decPos, chunks))
  }

  lemma ReencryptedStep(dec: Keystream, decPos: nat, enc: Keystream, encPos: nat, chunks: seq<seq<byte>>)
    requires chunks != []
    ensures Reencrypted(dec, decPos, enc, encPos, chunks)
         == [Apply(enc, encPos, Apply(dec, decPos, chunks[0]))]
            + Reencrypted(dec, decPos + |chunks[0]|, enc, encPos + |chunks[0]|, chunks[1..])
  {
    hide Apply, ApplyParts;
    var head, tail := Apply(dec, decPos, chunks[0]), ApplyParts(dec, decPos + |chunks[0]|, chunks[1..]);
    ApplyPartsHead(dec, decPos, chunks);
    ApplyPartsHead(enc, encPos, [head] + tail);
    assert ([head] + tail)[1..] == tail;
  }

  /** Decrypt and re-encrypt one chunk in its buffer. */
  method Recode(chunk: seq<byte>, dec: Cipher, enc: Cipher) returns (data: seq<byte>)
    requires dec != enc
    modifies dec, enc
    ensures data == Apply(enc.ks, old(enc.pos), Apply(dec.ks, old(dec.pos), chunk))
    ensures dec.pos == old(dec.pos) + |chunk| && enc.pos == old(enc.pos) + |chunk|
  {
    hide Apply;
    var buf := new byte[|chunk|](k requires 0 <= k < |chunk| => chunk[k]);
    assert buf[0..buf.Length] == chunk;
    dec.ApplyKeystream(buf, 0, buf.Length);
    enc.ApplyKeystream(buf, 0, buf.Length);
    data := buf[..];
    assert data == buf[0..buf.Length];
  }

  /** The bytes of one write. */
  function Written(tls: bool, data: seq<byte>): seq<byte> { if tls then EncodeRecords(AppRecords(data)) else data }

  lemma WireStep(tls: bool, writes: seq<seq<byte>>, data: seq<byte>, later: seq<seq<byte>>)
    ensures Wire(tls, writes) + Written(tls, data) <= Wire(tls, writes + ([data] + later))
  {
    hide EncodeRecords, AppRecords, WrittenRecords, Flatten;
    WirePush(tls, writes, data);
    Assoc(writes, [data], later);
    WireAppend(tls, writes + [data], later);
  }

  lemma {:induction false} WireAppend(tls: bool, writes: seq<seq<byte>>, later: seq<seq<byte>>)
    ensures Wire(tls, writes) <= Wire(tls, writes + later)
    decreases |later|
  {
    if later == [] {
      assert writes + later == writes;
    } else {
      var n := |later| - 1;
      WireAppend(tls, writes, later[..n]);
      WirePush(tls, writes + later[..n], later[n]);
      assert writes + later == writes + later[..n] + [later[n]];
      hide Wire;
    }
  }

  /**
    The loop shared by every download and by the relay and TCP uploads: chunk by
    chunk until the source ends or the `writable`-th write fails, having put up
    to `partial` bytes on the wire.
   */
  method Pump(chunks: seq<seq<byte>>, dec: Cipher, enc: Cipher, tls: bool, writable: nat, partial: nat) returns (wire: seq<byte>)
    requires dec != enc
    modifies dec, enc
    ensures var all := Reencrypted(dec.ks, old(dec.pos), enc.ks, old(enc.pos), chunks);
            && Wire(tls, FirstOf(all, writable)) <= wire <= Wire(tls, all)
            && (writable >= |chunks| ==> wire == Wire(tls, all))
  {
    hide Wire, Reencrypted, Apply;
    ghost var all := Reencrypted(dec.ks, dec.pos, enc.ks, enc.pos, chunks);
    wire := [];
    EmptyWire(tls);
    ghost var writes: seq<seq<byte>> := [];
    var i := 0;
    assert chunks[0..] == chunks && [] + all == all;
    while i < |chunks|
      invariant 0 <= i <= |chunks| && |writes| == i <= writable && wire == Wire(tls, writes)
      invariant all == writes + Reencrypted(dec.ks, dec.pos, enc.ks, enc.pos, chunks[i..])
    {
      ReencryptedStep(dec.ks, dec.pos, enc.ks, enc.pos, chunks[i..]);
      var data := Recode(chunks[i], dec, enc);
      assert chunks[i..][1..] == chunks[i + 1..];
      ghost var later := Reencrypted(dec.ks, dec.pos, enc.ks, enc.pos, chunks[i + 1..]);
      WireStep(tls, writes, data, later);
      WirePush(tls, writes, data);
      var sent := wire + data;
      if tls {
        sent := WriteTlsAppData(wire, data);
      }
      assert sent == wire + Written(tls, data);
      if i == writable {
        assert writes == FirstOf(all, writable);
        wire := sent[..|wire| + Min(partial, |sent| - |wire|)];
        return;
      }
      wire := sent;
      Assoc(writes, [data], later);
      writes := writes + [data];
      i := i + 1;
    }
    assert writes == FirstOf(all, writable) == all;
  }

  lemma EmptyWire(tls: bool)
    ensures Wire(tls, []) == []
  {
  }

  // ----- End to end -------------------------------------------------------

  /** Two CTR streams in a row, undone by the far side. */
  lemma ReencryptedRoundTrip(dec: Keystream, decPos: nat, enc: Keystream, encPos: nat, chunks: seq<seq<byte>>, plain: seq<byte>)
    requires Flatten(chunks) == Apply(dec, decPos, plain)
    ensures Apply(enc, encPos, Flatten(Reencrypted(dec, decPos, enc, encPos, chunks))) == plain
  {
    hide Apply, ApplyParts;
    ApplyPartsFlatten(dec, decPos, chunks);
    ApplyPartsFlatten(enc, encPos, ApplyParts(dec, decPos, chunks));
    ApplyCancels(dec, decPos, plain);
    ApplyCancels(enc, encPos, plain);
  }

  /**
    Upload over a WebSocket, both framings, every read segmentation: after the
    relay init, Telegram decrypts exactly the client's plaintext.  The
    concatenation is one contiguous run of the keystream, so no byte of it is
    skipped or used twice.
   */
  lemma UploadEndToEnd(framing: WsFraming, proto: ProtoTag, init: Packet, clt: Keystream, tg: Keystream,
                       plain: seq<byte>, chunks: seq<seq<byte>>)
    requires Flatten(chunks) == Apply(clt, HANDSHAKE_LEN, plain)
    ensures var msgs := UploadMessages(framing, proto, init, clt, tg, chunks);
            && msgs[..1] == [init]
            && Flatten(msgs[1..]) == Apply(tg, HANDSHAKE_LEN, plain)
            && Apply(tg, HANDSHAKE_LEN, Flatten(msgs[1..])) == plain
  {
    hide Apply, ApplyParts, FeedAll;
    var clear := ApplyParts(clt, HANDSHAKE_LEN, chunks);
    ApplyPartsFlatten(clt, HANDSHAKE_LEN, chunks);
    ApplyCancels(clt, HANDSHAKE_LEN, plain);
    PlainMessagesCarry(framing, proto, clear);
    ApplyPartsFlatten(tg, HANDSHAKE_LEN, PlainMessages(framing, proto, START, clear));
    ApplyCancels(tg, HANDSHAKE_LEN, plain);
  }

  lemma PlainMessagesCarry(framing: WsFraming, proto: ProtoTag, clear: seq<seq<byte>>)
    ensures Flatten(PlainMessages(framing, proto, START, clear)) == Flatten(clear)
  {
    EmptyRests(proto);
    hide PacketLen, Split;
    FeedAllConserves(proto, START, clear);
    assert [] + Flatten(clear) == Flatten(clear);
  }

  /**
    With packet framing Telegram receives one WebSocket message per MTProto
    packet, each decrypting to that packet, however the client's stream was cut.
   */
  lemma UploadPackets(proto: ProtoTag, init: Packet, clt: Keystream, tg: Keystream, frames: seq<Frame>, chunks: seq<seq<byte>>)
    requires forall f :: f in frames ==> Encodable(proto, f)
    requires Flatten(chunks) == Apply(clt, HANDSHAKE_LEN, Flatten(EncodeAll(proto, frames)))
    ensures ApplyParts(tg, HANDSHAKE_LEN, UploadMessages(Packets, proto, init, clt, tg, chunks)[1..]) == EncodeAll(proto, frames)
  {
    hide Apply, ApplyParts, FeedAll;
    var clear, packets := ApplyParts(clt, HANDSHAKE_LEN, chunks), EncodeAll(proto, frames);
    ApplyPartsFlatten(clt, HANDSHAKE_LEN, chunks);
    ApplyCancels(clt, HANDSHAKE_LEN, Flatten(packets));
    FramingRoundTrip(proto, frames, clear);
    assert packets + [] == packets;
    ApplyPartsCancels(tg, HANDSHAKE_LEN, packets);
  }

  /** Through a tunnel every read becomes one message of its own, and decrypts to what the client sent in it. */
  lemma TunnelKeepsReads(proto: ProtoTag, init: Packet, clt: Keystream, tg: Keystream, plains: seq<seq<byte>>)
    ensures var msgs := UploadMessages(Tunnel, proto, init, clt, tg, ApplyParts(clt, 64, plains));
            |msgs| == 1 + |plains| && msgs[0] == init && ApplyParts(tg, 64, msgs[1..]) == plains
  {
    hide Apply, ApplyParts, FeedAll;
    ApplyPartsCancels(clt, 64, plains);
    ApplyPartsCancels(tg, 64, plains);
    assert UploadMessages(Tunnel, proto, init, clt, tg, ApplyParts(clt, 64, plains))[1..] == ApplyParts(tg, 64, plains);
  }

  /**
    Every other direction (download over any upstream, upload to an upstream
    proxy or over TCP), with or without TLS records on the way out: the receiver
    decrypts exactly what the sender encrypted.
   */
  lemma PumpEndToEnd(tls: bool, dec: Keystream, decPos: nat, enc: Keystream, encPos: nat, plain: seq<byte>, chunks: seq<seq<byte>>)
    requires Flatten(chunks) == Apply(dec, decPos, plain)
    ensures Apply(enc, encPos, Unwire(tls, Wire(tls, Reencrypted(dec, decPos, enc, encPos, chunks)))) == plain
  {
    WireRoundTrip(tls, Reencrypted(dec, decPos, enc, encPos, chunks));
    ReencryptedRoundTrip(dec, decPos, enc, encPos, chunks, plain);
  }

  /** A direction that breaks off anywhere has delivered a prefix of the plaintext. */
  lemma PumpPrefix(tls: bool, dec: Keystream, decPos: nat, enc: Keystream, encPos: nat, plain: seq<byte>, chunks: seq<seq<byte>>, wire: seq<byte>)
    requires Flatten(chunks) == Apply(dec, decPos, plain)
    requires wire <= Wire(tls, Reencrypted(dec, decPos, enc, encPos, chunks))
    ensures Apply(enc, encPos, Unwire(tls, wire)) <= plain
  {
    var all := Reencrypted(dec, decPos, enc, encPos, chunks);
    ReencryptedRoundTrip(dec, decPos, enc, encPos, chunks, plain);
    UnwirePrefix(tls, all, wire);
    hide Reencrypted, Wire, Unwire, Apply;
    ApplyPrefix(enc, encPos, Unwire(tls, wire), Flatten(all));
  }

  lemma UnwirePrefix(tls: bool, writes: seq<seq<byte>>, wire: seq<byte>)
    requires wire <= Wire(tls, writes)
    ensures Unwire(tls, wire) <= Flatten(writes)
  {
    if tls {
      WrittenRecordsCarry(writes);
      hide WrittenRecords, ReadAll, AppBytes;
      assert wire == EncodeRecords(WrittenRecords(writes))[..|wire|];
      CutRecords(WrittenRecords(writes), |wire|, TLS_MAX_READ);
    }
  }

  lemma ApplyPrefix(ks: Keystream, pos: nat, a: seq<byte>, b: seq<byte>)
    requires a <= b
    ensures Apply(ks, pos, a) <= Apply(ks, pos, b)
  {
    var rest := b[|a|..];
    assert b == a + rest;
    ApplyAppend(ks, pos, a, rest);
    hide Apply;
  }

  /** What the proxy makes of one client connection: the parsed handshake, the index it forwards, and its upload. */
  datatype Handled = Handled(info: HandshakeInfo, dc: I16, init: Packet, msgs: seq<seq<byte>>)

  /**
    The client handler on the bytes after the ClientHello, for the secret that
    matches: collect the init, parse it, build the relay init, bridge.
   */
  function Handle(p: Primitives, data: seq<byte>, secret: seq<byte>, relayDraw: Packet, pad: seq<byte>, framing: WsFraming, overflowChecks: bool)
    : Option<Handled>
    requires |pad| == 2
  {
    match CollectInit(data, [])
    case None => None
    case Some(a) =>
      match ParseHandshake(p, a.init, secret)
      case None => None
      case Some(info) =>
        match RebuiltIndex(info.dcId, info.isMedia, overflowChecks)
        case None => None
        case Some(dc) =>
          var init := InitPacket(RawKs(p, Embedded(relayDraw)), relayDraw, info.proto, dc, pad);
          var chunks := SessionReads(a.pending, a.rest, TLS_MAX_READ);
          Some(Handled(info, dc, init, UploadMessages(framing, info.proto, init, SecretKs(p, info.prekeyIv, secret),
                                                      RawKs(p, Embedded(init)), chunks)))
  }

  /** The proxy takes the client's first 64 bytes for its handshake and reads what they announce. */
  lemma HandshakeTaken(p: Primitives, secret: seq<byte>, proto: ProtoTag, dc: I16, handshake: Packet, cipher: seq<byte>,
                       rs: seq<Record>, client: Session, overflowChecks: bool)
    requires ClientKeys(p, handshake, secret, client) && Announces(client.send, handshake, proto, dc)
    requires ClientRecords(rs) && AppBytes(rs) == handshake + cipher && !(overflowChecks && dc == -0x8000)
    ensures var a := CollectInit(EncodeRecords(rs), []);
            && a.Some? && a.value.init == handshake && Flatten(SessionReads(a.value.pending, a.value.rest, TLS_MAX_READ)) == cipher
            && ParseHandshake(p, handshake, secret) == Some(HandshakeInfo(Abs(dc), dc < 0, proto, Embedded(handshake)))
            && RebuiltIndex(Abs(dc), dc < 0, overflowChecks) == Some(dc)
  {
    HandshakeParsedIff(p, handshake, secret, client, proto, dc);
    RebuiltIndexIff(dc, overflowChecks);
    InboundRecovery(rs, TLS_MAX_READ, TLS_MAX_READ);
    hide CollectInit, EncodeRecords, AppBytes, SessionReads, ParseHandshake, RebuiltIndex, ClientRecords, ClientKeys, Announces;
    assert (handshake + cipher)[..HANDSHAKE_LEN] == handshake && (handshake + cipher)[HANDSHAKE_LEN..] == cipher;
  }

  /** What Telegram makes of a relay init and of the masked bytes after it. */
  ghost predicate TelegramReads(t: Session, init: Packet, proto: ProtoTag, dc: I16, pad: seq<byte>)
    requires |pad| == 2
  {
    && Announces(t.recv, init, proto, dc)
    && Xor(init[62], t.recv(62)) == pad[0] && Xor(init[63], t.recv(63)) == pad[1]
  }

  /**
    A whole inbound FakeTLS session.  For every secret, protocol, DC index and
    plaintext, every client that follows the obfuscation format, and every way
    of cutting its stream into records: the proxy recovers the protocol and the
    DC; a Telegram that follows the format reads the same protocol and index
    from the relay init and decrypts exactly the client's plaintext.
   */
  lemma SessionEndToEnd(p: Primitives, secret: seq<byte>, proto: ProtoTag, dc: I16, client: Session, telegram: Packet -> Session,
                        relayDraw: Packet, pad: seq<byte>, handshake: Packet, plain: seq<byte>, rs: seq<Record>,
                        framing: WsFraming, overflowChecks: bool)
    requires !Reserved(relayDraw) && |pad| == 2 && !(overflowChecks && dc == -0x8000)
    requires ClientKeys(p, handshake, secret, client) && Announces(client.send, handshake, proto, dc)
    requires forall init: Packet :: TelegramKeys(p, init, telegram(init))
    requires ClientRecords(rs) && AppBytes(rs) == handshake + Apply(client.send, 64, plain)
    ensures Handle(p, EncodeRecords(rs), secret, relayDraw, pad, framing, overflowChecks).Some?
    ensures var h := Handle(p, EncodeRecords(rs), secret, relayDraw, pad, framing, overflowChecks).value;
            && h.info == HandshakeInfo(Abs(dc), dc < 0, proto, handshake[8..56]) && h.dc == dc
            && h.msgs != [] && h.msgs[0] == h.init && !Reserved(h.init) && h.init[..56] == relayDraw[..56]
            && TelegramReads(telegram(h.init), h.init, proto, dc, pad)
            && Apply(telegram(h.init).recv, 64, Flatten(h.msgs[1..])) == plain
  {
    var cipher := Apply(client.send, 64, plain);
    HandshakeTaken(p, secret, proto, dc, handshake, cipher, rs, client, overflowChecks);
    var init := InitPacket(RawKs(p, Embedded(relayDraw)), relayDraw, proto, dc, pad);
    var tg := telegram(init);
    InitPacketShows(RawKs(p, Embedded(relayDraw)), relayDraw, proto, dc, pad);
    SameRawKeys(p, init, relayDraw, tg);
    RelayInitRoundTrip(p, relayDraw, dc, proto, pad, tg);
    hide InitPacket, CollectInit, EncodeRecords, AppBytes, SessionReads, ParseHandshake, Apply, RebuiltIndex, UploadMessages,
         Reserved, ClientRecords, Announces, ClientKeys, TelegramKeys;
    KeysOf(p, handshake, secret, client, init, tg);
    ApplySame(client.send, SecretKs(p, Embedded(handshake), secret), 64, plain);
    var a := CollectInit(EncodeRecords(rs), []).value;
    var h := Handle(p, EncodeRecords(rs), secret, relayDraw, pad, framing, overflowChecks).value;
    UploadEndToEnd(framing, proto, init, SecretKs(p, Embedded(handshake), secret), RawKs(p, Embedded(init)), plain,
                   SessionReads(a.pending, a.rest, TLS_MAX_READ));
    ApplySame(tg.recv, RawKs(p, Embedded(init)), 64, Flatten(h.msgs[1..]));
  }

  lemma KeysOf(p: Primitives, handshake: Packet, secret: seq<byte>, client: Session, init: Packet, telegram: Session)
    requires ClientKeys(p, handshake, secret, client) && TelegramKeys(p, init, telegram)
    ensures client.recvPos == 0 == telegram.sendPos
    ensures forall i: nat :: client.send(i) == SecretKs(p, Embedded(handshake), secret)(i)
    ensures forall i: nat :: client.recv(i) == SecretKs(p, Reverse(Embedded(handshake)), secret)(i)
    ensures forall i: nat :: telegram.recv(i) == RawKs(p, Embedded(init))(i)
    ensures forall i: nat :: telegram.send(i) == RawKs(p, Reverse(Embedded(init)))(i)
  {
    SessionKeys(p, handshake, secret);
    SessionKeys(p, init, secret);
    OneSession(p, handshake, secret, client, TelegramSession(p, handshake));
    OneSession(p, init, secret, ClientSession(p, init, secret), telegram);
  }

  // ----- One connection, run ----------------------------------------------

  /** What a connection was served with: which secret, the upload sink and the bytes written back to the client. */
  datatype Served = Served(key: nat, info: HandshakeInfo, dc: I16, init: Packet, sink: Sink, wire: seq<byte>)

  /**
    The client handler and its WebSocket bridge, from the first record after the
    ClientHello on.  `draws` are the random draws, `answer` is what Telegram sends
    once it has seen the relay init.  Either direction may break off: the sink
    takes `capacity` messages, and the `writable`-th write to the client fails.
   */
  method ServeWs(p: Primitives, reader: ByteStream, secrets: seq<seq<byte>>, draws: seq<Packet>, pad: seq<byte>, framing: WsFraming,
                 overflowChecks: bool, answer: Packet -> seq<seq<byte>>, capacity: nat, writable: nat, partial: nat)
    returns (r: Option<Served>, ghost k: nat)
    requires |pad| == 2
    modifies reader
    ensures r.Some? ==> FirstUsable(draws, k) && fresh(r.value.sink) && r.value.key < |secrets| && Matched(p, old(reader.data), secrets, r.value.key)
    ensures r.Some? ==>
              var h := Handle(p, old(reader.data), secrets[r.value.key], draws[k], pad, framing, overflowChecks);
              && h.Some? && h.value.info == r.value.info && h.value.dc == r.value.dc && h.value.init == r.value.init
              && r.value.sink.sent == FirstOf(h.value.msgs, capacity)
    ensures r.Some? ==> SentBack(p, secrets[r.value.key], r.value.info.prekeyIv, r.value.init, answer(r.value.init), writable, r.value.wire)
    ensures r.None? ==>
              || (forall i :: 0 <= i < |draws| ==> Reserved(draws[i]))
              || (forall j :: 0 <= j < |secrets| ==> !Matched(p, old(reader.data), secrets, j))
              || (exists j :: 0 <= j < |secrets| && Matched(p, old(reader.data), secrets, j)
                              && Unindexed(p, old(reader.data), secrets[j], overflowChecks))
  {
    hide InitPacket, CollectInit, ParseHandshake, RebuiltIndex, UploadMessages, SessionReads, Reencrypted, Wire, Apply, Reserved;
    k := 0;
    ghost var data := reader.data;
    var init, pending := AcceptInit(reader);
    if init.None? {
      return None, 0;
    }
    var handshake := init.value[..];
    var key, info := MatchSecret(p, handshake, secrets);
    if key.None? {
      return None, 0;
    }
    var dc := RebuiltIndex(info.value.dcId, info.value.isMedia, overflowChecks);
    assert Matched(p, data, secrets, key.value);
    if dc.None? {
      return None, 0;
    }
    var relay;
    relay, k := GenerateRelayInit(p, info.value.proto, dc.value, draws, pad);
    if relay.None? {
      return None, k;
    }
    var ciphers := new ConnectionCiphers(p, info.value.prekeyIv, secrets[key.value], relay.value);
    var sink := new Sink(capacity);
    var client := new ClientReader(reader, pending);
    var buf := new byte[TLS_MAX_READ];
    var chunks := client.ReadSession(buf);
    UploadWs(chunks, framing, info.value.proto, relay.value, ciphers.cltDec, ciphers.tgEnc, sink);
    var wire := Pump(answer(relay.value), ciphers.tgDec, ciphers.cltEnc, true, writable, partial);
    r := Some(Served(key.value, info.value, dc.value, relay.value, sink, wire));
  }

  /** The init is there, and secret `key` is the first that fits it. */
  ghost predicate Matched(p: Primitives, data: seq<byte>, secrets: seq<seq<byte>>, key: nat) {
    CollectInit(data, []).Some? && FirstMatch(p, CollectInit(data, []).value.init, secrets, key)
  }

  /** The init parses, but its index has no negation in this build. */
  ghost predicate Unindexed(p: Primitives, data: seq<byte>, secret: seq<byte>, overflowChecks: bool) {
    CollectInit(data, []).Some?
    && var info := ParseHandshake(p, CollectInit(data, []).value.init, secret);
       info.Some? && RebuiltIndex(info.value.dcId, info.value.isMedia, overflowChecks).None?
  }

  /** What the client gets back, whole or broken off. */
  ghost predicate SentBack(p: Primitives, secret: seq<byte>, prekeyIv: PrekeyIv, init: Packet, msgs: seq<seq<byte>>, writable: nat, wire: seq<byte>) {
    var all := Reencrypted(RawKs(p, Reverse(Embedded(init))), 0, SecretKs(p, Reverse(prekeyIv), secret), 0, msgs);
    wire <= Wire(true, all) && (writable >= |msgs| ==> wire == Wire(true, all))
  }

  /** Messages cut short decrypt to a prefix of what all of them decrypt to. */
  lemma SentPrefix(ks: Keystream, pos: nat, msgs: seq<seq<byte>>, capacity: nat, plain: seq<byte>)
    requires msgs != [] && Apply(ks, pos, Flatten(msgs[1..])) == plain
    ensures var sent := FirstOf(msgs, capacity);
            && (sent != [] ==> sent[0] == msgs[0] && Apply(ks, pos, Flatten(sent[1..])) <= plain)
            && (|sent| < capacity ==> sent != [] && Apply(ks, pos, Flatten(sent[1..])) == plain)
  {
    hide Apply;
    var sent := FirstOf(msgs, capacity);
    if sent != [] {
      var rest := msgs[|sent|..];
      assert msgs[1..] == sent[1..] + rest;
      FlattenAppend(sent[1..], rest);
      ApplyPrefix(ks, pos, Flatten(sent[1..]), Flatten(msgs[1..]));
    }
    if |sent| < capacity {
      assert sent == msgs;
    }
  }

  lemma AnswerArrives(p: Primitives, secret: seq<byte>, handshake: Packet, client: Session, init: Packet, telegram: Session,
                      msgs: seq<seq<byte>>, writable: nat, wire: seq<byte>, down: seq<byte>)
    requires ClientKeys(p, handshake, secret, client) && TelegramKeys(p, init, telegram)
    requires SentBack(p, secret, Embedded(handshake), init, msgs, writable, wire)
    requires Flatten(msgs) == Apply(telegram.send, 0, down)
    ensures Apply(client.recv, 0, Unwire(true, wire)) <= down
    ensures writable >= |msgs| ==> Apply(client.recv, 0, Unwire(true, wire)) == down
  {
    var up, back := RawKs(p, Reverse(Embedded(init))), SecretKs(p, Reverse(Embedded(handshake)), secret);
    KeysOf(p, handshake, secret, client, init, telegram);
    hide Reencrypted, Wire, Unwire, Apply, ClientKeys, TelegramKeys, SecretKs, RawKs;
    ApplySame(telegram.send, up, 0, down);
    ApplySame(client.recv, back, 0, Unwire(true, wire));
    PumpPrefix(true, up, 0, back, 0, down, msgs, wire);
    PumpEndToEnd(true, up, 0, back, 0, down, msgs);
  }

  /**
    A whole connection, run, both ways, between a client and a Telegram that
    are described by the obfuscation format alone.  Whatever the client sends,
    however it cuts it into records, whatever Telegram answers and wherever
    either direction breaks off: protocol and DC are recovered, Telegram decrypts
    a prefix of the client's plaintext and the client a prefix of Telegram's, and
    all of it in a direction that does not break off.
   */
  method WholeSession(p: Primitives, reader: ByteStream, secrets: seq<seq<byte>>, draws: seq<Packet>, pad: seq<byte>, framing: WsFraming,
                      overflowChecks: bool, answer: Packet -> seq<seq<byte>>, capacity: nat, writable: nat, partial: nat,
                      ghost key: nat, ghost proto: ProtoTag, ghost dc: I16, ghost handshake: Packet, ghost client: Session,
                      ghost telegram: Packet -> Session, ghost plain: seq<byte>, ghost rs: seq<Record>, ghost down: seq<byte>)
    returns (r: Option<Served>)
    requires |pad| == 2 && !(overflowChecks && dc == -0x8000)
    requires exists i :: 0 <= i < |draws| && !Reserved(draws[i])
    requires key < |secrets| && ClientKeys(p, handshake, secrets[key], client) && Announces(client.send, handshake, proto, dc)
    requires forall j :: 0 <= j < key ==> ParseHandshake(p, handshake, secrets[j]).None?
    requires ClientRecords(rs) && AppBytes(rs) == handshake + Apply(client.send, 64, plain) && reader.data == EncodeRecords(rs)
    requires forall init: Packet :: TelegramKeys(p, init, telegram(init)) && Flatten(answer(init)) == Apply(telegram(init).send, 0, down)
    modifies reader
    ensures r.Some? && r.value.key == key && r.value.info == HandshakeInfo(Abs(dc), dc < 0, proto, handshake[8..56]) && r.value.dc == dc
    ensures TelegramReads(telegram(r.value.init), r.value.init, proto, dc, pad) && !Reserved(r.value.init)
    ensures var sent, tg := r.value.sink.sent, telegram(r.value.init);
            && (sent != [] ==> sent[0] == r.value.init && Apply(tg.recv, 64, Flatten(sent[1..])) <= plain)
            && (|sent| < capacity ==> sent != [] && Apply(tg.recv, 64, Flatten(sent[1..])) == plain)
    ensures var got := Unwire(true, r.value.wire);
            && Apply(client.recv, 0, got) <= down
            && (writable >= |answer(r.value.init)| ==> Apply(client.recv, 0, got) == down)
  {
    hide InitPacket, CollectInit, EncodeRecords, AppBytes, ParseHandshake, Apply, RebuiltIndex, UploadMessages, Handle, SentBack,
         ClientRecords, Unwire, FirstOf, ClientKeys, TelegramKeys, Announces, TelegramReads;
    hide Matched, Unindexed;
    ghost var k;
    ghost var secret, data := secrets[key], reader.data;
    OwnSecret(p, secrets, key, proto, dc, handshake, Apply(client.send, 64, plain), rs, client, overflowChecks);
    assert Matched(p, data, secrets, key) && !Unindexed(p, data, secret, overflowChecks);
    r, k := ServeWs(p, reader, secrets, draws, pad, framing, overflowChecks, answer, capacity, writable, partial);
    assert r.Some?;
    assert r.value.key == key && k < |draws|;
    HandledWell(p, secret, proto, dc, client, telegram, draws[k], pad, handshake, plain, rs, framing, overflowChecks);
    ghost var h := Handle(p, EncodeRecords(rs), secret, draws[k], pad, framing, overflowChecks).value;
    SentPrefix(telegram(h.init).recv, 64, h.msgs, capacity, plain);
    AnswerArrives(p, secret, handshake, client, h.init, telegram(h.init), answer(h.init), writable, r.value.wire, down);
  }

  /** The client's own secret is the one that is found, and its index can be rebuilt. */
  lemma OwnSecret(p: Primitives, secrets: seq<seq<byte>>, key: nat, proto: ProtoTag, dc: I16, handshake: Packet, cipher: seq<byte>,
                  rs: seq<Record>, client: Session, overflowChecks: bool)
    requires key < |secrets| && ClientKeys(p, handshake, secrets[key], client) && Announces(client.send, handshake, proto, dc)
    requires forall j :: 0 <= j < key ==> ParseHandshake(p, handshake, secrets[j]).None?
    requires ClientRecords(rs) && AppBytes(rs) == handshake + cipher && !(overflowChecks && dc == -0x8000)
    ensures forall j :: 0 <= j < |secrets| ==> (Matched(p, EncodeRecords(rs), secrets, j) <==> j == key)
    ensures !Unindexed(p, EncodeRecords(rs), secrets[key], overflowChecks)
  {
    HandshakeTaken(p, secrets[key], proto, dc, handshake, cipher, rs, client, overflowChecks);
    hide CollectInit, EncodeRecords, AppBytes, SessionReads, ParseHandshake, RebuiltIndex, ClientRecords, ClientKeys, Announces;
  }

  lemma HandledWell(p: Primitives, secret: seq<byte>, proto: ProtoTag, dc: I16, client: Session, telegram: Packet -> Session,
                    relayDraw: Packet, pad: seq<byte>, handshake: Packet, plain: seq<byte>, rs: seq<Record>,
                    framing: WsFraming, overflowChecks: bool)
    requires |pad| == 2 && !(overflowChecks && dc == -0x8000)
    requires ClientKeys(p, handshake, secret, client) && Announces(client.send, handshake, proto, dc)
    requires ClientRecords(rs) && AppBytes(rs) == handshake + Apply(client.send, 64, plain)
    requires forall init: Packet :: TelegramKeys(p, init, telegram(init))
    ensures Handle(p, EncodeRecords(rs), secret, relayDraw, pad, framing, overflowChecks).Some?
    ensures !Reserved(relayDraw) ==>
              var h := Handle(p, EncodeRecords(rs), secret, relayDraw, pad, framing, overflowChecks).value;
              && h.info == HandshakeInfo(Abs(dc), dc < 0, proto, handshake[8..56]) && h.dc == dc
              && h.msgs != [] && h.msgs[0] == h.init && !Reserved(h.init)
              && TelegramReads(telegram(h.init), h.init, proto, dc, pad)
              && Apply(telegram(h.init).recv, 64, Flatten(h.msgs[1..])) == plain
  {
    hide InitPacket, EncodeRecords, AppBytes, Apply, ClientRecords, Announces, ClientKeys, TelegramKeys, CollectInit, ParseHandshake,
         RebuiltIndex, SessionReads, UploadMessages, Reserved;
    HandshakeTaken(p, secret, proto, dc, handshake, Apply(client.send, 64, plain), rs, client, overflowChecks);
    if !Reserved(relayDraw) {
      SessionEndToEnd(p, secret, proto, dc, client, telegram, relayDraw, pad, handshake, plain, rs, framing, overflowChecks);
    }
  }

}
