/**
  The client side of an inbound FakeTLS session (src/proxy.rs): collecting the
  64-byte MTProto init from Application Data records, keeping what follows it
  in the same record, and reading the rest of the session.
 */
module Inbound {
  import opened Bytes
  import opened Records

  const INIT_LEN := 64

  // ----- Bytes left over from the record that completed the init ----------

  class PendingData {
    var data: seq<byte>
    var offset: nat

    /** Bytes not yet handed out. */
    function Left(): seq<byte>
      reads this
    {
      if offset <= |data| then data[offset..] else []
    }

    constructor (data: seq<byte>, offset: nat)
      ensures this.data == data && this.offset == offset
    {
      this.data, this.offset := data, offset;
    }

    /** Hand out as much as fits; `None` when nothing is left. */
    method Read(buf: array<byte>) returns (r: Option<nat>)
      modifies this, buf
      ensures r.None? <==> old(Left()) == []
      ensures r.None? ==> Left() == [] && buf[..] == old(buf[..])
      ensures r.Some? ==>
                && r.value == Min(buf.Length, |old(Left())|)
                && buf[..r.value] == old(Left())[..r.value]
                && Left() == old(Left())[r.value..]
    {
      if offset > |data| {
        return None;
      }
      var remaining := data[offset..];
      if remaining == [] {
        return None;
      }
      var n := Min(buf.Length, |remaining|);
      forall i | 0 <= i < n {
        buf[i] := remaining[i];
      }
      offset := offset + n;
      assert data[offset..] == remaining[n..];
      if offset == |data| {
        data, offset := [], 0;
      }
      r := Some(n);
    }
  }

  // ----- Collecting the init ----------------------------------------------

  datatype Accepted = Accepted(init: seq<byte>, pending: seq<byte>, rest: seq<byte>)

  /**
    The init collected on top of `filled`, the surplus of the record that
    completed it, and the unread bytes; `None` drops the client.
   */
  function CollectInit(data: seq<byte>, filled: seq<byte>): (r: Option<Accepted>)
    requires |filled| <= INIT_LEN
    ensures r.Some? ==> |r.value.init| == INIT_LEN
    decreases |data|
  {
    if |filled| == INIT_LEN then Some(Accepted(filled, [], data))
    else if NextRecord(data).None? || |NextRecord(data).value.payload| > TLS_MAX_READ then None
    else
      var r := NextRecord(data).value;
      if r.kind == TLS_CHANGE_CIPHER_SPEC then CollectInit(AfterRecord(data), filled)
      else if r.kind != TLS_APPLICATION_DATA || r.payload == [] then None
      else
        var take := Min(|r.payload|, INIT_LEN - |filled|);
        if take < |r.payload| then Some(Accepted(filled + r.payload[..take], r.payload[take..], AfterRecord(data)))
        else CollectInit(AfterRecord(data), filled + r.payload)
  }

  /** A whole record as bytes, header included. */
  method ReadRecordBytes(reader: ByteStream) returns (r: Option<seq<byte>>)
    modifies reader
    ensures r.Some? <==> NextRecord(old(reader.data)).Some? && |NextRecord(old(reader.data)).value.payload| <= TLS_MAX_READ
    ensures r.Some? ==>
              && reader.data == AfterRecord(old(reader.data))
              && |r.value| == 5 + |NextRecord(old(reader.data)).value.payload|
              && r.value[0] == NextRecord(old(reader.data)).value.kind
              && r.value[5..] == NextRecord(old(reader.data)).value.payload
              && r.value == old(reader.data)[..|r.value|]
  {
    ghost var unread := reader.data;
    var header := reader.ReadExact(5);
    if header.None? {
      return None;
    }
    var len := ReadBe16(header.value[3], header.value[4]);
    if len > TLS_MAX_READ {
      return None;
    }
    var payload := reader.ReadExact(len);
    if payload.None? {
      return None;
    }
    assert payload.value == unread[5..5 + len] && reader.data == unread[5 + len..];
    r := Some(header.value + payload.value);
  }

  method AcceptInit(reader: ByteStream) returns (init: Option<array<byte>>, pending: PendingData)
    modifies reader
    ensures fresh(pending) && (init.Some? ==> fresh(init.value) && init.value.Length == INIT_LEN)
    ensures init.Some? <==> CollectInit(old(reader.data), []).Some?
    ensures init.Some? ==>
              CollectInit(old(reader.data), []).value == Accepted(init.value[..], pending.Left(), reader.data)
  {
    var buf := new byte[INIT_LEN](_ => 0);
    var filled := 0;
    assert buf[..0] == [];
    while filled < INIT_LEN
      invariant 0 <= filled <= INIT_LEN
      invariant CollectInit(reader.data, buf[..filled]) == CollectInit(old(reader.data), [])
      decreases |reader.data|, INIT_LEN - filled
    {
      ghost var have := buf[..filled];
      var record := ReadRecordBytes(reader);
      if record.None? {
        pending := new PendingData([], 0);
        return None, pending;
      }
      var len := |record.value| - 5;
      if record.value[0] == TLS_CHANGE_CIPHER_SPEC {
        continue;
      }
      if record.value[0] != TLS_APPLICATION_DATA || len == 0 {
        pending := new PendingData([], 0);
        return None, pending;
      }
      var take := Min(len, INIT_LEN - filled);
      forall i | 0 <= i < take {
        buf[filled + i] := record.value[5 + i];
      }
      assert buf[..filled + take] == have + record.value[5..][..take];
      filled := filled + take;
      if take != len {
        assert buf[..] == buf[..filled];
        pending := new PendingData(record.value, 5 + take);
        assert record.value[5 + take..] == record.value[5..][take..];
        return Some(buf), pending;
      }
      assert record.value[5..][..take] == record.value[5..];
    }
    assert buf[..] == buf[..filled];
    pending := new PendingData([], 0);
    init := Some(buf);
  }

  // ----- The session after the init ---------------------------------------

  /** `s` handed out `size` bytes at a time. */
  function Pieces(s: seq<byte>, size: nat): (r: seq<seq<byte>>)
    requires size > 0
    decreases |s|
  {
    if s == [] then [] else [s[..Min(size, |s|)]] + Pieces(s[Min(size, |s|)..], size)
  }

  lemma {:induction false} PiecesFlatten(s: seq<byte>, size: nat)
    requires size > 0
    ensures Flatten(Pieces(s, size)) == s
    decreases |s|
  {
    if s != [] {
      var n := Min(size, |s|);
      PiecesFlatten(s[n..], size);
      FlattenCons(s[..n], Pieces(s[n..], size));
      assert s == s[..n] + s[n..];
    }
  }

  /** What the reads of a session return: the surplus first, then record by record. */
  function SessionReads(pending: seq<byte>, data: seq<byte>, size: nat): seq<seq<byte>>
    requires size > 0
  {
    Pieces(pending, size) + ReadAll(data, size)
  }

  class ClientReader {
    const reader: ByteStream
    const pending: PendingData

    constructor (reader: ByteStream, pending: PendingData)
      ensures this.reader == reader && this.pending == pending
    {
      this.reader, this.pending := reader, pending;
    }

    method Read(buf: array<byte>) returns (n: nat)
      modifies reader, pending, buf
      ensures n <= buf.Length
      ensures var left := old(pending.Left());
              if left != [] then
                n == Min(buf.Length, |left|) && buf[..n] == left[..n] && pending.Left() == left[n..]
                && reader.data == old(reader.data)
              else
                buf[..n] == NextAppData(old(reader.data), buf.Length).0 && pending.Left() == []
                && (n > 0 ==> reader.data == NextAppData(old(reader.data), buf.Length).1)
    {
      var got := pending.Read(buf);
      if got.Some? {
        return got.value;
      }
      n := ReadTlsAppData(reader, buf);
    }

    /** The read loop of a bridge, up to the empty read that ends it. */
    method ReadSession(buf: array<byte>) returns (chunks: seq<seq<byte>>)
      requires buf.Length > 0
      modifies reader, pending, buf
      ensures chunks == SessionReads(old(pending.Left()), old(reader.data), buf.Length)
    {
      chunks := [];
      ghost var all := SessionReads(pending.Left(), reader.data, buf.Length);
      assert [] + all == all;
      while true
        invariant chunks + SessionReads(pending.Left(), reader.data, buf.Length) == all
        decreases |pending.Left()| + |reader.data|
      {
        ghost var left, data := pending.Left(), reader.data;
        var n := Read(buf);
        if n == 0 {
          assert left == [] && ReadAll(data, buf.Length) == [];
          break;
        }
        SessionStep(left, data, buf.Length);
        assert chunks + ([buf[..n]] + SessionReads(pending.Left(), reader.data, buf.Length))
            == chunks + [buf[..n]] + SessionReads(pending.Left(), reader.data, buf.Length);
        chunks := chunks + [buf[..n]];
      }
    }
  }

  lemma SessionStep(left: seq<byte>, data: seq<byte>, size: nat)
    requires size > 0
    ensures left != [] ==>
              SessionReads(left, data, size)
              == [left[..Min(size, |left|)]] + SessionReads(left[Min(size, |left|)..], data, size)
    ensures left == [] && NextAppData(data, size).0 != [] ==>
              SessionReads(left, data, size)
              == [NextAppData(data, size).0] + SessionReads([], NextAppData(data, size).1, size)
  {
    hide NextAppData;
  }

  // ----- Recovery ---------------------------------------------------------

  /** Records a well-behaved client sends after the ClientHello. */
  predicate ClientRecords(rs: seq<Record>) {
    forall r :: r in rs ==> (r.kind == TLS_CHANGE_CIPHER_SPEC || Carries(r)) && |r.payload| <= TLS_MAX_READ
  }

  /** The init was completed by record `k - 1`: init, surplus and later records make up `all`. */
  ghost predicate CutAt(rs: seq<Record>, a: Accepted, all: seq<byte>, k: nat) {
    && k <= |rs| && a.rest == EncodeRecords(rs[k..]) && |a.init| == INIT_LEN
    && all == a.init + (a.pending + AppBytes(rs[k..]))
  }

  /** One record of the collecting loop. */
  lemma CollectStep(first: Record, tail: seq<byte>, filled: seq<byte>)
    requires (first.kind == TLS_CHANGE_CIPHER_SPEC || Carries(first)) && |first.payload| <= TLS_MAX_READ
    requires |filled| < INIT_LEN
    ensures var take := Min(|first.payload|, INIT_LEN - |filled|);
            CollectInit(EncodeRecord(first) + tail, filled)
            == if first.kind == TLS_CHANGE_CIPHER_SPEC then CollectInit(tail, filled)
               else if take < |first.payload| then
                 Some(Accepted(filled + first.payload[..take], first.payload[take..], tail))
               else CollectInit(tail, filled + first.payload)
  {
    RecordRoundTrip(first, tail);
    hide EncodeRecord, NextRecord, AfterRecord;
  }

  lemma {:induction false} CollectRecords(rs: seq<Record>, filled: seq<byte>) returns (k: nat)
    requires ClientRecords(rs) && |filled| <= INIT_LEN <= |filled| + |AppBytes(rs)|
    ensures CollectInit(EncodeRecords(rs), filled).Some?
    ensures CutAt(rs, CollectInit(EncodeRecords(rs), filled).value, filled + AppBytes(rs), k)
    decreases |rs|
  {
    if |filled| == INIT_LEN {
      assert rs[0..] == rs;
      return 0;
    }
    var first, rest := rs[0], rs[1..];
    assert first in rs && ClientRecords(rest);
    CollectStep(first, EncodeRecords(rest), filled);
    hide EncodeRecord, CollectInit, ClientRecords;
    var take := Min(|first.payload|, INIT_LEN - |filled|);
    var bytes := AppBytes(rest);
    assert AppBytes(rs) == (if first.kind == TLS_CHANGE_CIPHER_SPEC then [] else first.payload) + bytes;
    hide AppBytes;
    Assoc(filled, first.payload, bytes);
    if first.kind == TLS_CHANGE_CIPHER_SPEC {
      assert [] + bytes == bytes;
      k := CollectRecords(rest, filled);
      k := Shift(rs, k);
    } else if take < |first.payload| {
      Assoc(filled, first.payload[..take], first.payload[take..] + bytes);
      Assoc(first.payload[..take], first.payload[take..], bytes);
      assert first.payload == first.payload[..take] + first.payload[take..];
      k := 1;
    } else {
      k := CollectRecords(rest, filled + first.payload);
      k := Shift(rs, k);
    }
  }

  lemma Shift(rs: seq<Record>, k: nat) returns (k': nat)
    requires k < |rs|
    ensures k' == k + 1 && rs[1..][k..] == rs[k'..]
  {
    k' := k + 1;
  }

  /**
    However the client cuts `init ++ payload` into Application Data records, and
    wherever it puts ChangeCipherSpec records, the proxy takes the first 64
    bytes as the init and its session reads are exactly the rest, in order, for
    any size of the reads that hand out the surplus.
   */
  lemma InboundRecovery(rs: seq<Record>, pendingSize: nat, size: nat)
    requires ClientRecords(rs) && |AppBytes(rs)| >= INIT_LEN && pendingSize > 0 && size >= TLS_MAX_READ
    ensures var r := CollectInit(EncodeRecords(rs), []);
            && r.Some?
            && r.value.init == AppBytes(rs)[..INIT_LEN]
            && Flatten(Pieces(r.value.pending, pendingSize) + ReadAll(r.value.rest, size)) == AppBytes(rs)[INIT_LEN..]
  {
    var k := CollectRecords(rs, []);
    var a := CollectInit(EncodeRecords(rs), []).value;
    hide CollectInit, EncodeRecords, AppBytes, ReadAll, ClientRecords, Pieces;
    AllDelivered(rs, k, size);
    SessionFlatten(a.pending, a.rest, pendingSize, size);
    assert [] + AppBytes(rs) == AppBytes(rs);
  }

  lemma AllDelivered(rs: seq<Record>, k: nat, size: nat)
    requires ClientRecords(rs) && k <= |rs| && size >= TLS_MAX_READ
    ensures Flatten(ReadAll(EncodeRecords(rs[k..]), size)) == AppBytes(rs[k..])
  {
    var tail := rs[k..];
    ReadAllRecords(tail, size);
    DeliveredIff(tail, size);
    hide EncodeRecords, ReadAll, AppBytes, Delivered;
    forall i | 0 <= i < |tail| ensures !Stops(tail[i], size) {
      assert tail[i] in rs;
    }
  }

  lemma SessionFlatten(pending: seq<byte>, data: seq<byte>, pendingSize: nat, size: nat)
    requires pendingSize > 0
    ensures Flatten(Pieces(pending, pendingSize) + ReadAll(data, size)) == pending + Flatten(ReadAll(data, size))
  {
    PiecesFlatten(pending, pendingSize);
    FlattenAppend(Pieces(pending, pendingSize), ReadAll(data, size));
  }

  // ----- What is refused --------------------------------------------------

  /** The first `k` records can be read past and hold the rest of the init. */
  ghost predicate Suffices(rs: seq<Record>, have: nat, k: nat) {
    k <= |rs| && (forall i :: 0 <= i < k ==> Passes(rs[i], 16640)) && have + |AppBytes(rs[..k])| >= 64
  }

  lemma SufficesTail(rs: seq<Record>, have: nat, k: nat)
    requires rs != [] && Passes(rs[0], 16640)
    ensures Suffices(rs[1..], have + (if rs[0].kind == 23 then |rs[0].payload| else 0), k) <==> Suffices(rs, have, k + 1)
  {
    var rest := rs[1..];
    if k < |rs| {
      assert rs[..k + 1] == [rs[0]] + rest[..k];
      AppBytesOf(rs[0], rest[..k]);
      hide AppBytes, Passes;
      assert forall i :: 0 <= i < k ==> rest[i] == rs[i + 1];
      assert (forall i :: 0 <= i < k ==> Passes(rest[i], 16640)) ==> forall i :: 0 <= i < k + 1 ==> Passes(rs[i], 16640) by {
        assert forall i :: 1 <= i < k + 1 ==> rs[i] == rest[i - 1];
      }
    }
  }

  lemma SufficesNone(rs: seq<Record>, have: nat, k: nat)
    requires have < 64 && (rs == [] || !Passes(rs[0], 16640))
    ensures !Suffices(rs, have, k)
  {
    assert AppBytes(rs[..0]) == [];
    if k <= |rs| && k > 0 {
      assert rs != [] && !Passes(rs[0], 16640);
    }
  }

  lemma CollectRefuses(first: Record, tail: seq<byte>, filled: seq<byte>)
    requires |filled| < INIT_LEN && !Passes(first, 16640)
    ensures CollectInit(EncodeRecord(first) + tail, filled).None?
  {
    RecordRoundTrip(first, tail);
    hide EncodeRecord, NextRecord, AfterRecord;
  }

  /** From a list of records, an init is collected exactly if 64 bytes come before the first record that cannot be read past. */
  lemma {:induction false} CollectsIff(rs: seq<Record>, filled: seq<byte>)
    requires |filled| <= INIT_LEN
    ensures CollectInit(EncodeRecords(rs), filled).Some? <==> exists k :: Suffices(rs, |filled|, k)
    decreases |rs|
  {
    if |filled| == INIT_LEN {
      SufficesFull(rs, |filled|);
    } else if rs == [] || !Passes(rs[0], 16640) {
      forall k: nat ensures !Suffices(rs, |filled|, k) {
        SufficesNone(rs, |filled|, k);
      }
      if rs != [] {
        CollectRefuses(rs[0], EncodeRecords(rs[1..]), filled);
      }
    } else {
      CollectsMore(rs, filled);
    }
  }

  /** One record that can be read past. */
  lemma CollectOne(rs: seq<Record>, filled: seq<byte>)
    requires |filled| < INIT_LEN && rs != [] && Passes(rs[0], 16640)
    ensures rs[0].kind == 20 || rs[0].kind == 23
    ensures rs[0].kind == 20 ==> CollectInit(EncodeRecords(rs), filled) == CollectInit(EncodeRecords(rs[1..]), filled)
    ensures rs[0].kind == 23 && |filled| + |rs[0].payload| <= INIT_LEN ==>
              CollectInit(EncodeRecords(rs), filled) == CollectInit(EncodeRecords(rs[1..]), filled + rs[0].payload)
    ensures rs[0].kind == 23 && |filled| + |rs[0].payload| > INIT_LEN ==> CollectInit(EncodeRecords(rs), filled).Some?
  {
    CollectStep(rs[0], EncodeRecords(rs[1..]), filled);
    assert EncodeRecords(rs) == EncodeRecord(rs[0]) + EncodeRecords(rs[1..]);
    hide CollectInit, EncodeRecords, EncodeRecord;
  }

  lemma {:induction false} CollectsMore(rs: seq<Record>, filled: seq<byte>)
    requires |filled| < INIT_LEN && rs != [] && Passes(rs[0], 16640)
    ensures CollectInit(EncodeRecords(rs), filled).Some? <==> exists k :: Suffices(rs, |filled|, k)
    decreases |rs|, 0
  {
    hide CollectInit, EncodeRecords, EncodeRecord, Suffices, Passes, AppBytes;
    CollectOne(rs, filled);
    if rs[0].kind == 20 {
      CollectsIff(rs[1..], filled);
      SufficesShift(rs, |filled|, |filled|);
    } else if |filled| + |rs[0].payload| <= INIT_LEN {
      CollectsIff(rs[1..], filled + rs[0].payload);
      SufficesShift(rs, |filled|, |filled + rs[0].payload|);
    } else {
      SufficesFull(rs[1..], |filled| + |rs[0].payload|);
      SufficesShift(rs, |filled|, |filled| + |rs[0].payload|);
    }
  }

  lemma SufficesFull(rs: seq<Record>, have: nat)
    requires have >= 64
    ensures Suffices(rs, have, 0)
  {
    assert AppBytes(rs[..0]) == [];
  }

  lemma SufficesAtZero(rs: seq<Record>, have: nat)
    requires have < 64
    ensures !Suffices(rs, have, 0)
  {
    assert AppBytes(rs[..0]) == [];
  }

  lemma SufficesShift(rs: seq<Record>, have: nat, more: nat)
    requires rs != [] && Passes(rs[0], 16640) && have < 64 && more == have + if rs[0].kind == 23 then |rs[0].payload| else 0
    ensures (exists k :: Suffices(rs[1..], more, k)) <==> exists k :: Suffices(rs, have, k)
  {
    hide Suffices, Passes;
    forall k: nat | Suffices(rs[1..], more, k) ensures exists i :: Suffices(rs, have, i) {
      SufficesTail(rs, have, k);
      assert Suffices(rs, have, k + 1);
    }
    forall k: nat | Suffices(rs, have, k) ensures exists i :: Suffices(rs[1..], more, i) {
      SufficesAtZero(rs, have);
      SufficesTail(rs, have, k - 1);
      assert Suffices(rs[1..], more, k - 1);
    }
  }
}
