/**
  TLS records (sections 5.1 and 5.2 of RFC 8446) as the FakeTLS paths read and
  write them (src/faketls.rs).
 */
module Records {
  import opened Bytes

  const TLS_HANDSHAKE: byte := 0x16
  const TLS_CHANGE_CIPHER_SPEC: byte := 0x14
  const TLS_APPLICATION_DATA: byte := 0x17
  const TLS_MAX_RECORD_PAYLOAD := 16384
  /** Largest record a reader accepts: a full payload and the AEAD expansion. */
  const TLS_MAX_READ := TLS_MAX_RECORD_PAYLOAD + 256
  const TLS_MAX_HANDSHAKE_RECORDS := 20

  // ----- The wire format --------------------------------------------------

  datatype RawRecord = Record(kind: byte, version: seq<byte>, payload: seq<byte>)

  type Record = r: RawRecord | |r.version| == 2 && |r.payload| < 0x1_0000 witness Record(0, [0, 0], [])

  const VERSION_12: seq<byte> := [0x03, 0x03]

  function Header(r: Record): (h: seq<byte>)
    ensures |h| == 5
  {
    [r.kind] + r.version + Be16(|r.payload|)
  }

  function EncodeRecord(r: Record): seq<byte> { Header(r) + r.payload }

  function EncodeRecords(rs: seq<Record>): (b: seq<byte>) {
    if rs == [] then [] else EncodeRecord(rs[0]) + EncodeRecords(rs[1..])
  }

  lemma {:induction false} EncodeRecordsAppend(a: seq<Record>, b: seq<Record>)
    ensures EncodeRecords(a + b) == EncodeRecords(a) + EncodeRecords(b)
  {
    hide EncodeRecord;
    if a == [] {
      assert a + b == b;
    } else {
      EncodeRecordsAppend(a[1..], b);
      assert (a + b)[1..] == a[1..] + b;
    }
  }

  /** Payload length announced by a record header. */
  function AnnouncedLen(data: seq<byte>): nat
    requires |data| >= 5
  {
    ReadBe16(data[3], data[4])
  }

  /** The record at the front of `data`, if it is all there. */
  function NextRecord(data: seq<byte>): (r: Option<Record>) {
    if |data| < 5 || |data| < 5 + AnnouncedLen(data) then None
    else Some(Record(data[0], data[1..3], data[5..5 + AnnouncedLen(data)]))
  }

  function AfterRecord(data: seq<byte>): seq<byte>
    requires NextRecord(data).Some?
  {
    data[5 + AnnouncedLen(data)..]
  }

  lemma RecordRoundTrip(r: Record, tail: seq<byte>)
    ensures NextRecord(EncodeRecord(r) + tail) == Some(r)
    ensures AfterRecord(EncodeRecord(r) + tail) == tail
    ensures |EncodeRecord(r) + tail| >= 5 && AnnouncedLen(EncodeRecord(r) + tail) == |r.payload|
    ensures (EncodeRecord(r) + tail)[0] == r.kind && (EncodeRecord(r) + tail)[1..3] == r.version
    ensures (EncodeRecord(r) + tail)[3] == |r.payload| / 256 && (EncodeRecord(r) + tail)[4] == |r.payload| % 256
    ensures (EncodeRecord(r) + tail)[5..] == r.payload + tail
  {
    var d := EncodeRecord(r) + tail;
    assert d[..5] == Header(r);
    assert d[3] == Be16(|r.payload|)[0] && d[4] == Be16(|r.payload|)[1];
    assert d[1..3] == r.version;
    assert d[5..5 + |r.payload|] == r.payload && d[5 + |r.payload|..] == tail;
  }

  /** A connection's unread bytes. */
  class ByteStream {
    var data: seq<byte>

    constructor (data: seq<byte>)
      ensures this.data == data
    {
      this.data := data;
    }

    /** All `n` bytes, or nothing once the stream ends first. */
    method ReadExact(n: nat) returns (r: Option<seq<byte>>)
      modifies this
      ensures |old(data)| >= n ==> r == Some(old(data)[..n]) && data == old(data)[n..]
      ensures |old(data)| < n ==> r == None && data == []
    {
      if |data| < n {
        data := [];
        return None;
      }
      r := Some(data[..n]);
      data := data[n..];
    }
  }

  // ----- Reading Application Data -----------------------------------------

  /**
    What one read returns from the unread bytes: the payload of the next
    Application Data record, skipping ChangeCipherSpec; empty means "session
    over" to every caller.
   */
  function NextAppData(data: seq<byte>, cap: nat): (r: (seq<byte>, seq<byte>))
    ensures |r.1| <= |data|
    ensures r.0 != [] ==> |r.1| < |data|
    decreases |data|
  {
    if |data| < 5 || AnnouncedLen(data) > cap || |data| < 5 + AnnouncedLen(data) then ([], [])
    else if data[0] == TLS_APPLICATION_DATA then (NextRecord(data).value.payload, AfterRecord(data))
    else if data[0] == TLS_CHANGE_CIPHER_SPEC then NextAppData(AfterRecord(data), cap)
    else ([], [])
  }

  method CopyInto(buf: array<byte>, data: seq<byte>)
    requires |data| <= buf.Length
    modifies buf
    ensures buf[..|data|] == data && buf[|data|..] == old(buf[|data|..])
  {
    forall i | 0 <= i < |data| {
      buf[i] := data[i];
    }
  }

  /** One read into `buf`: the payload length, `0` at the end of the session. */
  method ReadTlsAppData(reader: ByteStream, buf: array<byte>) returns (n: nat)
    modifies reader, buf
    ensures n <= buf.Length && buf[..n] == NextAppData(old(reader.data), buf.Length).0
    ensures n > 0 ==> reader.data == NextAppData(old(reader.data), buf.Length).1
  {
    while true
      invariant NextAppData(reader.data, buf.Length) == NextAppData(old(reader.data), buf.Length)
      decreases |reader.data|
    {
      ghost var unread := reader.data;
      var header := reader.ReadExact(5);
      if header.None? {
        return 0;
      }
      assert header.value[0] == unread[0] && header.value[3] == unread[3] && header.value[4] == unread[4];
      var len := ReadBe16(header.value[3], header.value[4]);
      if len > buf.Length {
        return 0;
      }
      if header.value[0] != TLS_APPLICATION_DATA && header.value[0] != TLS_CHANGE_CIPHER_SPEC {
        return 0;
      }
      var payload := reader.ReadExact(len);
      if payload.None? {
        return 0;
      }
      assert payload.value == unread[5..5 + len] && reader.data == unread[5 + len..];
      CopyInto(buf, payload.value);
      if header.value[0] == TLS_APPLICATION_DATA {
        return len;
      }
    }
  }

  /** Everything a session reads until the first empty read. */
  function ReadAll(data: seq<byte>, cap: nat): (r: seq<seq<byte>>)
    decreases |data|
  {
    var (payload, rest) := NextAppData(data, cap);
    if payload == [] then [] else [payload] + ReadAll(rest, cap)
  }

  // ----- What that means for the records sent -----------------------------

  /** A record after which nothing more is delivered. */
  predicate Stops(r: Record, cap: nat) {
    || |r.payload| > cap
    || (r.kind == TLS_APPLICATION_DATA && r.payload == [])
    || (r.kind != TLS_APPLICATION_DATA && r.kind != TLS_CHANGE_CIPHER_SPEC)
  }

  predicate Carries(r: Record) { r.kind == TLS_APPLICATION_DATA && r.payload != [] }

  function Delivered(rs: seq<Record>, cap: nat): seq<seq<byte>> {
    if rs == [] || Stops(rs[0], cap) then []
    else (if Carries(rs[0]) then [rs[0].payload] else []) + Delivered(rs[1..], cap)
  }

  /** The application bytes a peer put into these records. */
  function AppBytes(rs: seq<Record>): seq<byte> {
    if rs == [] then [] else (if Carries(rs[0]) then rs[0].payload else []) + AppBytes(rs[1..])
  }

  /** Application bytes are the payloads of Application Data records. */
  lemma AppBytesOf(r: Record, rs: seq<Record>)
    ensures AppBytes([r] + rs) == (if r.kind == 23 then r.payload else []) + AppBytes(rs)
  {
    assert ([r] + rs)[1..] == rs;
    assert AppBytes([r] + rs) == (if Carries(r) then r.payload else []) + AppBytes(rs);
  }

  /** A record a session reads past: Application Data, or a ChangeCipherSpec, that fits. */
  ghost predicate Passes(r: Record, cap: nat) { |r.payload| <= cap && (r.kind == 20 || (r.kind == 23 && r.payload != [])) }

  /** A session delivers what comes before the first record that it cannot read past. */
  lemma {:induction false} DeliveredUpTo(rs: seq<Record>, cap: nat, n: nat)
    requires n <= |rs| && (forall i :: 0 <= i < n ==> Passes(rs[i], cap)) && (n < |rs| ==> !Passes(rs[n], cap))
    ensures Flatten(Delivered(rs, cap)) == AppBytes(rs[..n])
    decreases n
  {
    if n > 0 {
      var rest := rs[1..];
      assert Passes(rs[0], cap);
      assert forall i :: 0 <= i < n - 1 ==> rest[i] == rs[i + 1];
      DeliveredUpTo(rest, cap, n - 1);
      assert rs[..n][1..] == rest[..n - 1];
      FlattenCons(rs[0].payload, Delivered(rest, cap));
      assert [] + Delivered(rest, cap) == Delivered(rest, cap);
    }
  }

  lemma {:induction false} NextAppDataOf(rs: seq<Record>, cap: nat)
    ensures var (payload, rest) := NextAppData(EncodeRecords(rs), cap);
            if Delivered(rs, cap) == [] then payload == []
            else exists k :: 0 < k <= |rs| && Delivered(rs, cap) == [payload] + Delivered(rs[k..], cap)
                             && rest == EncodeRecords(rs[k..]) && payload != []
    decreases |rs|
  {
    if rs != [] {
      var tail := EncodeRecords(rs[1..]);
      RecordRoundTrip(rs[0], tail);
      hide EncodeRecord, NextRecord, AfterRecord, AnnouncedLen;
      if !Stops(rs[0], cap) {
        if Carries(rs[0]) {
          assert Delivered(rs, cap) == [rs[0].payload] + Delivered(rs[1..], cap);
        } else {
          NextAppDataOf(rs[1..], cap);
          assert [] + Delivered(rs[1..], cap) == Delivered(rs[1..], cap);
          if Delivered(rs, cap) != [] {
            var (payload, rest) := NextAppData(tail, cap);
            var k :| 0 < k <= |rs[1..]| && Delivered(rs[1..], cap) == [payload] + Delivered(rs[1..][k..], cap)
                     && rest == EncodeRecords(rs[1..][k..]) && payload != [];
            assert rs[1..][k..] == rs[k + 1..];
          }
        }
      }
    }
  }

  /** For every list of records, of any type and length, the reads are exactly `Delivered`. */
  lemma {:induction false} ReadAllRecords(rs: seq<Record>, cap: nat)
    ensures ReadAll(EncodeRecords(rs), cap) == Delivered(rs, cap)
    decreases |rs|
  {
    NextAppDataOf(rs, cap);
    hide NextAppData, EncodeRecords;
    if Delivered(rs, cap) != [] {
      var (payload, rest) := NextAppData(EncodeRecords(rs), cap);
      var k :| 0 < k <= |rs| && Delivered(rs, cap) == [payload] + Delivered(rs[k..], cap)
               && rest == EncodeRecords(rs[k..]) && payload != [];
      ReadAllRecords(rs[k..], cap);
    }
  }

  /** A stopping record with application bytes in it or after it. */
  ghost predicate Loses(rs: seq<Record>, cap: nat) {
    exists i, j :: 0 <= i <= j < |rs| && Stops(rs[i], cap) && Carries(rs[j])
  }

  lemma {:induction false} AppBytesEmpty(rs: seq<Record>)
    ensures AppBytes(rs) == [] <==> forall j :: 0 <= j < |rs| ==> !Carries(rs[j])
  {
    if rs != [] {
      AppBytesEmpty(rs[1..]);
      assert forall j :: 0 <= j < |rs[1..]| ==> rs[1..][j] == rs[j + 1];
      if AppBytes(rs) == [] {
        forall j | 0 <= j < |rs| ensures !Carries(rs[j]) {
          if j > 0 { assert rs[j] == rs[1..][j - 1]; }
        }
      }
    }
  }

  /** The session delivers all application bytes exactly when no record stops it early. */
  lemma {:induction false} DeliveredIff(rs: seq<Record>, cap: nat)
    ensures Flatten(Delivered(rs, cap)) == AppBytes(rs) <==> !Loses(rs, cap)
    decreases |rs|
  {
    if rs != [] {
      if Stops(rs[0], cap) {
        AppBytesEmpty(rs);
      } else {
        var rest := rs[1..];
        DeliveredIff(rest, cap);
        FlattenCons(rs[0].payload, Delivered(rest, cap));
        assert [] + Delivered(rest, cap) == Delivered(rest, cap);
        var head := if Carries(rs[0]) then rs[0].payload else [];
        assert Flatten(Delivered(rs, cap)) == head + Flatten(Delivered(rest, cap));
        assert AppBytes(rs) == head + AppBytes(rest);
        SamePrefix(head, Flatten(Delivered(rest, cap)), AppBytes(rest));
        LosesTail(rs, cap);
      }
    }
  }

  lemma SamePrefix(head: seq<byte>, a: seq<byte>, b: seq<byte>)
    ensures head + a == head + b <==> a == b
  {
    if head + a == head + b {
      assert a == (head + a)[|head|..] && b == (head + b)[|head|..];
    }
  }

  lemma LosesTail(rs: seq<Record>, cap: nat)
    requires rs != [] && !Stops(rs[0], cap)
    ensures Loses(rs, cap) <==> Loses(rs[1..], cap)
  {
    var rest := rs[1..];
    if Loses(rs, cap) {
      var i, j :| 0 <= i <= j < |rs| && Stops(rs[i], cap) && Carries(rs[j]);
      assert Stops(rest[i - 1], cap) && Carries(rest[j - 1]);
    }
    if Loses(rest, cap) {
      var i, j :| 0 <= i <= j < |rest| && Stops(rest[i], cap) && Carries(rest[j]);
      assert Stops(rs[i + 1], cap) && Carries(rs[j + 1]);
    }
  }

  // ----- Writing Application Data -----------------------------------------

  /** `data` cut into full records. */
  function AppRecords(data: seq<byte>): (rs: seq<Record>)
    decreases |data|
  {
    if data == [] then []
    else
      var n := Min(TLS_MAX_RECORD_PAYLOAD, |data|);
      [Record(TLS_APPLICATION_DATA, VERSION_12, data[..n])] + AppRecords(data[n..])
  }

  predicate Writable(r: Record) { Carries(r) && |r.payload| <= TLS_MAX_RECORD_PAYLOAD && r.version == VERSION_12 }

  lemma {:induction false} AppRecordsCarry(data: seq<byte>)
    ensures AppBytes(AppRecords(data)) == data
    ensures forall r :: r in AppRecords(data) ==> Writable(r)
    ensures forall r :: r in AppRecords(data) ==> r.kind == 23 && r.version == [3, 3] && 1 <= |r.payload| <= 16384
    ensures forall i :: 0 <= i < |AppRecords(data)| - 1 ==> |AppRecords(data)[i].payload| == 16384
    decreases |data|
  {
    if data != [] {
      var n := Min(TLS_MAX_RECORD_PAYLOAD, |data|);
      AppRecordsCarry(data[n..]);
      assert AppRecords(data)[1..] == AppRecords(data[n..]);
      assert data == data[..n] + data[n..];
    }
  }

  /** Header and payload of the record that `data[offset..end]` becomes. */
  lemma AppRecordsStep(data: seq<byte>, offset: nat)
    requires offset < |data|
    ensures var end := Min(offset + TLS_MAX_RECORD_PAYLOAD, |data|);
            var n := end - offset;
            EncodeRecords(AppRecords(data[offset..]))
            == [TLS_APPLICATION_DATA, 0x03, 0x03, n / 0x100, n % 0x100] + data[offset..end] + EncodeRecords(AppRecords(data[end..]))
  {
    var end := Min(offset + TLS_MAX_RECORD_PAYLOAD, |data|);
    var r: Record := Record(TLS_APPLICATION_DATA, VERSION_12, data[offset..end]);
    var rest := AppRecords(data[end..]);
    assert data[offset..][..end - offset] == data[offset..end] && data[offset..][end - offset..] == data[end..];
    assert AppRecords(data[offset..]) == [r] + rest;
    assert ([r] + rest)[1..] == rest;
  }

  method WriteTlsAppData(writer: seq<byte>, data: seq<byte>) returns (out: seq<byte>)
    ensures out == writer + EncodeRecords(AppRecords(data))
  {
    out := writer;
    var offset := 0;
    assert data[0..] == data && EncodeRecords(AppRecords([])) == [];
    hide AppRecords, EncodeRecords;
    while offset < |data|
      invariant 0 <= offset <= |data|
      invariant out + EncodeRecords(AppRecords(data[offset..])) == writer + EncodeRecords(AppRecords(data))
    {
      AppRecordsStep(data, offset);
      var end := Min(offset + TLS_MAX_RECORD_PAYLOAD, |data|);
      var chunk := data[offset..end];
      var hdr: seq<byte> := [TLS_APPLICATION_DATA, 0x03, 0x03, |chunk| / 0x100, |chunk| % 0x100];
      ghost var rest := EncodeRecords(AppRecords(data[end..]));
      Assoc(out, hdr + chunk, rest);
      Assoc(out, hdr, chunk);
      out := out + hdr + chunk;
      offset := end;
    }
    assert data[offset..] == [] && out + [] == out;
  }

  /** The records of several writes in a row. */
  function WrittenRecords(writes: seq<seq<byte>>): (rs: seq<Record>) {
    if writes == [] then [] else AppRecords(writes[0]) + WrittenRecords(writes[1..])
  }

  lemma {:induction false} AppBytesAppend(a: seq<Record>, b: seq<Record>)
    ensures AppBytes(a + b) == AppBytes(a) + AppBytes(b)
  {
    hide Carries;
    if a == [] {
      assert a + b == b;
    } else {
      AppBytesAppend(a[1..], b);
      assert (a + b)[1..] == a[1..] + b;
      Assoc(if Carries(a[0]) then a[0].payload else [], AppBytes(a[1..]), AppBytes(b));
    }
  }

  lemma {:induction false} WrittenRecordsCarry(writes: seq<seq<byte>>)
    ensures AppBytes(WrittenRecords(writes)) == Flatten(writes)
    ensures forall r :: r in WrittenRecords(writes) ==> Writable(r)
  {
    if writes != [] {
      WrittenRecordsCarry(writes[1..]);
      AppRecordsCarry(writes[0]);
      AppBytesAppend(AppRecords(writes[0]), WrittenRecords(writes[1..]));
    }
  }

  /** Any sequence of writes, read back by any reader that takes a full record, is the data written. */
  lemma WriteReadRoundTrip(writes: seq<seq<byte>>, cap: nat)
    requires cap >= TLS_MAX_RECORD_PAYLOAD
    ensures Flatten(ReadAll(EncodeRecords(WrittenRecords(writes)), cap)) == Flatten(writes)
  {
    var rs := WrittenRecords(writes);
    WrittenRecordsCarry(writes);
    ReadAllRecords(rs, cap);
    DeliveredIff(rs, cap);
    hide EncodeRecords, WrittenRecords, Delivered, AppBytes, ReadAll;
    forall i | 0 <= i < |rs| ensures !Stops(rs[i], cap) {
      assert rs[i] in rs;
    }
  }

  /** Less than a whole record delivers nothing. */
  lemma TornRecord(r: Record, n: nat, cap: nat)
    requires n < |EncodeRecord(r)|
    ensures NextAppData(EncodeRecord(r)[..n], cap).0 == []
  {
    var whole := EncodeRecord(r);
    if n >= 5 {
      RecordRoundTrip(r, []);
      assert whole + [] == whole;
      assert whole[..n][3] == whole[3] && whole[..n][4] == whole[4];
    }
  }

  lemma WholeRecord(r: Record, tail: seq<byte>, cap: nat)
    requires Writable(r) && cap >= TLS_MAX_RECORD_PAYLOAD
    ensures ReadAll(EncodeRecord(r) + tail, cap) == [r.payload] + ReadAll(tail, cap)
  {
    RecordRoundTrip(r, tail);
    assert |EncodeRecord(r)| == 5 + |r.payload|;
    hide EncodeRecord, NextRecord, AfterRecord, AnnouncedLen;
    assert NextAppData(EncodeRecord(r) + tail, cap) == (r.payload, tail);
  }

  /** A writer cut off anywhere: the reader has delivered a prefix of the data. */
  lemma {:induction false} CutRecords(rs: seq<Record>, n: nat, cap: nat)
    requires (forall r :: r in rs ==> Writable(r)) && cap >= TLS_MAX_RECORD_PAYLOAD && n <= |EncodeRecords(rs)|
    ensures Flatten(ReadAll(EncodeRecords(rs)[..n], cap)) <= AppBytes(rs)
    decreases |rs|
  {
    if rs == [] {
      assert EncodeRecords(rs)[..n] == [];
    } else {
      var first, rest := EncodeRecord(rs[0]), EncodeRecords(rs[1..]);
      assert rs[0] in rs;
      if n < |first| {
        assert (first + rest)[..n] == first[..n];
        TornRecord(rs[0], n, cap);
      } else {
        var m := n - |first|;
        assert forall r :: r in rs[1..] ==> r in rs;
        CutRecords(rs[1..], m, cap);
        assert (first + rest)[..n] == first + rest[..m];
        hide EncodeRecord, EncodeRecords;
        WholeRecord(rs[0], rest[..m], cap);
        FlattenCons(rs[0].payload, ReadAll(rest[..m], cap));
        hide ReadAll, Flatten;
        assert AppBytes(rs) == rs[0].payload + AppBytes(rs[1..]);
      }
    }
  }

  // ----- Draining the server's fake handshake -----------------------------

  /** Unread bytes after the fake handshake, `None` when it is not one. */
  function Drain(data: seq<byte>, rounds: nat): (r: Option<seq<byte>>) {
    if rounds == 0 || NextRecord(data).None? then None
    else
      var r := NextRecord(data).value;
      if r.version != VERSION_12 || |r.payload| > TLS_MAX_READ then None
      else if r.kind == TLS_APPLICATION_DATA then Some(AfterRecord(data))
      else if r.kind == TLS_HANDSHAKE || r.kind == TLS_CHANGE_CIPHER_SPEC then Drain(AfterRecord(data), rounds - 1)
      else None
  }

  method DrainServerHello(reader: ByteStream) returns (ok: bool)
    modifies reader
    ensures ok <==> Drain(old(reader.data), TLS_MAX_HANDSHAKE_RECORDS).Some?
    ensures ok ==> reader.data == Drain(old(reader.data), TLS_MAX_HANDSHAKE_RECORDS).value
  {
    var round := 0;
    while round < TLS_MAX_HANDSHAKE_RECORDS
      invariant 0 <= round <= TLS_MAX_HANDSHAKE_RECORDS
      invariant Drain(reader.data, TLS_MAX_HANDSHAKE_RECORDS - round) == Drain(old(reader.data), TLS_MAX_HANDSHAKE_RECORDS)
    {
      ghost var unread := reader.data;
      var header := reader.ReadExact(5);
      if header.None? {
        return false;
      }
      assert header.value[1..3] == unread[1..3];
      var len := ReadBe16(header.value[3], header.value[4]);
      if header.value[1..3] != VERSION_12 || len > TLS_MAX_READ {
        return false;
      }
      var payload := reader.ReadExact(len);
      if payload.None? {
        return false;
      }
      assert reader.data == AfterRecord(unread);
      if header.value[0] == TLS_APPLICATION_DATA {
        return true;
      }
      if header.value[0] != TLS_HANDSHAKE && header.value[0] != TLS_CHANGE_CIPHER_SPEC {
        return false;
      }
      round := round + 1;
    }
    return false;
  }

  /** The same on records: how many are consumed. */
  function DrainedRecords(rs: seq<Record>, rounds: nat): (n: Option<nat>)
    ensures n.Some? ==> n.value <= |rs|
  {
    if rounds == 0 || rs == [] || rs[0].version != VERSION_12 || |rs[0].payload| > TLS_MAX_READ then None
    else if rs[0].kind == TLS_APPLICATION_DATA then Some(1)
    else if rs[0].kind == TLS_HANDSHAKE || rs[0].kind == TLS_CHANGE_CIPHER_SPEC then
      match DrainedRecords(rs[1..], rounds - 1)
      case None => None
      case Some(n) => Some(n + 1)
    else None
  }

  /** For every list of records: the drain stops right after the first Application Data record, or fails. */
  lemma {:induction false} DrainRecords(rs: seq<Record>, tail: seq<byte>, rounds: nat)
    requires DrainedRecords(rs, rounds).Some?
    ensures Drain(EncodeRecords(rs) + tail, rounds)
         == Some(EncodeRecords(rs[DrainedRecords(rs, rounds).value..]) + tail)
    decreases rounds
  {
    var after := EncodeRecords(rs[1..]) + tail;
    RecordRoundTrip(rs[0], after);
    hide EncodeRecord, NextRecord, AfterRecord;
    assert EncodeRecords(rs) + tail == EncodeRecord(rs[0]) + after;
    if rs[0].kind != TLS_APPLICATION_DATA {
      DrainRecords(rs[1..], tail, rounds - 1);
      var n := DrainedRecords(rs[1..], rounds - 1).value;
      assert rs[1..][n..] == rs[n + 1..];
    }
  }

  /** Record `k` is the first Application Data record, within the first twenty, after nothing but handshake records of TLS 1.2. */
  ghost predicate EndsHandshake(rs: seq<Record>, rounds: nat, k: int) {
    && 0 <= k < |rs| && k < rounds && rs[k].kind == 23
    && (forall i :: 0 <= i < k ==> rs[i].kind == 20 || rs[i].kind == 22)
    && forall i :: 0 <= i <= k ==> rs[i].version == [3, 3] && |rs[i].payload| <= 16640
  }

  /** The drain succeeds exactly on such a handshake, and takes that record as its last. */
  lemma {:induction false} DrainsIff(rs: seq<Record>, rounds: nat, k: nat)
    ensures DrainedRecords(rs, rounds) == Some(k + 1) <==> EndsHandshake(rs, rounds, k)
    decreases |rs|
  {
    if rs != [] && rounds > 0 && k > 0 {
      var rest := rs[1..];
      DrainsIff(rest, rounds - 1, k - 1);
      if EndsHandshake(rs, rounds, k) {
        assert forall i :: 0 <= i < |rest| ==> rest[i] == rs[i + 1];
      }
      if EndsHandshake(rest, rounds - 1, k - 1) && rs[0].version == [3, 3] && |rs[0].payload| <= 16640 && rs[0].kind in {20, 22} {
        forall i | 0 <= i <= k ensures rs[i].version == [3, 3] && |rs[i].payload| <= 16640 && (i < k ==> rs[i].kind == 20 || rs[i].kind == 22) {
          if i > 0 {
            assert rs[i] == rest[i - 1];
          }
        }
        assert rs[k] == rest[k - 1];
      }
    }
  }
}
