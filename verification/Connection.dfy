/** An inbound FakeTLS connection from its first byte on (src/proxy.rs, `accept_inbound_faketls` and the client handler). */
module Connection {
  import opened Bytes
  import opened Ctr
  import opened Framing
  import opened Crypto
  import opened Records
  import opened Inbound
  import opened Bridge
  import Hello
  import opened HelloWire

  // ----- The greeting -----------------------------------------------------

  /** Secret `k` is the first that authenticates the record. */
  ghost predicate FirstHello(p: Primitives, record: seq<byte>, secrets: seq<seq<byte>>, k: nat) {
    && k < |secrets| && Hello.ParseClientHello(p, record, secrets[k]).Some?
    && forall j :: 0 <= j < k ==> Hello.ParseClientHello(p, record, secrets[j]).None?
  }

  method MatchHello(p: Primitives, record: seq<byte>, secrets: seq<seq<byte>>) returns (k: Option<nat>, hello: Option<Hello.ClientHello>)
    ensures k.Some? ==> FirstHello(p, record, secrets, k.value) && hello == Hello.ParseClientHello(p, record, secrets[k.value])
    ensures k.None? ==> hello.None? && forall j :: 0 <= j < |secrets| ==> Hello.ParseClientHello(p, record, secrets[j]).None?
  {
    hide Hello.ParseClientHello;
    var i := 0;
    while i < |secrets|
      invariant 0 <= i <= |secrets| && forall j :: 0 <= j < i ==> Hello.ParseClientHello(p, record, secrets[j]).None?
    {
      hello := Hello.ParseClientHello(p, record, secrets[i]);
      if hello.Some? {
        return Some(i), hello;
      }
      i := i + 1;
    }
    return None, None;
  }

  /** The record at the front of the stream, header included. */
  ghost function FirstRecord(data: seq<byte>): seq<byte>
    requires NextRecord(data).Some?
  {
    data[..5 + |NextRecord(data).value.payload|]
  }

  /** The stream starts with a ClientHello for `domain`, and `k` is the first secret that authenticates it. */
  ghost predicate Welcome(p: Primitives, data: seq<byte>, secrets: seq<seq<byte>>, domain: seq<byte>, k: nat) {
    && NextRecord(data).Some? && |NextRecord(data).value.payload| <= 16640 && data[..3] == [22, 3, 1]
    && FirstHello(p, FirstRecord(data), secrets, k)
    && Hello.ParseClientHello(p, FirstRecord(data), secrets[k]).value.host == Some(domain)
  }

  lemma OneWelcome(p: Primitives, data: seq<byte>, secrets: seq<seq<byte>>, domain: seq<byte>, j: nat, k: nat)
    requires Welcome(p, data, secrets, domain, j)
    requires NextRecord(data).Some? && FirstHello(p, FirstRecord(data), secrets, k)
    ensures j == k
  {
    hide Hello.ParseClientHello;
  }

  lemma HelloShape(p: Primitives, record: seq<byte>, secret: seq<byte>)
    requires Hello.ParseClientHello(p, record, secret).Some?
    ensures var h := Hello.ParseClientHello(p, record, secret).value; |h.sessionId| < 0x100 && |h.suite| == 2 && |h.random| == 32
  {
    AcceptedIsSigned(p, record, secret);
    BodyReads(record[9..], record[11..43], p.utf8);
    hide Hello.ParseClientHello, Hello.ParseBody;
  }

  datatype Greeting = Greeting(key: nat, hello: Hello.ClientHello, answer: seq<byte>)

  /**
    Answer a ClientHello: it is answered exactly if the first record is a TLS 1.0
    handshake record that one of the secrets authenticates, and it names the
    expected domain.
   */
  method Greet(p: Primitives, reader: ByteStream, secrets: seq<seq<byte>>, domain: seq<byte>, keyShare: seq<byte>, cert: seq<byte>)
    returns (r: Option<Greeting>)
    requires |keyShare| == 32 && |cert| <= 16640
    modifies reader
    ensures r.Some? <==> exists k :: Welcome(p, old(reader.data), secrets, domain, k)
    ensures r.Some? ==>
              && Welcome(p, old(reader.data), secrets, domain, r.value.key)
              && Some(r.value.hello) == Hello.ParseClientHello(p, FirstRecord(old(reader.data)), secrets[r.value.key])
              && |r.value.hello.sessionId| < 0x100 && |r.value.hello.suite| == 2
              && r.value.answer == Hello.ServerHello(p, secrets[r.value.key], r.value.hello, keyShare, cert)
              && reader.data == AfterRecord(old(reader.data))
  {
    hide Hello.ParseClientHello, Hello.ServerHello, AnnouncedLen;
    ghost var data := reader.data;
    var record := ReadRecordBytes(reader);
    if record.None? {
      return None;
    }
    assert record.value == FirstRecord(data);
    assert record.value[..3] == data[..3];
    if record.value[..3] != [22, 3, 1] {
      return None;
    }
    var k, hello := MatchHello(p, record.value, secrets);
    if k.None? {
      return None;
    }
    if hello.value.host != Some(domain) {
      forall j: nat ensures !Welcome(p, data, secrets, domain, j) {
        if Welcome(p, data, secrets, domain, j) {
          OneWelcome(p, data, secrets, domain, j, k.value);
        }
      }
      return None;
    }
    HelloShape(p, record.value, secrets[k.value]);
    assert Welcome(p, data, secrets, domain, k.value);
    r := Some(Greeting(k.value, hello.value, Hello.ServerHello(p, secrets[k.value], hello.value, keyShare, cert)));
  }

  // ----- From the first byte to the last ----------------------------------

  /** A signed hello is one record of the stream it starts. */
  lemma HelloRecord(p: Primitives, host: seq<byte>, sessionId: seq<byte>, secret: seq<byte>, time: nat, tail: seq<byte>)
    requires |sessionId| == 32 && |host| <= 16465 && time < 0x1_0000_0000
    ensures |Hello.BuildClientHello(host, sessionId)| == 180 + |host|
    ensures var hello := Hello.Signed(p, Hello.BuildClientHello(host, sessionId), secret, time);
            && NextRecord(hello + tail).Some? && |NextRecord(hello + tail).value.payload| <= 16640
            && (hello + tail)[..3] == [22, 3, 1] && FirstRecord(hello + tail) == hello && AfterRecord(hello + tail) == tail
  {
    ClientHelloBytes(host, sessionId);
    var built := Hello.BuildClientHello(host, sessionId);
    hide Hello.BuildClientHello;
    assert |built| == 180 + |host|;
    var hello := Hello.Signed(p, built, secret, time);
    forall i | 0 <= i < 11 ensures hello[i] == built[i] {
      SignedBytes(p, built, secret, time, i);
    }
    assert |hello| == |built|;
    hide Hello.Signed;
    assert built[0] == built[..3][0] && built[1] == built[..3][1] && built[2] == built[..3][2];
    RecordAtFront(hello, tail);
  }

  lemma RecordAtFront(hello: seq<byte>, tail: seq<byte>)
    requires 5 <= |hello| <= 16645 && hello[0] == 22 && hello[1] == 3 && hello[2] == 1 && 256 * hello[3] as int + hello[4] == |hello| - 5
    ensures var data := hello + tail;
            && NextRecord(data).Some? && |NextRecord(data).value.payload| == |hello| - 5
            && data[..3] == [22, 3, 1] && FirstRecord(data) == hello && AfterRecord(data) == tail
  {
    var data := hello + tail;
    assert data[3] == hello[3] && data[4] == hello[4];
    assert AnnouncedLen(data) == |hello| - 5;
    assert data[..3] == [data[0], data[1], data[2]];
    assert data[..|hello|] == hello && data[|hello|..] == tail;
  }

  /** Greeted and served: what a client gets on its wire from the first byte on is `hi.answer + served.wire`. */
  datatype Outcome = Outcome(hi: Greeting, served: Served)

  /** The client and the secret it greets with. */
  datatype Caller = Caller(key: nat, sessionId: seq<byte>, time: nat)

  ghost predicate Calls(p: Primitives, data: seq<byte>, secrets: seq<seq<byte>>, domain: seq<byte>, c: Caller, rest: seq<byte>) {
    && c.key < |secrets| && |c.sessionId| == 32 && c.time < 0x1_0000_0000 && |domain| <= 16465 && p.utf8(domain)
    && |Hello.BuildClientHello(domain, c.sessionId)| >= 43
    && var hello := Hello.Signed(p, Hello.BuildClientHello(domain, c.sessionId), secrets[c.key], c.time);
       && data == hello + rest
       && forall j :: 0 <= j < c.key ==> Hello.ParseClientHello(p, hello, secrets[j]).None?
  }

  /** A caller is welcome, with the session id it sent. */
  lemma CallerIsWelcome(p: Primitives, data: seq<byte>, secrets: seq<seq<byte>>, domain: seq<byte>, c: Caller, rest: seq<byte>)
    requires Calls(p, data, secrets, domain, c, rest)
    ensures c.key < |secrets| && Welcome(p, data, secrets, domain, c.key) && AfterRecord(data) == rest
    ensures var h := Hello.ParseClientHello(p, FirstRecord(data), secrets[c.key]).value; h.sessionId == c.sessionId && h.suite == [0x13, 0x01]
  {
    var built := Hello.BuildClientHello(domain, c.sessionId);
    HelloRecord(p, domain, c.sessionId, secrets[c.key], c.time, rest);
    Hello.ClientHelloIff(p, domain, c.sessionId, secrets[c.key], c.time, built);
    hide Hello.ParseClientHello, Hello.BuildClientHello, Hello.Signed, NextRecord, AfterRecord, FirstRecord;
  }

  /**
    A whole FakeTLS connection.  A caller that knows a secret, names the domain
    and follows the obfuscation format is answered with a ServerHello in which a
    TLS 1.3 client finds its own session id; draining it leaves exactly what the
    session sends; and then both sides decrypt a prefix of what the other sent,
    all of it in a direction that does not break off.
   */
  method WholeConnection(p: Primitives, reader: ByteStream, secrets: seq<seq<byte>>, domain: seq<byte>, keyShare: seq<byte>, cert: seq<byte>,
                         draws: seq<Packet>, pad: seq<byte>, framing: WsFraming, overflowChecks: bool, answer: Packet -> seq<seq<byte>>,
                         capacity: nat, writable: nat, partial: nat,
                         ghost caller: Caller, ghost key: nat, ghost proto: ProtoTag, ghost dc: I16, ghost handshake: Packet,
                         ghost client: Session, ghost telegram: Packet -> Session, ghost plain: seq<byte>, ghost rs: seq<Record>,
                         ghost down: seq<byte>)
    returns (r: Option<Outcome>)
    requires |keyShare| == 32 && |cert| <= 16640 && |pad| == 2 && !(overflowChecks && dc == -0x8000)
    requires exists i :: 0 <= i < |draws| && !Reserved(draws[i])
    requires Calls(p, reader.data, secrets, domain, caller, EncodeRecords(rs))
    requires key < |secrets| && ClientKeys(p, handshake, secrets[key], client) && Announces(client.send, handshake, proto, dc)
    requires forall j :: 0 <= j < key ==> ParseHandshake(p, handshake, secrets[j]).None?
    requires ClientRecords(rs) && AppBytes(rs) == handshake + Apply(client.send, 64, plain)
    requires forall init: Packet :: TelegramKeys(p, init, telegram(init)) && Flatten(answer(init)) == Apply(telegram(init).send, 0, down)
    modifies reader
    ensures r.Some? && r.value.hi.key == caller.key && r.value.served.key == key
    ensures r.value.served.info == HandshakeInfo(Abs(dc), dc < 0, proto, handshake[8..56]) && r.value.served.dc == dc
    ensures var hi, wire := r.value.hi, r.value.served.wire;
            && |hi.answer| >= 43 && Drain(hi.answer + wire, 20) == Some(wire)
            && var mac := p.hmac(secrets[caller.key], hi.hello.random + (hi.answer[..11] + seq(32, _ => 0) + hi.answer[43..]));
               ReadServerHello(hi.answer + wire) == Some(ServerFields(mac, caller.sessionId, [0x13, 0x01], 29, keyShare))
    ensures TelegramReads(telegram(r.value.served.init), r.value.served.init, proto, dc, pad)
    ensures var sent, tg := r.value.served.sink.sent, telegram(r.value.served.init);
            && (sent != [] ==> sent[0] == r.value.served.init && Apply(tg.recv, 64, Flatten(sent[1..])) <= plain)
            && (|sent| < capacity ==> sent != [] && Apply(tg.recv, 64, Flatten(sent[1..])) == plain)
    ensures var got := Unwire(true, r.value.served.wire);
            && Apply(client.recv, 0, got) <= down
            && (writable >= |answer(r.value.served.init)| ==> Apply(client.recv, 0, got) == down)
  {
    hide ClientKeys, TelegramKeys, Announces, TelegramReads, Apply, Unwire, Hello.ParseClientHello, Hello.ServerHello, Hello.BuildClientHello,
         Hello.Signed, Drain, ReadServerHello, EncodeRecords, AppBytes, ClientRecords, ParseHandshake, NextRecord, AfterRecord,
         FirstRecord, Welcome, Calls, Reserved;
    ghost var data := reader.data;
    CallerIsWelcome(p, data, secrets, domain, caller, EncodeRecords(rs));
    var hi := Greet(p, reader, secrets, domain, keyShare, cert);
    assert hi.Some?;
    WelcomeOnce(p, data, secrets, domain, caller.key, hi.value.key);
    var served := WholeSession(p, reader, secrets, draws, pad, framing, overflowChecks, answer, capacity, writable, partial,
                               key, proto, dc, handshake, client, telegram, plain, rs, down);
    ServerHelloReads(p, secrets[caller.key], hi.value.hello, keyShare, cert, served.value.wire);
    r := Some(Outcome(hi.value, served.value));
  }

  lemma WelcomeOnce(p: Primitives, data: seq<byte>, secrets: seq<seq<byte>>, domain: seq<byte>, j: nat, k: nat)
    requires Welcome(p, data, secrets, domain, j) && Welcome(p, data, secrets, domain, k)
    ensures j == k
  {
    hide Hello.ParseClientHello;
    OneWelcome(p, data, secrets, domain, j, k);
  }
}
