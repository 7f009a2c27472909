/** The FakeTLS hellos byte by byte, and how a TLS 1.3 client reads the answer (src/faketls.rs). */
module HelloWire {
  import opened Bytes
  import opened Ctr
  import opened Records
  import opened Hello

  // ----- The ServerHello, byte by byte ------------------------------------

  lemma ServerTailBytes(hello: ClientHello, keyShare: seq<byte>)
    requires |hello.sessionId| < 0x100 && |hello.suite| == 2 && |keyShare| == 32
    ensures var t, n := ServerTail(hello, keyShare), |hello.sessionId|;
            && |t| == 52 + n && t[0] == n && t[1..1 + n] == hello.sessionId && t[1 + n..3 + n] == hello.suite
            && t[3 + n..6 + n] == [0, 0, 46] && t[6 + n..12 + n] == [0, 43, 0, 2, 3, 4]
            && t[12 + n..20 + n] == [0, 51, 0, 36, 0, 29, 0, 32] && t[20 + n..] == keyShare
  {
    var n, x := |hello.sessionId|, SERVER_EXTENSIONS;
    var a := [n] + hello.sessionId + hello.suite;
    Slices([n], hello.sessionId, hello.suite);
    Slices(a, x, keyShare);
    var t := ServerTail(hello, keyShare);
    assert x[..3] == [0, 0, 46] && x[3..9] == [0, 43, 0, 2, 3, 4] && x[9..] == [0, 51, 0, 36, 0, 29, 0, 32];
    hide SERVER_EXTENSIONS, CIPHER_SUITES, FIXED_EXTENSIONS, ServerTail;
    assert t == a + x + keyShare && |a| == 3 + n;
    assert t[..3 + n] == a && t[0] == a[0];
    assert t[1..1 + n] == a[1..1 + n] && t[1 + n..3 + n] == a[1 + n..];
    assert t[3 + n..6 + n] == x[..3] && t[6 + n..12 + n] == x[3..9] && t[12 + n..20 + n] == x[9..];
  }

  lemma ServerHeadBytes(hello: ClientHello)
    requires |hello.sessionId| < 0x100
    ensures var h, n := ServerHead(hello), |hello.sessionId|;
            && |h| == 11 && h[..3] == [22, 3, 3] && 256 * h[3] as int + h[4] == 90 + n && h[5] == 2
            && 65536 * h[6] as int + 256 * h[7] as int + h[8] == 86 + n && h[9..] == [3, 3]
  {
    hide SERVER_EXTENSIONS, CIPHER_SUITES, FIXED_EXTENSIONS;
  }

  lemma AfterServerHello(cert: seq<byte>, rs: seq<Record>)
    requires |cert| < 0x1_0000
    requires rs == [Record(TLS_CHANGE_CIPHER_SPEC, VERSION_12, [0x01]), Record(TLS_APPLICATION_DATA, VERSION_12, cert)]
    ensures var r := EncodeRecords(rs);
            && |r| == 11 + |cert| && r[..6] == [20, 3, 3, 0, 1, 1] && r[6..9] == [23, 3, 3]
            && 256 * r[9] as int + r[10] == |cert| && r[11..] == cert
  {
    hide SERVER_EXTENSIONS, CIPHER_SUITES, FIXED_EXTENSIONS;
    var a, b := rs[0], rs[1];
    assert rs[1..] == [b] && [b][1..] == [];
    assert EncodeRecords([b]) == EncodeRecord(b) + EncodeRecords([]) && EncodeRecords([]) == [];
    assert EncodeRecords(rs) == EncodeRecord(a) + EncodeRecords([b]);
    assert EncodeRecord(a) == [20, 3, 3, 0, 1, 1];
    assert Header(b)[..3] == [23, 3, 3];
  }

  /** The packet, in five pieces. */
  lemma ServerPieces(p: Primitives, secret: seq<byte>, hello: ClientHello, keyShare: seq<byte>, cert: seq<byte>)
    returns (mac: seq<byte>, rest: seq<byte>)
    requires |hello.sessionId| < 0x100 && |hello.suite| == 2 && |keyShare| == 32 && |cert| < 0x1_0000
    ensures var packet := ServerHello(p, secret, hello, keyShare, cert);
            && |mac| == 32 && packet == ServerHead(hello) + mac + (ServerTail(hello, keyShare) + rest)
            && mac == p.hmac(secret, hello.random + (ServerHead(hello) + seq(32, _ => 0) + (ServerTail(hello, keyShare) + rest)))
    ensures |rest| == 11 + |cert| && rest[..6] == [20, 3, 3, 0, 1, 1] && rest[6..9] == [23, 3, 3]
            && 256 * rest[9] as int + rest[10] == |cert| && rest[11..] == cert
  {
    var zeros := seq(DIGEST_LEN, _ => 0);
    var rs := ServerRecords(hello, keyShare, cert, zeros);
    rest := EncodeRecords(rs[1..]);
    EncodedServer(hello, keyShare, cert, zeros);
    AfterServerHello(cert, rs[1..]);
    hide EncodeRecords, ServerTail, Be16, SERVER_EXTENSIONS, FIXED_EXTENSIONS, CIPHER_SUITES, ServerHead, ServerBody;
    mac := p.hmac(secret, hello.random + EncodeRecords(rs));
    Slices(ServerHead(hello), zeros, ServerTail(hello, keyShare) + rest);
  }

  /**
    The answer to a ClientHello on the wire, from the first byte to the last: the
    session id is echoed, the suite is the one chosen, the key share is X25519's,
    and every length field counts what follows it.
   */
  lemma ServerHelloBytes(p: Primitives, secret: seq<byte>, hello: ClientHello, keyShare: seq<byte>, cert: seq<byte>)
    requires |hello.sessionId| < 0x100 && |hello.suite| == 2 && |keyShare| == 32 && |cert| < 0x1_0000
    ensures var b, n := ServerHello(p, secret, hello, keyShare, cert), |hello.sessionId|;
            && |b| == 106 + n + |cert|
            && b[..3] == [22, 3, 3] && 256 * b[3] as int + b[4] == 90 + n
            && b[5] == 2 && 65536 * b[6] as int + 256 * b[7] as int + b[8] == 86 + n && b[9..11] == [3, 3]
            && b[11..43] == p.hmac(secret, hello.random + (b[..11] + seq(32, _ => 0) + b[43..]))
            && b[43] == n && b[44..44 + n] == hello.sessionId && b[44 + n..46 + n] == hello.suite
            && b[46 + n..49 + n] == [0, 0, 46] && b[49 + n..55 + n] == [0, 43, 0, 2, 3, 4]
            && b[55 + n..63 + n] == [0, 51, 0, 36, 0, 29, 0, 32] && b[63 + n..95 + n] == keyShare
            && b[95 + n..101 + n] == [20, 3, 3, 0, 1, 1]
            && b[101 + n..104 + n] == [23, 3, 3] && 256 * b[104 + n] as int + b[105 + n] == |cert| && b[106 + n..] == cert
  {
    var n := |hello.sessionId|;
    var mac, rest := ServerPieces(p, secret, hello, keyShare, cert);
    ServerHeadBytes(hello);
    ServerTailBytes(hello, keyShare);
    var b, h, t := ServerHello(p, secret, hello, keyShare, cert), ServerHead(hello), ServerTail(hello, keyShare);
    hide ServerHello, ServerHead, ServerTail, SERVER_EXTENSIONS, CIPHER_SUITES, FIXED_EXTENSIONS;
    Slices(h, mac, t + rest);
    ServerSlices(b, h, mac, t, rest, n);
  }

  lemma ServerSlices<T>(b: seq<T>, h: seq<T>, mac: seq<T>, t: seq<T>, rest: seq<T>, n: nat)
    requires |h| == 11 && |mac| == 32 && |t| == 52 + n && |rest| >= 11 && b == h + mac + (t + rest)
    ensures |b| == 95 + n + |rest| && b[..3] == h[..3] && b[3] == h[3] && b[4] == h[4] && b[5] == h[5] && b[6] == h[6]
    ensures b[7] == h[7] && b[8] == h[8] && b[9..11] == h[9..] && b[43] == t[0]
    ensures b[44..44 + n] == t[1..1 + n] && b[44 + n..46 + n] == t[1 + n..3 + n] && b[46 + n..49 + n] == t[3 + n..6 + n]
    ensures b[49 + n..55 + n] == t[6 + n..12 + n] && b[55 + n..63 + n] == t[12 + n..20 + n] && b[63 + n..95 + n] == t[20 + n..]
    ensures b[95 + n..101 + n] == rest[..6] && b[101 + n..104 + n] == rest[6..9]
    ensures b[104 + n] == rest[9] && b[105 + n] == rest[10] && b[106 + n..] == rest[11..]
  {
    var after, end := t + rest, 95 + n + |rest|;
    Slices(h, mac, after);
    assert b[43..end] == after && after[0..52 + n] == t && after[52 + n..end - 43] == rest;
    assert b[0..11] == h;
    Sub(b, 0, 11, 0, 3);
    Sub(b, 0, 11, 9, 11);
    TailSlices(b, after, t, n);
    RestSlices(b, after, rest, n);
  }

  lemma TailSlices<T>(b: seq<T>, after: seq<T>, t: seq<T>, n: nat)
    requires |t| == 52 + n && |after| >= 52 + n && after[0..52 + n] == t && |b| == 43 + |after| && b[43..|b|] == after
    ensures b[43] == t[0] && b[44..44 + n] == t[1..1 + n] && b[44 + n..46 + n] == t[1 + n..3 + n] && b[46 + n..49 + n] == t[3 + n..6 + n]
    ensures b[49 + n..55 + n] == t[6 + n..12 + n] && b[55 + n..63 + n] == t[12 + n..20 + n] && b[63 + n..95 + n] == t[20 + n..]
  {
    Sub(b, 43, |b|, 0, 52 + n);
    assert t == b[43..95 + n];
    Sub(b, 43, 95 + n, 1, 1 + n);
    Sub(b, 43, 95 + n, 1 + n, 3 + n);
    Sub(b, 43, 95 + n, 3 + n, 6 + n);
    Sub(b, 43, 95 + n, 6 + n, 12 + n);
    Sub(b, 43, 95 + n, 12 + n, 20 + n);
    Sub(b, 43, 95 + n, 20 + n, 52 + n);
    SubToEnd(t, 20 + n, 52 + n);
  }

  lemma RestSlices<T>(b: seq<T>, after: seq<T>, rest: seq<T>, n: nat)
    requires |rest| >= 11 && |after| == 52 + n + |rest| && after[52 + n..|after|] == rest && |b| == 43 + |after| && b[43..|b|] == after
    ensures b[95 + n..101 + n] == rest[..6] && b[101 + n..104 + n] == rest[6..9]
    ensures b[104 + n] == rest[9] && b[105 + n] == rest[10] && b[106 + n..] == rest[11..]
  {
    Sub(b, 43, |b|, 52 + n, |after|);
    assert rest == b[95 + n..|b|];
    Sub(b, 95 + n, |b|, 0, 6);
    Sub(b, 95 + n, |b|, 6, 9);
    Sub(b, 95 + n, |b|, 11, |rest|);
    SubToEnd(rest, 11, |rest|);
    SubToEnd(b, 106 + n, |b|);
  }

  // ----- Reading a ServerHello --------------------------------------------

  /** The data of the first extension of a kind (section 4.2 of RFC 8446). */
  function FindExtension(exts: seq<byte>, kind: nat): Option<seq<byte>>
    decreases |exts|
  {
    if |exts| < 4 then None
    else
      var n := 256 * exts[2] as int + exts[3];
      if |exts| < 4 + n then None
      else if 256 * exts[0] as int + exts[1] == kind then Some(exts[4..4 + n])
      else FindExtension(exts[4 + n..], kind)
  }

  /** What a client learns from a ServerHello. */
  datatype ServerFields = ServerFields(random: seq<byte>, sessionId: seq<byte>, suite: seq<byte>, group: nat, share: seq<byte>)

  /** A TLS 1.3 client's reading of the first record it gets (sections 4.1.3, 4.2.1 and 4.2.8 of RFC 8446). */
  function ReadServerHello(wire: seq<byte>): Option<ServerFields> {
    if |wire| < 9 || wire[0] != 22 || |wire| < 5 + (256 * wire[3] as int + wire[4]) then None
    else
      var body := wire[9..];
      var len := 65536 * wire[6] as int + 256 * wire[7] as int + wire[8];
      if wire[5] != 2 || 256 * wire[3] as int + wire[4] != 4 + len || |body| < len then None else ReadServerBody(body[..len])
  }

  function ReadServerBody(body: seq<byte>): Option<ServerFields> {
    if |body| < 35 || body[..2] != [3, 3] then None
    else
      var n: nat := body[34];
      if |body| < 40 + n || body[37 + n] != 0 || |body| != 40 + n + (256 * body[38 + n] as int + body[39 + n]) then None
      else ReadServerExtensions(body[40 + n..], body[2..34], body[35..35 + n], body[35 + n..37 + n])
  }

  function ReadServerExtensions(exts: seq<byte>, random: seq<byte>, sessionId: seq<byte>, suite: seq<byte>): Option<ServerFields> {
    var version, share := FindExtension(exts, 43), FindExtension(exts, 51);
    if version != Some([3, 4]) || share.None? || |share.value| < 4 then None
    else
      var k := share.value;
      if |k| != 4 + (256 * k[2] as int + k[3]) then None
      else Some(ServerFields(random, sessionId, suite, 256 * k[0] as int + k[1], k[4..]))
  }

  lemma ServerExtensionsRead(exts: seq<byte>, keyShare: seq<byte>)
    requires |keyShare| == 32 && exts == [0, 43, 0, 2, 3, 4] + [0, 51, 0, 36, 0, 29, 0, 32] + keyShare
    ensures FindExtension(exts, 43) == Some([3, 4]) && FindExtension(exts, 51) == Some([0, 29, 0, 32] + keyShare)
  {
    hide SERVER_EXTENSIONS, CIPHER_SUITES, FIXED_EXTENSIONS;
    var rest := exts[6..];
    assert exts[4..6] == [3, 4];
    assert rest == [0, 51, 0, 36, 0, 29, 0, 32] + keyShare;
    assert rest[4..40] == [0, 29, 0, 32] + keyShare;
    assert FindExtension(rest, 51) == Some(rest[4..40]);
  }

  lemma ServerHelloRead(p: Primitives, secret: seq<byte>, hello: ClientHello, keyShare: seq<byte>, cert: seq<byte>, more: seq<byte>)
    requires |hello.sessionId| < 0x100 && |hello.suite| == 2 && |keyShare| == 32 && |cert| < 0x1_0000
    ensures var packet := ServerHello(p, secret, hello, keyShare, cert);
            && |packet| >= 43
            && ReadServerHello(packet + more) == Some(ServerFields(packet[11..43], hello.sessionId, hello.suite, 29, keyShare))
  {
    var b, n := ServerHello(p, secret, hello, keyShare, cert), |hello.sessionId|;
    ServerHelloBytes(p, secret, hello, keyShare, cert);
    hide ServerHello, SERVER_EXTENSIONS, CIPHER_SUITES, FIXED_EXTENSIONS, FindExtension, ReadServerBody, ReadServerHello;
    assert b[0] == b[..3][0];
    ServerRecordRead(b, more, 86 + n);
    ServerBodyRead(b, b[9..95 + n], hello.sessionId, hello.suite, keyShare);
  }

  /** The body is found by the two length fields, whatever follows the record. */
  lemma ServerRecordRead(b: seq<byte>, more: seq<byte>, len: nat)
    requires |b| >= 9 + len && b[0] == 22 && b[5] == 2
    requires 256 * b[3] as int + b[4] == 4 + len && 65536 * b[6] as int + 256 * b[7] as int + b[8] == len
    ensures ReadServerHello(b + more) == ReadServerBody(b[9..9 + len])
  {
    hide SERVER_EXTENSIONS, CIPHER_SUITES, FIXED_EXTENSIONS, ReadServerBody;
    var wire := b + more;
    Sub(wire, 9, |wire|, 0, len);
    SubToEnd(wire, 9, |wire|);
    SubOfPrefix(b, wire, 9, 9 + len);
  }

  /**
    What a client gets from every answer, whatever follows it: a TLS 1.3 reader
    recovers its own session id, the chosen suite, the X25519 share and a random
    field that is the HMAC over the client's random and the zeroed packet; and
    draining the handshake leaves exactly what follows.
   */
  lemma ServerHelloReads(p: Primitives, secret: seq<byte>, hello: ClientHello, keyShare: seq<byte>, cert: seq<byte>, more: seq<byte>)
    requires |hello.sessionId| < 0x100 && |hello.suite| == 2 && |keyShare| == 32 && |cert| <= 16640
    ensures var packet := ServerHello(p, secret, hello, keyShare, cert);
            && |packet| >= 43
            && var mac := p.hmac(secret, hello.random + (packet[..11] + seq(32, _ => 0) + packet[43..]));
               && ReadServerHello(packet + more) == Some(ServerFields(mac, hello.sessionId, hello.suite, 29, keyShare))
               && Drain(packet + more, 20) == Some(more)
  {
    hide ServerHello, SERVER_EXTENSIONS, CIPHER_SUITES, FIXED_EXTENSIONS, FindExtension, ReadServerHello, Drain, EncodeRecords, ServerRecords;
    ServerHelloRead(p, secret, hello, keyShare, cert, more);
    ServerHelloBytes(p, secret, hello, keyShare, cert);
    ServerHelloDrains(p, secret, hello, keyShare, cert, more);
  }

  lemma ServerBodyRead(b: seq<byte>, body: seq<byte>, sessionId: seq<byte>, suite: seq<byte>, keyShare: seq<byte>)
    requires var n := |sessionId|; n < 0x100 && |b| >= 95 + n && body == b[9..95 + n] && |keyShare| == 32 && |suite| == 2
    requires var n := |sessionId|;
             && b[9..11] == [3, 3] && b[43] == n && b[44..44 + n] == sessionId && b[44 + n..46 + n] == suite
             && b[46 + n..49 + n] == [0, 0, 46] && b[49 + n..55 + n] == [0, 43, 0, 2, 3, 4]
             && b[55 + n..63 + n] == [0, 51, 0, 36, 0, 29, 0, 32] && b[63 + n..95 + n] == keyShare
    ensures ReadServerBody(body) == Some(ServerFields(b[11..43], sessionId, suite, 29, keyShare))
  {
    hide FindExtension, SERVER_EXTENSIONS, CIPHER_SUITES, FIXED_EXTENSIONS;
    var n := |sessionId|;
    var exts := body[40 + n..];
    Sub(b, 9, 95 + n, 0, 2);
    Sub(b, 9, 95 + n, 35, 35 + n);
    Sub(b, 9, 95 + n, 35 + n, 37 + n);
    Sub(b, 9, 95 + n, 2, 34);
    Sub(b, 9, 95 + n, 40 + n, 86 + n);
    assert body[37 + n] == b[46 + n..49 + n][0] && body[38 + n] == b[46 + n..49 + n][1] && body[39 + n] == b[46 + n..49 + n][2];
    assert exts == b[49 + n..55 + n] + b[55 + n..63 + n] + b[63 + n..95 + n];
    ServerExtensionsRead(exts, keyShare);
    assert ([0, 29, 0, 32] + keyShare)[4..] == keyShare;
  }

  // ----- Details of a ClientHello -----------------------------------------

  /** Suite `i` of a list is one of the three of TLS 1.3. */
  ghost predicate Tls13At(suites: seq<byte>, i: int) {
    0 <= i && 2 * i + 2 <= |suites| && suites[2 * i] == 19 && suites[2 * i + 1] in {1, 2, 3}
  }

  lemma Tls13Shift(suites: seq<byte>, i: int)
    requires |suites| >= 2 && i >= 1
    ensures Tls13At(suites[2..], i - 1) <==> Tls13At(suites, i)
  {
    if 2 * i + 2 <= |suites| {
      var k := i - 1;
      assert suites[2..][2 * k] == suites[2 + 2 * k] && suites[2..][2 * k + 1] == suites[2 + (2 * k + 1)];
    }
  }

  /** The first TLS 1.3 suite the client lists, whatever stands before it... */
  lemma {:induction false} SuiteIsFirst(suites: seq<byte>, i: nat)
    requires Tls13At(suites, i) && forall j :: 0 <= j < i ==> !Tls13At(suites, j)
    ensures SelectSuite(suites) == [suites[2 * i], suites[2 * i + 1]]
    decreases i
  {
    if i > 0 {
      assert !Tls13At(suites, 0);
      assert SelectSuite(suites) == SelectSuite(suites[2..]);
      Tls13Shift(suites, i);
      forall j | 0 <= j < i - 1 ensures !Tls13At(suites[2..], j) {
        Tls13Shift(suites, j + 1);
      }
      hide SelectSuite;
      SuiteIsFirst(suites[2..], i - 1);
    }
  }

  /** ... and 0x1301 if it lists none. */
  lemma {:induction false} NoSuite(suites: seq<byte>)
    requires forall i :: !Tls13At(suites, i)
    ensures SelectSuite(suites) == [19, 1]
    decreases |suites|
  {
    if |suites| >= 2 {
      assert !Tls13At(suites, 0);
      assert SelectSuite(suites) == SelectSuite(suites[2..]);
      hide SelectSuite;
      forall j ensures !Tls13At(suites[2..], j) {
        if j >= 0 {
          Tls13Shift(suites, j + 1);
        }
      }
      NoSuite(suites[2..]);
    }
  }

  /** Extensions of another kind, and server names too short to hold one, are stepped over. */
  lemma SniSkips(kind: nat, data: seq<byte>, rest: seq<byte>, utf8: seq<byte> -> bool)
    requires kind < 65536 && |data| < 65536 && (kind != 0 || |data| < 5)
    ensures var header: seq<byte> := [kind / 256, kind % 256, |data| / 256, |data| % 256];
            Sni(header + data + rest, utf8) == Sni(rest, utf8)
  {
    var header: seq<byte> := [kind / 256, kind % 256, |data| / 256, |data| % 256];
    var exts := header + data + rest;
    Slices(header, data, rest);
    assert exts[0] == header[0] && exts[1] == header[1] && exts[2] == header[2] && exts[3] == header[3];
    assert exts[4 + |data|..] == rest;
  }

  lemma SniBytes(host: seq<byte>)
    requires |host| <= MAX_HOST
    ensures var e, h := SniExtension(host), |host|;
            && |e| == 9 + h && e[..2] == [0, 0] && 256 * e[2] as int + e[3] == 5 + h && 256 * e[4] as int + e[5] == 3 + h
            && e[6] == 0 && 256 * e[7] as int + e[8] == h && e[9..] == host
  {
    hide CIPHER_SUITES, FIXED_EXTENSIONS, SERVER_EXTENSIONS;
  }

  lemma BodyBytes(sid: seq<byte>, suites: seq<byte>, extLen: nat, exts: seq<byte>)
    requires |sid| == 32 == |suites| && extLen < 0x1_0000
    ensures var b := BodyWith(sid, suites, extLen, exts);
            && |b| == 105 + |exts| && b[..2] == [3, 3] && b[2..34] == seq(32, _ => 0) && b[34] == 32 && b[35..67] == sid
            && b[67..69] == [0, 32] && b[69..101] == suites && b[101..103] == [1, 0]
            && 256 * b[103] as int + b[104] == extLen && b[105..] == exts
  {
    hide CIPHER_SUITES, FIXED_EXTENSIONS, SERVER_EXTENSIONS;
    var zeros: seq<byte> := seq(32, _ => 0);
    var a := VERSION_12 + zeros + [32];
    var c := sid + Be16(32) + suites;
    var d := [0x01, 0x00] + Be16(extLen) + exts;
    assert BodyWith(sid, suites, extLen, exts) == a + c + d;
    Slices(a, c, d);
    Slices(sid, Be16(32), suites);
    Slices(VERSION_12, zeros, [32]);
    Slices([0x01, 0x00], Be16(extLen), exts);
    var b := a + c + d;
    assert b[..2] == a[..2] && b[2..34] == a[2..34] && b[34] == a[34];
    assert b[35..67] == c[..32] && b[67..69] == c[32..34] && b[69..101] == c[34..];
    assert b[101..103] == d[..2] && b[103] == d[2] && b[104] == d[3] && b[105..] == d[4..];
  }

  /** The built ClientHello on the wire: every length field counts what follows it, and the server name is the host. */
  lemma ClientHelloBytes(host: seq<byte>, sessionId: seq<byte>)
    requires |sessionId| == 32 && |host| <= 65360
    ensures var b, h := BuildClientHello(host, sessionId), |host|;
            && |b| == 180 + h && b[..3] == [22, 3, 1] && 256 * b[3] as int + b[4] == 175 + h
            && b[5] == 1 && 65536 * b[6] as int + 256 * b[7] as int + b[8] == 171 + h && b[9..11] == [3, 3]
            && b[11..43] == seq(32, _ => 0) && b[43] == 32 && b[44..76] == sessionId
            && b[76..80] == [0, 32, 19, 1] && b[110..112] == [1, 0] && 256 * b[112] as int + b[113] == 66 + h
            && b[114..116] == [0, 0] && 256 * b[116] as int + b[117] == 5 + h && 256 * b[118] as int + b[119] == 3 + h
            && b[120] == 0 && 256 * b[121] as int + b[122] == h && b[123..123 + h] == host
  {
    var exts, h := Extensions(host), |host|;
    var b, body := BuildClientHello(host, sessionId), HelloBody(host, sessionId);
    RecordFields(host, sessionId);
    assert b[..3] == [22, 3, 1];
    ExtensionsLength(host);
    FirstSuite();
    assert CIPHER_SUITES[..2] == [19, 1];
    hide CIPHER_SUITES, FIXED_EXTENSIONS, SERVER_EXTENSIONS, BuildClientHello, SniExtension;
    BodyBytes(sessionId, CIPHER_SUITES, 66 + h, exts);
    SniBytes(host);
    hide BodyWith;
    var sni := SniExtension(host);
    assert exts[..9 + h] == sni;
    ClientSlices(b, body, exts, sni, h);
  }

  lemma ClientSlices<T>(b: seq<T>, body: seq<T>, exts: seq<T>, sni: seq<T>, h: nat)
    requires |b| == 180 + h && b[9..] == body && |body| == 171 + h && body[105..] == exts && exts[..9 + h] == sni
    ensures b[9..11] == body[..2] && b[11..43] == body[2..34] && b[43] == body[34] && b[44..76] == body[35..67]
    ensures b[76..80] == body[67..69] + body[69..101][..2] && b[110..112] == body[101..103] && b[112] == body[103] && b[113] == body[104]
    ensures b[114..116] == sni[..2] && b[116] == sni[2] && b[117] == sni[3] && b[118] == sni[4] && b[119] == sni[5]
    ensures b[120] == sni[6] && b[121] == sni[7] && b[122] == sni[8] && b[123..123 + h] == sni[9..]
  {
    var n := 180 + h;
    assert b[9..n] == body && body[105..n - 9] == exts && exts[0..9 + h] == sni;
    Sub(b, 9, n, 0, 2);
    Sub(b, 9, n, 2, 34);
    Sub(b, 9, n, 35, 67);
    Sub(b, 9, n, 67, 69);
    Sub(b, 9, n, 69, 71);
    Sub(body, 69, 101, 0, 2);
    Sub(b, 9, n, 101, 103);
    Sub(b, 9, n, 105, n - 9);
    assert exts == b[114..n];
    Sub(b, 114, n, 0, 9 + h);
    assert sni == b[114..123 + h];
    Sub(b, 114, 123 + h, 0, 2);
    Sub(b, 114, 123 + h, 9, 9 + h);
    assert b[76..80] == b[76..78] + b[78..80];
  }

  /** What signing writes: the HMAC over the record with its random field zeroed, the last four bytes masked with the time. */
  lemma SignedBytes(p: Primitives, record: seq<byte>, secret: seq<byte>, timestamp: nat, i: nat)
    requires |record| >= 43 && timestamp < 0x1_0000_0000 && i < |record|
    ensures var mac := p.hmac(secret, record[..11] + seq(32, _ => 0) + record[43..]);
            var s := Signed(p, record, secret, timestamp);
            && (i < 11 || i >= 43 ==> s[i] == record[i])
            && (11 <= i < 39 ==> s[i] == mac[i - 11])
            && (i == 39 ==> s[i] == Xor(mac[28], timestamp % 256))
            && (i == 40 ==> s[i] == Xor(mac[29], timestamp / 256 % 256))
            && (i == 41 ==> s[i] == Xor(mac[30], timestamp / 65536 % 256))
            && (i == 42 ==> s[i] == Xor(mac[31], timestamp / 16777216))
  {
    var d := Hello.Digest(p, record, secret, timestamp);
    Slices(record[..11], d, record[43..]);
    assert 11 <= i < 43 ==> Signed(p, record, secret, timestamp)[11 + (i - 11)] == d[i - 11];
  }

  // ----- What a ClientHello parser refuses --------------------------------

  lemma XorEqual(a: byte, b: byte)
    ensures Xor(a, b) == 0 <==> a == b
  {
    hide Xor;
    XorCancels(a, b);
    XorZero(b);
    XorSelf(b);
  }

  /** Nothing is accepted without the HMAC: type and length fields are right, and the first 28 random bytes are the digest's. */
  lemma AcceptedIsSigned(p: Primitives, record: seq<byte>, secret: seq<byte>)
    requires ParseClientHello(p, record, secret).Some?
    ensures |record| >= 47 && record[0] == 22 && record[5] == 1
    ensures 256 * record[3] as int + record[4] == |record| - 5
    ensures 65536 * record[6] as int + 256 * record[7] as int + record[8] == |record| - 9
    ensures var mac := p.hmac(secret, record[..11] + seq(32, _ => 0) + record[43..]);
            forall i :: 0 <= i < 28 ==> record[11 + i] == mac[i]
    ensures ParseClientHello(p, record, secret) == ParseBody(record[9..], record[11..43], p.utf8)
  {
    hide ParseBody, Xor;
    var mac := p.hmac(secret, Zeroed(record));
    forall i | 0 <= i < 28 ensures record[11 + i] == mac[i] {
      XorEqual(mac[i], record[11 + i]);
    }
  }

  /** The two length-prefixed lists of a body from its suites on, and whether they fit. */
  ghost predicate SuitesFit(s: seq<byte>) {
    |s| >= 2
    && var m := 256 * s[0] as int + s[1];
       m >= 2 && |s| >= 3 + m
       && var c: int := s[2 + m];
          |s| >= 5 + m + c && |s| >= 5 + m + c + (256 * s[3 + m + c] as int + s[4 + m + c])
  }

  /** A body is read exactly if its session id, suites, compression methods and extensions fit, and then field by field. */
  lemma BodyReads(body: seq<byte>, random: seq<byte>, utf8: seq<byte> -> bool)
    ensures ParseBody(body, random, utf8).Some? <==> |body| >= 35 && |body| >= 37 + body[34] as int && SuitesFit(body[35 + body[34] as int..])
    ensures ParseBody(body, random, utf8).Some? ==>
              var n: int := body[34];
              var s := body[35 + n..];
              var m := 256 * s[0] as int + s[1];
              var c: int := s[2 + m];
              var e := 256 * s[3 + m + c] as int + s[4 + m + c];
              ParseBody(body, random, utf8) == Some(ClientHello(random, body[35..35 + n], SelectSuite(s[2..2 + m]), Sni(s[5 + m + c..5 + m + c + e], utf8)))
  {
    hide SelectSuite, Sni, CIPHER_SUITES, FIXED_EXTENSIONS, SERVER_EXTENSIONS;
    if |body| >= 35 && |body| >= 37 + body[34] as int {
      SuitesRead(body[35 + body[34] as int..], random, body[35..35 + body[34] as int], utf8);
      hide ParseSuites, SuitesFit;
    }
  }

  lemma SuitesRead(s: seq<byte>, random: seq<byte>, sid: seq<byte>, utf8: seq<byte> -> bool)
    requires |s| >= 2
    ensures ParseSuites(s, random, sid, utf8).Some? <==> SuitesFit(s)
    ensures SuitesFit(s) ==>
              var m := 256 * s[0] as int + s[1];
              var c: int := s[2 + m];
              var e := 256 * s[3 + m + c] as int + s[4 + m + c];
              ParseSuites(s, random, sid, utf8) == Some(ClientHello(random, sid, SelectSuite(s[2..2 + m]), Sni(s[5 + m + c..5 + m + c + e], utf8)))
  {
    hide SelectSuite, Sni, CIPHER_SUITES, FIXED_EXTENSIONS, SERVER_EXTENSIONS;
    var m := 256 * s[0] as int + s[1];
    if m >= 2 && |s| >= 3 + m {
      ExtensionsRead(s[2 + m..], random, sid, SelectSuite(s[2..2 + m]), utf8);
      hide ParseExtensions;
      ExtensionsShift(s, 2 + m);
    }
  }

  /** From the compression methods on. */
  ghost predicate ExtensionsFit(t: seq<byte>) {
    |t| >= 1 && var c: int := t[0]; |t| >= 3 + c && |t| >= 3 + c + (256 * t[1 + c] as int + t[2 + c])
  }

  lemma ExtensionsRead(t: seq<byte>, random: seq<byte>, sid: seq<byte>, suite: seq<byte>, utf8: seq<byte> -> bool)
    requires |t| >= 1
    ensures ParseExtensions(t, random, sid, suite, utf8).Some? <==> ExtensionsFit(t)
    ensures ExtensionsFit(t) ==>
              var c: int := t[0];
              ParseExtensions(t, random, sid, suite, utf8)
              == Some(ClientHello(random, sid, suite, Sni(t[3 + c..3 + c + (256 * t[1 + c] as int + t[2 + c])], utf8)))
  {
    hide Sni, CIPHER_SUITES, FIXED_EXTENSIONS, SERVER_EXTENSIONS;
  }

  lemma ExtensionsShift(s: seq<byte>, k: nat)
    requires k < |s|
    ensures var c: int := s[k];
            ExtensionsFit(s[k..]) <==> |s| >= k + 3 + c && |s| >= k + 3 + c + (256 * s[k + 1 + c] as int + s[k + 2 + c])
    ensures ExtensionsFit(s[k..]) ==>
              var c: int := s[k];
              var e := 256 * s[k + 1 + c] as int + s[k + 2 + c];
              s[k..][0] == c && s[k..][1 + c] == s[k + 1 + c] && s[k..][2 + c] == s[k + 2 + c]
              && s[k..][3 + c..3 + c + e] == s[k + 3 + c..k + 3 + c + e]
  {
    var t, c: int := s[k..], s[k];
    assert forall i :: 0 <= i < |t| ==> t[i] == s[k + i];
    SubToEnd(s, k, |s|);
    if ExtensionsFit(t) {
      var e := 256 * t[1 + c] as int + t[2 + c];
      Sub(s, k, |s|, 3 + c, 3 + c + e);
    }
  }

  /** A server name is taken only from a well-formed list whose first entry is a host name. */
  lemma HostFound(ext: seq<byte>, utf8: seq<byte> -> bool, host: seq<byte>)
    requires |ext| >= 5
    ensures HostOf(ext, utf8) == Some(host) <==>
              var list, n := 256 * ext[0] as int + ext[1], 256 * ext[3] as int + ext[4];
              list >= 3 && |ext| >= 2 + list && ext[2] == 0 && |ext| >= 5 + n && host == ext[5..5 + n] && utf8(host)
  {
  }
}
