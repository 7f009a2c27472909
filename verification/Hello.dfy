/**
  The FakeTLS hellos (src/faketls.rs): a ClientHello (section 4.1.2 of RFC 8446,
  server name in section 3 of RFC 6066) authenticated by an HMAC in its random
  field, and the ServerHello that answers it.
 */
module Hello {
  import opened Bytes
  import opened Ctr
  import opened Records

  const DIGEST_POS := 11
  const DIGEST_LEN := 32
  const DIGEST_END := 43

  /** The HMAC covers a hello with its random field zeroed. */
  function Zeroed(record: seq<byte>): (r: seq<byte>)
    requires |record| >= DIGEST_END
    ensures |r| == |record|
  {
    record[..DIGEST_POS] + seq(DIGEST_LEN, _ => 0) + record[DIGEST_END..]
  }

  // ----- Cipher suite and server name -------------------------------------

  /** The client's first TLS 1.3 suite, or 0x1301. */
  function SelectSuite(suites: seq<byte>): (r: seq<byte>)
    ensures |r| == 2 && r[0] == 0x13 && 1 <= r[1] <= 3
  {
    if |suites| < 2 then [0x13, 0x01]
    else if suites[0] == 0x13 && 1 <= suites[1] <= 3 then suites[..2]
    else SelectSuite(suites[2..])
  }

  /** The host name in one server-name extension; `None` for a malformed one. */
  function HostOf(ext: seq<byte>, utf8: seq<byte> -> bool): Option<seq<byte>>
    requires |ext| >= 5
  {
    var listLen, hostLen := ReadBe16(ext[0], ext[1]), ReadBe16(ext[3], ext[4]);
    if |ext| < 2 + listLen || listLen < 3 || ext[2] != 0 || |ext| < 5 + hostLen then None
    else if utf8(ext[5..5 + hostLen]) then Some(ext[5..5 + hostLen])
    else None
  }

  /** The host name of the first server-name extension long enough to hold one. */
  function Sni(exts: seq<byte>, utf8: seq<byte> -> bool): Option<seq<byte>>
    decreases |exts|
  {
    if |exts| < 4 then None
    else
      var n := ReadBe16(exts[2], exts[3]);
      if |exts| < 4 + n then None
      else if exts[0] != 0 || exts[1] != 0 || n < 5 then Sni(exts[4 + n..], utf8)
      else HostOf(exts[4..4 + n], utf8)
  }

  method ParseSniExtension(extensions: seq<byte>, utf8: seq<byte> -> bool) returns (host: Option<seq<byte>>)
    ensures host == Sni(extensions, utf8)
  {
    var exts := extensions;
    while |exts| >= 4
      invariant Sni(exts, utf8) == Sni(extensions, utf8)
      decreases |exts|
    {
      var kind, len := ReadBe16(exts[0], exts[1]), ReadBe16(exts[2], exts[3]);
      ghost var before := exts;
      exts := exts[4..];
      if |exts| < len {
        return None;
      }
      var ext := exts[..len];
      exts := exts[len..];
      assert ext == before[4..4 + len] && exts == before[4 + len..];
      if kind != 0 || |ext| < 5 {
        continue;
      }
      return HostOf(ext, utf8);
    }
    return None;
  }

  // ----- Parsing a ClientHello --------------------------------------------

  datatype ClientHello = ClientHello(random: seq<byte>, sessionId: seq<byte>, suite: seq<byte>, host: Option<seq<byte>>)

  function ReadBe24(a: nat, b: nat, c: nat): nat { 0x1_0000 * a + 0x100 * b + c }

  /** Session id, suite and host of a ClientHello body. */
  function ParseBody(body: seq<byte>, random: seq<byte>, utf8: seq<byte> -> bool): Option<ClientHello> {
    if |body| < 35 then None
    else
      var n: nat := body[34];
      if |body| < 35 + n + 2 then None else ParseSuites(body[35 + n..], random, body[35..35 + n], utf8)
  }

  /** From the cipher suites on. */
  function ParseSuites(s: seq<byte>, random: seq<byte>, sid: seq<byte>, utf8: seq<byte> -> bool): Option<ClientHello>
    requires |s| >= 2
  {
    var n := ReadBe16(s[0], s[1]);
    if n < 2 || |s| < 2 + n + 1 then None
    else ParseExtensions(s[2 + n..], random, sid, SelectSuite(s[2..2 + n]), utf8)
  }

  /** From the compression methods on. */
  function ParseExtensions(s: seq<byte>, random: seq<byte>, sid: seq<byte>, suite: seq<byte>, utf8: seq<byte> -> bool)
    : Option<ClientHello>
    requires |s| >= 1
  {
    var comp: nat := s[0];
    if |s| < 1 + comp + 2 then None
    else
      var n := ReadBe16(s[1 + comp], s[2 + comp]);
      if |s| < 3 + comp + n then None
      else Some(ClientHello(random, sid, suite, Sni(s[3 + comp..3 + comp + n], utf8)))
  }

  /** The authentication check: the first 28 random bytes are the HMAC's. */
  predicate Authentic(p: Primitives, record: seq<byte>, secret: seq<byte>)
    requires |record| >= DIGEST_END
  {
    var mac := p.hmac(secret, Zeroed(record));
    forall i :: 0 <= i < 28 ==> Xor(mac[i], record[DIGEST_POS + i]) == 0
  }

  /** Total on arbitrary bytes: every index below is in range. */
  function ParseClientHello(p: Primitives, record: seq<byte>, secret: seq<byte>): Option<ClientHello> {
    if |record| < 47 || record[0] != TLS_HANDSHAKE || |record| != 5 + ReadBe16(record[3], record[4]) then None
    else if record[5] != 0x01 || |record| != 9 + ReadBe24(record[6], record[7], record[8]) then None
    else if !Authentic(p, record, secret) then None
    else ParseBody(record[9..], record[DIGEST_POS..DIGEST_END], p.utf8)
  }

  // ----- Building and signing one -----------------------------------------

  const FIXED_EXTENSIONS: seq<byte> := [
    0x00, 0x17, 0x00, 0x00,
    0xff, 0x01, 0x00, 0x01, 0x00,
    0x00, 0x0a, 0x00, 0x0a, 0x00, 0x08,
    0x00, 0x1d, 0x00, 0x17, 0x00, 0x18, 0x00, 0x19,
    0x00, 0x0b, 0x00, 0x02, 0x01, 0x00,
    0x00, 0x23, 0x00, 0x00,
    0x00, 0x0d, 0x00, 0x14, 0x00, 0x12,
    0x04, 0x03, 0x08, 0x04, 0x04, 0x01,
    0x05, 0x03, 0x08, 0x05, 0x05, 0x01,
    0x08, 0x06, 0x06, 0x01, 0x02, 0x01]

  const CIPHER_SUITES: seq<byte> := [
    0x13, 0x01, 0x13, 0x02, 0x13, 0x03,
    0xc0, 0x2b, 0xc0, 0x2f, 0xc0, 0x2c, 0xc0, 0x30,
    0xcc, 0xa9, 0xcc, 0xa8,
    0xc0, 0x13, 0xc0, 0x14,
    0x00, 0x9c, 0x00, 0x9d, 0x00, 0x2f, 0x00, 0x35, 0x00, 0x0a]

  /** Length arithmetic is 16 bits wide. */
  function U16(n: nat): (r: nat)
    ensures r < 0x1_0000 && (n < 0x1_0000 ==> r == n)
  {
    n % 0x1_0000
  }

  /** Longest host whose record length still fits its 16-bit field. */
  const MAX_HOST := 65360

  function SniExtension(host: seq<byte>): seq<byte> {
    var hostLen := U16(|host|);
    var listLen := U16(3 + hostLen);
    var dataLen := U16(2 + listLen);
    [0x00, 0x00] + Be16(dataLen) + Be16(listLen) + [0x00] + Be16(hostLen) + host
  }

  function Extensions(host: seq<byte>): seq<byte> { SniExtension(host) + FIXED_EXTENSIONS }

  function ExtensionsLen(host: seq<byte>): nat { 4 + U16(2 + U16(3 + U16(|host|))) + |FIXED_EXTENSIONS| }

  /** Body with any suites, extensions and extension length field. */
  function BodyWith(sessionId: seq<byte>, suites: seq<byte>, extLen: nat, exts: seq<byte>): seq<byte>
    requires |sessionId| == 32 && |suites| < 0x1_0000 && extLen < 0x1_0000
  {
    VERSION_12 + seq(DIGEST_LEN, _ => 0) + [32] + sessionId + Be16(|suites|) + suites + [0x01, 0x00] + Be16(extLen) + exts
  }

  function HelloBody(host: seq<byte>, sessionId: seq<byte>): seq<byte>
    requires |sessionId| == 32
  {
    BodyWith(sessionId, CIPHER_SUITES, U16(ExtensionsLen(host)), Extensions(host))
  }

  function HelloLen(host: seq<byte>): nat { 2 + 32 + 1 + 32 + 2 + |CIPHER_SUITES| + 2 + 2 + ExtensionsLen(host) }

  /** The unsigned record. */
  function BuildClientHello(host: seq<byte>, sessionId: seq<byte>): seq<byte>
    requires |sessionId| == 32
  {
    var n := HelloLen(host);
    [TLS_HANDSHAKE, 0x03, 0x01] + Be16(U16(4 + n)) + [0x01, n / 0x1_0000 % 0x100, n / 0x100 % 0x100, n % 0x100]
    + HelloBody(host, sessionId)
  }

  function Le32(n: nat): (r: seq<byte>)
    requires n < 0x1_0000_0000
    ensures |r| == 4
  {
    [n % 0x100, n / 0x100 % 0x100, n / 0x1_0000 % 0x100, n / 0x100_0000]
  }

  /** Digest of a hello: the HMAC, its last four bytes masked with the time. */
  function Digest(p: Primitives, record: seq<byte>, secret: seq<byte>, timestamp: nat): (r: seq<byte>)
    requires |record| >= DIGEST_END && timestamp < 0x1_0000_0000
    ensures |r| == DIGEST_LEN
  {
    var mac, ts := p.hmac(secret, Zeroed(record)), Le32(timestamp);
    mac[..28] + [Xor(mac[28], ts[0]), Xor(mac[29], ts[1]), Xor(mac[30], ts[2]), Xor(mac[31], ts[3])]
  }

  function Signed(p: Primitives, record: seq<byte>, secret: seq<byte>, timestamp: nat): (r: seq<byte>)
    requires |record| >= DIGEST_END && timestamp < 0x1_0000_0000
    ensures |r| == |record|
  {
    record[..DIGEST_POS] + Digest(p, record, secret, timestamp) + record[DIGEST_END..]
  }

  /** Signing in place. */
  method SignClientHello(p: Primitives, record: array<byte>, secret: seq<byte>, timestamp: nat)
    requires record.Length >= DIGEST_END && timestamp < 0x1_0000_0000
    modifies record
    ensures record[..] == Signed(p, old(record[..]), secret, timestamp)
  {
    ghost var r0 := record[..];
    forall i | 0 <= i < DIGEST_LEN {
      record[DIGEST_POS + i] := 0;
    }
    assert record[..] == Zeroed(r0);
    var mac, ts := p.hmac(secret, record[..]), Le32(timestamp);
    forall i | 0 <= i < 28 {
      record[DIGEST_POS + i] := mac[i];
    }
    for i := 0 to 4
      invariant forall k :: 0 <= k < 28 ==> record[DIGEST_POS + k] == mac[k]
      invariant forall k :: 0 <= k < i ==> record[DIGEST_POS + 28 + k] == Xor(mac[28 + k], ts[k])
      invariant forall k :: 0 <= k < record.Length && !(DIGEST_POS <= k < DIGEST_END) ==> record[k] == r0[k]
    {
      record[DIGEST_POS + 28 + i] := Xor(mac[28 + i], ts[i]);
    }
    ghost var d := Digest(p, r0, secret, timestamp);
    assert record[DIGEST_POS..DIGEST_END] == d;
    assert record[..DIGEST_POS] == r0[..DIGEST_POS] && record[DIGEST_END..] == r0[DIGEST_END..];
  }

  // ----- The round trip ---------------------------------------------------

  lemma SignedIsAuthentic(p: Primitives, record: seq<byte>, secret: seq<byte>, timestamp: nat)
    requires |record| >= DIGEST_END && timestamp < 0x1_0000_0000
    ensures Authentic(p, Signed(p, record, secret, timestamp), secret)
    ensures Zeroed(Signed(p, record, secret, timestamp)) == Zeroed(record)
  {
    var s, d := Signed(p, record, secret, timestamp), Digest(p, record, secret, timestamp);
    assert s[..DIGEST_POS] == record[..DIGEST_POS] && s[DIGEST_END..] == record[DIGEST_END..];
    assert Zeroed(s) == Zeroed(record);
    var mac := p.hmac(secret, Zeroed(record));
    forall i | 0 <= i < 28 ensures Xor(mac[i], s[DIGEST_POS + i]) == 0 {
      assert s[DIGEST_POS + i] == d[i] == mac[i];
      XorSelf(mac[i]);
    }
  }

  function ExtensionsPart(comp: seq<byte>, exts: seq<byte>): seq<byte>
    requires |comp| < 0x100 && |exts| < 0x1_0000
  {
    [|comp|] + comp + Be16(|exts|) + exts
  }

  function SuitesPart(suites: seq<byte>, comp: seq<byte>, exts: seq<byte>): seq<byte>
    requires |suites| < 0x1_0000 && |comp| < 0x100 && |exts| < 0x1_0000
  {
    Be16(|suites|) + suites + ExtensionsPart(comp, exts)
  }

  function BodyOf(head: seq<byte>, sid: seq<byte>, suites: seq<byte>, comp: seq<byte>, exts: seq<byte>): seq<byte>
    requires |sid| < 0x100 && |suites| < 0x1_0000 && |comp| < 0x100 && |exts| < 0x1_0000
  {
    head + BodyTail(sid, suites, comp, exts)
  }

  /** Everything after the version and the random field. */
  function BodyTail(sid: seq<byte>, suites: seq<byte>, comp: seq<byte>, exts: seq<byte>): seq<byte>
    requires |sid| < 0x100 && |suites| < 0x1_0000 && |comp| < 0x100 && |exts| < 0x1_0000
  {
    [|sid|] + sid + SuitesPart(suites, comp, exts)
  }

  lemma ExtensionsPartFields(comp: seq<byte>, exts: seq<byte>)
    requires |comp| < 0x100 && |exts| < 0x1_0000
    ensures var s, c := ExtensionsPart(comp, exts), |comp|;
            && |s| == 3 + c + |exts| && s[0] == c
            && ReadBe16(s[1 + c], s[2 + c]) == |exts| && s[3 + c..] == exts
  {
    hide CIPHER_SUITES, FIXED_EXTENSIONS;
    var s, a, len := ExtensionsPart(comp, exts), [|comp|] + comp, Be16(|exts|);
    hide Be16;
    Slices(a, len, exts);
    assert s[0] == s[..|a|][0] == |comp|;
    assert s[|a| + 0] == len[0] && s[|a| + 1] == len[1];
  }

  lemma ParseExtensionsFields(comp: seq<byte>, exts: seq<byte>, random: seq<byte>, sid: seq<byte>, suite: seq<byte>,
                              utf8: seq<byte> -> bool)
    requires |comp| < 0x100 && |exts| < 0x1_0000
    ensures |ExtensionsPart(comp, exts)| >= 1
    ensures ParseExtensions(ExtensionsPart(comp, exts), random, sid, suite, utf8)
         == Some(ClientHello(random, sid, suite, Sni(exts, utf8)))
  {
    hide Sni, ExtensionsPart, ReadBe16, CIPHER_SUITES, FIXED_EXTENSIONS, ParseExtensions;
    ExtensionsPartFields(comp, exts);
    ParseExtensionsAt(ExtensionsPart(comp, exts), |comp|, |exts|, random, sid, suite, utf8);
  }

  lemma ParseExtensionsAt(s: seq<byte>, c: nat, n: nat, random: seq<byte>, sid: seq<byte>, suite: seq<byte>, utf8: seq<byte> -> bool)
    requires |s| == 3 + c + n && s[0] == c && ReadBe16(s[1 + c], s[2 + c]) == n
    ensures ParseExtensions(s, random, sid, suite, utf8) == Some(ClientHello(random, sid, suite, Sni(s[3 + c..], utf8)))
  {
    hide Sni, ReadBe16, CIPHER_SUITES, FIXED_EXTENSIONS;
    SubToEnd(s, 3 + c, 3 + c + n);
  }

  lemma ParseSuitesFields(suites: seq<byte>, comp: seq<byte>, exts: seq<byte>, random: seq<byte>, sid: seq<byte>,
                          utf8: seq<byte> -> bool)
    requires 2 <= |suites| < 0x1_0000 && |comp| < 0x100 && |exts| < 0x1_0000
    ensures |SuitesPart(suites, comp, exts)| >= 2
    ensures ParseSuites(SuitesPart(suites, comp, exts), random, sid, utf8)
         == Some(ClientHello(random, sid, SelectSuite(suites), Sni(exts, utf8)))
  {
    hide Sni, SelectSuite, ParseExtensions, ExtensionsPart, CIPHER_SUITES, FIXED_EXTENSIONS, Be16;
    ParseExtensionsFields(comp, exts, random, sid, SelectSuite(suites), utf8);
    var s, len, rest := SuitesPart(suites, comp, exts), Be16(|suites|), ExtensionsPart(comp, exts);
    Slices(len, suites, rest);
    assert s[0] == s[..2][0] == len[0] && s[1] == s[..2][1] == len[1];
  }

  /** A body laid out as RFC 8446 says parses to its own fields, whatever they are. */
  lemma ParseBodyFields(head: seq<byte>, sid: seq<byte>, suites: seq<byte>, comp: seq<byte>, exts: seq<byte>,
                        random: seq<byte>, utf8: seq<byte> -> bool)
    requires |head| == 34 && |sid| < 0x100 && 2 <= |suites| < 0x1_0000 && |comp| < 0x100 && |exts| < 0x1_0000
    ensures ParseBody(BodyOf(head, sid, suites, comp, exts), random, utf8)
         == Some(ClientHello(random, sid, SelectSuite(suites), Sni(exts, utf8)))
  {
    hide SelectSuite, Sni, ParseSuites, SuitesPart, CIPHER_SUITES, FIXED_EXTENSIONS;
    ParseSuitesFields(suites, comp, exts, random, sid, utf8);
    var body, rest := BodyOf(head, sid, suites, comp, exts), SuitesPart(suites, comp, exts);
    var a := head + [|sid|];
    FourParts(head, [|sid|], sid, rest);
    assert body == a + sid + rest;
    hide BodyOf, BodyTail;
    Slices(a, sid, rest);
    assert body[34] == body[..35][34] == |sid|;
  }

  lemma SniRoundTrip(host: seq<byte>, rest: seq<byte>, utf8: seq<byte> -> bool)
    requires |host| <= MAX_HOST
    ensures Sni(SniExtension(host) + rest, utf8) == if utf8(host) then Some(host) else None
  {
    hide CIPHER_SUITES, FIXED_EXTENSIONS;
    var n := |host|;
    var head := [0x00, 0x00] + Be16(5 + n) + Be16(3 + n) + [0x00] + Be16(n);
    var exts := SniExtension(host) + rest;
    assert exts == head + host + rest;
    hide SniExtension;
    SniPieces(head, host, rest);
  }

  lemma SniPieces<T>(head: seq<T>, host: seq<T>, rest: seq<T>)
    requires |head| == 9
    ensures var exts, n := head + host + rest, |host|;
            && |exts| >= 9 + n && exts[4..9 + n][5..5 + n] == host
            && exts[0] == head[0] && exts[1] == head[1] && exts[2] == head[2] && exts[3] == head[3]
            && exts[4..9 + n][0] == head[4] && exts[4..9 + n][1] == head[5] && exts[4..9 + n][2] == head[6]
            && exts[4..9 + n][3] == head[7] && exts[4..9 + n][4] == head[8]
  {
    Slices(head, host, rest);
    Sub(head + host + rest, 4, 9 + |host|, 5, 5 + |host|);
  }

  lemma XorSelf(b: byte)
    ensures Xor(b, b) == 0
  {
    XorZero(b);
    XorCancels(0, b);
  }

  lemma BodyWithLayout(sid: seq<byte>, suites: seq<byte>, exts: seq<byte>)
    requires |sid| == 32 && |suites| < 0x1_0000 && |exts| < 0x1_0000
    ensures BodyWith(sid, suites, |exts|, exts) == BodyOf(VERSION_12 + seq(DIGEST_LEN, _ => 0), sid, suites, [0x00], exts)
    ensures |BodyWith(sid, suites, |exts|, exts)| == 73 + |suites| + |exts|
  {
    hide CIPHER_SUITES, FIXED_EXTENSIONS, Be16;
    var a, ext := VERSION_12 + seq(DIGEST_LEN, _ => 0), [0x01, 0x00] + Be16(|exts|) + exts;
    assert ext == ExtensionsPart([0x00], exts);
    Assoc(Be16(|suites|), suites, ext);
    Assoc([32], sid, Be16(|suites|) + (suites + ext));
    Assoc(a, [32] + sid, Be16(|suites|) + (suites + ext));
  }

  lemma ExtensionsLength(host: seq<byte>)
    ensures |Extensions(host)| == 66 + |host|
    ensures |host| <= MAX_HOST ==> ExtensionsLen(host) == 66 + |host| && HelloLen(host) == 171 + |host|
  {
    assert |FIXED_EXTENSIONS| == 57 && |CIPHER_SUITES| == 32;
    hide FIXED_EXTENSIONS, CIPHER_SUITES, Be16;
    assert |SniExtension(host)| == 9 + |host|;
  }

  lemma BuiltLayout(host: seq<byte>, sessionId: seq<byte>)
    requires |sessionId| == 32 && |host| <= MAX_HOST
    ensures |Extensions(host)| == 66 + |host| && |CIPHER_SUITES| == 32
    ensures HelloBody(host, sessionId)
         == BodyOf(VERSION_12 + seq(DIGEST_LEN, _ => 0), sessionId, CIPHER_SUITES, [0x00], Extensions(host))
    ensures HelloLen(host) == |HelloBody(host, sessionId)| == 171 + |host|
  {
    assert |CIPHER_SUITES| == 32;
    hide FIXED_EXTENSIONS, CIPHER_SUITES, Be16, Extensions, BodyWith, BodyOf, ExtensionsLen, HelloLen;
    ExtensionsLength(host);
    BodyWithLayout(sessionId, CIPHER_SUITES, Extensions(host));
  }

  /** The header fields and the body of a record, signed or not. */
  lemma RecordFields(host: seq<byte>, sessionId: seq<byte>)
    requires |sessionId| == 32 && |host| <= MAX_HOST
    ensures var r := BuildClientHello(host, sessionId);
            && |r| == 180 + |host| && r[0] == TLS_HANDSHAKE && r[5] == 0x01
            && ReadBe16(r[3], r[4]) == |r| - 5 && ReadBe24(r[6], r[7], r[8]) == |r| - 9
            && r[9..] == HelloBody(host, sessionId)
  {
    BuiltLayout(host, sessionId);
    var n, body := 171 + |host|, HelloBody(host, sessionId);
    hide HelloBody, ExtensionsLen, HelloLen;
    DigitsBe24(n);
    var len := Be16(4 + n);
    assert BuildClientHello(host, sessionId)
        == [TLS_HANDSHAKE, 0x03, 0x01, len[0], len[1], 0x01, n / 0x1_0000 % 0x100, n / 0x100 % 0x100, n % 0x100] + body;
  }

  lemma DigitsBe24(n: nat)
    requires n < 0x100_0000
    ensures ReadBe24(n / 0x1_0000 % 0x100, n / 0x100 % 0x100, n % 0x100) == n
  {
    var q := n / 0x100;
    var top := q / 0x100;
    assert n == 0x100 * q + n % 0x100 && q == 0x100 * top + q % 0x100;
    assert n / 0x1_0000 == top && top % 0x100 == top;
  }

  /** Signing touches nothing but the random field. */
  lemma SignedFields(p: Primitives, record: seq<byte>, secret: seq<byte>, timestamp: nat)
    requires |record| >= DIGEST_END && timestamp < 0x1_0000_0000
    ensures var s := Signed(p, record, secret, timestamp);
            && (forall i :: 0 <= i < DIGEST_POS ==> s[i] == record[i])
            && s[DIGEST_POS..DIGEST_END] == Digest(p, record, secret, timestamp)
            && s[9..] == record[9..DIGEST_POS] + Digest(p, record, secret, timestamp) + record[DIGEST_END..]
  {
    hide Digest;
    var d := Digest(p, record, secret, timestamp);
    Slices(record[..DIGEST_POS], d, record[DIGEST_END..]);
  }

  lemma SignedBody(built: seq<byte>, d: seq<byte>, tail: seq<byte>)
    requires |built| >= DIGEST_END && built[9..] == VERSION_12 + seq(DIGEST_LEN, _ => 0) + tail
    ensures built[9..DIGEST_POS] + d + built[DIGEST_END..] == VERSION_12 + d + tail
  {
    var body := built[9..];
    Slices(VERSION_12, seq(DIGEST_LEN, _ => 0), tail);
    assert built[9..DIGEST_POS] == body[..2] && built[DIGEST_END..] == body[34..];
  }

  lemma FirstSuite()
    ensures |CIPHER_SUITES| == 32 && SelectSuite(CIPHER_SUITES) == [0x13, 0x01]
  {
  }

  lemma BuiltLength(host: seq<byte>, sessionId: seq<byte>)
    requires |sessionId| == 32
    ensures |BuildClientHello(host, sessionId)| == 180 + |host|
  {
    ExtensionsLength(host);
    FirstSuite();
    hide FIXED_EXTENSIONS, CIPHER_SUITES, Be16, Extensions, ExtensionsLen, HelloLen, SelectSuite;
  }

  lemma ClientHelloFits(p: Primitives, host: seq<byte>, sessionId: seq<byte>, secret: seq<byte>, timestamp: nat, built: seq<byte>)
    requires |sessionId| == 32 && timestamp < 0x1_0000_0000 && p.utf8(host) && |host| <= MAX_HOST
    requires built == BuildClientHello(host, sessionId) && |built| == 180 + |host|
    ensures ParseClientHello(p, Signed(p, built, secret, timestamp), secret)
         == Some(ClientHello(Digest(p, built, secret, timestamp), sessionId, [0x13, 0x01], Some(host)))
  {
    hide FIXED_EXTENSIONS, CIPHER_SUITES, Be16, ExtensionsLen, HelloLen, SelectSuite, Sni, ParseBody, Authentic,
         Signed, Digest, BuildClientHello, HelloBody, BodyTail, ReadBe16, ReadBe24, SniExtension;
    var s, d := Signed(p, built, secret, timestamp), Digest(p, built, secret, timestamp);
    RecordFields(host, sessionId);
    SignedFields(p, built, secret, timestamp);
    SignedIsAuthentic(p, built, secret, timestamp);
    BuiltLayout(host, sessionId);
    FirstSuite();
    SignedBody(built, d, BodyTail(sessionId, CIPHER_SUITES, [0x00], Extensions(host)));
    ParseBodyFields(VERSION_12 + d, sessionId, CIPHER_SUITES, [0x00], Extensions(host), d, p.utf8);
    SniRoundTrip(host, FIXED_EXTENSIONS, p.utf8);
  }

  /**
    The round trip.  For every secret, timestamp and session id, a signed hello
    for a valid host is recognised with its session id, suite 0x1301 and that
    host if and only if the host is short enough for the 16-bit record length.
   */
  lemma ClientHelloIff(p: Primitives, host: seq<byte>, sessionId: seq<byte>, secret: seq<byte>, timestamp: nat, built: seq<byte>)
    requires |sessionId| == 32 && timestamp < 0x1_0000_0000 && p.utf8(host)
    requires built == BuildClientHello(host, sessionId)
    ensures |built| == 180 + |host|
    ensures ParseClientHello(p, Signed(p, built, secret, timestamp), secret)
         == if |host| <= 65360
            then Some(ClientHello(Digest(p, built, secret, timestamp), sessionId, [0x13, 0x01], Some(host)))
            else None
  {
    BuiltLength(host, sessionId);
    hide BuildClientHello, FIXED_EXTENSIONS, CIPHER_SUITES;
    if |host| <= MAX_HOST {
      ClientHelloFits(p, host, sessionId, secret, timestamp, built);
    } else {
      hide Signed, Digest, Authentic, ParseBody;
    }
  }

  // ----- Answering with a ServerHello -------------------------------------

  const SERVER_EXTENSIONS: seq<byte> := [
    0x00, 0x00, 0x2e, 0x00, 0x2b, 0x00, 0x02, 0x03, 0x04, 0x00, 0x33, 0x00, 0x24, 0x00, 0x1d, 0x00, 0x20]

  /** Everything of the ServerHello after its random field. */
  function ServerTail(hello: ClientHello, keyShare: seq<byte>): seq<byte>
    requires |hello.sessionId| < 0x100 && |hello.suite| == 2 && |keyShare| == 32
  {
    [|hello.sessionId|] + hello.sessionId + hello.suite + SERVER_EXTENSIONS + keyShare
  }

  /** The ServerHello message with a given random field. */
  function ServerBody(hello: ClientHello, keyShare: seq<byte>, random: seq<byte>): seq<byte>
    requires |hello.sessionId| < 0x100 && |hello.suite| == 2 && |keyShare| == 32
  {
    var n := 86 + |hello.sessionId|;
    [0x02, n / 0x1_0000 % 0x100, n / 0x100 % 0x100, n % 0x100] + VERSION_12 + random + ServerTail(hello, keyShare)
  }

  function ServerRecords(hello: ClientHello, keyShare: seq<byte>, cert: seq<byte>, random: seq<byte>): (rs: seq<Record>)
    requires |hello.sessionId| < 0x100 && |hello.suite| == 2 && |keyShare| == 32 && |cert| < 0x1_0000 && |random| == DIGEST_LEN
  {
    ServerBodyLength(hello, keyShare, random);
    [Record(TLS_HANDSHAKE, VERSION_12, ServerBody(hello, keyShare, random)),
     Record(TLS_CHANGE_CIPHER_SPEC, VERSION_12, [0x01]),
     Record(TLS_APPLICATION_DATA, VERSION_12, cert)]
  }

  lemma ServerBodyLength(hello: ClientHello, keyShare: seq<byte>, random: seq<byte>)
    requires |hello.sessionId| < 0x100 && |hello.suite| == 2 && |keyShare| == 32 && |random| == DIGEST_LEN
    ensures |ServerBody(hello, keyShare, random)| == 90 + |hello.sessionId|
  {
    assert |SERVER_EXTENSIONS| == 17;
  }

  /** The records on the wire, with the HMAC of client random and zeroed packet patched in. */
  function ServerHello(p: Primitives, secret: seq<byte>, hello: ClientHello, keyShare: seq<byte>, cert: seq<byte>): seq<byte>
    requires |hello.sessionId| < 0x100 && |hello.suite| == 2 && |keyShare| == 32 && |cert| < 0x1_0000
  {
    var packet := EncodeRecords(ServerRecords(hello, keyShare, cert, seq(DIGEST_LEN, _ => 0)));
    EncodedServer(hello, keyShare, cert, seq(DIGEST_LEN, _ => 0));
    packet[..DIGEST_POS] + p.hmac(secret, hello.random + packet) + packet[DIGEST_END..]
  }

  /** Bytes of the server's packet before its random field. */
  function ServerHead(hello: ClientHello): seq<byte>
    requires |hello.sessionId| < 0x100
  {
    var n := 86 + |hello.sessionId|;
    [TLS_HANDSHAKE] + VERSION_12 + Be16(4 + n) + [0x02, n / 0x1_0000 % 0x100, n / 0x100 % 0x100, n % 0x100] + VERSION_12
  }

  lemma EncodedServer(hello: ClientHello, keyShare: seq<byte>, cert: seq<byte>, random: seq<byte>)
    requires |hello.sessionId| < 0x100 && |hello.suite| == 2 && |keyShare| == 32 && |cert| < 0x1_0000 && |random| == DIGEST_LEN
    ensures |ServerHead(hello)| == DIGEST_POS
    ensures EncodeRecords(ServerRecords(hello, keyShare, cert, random))
         == ServerHead(hello) + random + (ServerTail(hello, keyShare) + EncodeRecords(ServerRecords(hello, keyShare, cert, random)[1..]))
  {
    ServerBodyLength(hello, keyShare, random);
    var rs := ServerRecords(hello, keyShare, cert, random);
    var rest, tail := EncodeRecords(rs[1..]), ServerTail(hello, keyShare);
    assert EncodeRecords(rs) == EncodeRecord(rs[0]) + rest;
    hide EncodeRecords, ServerTail, Be16, SERVER_EXTENSIONS, FIXED_EXTENSIONS, CIPHER_SUITES;
    var n := 86 + |hello.sessionId|;
    var a: seq<byte> := [0x02, n / 0x1_0000 % 0x100, n / 0x100 % 0x100, n % 0x100];
    Assoc(Header(rs[0]), a + VERSION_12, random + tail);
    assert EncodeRecord(rs[0]) == ServerHead(hello) + random + tail;
    Assoc(ServerHead(hello) + random, tail, rest);
  }

  /**
    What an upstream client sees: the packet is the three records with an
    authentic random field, and draining it leaves exactly what follows.
   */
  lemma ServerHelloDrains(p: Primitives, secret: seq<byte>, hello: ClientHello, keyShare: seq<byte>, cert: seq<byte>, tail: seq<byte>)
    requires |hello.sessionId| < 0x100 && |hello.suite| == 2 && |keyShare| == 32 && |cert| <= TLS_MAX_READ
    ensures var packet := ServerHello(p, secret, hello, keyShare, cert);
            && |packet| >= DIGEST_END
            && packet[DIGEST_POS..DIGEST_END] == p.hmac(secret, hello.random + Zeroed(packet))
            && packet == EncodeRecords(ServerRecords(hello, keyShare, cert, packet[DIGEST_POS..DIGEST_END]))
            && Drain(packet + tail, TLS_MAX_HANDSHAKE_RECORDS) == Some(tail)
  {
    var zeros := seq(DIGEST_LEN, _ => 0);
    var zeroed := EncodeRecords(ServerRecords(hello, keyShare, cert, zeros));
    var mac := p.hmac(secret, hello.random + zeroed);
    var rs := ServerRecords(hello, keyShare, cert, mac);
    var packet := ServerHello(p, secret, hello, keyShare, cert);
    EncodedServer(hello, keyShare, cert, zeros);
    EncodedServer(hello, keyShare, cert, mac);
    ServerBodyLength(hello, keyShare, mac);
    assert rs[1..] == ServerRecords(hello, keyShare, cert, zeros)[1..];
    ServerDrained(rs);
    var after := ServerTail(hello, keyShare) + EncodeRecords(rs[1..]);
    hide EncodeRecords, ServerTail, Be16, SERVER_EXTENSIONS, FIXED_EXTENSIONS, CIPHER_SUITES, ServerHead, Drain, ServerBody;
    Slices(ServerHead(hello), zeros, after);
    Slices(ServerHead(hello), mac, after);
    DrainRecords(rs, tail, TLS_MAX_HANDSHAKE_RECORDS);
    assert rs[3..] == [];
    NoRecords();
    assert [] + tail == tail;
  }

  lemma NoRecords()
    ensures EncodeRecords([]) == []
  {
  }

  lemma ServerDrained(rs: seq<Record>)
    requires |rs| == 3 && forall r :: r in rs ==> r.version == VERSION_12 && |r.payload| <= TLS_MAX_READ
    requires rs[0].kind == TLS_HANDSHAKE && rs[1].kind == TLS_CHANGE_CIPHER_SPEC && rs[2].kind == TLS_APPLICATION_DATA
    ensures DrainedRecords(rs, TLS_MAX_HANDSHAKE_RECORDS) == Some(3)
  {
    hide FIXED_EXTENSIONS, CIPHER_SUITES, SERVER_EXTENSIONS;
    var a, b, c := rs[0], rs[1], rs[2];
    assert a in rs && b in rs && c in rs;
    assert rs == [a, b, c] && rs[1..] == [b, c] && [b, c][1..] == [c];
    assert DrainedRecords([c], 18) == Some(1);
    assert DrainedRecords([b, c], 19) == Some(2);
  }
}
