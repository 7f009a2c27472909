/**
  The MTProto obfuscation layer (src/crypto.rs): the 64-byte init packets and
  the four ciphers of a proxied connection.
 */
module Crypto {
  import opened Bytes
  import opened Ctr
  import opened Framing

  const HANDSHAKE_LEN := 64
  const SKIP_LEN := 8
  const PREKEY_LEN := 32
  const IV_LEN := 16
  const KEY_END := 56
  const PROTO_TAG_POS := 56
  const DC_IDX_POS := 60

  type Packet = s: seq<byte> | |s| == HANDSHAKE_LEN witness seq(HANDSHAKE_LEN, _ => 0)
  type PrekeyIv = s: seq<byte> | |s| == PREKEY_LEN + IV_LEN witness seq(PREKEY_LEN + IV_LEN, _ => 0)
  type I16 = x: int | -0x8000 <= x < 0x8000

  // ----- Protocol tag and DC index ----------------------------------------

  function TagBytes(proto: ProtoTag): (r: seq<byte>)
    ensures |r| == 4 && TagFromBytes(r) == Some(proto)
  {
    match proto
    case Abridged => [0xef, 0xef, 0xef, 0xef]
    case Intermediate => [0xee, 0xee, 0xee, 0xee]
    case PaddedIntermediate => [0xdd, 0xdd, 0xdd, 0xdd]
  }

  function TagFromBytes(b: seq<byte>): (r: Option<ProtoTag>) {
    if b == [0xef, 0xef, 0xef, 0xef] then Some(Abridged)
    else if b == [0xee, 0xee, 0xee, 0xee] then Some(Intermediate)
    else if b == [0xdd, 0xdd, 0xdd, 0xdd] then Some(PaddedIntermediate)
    else None
  }

  /** `i16::to_le_bytes` */
  function DcBytes(dc: I16): (r: seq<byte>)
    ensures |r| == 2 && DcFromBytes(r[0], r[1]) == dc
  {
    var u: nat := if dc < 0 then dc + 0x1_0000 else dc;
    [u % 0x100, u / 0x100]
  }

  /** `i16::from_le_bytes` */
  function DcFromBytes(lo: byte, hi: byte): I16 {
    var u := ReadLe16(lo, hi);
    if u < 0x8000 then u else u - 0x1_0000
  }

  /** `u32 as i16` */
  function AsI16(n: nat): I16
    requires n <= 0x8000
  {
    if n < 0x8000 then n else n - 0x1_0000
  }

  /**
    The signed index the proxy rebuilds for the onward connection
    (src/proxy.rs:401-405).  Where the negation leaves the 16-bit range, a build
    with overflow checks stops (`None`) and one without wraps around.
   */
  function RebuiltIndex(dcId: nat, isMedia: bool, overflowChecks: bool): Option<I16>
    requires dcId <= 0x8000
  {
    if !isMedia then Some(AsI16(dcId))
    else if AsI16(dcId) != -0x8000 then Some(-AsI16(dcId))
    else if overflowChecks then None
    else Some(-0x8000)
  }

  // ----- Handshake parsing ------------------------------------------------

  datatype HandshakeInfo = HandshakeInfo(dcId: nat, isMedia: bool, proto: ProtoTag, prekeyIv: PrekeyIv)

  /** Keystream of a proxy session: the key is hashed with the proxy secret. */
  function SecretKs(p: Primitives, prekeyIv: PrekeyIv, secret: seq<byte>): Keystream {
    KeystreamOf(p, p.sha256(prekeyIv[..PREKEY_LEN] + secret), prekeyIv[PREKEY_LEN..])
  }

  /** Keystream of a Telegram session: the key is taken as it is. */
  function RawKs(p: Primitives, prekeyIv: PrekeyIv): Keystream {
    KeystreamOf(p, prekeyIv[..PREKEY_LEN], prekeyIv[PREKEY_LEN..])
  }

  function Embedded(packet: Packet): PrekeyIv { packet[SKIP_LEN..KEY_END] }

  /** The 8-byte tail of an init packet, decrypted. */
  function Tail(ks: Keystream, packet: Packet): (r: seq<byte>)
    ensures |r| == 8
  {
    Apply(ks, 0, packet)[PROTO_TAG_POS..]
  }

  function ParseHandshake(p: Primitives, handshake: Packet, secret: seq<byte>): (r: Option<HandshakeInfo>)
    ensures r.Some? ==> r.value.dcId <= 0x8000 && r.value.prekeyIv == Embedded(handshake)
  {
    var tail := Tail(SecretKs(p, Embedded(handshake), secret), handshake);
    match TagFromBytes(tail[..4])
    case None => None
    case Some(proto) =>
      var dc := DcFromBytes(tail[4], tail[5]);
      Some(HandshakeInfo(Abs(dc), dc < 0, proto, Embedded(handshake)))
  }

  /** Secret `k` is the first under which the handshake parses. */
  ghost predicate FirstMatch(p: Primitives, handshake: Packet, secrets: seq<seq<byte>>, k: nat) {
    && k < |secrets| && ParseHandshake(p, handshake, secrets[k]).Some?
    && forall j :: 0 <= j < k ==> ParseHandshake(p, handshake, secrets[j]).None?
  }

  /** The configured secrets are tried in turn. */
  method MatchSecret(p: Primitives, handshake: Packet, secrets: seq<seq<byte>>) returns (k: Option<nat>, info: Option<HandshakeInfo>)
    ensures k.Some? ==> FirstMatch(p, handshake, secrets, k.value) && info == ParseHandshake(p, handshake, secrets[k.value])
    ensures k.None? ==> info.None? && forall j :: 0 <= j < |secrets| ==> ParseHandshake(p, handshake, secrets[j]).None?
  {
    hide ParseHandshake;
    var i := 0;
    while i < |secrets|
      invariant 0 <= i <= |secrets| && forall j :: 0 <= j < i ==> ParseHandshake(p, handshake, secrets[j]).None?
    {
      info := ParseHandshake(p, handshake, secrets[i]);
      if info.Some? {
        return Some(i), info;
      }
      i := i + 1;
    }
    return None, None;
  }

  // ----- Init packet generation -------------------------------------------

  /** First bytes that Telegram or a middlebox would take for another protocol. */
  predicate Reserved(packet: Packet) {
    || packet[0] == 0xef
    || packet[..4] in [[0x48, 0x45, 0x41, 0x44], [0x50, 0x4f, 0x53, 0x54], [0x47, 0x45, 0x54, 0x20],
                       [0xee, 0xee, 0xee, 0xee], [0xdd, 0xdd, 0xdd, 0xdd], [0x16, 0x03, 0x01, 0x02]]
    || packet[4..8] == [0, 0, 0, 0]
  }

  /** Reserved are the abridged marker, three HTTP verbs, the other two tags, a TLS 1.0 record of 512-odd bytes and a zero second word. */
  lemma ReservedIff(packet: Packet)
    ensures Reserved(packet) <==>
              || packet[0] == 239
              || Spells(packet, "HEAD") || Spells(packet, "POST") || Spells(packet, "GET ")
              || (packet[0] == packet[1] == packet[2] == packet[3] && packet[0] in {221, 238})
              || (packet[0] == 22 && packet[1] == 3 && packet[2] == 1 && packet[3] == 2)
              || packet[4] == packet[5] == packet[6] == packet[7] == 0
  {
    var head := packet[..4];
    assert head == [packet[0], packet[1], packet[2], packet[3]];
    assert packet[4..8] == [packet[4], packet[5], packet[6], packet[7]];
  }

  ghost predicate Spells(packet: Packet, word: string) {
    |word| == 4 && forall j :: 0 <= j < 4 ==> packet[j] == word[j] as int
  }

  /** The first draw that is not reserved, as the reroll loops pick it. */
  ghost predicate FirstUsable(draws: seq<Packet>, k: nat) {
    k < |draws| && !Reserved(draws[k]) && forall i :: 0 <= i < k ==> Reserved(draws[i])
  }

  method PickDraw(draws: seq<Packet>) returns (r: Option<Packet>, ghost k: nat)
    ensures r.Some? ==> FirstUsable(draws, k) && r.value == draws[k]
    ensures r.None? ==> forall i :: 0 <= i < |draws| ==> Reserved(draws[i])
  {
    k := 0;
    var i := 0;
    while i < |draws|
      invariant 0 <= i <= |draws| && forall j :: 0 <= j < i ==> Reserved(draws[j])
    {
      if !Reserved(draws[i]) {
        k := i;
        return Some(draws[i]), k;
      }
      i := i + 1;
    }
    r := None;
  }

  /** `plain` written into `packet` at `at` so that decrypting shows it. */
  function Embed(ks: Keystream, packet: Packet, at: nat, plain: seq<byte>): (r: Packet)
    requires at + |plain| <= HANDSHAKE_LEN
  {
    packet[..at] + Apply(ks, at, plain) + packet[at + |plain|..]
  }

  /** Whatever was in the packet: the embedded bytes come out, the others are untouched. */
  lemma EmbedShows(ks: Keystream, packet: Packet, at: nat, plain: seq<byte>)
    requires at + |plain| <= HANDSHAKE_LEN
    ensures var r := Embed(ks, packet, at, plain);
            && r[..at] == packet[..at] && r[at + |plain|..] == packet[at + |plain|..]
            && Apply(ks, 0, r)[at..at + |plain|] == plain
            && Apply(ks, 0, r)[at + |plain|..] == Apply(ks, 0, packet)[at + |plain|..]
  {
    hide Apply, Reserved;
    var a, b, c := packet[..at], Apply(ks, at, plain), packet[at + |plain|..];
    ApplyAppend(ks, 0, a + b, c);
    ApplyAppend(ks, 0, a, b);
    ApplyCancels(ks, at, plain);
    assert packet == packet[..at + |plain|] + c;
    ApplyAppend(ks, 0, packet[..at + |plain|], c);
  }

  /** In-place form of `Embed`: mask the plaintext with the keystream and store it. */
  method EmbedInto(buf: array<byte>, at: nat, plain: seq<byte>, keystream: array<byte>, ghost ks: Keystream)
    requires buf.Length == HANDSHAKE_LEN == keystream.Length && buf != keystream
    requires at + |plain| <= HANDSHAKE_LEN
    requires forall i :: 0 <= i < HANDSHAKE_LEN ==> keystream[i] == ks(i)
    modifies buf
    ensures buf[..] == Embed(ks, old(buf[..]), at, plain)
  {
    for i := 0 to |plain|
      invariant forall k :: 0 <= k < i ==> buf[at + k] == Xor(plain[k], ks(at + k))
      invariant forall k :: 0 <= k < HANDSHAKE_LEN && !(at <= k < at + i) ==> buf[k] == old(buf[k])
    {
      buf[at + i] := Xor(plain[i], keystream[at + i]);
    }
    var masked := Apply(ks, at, plain);
    assert forall k :: 0 <= k < |plain| ==> buf[at + k] == masked[k];
  }

  /** Fill an array with the first 64 keystream bytes by masking zeros. */
  method KeystreamBlock(ks: Keystream) returns (block: array<byte>)
    ensures fresh(block) && block.Length == HANDSHAKE_LEN
    ensures forall i :: 0 <= i < HANDSHAKE_LEN ==> block[i] == ks(i)
  {
    block := new byte[HANDSHAKE_LEN](_ => 0);
    var cipher := new Cipher(ks);
    cipher.ApplyKeystream(block, 0, HANDSHAKE_LEN);
    forall i | 0 <= i < HANDSHAKE_LEN ensures block[i] == ks(i) {
      assert block[0..HANDSHAKE_LEN][i] == Xor(0, ks(0 + i));
      XorZero(ks(i));
    }
  }

  /**
    The packet an init generator sends for a usable draw: the draw itself with
    the tag and the DC index, and for the relay init also the padding, embedded
    in its last 8 bytes.
   */
  function InitPacket(ks: Keystream, draw: Packet, proto: ProtoTag, dc: I16, pad: seq<byte>): (r: Packet)
    requires |pad| <= 2
  {
    Embed(ks, draw, PROTO_TAG_POS, TagBytes(proto) + DcBytes(dc) + pad)
  }

  /** An init packet keeps its draw's key material and clean prefix, and decrypts to tag and index. */
  lemma InitPacketShows(ks: Keystream, draw: Packet, proto: ProtoTag, dc: I16, pad: seq<byte>)
    requires |pad| <= 2 && !Reserved(draw)
    ensures var r := InitPacket(ks, draw, proto, dc, pad);
            && Embedded(r) == Embedded(draw) && r[..56] == draw[..56] && !Reserved(r)
            && Tail(ks, r)[..6 + |pad|] == TagBytes(proto) + DcBytes(dc) + pad
            && r[62 + |pad|..] == draw[62 + |pad|..]
  {
    var plain := TagBytes(proto) + DcBytes(dc) + pad;
    var r := InitPacket(ks, draw, proto, dc, pad);
    EmbedShows(ks, draw, PROTO_TAG_POS, plain);
    hide Embed, Apply, TagBytes, DcBytes;
    assert r[..KEY_END][..8] == draw[..KEY_END][..8];
    assert r[..4] == r[..KEY_END][..4] && r[4..8] == r[..KEY_END][4..8];
    assert draw[..4] == draw[..KEY_END][..4] && draw[4..8] == draw[..KEY_END][4..8];
    assert r[0] == r[..KEY_END][0] && draw[0] == draw[..KEY_END][0];
    assert Embedded(r) == r[..KEY_END][SKIP_LEN..] && Embedded(draw) == draw[..KEY_END][SKIP_LEN..];
  }

  /** The init packet for the Telegram backend (raw keys). */
  method GenerateRelayInit(p: Primitives, proto: ProtoTag, dc: I16, draws: seq<Packet>, pad: seq<byte>)
    returns (r: Option<Packet>, ghost k: nat)
    requires |pad| == 2
    ensures r.Some? ==> FirstUsable(draws, k) && r.value == InitPacket(RawKs(p, Embedded(draws[k])), draws[k], proto, dc, pad)
    ensures r.None? ==> forall i :: 0 <= i < |draws| ==> Reserved(draws[i])
  {
    hide Reserved;
    var draw;
    draw, k := PickDraw(draws);
    if draw.None? {
      return None, k;
    }
    var ks := RawKs(p, Embedded(draw.value));
    var keystream := KeystreamBlock(ks);
    var result := new byte[HANDSHAKE_LEN](i requires 0 <= i < HANDSHAKE_LEN => draw.value[i]);
    assert result[..] == draw.value;
    EmbedInto(result, PROTO_TAG_POS, TagBytes(proto) + DcBytes(dc) + pad, keystream, ks);
    r := Some(result[..]);
  }

  /** The ciphers of one side of an obfuscated session: a keystream and a position each way. */
  datatype Session = Session(send: Keystream, sendPos: nat, recv: Keystream, recvPos: nat)

  /**
    The handshake sent to an upstream proxy and the two session ciphers: `enc`
    is past the handshake, `dec` uses the reversed key material.
   */
  method GenerateClientHandshake(p: Primitives, secret: seq<byte>, dc: I16, proto: ProtoTag, draws: seq<Packet>)
    returns (r: Option<(Packet, Cipher, Cipher)>, ghost k: nat)
    ensures r.Some? ==>
              && FirstUsable(draws, k) && fresh(r.value.1) && fresh(r.value.2)
              && r.value.0 == InitPacket(SecretKs(p, Embedded(draws[k]), secret), draws[k], proto, dc, [])
              && ClientKeys(p, r.value.0, secret, Session(r.value.1.ks, r.value.1.pos, r.value.2.ks, r.value.2.pos))
    ensures r.None? ==> forall i :: 0 <= i < |draws| ==> Reserved(draws[i])
  {
    var draw;
    draw, k := PickDraw(draws);
    if draw.None? {
      return None, k;
    }
    InitPacketShows(SecretKs(p, Embedded(draw.value), secret), draw.value, proto, dc, []);
    hide Reserved;
    var ks := SecretKs(p, Embedded(draw.value), secret);
    var keystream := KeystreamBlock(ks);
    var handshake := new byte[HANDSHAKE_LEN](i requires 0 <= i < HANDSHAKE_LEN => draw.value[i]);
    assert handshake[..] == draw.value;
    EmbedInto(handshake, PROTO_TAG_POS, TagBytes(proto), keystream, ks);
    ghost var half := handshake[..];
    EmbedInto(handshake, DC_IDX_POS, DcBytes(dc), keystream, ks);
    EmbedTwice(ks, draw.value, PROTO_TAG_POS, TagBytes(proto), DcBytes(dc));
    assert TagBytes(proto) + DcBytes(dc) + [] == TagBytes(proto) + DcBytes(dc);

    var enc := new Cipher(SecretKs(p, Embedded(handshake[..]), secret));
    enc.FastForward(HANDSHAKE_LEN);
    var dec := new Cipher(SecretKs(p, Reverse(Embedded(handshake[..])), secret));
    SessionKeys(p, handshake[..], secret);
    r := Some((handshake[..], enc, dec));
  }

  lemma EmbedTwice(ks: Keystream, packet: Packet, at: nat, a: seq<byte>, b: seq<byte>)
    requires at + |a| + |b| <= HANDSHAKE_LEN
    ensures Embed(ks, Embed(ks, packet, at, a), at + |a|, b) == Embed(ks, packet, at, a + b)
  {
    ApplyAppend(ks, at, a, b);
    hide Apply;
  }

  // ----- Cipher pairing ---------------------------------------------------

  /** What the client of a proxy uses after sending `handshake`. */
  function ClientSession(p: Primitives, handshake: Packet, secret: seq<byte>): Session {
    Session(SecretKs(p, Embedded(handshake), secret), HANDSHAKE_LEN,
            SecretKs(p, Reverse(Embedded(handshake)), secret), 0)
  }

  /** What Telegram uses after receiving `init`: it mirrors the relay's raw keys. */
  function TelegramSession(p: Primitives, init: Packet): Session {
    Session(RawKs(p, Reverse(Embedded(init))), 0, RawKs(p, Embedded(init)), HANDSHAKE_LEN)
  }

  /** Two sides understand each other both ways. */
  ghost predicate Paired(sendA: Cipher, recvA: Cipher, b: Session)
    reads sendA, recvA
  {
    && sendA.ks == b.recv && sendA.pos == b.recvPos
    && recvA.ks == b.send && recvA.pos == b.sendPos
  }

  // ----- The two peers, by the obfuscation format alone --------------------

  /** The 48 key bytes of an init packet, last one first. */
  ghost function Mirrored(packet: Packet): (r: PrekeyIv)
    ensures forall k :: 0 <= k < 48 ==> r[k] == packet[55 - k]
  {
    seq(48, k requires 0 <= k < 48 => packet[55 - k])
  }

  /**
    A client of a proxy, after sending `h`: AES-256-CTR keyed with the SHA-256
    of 32 key bytes and the secret, the other 16 bytes being the IV.  Its own
    stream goes on after the 64 bytes of `h`, the other one starts at 0.
   */
  ghost predicate ClientKeys(p: Primitives, h: Packet, secret: seq<byte>, c: Session) {
    var r := Mirrored(h);
    && c.sendPos == 64 && c.recvPos == 0
    && (forall i: nat :: c.send(i) == p.aesCtr(p.sha256(h[8..40] + secret), h[40..56], i))
    && (forall i: nat :: c.recv(i) == p.aesCtr(p.sha256(r[..32] + secret), r[32..48], i))
  }

  /** Telegram, after receiving `init`: the key bytes are the key. */
  ghost predicate TelegramKeys(p: Primitives, init: Packet, t: Session) {
    var r := Mirrored(init);
    && t.recvPos == 64 && t.sendPos == 0
    && (forall i: nat :: t.recv(i) == p.aesCtr(init[8..40], init[40..56], i))
    && (forall i: nat :: t.send(i) == p.aesCtr(r[..32], r[32..48], i))
  }

  /**
    The packet announces this protocol and this DC under this keystream: four
    equal tag bytes at 56, then the index as a little-endian two's complement.
   */
  ghost predicate Announces(ks: Keystream, packet: Packet, proto: ProtoTag, dc: I16) {
    var tag := if proto == Abridged then 0xef else if proto == Intermediate then 0xee else 0xdd;
    var lo: int, hi: int := Xor(packet[60], ks(60)), Xor(packet[61], ks(61));
    && Xor(packet[56], ks(56)) == tag && Xor(packet[57], ks(57)) == tag
    && Xor(packet[58], ks(58)) == tag && Xor(packet[59], ks(59)) == tag
    && lo + 256 * hi == if dc < 0 then dc + 65536 else dc
  }

  lemma MirroredKeys(packet: Packet)
    ensures Mirrored(packet) == Reverse(Embedded(packet))
    ensures Embedded(packet)[..32] == packet[8..40] && Embedded(packet)[32..] == packet[40..56]
    ensures Mirrored(packet)[32..48] == Mirrored(packet)[32..]
  {
  }

  /** The sessions of both peers are the ones the format describes. */
  lemma SessionKeys(p: Primitives, packet: Packet, secret: seq<byte>)
    ensures ClientKeys(p, packet, secret, ClientSession(p, packet, secret))
    ensures TelegramKeys(p, packet, TelegramSession(p, packet))
  {
    MirroredKeys(packet);
  }

  /** The format leaves no choice: byte for byte there is one such session. */
  lemma OneSession(p: Primitives, packet: Packet, secret: seq<byte>, c: Session, t: Session)
    requires ClientKeys(p, packet, secret, c) && TelegramKeys(p, packet, t)
    ensures forall i: nat :: c.send(i) == SecretKs(p, Embedded(packet), secret)(i)
    ensures forall i: nat :: c.recv(i) == SecretKs(p, Reverse(Embedded(packet)), secret)(i)
    ensures forall i: nat :: t.recv(i) == RawKs(p, Embedded(packet))(i)
    ensures forall i: nat :: t.send(i) == RawKs(p, Reverse(Embedded(packet)))(i)
  {
    MirroredKeys(packet);
  }

  lemma TailAt(ks: Keystream, packet: Packet, j: nat)
    requires j < 8
    ensures Tail(ks, packet)[j] == Xor(packet[56 + j], ks(56 + j))
  {
  }

  /** The decrypted tail, as fields, is what the packet announces. */
  lemma AnnouncesIff(ks: Keystream, packet: Packet, proto: ProtoTag, dc: I16)
    ensures var t := Tail(ks, packet);
            Announces(ks, packet, proto, dc) <==> t[..4] == TagBytes(proto) && DcFromBytes(t[4], t[5]) == dc
  {
    var t := Tail(ks, packet);
    forall j | 0 <= j < 8 ensures t[j] == Xor(packet[56 + j], ks(56 + j)) {
      TailAt(ks, packet, j);
    }
    hide Tail;
    assert t[..4] == [t[0], t[1], t[2], t[3]];
  }

  /**
    The proxy accepts a handshake exactly if it announces, under the keys of a
    client that knows the secret, one of the three protocols, and it reads the
    announced protocol, DC and media flag.
   */
  lemma HandshakeParsedIff(p: Primitives, h: Packet, secret: seq<byte>, c: Session, proto: ProtoTag, dc: I16)
    requires ClientKeys(p, h, secret, c)
    ensures ParseHandshake(p, h, secret) == Some(HandshakeInfo(Abs(dc), dc < 0, proto, h[8..56])) <==> Announces(c.send, h, proto, dc)
    ensures ParseHandshake(p, h, secret).None? ==> !Announces(c.send, h, proto, dc)
  {
    var ks := SecretKs(p, Embedded(h), secret);
    OneSession(p, h, secret, c, TelegramSession(p, h)) by { SessionKeys(p, h, secret); }
    ApplySame(c.send, ks, 0, h);
    AnnouncesIff(c.send, h, proto, dc);
    hide Apply, Announces, SecretKs;
    assert Tail(c.send, h) == Tail(ks, h);
  }

  class ConnectionCiphers {
    const cltDec: Cipher
    const cltEnc: Cipher
    const tgEnc: Cipher
    const tgDec: Cipher

    /** Four distinct ciphers. */
    predicate Separate() {
      cltDec != cltEnc && cltDec != tgEnc && cltDec != tgDec && cltEnc != tgEnc && cltEnc != tgDec && tgEnc != tgDec
    }

    /**
      The proxy's ciphers pair with the client that sent a handshake carrying
      `prekeyIv` and with the Telegram side that received `relayInit`.
     */
    constructor (p: Primitives, prekeyIv: PrekeyIv, secret: seq<byte>, relayInit: Packet)
      ensures fresh(cltDec) && fresh(cltEnc) && fresh(tgEnc) && fresh(tgDec) && Separate()
      ensures forall handshake: Packet :: Embedded(handshake) == prekeyIv ==>
                Paired(cltEnc, cltDec, ClientSession(p, handshake, secret))
      ensures Paired(tgEnc, tgDec, TelegramSession(p, relayInit))
      ensures forall h: Packet :: h[8..56] == prekeyIv ==>
                ClientKeys(p, h, secret, Session(cltDec.ks, cltDec.pos, cltEnc.ks, cltEnc.pos))
      ensures TelegramKeys(p, relayInit, Session(tgDec.ks, tgDec.pos, tgEnc.ks, tgEnc.pos))
    {
      var dec := new Cipher(SecretKs(p, prekeyIv, secret));
      var enc := new Cipher(SecretKs(p, Reverse(prekeyIv), secret));
      dec.FastForward(HANDSHAKE_LEN);
      var up := new Cipher(RawKs(p, Embedded(relayInit)));
      var down := new Cipher(RawKs(p, Reverse(Embedded(relayInit))));
      up.FastForward(HANDSHAKE_LEN);
      cltDec, cltEnc, tgEnc, tgDec := dec, enc, up, down;
      forall h: Packet | h[8..56] == prekeyIv ensures ClientKeys(p, h, secret, Session(dec.ks, dec.pos, enc.ks, enc.pos)) {
        SessionKeys(p, h, secret);
        assert Embedded(h) == prekeyIv;
      }
      SessionKeys(p, relayInit, secret);
      hide ClientKeys, TelegramKeys;
    }
  }

  /**
    A generated handshake, seen by anyone: it is the draw with only the six
    announcing bytes replaced, so its key material and clean prefix are the
    draw's; under the keys those bytes give, it announces the protocol and DC
    that went in; and the proxy at the far end reads exactly them.
   */
  lemma HandshakeRoundTrip(p: Primitives, draw: Packet, secret: seq<byte>, dc: I16, proto: ProtoTag, c: Session)
    requires !Reserved(draw) && ClientKeys(p, draw, secret, c)
    ensures var h := InitPacket(SecretKs(p, Embedded(draw), secret), draw, proto, dc, []);
            && h[..56] == draw[..56] && h[62..] == draw[62..] && !Reserved(h)
            && ClientKeys(p, h, secret, c) && Announces(c.send, h, proto, dc)
            && ParseHandshake(p, h, secret) == Some(HandshakeInfo(Abs(dc), dc < 0, proto, draw[8..56]))
  {
    var ks := SecretKs(p, Embedded(draw), secret);
    var h := InitPacket(ks, draw, proto, dc, []);
    InitPacketShows(ks, draw, proto, dc, []);
    OneSession(p, draw, secret, c, TelegramSession(p, draw)) by { SessionKeys(p, draw, secret); }
    ApplySame(c.send, ks, 0, h);
    hide InitPacket, Reserved, Apply;
    TailFields(Tail(ks, h), proto, dc, []);
    AnnouncesIff(c.send, h, proto, dc);
    SameKeys(p, draw, h, secret, c);
    HandshakeParsedIff(p, h, secret, c, proto, dc);
  }

  lemma SameKeys(p: Primitives, a: Packet, b: Packet, secret: seq<byte>, c: Session)
    requires ClientKeys(p, a, secret, c) && Embedded(a) == Embedded(b)
    ensures ClientKeys(p, b, secret, c)
  {
    MirroredKeys(a);
    MirroredKeys(b);
  }

  lemma SameRawKeys(p: Primitives, a: Packet, b: Packet, t: Session)
    requires TelegramKeys(p, a, t) && Embedded(a) == Embedded(b)
    ensures TelegramKeys(p, b, t)
  {
    MirroredKeys(a);
    MirroredKeys(b);
  }

  /**
    The relay init, seen by Telegram: the draw with its last eight bytes
    replaced; under the raw keys it announces the protocol and the DC and ends
    in the padding.
   */
  lemma RelayInitRoundTrip(p: Primitives, draw: Packet, dc: I16, proto: ProtoTag, pad: seq<byte>, t: Session)
    requires !Reserved(draw) && |pad| == 2 && TelegramKeys(p, draw, t)
    ensures var r := InitPacket(RawKs(p, Embedded(draw)), draw, proto, dc, pad);
            && r[..56] == draw[..56] && !Reserved(r) && TelegramKeys(p, r, t)
            && Announces(t.recv, r, proto, dc)
            && Xor(r[62], t.recv(62)) == pad[0] && Xor(r[63], t.recv(63)) == pad[1]
  {
    var ks := RawKs(p, Embedded(draw));
    var r := InitPacket(ks, draw, proto, dc, pad);
    InitPacketShows(ks, draw, proto, dc, pad);
    OneSession(p, draw, [], ClientSession(p, draw, []), t) by { SessionKeys(p, draw, []); }
    ApplySame(t.recv, ks, 0, r);
    hide InitPacket, Reserved, Apply;
    var tail := Tail(ks, r);
    assert tail[..8] == tail && tail[6] == pad[0] && tail[7] == pad[1];
    TailFields(tail, proto, dc, pad);
    AnnouncesIff(t.recv, r, proto, dc);
    TailAt(t.recv, r, 6);
    TailAt(t.recv, r, 7);
    SameRawKeys(p, draw, r, t);
  }

  lemma TailFields(tail: seq<byte>, proto: ProtoTag, dc: I16, pad: seq<byte>)
    requires |tail| == 8 && |pad| <= 2 && tail[..6 + |pad|] == TagBytes(proto) + DcBytes(dc) + pad
    ensures tail[..4] == TagBytes(proto) && [tail[4], tail[5]] == DcBytes(dc) && DcFromBytes(tail[4], tail[5]) == dc
  {
    var s := tail[..6 + |pad|];
    assert tail[..4] == s[..4] && tail[4] == s[4] && tail[5] == s[5];
    assert s[4] == DcBytes(dc)[0] && s[5] == DcBytes(dc)[1];
  }

  /**
    The index forwarded upstream is the client's own one: always in a build that
    wraps, and with overflow checks for every index but the one whose absolute
    value has no 16-bit representation.
   */
  lemma RebuiltIndexIff(dc: I16, overflowChecks: bool)
    ensures RebuiltIndex(Abs(dc), dc < 0, overflowChecks) == Some(dc) <==> !(overflowChecks && dc == -0x8000)
  {
    if dc < 0 && dc != -0x8000 {
      assert AsI16(-dc) == -dc;
    }
  }

  // ----- Proxy secrets ----------------------------------------------------

  const PREFIXED_SECRET_LEN := 17

  predicate HasModePrefix(raw: seq<byte>) { |raw| >= PREFIXED_SECRET_LEN && (raw[0] == 0xdd || raw[0] == 0xee) }

  /** The key a secret carries. */
  function SecretKey(raw: seq<byte>): seq<byte> {
    if HasModePrefix(raw) then raw[1..PREFIXED_SECRET_LEN] else raw
  }

  /** The FakeTLS hostname an `ee` secret carries. */
  function FakeTlsHostname(raw: seq<byte>): Option<seq<byte>> {
    if |raw| > PREFIXED_SECRET_LEN && raw[0] == 0xee then Some(raw[PREFIXED_SECRET_LEN..]) else None
  }

  /** Printing a secret and reading it back, in all three layouts. */
  lemma SecretLayouts(key: seq<byte>, host: seq<byte>)
    requires |key| == 16
    ensures SecretKey([0xee] + key + host) == key
    ensures FakeTlsHostname([0xee] + key + host) == if host == [] then None else Some(host)
    ensures SecretKey([0xdd] + key) == key == SecretKey([0xdd] + key + host) && FakeTlsHostname([0xdd] + key + host) == None
    ensures SecretKey(key) == key && FakeTlsHostname(key) == None
    ensures forall raw: seq<byte> :: raw != [] && raw[0] != 0xdd && raw[0] != 0xee ==> SecretKey(raw) == raw && FakeTlsHostname(raw) == None
  {
    var s := [0xee] + key + host;
    assert s[1..PREFIXED_SECRET_LEN] == key && s[PREFIXED_SECRET_LEN..] == host;
    assert ([0xdd] + key)[1..PREFIXED_SECRET_LEN] == key == ([0xdd] + key + host)[1..PREFIXED_SECRET_LEN];
  }
}
