# Verification of the Telegram MTProto-to-WebSocket bridge

A Dafny model of the parts of the bridge where a mistake is hard to see by reading:
the byte pipeline between a Telegram client and a Telegram data centre (DC), the
connection pool and its file-descriptor budget, the fallback ladder with its
cooldowns, and two smaller protocols (chunked HTTP bodies, the Android life cycle).
`dafny verify dfyconfig.toml` checks everything.

## What is modelled

**Byte pipeline.** AES-256-CTR, SHA-256 and HMAC are uninterpreted functions held
in `Ctr.Primitives`; a cipher is a keystream and a position (`Ctr`), so CTR mode
(section 6.5 of NIST SP 800-38A) is masking with consecutive keystream bytes. On top of it:

- `Framing` says what a cut of a byte stream into MTProto packets is (the public
  Abridged, Intermediate and Padded intermediate transports); `Splitter` is the
  incremental in-place parser, proved to compute that cut under any segmentation.
- `Crypto` has the 64-byte handshake and relay init and the four session ciphers;
  random draws are a parameter, and a draw is used if it passes the reserved-prefix test.
  The two peers are described by the obfuscation format alone, in packet offsets and
  primitives (`ClientKeys`, `TelegramKeys`, `Announces`), and the end-to-end theorems are about such peers.
- `Records` is TLS record framing (sections 5.1 and 5.2 of RFC 8446), `Hello` the
  disguised ClientHello (section 4.1.2 of RFC 8446, SNI from section 3 of RFC 6066)
  and ServerHello, `HelloWire` both of them byte by byte and a TLS 1.3 client's reading
  of the answer, `Inbound` the collection of the init out of client records.
- `Bridge` puts them together, up to "Telegram decrypts exactly what the client sent", and
  `Connection` adds the greeting, so that its last theorem covers a FakeTLS connection from
  its first byte on.

**Pool and descriptors.** `Pool` holds the locked operations, `PoolRun` a state
machine whose steps are lock regions, dials, permits and task endings in any order,
`CfPool` the same for spare Cloudflare connections, `Limits` the descriptor formula
in saturating machine arithmetic. `PoolWork` and `CfWork` say what a refill achieves, and
show that the pool objects carry out every run of the machines with their own operations.

**Ladder.** `Cooldowns`, `Rotation` and `CfDial` model `src/ws_client.rs`; `Ladder`
models the default and the pinned ladder of `src/proxy.rs`. Time is a natural number
and the network an oracle. `Network.Net` is what one connection shares with all the
others: before each access to it, the other tasks may have left any cooldowns,
counters and time whatsoever, so the ladder theorems hold for every interleaving.
Every access (a dial with its target and result, a look into a pool or at a cooldown,
a turn of a counter, a note) is one event of the log of the `Net`, which has as many
events as there were accesses and reports each world truthfully. The contracts of the
dialling methods and of both ladders say exactly which events they append, and the
ladder theorems are about those logs.
The six cooldown maps are one map over the tagged union of their keys. `IpRun`
interleaves direct attempts of many connections step by step, `NameRun` attempts on
Workers and upstream proxies.

**Smaller protocols.** `Chunked` (section 7.1 of RFC 9112) reads a body in arbitrary
portions, `ChunkedExact` shows that it accepts nothing but encodings; `Android` interleaves start, stop and the worker thread.

## Properties that are not as simple as they look

- A bucket of the pool is bounded by twice the pool size, not by the pool size: warm-up
  stores without looking (`PoolRun.BoundIsReached`).
- Feeding the splitter in two reads equals feeding it at once exactly if it was not
  disabled by a zero-length header in the first (`Framing.FeedTwiceIff`).
- A ClientHello comes back exactly for host names of at most 65360 bytes (`Hello.ClientHelloIff`).
- The DC index -32768 survives only in a build that wraps (`Crypto.RebuiltIndexIff`): the code negates it
  as a 16-bit number. The release profile does not check overflows.
- A pinned ladder is never starved by cooldowns exactly if it is `Guaranteed`
  (`Ladder.NeverStarvedIff`): the check for a later tier counts a Worker that has no
  destination (`src/proxy.rs:840`), although that rung is skipped (`src/proxy.rs:779-785`).
- With `--cf-balance` off, or nothing to balance or pool, every pooled proxy connection carries the
  record of its DC; in every other configuration some run stores a bare zone (`CfPool.TagsHold`, `CfPool.TagsFail`).
- The cooldown of a DC is read twice in one attempt (`src/proxy.rs:1181` and `src/proxy.rs:1217`). If it turns
  from clear to cooling in between, because another attempt of the DC has failed, a short-budget timeout
  cools the address; in every other case only a full-budget one does (`IpRun.OnlyFullBudget`,
  `IpRun.FlipIsExact`, `IpRun.FlipIff`). Turning from cooling to clear is harmless.
- A get takes an entry's age before it waits for the pool's lock, so a connection may have passed the
  age limit by that wait (`PoolRun.GetIsFreshest`).
- The comment at `crates/android-jni/src/android.rs:279` says that a reported stop means startable. The
  worker is still there while it makes the report, so a start made at that moment is refused
  (`Android.StartableIff`, `Android.ReportedYetRefused`).

## Model

| member | source | states |
|---|---|---|
| `Ctr.ApplyCancels` | src/crypto.rs:234-247 | masking twice at the same position gives the data back |
| `Ctr.ApplyAt` | src/crypto.rs:234-247 | bit by bit: byte i of a message is flipped by exactly the set bits of keystream byte position + i |
| `Ctr.ApplyAppend` | src/crypto.rs:234-247 | masking piecewise equals masking at once: no keystream byte is reused or skipped |
| `Ctr.ApplyPartsFlatten` | src/splitter.rs:156-160 | parts encrypted one after the other are the encryption of their concatenation |
| `Ctr.Cipher.ApplyKeystream` | src/crypto.rs:245-247 | the in-place loop masks exactly the given range, leaves the rest of the buffer, and advances by its length |
| `Framing.PacketLenFits` | src/splitter.rs:122-154 | no announced length overflows a machine word |
| `Framing.PacketLenStable` | src/splitter.rs:111-154 | once a header announces a length, more bytes do not change it, and a non-zero length is longer than its header |
| `Framing.SplitConserves` | src/splitter.rs:43-98 | the packets and the unfinished rest are exactly the stream |
| `Framing.SplitPackets` | src/splitter.rs:64-95 | every packet cut out is non-empty and as long as its own header says |
| `Framing.SplitRest` | src/splitter.rs:55-95 | the rest announces length zero exactly if cutting was given up, and otherwise holds no whole packet |
| `Framing.SplitAppend` | src/splitter.rs:43-98 | cutting a concatenation is resuming the cut of its first part |
| `Framing.FeedKeeps` | src/splitter.rs:43-98 | one call keeps the state well-formed and loses no byte |
| `Framing.FeedTwiceIff` | src/splitter.rs:43-98 | two calls give the parts and state of one call exactly if one is empty or no zero-length header came in the first |
| `Framing.FeedAllConserves` | src/splitter.rs:43-109 | over any list of chunks with the final flush, the parts are exactly the stream |
| `Framing.FeedAllSegmentation` | src/splitter.rs:43-98 | any chunking yields the cut of the whole stream; after a zero-length header the earlier parts are still the same |
| `Framing.HeaderAnnounces` | src/splitter.rs:122-154 | each transport's header, short and long, announces its packet |
| `Framing.SplitEncoded` | src/splitter.rs:55-95 | the encoding of a packet list is cut into exactly that list |
| `Framing.FramingRoundTrip` | src/splitter.rs:43-109 | for every packet list, transport and chunking: one part per packet, nothing pending |
| `Splitter.MsgSplitter.constructor` | src/splitter.rs:30-41 | a new splitter is in the start state |
| `Splitter.MsgSplitter.RequiredHeader` | src/splitter.rs:111-120 | the field-based test computes how many header bytes are needed |
| `Splitter.MsgSplitter.ParsedPacketLen` | src/splitter.rs:122-154 | the field-based parser computes the announced packet length |
| `Splitter.MsgSplitter.TakeHeader` | src/splitter.rs:57-72 | header bytes are collected and encrypted into the packet, in step with the cipher |
| `Splitter.MsgSplitter.TakeBody` | src/splitter.rs:83-88 | body bytes are encrypted into the packet up to its length |
| `Splitter.MsgSplitter.SplitAndEncrypt` | src/splitter.rs:43-98 | the loop emits the encrypted packets of `Feed`, encrypts the buffer in place and advances the cipher by its length |
| `Splitter.MsgSplitter.Flush` | src/splitter.rs:101-109 | what was pending comes out once |
| `Crypto.PickDraw` | src/crypto.rs:184-201 | the reroll loop takes the first draw that is not reserved |
| `Crypto.InitPacketShows` | src/crypto.rs:203-227 | an init packet keeps key material and unreserved prefix, shows tag and DC index under its keystream, and is random elsewhere |
| `Crypto.GenerateRelayInit` | src/crypto.rs:180-229 | the in-place generator builds that packet from the first usable draw |
| `Crypto.GenerateClientHandshake` | src/crypto.rs:261-341 | so does the client side, and its two ciphers are those of a client that sent the packet |
| `Crypto.ConnectionCiphers.constructor` | src/crypto.rs:361-421 | the four ciphers are distinct; keystream byte i is AES-CTR under SHA-256(bytes 8-39 and secret) with IV 40-55 for the client, the reversed 48 bytes the other way, without the hash for Telegram; receiving from the client and sending to Telegram start at 64, the others at 0 |
| `Crypto.HandshakeRoundTrip` | src/crypto.rs:123-157 | a generated handshake differs from its draw in six bytes only, announces protocol and DC under the keys its own bytes and the secret give, and is read back so, for every secret and index |
| `Crypto.HandshakeParsedIff` | src/crypto.rs:123-157 | any 64 bytes are accepted as this protocol, DC and media flag exactly if bytes 56-61, unmasked with the client's keystream, are the tag four times and the little-endian index |
| `Crypto.MatchSecret` | src/proxy.rs:383-386 | the secrets are tried in turn and the first under which the handshake parses is taken |
| `Crypto.SessionKeys` | src/crypto.rs:361-421 | the sessions of both peers in packet offsets and primitives |
| `Crypto.ReservedIff` | src/crypto.rs:161-171 | the reserved prefixes spelled out: first byte 0xef, HEAD, POST, GET, the two other tags, a TLS record start, a zero second word |
| `Crypto.RelayInitRoundTrip` | src/crypto.rs:180-229 | under the raw keys its own bytes give, the relay init announces the protocol and DC and ends in the padding; its first 56 bytes are the draw's |
| `Crypto.RebuiltIndexIff` | src/proxy.rs:401-405 | the rebuilt signed index is the original in every build that wraps, and with overflow checks exactly if it is not -32768 |
| `Crypto.SecretLayouts` | src/crypto.rs:78-102 | plain, padded and FakeTLS secrets all yield their 16-byte key, and only the last a host name |
| `Records.RecordRoundTrip` | src/faketls.rs:350-371 | a written record is type, version, big-endian length and payload; it is read back whole and exactly its bytes are consumed |
| `Records.ByteStream.ReadExact` | src/faketls.rs:360-369 | a full read takes exactly its bytes; a short stream is an error that leaves nothing |
| `Records.ReadTlsAppData` | src/faketls.rs:485-525 | the read loop returns the next application data, skipping ChangeCipherSpec, and nothing after an empty, oversized, foreign or truncated record |
| `Records.ReadAllRecords` | src/faketls.rs:485-525 | repeated reads deliver record by record up to the first that stops them |
| `Records.DeliveredIff` | src/faketls.rs:485-525 | all application bytes are delivered exactly if none comes after a record that stops the reader |
| `Records.DeliveredUpTo` | src/faketls.rs:485-525 | what is delivered is what comes before the first record that is too long, empty, or neither Application Data nor ChangeCipherSpec |
| `Records.AppRecordsCarry` | src/faketls.rs:455-478 | written records are Application Data of TLS 1.2 and carry exactly the data, all but the last 16384 bytes long, none empty |
| `Records.WriteTlsAppData` | src/faketls.rs:455-478 | the write loop emits those records |
| `Records.WriteReadRoundTrip` | src/faketls.rs:455-525 | reading back any sequence of writes gives their concatenation |
| `Records.CutRecords` | src/faketls.rs:455-525 | a writer cut off at any byte has delivered a prefix of its data |
| `Records.DrainServerHello` | src/faketls.rs:402-447 | the draining loop succeeds, and stops, where its specification does |
| `Records.DrainRecords` | src/faketls.rs:402-447 | on a record list, draining consumes records up to the first application data and no byte more |
| `Records.DrainsIff` | src/faketls.rs:402-447 | draining succeeds exactly if an Application Data record within the first twenty comes after handshake and ChangeCipherSpec records only, all of TLS 1.2 and at most 16640 bytes |
| `Inbound.PendingData.Read` | src/proxy.rs:145-170 | hands out the surplus in order, as much as fits, and says none exactly when it is used up |
| `Inbound.ReadRecordBytes` | src/faketls.rs:373-390 | one record with its header, refused above the record limit |
| `Inbound.AcceptInit` | src/proxy.rs:246-268 | the collection loop finds the 64-byte init, the surplus and the position after it |
| `Inbound.ClientReader.Read` | src/proxy.rs:173-185 | surplus first, then the next application data |
| `Inbound.ClientReader.ReadSession` | src/proxy.rs:1365-1373 | the reads of a session are the surplus and then the delivered records |
| `Inbound.CollectRecords` | src/proxy.rs:246-268 | from any usable record list the init and the surplus are cut at the right byte |
| `Inbound.CollectsIff` | src/proxy.rs:246-268 | from any list of records an init is collected exactly if 64 application bytes come before the first record that is too long, empty or of another type |
| `Inbound.InboundRecovery` | src/proxy.rs:145-268 | however init and payload are cut into records, with ChangeCipherSpec anywhere: first 64 bytes, then exactly the rest, for any surplus read size |
| `Bridge.Sink.SendParts` | src/proxy.rs:1382-1389 | messages are sent in order until the sink fails |
| `Bridge.ForwardRead` | src/proxy.rs:1377-1399 | one read is decrypted, cut or tunnelled, and re-encrypted in step with both ciphers |
| `Bridge.UploadWs` | src/proxy.rs:1355-1447 | the upload task sends the init, the parts of every read and the flush, or a prefix of them if sending fails |
| `Bridge.WireRoundTrip` | src/proxy.rs:196-208 | what a plain or FakeTLS writer sends is read back whole |
| `Bridge.Recode` | src/proxy.rs:1619-1621 | decrypting with one cipher and encrypting with the other, both advancing alike |
| `Bridge.Pump` | src/proxy.rs:1614-1674 | a relay direction writes the re-encrypted reads in order; a failed write may leave any part of its bytes, so the wire is a prefix of the whole, and all of it if no write fails |
| `Bridge.UploadEndToEnd` | src/proxy.rs:1355-1447 | for every plaintext, read segmentation and framing mode, the payloads after the init are the encryption of the plaintext and decrypt to it |
| `Bridge.UploadPackets` | src/proxy.rs:1380-1390 | in packet mode each message decrypts to one of the client's packets |
| `Bridge.TunnelKeepsReads` | src/proxy.rs:1380-1390 | in tunnel mode each read is one message and decrypts to what the client sent in it |
| `Bridge.PumpEndToEnd` | src/proxy.rs:1424-1447 | the other direction, and the relay bridges: the peer decrypts exactly the plaintext |
| `Bridge.PumpPrefix` | src/proxy.rs:1424-1447 | a direction that breaks off at any byte has delivered a prefix of the plaintext |
| `Bridge.SessionEndToEnd` | src/proxy.rs:331-460 | the upload of a whole inbound FakeTLS session between peers described by the format alone: protocol, DC, padding and plaintext reach Telegram for every secret, handshake and record cutting |
| `Bridge.ServeWs` | src/proxy.rs:384-460 | the handler run as a whole (collect, find the secret, rebuild, draw, key, upload, download) sends what the specification lists and writes back a prefix of the re-encrypted answer; it gives up only without a usable draw, without a matching secret, or on an index that cannot be rebuilt |
| `Bridge.WholeSession` | src/proxy.rs:331-460 | so for every client and Telegram that follow the format, every list of secrets in which the client's is the first to fit, every record cutting, answer and breaking point, each decrypts a prefix of the other's plaintext, and all of it in a direction that does not break off |
| `Hello.ParseSniExtension` | src/faketls.rs:276-304 | the cursor loop is total on arbitrary bytes and finds the first host name |
| `Hello.SignClientHello` | src/faketls.rs:158-180 | in-place signing writes the masked digest and nothing else |
| `Hello.SignedIsAuthentic` | src/faketls.rs:158-222 | every signed record passes the parser's authentication |
| `Hello.ParseBodyFields` | src/faketls.rs:224-263 | the parser recovers session id, suite and host from any well-formed body |
| `Hello.SniRoundTrip` | src/faketls.rs:276-304 | a written SNI extension yields its host |
| `Hello.ClientHelloIff` | src/faketls.rs:80-263 | parse after sign after build returns host, session id, digest and suite 0x1301 exactly for hosts up to 65360 bytes; longer ones wrap a 16-bit length and are refused |
| `Hello.ServerHelloDrains` | src/faketls.rs:306-354 | the answer is three records around the HMAC of client random and zeroed packet, and draining it leaves exactly the bytes that follow; its content is stated by `HelloWire.ServerHelloBytes` |
| `HelloWire.ServerHelloBytes` | src/faketls.rs:306-354 | every byte of the answer: length fields, HMAC at 11, the client's session id from 44 on, the suite, the supported version and the X25519 key share, ChangeCipherSpec, certificate record |
| `HelloWire.ServerHelloReads` | src/faketls.rs:306-354 | a TLS 1.3 client recovers its session id, the suite, the key share and the HMAC from every answer, and draining leaves exactly what follows |
| `HelloWire.ClientHelloBytes` | src/faketls.rs:80-147 | every field of the built hello at its offset, each length field counting what follows it |
| `HelloWire.SignedBytes` | src/faketls.rs:158-180 | signing writes the first 28 bytes of the HMAC over the zeroed record, and the last four masked with the little-endian time; nothing else changes |
| `HelloWire.SuiteIsFirst` | src/faketls.rs:269-274 | the first TLS 1.3 suite the client lists is chosen |
| `HelloWire.NoSuite` | src/faketls.rs:269-274 | and 0x1301 if it lists none |
| `HelloWire.SniSkips` | src/faketls.rs:276-304 | extensions of another kind and server names too short to hold one are stepped over |
| `HelloWire.HostFound` | src/faketls.rs:289-301 | a host is taken only from a well-formed list whose first entry is a host name |
| `HelloWire.AcceptedIsSigned` | src/faketls.rs:184-222 | nothing is accepted unless type and length fields are right and the first 28 random bytes are the HMAC over the zeroed record |
| `HelloWire.BodyReads` | src/faketls.rs:224-263 | a body is read exactly if session id, suites, compression methods and extensions fit, and then each field from its place |
| `Connection.Greet` | src/proxy.rs:210-244 | a client is answered exactly if its first record is a TLS 1.0 handshake record that some secret authenticates and that names the domain; the first such secret signs the answer |
| `Connection.WholeConnection` | src/proxy.rs:210-460 | from the first byte on: a caller with a secret and the domain finds its session id, suite and an authentic HMAC in the answer, draining leaves exactly the session's bytes, and then both directions arrive as in `Bridge.WholeSession` |
| `Limits.BudgetIff` | src/limits.rs:60-74 | the automatic cap stays within the descriptor limit exactly if the floor of 4 connections does |
| `Limits.CapIsTight` | src/limits.rs:60-74 | one more connection than the cap would not fit |
| `Limits.CapInNumbers` | src/limits.rs:60-74 | 512 without a limit; otherwise the largest cap with 1 + 2 pool slots + 2 connections + 32 within it, but at least 4 |
| `Pool.TakeFreshMeaning` | src/pool.rs:199-247 | a hit is the newest usable entry, older ones stay, and a miss means none was usable |
| `Pool.WsPool.Take` | src/pool.rs:199-247 | the pop loop computes that |
| `Pool.WsPool.ReserveRefill` | src/pool.rs:368-385 | only one caller gets the reservation |
| `Pool.WsPool.Needed` | src/pool.rs:399-408 | a refill sets out to fill the bucket to the pool size |
| `Pool.WsPool.PushRefilled` | src/pool.rs:413-426 | a refill stores what still fits, in order, each connection with its own reading of the clock |
| `Pool.WsPool.PushWarmed` | src/pool.rs:351-361 | warm-up stores everything, each connection with its own reading of the clock |
| `PoolRun.JobsStep` | src/pool.rs:321-435 | every step keeps at most one refill and one warm-up job per bucket |
| `PoolRun.ReservedStep` | src/pool.rs:143-152 | every step keeps each reservation owned by a live refill, so none leaks |
| `PoolRun.BudgetStep` | src/pool.rs:321-435 | every step keeps each bucket, with what its jobs hold and may still open, within its allowance |
| `PoolRun.KeyFdsBound` | src/limits.rs:14-22 | idle, refilling and warming together: at most twice the pool size per bucket |
| `PoolRun.DescriptorSafety` | src/server.rs:203-226 | over every interleaving, buckets and total open descriptors stay within the formula |
| `PoolRun.WithinLimit` | src/server.rs:437-490 | with the automatic cap they stay at least 32 below the limit, unless the floor of 4 sets the cap |
| `PoolRun.OneRefillPerBucket` | src/pool.rs:383-398 | over every run a bucket is reserved exactly while one refill of it lives |
| `PoolRun.BoundIsReached` | src/pool.rs:351-361 | for every pool size some run fills a bucket to twice that size |
| `PoolRun.Traceable` | src/pool.rs:188-435 | a connection anywhere was somewhere before the step, or has just been dialled |
| `PoolRun.OneOwner` | src/pool.rs:188-435 | over every run a connection is in one bucket slot, task or client at most |
| `PoolRun.GetIsFreshest` | src/pool.rs:196-247 | over every run a get returns the newest live entry within the age limit at the moment it read the clock, and a miss means there is none; the wait for the lock is all that may be added to that age |
| `PoolWork.LookDecides` | src/pool.rs:399-408 | a refill gives up exactly if its bucket holds at least the pool size, and otherwise sets out to open exactly what is missing; warm-up opens a full pool |
| `PoolWork.FailKeepsHeld` | src/pool.rs:550-565 | a failed dial ends the batch and keeps the connections opened before it |
| `PoolWork.PushStores` | src/pool.rs:410-426 | a finished batch goes on top of its bucket in order, each connection with its own time, as far as it fits; warm-up stores all; no other bucket changes |
| `PoolWork.StoresWhatItOpened` | src/pool.rs:399-426 | in every run a job stores exactly the connections its successful dials opened, in order and as far as they fit, whether or not a dial failed |
| `PoolWork.RefillRefills` | src/pool.rs:390-435 | in every run in which its dials succeed and nothing else touches the bucket, a refill that is through has left exactly the pool size, old connections first |
| `PoolWork.RefillCanFinish` | src/pool.rs:390-435 | from every state with a waiting refill there is such a run |
| `PoolWork.Perform` | src/pool.rs:188-435 | every step of the machine is what the pool's own operations do: take, reserve, needed, the two pushes, release |
| `PoolWork.CarryOut` | src/pool.rs:188-435 | so every run of the machine is carried out by one pool object, which ends in the machine's state |
| `PoolWork.RunTwoAtATime` | src/pool.rs:538-548 | no batch ever dials more than two connections at a time |
| `PoolWork.CapIsReached` | src/server.rs:437-490 | the accept loop lets in as many clients as the cap allows |
| `CfPool.TakeMeaning` | src/pool.rs:255-294 | a hit was stored and usable, and a miss means nothing was |
| `CfPool.CfStore.Get` | src/pool.rs:255-294 | the pop loop computes that; an unknown bucket is left alone |
| `CfPool.CfStore.Store` | src/pool.rs:453-475 | a bucket within the budget stays within it, and a get made at once yields the new connection, in front of what was there, exactly if there was room |
| `CfPool.CfStore.Reserve` | src/pool.rs:302-318 | only one caller gets the reservation, and nobody without a pool |
| `CfPool.CfStore.Wanted` | src/pool.rs:443-447 | a prefetch dials exactly if there is a pool and no spare |
| `CfPool.CfPoolSafety` | src/pool.rs:296-318 | over every run at most min(1, pool size) spares per key and one refill exactly while reserved |
| `CfPool.TagsHold` | src/proxy.rs:899-926 | with balancing off (or nothing to balance or pool), over every run each proxy spare came from `kws{n}.` plus a configured zone |
| `CfPool.TagsFail` | src/pool.rs:503-515 | in every other configuration some run stores a bare zone |
| `CfWork.PrefetchLeavesSpare` | src/pool.rs:436-475 | in every run in which its dial succeeds and nothing else touches the bucket, a prefetch that is through has left one spare for the target asked for |
| `CfWork.Perform` | src/pool.rs:255-475 | every step of the machine is what the store's own operations do |
| `CfWork.CarryOut` | src/pool.rs:255-475 | so every run is carried out by one store |
| `Cooldowns.CooldownMap.Set` | src/ws_client.rs:75-81 | the key is stepped over exactly before now plus the cooldown, every other key exactly when it was |
| `Cooldowns.CooldownMap.Clear` | src/ws_client.rs:83-91 | the key is never stepped over, every other key exactly when it was |
| `Cooldowns.CooldownMap.Active` | src/ws_client.rs:93-103 | true exactly if the last of all calls about the key set a cooldown that has not run out |
| `Cooldowns.CoolingIff` | src/ws_client.rs:64-104 | after any history a key is cooling exactly if the last call about it set a cooldown that has not run out |
| `Rotation.RotatedSwaps` | src/proxy.rs:131-133 | the modular walk is the list cut once with its pieces swapped |
| `Rotation.DistinctRotated` | src/ws_client.rs:769-790 | deduplication keeps one of each different domain |
| `Rotation.DistinctOrder` | src/ws_client.rs:769-790 | and keeps them in the order of their first occurrences |
| `Rotation.EdgeSelection` | src/ws_client.rs:135-160 | the edges to dial are the rotated non-cooling ones, or exactly one when all cool, and never none |
| `Rotation.KeepAppend` | src/ws_client.rs:135-160 | whether an edge is kept depends on no other edge, and the order stays |
| `Rotation.EdgeMembers` | src/ws_client.rs:135-160 | only configured edges are dialled, and unless all cool exactly the non-cooling ones |
| `Network.Net.Offset` | src/proxy.rs:122-129 | the rotation starts at the shared counter modulo the list, each caller taking its own turn; off or trivial, no turn is taken |
| `CfDial.ConnectCf` | src/ws_client.rs:438-519 | the accesses made are one turn, one look at the cooldowns, and a dial and a note for each edge of the plan up to the first success; without edges, one dial of the host |
| `CfDial.TryDials` | src/ws_client.rs:438-519 | between one dial and one per edge, and success exactly if the last one connected |
| `CfDial.TryTargets` | src/ws_client.rs:431-519 | with preferred edges the host name is never dialled, only configured edges |
| `CfDial.PlanSkips` | src/ws_client.rs:135-160 | an edge is left out exactly if it is dialled directly and cooling in the map of its kind, unless all are, and then one is dialled |
| `CfDial.VerdictConnected` | src/ws_client.rs:516-518 | success exactly if the last dial connected, a redirect exactly if all were redirects, so the fallback value always exists |
| `CfDial.VerdictIsLast` | src/ws_client.rs:470-518 | the verdict is the last result that was no redirect, or the last redirect if there was nothing else |
| `CfDial.EdgeNoted` | src/ws_client.rs:481-513 | right after its dial an edge is cleared if it answered in any way, cooled if a direct connect timed out, and left alone if that happened behind a proxy |
| `CfDial.CfAttempts.constructor` | src/ws_client.rs:754-766 | every distinct domain in rotated order is due twice |
| `CfDial.CfAttempts.NextDomain` | src/ws_client.rs:769-790 | yields the head of what is due, and none exactly when nothing is |
| `CfDial.CfAttempts.NoteTimedOut` | src/ws_client.rs:794-796 | drops exactly the pending second attempt |
| `CfDial.ConnectCfOrdered` | src/ws_client.rs:906-956 | the accesses made are those of one connect per attempt; hosts are tried twice in a row, once exactly if the first attempt timed out, stopping at the one that connects |
| `CfDial.SecondAttemptIff` | src/ws_client.rs:739-801 | a host is tried again, at once, exactly if its first attempt was refused or redirected, and never a third time |
| `CfDial.RecordReads` | src/ws_client.rs:716-724 | a record is `kws`, the DC number in decimal, a dot and the zone |
| `CfDial.WalkIsShort` | src/ws_client.rs:739-801 | at most two attempts for each different domain, and at least one |
| `CfDial.TriesDials` | src/ws_client.rs:906-956 | a walk makes between one dial and one per edge for each attempt |
| `CfDial.ConnectDirect` | src/ws_client.rs:631-696 | the accesses made are dials of the address for both records up to the first success, the `-1` record first for media and last otherwise, and the flags say what they came to |
| `CfDial.DomainOrder` | src/ws_client.rs:171-189 | both records of a DC, spelled out in their order |
| `Ladder.DirectWs` | src/proxy.rs:1170-1284 | the accesses made: two looks at the DC, the dials, and exactly the notes about DC and address that outcome and first look call for |
| `Ladder.DirectWsTier` | src/proxy.rs:712-738 | the accesses made: a look at the address, a look into the pool, and a direct attempt exactly if the pool had nothing |
| `Ladder.DirectNoted` | src/proxy.rs:1170-1284 | what a direct attempt leaves: its dials, then the DC cleared or cooled (longer or shorter for all redirects), then the address cleared, or cooled after a connect timeout unless the first look found the DC cooling |
| `Ladder.DirectAfterMiss` | src/proxy.rs:712-738 | a miss of the pool is followed by two looks at the DC and a dial of the address |
| `Ladder.PoolFirst` | src/proxy.rs:712-1070 | every pooled tier asks its pool before it dials, and a hit ends it without a dial |
| `Ladder.CfWorker` | src/proxy.rs:939-1038 | the accesses made: a look into the pool, a turn, the tour of the Workers in rotated order, a turn for the spare; where the tunnel leads and which domain is prefetched |
| `Ladder.VisitWorkers` | src/proxy.rs:971-1035 | the accesses made are, Worker by Worker in the given order, a look unless forced and, unless cooling, a connect up to the first success; each Worker tried is cleared right after its last dial if that connected, and otherwise cooled for the Worker window |
| `Ladder.VisitsJustified` | src/proxy.rs:972-978 | every name skipped was looked at and found cooling, and unforced every name tried was looked at and found clear |
| `Ladder.CfProxy` | src/proxy.rs:1049-1116 | the accesses made: a turn, a look into the pool, the walk over the records, a turn for the spare; the spare is the record that answered or the next in the rotation |
| `Ladder.OrderFromTurn` | src/proxy.rs:122-133 | Workers and zones are walked from their turn on: the list cut there and its pieces swapped, zones without repetitions |
| `Ladder.TurnsTaken` | src/proxy.rs:958-1060 | each list has a counter of its own; the Workers' turn is taken after the pool was asked, the zones' before |
| `Ladder.VisitProxies` | src/proxy.rs:1121-1165 | the accesses made are, proxy by proxy in listed order, a look unless forced and, unless cooling, a dial up to the first success; each proxy tried is cleared right after a dial that connected, and otherwise cooled for the proxy window |
| `Ladder.UpstreamProxies` | src/proxy.rs:1121-1165 | that tour as a rung, whose link is the proxy that answered |
| `Ladder.TryTier` | src/proxy.rs:763-817 | one pinned rung: exactly the accesses its description lists, and a link exactly if it won |
| `Ladder.RungCost` | src/proxy.rs:712-1165 | no tier logs more dials than 2, W m, 2 D m and M |
| `Ladder.SureActs` | src/proxy.rs:712-1165 | a tier that won, or that works and is not held back by a cooldown, has dialled or taken a pooled connection |
| `Ladder.IdleReason` | src/proxy.rs:712-1165 | an unforced tier without a dial has nothing to offer, took a pooled connection, or looked at each of its names and found it cooling |
| `Ladder.TriedWasClear` | src/proxy.rs:972-1124 | unforced, nothing is dialled for a Worker or proxy that was not looked at and found clear |
| `Ladder.PinnedLadder` | src/proxy.rs:758-824 | exactly the accesses of the listed tiers in listed order up to the first success, which alone won; the last that can connect is forced; a guaranteed ladder dials, takes a pooled connection or hands over to raw TCP |
| `Ladder.ForcedIff` | src/proxy.rs:832-845 | a tier is forced exactly if no later listed tier is configured, or for the direct path and raw TCP has an address |
| `Ladder.NothingAfterTcp` | src/proxy.rs:806-815 | nothing is visited after raw TCP, which leads to the built-in address if there is one |
| `Ladder.NeverStarvedIff` | src/proxy.rs:758-845 | the ladder tries something in every world exactly if it is guaranteed |
| `Ladder.HostileStarves` | src/proxy.rs:758-845 | in every world that keeps all names cooling and the pools empty, a ladder that is not guaranteed tries nothing |
| `Ladder.NeverStarved` | src/proxy.rs:832-845 | an address and one working listed tier make it guaranteed |
| `Ladder.WorkerStarvesProxies` | src/proxy.rs:832-845 | without an address a Worker listed after the upstream proxies starves them |
| `Ladder.FallbackChain` | src/proxy.rs:852-881 | exactly the accesses of Worker, Cloudflare proxy and upstream proxies in that order, none forced, stopping at the first success |
| `Ladder.DefaultLadder` | src/proxy.rs:637-707 | an upstream exactly if the DC has an address; exactly the accesses of its rungs, none forced; if the address was found clear, or there is nothing to fall back on, the direct rung comes first and every other access after it, otherwise after the lost fallbacks; the Cloudflare proxy only after a lost Worker rung, the proxies only after both, raw TCP only after all |
| `Ladder.DefaultLadderOrder` | src/proxy.rs:629-707 | no tier twice, the priorities of the row above, raw TCP to the built-in address if there is one, Tunnel framing exactly for Workers |
| `Ladder.DefaultLadderBound` | src/proxy.rs:629-707 | the log of the connection holds at most 2 + W m + 2 D m + M dials, and one more is left to the bridge for raw TCP |
| `Ladder.LostForAReason` | src/proxy.rs:852-881 | a tier that lost without a dial had nothing to offer, or each of its names had been looked at and found cooling |
| `Ladder.CoolingIsReprobed` | src/proxy.rs:664-690 | a cooling address whose fallbacks have all failed is dialled, unless a pooled connection to it is found |
| `IpRun.IpCooldownIff` | src/proxy.rs:1170-1284 | over every interleaving an address is cooling exactly while a connect timeout outside its DC's cooldown lies within the window with no fresh success since |
| `IpRun.OnlyFullBudget` | src/proxy.rs:1176-1233 | unless some attempt found its DC clear at the first look and cooling at the second, only a full-budget timeout cools an address |
| `IpRun.FlipIsExact` | src/proxy.rs:1181-1221 | and exactly so: an attempt whose first look was clear and which times out cools its address on a full budget if and only if the second look has not changed |
| `IpRun.FlipIff` | src/proxy.rs:1181-1221 | over every run it has changed exactly if another attempt of the DC has failed in between, none has ended since, and its cooldown is still running |
| `IpRun.AdjacentLooksAgree` | src/proxy.rs:1181-1221 | two looks with nothing in between never differ so |
| `IpRun.FlipHappens` | src/proxy.rs:1181-1221 | a run in which it changes |
| `NameRun.NameCooldownIff` | src/proxy.rs:971-1165 | over every interleaving a Worker (upstream proxy) is cooling exactly while the last attempt on it that has ended failed and lies within the Worker (proxy) window |
| `NameRun.UnforcedWaits` | src/proxy.rs:971-1165 | over every interleaving no unforced attempt on a name begins within the window of its last failure, unless an attempt has ended well since |
| `Chunked.Source.ReadMore` | src/default_domains/http.rs:272-289 | appends the next bytes of the stream within the limit; fails only at the limit, at the end or on a failed read |
| `Chunked.ReadLine` | src/default_domains/http.rs:186-191 | finds the line end that the whole stream has, whatever was read so far |
| `Chunked.ReadChunkTrailers` | src/default_domains/http.rs:221-246 | succeeds only on a complete trailer section, and always on one within the limits |
| `Chunked.ReadChunkedBody` | src/default_domains/http.rs:178-219 | a result is the decoding of the whole stream, within the size limits up to one read, however it arrives; a stream within the limits is decoded |
| `Chunked.ReadContentLengthBody` | src/default_domains/http.rs:160-176 | the announced prefix, exactly if there are enough bytes and the limit allows it |
| `Chunked.ChunksEncoded` | src/default_domains/http.rs:178-246 | the encoding of a chunk list with extensions and trailers decodes to its data |
| `Chunked.ChunkedRoundTrip` | src/default_domains/http.rs:178-246 | such a list within 256 KiB and trailers within 64 KiB is returned whole under every segmentation |
| `ChunkedExact.OnlyEncodings` | src/default_domains/http.rs:178-246 | whatever decodes is the encoding of well-formed chunks, a last chunk and a trailer section, and yields the data of those chunks |
| `ChunkedExact.DecodesIff` | src/default_domains/http.rs:178-246 | so a stream decodes to a body within 256 KiB exactly if such an encoding of it stands at its front |
| `Chunked.SizeRoundTrip` | src/default_domains/http.rs:193-200 | the usual hexadecimal size line announces its number |
| `Chunked.SizeLineReads` | src/default_domains/http.rs:193-200 | so does every size line with digits of either case, leading zeros, blanks, a plus sign or an extension, and it is refused exactly if the number is no machine word |
| `Chunked.OnlySizeLines` | src/default_domains/http.rs:193-200 | and nothing else is taken for one |
| `Android.ProxyState.StartProxy` | crates/android-jni/src/android.rs:201-303 | reaps an exited worker, refuses while one lives, and otherwise installs the new one; each answer exactly in its case |
| `Android.ProxyState.StopProxy` | crates/android-jni/src/android.rs:305-320 | the worker is told through its channel; whatever it does then, the shim does not say it is running, and a start is put off until it has exited |
| `Android.ProxyState.NativeIsRunning` | crates/android-jni/src/android.rs:137-148 | true exactly if every start would now be answered "already running" |
| `Android.OneWorker` | crates/android-jni/src/android.rs:201-320 | over every interleaving at most one unfinished worker, told once a stop was asked for; starts are accepted only without one |
| `Android.RunningRefuses` | crates/android-jni/src/android.rs:208-222 | while the shim says it is running, a start is refused and changes nothing |
| `Android.CallbacksInOrder` | crates/android-jni/src/android.rs:248-295 | callbacks of successive runs never interleave, and a run's report is its last |
| `Android.ExitedHasReported` | crates/android-jni/src/android.rs:288-295 | a run that has exited has made its report |
| `Android.StopHolds` | crates/android-jni/src/android.rs:53-61 | from a stop until the next accepted start the shim says it is not running |
| `Android.StartableIff` | crates/android-jni/src/android.rs:201-222 | a start with good arguments is accepted exactly when every worker has exited |
| `Android.ReportedYetRefused` | crates/android-jni/src/android.rs:273-295 | a worker that has reported its stop may still cause a refusal |
| `Android.CarryOut` | crates/android-jni/src/android.rs:201-320 | every run of the machine is carried out by one object: its starts and stops do all that happens behind the lock |

## Left out

- Real sockets, TLS, WebSocket upgrades, DNS and outbound proxies: every dial is an oracle outcome.
- Cryptographic strength, and termination of the reroll loops, which is only probabilistic: draws are a parameter.
- Inbound connections without FakeTLS, which send the same stream without records, and the handshake timeout.
- Bridge.Pump: one direction at a time on the list of reads it makes; that the two directions end together is not modelled, nor are the byte counters.
- Bridge.WholeSession: starts after the ClientHello; `Connection.WholeConnection` covers the whole. Upload and download share no cipher, so their interleaving is not modelled.
- Connection.Greet: the key share and the certificate bytes are parameters; hosts above 16465 bytes do not fit the first record.
- Bridge.SessionEndToEnd: covers the upload; `Bridge.WholeSession` covers both directions.
- File descriptors of spare Cloudflare connections and of DNS threads: the formula in `src/limits.rs` does not count them.
- PoolRun.WithinLimit: a user-set connection cap above the automatic one is only warned about, so it is outside this bound.
- Wrap-around of the round-robin counters at the machine word, and of time.
- IpRun.IpCooldownIff: "since" is measured at the moment the outcome is written to the map.
- Choosing between pinned and default ladder, parsing of tiers and addresses: given inputs of `Ladder`.
- The veto of a cooling address on background refills (`src/proxy.rs:720`): `PoolRun` allows a refill at any time.
- Domain fronting: it changes the SNI of a direct dial, not the control flow.
- Chunked.SizeLineReads: trims ASCII white space only; UTF-8 validity of a size line is a parameter.
- HTTP status line and headers, and bodies read to the end of the stream: no further property than the ones stated.
- JNI references, thread attachment, log forwarding, poisoned locks and panics in the Android shim.
- Command line, environment, `src/check.rs`, banner, logging and packaging.
