/**
  Telegram's MTProto transports (Abridged, Intermediate, Padded intermediate)
  and how a stream of them is cut into packets (src/splitter.rs).

  `Split` is the reference: it cuts a whole plaintext stream.  `Feed` lifts it
  to one read; the `Splitter` module holds the incremental parser proved to do
  what `Feed` says.
 */
module Framing {
  import opened Bytes

  datatype ProtoTag = Abridged | Intermediate | PaddedIntermediate

  /** One WebSocket message per MTProto packet, or an opaque byte stream (a Worker tunnel). */
  datatype WsFraming = Packets | Tunnel

  // ----- Telegram's transport headers -------------------------------------

  /** `b & 0x7f` of a byte */
  function Low7(b: byte): nat { if b < 0x80 then b else b - 0x80 }

  /** `n & 0x7fff_ffff` of a 32-bit word */
  function Low31(n: nat): nat { if n < 0x8000_0000 then n else n - 0x8000_0000 }

  predicate Extended(first: byte) { first == 0x7f || first == 0xff }

  /** Header bytes needed, as far as the bytes `s` seen so far can tell. */
  function RequiredHeaderLen(proto: ProtoTag, s: seq<byte>): (n: nat)
    ensures n == 1 || n == 4
  {
    if proto.Abridged? && (s == [] || !Extended(s[0])) then 1 else 4
  }

  /**
    Total length of the packet that starts `s`, `Some(0)` for a header that
    announces an empty packet, `None` while the header is incomplete.
   */
  function PacketLen(proto: ProtoTag, s: seq<byte>): (r: Option<nat>) {
    var n := RequiredHeaderLen(proto, s);
    if |s| < n then None
    else
      var payload :=
        if !proto.Abridged? then Low31(ReadLe32(s[0], s[1], s[2], s[3]))
        else if n == 4 then 4 * ReadLe24(s[1], s[2], s[3])
        else 4 * Low7(s[0]);
      Some(if payload == 0 then 0 else payload + n)
  }

  /** Largest `usize` of the narrowest supported target. */
  const U32_MAX: nat := 0xffff_ffff

  /** The checked multiplications and additions of the source never fail. */
  lemma PacketLenFits(proto: ProtoTag, s: seq<byte>)
    ensures PacketLen(proto, s).Some? ==> PacketLen(proto, s).value <= U32_MAX
  {
    if proto.Abridged? && |s| >= 4 {
      assert ReadLe24(s[1], s[2], s[3]) < 0x100_0000;
    } else if |s| >= 4 {
      assert ReadLe32(s[0], s[1], s[2], s[3]) < 0x1_0000_0000;
    }
  }

  /** Once known, the length does not depend on what follows, and covers its own header. */
  lemma PacketLenStable(proto: ProtoTag, a: seq<byte>, b: seq<byte>)
    requires PacketLen(proto, a).Some?
    ensures PacketLen(proto, a + b) == PacketLen(proto, a)
    ensures PacketLen(proto, a).value == 0 || RequiredHeaderLen(proto, a) < PacketLen(proto, a).value
  {
    assert a != [] && (a + b)[0] == a[0];
  }

  lemma PacketLenPrefix(proto: ProtoTag, s: seq<byte>, n: nat)
    requires PacketLen(proto, s) == Some(n) && 0 < n <= |s|
    ensures PacketLen(proto, s[..n]) == Some(n)
  {
    assert s[..n][0] == s[0];
  }

  /** A header read in one go after `a` never reaches past the packet it announces. */
  lemma HeaderFits(proto: ProtoTag, a: seq<byte>, b: seq<byte>)
    requires |a + b| <= RequiredHeaderLen(proto, a)
    ensures PacketLen(proto, a + b).Some? && PacketLen(proto, a + b).value != 0 ==> |a + b| < PacketLen(proto, a + b).value
  {
  }

  lemma HeaderOpen(proto: ProtoTag, s: seq<byte>)
    requires PacketLen(proto, s).None?
    ensures |s| < RequiredHeaderLen(proto, s)
  {
  }

  // ----- Reference: splitting a whole stream ------------------------------

  datatype Cut = Cut(parts: seq<seq<byte>>, rest: seq<byte>, poisoned: bool)

  /**
    Complete packets of `s` in order, the incomplete remainder, and whether
    that remainder starts with a zero-length header.
   */
  function Split(proto: ProtoTag, s: seq<byte>): (r: Cut)
    decreases |s|
  {
    match PacketLen(proto, s)
    case None => Cut([], s, false)
    case Some(n) =>
      if n == 0 || |s| < n then Cut([], s, n == 0)
      else
        var tail := Split(proto, s[n..]);
        Cut([s[..n]] + tail.parts, tail.rest, tail.poisoned)
  }

  lemma SplitStep(proto: ProtoTag, s: seq<byte>)
    ensures var p, cut := PacketLen(proto, s), Split(proto, s);
            if p.Some? && 0 < p.value <= |s| then
              var tail := Split(proto, s[p.value..]);
              cut.parts == [s[..p.value]] + tail.parts && cut.rest == tail.rest
            else cut.parts == [] && cut.rest == s
  {
    hide PacketLen;
  }

  /** No byte is lost or moved. */
  lemma {:induction false} SplitConserves(proto: ProtoTag, s: seq<byte>)
    ensures Flatten(Split(proto, s).parts) + Split(proto, s).rest == s
    decreases |s|
  {
    hide PacketLen, Split;
    SplitStep(proto, s);
    var p := PacketLen(proto, s);
    if p.Some? && 0 < p.value <= |s| {
      var first, tail := s[..p.value], Split(proto, s[p.value..]);
      SplitConserves(proto, s[p.value..]);
      FlattenCons(first, tail.parts);
      hide Flatten;
      Assoc(first, Flatten(tail.parts), tail.rest);
      assert s == first + s[p.value..];
    } else {
      assert [] + s == s;
    }
  }

  /** Every part is exactly one packet. */
  lemma {:induction false} SplitPackets(proto: ProtoTag, s: seq<byte>)
    ensures forall part :: part in Split(proto, s).parts ==> part != [] && PacketLen(proto, part) == Some(|part|)
    decreases |s|
  {
    hide PacketLen;
    match PacketLen(proto, s) {
      case None =>
      case Some(n) =>
        if n != 0 && n <= |s| {
          SplitPackets(proto, s[n..]);
          PacketLenPrefix(proto, s, n);
        }
    }
  }

  /** The remainder holds no complete packet, and is poisoned by a zero-length header only. */
  lemma {:induction false} SplitRest(proto: ProtoTag, s: seq<byte>)
    ensures var r := Split(proto, s);
            && (r.poisoned <==> PacketLen(proto, r.rest) == Some(0))
            && (!r.poisoned ==> Split(proto, r.rest) == Cut([], r.rest, false))
    decreases |s|
  {
    hide PacketLen;
    match PacketLen(proto, s) {
      case None =>
      case Some(n) =>
        if n != 0 && n <= |s| {
          SplitRest(proto, s[n..]);
        }
    }
  }

  /** Resuming from the remainder is the same as splitting everything at once. */
  lemma {:induction false} SplitAppend(proto: ProtoTag, a: seq<byte>, b: seq<byte>)
    ensures Split(proto, a + b) == Resume(proto, Split(proto, a), b)
    decreases |a|
  {
    hide PacketLen;
    var len := PacketLen(proto, a);
    if len.Some? {
      PacketLenStable(proto, a, b);
    }
    if len.Some? && len.value != 0 && len.value <= |a| {
      var n := len.value;
      SplitAppend(proto, a[n..], b);
      assert (a + b)[n..] == a[n..] + b && (a + b)[..n] == a[..n];
      ResumeCons(proto, a[..n], Split(proto, a[n..]), b);
    } else if !Split(proto, a).poisoned {
      assert [] + Split(proto, a + b).parts == Split(proto, a + b).parts;
    }
  }

  lemma ResumeCons(proto: ProtoTag, first: seq<byte>, cut: Cut, b: seq<byte>)
    ensures var r := Resume(proto, cut, b);
            Resume(proto, Cut([first] + cut.parts, cut.rest, cut.poisoned), b) == Cut([first] + r.parts, r.rest, r.poisoned)
  {
    hide PacketLen, Split;
    var next := Split(proto, cut.rest + b);
    assert [first] + cut.parts + next.parts == [first] + (cut.parts + next.parts);
  }

  /** Splitting `b` after an earlier cut. */
  function Resume(proto: ProtoTag, cut: Cut, b: seq<byte>): Cut {
    if cut.poisoned then cut.(rest := cut.rest + b)
    else
      var next := Split(proto, cut.rest + b);
      Cut(cut.parts + next.parts, next.rest, next.poisoned)
  }

  lemma SplitOpen(proto: ProtoTag, s: seq<byte>)
    requires PacketLen(proto, s).None? || |s| < PacketLen(proto, s).value
    ensures Split(proto, s) == Cut([], s, false)
  {
  }

  lemma RestOpen(proto: ProtoTag, s: seq<byte>)
    requires Split(proto, s) == Cut([], s, false) && PacketLen(proto, s).Some?
    ensures |s| < PacketLen(proto, s).value
  {
  }

  lemma EmptyRests(proto: ProtoTag)
    ensures PacketLen(proto, []) == None && Split(proto, []) == Cut([], [], false)
  {
  }

  lemma SplitZero(proto: ProtoTag, s: seq<byte>)
    requires PacketLen(proto, s) == Some(0)
    ensures Split(proto, s) == Cut([], s, true)
  {
  }

  lemma SplitWhole(proto: ProtoTag, s: seq<byte>)
    requires s != [] && PacketLen(proto, s) == Some(|s|)
    ensures Split(proto, s) == Cut([s], [], false)
  {
    assert s[..|s|] == s && s[|s|..] == [];
    assert PacketLen(proto, []) == None;
  }

  /** One step of the loop: the bytes in `[lo, hi)` are read after an earlier cut. */
  lemma Advance(proto: ProtoTag, s0: seq<byte>, data: seq<byte>, lo: nat, hi: nat, cut: Cut)
    requires lo <= hi <= |data|
    requires Split(proto, s0 + data[..lo]) == cut
    ensures Split(proto, s0 + data[..hi]) == Resume(proto, cut, data[lo..hi])
  {
    hide PacketLen, Split, Resume;
    SplitAppend(proto, s0 + data[..lo], data[lo..hi]);
    assert s0 + data[..hi] == s0 + data[..lo] + data[lo..hi];
  }

  /** The bytes read did not complete the packet. */
  lemma AdvanceOpen(proto: ProtoTag, s0: seq<byte>, data: seq<byte>, lo: nat, hi: nat, cut: Cut)
    requires lo <= hi <= |data| && !cut.poisoned
    requires Split(proto, s0 + data[..lo]) == cut
    requires var s := cut.rest + data[lo..hi]; PacketLen(proto, s).None? || |s| < PacketLen(proto, s).value
    ensures Split(proto, s0 + data[..hi]) == Cut(cut.parts, cut.rest + data[lo..hi], false)
    ensures Split(proto, cut.rest + data[lo..hi]) == Cut([], cut.rest + data[lo..hi], false)
  {
    hide PacketLen, Split;
    Advance(proto, s0, data, lo, hi, cut);
    SplitOpen(proto, cut.rest + data[lo..hi]);
    assert cut.parts + [] == cut.parts;
  }

  /** The bytes read completed the packet. */
  lemma AdvanceWhole(proto: ProtoTag, s0: seq<byte>, data: seq<byte>, lo: nat, hi: nat, cut: Cut)
    requires lo <= hi <= |data| && !cut.poisoned
    requires Split(proto, s0 + data[..lo]) == cut
    requires var s := cut.rest + data[lo..hi]; s != [] && PacketLen(proto, s) == Some(|s|)
    ensures Split(proto, s0 + data[..hi]) == Cut(cut.parts + [cut.rest + data[lo..hi]], [], false)
  {
    hide PacketLen, Split;
    Advance(proto, s0, data, lo, hi, cut);
    SplitWhole(proto, cut.rest + data[lo..hi]);
  }

  /** The loop met a zero-length header and takes the rest of the read with it. */
  lemma AdvancePoisoned(proto: ProtoTag, s0: seq<byte>, data: seq<byte>, lo: nat, hi: nat, cut: Cut)
    requires lo <= hi <= |data| && !cut.poisoned
    requires Split(proto, s0 + data[..lo]) == cut
    requires PacketLen(proto, cut.rest + data[lo..hi]) == Some(0)
    ensures Split(proto, s0 + data) == Cut(cut.parts, cut.rest + data[lo..hi] + data[hi..], true)
  {
    hide PacketLen, Split;
    var head := cut.rest + data[lo..hi];
    PacketLenStable(proto, head, data[hi..]);
    SplitZero(proto, head + data[hi..]);
    Advance(proto, s0, data, lo, |data|, cut);
    assert data[..|data|] == data && cut.rest + data[lo..|data|] == head + data[hi..];
    assert cut.parts + [] == cut.parts;
  }

  // ----- One read at a time -----------------------------------------------

  /** Plaintext of the packet being assembled, and the give-up flag. */
  datatype State = State(pending: seq<byte>, disabled: bool)

  const START := State([], false)

  /** States a splitter can be in between two reads. */
  predicate Resting(proto: ProtoTag, st: State) {
    if st.disabled then st.pending == []
    else Split(proto, st.pending) == Cut([], st.pending, false)
  }

  /** Messages, still in plaintext, that one read produces. */
  function Feed(proto: ProtoTag, st: State, chunk: seq<byte>): (r: (seq<seq<byte>>, State)) {
    if chunk == [] then ([], st)
    else if st.disabled then ([chunk], st)
    else
      var cut := Split(proto, st.pending + chunk);
      if cut.poisoned then (cut.parts + [cut.rest], State([], true))
      else (cut.parts, State(cut.rest, false))
  }

  /** All reads of a session. */
  function FeedAll(proto: ProtoTag, st: State, chunks: seq<seq<byte>>): (r: (seq<seq<byte>>, State))
    decreases |chunks|
  {
    if chunks == [] then ([], st)
    else
      var (parts, st') := Feed(proto, st, chunks[0]);
      var (more, end) := FeedAll(proto, st', chunks[1..]);
      (parts + more, end)
  }

  /** What `flush` sends when the client hangs up. */
  function Flush(st: State): seq<seq<byte>> {
    if st.pending == [] then [] else [st.pending]
  }

  /** Every read keeps the splitter between packets and drops no byte. */
  lemma FeedKeeps(proto: ProtoTag, st: State, chunk: seq<byte>)
    requires Resting(proto, st)
    ensures Resting(proto, Feed(proto, st, chunk).1)
    ensures Flatten(Feed(proto, st, chunk).0) + Feed(proto, st, chunk).1.pending == st.pending + chunk
  {
    hide PacketLen, Split;
    if chunk != [] {
      if st.disabled {
        FlattenOne(chunk);
      } else {
        var cut := Split(proto, st.pending + chunk);
        SplitConserves(proto, st.pending + chunk);
        SplitRest(proto, st.pending + chunk);
        FlattenAppend(cut.parts, [cut.rest]);
        FlattenOne(cut.rest);
      }
    }
  }

  /**
    Feeding `a` then `b` is feeding `a + b`, exactly when `b` does not arrive
    at a splitter that a zero-length header has already switched off.
   */
  lemma FeedTwiceIff(proto: ProtoTag, st: State, a: seq<byte>, b: seq<byte>)
    requires Resting(proto, st)
    ensures var (pa, sa) := Feed(proto, st, a);
            var (pb, sb) := Feed(proto, sa, b);
            ((pa + pb, sb) == Feed(proto, st, a + b)) <==> (a == [] || b == [] || !sa.disabled)
  {
    hide PacketLen, Split;
    var (pa, sa) := Feed(proto, st, a);
    if a == [] {
      assert a + b == b && pa + Feed(proto, sa, b).0 == Feed(proto, sa, b).0;
    } else if b == [] {
      assert a + b == a;
      assert pa + [] == pa;
    } else if !st.disabled {
      assert st.pending + (a + b) == st.pending + a + b && a + b != [];
      SplitAppend(proto, st.pending + a, b);
      if !sa.disabled {
        var r := Split(proto, sa.pending + b);
        assert pa + (r.parts + [r.rest]) == pa + r.parts + [r.rest];
      } else {
        assert |pa + [b]| == |Feed(proto, st, a + b).0| + 1;
      }
    }
  }

  /** Whatever the reads, the messages and the flush carry the whole stream in order. */
  lemma {:induction false} FeedAllConserves(proto: ProtoTag, st: State, chunks: seq<seq<byte>>)
    requires Resting(proto, st)
    ensures var (parts, end) := FeedAll(proto, st, chunks);
            && Resting(proto, end)
            && Flatten(parts) + end.pending == st.pending + Flatten(chunks)
            && Flatten(parts + Flush(end)) == st.pending + Flatten(chunks)
    decreases |chunks|
  {
    hide PacketLen, Split, Feed, Resting;
    var (parts, end) := FeedAll(proto, st, chunks);
    if chunks != [] {
      var (first, st') := Feed(proto, st, chunks[0]);
      var (more, _) := FeedAll(proto, st', chunks[1..]);
      FeedKeeps(proto, st, chunks[0]);
      FeedAllConserves(proto, st', chunks[1..]);
      assert parts == first + more && Flatten(chunks) == chunks[0] + Flatten(chunks[1..]);
      FlattenAppend(first, more);
      hide FeedAll, Flatten;
      Regroup(Flatten(first), Flatten(more), end.pending, st'.pending, Flatten(chunks[1..]), st.pending, chunks[0]);
    }
    FlushConserves(parts, end);
  }

  lemma Regroup<T>(first: seq<T>, more: seq<T>, end: seq<T>, pending: seq<T>, later: seq<T>, start: seq<T>, chunk: seq<T>)
    requires more + end == pending + later && first + pending == start + chunk
    ensures first + more + end == start + (chunk + later)
  {
    Assoc(first, more, end);
    Assoc(first, pending, later);
    Assoc(start, chunk, later);
  }

  lemma FlushConserves(parts: seq<seq<byte>>, end: State)
    ensures Flatten(parts + Flush(end)) == Flatten(parts) + end.pending
  {
    FlattenAppend(parts, Flush(end));
    FlattenOne(end.pending);
  }

  /**
    Segmentation independence over every way of cutting the stream into reads:
    as long as no zero-length header occurs the messages and the state are those
    of one big read; afterwards the packets before it are still the same ones.
   */
  lemma {:induction false} FeedAllSegmentation(proto: ProtoTag, st: State, chunks: seq<seq<byte>>)
    requires Resting(proto, st) && !st.disabled
    ensures var (parts, end) := FeedAll(proto, st, chunks);
            var cut := Split(proto, st.pending + Flatten(chunks));
            && end.disabled == cut.poisoned
            && cut.parts <= parts
            && (!cut.poisoned ==> parts == cut.parts && end == State(cut.rest, false))
    decreases |chunks|
  {
    hide PacketLen, Split;
    if chunks == [] {
      assert st.pending + Flatten(chunks) == st.pending;
    } else {
      var (first, st') := Feed(proto, st, chunks[0]);
      var tail := Flatten(chunks[1..]);
      assert st.pending + Flatten(chunks) == st.pending + chunks[0] + tail;
      FeedKeeps(proto, st, chunks[0]);
      SplitAppend(proto, st.pending + chunks[0], tail);
      if chunks[0] == [] {
        assert st.pending + chunks[0] == st.pending;
      }
      if st'.disabled {
        FeedAllDisabled(proto, chunks[1..]);
      } else {
        FeedAllSegmentation(proto, st', chunks[1..]);
      }
    }
  }

  lemma {:induction false} FeedAllDisabled(proto: ProtoTag, chunks: seq<seq<byte>>)
    ensures FeedAll(proto, State([], true), chunks).1 == State([], true)
    decreases |chunks|
  {
    if chunks != [] {
      FeedAllDisabled(proto, chunks[1..]);
    }
  }

  // ----- Printing packets -------------------------------------------------

  /** A payload, the quick-ack bit, and (Abridged only) the choice of the four-byte header. */
  datatype Frame = Frame(payload: seq<byte>, ack: bool, long: bool)

  predicate Encodable(proto: ProtoTag, f: Frame) {
    && f.payload != []
    && if !proto.Abridged? then |f.payload| < 0x8000_0000
       else |f.payload| % 4 == 0 && |f.payload| / 4 < (if f.long then 0x100_0000 else 0x7f)
  }

  function Header(proto: ProtoTag, f: Frame): seq<byte>
    requires Encodable(proto, f)
  {
    var n, w := |f.payload|, |f.payload| / 4;
    if !proto.Abridged? then
      DigitsLe32(n);
      [n % 0x100, n / 0x100 % 0x100, n / 0x1_0000 % 0x100, n / 0x100_0000 + (if f.ack then 0x80 else 0)]
    else if f.long then
      DigitsLe24(w);
      [if f.ack then 0xff else 0x7f, w % 0x100, w / 0x100 % 0x100, w / 0x1_0000]
    else
      [w + (if f.ack then 0x80 else 0)]
  }

  lemma HeaderAnnounces(proto: ProtoTag, f: Frame)
    requires Encodable(proto, f)
    ensures PacketLen(proto, Header(proto, f)) == Some(|Header(proto, f)| + |f.payload|)
  {
    hide PacketLen, ReadLe32, ReadLe24;
    var h, n := Header(proto, f), |f.payload|;
    if !proto.Abridged? {
      DigitsLe32(n);
      IntermediateHeader(proto, h, n, n / 0x100_0000);
    } else if f.long {
      DigitsLe24(n / 4);
      LongAbridgedHeader(h, n / 4);
    } else {
      ShortAbridgedHeader(h, n / 4);
    }
  }

  lemma IntermediateHeader(proto: ProtoTag, h: seq<byte>, n: nat, top: nat)
    requires !proto.Abridged? && 0 < n < 0x8000_0000 && |h| == 4
    requires ReadLe32(h[0], h[1], h[2], top) == n && (h[3] == top || h[3] == top + 0x80)
    ensures PacketLen(proto, h) == Some(4 + n)
  {
  }

  lemma LongAbridgedHeader(h: seq<byte>, w: nat)
    requires 0 < w && |h| == 4 && Extended(h[0]) && ReadLe24(h[1], h[2], h[3]) == w
    ensures PacketLen(Abridged, h) == Some(4 + 4 * w)
  {
  }

  lemma ShortAbridgedHeader(h: seq<byte>, w: nat)
    requires 0 < w < 0x7f && |h| == 1 && (h[0] == w || h[0] == w + 0x80)
    ensures PacketLen(Abridged, h) == Some(1 + 4 * w)
  {
  }

  function Encode(proto: ProtoTag, f: Frame): (r: seq<byte>)
    requires Encodable(proto, f)
    ensures PacketLen(proto, r) == Some(|r|)
  {
    HeaderAnnounces(proto, f);
    PacketLenStable(proto, Header(proto, f), f.payload);
    Header(proto, f) + f.payload
  }

  function EncodeAll(proto: ProtoTag, frames: seq<Frame>): (r: seq<seq<byte>>)
    requires forall f :: f in frames ==> Encodable(proto, f)
    ensures |r| == |frames|
  {
    if frames == [] then [] else [Encode(proto, frames[0])] + EncodeAll(proto, frames[1..])
  }

  lemma {:induction false} SplitEncoded(proto: ProtoTag, frames: seq<Frame>)
    requires forall f :: f in frames ==> Encodable(proto, f)
    ensures Split(proto, Flatten(EncodeAll(proto, frames))) == Cut(EncodeAll(proto, frames), [], false)
    decreases |frames|
  {
    assert PacketLen(proto, []) == None;
    hide PacketLen, Header, Encode;
    if frames != [] {
      var first, rest := Encode(proto, frames[0]), Flatten(EncodeAll(proto, frames[1..]));
      SplitEncoded(proto, frames[1..]);
      assert EncodeAll(proto, frames)[1..] == EncodeAll(proto, frames[1..]);
      assert Flatten(EncodeAll(proto, frames)) == first + rest;
      PacketLenStable(proto, first, rest);
      assert (first + rest)[..|first|] == first && (first + rest)[|first|..] == rest;
    }
  }

  /**
    Framing round trip: any list of packets, in any transport, cut into reads
    in any way, comes out as one message per packet and nothing left over.
   */
  lemma FramingRoundTrip(proto: ProtoTag, frames: seq<Frame>, chunks: seq<seq<byte>>)
    requires forall f :: f in frames ==> Encodable(proto, f)
    requires Flatten(chunks) == Flatten(EncodeAll(proto, frames))
    ensures FeedAll(proto, START, chunks) == (EncodeAll(proto, frames), START)
  {
    SplitEncoded(proto, frames);
    FeedAllSegmentation(proto, START, chunks);
    assert START.pending + Flatten(chunks) == Flatten(chunks);
  }
}
