/** The chunked decoder accepts nothing but encodings (src/default_domains/http.rs; section 7.1 of RFC 9112). */
module ChunkedExact {
  import opened Bytes
  import opened Chunked

  /** The bytes up to a line end, seen as a line of their own. */
  lemma {:induction false} LineWithin(b: seq<byte>, pos: nat, e: nat, i: nat)
    requires pos <= e && e + 2 <= |b| && b[e] == 13 && b[e + 1] == 10 && i <= e - pos && FindCrlf(b, pos + i) == Some(e)
    ensures FindCrlf(b[pos..e] + CRLF, i) == Some(e - pos)
    decreases e - pos - i
  {
    var line := b[pos..e] + CRLF;
    assert forall k :: 0 <= k < |line| ==> line[k] == b[pos + k];
    if i < e - pos {
      assert !(b[pos + i] == 13 && b[pos + i + 1] == 10);
      LineWithin(b, pos, e, i + 1);
    }
  }

  lemma FoundLine(b: seq<byte>, pos: nat, e: nat)
    requires pos <= |b| && FindCrlf(b, pos) == Some(e)
    ensures pos <= e && e + 2 <= |b| && IsLine(b[pos..e]) && At(b, pos, b[pos..e] + CRLF)
  {
    LineWithin(b, pos, e, 0);
    assert b[pos..e + 2] == b[pos..e] + CRLF;
  }

  lemma AtJoin(b: seq<byte>, pos: nat, s: seq<byte>, t: seq<byte>)
    requires At(b, pos, s) && At(b, pos + |s|, t)
    ensures At(b, pos, s + t)
  {
    var m, e := pos + |s|, pos + |s| + |t|;
    assert b[pos..e] == b[pos..m] + b[m..e];
  }

  lemma {:induction false} TrailersAre(b: seq<byte>, pos: nat) returns (lines: seq<seq<byte>>)
    requires pos <= |b| && Trailers(b, pos).Some?
    ensures At(b, pos, EncodeLines(lines)) && Trailers(b, pos) == Some(pos + |EncodeLines(lines)|)
    ensures forall l :: l in lines ==> l != [] && IsLine(l)
    decreases |b| - pos
  {
    var e := FindCrlf(b, pos).value;
    FoundLine(b, pos, e);
    TrailersStep(b, pos);
    hide FindCrlf, IsLine, Trailers, CRLF;
    if e == pos {
      lines := [];
      assert b[pos..e] + CRLF == CRLF;
      Ended();
    } else {
      var rest := TrailersAre(b, e + 2);
      lines := [b[pos..e]] + rest;
      Ended();
      assert lines[1..] == rest;
      hide At;
      AtJoin(b, pos, b[pos..e] + CRLF, EncodeLines(rest));
    }
  }

  lemma Ended()
    ensures |CRLF| == 2
  {
  }

  /** One chunk of the scan. */
  lemma ChunkAre(b: seq<byte>, pos: nat, decoded: seq<byte>, utf8: seq<byte> -> bool) returns (e: nat, size: nat)
    requires pos <= |b| && Chunks(b, pos, decoded, utf8).Body?
    ensures FindCrlf(b, pos) == Some(e) && ParseSize(b[pos..e], utf8) == Some(size)
    ensures size == 0 ==> Trailers(b, e + 2).Some? && Chunks(b, pos, decoded, utf8) == Body(decoded, e + 2, Trailers(b, e + 2).value)
    ensures size > 0 ==>
              && e + 2 + size + 2 <= |b| && b[e + 2 + size..e + 2 + size + 2] == [13, 10]
              && Chunks(b, pos, decoded, utf8) == Chunks(b, e + 2 + size + 2, decoded + b[e + 2..e + 2 + size], utf8)
  {
    hide ParseSize, FindCrlf, Trailers;
    e := FindCrlf(b, pos).value;
    size := ParseSize(b[pos..e], utf8).value;
  }

  /**
    Whatever decodes is an encoding: a body is decoded only from a list of
    well-formed chunks, a last chunk of size zero and a trailer section, and it
    is the data of those chunks.
   */
  lemma {:induction false} OnlyEncodings(b: seq<byte>, pos: nat, decoded: seq<byte>, utf8: seq<byte> -> bool)
    returns (chunks: seq<Chunk>, last: seq<byte>, trailers: seq<seq<byte>>)
    requires pos <= |b| && Chunks(b, pos, decoded, utf8).Body?
    ensures At(b, pos, Encode(chunks, last, trailers))
    ensures forall c :: c in chunks ==> WellFormed(c, utf8)
    ensures IsLine(last) && ParseSize(last, utf8) == Some(0)
    ensures forall l :: l in trailers ==> l != [] && IsLine(l)
    ensures Chunks(b, pos, decoded, utf8).decoded == decoded + Data(chunks)
    ensures Chunks(b, pos, decoded, utf8).end == pos + |Encode(chunks, last, trailers)|
    decreases |b| - pos
  {
    var e, size := ChunkAre(b, pos, decoded, utf8);
    FoundLine(b, pos, e);
    Ended();
    hide ParseSize, FindCrlf, Trailers, Chunks, IsLine, EncodeLines;
    if size == 0 {
      trailers := TrailersAre(b, e + 2);
      chunks, last := [], b[pos..e];
      AtJoin(b, pos, last + CRLF, EncodeLines(trailers));
      assert decoded + [] == decoded;
    } else {
      var c := Chunk(b[pos..e], b[e + 2..e + 2 + size]);
      var next := e + 2 + size + 2;
      var more;
      more, last, trailers := OnlyEncodings(b, next, decoded + c.data, utf8);
      chunks := [c] + more;
      ChunkStands(b, pos, e, size, c);
      hide At, EncodeChunk, WellFormed, Encode, Data;
      ChunkFirst(b, pos, c, more, last, trailers);
      assert forall x :: x in chunks ==> x == c || x in more;
      assert WellFormed(c, utf8) by { ChunkFits(c, utf8); }
      Assoc(decoded, c.data, Data(more));
    }
  }

  lemma ChunkFits(c: Chunk, utf8: seq<byte> -> bool)
    requires c.data != [] && IsLine(c.line) && ParseSize(c.line, utf8) == Some(|c.data|)
    ensures WellFormed(c, utf8)
  {
  }

  lemma ChunkFirst(b: seq<byte>, pos: nat, c: Chunk, more: seq<Chunk>, last: seq<byte>, trailers: seq<seq<byte>>)
    requires At(b, pos, EncodeChunk(c)) && At(b, pos + |EncodeChunk(c)|, Encode(more, last, trailers))
    ensures At(b, pos, Encode([c] + more, last, trailers)) && Data([c] + more) == c.data + Data(more)
    ensures |Encode([c] + more, last, trailers)| == |EncodeChunk(c)| + |Encode(more, last, trailers)|
  {
    hide At, EncodeChunk, EncodeLines;
    assert ([c] + more)[1..] == more;
    AtJoin(b, pos, EncodeChunk(c), Encode(more, last, trailers));
  }

  lemma ChunkStands(b: seq<byte>, pos: nat, e: nat, size: nat, c: Chunk)
    requires pos <= e && e + 2 + size + 2 <= |b| && c == Chunk(b[pos..e], b[e + 2..e + 2 + size])
    requires At(b, pos, c.line + CRLF) && b[e + 2 + size..e + 2 + size + 2] == [13, 10]
    ensures At(b, pos, EncodeChunk(c)) && |EncodeChunk(c)| == e + 2 + size + 2 - pos
  {
    AtJoin(b, e + 2, c.data, CRLF);
    AtJoin(b, pos, c.line + CRLF, c.data + CRLF);
  }

  /** Exactly: a stream decodes to a body of some length if and only if such an encoding, within the size limit, stands at its front. */
  lemma DecodesIff(b: seq<byte>, utf8: seq<byte> -> bool, body: seq<byte>)
    requires |body| <= 262144
    ensures (Chunks(b, 0, [], utf8).Body? && Chunks(b, 0, [], utf8).decoded == body)
            <==> exists chunks, last, trailers :: Encodes(b, utf8, chunks, last, trailers) && Data(chunks) == body
  {
    var s := Chunks(b, 0, [], utf8);
    if s.Body? && s.decoded == body {
      var chunks, last, trailers := OnlyEncodings(b, 0, [], utf8);
      assert [] + Data(chunks) == Data(chunks);
      assert Encodes(b, utf8, chunks, last, trailers);
    }
    forall chunks, last, trailers | Encodes(b, utf8, chunks, last, trailers) && Data(chunks) == body
      ensures s.Body? && s.decoded == body
    {
      ChunksEncoded(b, 0, chunks, last, trailers, [], utf8);
      assert [] + Data(chunks) == Data(chunks);
    }
  }

  ghost predicate Encodes(b: seq<byte>, utf8: seq<byte> -> bool, chunks: seq<Chunk>, last: seq<byte>, trailers: seq<seq<byte>>) {
    && At(b, 0, Encode(chunks, last, trailers)) && (forall c :: c in chunks ==> WellFormed(c, utf8))
    && IsLine(last) && ParseSize(last, utf8) == Some(0) && forall l :: l in trailers ==> l != [] && IsLine(l)
  }
}
