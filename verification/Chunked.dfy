/** Reading an HTTP body piecemeal (src/default_domains/http.rs); chunked coding is section 7.1 of RFC 9112. */
module Chunked {
  import opened Bytes

  const MAX_HEADER_BYTES := 65536
  const MAX_BODY_BYTES := 262144
  const READ_SIZE := 8192

  datatype Error = Io | Eof | TooLong | Malformed

  datatype Result<T> = Ok(value: T) | Err(error: Error)

  // ----- What the bytes mean ----------------------------------------------

  /** The first line end at or after `pos`. */
  function FindCrlf(b: seq<byte>, pos: nat): (r: Option<nat>)
    requires pos <= |b|
    ensures r.Some? ==> pos <= r.value && r.value + 2 <= |b| && b[r.value] == 13 && b[r.value + 1] == 10
    decreases |b| - pos
  {
    if pos + 2 > |b| then None
    else if b[pos] == 13 && b[pos + 1] == 10 then Some(pos)
    else FindCrlf(b, pos + 1)
  }

  predicate IsSpace(c: byte) { 9 <= c <= 13 || c == 32 }

  function TrimStart(s: seq<byte>): seq<byte> { if s != [] && IsSpace(s[0]) then TrimStart(s[1..]) else s }

  function TrimEnd(s: seq<byte>): seq<byte> { if s != [] && IsSpace(s[|s| - 1]) then TrimEnd(s[..|s| - 1]) else s }

  /** The text before the first semicolon. */
  function BeforeSemicolon(s: seq<byte>): seq<byte> {
    if s == [] || s[0] == 59 then [] else [s[0]] + BeforeSemicolon(s[1..])
  }

  function HexDigit(c: byte): Option<nat> {
    if 48 <= c <= 57 then Some(c - 48)
    else if 97 <= c <= 102 then Some(c - 87)
    else if 65 <= c <= 70 then Some(c - 55)
    else None
  }

  /** At least one digit, and no more than a machine word. */
  function HexValue(s: seq<byte>): Option<nat> {
    if s == [] then None
    else
      var d := HexDigit(s[|s| - 1]);
      var high := if |s| == 1 then Some(0) else HexValue(s[..|s| - 1]);
      if d.None? || high.None? || high.value * 16 + d.value > USIZE_MAX then None
      else Some(high.value * 16 + d.value)
  }

  /** The size in a chunk's first line; extensions are ignored and a plus sign is accepted. */
  function ParseSize(line: seq<byte>, utf8: seq<byte> -> bool): Option<nat> {
    if !utf8(line) then None
    else
      var text := TrimEnd(TrimStart(BeforeSemicolon(line)));
      HexValue(if |text| > 1 && text[0] == 43 then text[1..] else text)
  }

  /** Where the trailer section that starts at `pos` ends: after its first empty line. */
  function Trailers(b: seq<byte>, pos: nat): (r: Option<nat>)
    requires pos <= |b|
    ensures r.Some? ==> pos + 2 <= r.value <= |b|
    decreases |b| - pos
  {
    match FindCrlf(b, pos)
    case None => None
    case Some(e) => if e == pos then Some(e + 2) else Trailers(b, e + 2)
  }

  /** Not enough bytes, not a chunked body, or a body with its trailer section. */
  datatype Scan = More | Bad(error: Error) | Body(decoded: seq<byte>, trailers: nat, end: nat)

  function Chunks(b: seq<byte>, pos: nat, decoded: seq<byte>, utf8: seq<byte> -> bool): (r: Scan)
    requires pos <= |b|
    ensures r.Body? ==> pos <= r.trailers < r.end <= |b|
    ensures r.Body? && |decoded| <= MAX_BODY_BYTES ==> |r.decoded| <= MAX_BODY_BYTES
    decreases |b| - pos
  {
    match FindCrlf(b, pos)
    case None => More
    case Some(e) =>
      match ParseSize(b[pos..e], utf8)
      case None => Bad(Malformed)
      case Some(size) => AfterLine(b, e + 2, size, decoded, utf8)
  }

  /** The chunk of `size` bytes that starts at `p`, and what follows it. */
  function AfterLine(b: seq<byte>, p: nat, size: nat, decoded: seq<byte>, utf8: seq<byte> -> bool): (r: Scan)
    requires p <= |b|
    ensures r.Body? ==> p <= r.trailers < r.end <= |b|
    ensures r.Body? && size > 0 ==> p + size + 2 <= r.trailers
    ensures r.Body? && |decoded| <= MAX_BODY_BYTES ==> |r.decoded| <= MAX_BODY_BYTES
    decreases |b| - p
  {
    if size == 0 then
      match Trailers(b, p)
      case None => More
      case Some(end) => Body(decoded, p, end)
    else if |decoded| + size > MAX_BODY_BYTES then Bad(TooLong)
    else if p + size + 2 > |b| then More
    else if b[p + size..p + size + 2] != [13, 10] then Bad(Malformed)
    else Chunks(b, p + size + 2, decoded + b[p..p + size], utf8)
  }

  // ----- The reader -------------------------------------------------------

  /** A connection that hands out its bytes in arbitrary portions, or fails: read `i` gives up to `plan(i) + 1` bytes. */
  class Source {
    const data: seq<byte>
    const plan: nat -> Option<nat>
    var pos: nat
    var count: nat

    ghost predicate Valid()
      reads this
    {
      pos <= |data|
    }

    ghost function Rest(): seq<byte>
      requires Valid()
      reads this
    {
      data[pos..]
    }

    /** No read fails. */
    ghost predicate Healthy() { forall i :: plan(i).Some? }

    constructor (data: seq<byte>, plan: nat -> Option<nat>)
      ensures Valid() && Rest() == data && this.plan == plan
    {
      this.data, this.plan, pos, count := data, plan, 0, 0;
    }

    method Read(max: nat) returns (r: Result<seq<byte>>)
      requires Valid() && max > 0
      modifies this
      ensures Valid()
      ensures r.Ok? ==> |r.value| <= max && r.value + Rest() == old(Rest()) && (r.value == [] ==> old(Rest()) == [])
      ensures r.Err? ==> !Healthy() && r.error == Io && Rest() == old(Rest())
    {
      var portion := plan(count);
      count := count + 1;
      if portion.None? {
        return Err(Io);
      }
      var n := Min(Min(max, |data| - pos), portion.value + 1);
      r := Ok(data[pos..pos + n]);
      pos := pos + n;
    }

    method ReadMore(buf: seq<byte>, limit: nat) returns (r: Result<seq<byte>>)
      requires Valid()
      modifies this
      ensures Valid()
      ensures r.Ok? ==> buf < r.value && |r.value| <= Min(limit, |buf| + READ_SIZE) && r.value + Rest() == buf + old(Rest())
      ensures r.Err? ==> r.error != Malformed && (!Healthy() || |buf| >= limit || old(Rest()) == [])
      ensures r.Err? ==> Rest() == old(Rest())
    {
      if |buf| >= limit {
        return Err(TooLong);
      }
      r := Read(Min(limit - |buf|, READ_SIZE));
      if r.Ok? {
        if r.value == [] {
          return Err(Eof);
        }
        Assoc(buf, r.value, Rest());
        r := Ok(buf + r.value);
      }
    }
  }

  /** A line end seen in a part of the bytes is the one seen in all of them. */
  lemma {:induction false} FindInPart(all: seq<byte>, n: nat, pos: nat)
    requires pos <= n <= |all|
    ensures FindCrlf(all[..n], pos) == var r := FindCrlf(all, pos); if r.Some? && r.value + 2 <= n then r else None
    decreases n - pos
  {
    if pos + 2 <= n {
      assert all[..n][pos] == all[pos] && all[..n][pos + 1] == all[pos + 1];
      FindInPart(all, n, pos + 1);
    }
  }

  function Max(a: nat, b: nat): nat { if a < b then b else a }

  /** Everything that was or will be read. */
  ghost predicate Holds(src: Source, body: seq<byte>, all: seq<byte>)
    reads src
  {
    src.Valid() && all == body + src.Rest()
  }

  lemma FindInBody(body: seq<byte>, rest: seq<byte>, pos: nat)
    requires pos <= |body|
    ensures FindCrlf(body, pos) == var r := FindCrlf(body + rest, pos); if r.Some? && r.value + 2 <= |body| then r else None
  {
    assert (body + rest)[..|body|] == body;
    FindInPart(body + rest, |body|, pos);
  }

  /**
    Read until a line end shows.  With a `start`, the trailer limit is checked
    before every further read.
   */
  method ReadLine(src: Source, buf: seq<byte>, pos: nat, start: Option<nat>, ghost all: seq<byte>)
    returns (r: Result<nat>, body: seq<byte>)
    requires Holds(src, buf, all) && pos <= |buf| && (start.Some? ==> start.value <= pos)
    modifies src
    ensures Holds(src, body, all) && buf <= body
    ensures r.Ok? ==> FindCrlf(all, pos) == Some(r.value) && r.value + 2 <= |body| <= Max(|buf|, r.value + 1 + READ_SIZE)
    ensures |body| <= Max(|buf|, MAX_BODY_BYTES)
    ensures start.Some? ==> |body| <= Max(|buf|, start.value + MAX_HEADER_BYTES + READ_SIZE)
    ensures r.Err? ==> r.error != Malformed
    ensures r.Err? && src.Healthy() ==>
              var e := FindCrlf(all, pos);
              e.None? || e.value + 2 > MAX_BODY_BYTES || (start.Some? && e.value + 2 > start.value + MAX_HEADER_BYTES)
  {
    body := buf;
    while true
      invariant Holds(src, body, all) && buf <= body && |body| <= Max(|buf|, MAX_BODY_BYTES)
      invariant start.Some? ==> |body| <= Max(|buf|, start.value + MAX_HEADER_BYTES + READ_SIZE)
      invariant var e := FindCrlf(all, pos); e.Some? ==> |body| <= Max(|buf|, e.value + 1 + READ_SIZE)
      decreases |src.Rest()|
    {
      FindInBody(body, src.Rest(), pos);
      var e := FindCrlf(body, pos);
      hide FindCrlf;
      if e.Some? {
        return Ok(e.value), body;
      }
      if start.Some? && |body| - start.value >= MAX_HEADER_BYTES {
        return Err(TooLong), body;
      }
      ghost var rest := src.Rest();
      var more := src.ReadMore(body, MAX_BODY_BYTES);
      if more.Err? {
        return Err(more.error), body;
      }
      Shorter(body, rest, more.value, src.Rest());
      body := more.value;
    }
  }

  lemma Shorter(a: seq<byte>, b: seq<byte>, c: seq<byte>, d: seq<byte>)
    requires a + b == c + d && |a| < |c|
    ensures |d| < |b|
  {
    assert |a| + |b| == |c| + |d|;
  }

  method ReadChunkTrailers(src: Source, buf: seq<byte>, start: nat, ghost all: seq<byte>) returns (r: Result<bool>, body: seq<byte>)
    requires Holds(src, buf, all) && start <= |buf|
    modifies src
    ensures r.Ok? ==> Trailers(all, start).Some?
                      && Trailers(all, start).value <= Max(|buf|, Min(MAX_BODY_BYTES, start + MAX_HEADER_BYTES + READ_SIZE))
    ensures r.Err? ==> r.error != Malformed
    ensures r.Err? && src.Healthy() ==>
              var end := Trailers(all, start);
              end.None? || end.value > MAX_BODY_BYTES || end.value > start + MAX_HEADER_BYTES
  {
    var pos := start;
    body := buf;
    while true
      invariant Holds(src, body, all) && start <= pos <= |body|
      invariant |body| <= Max(|buf|, Min(MAX_BODY_BYTES, start + MAX_HEADER_BYTES + READ_SIZE))
      invariant Trailers(all, pos) == Trailers(all, start)
      decreases |all| - pos
    {
      TrailersStep(all, pos);
      hide FindCrlf, Trailers;
      var e;
      e, body := ReadLine(src, body, pos, Some(start), all);
      if e.Err? {
        return Err(e.error), body;
      }
      if e.value == pos {
        return Ok(true), body;
      }
      pos := e.value + 2;
    }
  }

  lemma TrailersStep(all: seq<byte>, pos: nat)
    requires pos <= |all|
    ensures var e, end := FindCrlf(all, pos), Trailers(all, pos);
            && (e.None? ==> end.None?)
            && (e.Some? && e.value == pos ==> end == Some(e.value + 2))
            && (e.Some? && e.value != pos ==> end == Trailers(all, e.value + 2))
            && (e.Some? && end.Some? ==> e.value + 2 <= end.value)
  {
  }

  method Fill(src: Source, buf: seq<byte>, n: nat, ghost all: seq<byte>) returns (r: Result<bool>, body: seq<byte>)
    requires Holds(src, buf, all)
    modifies src
    ensures Holds(src, body, all) && buf <= body
    ensures |body| <= Max(|buf|, Min(MAX_BODY_BYTES, n + READ_SIZE))
    ensures r.Ok? ==> n <= |body|
    ensures r.Err? ==> r.error != Malformed && (src.Healthy() ==> n > |all| || n > MAX_BODY_BYTES)
  {
    body := buf;
    while |body| < n
      invariant Holds(src, body, all) && buf <= body && |body| <= Max(|buf|, Min(MAX_BODY_BYTES, n + READ_SIZE))
      decreases n - |body|
    {
      var more := src.ReadMore(body, MAX_BODY_BYTES);
      if more.Err? {
        return Err(more.error), body;
      }
      body := more.value;
    }
    r := Ok(true);
  }

  lemma NoLine(all: seq<byte>, pos: nat, decoded: seq<byte>, utf8: seq<byte> -> bool)
    requires pos <= |all|
    ensures var e, s := FindCrlf(all, pos), Chunks(all, pos, decoded, utf8);
            s.Body? ==> e.Some? && e.value + 2 <= s.end
  {
  }

  /** The line at `pos` ends at `e`: what it announces decides. */
  lemma LineFound(all: seq<byte>, pos: nat, decoded: seq<byte>, utf8: seq<byte> -> bool, e: nat)
    requires pos <= |all| && FindCrlf(all, pos) == Some(e)
    ensures var size := ParseSize(all[pos..e], utf8);
            Chunks(all, pos, decoded, utf8) == if size.None? then Bad(Malformed) else AfterLine(all, e + 2, size.value, decoded, utf8)
  {
    hide FindCrlf, Trailers, ParseSize, AfterLine;
  }

  /** Within the limits: the body as a whole and its trailer section. */
  predicate InLimits(s: Scan) {
    s.Body? && s.end <= MAX_BODY_BYTES && s.end <= s.trailers + MAX_HEADER_BYTES
  }

  /** What a reader may answer for a stream that means `s`, when `had` bytes were there at the start. */
  ghost predicate Answers(s: Scan, had: nat, healthy: bool, r: Result<seq<byte>>) {
    && (r.Ok? ==> s.Body? && r.value == s.decoded && |r.value| <= MAX_BODY_BYTES)
    && (r.Ok? ==> s.end <= Max(had, Min(MAX_BODY_BYTES, s.trailers + MAX_HEADER_BYTES + READ_SIZE)))
    && (InLimits(s) && healthy ==> r.Ok?)
    && (r == Err(Malformed) ==> s == Bad(Malformed))
  }

  /** No more is read ahead than one read beyond `pos`. */
  predicate Lean(body: seq<byte>, had: nat, pos: nat) { |body| <= Max(had, Min(MAX_BODY_BYTES, pos + READ_SIZE)) }

  datatype Round = Next(pos: nat, decoded: seq<byte>) | Stop(r: Result<seq<byte>>)

  /** One chunk, or the end. */
  method ReadChunk(src: Source, buf: seq<byte>, pos: nat, decoded: seq<byte>, utf8: seq<byte> -> bool, ghost all: seq<byte>, ghost had: nat)
    returns (round: Round, body: seq<byte>)
    requires Holds(src, buf, all) && pos <= |buf| && |decoded| <= MAX_BODY_BYTES && Lean(buf, had, pos)
    modifies src
    ensures round.Next? ==>
              && Holds(src, body, all) && pos < round.pos <= |body| && |round.decoded| <= MAX_BODY_BYTES && Lean(body, had, round.pos)
              && Chunks(all, round.pos, round.decoded, utf8) == Chunks(all, pos, decoded, utf8)
    ensures round.Stop? ==> Answers(Chunks(all, pos, decoded, utf8), had, src.Healthy(), round.r)
  {
    hide FindCrlf, Trailers, Chunks, ParseSize;
    var e;
    e, body := ReadLine(src, buf, pos, None, all);
    NoLine(all, pos, decoded, utf8);
    if e.Err? {
      return Stop(Err(e.error)), body;
    }
    assert body[pos..e.value] == all[pos..e.value];
    LineFound(all, pos, decoded, utf8, e.value);
    var size := ParseSize(body[pos..e.value], utf8);
    if size.None? {
      return Stop(Err(Malformed)), body;
    }
    var p := e.value + 2;
    if size.value == 0 {
      var t, _ := ReadChunkTrailers(src, body, p, all);
      return Stop(if t.Ok? then Ok(decoded) else Err(t.error)), body;
    }
    if |decoded| + size.value > MAX_BODY_BYTES {
      return Stop(Err(TooLong)), body;
    }
    round, body := TakeChunk(src, body, p, size.value, decoded, utf8, all, had);
  }

  method TakeChunk(src: Source, buf: seq<byte>, p: nat, size: nat, decoded: seq<byte>, utf8: seq<byte> -> bool, ghost all: seq<byte>, ghost had: nat)
    returns (round: Round, body: seq<byte>)
    requires Holds(src, buf, all) && p <= |buf| && size > 0 && |decoded| + size <= MAX_BODY_BYTES && Lean(buf, had, p)
    modifies src
    ensures round.Next? ==>
              && Holds(src, body, all) && round.pos == p + size + 2 <= |body| && |round.decoded| <= MAX_BODY_BYTES && Lean(body, had, round.pos)
              && Chunks(all, round.pos, round.decoded, utf8) == AfterLine(all, p, size, decoded, utf8)
    ensures round.Stop? ==> Answers(AfterLine(all, p, size, decoded, utf8), had, src.Healthy(), round.r)
  {
    hide Chunks;
    var n := p + size + 2;
    var filled;
    filled, body := Fill(src, buf, n, all);
    if filled.Err? {
      return Stop(Err(filled.error)), body;
    }
    assert body <= all;
    SubOfPrefix(body, all, p, p + size);
    SubOfPrefix(body, all, p + size, n);
    if body[p + size..n] != [13, 10] {
      return Stop(Err(Malformed)), body;
    }
    round := Next(n, decoded + body[p..p + size]);
  }

  /**
    However the bytes arrive, a decoded body is the one the whole stream means,
    its encoding and trailers keep to the limits (up to one read), and a stream
    that means one within the limits is decoded.
   */
  method ReadChunkedBody(src: Source, buf: seq<byte>, utf8: seq<byte> -> bool) returns (r: Result<seq<byte>>)
    requires src.Valid()
    modifies src
    ensures Answers(Chunks(buf + old(src.Rest()), 0, [], utf8), |buf|, src.Healthy(), r)
    ensures r.Ok? ==> |r.value| <= 262144
  {
    hide Chunks, Answers;
    ghost var all := buf + src.Rest();
    var body, decoded, pos := buf, [], 0;
    while true
      invariant Holds(src, body, all) && pos <= |body| && |decoded| <= MAX_BODY_BYTES && Lean(body, |buf|, pos)
      invariant Chunks(all, pos, decoded, utf8) == Chunks(all, 0, [], utf8)
      decreases |all| - pos
    {
      var round;
      round, body := ReadChunk(src, body, pos, decoded, utf8, all, |buf|);
      if round.Stop? {
        AnswerFits(Chunks(all, pos, decoded, utf8), |buf|, src.Healthy(), round.r);
        return round.r;
      }
      pos, decoded := round.pos, round.decoded;
    }
  }

  lemma AnswerFits(s: Scan, had: nat, healthy: bool, r: Result<seq<byte>>)
    requires Answers(s, had, healthy, r)
    ensures r.Ok? ==> |r.value| <= 262144
  {
  }

  /** A body of announced length: its first bytes, if there are enough, however they arrive. */
  method ReadContentLengthBody(src: Source, buf: seq<byte>, len: nat) returns (r: Result<seq<byte>>)
    requires src.Valid()
    modifies src
    ensures var all := buf + old(src.Rest());
            && (r.Ok? ==> len <= 262144 && len <= |all| && r.value == all[..len])
            && (src.Healthy() && len <= 262144 && len <= |all| ==> r.Ok?)
  {
    if len > MAX_BODY_BYTES {
      return Err(TooLong);
    }
    ghost var all := buf + src.Rest();
    var body := buf;
    while |body| < len
      invariant Holds(src, body, all)
      decreases len - |body|
    {
      var more := src.ReadMore(body, len);
      if more.Err? {
        return Err(more.error);
      }
      body := more.value;
    }
    assert body[..len] == all[..len];
    r := Ok(body[..len]);
  }

  // ----- What a sender writes ---------------------------------------------

  const CRLF: seq<byte> := [13, 10]

  /** A line without its end: the first line end in it is the one that follows it. */
  ghost predicate IsLine(line: seq<byte>) { FindCrlf(line + CRLF, 0) == Some(|line|) }

  datatype Chunk = Chunk(line: seq<byte>, data: seq<byte>)

  /** The size line may carry extensions; it only has to announce the data. */
  ghost predicate WellFormed(c: Chunk, utf8: seq<byte> -> bool) {
    c.data != [] && IsLine(c.line) && ParseSize(c.line, utf8) == Some(|c.data|)
  }

  function EncodeChunk(c: Chunk): seq<byte> { (c.line + CRLF) + (c.data + CRLF) }

  function EncodeLines(lines: seq<seq<byte>>): seq<byte> {
    if lines == [] then CRLF else (lines[0] + CRLF) + EncodeLines(lines[1..])
  }

  function Encode(chunks: seq<Chunk>, last: seq<byte>, trailers: seq<seq<byte>>): seq<byte> {
    if chunks == [] then (last + CRLF) + EncodeLines(trailers)
    else EncodeChunk(chunks[0]) + Encode(chunks[1..], last, trailers)
  }

  function Data(chunks: seq<Chunk>): seq<byte> { if chunks == [] then [] else chunks[0].data + Data(chunks[1..]) }

  /** `s` stands at `pos` in `b`. */
  ghost predicate At(b: seq<byte>, pos: nat, s: seq<byte>) { pos + |s| <= |b| && b[pos..pos + |s|] == s }

  lemma AtSplit(b: seq<byte>, pos: nat, s: seq<byte>, t: seq<byte>)
    requires At(b, pos, s + t)
    ensures At(b, pos, s) && At(b, pos + |s|, t)
  {
    var u := b[pos..pos + |s + t|];
    assert u[..|s|] == s && u[|s|..] == t;
    assert b[pos..pos + |s|] == u[..|s|];
    assert b[pos + |s|..pos + |s| + |t|] == u[|s|..];
  }

  lemma {:induction false} FindAt(b: seq<byte>, pos: nat, s: seq<byte>, i: nat)
    requires At(b, pos, s) && i <= |s| && FindCrlf(s, i).Some?
    ensures FindCrlf(b, pos + i) == Some(pos + FindCrlf(s, i).value)
    decreases |s| - i
  {
    assert b[pos + i] == s[i] && b[pos + i + 1] == s[i + 1] by {
      var u := b[pos..pos + |s|];
      assert u[i] == b[pos + i] && u[i + 1] == b[pos + i + 1];
    }
    if !(s[i] == 13 && s[i + 1] == 10) {
      FindAt(b, pos, s, i + 1);
    }
  }

  lemma LineAt(b: seq<byte>, pos: nat, line: seq<byte>, rest: seq<byte>)
    requires IsLine(line) && At(b, pos, (line + CRLF) + rest)
    ensures FindCrlf(b, pos) == Some(pos + |line|) && At(b, pos, line) && At(b, pos + |line| + 2, rest)
  {
    hide At, FindCrlf;
    AtSplit(b, pos, line + CRLF, rest);
    FindAt(b, pos, line + CRLF, 0);
    AtSplit(b, pos, line, CRLF);
  }

  lemma NoTrailers(b: seq<byte>, pos: nat)
    requires At(b, pos, CRLF)
    ensures Trailers(b, pos) == Some(pos + |CRLF|)
  {
    TrailersStep(b, pos);
    assert FindCrlf(CRLF, 0) == Some(0);
    FindAt(b, pos, CRLF, 0);
  }

  lemma {:induction false} TrailersEncoded(b: seq<byte>, pos: nat, lines: seq<seq<byte>>)
    requires At(b, pos, EncodeLines(lines)) && forall l :: l in lines ==> l != [] && IsLine(l)
    ensures Trailers(b, pos) == Some(pos + |EncodeLines(lines)|)
    decreases |lines|
  {
    hide FindCrlf, At, IsLine, Trailers, CRLF;
    if lines == [] {
      NoTrailers(b, pos);
    } else {
      assert lines[0] in lines && forall x :: x in lines[1..] ==> x in lines;
      OneTrailer(b, pos, lines[0], EncodeLines(lines[1..]));
      TrailersEncoded(b, pos + |lines[0]| + 2, lines[1..]);
    }
  }

  lemma OneTrailer(b: seq<byte>, pos: nat, line: seq<byte>, rest: seq<byte>)
    requires line != [] && IsLine(line) && At(b, pos, (line + CRLF) + rest)
    ensures |CRLF| == 2 && pos + |line| + 2 <= |b| && At(b, pos + |line| + 2, rest)
    ensures Trailers(b, pos) == Trailers(b, pos + |line| + 2)
  {
    LineAt(b, pos, line, rest);
    hide FindCrlf, IsLine, Trailers;
    TrailersStep(b, pos);
  }

  lemma OneChunk(b: seq<byte>, pos: nat, c: Chunk, decoded: seq<byte>, utf8: seq<byte> -> bool)
    requires At(b, pos, EncodeChunk(c)) && WellFormed(c, utf8) && |decoded| + |c.data| <= MAX_BODY_BYTES
    ensures pos + |EncodeChunk(c)| <= |b|
    ensures Chunks(b, pos, decoded, utf8) == Chunks(b, pos + |EncodeChunk(c)|, decoded + c.data, utf8)
  {
    hide FindCrlf, ParseSize, Chunks, IsLine;
    var e := pos + |c.line|;
    LineAt(b, pos, c.line, c.data + CRLF);
    AtSplit(b, e + 2, c.data, CRLF);
    LineFound(b, pos, decoded, utf8, e);
    assert b[pos..e] == c.line;
  }

  lemma LastChunk(b: seq<byte>, pos: nat, last: seq<byte>, trailers: seq<seq<byte>>, decoded: seq<byte>, utf8: seq<byte> -> bool)
    requires At(b, pos, (last + CRLF) + EncodeLines(trailers)) && IsLine(last) && ParseSize(last, utf8) == Some(0)
    requires forall l :: l in trailers ==> l != [] && IsLine(l)
    ensures Chunks(b, pos, decoded, utf8) == Body(decoded, pos + |last| + 2, pos + |last| + 2 + |EncodeLines(trailers)|)
  {
    hide FindCrlf, ParseSize, Chunks, Trailers, IsLine, EncodeLines;
    var e := pos + |last|;
    LineAt(b, pos, last, EncodeLines(trailers));
    TrailersEncoded(b, e + 2, trailers);
    LineFound(b, pos, decoded, utf8, e);
    assert b[pos..e] == last;
  }

  lemma {:induction false} ChunksEncoded(b: seq<byte>, pos: nat, chunks: seq<Chunk>, last: seq<byte>, trailers: seq<seq<byte>>,
                                        decoded: seq<byte>, utf8: seq<byte> -> bool)
    requires At(b, pos, Encode(chunks, last, trailers))
    requires forall c :: c in chunks ==> WellFormed(c, utf8)
    requires IsLine(last) && ParseSize(last, utf8) == Some(0)
    requires forall l :: l in trailers ==> l != [] && IsLine(l)
    requires |decoded| + |Data(chunks)| <= MAX_BODY_BYTES
    ensures var s := Chunks(b, pos, decoded, utf8);
            && s.Body? && s.decoded == decoded + Data(chunks)
            && s.end == pos + |Encode(chunks, last, trailers)| == s.trailers + |EncodeLines(trailers)|
    decreases |chunks|
  {
    hide FindCrlf, ParseSize, Chunks, Trailers, At, IsLine, EncodeLines, EncodeChunk;
    if chunks == [] {
      LastChunk(b, pos, last, trailers, decoded, utf8);
      assert decoded + [] == decoded;
    } else {
      var c, rest := chunks[0], chunks[1..];
      assert c in chunks;
      AtSplit(b, pos, EncodeChunk(c), Encode(rest, last, trailers));
      OneChunk(b, pos, c, decoded, utf8);
      assert forall x :: x in rest ==> x in chunks;
      ChunksEncoded(b, pos + |EncodeChunk(c)|, rest, last, trailers, decoded + c.data, utf8);
      Assoc(decoded, c.data, Data(rest));
    }
  }

  /**
    Every chunk list whose encoding and trailers fit comes back whole, in
    whatever portions its bytes arrive and whatever follows them.
   */
  method ChunkedRoundTrip(src: Source, buf: seq<byte>, ghost chunks: seq<Chunk>, ghost last: seq<byte>, ghost trailers: seq<seq<byte>>,
                          ghost after: seq<byte>, utf8: seq<byte> -> bool)
    returns (r: Result<seq<byte>>)
    requires src.Valid() && src.Healthy() && buf + src.Rest() == Encode(chunks, last, trailers) + after
    requires forall c :: c in chunks ==> WellFormed(c, utf8)
    requires IsLine(last) && ParseSize(last, utf8) == Some(0)
    requires forall l :: l in trailers ==> l != [] && IsLine(l)
    requires |Encode(chunks, last, trailers)| <= 262144 && |EncodeLines(trailers)| <= 65536
    modifies src
    ensures r == Ok(Data(chunks))
  {
    ghost var all := buf + src.Rest();
    DataFits(chunks, last, trailers);
    assert At(all, 0, Encode(chunks, last, trailers));
    ChunksEncoded(all, 0, chunks, last, trailers, [], utf8);
    hide Chunks, Encode, EncodeLines, Data, WellFormed, IsLine, ParseSize;
    assert [] + Data(chunks) == Data(chunks);
    r := ReadChunkedBody(src, buf, utf8);
  }

  lemma {:induction false} DataFits(chunks: seq<Chunk>, last: seq<byte>, trailers: seq<seq<byte>>)
    ensures |Data(chunks)| <= |Encode(chunks, last, trailers)|
  {
    if chunks != [] {
      DataFits(chunks[1..], last, trailers);
    }
  }

  // ----- Size lines -------------------------------------------------------

  function HexChar(d: nat): byte
    requires d < 16
  {
    if d < 10 then 48 + d else 87 + d
  }

  function HexText(n: nat): seq<byte> { if n < 16 then [HexChar(n)] else HexText(n / 16) + [HexChar(n % 16)] }

  ghost predicate AllHex(s: seq<byte>) { forall i :: 0 <= i < |s| ==> HexDigit(s[i]).Some? }

  lemma {:induction false} HexTextValue(n: nat)
    requires n <= USIZE_MAX
    ensures HexText(n) != [] && AllHex(HexText(n)) && HexValue(HexText(n)) == Some(n)
  {
    if n >= 16 {
      HexTextValue(n / 16);
      var high := HexText(n / 16);
      assert HexText(n)[..|high|] == high;
      assert n == n / 16 * 16 + n % 16;
    }
  }

  lemma {:induction false} PlainText(s: seq<byte>)
    requires AllHex(s)
    ensures BeforeSemicolon(s) == s
  {
    if s != [] {
      assert HexDigit(s[0]).Some?;
      assert AllHex(s[1..]) by { assert forall i :: 0 <= i < |s| - 1 ==> s[1..][i] == s[i + 1]; }
      PlainText(s[1..]);
      assert s == [s[0]] + s[1..];
    }
  }

  lemma {:induction false} PlainLine(s: seq<byte>, i: nat)
    requires AllHex(s) && i <= |s|
    ensures FindCrlf(s + CRLF, i) == Some(|s|)
    decreases |s| - i
  {
    if i < |s| {
      assert HexDigit(s[i]).Some? && (s + CRLF)[i] == s[i];
      PlainLine(s, i + 1);
    }
  }

  /** The usual size line, lower-case hexadecimal without extensions, announces its number. */
  lemma SizeRoundTrip(n: nat, utf8: seq<byte> -> bool)
    requires n <= USIZE_MAX && utf8(HexText(n))
    ensures IsLine(HexText(n)) && ParseSize(HexText(n), utf8) == Some(n)
  {
    var text := HexText(n);
    HexTextValue(n);
    PlainText(text);
    PlainLine(text, 0);
    hide HexText, FindCrlf, BeforeSemicolon;
    assert HexDigit(text[0]).Some? && HexDigit(text[|text| - 1]).Some?;
    assert TrimStart(text) == text && TrimEnd(text) == text;
  }

  /** Character `c` is the digit for `v`, in either case. */
  ghost predicate Spelled(c: byte, v: int) {
    0 <= v < 16 && (c == "0123456789abcdef"[v] as int || c == "0123456789ABCDEF"[v] as int)
  }

  ghost predicate Spells(digits: seq<byte>, vs: seq<nat>) {
    |digits| == |vs| > 0 && forall i :: 0 <= i < |vs| ==> Spelled(digits[i], vs[i])
  }

  ghost function Base16(vs: seq<nat>): nat { if vs == [] then 0 else 16 * Base16(vs[..|vs| - 1]) + vs[|vs| - 1] }

  ghost predicate Blank(s: seq<byte>) { forall c :: c in s ==> c in {9, 10, 11, 12, 13, 32} }

  /** A size line as it may be written: blanks, a plus sign, digits, blanks, and an extension from a semicolon on. */
  datatype SizeLine = SizeLine(pre: seq<byte>, plus: bool, digits: seq<byte>, post: seq<byte>, ext: seq<byte>)

  ghost function Core(l: SizeLine): seq<byte> { (if l.plus then [43] else []) + l.digits }

  ghost function Written(l: SizeLine): seq<byte> { l.pre + (Core(l) + l.post) + l.ext }

  ghost predicate Proper(l: SizeLine, vs: seq<nat>) {
    Blank(l.pre) && Blank(l.post) && (l.ext == [] || l.ext[0] == 59) && Spells(l.digits, vs)
  }

  lemma DigitSpelled(c: byte, v: int)
    ensures Spelled(c, v) <==> HexDigit(c) == Some(v) && v >= 0
  {
    var lower, upper := "0123456789abcdef", "0123456789ABCDEF";
    assert forall i :: 0 <= i < 10 ==> lower[i] as int == 48 + i && upper[i] as int == 48 + i;
    assert forall i :: 10 <= i < 16 ==> lower[i] as int == 87 + i && upper[i] as int == 55 + i;
  }

  lemma {:induction false} SpelledValue(digits: seq<byte>, vs: seq<nat>)
    requires Spells(digits, vs)
    ensures HexValue(digits) == if Base16(vs) <= USIZE_MAX then Some(Base16(vs)) else None
    decreases |digits|
  {
    var n := |digits| - 1;
    DigitSpelled(digits[n], vs[n]);
    hide Spelled, HexDigit;
    if n > 0 {
      assert Spells(digits[..n], vs[..n]);
      SpelledValue(digits[..n], vs[..n]);
    } else {
      assert vs[..0] == [];
    }
  }

  lemma {:induction false} CutAtSemicolon(head: seq<byte>, ext: seq<byte>)
    requires 59 !in head && (ext == [] || ext[0] == 59)
    ensures BeforeSemicolon(head + ext) == head
  {
    if head != [] {
      assert (head + ext)[1..] == head[1..] + ext;
      CutAtSemicolon(head[1..], ext);
    } else {
      assert head + ext == ext;
    }
  }

  lemma {:induction false} TrimBlankStart(pre: seq<byte>, s: seq<byte>)
    requires Blank(pre) && s != [] && !IsSpace(s[0])
    ensures TrimStart(pre + s) == s
  {
    if pre == [] {
      assert pre + s == s;
    } else {
      assert (pre + s)[1..] == pre[1..] + s;
      assert pre[0] in pre && forall c :: c in pre[1..] ==> c in pre;
      TrimBlankStart(pre[1..], s);
    }
  }

  lemma {:induction false} TrimBlankEnd(s: seq<byte>, post: seq<byte>)
    requires Blank(post) && s != [] && !IsSpace(s[|s| - 1])
    ensures TrimEnd(s + post) == s
  {
    if post == [] {
      assert s + post == s;
    } else {
      var n := |post| - 1;
      assert (s + post)[..|s| + n] == s + post[..n];
      assert post[n] in post && forall c :: c in post[..n] ==> c in post;
      TrimBlankEnd(s, post[..n]);
    }
  }

  lemma CoreIsPlain(l: SizeLine, vs: seq<nat>)
    requires Proper(l, vs)
    ensures var c := Core(l); c != [] && !IsSpace(c[0]) && !IsSpace(c[|c| - 1]) && 59 !in l.pre + (c + l.post)
    ensures l.digits[0] != 43
  {
    forall i | 0 <= i < |l.digits| ensures HexDigit(l.digits[i]).Some? {
      DigitSpelled(l.digits[i], vs[i]);
    }
    hide Spelled;
    assert forall x :: x in l.digits ==> HexDigit(x).Some?;
  }

  /**
    Every size line, in upper or lower case, with leading zeros, blanks, a plus
    sign or an extension, announces its number, and is refused exactly if that is
    no machine word.
   */
  lemma SizeLineReads(l: SizeLine, vs: seq<nat>, utf8: seq<byte> -> bool)
    requires Proper(l, vs) && utf8(Written(l))
    ensures ParseSize(Written(l), utf8) == if Base16(vs) <= 0xFFFF_FFFF_FFFF_FFFF then Some(Base16(vs)) else None
  {
    CoreIsPlain(l, vs);
    CutAtSemicolon(l.pre + (Core(l) + l.post), l.ext);
    TrimBlankStart(l.pre, Core(l) + l.post);
    TrimBlankEnd(Core(l), l.post);
    SpelledValue(l.digits, vs);
    hide BeforeSemicolon, TrimStart, TrimEnd, HexValue, Base16, Spells, Blank;
    if l.plus {
      assert Core(l)[1..] == l.digits;
    } else {
      assert Core(l) == l.digits;
    }
  }

  lemma {:induction false} ValueSpelled(digits: seq<byte>) returns (vs: seq<nat>)
    requires HexValue(digits).Some?
    ensures Spells(digits, vs)
    decreases |digits|
  {
    var n := |digits| - 1;
    var v := HexDigit(digits[n]).value;
    DigitSpelled(digits[n], v);
    hide Spelled, HexDigit;
    if n == 0 {
      vs := [v];
    } else {
      vs := ValueSpelled(digits[..n]);
      vs := vs + [v];
      assert forall i :: 0 <= i < n ==> digits[..n][i] == digits[i];
    }
  }

  lemma {:induction false} SemicolonCut(line: seq<byte>) returns (ext: seq<byte>)
    ensures line == BeforeSemicolon(line) + ext && (ext == [] || ext[0] == 59)
  {
    if line == [] || line[0] == 59 {
      ext := line;
    } else {
      ext := SemicolonCut(line[1..]);
      assert line == [line[0]] + line[1..];
    }
  }

  lemma {:induction false} TrimmedStart(s: seq<byte>) returns (pre: seq<byte>)
    ensures s == pre + TrimStart(s) && Blank(pre)
  {
    if s != [] && IsSpace(s[0]) {
      pre := TrimmedStart(s[1..]);
      pre := [s[0]] + pre;
    } else {
      pre := [];
    }
  }

  lemma {:induction false} TrimmedEnd(s: seq<byte>) returns (post: seq<byte>)
    ensures s == TrimEnd(s) + post && Blank(post)
  {
    if s != [] && IsSpace(s[|s| - 1]) {
      post := TrimmedEnd(s[..|s| - 1]);
      post := post + [s[|s| - 1]];
    } else {
      post := [];
    }
  }

  lemma PlusCut(text: seq<byte>, plus: bool)
    requires plus ==> text != [] && text[0] == 43
    ensures (if plus then [43] + text[1..] else [] + text) == text
  {
  }

  /** And nothing else is taken for a size line. */
  lemma OnlySizeLines(line: seq<byte>, utf8: seq<byte> -> bool) returns (l: SizeLine, vs: seq<nat>)
    requires ParseSize(line, utf8).Some?
    ensures line == Written(l) && Proper(l, vs) && ParseSize(line, utf8) == Some(Base16(vs)) && utf8(line)
  {
    var head := BeforeSemicolon(line);
    var ext := SemicolonCut(line);
    var pre := TrimmedStart(head);
    var post := TrimmedEnd(TrimStart(head));
    var text := TrimEnd(TrimStart(head));
    var plus := |text| > 1 && text[0] == 43;
    var digits := if plus then text[1..] else text;
    vs := ValueSpelled(digits);
    l := SizeLine(pre, plus, digits, post, ext);
    hide BeforeSemicolon, TrimStart, TrimEnd, HexValue, Base16, Spells, Blank, IsSpace;
    assert Core(l) == text by { PlusCut(text, plus); }
    assert line == Written(l);
    hide Written, Core;
    SizeLineReads(l, vs, utf8);
  }
}
