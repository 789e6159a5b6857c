/** The chunked branch of _read_body in scripts/capacity/p6_http.py, against the chunked coding of
    section 7.1 of RFC 9112. */
module ChunkedBody {
  import opened Prelude
  import opened WireCodec

  const LF: byte := 10
  const CR: byte := 13
  const SEMICOLON: byte := 59
  const UNDERSCORE: byte := 95
  const CRLF: Bytes := [CR, LF]

  // ----- lines -----

  /** The index of the first LF, or the length when there is none. */
  function LineEnd(buf: Bytes): (e: nat)
    ensures e <= |buf| && LF !in buf[..e] && (e < |buf| ==> buf[e] == LF)
  {
    if buf == [] || buf[0] == LF then 0 else 1 + LineEnd(buf[1..])
  }

  /** StreamReader.readline: up to and with the first LF, or what is left at the end of the
      stream; a line whose content exceeds the reader's limit raises. */
  function ReadLine(buf: Bytes): (r: Read<Bytes>)
    ensures r.Got? ==> buf == r.value + r.rest
    ensures r.Failed? ==> r.error == LineTooLong
  {
    var e := LineEnd(buf);
    if e > LINE_LIMIT then Failed(LineTooLong)
    else if e == |buf| then Got(buf, [])
    else Got(buf[..e + 1], buf[e + 1..])
  }

  lemma {:induction false} LineEndAt(text: Bytes, rest: Bytes)
    requires LF !in text
    ensures LineEnd(text + [LF] + rest) == |text|
  {
    if text != [] {
      LineEndAt(text[1..], rest);
      assert (text + [LF] + rest)[1..] == text[1..] + [LF] + rest;
    }
  }

  lemma ReadOneLine(text: Bytes, rest: Bytes)
    requires LF !in text
    ensures ReadLine(text + CRLF + rest) ==
      if |text| < 65536 then Got(text + CRLF, rest) else Failed(LineTooLong)
  {
    var line := text + [CR];
    assert text + CRLF + rest == line + [LF] + rest;
    LineEndAt(line, rest);
    var buf := line + [LF] + rest;
    assert buf[..|line| + 1] == text + CRLF && buf[|line| + 1..] == rest;
  }

  // ----- the size of a chunk -----

  function HexDigit(b: byte): Option<nat> {
    if 48 <= b <= 57 then Some(b as nat - 48)
    else if 65 <= b <= 70 then Some(b as nat - 55)
    else if 97 <= b <= 102 then Some(b as nat - 87)
    else None
  }

  predicate IsSpace(b: byte) { b == 32 || 9 <= b <= 13 }

  /** Digits of base 16 with single underscores allowed between them. */
  function DigitRun(s: Bytes): Option<nat> {
    if s == [] then None
    else match HexDigit(s[|s| - 1])
      case None => None
      case Some(d) =>
        if |s| == 1 then Some(d)
        else match DigitRun(if s[|s| - 2] == UNDERSCORE then s[..|s| - 2] else s[..|s| - 1])
          case None => None
          case Some(n) => Some(n * 16 + d)
  }

  predicate HasPrefix(s: Bytes) { |s| >= 2 && s[0] == 48 && (s[1] == 120 || s[1] == 88) }

  function AfterPrefix(s: Bytes): Bytes {
    if !HasPrefix(s) then s
    else if |s| > 2 && s[2] == UNDERSCORE then s[3..]
    else s[2..]
  }

  function Signed(sign: int, n: nat): int { sign * n }

  /** int(s, 16) on text without surrounding space: an optional sign, an optional 0x prefix that
      one underscore may follow, then digits. */
  function PythonHex(s: Bytes): Option<int> {
    if s == [] then None
    else if s[0] == 45 then
      match DigitRun(AfterPrefix(s[1..]))
      case None => None
      case Some(n) => Some(Signed(-1, n))
    else
      match DigitRun(AfterPrefix(if s[0] == 43 then s[1..] else s))
      case None => None
      case Some(n) => Some(Signed(1, n))
  }

  function BeforeSemicolon(s: Bytes): Bytes {
    if s == [] || s[0] == SEMICOLON then [] else [s[0]] + BeforeSemicolon(s[1..])
  }

  function StripLeft(s: Bytes): Bytes {
    if s != [] && IsSpace(s[0]) then StripLeft(s[1..]) else s
  }

  function StripRight(s: Bytes): Bytes {
    if s != [] && IsSpace(s[|s| - 1]) then StripRight(s[..|s| - 1]) else s
  }

  function SizeOfLine(line: Bytes): (size: Option<int>)
    ensures size.Some? ==> line != []
  {
    PythonHex(StripRight(StripLeft(BeforeSemicolon(line))))
  }

  // ----- the reader -----

  /** The lines after the last chunk, up to an empty one or the end of the stream. */
  function SkipTrailer(buf: Bytes): (r: Read<()>)
    ensures r.Failed? ==> r.error == LineTooLong
    decreases |buf|
  {
    match ReadLine(buf)
    case Failed(e) => Failed(e)
    case Got(line, rest) =>
      if line == CRLF || line == [] then Got((), rest) else SkipTrailer(rest)
  }

  /** What follows a chunk-size line: the data and two more bytes, whatever they are. */
  function ReadChunk(size: int, total: int, buf: Bytes): (r: Read<Bytes>)
    ensures r.Got? ==> |r.rest| <= |buf|
  {
    if total + size > MAX_BODY_BYTES then Failed(BodyTooLarge)
    else if size < 0 then Failed(NegativeSize)
    else match Exactly(buf, size)
      case Failed(e) => Failed(e)
      case Got(data, afterData) =>
        match Exactly(afterData, 2)
        case Failed(e) => Failed(e)
        case Got(_, rest) => Got(data, rest)
  }

  function WithFront(front: Bytes, r: Read<Bytes>): Read<Bytes> {
    match r
    case Failed(e) => Failed(e)
    case Got(data, rest) => Got(front + data, rest)
  }

  lemma FrontTwice(front: Bytes, data: Bytes, r: Read<Bytes>)
    ensures WithFront([], r) == r
    ensures WithFront(front, WithFront(data, r)) == WithFront(front + data, r)
  {
    if r.Got? {
      assert [] + r.value == r.value;
      assert front + (data + r.value) == front + data + r.value;
    }
  }

  /** The rest of a chunked body after `total` bytes of it. */
  function ReadChunked(buf: Bytes, total: int): Read<Bytes>
    decreases |buf|
  {
    match ReadLine(buf)
    case Failed(e) => Failed(e)
    case Got(line, rest) =>
      match SizeOfLine(line)
      case None => Failed(BadChunk)
      case Some(size) =>
        if size == 0 then
          match SkipTrailer(rest)
          case Failed(e) => Failed(e)
          case Got(_, tail) => Got([], tail)
        else match ReadChunk(size, total, rest)
          case Failed(e) => Failed(e)
          case Got(data, tail) => WithFront(data, ReadChunked(tail, total + size))
  }

  // ----- what a reader that raised leaves on the stream -----

  /** After a line beyond the limit: with its LF in the buffer the line is dropped; before that,
      the `arrived` bytes that were too many are dropped and the rest of the line stays. */
  function AfterOverrun(buf: Bytes, arrived: nat): (left: Bytes)
    ensures |left| <= |buf| && left == buf[|buf| - |left|..]
  {
    var e := LineEnd(buf);
    if LINE_LIMIT < arrived <= e then buf[arrived..]
    else if e < |buf| then buf[e + 1..]
    else []
  }

  function TrailerLeft(buf: Bytes, arrived: nat): Bytes
    decreases |buf|
  {
    match ReadLine(buf)
    case Failed(_) => AfterOverrun(buf, arrived)
    case Got(line, rest) =>
      if line == CRLF || line == [] then rest else TrailerLeft(rest, arrived)
  }

  /** A stream that ends inside the data is used up; the other failures leave it behind the line. */
  function ChunkLeft(size: int, total: int, buf: Bytes): Bytes {
    match ReadChunk(size, total, buf)
    case Failed(e) => if e == Incomplete then [] else buf
    case Got(_, rest) => rest
  }

  /** What is left of the stream after a chunked body, read or not. */
  function ChunkedLeft(buf: Bytes, total: int, arrived: nat): Bytes
    decreases |buf|
  {
    match ReadLine(buf)
    case Failed(_) => AfterOverrun(buf, arrived)
    case Got(line, rest) =>
      match SizeOfLine(line)
      case None => rest
      case Some(size) =>
        if size == 0 then TrailerLeft(rest, arrived)
        else match ReadChunk(size, total, rest)
          case Failed(_) => ChunkLeft(size, total, rest)
          case Got(_, tail) => ChunkedLeft(tail, total + size, arrived)
  }

  lemma {:induction false} TrailerLeftIsRest(buf: Bytes, arrived: nat)
    requires SkipTrailer(buf).Got?
    ensures TrailerLeft(buf, arrived) == SkipTrailer(buf).rest
    decreases |buf|
  {
    var line := ReadLine(buf);
    if line.value != CRLF && line.value != [] {
      TrailerLeftIsRest(line.rest, arrived);
    }
  }

  /** A body that was read leaves exactly what follows it. */
  lemma {:induction false} LeftIsRest(buf: Bytes, total: int, arrived: nat)
    requires ReadChunked(buf, total).Got?
    ensures ChunkedLeft(buf, total, arrived) == ReadChunked(buf, total).rest
    decreases |buf|
  {
    hide ReadLine, SizeOfLine, ReadChunk, SkipTrailer, TrailerLeft;
    var line := ReadLine(buf);
    var size := SizeOfLine(line.value).value;
    if size == 0 {
      TrailerLeftIsRest(line.rest, arrived);
    } else {
      var chunk := ReadChunk(size, total, line.rest);
      LeftIsRest(chunk.rest, total + size, arrived);
    }
  }

  /** The loop of _read_body over `total` and `chunks`, each call taking bytes off the stream. */
  method ReadChunkedBody(reader: Reader, arrived: nat) returns (r: Read<Bytes>)
    modifies reader
    ensures r == ReadChunked(old(reader.buf), 0)
    ensures reader.buf == ChunkedLeft(old(reader.buf), 0, arrived)
    ensures r.Got? ==> reader.buf == r.rest
  {
    hide SizeOfLine, ReadLine, SkipTrailer, ReadChunk, TrailerLeft, ChunkLeft, AfterOverrun;
    var chunks: Bytes, total := [], 0;
    FrontTwice([], [], ReadChunked(reader.buf, total));
    while true
      invariant WithFront(chunks, ReadChunked(reader.buf, total)) == ReadChunked(old(reader.buf), 0)
      invariant ChunkedLeft(reader.buf, total, arrived) == ChunkedLeft(old(reader.buf), 0, arrived)
      decreases |reader.buf|
    {
      ghost var stream := reader.buf;
      var line := ReadLineFrom(reader, arrived);
      if line.Err? { return Failed(LineTooLong); }
      var size := SizeOfLine(line.value);
      if size.None? { return Failed(BadChunk); }
      if size.value == 0 {
        var end := SkipTrailerOf(reader, arrived);
        if end.Err? { return Failed(LineTooLong); }
        assert chunks + [] == chunks;
        assert ReadChunked(stream, total) == Got([], reader.buf);
        return Got(chunks, reader.buf);
      }
      var data := ReadChunkOf(reader, size.value, total);
      if data.Failed? { return Failed(data.error); }
      total := total + size.value;
      FrontTwice(chunks, data.value, ReadChunked(reader.buf, total));
      chunks := chunks + data.value;
    }
  }

  method ReadLineFrom(reader: Reader, arrived: nat) returns (r: Result<Bytes>)
    modifies reader
    ensures match ReadLine(old(reader.buf))
      case Got(line, rest) => r == Ok(line) && reader.buf == rest
      case Failed(_) => r.Err? && reader.buf == AfterOverrun(old(reader.buf), arrived)
  {
    var line := ReadLine(reader.buf);
    if line.Failed? {
      reader.buf := AfterOverrun(reader.buf, arrived);
      return Err("line too long");
    }
    reader.buf := line.rest;
    return Ok(line.value);
  }

  method SkipTrailerOf(reader: Reader, arrived: nat) returns (r: Result<()>)
    modifies reader
    ensures reader.buf == TrailerLeft(old(reader.buf), arrived)
    ensures match SkipTrailer(old(reader.buf))
      case Got(_, rest) => r == Ok(()) && reader.buf == rest
      case Failed(_) => r.Err?
  {
    hide ReadLine, AfterOverrun;
    var line := ReadLineFrom(reader, arrived);
    while line.Ok? && line.value != CRLF && line.value != []
      invariant match line
        case Err(_) => SkipTrailer(old(reader.buf)).Failed? && reader.buf == TrailerLeft(old(reader.buf), arrived)
        case Ok(text) =>
          if text == CRLF || text == []
          then SkipTrailer(old(reader.buf)) == Got((), reader.buf)
          && reader.buf == TrailerLeft(old(reader.buf), arrived)
          else
            && SkipTrailer(old(reader.buf)) == SkipTrailer(reader.buf)
            && TrailerLeft(old(reader.buf), arrived) == TrailerLeft(reader.buf, arrived)
      decreases |reader.buf|, if line.Ok? then |line.value| else 0
    {
      line := ReadLineFrom(reader, arrived);
    }
    if line.Err? { return Err("line too long"); }
    return Ok(());
  }

  method ReadChunkOf(reader: Reader, size: int, total: int) returns (r: Read<Bytes>)
    modifies reader
    ensures r == ReadChunk(size, total, old(reader.buf))
    ensures reader.buf == ChunkLeft(size, total, old(reader.buf)) && (r.Got? ==> reader.buf == r.rest)
  {
    if total + size > MAX_BODY_BYTES { return Failed(BodyTooLarge); }
    if size < 0 { return Failed(NegativeSize); }
    var data := reader.ReadExactly(size);
    if data.Err? { return Failed(Incomplete); }
    var end := reader.ReadExactly(2);
    if end.Err? { return Failed(Incomplete); }
    return Got(data.value, reader.buf);
  }

  // ----- section 7.1 of RFC 9112 -----

  /** chunk-size, the white space a sender may add, and chunk-ext, without the CRLF. */
  datatype SizeText = SizeText(digits: Bytes, blank: Bytes, ext: Bytes)

  datatype Chunk = Chunk(head: SizeText, data: Bytes)

  /** chunked-body: the chunks, the last chunk's line and the lines of the trailer section. */
  datatype Framing = Framing(chunks: seq<Chunk>, last: SizeText, trailers: seq<Bytes>)

  predicate IsHex(s: Bytes) { forall i | 0 <= i < |s| :: HexDigit(s[i]).Some? }

  function HexValue(s: Bytes): nat
    requires IsHex(s)
  {
    if s == [] then 0 else HexValue(s[..|s| - 1]) * 16 + HexDigit(s[|s| - 1]).value
  }

  function Text(h: SizeText): Bytes { h.digits + h.blank + h.ext }

  predicate ValidHead(h: SizeText, size: nat) {
    && h.digits != [] && IsHex(h.digits) && HexValue(h.digits) == size
    && (forall b | b in h.blank :: b == 32 || b == 9)
    && (h.ext == [] || h.ext[0] == SEMICOLON) && LF !in h.ext
    && |Text(h)| < LINE_LIMIT
  }

  predicate ValidChunk(c: Chunk) { c.data != [] && ValidHead(c.head, |c.data|) }

  predicate ValidTrailer(line: Bytes) { line != [] && LF !in line && |line| < LINE_LIMIT }

  predicate ValidFraming(f: Framing) {
    && (forall i | 0 <= i < |f.chunks| :: ValidChunk(f.chunks[i]))
    && ValidHead(f.last, 0)
    && (forall i | 0 <= i < |f.trailers| :: ValidTrailer(f.trailers[i]))
  }

  function TrailerBytes(trailers: seq<Bytes>): Bytes {
    if trailers == [] then CRLF else trailers[0] + CRLF + TrailerBytes(trailers[1..])
  }

  function Body(f: Framing): Bytes
    decreases |f.chunks|
  {
    if f.chunks == [] then Text(f.last) + CRLF + TrailerBytes(f.trailers)
    else
      var c := f.chunks[0];
      Text(c.head) + CRLF + c.data + CRLF + Body(f.(chunks := f.chunks[1..]))
  }

  function Data(chunks: seq<Chunk>): Bytes {
    if chunks == [] then [] else chunks[0].data + Data(chunks[1..])
  }

  lemma {:induction false} DigitRunOfHex(s: Bytes)
    requires s != [] && IsHex(s)
    ensures DigitRun(s) == Some(HexValue(s))
  {
    if |s| > 1 {
      var front := s[..|s| - 1];
      assert s[|s| - 2] == front[|front| - 1];
      DigitRunOfHex(front);
    } else {
      assert s[..0] == [];
    }
  }

  lemma PythonHexOfHex(s: Bytes)
    requires s != [] && IsHex(s)
    ensures PythonHex(s) == Some(HexValue(s))
  {
    assert HexDigit(s[0]).Some?;
    assert !HasPrefix(s) by {
      if |s| >= 2 { assert HexDigit(s[1]).Some?; }
    }
    DigitRunOfHex(s);
  }

  lemma {:induction false} BeforeSemicolonOf(s: Bytes, t: Bytes)
    requires SEMICOLON !in s && (t == [] || t[0] == SEMICOLON)
    ensures BeforeSemicolon(s + t) == s
  {
    if s == [] {
      assert s + t == t;
    } else {
      assert (s + t)[1..] == s[1..] + t;
      BeforeSemicolonOf(s[1..], t);
    }
  }

  lemma {:induction false} StripRightOf(s: Bytes, blank: Bytes)
    requires s != [] && !IsSpace(s[|s| - 1])
    requires forall i | 0 <= i < |blank| :: IsSpace(blank[i])
    ensures StripRight(s + blank) == s
  {
    if blank == [] {
      assert s + blank == s;
    } else {
      assert (s + blank)[..|s + blank| - 1] == s + blank[..|blank| - 1];
      StripRightOf(s, blank[..|blank| - 1]);
    }
  }

  lemma HexIsPlain(digits: Bytes)
    requires digits != [] && IsHex(digits)
    ensures SEMICOLON !in digits && LF !in digits
    ensures !IsSpace(digits[0]) && !IsSpace(digits[|digits| - 1])
  {
    assert HexDigit(digits[0]).Some? && HexDigit(digits[|digits| - 1]).Some?;
    forall i | 0 <= i < |digits| ensures digits[i] != SEMICOLON && digits[i] != LF {
      assert HexDigit(digits[i]).Some?;
    }
  }

  /** The text of a size is read back whatever the case and leading zeros of its digits, the white
      space and the extension after it. */
  lemma SizeRead(h: SizeText, size: nat)
    requires ValidHead(h, size)
    ensures SizeOfLine(Text(h) + CRLF) == Some(size)
  {
    var blank := if h.ext == [] then h.blank + CRLF else h.blank;
    var after := if h.ext == [] then [] else h.ext + CRLF;
    assert Text(h) + CRLF == h.digits + blank + after;
    HexIsPlain(h.digits);
    forall i | 0 <= i < |blank| ensures IsSpace(blank[i]) && blank[i] != SEMICOLON {
      if i < |h.blank| { assert blank[i] in h.blank; }
    }
    BeforeSemicolonOf(h.digits + blank, after);
    StripRightOf(h.digits, blank);
    PythonHexOfHex(h.digits);
    hide BeforeSemicolon, StripRight, PythonHex, HexValue, IsHex;
    assert StripLeft(h.digits + blank) == h.digits + blank;
  }

  lemma HeadLine(h: SizeText, size: nat, rest: Bytes)
    requires ValidHead(h, size)
    ensures ReadLine(Text(h) + CRLF + rest) == Got(Text(h) + CRLF, rest)
  {
    HexIsPlain(h.digits);
    ReadOneLine(Text(h), rest);
  }

  lemma {:induction false} TrailerRead(trailers: seq<Bytes>, rest: Bytes)
    requires forall i | 0 <= i < |trailers| :: ValidTrailer(trailers[i])
    ensures SkipTrailer(TrailerBytes(trailers) + rest) == Got((), rest)
  {
    hide ReadLine;
    if trailers == [] {
      ReadOneLine([], rest);
      assert [] + CRLF == CRLF;
    } else {
      assert ValidTrailer(trailers[0]);
      var more := TrailerBytes(trailers[1..]) + rest;
      assert TrailerBytes(trailers) + rest == trailers[0] + CRLF + more;
      ReadOneLine(trailers[0], more);
      TrailerRead(trailers[1..], rest);
      assert |trailers[0] + CRLF| > |CRLF|;
    }
  }

  /** The two bytes that end a chunk are not looked at: any two pass where section 7.1 has CRLF. */
  lemma ChunkRead(data: Bytes, total: nat, end: Bytes, rest: Bytes)
    requires total + |data| <= MAX_BODY_BYTES && |end| == 2
    ensures ReadChunk(|data|, total, data + end + rest) == Got(data, rest)
  {
    assert data + end + rest == data + (end + rest);
    assert (end + rest)[2..] == rest;
  }

  /** The reader undoes every framing of a body whose data fit, leaving what follows it alone, and
      refuses every framing of more data. */
  lemma {:induction false} ChunkedRoundTrip(f: Framing, total: nat, rest: Bytes)
    requires ValidFraming(f) && total <= 4194304
    ensures ReadChunked(Body(f) + rest, total) ==
      if total + |Data(f.chunks)| <= 4194304 then Got(Data(f.chunks), rest) else Failed(BodyTooLarge)
    decreases |f.chunks|
  {
    hide ReadLine, SizeOfLine, SkipTrailer, ValidHead, TrailerBytes;
    if f.chunks == [] {
      var tail := TrailerBytes(f.trailers) + rest;
      assert Body(f) + rest == Text(f.last) + CRLF + tail;
      HeadLine(f.last, 0, tail);
      SizeRead(f.last, 0);
      TrailerRead(f.trailers, rest);
    } else {
      var c, more := f.chunks[0], f.(chunks := f.chunks[1..]);
      assert ValidChunk(c);
      var tail := Body(more) + rest;
      assert Body(f) + rest == Text(c.head) + CRLF + (c.data + CRLF + tail);
      HeadLine(c.head, |c.data|, c.data + CRLF + tail);
      SizeRead(c.head, |c.data|);
      if total + |c.data| <= MAX_BODY_BYTES {
        ChunkRead(c.data, total, CRLF, tail);
        ChunkedRoundTrip(more, total + |c.data|, rest);
      }
    }
  }
}
