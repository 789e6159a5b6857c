/** HttpConnection.request in scripts/capacity/p6_http.py over the bytes of its connections: how
    often a request is sent, how often the server can have acted on it, which exceptions leave the
    connection open, and what the next request then reads. */
module HttpRetry {
  import opened Prelude
  import opened WireCodec
  import opened ChunkedBody

  const MAX_HEADER_BYTES := 64 * 1024
  const BLANK_LINE: Bytes := [CR, LF, CR, LF]

  // ----- one response -----

  /** What the body reader and the connection need to know of a method, a status and the headers: no
      body at all, the chunked coding, the content length (None when it is no number), and whether
      the answer asks for the connection to be closed. */
  datatype Head = Head(bodyless: bool, chunked: bool, length: Option<Option<int>>, close: bool)

  /** The status line and header fields of a head, or None for a bad status line. */
  type Parser = Bytes -> Option<Head>

  /** HttpClientError.kind */
  datatype Kind = ConnectFailed | RequestTimeout | ConnectionClosed | IoError
    | HeaderTooLarge | BadStatusLine | BadChunkSize | BadLength | TooLarge

  /** How one exchange ends: with an answer, with an error that `request` catches and closes the
      connection for, or with an IncompleteReadError or ValueError, which it does not catch. `left`
      is what the connection's stream still holds. */
  datatype Ending =
    | Answered(head: Head, body: Bytes, left: Bytes)
    | Caught(kind: Kind)
    | Escaped(left: Bytes)

  /** Where the first blank line begins, or the length when there is none. */
  function HeadEnd(s: Bytes): (n: nat)
    ensures n <= |s| && (n < |s| ==> n + 4 <= |s| && s[n..n + 4] == BLANK_LINE)
  {
    if s == [] || BLANK_LINE <= s then 0 else 1 + HeadEnd(s[1..])
  }

  datatype HeadRead = Whole(raw: Bytes, rest: Bytes) | NoHead(kind: Kind)

  /** _read_head up to the parsing: readuntil with its limit, at the end of the stream. */
  function ReadHead(stream: Bytes): HeadRead {
    var n := HeadEnd(stream);
    if n < |stream| then
      if n + 4 > MAX_HEADER_BYTES then NoHead(HeaderTooLarge) else Whole(stream[..n + 4], stream[n + 4..])
    else if |stream| > LINE_LIMIT + 3 then NoHead(HeaderTooLarge)
    else NoHead(ConnectionClosed)
  }

  /** How much one read returns that takes at most MAX_BODY_BYTES + 1 of what has arrived. */
  function FirstRead(buf: Bytes, arrived: nat): (n: nat)
    ensures n <= |buf| && (n == 0 <==> buf == [])
  {
    var some := if arrived == 0 then 1 else arrived;
    var most := if some > MAX_BODY_BYTES + 1 then MAX_BODY_BYTES + 1 else some;
    if most > |buf| then |buf| else most
  }

  /** _read_body. */
  function ReadBody(head: Head, buf: Bytes, arrived: nat): Ending {
    if head.bodyless then Answered(head, [], buf)
    else if head.chunked then
      match ReadChunked(buf, 0)
      case Got(body, rest) => Answered(head, body, rest)
      case Failed(BadChunk) => Caught(BadChunkSize)
      case Failed(BodyTooLarge) => Caught(TooLarge)
      case Failed(_) => Escaped(ChunkedLeft(buf, 0, arrived))
    else
      match head.length
      case Some(None) => Caught(BadLength)
      case Some(Some(n)) =>
        if n < 0 || n > MAX_BODY_BYTES then Caught(TooLarge)
        else if |buf| < n then Escaped([])
        else Answered(head, buf[..n], buf[n..])
      case None =>
        var n := FirstRead(buf, arrived);
        if n > MAX_BODY_BYTES then Caught(TooLarge) else Answered(head, buf[..n], buf[n..])
  }

  /** What is read from a stream that ends, when nothing goes wrong below. */
  function Respond(parse: Parser, stream: Bytes, arrived: nat): Ending {
    match ReadHead(stream)
    case NoHead(kind) => Caught(kind)
    case Whole(raw, rest) =>
      match parse(raw)
      case None => Caught(BadStatusLine)
      case Some(head) => ReadBody(head, rest, arrived)
  }

  // ----- one exchange -----

  datatype Fault = Stalls | Breaks

  /** What the network and the server do for one attempt: whether a new connection opens and what
      it will ever carry; whether the exchange stalls into the timeout or the connection breaks
      (before the end of the answer); whether the server acts on the request; and how much has
      arrived where a read depends on it. */
  datatype Attempt = Attempt(opens: bool, stream: Bytes, fault: Option<Fault>, acted: bool, arrived: nat)

  datatype Exchange = Exchange(ending: Ending, acted: bool)

  /** One _exchange; a request whose headers are refused raises before anything is written. */
  function Meet(parse: Parser, sendable: bool, stream: Bytes, a: Attempt): Exchange {
    if !sendable then Exchange(Escaped(stream), false)
    else Exchange(match a.fault
                  case Some(Stalls) => Caught(RequestTimeout)
                  case Some(Breaks) => Caught(IoError)
                  case None => Respond(parse, stream, a.arrived), a.acted)
  }

  datatype Outcome = Response(head: Head, body: Bytes) | Failed(kind: Kind) | Raised

  function OutcomeOf(e: Ending): Outcome {
    match e
    case Answered(head, body, _) => Response(head, body)
    case Caught(kind) => Outcome.Failed(kind)
    case Escaped(_) => Raised
  }

  /** The failures after which a reused connection is tried again. */
  predicate Retryable(e: Ending) { e == Caught(ConnectionClosed) || e == Caught(IoError) }

  /** The endings that leave the connection open. */
  predicate Keeps(e: Ending) { e.Escaped? || (e.Answered? && !e.head.close) }

  // ----- one call -----

  /** What a call needs to know: the parser of its answer, whether its path is absolute and its
      headers can be sent. */
  datatype Request = Request(parse: Parser, absolute: bool, sendable: bool)

  /** The stream an attempt uses on a connection in some state. */
  function StreamOf(open: bool, unread: Bytes, a: Attempt): Bytes { if open then unread else a.stream }

  function First(q: Request, open: bool, unread: Bytes, first: Attempt): Exchange {
    Meet(q.parse, q.sendable, StreamOf(open, unread, first), first)
  }

  predicate Retries(q: Request, open: bool, unread: Bytes, first: Attempt) {
    open && Retryable(First(q, open, unread, first).ending)
  }

  /** The exchanges a call makes. */
  function Exchanges(q: Request, open: bool, unread: Bytes, first: Attempt, second: Attempt): (es: seq<Exchange>)
    ensures |es| <= if open then 2 else 1
  {
    if !q.absolute || (!open && !first.opens) then []
    else if Retries(q, open, unread, first) && second.opens then
      [First(q, open, unread, first), Meet(q.parse, q.sendable, second.stream, second)]
    else [First(q, open, unread, first)]
  }

  function ResultOf(q: Request, open: bool, unread: Bytes, first: Attempt, second: Attempt): Outcome {
    if !q.absolute then Raised
    else if !open && !first.opens then Outcome.Failed(ConnectFailed)
    else if Retries(q, open, unread, first) && !second.opens then Outcome.Failed(ConnectFailed)
    else
      var es := Exchanges(q, open, unread, first, second);
      OutcomeOf(es[|es| - 1].ending)
  }

  class Connection {
    var open: bool
    var connects: nat
    /** What the open connection's stream still holds: everything its peer sends until it closes. */
    var unread: Bytes
    ghost var sent: seq<Exchange>

    constructor ()
      ensures !open && connects == 0 && sent == []
    {
      open, connects, unread, sent := false, 0, [], [];
    }

    /** The loop over the two attempts, each opening a connection when there is none. */
    method Send(q: Request, first: Attempt, second: Attempt) returns (r: Outcome)
      modifies this
      ensures r == ResultOf(q, old(open), old(unread), first, second)
      ensures sent == old(sent) + Exchanges(q, old(open), old(unread), first, second)
      // The connection is open afterwards exactly when the last exchange ended in an answer that
      // keeps it or in an exception that escaped, and then holds what that exchange left.
      ensures q.absolute ==> var es := Exchanges(q, old(open), old(unread), first, second);
        && (open <==> es != [] && Keeps(es[|es| - 1].ending))
        && (open ==> unread == es[|es| - 1].ending.left)
      ensures !q.absolute ==> open == old(open) && unread == old(unread)
      ensures connects == old(connects) +
        if q.absolute && (if old(open) then Retries(q, old(open), old(unread), first) && second.opens else first.opens)
        then 1 else 0
    {
      hide Respond;
      if !q.absolute { return Raised; }
      var attempt := 0;
      while attempt < 2
        invariant 0 <= attempt < 2
        invariant attempt == 0 ==>
          open == old(open) && unread == old(unread) && sent == old(sent) && connects == old(connects)
        invariant attempt == 1 ==>
          && Retries(q, old(open), old(unread), first) && !open && connects == old(connects)
          && sent == old(sent) + [First(q, old(open), old(unread), first)]
      {
        var now := if attempt == 0 then first else second;
        var reopened := !open;
        if reopened {
          if !now.opens { return Outcome.Failed(ConnectFailed); }
          open, unread, connects := true, now.stream, connects + 1;
        }
        var ending := Converse(q, now);
        sent := sent + [Exchange(ending, q.sendable && now.acted)];
        if !ending.Caught? { return OutcomeOf(ending); }
        open := false;
        if !(Retryable(ending) && !reopened && attempt == 0) { return Outcome.Failed(ending.kind); }
        attempt := attempt + 1;
      }
    }

    /** _exchange on the open connection. */
    method Converse(q: Request, a: Attempt) returns (e: Ending)
      requires open
      modifies this`open, this`unread
      ensures e == Meet(q.parse, q.sendable, old(unread), a).ending
      ensures open <==> e.Caught? || Keeps(e)
      ensures Keeps(e) ==> unread == e.left
    {
      if !q.sendable { return Escaped(unread); }
      if a.fault == Some(Stalls) { return Caught(RequestTimeout); }
      if a.fault == Some(Breaks) { return Caught(IoError); }
      var raw := ReadHead(unread);
      if raw.NoHead? { return Caught(raw.kind); }
      var head := q.parse(raw.raw);
      if head.None? { return Caught(BadStatusLine); }
      var reader := new Reader(raw.rest);
      e := ReadBodyOf(reader, head.value, a.arrived);
      unread := reader.buf;
      open := !(e.Answered? && head.value.close);
    }
  }

  /** _read_body, taking bytes off the stream. */
  method ReadBodyOf(reader: Reader, head: Head, arrived: nat) returns (e: Ending)
    modifies reader
    ensures e == ReadBody(head, old(reader.buf), arrived)
    ensures !e.Caught? ==> reader.buf == e.left
    ensures e.Answered? ==> e.head == head
  {
    hide ReadChunked, ChunkedLeft;
    if head.bodyless { return Answered(head, [], reader.buf); }
    if head.chunked {
      var body := ReadChunkedBody(reader, arrived);
      match body
      case Got(data, _) => return Answered(head, data, reader.buf);
      case Failed(BadChunk) => return Caught(BadChunkSize);
      case Failed(BodyTooLarge) => return Caught(TooLarge);
      case Failed(_) => return Escaped(reader.buf);
    }
    if head.length.Some? {
      if head.length.value.None? { return Caught(BadLength); }
      var n := head.length.value.value;
      if n < 0 || n > MAX_BODY_BYTES { return Caught(TooLarge); }
      var body := reader.ReadExactly(n);
      return if body.Err? then Escaped(reader.buf) else Answered(head, body.value, reader.buf);
    }
    var n := FirstRead(reader.buf, arrived);
    var data := reader.buf[..n];
    reader.buf := reader.buf[n..];
    return if |data| > MAX_BODY_BYTES then Caught(TooLarge) else Answered(head, data, reader.buf);
  }

  // ----- how often the server acts -----

  function TimesActed(es: seq<Exchange>): nat {
    if es == [] then 0 else (if es[0].acted then 1 else 0) + TimesActed(es[1..])
  }

  /** A request goes out at most twice, and only once on a connection opened for it. The server
      acts on it twice exactly when it had acted before the reused connection broke and acts again
      on the new one: a broken connection does not show that nothing was processed. */
  lemma ActedTwiceMeans(q: Request, open: bool, unread: Bytes, first: Attempt, second: Attempt)
    ensures var es := Exchanges(q, open, unread, first, second);
      && |es| <= (if open then 2 else 1) && TimesActed(es) <= 2
      && (TimesActed(es) == 2 <==>
            q.absolute && q.sendable && Retries(q, open, unread, first) && first.acted && second.opens && second.acted)
  {
    hide Respond;
    var a, b := First(q, open, unread, first), Meet(q.parse, q.sendable, second.stream, second);
    assert [a][1..] == [] && [a, b][1..] == [b] && [b][1..] == [];
    assert TimesActed([b]) == (if b.acted then 1 else 0);
  }

  // ----- what the next call reads -----

  /** A head with its blank line at the end and nowhere before it. */
  predicate IsHead(h: Bytes) { HeadEnd(h) + 4 == |h| <= MAX_HEADER_BYTES }

  lemma {:induction false} HeadEndInFront(h: Bytes, rest: Bytes)
    requires HeadEnd(h) < |h|
    ensures HeadEnd(h + rest) == HeadEnd(h)
  {
    if BLANK_LINE <= h {
      assert (h + rest)[..4] == h[..4];
    } else {
      assert (h + rest)[1..] == h[1..] + rest;
      assert |h| >= 4 && (h + rest)[..4] == h[..4];
      HeadEndInFront(h[1..], rest);
    }
  }

  lemma HeadIsRead(h: Bytes, rest: Bytes)
    requires HeadEnd(h) + 4 == |h|
    ensures ReadHead(h + rest) == if |h| <= 65536 then Whole(h, rest) else NoHead(HeaderTooLarge)
  {
    HeadEndInFront(h, rest);
    assert (h + rest)[..|h|] == h && (h + rest)[|h|..] == rest;
  }

  /** CR LF CR LF stands at i. */
  predicate BlankAt(s: Bytes, i: int) {
    0 <= i <= |s| - 4 && s[i] == 13 && s[i + 1] == 10 && s[i + 2] == 13 && s[i + 3] == 10
  }

  lemma {:induction false} NoBlankLine(stream: Bytes)
    requires forall i :: !BlankAt(stream, i)
    ensures HeadEnd(stream) == |stream|
  {
    if stream != [] {
      if BLANK_LINE <= stream { assert BlankAt(stream, 0); }
      forall i ensures !BlankAt(stream[1..], i) { assert !BlankAt(stream, i + 1); }
      NoBlankLine(stream[1..]);
    }
  }

  /** A stream that ends before the blank line: closed, or too large from 65540 bytes on. */
  lemma ClosedInHead(parse: Parser, stream: Bytes, arrived: nat)
    requires forall i :: !BlankAt(stream, i)
    ensures Respond(parse, stream, arrived) == Caught(if |stream| < 65540 then ConnectionClosed else HeaderTooLarge)
  {
    NoBlankLine(stream);
    hide HeadEnd, ReadBody;
  }

  /** A head and a body framed by the chunked coding or by its length: the answer has that body, and
      exactly what follows it is left for the next request. */
  lemma FramedAnswerLeavesTheRest(parse: Parser, h: Bytes, head: Head, framed: Bytes, body: Bytes, rest: Bytes,
                                  arrived: nat)
    requires IsHead(h) && parse(h) == Some(head) && !head.bodyless && |body| <= MAX_BODY_BYTES
    requires if head.chunked
      then exists f :: ValidFraming(f) && framed == Body(f) && body == Data(f.chunks)
      else head.length == Some(Some(|body|)) && framed == body
    ensures Respond(parse, h + framed + rest, arrived) == Answered(head, body, rest)
  {
    hide Respond, IsHead, ValidFraming, Body, Data, ReadChunked, ChunkedLeft;
    assert h + framed + rest == h + (framed + rest);
    RespondBody(parse, h, head, framed + rest, arrived);
    if head.chunked {
      var f :| ValidFraming(f) && framed == Body(f) && body == Data(f.chunks);
      ChunkedRoundTrip(f, 0, rest);
    }
  }

  /** A body cut short by the end of its stream: the exception escapes, the connection stays open
      with nothing on it, and the next call finds the peer gone and goes out again on a new
      connection (the fault-free case; when the dead connection breaks, it does so as well). */
  lemma CutBodyIsNoticedLater(q: Request, h: Bytes, head: Head, part: Bytes, n: int, a: Attempt,
                              next: Request, first: Attempt, second: Attempt)
    requires q.absolute && q.sendable && IsHead(h) && q.parse(h) == Some(head) && !head.bodyless && !head.chunked
    requires head.length == Some(Some(n)) && |part| < n <= MAX_BODY_BYTES && a.fault == None
    requires next.absolute && next.sendable && first.fault != Some(Stalls)
    ensures First(q, true, h + part, a).ending == Escaped([])
    ensures Retries(next, true, [], first)
    ensures ResultOf(next, true, [], first, second) ==
      if second.opens
      then OutcomeOf(Meet(next.parse, true, second.stream, second).ending)
      else Outcome.Failed(ConnectFailed)
  {
    HeadIsRead(h, part);
    hide ReadHead;
    EmptyStream(next.parse, first.arrived);
  }

  lemma EmptyStream(parse: Parser, arrived: nat)
    ensures Respond(parse, [], arrived) == Caught(ConnectionClosed)
  {
    assert HeadEnd([]) == 0;
  }

  /** A chunk size below zero: the exception escapes with everything after its line still unread,
      and that is what the next call on this connection takes for its own answer, whether or not
      the server acted on that call. */
  lemma NegativeSizeLeavesAnAnswer(q: Request, h: Bytes, head: Head, size: Bytes, n: int, x: Bytes, a: Attempt,
                                   next: Request, first: Attempt)
    requires q.sendable && IsHead(h) && q.parse(h) == Some(head) && !head.bodyless && head.chunked && a.fault == None
    requires LF !in size && |size| < LINE_LIMIT && SizeOfLine(size + CRLF) == Some(n) && n < 0
    requires next.absolute && next.sendable && first.fault == None
    ensures First(q, true, h + (size + CRLF + x), a).ending == Escaped(x)
    ensures First(next, true, x, first) == Exchange(Respond(next.parse, x, first.arrived), first.acted)
  {
    HeadIsRead(h, size + CRLF + x);
    hide ReadHead, Respond;
    NegativeLine(size, n, x, a.arrived);
    hide SizeOfLine, ReadChunked, ChunkedLeft;
    RespondBody(q.parse, h, head, size + CRLF + x, a.arrived);
  }

  lemma RespondBody(parse: Parser, h: Bytes, head: Head, rest: Bytes, arrived: nat)
    requires IsHead(h) && parse(h) == Some(head)
    ensures Respond(parse, h + rest, arrived) == ReadBody(head, rest, arrived)
  {
    HeadIsRead(h, rest);
    hide ReadHead, ReadBody;
  }

  lemma NegativeLine(size: Bytes, n: int, x: Bytes, arrived: nat)
    requires LF !in size && |size| < LINE_LIMIT && SizeOfLine(size + CRLF) == Some(n) && n < 0
    ensures ReadChunked(size + CRLF + x, 0) == Read.Failed(NegativeSize)
    ensures ChunkedLeft(size + CRLF + x, 0, arrived) == x
  {
    ReadOneLine(size, x);
    hide SizeOfLine, ReadLine;
  }

  const MINUS_ONE: Bytes := [45, 49]

  lemma MinusOne()
    ensures LF !in MINUS_ONE && SizeOfLine(MINUS_ONE + CRLF) == Some(-1)
  {
    var line: Bytes := [45, 49, CR, LF];
    assert MINUS_ONE + CRLF == line;
    BeforeSemicolonOf(line, []);
    assert line + [] == line;
    assert StripLeft(line) == line;
    var digits: Bytes := [45, 49];
    StripRightOf(digits, CRLF);
    assert digits[1..] == [49];
    assert DigitRun([49]) == Some(1);
    assert Signed(-1, 1) == -1;
  }

  /** Such a size line is "-1". When a second answer is on the stream behind it, the next call
      returns that answer as its own, even one on which the server did nothing. */
  lemma MinusOneMisplacesAnAnswer(q: Request, h: Bytes, head: Head, g: Bytes, other: Head, body: Bytes, a: Attempt,
                                  next: Request, first: Attempt)
    requires q.sendable && IsHead(h) && q.parse(h) == Some(head) && !head.bodyless && head.chunked && a.fault == None
    requires IsHead(g) && next.parse(g) == Some(other) && !other.bodyless && !other.chunked
    requires other.length == Some(Some(|body|)) && |body| <= MAX_BODY_BYTES
    requires next.absolute && next.sendable && first.fault == None && !first.acted
    ensures First(q, true, h + (MINUS_ONE + CRLF + (g + body)), a).ending == Escaped(g + body)
    ensures First(next, true, g + body, first) == Exchange(Answered(other, body, []), false)
  {
    MinusOne();
    hide SizeOfLine, Respond, IsHead, First;
    NegativeSizeLeavesAnAnswer(q, h, head, MINUS_ONE, -1, g + body, a, next, first);
    FramedAnswerLeavesTheRest(next.parse, g, other, body, body, [], first.arrived);
    assert g + body + [] == g + body;
  }

  /** A body without any framing is whatever the first read returns: on a connection that is kept,
      the rest of it becomes the beginning of the next answer. */
  lemma UnframedBodyIsSplit(parse: Parser, h: Bytes, head: Head, body: Bytes, arrived: nat)
    requires IsHead(h) && parse(h) == Some(head) && !head.bodyless
    requires !head.chunked && head.length == None && !head.close
    requires 0 < arrived < |body| && arrived <= MAX_BODY_BYTES
    ensures Respond(parse, h + body, arrived) == Answered(head, body[..arrived], body[arrived..])
    ensures Keeps(Respond(parse, h + body, arrived))
  {
    RespondBody(parse, h, head, body, arrived);
    hide Respond;
  }
}
