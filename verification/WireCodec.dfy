/** The byte formats of scripts/capacity/p6_http.py: WebSocket frames (sections 5.2 and 5.3 of
    RFC 6455) and chunked bodies (section 7.1 of RFC 9112), read from a stream that ends. */
module WireCodec {
  import opened Prelude

  newtype byte = x: int | 0 <= x < 256

  type Bytes = seq<byte>

  const MAX_BODY_BYTES := 4 * 1024 * 1024
  const LINE_LIMIT := 64 * 1024

  datatype WireError = Incomplete | FrameTooLarge | BadChunk | BodyTooLarge | LineTooLong | NegativeSize

  datatype Read<+T> = Got(value: T, rest: Bytes) | Failed(error: WireError)

  // ----- numbers and masks -----

  function Power(base: nat, k: nat): nat { if k == 0 then 1 else base * Power(base, k - 1) }

  /** The k bytes of n, most significant first (struct.pack with "!"). */
  function BigEndian(n: nat, k: nat): (bs: Bytes)
    ensures |bs| == k
  {
    if k == 0 then [] else BigEndian(n / 256, k - 1) + [(n % 256) as byte]
  }

  function Unpack(bs: Bytes): nat {
    if bs == [] then 0 else Unpack(bs[..|bs| - 1]) * 256 + bs[|bs| - 1] as nat
  }

  lemma {:induction false} UnpackUndoesBigEndian(n: nat, k: nat)
    requires n < Power(256, k)
    ensures Unpack(BigEndian(n, k)) == n
  {
    if k > 0 {
      UnpackUndoesBigEndian(n / 256, k - 1);
      assert BigEndian(n, k)[..k - 1] == BigEndian(n / 256, k - 1);
    }
  }

  /** Exclusive or, bit by bit. */
  function XorBits(a: nat, b: nat): nat
    decreases a + b
  {
    if a == 0 && b == 0 then 0
    else 2 * XorBits(a / 2, b / 2) + (if a % 2 == b % 2 then 0 else 1)
  }

  lemma {:induction false} XorStaysBelow(a: nat, b: nat, k: nat)
    requires a < Power(2, k) && b < Power(2, k)
    ensures XorBits(a, b) < Power(2, k)
  {
    if k > 0 && (a != 0 || b != 0) {
      XorStaysBelow(a / 2, b / 2, k - 1);
    }
  }

  lemma {:induction false} XorBitsTwice(a: nat, b: nat)
    ensures XorBits(XorBits(a, b), b) == a
    decreases a + b
  {
    if a != 0 || b != 0 {
      XorBitsTwice(a / 2, b / 2);
      var x := XorBits(a, b);
      assert x / 2 == XorBits(a / 2, b / 2);
    }
  }

  predicate Bit(n: nat, k: nat) { if k == 0 then n % 2 == 1 else Bit(n / 2, k - 1) }

  /** Each bit of the result is set exactly when the two bits differ. */
  lemma {:induction false} XorIsBitwise(a: nat, b: nat, k: nat)
    ensures Bit(XorBits(a, b), k) <==> Bit(a, k) != Bit(b, k)
  {
    var x := XorBits(a, b);
    if a == 0 && b == 0 {
      if k > 0 { XorIsBitwise(0, 0, k - 1); }
    } else if k > 0 {
      assert x / 2 == XorBits(a / 2, b / 2);
      XorIsBitwise(a / 2, b / 2, k - 1);
    }
  }

  lemma TwoToTheEighth()
    ensures Power(2, 8) == 256
  {
    assert Power(2, 3) == 8;
    assert Power(2, 5) == 32;
  }

  function Xor(a: byte, b: byte): byte {
    TwoToTheEighth();
    XorStaysBelow(a as nat, b as nat, 8);
    XorBits(a as nat, b as nat) as byte
  }

  lemma XorTwice(a: byte, b: byte)
    ensures Xor(Xor(a, b), b) == a
  {
    XorBitsTwice(a as nat, b as nat);
  }

  /** Each byte combined with the mask byte of its index modulo 4. */
  function Masked(data: Bytes, mask: Bytes): (r: Bytes)
    requires |mask| == 4
    ensures |r| == |data|
    ensures forall i | 0 <= i < |data| :: r[i] == Xor(data[i], mask[i % 4])
  {
    seq(|data|, i requires 0 <= i < |data| => Xor(data[i], mask[i % 4]))
  }

  lemma MaskTwice(data: Bytes, mask: Bytes)
    requires |mask| == 4
    ensures Masked(Masked(data, mask), mask) == data
  {
    forall i | 0 <= i < |data| ensures Masked(Masked(data, mask), mask)[i] == data[i] {
      XorTwice(data[i], mask[i % 4]);
    }
  }

  // ----- WebSocket frames -----

  /** The three ways to write a payload length. */
  datatype LengthForm = Short | Medium | Long

  predicate Expresses(form: LengthForm, size: nat) {
    match form
    case Short => size < 126
    case Medium => size < 65536
    case Long => size < 0x1_0000_0000_0000_0000
  }

  function LengthBytes(form: LengthForm, size: nat, masked: bool): Bytes
    requires Expresses(form, size)
  {
    var flag: nat := if masked then 128 else 0;
    match form
    case Short => [(flag + size) as byte]
    case Medium => [(flag + 126) as byte] + BigEndian(size, 2)
    case Long => [(flag + 127) as byte] + BigEndian(size, 8)
  }

  /** Any final frame of section 5.2: masked or not, the length in any form that can express it. */
  function Frame(opcode: nat, form: LengthForm, mask: Option<Bytes>, payload: Bytes): Bytes
    requires opcode < 16 && Expresses(form, |payload|) && (mask.Some? ==> |mask.value| == 4)
  {
    [(128 + opcode) as byte] + LengthBytes(form, |payload|, mask.Some?) +
    match mask
    case None => payload
    case Some(key) => key + Masked(payload, key)
  }

  function MinimalForm(size: nat): LengthForm {
    if size < 126 then Short else if size < 65536 then Medium else Long
  }

  /** encode_ws_frame: the bytes of one client frame, or why there are none. */
  function Encoded(opcode: int, payload: Bytes, mask: Bytes): Result<Bytes> {
    if |mask| != 4 then Err("mask key must be 4 bytes")
    else if !Expresses(MinimalForm(|payload|), |payload|) then Err("length out of range")
    else Ok(Frame(opcode % 16, MinimalForm(|payload|), Some(mask), payload))
  }

  /** The head is built in place and the masked payload appended. */
  method EncodeWsFrame(opcode: int, payload: Bytes, mask: Bytes) returns (r: Result<Bytes>)
    ensures r == Encoded(opcode, payload, mask)
  {
    if |mask| != 4 {
      return Err("mask key must be 4 bytes");
    }
    var head: Bytes, size := [(128 + opcode % 16) as byte], |payload|;
    if size < 126 {
      head := head + [(128 + size) as byte];
    } else if size < 65536 {
      head := head + [(128 + 126) as byte];
      head := head + BigEndian(size, 2);
    } else {
      if size >= 0x1_0000_0000_0000_0000 {
        return Err("length out of range");
      }
      head := head + [(128 + 127) as byte];
      head := head + BigEndian(size, 8);
    }
    assert head == [(128 + opcode % 16) as byte] + LengthBytes(MinimalForm(size), size, true);
    return Ok(head + (mask + Masked(payload, mask)));
  }

  function Exactly(buf: Bytes, n: nat): (r: Read<Bytes>)
    ensures r.Got? ==> |r.value| == n && buf == r.value + r.rest
  {
    if |buf| < n then Failed(Incomplete) else Got(buf[..n], buf[n..])
  }

  /** The payload length, from the seven bits of the second byte and what follows it. */
  function ReadSize(second: byte, buf: Bytes): Read<nat> {
    var size := second as nat % 128;
    if size < 126 then Got(size, buf)
    else match Exactly(buf, if size == 126 then 2 else 8)
      case Failed(e) => Failed(e)
      case Got(bs, rest) => Got(Unpack(bs), rest)
  }

  /** The mask key when the mask bit is set, and then that many payload bytes. */
  function ReadPayload(masked: bool, size: nat, buf: Bytes): Read<Bytes> {
    if !masked then Exactly(buf, size)
    else match Exactly(buf, 4)
      case Failed(e) => Failed(e)
      case Got(key, afterKey) =>
        match Exactly(afterKey, size)
        case Failed(e) => Failed(e)
        case Got(data, rest) => Got(Masked(data, key), rest)
  }

  /** read_ws_frame: opcode and payload. */
  function ReadFrame(buf: Bytes): Read<(nat, Bytes)> {
    if |buf| < 2 then Failed(Incomplete)
    else match ReadSize(buf[1], buf[2..])
      case Failed(e) => Failed(e)
      case Got(size, rest) =>
        if size > MAX_BODY_BYTES then Failed(FrameTooLarge)
        else match ReadPayload(buf[1] >= 128, size, rest)
          case Failed(e) => Failed(e)
          case Got(data, tail) => Got((buf[0] as nat % 16, data), tail)
  }

  /** asyncio.StreamReader over a stream that ends: what has not been consumed yet. */
  class Reader {
    var buf: Bytes

    constructor (stream: Bytes)
      ensures buf == stream
    {
      buf := stream;
    }

    method ReadExactly(n: nat) returns (r: Result<Bytes>)
      modifies this
      ensures match Exactly(old(buf), n)
        case Got(v, rest) => r == Ok(v) && buf == rest
        case Failed(_) => r.Err? && buf == []
    {
      if |buf| < n {
        buf := [];
        return Err("incomplete");
      }
      r := Ok(buf[..n]);
      buf := buf[n..];
    }

    /** Two bytes, then the size, the mask key and the payload, each taken off the stream. */
    method ReadWsFrame() returns (r: Read<(nat, Bytes)>)
      modifies this
      ensures r == ReadFrame(old(buf))
      ensures r.Got? ==> buf == r.rest
    {
      var head := ReadExactly(2);
      if head.Err? {
        return Failed(Incomplete);
      }
      var first, second := head.value[0], head.value[1];
      var opcode, size: nat := first as nat % 16, second as nat % 128;
      if size == 126 {
        var wide := ReadExactly(2);
        if wide.Err? { return Failed(Incomplete); }
        size := Unpack(wide.value);
      } else if size == 127 {
        var wide := ReadExactly(8);
        if wide.Err? { return Failed(Incomplete); }
        size := Unpack(wide.value);
      }
      if size > MAX_BODY_BYTES {
        return Failed(FrameTooLarge);
      }
      r := ReadMasked(opcode, second >= 128, size);
    }

    method ReadMasked(opcode: nat, masked: bool, size: nat) returns (r: Read<(nat, Bytes)>)
      modifies this
      ensures match ReadPayload(masked, size, old(buf))
        case Got(data, rest) => r == Got((opcode, data), rest) && buf == rest
        case Failed(e) => r == Failed(e)
    {
      var mask: Option<Bytes> := None;
      if masked {
        var key := ReadExactly(4);
        if key.Err? { return Failed(Incomplete); }
        mask := Some(key.value);
      }
      var data := ReadExactly(size);
      if data.Err? {
        return Failed(Incomplete);
      }
      var plain := data.value;
      if mask.Some? {
        plain := Masked(plain, mask.value);
      }
      return Got((opcode, plain), buf);
    }
  }

  lemma WideSize(flag: nat, k: nat, size: nat, rest: Bytes)
    requires flag == 0 || flag == 128
    requires size < Power(256, k) && (k == 2 || k == 8)
    ensures ReadSize((flag + (if k == 2 then 126 else 127)) as byte, BigEndian(size, k) + rest) == Got(size, rest)
  {
    UnpackUndoesBigEndian(size, k);
    var bs := BigEndian(size, k);
    assert (bs + rest)[..k] == bs && (bs + rest)[k..] == rest;
    hide BigEndian, Unpack, Power;
  }

  lemma SizeOfLength(form: LengthForm, size: nat, masked: bool, rest: Bytes)
    requires Expresses(form, size)
    ensures var bs := LengthBytes(form, size, masked);
      (bs[0] >= 128 <==> masked) && ReadSize(bs[0], bs[1..] + rest) == Got(size, rest)
  {
    var bs, flag: nat := LengthBytes(form, size, masked), if masked then 128 else 0;
    match form
    case Short => assert bs[1..] + rest == rest;
    case Medium =>
      assert Power(256, 2) == 65536;
      WideSize(flag, 2, size, rest);
      hide ReadSize, BigEndian, Power;
      assert bs[1..] == BigEndian(size, 2);
    case Long =>
      PowerOfEight();
      WideSize(flag, 8, size, rest);
      hide ReadSize, BigEndian, Power;
      assert bs[1..] == BigEndian(size, 8);
  }

  lemma PowerOfEight()
    ensures Power(256, 8) == 0x1_0000_0000_0000_0000
  {
    assert Power(256, 2) == 65536;
    assert Power(256, 4) == 65536 * 65536;
    assert Power(256, 6) == 65536 * 65536 * 65536;
  }

  lemma PayloadRead(mask: Option<Bytes>, payload: Bytes, rest: Bytes)
    requires mask.Some? ==> |mask.value| == 4
    ensures ReadPayload(mask.Some?, |payload|, (match mask case None => payload case Some(key) => key + Masked(payload,
        key)) + rest)
      == Got(payload, rest)
  {
    match mask
    case None =>
      assert (payload + rest)[..|payload|] == payload && (payload + rest)[|payload|..] == rest;
    case Some(key) =>
      var data := Masked(payload, key);
      var buf := key + data + rest;
      assert buf[..4] == key && buf[4..] == data + rest;
      assert (data + rest)[..|data|] == data && (data + rest)[|data|..] == rest;
      MaskTwice(payload, key);
  }

  /** Reading undoes every framing of a payload up to the bound, and refuses every longer one. */
  lemma FrameRoundTrip(opcode: nat, form: LengthForm, mask: Option<Bytes>, payload: Bytes, rest: Bytes)
    requires opcode < 16 && Expresses(form, |payload|) && (mask.Some? ==> |mask.value| == 4)
    ensures ReadFrame(Frame(opcode, form, mask, payload) + rest) ==
      if |payload| <= 4194304 then Got((opcode, payload), rest) else Failed(FrameTooLarge)
  {
    hide ReadSize, ReadPayload, LengthBytes, Masked;
    var bs := LengthBytes(form, |payload|, mask.Some?);
    var body := match mask case None => payload case Some(key) => key + Masked(payload, key);
    SizeOfLength(form, |payload|, mask.Some?, body + rest);
    PayloadRead(mask, payload, rest);
    var buf := Frame(opcode, form, mask, payload) + rest;
    LengthNotEmpty(form, |payload|, mask.Some?);
    assert buf == [(128 + opcode) as byte] + bs + body + rest;
    assert buf[1] == bs[0] && buf[2..] == bs[1..] + (body + rest);
  }

  lemma LengthNotEmpty(form: LengthForm, size: nat, masked: bool)
    requires Expresses(form, size)
    ensures |LengthBytes(form, size, masked)| >= 1
  {
  }

  /** read_ws_frame undoes encode_ws_frame for every opcode, mask key and payload within the
      bound, across the three length forms. */
  lemma DecodeUndoesEncode(opcode: int, payload: Bytes, mask: Bytes, rest: Bytes)
    requires |mask| == 4 && |payload| <= MAX_BODY_BYTES
    ensures Encoded(opcode, payload, mask).Ok?
    ensures ReadFrame(Encoded(opcode, payload, mask).value + rest) == Got((opcode % 16, payload), rest)
  {
    hide ReadFrame, Frame;
    FrameRoundTrip(opcode % 16, MinimalForm(|payload|), Some(mask), payload, rest);
  }

  datatype Sent = Sent(opcode: int, payload: Bytes, mask: Bytes)

  predicate Sendable(f: Sent) { |f.mask| == 4 && |f.payload| <= MAX_BODY_BYTES }

  function Wire(frames: seq<Sent>): Bytes
    requires forall i | 0 <= i < |frames| :: Sendable(frames[i])
  {
    if frames == [] then []
    else
      var f := frames[0];
      assert Sendable(f);
      DecodeUndoesEncode(f.opcode, f.payload, f.mask, []);
      Encoded(f.opcode, f.payload, f.mask).value + Wire(frames[1..])
  }

  /** Frames read one after another until the stream is used up. */
  function ReadAll(buf: Bytes): Option<seq<(nat, Bytes)>>
    decreases |buf|
  {
    if buf == [] then Some([])
    else match ReadFrame(buf)
      case Failed(_) => None
      case Got(frame, rest) =>
        if |rest| >= |buf| then None
        else match ReadAll(rest)
          case None => None
          case Some(more) => Some([frame] + more)
  }

  function Contents(frames: seq<Sent>): (r: seq<(nat, Bytes)>)
    ensures |r| == |frames|
  {
    if frames == [] then [] else [(frames[0].opcode % 16, frames[0].payload)] + Contents(frames[1..])
  }

  /** A concatenation of frames decodes to the same list with nothing left over. */
  lemma {:induction false} StreamRoundTrip(frames: seq<Sent>)
    requires forall i | 0 <= i < |frames| :: Sendable(frames[i])
    ensures ReadAll(Wire(frames)) == Some(Contents(frames))
  {
    if frames != [] {
      hide ReadFrame, Encoded;
      var f := frames[0];
      StreamRoundTrip(frames[1..]);
      DecodeUndoesEncode(f.opcode, f.payload, f.mask, Wire(frames[1..]));
      EncodedNotEmpty(f);
    }
  }

  lemma EncodedNotEmpty(f: Sent)
    requires Sendable(f)
    ensures Encoded(f.opcode, f.payload, f.mask).Ok? && |Encoded(f.opcode, f.payload, f.mask).value| > 0
  {
  }

  /** A frame cut short anywhere is never taken for a shorter one. */
  lemma CutFrameIsIncomplete(opcode: nat, form: LengthForm, mask: Option<Bytes>, payload: Bytes, n: nat)
    requires opcode < 16 && Expresses(form, |payload|) && (mask.Some? ==> |mask.value| == 4)
    requires |payload| <= MAX_BODY_BYTES && n < |Frame(opcode, form, mask, payload)|
    ensures ReadFrame(Frame(opcode, form, mask, payload)[..n]) == Failed(Incomplete)
  {
    hide Unpack, Masked, BigEndian, Expresses, LengthBytes, ReadSize, ReadPayload;
    var bs := LengthBytes(form, |payload|, mask.Some?);
    var body := match mask case None => payload case Some(key) => key + Masked(payload, key);
    LengthNotEmpty(form, |payload|, mask.Some?);
    var whole := [(128 + opcode) as byte] + bs + body;
    assert Frame(opcode, form, mask, payload) == whole;
    var cut := whole[..n];
    if n >= 2 {
      assert cut[1] == bs[0];
      if n >= 1 + |bs| {
        var tail := body[..n - 1 - |bs|];
        assert cut[2..] == bs[1..] + tail;
        SizeOfLength(form, |payload|, mask.Some?, tail);
        CutPayload(mask.Some?, |payload|, tail);
      } else {
        CutSize(form, |payload|, mask.Some?, cut[2..]);
      }
    }
  }

  lemma CutPayload(masked: bool, size: nat, tail: Bytes)
    requires |tail| < size + if masked then 4 else 0
    ensures ReadPayload(masked, size, tail) == Failed(Incomplete)
  {
  }

  lemma CutSize(form: LengthForm, size: nat, masked: bool, rest: Bytes)
    requires Expresses(form, size) && |rest| + 1 < |LengthBytes(form, size, masked)|
    ensures ReadSize(LengthBytes(form, size, masked)[0], rest) == Failed(Incomplete)
  {
    hide Unpack;
  }

  /** The two longer length forms as in the examples of section 5.7 of RFC 6455. */
  lemma RfcLengths()
    ensures LengthBytes(Medium, 256, false) == [0x7e, 1, 0]
    ensures LengthBytes(Long, 65536, false) == [0x7f, 0, 0, 0, 0, 0, 1, 0, 0]
  {
    assert BigEndian(256, 2) == [1, 0];
    assert BigEndian(65536, 8) == [0, 0, 0, 0, 0, 1, 0, 0];
  }
}
