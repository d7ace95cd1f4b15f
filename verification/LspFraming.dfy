/**
 The stdio client's message framing: how `onData` reads messages off a byte
 stream that arrives in arbitrary chunks, and how requests are framed.
 */
module LspFraming {

  import opened Options
  import opened Strings

  // What the client sees in a body. Reading the `id` of a body that is no JSON
  // text, or is JSON `null`, throws.
  datatype Reading = Throws | Answer | Other

  type Reader = Bytes -> Reading

  // ----- Reading one message -----

  const TERMINATOR: Bytes := [13, 10, 13, 10]

  // The first place where the empty line after the headers starts, or -1.
  function HeaderEnd(buffer: Bytes): (k: int)
    ensures -1 <= k <= |buffer| - 4 || k == -1
    ensures k >= 0 ==> buffer[k..k + 4] == TERMINATOR
  {
    if |buffer| < 4 then -1
    else if buffer[..4] == TERMINATOR then
      0
    else
      var k := HeaderEnd(buffer[1..]);
      if k < 0 then -1 else
        assert buffer[k + 1..k + 5] == buffer[1..][k..k + 4];
        k + 1
  }

  // Case is ignored for the letters of the field name.
  const FIELD := "content-length:"

  predicate HasField(s: string) {
    |s| >= |FIELD| && forall i :: 0 <= i < |FIELD| ==> LowerChar(s[i]) == FIELD[i]
  }

  // The digits of the first `Content-Length:` that is followed by a numeral.
  function ContentLength(headers: string): Option<nat> {
    if headers == [] then None
    else
      var digits := if HasField(headers) then LeadingDigits(TrimStart(headers[|FIELD|..]), 10) else "";
      if digits != [] then Some(NumeralValue(digits, 10)) else ContentLength(headers[1..])
  }

  datatype Read = Incomplete | NoLength | Message(body: Bytes, rest: Bytes)

  function TryRead(buffer: Bytes, decode: Decoder): Read {
    var headerEnd := HeaderEnd(buffer);
    if headerEnd < 0 then Incomplete
    else
      match ContentLength(decode(buffer[..headerEnd]))
      case None => NoLength
      case Some(bodyLength) =>
        var bodyStart := headerEnd + 4;
        var bodyEnd := bodyStart + bodyLength;
        if |buffer| < bodyEnd then Incomplete
        else Message(buffer[bodyStart..bodyEnd], buffer[bodyEnd..])
  }

  // ----- The wait -----

  // A settled wait has dropped its buffer and its listeners.
  datatype Wait = Waiting(buffer: Bytes) | Resolved(message: Bytes) | Rejected

  // The loop of `onData` on a buffer.
  function Drain(buffer: Bytes, decode: Decoder, read: Reader): Wait
    decreases |buffer|
  {
    match TryRead(buffer, decode)
    case Incomplete => Waiting(buffer)
    case NoLength => Rejected
    case Message(body, rest) =>
      match read(body)
      case Throws => Rejected
      case Answer => Resolved(body)
      case Other => Drain(rest, decode, read)
  }

  function Feed(w: Wait, chunk: Bytes, decode: Decoder, read: Reader): Wait {
    if w.Waiting? then Drain(w.buffer + chunk, decode, read) else w
  }

  // Everything that can reach a wait; timeout, process error and exit all reject.
  datatype Event = Data(chunk: Bytes) | Timeout | ProcessError | ProcessExit

  function Step(w: Wait, e: Event, decode: Decoder, read: Reader): Wait {
    if !w.Waiting? then w
    else if e.Data? then Feed(w, e.chunk, decode, read)
    else Rejected
  }

  function Run(w: Wait, events: seq<Event>, decode: Decoder, read: Reader): Wait
    decreases events
  {
    if events == [] then w else Run(Step(w, events[0], decode, read), events[1..], decode, read)
  }

  class ResponseWait {
    var buffer: Bytes
    // None while the promise is pending and the listeners are installed.
    var outcome: Option<Wait>
    const decode: Decoder
    const read: Reader

    ghost predicate Valid()
      reads this
    {
      outcome.Some? ==> !outcome.value.Waiting?
    }

    ghost function State(): Wait
      reads this
    {
      if outcome.None? then Waiting(buffer) else outcome.value
    }

    constructor (decode: Decoder, read: Reader)
      ensures Valid() && State() == Waiting([]) && this.decode == decode && this.read == read
    {
      buffer, outcome := [], None;
      this.decode, this.read := decode, read;
    }

    // The first settlement stands; it also removes every listener.
    method Settle(w: Wait)
      requires Valid() && outcome.None? && !w.Waiting?
      modifies this`outcome
      ensures Valid() && State() == w
    {
      outcome := Some(w);
    }

    method OnData(chunk: Bytes)
      requires Valid()
      modifies this
      ensures Valid() && State() == Feed(old(State()), chunk, decode, read)
    {
      hide TryRead;
      if outcome.Some? {
        return;
      }
      buffer := buffer + chunk;
      ghost var whole := buffer;
      while true
        invariant outcome.None? && Drain(whole, decode, read) == Drain(buffer, decode, read)
        decreases |buffer|
      {
        var parsed := TryRead(buffer, decode);
        RestShrinks(buffer, decode);
        match parsed {
          case Incomplete => return;
          case NoLength =>
            Settle(Rejected);
            return;
          case Message(body, rest) =>
            buffer := rest;
            match read(body) {
              case Throws =>
                Settle(Rejected);
                return;
              case Answer =>
                Settle(Resolved(body));
                return;
              case Other =>
            }
        }
      }
    }

    method OnEvent(e: Event)
      requires Valid()
      modifies this
      ensures Valid() && State() == Step(old(State()), e, decode, read)
    {
      if e.Data? {
        OnData(e.chunk);
      } else if outcome.None? {
        Settle(Rejected);
      }
    }
  }

  // ----- More bytes do not change what was read -----

  lemma {:induction false} HeaderEndAppend(a: Bytes, b: Bytes)
    requires HeaderEnd(a) >= 0
    ensures HeaderEnd(a + b) == HeaderEnd(a)
  {
    assert (a + b)[..4] == a[..4];
    if a[..4] != TERMINATOR {
      assert (a + b)[1..] == a[1..] + b;
      HeaderEndAppend(a[1..], b);
    }
  }

  lemma {:induction false} TryReadAppend(a: Bytes, b: Bytes, decode: Decoder)
    ensures match TryRead(a, decode)
            case Incomplete => true
            case NoLength => TryRead(a + b, decode) == NoLength
            case Message(body, rest) => TryRead(a + b, decode) == Message(body, rest + b)
  {
    hide HeaderEnd, ContentLength;
    var k := HeaderEnd(a);
    if k >= 0 {
      HeaderEndAppend(a, b);
      assert (a + b)[..k] == a[..k];
      match TryRead(a, decode)
      case Message(body, rest) =>
        var bodyEnd := |a| - |rest|;
        assert (a + b)[k + 4..bodyEnd] == a[k + 4..bodyEnd];
        assert (a + b)[bodyEnd..] == a[bodyEnd..] + b;
      case _ =>
    }
  }

  /** Two chunks are as good as one. */
  lemma {:induction false} DrainAppend(a: Bytes, b: Bytes, decode: Decoder, read: Reader)
    ensures Feed(Drain(a, decode, read), b, decode, read) == Drain(a + b, decode, read)
    decreases |a|
  {
    hide TryRead;
    TryReadAppend(a, b, decode);
    match TryRead(a, decode)
    case Message(body, rest) =>
      RestShrinks(a, decode);
      RestShrinks(a + b, decode);
      if read(body) == Other {
        DrainAppend(rest, b, decode, read);
      }
    case _ =>
  }

  lemma RestShrinks(buffer: Bytes, decode: Decoder)
    ensures TryRead(buffer, decode).Message? ==> |TryRead(buffer, decode).rest| < |buffer|
  {
  }

  function Concat(chunks: seq<Bytes>): Bytes {
    if chunks == [] then [] else chunks[0] + Concat(chunks[1..])
  }

  function DataEvents(chunks: seq<Bytes>): (events: seq<Event>)
    ensures |events| == |chunks|
  {
    if chunks == [] then [] else [Data(chunks[0])] + DataEvents(chunks[1..])
  }

  /** However the bytes are split into chunks, the wait ends up in the same state. */
  lemma {:induction false} ChunksDoNotMatter(buffer: Bytes, chunks: seq<Bytes>, decode: Decoder, read: Reader)
    ensures Run(Drain(buffer, decode, read), DataEvents(chunks), decode, read)
         == Drain(buffer + Concat(chunks), decode, read)
    decreases |chunks|
  {
    hide Drain;
    if chunks == [] {
      assert buffer + Concat(chunks) == buffer;
    } else {
      var w := Drain(buffer, decode, read);
      DrainAppend(buffer, chunks[0], decode, read);
      ChunksDoNotMatter(buffer + chunks[0], chunks[1..], decode, read);
      assert buffer + Concat(chunks) == buffer + chunks[0] + Concat(chunks[1..]);
      assert Step(w, Data(chunks[0]), decode, read) == Feed(w, chunks[0], decode, read);
      assert DataEvents(chunks)[1..] == DataEvents(chunks[1..]);
    }
  }

  lemma EmptyDrain(decode: Decoder, read: Reader)
    ensures Drain([], decode, read) == Waiting([])
  {
  }

  /** A promise settles once: nothing that comes later changes the outcome. */
  lemma {:induction false} SettledStays(w: Wait, events: seq<Event>, decode: Decoder, read: Reader)
    requires !w.Waiting?
    ensures Run(w, events, decode, read) == w
    decreases events
  {
    if events != [] {
      SettledStays(w, events[1..], decode, read);
    }
  }

  lemma {:induction false} RunAppend(w: Wait, a: seq<Event>, b: seq<Event>, decode: Decoder, read: Reader)
    ensures Run(w, a + b, decode, read) == Run(Run(w, a, decode, read), b, decode, read)
    decreases a
  {
    if a == [] {
      assert a + b == b;
    } else {
      assert (a + b)[1..] == a[1..] + b;
      RunAppend(Step(w, a[0], decode, read), a[1..], b, decode, read);
    }
  }

  /** The outcome of a whole wait: what the data alone gave, or a rejection by the
      first other event while it was still pending. */
  lemma {:induction false} WaitOutcome(
    chunks: seq<Bytes>, last: Event, later: seq<Event>, decode: Decoder, read: Reader
  )
    requires !last.Data?
    ensures var byData := Drain(Concat(chunks), decode, read);
            Run(Waiting([]), DataEvents(chunks) + [last] + later, decode, read)
            == if byData.Waiting? then Rejected else byData
  {
    hide Drain;
    var byData := Drain(Concat(chunks), decode, read);
    EmptyDrain(decode, read);
    ChunksDoNotMatter([], chunks, decode, read);
    assert [] + Concat(chunks) == Concat(chunks);
    assert DataEvents(chunks) + [last] + later == DataEvents(chunks) + ([last] + later);
    RunAppend(Waiting([]), DataEvents(chunks), [last] + later, decode, read);
    assert ([last] + later)[1..] == later;
    SettledStays(if byData.Waiting? then Rejected else byData, later, decode, read);
  }

  // ----- Framed messages -----

  // A header block that ends at its own empty line and names the body's length.
  predicate Describes(headers: Bytes, body: Bytes, decode: Decoder) {
    && HeaderEnd(headers + TERMINATOR) == |headers|
    && ContentLength(decode(headers)) == Some(|body|)
  }

  function Framed(headers: Bytes, body: Bytes): Bytes {
    headers + TERMINATOR + body
  }

  lemma {:induction false} FramedIsRead(headers: Bytes, body: Bytes, rest: Bytes, decode: Decoder)
    requires Describes(headers, body, decode)
    ensures TryRead(Framed(headers, body) + rest, decode) == Message(body, rest)
  {
    hide HeaderEnd, ContentLength;
    var buffer := Framed(headers, body) + rest;
    assert buffer == headers + TERMINATOR + (body + rest);
    HeaderEndAppend(headers + TERMINATOR, body + rest);
    var k := |headers|;
    assert buffer[..k] == headers;
    assert buffer[k + 4..k + 4 + |body|] == body;
    assert buffer[k + 4 + |body|..] == rest;
  }

  // Any proper beginning of a framed message is waited on.
  lemma {:induction false} PartIsIncomplete(headers: Bytes, body: Bytes, n: nat, decode: Decoder)
    requires Describes(headers, body, decode) && n < |Framed(headers, body)|
    ensures TryRead(Framed(headers, body)[..n], decode) == Incomplete
  {
    hide ContentLength;
    var whole := Framed(headers, body);
    var part := whole[..n];
    assert part + whole[n..] == whole;
    FramedIsRead(headers, body, [], decode);
    assert whole + [] == whole;
    TryReadAppend(part, whole[n..], decode);
  }

  datatype Frame = Frame(headers: Bytes, body: Bytes)

  function Stream(frames: seq<Frame>): Bytes {
    if frames == [] then [] else Framed(frames[0].headers, frames[0].body) + Stream(frames[1..])
  }

  // The first frame that is not just another message, or the number of frames.
  function FirstDecisive(frames: seq<Frame>, read: Reader): (i: nat)
    ensures i <= |frames|
    ensures forall j :: 0 <= j < i ==> read(frames[j].body) == Other
    ensures i < |frames| ==> read(frames[i].body) != Other
  {
    if frames == [] then 0
    else if read(frames[0].body) != Other then 0
    else 1 + FirstDecisive(frames[1..], read)
  }

  function Decided(frames: seq<Frame>, tail: Bytes, read: Reader): Wait {
    var i := FirstDecisive(frames, read);
    if i == |frames| then Waiting(tail)
    else if read(frames[i].body) == Answer then Resolved(frames[i].body)
    else Rejected
  }

  lemma {:induction false} StreamIsDrained(frames: seq<Frame>, tail: Bytes, decode: Decoder, read: Reader)
    requires forall f <- frames :: Describes(f.headers, f.body, decode)
    requires TryRead(tail, decode) == Incomplete
    ensures Drain(Stream(frames) + tail, decode, read) == Decided(frames, tail, read)
    decreases frames
  {
    hide TryRead, Describes;
    if frames == [] {
      assert Stream(frames) + tail == tail;
    } else {
      var f, rest := frames[0], Stream(frames[1..]) + tail;
      assert Stream(frames) + tail == Framed(f.headers, f.body) + rest;
      FramedIsRead(f.headers, f.body, rest, decode);
      RestShrinks(Stream(frames) + tail, decode);
      StreamIsDrained(frames[1..], tail, decode, read);
    }
  }

  /** For every list of framed messages, every undecoded tail and every split into
      chunks: the messages are decoded in order, the first one that answers
      resolves the wait, and with no answer exactly the tail is kept. */
  lemma {:induction false} FramesAreDecoded(
    frames: seq<Frame>, tail: Bytes, chunks: seq<Bytes>, decode: Decoder, read: Reader
  )
    requires forall f <- frames :: Describes(f.headers, f.body, decode)
    requires TryRead(tail, decode) == Incomplete && Concat(chunks) == Stream(frames) + tail
    ensures Run(Waiting([]), DataEvents(chunks), decode, read) == Decided(frames, tail, read)
  {
    hide Drain, TryRead, Describes, Decided;
    EmptyDrain(decode, read);
    ChunksDoNotMatter([], chunks, decode, read);
    assert [] + Concat(chunks) == Concat(chunks);
    StreamIsDrained(frames, tail, decode, read);
  }

  // ----- What the client writes -----

  const NAME := "Content-Length: "

  function FrameHeaders(length: nat): Bytes {
    HeaderIsAscii(length);
    AsciiBytes(NAME + Numeral(length, 10))
  }

  lemma {:induction false} HeaderIsAscii(length: nat)
    ensures IsAscii(NAME + Numeral(length, 10))
  {
    forall i | 0 <= i < |NAME + Numeral(length, 10)|
      ensures (NAME + Numeral(length, 10))[i] as int < 128
    {
      if i < |NAME| {
      } else {
        assert IsDigitOf(Numeral(length, 10)[i - |NAME|], 10);
      }
    }
  }

  // The body is the UTF-8 encoding of the JSON text, and the length is in bytes.
  function FrameMessage(body: Bytes): Bytes {
    Framed(FrameHeaders(|body|), body)
  }

  lemma {:induction false} NoReturnNoEnd(headers: Bytes)
    requires forall i | 0 <= i < |headers| :: headers[i] != 13
    ensures HeaderEnd(headers + TERMINATOR) == |headers|
  {
    var buffer := headers + TERMINATOR;
    if headers == [] {
      assert buffer == TERMINATOR && buffer[..4] == TERMINATOR;
    } else {
      assert buffer[..4][0] == headers[0];
      assert buffer[1..] == headers[1..] + TERMINATOR;
      NoReturnNoEnd(headers[1..]);
    }
  }

  lemma {:induction false} NameThenDigits(length: nat)
    ensures ContentLength(NAME + Numeral(length, 10)) == Some(length)
  {
    hide NumeralValue, Numeral;
    var digits := Numeral(length, 10);
    var headers := NAME + digits;
    assert |NAME| == 16 && |FIELD| == 15 && NAME[15] == ' ';
    assert headers[15..] == " " + digits;
    assert HasField(headers) by {
      forall i | 0 <= i < |FIELD| ensures LowerChar(headers[i]) == FIELD[i] {
        assert headers[i] == NAME[i];
      }
    }
    assert IsDigitOf(digits[0], 10);
    TrimStartSkips(" ", digits);
    assert TrimStart(digits) == digits;
    LeadingDigitsOf(digits, "", 10);
    assert digits + "" == digits;
    NumeralRoundTrip(length, 10);
  }

  /** What `frameMessage` writes is a message whose header describes its body. */
  lemma {:induction false} FrameDescribesBody(body: Bytes, decode: Decoder)
    requires DecodesAscii(decode)
    ensures Describes(FrameHeaders(|body|), body, decode)
  {
    hide ContentLength, HeaderEnd, NumeralValue, Numeral;
    var text := NAME + Numeral(|body|, 10);
    HeaderIsAscii(|body|);
    var headers := AsciiBytes(text);
    AsciiRoundTrip(text);
    AsciiIsDecoded(headers, decode);
    assert decode(headers) == text;
    NameThenDigits(|body|);
    forall i | 0 <= i < |headers|
      ensures headers[i] != 13
    {
      if i >= |NAME| {
        assert IsDigitOf(Numeral(|body|, 10)[i - |NAME|], 10);
      }
    }
    NoReturnNoEnd(headers);
  }

  /** So a framed request reads back, with whatever follows it untouched. */
  lemma {:induction false} FrameRoundTrip(body: Bytes, rest: Bytes, decode: Decoder)
    requires DecodesAscii(decode)
    ensures TryRead(FrameMessage(body) + rest, decode) == Message(body, rest)
  {
    FrameDescribesBody(body, decode);
    FramedIsRead(FrameHeaders(|body|), body, rest, decode);
  }

  // ----- Headers without a length -----

  // No `Content-Length:` stands anywhere in the text.
  predicate NoField(text: string) {
    forall i | 0 <= i <= |text| :: !HasField(text[i..])
  }

  lemma {:induction false} NoFieldNoLength(text: string)
    requires NoField(text)
    ensures ContentLength(text) == None
  {
    hide HasField;
    if text != [] {
      assert text[0..] == text;
      forall i | 0 <= i <= |text[1..]|
        ensures !HasField(text[1..][i..])
      {
        assert text[1..][i..] == text[i + 1..];
      }
      NoFieldNoLength(text[1..]);
    }
  }

  /** A message whose headers name no length rejects the wait, whatever follows it and
      however it is split into chunks. */
  lemma {:induction false} NoLengthRejects(headers: Bytes, rest: Bytes, chunks: seq<Bytes>, decode: Decoder, read: Reader)
    requires HeaderEnd(headers + TERMINATOR) == |headers| && NoField(decode(headers))
    requires Concat(chunks) == headers + TERMINATOR + rest
    ensures Run(Waiting([]), DataEvents(chunks), decode, read) == Rejected
  {
    hide HeaderEnd, ContentLength, NoField;
    var buffer := headers + TERMINATOR + rest;
    HeaderEndAppend(headers + TERMINATOR, rest);
    assert buffer[..|headers|] == headers;
    NoFieldNoLength(decode(headers));
    assert TryRead(buffer, decode) == NoLength;
    EmptyDrain(decode, read);
    ChunksDoNotMatter([], chunks, decode, read);
    assert [] + Concat(chunks) == buffer;
  }
}
