/**
 Two waits on one stream: what the second one sees of the bytes behind the answer
 to the first.
 */
module LspWaits {

  import opened Strings
  import opened LspFraming

  // ----- Beginnings of a stream -----

  lemma {:induction false} StreamSplits(frames: seq<Frame>, k: nat)
    requires k <= |frames|
    ensures Stream(frames) == Stream(frames[..k]) + Stream(frames[k..])
  {
    if k == 0 {
      assert frames[..0] == [] && frames[0..] == frames;
    } else {
      StreamSplits(frames[1..], k - 1);
      assert frames[..k][1..] == frames[1..][..k - 1] && frames[1..][k - 1..] == frames[k..];
    }
  }

  // The stream up to the end of the first frame that decides.
  function Head(frames: seq<Frame>, read: Reader): Bytes
    requires FirstDecisive(frames, read) < |frames|
  {
    Stream(frames[..FirstDecisive(frames, read) + 1])
  }

  lemma {:induction false} HeadOpens(frames: seq<Frame>, read: Reader)
    requires FirstDecisive(frames, read) < |frames|
    ensures read(frames[0].body) != Other ==> Head(frames, read) == Framed(frames[0].headers, frames[0].body)
    ensures read(frames[0].body) == Other ==>
              FirstDecisive(frames[1..], read) < |frames[1..]|
              && Head(frames, read) == Framed(frames[0].headers, frames[0].body) + Head(frames[1..], read)
  {
    hide Framed;
    var i := FirstDecisive(frames, read);
    var upTo := frames[..i + 1];
    assert upTo[0] == frames[0];
    if i == 0 {
      assert upTo[1..] == [] && Stream([]) == [];
    } else {
      assert upTo[1..] == frames[1..][..i];
    }
  }

  /** Short of the end of the first decisive frame, the wait goes on. */
  lemma {:induction false} BeginningWaits(frames: seq<Frame>, n: nat, decode: Decoder, read: Reader)
    requires forall f <- frames :: Describes(f.headers, f.body, decode)
    requires FirstDecisive(frames, read) < |frames| && n < |Head(frames, read)|
    ensures Drain(Head(frames, read)[..n], decode, read).Waiting?
    decreases frames
  {
    hide TryRead, Describes, Framed, Head;
    var f := frames[0];
    assert f in frames;
    var first, bytes := Framed(f.headers, f.body), Head(frames, read)[..n];
    HeadOpens(frames, read);
    if n < |first| {
      assert bytes == first[..n];
      PartIsIncomplete(f.headers, f.body, n, decode);
    } else {
      var rest := Head(frames[1..], read)[..n - |first|];
      assert bytes == first + rest;
      FramedIsRead(f.headers, f.body, rest, decode);
      RestShrinks(bytes, decode);
      BeginningWaits(frames[1..], n - |first|, decode, read);
    }
  }

  lemma {:induction false} EnoughSettles(frames: seq<Frame>, more: Bytes, decode: Decoder, read: Reader)
    requires forall f <- frames :: Describes(f.headers, f.body, decode)
    requires FirstDecisive(frames, read) < |frames|
    ensures Drain(Head(frames, read) + more, decode, read) == Decided(frames, [], read)
    decreases frames
  {
    hide TryRead, Describes, Framed, Head;
    var f := frames[0];
    assert f in frames;
    var first, bytes := Framed(f.headers, f.body), Head(frames, read) + more;
    HeadOpens(frames, read);
    if read(f.body) != Other {
      FramedIsRead(f.headers, f.body, more, decode);
    } else {
      assert bytes == first + (Head(frames[1..], read) + more);
      FramedIsRead(f.headers, f.body, Head(frames[1..], read) + more, decode);
      RestShrinks(bytes, decode);
      EnoughSettles(frames[1..], more, decode, read);
    }
  }

  // ----- The chunks a wait takes -----

  // The listener goes when the wait is settled; later chunks reach the next wait, if
  // it has been begun by then.
  function Takes(w: Wait, chunks: seq<Bytes>, decode: Decoder, read: Reader): (n: nat)
    ensures n <= |chunks|
    decreases chunks
  {
    if !w.Waiting? || chunks == [] then 0 else 1 + Takes(Feed(w, chunks[0], decode, read), chunks[1..], decode, read)
  }

  lemma {:induction false} ConcatCons(first: Bytes, rest: seq<Bytes>)
    ensures Concat([first] + rest) == first + Concat(rest)
  {
    assert ([first] + rest)[1..] == rest;
  }

  lemma Associates(x: Bytes, y: Bytes, z: Bytes)
    ensures x + (y + z) == x + y + z
  {
  }

  lemma ConcatNone(b: seq<Bytes>)
    ensures Concat([]) + Concat(b) == Concat(b)
  {
  }

  lemma {:induction false} ConcatAppend(a: seq<Bytes>, b: seq<Bytes>)
    ensures Concat(a + b) == Concat(a) + Concat(b)
  {
    hide Concat;
    if a == [] {
      assert a + b == b;
      ConcatNone(b);
    } else {
      ConcatAppend(a[1..], b);
      assert a == [a[0]] + a[1..] && a + b == [a[0]] + (a[1..] + b);
      ConcatCons(a[0], a[1..]);
      ConcatCons(a[0], a[1..] + b);
      Associates(a[0], Concat(a[1..]), Concat(b));
    }
  }

  lemma {:induction false} ConcatSplits(chunks: seq<Bytes>, k: nat)
    requires k <= |chunks|
    ensures Concat(chunks) == Concat(chunks[..k]) + Concat(chunks[k..])
  {
    ConcatAppend(chunks[..k], chunks[k..]);
    assert chunks[..k] + chunks[k..] == chunks;
  }

  lemma {:induction false} ConcatGrows(chunks: seq<Bytes>, j: nat, k: nat)
    requires j <= k <= |chunks|
    ensures |Concat(chunks[..j])| <= |Concat(chunks[..k])|
  {
    ConcatSplits(chunks[..k], j);
    assert chunks[..k][..j] == chunks[..j];
  }

  // A wait takes chunks until the bytes received settle it.
  lemma {:induction false} TakesUntilSettled(
    received: Bytes, chunks: seq<Bytes>, decode: Decoder, read: Reader, k: nat
  )
    requires k <= |chunks|
    ensures var n := Takes(Drain(received, decode, read), chunks, decode, read);
            && (k < n ==> Drain(received + Concat(chunks[..k]), decode, read).Waiting?)
            && (k == n < |chunks| ==> !Drain(received + Concat(chunks[..k]), decode, read).Waiting?)
    decreases chunks
  {
    hide Drain;
    var w := Drain(received, decode, read);
    assert received + Concat([]) == received;
    if k == 0 {
      assert chunks[..0] == [];
    } else {
      if w.Waiting? {
        DrainAppend(received, chunks[0], decode, read);
        TakesUntilSettled(received + chunks[0], chunks[1..], decode, read, k - 1);
        assert chunks[..k][1..] == chunks[1..][..k - 1];
        assert received + Concat(chunks[..k]) == received + chunks[0] + Concat(chunks[1..][..k - 1]);
      }
    }
  }

  /** For every list of framed messages with an answer among them, anything behind them,
      and every split into chunks: the first wait takes chunks up to the one that reaches
      the end of the deciding message, and the next wait gets what the later chunks hold.
      That is all that lies behind the message exactly when some chunk ends there. */
  lemma {:induction false} NextWaitSees(
    frames: seq<Frame>, tail: Bytes, chunks: seq<Bytes>, decode: Decoder, read: Reader
  )
    requires forall f <- frames :: Describes(f.headers, f.body, decode)
    requires FirstDecisive(frames, read) < |frames| && Concat(chunks) == Stream(frames) + tail
    ensures var n := Takes(Waiting([]), chunks, decode, read);
            var head := Head(frames, read);
            var behind := Stream(frames[FirstDecisive(frames, read) + 1..]) + tail;
            var dropped := |Concat(chunks[..n])| - |head|;
            && Run(Waiting([]), DataEvents(chunks[..n]), decode, read) == Decided(frames, [], read)
            && 0 <= dropped <= |behind|
            && Run(Waiting([]), DataEvents(chunks[n..]), decode, read) == Drain(behind[dropped..], decode, read)
            && (dropped == 0 <==> exists k :: 0 <= k <= |chunks| && Concat(chunks[..k]) == head)
  {
    hide Drain, Head, Describes, Decided;
    var n, head := Takes(Waiting([]), chunks, decode, read), Head(frames, read);
    var behind := Stream(frames[FirstDecisive(frames, read) + 1..]) + tail;
    StreamIsHeadAnd(frames, tail, read);
    EmptyDrain(decode, read);
    ReachesHead(frames, behind, chunks, decode, read);
    ConcatSplits(chunks, n);
    var taken := Concat(chunks[..n]);
    assert taken == head + behind[..|taken| - |head|] by {
      assert taken == (head + behind)[..|taken|];
    }
    EnoughSettles(frames, behind[..|taken| - |head|], decode, read);
    RunIsDrain(chunks[..n], decode, read);
    assert Concat(chunks[n..]) == (head + behind)[|taken|..] == behind[|taken| - |head|..];
    RunIsDrain(chunks[n..], decode, read);
    EndsThere(frames, behind, chunks, n, decode, read);
  }

  lemma {:induction false} StreamIsHeadAnd(frames: seq<Frame>, tail: Bytes, read: Reader)
    requires FirstDecisive(frames, read) < |frames|
    ensures Stream(frames) + tail == Head(frames, read) + (Stream(frames[FirstDecisive(frames, read) + 1..]) + tail)
  {
    StreamSplits(frames, FirstDecisive(frames, read) + 1);
  }

  lemma {:induction false} RunIsDrain(chunks: seq<Bytes>, decode: Decoder, read: Reader)
    ensures Run(Waiting([]), DataEvents(chunks), decode, read) == Drain(Concat(chunks), decode, read)
  {
    hide Drain;
    EmptyDrain(decode, read);
    ChunksDoNotMatter([], chunks, decode, read);
    assert [] + Concat(chunks) == Concat(chunks);
  }

  // Whether the first k chunks settle the wait.
  lemma {:induction false} WaitsBelowHead(
    frames: seq<Frame>, behind: Bytes, chunks: seq<Bytes>, decode: Decoder, read: Reader, k: nat
  )
    requires forall f <- frames :: Describes(f.headers, f.body, decode)
    requires FirstDecisive(frames, read) < |frames| && Concat(chunks) == Head(frames, read) + behind && k <= |chunks|
    ensures Drain(Concat(chunks[..k]), decode, read).Waiting? <==> |Concat(chunks[..k])| < |Head(frames, read)|
  {
    hide Drain, Describes, Head;
    var head, part := Head(frames, read), Concat(chunks[..k]);
    ConcatSplits(chunks, k);
    assert part == (head + behind)[..|part|];
    if |part| < |head| {
      assert part == head[..|part|];
      BeginningWaits(frames, |part|, decode, read);
    } else {
      assert part == head + behind[..|part| - |head|];
      EnoughSettles(frames, behind[..|part| - |head|], decode, read);
    }
  }

  // The chunks taken are the fewest that reach the end of the deciding message.
  lemma {:induction false} ReachesHead(
    frames: seq<Frame>, behind: Bytes, chunks: seq<Bytes>, decode: Decoder, read: Reader
  )
    requires forall f <- frames :: Describes(f.headers, f.body, decode)
    requires FirstDecisive(frames, read) < |frames| && Concat(chunks) == Head(frames, read) + behind
    ensures var n := Takes(Waiting([]), chunks, decode, read);
            && |Concat(chunks[..n])| >= |Head(frames, read)|
            && forall k | 0 <= k < n :: |Concat(chunks[..k])| < |Head(frames, read)|
  {
    hide Drain, Describes, Head;
    var n := Takes(Waiting([]), chunks, decode, read);
    EmptyDrain(decode, read);
    assert chunks[..|chunks|] == chunks;
    if n < |chunks| {
      TakesUntilSettled([], chunks, decode, read, n);
      assert [] + Concat(chunks[..n]) == Concat(chunks[..n]);
      WaitsBelowHead(frames, behind, chunks, decode, read, n);
    }
    forall k | 0 <= k < n
      ensures |Concat(chunks[..k])| < |Head(frames, read)|
    {
      TakesUntilSettled([], chunks, decode, read, k);
      assert [] + Concat(chunks[..k]) == Concat(chunks[..k]);
      WaitsBelowHead(frames, behind, chunks, decode, read, k);
    }
  }

  lemma {:induction false} EndsThere(
    frames: seq<Frame>, behind: Bytes, chunks: seq<Bytes>, n: nat, decode: Decoder, read: Reader
  )
    requires FirstDecisive(frames, read) < |frames| && Concat(chunks) == Head(frames, read) + behind && n <= |chunks|
    requires |Concat(chunks[..n])| >= |Head(frames, read)|
    requires forall k | 0 <= k < n :: |Concat(chunks[..k])| < |Head(frames, read)|
    ensures |Concat(chunks[..n])| == |Head(frames, read)| <==>
            exists k :: 0 <= k <= |chunks| && Concat(chunks[..k]) == Head(frames, read)
  {
    hide Head;
    var head, taken := Head(frames, read), Concat(chunks[..n]);
    ConcatSplits(chunks, n);
    assert taken == (head + behind)[..|taken|];
    if |taken| == |head| {
      assert taken == head;
    }
    if k :| 0 <= k <= |chunks| && Concat(chunks[..k]) == head {
      ConcatGrows(chunks, n, k);
    }
  }

  // ----- A second answer -----

  /** Two answers in one chunk: the second is lost to the next wait, which gets it when
      each comes in a chunk of its own. */
  lemma {:induction false} SecondAnswerIsLost(p: Bytes, q: Bytes, decode: Decoder, read: Reader)
    requires DecodesAscii(decode) && read(p) == Answer && read(q) == Answer
    ensures var whole := [FrameMessage(p) + FrameMessage(q)];
            var n := Takes(Waiting([]), whole, decode, read);
            && Run(Waiting([]), DataEvents(whole[..n]), decode, read) == Resolved(p)
            && Run(Waiting([]), DataEvents(whole[n..]), decode, read) == Waiting([])
    ensures var parts := [FrameMessage(p), FrameMessage(q)];
            var n := Takes(Waiting([]), parts, decode, read);
            && Run(Waiting([]), DataEvents(parts[..n]), decode, read) == Resolved(p)
            && Run(Waiting([]), DataEvents(parts[n..]), decode, read) == Resolved(q)
  {
    hide Drain, FrameMessage;
    var first, second := FrameMessage(p), FrameMessage(q);
    AnswerResolves(p, second, decode, read);
    AnswerResolves(p, [], decode, read);
    AnswerResolves(q, [], decode, read);
    assert first + [] == first && second + [] == second;
    TakesOne(first + second, [], decode, read);
    TakesOne(first, [second], decode, read);
    var whole, parts := [first + second], [first, second];
    assert whole == [first + second] + [] && parts == [first] + [second];
    assert whole[..1] == [first + second] && whole[1..] == [];
    assert parts[..1] == [first] && parts[1..] == [second];
    RunOne(first + second, decode, read);
    RunOne(first, decode, read);
    RunOne(second, decode, read);
  }

  lemma {:induction false} AnswerResolves(p: Bytes, rest: Bytes, decode: Decoder, read: Reader)
    requires DecodesAscii(decode) && read(p) == Answer
    ensures Drain(FrameMessage(p) + rest, decode, read) == Resolved(p)
  {
    hide TryRead, FrameMessage, DecodesAscii;
    FrameRoundTrip(p, rest, decode);
  }

  lemma {:induction false} TakesOne(chunk: Bytes, later: seq<Bytes>, decode: Decoder, read: Reader)
    requires !Drain(chunk, decode, read).Waiting?
    ensures Takes(Waiting([]), [chunk] + later, decode, read) == 1
  {
    hide Drain;
    assert ([chunk] + later)[1..] == later && [] + chunk == chunk;
  }

  lemma {:induction false} RunOne(chunk: Bytes, decode: Decoder, read: Reader)
    ensures Run(Waiting([]), DataEvents([chunk]), decode, read) == Drain(chunk, decode, read)
  {
    hide Drain;
    RunIsDrain([chunk], decode, read);
    assert [chunk][1..] == [] && Concat([chunk]) == chunk + Concat([]) == chunk;
  }
}
