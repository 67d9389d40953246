/**
 * Sending a request body through `WinHttpWriteData`: the write loop that
 * tolerates short writes, the streaming path, and the path for large bodies.
 * What the operating system answers is a script, so the contracts hold for
 * every pattern of short, empty, refused and over-reported writes.
 */
module Upload {
  import opened Prelude
  import opened Chunked

  /** The end of one write.  A completion of n bytes means that the first n
      bytes were accepted.  A refused write may have put any number of its
      first bytes on the connection, even all of them. */
  datatype Outcome = Completed(n: nat) | Refused(sent: nat)

  datatype WriteError = Os | WroteNothing | OverReported | TooLarge | OffsetBeyondEnd | OffsetOverflow

  datatype UploadError = StreamFailed | WriteFailed(error: WriteError)

  /** One item of the body stream. */
  datatype Item = Chunk(data: seq<byte>) | Failure

  function AdvanceWriteOffset(offset: nat, total: nat, written: nat): Result<nat, WriteError> {
    if total < offset then Err(OffsetBeyondEnd)
    else if written == 0 then Err(WroteNothing)
    else if written > total - offset then Err(OverReported)
    else if offset + written > USIZE_MAX then Err(OffsetOverflow)
    else Ok(offset + written)
  }

  /** An offset only moves forward, by what was written, and never past the end;
      a completion of nothing and one of too much are told apart. */
  lemma OffsetAdvances(offset: nat, total: nat, written: nat)
    requires offset <= total <= USIZE_MAX
    ensures var r := AdvanceWriteOffset(offset, total, written);
            && (r.Ok? <==> 0 < written && offset + written <= total)
            && (r.Ok? ==> offset < r.value <= total && r.value - offset == written)
            && (r == Err(WroteNothing) <==> written == 0)
            && (r == Err(OverReported) <==> written > 0 && offset + written > total)
  {
  }

  /** The bytes an outcome tells of, which may be more than it was given. */
  function Amount(o: Outcome): nat {
    match o
    case Completed(n) => n
    case Refused(sent) => sent
  }

  /** Outcome number `i`; a script that has run out stands for a lost request. */
  function At(script: seq<Outcome>, i: nat): Outcome {
    if i < |script| then script[i] else Refused(0)
  }

  /** Outcome `i` is a completion, and of at least one byte. */
  predicate Advances(script: seq<Outcome>, i: nat) {
    At(script, i).Completed? && At(script, i).n > 0
  }

  /** Bytes completed by outcomes `from` to `to`. */
  function Progress(script: seq<Outcome>, from: nat, to: nat): nat
    requires from <= to
  {
    if from == to then 0
    else Progress(script, from, to - 1) + match At(script, to - 1) case Completed(n) => n case Refused(_) => 0
  }

  ghost predicate StrictPrefix<T>(a: seq<T>, b: seq<T>) {
    a <= b && |a| < |b|
  }

  /** The write that ended an upload of `total` bytes was refused, but only after
      the rest of the upload, from within its last buffer, had been sent. */
  predicate Swallowed(script: seq<Outcome>, to: nat, lastBuffer: nat, total: nat) {
    && to > 0 && At(script, to - 1).Refused?
    && lastBuffer <= Progress(script, 0, to - 1)
    && Progress(script, 0, to - 1) + At(script, to - 1).sent >= total
  }

  lemma {:induction false} ProgressConcat(script: seq<Outcome>, a: nat, b: nat, c: nat)
    requires a <= b <= c
    ensures Progress(script, a, c) == Progress(script, a, b) + Progress(script, b, c)
    decreases c - b
  {
    if b < c {
      ProgressConcat(script, a, b, c - 1);
    }
  }

  /** The outcome that ends a write loop with `remaining` bytes to go. */
  ghost predicate EndsIn(e: WriteError, last: Outcome, remaining: int) {
    match e
    case Os => last.Refused?
    case WroteNothing => last == Completed(0)
    case OverReported => last.Completed? && last.n > remaining
    case _ => false
  }

  /** The outcome that a failed write is blamed on. */
  predicate Blamed(e: WriteError, last: Outcome) {
    match e
    case Os => last.Refused?
    case WroteNothing => last == Completed(0)
    case OverReported => last.Completed? && last.n > 0
    case _ => false
  }

  /** All outcomes before `to` were good, except that an error, if there was
      one, is the last one's fault. */
  ghost predicate Consumed(script: seq<Outcome>, to: nat, error: Option<WriteError>) {
    if error == None || error == Some(TooLarge) then
      forall i: nat :: i < to ==> Advances(script, i)
    else
      to > 0 && Blamed(error.value, At(script, to - 1)) && forall i: nat :: i < to - 1 ==> Advances(script, i)
  }

  /** What has gone out of an upload of `all`, sent buffer by buffer, once outcomes
      up to `pos` are used; `end(n)` is where the buffer that byte `n` is in ends.
      It is what the completed writes add up to, and where a write failed, what
      that write tells of besides, within its buffer. */
  ghost predicate WentOut(
      all: seq<byte>, end: nat -> nat, script: seq<Outcome>, error: Option<WriteError>, wire: seq<byte>, pos: nat)
  {
    match error
    case None => wire == all && Progress(script, 0, pos) == |all|
    case Some(TooLarge) => Progress(script, 0, pos) <= |all| && wire == all[..Progress(script, 0, pos)]
    case Some(_) =>
      && pos > 0
      && var done := Progress(script, 0, pos - 1);
         && done < end(done) <= |all|
         && wire == all[..Min(end(done), done + Amount(At(script, pos - 1)))]
  }

  /** What a write of `data` that used outcomes `from` up to `to` has come to:
      it succeeds exactly when completions of at least one byte add up to the
      buffer; otherwise the outcome that ends it names the error, and what has
      been sent is what the outcomes say. */
  ghost predicate Wrote(
      data: seq<byte>, script: seq<Outcome>, from: nat, error: Option<WriteError>, wire: seq<byte>, to: nat)
  {
    && from <= to
    && (error == Some(TooLarge) <==> |data| > U32_MAX)
    && (match error
        case None =>
          && wire == data && Progress(script, from, to) == |data|
          && forall i: nat :: from <= i < to ==> Advances(script, i)
        case Some(TooLarge) =>
          wire == [] && to == from
        case Some(e) =>
          && from < to && Progress(script, from, to - 1) < |data|
          && (forall i: nat :: from <= i < to - 1 ==> Advances(script, i))
          && EndsIn(e, At(script, to - 1), |data| - Progress(script, from, to - 1))
          && wire == data[..Min(|data|, Progress(script, from, to - 1) + Amount(At(script, to - 1)))])
  }

  /** `write_data_with`, fed from outcome `from` on; `to` is the first outcome
      it did not use. */
  method WriteData(data: seq<byte>, script: seq<Outcome>, from: nat)
    returns (error: Option<WriteError>, wire: seq<byte>, to: nat)
    ensures Wrote(data, script, from, error, wire, to)
  {
    error, wire, to := None, [], from;
    var offset: nat := 0;
    while offset < |data|
      invariant offset <= |data| && wire == data[..offset] && from <= to && (offset == 0 ==> to == from)
      invariant forall i :: from <= i < to ==> Advances(script, i)
      invariant Progress(script, from, to) == offset
      invariant offset > 0 ==> |data| <= U32_MAX
    {
      var remaining := |data| - offset;
      if remaining > U32_MAX {
        error := Some(TooLarge);
        return;
      }
      var outcome := At(script, to);
      wire := wire + data[offset..offset + Min(Amount(outcome), remaining)];
      to := to + 1;
      match outcome {
        case Refused(_) =>
          error := Some(Os);
          return;
        case Completed(n) =>
          var next := AdvanceWriteOffset(offset, |data|, n);
          if next.Err? {
            error := Some(next.error);
            return;
          }
          offset := next.value;
      }
    }
  }

  lemma BufferSent(script: seq<Outcome>, before: nat, from: nat, buffer: seq<byte>, part: seq<byte>, to: nat)
    requires Consumed(script, from, None) && Progress(script, 0, from) == before
    requires Wrote(buffer, script, from, None, part, to)
    ensures part == buffer
    ensures Consumed(script, to, None) && Progress(script, 0, to) == before + |buffer|
  {
    ProgressConcat(script, 0, from, to);
  }

  /** What a write that failed in the middle of an upload has made of it. */
  lemma BufferFailed(
      script: seq<Outcome>, before: seq<byte>, from: nat, buffer: seq<byte>, error: WriteError, part: seq<byte>,
      to: nat, all: seq<byte>, lastBuffer: nat, end: nat -> nat)
    requires Consumed(script, from, None) && Progress(script, 0, from) == |before|
    requires Wrote(buffer, script, from, Some(error), part, to)
    requires before + buffer <= all
    requires forall n :: |before| <= n < |before| + |buffer| ==> end(n) == |before| + |buffer|
    requires if before + buffer == all then lastBuffer == |before| else lastBuffer >= |before| + |buffer|
    ensures Consumed(script, to, Some(error)) && WentOut(all, end, script, Some(error), before + part, to)
    ensures error != OverReported ==>
      before + part <= all && (StrictPrefix(before + part, all) <==> !Swallowed(script, to, lastBuffer, |all|))
  {
    if error == TooLarge {
      assert to > 0 ==> Advances(script, to - 1);
      assert before + part == before == all[..|before|];
    } else {
      ProgressConcat(script, 0, from, to - 1);
      assert part <= buffer;
      assert before + part <= before + buffer;
      assert before + part == all[..|before + part|];
      assert |before + part| == |all| <==> before + buffer == all && part == buffer;
    }
  }

  /** The chunks a stream yields before it ends or fails. */
  function Data(items: seq<Item>): seq<seq<byte>> {
    if items == [] || items[0].Failure? then []
    else if items[0].data == [] then Data(items[1..])
    else [items[0].data] + Data(items[1..])
  }

  /** Everything a stream that does not fail yields. */
  function Content(items: seq<Item>): seq<byte> {
    if items == [] then []
    else (if items[0].Chunk? then items[0].data else []) + Content(items[1..])
  }

  lemma {:induction false} DataIsContent(items: seq<Item>)
    requires Failure !in items
    ensures Flatten(Data(items)) == Content(items)
    ensures forall c :: c in Data(items) ==> c != []
  {
    if items != [] {
      assert items[0] in items && forall i :: i in items[1..] ==> i in items;
      DataIsContent(items[1..]);
    }
  }

  lemma {:induction false} DataNonEmpty(items: seq<Item>)
    ensures forall c :: c in Data(items) ==> c != []
  {
    if items != [] {
      DataNonEmpty(items[1..]);
    }
  }

  lemma {:induction false} FramesConcat(a: seq<seq<byte>>, b: seq<seq<byte>>)
    ensures Frames(a + b) == Frames(a) + Frames(b)
  {
    if a == [] {
      assert a + b == b;
    } else {
      assert (a + b)[1..] == a[1..] + b;
      FramesConcat(a[1..], b);
    }
  }

  lemma {:induction false} DataSplit(a: seq<Item>, b: seq<Item>)
    requires Failure !in a
    ensures Data(a + b) == Data(a) + Data(b)
  {
    if a == [] {
      assert a + b == b;
    } else {
      assert a[0] in a && forall i :: i in a[1..] ==> i in a;
      assert (a + b)[1..] == a[1..] + b;
      DataSplit(a[1..], b);
    }
  }

  lemma FirstFrame(items: seq<Item>)
    requires items != [] && items[0].Chunk? && items[0].data != []
    ensures Frames(Data(items)) == Frame(items[0].data) + Frames(Data(items[1..]))
  {
    hide Frame;
    assert Data(items)[1..] == Data(items[1..]);
  }

  lemma ChunkIsSent(items: seq<Item>, i: nat)
    requires i < |items| && Failure !in items[..i] && items[i].Chunk? && items[i].data != []
    ensures items[i].data in Data(items)
  {
    DataSplit(items[..i], items[i..]);
    assert items == items[..i] + items[i..];
    assert Data(items[i..])[0] == items[i].data;
  }

  lemma FrameSplit(before: seq<Item>, after: seq<Item>)
    requires Failure !in before && after != [] && after[0].Chunk? && after[0].data != []
    ensures Frames(Data(before + after)) == Frames(Data(before)) + (Frame(after[0].data) + Frames(Data(after[1..])))
  {
    DataSplit(before, after);
    FramesConcat(Data(before), Data(after));
    FirstFrame(after);
    hide *;
  }

  lemma FrameFollows(before: seq<Item>, after: seq<Item>)
    requires Failure !in before && after != [] && after[0].Chunk? && after[0].data != []
    ensures Frames(Data(before)) + Frame(after[0].data) <= Frames(Data(before + after))
  {
    hide *;
    FrameSplit(before, after);
    Regroup(Frames(Data(before)), Frame(after[0].data), Frames(Data(after[1..])));
  }

  lemma FrameOfUpload(items: seq<Item>, i: nat)
    requires i < |items| && Failure !in items[..i] && items[i].Chunk? && items[i].data != []
    ensures Frames(Data(items[..i])) + Frame(items[i].data) <= Frames(Data(items))
  {
    hide *;
    var before, after := items[..i], items[i..];
    assert items == before + after && after[0] == items[i];
    FrameFollows(before, after);
  }

  lemma Regroup(a: seq<byte>, b: seq<byte>, c: seq<byte>)
    ensures a + b <= a + (b + c)
  {
    assert a + (b + c) == (a + b) + c;
  }

  lemma CutAtFailure(items: seq<Item>, i: nat)
    requires i < |items| && Failure !in items[..i] && items[i].Failure?
    ensures Failure in items && Data(items) == Data(items[..i])
    ensures StrictPrefix(Frames(Data(items[..i])), Encode(Data(items)))
  {
    assert items[i] in items && items == items[..i] + items[i..];
    DataSplit(items[..i], items[i..]);
    assert Data(items[..i]) + [] == Data(items[..i]);
  }

  /** One loop iteration's effect on the frames sent so far. */
  lemma FrameSent(before: seq<Item>, chunk: seq<byte>)
    requires Failure !in before
    ensures Frames(Data(before + [Chunk(chunk)])) == Frames(Data(before)) + if chunk == [] then [] else Frame(chunk)
  {
    DataSplit(before, [Chunk(chunk)]);
    FramesConcat(Data(before), Data([Chunk(chunk)]));
    assert [Chunk(chunk)][1..] == [];
    if chunk != [] {
      assert Data([Chunk(chunk)]) == [chunk] && [chunk][1..] == [];
      assert Frames([chunk]) == Frame(chunk);
    }
  }

  function WriteErrorOf(error: Option<UploadError>): Option<WriteError> {
    if error.Some? && error.value.WriteFailed? then Some(error.value.error) else None
  }

  /** Where the buffer ends that byte `n` of a chunked upload is sent in. */
  function FrameEnd(chunks: seq<seq<byte>>, n: nat): nat {
    if chunks == [] then |TERMINATOR|
    else if n < |Frame(chunks[0])| then |Frame(chunks[0])|
    else |Frame(chunks[0])| + FrameEnd(chunks[1..], n - |Frame(chunks[0])|)
  }

  lemma {:induction false} FrameEndSkips(a: seq<seq<byte>>, b: seq<seq<byte>>, n: nat)
    requires n >= |Frames(a)|
    ensures FrameEnd(a + b, n) == |Frames(a)| + FrameEnd(b, n - |Frames(a)|)
  {
    if a == [] {
      assert a + b == b;
    } else {
      hide Frame;
      assert (a + b)[1..] == a[1..] + b;
      FrameEndSkips(a[1..], b, n - |Frame(a[0])|);
    }
  }

  lemma FrameEndAt(items: seq<Item>, i: nat)
    requires i < |items| && Failure !in items[..i] && items[i].Chunk? && items[i].data != []
    ensures var start, end := |Frames(Data(items[..i]))|, |Frames(Data(items[..i]))| + |Frame(items[i].data)|;
            forall n :: start <= n < end ==> FrameEnd(Data(items), n) == end
  {
    DataSplit(items[..i], items[i..]);
    assert items == items[..i] + items[i..];
    var a, b := Data(items[..i]), Data(items[i..]);
    assert b[0] == items[i].data;
    hide Frame, Frames, Data;
    forall n | |Frames(a)| <= n < |Frames(a)| + |Frame(b[0])|
      ensures FrameEnd(a + b, n) == |Frames(a)| + |Frame(b[0])|
    {
      FrameEndSkips(a, b, n);
    }
  }

  lemma FrameEndLast(chunks: seq<seq<byte>>)
    ensures forall n :: n >= |Frames(chunks)| ==> FrameEnd(chunks, n) == |Frames(chunks)| + |TERMINATOR|
  {
    forall n | n >= |Frames(chunks)| ensures FrameEnd(chunks, n) == |Frames(chunks)| + |TERMINATOR| {
      FrameEndSkips(chunks, [], n);
      assert chunks + [] == chunks;
    }
  }

  /** Less than the whole has gone out, except when the refused write was the
      terminator's and all of the terminator had. */
  ghost predicate LessGoneOut(items: seq<Item>, script: seq<Outcome>, wire: seq<byte>, pos: nat) {
    && wire <= Encode(Data(items))
    && (StrictPrefix(wire, Encode(Data(items)))
        <==> !Swallowed(script, pos, |Frames(Data(items))|, |Encode(Data(items))|))
  }

  /** The streaming path.  What has gone out is the chunked form of the stream,
      empty chunks left out, as far as the outcomes say: on success all of it;
      after a stream error the frames so far, all of them completed; after a
      failed write what was completed before and what that write tells of.  The
      upload fails only for a cause: a stream error, an outcome that is not
      progress, or a frame that is too long for one write. */
  method UploadStream(items: seq<Item>, script: seq<Outcome>)
    returns (error: Option<UploadError>, wire: seq<byte>, pos: nat)
    ensures error == None ==> Failure !in items
    ensures error == Some(StreamFailed) ==>
      Failure in items && wire == Frames(Data(items)) && Progress(script, 0, pos) == |wire|
    ensures error == Some(StreamFailed) ==> StrictPrefix(wire, Encode(Data(items)))
    ensures error != Some(StreamFailed) ==>
      WentOut(Encode(Data(items)), n => FrameEnd(Data(items), n), script, WriteErrorOf(error), wire, pos)
    ensures WriteErrorOf(error).Some? && WriteErrorOf(error) != Some(OverReported) ==>
      LessGoneOut(items, script, wire, pos)
    ensures Consumed(script, pos, WriteErrorOf(error))
    ensures error == Some(WriteFailed(TooLarge)) ==> exists c :: c in Data(items) && |Frame(c)| > U32_MAX
  {
    NothingSent(items, script);
    hide Frames, Frame, Data, Wrote, Consumed, Progress, StrictPrefix, FrameEnd, WentOut, LessGoneOut;
    error, wire, pos := None, [], 0;
    var sendBody: seq<byte> := [];
    var i := 0;
    while i < |items|
      invariant 0 <= i <= |items| && Failure !in items[..i]
      invariant wire == Frames(Data(items[..i]))
      invariant Consumed(script, pos, None) && Progress(script, 0, pos) == |wire|
    {
      match items[i] {
        case Failure =>
          error := Some(StreamFailed);
          CutAtFailure(items, i);
          return;
        case Chunk(data) =>
          assert items[..i + 1] == items[..i] + [Chunk(data)];
          FrameSent(items[..i], data);
          if data != [] {
            sendBody := Frame(data);
            var failed, part, next := WriteData(sendBody, script, pos);
            if failed.Some? {
              error := Some(WriteFailed(failed.value));
              FrameFailed(items, i, script, wire, pos, failed.value, part, next);
              wire, pos := wire + part, next;
              return;
            }
            BufferSent(script, |wire|, pos, sendBody, part, next);
            wire, pos := wire + part, next;
          }
      }
      i := i + 1;
    }
    assert items[..i] == items;
    sendBody := TERMINATOR;
    var failed, part, next := WriteData(sendBody, script, pos);
    if failed.Some? {
      error := Some(WriteFailed(failed.value));
      TerminatorFailed(items, script, wire, pos, failed.value, part, next);
    } else {
      BufferSent(script, |wire|, pos, sendBody, part, next);
      AllOut(script, Encode(Data(items)), n => FrameEnd(Data(items), n), next);
    }
    wire, pos := wire + part, next;
  }

  lemma NothingSent(items: seq<Item>, script: seq<Outcome>)
    ensures items[..0] == [] && Frames(Data([])) == [] && Progress(script, 0, 0) == 0 && Consumed(script, 0, None)
  {
  }

  lemma FrameFailed(
      items: seq<Item>, i: nat, script: seq<Outcome>, wire: seq<byte>, from: nat, error: WriteError,
      part: seq<byte>, to: nat)
    requires i < |items| && Failure !in items[..i] && items[i].Chunk? && items[i].data != []
    requires wire == Frames(Data(items[..i])) && Consumed(script, from, None) && Progress(script, 0, from) == |wire|
    requires Wrote(Frame(items[i].data), script, from, Some(error), part, to)
    ensures WentOut(Encode(Data(items)), n => FrameEnd(Data(items), n), script, Some(error), wire + part, to)
    ensures error != OverReported ==> LessGoneOut(items, script, wire + part, to)
    ensures Consumed(script, to, Some(error))
    ensures error == TooLarge ==> exists c :: c in Data(items) && |Frame(c)| > U32_MAX
  {
    hide Frames, Frame, Data, Consumed, Progress, StrictPrefix, FrameEnd, WentOut, Swallowed;
    ChunkIsSent(items, i);
    FrameOfUpload(items, i);
    FrameEndAt(items, i);
    BufferFailed(script, wire, from, Frame(items[i].data), error, part, to, Encode(Data(items)),
                 |Frames(Data(items))|, n => FrameEnd(Data(items), n));
  }

  lemma TerminatorFailed(
      items: seq<Item>, script: seq<Outcome>, wire: seq<byte>, from: nat, error: WriteError, part: seq<byte>, to: nat)
    requires wire == Frames(Data(items)) && Consumed(script, from, None) && Progress(script, 0, from) == |wire|
    requires Wrote(TERMINATOR, script, from, Some(error), part, to)
    ensures WentOut(Encode(Data(items)), n => FrameEnd(Data(items), n), script, Some(error), wire + part, to)
    ensures error != OverReported ==> LessGoneOut(items, script, wire + part, to)
    ensures Consumed(script, to, Some(error)) && error != TooLarge
  {
    hide Frames, Data, Consumed, Progress, StrictPrefix, FrameEnd, WentOut, Swallowed;
    FrameEndLast(Data(items));
    BufferFailed(script, wire, from, TERMINATOR, error, part, to, Encode(Data(items)), |wire|,
                 n => FrameEnd(Data(items), n));
    PieceFits(script, from, TERMINATOR, error, part, to);
  }

  lemma AllOut(script: seq<Outcome>, all: seq<byte>, end: nat -> nat, pos: nat)
    requires Progress(script, 0, pos) == |all|
    ensures WentOut(all, end, script, None, all, pos)
  {
  }

  /** What the receiver of a successful upload decodes, whatever comes next on
      the connection: exactly the stream's bytes. */
  lemma SuccessDecodes(items: seq<Item>, wire: seq<byte>, tail: seq<byte>)
    requires Failure !in items && wire == Encode(Data(items))
    ensures Decode(wire + tail) == Complete(Content(items), tail)
  {
    DataIsContent(items);
    EncodeDecodes(Data(items), tail);
  }

  /** A failed upload, cut at any byte, never looks like a finished body, unless
      all of the terminator is there. */
  lemma FailureLooksIncomplete(items: seq<Item>, wire: seq<byte>, cut: nat)
    requires wire <= Encode(Data(items)) && cut <= |wire|
    ensures Decode(wire[..cut]) == Incomplete <==> cut < |Encode(Data(items))|
  {
    hide Decode, Encode, Data;
    DataNonEmpty(items);
    var all := Encode(Data(items));
    assert wire[..cut] == all[..cut];
    if cut < |all| {
      StrictPrefixIsIncomplete(Data(items), cut);
    } else {
      EncodeDecodes(Data(items), []);
      assert all[..cut] == all + [];
    }
  }

  /** A failed write and a finished body at once: the terminator of an empty
      stream is refused after all of it has gone out. */
  lemma SwallowedLooksFinished()
    ensures var script := [Refused(5)];
            && Wrote(TERMINATOR, script, 0, Some(Os), TERMINATOR, 1)
            && Swallowed(script, 1, |Frames(Data([]))|, |Encode(Data([]))|)
            && Decode(Encode(Data([]))) == Complete([], [])
  {
    assert Encode([]) == TERMINATOR == TERMINATOR[..5];
    EncodeDecodes([], []);
    assert Encode([]) + [] == Encode([]);
  }

  /** Where the last of the pieces that a large body is sent in begins. */
  function LastPiece(length: nat, chunkMax: nat): nat
    requires chunkMax > 0
  {
    if length <= chunkMax then 0 else chunkMax + LastPiece(length - chunkMax, chunkMax)
  }

  /** Where the piece ends that byte `n` of a large body is sent in. */
  function PieceEnd(length: nat, chunkMax: nat, n: nat): nat
    requires chunkMax > 0
  {
    if length <= chunkMax then length
    else if n < chunkMax then chunkMax
    else chunkMax + PieceEnd(length - chunkMax, chunkMax, n - chunkMax)
  }

  /** The pieces before `offset` are whole. */
  ghost predicate AtPiece(length: nat, chunkMax: nat, offset: nat)
    requires chunkMax > 0
  {
    && offset < length
    && LastPiece(length, chunkMax) == offset + LastPiece(length - offset, chunkMax)
    && forall n :: n >= offset ==>
         PieceEnd(length, chunkMax, n) == offset + PieceEnd(length - offset, chunkMax, n - offset)
  }

  lemma NextPiece(length: nat, chunkMax: nat, offset: nat)
    requires chunkMax > 0 && AtPiece(length, chunkMax, offset) && offset + chunkMax < length
    ensures AtPiece(length, chunkMax, offset + chunkMax)
  {
    forall n | n >= offset + chunkMax
      ensures PieceEnd(length, chunkMax, n)
              == offset + chunkMax + PieceEnd(length - offset - chunkMax, chunkMax, n - offset - chunkMax)
    {
      assert PieceEnd(length, chunkMax, n) == offset + PieceEnd(length - offset, chunkMax, n - offset);
    }
  }

  /** The path for bodies longer than one write can carry, which are announced
      with their length: the pieces, none longer than `chunkMax`, go out as far
      as the outcomes say, on success all of them.  A failure leaves the
      announced length unreached, except when the refused write was the last
      piece's and all of it had gone out. */
  method UploadLarge(body: seq<byte>, chunkMax: nat, script: seq<Outcome>)
    returns (error: Option<WriteError>, wire: seq<byte>, pos: nat)
    requires 0 < chunkMax <= U32_MAX
    ensures error != Some(TooLarge)
    ensures WentOut(body, n => PieceEnd(|body|, chunkMax, n), script, error, wire, pos)
    ensures error.Some? && error != Some(OverReported) ==>
      && wire <= body
      && (StrictPrefix(wire, body) <==> !Swallowed(script, pos, LastPiece(|body|, chunkMax), |body|))
    ensures Consumed(script, pos, error)
  {
    hide Wrote, Swallowed, Consumed, Progress, StrictPrefix, WentOut;
    ghost var end := (n: nat) => PieceEnd(|body|, chunkMax, n);
    error, wire, pos := None, [], 0;
    NothingSent([], script);
    var offset: nat := 0;
    while offset < |body|
      invariant offset <= |body| && wire == body[..offset]
      invariant Consumed(script, pos, None) && Progress(script, 0, pos) == offset
      invariant offset < |body| ==> AtPiece(|body|, chunkMax, offset)
    {
      var size := Min(|body| - offset, chunkMax);
      var piece := body[offset..offset + size];
      assert wire + piece == body[..offset + size];
      var failed, part, next := WriteData(piece, script, pos);
      if failed.Some? {
        error := failed;
        PieceFits(script, pos, piece, failed.value, part, next);
        BufferFailed(script, wire, pos, piece, failed.value, part, next, body, LastPiece(|body|, chunkMax), end);
        wire, pos := wire + part, next;
        return;
      }
      BufferSent(script, |wire|, pos, piece, part, next);
      wire, pos := wire + part, next;
      if offset + chunkMax < |body| {
        NextPiece(|body|, chunkMax, offset);
      }
      offset := offset + size;
    }
    assert wire == body;
    AllOut(script, body, end, pos);
  }

  lemma PieceFits(
      script: seq<Outcome>, from: nat, piece: seq<byte>, error: WriteError, part: seq<byte>, to: nat)
    requires Wrote(piece, script, from, Some(error), part, to) && |piece| <= U32_MAX
    ensures error != TooLarge
  {
  }
}
