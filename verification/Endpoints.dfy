/** The client's object and the server's read loop, which do in place what `EndToEnd` does in steps. */
module Endpoints {
  import opened Words
  import opened Frames
  import opened Parser
  import opened Reorder
  import opened StreamManager
  import opened EndToEnd

  class Client {
    var nextSequence: map<Word, Word>
    var outgoing: seq<Frame>
    // the read loop's own variables
    var frameBuffer: Bytes
    var streamFrames: map<Word, map<Word, Frame>>
    var nextExpected: map<Word, Word>
    var delivered: seq<Frame>

    /** Every frame parsed and handled so far. */
    ghost var received: seq<Frame>

    ghost function Reordered(): Buffers
      reads this
    {
      Buffers(streamFrames, nextExpected, delivered)
    }

    /** The maps and the output are what the accepted frames make of them. */
    ghost predicate Consistent(enabled: bool)
      reads this
    {
      Reordered() == ArriveAll(Valid(enabled, received))
    }

    /** The sending side's state in the step system, as far as this object holds it. */
    ghost predicate Shows(p: Sender)
      reads this
    {
      nextSequence == p.next && outgoing == p.queue
    }

    constructor ()
      ensures nextSequence == map[] && outgoing == []
      ensures frameBuffer == [] && received == [] && Reordered() == NO_BUFFERS
    {
      nextSequence, outgoing := map[], [];
      frameBuffer, streamFrames, nextExpected, delivered, received := [], map[], map[], [], [];
    }

    /** First critical section of sendMessage, which is the step `Call` of a thread. */
    method TakeNumber(message: Bytes, streamId: Word, ghost p: Sender, ghost thread: nat) returns (f: Frame)
      requires Shows(p) && p.CanCall(thread)
      modifies this`nextSequence
      ensures Shows(p.Call(thread, streamId, message)) && p.Call(thread, streamId, message).held[thread] == Some(f)
      ensures f == Make(streamId, if streamId in old(nextSequence) then old(nextSequence)[streamId] else 0, message)
      ensures nextSequence == old(nextSequence)[streamId := Plus(f.sequence, 1)]
    {
      var k := if streamId in nextSequence then nextSequence[streamId] else 0;
      nextSequence := nextSequence[streamId := Plus(k, 1)];
      f := Make(streamId, k, message);
    }

    /** Second critical section of sendMessage: the step `Enqueue`. */
    method Push(f: Frame, ghost p: Sender, ghost thread: nat)
      requires Shows(p) && p.CanEnqueue(thread) && p.held[thread] == Some(f)
      modifies this`outgoing
      ensures Shows(p.Enqueue(thread))
      ensures outgoing == old(outgoing) + [f]
    {
      outgoing := outgoing + [f];
    }

    /** The writer thread, which waits until the queue is not empty: the step `ClientPop`. */
    method Pop(ghost p: Sender) returns (f: Frame)
      requires Shows(p) && p.CanPop()
      modifies this`outgoing
      ensures Shows(p.Pop()) && p.Pop().writing == Some(f)
      ensures [f] + outgoing == old(outgoing)
    {
      f, outgoing := outgoing[0], outgoing[1..];
    }

    /** Files a frame on its stream and delivers what has become due. */
    method Reorder(f: Frame)
      modifies this`streamFrames, this`nextExpected, this`delivered
      ensures Reordered() == Arrive(old(Reordered()), f)
    {
      var s := f.streamId;
      var queue := Insert(if s in streamFrames then streamFrames[s] else map[], f);
      var next := if s in nextExpected then nextExpected[s] else 0;
      DrainAppends(queue, next, delivered);
      var due;
      queue, next, due := DrainLoop(queue, next);
      streamFrames, nextExpected, delivered := streamFrames[s := queue], nextExpected[s := next], delivered + due;
    }

    /** Skips the frame if its checksum does not verify. */
    method HandleFrame(enabled: bool, f: Frame)
      requires Consistent(enabled)
      modifies this`streamFrames, this`nextExpected, this`delivered, this`received
      ensures Consistent(enabled) && received == old(received) + [f]
    {
      ReorderNext(enabled, received, f);
      if Verify(enabled, f) {
        Reorder(f);
      }
      received := received + [f];
    }

    method HandleFrames(enabled: bool, frames: seq<Frame>)
      requires Consistent(enabled)
      modifies this`streamFrames, this`nextExpected, this`delivered, this`received
      ensures Consistent(enabled) && received == old(received) + frames
    {
      ghost var before := received;
      for i := 0 to |frames|
        invariant Consistent(enabled)
        invariant received == before + frames[..i]
      {
        HandleFrame(enabled, frames[i]);
        TakeNext(before, frames, i);
      }
    }

    /** One turn of the read loop: append, parse, erase, then handle each frame. */
    method HandleChunk(enabled: bool, chunk: Bytes)
      requires Consistent(enabled)
      modifies this`frameBuffer, this`streamFrames, this`nextExpected, this`delivered, this`received
      ensures Consistent(enabled)
      ensures frameBuffer == Residue(old(frameBuffer) + chunk)
      ensures received == old(received) + Parse(old(frameBuffer) + chunk)
    {
      frameBuffer := frameBuffer + chunk;
      var frames, consumed := ProcessData(frameBuffer);
      if consumed > 0 {
        frameBuffer := frameBuffer[consumed..];
      }
      HandleFrames(enabled, frames);
    }
  }

  lemma TakeNext<T>(a: seq<T>, b: seq<T>, i: nat)
    requires i < |b|
    ensures a + b[..i] + [b[i]] == a + b[..i + 1]
  {}

  /** The client's read loop over a whole connection, however its bytes are cut. */
  method ReadConnection(enabled: bool, chunks: seq<Bytes>) returns (client: Client)
    ensures client.frameBuffer == Residue(Concat(chunks))
    ensures Buffers(client.streamFrames, client.nextExpected, client.delivered)
      == ArriveAll(Valid(enabled, Parse(Concat(chunks))))
  {
    client := new Client();
    for i := 0 to |chunks|
      invariant fresh(client) && client.Consistent(enabled)
      invariant client.frameBuffer == Residue(Concat(chunks[..i]))
      invariant client.received == Parse(Concat(chunks[..i]))
    {
      client.HandleChunk(enabled, chunks[i]);
      ConcatLast(chunks, i);
      ParseAppend(Concat(chunks[..i]), chunks[i]);
    }
    assert chunks[..|chunks|] == chunks;
  }

  /** Answers and erases the frame at the front of the server's buffer. */
  method AnswerFirst(buffer: Bytes, manager: StreamManager) returns (request: Frame, rest: Bytes)
    requires Complete(buffer)
    modifies manager`outgoing
    ensures Parse(buffer) == [request] + Parse(rest) && Residue(buffer) == Residue(rest) && |rest| < |buffer|
    ensures manager.outgoing == old(manager.outgoing) + Responses(request)
  {
    var end := FrameSize(buffer);
    var parsed := Deserialize(buffer[..end]);
    DeserializeFirst(buffer, end);
    request, rest := parsed.value, buffer[end..];
    HandleFrame(request, manager);
  }

  /** One turn of the server's read loop: append, then answer each whole frame at the front. */
  method ServerHandleChunk(buffer: Bytes, chunk: Bytes, manager: StreamManager) returns (rest: Bytes)
    modifies manager`outgoing
    ensures rest == Residue(buffer + chunk)
    ensures manager.outgoing == old(manager.outgoing) + ResponsesAll(Parse(buffer + chunk))
  {
    rest := buffer + chunk;
    ghost var all, before, handled := Parse(rest), manager.outgoing, [];
    while Complete(rest)
      invariant all == handled + Parse(rest)
      invariant Residue(buffer + chunk) == Residue(rest)
      invariant manager.outgoing == before + ResponsesAll(handled)
      decreases |rest|
    {
      var request;
      request, rest := AnswerFirst(rest, manager);
      AnswerNext(before, handled, request, Parse(rest));
      handled := handled + [request];
    }
    assert Parse(rest) == [];
  }

  lemma AnswerNext(before: seq<Frame>, handled: seq<Frame>, q: Frame, more: seq<Frame>)
    ensures before + ResponsesAll(handled) + Responses(q) == before + ResponsesAll(handled + [q])
    ensures handled + ([q] + more) == handled + [q] + more
  {
    ResponsesLast(handled, q);
  }
}
