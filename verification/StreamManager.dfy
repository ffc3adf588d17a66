/**
 The server's per-connection stream manager (server.cpp) and the responses it queues. Each method
 is one critical section; its contract ties the fields to the functions of `Reorder`.
 */
module StreamManager {
  import opened Words
  import opened Frames
  import opened Picking
  import opened Reorder

  const FAN_OUT: int := 5

  /** 4096 bytes 'A'. */
  function Body(): Bytes {
    seq(4096, _ => 65)
  }

  class StreamManager {
    var streamFrames: map<Word, map<Word, Frame>>
    var nextSequence: map<Word, Word>
    var incoming: seq<Frame>
    var outgoing: seq<Frame>

    /** The frames already taken from `incoming`. */
    ghost var received: seq<Frame>

    ghost function State(): Buffers
      reads this
    {
      Buffers(streamFrames, nextSequence, received + incoming)
    }

    constructor ()
      ensures State() == NO_BUFFERS && incoming == [] && outgoing == []
    {
      streamFrames, nextSequence, incoming, outgoing, received := map[], map[], [], [], [];
    }

    method SendFrame(f: Frame)
      modifies this`outgoing
      ensures outgoing == old(outgoing) + [f]
    {
      outgoing := outgoing + [f];
    }

    /** The source waits until the queue is not empty. */
    method ReceiveFrame() returns (f: Frame)
      requires incoming != []
      modifies this`incoming, this`received
      ensures [f] + incoming == old(incoming) && received == old(received) + [f]
      ensures State() == old(State())
    {
      f, incoming := incoming[0], incoming[1..];
      received := received + [f];
    }

    method AddIncomingFrame(f: Frame)
      modifies this`streamFrames, this`nextSequence, this`incoming
      ensures State() == Arrive(old(State()), f)
    {
      var s := f.streamId;
      var queue := Insert(if s in streamFrames then streamFrames[s] else map[], f);
      var next := if s in nextSequence then nextSequence[s] else 0;
      var ordered;
      queue, next, ordered := DrainLoop(queue, next);
      DrainAppends(Insert(QueueOf(State(), s), f), NextOf(State(), s), received + incoming);
      assert received + (incoming + ordered) == received + incoming + ordered;
      incoming := incoming + ordered;
      streamFrames, nextSequence := streamFrames[s := queue], nextSequence[s := next];
    }

    method HasOutgoingFrames() returns (some: bool)
      ensures some <==> outgoing != []
    {
      some := outgoing != [];
    }

    /** The source pops without checking; see `EndToEnd.WriterNeverPopsEmpty` for why that is safe. */
    method GetNextOutgoingFrame() returns (f: Frame)
      requires outgoing != []
      modifies this`outgoing
      ensures [f] + outgoing == old(outgoing)
    {
      f, outgoing := outgoing[0], outgoing[1..];
    }
  }

  // ---------- responses ----------

  /** Response `i` to a request: its number is `request.sequence * 5 + i` in 32-bit arithmetic. */
  function Response(request: Frame, i: nat): Frame {
    Make(request.streamId, Wrap(request.sequence as int * FAN_OUT + i), Body())
  }

  function Responses(request: Frame): (r: seq<Frame>)
    ensures |r| == FAN_OUT && forall i | 0 <= i < FAN_OUT :: r[i] == Response(request, i)
  {
    seq(FAN_OUT, i requires 0 <= i < FAN_OUT => Response(request, i))
  }

  /** Five responses on the request's stream, numbered upwards from five times its number, each 4096 times 'A'. */
  predicate Answers(request: Frame, responses: seq<Frame>) {
    && |responses| == 5
    && responses[0].sequence == Wrap(5 * request.sequence as int)
    && (forall i | 0 <= i < 4 :: responses[i + 1].sequence == Plus(responses[i].sequence, 1))
    && (forall r | r in responses :: r.streamId == request.streamId && IsBody(r.payload) && WellFormed(r))
  }

  predicate IsBody(payload: Bytes) {
    |payload| == 4096 && forall b | b in payload :: b == 0x41
  }

  lemma BodyIs()
    ensures IsBody(Body())
  {}

  lemma ResponsesAnswer(request: Frame)
    ensures Answers(request, Responses(request))
  {
    var q := request.sequence as int * FAN_OUT;
    BodyIs();
    WrapWord(4096);
    WrapWord(1);
    forall i | 0 <= i < 4
      ensures Responses(request)[i + 1].sequence == Plus(Responses(request)[i].sequence, 1)
    {
      PlusWraps(q + i, 1);
    }
  }

  method HandleFrame(request: Frame, manager: StreamManager)
    modifies manager`outgoing
    ensures manager.outgoing == old(manager.outgoing) + Responses(request)
    ensures Answers(request, manager.outgoing[|old(manager.outgoing)|..])
  {
    ResponsesAnswer(request);
    for i := 0 to FAN_OUT
      invariant manager.outgoing == old(manager.outgoing) + Responses(request)[..i]
    {
      var response := Make(request.streamId, Wrap(request.sequence as int * FAN_OUT + i), Body());
      manager.SendFrame(response);
    }
  }

  /** The responses to a list of requests, five for each, in order. */
  function ResponsesAll(requests: seq<Frame>): (r: seq<Frame>)
    ensures |r| == FAN_OUT * |requests|
    ensures forall j | 0 <= j < |r| :: r[j] == Response(requests[j / FAN_OUT], j % FAN_OUT)
  {
    seq(FAN_OUT * |requests|, j requires 0 <= j < FAN_OUT * |requests| => Response(requests[j / FAN_OUT], j % FAN_OUT))
  }

  /** In the list of all responses, each request has its five in its place. */
  lemma ResponsesInPlace(requests: seq<Frame>, m: nat)
    requires m < |requests|
    ensures |ResponsesAll(requests)| == 5 * |requests|
    ensures Answers(requests[m], ResponsesAll(requests)[5 * m..5 * m + 5])
  {
    ResponsesAnswer(requests[m]);
    forall i | 0 <= i < 5
      ensures ResponsesAll(requests)[5 * m + i] == Response(requests[m], i)
    {
      assert (5 * m + i) / FAN_OUT == m && (5 * m + i) % FAN_OUT == i;
    }
    assert ResponsesAll(requests)[5 * m..5 * m + 5] == Responses(requests[m]);
  }

  lemma ResponsesLast(requests: seq<Frame>, q: Frame)
    ensures ResponsesAll(requests + [q]) == ResponsesAll(requests) + Responses(q)
  {
    var n := FAN_OUT * |requests|;
    forall i | 0 <= i < FAN_OUT
      ensures ResponsesAll(requests + [q])[n + i] == Response(q, i)
    {
      assert (n + i) / FAN_OUT == |requests| && (n + i) % FAN_OUT == i;
    }
  }

  lemma {:induction false} ResponsesOnStream(requests: seq<Frame>, s: Word)
    ensures OnStream(ResponsesAll(requests), s) == ResponsesAll(OnStream(requests, s))
  {
    if requests != [] {
      var init, q := requests[..|requests| - 1], requests[|requests| - 1];
      ResponsesOnStream(init, s);
      assert requests == init + [q];
      ResponsesNext(init, q, s);
    }
  }

  lemma ResponsesNext(init: seq<Frame>, q: Frame, s: Word)
    requires OnStream(ResponsesAll(init), s) == ResponsesAll(OnStream(init, s))
    ensures OnStream(ResponsesAll(init + [q]), s) == ResponsesAll(OnStream(init + [q], s))
  {
    ResponsesLast(init, q);
    PickAppend(OfStream(s), ResponsesAll(init), Responses(q));
    OnStreamSame(Responses(q), s, q.streamId);
    ResponsesLast(OnStream(init, s), q);
    PickOne(OfStream(s), init, q);
  }

  predicate HasNumber(fs: seq<Frame>, k: Word) {
    exists f :: f in fs && f.sequence == k
  }

  /** The requests carry each of the numbers 0..n-1 exactly once, in any order. */
  predicate Numbered(requests: seq<Frame>, n: nat) {
    && Distinct(requests)
    && (forall f | f in requests :: f.sequence < n)
    && (forall k: Word | k < n :: HasNumber(requests, k))
  }

  /** Requests numbered 0..n-1, in any order, are answered with 0..5n-1, each once. */
  lemma ResponseNumbering(requests: seq<Frame>, n: nat)
    requires Numbered(requests, n) && 5 * n <= WORD
    ensures Numbered(ResponsesAll(requests), 5 * n)
  {
    ResponsesDistinct(requests, n);
    ResponsesInRange(requests, n);
    forall k: Word | k < FAN_OUT * n
      ensures HasNumber(ResponsesAll(requests), k)
    {
      ResponseFound(requests, n, k);
    }
  }

  lemma ResponsesInRange(requests: seq<Frame>, n: nat)
    requires (forall f | f in requests :: f.sequence < n) && FAN_OUT * n <= WORD
    ensures forall r | r in ResponsesAll(requests) :: r.sequence < FAN_OUT * n
  {
    var rs := ResponsesAll(requests);
    forall j | 0 <= j < |rs|
      ensures rs[j].sequence < FAN_OUT * n
    {
      NumberFits(requests[j / FAN_OUT].sequence, j % FAN_OUT, n);
    }
  }

  lemma ResponseFound(requests: seq<Frame>, n: nat, k: Word)
    requires Numbered(requests, n) && k < FAN_OUT * n <= WORD
    ensures HasNumber(ResponsesAll(requests), k)
  {
    assert HasNumber(requests, k / FAN_OUT);
    var q :| q in requests && q.sequence == k / FAN_OUT;
    var i :| 0 <= i < |requests| && requests[i] == q;
    var j := FAN_OUT * i + k % FAN_OUT;
    assert j / FAN_OUT == i && j % FAN_OUT == k % FAN_OUT;
    NumberFits(q.sequence, k % FAN_OUT, n);
    assert ResponsesAll(requests)[j] in ResponsesAll(requests);
  }

  lemma NumberFits(q: Word, i: nat, n: nat)
    requires q < n && i < FAN_OUT && FAN_OUT * n <= WORD
    ensures Wrap(q as int * FAN_OUT + i) == q as int * FAN_OUT + i < FAN_OUT * n
  {
    assert q as int * FAN_OUT + i < FAN_OUT * n;
  }

  lemma ResponsesDistinct(requests: seq<Frame>, n: nat)
    requires Distinct(requests) && (forall f | f in requests :: f.sequence < n) && FAN_OUT * n <= WORD
    ensures Distinct(ResponsesAll(requests))
  {
    var rs := ResponsesAll(requests);
    forall j, k | 0 <= j < k < |rs|
      ensures rs[j].sequence != rs[k].sequence
    {
      var a, b := requests[j / FAN_OUT], requests[k / FAN_OUT];
      NumberFits(a.sequence, j % FAN_OUT, n);
      NumberFits(b.sequence, k % FAN_OUT, n);
      if a.sequence == b.sequence {
        assert j / FAN_OUT == k / FAN_OUT;
      }
    }
  }

  /** The bound is exact: numbers stay distinct if and only if all 5n of them fit in 32 bits. */
  lemma ResponsesDistinctExactly(requests: seq<Frame>, n: nat)
    requires Numbered(requests, n) && n <= WORD
    ensures Distinct(ResponsesAll(requests)) <==> 5 * n <= WORD
  {
    if FAN_OUT * n <= WORD {
      ResponsesDistinct(requests, n);
    } else {
      // 858993459 * 5 + 1 wraps to 0, the number of the first response to request 0.
      var last: Word := 858993459;
      assert HasNumber(requests, 0) && HasNumber(requests, last);
      var a :| a in requests && a.sequence == 0;
      var b :| b in requests && b.sequence == last;
      var i :| 0 <= i < |requests| && requests[i] == a;
      var j :| 0 <= j < |requests| && requests[j] == b;
      var rs := ResponsesAll(requests);
      var x, y := FAN_OUT * i, FAN_OUT * j + 1;
      assert x / FAN_OUT == i && x % FAN_OUT == 0 && y / FAN_OUT == j && y % FAN_OUT == 1;
      assert rs[x].sequence == 0 == rs[y].sequence;
    }
  }
}
