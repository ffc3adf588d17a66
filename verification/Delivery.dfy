/** What every run of `EndToEnd` delivers. */
module Delivery {
  import opened Words
  import opened Frames
  import opened Picking
  import opened Parser
  import opened Links
  import opened Reorder
  import opened StreamManager
  import opened EndToEnd

  // ---------- lists of frames ----------

  lemma OnStreamPrefix(a: seq<Frame>, b: seq<Frame>, s: Word)
    requires a <= b
    ensures OnStream(a, s) <= OnStream(b, s)
  {
    assert b == a + b[|a|..];
    PickAppend(OfStream(s), a, b[|a|..]);
  }

  lemma {:induction false} OnStreamStamp(checks: bool, fs: seq<Frame>, s: Word)
    ensures OnStream(StampAll(checks, fs), s) == StampAll(checks, OnStream(fs, s))
  {
    if fs != [] {
      var init, f := fs[..|fs| - 1], fs[|fs| - 1];
      OnStreamStamp(checks, init, s);
      assert StampAll(checks, fs) == StampAll(checks, init) + [Stamp(checks, f)];
      PickOne(OfStream(s), StampAll(checks, init), Stamp(checks, f));
      StampLast(checks, OnStream(init, s), f);
    }
  }

  lemma StampLast(checks: bool, fs: seq<Frame>, f: Frame)
    ensures StampAll(checks, fs + [f]) == StampAll(checks, fs) + [Stamp(checks, f)]
  {}

  lemma {:induction false} CountOnStream(fs: seq<Frame>, f: Frame)
    ensures Count(OnStream(fs, f.streamId), f) == Count(fs, f)
  {
    if fs != [] {
      var init, last := fs[..|fs| - 1], fs[|fs| - 1];
      CountOnStream(init, f);
      if last.streamId == f.streamId {
        CountLast(OnStream(init, f.streamId), last, f);
      } else {
        assert OnStream(fs, f.streamId) == OnStream(init, f.streamId);
      }
    }
  }

  lemma {:induction false} DistinctCount(fs: seq<Frame>, f: Frame)
    requires Distinct(fs)
    ensures Count(fs, f) <= 1
  {
    if fs != [] {
      DistinctCount(fs[..|fs| - 1], f);
      CountMember(fs[..|fs| - 1], f);
    }
  }

  lemma {:induction false} RepeatCount(fs: seq<Frame>, i: nat, j: nat)
    requires i < j < |fs| && fs[i] == fs[j]
    ensures Count(fs, fs[i]) >= 2
  {
    if j < |fs| - 1 {
      RepeatCount(fs[..|fs| - 1], i, j);
    } else {
      CountMember(fs[..|fs| - 1], fs[i]);
      assert fs[..|fs| - 1][i] == fs[i];
    }
  }

  lemma {:induction false} ValidDistinct(checks: bool, fs: seq<Frame>)
    requires Distinct(fs)
    ensures Distinct(Valid(checks, fs))
    ensures forall f | f in Valid(checks, fs) :: f in fs
  {
    if fs != [] {
      var init, f := fs[..|fs| - 1], fs[|fs| - 1];
      ValidDistinct(checks, init);
      assert forall g | g in init :: g.sequence != f.sequence;
    }
  }

  /** Numbers below `n`, none twice. */
  predicate Below(fs: seq<Frame>, n: nat) {
    Distinct(fs) && forall f | f in fs :: f.sequence < n
  }

  lemma BelowPrefix(a: seq<Frame>, b: seq<Frame>, n: nat)
    requires a <= b && Below(b, n)
    ensures Below(a, n)
  {
    forall f | f in a
      ensures f in b
    {
      var i :| 0 <= i < |a| && a[i] == f;
      assert b[i] == f;
    }
    assert forall i | 0 <= i < |a| :: a[i] == b[i];
  }

  lemma BelowStamp(checks: bool, fs: seq<Frame>, n: nat)
    requires Below(fs, n)
    ensures Below(StampAll(checks, fs), n)
  {
    forall g | g in StampAll(checks, fs)
      ensures g.sequence < n
    {
      var i :| 0 <= i < |fs| && StampAll(checks, fs)[i] == g;
      assert fs[i] in fs;
    }
  }

  lemma BelowResponses(fs: seq<Frame>, n: nat)
    requires Below(fs, n) && FAN_OUT * n <= WORD
    ensures Below(ResponsesAll(fs), FAN_OUT * n)
  {
    ResponsesDistinct(fs, n);
    ResponsesInRange(fs, n);
  }

  lemma BelowValid(checks: bool, fs: seq<Frame>, n: nat)
    requires Below(fs, n)
    ensures Below(Valid(checks, fs), n)
  {
    ValidDistinct(checks, fs);
  }

  // ---------- numbers of the requests ----------

  lemma CallsDistinct(p: Sender, s: Word)
    requires SenderInv(p) && |OnStream(p.calls, s)| <= WORD
    ensures Numbered(OnStream(p.calls, s), |OnStream(p.calls, s)|)
  {
    var fs := OnStream(p.calls, s);
    assert Counted(p, s);
    forall i | 0 <= i < |fs|
      ensures fs[i].sequence == i
    {
      WrapWord(i);
    }
    forall k: Word | k < |fs|
      ensures HasNumber(fs, k)
    {
      assert fs[k] in fs;
    }
  }

  lemma EnqueuedCount(p: Sender, f: Frame)
    requires SenderInv(p)
    ensures Count(p.calls, f) == Holders(p.held, f) + Count(p.enqueued, f)
  {}

  /** The frames queued on a stream are numbered below the number of calls, none twice. */
  lemma EnqueuedBelow(p: Sender, s: Word)
    requires SenderInv(p) && |OnStream(p.calls, s)| <= WORD
    ensures Below(OnStream(p.enqueued, s), |OnStream(p.calls, s)|)
  {
    var cs, es := OnStream(p.calls, s), OnStream(p.enqueued, s);
    CallsDistinct(p, s);
    forall f | f in es
      ensures f in cs
    {
      EnqueuedWasCalled(p, s, f);
    }
    forall i, j | 0 <= i < j < |es|
      ensures es[i].sequence != es[j].sequence
    {
      assert es[i] in es && es[j] in es;
      if es[i] == es[j] {
        RepeatCount(es, i, j);
        EnqueuedOnce(p, s, es[i]);
      }
    }
  }

  lemma EnqueuedOnce(p: Sender, s: Word, f: Frame)
    requires SenderInv(p) && |OnStream(p.calls, s)| <= WORD && f in OnStream(p.enqueued, s)
    ensures Count(OnStream(p.enqueued, s), f) <= 1
  {
    PickedMatch(OfStream(s), p.enqueued);
    CountOnStream(p.enqueued, f);
    CountOnStream(p.calls, f);
    EnqueuedCount(p, f);
    CallsDistinct(p, s);
    DistinctCount(OnStream(p.calls, s), f);
  }

  lemma EnqueuedWasCalled(p: Sender, s: Word, f: Frame)
    requires SenderInv(p) && f in OnStream(p.enqueued, s)
    ensures f in OnStream(p.calls, s)
  {
    PickedMatch(OfStream(s), p.enqueued);
    PickedMatch(OfStream(s), p.calls);
    CountMember(p.enqueued, f);
    CountMember(p.calls, f);
    EnqueuedCount(p, f);
  }

  /**
   In every state of every run: a stream's counter is the number of its calls; call number k carries
   number k and no other call on the stream does; and its frame is in exactly one place, which is one
   thread's hands between the two critical sections, the queue, the writer's hands, or the wire.
   */
  lemma SenderNumbering(c: Config, run: seq<State>, i: nat, s: Word, k: Word)
    requires IsRun(c, run) && i < |run| && k < |OnStream(run[i].sender.calls, s)| <= WORD
    ensures var p := run[i].sender;
      var f := OnStream(p.calls, s)[k];
      && p.Counter(s) == Wrap(|OnStream(p.calls, s)|)
      && f.sequence == k
      && (forall g | g in p.calls && g.streamId == s && g.sequence == k :: g == f)
      && Holders(p.held, f) + Count(p.queue, f) + Count(Listed(p.writing), f) + Count(p.sent, f) == 1
  {
    SenderRunKeeps(c, run, i);
    var p := run[i].sender;
    NumberedOnce(p, s, k);
    CountAppend(p.sent, Listed(p.writing), OnStream(p.calls, s)[k]);
    CountAppend(p.sent + Listed(p.writing), p.queue, OnStream(p.calls, s)[k]);
  }

  lemma {:induction false} CountAppend(a: seq<Frame>, b: seq<Frame>, f: Frame)
    ensures Count(a + b, f) == Count(a, f) + Count(b, f)
  {
    if b == [] {
      assert a + b == a;
    } else {
      CountAppend(a, b[..|b| - 1], f);
      assert (a + b)[..|a + b| - 1] == a + b[..|b| - 1];
    }
  }

  lemma NumberedOnce(p: Sender, s: Word, k: Word)
    requires SenderInv(p) && k < |OnStream(p.calls, s)| <= WORD
    ensures var f := OnStream(p.calls, s)[k];
      && p.Counter(s) == Wrap(|OnStream(p.calls, s)|)
      && f.sequence == k
      && (forall g | g in p.calls && g.streamId == s && g.sequence == k :: g == f)
      && Holders(p.held, f) + Count(p.enqueued, f) == 1
  {
    var cs := OnStream(p.calls, s);
    var f := cs[k];
    CallsDistinct(p, s);
    assert Counted(p, s);
    WrapWord(k);
    PickedMatch(OfStream(s), p.calls);
    assert f in cs;
    CountOnStream(p.calls, f);
    CountMember(p.calls, f);
    DistinctCount(cs, f);
    EnqueuedCount(p, f);
    forall g | g in p.calls && g.streamId == s && g.sequence == k
      ensures g == f
    {
      assert g in cs;
    }
  }

  // ---------- numbers of the responses ----------

  /** Requests the server has started on. */
  function Started(p: Server): seq<Frame> {
    p.handled + Listed(p.current)
  }

  lemma StartedWereSent(c: Config, s: State)
    requires Inv(c, s) && Small(s.sender.calls)
    ensures Started(s.server) <= StampAll(c.clientChecks, s.sender.sent)
  {
    SentWellFormed(s.sender);
    if s.server.current.Some? {
      LinkErase(c.clientChecks, s.sender.sent, s.server.handled, s.server.buffer, s.up);
    }
  }

  lemma RepliesAnswerStarted(p: Server)
    requires ServerInv(p)
    ensures p.replies <= ResponsesAll(Started(p))
  {
    if p.current.Some? {
      ResponsesLast(p.handled, p.current.value);
    }
  }

  lemma StartedOnStream(c: Config, s: State, stream: Word)
    requires Inv(c, s) && Small(s.sender.calls)
    ensures OnStream(Started(s.server), stream) <= StampAll(c.clientChecks, OnStream(s.sender.sent, stream))
  {
    StartedWereSent(c, s);
    OnStreamPrefix(Started(s.server), StampAll(c.clientChecks, s.sender.sent), stream);
    OnStreamStamp(c.clientChecks, s.sender.sent, stream);
  }

  lemma RepliedOnStream(p: Server, stream: Word)
    requires ServerInv(p)
    ensures OnStream(p.replied, stream) <= ResponsesAll(OnStream(Started(p), stream))
  {
    RepliesAnswerStarted(p);
    assert p.replied <= p.replies;
    OnStreamPrefix(p.replied, ResponsesAll(Started(p)), stream);
    ResponsesOnStream(Started(p), stream);
  }

  lemma ReceivedOnStream(c: Config, s: State, stream: Word)
    requires Inv(c, s)
    ensures OnStream(s.reader.received, stream) <= StampAll(c.serverChecks, OnStream(s.server.replied, stream))
  {
    assert s.reader.received <= s.reader.received + s.reader.todo;
    OnStreamPrefix(s.reader.received, StampAll(c.serverChecks, s.server.replied), stream);
    OnStreamStamp(c.serverChecks, s.server.replied, stream);
  }

  lemma SentBelow(p: Sender, stream: Word)
    requires SenderInv(p) && |OnStream(p.calls, stream)| <= WORD
    ensures Below(OnStream(p.sent, stream), |OnStream(p.calls, stream)|)
  {
    EnqueuedBelow(p, stream);
    assert p.sent <= p.enqueued;
    OnStreamPrefix(p.sent, p.enqueued, stream);
    BelowPrefix(OnStream(p.sent, stream), OnStream(p.enqueued, stream), |OnStream(p.calls, stream)|);
  }

  /** Numbers on a stream carried from list to list: sent, started, replied, received. */
  lemma BelowChain(cc: bool, sc: bool, sent: seq<Frame>, started: seq<Frame>, replied: seq<Frame>, received: seq<Frame>, n: nat)
    requires Below(sent, n) && FAN_OUT * n <= WORD
    requires started <= StampAll(cc, sent) && replied <= ResponsesAll(started) && received <= StampAll(sc, replied)
    ensures Below(Valid(cc, received), FAN_OUT * n)
  {
    BelowStamp(cc, sent, n);
    BelowPrefix(started, StampAll(cc, sent), n);
    BelowResponses(started, n);
    BelowPrefix(replied, ResponsesAll(started), FAN_OUT * n);
    BelowStamp(sc, replied, FAN_OUT * n);
    BelowPrefix(received, StampAll(sc, replied), FAN_OUT * n);
    BelowValid(cc, received, FAN_OUT * n);
  }

  /** The frames the client's reader accepted on a stream. */
  function Accepted(c: Config, s: State, stream: Word): seq<Frame> {
    OnStream(Valid(c.clientChecks, s.reader.received), stream)
  }

  lemma AcceptedBelow(c: Config, s: State, stream: Word)
    requires Inv(c, s) && Small(s.sender.calls)
    requires FAN_OUT * |OnStream(s.sender.calls, stream)| <= WORD
    ensures Below(Accepted(c, s, stream), FAN_OUT * |OnStream(s.sender.calls, stream)|)
  {
    SentBelow(s.sender, stream);
    StartedOnStream(c, s, stream);
    RepliedOnStream(s.server, stream);
    ReceivedOnStream(c, s, stream);
    BelowChain(c.clientChecks, c.serverChecks, OnStream(s.sender.sent, stream), OnStream(Started(s.server), stream),
               OnStream(s.server.replied, stream), OnStream(s.reader.received, stream), |OnStream(s.sender.calls, stream)|);
    PickCommutes(OfStream(stream), Verified(c.clientChecks), s.reader.received);
  }

  lemma ReceivedBodies(c: Config, s: State)
    requires Inv(c, s)
    ensures forall f | f in s.reader.received :: f.payload == Body()
  {
    var received, replied := s.reader.received, s.server.replied;
    assert received <= received + s.reader.todo <= StampAll(c.serverChecks, replied);
    RepliesWellFormed(s.server);
    forall i | 0 <= i < |received|
      ensures received[i].payload == Body()
    {
      assert received[i] == StampAll(c.serverChecks, replied)[i];
      assert replied[i] in replied;
    }
  }

  lemma AcceptedBodies(c: Config, s: State, stream: Word)
    requires Inv(c, s)
    ensures forall f | f in Accepted(c, s, stream) :: f.payload == Body()
  {
    ReceivedBodies(c, s);
    PickedMatch(Verified(c.clientChecks), s.reader.received);
    PickedMatch(OfStream(stream), Valid(c.clientChecks, s.reader.received));
  }

  // ---------- main results ----------

  /** What the client's reader has delivered on a stream. */
  function Output(s: State, stream: Word): seq<Frame> {
    OnStream(s.reader.reorder.out, stream)
  }

  lemma OutputIsExpected(c: Config, s: State, stream: Word)
    requires Inv(c, s) && Small(s.sender.calls)
    requires FAN_OUT * |OnStream(s.sender.calls, stream)| <= WORD
    ensures Output(s, stream) == Delivered(Accepted(c, s, stream))
  {
    AcceptedBelow(c, s, stream);
    DistinctIsFresh(Accepted(c, s, stream));
    ReorderMeetsSpec(Valid(c.clientChecks, s.reader.received), stream);
  }

  /**
   In every state of every run, whatever the interleaving, the chunking and the checksum settings,
   the responses delivered on a stream are numbered 0, 1, 2, ... without gap or repeat, each carries
   the response body, and there are at most five per call.
   */
  lemma InOrderExactlyOnce(c: Config, run: seq<State>, i: nat, stream: Word)
    requires IsRun(c, run) && i < |run| && Small(run[i].sender.calls)
    requires 5 * |OnStream(run[i].sender.calls, stream)| <= WORD
    ensures var out := Output(run[i], stream);
      && |out| <= 5 * |OnStream(run[i].sender.calls, stream)|
      && forall k | 0 <= k < |out| :: out[k].sequence == k && IsBody(out[k].payload)
  {
    var accepted, out := Accepted(c, run[i], stream), Output(run[i], stream);
    RunKeeps(c, run, i);
    OutputIsExpected(c, run[i], stream);
    AcceptedBelow(c, run[i], stream);
    AcceptedBodies(c, run[i], stream);
    DeliveredNumbers(accepted);
    BodyIs();
    if out != [] {
      assert out[|out| - 1] in accepted;
    }
  }

  /**
   In every state of every run, what the server has queued for a request it is done with is its five
   answers, upwards from five times its number, in the request's place; and it is sent in that order.
   */
  lemma AnsweredInPlace(c: Config, run: seq<State>, i: nat, m: nat)
    requires IsRun(c, run) && i < |run| && Small(run[i].sender.calls) && m < |run[i].server.handled|
    ensures var p := run[i].server;
      && p.replies == p.replied + p.InHand() + p.queue && 5 * m + 5 <= |p.replies|
      && Answers(p.handled[m], p.replies[5 * m..5 * m + 5])
  {
    RunKeeps(c, run, i);
    HandledInPlace(run[i].server, m);
  }

  lemma HandledInPlace(p: Server, m: nat)
    requires ServerInv(p) && m < |p.handled|
    ensures 5 * m + 5 <= |p.replies| && Answers(p.handled[m], p.replies[5 * m..5 * m + 5])
  {
    ResponsesInPlace(p.handled, m);
    SlicePrefix(ResponsesAll(p.handled), p.Answered(), 5 * m, 5 * m + 5);
  }

  lemma SlicePrefix(a: seq<Frame>, b: seq<Frame>, from: nat, to: nat)
    requires from <= to <= |a|
    ensures (a + b)[from..to] == a[from..to]
  {}

  // ---------- drained streams ----------

  /** Nothing of the stream is in a thread's hands, in a queue, in a buffer or in flight. */
  predicate Quiet(s: State, stream: Word) {
    && (forall x | x in s.sender.held :: x.None? || x.value.streamId != stream)
    && OnStream(Listed(s.sender.writing) + s.sender.queue, stream) == []
    && OnStream(Parse(s.server.buffer + s.up), stream) == []
    && OnStream(s.server.InHand() + s.server.queue, stream) == []
    && OnStream(s.reader.todo + Parse(s.reader.buffer + s.down), stream) == []
  }

  lemma {:induction false} HolderHolds(held: seq<Option<Frame>>, f: Frame)
    ensures Holders(held, f) > 0 ==> Some(f) in held
  {
    if held != [] {
      HolderHolds(held[..|held| - 1], f);
    }
  }

  lemma QuietTail(a: seq<Frame>, b: seq<Frame>, c: seq<Frame>, stream: Word)
    requires OnStream(b + c, stream) == []
    ensures OnStream(a + b + c, stream) == OnStream(a, stream)
  {
    PickAppend(OfStream(stream), a, b + c);
    assert a + b + c == a + (b + c);
  }

  lemma QuietSender(p: Sender, stream: Word)
    requires SenderInv(p) && |OnStream(p.calls, stream)| <= WORD
    requires forall x | x in p.held :: x.None? || x.value.streamId != stream
    requires OnStream(Listed(p.writing) + p.queue, stream) == []
    ensures Numbered(OnStream(p.sent, stream), |OnStream(p.calls, stream)|)
  {
    var cs, es := OnStream(p.calls, stream), OnStream(p.enqueued, stream);
    QuietTail(p.sent, Listed(p.writing), p.queue, stream);
    EnqueuedBelow(p, stream);
    CallsDistinct(p, stream);
    forall f | f in cs
      ensures f in es
    {
      QuietEnqueued(p, stream, f);
    }
    SuperNumbered(cs, es, |cs|);
  }

  lemma SuperNumbered(cs: seq<Frame>, es: seq<Frame>, n: nat)
    requires Numbered(cs, n) && Below(es, n) && forall f | f in cs :: f in es
    ensures Numbered(es, n)
  {
    forall k: Word | k < n
      ensures HasNumber(es, k)
    {
      assert HasNumber(cs, k);
      var f :| f in cs && f.sequence == k;
      assert f in es;
    }
  }

  lemma QuietEnqueued(p: Sender, stream: Word, f: Frame)
    requires SenderInv(p) && f in OnStream(p.calls, stream)
    requires forall x | x in p.held :: x.None? || x.value.streamId != stream
    ensures f in OnStream(p.enqueued, stream)
  {
    PickedMatch(OfStream(stream), p.calls);
    PickedMatch(OfStream(stream), p.enqueued);
    CountMember(p.calls, f);
    CountMember(p.enqueued, f);
    EnqueuedCount(p, f);
    HolderHolds(p.held, f);
  }

  lemma QuietLink(checks: bool, written: seq<Frame>, taken: seq<Frame>, ahead: Bytes, stream: Word)
    requires AllWellFormed(written) && LinkInv(checks, written, taken, ahead)
    requires OnStream(Parse(ahead), stream) == []
    ensures OnStream(taken, stream) == StampAll(checks, OnStream(written, stream))
  {
    SerializedRead(checks, written);
    LinkRest(Parts(checks, written), StampAll(checks, written), |taken|, ahead);
    assert StampAll(checks, written) == taken + Parse(ahead);
    PickAppend(OfStream(stream), taken, Parse(ahead));
    OnStreamStamp(checks, written, stream);
  }

  lemma QuietServer(p: Server, wire: Bytes, stream: Word)
    requires ServerInv(p)
    requires OnStream(Parse(p.buffer + wire), stream) == [] && OnStream(p.InHand() + p.queue, stream) == []
    ensures OnStream(p.replied, stream) == ResponsesAll(OnStream(p.handled, stream))
  {
    QuietTail(p.replied, p.InHand(), p.queue, stream);
    QuietAnswered(p, wire, stream);
    PickAppend(OfStream(stream), ResponsesAll(p.handled), p.Answered());
    ResponsesOnStream(p.handled, stream);
  }

  lemma QuietAnswered(p: Server, wire: Bytes, stream: Word)
    requires ServerInv(p) && OnStream(Parse(p.buffer + wire), stream) == []
    ensures OnStream(p.Answered(), stream) == []
  {
    if p.current.Some? {
      CurrentElsewhere(p, wire, stream);
      OnStreamSame(p.Answered(), stream, p.current.value.streamId);
    }
  }

  lemma CurrentElsewhere(p: Server, wire: Bytes, stream: Word)
    requires ServerInv(p) && p.current.Some? && OnStream(Parse(p.buffer + wire), stream) == []
    ensures p.current.value.streamId != stream
  {
    CompleteExtends(p.buffer, wire);
    assert p.current.value in Parse(p.buffer + wire);
    PickedMatch(OfStream(stream), Parse(p.buffer + wire));
  }

  lemma {:induction false} ValidAll(cc: bool, sc: bool, fs: seq<Frame>)
    requires cc ==> sc
    ensures Valid(cc, StampAll(sc, fs)) == StampAll(sc, fs)
  {
    if fs != [] {
      var init, f := fs[..|fs| - 1], fs[|fs| - 1];
      ValidAll(cc, sc, init);
      StampLast(sc, init, f);
      assert fs == init + [f];
      PickOne(Verified(cc), StampAll(sc, init), Stamp(sc, f));
    }
  }

  lemma NumberedStamp(checks: bool, fs: seq<Frame>, n: nat)
    requires Numbered(fs, n)
    ensures Numbered(StampAll(checks, fs), n)
  {
    BelowStamp(checks, fs, n);
    forall k: Word | k < n
      ensures HasNumber(StampAll(checks, fs), k)
    {
      assert HasNumber(fs, k);
      var f :| f in fs && f.sequence == k;
      var i :| 0 <= i < |fs| && fs[i] == f;
      assert StampAll(checks, fs)[i] in StampAll(checks, fs);
    }
  }

  lemma NumberedMissing(fs: seq<Frame>, n: nat)
    requires Numbered(fs, n) && n <= WORD
    ensures Missing(fs) == n
  {
    ArrivedFrames(fs);
    forall k: Word | k < n
      ensures k in Arrived(fs)
    {
      assert HasNumber(fs, k);
    }
    if n < WORD {
      assert n !in Arrived(fs);
    }
  }

  lemma NumberedChain(cc: bool, sc: bool, sent: seq<Frame>, n: nat)
    requires Numbered(sent, n) && FAN_OUT * n <= WORD && (cc ==> sc)
    ensures var received := StampAll(sc, ResponsesAll(StampAll(cc, sent)));
      Valid(cc, received) == received && Missing(received) == FAN_OUT * n
  {
    NumberedStamp(cc, sent, n);
    ResponseNumbering(StampAll(cc, sent), n);
    NumberedStamp(sc, ResponsesAll(StampAll(cc, sent)), FAN_OUT * n);
    ValidAll(cc, sc, ResponsesAll(StampAll(cc, sent)));
    NumberedMissing(StampAll(sc, ResponsesAll(StampAll(cc, sent))), FAN_OUT * n);
  }

  lemma QuietHandled(c: Config, s: State, stream: Word)
    requires Inv(c, s) && Small(s.sender.calls) && Quiet(s, stream)
    ensures OnStream(s.server.handled, stream) == StampAll(c.clientChecks, OnStream(s.sender.sent, stream))
  {
    SentWellFormed(s.sender);
    QuietLink(c.clientChecks, s.sender.sent, s.server.handled, s.server.buffer + s.up, stream);
  }

  lemma QuietTaken(checks: bool, replied: seq<Frame>, p: Reader, down: Bytes, stream: Word)
    requires AllWellFormed(replied) && LinkInv(checks, replied, p.received + p.todo, p.buffer + down)
    requires OnStream(p.todo + Parse(p.buffer + down), stream) == []
    ensures OnStream(p.received, stream) == StampAll(checks, OnStream(replied, stream))
  {
    PickAppend(OfStream(stream), p.todo, Parse(p.buffer + down));
    PickAppend(OfStream(stream), p.received, p.todo);
    QuietLink(checks, replied, p.received + p.todo, p.buffer + down, stream);
  }

  lemma QuietReceived(c: Config, s: State, stream: Word)
    requires Inv(c, s) && Small(s.sender.calls) && Quiet(s, stream)
    ensures OnStream(s.reader.received, stream)
      == StampAll(c.serverChecks, ResponsesAll(StampAll(c.clientChecks, OnStream(s.sender.sent, stream))))
  {
    QuietHandled(c, s, stream);
    QuietServer(s.server, s.up, stream);
    RepliesWellFormed(s.server);
    QuietTaken(c.serverChecks, s.server.replied, s.reader, s.down, stream);
  }

  lemma QuietDelivered(c: Config, run: seq<State>, i: nat, stream: Word)
    requires IsRun(c, run) && i < |run| && Small(run[i].sender.calls)
    requires 5 * |OnStream(run[i].sender.calls, stream)| <= WORD
    requires c.clientChecks ==> c.serverChecks
    requires Quiet(run[i], stream)
    ensures |Output(run[i], stream)| == FAN_OUT * |OnStream(run[i].sender.calls, stream)|
  {
    var s := run[i];
    RunKeeps(c, run, i);
    QuietSender(s.sender, stream);
    QuietReceived(c, s, stream);
    NumberedChain(c.clientChecks, c.serverChecks, OnStream(s.sender.sent, stream), |OnStream(s.sender.calls, stream)|);
    PickCommutes(OfStream(stream), Verified(c.clientChecks), s.reader.received);
    OutputIsExpected(c, s, stream);
  }

  // ---------- a client that checks, a server that does not ----------

  /** A client that checks accepts an unchecked server's frame only if its true sum wraps to zero. */
  lemma UncheckedServer(f: Frame)
    ensures Verify(true, Stamp(false, f)) <==> Wrap(TrueSum(f)) == 0
  {
    ChecksumIsTrueSum(Stamp(false, f));
  }

  /** Unchecked frames that differ only in their number do not both verify. */
  lemma OneVerifies(f: Frame, g: Frame)
    requires f.checksum == g.checksum && f.length == g.length && f.streamId == g.streamId && f.payload == g.payload
    requires Verify(true, f) && Verify(true, g)
    ensures f.sequence == g.sequence
  {
    ChecksumIsTrueSum(f);
    ChecksumIsTrueSum(g);
    if f.sequence != g.sequence {
      WrapApart(TrueSum(f), TrueSum(g));
    }
  }

  lemma ReceivedAlike(c: Config, s: State)
    requires Inv(c, s) && !c.serverChecks
    ensures forall f | f in s.reader.received :: f.length == |Body()| && f.checksum == 0
  {
    var received, replied := s.reader.received, s.server.replied;
    assert received <= received + s.reader.todo <= StampAll(c.serverChecks, replied);
    RepliesWellFormed(s.server);
    forall i | 0 <= i < |received|
      ensures received[i].length == |Body()| && received[i].checksum == 0
    {
      assert received[i] == StampAll(c.serverChecks, replied)[i];
      assert replied[i] in replied;
    }
  }

  lemma AcceptedAlike(c: Config, s: State, stream: Word, f: Frame)
    requires Inv(c, s) && c.clientChecks && !c.serverChecks && f in Accepted(c, s, stream)
    ensures f.streamId == stream && f.payload == Body() && f.length == |Body()| && f.checksum == 0 && Verify(true, f)
  {
    AcceptedBodies(c, s, stream);
    ReceivedAlike(c, s);
    PickedMatch(Verified(c.clientChecks), s.reader.received);
    PickedMatch(OfStream(stream), Valid(c.clientChecks, s.reader.received));
  }

  /** In that configuration no state of any run has more than one response delivered on a stream. */
  lemma UncheckedDelivery(c: Config, run: seq<State>, i: nat, stream: Word)
    requires IsRun(c, run) && i < |run| && Small(run[i].sender.calls)
    requires 5 * |OnStream(run[i].sender.calls, stream)| <= WORD
    requires c.clientChecks && !c.serverChecks
    ensures |Output(run[i], stream)| <= 1
  {
    RunKeeps(c, run, i);
    OutputIsExpected(c, run[i], stream);
    var out := Delivered(Accepted(c, run[i], stream));
    DeliveredNumbers(Accepted(c, run[i], stream));
    if |out| > 1 {
      AcceptedAlike(c, run[i], stream, out[0]);
      AcceptedAlike(c, run[i], stream, out[1]);
      OneVerifies(out[0], out[1]);
      assert false;
    }
  }

  /**
   Once everything of a stream has drained, all five responses to each of its calls were delivered if
   and only if there were none or the client does not check sums the server does not compute.
   */
  lemma AllDelivered(c: Config, run: seq<State>, i: nat, stream: Word)
    requires IsRun(c, run) && i < |run| && Small(run[i].sender.calls)
    requires 5 * |OnStream(run[i].sender.calls, stream)| <= WORD
    requires Quiet(run[i], stream)
    ensures var n := |OnStream(run[i].sender.calls, stream)|;
      |Output(run[i], stream)| == 5 * n <==> n == 0 || (c.clientChecks ==> c.serverChecks)
  {
    if c.clientChecks ==> c.serverChecks {
      QuietDelivered(c, run, i, stream);
    } else {
      UncheckedDelivery(c, run, i, stream);
      InOrderExactlyOnce(c, run, i, stream);
    }
  }
}
