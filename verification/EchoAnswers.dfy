/** What the RPC client's callers get from the echo server: their own answers, and at rest all of them. */
module EchoAnswers {
  import opened Words
  import opened Frames
  import opened Parser
  import opened Links
  import opened Writers
  import opened Correlation
  import opened Echo

  // ---------- callers and what was written for them ----------

  /** The call has reached the write. */
  predicate Started(c: Call) {
    !c.phase.Drawn? && !c.phase.Registered?
  }

  ghost predicate StartedRequest(calls: seq<Call>, f: Frame) {
    exists m | 0 <= m < |calls| :: Started(calls[m]) && f == Request(calls[m])
  }

  ghost predicate WholeStarted(calls: seq<Call>, whole: seq<Frame>) {
    forall f | f in whole :: StartedRequest(calls, f)
  }

  /** The lock is held for a call that is writing its own request. */
  predicate HolderInv(calls: seq<Call>, l: Line) {
    l.holder.Some? ==>
      var h := l.holder.value;
      && h.call < |calls| && calls[h.call].phase.Writing? && h.frame == Request(calls[h.call])
      && h.data != [] && h.sent <= |h.data| && (h.sent == |h.data| ==> h.frame in l.whole)
  }

  predicate WaitingWritten(calls: seq<Call>, whole: seq<Frame>) {
    forall k | 0 <= k < |calls| && calls[k].phase.Waiting? :: Request(calls[k]) in whole
  }

  /** Nothing with the call's id was received before it registered. */
  predicate NoneEarly(received: seq<Frame>, c: Call) {
    c.since <= |received| && (IsRegistered(c) ==> forall j | 0 <= j < c.since :: received[j].streamId != c.id)
  }

  /** The line is not garbled, or the call's request was written before it was. */
  predicate Trusted(l: Line, c: Call) {
    !l.garbled || Request(c) in l.intact
  }

  ghost predicate Life(t: Table, l: Line) {
    && WholeStarted(t.calls, l.whole) && HolderInv(t.calls, l) && WaitingWritten(t.calls, l.whole)
    && l.intact <= l.whole && (!l.garbled ==> l.intact == l.whole)
    && forall k | 0 <= k < |t.calls| :: Trusted(l, t.calls[k]) ==> NoneEarly(t.received, t.calls[k])
  }

  predicate Onward(c: Call, c': Call) {
    Request(c') == Request(c) && (Started(c) ==> Started(c'))
  }

  lemma WholeKept(calls: seq<Call>, calls': seq<Call>, whole: seq<Frame>)
    requires WholeStarted(calls, whole) && |calls| <= |calls'|
    requires forall m | 0 <= m < |calls| :: Onward(calls[m], calls'[m])
    ensures WholeStarted(calls', whole)
  {
    forall f | f in whole
      ensures StartedRequest(calls', f)
    {
      assert StartedRequest(calls, f);
      var m :| 0 <= m < |calls| && Started(calls[m]) && f == Request(calls[m]);
      assert Onward(calls[m], calls'[m]);
    }
  }

  /** A received frame answers a call that had started. */
  lemma ReceivedStarted(c: Config, t: Table, l: Line, f: Frame, k: nat)
    requires WholeStarted(t.calls, l.whole) && t.received <= Echoes(c, l.whole) && f in t.received
    requires Ids(t) && k < |t.calls| <= WORD && !Started(t.calls[k])
    ensures f.streamId != t.calls[k].id
  {
    var j :| 0 <= j < |t.received| && t.received[j] == f;
    assert f == Echoes(c, l.whole)[j];
    var q := l.whole[j];
    assert q in l.whole && StartedRequest(t.calls, q);
    var m :| 0 <= m < |t.calls| && Started(t.calls[m]) && q == Request(t.calls[m]);
    if f.streamId == t.calls[k].id {
      IdsApart(t, m, k);
    }
  }

  /** A call whose request was written has started. */
  lemma WrittenStarted(t: Table, l: Line, k: nat)
    requires WholeStarted(t.calls, l.whole) && l.intact <= l.whole
    requires Ids(t) && k < |t.calls| <= WORD
    ensures Request(t.calls[k]) in l.intact ==> Started(t.calls[k])
  {
    var q := Request(t.calls[k]);
    if q in l.intact {
      assert q in l.whole && StartedRequest(t.calls, q);
      var m :| 0 <= m < |t.calls| && Started(t.calls[m]) && q == Request(t.calls[m]);
      IdsApart(t, m, k);
    }
  }

  lemma RegisterLife(c: Config, t: Table, l: Line, i: nat)
    requires Life(t, l) && t.At(i, Drawn) && (!l.garbled ==> t.received <= Echoes(c, l.whole)) && Ids(t) && |t.calls| <= WORD
    ensures Life(t.Register(i), l)
  {
    var t' := t.Register(i);
    WholeKept(t.calls, t'.calls, l.whole);
    WrittenStarted(t, l, i);
    if !l.garbled {
      forall j | 0 <= j < |t.received|
        ensures t.received[j].streamId != t.calls[i].id
      {
        ReceivedStarted(c, t, l, t.received[j], i);
      }
    }
  }

  lemma MoveLife(t: Table, l: Line, i: nat, phase: Phase)
    requires Life(t, l) && i < |t.calls| && IsRegistered(t.calls[i])
    requires !phase.Drawn? && !phase.Registered?
    requires phase.Waiting? ==> Request(t.calls[i]) in l.whole
    requires l.holder.Some? && l.holder.value.call == i ==> phase.Writing?
    ensures Life(t.Move(i, phase), l)
  {
    WholeKept(t.calls, t.Move(i, phase).calls, l.whole);
  }

  lemma DrawLife(t: Table, l: Line, payload: Bytes)
    requires Life(t, l)
    ensures Life(t.Draw(payload), l)
  {
    WholeKept(t.calls, t.Draw(payload).calls, l.whole);
  }

  lemma DispatchLife(t: Table, l: Line, f: Frame)
    requires Life(t, l)
    ensures Life(t.Dispatch(f), l)
  {
    WholeKept(t.calls, t.Dispatch(f).calls, l.whole);
  }

  lemma AcceptLife(t: Table, l: Line, n: nat)
    requires Life(t, l) && l.CanSend() && 0 < n <= |l.holder.value.data| - l.holder.value.sent
    ensures Life(t, l.Accept(n))
  {
    var l' := l.Accept(n);
    var h := l.holder.value;
    assert Started(t.calls[h.call]) && h.frame == Request(t.calls[h.call]);
    assert StartedRequest(t.calls, h.frame);
  }

  // ---------- every run ----------

  /** Life holds as long as ids are distinct. */
  ghost predicate Lives(s: State) {
    |s.table.calls| <= WORD ==> Life(s.table, s.line)
  }

  lemma CallerLives(c: Config, s: State, t: TableStep)
    requires Inv(c, s) && Small(s.table) && |s.table.calls| <= WORD
    requires Life(s.table, s.line) && IsCallerStep(t) && TableEnabled(s.table, t)
    ensures Life(TableTake(s.table, t), s.line)
  {
    match t
    case Draw(payload) => DrawLife(s.table, s.line, payload);
    case Register(i) =>
      if !s.line.garbled {
        EchoesOf(c, s);
      }
      RegisterLife(c, s.table, s.line, i);
    case EraseFailed(i) => GiveUpLife(s.table, s.line, i);
    case TimeOut(i) => MoveLife(s.table, s.line, i, TimedOut);
    case EraseTimedOut(i) => GiveUpLife(s.table, s.line, i);
    case Finish(i) => MoveLife(s.table, s.line, i, Returned(Some(s.table.calls[i].promise[0])));
  }

  lemma GiveUpLife(t: Table, l: Line, i: nat)
    requires Life(t, l) && i < |t.calls| && Started(t.calls[i]) && !t.calls[i].phase.Writing?
    ensures Life(t.GiveUp(i), l)
  {
    MoveLife(t, l, i, Returned(None));
  }

  lemma LockLife(c: Config, t: Table, l: Line, i: nat, data: Bytes)
    requires Life(t, l) && l.holder.None? && t.At(i, Registered) && data != []
    ensures Life(t.Move(i, Writing), l.Take(i, Request(t.calls[i]), data))
  {
    MoveLife(t, l, i, Writing);
  }

  lemma ReleaseLife(t: Table, l: Line, phase: Phase)
    requires Life(t, l) && l.holder.Some? && !phase.Drawn? && !phase.Registered?
    requires phase.Waiting? ==> l.holder.value.frame in l.whole
    ensures Life(t.Move(l.holder.value.call, phase), l.Release())
  {
    MoveLife(t, l.Release(), l.holder.value.call, phase);
  }

  lemma TakeLockLives(c: Config, s: State, i: nat)
    requires Enabled(s, TakeLock(i)) && Lives(s)
    ensures Lives(Take(c, s, TakeLock(i)))
  {
    if |s.table.calls| <= WORD {
      var data := Serialize(c.clientChecks, Request(s.table.calls[i]));
      assert |data| >= HEADER_SIZE;
      LockLife(c, s.table, s.line, i, data);
    }
  }

  lemma ReleaseLives(c: Config, s: State, step: Step)
    requires Enabled(s, step) && Lives(s) && (step.SendFails? || step.Unlock?)
    ensures Lives(Take(c, s, step))
  {
    if |s.table.calls| <= WORD {
      ReleaseLife(s.table, s.line, if step.SendFails? then WriteFailed else Waiting);
    }
  }

  lemma SendSomeLives(c: Config, s: State, n: nat)
    requires Enabled(s, SendSome(n)) && Lives(s)
    ensures Lives(Take(c, s, SendSome(n)))
  {
    if |s.table.calls| <= WORD {
      AcceptLife(s.table, s.line, n);
    }
  }

  lemma CallerStepLives(c: Config, s: State, t: TableStep)
    requires Inv(c, s) && Small(s.table) && Enabled(s, Caller(t)) && Lives(s)
    ensures Lives(Take(c, s, Caller(t)))
  {
    assert |TableTake(s.table, t).calls| >= |s.table.calls|;
    if |TableTake(s.table, t).calls| <= WORD {
      CallerLives(c, s, t);
    }
  }

  lemma DispatchLives(c: Config, s: State)
    requires Enabled(s, ClientDispatch) && Lives(s)
    ensures Lives(Take(c, s, ClientDispatch))
  {
    if |s.table.calls| <= WORD {
      DispatchLife(s.table, s.line, s.client.todo[0]);
    }
  }

  lemma OtherLives(c: Config, s: State, step: Step)
    requires Enabled(s, step) && Lives(s)
    requires step.ServerReceive? || step.ServerHandle? || step.ServerWriter? || step.ClientReceive? || step.Close? || step.ReaderExits?
    ensures Lives(Take(c, s, step))
  {}

  lemma ClearLives(c: Config, s: State)
    requires Enabled(s, ClearHandlers) && Lives(s)
    ensures Lives(Take(c, s, ClearHandlers))
  {}

  lemma LivesKept(c: Config, s: State, step: Step)
    requires Inv(c, s) && Small(s.table) && Enabled(s, step) && Lives(s)
    ensures Lives(Take(c, s, step))
  {
    match step
    case Caller(t) => CallerStepLives(c, s, t);
    case TakeLock(i) => TakeLockLives(c, s, i);
    case SendSome(n) => SendSomeLives(c, s, n);
    case SendFails => ReleaseLives(c, s, step);
    case Unlock => ReleaseLives(c, s, step);
    case ClientDispatch => DispatchLives(c, s);
    case ClearHandlers => ClearLives(c, s);
    case _ => OtherLives(c, s, step);
  }

  lemma LivesNext(c: Config, s: State, s': State)
    requires Inv(c, s) && Small(s.table) && Lives(s) && Next(c, s, s')
    ensures Lives(s')
  {
    var step :| Enabled(s, step) && s' == Take(c, s, step);
    LivesKept(c, s, step);
  }

  lemma {:induction false} RunLives(c: Config, run: seq<State>, i: nat)
    requires IsRun(c, run) && i < |run| && Small(run[i].table)
    ensures Inv(c, run[i]) && Lives(run[i])
  {
    RunKeeps(c, run, i);
    if i > 0 {
      SmallAt(c, run, i);
      RunLives(c, run, i - 1);
      LivesAt(c, run, i);
    }
  }

  lemma SmallAt(c: Config, run: seq<State>, i: nat)
    requires IsRun(c, run) && 0 < i < |run| && Small(run[i].table)
    ensures Small(run[i - 1].table)
  {
    assert Next(c, run[i - 1], run[i]);
    NextKeeps(c, run[i - 1], run[i]);
  }

  lemma LivesAt(c: Config, run: seq<State>, i: nat)
    requires IsRun(c, run) && 0 < i < |run| && Inv(c, run[i - 1]) && Small(run[i - 1].table) && Lives(run[i - 1])
    ensures Lives(run[i])
  {
    assert Next(c, run[i - 1], run[i]);
    LivesNext(c, run[i - 1], run[i]);
  }

  // ---------- at rest ----------

  /** Nothing in flight, nothing left to handle or send, and the server's writer still runs. */
  predicate Drained(s: State) {
    && s.up == [] && s.server.todo == [] && s.down == [] && s.client.todo == []
    && s.outbox.running && !s.outbox.CanBatch() && !s.outbox.CanSend() && !s.outbox.CanAdvance()
  }

  lemma DrainedUp(checks: bool, t: Table, l: Line, server: Intake)
    requires UpInv(checks, l, [], server) && LineKnown(t, l) && Small(t) && server.todo == []
    ensures StampAll(checks, l.intact) <= server.taken
    ensures !l.garbled ==> server.taken == StampAll(checks, l.whole)
  {
    assert server.read + [] == server.read;
    IntactFits(t, l);
    FirstFrames(checks, l.intact, l.wire);
    if !l.garbled {
      WholeFits(t, l);
      ParseSerialized(checks, l.whole, l.tail);
    }
  }

  lemma DrainedDown(checks: bool, handled: seq<Frame>, outbox: Outbox, client: Intake, received: seq<Frame>, n: nat)
    requires DownInv(checks, handled, outbox, [], client, received)
    requires outbox.wire == Concat(outbox.written) && client.todo == []
    requires n <= |handled| && AllWellFormed(Replies(handled[..n]))
    ensures StampAll(checks, Replies(handled[..n])) <= received
    ensures n == |handled| ==> received == StampAll(checks, Replies(handled))
  {
    assert client.read + [] == client.read;
    RepliesPrefix(checks, handled, n);
    FirstFrames(checks, Replies(handled[..n]), Concat(outbox.written));
    if n == |handled| {
      assert handled[..n] == handled;
      WholeParse(checks, Replies(handled));
    }
  }

  lemma DrainedState(c: Config, s: State)
    requires Inv(c, s) && Small(s.table) && Drained(s)
    ensures Echoes(c, s.line.intact) <= s.table.received
    ensures !s.line.garbled ==> s.table.received == Echoes(c, s.line.whole)
  {
    var intact, handled := StampAll(c.clientChecks, s.line.intact), s.server.taken;
    DrainedUp(c.clientChecks, s.table, s.line, s.server);
    IntactRepliesFit(c.clientChecks, s.table, s.line, intact);
    IdleSentAll(s.outbox);
    assert handled[..|intact|] == intact;
    DrainedDown(c.serverChecks, handled, s.outbox, s.client, s.table.received, |intact|);
  }

  /**
   Once everything has drained, the reader has received, in order and before anything else, the reply to
   every request written before the line was garbled; and if it was not, to every request written.
   */
  lemma DrainedReceived(c: Config, run: seq<State>, i: nat)
    requires IsRun(c, run) && i < |run| && Small(run[i].table) && Drained(run[i])
    ensures Echoes(c, run[i].line.intact) <= run[i].table.received
    ensures !run[i].line.garbled ==> run[i].table.received == Echoes(c, run[i].line.whole)
  {
    RunKeeps(c, run, i);
    DrainedState(c, run[i]);
  }

  // ---------- own answers ----------

  /** Where the answer is: no earlier frame since then has the id. */
  lemma {:induction false} AnswerPosition(received: seq<Frame>, since: nat, id: Word) returns (p: nat)
    requires Answer(received, since, id).Some?
    ensures since <= p < |received| && Answer(received, since, id) == Some(received[p])
    ensures received[p].streamId == id && forall j | since <= j < p :: received[j].streamId != id
  {
    var n := |received| - 1;
    var earlier := Answer(received[..n], since, id);
    if earlier.Some? {
      p := AnswerPosition(received[..n], since, id);
    } else {
      p := n;
      forall j | since <= j < n
        ensures received[j].streamId != id
      {
        if received[..n][j].streamId == id {
          AnswerFound(received[..n], since, id, j);
        }
      }
    }
  }

  lemma {:induction false} AnswerFound(received: seq<Frame>, since: nat, id: Word, j: nat)
    requires since <= j < |received| && received[j].streamId == id
    ensures Answer(received, since, id).Some?
    decreases |received|
  {
    if j < |received| - 1 {
      AnswerFound(received[..|received| - 1], since, id, j);
    }
  }

  /** The position of a trusted call's reply among the replies. */
  lemma ReplyPosition(c: Config, t: Table, l: Line, k: nat) returns (j: nat)
    requires k < |t.calls| && Request(t.calls[k]) in l.intact
    ensures j < |l.intact| && Echoes(c, l.intact)[j].streamId == t.calls[k].id
  {
    j :| 0 <= j < |l.intact| && l.intact[j] == Request(t.calls[k]);
  }

  lemma EchoesAgree(c: Config, l: Line, j: nat)
    requires l.intact <= l.whole && j < |l.intact|
    ensures Echoes(c, l.intact)[j] == Echoes(c, l.whole)[j]
  {}

  /** What a trusted call gets as its answer is the reply to its own request. */
  lemma OwnAnswer(c: Config, t: Table, l: Line, k: nat)
    requires Ids(t) && LineKnown(t, l) && Life(t, l) && k < |t.calls| <= WORD && Trusted(l, t.calls[k])
    requires Comparable(t.received, Echoes(c, l.intact)) && (!l.garbled ==> t.received <= Echoes(c, l.whole))
    requires Answer(t.received, t.calls[k].since, t.calls[k].id).Some?
    ensures Answer(t.received, t.calls[k].since, t.calls[k].id).value.payload == PREFIX + t.calls[k].payload
  {
    var call := t.calls[k];
    var p := AnswerPosition(t.received, call.since, call.id);
    if p < |l.intact| {
      EchoesAgree(c, l, p);
      EchoAt(c, t, l, p, k);
    } else if l.garbled {
      var j := ReplyPosition(c, t, l, k);
      assert t.received[j] == Echoes(c, l.intact)[j];
      WrittenStarted(t, l, k);
      assert false;
    }
  }

  /**
   In every state of every run, with the echo server: a call that returned true returned the fixed prefix
   and its own payload, whatever the other callers, the time-outs, the failed writes and disconnect did,
   provided its request was not written after a write had followed one cut off partway.
   */
  lemma EchoAnswersOwn(c: Config, run: seq<State>, i: nat, k: nat)
    requires IsRun(c, run) && i < |run| && Small(run[i].table)
    requires k < |run[i].table.calls| <= WORD && run[i].table.calls[k].phase.Returned?
    requires Trusted(run[i].line, run[i].table.calls[k])
    ensures var call := run[i].table.calls[k];
      call.phase.answer.Some? ==> call.phase.answer.value == PREFIX + call.payload
  {
    RunLives(c, run, i);
    ReceivedEchoes(c, run, i);
    var t := run[i].table;
    assert PromiseInv(t.received, t.calls[k]);
    if t.calls[k].phase.answer.Some? {
      OwnAnswer(c, t, run[i].line, k);
    }
  }

  /**
   No call is forgotten: unless disconnect dropped the handlers, once everything has drained every
   trusted call still waiting has its answer, which is the prefix and its own payload.
   */
  lemma NobodyLeftWaiting(c: Config, run: seq<State>, i: nat, k: nat)
    requires IsRun(c, run) && i < |run| && Small(run[i].table) && Drained(run[i])
    requires k < |run[i].table.calls| <= WORD && run[i].table.calls[k].phase.Waiting? && !run[i].table.cleared
    requires Trusted(run[i].line, run[i].table.calls[k])
    ensures run[i].table.CanFinish(k)
    ensures run[i].table.calls[k].promise == [PREFIX + run[i].table.calls[k].payload]
  {
    RunLives(c, run, i);
    ReceivedEchoes(c, run, i);
    DrainedReceived(c, run, i);
    AnswerArrived(c, run[i].table, run[i].line, k);
  }

  lemma AnswerArrived(c: Config, t: Table, l: Line, k: nat)
    requires TableInv(t) && LineKnown(t, l) && Life(t, l)
    requires k < |t.calls| <= WORD && t.calls[k].phase.Waiting? && !t.cleared && Trusted(l, t.calls[k])
    requires Echoes(c, l.intact) <= t.received && (!l.garbled ==> t.received <= Echoes(c, l.whole))
    ensures t.calls[k].promise == [PREFIX + t.calls[k].payload]
  {
    var call := t.calls[k];
    assert Request(call) in l.intact;
    var j := ReplyPosition(c, t, l, k);
    assert t.received[j] == Echoes(c, l.intact)[j];
    assert NoneEarly(t.received, call);
    AnswerFound(t.received, call.since, call.id, j);
    assert FiledInv(t, k) && PromiseInv(t.received, call);
    assert call.id in t.handlers ==> HandlerInv(t, call.id);
    OwnAnswer(c, t, l, k);
  }

  // ---------- exactly which answer ----------

  lemma {:induction false} AnswerAt(received: seq<Frame>, since: nat, id: Word, p: nat)
    requires since <= p < |received| && received[p].streamId == id
    requires forall j | since <= j < p :: received[j].streamId != id
    ensures Answer(received, since, id) == Some(received[p])
    decreases |received|
  {
    var n := |received| - 1;
    if p < n {
      AnswerAt(received[..n], since, id, p);
    } else if Answer(received[..n], since, id).Some? {
      var q := AnswerPosition(received[..n], since, id);
      assert false;
    }
  }

  /** The answer among the replies is the reply to the answer among the requests. */
  lemma AnswerOfReplies(checks: bool, requests: seq<Frame>, received: seq<Frame>, since: nat, id: Word)
    requires received <= StampAll(checks, Replies(requests)) && Answer(received, since, id).Some?
    ensures Answer(requests, since, id).Some?
    ensures Answer(received, since, id).value.payload == PREFIX + Answer(requests, since, id).value.payload
  {
    var p := AnswerPosition(received, since, id);
    forall j | 0 <= j < |received|
      ensures received[j].streamId == requests[j].streamId && received[j].payload == PREFIX + requests[j].payload
    {
      assert received[j] == Stamp(checks, Reply(requests[j]));
    }
    AnswerAt(requests, since, id, p);
  }

  lemma SamePrefix(prefix: Bytes, a: Bytes, b: Bytes)
    ensures prefix + a == prefix + b <==> a == b
  {
    assert (prefix + a)[|prefix|..] == a && (prefix + b)[|prefix|..] == b;
  }

  /**
   In every state of every run, garbled or not: a call that returned true returned the prefix and the
   payload of the first request with its id that the server reads off the wire after as many requests
   as the call had seen replies when it registered. It is its own answer if and only if that request
   carries the call's own payload. The replies must fit the length field, as they do on every wire that
   is not garbled (`UngarbledWire`) or not that long (`ShortWire`).
   */
  lemma AnswerExactly(c: Config, run: seq<State>, i: nat, k: nat)
    requires IsRun(c, run) && i < |run| && Small(run[i].table) && RepliesSmall(Parse(run[i].line.wire))
    requires k < |run[i].table.calls|
    requires run[i].table.calls[k].phase.Returned? && run[i].table.calls[k].phase.answer.Some?
    ensures var call := run[i].table.calls[k];
      var request := Answer(Parse(run[i].line.wire), call.since, call.id);
      && request.Some?
      && call.phase.answer.value == PREFIX + request.value.payload
      && (call.phase.answer.value == PREFIX + call.payload <==> request.value.payload == call.payload)
  {
    ReceivedExactly(c, run, i);
    RunTable(c, run, i);
    ExactAnswer(c.serverChecks, run[i].table, Parse(run[i].line.wire), k);
  }

  lemma ExactAnswer(checks: bool, t: Table, requests: seq<Frame>, k: nat)
    requires TableInv(t) && t.received <= StampAll(checks, Replies(requests))
    requires k < |t.calls| && t.calls[k].phase.Returned? && t.calls[k].phase.answer.Some?
    ensures var call := t.calls[k];
      var request := Answer(requests, call.since, call.id);
      && request.Some?
      && call.phase.answer.value == PREFIX + request.value.payload
      && (call.phase.answer.value == PREFIX + call.payload <==> request.value.payload == call.payload)
  {
    var call := t.calls[k];
    assert PromiseInv(t.received, call);
    AnswerOfReplies(checks, requests, t.received, call.since, call.id);
    SamePrefix(PREFIX, Answer(requests, call.since, call.id).value.payload, call.payload);
  }

  /** Once everything has drained, the replies to all requests on the wire have been received, and nothing else. */
  lemma DrainedExactly(c: Config, run: seq<State>, i: nat)
    requires IsRun(c, run) && i < |run| && Small(run[i].table) && Drained(run[i])
    requires RepliesSmall(Parse(run[i].line.wire))
    ensures run[i].table.received == StampAll(c.serverChecks, Replies(Parse(run[i].line.wire)))
  {
    RunKeeps(c, run, i);
    var s := run[i];
    HandledFromWire(c.clientChecks, s.line, s.up, s.server);
    ParsedReplies(c.serverChecks, s.line.wire);
    IdleSentAll(s.outbox);
    assert s.server.taken[..|s.server.taken|] == s.server.taken;
    DrainedDown(c.serverChecks, s.server.taken, s.outbox, s.client, s.table.received, |s.server.taken|);
  }

  /** Then a call still waiting can finish if and only if a request with its id was on the wire since it registered. */
  lemma WaitingExactly(c: Config, run: seq<State>, i: nat, k: nat)
    requires IsRun(c, run) && i < |run| && Small(run[i].table) && Drained(run[i])
    requires RepliesSmall(Parse(run[i].line.wire))
    requires k < |run[i].table.calls| <= WORD && run[i].table.calls[k].phase.Waiting? && !run[i].table.cleared
    ensures var call := run[i].table.calls[k];
      run[i].table.CanFinish(k) <==> Answer(Parse(run[i].line.wire), call.since, call.id).Some?
  {
    DrainedExactly(c, run, i);
    RunTable(c, run, i);
    WaitingAnswer(c.serverChecks, run[i].table, Parse(run[i].line.wire), k);
  }

  lemma WaitingAnswer(checks: bool, t: Table, requests: seq<Frame>, k: nat)
    requires TableInv(t) && t.received == StampAll(checks, Replies(requests))
    requires k < |t.calls| <= WORD && t.calls[k].phase.Waiting? && !t.cleared
    ensures t.calls[k].promise != [] <==> Answer(requests, t.calls[k].since, t.calls[k].id).Some?
  {
    var call := t.calls[k];
    assert FiledInv(t, k) && PromiseInv(t.received, call);
    assert call.id in t.handlers ==> HandlerInv(t, call.id);
    if call.promise != [] {
      AnswerOfReplies(checks, requests, t.received, call.since, call.id);
    } else if Answer(requests, call.since, call.id).Some? {
      var p := AnswerPosition(requests, call.since, call.id);
      assert t.received[p] == Stamp(checks, Reply(requests[p]));
      AnswerFound(t.received, call.since, call.id, p);
      assert false;
    }
  }

  // ---------- answers already given ----------

  lemma NextTable(c: Config, s: State, s': State)
    requires TableInv(s.table) && Next(c, s, s')
    ensures TableInv(s'.table)
  {
    var step :| Enabled(s, step) && s' == Take(c, s, step);
    TableStepTaken(c, s, step);
    var t := TableStepOf(s, step);
    if t.Some? {
      TableKeeps(s.table, t.value);
    }
  }

  lemma StepReturned(c: Config, s: State, s': State)
    requires TableInv(s.table) && Next(c, s, s')
    ensures ReturnedKept(s.table, s'.table)
  {
    var step :| Enabled(s, step) && s' == Take(c, s, step);
    TableStepTaken(c, s, step);
    var t := TableStepOf(s, step);
    if t.Some? {
      TableReturned(s.table, t.value);
    }
  }

  lemma TableStepTaken(c: Config, s: State, step: Step)
    requires Enabled(s, step)
    ensures var t := TableStepOf(s, step);
      Take(c, s, step).table == if t.Some? then TableTake(s.table, t.value) else s.table
  {}

  /** What a step does to the callers, if anything. */
  function TableStepOf(s: State, step: Step): (t: Option<TableStep>)
    requires Enabled(s, step)
    ensures t.Some? ==> TableEnabled(s.table, t.value)
  {
    match step
    case Caller(t) => Some(t)
    case TakeLock(i) => Some(Lock(i))
    case SendFails => Some(FailWrite(s.line.holder.value.call))
    case Unlock => Some(EndWrite(s.line.holder.value.call))
    case ClientDispatch => Some(Dispatch(s.client.todo[0]))
    case ClearHandlers => Some(Clear)
    case _ => None
  }

  lemma {:induction false} RunTable(c: Config, run: seq<State>, i: nat)
    requires IsRun(c, run) && i < |run|
    ensures TableInv(run[i].table)
  {
    if i > 0 {
      RunTable(c, run, i - 1);
      assert Next(c, run[i - 1], run[i]);
      NextTable(c, run[i - 1], run[i]);
    }
  }

  lemma RunReturned(c: Config, run: seq<State>, j: nat)
    requires IsRun(c, run) && 0 < j < |run|
    ensures ReturnedKept(run[j - 1].table, run[j].table)
  {
    RunTable(c, run, j - 1);
    assert Next(c, run[j - 1], run[j]);
    StepReturned(c, run[j - 1], run[j]);
  }

  function Tables(run: seq<State>): (r: seq<Table>)
    ensures |r| == |run| && forall m | 0 <= m < |run| :: r[m] == run[m].table
  {
    seq(|run|, m requires 0 <= m < |run| => run[m].table)
  }

  lemma RunTables(c: Config, run: seq<State>)
    requires IsRun(c, run)
    ensures forall m | 0 < m < |run| :: ReturnedKept(Tables(run)[m - 1], Tables(run)[m])
  {
    forall m | 0 < m < |run|
      ensures ReturnedKept(Tables(run)[m - 1], Tables(run)[m])
    {
      RunReturned(c, run, m);
    }
  }

  /** A call that had returned before the line was garbled keeps its own answer for good. */
  lemma AnswerKept(c: Config, run: seq<State>, i: nat, j: nat, k: nat)
    requires IsRun(c, run) && i <= j < |run| && Small(run[i].table) && !run[i].line.garbled
    requires k < |run[i].table.calls| <= WORD && run[i].table.calls[k].phase.Returned?
    ensures k < |run[j].table.calls| && run[j].table.calls[k] == run[i].table.calls[k]
    ensures var call := run[j].table.calls[k];
      call.phase.answer.Some? ==> call.phase.answer.value == PREFIX + call.payload
  {
    RunTables(c, run);
    KeptThroughout(Tables(run), i, j, k);
    EchoAnswersOwn(c, run, i, k);
  }

  // ---------- no answer is thrown away ----------

  lemma StepAnswered(c: Config, s: State, s': State)
    requires TableInv(s.table) && Next(c, s, s')
    ensures AnsweredKept(s.table, s'.table)
  {
    var step :| Enabled(s, step) && s' == Take(c, s, step);
    TableStepTaken(c, s, step);
    var t := TableStepOf(s, step);
    if t.Some? {
      TableAnswered(s.table, t.value);
    }
  }

  lemma RunAnswered(c: Config, run: seq<State>, j: nat)
    requires IsRun(c, run) && 0 < j < |run|
    ensures AnsweredKept(Tables(run)[j - 1], Tables(run)[j])
  {
    RunTable(c, run, j - 1);
    assert Next(c, run[j - 1], run[j]);
    StepAnswered(c, run[j - 1], run[j]);
  }

  /** A waiting call whose answer has arrived waits on, or returns true with that answer, in every later state. */
  lemma ArrivedForGood(c: Config, run: seq<State>, i: nat, j: nat, k: nat)
    requires IsRun(c, run) && i <= j < |run| && k < |run[i].table.calls|
    requires run[i].table.CanFinish(k)
    ensures k < |run[j].table.calls| && Answered(run[j].table.calls[k], run[i].table.calls[k].promise[0])
  {
    forall m | 0 < m < |run|
      ensures AnsweredKept(Tables(run)[m - 1], Tables(run)[m])
    {
      RunAnswered(c, run, m);
    }
    HasAnswer(c, run, i, k);
    AnsweredThroughout(Tables(run), i, j, k);
  }

  lemma HasAnswer(c: Config, run: seq<State>, i: nat, k: nat)
    requires IsRun(c, run) && i < |run| && run[i].table.CanFinish(k)
    ensures Answered(run[i].table.calls[k], run[i].table.calls[k].promise[0])
  {
    RunTable(c, run, i);
    assert PromiseInv(run[i].table.received, run[i].table.calls[k]);
  }

  lemma StepFailing(c: Config, s: State, s': State)
    requires Next(c, s, s')
    ensures FailingStep(s.table, s'.table)
  {
    var step :| Enabled(s, step) && s' == Take(c, s, step);
    TableStepTaken(c, s, step);
    var t := TableStepOf(s, step);
    if t.Some? {
      TableFailing(s.table, t.value);
    }
  }

  /** A call returns false only if its write failed, or it stopped waiting when no answer had arrived. */
  lemma FailedFirst(c: Config, run: seq<State>, j: nat, k: nat) returns (m: nat)
    requires IsRun(c, run) && j < |run| && k < |run[j].table.calls| && run[j].table.calls[k].phase == Returned(None)
    ensures m < j && k < |run[m].table.calls| && k < |run[m + 1].table.calls|
    ensures Fails(run[m].table, run[m + 1].table, k)
  {
    forall n | 0 < n < |run|
      ensures FailingStep(Tables(run)[n - 1], Tables(run)[n])
    {
      assert Next(c, run[n - 1], run[n]);
      StepFailing(c, run[n - 1], run[n]);
    }
    m := FailedBefore(Tables(run), j, k);
  }

  // ---------- the lock, whatever the payloads ----------

  /** A call is writing exactly while it holds the lock. */
  predicate LockInv(calls: seq<Call>, l: Line) {
    && HolderInv(calls, l)
    && forall k | 0 <= k < |calls| && calls[k].phase.Writing? :: l.holder.Some? && l.holder.value.call == k
  }

  lemma LockCaller(t: Table, l: Line, step: TableStep)
    requires LockInv(t.calls, l) && IsCallerStep(step) && TableEnabled(t, step)
    ensures LockInv(TableTake(t, step).calls, l)
  {}

  lemma LockLine(c: Config, s: State, step: Step)
    requires LockInv(s.table.calls, s.line) && Enabled(s, step) && (step.TakeLock? || step.SendSome?)
    ensures LockInv(Take(c, s, step).table.calls, Take(c, s, step).line)
  {
    if step.TakeLock? {
      assert |Serialize(c.clientChecks, Request(s.table.calls[step.i]))| >= HEADER_SIZE;
    }
  }

  lemma LockDispatch(t: Table, l: Line, f: Frame)
    requires LockInv(t.calls, l)
    ensures LockInv(t.Dispatch(f).calls, l)
  {}

  lemma LockKept(c: Config, s: State, step: Step)
    requires LockInv(s.table.calls, s.line) && Enabled(s, step)
    ensures LockInv(Take(c, s, step).table.calls, Take(c, s, step).line)
  {
    match step
    case Caller(t) => LockCaller(s.table, s.line, t);
    case TakeLock(_) => LockLine(c, s, step);
    case SendSome(_) => LockLine(c, s, step);
    case ClientDispatch => LockDispatch(s.table, s.line, s.client.todo[0]);
    case _ =>
  }

  lemma LockNext(c: Config, s: State, s': State)
    requires LockInv(s.table.calls, s.line) && Next(c, s, s')
    ensures LockInv(s'.table.calls, s'.line)
  {
    var step :| Enabled(s, step) && s' == Take(c, s, step);
    LockKept(c, s, step);
  }

  lemma {:induction false} RunLock(c: Config, run: seq<State>, i: nat)
    requires IsRun(c, run) && i < |run|
    ensures LockInv(run[i].table.calls, run[i].line)
  {
    if i > 0 {
      RunLock(c, run, i - 1);
      assert Next(c, run[i - 1], run[i]);
      LockNext(c, run[i - 1], run[i]);
    }
  }

  /**
   What `Enabled` asks of the caller that holds the lock always holds, so it blocks nothing: in every
   state of every run, a send that can fail and a write that can end are those of a call that is writing.
   */
  lemma GuardsImplied(c: Config, run: seq<State>, i: nat)
    requires IsRun(c, run) && i < |run|
    ensures run[i].line.CanSend() ==> Enabled(run[i], SendFails)
    ensures run[i].line.CanRelease() ==> Enabled(run[i], Unlock)
    ensures run[i].line.holder.Some? ==> run[i].line.CanSend() || run[i].line.CanRelease()
  {
    RunLock(c, run, i);
  }
}
