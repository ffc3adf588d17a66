/**
 Without new calls every run of `EndToEnd` comes to rest, within a number of steps known beforehand,
 and at rest everything has been delivered. No fairness between the threads is needed.
 */
module Progress {
  import opened Words
  import opened Frames
  import opened Parser
  import opened Reorder
  import opened StreamManager
  import opened EndToEnd
  import opened Delivery

  /** No step but a new call of sendMessage can be taken. */
  ghost predicate AtRest(s: State) {
    forall step :: Enabled(s, step) ==> step.Call?
  }

  lemma RestEmpty(s: State)
    requires AtRest(s) && ServerInv(s.server)
    ensures s.sender.writing.None? && s.sender.queue == []
    ensures !Complete(s.server.buffer) && s.up == [] && !s.server.writer.Sending? && s.server.queue == []
    ensures s.reader.todo == [] && s.down == []
  {
    assert !Enabled(s, ClientPop) && !Enabled(s, ClientSend);
    assert !Enabled(s, ServerParse) && !Enabled(s, ServerPush) && !Enabled(s, ServerErase);
    assert !Enabled(s, ServerReceive(1));
    assert !Enabled(s, ServerCheck) && !Enabled(s, ServerPop) && !Enabled(s, ServerSend);
    assert !Enabled(s, ClientReceive(1)) && !Enabled(s, ClientHandle);
  }

  /** There is no deadlock: a state at rest holds nothing of any stream. */
  lemma RestIsQuiet(c: Config, s: State, stream: Word)
    requires Inv(c, s) && AtRest(s)
    ensures Quiet(s, stream)
  {
    RestEmpty(s);
    forall x | x in s.sender.held
      ensures x.None?
    {
      var t :| 0 <= t < |s.sender.held| && s.sender.held[t] == x;
      assert !Enabled(s, Enqueue(t));
    }
    assert s.server.buffer + s.up == s.server.buffer;
    assert s.reader.buffer + s.down == s.reader.buffer;
  }

  // ---------- a bound on the remaining steps ----------

  const REPLY: int := 8227
  const ANSWER: int := 5 * 8228 + 2

  /** Steps left for a list of frames, each counted as `a + b * |payload|`. */
  function Load(fs: seq<Frame>, a: nat, b: nat): nat {
    if fs == [] then 0 else Load(fs[..|fs| - 1], a, b) + a + b * |fs[|fs| - 1].payload|
  }

  function HeldLoad(held: seq<Option<Frame>>, a: nat, b: nat): nat {
    if held == [] then 0
    else HeldLoad(held[..|held| - 1], a, b) + Load(Listed(held[|held| - 1]), a, b)
  }

  function SenderLoad(p: Sender): nat {
    var per := ANSWER + 1;
    HeldLoad(p.held, 16 * per + 3, per) + Load(p.queue, 16 * per + 2, per) + Load(Listed(p.writing), 16 * per + 1, per)
  }

  function ReplyLoad(p: Server): nat {
    Load(p.queue, 35, 2) + Load(p.InHand(), 34, 2) + if p.writer.Idle? then 1 else 0
  }

  function RequestLoad(p: Server): nat
    requires p.pushed <= FAN_OUT
  {
    ANSWER * |p.buffer| + if p.current.None? then ANSWER else (FAN_OUT - p.pushed) * (REPLY + 1) + 1
  }

  function StepsLeft(s: State): nat
    requires s.server.pushed <= FAN_OUT
  {
    SenderLoad(s.sender) + (ANSWER + 1) * |s.up| + RequestLoad(s.server) + ReplyLoad(s.server)
      + 2 * |s.down| + |s.reader.todo|
  }

  lemma {:induction false} LoadAppend(fs: seq<Frame>, gs: seq<Frame>, a: nat, b: nat)
    ensures Load(fs + gs, a, b) == Load(fs, a, b) + Load(gs, a, b)
  {
    if gs == [] {
      assert fs + gs == fs;
    } else {
      LoadAppend(fs, gs[..|gs| - 1], a, b);
      assert (fs + gs)[..|fs + gs| - 1] == fs + gs[..|gs| - 1];
    }
  }

  lemma LoadOne(f: Frame, a: nat, b: nat)
    ensures Load([f], a, b) == a + b * |f.payload|
  {
    assert [f][..0] == [];
    assert Load([], a, b) == 0;
  }

  lemma {:induction false} HeldLoadUpdate(held: seq<Option<Frame>>, t: nat, x: Option<Frame>, a: nat, b: nat)
    requires t < |held|
    ensures HeldLoad(held[t := x], a, b) + Load(Listed(held[t]), a, b) == HeldLoad(held, a, b) + Load(Listed(x), a, b)
  {
    var last := |held| - 1;
    if t == last {
      assert held[t := x][..last] == held[..last];
    } else {
      HeldLoadUpdate(held[..last], t, x, a, b);
      assert held[t := x][..last] == held[..last][t := x];
    }
  }

  lemma EnqueueLoad(p: Sender, t: nat)
    requires p.CanEnqueue(t)
    ensures SenderLoad(p.Enqueue(t)) < SenderLoad(p)
  {
    var f, per := p.held[t].value, ANSWER + 1;
    HeldLoadUpdate(p.held, t, None, 16 * per + 3, per);
    LoadAppend(p.queue, [f], 16 * per + 2, per);
    LoadOne(f, 16 * per + 2, per);
    LoadOne(f, 16 * per + 3, per);
  }

  lemma PopLoad(p: Sender)
    requires p.CanPop()
    ensures SenderLoad(p.Pop()) < SenderLoad(p)
  {
    var f, per := p.queue[0], ANSWER + 1;
    assert p.queue == [f] + p.queue[1..];
    LoadAppend([f], p.queue[1..], 16 * per + 2, per);
    LoadOne(f, 16 * per + 2, per);
    LoadOne(f, 16 * per + 1, per);
  }

  lemma SendLoad(p: Sender)
    requires p.writing.Some?
    ensures SenderLoad(p.Send()) + (ANSWER + 1) * (16 + |p.writing.value.payload|) < SenderLoad(p)
  {
    LoadOne(p.writing.value, 16 * (ANSWER + 1) + 1, ANSWER + 1);
  }

  lemma PushLoad(p: Server)
    requires p.CanPush()
    ensures RequestLoad(p.Push()) + ReplyLoad(p.Push()) < RequestLoad(p) + ReplyLoad(p)
  {
    var r := Response(p.current.value, p.pushed);
    LoadAppend(p.queue, [r], 35, 2);
    LoadOne(r, 35, 2);
  }

  lemma ServerPopLoad(p: Server)
    requires p.writer.Popping? && p.queue != []
    ensures ReplyLoad(p.Pop()) < ReplyLoad(p)
  {
    assert p.queue == [p.queue[0]] + p.queue[1..];
    LoadAppend([p.queue[0]], p.queue[1..], 35, 2);
    LoadOne(p.queue[0], 35, 2);
    LoadOne(p.queue[0], 34, 2);
  }

  lemma ServerSendLoad(p: Server)
    requires p.writer.Sending?
    ensures ReplyLoad(p.Send()) + 2 * (16 + |p.writer.frame.payload|) < ReplyLoad(p)
  {
    LoadOne(p.writer.frame, 34, 2);
  }

  lemma {:induction false} ParseShort(d: Bytes)
    ensures |Parse(d)| <= |d|
    decreases |d|
  {
    if Complete(d) {
      ParseShort(d[FrameSize(d)..]);
    }
  }

  /** A chunk completes no more frames than it has bytes. */
  lemma ChunkCompletes(buffer: Bytes, chunk: Bytes)
    requires !Complete(buffer)
    ensures |Parse(buffer + chunk)| <= |chunk|
  {
    var d := buffer + chunk;
    if Complete(d) {
      if |buffer| >= HEADER_SIZE {
        assert WordAt(buffer, 0) == WordAt(d, 0);
      }
      ParseShort(d[FrameSize(d)..]);
    }
  }

  lemma SerializeSize(checks: bool, f: Frame)
    ensures |Serialize(checks, f)| == 16 + |f.payload|
  {}

  lemma ReceiveLoad(p: Server, chunk: Bytes)
    requires p.CanReceive() && p.pushed <= FAN_OUT
    ensures RequestLoad(p.Receive(chunk)) == RequestLoad(p) + ANSWER * |chunk| && ReplyLoad(p.Receive(chunk)) == ReplyLoad(p)
  {}

  lemma ParseLoad(p: Server)
    requires p.CanParse() && p.pushed == 0
    ensures RequestLoad(p.Parse()) + ReplyLoad(p.Parse()) < RequestLoad(p) + ReplyLoad(p)
  {}

  lemma EraseLoad(p: Server)
    requires p.CanErase()
    ensures RequestLoad(p.Erase()) + ReplyLoad(p.Erase()) < RequestLoad(p) + ReplyLoad(p)
  {
    assert |p.Erase().buffer| + 1 <= |p.buffer|;
  }

  lemma SenderDescends(c: Config, s: State, step: Step)
    requires s.server.pushed <= FAN_OUT && Enabled(s, step) && (step.Enqueue? || step.ClientPop? || step.ClientSend?)
    ensures StepsLeft(Take(c, s, step)) < StepsLeft(s)
  {
    if step.Enqueue? {
      EnqueueLoad(s.sender, step.thread);
    } else if step.ClientPop? {
      PopLoad(s.sender);
    } else {
      SendLoad(s.sender);
      SerializeSize(c.clientChecks, s.sender.writing.value);
    }
  }

  lemma ServerReceiveDescends(c: Config, s: State, n: nat)
    requires s.server.pushed <= FAN_OUT && Enabled(s, ServerReceive(n))
    ensures StepsLeft(Take(c, s, ServerReceive(n))) < StepsLeft(s)
  {
    ReceiveLoad(s.server, s.up[..n]);
  }

  lemma ServerDescends(c: Config, s: State, step: Step)
    requires ServerInv(s.server) && Enabled(s, step) && (step.ServerParse? || step.ServerPush? || step.ServerErase?)
    requires ServerInv(Take(c, s, step).server)
    ensures StepsLeft(Take(c, s, step)) < StepsLeft(s)
  {
    if step.ServerParse? {
      ParseLoad(s.server);
      LessServer(s, s.server.Parse());
    } else if step.ServerPush? {
      PushLoad(s.server);
      LessServer(s, s.server.Push());
    } else {
      EraseLoad(s.server);
      LessServer(s, s.server.Erase());
    }
  }

  lemma LessServer(s: State, p: Server)
    requires s.server.pushed <= FAN_OUT && p.pushed <= FAN_OUT
    requires RequestLoad(p) + ReplyLoad(p) < RequestLoad(s.server) + ReplyLoad(s.server)
    ensures StepsLeft(s.(server := p)) < StepsLeft(s)
  {}

  lemma WriterDescends(c: Config, s: State, step: Step)
    requires ServerInv(s.server) && Enabled(s, step)
    requires step.ServerCheck? || step.ServerPop? || step.ServerSend?
    ensures StepsLeft(Take(c, s, step)) < StepsLeft(s)
  {
    if step.ServerPop? {
      ServerPopLoad(s.server);
    } else if step.ServerSend? {
      ServerSendLoad(s.server);
      SerializeSize(c.serverChecks, s.server.writer.frame);
    }
  }

  lemma ReaderDescends(c: Config, s: State, step: Step)
    requires s.server.pushed <= FAN_OUT && !Complete(s.reader.buffer)
    requires Enabled(s, step) && (step.ClientReceive? || step.ClientHandle?)
    ensures StepsLeft(Take(c, s, step)) < StepsLeft(s)
  {
    if step.ClientReceive? {
      ChunkCompletes(s.reader.buffer, s.down[..step.n]);
    }
  }

  /** Every step but a call brings the system closer to rest. */
  lemma StepsDescend(c: Config, s: State, step: Step)
    requires Inv(c, s) && Enabled(s, step) && !step.Call? && Small(s.sender.calls)
    ensures Inv(c, Take(c, s, step)) && StepsLeft(Take(c, s, step)) < StepsLeft(s)
  {
    StepKeeps(c, s, step);
    if step.Enqueue? || step.ClientPop? || step.ClientSend? {
      SenderDescends(c, s, step);
    } else if step.ServerReceive? {
      ServerReceiveDescends(c, s, step.n);
    } else if step.ServerParse? || step.ServerPush? || step.ServerErase? {
      ServerDescends(c, s, step);
    } else if step.ServerCheck? || step.ServerPop? || step.ServerSend? {
      WriterDescends(c, s, step);
    } else {
      ReaderDescends(c, s, step);
    }
  }

  /** No call happens from state `i` on. */
  predicate NoCallsSince(run: seq<State>, i: nat)
    requires i < |run|
  {
    forall j | i <= j < |run| :: run[j].sender.calls == run[i].sender.calls
  }

  lemma {:induction false} StepsBounded(c: Config, run: seq<State>, i: nat, j: nat)
    requires IsRun(c, run) && i <= j < |run| && NoCallsSince(run, i) && Small(run[i].sender.calls)
    ensures Measured(run[i]) && Measured(run[j])
    ensures j - i + StepsLeft(run[j]) <= StepsLeft(run[i])
  {
    RunMeasured(c, run, i);
    RunMeasured(c, run, j);
    if i < j {
      StepsBounded(c, run, i, j - 1);
      StepLess(c, run, j);
    }
  }

  predicate Measured(s: State) {
    s.server.pushed <= FAN_OUT
  }

  lemma RunMeasured(c: Config, run: seq<State>, i: nat)
    requires IsRun(c, run) && i < |run| && Small(run[i].sender.calls)
    ensures Measured(run[i])
  {
    RunKeeps(c, run, i);
  }

  lemma StepLess(c: Config, run: seq<State>, j: nat)
    requires IsRun(c, run) && 0 < j < |run| && Small(run[j].sender.calls)
    requires run[j].sender.calls == run[j - 1].sender.calls
    ensures Measured(run[j - 1]) && Measured(run[j]) && StepsLeft(run[j]) < StepsLeft(run[j - 1])
  {
    var s, s' := RunStep(c, run, j);
    NextDescends(c, s, s');
  }

  lemma RunStep(c: Config, run: seq<State>, j: nat) returns (s: State, s': State)
    requires IsRun(c, run) && 0 < j < |run| && Small(run[j - 1].sender.calls)
    ensures s == run[j - 1] && s' == run[j] && Inv(c, s) && Next(c, s, s')
  {
    s, s' := run[j - 1], run[j];
    RunKeeps(c, run, j - 1);
    assert Next(c, run[j - 1], run[j]);
  }

  lemma NextDescends(c: Config, s: State, s': State)
    requires Inv(c, s) && Next(c, s, s') && s'.sender.calls == s.sender.calls && Small(s.sender.calls)
    ensures Measured(s) && Measured(s') && StepsLeft(s') < StepsLeft(s)
  {
    var step :| Enabled(s, step) && s' == Take(c, s, step);
    assert !step.Call?;
    StepsDescend(c, s, step);
  }

  /** At rest, every stream has received responses in order, and all of them unless only the client checks. */
  lemma RestDelivers(c: Config, run: seq<State>, i: nat, stream: Word)
    requires IsRun(c, run) && i < |run| && Small(run[i].sender.calls) && AtRest(run[i])
    requires 5 * |OnStream(run[i].sender.calls, stream)| <= WORD
    ensures var out, n := Output(run[i], stream), |OnStream(run[i].sender.calls, stream)|;
      && (|out| == 5 * n <==> n == 0 || (c.clientChecks ==> c.serverChecks))
      && forall k | 0 <= k < |out| :: out[k].sequence == k
  {
    RunKeeps(c, run, i);
    RestIsQuiet(c, run[i], stream);
    AllDelivered(c, run, i, stream);
    InOrderExactlyOnce(c, run, i, stream);
  }

  /** After its last call a run has at most `StepsLeft` more steps. */
  lemma ComesToRest(c: Config, run: seq<State>, i: nat)
    requires IsRun(c, run) && i < |run| && NoCallsSince(run, i) && Small(run[i].sender.calls)
    ensures Measured(run[i]) && |run| - 1 - i <= StepsLeft(run[i])
  {
    StepsBounded(c, run, i, |run| - 1);
  }

  // ---------- everything can be delivered ----------

  lemma Extend(c: Config, run: seq<State>, step: Step) returns (run': seq<State>)
    requires IsRun(c, run) && Enabled(run[|run| - 1], step)
    ensures IsRun(c, run') && |run'| == |run| + 1 && run'[|run|] == Take(c, run[|run| - 1], step)
  {
    run' := run + [Take(c, run[|run| - 1], step)];
    forall i, j | 0 <= i < j < |run'| && j == i + 1
      ensures Next(c, run'[i], run'[j])
    {
      assert j < |run| ==> Next(c, run[i], run[j]);
      assert j == |run| ==> Enabled(run'[i], step) && run'[j] == Take(c, run'[i], step);
    }
  }

  lemma OwnStep(c: Config, s: State, step: Step)
    requires Inv(c, s) && Enabled(s, step) && !step.Call? && Small(s.sender.calls)
    ensures var s' := Take(c, s, step);
      && s'.sender.calls == s.sender.calls && |s'.sender.held| == |s.sender.held|
      && Measured(s) && Measured(s') && StepsLeft(s') < StepsLeft(s)
  {
    StepsDescend(c, s, step);
  }

  /** Every run can go on to rest without new calls. */
  lemma {:induction false} ReachRest(c: Config, run: seq<State>) returns (run': seq<State>)
    requires IsRun(c, run) && Small(run[|run| - 1].sender.calls) && Measured(run[|run| - 1])
    ensures IsRun(c, run') && AtRest(run'[|run'| - 1])
    ensures run'[|run'| - 1].sender.calls == run[|run| - 1].sender.calls
    ensures |run'[|run'| - 1].sender.held| == |run[|run| - 1].sender.held|
    decreases StepsLeft(run[|run| - 1])
  {
    var s := run[|run| - 1];
    run' := run;
    if !AtRest(s) {
      var step :| Enabled(s, step) && !step.Call?;
      RunKeeps(c, run, |run| - 1);
      OwnStep(c, s, step);
      run' := Extend(c, run, step);
      run' := ReachRest(c, run');
    }
  }

  lemma RestFree(s: State, t: nat)
    requires AtRest(s) && t < |s.sender.held|
    ensures s.sender.CanCall(t)
  {
    assert !Enabled(s, Enqueue(t));
  }

  datatype Message = Message(stream: Word, payload: Bytes)

  /** The calls of sendMessage are these, in this order. */
  predicate AreCalls(calls: seq<Frame>, messages: seq<Message>) {
    |calls| == |messages| &&
    forall i | 0 <= i < |calls| :: calls[i].streamId == messages[i].stream && calls[i].payload == messages[i].payload
  }

  lemma {:induction false} CanRest(c: Config, messages: seq<Message>) returns (run: seq<State>)
    requires c.threads > 0 && forall m | m in messages :: |m.payload| < WORD
    ensures IsRun(c, run) && AtRest(run[|run| - 1])
    ensures AreCalls(run[|run| - 1].sender.calls, messages) && |run[|run| - 1].sender.held| == c.threads
  {
    if messages == [] {
      var s := State(
        Sender(map[], seq(c.threads, _ => None), [], None, [], [], []), [],
        Server([], None, 0, [], Idle, [], [], []), [],
        Reader([], [], NO_BUFFERS, []));
      run := [s];
      run := ReachRest(c, run);
    } else {
      var init, m := messages[..|messages| - 1], messages[|messages| - 1];
      run := CanRest(c, init);
      var s := run[|run| - 1];
      RestFree(s, 0);
      run := Extend(c, run, Call(0, m.stream, m.payload));
      CallsSmall(run[|run| - 1].sender.calls, messages);
      RunMeasured(c, run, |run| - 1);
      run := ReachRest(c, run);
    }
  }

  lemma CallsSmall(calls: seq<Frame>, messages: seq<Message>)
    requires AreCalls(calls, messages) && forall m | m in messages :: |m.payload| < WORD
    ensures Small(calls)
  {
    forall i | 0 <= i < |calls|
      ensures |calls[i].payload| < WORD
    {
      assert messages[i] in messages;
    }
  }

  /** All five responses to each call on the stream are delivered, in order. */
  predicate DeliveredAll(s: State, stream: Word) {
    var out, n := Output(s, stream), |OnStream(s.sender.calls, stream)|;
    5 * n <= WORD ==> |out| == 5 * n && forall k | 0 <= k < |out| :: out[k].sequence == k
  }

  /**
   Whatever messages are sent on whatever streams, there is a run in which they are, and which has
   delivered all five responses to each, in order.
   */
  lemma EverythingCanArrive(c: Config, messages: seq<Message>) returns (run: seq<State>, s: State)
    requires c.threads > 0 && (c.clientChecks ==> c.serverChecks)
    requires forall m | m in messages :: |m.payload| < WORD
    ensures IsRun(c, run) && s == run[|run| - 1] && AreCalls(s.sender.calls, messages)
    ensures forall stream: Word :: DeliveredAll(s, stream)
  {
    run := CanRest(c, messages);
    s := run[|run| - 1];
    CallsSmall(s.sender.calls, messages);
    forall stream: Word
      ensures DeliveredAll(s, stream)
    {
      if 5 * |OnStream(s.sender.calls, stream)| <= WORD {
        RestDelivers(c, run, |run| - 1, stream);
      }
    }
  }

  /** A free thread can call with anything, and any part of what is in flight can arrive. */
  lemma NothingForced(c: Config, run: seq<State>, thread: nat, stream: Word, message: Bytes, n: nat)
    requires IsRun(c, run)
    ensures var s := run[|run| - 1];
      && (thread < |s.sender.held| && s.sender.held[thread] == None ==> Enabled(s, Call(thread, stream, message)))
      && (0 < n <= |s.up| && s.server.current == None && !Complete(s.server.buffer) ==> Enabled(s, ServerReceive(n)))
      && (0 < n <= |s.down| && s.reader.todo == [] ==> Enabled(s, ClientReceive(n)))
  {}
}
