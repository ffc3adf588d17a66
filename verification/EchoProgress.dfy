/**
 Without new calls every run of the RPC client and the echo server comes to rest, within a number of
 steps known beforehand, and at rest no caller is left inside sendAndWaitResponse.
 */
module EchoProgress {
  import opened Words
  import opened Frames
  import opened Parser
  import opened Links
  import opened Writers
  import opened Correlation
  import opened Echo
  import opened EchoAnswers
  import Progress

  /** What only the application, the clock or the network decides: new calls, time-outs, failures, disconnect. */
  predicate Outside(step: Step) {
    || (step.Caller? && (step.step.Draw? || step.step.TimeOut?))
    || step.SendFails? || (step.ServerWriter? && step.send.Fail?)
    || step.Close? || step.ReaderExits? || step.ClearHandlers?
  }

  ghost predicate AtRest(s: State) {
    forall step :: Enabled(s, step) ==> Outside(step)
  }

  /** Disconnect has not begun, and both the client's reader and the server's writer run. */
  predicate Working(s: State) {
    s.open && s.reading && s.outbox.running
  }

  // ---------- there is no deadlock ----------

  lemma RestIsDrained(s: State)
    requires AtRest(s) && Working(s)
    ensures Drained(s)
  {
    assert !Enabled(s, ServerReceive(1)) && !Enabled(s, ServerHandle);
    assert !Enabled(s, ClientReceive(1)) && !Enabled(s, ClientDispatch);
    assert !Enabled(s, ServerWriter(Batch)) && !Enabled(s, ServerWriter(Advance));
    assert !Enabled(s, ServerWriter(OutboxStep.Accept(1)));
  }

  lemma RestUnlocked(s: State)
    requires AtRest(s) && Working(s) && LockInv(s.table.calls, s.line)
    ensures s.line.holder.None?
  {
    assert !Enabled(s, SendSome(1)) && !Enabled(s, Unlock);
  }

  lemma RestPhase(s: State, k: nat)
    requires AtRest(s) && Working(s) && LockInv(s.table.calls, s.line) && k < |s.table.calls|
    ensures s.table.calls[k].phase.Returned? || (s.table.calls[k].phase.Waiting? && !s.table.CanFinish(k))
  {
    RestUnlocked(s);
    assert !Enabled(s, Caller(Register(k))) && !Enabled(s, TakeLock(k));
    assert !Enabled(s, Caller(EraseFailed(k))) && !Enabled(s, Caller(EraseTimedOut(k))) && !Enabled(s, Caller(Finish(k)));
  }

  lemma {:induction false} OpenUncleared(c: Config, run: seq<State>, i: nat)
    requires IsRun(c, run) && i < |run| && run[i].open
    ensures !run[i].table.cleared
  {
    if i > 0 {
      assert Next(c, run[i - 1], run[i]);
      OpenNext(c, run[i - 1], run[i]);
      OpenUncleared(c, run, i - 1);
    }
  }

  lemma OpenNext(c: Config, s: State, s': State)
    requires Next(c, s, s') && s'.open
    ensures s.open && (s'.table.cleared ==> s.table.cleared)
  {}

  /**
   A working system that can do nothing by itself has drained, and has no caller left inside: every call
   whose request was not written on a garbled line has returned, and if true, with its own answer.
   */
  lemma RestReturns(c: Config, run: seq<State>, i: nat, k: nat)
    requires IsRun(c, run) && i < |run| && Small(run[i].table) && AtRest(run[i]) && Working(run[i])
    requires k < |run[i].table.calls| <= WORD && Trusted(run[i].line, run[i].table.calls[k])
    ensures Drained(run[i])
    ensures var call := run[i].table.calls[k];
      call.phase.Returned? && (call.phase.answer.Some? ==> call.phase.answer.value == PREFIX + call.payload)
  {
    RestIsDrained(run[i]);
    RunLock(c, run, i);
    RestPhase(run[i], k);
    OpenUncleared(c, run, i);
    if run[i].table.calls[k].phase.Waiting? {
      NobodyLeftWaiting(c, run, i, k);
    } else {
      EchoAnswersOwn(c, run, i, k);
    }
  }

  // ---------- a bound on the remaining steps ----------

  function Rank(phase: Phase): nat {
    match phase
    case Drawn => 5
    case Registered => 4
    case Writing => 3
    case Waiting => 2
    case WriteFailed => 1
    case TimedOut => 1
    case Returned(_) => 0
  }

  function CallLoad(c: Call): nat {
    Rank(c.phase) + if Started(c) then 0 else 9 * (16 + |c.payload|)
  }

  function CallsLoad(calls: seq<Call>): nat {
    if calls == [] then 0 else CallsLoad(calls[..|calls| - 1]) + CallLoad(calls[|calls| - 1])
  }

  function LineLoad(l: Line): nat {
    if l.CanSend() then 9 * (|l.holder.value.data| - l.holder.value.sent) else 0
  }

  function BuffersLoad(parts: seq<Bytes>, each: nat): nat {
    if parts == [] then 0 else BuffersLoad(parts[..|parts| - 1], each) + each + 3 * |parts[|parts| - 1]|
  }

  function OutboxLoad(o: Outbox): int {
    BuffersLoad(o.queue, 2) + BuffersLoad(o.pending, 1) - 3 * o.sent + if o.running then 1 else 0
  }

  function StepsLeft(s: State): int {
    CallsLoad(s.table.calls) + LineLoad(s.line) + 8 * |s.up| + 7 * |s.server.buffer| + Progress.Load(s.server.todo, 102, 3)
      + OutboxLoad(s.outbox) + 2 * |s.down| + |s.client.buffer| + |s.client.todo|
      + (if s.open then 1 else 0) + if s.reading then 1 else 0
  }

  lemma {:induction false} CallsUpdate(calls: seq<Call>, i: nat, c: Call)
    requires i < |calls|
    ensures CallsLoad(calls[i := c]) + CallLoad(calls[i]) == CallsLoad(calls) + CallLoad(c)
  {
    var last := |calls| - 1;
    if i == last {
      assert calls[i := c][..last] == calls[..last];
    } else {
      CallsUpdate(calls[..last], i, c);
      assert calls[i := c][..last] == calls[..last][i := c];
    }
  }

  lemma {:induction false} BuffersAppend(a: seq<Bytes>, b: seq<Bytes>, each: nat)
    ensures BuffersLoad(a + b, each) == BuffersLoad(a, each) + BuffersLoad(b, each)
  {
    if b == [] {
      assert a + b == a;
    } else {
      BuffersAppend(a, b[..|b| - 1], each);
      assert (a + b)[..|a + b| - 1] == a + b[..|b| - 1];
    }
  }

  lemma BuffersOne(part: Bytes, each: nat)
    ensures BuffersLoad([part], each) == each + 3 * |part|
  {
    assert [part][..0] == [] && BuffersLoad([], each) == 0;
  }

  lemma {:induction false} BuffersMore(parts: seq<Bytes>)
    ensures BuffersLoad(parts, 2) == BuffersLoad(parts, 1) + |parts|
  {
    if parts != [] {
      BuffersMore(parts[..|parts| - 1]);
    }
  }

  /** Bytes parsed into frames weigh no more than as bytes. */
  lemma {:induction false} ParseLoad(d: Bytes)
    ensures Progress.Load(Parse(d), 102, 3) + 7 * |Residue(d)| <= 7 * |d|
    ensures |Parse(d)| + |Residue(d)| <= |d|
    decreases |d|
  {
    if Complete(d) {
      var rest := d[FrameSize(d)..];
      ParseLoad(rest);
      Progress.LoadAppend([Decode(d)], Parse(rest), 102, 3);
      Progress.LoadOne(Decode(d), 102, 3);
    }
  }

  // ---------- every step lowers it ----------

  lemma CallerDescends(t: Table, step: TableStep)
    requires TableEnabled(t, step) && IsCallerStep(step) && !step.Draw?
    ensures CallsLoad(TableTake(t, step).calls) < CallsLoad(t.calls)
  {
    CallsUpdate(t.calls, step.i, TableTake(t, step).calls[step.i]);
  }

  lemma DispatchLoad(t: Table, f: Frame)
    ensures CallsLoad(t.Dispatch(f).calls) == CallsLoad(t.calls)
  {
    if f.streamId in t.handlers && t.handlers[f.streamId] < |t.calls| {
      var i := t.handlers[f.streamId];
      CallsUpdate(t.calls, i, t.Dispatch(f).calls[i]);
    }
  }

  lemma LockDescends(c: Config, s: State, i: nat)
    requires Enabled(s, TakeLock(i))
    ensures StepsLeft(Take(c, s, TakeLock(i))) < StepsLeft(s)
  {
    Progress.SerializeSize(c.clientChecks, Request(s.table.calls[i]));
    CallsUpdate(s.table.calls, i, s.table.calls[i].(phase := Writing));
  }

  lemma ReleaseDescends(c: Config, s: State, step: Step)
    requires Enabled(s, step) && (step.SendFails? || step.Unlock?)
    ensures StepsLeft(Take(c, s, step)) < StepsLeft(s)
  {
    var i := s.line.holder.value.call;
    CallsUpdate(s.table.calls, i, s.table.calls[i].(phase := if step.SendFails? then WriteFailed else Waiting));
  }

  lemma SendDescends(c: Config, s: State, n: nat)
    requires Enabled(s, SendSome(n))
    ensures StepsLeft(Take(c, s, SendSome(n))) < StepsLeft(s)
  {}

  lemma ServerReceiveDescends(c: Config, s: State, n: nat)
    requires Enabled(s, ServerReceive(n))
    ensures StepsLeft(Take(c, s, ServerReceive(n))) < StepsLeft(s)
  {
    ParseLoad(s.server.buffer + s.up[..n]);
    assert Progress.Load([], 102, 3) == 0;
  }

  lemma ServerHandleDescends(c: Config, s: State)
    requires Enabled(s, ServerHandle)
    ensures StepsLeft(Take(c, s, ServerHandle)) < StepsLeft(s)
  {
    var f, rest := s.server.todo[0], s.server.todo[1..];
    assert s.server.todo == [f] + rest;
    Progress.LoadAppend([f], rest, 102, 3);
    Progress.LoadOne(f, 102, 3);
    var data := Serialize(c.serverChecks, Reply(f));
    Progress.SerializeSize(c.serverChecks, Reply(f));
    BuffersAppend(s.outbox.queue, [data], 2);
    BuffersOne(data, 2);
  }

  lemma OutboxDescends(o: Outbox, step: OutboxStep)
    requires OutboxEnabled(o, step) && !step.Write? && (o.pending == [] ==> o.sent == 0)
    ensures OutboxLoad(OutboxTake(o, step)) + 2 * |Accepted(o, step)| < OutboxLoad(o)
  {
    match step
    case Batch => BuffersMore(o.queue);
    case Accept(n) =>
    case Fail =>
    case Advance =>
      var rest := o.pending[1..];
      assert o.pending == [o.pending[0]] + rest;
      BuffersAppend([o.pending[0]], rest, 1);
      BuffersOne(o.pending[0], 1);
  }

  lemma WriterDescends(c: Config, s: State, o: OutboxStep)
    requires Enabled(s, ServerWriter(o)) && (s.outbox.pending == [] ==> s.outbox.sent == 0)
    ensures StepsLeft(Take(c, s, ServerWriter(o))) < StepsLeft(s)
  {
    OutboxDescends(s.outbox, o);
  }

  lemma ReaderDescends(c: Config, s: State, step: Step)
    requires Enabled(s, step) && (step.ClientReceive? || step.ClientDispatch?)
    ensures StepsLeft(Take(c, s, step)) < StepsLeft(s)
  {
    if step.ClientReceive? {
      ParseLoad(s.client.buffer + s.down[..step.n]);
    } else {
      DispatchLoad(s.table, s.client.todo[0]);
    }
  }

  /** Every step but a new call, and the end of disconnect, brings the system closer to rest. */
  lemma StepsDescend(c: Config, s: State, step: Step)
    requires Enabled(s, step) && (s.outbox.pending == [] ==> s.outbox.sent == 0)
    requires !(step.Caller? && step.step.Draw?) && !step.ClearHandlers?
    ensures StepsLeft(Take(c, s, step)) < StepsLeft(s)
  {
    match step
    case Caller(t) => CallerDescends(s.table, t);
    case TakeLock(i) => LockDescends(c, s, i);
    case SendSome(n) => SendDescends(c, s, n);
    case SendFails => ReleaseDescends(c, s, step);
    case Unlock => ReleaseDescends(c, s, step);
    case ServerReceive(n) => ServerReceiveDescends(c, s, n);
    case ServerHandle => ServerHandleDescends(c, s);
    case ServerWriter(o) => WriterDescends(c, s, o);
    case ClientReceive(_) => ReaderDescends(c, s, step);
    case ClientDispatch => ReaderDescends(c, s, step);
    case Close =>
    case ReaderExits =>
  }

  lemma {:induction false} BuffersFirst(parts: seq<Bytes>)
    requires parts != []
    ensures BuffersLoad(parts, 1) >= 3 * |parts[0]|
  {
    if |parts| > 1 {
      BuffersFirst(parts[..|parts| - 1]);
    }
  }

  lemma StepsLeftNat(s: State)
    requires Conserved(s.outbox)
    ensures StepsLeft(s) >= 0
  {
    if s.outbox.pending != [] {
      BuffersFirst(s.outbox.pending);
    }
  }

  /** From state `i` on no call is made, and disconnect does not begin. */
  predicate NoCallsSince(run: seq<State>, i: nat)
    requires i < |run|
  {
    forall j | i <= j < |run| :: |run[j].table.calls| == |run[i].table.calls| && run[j].open
  }

  lemma NextDescends(c: Config, s: State, s': State)
    requires Next(c, s, s') && Conserved(s.outbox) && |s'.table.calls| == |s.table.calls| && s.open
    ensures StepsLeft(s') < StepsLeft(s)
  {
    var step :| Enabled(s, step) && s' == Take(c, s, step);
    assert !(step.Caller? && step.step.Draw?);
    StepsDescend(c, s, step);
  }

  /** Payloads of earlier calls are among those of later states. */
  lemma {:induction false} SmallSince(c: Config, run: seq<State>, i: nat, j: nat)
    requires IsRun(c, run) && i <= j < |run| && Small(run[j].table)
    ensures Small(run[i].table)
  {
    if i < j {
      assert Next(c, run[j - 1], run[j]);
      NextKeeps(c, run[j - 1], run[j]);
      SmallSince(c, run, i, j - 1);
    }
  }

  lemma RunConserved(c: Config, run: seq<State>, i: nat)
    requires IsRun(c, run) && i < |run| && Small(run[|run| - 1].table)
    ensures Conserved(run[i].outbox)
  {
    SmallSince(c, run, i, |run| - 1);
    RunKeeps(c, run, i);
  }

  lemma StepLess(c: Config, run: seq<State>, j: nat)
    requires IsRun(c, run) && 0 < j < |run| && Small(run[|run| - 1].table)
    requires |run[j].table.calls| == |run[j - 1].table.calls| && run[j - 1].open
    ensures StepsLeft(run[j]) < StepsLeft(run[j - 1])
  {
    RunConserved(c, run, j - 1);
    assert Next(c, run[j - 1], run[j]);
    NextDescends(c, run[j - 1], run[j]);
  }

  lemma {:induction false} Falling(measure: seq<int>, i: nat, j: nat)
    requires i <= j < |measure| && forall m | i < m < |measure| :: measure[m] < measure[m - 1]
    ensures j - i + measure[j] <= measure[i]
  {
    if i < j {
      Falling(measure, i, j - 1);
    }
  }

  function Measure(run: seq<State>): (r: seq<int>)
    ensures |r| == |run| && forall m | 0 <= m < |run| :: r[m] == StepsLeft(run[m])
  {
    seq(|run|, m requires 0 <= m < |run| => StepsLeft(run[m]))
  }

  lemma MeasureFalls(c: Config, run: seq<State>, i: nat)
    requires IsRun(c, run) && i < |run| && NoCallsSince(run, i) && Small(run[|run| - 1].table)
    ensures forall m | i < m < |run| :: Measure(run)[m] < Measure(run)[m - 1]
  {
    forall m | i < m < |run|
      ensures Measure(run)[m] < Measure(run)[m - 1]
    {
      StepLess(c, run, m);
    }
  }

  /**
   After its last call a run has at most `StepsLeft` more steps until disconnect begins, whatever times
   out or fails.
   */
  lemma ComesToRest(c: Config, run: seq<State>, i: nat)
    requires IsRun(c, run) && i < |run| && NoCallsSince(run, i) && Small(run[|run| - 1].table)
    ensures |run| - 1 - i <= StepsLeft(run[i])
  {
    MeasureFalls(c, run, i);
    Falling(Measure(run), i, |run| - 1);
    RunConserved(c, run, |run| - 1);
    StepsLeftNat(run[|run| - 1]);
  }

  // ---------- everything can be answered ----------

  /** No write has been cut off: only a write that is under way has sent part of a frame. */
  predicate Clean(l: Line) {
    !l.garbled && (l.tail != [] ==> l.holder.Some? && 0 < l.holder.value.sent < |l.holder.value.data|)
  }

  predicate NoneFailing(t: Table) {
    forall k | 0 <= k < |t.calls| :: !Failing(t.calls[k])
  }

  /** Nothing has gone wrong, and nothing has been shut down. */
  predicate Well(s: State) {
    Working(s) && Clean(s.line) && NoneFailing(s.table)
  }

  lemma InsideLine(c: Config, s: State, step: Step)
    requires Enabled(s, step) && !Outside(step) && Clean(s.line)
    ensures Clean(Take(c, s, step).line)
  {}

  lemma InsideTable(t: Table, step: TableStep)
    requires TableEnabled(t, step) && NoneFailing(t)
    requires !step.Draw? && !step.TimeOut? && !step.FailWrite? && !step.Clear?
    ensures NoneFailing(TableTake(t, step)) && |TableTake(t, step).calls| == |t.calls|
  {
    TableFailing(t, step);
  }

  lemma InsideStep(c: Config, s: State, step: Step)
    requires Enabled(s, step) && !Outside(step) && Well(s)
    ensures Well(Take(c, s, step)) && RequestsKept(s.table, Take(c, s, step).table)
    ensures |Take(c, s, step).table.calls| == |s.table.calls|
  {
    InsideLine(c, s, step);
    TableStepTaken(c, s, step);
    var t := TableStepOf(s, step);
    if t.Some? {
      InsideTable(s.table, t.value);
      TableRequests(s.table, t.value);
    }
  }

  lemma InsideDescends(c: Config, s: State, step: Step)
    requires Enabled(s, step) && !Outside(step) && Conserved(s.outbox)
    ensures StepsLeft(Take(c, s, step)) < StepsLeft(s) && StepsLeft(s) >= 0
  {
    StepsDescend(c, s, step);
    StepsLeftNat(s);
  }

  lemma SmallKept(t: Table, t': Table)
    requires Small(t) && RequestsKept(t, t') && |t'.calls| == |t.calls|
    ensures Small(t')
  {
    forall k | 0 <= k < |t'.calls|
      ensures |PREFIX| + |t'.calls[k].payload| < WORD
    {
      assert Request(t'.calls[k]) == Request(t.calls[k]);
    }
  }

  function Weight(s: State): nat {
    if StepsLeft(s) >= 0 then StepsLeft(s) else 0
  }

  lemma InsideWeight(c: Config, run: seq<State>, step: Step) returns (run': seq<State>)
    requires IsRun(c, run) && Small(run[|run| - 1].table) && Well(run[|run| - 1])
    requires Enabled(run[|run| - 1], step) && !Outside(step)
    ensures IsRun(c, run') && run'[|run'| - 1] == Take(c, run[|run| - 1], step)
    ensures Small(run'[|run'| - 1].table) && Weight(run'[|run'| - 1]) < Weight(run[|run| - 1])
  {
    var s := run[|run| - 1];
    RunConserved(c, run, |run| - 1);
    InsideStep(c, s, step);
    InsideDescends(c, s, step);
    run' := Extend(c, run, step);
    SmallKept(s.table, run'[|run'| - 1].table);
    RunConserved(c, run', |run'| - 1);
    StepsLeftNat(run'[|run'| - 1]);
  }

  lemma InsideNext(c: Config, run: seq<State>) returns (run': seq<State>, s: State, s': State)
    requires IsRun(c, run) && Well(run[|run| - 1]) && Small(run[|run| - 1].table) && !AtRest(run[|run| - 1])
    ensures s == run[|run| - 1] && IsRun(c, run') && s' == run'[|run'| - 1]
    ensures Well(s') && Small(s'.table) && Weight(s') < Weight(s)
    ensures RequestsKept(s.table, s'.table) && |s'.table.calls| == |s.table.calls|
  {
    s := run[|run| - 1];
    var step :| Enabled(s, step) && !Outside(step);
    InsideStep(c, s, step);
    run' := InsideWeight(c, run, step);
    s' := run'[|run'| - 1];
  }

  /** Every run in which nothing has gone wrong can go on to rest, and nothing goes wrong. */
  lemma {:induction false} ReachRest(c: Config, run: seq<State>) returns (run': seq<State>)
    requires IsRun(c, run) && Well(run[|run| - 1]) && Small(run[|run| - 1].table)
    ensures IsRun(c, run') && Well(run'[|run'| - 1]) && AtRest(run'[|run'| - 1])
    ensures RequestsKept(run[|run| - 1].table, run'[|run'| - 1].table)
    ensures |run'[|run'| - 1].table.calls| == |run[|run| - 1].table.calls|
    decreases Weight(run[|run| - 1])
  {
    run' := run;
    if !AtRest(run[|run| - 1]) {
      var s, s';
      run', s, s' := InsideNext(c, run);
      run' := ReachRest(c, run');
      KeptTwice(s.table, s'.table, run'[|run'| - 1].table);
    }
  }

  lemma KeptTwice(t: Table, t': Table, t'': Table)
    requires RequestsKept(t, t') && RequestsKept(t', t'')
    ensures RequestsKept(t, t'')
  {}

  lemma {:induction false} DrawAll(c: Config, payloads: seq<Bytes>) returns (run: seq<State>)
    requires forall p | p in payloads :: |PREFIX| + |p| < WORD
    ensures IsRun(c, run) && Well(run[|run| - 1]) && Small(run[|run| - 1].table)
    ensures Payloads(run[|run| - 1].table, payloads)
  {
    if payloads == [] {
      run := [State(NO_CALLS, Line(None, [], [], [], [], false), [], Intake([], [], [], []), EMPTY_OUTBOX, [],
                    Intake([], [], [], []), true, true)];
    } else {
      var init, last := payloads[..|payloads| - 1], payloads[|payloads| - 1];
      run := DrawAll(c, init);
      run := Extend(c, run, Caller(Draw(last)));
    }
  }

  /** The calls made are for these payloads, in this order. */
  predicate Payloads(t: Table, payloads: seq<Bytes>) {
    |t.calls| == |payloads| && forall k | 0 <= k < |payloads| :: t.calls[k].payload == payloads[k]
  }

  lemma PayloadsKept(t: Table, t': Table, payloads: seq<Bytes>)
    requires Payloads(t, payloads) && RequestsKept(t, t') && |t'.calls| == |t.calls|
    ensures Payloads(t', payloads)
  {
    forall k | 0 <= k < |payloads|
      ensures t'.calls[k].payload == payloads[k]
    {
      assert Request(t'.calls[k]) == Request(t.calls[k]);
    }
  }

  lemma ReturnedTrue(call: Call)
    requires call.phase.Returned? && !Failing(call)
    requires call.phase.answer.Some? ==> call.phase.answer.value == PREFIX + call.payload
    ensures call.phase == Returned(Some(PREFIX + call.payload))
  {
    match call.phase
    case Returned(answer) =>
      match answer
      case None => assert false;
      case Some(v) =>
  }

  /**
   Whatever is asked by up to 2^32 callers at once, there is a run in which each of them has returned
   true with the prefix and its own payload.
   */
  lemma EverythingCanBeAnswered(c: Config, payloads: seq<Bytes>) returns (run: seq<State>)
    requires |payloads| <= WORD && forall p | p in payloads :: |PREFIX| + |p| < WORD
    ensures IsRun(c, run) && Payloads(run[|run| - 1].table, payloads)
    ensures forall call | call in run[|run| - 1].table.calls :: call.phase == Returned(Some(PREFIX + call.payload))
  {
    var start := DrawAll(c, payloads);
    run := ReachRest(c, start);
    var s := run[|run| - 1];
    PayloadsKept(start[|start| - 1].table, s.table, payloads);
    SmallKept(start[|start| - 1].table, s.table);
    forall k | 0 <= k < |s.table.calls|
      ensures s.table.calls[k].phase == Returned(Some(PREFIX + s.table.calls[k].payload))
    {
      RestReturns(c, run, |run| - 1, k);
      ReturnedTrue(s.table.calls[k]);
    }
  }

  // ---------- what is not in the system's hands ----------

  /**
   Any call can be made; a send can take any part of the rest of a frame, or fail; any part of what is in
   flight can arrive; and a caller that has no answer can time out.
   */
  lemma NothingForced(c: Config, run: seq<State>, payload: Bytes, n: nat, k: nat)
    requires IsRun(c, run)
    ensures var s := run[|run| - 1];
      && Enabled(s, Caller(Draw(payload)))
      && (s.open && s.line.CanSend() && 0 < n <= |s.line.holder.value.data| - s.line.holder.value.sent ==>
            Enabled(s, SendSome(n)))
      && (s.line.CanSend() ==> Enabled(s, SendFails))
      && (s.server.todo == [] && 0 < n <= |s.up| ==> Enabled(s, ServerReceive(n)))
      && (s.outbox.running && s.outbox.pending != [] && 0 < n <= |s.outbox.pending[0]| - s.outbox.sent ==>
            Enabled(s, ServerWriter(OutboxStep.Accept(n))) && Enabled(s, ServerWriter(OutboxStep.Fail)))
      && (s.reading && s.client.todo == [] && 0 < n <= |s.down| ==> Enabled(s, ClientReceive(n)))
      && (k < |s.table.calls| && s.table.calls[k].phase == Waiting && s.table.calls[k].promise == [] ==>
            Enabled(s, Caller(TimeOut(k))))
  {
    EchoAnswers.GuardsImplied(c, run, |run| - 1);
  }

  /** Disconnect can begin at any time, and once the reader has handled its frames it drops the handlers. */
  lemma CanDisconnect(c: Config, run: seq<State>) returns (run': seq<State>)
    requires IsRun(c, run) && Working(run[|run| - 1]) && run[|run| - 1].client.todo == []
    ensures IsRun(c, run') && run'[|run'| - 1].table.cleared && run'[|run'| - 1].table.handlers == map[]
    ensures run'[|run'| - 1].table.calls == run[|run| - 1].table.calls
  {
    run' := Extend(c, run, Close);
    run' := Extend(c, run', ReaderExits);
    run' := Extend(c, run', ClearHandlers);
  }
}
