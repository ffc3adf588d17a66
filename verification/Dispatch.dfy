/**
 Per-stream workers with background cleanup (include/tcp_server.h): one dispatcher per client feeds the
 processor of each frame's stream, creating it when there is none; each processor's worker runs the
 callbacks; the cleaner destroys processors that no dispatcher holds.
 */
module Dispatch {
  import opened Words
  import opened Frames
  import opened Parser
  import opened Links
  import opened Picking

  // ---------- processors ----------

  /** A worker: about to test `running`, about to take a frame, with a frame in hand, or gone. */
  datatype Worker = AtTop | Checked | Busy(frame: Frame) | Exited

  datatype Processor = Processor(stream: Word, queue: seq<Frame>, worker: Worker, running: bool) {
    /** The frames it has been given and not yet settled, in order. */
    function Content(): seq<Frame> {
      if worker.Busy? then [worker.frame] + queue else queue
    }

    predicate Dead() {
      worker.Exited? && queue == []
    }

    predicate CanPop() {
      worker.Checked? && queue != []
    }

    function Add(f: Frame): Processor {
      this.(queue := queue + [f])
    }

    function Check(): Processor {
      this.(worker := if running then Checked else Exited)
    }

    function Pop(): Processor
      requires CanPop()
    {
      this.(queue := queue[1..], worker := Busy(queue[0]))
    }
  }

  // ---------- dispatchers and the cleaner ----------

  /** What a dispatcher holds a reference to: nothing, a processor found, or one it has fed. */
  datatype Hold = Nothing | Found(proc: nat) | Fed(proc: nat)

  datatype Dispatcher = Dispatcher(intake: Intake, hold: Hold)

  /** The cleaner holds the registry's lock unless asleep. */
  datatype Cleaner =
    | Asleep
    | Scanning(doomed: seq<Word>)
    | Erasing(doomed: seq<Word>)
    | Joining(doomed: seq<Word>, stream: Word, proc: nat)

  /** What became of a frame a processor was given. */
  datatype Entry = Handled(frame: Frame) | Dropped(frame: Frame)

  datatype State = State(
    clients: seq<Dispatcher>,
    procs: seq<Processor>,          // every processor ever created
    registry: map<Word, nat>,       // stream to its processor
    cleaner: Cleaner,
    // log
    entered: seq<Frame>,            // frames added to queues
    log: seq<Entry>,
    calls: seq<Frame>)              // frames the request callback was run on

  predicate Init(s: State) {
    && (forall d | d in s.clients :: d == Dispatcher(Intake([], [], [], []), Nothing))
    && s == State(s.clients, [], map[], Asleep, [], [], [])
  }

  datatype Step =
    | Feed(i: nat, chunk: Bytes)
    | Find(i: nat)
    | Add(i: nat)
    | Release(i: nat)
    | Check(p: nat)
    | Wait(p: nat)
    | Pop(p: nat)
    | Call(p: nat)
    | Wake
    | Condemn(stream: Word)
    | EndScan
    | Erase
    | Join
    | Sleep

  predicate Unheld(s: State, p: nat) {
    forall d | d in s.clients :: d.hold.Nothing? || d.hold.proc != p
  }

  predicate Enabled(s: State, step: Step) {
    match step
    case Feed(i, _) => i < |s.clients| && s.clients[i].intake.todo == [] && s.clients[i].hold.Nothing?
    case Find(i) =>
      i < |s.clients| && s.clients[i].intake.todo != [] && s.clients[i].hold.Nothing? && s.cleaner.Asleep?
    case Add(i) =>
      i < |s.clients| && s.clients[i].intake.todo != [] && s.clients[i].hold.Found? && s.clients[i].hold.proc < |s.procs|
    case Release(i) => i < |s.clients| && s.clients[i].hold.Fed?
    case Check(p) => p < |s.procs| && s.procs[p].worker.AtTop?
    case Wait(p) => p < |s.procs| && s.procs[p].worker.Checked? && s.procs[p].queue == []
    case Pop(p) => p < |s.procs| && s.procs[p].CanPop()
    case Call(p) => p < |s.procs| && s.procs[p].worker.Busy?
    case Wake => s.cleaner.Asleep?
    case Condemn(stream) =>
      s.cleaner.Scanning? && stream in s.registry && stream !in s.cleaner.doomed && Unheld(s, s.registry[stream])
    case EndScan => s.cleaner.Scanning?
    case Erase =>
      && s.cleaner.Erasing? && s.cleaner.doomed != []
      && s.cleaner.doomed[0] in s.registry && s.registry[s.cleaner.doomed[0]] < |s.procs|
    case Join => s.cleaner.Joining? && s.cleaner.proc < |s.procs| && s.procs[s.cleaner.proc].worker.Exited?
    case Sleep => s.cleaner.Erasing? && s.cleaner.doomed == []
  }

  function Drops(fs: seq<Frame>): (r: seq<Entry>)
    ensures |r| == |fs| && forall i | 0 <= i < |fs| :: r[i] == Dropped(fs[i])
  {
    seq(|fs|, i requires 0 <= i < |fs| => Dropped(fs[i]))
  }

  function Take(checks: bool, s: State, step: Step): State
    requires Enabled(s, step)
  {
    match step
    case Feed(i, chunk) => s.(clients := s.clients[i := s.clients[i].(intake := s.clients[i].intake.Receive(chunk))])
    case Find(i) =>
      var stream := s.clients[i].intake.todo[0].streamId;
      if stream in s.registry then
        s.(clients := s.clients[i := s.clients[i].(hold := Found(s.registry[stream]))])
      else
        s.(clients := s.clients[i := s.clients[i].(hold := Found(|s.procs|))],
           procs := s.procs + [Processor(stream, [], AtTop, true)],
           registry := s.registry[stream := |s.procs|])
    case Add(i) =>
      var d := s.clients[i];
      var f := d.intake.todo[0].(clientId := i);
      s.(clients := s.clients[i := Dispatcher(d.intake.Handle(), Fed(d.hold.proc))],
         procs := s.procs[d.hold.proc := s.procs[d.hold.proc].Add(f)],
         entered := s.entered + [f])
    case Release(i) => s.(clients := s.clients[i := s.clients[i].(hold := Nothing)])
    case Check(p) => s.(procs := s.procs[p := s.procs[p].Check()])
    case Wait(p) => s.(procs := s.procs[p := s.procs[p].(worker := AtTop)])
    case Pop(p) => s.(procs := s.procs[p := s.procs[p].Pop()])
    case Call(p) =>
      var f := s.procs[p].worker.frame;
      s.(procs := s.procs[p := s.procs[p].(worker := AtTop)],
         log := s.log + [Handled(f)],
         calls := if ForCallback(checks).Matches(f) then s.calls + [f] else s.calls)
    case Wake => s.(cleaner := Scanning([]))
    case Condemn(stream) => s.(cleaner := Scanning(s.cleaner.doomed + [stream]))
    case EndScan => s.(cleaner := Erasing(s.cleaner.doomed))
    case Erase =>
      var stream := s.cleaner.doomed[0];
      var p := s.registry[stream];
      s.(registry := s.registry - {stream},
         procs := s.procs[p := s.procs[p].(running := false)],
         cleaner := Joining(s.cleaner.doomed[1..], stream, p))
    case Join =>
      var p := s.cleaner.proc;
      s.(procs := s.procs[p := s.procs[p].(queue := [])],
         log := s.log + Drops(s.procs[p].queue),
         cleaner := Erasing(s.cleaner.doomed))
    case Sleep => s.(cleaner := Asleep)
  }

  ghost predicate Next(checks: bool, s: State, s': State) {
    exists step :: Enabled(s, step) && s' == Take(checks, s, step)
  }

  ghost predicate IsRun(checks: bool, run: seq<State>) {
    && run != []
    && Init(run[0])
    && forall i, j | 0 <= i < j < |run| && j == i + 1 :: Next(checks, run[i], run[j])
  }

  // ---------- histories ----------

  function Settled(log: seq<Entry>): (r: seq<Frame>)
    ensures |r| == |log| && forall i | 0 <= i < |log| :: r[i] == log[i].frame
  {
    seq(|log|, i requires 0 <= i < |log| => log[i].frame)
  }

  /** The callbacks that the handled entries of the log stand for. */
  function CallsOf(checks: bool, log: seq<Entry>): seq<Frame> {
    if log == [] then []
    else
      var e := log[|log| - 1];
      CallsOf(checks, log[..|log| - 1]) + if e.Handled? && ForCallback(checks).Matches(e.frame) then [e.frame] else []
  }

  lemma {:induction false} CallsOfDrops(checks: bool, log: seq<Entry>, fs: seq<Frame>)
    ensures CallsOf(checks, log + Drops(fs)) == CallsOf(checks, log)
  {
    if fs == [] {
      assert log + Drops(fs) == log;
    } else {
      var n := |fs| - 1;
      assert (log + Drops(fs))[..|log| + n] == log + Drops(fs[..n]);
      CallsOfDrops(checks, log, fs[..n]);
    }
  }

  // ---------- the invariant ----------

  /** The processor that frames of a stream are in: the registered one, or the one being destroyed. */
  function Owner(registry: map<Word, nat>, cleaner: Cleaner, stream: Word): Option<nat> {
    if stream in registry then Some(registry[stream])
    else if cleaner.Joining? && cleaner.stream == stream then Some(cleaner.proc)
    else None
  }

  /** Every processor is dead or owns its stream. */
  predicate ProcsInv(procs: seq<Processor>, registry: map<Word, nat>, cleaner: Cleaner) {
    forall q | 0 <= q < |procs| :: procs[q].Dead() || Owner(registry, cleaner, procs[q].stream) == Some(q)
  }

  predicate Serves(procs: seq<Processor>, stream: Word, p: nat) {
    p < |procs| && procs[p].stream == stream && procs[p].running && !procs[p].worker.Exited?
  }

  predicate RegistryInv(procs: seq<Processor>, registry: map<Word, nat>) {
    forall stream | stream in registry :: Serves(procs, stream, registry[stream])
  }

  predicate HoldInv(procs: seq<Processor>, registry: map<Word, nat>, d: Dispatcher) {
    d.hold.Nothing? ||
    (&& d.hold.proc < |procs|
     && procs[d.hold.proc].stream in registry && registry[procs[d.hold.proc].stream] == d.hold.proc
     && (d.hold.Found? ==> d.intake.todo != [] && d.intake.todo[0].streamId == procs[d.hold.proc].stream))
  }

  predicate Apart(doomed: seq<Word>) {
    forall i, j | 0 <= i < j < |doomed| :: doomed[i] != doomed[j]
  }

  predicate JoinInv(procs: seq<Processor>, registry: map<Word, nat>, cleaner: Cleaner) {
    cleaner.Joining? ==>
      && cleaner.stream !in registry && cleaner.proc < |procs|
      && procs[cleaner.proc].stream == cleaner.stream && !procs[cleaner.proc].running
  }

  /** No dispatcher can get hold of what the cleaner is about to destroy. */
  predicate DoomedInv(s: State) {
    !s.cleaner.Asleep? ==>
      && Apart(s.cleaner.doomed)
      && forall stream | stream in s.cleaner.doomed :: stream in s.registry && Unheld(s, s.registry[stream])
  }

  predicate Structure(s: State) {
    && ProcsInv(s.procs, s.registry, s.cleaner) && RegistryInv(s.procs, s.registry)
    && (forall d | d in s.clients :: HoldInv(s.procs, s.registry, d))
    && JoinInv(s.procs, s.registry, s.cleaner) && DoomedInv(s)
  }

  lemma ProcKeeps(s: State, p: nat, proc: Processor)
    requires Structure(s) && p < |s.procs|
    requires proc.stream == s.procs[p].stream && proc.running == s.procs[p].running
    requires (proc.running ==> !proc.worker.Exited?) && (s.procs[p].Dead() ==> proc.Dead())
    ensures Structure(s.(procs := s.procs[p := proc]))
  {
    var s' := s.(procs := s.procs[p := proc]);
    forall d | d in s'.clients
      ensures HoldInv(s'.procs, s'.registry, d)
    {
      assert HoldInv(s.procs, s.registry, d);
    }
  }

  lemma ClientKeeps(s: State, i: nat, d: Dispatcher)
    requires Structure(s) && i < |s.clients| && HoldInv(s.procs, s.registry, d)
    requires s.cleaner.Asleep? || d.hold.Nothing? || (!s.clients[i].hold.Nothing? && d.hold.proc == s.clients[i].hold.proc)
    ensures Structure(s.(clients := s.clients[i := d]))
  {
    var s' := s.(clients := s.clients[i := d]);
    forall p | Unheld(s, p) && !s.cleaner.Asleep?
      ensures Unheld(s', p)
    {
      assert s.clients[i] in s.clients;
    }
  }

  lemma CreateKeeps(s: State, stream: Word)
    requires Structure(s) && s.cleaner.Asleep? && stream !in s.registry
    ensures Structure(s.(procs := s.procs + [Processor(stream, [], AtTop, true)], registry := s.registry[stream := |s.procs|]))
  {
    var s' := s.(procs := s.procs + [Processor(stream, [], AtTop, true)], registry := s.registry[stream := |s.procs|]);
    forall d | d in s'.clients
      ensures HoldInv(s'.procs, s'.registry, d)
    {
      assert HoldInv(s.procs, s.registry, d);
    }
  }

  lemma CleanerKeeps(checks: bool, s: State, step: Step)
    requires Structure(s) && Enabled(s, step)
    requires step.Wake? || step.Condemn? || step.EndScan? || step.Join? || step.Sleep?
    ensures Structure(Take(checks, s, step))
  {
    var s' := Take(checks, s, step);
    forall d | d in s'.clients
      ensures HoldInv(s'.procs, s'.registry, d)
    {
      assert HoldInv(s.procs, s.registry, d);
    }
  }

  lemma EraseKeeps(checks: bool, s: State)
    requires Structure(s) && Enabled(s, Erase)
    ensures Structure(Take(checks, s, Erase))
  {
    var s' := Take(checks, s, Erase);
    forall d | d in s'.clients
      ensures HoldInv(s'.procs, s'.registry, d)
    {
      assert HoldInv(s.procs, s.registry, d);
    }
  }

  lemma FindKeeps(checks: bool, s: State, i: nat)
    requires Structure(s) && Enabled(s, Find(i))
    ensures Structure(Take(checks, s, Find(i)))
  {
    var d := s.clients[i];
    var stream := d.intake.todo[0].streamId;
    if stream in s.registry {
      assert Serves(s.procs, stream, s.registry[stream]);
      ClientKeeps(s, i, d.(hold := Found(s.registry[stream])));
    } else {
      CreateKeeps(s, stream);
      var s' := s.(procs := s.procs + [Processor(stream, [], AtTop, true)], registry := s.registry[stream := |s.procs|]);
      ClientKeeps(s', i, d.(hold := Found(|s.procs|)));
    }
  }

  lemma AddKeeps(checks: bool, s: State, i: nat)
    requires Structure(s) && Enabled(s, Add(i))
    ensures Structure(Take(checks, s, Add(i)))
  {
    var d := s.clients[i];
    var p := d.hold.proc;
    assert HoldInv(s.procs, s.registry, d);
    assert Serves(s.procs, s.procs[p].stream, p);
    var proc := s.procs[p].Add(d.intake.todo[0].(clientId := i));
    ProcKeeps(s, p, proc);
    ClientKeeps(s.(procs := s.procs[p := proc]), i, Dispatcher(d.intake.Handle(), Fed(p)));
  }

  lemma WorkerKeeps(checks: bool, s: State, step: Step)
    requires Structure(s) && Enabled(s, step) && (step.Check? || step.Wait? || step.Pop? || step.Call?)
    ensures Structure(Take(checks, s, step))
  {
    ProcKeeps(s, step.p, Take(checks, s, step).procs[step.p]);
  }

  lemma StructureKept(checks: bool, s: State, step: Step)
    requires Structure(s) && Enabled(s, step)
    ensures Structure(Take(checks, s, step))
  {
    match step
    case Feed(i, chunk) => ClientKeeps(s, i, s.clients[i].(intake := s.clients[i].intake.Receive(chunk)));
    case Find(i) => FindKeeps(checks, s, i);
    case Add(i) => AddKeeps(checks, s, i);
    case Release(i) => ClientKeeps(s, i, s.clients[i].(hold := Nothing));
    case Check(_) => WorkerKeeps(checks, s, step);
    case Wait(_) => WorkerKeeps(checks, s, step);
    case Pop(_) => WorkerKeeps(checks, s, step);
    case Call(_) => WorkerKeeps(checks, s, step);
    case Erase => EraseKeeps(checks, s);
    case _ => CleanerKeeps(checks, s, step);
  }

  // ---------- where the frames are ----------

  /** The frames of a stream that its processor has and has not settled. */
  function Pending(s: State, stream: Word): seq<Frame> {
    var p := Owner(s.registry, s.cleaner, stream);
    if p.Some? && p.value < |s.procs| then s.procs[p.value].Content() else []
  }

  /** Frames leave a stream in the order in which they entered it. */
  predicate StreamFlow(entered: seq<Frame>, log: seq<Entry>, stream: Word, pending: seq<Frame>) {
    Pick(OfStream(stream), Settled(log)) + pending == Pick(OfStream(stream), entered)
  }

  predicate Flows(s: State, stream: Word) {
    StreamFlow(s.entered, s.log, stream, Pending(s, stream))
  }

  /** A client's frames enter in the order in which they are parsed. */
  predicate ClientFlow(entered: seq<Frame>, i: nat, intake: Intake) {
    IntakeInv(intake) && Pick(OfClient(i), entered) == Tag(i, intake.taken)
  }

  lemma OwnerServes(s: State, stream: Word)
    requires Structure(s)
    ensures var p := Owner(s.registry, s.cleaner, stream); p.Some? ==> p.value < |s.procs| && s.procs[p.value].stream == stream
  {}

  lemma ContentOwn(s: State, p: nat)
    requires Structure(s) && p < |s.procs| && Flows(s, s.procs[p].stream)
    ensures forall f | f in s.procs[p].Content() :: f.streamId == s.procs[p].stream
  {
    var stream := s.procs[p].stream;
    PickedMatch(OfStream(stream), s.entered);
    forall f | f in s.procs[p].Content()
      ensures f.streamId == stream
    {
      assert f in Pending(s, stream);
      assert f in Pick(OfStream(stream), s.entered);
    }
  }

  /** A processor changes without gaining or losing a frame. */
  lemma FlowsProc(s: State, s': State, p: nat, stream: Word)
    requires Flows(s, stream) && p < |s.procs| == |s'.procs| && s'.procs == s.procs[p := s'.procs[p]]
    requires s'.procs[p].Content() == s.procs[p].Content()
    requires s'.entered == s.entered && s'.log == s.log
    requires Owner(s'.registry, s'.cleaner, stream) == Owner(s.registry, s.cleaner, stream)
    ensures Flows(s', stream)
  {}

  lemma AddPending(checks: bool, s: State, i: nat, stream: Word)
    requires Structure(s) && Enabled(s, Add(i))
    ensures var f := s.clients[i].intake.todo[0].(clientId := i);
      Pending(Take(checks, s, Add(i)), stream) == if f.streamId == stream then Pending(s, stream) + [f] else Pending(s, stream)
  {
    assert HoldInv(s.procs, s.registry, s.clients[i]);
    OwnerServes(s, stream);
  }

  lemma EnterStream(entered: seq<Frame>, log: seq<Entry>, stream: Word, pending: seq<Frame>, f: Frame)
    requires StreamFlow(entered, log, stream, pending)
    ensures StreamFlow(entered + [f], log, stream, if f.streamId == stream then pending + [f] else pending)
  {
    PickOne(OfStream(stream), entered, f);
    Grow(Pick(OfStream(stream), Settled(log)), pending, [f], Pick(OfStream(stream), entered));
  }

  lemma AddFlows(checks: bool, s: State, i: nat, stream: Word)
    requires Structure(s) && Enabled(s, Add(i)) && Flows(s, stream)
    ensures Flows(Take(checks, s, Add(i)), stream)
  {
    AddPending(checks, s, i, stream);
    EnterStream(s.entered, s.log, stream, Pending(s, stream), s.clients[i].intake.todo[0].(clientId := i));
  }

  lemma CallFlows(checks: bool, s: State, p: nat, stream: Word)
    requires Structure(s) && Enabled(s, Call(p)) && Flows(s, stream) && Flows(s, s.procs[p].stream)
    ensures Flows(Take(checks, s, Call(p)), stream)
  {
    var f := s.procs[p].worker.frame;
    ContentOwn(s, p);
    CallPending(checks, s, p, stream);
    SettleFlows(s.entered, s.log, stream, Pending(s, stream), f, Pending(Take(checks, s, Call(p)), stream));
  }

  lemma SettleFlows(entered: seq<Frame>, log: seq<Entry>, stream: Word, pending: seq<Frame>, f: Frame, left: seq<Frame>)
    requires StreamFlow(entered, log, stream, pending)
    requires pending == if f.streamId == stream then [f] + left else left
    ensures StreamFlow(entered, log + [Handled(f)], stream, left)
  {
    LogLast(OfStream(stream), log, Handled(f));
    if f.streamId == stream {
      assert pending[1..] == left;
      Shift(Pick(OfStream(stream), Settled(log)), pending, Pick(OfStream(stream), entered));
    }
  }

  lemma CallPending(checks: bool, s: State, p: nat, stream: Word)
    requires Structure(s) && Enabled(s, Call(p))
    ensures var left := Pending(Take(checks, s, Call(p)), stream);
      Pending(s, stream) == if s.procs[p].stream == stream then [s.procs[p].worker.frame] + left else left
  {
    OwnerServes(s, stream);
  }

  lemma JoinFlows(checks: bool, s: State, stream: Word)
    requires Structure(s) && Enabled(s, Join) && Flows(s, stream) && Flows(s, s.cleaner.stream)
    ensures Flows(Take(checks, s, Join), stream)
  {
    var p := s.cleaner.proc;
    ContentOwn(s, p);
    LogDrops(s.log, s.procs[p].queue, s.cleaner.stream, stream);
    JoinPending(checks, s, stream);
  }

  lemma JoinPending(checks: bool, s: State, stream: Word)
    requires Structure(s) && Enabled(s, Join)
    ensures var q, left := s.procs[s.cleaner.proc].queue, Pending(Take(checks, s, Join), stream);
      if s.cleaner.stream == stream then left == [] && Pending(s, stream) == q else left == Pending(s, stream)
  {
    OwnerServes(s, stream);
  }

  lemma LogDrops(log: seq<Entry>, fs: seq<Frame>, own: Word, stream: Word)
    requires forall f | f in fs :: f.streamId == own
    ensures Pick(OfStream(stream), Settled(log + Drops(fs)))
         == if own == stream then Pick(OfStream(stream), Settled(log)) + fs else Pick(OfStream(stream), Settled(log))
  {
    PickAppend(OfStream(stream), Settled(log), fs);
    assert Settled(log + Drops(fs)) == Settled(log) + fs;
    if own == stream {
      PickAll(OfStream(stream), fs);
    } else {
      PickNone(OfStream(stream), fs);
    }
  }

  lemma FindFlows(checks: bool, s: State, i: nat, stream: Word)
    requires Structure(s) && Enabled(s, Find(i)) && Flows(s, stream)
    ensures Flows(Take(checks, s, Find(i)), stream)
  {
    FindPending(checks, s, i, stream);
    FlowsSame(s, Take(checks, s, Find(i)), stream);
  }

  lemma FindPending(checks: bool, s: State, i: nat, stream: Word)
    requires Structure(s) && Enabled(s, Find(i))
    ensures Pending(Take(checks, s, Find(i)), stream) == Pending(s, stream)
  {
    OwnerServes(s, stream);
  }

  lemma FlowsSame(s: State, s': State, stream: Word)
    requires Flows(s, stream) && s'.entered == s.entered && s'.log == s.log && Pending(s', stream) == Pending(s, stream)
    ensures Flows(s', stream)
  {}

  lemma WorkerFlows(checks: bool, s: State, step: Step, stream: Word)
    requires Flows(s, stream) && Enabled(s, step) && (step.Check? || step.Wait? || step.Pop?)
    ensures Flows(Take(checks, s, step), stream)
  {
    FlowsProc(s, Take(checks, s, step), step.p, stream);
  }

  lemma EraseFlows(checks: bool, s: State, stream: Word)
    requires Flows(s, stream) && Enabled(s, Erase)
    ensures Flows(Take(checks, s, Erase), stream)
  {
    FlowsProc(s, Take(checks, s, Erase), s.registry[s.cleaner.doomed[0]], stream);
  }

  lemma StillFlows(checks: bool, s: State, step: Step, stream: Word)
    requires Flows(s, stream) && Enabled(s, step)
    requires step.Feed? || step.Release? || step.Wake? || step.Condemn? || step.EndScan? || step.Sleep?
    ensures Flows(Take(checks, s, step), stream)
  {
    FlowsSame(s, Take(checks, s, step), stream);
  }

  lemma FlowsKept(checks: bool, s: State, step: Step, stream: Word)
    requires Structure(s) && Enabled(s, step) && forall w: Word :: Flows(s, w)
    ensures Flows(Take(checks, s, step), stream)
  {
    match step
    case Find(i) => FindFlows(checks, s, i, stream);
    case Add(i) => AddFlows(checks, s, i, stream);
    case Check(_) => WorkerFlows(checks, s, step, stream);
    case Wait(_) => WorkerFlows(checks, s, step, stream);
    case Pop(_) => WorkerFlows(checks, s, step, stream);
    case Call(p) => CallFlows(checks, s, p, stream);
    case Erase => EraseFlows(checks, s, stream);
    case Join => JoinFlows(checks, s, stream);
    case _ => StillFlows(checks, s, step, stream);
  }

  lemma ReceiveFlows(entered: seq<Frame>, i: nat, intake: Intake, chunk: Bytes)
    requires ClientFlow(entered, i, intake) && intake.todo == []
    ensures ClientFlow(entered, i, intake.Receive(chunk))
  {
    ReceiveKeeps(intake, chunk);
  }

  lemma EnterFlows(entered: seq<Frame>, i: nat, intake: Intake)
    requires ClientFlow(entered, i, intake) && intake.todo != []
    ensures ClientFlow(entered + [intake.todo[0].(clientId := i)], i, intake.Handle())
  {
    HandleKeeps(intake);
    PickOne(OfClient(i), entered, intake.todo[0].(clientId := i));
  }

  /** Another client's frame. */
  lemma OtherFlows(entered: seq<Frame>, i: nat, intake: Intake, f: Frame)
    requires ClientFlow(entered, i, intake) && f.clientId != i
    ensures ClientFlow(entered + [f], i, intake)
  {
    PickOne(OfClient(i), entered, f);
  }

  predicate ClientsFlow(s: State) {
    forall i | 0 <= i < |s.clients| :: ClientFlow(s.entered, i, s.clients[i].intake)
  }

  lemma ClientsKept(checks: bool, s: State, step: Step)
    requires ClientsFlow(s) && Enabled(s, step)
    ensures ClientsFlow(Take(checks, s, step))
  {
    var s' := Take(checks, s, step);
    forall j | 0 <= j < |s'.clients|
      ensures ClientFlow(s'.entered, j, s'.clients[j].intake)
    {
      assert ClientFlow(s.entered, j, s.clients[j].intake);
      if step.Feed? && j == step.i {
        ReceiveFlows(s.entered, j, s.clients[j].intake, step.chunk);
      } else if step.Add? && j == step.i {
        EnterFlows(s.entered, j, s.clients[j].intake);
      } else if step.Add? {
        OtherFlows(s.entered, j, s.clients[j].intake, s.clients[step.i].intake.todo[0].(clientId := step.i));
      }
    }
  }

  lemma CallsKept(checks: bool, s: State, step: Step)
    requires s.calls == CallsOf(checks, s.log) && Enabled(s, step)
    ensures var s' := Take(checks, s, step); s'.calls == CallsOf(checks, s'.log)
  {
    if step.Call? {
      CallsOfHandled(checks, s.log, s.procs[step.p].worker.frame);
    } else if step.Join? {
      CallsOfDrops(checks, s.log, s.procs[s.cleaner.proc].queue);
    }
  }

  lemma CallsOfHandled(checks: bool, log: seq<Entry>, f: Frame)
    ensures CallsOf(checks, log + [Handled(f)]) == CallsOf(checks, log) + if ForCallback(checks).Matches(f) then [f] else []
  {
    assert (log + [Handled(f)])[..|log|] == log;
  }

  ghost predicate Destroyed(procs: seq<Processor>, stream: Word) {
    exists q | 0 <= q < |procs| :: procs[q].stream == stream && !procs[q].running
  }

  /** Only processors that are destroyed drop frames. */
  ghost predicate DropsInv(log: seq<Entry>, procs: seq<Processor>) {
    forall e | e in log && e.Dropped? :: Destroyed(procs, e.frame.streamId)
  }

  lemma DestroyedStays(checks: bool, s: State, step: Step, stream: Word)
    requires Enabled(s, step) && Destroyed(s.procs, stream)
    ensures Destroyed(Take(checks, s, step).procs, stream)
  {
    var q :| 0 <= q < |s.procs| && s.procs[q].stream == stream && !s.procs[q].running;
    var s' := Take(checks, s, step);
    assert s'.procs[q].stream == stream && !s'.procs[q].running;
  }

  lemma DropsKept(checks: bool, s: State, step: Step)
    requires Structure(s) && Enabled(s, step) && (forall w: Word :: Flows(s, w)) && DropsInv(s.log, s.procs)
    ensures DropsInv(Take(checks, s, step).log, Take(checks, s, step).procs)
  {
    var s' := Take(checks, s, step);
    forall e | e in s.log && e.Dropped?
      ensures Destroyed(s'.procs, e.frame.streamId)
    {
      DestroyedStays(checks, s, step, e.frame.streamId);
    }
    if step.Join? {
      assert !s.procs[s.cleaner.proc].running;
      assert Destroyed(s.procs, s.cleaner.stream);
      DestroyedStays(checks, s, step, s.cleaner.stream);
      ContentOwn(s, s.cleaner.proc);
    }
  }

  // ---------- every run ----------

  ghost predicate Inv(checks: bool, s: State) {
    Structure(s) && (forall w: Word :: Flows(s, w)) && ClientsFlow(s)
    && s.calls == CallsOf(checks, s.log) && DropsInv(s.log, s.procs)
  }

  lemma InitFlow(i: nat)
    ensures ClientFlow([], i, Intake([], [], [], []))
  {
    assert Pick(OfClient(i), []) == [] && Tag(i, []) == [];
  }

  lemma InitInv(checks: bool, s: State)
    requires Init(s)
    ensures Inv(checks, s)
  {
    forall i | 0 <= i < |s.clients|
      ensures HoldInv(s.procs, s.registry, s.clients[i]) && ClientFlow([], i, s.clients[i].intake)
    {
      assert s.clients[i] in s.clients;
      InitFlow(i);
    }
  }

  lemma StepKeeps(checks: bool, s: State, step: Step)
    requires Inv(checks, s) && Enabled(s, step)
    ensures Inv(checks, Take(checks, s, step))
  {
    StructureKept(checks, s, step);
    forall w: Word
      ensures Flows(Take(checks, s, step), w)
    {
      FlowsKept(checks, s, step, w);
    }
    ClientsKept(checks, s, step);
    CallsKept(checks, s, step);
    DropsKept(checks, s, step);
  }

  lemma NextKeeps(checks: bool, s: State, s': State)
    requires Inv(checks, s) && Next(checks, s, s')
    ensures Inv(checks, s') && |s'.clients| == |s.clients|
  {
    var step :| Enabled(s, step) && s' == Take(checks, s, step);
    StepKeeps(checks, s, step);
  }

  lemma {:induction false} RunKeeps(checks: bool, run: seq<State>, i: nat)
    requires IsRun(checks, run) && i < |run|
    ensures Inv(checks, run[i])
  {
    if i == 0 {
      InitInv(checks, run[0]);
    } else {
      RunKeeps(checks, run, i - 1);
      assert Next(checks, run[i - 1], run[i]);
      NextKeeps(checks, run[i - 1], run[i]);
    }
  }

  /** The bounds that `Enabled` checks always hold, so they block nothing. */
  lemma GuardsImplied(checks: bool, run: seq<State>, n: nat)
    requires IsRun(checks, run) && n < |run|
    ensures var s := run[n];
      && (forall d | d in s.clients && d.hold.Found? :: d.intake.todo != [] && d.hold.proc < |s.procs|)
      && (s.cleaner.Erasing? && s.cleaner.doomed != [] ==>
            s.cleaner.doomed[0] in s.registry && s.registry[s.cleaner.doomed[0]] < |s.procs|)
      && (s.cleaner.Joining? ==> s.cleaner.proc < |s.procs|)
  {
    RunKeeps(checks, run, n);
    var s := run[n];
    forall d | d in s.clients && d.hold.Found?
      ensures d.intake.todo != [] && d.hold.proc < |s.procs|
    {
      assert HoldInv(s.procs, s.registry, d);
    }
  }

  /** In every state of every run, at most one worker is alive per stream. */
  lemma OneWorkerPerStream(checks: bool, run: seq<State>, i: nat, p: nat, q: nat)
    requires IsRun(checks, run) && i < |run| && p < |run[i].procs| && q < |run[i].procs|
    requires run[i].procs[p].stream == run[i].procs[q].stream
    requires !run[i].procs[p].worker.Exited? && !run[i].procs[q].worker.Exited?
    ensures p == q
  {
    RunKeeps(checks, run, i);
  }

  // ---------- callbacks and wire order ----------

  /** The frames of a stream that a client has put on its wire, in order. */
  function Wired(s: State, i: nat, stream: Word): seq<Frame>
    requires i < |s.clients|
  {
    Pick(OfStream(stream), Tag(i, Parse(s.clients[i].intake.read)))
  }

  /** Of a client's frames of a stream, those still on their way. */
  function Underway(s: State, i: nat, stream: Word): seq<Frame>
    requires i < |s.clients|
  {
    Pick(OfClient(i), Pending(s, stream)) + Pick(OfStream(stream), Tag(i, s.clients[i].intake.todo))
  }

  lemma Entered(entered: seq<Frame>, log: seq<Entry>, i: nat, stream: Word, pending: seq<Frame>, intake: Intake)
    requires StreamFlow(entered, log, stream, pending) && ClientFlow(entered, i, intake)
    ensures Pick(OfStream(stream), Tag(i, intake.taken)) == Pick(OfBoth(i, stream), Settled(log)) + Pick(OfClient(i), pending)
  {
    PickBoth(i, stream, entered);
    PickBoth(i, stream, Settled(log));
    PickAppend(OfClient(i), Pick(OfStream(stream), Settled(log)), pending);
  }

  lemma TaggedSplit(k: Key, i: nat, a: seq<Frame>, b: seq<Frame>)
    ensures Pick(k, Tag(i, a + b)) == Pick(k, Tag(i, a)) + Pick(k, Tag(i, b))
  {
    assert Tag(i, a + b) == Tag(i, a) + Tag(i, b);
    PickAppend(k, Tag(i, a), Tag(i, b));
  }

  /** Conservation: settled, then in the stream's processor, then with the dispatcher, in wire order. */
  lemma SettledThenUnderway(checks: bool, run: seq<State>, n: nat, i: nat, stream: Word)
    requires IsRun(checks, run) && n < |run| && i < |run[n].clients|
    ensures Wired(run[n], i, stream) == Pick(OfBoth(i, stream), Settled(run[n].log)) + Underway(run[n], i, stream)
  {
    RunKeeps(checks, run, n);
    var s := run[n];
    assert Flows(s, stream) && ClientFlow(s.entered, i, s.clients[i].intake);
    WiredSplit(s.entered, s.log, i, stream, Pending(s, stream), s.clients[i].intake);
  }

  lemma WiredSplit(entered: seq<Frame>, log: seq<Entry>, i: nat, stream: Word, pending: seq<Frame>, intake: Intake)
    requires StreamFlow(entered, log, stream, pending) && ClientFlow(entered, i, intake)
    ensures Pick(OfStream(stream), Tag(i, Parse(intake.read)))
         == Pick(OfBoth(i, stream), Settled(log)) + (Pick(OfClient(i), pending) + Pick(OfStream(stream), Tag(i, intake.todo)))
  {
    Entered(entered, log, i, stream, pending, intake);
    TaggedSplit(OfStream(stream), i, intake.taken, intake.todo);
    Associate(Pick(OfBoth(i, stream), Settled(log)), Pick(OfClient(i), pending), Pick(OfStream(stream), Tag(i, intake.todo)));
  }

  lemma Associate(a: seq<Frame>, b: seq<Frame>, c: seq<Frame>)
    ensures a + b + c == a + (b + c)
  {}

  /** `a` with its order kept and each element at most once is found in `b`. */
  predicate Subsequence(a: seq<Frame>, b: seq<Frame>) {
    a == [] ||
    (b != [] &&
     ((a[|a| - 1] == b[|b| - 1] && Subsequence(a[..|a| - 1], b[..|b| - 1])) || Subsequence(a, b[..|b| - 1])))
  }

  lemma SubsequenceGrow(a: seq<Frame>, b: seq<Frame>, f: Frame)
    requires Subsequence(a, b)
    ensures Subsequence(a, b + [f]) && Subsequence(a + [f], b + [f])
  {
    assert (b + [f])[..|b|] == b && (a + [f])[..|a|] == a;
  }

  lemma Regroup<T>(a: seq<T>, b: seq<T>)
    requires b != []
    ensures a + b == a + b[..|b| - 1] + [b[|b| - 1]]
  {}

  lemma {:induction false} SubsequenceMore(a: seq<Frame>, b: seq<Frame>, c: seq<Frame>)
    requires Subsequence(a, b)
    ensures Subsequence(a, b + c)
  {
    if c == [] {
      assert b + c == b;
    } else {
      var n := |c| - 1;
      SubsequenceMore(a, b, c[..n]);
      SubsequenceGrow(a, b + c[..n], c[n]);
      Regroup(b, c);
    }
  }

  lemma LogLast(k: Key, log: seq<Entry>, e: Entry)
    ensures Pick(k, Settled(log + [e])) == if k.Matches(e.frame) then Pick(k, Settled(log)) + [e.frame] else Pick(k, Settled(log))
  {
    assert Settled(log + [e]) == Settled(log) + [e.frame];
    PickOne(k, Settled(log), e.frame);
  }

  lemma CallsLast(checks: bool, k: Key, log: seq<Entry>, e: Entry)
    ensures Pick(k, CallsOf(checks, log + [e]))
         == if e.Handled? && ForCallback(checks).Matches(e.frame) && k.Matches(e.frame)
            then Pick(k, CallsOf(checks, log)) + [e.frame] else Pick(k, CallsOf(checks, log))
  {
    assert (log + [e])[..|log|] == log;
    PickOne(k, CallsOf(checks, log), e.frame);
    assert CallsOf(checks, log) + [] == CallsOf(checks, log);
  }

  lemma {:induction false} CallsSubsequence(checks: bool, k: Key, log: seq<Entry>)
    ensures Subsequence(Pick(k, CallsOf(checks, log)), Pick(k, Settled(log)))
    ensures forall f | f in CallsOf(checks, log) :: ForCallback(checks).Matches(f)
  {
    if log != [] {
      var log', e := log[..|log| - 1], log[|log| - 1];
      assert log == log' + [e];
      CallsSubsequence(checks, k, log');
      LogLast(k, log', e);
      CallsLast(checks, k, log', e);
      SubsequenceGrow(Pick(k, CallsOf(checks, log')), Pick(k, Settled(log')), e.frame);
    }
  }

  /** Of the frames looked at, none that verifies was dropped. */
  predicate NoneLost(checks: bool, k: Key, log: seq<Entry>) {
    forall e | e in log && k.Matches(e.frame) && Verified(checks).Matches(e.frame) :: e.Handled?
  }

  lemma {:induction false} CallsExact(checks: bool, k: Key, log: seq<Entry>)
    requires k.OfBoth?
    ensures |Pick(k, CallsOf(checks, log))| <= |Pick(Verified(checks), Pick(k, Settled(log)))|
    ensures Pick(k, CallsOf(checks, log)) == Pick(Verified(checks), Pick(k, Settled(log))) <==> NoneLost(checks, k, log)
  {
    if log != [] {
      var log', e := log[..|log| - 1], log[|log| - 1];
      assert log == log' + [e];
      CallsExact(checks, k, log');
      LogLast(k, log', e);
      CallsLast(checks, k, log', e);
      PickOne(Verified(checks), Pick(k, Settled(log')), e.frame);
      LostLast(checks, k, log', e);
      SameLast(Pick(k, CallsOf(checks, log')), Pick(Verified(checks), Pick(k, Settled(log'))), e.frame);
    }
  }

  lemma SameLast(a: seq<Frame>, b: seq<Frame>, f: Frame)
    ensures a + [f] == b + [f] <==> a == b
  {
    assert (a + [f])[..|a|] == a && (b + [f])[..|b|] == b;
  }

  lemma LostLast(checks: bool, k: Key, log: seq<Entry>, e: Entry)
    ensures NoneLost(checks, k, log + [e])
       <==> NoneLost(checks, k, log) && (k.Matches(e.frame) && Verified(checks).Matches(e.frame) ==> e.Handled?)
  {
    assert e in log + [e];
  }

  /** Every step but a join leaves the log's losses as they are; a join adds what it finds in the queue. */
  lemma LostOnlyByJoin(checks: bool, s: State, step: Step, k: Key)
    requires Enabled(s, step)
    ensures NoneLost(checks, k, Take(checks, s, step).log)
       <==> NoneLost(checks, k, s.log) && (step.Join? ==> NoneWaiting(checks, k, s.procs[s.cleaner.proc].queue))
  {
    if step.Call? {
      LostLast(checks, k, s.log, Handled(s.procs[step.p].worker.frame));
    } else if step.Join? {
      LostDrops(checks, k, s.log, s.procs[s.cleaner.proc].queue);
    }
  }

  predicate NoneWaiting(checks: bool, k: Key, queue: seq<Frame>) {
    forall f | f in queue && k.Matches(f) :: !Verified(checks).Matches(f)
  }

  lemma LostDrops(checks: bool, k: Key, log: seq<Entry>, queue: seq<Frame>)
    ensures NoneLost(checks, k, log + Drops(queue)) <==> NoneLost(checks, k, log) && NoneWaiting(checks, k, queue)
  {
    if NoneLost(checks, k, log + Drops(queue)) {
      forall f | f in queue && k.Matches(f)
        ensures !Verified(checks).Matches(f)
      {
        assert Dropped(f) in Drops(queue);
        assert Dropped(f) in log + Drops(queue);
      }
      forall e | e in log && k.Matches(e.frame) && Verified(checks).Matches(e.frame)
        ensures e.Handled?
      {
        assert e in log + Drops(queue);
      }
    }
  }

  /** Between these states the cleaner joins a worker whose queue still holds a frame that verifies. */
  predicate Losing(checks: bool, k: Key, s: State, s': State) {
    && s.cleaner.Joining? && s'.cleaner.Erasing? && s.cleaner.proc < |s.procs|
    && !NoneWaiting(checks, k, s.procs[s.cleaner.proc].queue)
  }

  ghost predicate NeverLosing(checks: bool, k: Key, run: seq<State>, n: nat)
    requires n < |run|
  {
    forall m | 0 <= m < n :: !Losing(checks, k, run[m], run[m + 1])
  }

  predicate LossStep(checks: bool, k: Key, s: State, s': State) {
    NoneLost(checks, k, s'.log) <==> NoneLost(checks, k, s.log) && !Losing(checks, k, s, s')
  }

  lemma LosingNext(checks: bool, k: Key, s: State, s': State)
    requires Next(checks, s, s')
    ensures LossStep(checks, k, s, s')
  {
    var step :| Enabled(s, step) && s' == Take(checks, s, step);
    LostOnlyByJoin(checks, s, step, k);
  }

  lemma {:induction false} LossSteps(checks: bool, k: Key, run: seq<State>, n: nat)
    requires n < |run| && NoneLost(checks, k, run[0].log)
    requires forall m | 0 <= m < |run| - 1 :: LossStep(checks, k, run[m], run[m + 1])
    ensures NoneLost(checks, k, run[n].log) <==> NeverLosing(checks, k, run, n)
  {
    if n > 0 {
      LossSteps(checks, k, run, n - 1);
      assert LossStep(checks, k, run[n - 1], run[n]);
    }
  }

  /** Nothing was lost if and only if every processor was destroyed without such a frame in its queue. */
  lemma LostExactlyAtJoins(checks: bool, k: Key, run: seq<State>, n: nat)
    requires IsRun(checks, run) && n < |run|
    ensures NoneLost(checks, k, run[n].log) <==> NeverLosing(checks, k, run, n)
  {
    forall m | 0 <= m < |run| - 1
      ensures LossStep(checks, k, run[m], run[m + 1])
    {
      LosingNext(checks, k, run[m], run[m + 1]);
    }
    LossSteps(checks, k, run, n);
  }

  /**
   In every state of every run, the callbacks run for a client's stream are a subsequence of the frames
   on its wire: in wire order, at most once a frame, and only for frames that verify.
   */
  lemma CallbacksInWireOrder(checks: bool, run: seq<State>, n: nat, i: nat, stream: Word)
    requires IsRun(checks, run) && n < |run| && i < |run[n].clients|
    ensures var calls := Pick(OfBoth(i, stream), run[n].calls);
      Subsequence(calls, Wired(run[n], i, stream)) && forall f | f in calls :: Verify(checks, f)
  {
    RunKeeps(checks, run, n);
    var s := run[n];
    SettledThenUnderway(checks, run, n, i, stream);
    CallsSubsequence(checks, OfBoth(i, stream), s.log);
    PickedMatch(OfBoth(i, stream), s.calls);
    SubsequenceMore(Pick(OfBoth(i, stream), s.calls), Pick(OfBoth(i, stream), Settled(s.log)), Underway(s, i, stream));
  }

  /** The callbacks are exactly the frames that verify, of all but those still on their way. */
  predicate AllCalled(checks: bool, s: State, i: nat, stream: Word)
    requires i < |s.clients|
  {
    var wired, left := Wired(s, i, stream), |Underway(s, i, stream)|;
    left <= |wired| && Pick(OfBoth(i, stream), s.calls) == Pick(Verified(checks), wired[..|wired| - left])
  }

  /**
   In every state of every run the frames still on their way come last on the wire, and of those
   before them every frame that verifies has had its callback, in wire order, if and only if no
   processor was destroyed with such a frame of this client and stream in its queue.
   */
  lemma CallbacksExact(checks: bool, run: seq<State>, n: nat, i: nat, stream: Word)
    requires IsRun(checks, run) && n < |run| && i < |run[n].clients|
    ensures var wired, left := Wired(run[n], i, stream), Underway(run[n], i, stream);
      |left| <= |wired| && wired[|wired| - |left|..] == left
    ensures AllCalled(checks, run[n], i, stream) <==> NeverLosing(checks, OfBoth(i, stream), run, n)
  {
    RunKeeps(checks, run, n);
    SettledThenUnderway(checks, run, n, i, stream);
    CallsExact(checks, OfBoth(i, stream), run[n].log);
    LostExactlyAtJoins(checks, OfBoth(i, stream), run, n);
  }

  /** In particular as long as no processor of the stream has been destroyed. */
  lemma CallbacksUndisturbed(checks: bool, run: seq<State>, n: nat, i: nat, stream: Word)
    requires IsRun(checks, run) && n < |run| && i < |run[n].clients| && !Destroyed(run[n].procs, stream)
    ensures AllCalled(checks, run[n], i, stream)
  {
    RunKeeps(checks, run, n);
    LostExactlyAtJoins(checks, OfBoth(i, stream), run, n);
    CallbacksExact(checks, run, n, i, stream);
  }

  // ---------- at rest ----------

  /** The only steps left are feeding a client, and polling: the cleaner waking, and workers finding nothing. */
  predicate Polling(s: State, step: Step) {
    || step.Feed? || step.Wake?
    || ((step.Check? || step.Wait?) && step.p < |s.procs| && s.procs[step.p].running && s.procs[step.p].queue == [])
  }

  ghost predicate AtRest(s: State) {
    forall step :: Enabled(s, step) ==> Polling(s, step)
  }

  lemma RestAsleep(s: State)
    requires AtRest(s) && Structure(s)
    ensures s.cleaner.Asleep?
  {
    assert !Enabled(s, EndScan) && !Enabled(s, Erase) && !Enabled(s, Join) && !Enabled(s, Sleep);
    if s.cleaner.Joining? {
      RestExited(s, s.cleaner.proc);
    }
  }

  lemma RestExited(s: State, p: nat)
    requires AtRest(s) && p < |s.procs| && !s.procs[p].running
    ensures s.procs[p].worker.Exited?
  {
    assert !Enabled(s, Check(p)) && !Enabled(s, Wait(p)) && !Enabled(s, Pop(p)) && !Enabled(s, Call(p));
  }

  lemma RestEmptied(s: State, p: nat)
    requires AtRest(s) && p < |s.procs| && s.procs[p].running && !s.procs[p].worker.Exited?
    ensures s.procs[p].Content() == []
  {
    assert !Enabled(s, Pop(p)) && !Enabled(s, Call(p));
    assert Enabled(s, Check(p)) ==> Polling(s, Check(p));
    assert s.procs[p].worker.Checked? ==> Enabled(s, Wait(p)) || Enabled(s, Pop(p));
  }

  lemma RestDispatched(s: State, i: nat)
    requires AtRest(s) && Structure(s) && i < |s.clients|
    ensures s.clients[i].intake.todo == []
  {
    RestAsleep(s);
    assert HoldInv(s.procs, s.registry, s.clients[i]);
    assert !Enabled(s, Find(i)) && !Enabled(s, Add(i)) && !Enabled(s, Release(i));
  }

  /** There is no deadlock: in every state of every run, when only polling is left, nothing is on its way. */
  lemma RestIsSettled(checks: bool, run: seq<State>, n: nat, i: nat, stream: Word)
    requires IsRun(checks, run) && n < |run| && i < |run[n].clients| && AtRest(run[n])
    ensures Underway(run[n], i, stream) == []
  {
    RunKeeps(checks, run, n);
    var s := run[n];
    RestAsleep(s);
    RestDispatched(s, i);
    if stream in s.registry {
      assert Serves(s.procs, stream, s.registry[stream]);
      RestEmptied(s, s.registry[stream]);
    }
    assert Pending(s, stream) == [];
    assert Tag(i, []) == [] && Pick(OfClient(i), []) == [] && Pick(OfStream(stream), []) == [];
  }

  /** Then all frames on the wire that verify have had their callback, in order, if and only if none was lost. */
  lemma RestCallsAll(checks: bool, run: seq<State>, n: nat, i: nat, stream: Word)
    requires IsRun(checks, run) && n < |run| && i < |run[n].clients| && AtRest(run[n])
    ensures Pick(OfBoth(i, stream), run[n].calls) == Pick(Verified(checks), Wired(run[n], i, stream))
       <==> NeverLosing(checks, OfBoth(i, stream), run, n)
  {
    RestIsSettled(checks, run, n, i, stream);
    CallbacksExact(checks, run, n, i, stream);
    assert Wired(run[n], i, stream)[..|Wired(run[n], i, stream)|] == Wired(run[n], i, stream);
  }

  // ---------- everything can be called ----------

  lemma Extend(checks: bool, run: seq<State>, step: Step) returns (run': seq<State>)
    requires IsRun(checks, run) && Enabled(run[|run| - 1], step)
    ensures IsRun(checks, run') && run'[|run'| - 1] == Take(checks, run[|run| - 1], step)
  {
    run' := run + [Take(checks, run[|run| - 1], step)];
    forall i, j | 0 <= i < j < |run'| && j == i + 1
      ensures Next(checks, run'[i], run'[j])
    {
      assert j < |run| ==> Next(checks, run[i], run[j]);
      assert j == |run| ==> Enabled(run'[i], step) && run'[j] == Take(checks, run'[i], step);
    }
  }

  function HoldLoad(hold: Hold): int {
    if hold.Found? then -4 else if hold.Fed? then 1 else 0
  }

  function ClientsLoad(clients: seq<Dispatcher>): int {
    if clients == [] then 0
    else
      var d := clients[|clients| - 1];
      ClientsLoad(clients[..|clients| - 1]) + 10 * |d.intake.todo| + HoldLoad(d.hold)
  }

  function WorkerLoad(worker: Worker): nat {
    match worker
    case AtTop => 2
    case Checked => 1
    case Busy(_) => 3
    case Exited => 0
  }

  function ProcsLoad(procs: seq<Processor>): nat {
    if procs == [] then 0
    else
      var p := procs[|procs| - 1];
      ProcsLoad(procs[..|procs| - 1]) + 4 * |p.queue| + WorkerLoad(p.worker)
  }

  lemma {:induction false} ClientsUpdate(clients: seq<Dispatcher>, i: nat, d: Dispatcher)
    requires i < |clients|
    ensures ClientsLoad(clients[i := d]) + 10 * |clients[i].intake.todo| + HoldLoad(clients[i].hold)
         == ClientsLoad(clients) + 10 * |d.intake.todo| + HoldLoad(d.hold)
  {
    var last := |clients| - 1;
    if i == last {
      assert clients[i := d][..last] == clients[..last];
    } else {
      ClientsUpdate(clients[..last], i, d);
      assert clients[i := d][..last] == clients[..last][i := d];
    }
  }

  lemma {:induction false} ProcsUpdate(procs: seq<Processor>, p: nat, proc: Processor)
    requires p < |procs|
    ensures ProcsLoad(procs[p := proc]) + 4 * |procs[p].queue| + WorkerLoad(procs[p].worker)
         == ProcsLoad(procs) + 4 * |proc.queue| + WorkerLoad(proc.worker)
  {
    var last := |procs| - 1;
    if p == last {
      assert procs[p := proc][..last] == procs[..last];
    } else {
      ProcsUpdate(procs[..last], p, proc);
      assert procs[p := proc][..last] == procs[..last][p := proc];
    }
  }

  predicate Holding(clients: seq<Dispatcher>) {
    forall d | d in clients && d.hold.Found? :: d.intake.todo != []
  }

  lemma {:induction false} ClientsLoadNat(clients: seq<Dispatcher>)
    requires Holding(clients)
    ensures ClientsLoad(clients) >= 0
  {
    if clients != [] {
      ClientsLoadNat(clients[..|clients| - 1]);
      assert clients[|clients| - 1] in clients;
    }
  }

  function StepsLeft(s: State): int {
    ClientsLoad(s.clients) + ProcsLoad(s.procs)
  }

  lemma CreateLoad(procs: seq<Processor>, stream: Word)
    ensures ProcsLoad(procs + [Processor(stream, [], AtTop, true)]) == ProcsLoad(procs) + 2
  {
    assert (procs + [Processor(stream, [], AtTop, true)])[..|procs|] == procs;
  }

  lemma DispatcherDescends(checks: bool, s: State, step: Step)
    requires Structure(s) && Enabled(s, step) && (step.Find? || step.Add? || step.Release?)
    ensures StepsLeft(Take(checks, s, step)) < StepsLeft(s)
  {
    var s' := Take(checks, s, step);
    ClientsUpdate(s.clients, step.i, s'.clients[step.i]);
    if step.Find? {
      CreateLoad(s.procs, s.clients[step.i].intake.todo[0].streamId);
    } else if step.Add? {
      ProcsUpdate(s.procs, s.clients[step.i].hold.proc, s'.procs[s.clients[step.i].hold.proc]);
    }
  }

  lemma WorkerDescends(checks: bool, s: State, step: Step)
    requires Structure(s) && Enabled(s, step) && !Polling(s, step) && s.cleaner.Asleep?
    requires step.Check? || step.Wait? || step.Pop? || step.Call?
    ensures StepsLeft(Take(checks, s, step)) < StepsLeft(s)
  {
    assert s.procs[step.p].Dead() || Serves(s.procs, s.procs[step.p].stream, step.p);
    ProcsUpdate(s.procs, step.p, Take(checks, s, step).procs[step.p]);
  }

  lemma OwnStep(checks: bool, s: State, step: Step)
    requires Enabled(s, step) && !Polling(s, step) && s.cleaner.Asleep?
    ensures var s' := Take(checks, s, step);
      && s'.cleaner.Asleep? && |s'.clients| == |s.clients|
      && forall i | 0 <= i < |s.clients| :: s'.clients[i].intake.read == s.clients[i].intake.read
  {}

  /** While the cleaner sleeps, every step but polling and feeding lowers it. */
  lemma StepsDescend(checks: bool, s: State, step: Step)
    requires Structure(s) && Enabled(s, step) && !Polling(s, step) && s.cleaner.Asleep?
    ensures StepsLeft(Take(checks, s, step)) < StepsLeft(s)
  {
    if step.Find? || step.Add? || step.Release? {
      DispatcherDescends(checks, s, step);
    } else {
      WorkerDescends(checks, s, step);
    }
  }

  lemma StepsLeftNat(s: State)
    requires Structure(s)
    ensures StepsLeft(s) >= 0
  {
    forall d | d in s.clients && d.hold.Found?
      ensures d.intake.todo != []
    {
      assert HoldInv(s.procs, s.registry, d);
    }
    ClientsLoadNat(s.clients);
  }

  function Weight(s: State): nat {
    if StepsLeft(s) >= 0 then StepsLeft(s) else 0
  }

  /** The cleaner has not woken in this run. */
  ghost predicate Undisturbed(run: seq<State>) {
    forall m | 0 <= m < |run| :: run[m].cleaner.Asleep?
  }

  predicate SameWires(s: State, s': State) {
    |s'.clients| == |s.clients| && forall i | 0 <= i < |s.clients| :: s'.clients[i].intake.read == s.clients[i].intake.read
  }

  lemma RestNext(checks: bool, run: seq<State>) returns (run': seq<State>, s: State, s': State)
    requires IsRun(checks, run) && Undisturbed(run) && !AtRest(run[|run| - 1])
    ensures s == run[|run| - 1] && IsRun(checks, run') && Undisturbed(run') && s' == run'[|run'| - 1]
    ensures Weight(s') < Weight(s) && SameWires(s, s')
  {
    s := run[|run| - 1];
    var step :| Enabled(s, step) && !Polling(s, step);
    RunKeeps(checks, run, |run| - 1);
    StepsDescend(checks, s, step);
    StepsLeftNat(s);
    OwnStep(checks, s, step);
    s' := Take(checks, s, step);
    run' := ExtendAsleep(checks, run, step);
    RunKeeps(checks, run', |run'| - 1);
    StepsLeftNat(s');
  }

  lemma ExtendAsleep(checks: bool, run: seq<State>, step: Step) returns (run': seq<State>)
    requires IsRun(checks, run) && Undisturbed(run) && Enabled(run[|run| - 1], step)
    requires Take(checks, run[|run| - 1], step).cleaner.Asleep?
    ensures IsRun(checks, run') && Undisturbed(run') && run'[|run'| - 1] == Take(checks, run[|run| - 1], step)
  {
    run' := run + [Take(checks, run[|run| - 1], step)];
    forall i, j | 0 <= i < j < |run'| && j == i + 1
      ensures Next(checks, run'[i], run'[j])
    {
      assert j < |run| ==> Next(checks, run[i], run[j]);
      assert j == |run| ==> Enabled(run'[i], step) && run'[j] == Take(checks, run'[i], step);
    }
  }

  /** Every run in which the cleaner has slept can go on to rest, and let it sleep. */
  lemma {:induction false} ReachRest(checks: bool, run: seq<State>) returns (run': seq<State>)
    requires IsRun(checks, run) && Undisturbed(run)
    ensures IsRun(checks, run') && Undisturbed(run') && AtRest(run'[|run'| - 1])
    ensures SameWires(run[|run| - 1], run'[|run'| - 1])
    decreases Weight(run[|run| - 1])
  {
    run' := run;
    if !AtRest(run[|run| - 1]) {
      var s, s';
      run', s, s' := RestNext(checks, run);
      run' := ReachRest(checks, run');
    }
  }

  /** The first `n` clients have been fed their wires whole, the others nothing. */
  predicate FedFirst(clients: seq<Dispatcher>, wires: seq<Bytes>, n: nat) {
    && |clients| == |wires|
    && forall i | 0 <= i < |clients| ::
         && clients[i].hold.Nothing?
         && (i < n ==> clients[i].intake.read == wires[i])
         && (i >= n ==> clients[i].intake == Intake([], [], [], []))
  }

  lemma {:induction false} FeedAllClients(checks: bool, wires: seq<Bytes>, n: nat) returns (run: seq<State>)
    requires n <= |wires|
    ensures IsRun(checks, run) && Undisturbed(run) && FedFirst(run[|run| - 1].clients, wires, n)
  {
    if n == 0 {
      run := [State(seq(|wires|, _ => Dispatcher(Intake([], [], [], []), Nothing)), [], map[], Asleep, [], [], [])];
    } else {
      run := FeedAllClients(checks, wires, n - 1);
      run := ExtendAsleep(checks, run, Feed(n - 1, wires[n - 1]));
      assert [] + wires[n - 1] == wires[n - 1];
    }
  }

  lemma UndisturbedNeverLosing(checks: bool, k: Key, run: seq<State>)
    requires run != [] && Undisturbed(run)
    ensures NeverLosing(checks, k, run, |run| - 1)
  {}

  /**
   Whatever the clients put on their wires, there is a run in which the callback has been run on every
   frame that verifies, in order.
   */
  lemma EverythingCanBeCalled(checks: bool, wires: seq<Bytes>) returns (run: seq<State>, s: State)
    ensures IsRun(checks, run) && s == run[|run| - 1] && |s.clients| == |wires|
    ensures forall i, stream: Word | 0 <= i < |wires| ::
      Pick(OfBoth(i, stream), s.calls) == Pick(Verified(checks), Pick(OfStream(stream), Tag(i, Parse(wires[i]))))
  {
    var start := FeedAllClients(checks, wires, |wires|);
    run := ReachRest(checks, start);
    s := run[|run| - 1];
    forall i, stream: Word | 0 <= i < |wires|
      ensures Pick(OfBoth(i, stream), s.calls) == Pick(Verified(checks), Pick(OfStream(stream), Tag(i, Parse(wires[i]))))
    {
      UndisturbedNeverLosing(checks, OfBoth(i, stream), run);
      RestCallsAll(checks, run, |run| - 1, i, stream);
    }
  }

  // ---------- what is not in the system's hands ----------

  /** Any idle client can be fed anything, and the cleaner can wake and condemn what nobody holds. */
  lemma NothingForced(checks: bool, run: seq<State>, i: nat, chunk: Bytes, stream: Word)
    requires IsRun(checks, run)
    ensures var s := run[|run| - 1];
      && (i < |s.clients| && s.clients[i].intake.todo == [] && s.clients[i].hold == Nothing ==> Enabled(s, Feed(i, chunk)))
      && (s.cleaner == Asleep ==> Enabled(s, Wake))
      && (s.cleaner.Scanning? && stream in s.registry && stream !in s.cleaner.doomed
          && (forall d | d in s.clients :: d.hold == Nothing || d.hold.proc != s.registry[stream]) ==>
            Enabled(s, Condemn(stream)))
      && (s.cleaner.Scanning? ==> Enabled(s, EndScan))
  {}

  // ---------- a frame that is lost ----------

  /** One client, whose dispatcher has fed `f` to a new processor and let go of it. */
  function Queued(d: Bytes, f: Frame): State {
    State([Dispatcher(Intake([], [], [f], d), Nothing)],
          [Processor(f.streamId, [f.(clientId := 0)], AtTop, true)], map[f.streamId := 0], Asleep,
          [f.(clientId := 0)], [], [])
  }

  lemma ChooseProcessor(checks: bool, d: Bytes, f: Frame) returns (run: seq<State>)
    requires Parse(d) == [f] && Residue(d) == []
    ensures IsRun(checks, run) && run[|run| - 1] == Chosen(d, f)
  {
    run := [State([Dispatcher(Intake([], [], [], []), Nothing)], [], map[], Asleep, [], [], [])];
    assert [] + d == d;
    run := Extend(checks, run, Feed(0, d));
    assert run[|run| - 1].clients == [Dispatcher(Intake([], [f], [], d), Nothing)];
    run := Extend(checks, run, Find(0));
  }

  lemma QueueFrame(checks: bool, d: Bytes, f: Frame, before: seq<State>) returns (run: seq<State>)
    requires IsRun(checks, before) && before[|before| - 1] == Chosen(d, f)
    ensures IsRun(checks, run) && run[|run| - 1] == Queued(d, f)
  {
    run := Extend(checks, before, Add(0));
    AddChosen(checks, d, f);
    run := Extend(checks, run, Release(0));
    assert run[|run| - 1].clients == Queued(d, f).clients;
  }

  function Chosen(d: Bytes, f: Frame): State {
    State([Dispatcher(Intake([], [f], [], d), Found(0))],
          [Processor(f.streamId, [], AtTop, true)], map[f.streamId := 0], Asleep, [], [], [])
  }

  lemma AddChosen(checks: bool, d: Bytes, f: Frame)
    ensures Take(checks, Chosen(d, f), Add(0))
         == Queued(d, f).(clients := [Dispatcher(Intake([], [], [f], d), Fed(0))])
  {
    var s' := Take(checks, Chosen(d, f), Add(0));
    var g := f.(clientId := 0);
    assert [] + [g] == [g] && [] + [f] == [f] && [f][1..] == [];
    assert s'.procs[0] == Queued(d, f).procs[0];
    assert s'.procs == Queued(d, f).procs;
    assert s'.clients == [Dispatcher(Intake([], [], [f], d), Fed(0))];
  }

  /** The cleaner finds it unheld and destroys it before its worker has looked at its queue. */
  lemma DestroyQueued(checks: bool, d: Bytes, f: Frame, before: seq<State>) returns (run: seq<State>)
    requires IsRun(checks, before) && before[|before| - 1] == Queued(d, f)
    ensures IsRun(checks, run)
    ensures run[|run| - 1].clients == Queued(d, f).clients && run[|run| - 1].calls == []
    ensures run[|run| - 1].registry == map[] && run[|run| - 1].cleaner == Asleep
  {
    run := Extend(checks, before, Wake);
    run := Extend(checks, run, Condemn(f.streamId));
    run := Extend(checks, run, EndScan);
    assert [] + [f.streamId] == [f.streamId];
    assert run[|run| - 1] == Queued(d, f).(cleaner := Erasing([f.streamId]));
    run := Extend(checks, run, Erase);
    assert [f.streamId][1..] == [] && map[f.streamId := 0] - {f.streamId} == map[];
    assert run[|run| - 1].procs == Stopped(d, f).procs;
    assert run[|run| - 1] == Stopped(d, f);
    run := JoinStopped(checks, d, f, run);
  }

  function Stopped(d: Bytes, f: Frame): State {
    Queued(d, f).(procs := [Processor(f.streamId, [f.(clientId := 0)], AtTop, false)], registry := map[],
                  cleaner := Joining([], f.streamId, 0))
  }

  lemma JoinStopped(checks: bool, d: Bytes, f: Frame, before: seq<State>) returns (run: seq<State>)
    requires IsRun(checks, before) && before[|before| - 1] == Stopped(d, f)
    ensures IsRun(checks, run)
    ensures run[|run| - 1].clients == Queued(d, f).clients && run[|run| - 1].calls == []
    ensures run[|run| - 1].registry == map[] && run[|run| - 1].cleaner == Asleep
  {
    run := Extend(checks, before, Check(0));
    run := Extend(checks, run, Join);
    run := Extend(checks, run, Sleep);
  }

  /**
   The proviso is needed: whatever the frame, cleanup can destroy its processor with the frame still
   queued, and its callback never runs although nothing is on its way any more.
   */
  lemma CleanupCanLoseFrame(checks: bool, f: Frame) returns (run: seq<State>)
    requires WellFormed(f)
    ensures IsRun(checks, run)
    ensures var s := run[|run| - 1];
      && |s.clients| == 1 && Wired(s, 0, f.streamId) == [Stamp(checks, f).(clientId := 0)]
      && Underway(s, 0, f.streamId) == [] && s.calls == []
  {
    WholeParse(checks, [f]);
    OneSerialized(checks, f);
    run := LoseFrame(checks, Serialize(checks, f), Stamp(checks, f));
  }

  lemma LoseFrame(checks: bool, d: Bytes, f: Frame) returns (run: seq<State>)
    requires Parse(d) == [f] && Residue(d) == []
    ensures IsRun(checks, run)
    ensures var s := run[|run| - 1];
      && |s.clients| == 1 && Wired(s, 0, f.streamId) == [f.(clientId := 0)]
      && Underway(s, 0, f.streamId) == [] && s.calls == []
  {
    run := ChooseProcessor(checks, d, f);
    run := QueueFrame(checks, d, f, run);
    run := DestroyQueued(checks, d, f, run);
    LostFrame(run[|run| - 1], f);
  }

  lemma LostFrame(s: State, f: Frame)
    requires |s.clients| == 1 && Parse(s.clients[0].intake.read) == [f] && s.clients[0].intake.todo == []
    requires Owner(s.registry, s.cleaner, f.streamId).None?
    ensures Wired(s, 0, f.streamId) == [f.(clientId := 0)] && Underway(s, 0, f.streamId) == []
  {
    TagOne(f);
    NothingUnderway(s, f.streamId);
  }

  lemma NothingUnderway(s: State, stream: Word)
    requires |s.clients| > 0 && s.clients[0].intake.todo == [] && Owner(s.registry, s.cleaner, stream).None?
    ensures Underway(s, 0, stream) == []
  {
    assert Pick(OfClient(0), []) == [] && Pick(OfStream(stream), []) == [];
  }

  lemma TagOne(f: Frame)
    ensures Tag(0, [f]) == [f.(clientId := 0)] && Tag(0, []) == []
    ensures Pick(OfStream(f.streamId), Tag(0, [f])) == [f.(clientId := 0)]
  {
    assert Tag(0, [f]) == [f.(clientId := 0)];
    PickAll(OfStream(f.streamId), [f.(clientId := 0)]);
  }
}
