/**
 The RPC client (include/tcp_client.h) talking to the echo server (src/rpc_server.cpp on top of
 include/tcp_server.h): callers, locked writes with short sends, bytes in flight, the server's reader
 and batching writer, the client's reader, and disconnect, interleaved.
 */
module Echo {
  import opened Words
  import opened Frames
  import opened Parser
  import opened Links
  import opened Writers
  import opened Correlation

  datatype Config = Config(clientChecks: bool, serverChecks: bool)

  /** The server's fixed prefix, in UTF-8. */
  const PREFIX: Bytes := [0xE6, 0x9C, 0x8D, 0xE5, 0x8A, 0xA1, 0xE5, 0x99, 0xA8, 0xE5, 0x93, 0x8D, 0xE5, 0xBA, 0x94, 0x3A, 0x20]

  function Reply(request: Frame): Frame {
    Make(request.streamId, request.sequence, PREFIX + request.payload)
  }

  // ---------- the client's end of the request line ----------

  /** A caller inside the locked write, with its serialized frame. */
  datatype Holder = Holder(call: nat, frame: Frame, data: Bytes, sent: nat)

  datatype Line = Line(
    holder: Option<Holder>,
    // log
    wire: Bytes,             // everything the kernel has accepted
    whole: seq<Frame>,       // frames accepted whole, in lock order
    intact: seq<Frame>,      // those of them accepted before the wire was garbled
    tail: Bytes,             // accepted bytes of the frame after them
    garbled: bool)           // some write sent bytes after another had failed partway
  {
    function Take(call: nat, frame: Frame, data: Bytes): Line {
      this.(holder := Some(Holder(call, frame, data, 0)))
    }

    predicate CanSend() {
      holder.Some? && holder.value.sent < |holder.value.data|
    }

    function Ahead(n: nat): Bytes
      requires CanSend() && n <= |holder.value.data| - holder.value.sent
    {
      holder.value.data[holder.value.sent..holder.value.sent + n]
    }

    function Accept(n: nat): Line
      requires CanSend() && 0 < n <= |holder.value.data| - holder.value.sent
    {
      var h := holder.value;
      var bytes := Ahead(n);
      var done := h.sent + n == |h.data|;
      var spoilt := garbled || (h.sent == 0 && tail != []);
      Line(Some(h.(sent := h.sent + n)), wire + bytes,
           if done then whole + [h.frame] else whole,
           if done && !spoilt then intact + [h.frame] else intact,
           if done then [] else tail + bytes,
           spoilt)
    }

    predicate CanRelease() {
      holder.Some? && holder.value.sent == |holder.value.data|
    }

    function Release(): Line {
      this.(holder := None)
    }
  }

  /** In the middle of a write, the tail is what has been sent of it. */
  predicate TailSent(tail: Bytes, h: Holder) {
    0 < h.sent < |h.data| ==> tail == h.data[..h.sent]
  }

  /** The wire starts with the intact frames; until it is garbled, it is whole frames and a cut-off one. */
  predicate LineInv(checks: bool, l: Line) {
    && (l.holder.Some? ==> l.holder.value.data == Serialize(checks, l.holder.value.frame))
    && SerializeAll(checks, l.intact) <= l.wire
    && (!l.garbled ==>
          && l.intact == l.whole
          && l.wire == SerializeAll(checks, l.whole) + l.tail
          && !Complete(l.tail)
          && (l.holder.Some? ==> TailSent(l.tail, l.holder.value)))
  }

  lemma AcceptGarbled(checks: bool, l: Line, n: nat)
    requires LineInv(checks, l) && l.CanSend() && 0 < n <= |l.holder.value.data| - l.holder.value.sent
    requires l.Accept(n).garbled
    ensures LineInv(checks, l.Accept(n))
  {}

  lemma AcceptPart(checks: bool, l: Line, n: nat)
    requires LineInv(checks, l) && l.CanSend() && WellFormed(l.holder.value.frame)
    requires 0 < n < |l.holder.value.data| - l.holder.value.sent && !l.Accept(n).garbled
    ensures LineInv(checks, l.Accept(n))
  {
    var h := l.holder.value;
    TailGrows(l, n);
    PrefixIncomplete(checks, h.frame, h.sent + n);
    Grow(SerializeAll(checks, l.whole), l.tail, l.Ahead(n), l.wire);
  }

  lemma TailGrows(l: Line, n: nat)
    requires l.CanSend() && 0 < n < |l.holder.value.data| - l.holder.value.sent && !l.Accept(n).garbled
    requires TailSent(l.tail, l.holder.value)
    ensures var h := l.holder.value; l.tail + l.Ahead(n) == h.data[..h.sent + n]
  {}

  lemma AcceptLast(checks: bool, l: Line)
    requires LineInv(checks, l) && l.CanSend()
    requires !l.Accept(|l.holder.value.data| - l.holder.value.sent).garbled
    ensures LineInv(checks, l.Accept(|l.holder.value.data| - l.holder.value.sent))
  {
    var h := l.holder.value;
    TailEnds(l);
    SerializeLast(checks, l.whole, h.frame);
    Grow(SerializeAll(checks, l.whole), l.tail, l.Ahead(|h.data| - h.sent), l.wire);
    assert SerializeAll(checks, l.whole + [h.frame]) + [] == SerializeAll(checks, l.whole + [h.frame]);
  }

  lemma TailEnds(l: Line)
    requires l.CanSend() && !l.Accept(|l.holder.value.data| - l.holder.value.sent).garbled
    requires TailSent(l.tail, l.holder.value)
    ensures l.tail + l.Ahead(|l.holder.value.data| - l.holder.value.sent) == l.holder.value.data
  {}

  // ---------- the system ----------

  datatype State = State(
    table: Table,
    line: Line,
    up: Bytes,               // in flight to the server
    server: Intake,
    outbox: Outbox,
    down: Bytes,             // in flight to the client
    client: Intake,
    open: bool,              // disconnect has not begun
    reading: bool)           // the client's reader thread runs

  predicate Init(s: State) {
    s == State(NO_CALLS, Line(None, [], [], [], [], false), [], Intake([], [], [], []), EMPTY_OUTBOX, [],
               Intake([], [], [], []), true, true)
  }

  datatype Step =
    | Caller(step: TableStep)         // draw, register, erase, time out, finish
    | TakeLock(i: nat)
    | SendSome(n: nat)
    | SendFails
    | Unlock
    | ServerReceive(n: nat)
    | ServerHandle
    | ServerWriter(send: OutboxStep)
    | ClientReceive(n: nat)
    | ClientDispatch
    | Close
    | ReaderExits
    | ClearHandlers

  predicate IsCallerStep(step: TableStep) {
    step.Draw? || step.Register? || step.EraseFailed? || step.TimeOut? || step.EraseTimedOut? || step.Finish?
  }

  predicate Enabled(s: State, step: Step) {
    match step
    case Caller(t) => IsCallerStep(t) && TableEnabled(s.table, t)
    case TakeLock(i) => s.line.holder.None? && TableEnabled(s.table, Lock(i))
    case SendSome(n) =>
      s.open && s.line.CanSend() && 0 < n <= |s.line.holder.value.data| - s.line.holder.value.sent
    case SendFails => s.line.CanSend() && TableEnabled(s.table, FailWrite(s.line.holder.value.call))
    case Unlock => s.line.CanRelease() && TableEnabled(s.table, EndWrite(s.line.holder.value.call))
    case ServerReceive(n) => s.server.todo == [] && 0 < n <= |s.up|
    case ServerHandle => s.server.todo != []
    case ServerWriter(o) => !o.Write? && OutboxEnabled(s.outbox, o)
    case ClientReceive(n) => s.reading && s.client.todo == [] && 0 < n <= |s.down|
    case ClientDispatch => s.reading && s.client.todo != []
    case Close => s.open
    case ReaderExits => s.reading && s.client.todo == []
    case ClearHandlers => !s.open && !s.reading
  }

  function Take(c: Config, s: State, step: Step): State
    requires Enabled(s, step)
  {
    match step
    case Caller(t) => s.(table := TableTake(s.table, t))
    case TakeLock(i) =>
      var f := Request(s.table.calls[i]);
      s.(table := TableTake(s.table, Lock(i)), line := s.line.Take(i, f, Serialize(c.clientChecks, f)))
    case SendSome(n) =>
      s.(line := s.line.Accept(n), up := s.up + s.line.Ahead(n))
    case SendFails => s.(table := TableTake(s.table, FailWrite(s.line.holder.value.call)), line := s.line.Release())
    case Unlock => s.(table := TableTake(s.table, EndWrite(s.line.holder.value.call)), line := s.line.Release())
    case ServerReceive(n) => s.(server := s.server.Receive(s.up[..n]), up := s.up[n..])
    case ServerHandle =>
      s.(server := s.server.Handle(), outbox := s.outbox.Write(Serialize(c.serverChecks, Reply(s.server.todo[0]))))
    case ServerWriter(o) =>
      s.(outbox := OutboxTake(s.outbox, o), down := s.down + Accepted(s.outbox, o))
    case ClientReceive(n) => s.(client := s.client.Receive(s.down[..n]), down := s.down[n..])
    case ClientDispatch => s.(client := s.client.Handle(), table := TableTake(s.table, Dispatch(s.client.todo[0])))
    case Close => s.(open := false)
    case ReaderExits => s.(reading := false)
    case ClearHandlers => s.(table := TableTake(s.table, Clear))
  }

  ghost predicate Next(c: Config, s: State, s': State) {
    exists step :: Enabled(s, step) && s' == Take(c, s, step)
  }

  ghost predicate IsRun(c: Config, run: seq<State>) {
    && run != []
    && Init(run[0])
    && forall i, j | 0 <= i < j < |run| && j == i + 1 :: Next(c, run[i], run[j])
  }

  // ---------- the invariant ----------

  /** What a step of the server's writer puts in flight. */
  function Accepted(outbox: Outbox, o: OutboxStep): Bytes
    requires OutboxEnabled(outbox, o)
  {
    if o.Accept? then outbox.pending[0][outbox.sent..outbox.sent + o.n] else []
  }

  /** Payloads short enough for request and reply to fit the 32-bit length field. */
  predicate Small(t: Table) {
    forall i | 0 <= i < |t.calls| :: |PREFIX| + |t.calls[i].payload| < WORD
  }

  /** The frame is the request of one of the calls. */
  predicate Requested(t: Table, f: Frame) {
    exists i | 0 <= i < |t.calls| :: f == Request(t.calls[i])
  }

  predicate LineKnown(t: Table, l: Line) {
    && l.intact <= l.whole && (forall f | f in l.whole :: Requested(t, f))
    && (l.holder.Some? ==> Requested(t, l.holder.value.frame))
  }

  function Replies(fs: seq<Frame>): (r: seq<Frame>)
    ensures |r| == |fs| && forall i | 0 <= i < |fs| :: r[i] == Reply(fs[i])
  {
    seq(|fs|, i requires 0 <= i < |fs| => Reply(fs[i]))
  }

  predicate UpInv(checks: bool, l: Line, up: Bytes, server: Intake) {
    LineInv(checks, l) && IntakeInv(server) && server.read + up == l.wire
  }

  /** The server writes one reply per request handled, in order; the client has read a prefix of them. */
  predicate DownInv(checks: bool, handled: seq<Frame>, outbox: Outbox, down: Bytes, client: Intake, received: seq<Frame>) {
    && Conserved(outbox) && outbox.written == Parts(checks, Replies(handled))
    && IntakeInv(client) && client.read + down == outbox.wire
    && client.taken == received
  }

  predicate Inv(c: Config, s: State) {
    && TableInv(s.table) && LineKnown(s.table, s.line)
    && UpInv(c.clientChecks, s.line, s.up, s.server)
    && DownInv(c.serverChecks, s.server.taken, s.outbox, s.down, s.client, s.table.received)
  }

  // ---------- it holds in every state of every run ----------

  /** Calls keep their ids and payloads, and none is forgotten. */
  predicate Extends(t: Table, t': Table) {
    && |t.calls| <= |t'.calls|
    && forall i | 0 <= i < |t.calls| :: Request(t'.calls[i]) == Request(t.calls[i])
  }

  lemma TableExtends(t: Table, step: TableStep)
    requires TableEnabled(t, step)
    ensures Extends(t, TableTake(t, step))
    ensures !step.Dispatch? ==> TableTake(t, step).received == t.received
  {}

  lemma KnownExtends(t: Table, t': Table, l: Line)
    requires LineKnown(t, l) && Extends(t, t')
    ensures LineKnown(t', l)
  {
    forall f | Requested(t, f)
      ensures Requested(t', f)
    {
      var i :| 0 <= i < |t.calls| && f == Request(t.calls[i]);
      assert f == Request(t'.calls[i]);
    }
  }

  lemma RequestFits(t: Table, f: Frame)
    requires Small(t) && Requested(t, f)
    ensures WellFormed(f) && |PREFIX| + |f.payload| < WORD
  {
    var i :| 0 <= i < |t.calls| && f == Request(t.calls[i]);
    WrapWord(|t.calls[i].payload|);
  }

  lemma TableOnly(c: Config, s: State, step: TableStep)
    requires Inv(c, s) && TableEnabled(s.table, step) && !step.Dispatch?
    ensures Inv(c, s.(table := TableTake(s.table, step)))
  {
    TableKeeps(s.table, step);
    TableExtends(s.table, step);
    KnownExtends(s.table, TableTake(s.table, step), s.line);
  }

  lemma AcceptKnown(t: Table, l: Line, n: nat)
    requires LineKnown(t, l) && l.CanSend() && 0 < n <= |l.holder.value.data| - l.holder.value.sent
    requires !l.garbled ==> l.intact == l.whole
    ensures LineKnown(t, l.Accept(n))
  {}

  lemma AcceptLine(checks: bool, t: Table, l: Line, n: nat)
    requires LineInv(checks, l) && LineKnown(t, l) && Small(t)
    requires l.CanSend() && 0 < n <= |l.holder.value.data| - l.holder.value.sent
    ensures LineInv(checks, l.Accept(n)) && LineKnown(t, l.Accept(n))
  {
    RequestFits(t, l.holder.value.frame);
    AcceptKnown(t, l, n);
    if l.Accept(n).garbled {
      AcceptGarbled(checks, l, n);
    } else if n < |l.holder.value.data| - l.holder.value.sent {
      AcceptPart(checks, l, n);
    } else {
      AcceptLast(checks, l);
    }
  }

  lemma UpSend(checks: bool, t: Table, l: Line, up: Bytes, server: Intake, n: nat)
    requires UpInv(checks, l, up, server) && LineKnown(t, l) && Small(t)
    requires l.CanSend() && 0 < n <= |l.holder.value.data| - l.holder.value.sent
    ensures UpInv(checks, l.Accept(n), up + l.Ahead(n), server) && LineKnown(t, l.Accept(n))
  {
    AcceptLine(checks, t, l, n);
    Grow(server.read, up, l.Ahead(n), l.wire);
  }

  lemma UpReceive(checks: bool, l: Line, up: Bytes, server: Intake, n: nat)
    requires UpInv(checks, l, up, server) && server.todo == [] && n <= |up|
    ensures UpInv(checks, l, up[n..], server.Receive(up[..n]))
  {
    ReceiveKeeps(server, up[..n]);
    Cut(server.read, up, n, l.wire);
  }

  lemma DownReceive(checks: bool, handled: seq<Frame>, outbox: Outbox, down: Bytes, client: Intake, received: seq<Frame>, n: nat)
    requires DownInv(checks, handled, outbox, down, client, received) && client.todo == [] && n <= |down|
    ensures DownInv(checks, handled, outbox, down[n..], client.Receive(down[..n]), received)
  {
    ReceiveKeeps(client, down[..n]);
    Cut(client.read, down, n, outbox.wire);
  }

  lemma DownSend(checks: bool, handled: seq<Frame>, outbox: Outbox, down: Bytes, client: Intake, received: seq<Frame>, o: OutboxStep)
    requires DownInv(checks, handled, outbox, down, client, received) && OutboxEnabled(outbox, o) && !o.Write?
    ensures DownInv(checks, handled, OutboxTake(outbox, o), down + Accepted(outbox, o), client, received)
  {
    StepConserves(outbox, o);
    assert OutboxTake(outbox, o).wire == outbox.wire + Accepted(outbox, o);
    Grow(client.read, down, Accepted(outbox, o), outbox.wire);
  }

  lemma DownHandle(checks: bool, handled: seq<Frame>, outbox: Outbox, down: Bytes, client: Intake, received: seq<Frame>, f: Frame)
    requires DownInv(checks, handled, outbox, down, client, received)
    ensures DownInv(checks, handled + [f], outbox.Write(Serialize(checks, Reply(f))), down, client, received)
  {
    WriteConserves(outbox, Serialize(checks, Reply(f)));
    assert Replies(handled + [f]) == Replies(handled) + [Reply(f)];
    PartsLast(checks, Replies(handled), Reply(f));
  }

  lemma SendSomeKeeps(c: Config, s: State, n: nat)
    requires Inv(c, s) && Enabled(s, SendSome(n)) && Small(s.table)
    ensures Inv(c, Take(c, s, SendSome(n)))
  {
    UpSend(c.clientChecks, s.table, s.line, s.up, s.server, n);
  }

  lemma TakeLockKeeps(c: Config, s: State, i: nat)
    requires Inv(c, s) && Enabled(s, TakeLock(i))
    ensures Inv(c, Take(c, s, TakeLock(i)))
  {
    TableOnly(c, s, Lock(i));
    assert Requested(TableTake(s.table, Lock(i)), Request(s.table.calls[i]));
  }

  lemma ReleaseKeeps(c: Config, s: State)
    requires Inv(c, s)
    ensures Inv(c, s.(line := s.line.Release()))
  {}

  lemma WriteEndKeeps(c: Config, s: State, step: TableStep)
    requires Inv(c, s) && TableEnabled(s.table, step) && !step.Dispatch?
    ensures Inv(c, s.(table := TableTake(s.table, step), line := s.line.Release()))
  {
    TableOnly(c, s, step);
    ReleaseKeeps(c, s.(table := TableTake(s.table, step)));
  }

  lemma ServerReceiveKeeps(c: Config, s: State, n: nat)
    requires Inv(c, s) && Enabled(s, ServerReceive(n))
    ensures Inv(c, Take(c, s, ServerReceive(n)))
  {
    UpReceive(c.clientChecks, s.line, s.up, s.server, n);
  }

  lemma ClientReceiveKeeps(c: Config, s: State, n: nat)
    requires Inv(c, s) && Enabled(s, ClientReceive(n))
    ensures Inv(c, Take(c, s, ClientReceive(n)))
  {
    DownReceive(c.serverChecks, s.server.taken, s.outbox, s.down, s.client, s.table.received, n);
  }

  lemma ServerHandleKeeps(c: Config, s: State)
    requires Inv(c, s) && Enabled(s, ServerHandle)
    ensures Inv(c, Take(c, s, ServerHandle))
  {
    HandleKeeps(s.server);
    DownHandle(c.serverChecks, s.server.taken, s.outbox, s.down, s.client, s.table.received, s.server.todo[0]);
  }

  lemma ServerWriterKeeps(c: Config, s: State, o: OutboxStep)
    requires Inv(c, s) && Enabled(s, ServerWriter(o))
    ensures Inv(c, Take(c, s, ServerWriter(o)))
  {
    DownSend(c.serverChecks, s.server.taken, s.outbox, s.down, s.client, s.table.received, o);
  }

  lemma ClientDispatchKeeps(c: Config, s: State)
    requires Inv(c, s) && Enabled(s, ClientDispatch)
    ensures Inv(c, Take(c, s, ClientDispatch))
  {
    var f := s.client.todo[0];
    HandleKeeps(s.client);
    TableKeeps(s.table, Dispatch(f));
    TableExtends(s.table, Dispatch(f));
    KnownExtends(s.table, s.table.Dispatch(f), s.line);
  }

  lemma StepKeeps(c: Config, s: State, step: Step)
    requires Inv(c, s) && Enabled(s, step) && Small(s.table)
    ensures Inv(c, Take(c, s, step))
  {
    match step
    case Caller(t) => TableOnly(c, s, t);
    case TakeLock(i) => TakeLockKeeps(c, s, i);
    case SendSome(n) => SendSomeKeeps(c, s, n);
    case SendFails => WriteEndKeeps(c, s, FailWrite(s.line.holder.value.call));
    case Unlock => WriteEndKeeps(c, s, EndWrite(s.line.holder.value.call));
    case ServerReceive(n) => ServerReceiveKeeps(c, s, n);
    case ServerHandle => ServerHandleKeeps(c, s);
    case ServerWriter(o) => ServerWriterKeeps(c, s, o);
    case ClientReceive(n) => ClientReceiveKeeps(c, s, n);
    case ClientDispatch => ClientDispatchKeeps(c, s);
    case Close =>
    case ReaderExits =>
    case ClearHandlers => TableOnly(c, s, Clear);
  }

  lemma SmallBefore(c: Config, s: State, step: Step)
    requires Enabled(s, step) && Small(Take(c, s, step).table)
    ensures Small(s.table)
  {
    var t' := Take(c, s, step).table;
    forall i | 0 <= i < |s.table.calls|
      ensures |PREFIX| + |s.table.calls[i].payload| < WORD
    {
      assert t'.calls[i].payload == s.table.calls[i].payload;
    }
  }

  lemma NextKeeps(c: Config, s: State, s': State)
    requires Next(c, s, s') && Small(s'.table)
    ensures Small(s.table) && (Inv(c, s) ==> Inv(c, s'))
  {
    var step :| Enabled(s, step) && s' == Take(c, s, step);
    SmallBefore(c, s, step);
    if Inv(c, s) {
      StepKeeps(c, s, step);
    }
  }

  lemma InitInv(c: Config, s: State)
    requires Init(s)
    ensures Inv(c, s)
  {
    assert Parts(c.clientChecks, []) == [] && Parts(c.serverChecks, Replies([])) == [] && Concat([]) == [];
  }

  lemma {:induction false} RunKeeps(c: Config, run: seq<State>, i: nat)
    requires IsRun(c, run) && i < |run| && Small(run[i].table)
    ensures Inv(c, run[i])
  {
    if i == 0 {
      InitInv(c, run[0]);
    } else {
      assert Next(c, run[i - 1], run[i]);
      NextKeeps(c, run[i - 1], run[i]);
      RunKeeps(c, run, i - 1);
    }
  }

  // ---------- what the client receives ----------

  lemma WholeFits(t: Table, l: Line)
    requires LineKnown(t, l) && Small(t)
    ensures AllWellFormed(l.whole)
  {
    forall f | f in l.whole
      ensures WellFormed(f)
    {
      RequestFits(t, f);
    }
  }

  /** What the server has handled: the first of the requests written whole, in lock order. */
  lemma HandledInOrder(checks: bool, t: Table, l: Line, up: Bytes, server: Intake)
    requires LineKnown(t, l) && Small(t) && UpInv(checks, l, up, server) && !l.garbled
    ensures server.taken <= StampAll(checks, l.whole)
  {
    WholeFits(t, l);
    SerializedRead(checks, l.whole);
    TakeWhole(Parts(checks, l.whole), StampAll(checks, l.whole), l.tail, server.read, up);
    assert server.taken <= Parse(server.read);
  }

  lemma RepliesFit(checks: bool, t: Table, l: Line, handled: seq<Frame>)
    requires LineKnown(t, l) && Small(t) && handled <= StampAll(checks, l.whole)
    ensures AllWellFormed(Replies(handled))
  {
    forall i | 0 <= i < |handled|
      ensures WellFormed(Replies(handled)[i])
    {
      assert handled[i] == Stamp(checks, l.whole[i]);
      RequestFits(t, l.whole[i]);
      WrapWord(|PREFIX + handled[i].payload|);
    }
  }

  lemma AllBytes(outbox: Outbox, down: Bytes, read: Bytes)
    requires Conserved(outbox) && read + down == outbox.wire
    ensures Concat(outbox.written) + [] == read + (down + Unsent(outbox))
  {
    Grow(read, down, Unsent(outbox), outbox.wire);
  }

  lemma TakenInOrder(parts: seq<Bytes>, gs: seq<Frame>, client: Intake, ahead: Bytes)
    requires AllRead(parts, gs) && IntakeInv(client) && Concat(parts) + [] == client.read + ahead
    ensures client.taken <= gs
  {
    TakeWhole(parts, gs, [], client.read, ahead);
    assert client.taken <= Parse(client.read);
  }

  lemma ReceivedInOrder(checks: bool, handled: seq<Frame>, outbox: Outbox, down: Bytes, client: Intake, received: seq<Frame>)
    requires DownInv(checks, handled, outbox, down, client, received) && AllWellFormed(Replies(handled))
    ensures received <= StampAll(checks, Replies(handled))
  {
    var replies := Replies(handled);
    SerializedRead(checks, replies);
    AllBytes(outbox, down, client.read);
    TakenInOrder(outbox.written, StampAll(checks, replies), client, down + Unsent(outbox));
  }

  /** The replies to `requests`, as the client decodes them. */
  function Echoes(c: Config, requests: seq<Frame>): seq<Frame> {
    StampAll(c.serverChecks, Replies(StampAll(c.clientChecks, requests)))
  }

  lemma EchoesPrefix(c: Config, requests: seq<Frame>, handled: seq<Frame>, received: seq<Frame>)
    requires handled <= StampAll(c.clientChecks, requests)
    requires received <= StampAll(c.serverChecks, Replies(handled))
    ensures received <= Echoes(c, requests)
  {
    assert |Echoes(c, requests)| == |requests|;
    forall i | 0 <= i < |received|
      ensures received[i] == Echoes(c, requests)[i]
    {
      assert received[i] == Stamp(c.serverChecks, Reply(handled[i]));
    }
  }

  lemma EchoesOf(c: Config, s: State)
    requires Inv(c, s) && Small(s.table) && !s.line.garbled
    ensures s.table.received <= Echoes(c, s.line.whole)
  {
    HandledInOrder(c.clientChecks, s.table, s.line, s.up, s.server);
    RepliesFit(c.clientChecks, s.table, s.line, s.server.taken);
    ReceivedInOrder(c.serverChecks, s.server.taken, s.outbox, s.down, s.client, s.table.received);
    EchoesPrefix(c, s.line.whole, s.server.taken, s.table.received);
  }

  // ---------- on a garbled line ----------

  predicate Comparable(a: seq<Frame>, b: seq<Frame>) {
    a <= b || b <= a
  }

  /** Both ends of a link see the same frames for as long as both see any. */
  lemma SameFrames(read: Bytes, ahead: Bytes, all: Bytes, taken: seq<Frame>, first: seq<Frame>)
    requires read + ahead == all && taken <= Parse(read) && first <= Parse(all)
    ensures Comparable(taken, first)
  {
    ParseMonotone(read, all);
  }

  lemma FirstFrames(checks: bool, fs: seq<Frame>, all: Bytes)
    requires AllWellFormed(fs) && SerializeAll(checks, fs) <= all
    ensures StampAll(checks, fs) <= Parse(all)
  {
    WholeParse(checks, fs);
    ParseMonotone(SerializeAll(checks, fs), all);
  }

  lemma IntactFits(t: Table, l: Line)
    requires LineKnown(t, l) && Small(t)
    ensures AllWellFormed(l.intact)
  {
    WholeFits(t, l);
    forall f | f in l.intact
      ensures f in l.whole
    {
    }
  }

  lemma HandledComparable(checks: bool, t: Table, l: Line, up: Bytes, server: Intake)
    requires LineKnown(t, l) && Small(t) && UpInv(checks, l, up, server)
    ensures Comparable(server.taken, StampAll(checks, l.intact))
  {
    IntactFits(t, l);
    FirstFrames(checks, l.intact, l.wire);
    assert server.taken <= Parse(server.read);
    SameFrames(server.read, up, l.wire, server.taken, StampAll(checks, l.intact));
  }

  lemma RepliesPrefix(checks: bool, fs: seq<Frame>, n: nat)
    requires n <= |fs|
    ensures SerializeAll(checks, Replies(fs[..n])) <= Concat(Parts(checks, Replies(fs)))
  {
    SerializeAllAppend(checks, Replies(fs[..n]), Replies(fs[n..]));
    assert Replies(fs) == Replies(fs[..n]) + Replies(fs[n..]);
  }

  /** What is received agrees with the replies to the first `n` requests handled. */
  lemma ReceivedComparable(checks: bool, handled: seq<Frame>, outbox: Outbox, down: Bytes, client: Intake,
                           received: seq<Frame>, n: nat)
    requires DownInv(checks, handled, outbox, down, client, received)
    requires n <= |handled| && AllWellFormed(Replies(handled[..n]))
    ensures Comparable(received, StampAll(checks, Replies(handled[..n])))
  {
    RepliesPrefix(checks, handled, n);
    FirstFrames(checks, Replies(handled[..n]), Concat(outbox.written));
    AllBytes(outbox, down, client.read);
    assert Concat(outbox.written) + [] == Concat(outbox.written);
    assert received <= Parse(client.read);
    SameFrames(client.read, down + Unsent(outbox), Concat(outbox.written), received, StampAll(checks, Replies(handled[..n])));
  }

  lemma IntactRepliesFit(checks: bool, t: Table, l: Line, handled: seq<Frame>)
    requires LineKnown(t, l) && Small(t) && handled <= StampAll(checks, l.intact)
    ensures AllWellFormed(Replies(handled))
  {
    assert handled <= StampAll(checks, l.whole);
    RepliesFit(checks, t, l, handled);
  }

  /** Garbled or not, what is received and the replies to the intact requests agree as far as both go. */
  lemma IntactEchoes(c: Config, s: State)
    requires Inv(c, s) && Small(s.table)
    ensures Comparable(s.table.received, Echoes(c, s.line.intact))
  {
    var intact, handled := StampAll(c.clientChecks, s.line.intact), s.server.taken;
    HandledComparable(c.clientChecks, s.table, s.line, s.up, s.server);
    if |intact| <= |handled| {
      assert handled[..|intact|] == intact;
      IntactRepliesFit(c.clientChecks, s.table, s.line, intact);
      ReceivedComparable(c.serverChecks, handled, s.outbox, s.down, s.client, s.table.received, |intact|);
    } else {
      IntactRepliesFit(c.clientChecks, s.table, s.line, handled);
      ReceivedInOrder(c.serverChecks, handled, s.outbox, s.down, s.client, s.table.received);
      EchoesPrefix(c, s.line.intact, handled, s.table.received);
    }
  }

  /**
   In every state of every run, the requests written whole before any write followed one cut off
   partway get their replies, in lock order: what the reader has received and these replies agree as far
   as both go. If there was no such write, these are all the requests written whole, and the reader has
   received the replies to the first of them and nothing else.
   */
  lemma ReceivedEchoes(c: Config, run: seq<State>, i: nat)
    requires IsRun(c, run) && i < |run| && Small(run[i].table)
    ensures var l, received := run[i].line, run[i].table.received;
      && Comparable(received, Echoes(c, l.intact))
      && (!l.garbled ==> l.intact == l.whole && received <= Echoes(c, l.whole))
      && forall f | f in l.whole :: Requested(run[i].table, f)
  {
    RunKeeps(c, run, i);
    IntactEchoes(c, run[i]);
    if !run[i].line.garbled {
      EchoesOf(c, run[i]);
    }
  }

  // ---------- what the wire parses to ----------

  predicate RepliesSmall(requests: seq<Frame>) {
    forall f | f in requests :: |PREFIX| + |f.payload| < WORD
  }

  lemma {:induction false} ParsedShort(d: Bytes)
    ensures forall f | f in Parse(d) :: |f.payload| <= |d|
    decreases |d|
  {
    if Complete(d) {
      ParsedShort(d[FrameSize(d)..]);
    }
  }

  /** A short wire parses to requests whose replies fit the length field. */
  lemma ShortWire(wire: Bytes)
    requires |PREFIX| + |wire| < WORD
    ensures RepliesSmall(Parse(wire))
  {
    ParsedShort(wire);
  }

  /** So does one that is not garbled, however long. */
  lemma UngarbledWire(c: Config, s: State)
    requires Inv(c, s) && Small(s.table) && !s.line.garbled
    ensures Parse(s.line.wire) == StampAll(c.clientChecks, s.line.whole) && RepliesSmall(Parse(s.line.wire))
  {
    WholeFits(s.table, s.line);
    ParseSerialized(c.clientChecks, s.line.whole, s.line.tail);
    WholeSmall(c.clientChecks, s.table, s.line);
  }

  /** Until garbled, the wire holds the frames written whole, in lock order, and a cut-off one, and parses to just these. */
  lemma WireInLockOrder(c: Config, run: seq<State>, i: nat)
    requires IsRun(c, run) && i < |run| && Small(run[i].table) && !run[i].line.garbled
    ensures var l := run[i].line;
      && l.wire == SerializeAll(c.clientChecks, l.whole) + l.tail
      && Parse(l.wire) == StampAll(c.clientChecks, l.whole) && Residue(l.wire) == l.tail
  {
    RunKeeps(c, run, i);
    WholeFits(run[i].table, run[i].line);
    ParseSerialized(c.clientChecks, run[i].line.whole, run[i].line.tail);
  }

  lemma WholeSmall(checks: bool, t: Table, l: Line)
    requires LineKnown(t, l) && Small(t)
    ensures RepliesSmall(StampAll(checks, l.whole))
  {
    var requests := StampAll(checks, l.whole);
    forall i | 0 <= i < |requests|
      ensures |PREFIX| + |requests[i].payload| < WORD
    {
      assert requests[i] == Stamp(checks, l.whole[i]);
      RequestFits(t, l.whole[i]);
    }
  }

  lemma ParsedReplies(checks: bool, wire: Bytes)
    requires RepliesSmall(Parse(wire))
    ensures AllWellFormed(Replies(Parse(wire)))
  {
    var requests := Parse(wire);
    forall i | 0 <= i < |requests|
      ensures WellFormed(Replies(requests)[i])
    {
      assert requests[i] in requests;
      WrapWord(|PREFIX + requests[i].payload|);
    }
  }

  lemma HandledFromWire(checks: bool, l: Line, up: Bytes, server: Intake)
    requires UpInv(checks, l, up, server)
    ensures server.taken <= Parse(l.wire)
    ensures up == [] && server.todo == [] ==> server.taken == Parse(l.wire)
  {
    assert server.taken <= Parse(server.read);
    assert server.read <= l.wire;
    ParseMonotone(server.read, l.wire);
    if up == [] && server.todo == [] {
      assert server.read + [] == server.read && server.taken + [] == server.taken;
    }
  }

  lemma ReadFromWritten(checks: bool, handled: seq<Frame>, outbox: Outbox, down: Bytes, client: Intake, received: seq<Frame>)
    requires DownInv(checks, handled, outbox, down, client, received)
    ensures received <= Parse(Concat(outbox.written))
  {
    AllBytes(outbox, down, client.read);
    assert Concat(outbox.written) + [] == Concat(outbox.written);
    assert received <= Parse(client.read);
    ParseMonotone(client.read, Concat(outbox.written));
  }

  lemma ReceivedFromHandled(checks: bool, handled: seq<Frame>, requests: seq<Frame>, received: seq<Frame>)
    requires handled <= requests && received <= Parse(SerializeAll(checks, Replies(handled)))
    ensures received <= Parse(SerializeAll(checks, Replies(requests)))
  {
    assert requests[..|handled|] == handled;
    RepliesPrefix(checks, requests, |handled|);
    ParseMonotone(SerializeAll(checks, Replies(handled)), SerializeAll(checks, Replies(requests)));
  }

  /**
   In every state of every run, garbled or not, the reader has received the first frames of what the
   replies to the requests on the wire parse to; and these are the replies, if none is too long.
   */
  lemma ReceivedExactly(c: Config, run: seq<State>, i: nat)
    requires IsRun(c, run) && i < |run| && Small(run[i].table)
    ensures var requests, received := Parse(run[i].line.wire), run[i].table.received;
      && received <= Parse(SerializeAll(c.serverChecks, Replies(requests)))
      && (RepliesSmall(requests) ==> received <= StampAll(c.serverChecks, Replies(requests)))
  {
    RunKeeps(c, run, i);
    ReceivedInState(c, run[i]);
  }

  lemma ReceivedInState(c: Config, s: State)
    requires Inv(c, s)
    ensures s.table.received <= Parse(SerializeAll(c.serverChecks, Replies(Parse(s.line.wire))))
    ensures RepliesSmall(Parse(s.line.wire)) ==> s.table.received <= StampAll(c.serverChecks, Replies(Parse(s.line.wire)))
  {
    HandledFromWire(c.clientChecks, s.line, s.up, s.server);
    ReadFromWritten(c.serverChecks, s.server.taken, s.outbox, s.down, s.client, s.table.received);
    ReceivedFromHandled(c.serverChecks, s.server.taken, Parse(s.line.wire), s.table.received);
    if RepliesSmall(Parse(s.line.wire)) {
      ParsedReplies(c.serverChecks, s.line.wire);
      WholeParse(c.serverChecks, Replies(Parse(s.line.wire)));
    }
  }

  /** Frame by frame: each answers the request in its place on the wire, under its stream and number. */
  lemma RepliesInPlace(c: Config, run: seq<State>, i: nat, j: nat)
    requires IsRun(c, run) && i < |run| && Small(run[i].table) && RepliesSmall(Parse(run[i].line.wire))
    requires j < |run[i].table.received|
    ensures j < |Parse(run[i].line.wire)|
    ensures var request, reply := Parse(run[i].line.wire)[j], run[i].table.received[j];
      && reply.streamId == request.streamId && reply.sequence == request.sequence
      && reply.payload == PREFIX + request.payload
  {
    ReceivedExactly(c, run, i);
    assert run[i].table.received[j] == Stamp(c.serverChecks, Replies(Parse(run[i].line.wire))[j]);
  }

  /** The UTF-8 encoding of a code point below 0x10000. */
  function Utf8(code: int): Bytes
    requires 0 <= code < 0x10000
  {
    if code < 0x80 then [code]
    else if code < 0x800 then [0xC0 + code / 0x40, 0x80 + code % 0x40]
    else [0xE0 + code / 0x1000, 0x80 + code / 0x40 % 0x40, 0x80 + code % 0x40]
  }

  /** The prefix is the five characters of "server responds", a colon and a space. */
  lemma PrefixText()
    ensures PREFIX == Utf8(0x670D) + Utf8(0x52A1) + Utf8(0x5668) + Utf8(0x54CD) + Utf8(0x5E94) + Utf8(0x3A) + Utf8(0x20)
  {}

  /** A reply under a caller's id carries the prefix and that caller's own payload. */
  lemma EchoAt(c: Config, t: Table, l: Line, j: nat, k: nat)
    requires Ids(t) && LineKnown(t, l) && j < |l.whole| && k < |t.calls| <= WORD
    requires Echoes(c, l.whole)[j].streamId == t.calls[k].id
    ensures Echoes(c, l.whole)[j].payload == PREFIX + t.calls[k].payload
  {
    var q := l.whole[j];
    assert q in l.whole;
    var m :| 0 <= m < |t.calls| && q == Request(t.calls[m]);
    if m != k {
      IdsApart(t, m, k);
    }
  }

  lemma Extend(c: Config, run: seq<State>, step: Step) returns (run': seq<State>)
    requires IsRun(c, run) && Enabled(run[|run| - 1], step)
    ensures IsRun(c, run') && run'[|run'| - 1] == Take(c, run[|run| - 1], step)
  {
    run' := run + [Take(c, run[|run| - 1], step)];
    forall i, j | 0 <= i < j < |run'| && j == i + 1
      ensures Next(c, run'[i], run'[j])
    {
      assert j < |run| ==> Next(c, run[i], run[j]);
      assert j == |run| ==> Enabled(run'[i], step) && run'[j] == Take(c, run'[i], step);
    }
  }
}
