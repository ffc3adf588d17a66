/**
 One connection of the streaming client (client.cpp) and server (server.cpp) as a step system:
 any number of sender threads, the client's writer and reader threads, the server's reader and
 writer threads, and the bytes in flight. A step is one critical section, one system call, or one
 piece of thread-local work. Fields below a `log` comment record what happened; no step reads them.
 */
module EndToEnd {
  import opened Words
  import opened Frames
  import opened Picking
  import opened Parser
  import opened Links
  import opened Reorder
  import opened StreamManager

  /** How many threads call sendMessage, and whether each process was started with checksums on. */
  datatype Config = Config(threads: nat, clientChecks: bool, serverChecks: bool)

  function Listed(f: Option<Frame>): seq<Frame> {
    if f.Some? then [f.value] else []
  }

  // ---------- the client's sending side ----------

  datatype Sender = Sender(
    next: map<Word, Word>,           // next number per stream
    held: seq<Option<Frame>>,        // per thread: numbered by sendMessage, not yet queued
    queue: seq<Frame>,
    writing: Option<Frame>,          // popped by the writer thread, not yet sent
    // log
    calls: seq<Frame>,
    enqueued: seq<Frame>,
    sent: seq<Frame>)
  {
    function Counter(stream: Word): Word {
      if stream in next then next[stream] else 0
    }

    predicate CanCall(t: nat) {
      t < |held| && held[t].None?
    }

    /** First critical section of sendMessage: take the stream's number and count it up. */
    function Call(t: nat, stream: Word, message: Bytes): Sender
      requires CanCall(t)
    {
      var f := Make(stream, Counter(stream), message);
      this.(next := next[stream := Plus(Counter(stream), 1)], held := held[t := Some(f)], calls := calls + [f])
    }

    predicate CanEnqueue(t: nat) {
      t < |held| && held[t].Some?
    }

    /** Second critical section of sendMessage: queue the frame. */
    function Enqueue(t: nat): Sender
      requires CanEnqueue(t)
    {
      var f := held[t].value;
      this.(held := held[t := None], queue := queue + [f], enqueued := enqueued + [f])
    }

    predicate CanPop() {
      writing.None? && queue != []
    }

    function Pop(): Sender
      requires CanPop()
    {
      this.(queue := queue[1..], writing := Some(queue[0]))
    }

    function Send(): Sender
      requires writing.Some?
    {
      this.(writing := None, sent := sent + [writing.value])
    }
  }

  // ---------- the server ----------

  datatype WriterPc = Idle | Popping | Sending(frame: Frame) | Undefined

  datatype Server = Server(
    buffer: Bytes,
    current: Option<Frame>,          // the request being answered, still at the front of the buffer
    pushed: nat,                     // how many of its responses are queued
    queue: seq<Frame>,
    writer: WriterPc,
    // log
    handled: seq<Frame>,
    replies: seq<Frame>,
    replied: seq<Frame>)
  {
    predicate CanReceive() {
      current.None? && !Complete(buffer)
    }

    function Receive(chunk: Bytes): Server {
      this.(buffer := buffer + chunk)
    }

    predicate CanParse() {
      current.None? && Complete(buffer)
    }

    function Parse(): Server
      requires CanParse()
    {
      this.(current := Some(Decode(buffer)))
    }

    predicate CanPush() {
      current.Some? && pushed < FAN_OUT
    }

    function Push(): Server
      requires CanPush()
    {
      var r := Response(current.value, pushed);
      this.(queue := queue + [r], pushed := pushed + 1, replies := replies + [r])
    }

    predicate CanErase() {
      current.Some? && pushed == FAN_OUT && Complete(buffer)
    }

    function Erase(): Server
      requires CanErase()
    {
      this.(buffer := buffer[FrameSize(buffer)..], current := None, pushed := 0, handled := handled + [current.value])
    }

    predicate CanCheck() {
      writer.Idle? && queue != []
    }

    /** hasOutgoingFrames() returned true; the lock is released again. */
    function Check(): Server {
      this.(writer := Popping)
    }

    /** getNextOutgoingFrame() does not check: on an empty queue its behaviour is undefined. */
    function Pop(): Server {
      if queue == [] then this.(writer := Undefined)
      else this.(queue := queue[1..], writer := Sending(queue[0]))
    }

    function Send(): Server
      requires writer.Sending?
    {
      this.(writer := Idle, replied := replied + [writer.frame])
    }

    function InHand(): seq<Frame> {
      if writer.Sending? then [writer.frame] else []
    }

    /** The responses to the current request that are already queued. */
    function Answered(): seq<Frame> {
      if current.Some? && pushed <= FAN_OUT then Responses(current.value)[..pushed] else []
    }
  }

  // ---------- the client's reading side ----------

  datatype Reader = Reader(
    buffer: Bytes,
    todo: seq<Frame>,                // parsed, not yet handled
    reorder: Buffers,
    // log
    received: seq<Frame>)
  {
    function Receive(chunk: Bytes): Reader {
      this.(buffer := Residue(buffer + chunk), todo := Parser.Parse(buffer + chunk))
    }

    /** Skips a frame whose checksum does not verify, else reorders it. */
    function Handle(enabled: bool): Reader
      requires todo != []
    {
      this.(todo := todo[1..],
            reorder := if Verify(enabled, todo[0]) then Arrive(reorder, todo[0]) else reorder,
            received := received + [todo[0]])
    }
  }

  // ---------- the system ----------

  datatype State = State(sender: Sender, up: Bytes, server: Server, down: Bytes, reader: Reader)

  predicate Init(c: Config, s: State) {
    s == State(
      Sender(map[], seq(c.threads, _ => None), [], None, [], [], []), [],
      Server([], None, 0, [], Idle, [], [], []), [],
      Reader([], [], NO_BUFFERS, []))
  }

  datatype Step =
    | Call(thread: nat, stream: Word, message: Bytes)
    | Enqueue(thread: nat)
    | ClientPop
    | ClientSend
    | ServerReceive(n: nat)
    | ServerParse
    | ServerPush
    | ServerErase
    | ServerCheck
    | ServerPop
    | ServerSend
    | ClientReceive(n: nat)
    | ClientHandle

  predicate Enabled(s: State, step: Step) {
    match step
    case Call(t, _, _) => s.sender.CanCall(t)
    case Enqueue(t) => s.sender.CanEnqueue(t)
    case ClientPop => s.sender.CanPop()
    case ClientSend => s.sender.writing.Some?
    case ServerReceive(n) => s.server.CanReceive() && 0 < n <= |s.up|
    case ServerParse => s.server.CanParse()
    case ServerPush => s.server.CanPush()
    case ServerErase => s.server.CanErase()
    case ServerCheck => s.server.CanCheck()
    case ServerPop => s.server.writer.Popping?
    case ServerSend => s.server.writer.Sending?
    case ClientReceive(n) => s.reader.todo == [] && 0 < n <= |s.down|
    case ClientHandle => s.reader.todo != []
  }

  function Take(c: Config, s: State, step: Step): State
    requires Enabled(s, step)
  {
    match step
    case Call(t, stream, message) => s.(sender := s.sender.Call(t, stream, message))
    case Enqueue(t) => s.(sender := s.sender.Enqueue(t))
    case ClientPop => s.(sender := s.sender.Pop())
    case ClientSend => s.(sender := s.sender.Send(), up := s.up + Serialize(c.clientChecks, s.sender.writing.value))
    case ServerReceive(n) => s.(server := s.server.Receive(s.up[..n]), up := s.up[n..])
    case ServerParse => s.(server := s.server.Parse())
    case ServerPush => s.(server := s.server.Push())
    case ServerErase => s.(server := s.server.Erase())
    case ServerCheck => s.(server := s.server.Check())
    case ServerPop => s.(server := s.server.Pop())
    case ServerSend => s.(server := s.server.Send(), down := s.down + Serialize(c.serverChecks, s.server.writer.frame))
    case ClientReceive(n) => s.(reader := s.reader.Receive(s.down[..n]), down := s.down[n..])
    case ClientHandle => s.(reader := s.reader.Handle(c.clientChecks))
  }

  ghost predicate Next(c: Config, s: State, s': State) {
    exists step :: Enabled(s, step) && s' == Take(c, s, step)
  }

  /** Every interleaving of the threads, up to any point. */
  ghost predicate IsRun(c: Config, run: seq<State>) {
    && run != []
    && Init(c, run[0])
    && forall i, j | 0 <= i < j < |run| && j == i + 1 :: Next(c, run[i], run[j])
  }

  // ---------- the invariant ----------

  /** Messages whose size fits the 32-bit length field. */
  predicate Small(calls: seq<Frame>) {
    forall f | f in calls :: |f.payload| < WORD
  }

  predicate Consecutive(fs: seq<Frame>) {
    forall j | 0 <= j < |fs| :: fs[j].sequence == Wrap(j)
  }

  /** How often `f` occurs in a list. */
  function Count(fs: seq<Frame>, f: Frame): nat {
    if fs == [] then 0 else Count(fs[..|fs| - 1], f) + if fs[|fs| - 1] == f then 1 else 0
  }

  /** How many threads hold `f`. */
  function Holders(held: seq<Option<Frame>>, f: Frame): nat {
    if held == [] then 0 else Holders(held[..|held| - 1], f) + if held[|held| - 1] == Some(f) then 1 else 0
  }

  /** The calls on a stream are numbered 0, 1, 2, ... */
  predicate Counted(p: Sender, stream: Word) {
    && p.Counter(stream) == Wrap(|OnStream(p.calls, stream)|)
    && Consecutive(OnStream(p.calls, stream))
  }

  /** Each numbered frame is in the hands of a thread or was queued, and exactly once. */
  ghost predicate Conserved(p: Sender) {
    forall f :: Count(p.calls, f) == Holders(p.held, f) + Count(p.enqueued, f)
  }

  ghost predicate SenderInv(p: Sender) {
    && (forall stream :: Counted(p, stream))
    && (forall f | f in p.calls :: f == Make(f.streamId, f.sequence, f.payload))
    && Conserved(p)
    && p.enqueued == p.sent + Listed(p.writing) + p.queue
  }

  /** The frames taken at the far end are the first ones written; the rest is buffered or in flight. */
  predicate LinkInv(checks: bool, written: seq<Frame>, taken: seq<Frame>, ahead: Bytes) {
    taken <= StampAll(checks, written) && Carries(Parts(checks, written), |taken|, ahead)
  }

  predicate ServerInv(p: Server) {
    && (p.current.Some? ==> Complete(p.buffer) && p.current.value == Decode(p.buffer))
    && p.pushed <= (if p.current.Some? then FAN_OUT else 0)
    && p.replies == ResponsesAll(p.handled) + p.Answered()
    && p.replies == p.replied + p.InHand() + p.queue
    && !p.writer.Undefined?
    && (p.writer.Popping? ==> p.queue != [])
  }

  function Valid(enabled: bool, fs: seq<Frame>): seq<Frame> {
    Pick(Verified(enabled), fs)
  }

  predicate ReaderInv(enabled: bool, p: Reader) {
    p.reorder == ArriveAll(Valid(enabled, p.received)) && !Complete(p.buffer)
  }

  ghost predicate Inv(c: Config, s: State) {
    && SenderInv(s.sender)
    && LinkInv(c.clientChecks, s.sender.sent, s.server.handled, s.server.buffer + s.up)
    && ServerInv(s.server)
    && LinkInv(c.serverChecks, s.server.replied, s.reader.received + s.reader.todo, s.reader.buffer + s.down)
    && ReaderInv(c.clientChecks, s.reader)
  }

  // ---------- it holds in every state of every run ----------

  lemma {:induction false} HoldersUpdate(held: seq<Option<Frame>>, t: nat, x: Option<Frame>, f: Frame)
    requires t < |held|
    ensures Holders(held[t := x], f) + (if held[t] == Some(f) then 1 else 0)
      == Holders(held, f) + if x == Some(f) then 1 else 0
  {
    var last := |held| - 1;
    if t == last {
      assert held[t := x][..last] == held[..last];
    } else {
      HoldersUpdate(held[..last], t, x, f);
      assert held[t := x][..last] == held[..last][t := x];
    }
  }

  lemma CountLast(fs: seq<Frame>, g: Frame, f: Frame)
    ensures Count(fs + [g], f) == Count(fs, f) + if g == f then 1 else 0
  {
    assert (fs + [g])[..|fs|] == fs;
  }

  lemma CallCounts(p: Sender, t: nat, stream: Word, message: Bytes, u: Word)
    requires p.CanCall(t) && Counted(p, u)
    ensures Counted(p.Call(t, stream, message), u)
  {
    var p' := p.Call(t, stream, message);
    assert p'.calls[..|p.calls|] == p.calls;
    PlusWraps(|OnStream(p.calls, u)|, 1);
  }

  lemma CallConserves(p: Sender, t: nat, stream: Word, message: Bytes)
    requires p.CanCall(t) && Conserved(p)
    ensures Conserved(p.Call(t, stream, message))
  {
    var p' := p.Call(t, stream, message);
    var g := Make(stream, p.Counter(stream), message);
    forall f
      ensures Count(p'.calls, f) == Holders(p'.held, f) + Count(p'.enqueued, f)
    {
      HoldersUpdate(p.held, t, Some(g), f);
      CountLast(p.calls, g, f);
    }
  }

  lemma EnqueueConserves(p: Sender, t: nat)
    requires p.CanEnqueue(t) && Conserved(p)
    ensures Conserved(p.Enqueue(t))
  {
    var p' := p.Enqueue(t);
    forall f
      ensures Count(p'.calls, f) == Holders(p'.held, f) + Count(p'.enqueued, f)
    {
      HoldersUpdate(p.held, t, None, f);
      CountLast(p.enqueued, p.held[t].value, f);
    }
  }

  lemma CallKeeps(p: Sender, t: nat, stream: Word, message: Bytes)
    requires SenderInv(p) && p.CanCall(t)
    ensures SenderInv(p.Call(t, stream, message))
  {
    CallConserves(p, t, stream, message);
    forall u
      ensures Counted(p.Call(t, stream, message), u)
    {
      CallCounts(p, t, stream, message, u);
    }
  }

  lemma EnqueueKeeps(p: Sender, t: nat)
    requires SenderInv(p) && p.CanEnqueue(t)
    ensures SenderInv(p.Enqueue(t))
  {
    EnqueueConserves(p, t);
    SameCounts(p, p.Enqueue(t));
  }

  lemma SameCounts(p: Sender, p': Sender)
    requires p'.next == p.next && p'.calls == p.calls
    ensures forall u | Counted(p, u) :: Counted(p', u)
  {}

  lemma SenderKeeps(p: Sender)
    requires SenderInv(p)
    ensures p.CanPop() ==> SenderInv(p.Pop())
    ensures p.writing.Some? ==> SenderInv(p.Send())
  {
    if p.CanPop() {
      SameCounts(p, p.Pop());
    }
    if p.writing.Some? {
      SameCounts(p, p.Send());
    }
  }

  lemma LinkSend(checks: bool, written: seq<Frame>, taken: seq<Frame>, buffer: Bytes, wire: Bytes, f: Frame)
    requires LinkInv(checks, written, taken, buffer + wire)
    ensures LinkInv(checks, written + [f], taken, buffer + (wire + Serialize(checks, f)))
  {
    var part := Parts(checks, [f])[0];
    LinkWrite(Parts(checks, written), |taken|, buffer + wire, part);
    assert buffer + (wire + part) == buffer + wire + part;
    assert Parts(checks, written + [f]) == Parts(checks, written) + [part];
    assert StampAll(checks, written + [f]) == StampAll(checks, written) + [Stamp(checks, f)];
  }

  lemma LinkErase(checks: bool, written: seq<Frame>, taken: seq<Frame>, buffer: Bytes, wire: Bytes)
    requires AllWellFormed(written) && LinkInv(checks, written, taken, buffer + wire) && Complete(buffer)
    ensures LinkInv(checks, written, taken + [Decode(buffer)], buffer[FrameSize(buffer)..] + wire)
  {
    SerializedRead(checks, written);
    LinkTake(Parts(checks, written), StampAll(checks, written), |taken|, buffer, wire);
  }

  lemma LinkReceive(checks: bool, written: seq<Frame>, taken: seq<Frame>, d: Bytes, wire: Bytes)
    requires AllWellFormed(written) && LinkInv(checks, written, taken, d + wire)
    ensures LinkInv(checks, written, taken + Parse(d), Residue(d) + wire)
  {
    SerializedRead(checks, written);
    LinkGrow(Parts(checks, written), StampAll(checks, written), taken, d, wire);
  }

  lemma PushKeeps(p: Server)
    requires ServerInv(p) && p.CanPush()
    ensures ServerInv(p.Push())
  {
    var rs := Responses(p.current.value);
    assert rs[..p.pushed + 1] == rs[..p.pushed] + [rs[p.pushed]];
  }

  lemma EraseKeeps(p: Server)
    requires ServerInv(p) && p.CanErase()
    ensures ServerInv(p.Erase())
  {
    ResponsesLast(p.handled, p.current.value);
    assert Responses(p.current.value)[..FAN_OUT] == Responses(p.current.value);
  }

  /** The sole consumer pops a queue it saw non-empty, though the lock was released in between. */
  lemma PopNeverEmpty(p: Server)
    requires ServerInv(p) && p.writer.Popping?
    ensures p.queue != [] && ServerInv(p.Pop()) && p.Pop().writer == Sending(p.queue[0])
  {}

  lemma ReceiveServer(p: Server, chunk: Bytes)
    requires ServerInv(p) && p.CanReceive()
    ensures ServerInv(p.Receive(chunk))
  {}

  lemma ParseServer(p: Server)
    requires ServerInv(p) && p.CanParse()
    ensures ServerInv(p.Parse())
  {}

  lemma CheckServer(p: Server)
    requires ServerInv(p) && p.CanCheck()
    ensures ServerInv(p.Check())
  {}

  lemma SendServer(p: Server)
    requires ServerInv(p) && p.writer.Sending?
    ensures ServerInv(p.Send())
  {
    assert p.replied + p.InHand() + p.queue == p.Send().replied + p.Send().InHand() + p.Send().queue;
  }

  lemma HandleKeeps(enabled: bool, p: Reader)
    requires ReaderInv(enabled, p) && p.todo != []
    ensures ReaderInv(enabled, p.Handle(enabled))
  {
    ReorderNext(enabled, p.received, p.todo[0]);
  }

  lemma ReceiveKeeps(enabled: bool, p: Reader, chunk: Bytes)
    requires ReaderInv(enabled, p)
    ensures ReaderInv(enabled, p.Receive(chunk))
  {
    ResidueIncomplete(p.buffer + chunk);
  }

  lemma HandleMoves(enabled: bool, p: Reader)
    requires p.todo != []
    ensures p.Handle(enabled).received + p.Handle(enabled).todo == p.received + p.todo
  {}

  lemma ReorderNext(enabled: bool, fs: seq<Frame>, f: Frame)
    ensures var b := ArriveAll(Valid(enabled, fs));
      ArriveAll(Valid(enabled, fs + [f])) == if Verify(enabled, f) then Arrive(b, f) else b
  {
    PickOne(Verified(enabled), fs, f);
    ArriveNext(Valid(enabled, fs), f);
  }

  lemma SentWellFormed(p: Sender)
    requires SenderInv(p) && Small(p.calls)
    ensures AllWellFormed(p.sent)
  {
    forall f | f in p.sent
      ensures WellFormed(f)
    {
      CountMember(p.enqueued, f);
      assert Count(p.calls, f) == Holders(p.held, f) + Count(p.enqueued, f);
      CountMember(p.calls, f);
      WrapWord(|f.payload|);
    }
  }

  lemma {:induction false} CountMember(fs: seq<Frame>, f: Frame)
    ensures Count(fs, f) > 0 <==> f in fs
  {
    if fs != [] {
      CountMember(fs[..|fs| - 1], f);
      assert fs == fs[..|fs| - 1] + [fs[|fs| - 1]];
    }
  }

  lemma RepliesWellFormed(p: Server)
    requires ServerInv(p)
    ensures AllWellFormed(p.replied)
    ensures forall f | f in p.replied :: f.payload == Body()
  {
    forall f | f in p.replied
      ensures WellFormed(f) && f.payload == Body()
    {
      assert f in p.replies;
    }
  }

  lemma InitInv(c: Config, s: State)
    requires Init(c, s)
    ensures Inv(c, s)
  {
    forall f
      ensures Holders(s.sender.held, f) == 0
    {
      NoHolders(s.sender.held, f);
    }
  }

  lemma {:induction false} NoHolders(held: seq<Option<Frame>>, f: Frame)
    requires forall x | x in held :: x.None?
    ensures Holders(held, f) == 0
  {
    if held != [] {
      assert held[|held| - 1] in held;
      NoHolders(held[..|held| - 1], f);
    }
  }

  lemma CallsOnlyGrow(c: Config, s: State, step: Step)
    requires Enabled(s, step)
    ensures s.sender.calls <= Take(c, s, step).sender.calls
  {}

  lemma SenderOnly(c: Config, s: State, p: Sender)
    requires Inv(c, s) && SenderInv(p) && p.sent == s.sender.sent
    ensures Inv(c, s.(sender := p))
  {}

  lemma ServerOnly(c: Config, s: State, p: Server)
    requires Inv(c, s) && ServerInv(p)
    requires p.buffer == s.server.buffer && p.handled == s.server.handled && p.replied == s.server.replied
    ensures Inv(c, s.(server := p))
  {}

  lemma ClientSendKeeps(c: Config, s: State)
    requires Inv(c, s) && Enabled(s, ClientSend)
    ensures Inv(c, Take(c, s, ClientSend))
  {
    SenderKeeps(s.sender);
    LinkSend(c.clientChecks, s.sender.sent, s.server.handled, s.server.buffer, s.up, s.sender.writing.value);
  }

  lemma ServerReceiveKeeps(c: Config, s: State, n: nat)
    requires Inv(c, s) && Enabled(s, ServerReceive(n))
    ensures Inv(c, Take(c, s, ServerReceive(n)))
  {
    ReceiveServer(s.server, s.up[..n]);
    Cut(s.server.buffer, s.up, n, s.server.buffer + s.up);
    UpOnly(c, s, s.server.Receive(s.up[..n]), s.up[n..]);
  }

  lemma UpOnly(c: Config, s: State, p: Server, up: Bytes)
    requires Inv(c, s) && ServerInv(p) && p.handled == s.server.handled && p.replied == s.server.replied
    requires p.buffer + up == s.server.buffer + s.up
    ensures Inv(c, s.(server := p, up := up))
  {}

  lemma ServerEraseKeeps(c: Config, s: State)
    requires Inv(c, s) && Enabled(s, ServerErase) && Small(s.sender.calls)
    ensures Inv(c, Take(c, s, ServerErase))
  {
    SentWellFormed(s.sender);
    EraseKeeps(s.server);
    LinkErase(c.clientChecks, s.sender.sent, s.server.handled, s.server.buffer, s.up);
  }

  lemma ServerSendKeeps(c: Config, s: State)
    requires Inv(c, s) && Enabled(s, ServerSend)
    ensures Inv(c, Take(c, s, ServerSend))
  {
    SendServer(s.server);
    LinkSend(c.serverChecks, s.server.replied, s.reader.received + s.reader.todo, s.reader.buffer, s.down, s.server.writer.frame);
  }

  lemma ClientReceiveKeeps(c: Config, s: State, n: nat)
    requires Inv(c, s) && Enabled(s, ClientReceive(n))
    ensures Inv(c, Take(c, s, ClientReceive(n)))
  {
    Cut(s.reader.buffer, s.down, n, s.reader.buffer + s.down);
    ReceiveKeeps(c.clientChecks, s.reader, s.down[..n]);
    ReceiveLink(c, s.server, s.reader, s.down[..n], s.down[n..]);
    ReaderOnly(c, s, s.reader.Receive(s.down[..n]), s.down[n..]);
  }

  lemma ReaderOnly(c: Config, s: State, p: Reader, down: Bytes)
    requires Inv(c, s) && ReaderInv(c.clientChecks, p)
    requires LinkInv(c.serverChecks, s.server.replied, p.received + p.todo, p.buffer + down)
    ensures Inv(c, s.(reader := p, down := down))
  {}

  lemma ReceiveLink(c: Config, p: Server, r: Reader, chunk: Bytes, rest: Bytes)
    requires ServerInv(p) && r.todo == []
    requires LinkInv(c.serverChecks, p.replied, r.received + r.todo, r.buffer + chunk + rest)
    ensures var r' := r.Receive(chunk);
      LinkInv(c.serverChecks, p.replied, r'.received + r'.todo, r'.buffer + rest)
  {
    RepliesWellFormed(p);
    assert r.received + r.todo == r.received;
    LinkReceive(c.serverChecks, p.replied, r.received, r.buffer + chunk, rest);
  }

  lemma ClientHandleKeeps(c: Config, s: State)
    requires Inv(c, s) && Enabled(s, ClientHandle)
    ensures Inv(c, Take(c, s, ClientHandle))
  {
    HandleKeeps(c.clientChecks, s.reader);
    HandleMoves(c.clientChecks, s.reader);
  }

  lemma StepKeeps(c: Config, s: State, step: Step)
    requires Inv(c, s) && Enabled(s, step) && Small(s.sender.calls)
    ensures Inv(c, Take(c, s, step))
  {
    match step
    case Call(t, stream, message) =>
      CallKeeps(s.sender, t, stream, message);
      SenderOnly(c, s, s.sender.Call(t, stream, message));
    case Enqueue(t) =>
      EnqueueKeeps(s.sender, t);
      SenderOnly(c, s, s.sender.Enqueue(t));
    case ClientPop =>
      SenderKeeps(s.sender);
      SenderOnly(c, s, s.sender.Pop());
    case ClientSend =>
      ClientSendKeeps(c, s);
    case ServerReceive(n) =>
      ServerReceiveKeeps(c, s, n);
    case ServerParse =>
      ParseServer(s.server);
      ServerOnly(c, s, s.server.Parse());
    case ServerPush =>
      PushKeeps(s.server);
      ServerOnly(c, s, s.server.Push());
    case ServerErase =>
      ServerEraseKeeps(c, s);
    case ServerCheck =>
      CheckServer(s.server);
      ServerOnly(c, s, s.server.Check());
    case ServerPop =>
      PopNeverEmpty(s.server);
      ServerOnly(c, s, s.server.Pop());
    case ServerSend =>
      ServerSendKeeps(c, s);
    case ClientReceive(n) =>
      ClientReceiveKeeps(c, s, n);
    case ClientHandle =>
      ClientHandleKeeps(c, s);
  }

  lemma StepOf(c: Config, run: seq<State>, i: nat) returns (step: Step)
    requires IsRun(c, run) && 0 < i < |run|
    ensures Enabled(run[i - 1], step) && run[i] == Take(c, run[i - 1], step)
  {
    assert Next(c, run[i - 1], run[i]);
    step :| Enabled(run[i - 1], step) && run[i] == Take(c, run[i - 1], step);
  }

  /** The invariant holds in every reachable state. */
  lemma {:induction false} RunKeeps(c: Config, run: seq<State>, i: nat)
    requires IsRun(c, run) && i < |run| && Small(run[i].sender.calls)
    ensures Inv(c, run[i])
  {
    if i == 0 {
      InitInv(c, run[0]);
    } else {
      var step := StepOf(c, run, i);
      CallsOnlyGrow(c, run[i - 1], step);
      RunKeeps(c, run, i - 1);
      StepKeeps(c, run[i - 1], step);
    }
  }

  /** The sending side's part holds whatever the sizes of the messages. */
  lemma {:induction false} SenderRunKeeps(c: Config, run: seq<State>, i: nat)
    requires IsRun(c, run) && i < |run|
    ensures SenderInv(run[i].sender)
  {
    if i == 0 {
      InitInv(c, run[0]);
    } else {
      assert Next(c, run[i - 1], run[i]);
      SenderRunKeeps(c, run, i - 1);
      SenderNext(c, run[i - 1], run[i]);
    }
  }

  lemma SenderNext(c: Config, s: State, s': State)
    requires SenderInv(s.sender) && Next(c, s, s')
    ensures SenderInv(s'.sender)
  {
    var step :| Enabled(s, step) && s' == Take(c, s, step);
    SenderStep(c, s, step);
  }

  lemma SenderStep(c: Config, s: State, step: Step)
    requires SenderInv(s.sender) && Enabled(s, step)
    ensures SenderInv(Take(c, s, step).sender)
  {
    SenderKeeps(s.sender);
    match step
    case Call(t, stream, message) => CallKeeps(s.sender, t, stream, message);
    case Enqueue(t) => EnqueueKeeps(s.sender, t);
    case _ =>
  }

  /** In every state of every run, the server's writer has not popped, and cannot pop, an empty queue. */
  lemma WriterNeverPopsEmpty(c: Config, run: seq<State>, i: nat)
    requires IsRun(c, run) && i < |run| && Small(run[i].sender.calls)
    ensures !run[i].server.writer.Undefined?
    ensures run[i].server.writer.Popping? ==> run[i].server.queue != []
  {
    RunKeeps(c, run, i);
  }
}
