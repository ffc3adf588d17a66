/**
 Request/response correlation over one shared socket (include/tcp_client.h): callers inside
 sendAndWaitResponse, the reader thread and disconnect, interleaved. This part holds whatever the
 server sends.
 */
module Correlation {
  import opened Words
  import opened Frames

  // ---------- callers ----------

  /** Where a caller is inside sendAndWaitResponse. */
  datatype Phase =
    | Drawn                               // has an id
    | Registered                          // has filed its handler
    | Writing                             // holds the write lock
    | WriteFailed                         // about to erase its handler
    | Waiting                             // for the future
    | TimedOut                            // about to erase its handler
    | Returned(answer: Option<Bytes>)     // Some: true and the response; None: false

  datatype Call = Call(
    id: Word,
    payload: Bytes,
    phase: Phase,
    promise: seq<Bytes>,                  // the values its promise was set to
    // log
    since: nat)                           // how many frames had been received when it registered

  /** The request frame of a call: sequence 1, the id as stream. */
  function Request(c: Call): Frame {
    Make(c.id, 1, c.payload)
  }

  datatype Table = Table(
    nextId: Word,
    calls: seq<Call>,
    handlers: map<Word, nat>,             // id to the call whose promise the handler sets
    // log
    cleared: bool,                        // disconnect has dropped the handlers
    received: seq<Frame>)                 // frames dispatched by the reader
  {
    /** next_stream_id_++, which wraps. */
    function Draw(payload: Bytes): Table {
      this.(nextId := Plus(nextId, 1), calls := calls + [Call(nextId, payload, Drawn, [], 0)])
    }

    predicate At(i: nat, phase: Phase) {
      i < |calls| && calls[i].phase == phase
    }

    /** Files the handler, replacing one under the same id. */
    function Register(i: nat): Table
      requires At(i, Drawn)
    {
      this.(handlers := handlers[calls[i].id := i],
            calls := calls[i := calls[i].(phase := Registered, since := |received|)])
    }

    function Move(i: nat, phase: Phase): Table
      requires i < |calls|
    {
      this.(calls := calls[i := calls[i].(phase := phase)])
    }

    /** Erases whatever handler is filed under the call's id, and returns false. */
    function GiveUp(i: nat): Table
      requires i < |calls|
    {
      Move(i, Returned(None)).(handlers := handlers - {calls[i].id})
    }

    predicate CanTimeOut(i: nat) {
      At(i, Waiting) && calls[i].promise == []
    }

    predicate CanFinish(i: nat) {
      At(i, Waiting) && calls[i].promise != []
    }

    function Finish(i: nat): Table
      requires CanFinish(i)
    {
      Move(i, Returned(Some(calls[i].promise[0])))
    }

    /** The reader hands a frame to the handler filed under its stream id, if any, and erases the handler. */
    function Dispatch(f: Frame): Table {
      var t := this.(received := received + [f]);
      if f.streamId in handlers && handlers[f.streamId] < |calls| then
        var i := handlers[f.streamId];
        t.(calls := calls[i := calls[i].(promise := calls[i].promise + [f.payload])],
           handlers := handlers - {f.streamId})
      else t
    }

    function Clear(): Table {
      this.(handlers := map[], cleared := true)
    }
  }

  const NO_CALLS := Table(0, [], map[], false, [])

  datatype TableStep =
    | Draw(payload: Bytes)
    | Register(i: nat)
    | Lock(i: nat)
    | FailWrite(i: nat)
    | EndWrite(i: nat)
    | EraseFailed(i: nat)
    | TimeOut(i: nat)
    | EraseTimedOut(i: nat)
    | Finish(i: nat)
    | Dispatch(f: Frame)
    | Clear

  predicate TableEnabled(t: Table, step: TableStep) {
    match step
    case Draw(_) => true
    case Register(i) => t.At(i, Drawn)
    case Lock(i) => t.At(i, Registered)
    case FailWrite(i) => t.At(i, Writing)
    case EndWrite(i) => t.At(i, Writing)
    case EraseFailed(i) => t.At(i, WriteFailed)
    case TimeOut(i) => t.CanTimeOut(i)
    case EraseTimedOut(i) => t.At(i, TimedOut)
    case Finish(i) => t.CanFinish(i)
    case Dispatch(_) => true
    case Clear => true
  }

  function TableTake(t: Table, step: TableStep): Table
    requires TableEnabled(t, step)
  {
    match step
    case Draw(payload) => t.Draw(payload)
    case Register(i) => t.Register(i)
    case Lock(i) => t.Move(i, Writing)
    case FailWrite(i) => t.Move(i, WriteFailed)
    case EndWrite(i) => t.Move(i, Waiting)
    case EraseFailed(i) => t.GiveUp(i)
    case TimeOut(i) => t.Move(i, TimedOut)
    case EraseTimedOut(i) => t.GiveUp(i)
    case Finish(i) => t.Finish(i)
    case Dispatch(f) => t.Dispatch(f)
    case Clear => t.Clear()
  }

  // ---------- the invariant ----------

  /** The first frame with stream id `id` among those received from position `since` on. */
  function Answer(received: seq<Frame>, since: nat, id: Word): Option<Frame> {
    if |received| <= since then None
    else
      var earlier := Answer(received[..|received| - 1], since, id);
      if earlier.Some? then earlier
      else if received[|received| - 1].streamId == id then Some(received[|received| - 1])
      else None
  }

  predicate IsRegistered(c: Call) {
    c.phase != Drawn
  }

  /** A promise holds nothing, or just the first answer since its call registered. */
  predicate PromiseInv(received: seq<Frame>, c: Call) {
    && c.since <= |received|
    && (c.promise != [] ==>
          var f := Answer(received, c.since, c.id);
          IsRegistered(c) && f.Some? && c.promise == [f.value.payload])
    && (c.phase.Returned? && c.phase.answer.Some? ==> c.promise == [c.phase.answer.value])
  }

  /** A filed handler belongs to a call with that id which has registered, not returned, and had no answer. */
  predicate HandlerInv(t: Table, id: Word)
    requires id in t.handlers
  {
    var i := t.handlers[id];
    && i < |t.calls|
    && t.calls[i].id == id && IsPending(t.calls[i]) && t.calls[i].promise == []
    && Answer(t.received, t.calls[i].since, id).None?
  }

  predicate IsPending(c: Call) {
    c.phase != Drawn && !c.phase.Returned?
  }

  /** Unless handlers were dropped, a call that has not returned is on file or has its answer. */
  predicate FiledInv(t: Table, i: nat)
    requires i < |t.calls|
  {
    IsPending(t.calls[i]) ==>
      t.calls[i].promise != [] || (t.calls[i].id in t.handlers && t.handlers[t.calls[i].id] == i)
  }

  predicate Ids(t: Table) {
    && t.nextId == Wrap(|t.calls|)
    && forall i | 0 <= i < |t.calls| :: t.calls[i].id == Wrap(i)
  }

  predicate TableInv(t: Table) {
    && Ids(t)
    && (forall i | 0 <= i < |t.calls| :: PromiseInv(t.received, t.calls[i]))
    && (forall id | id in t.handlers :: HandlerInv(t, id))
    && (|t.calls| <= WORD && !t.cleared ==> forall i | 0 <= i < |t.calls| :: FiledInv(t, i))
  }

  lemma AnswerStable(received: seq<Frame>, f: Frame, since: nat, id: Word)
    ensures var a, b := Answer(received, since, id), Answer(received + [f], since, id);
      && (a.Some? ==> b == a)
      && (a.None? && since <= |received| ==> b == if f.streamId == id then Some(f) else None)
  {
    assert (received + [f])[..|received|] == received;
  }

  lemma AnswerNone(received: seq<Frame>, id: Word)
    ensures Answer(received, |received|, id).None?
  {}

  lemma DrawKeeps(t: Table, payload: Bytes)
    requires TableInv(t)
    ensures TableInv(t.Draw(payload))
  {
    PlusWraps(|t.calls|, 1);
    var t' := t.Draw(payload);
    forall id | id in t'.handlers
      ensures HandlerInv(t', id)
    {
      assert HandlerInv(t, id);
    }
    if |t'.calls| <= WORD && !t'.cleared {
      forall i | 0 <= i < |t'.calls|
        ensures FiledInv(t', i)
      {
        if i < |t.calls| {
          assert FiledInv(t, i);
        }
      }
    }
  }

  lemma IdsApart(t: Table, i: nat, j: nat)
    requires Ids(t) && i < |t.calls| <= WORD && j < |t.calls| && t.calls[i].id == t.calls[j].id
    ensures i == j
  {
    WrapWord(i);
    WrapWord(j);
  }

  /** Handlers stay right when no call on file returns or changes id, promise or position. */
  lemma HandlersKeep(t: Table, t': Table)
    requires forall id | id in t.handlers :: HandlerInv(t, id)
    requires t'.received == t.received && |t'.calls| >= |t.calls|
    requires forall i | 0 <= i < |t.calls| ::
      && t'.calls[i].id == t.calls[i].id && t'.calls[i].promise == t.calls[i].promise
      && (IsPending(t.calls[i]) ==> t'.calls[i].since == t.calls[i].since)
    requires forall id | id in t'.handlers && t'.handlers[id] < |t.calls| ::
      IsPending(t.calls[t'.handlers[id]]) ==> IsPending(t'.calls[t'.handlers[id]])
    ensures forall id | id in t.handlers && id in t'.handlers && t'.handlers[id] == t.handlers[id] :: HandlerInv(t', id)
  {
    forall id | id in t.handlers && id in t'.handlers && t'.handlers[id] == t.handlers[id]
      ensures HandlerInv(t', id)
    {
      assert HandlerInv(t, id);
    }
  }

  lemma RegisterKeeps(t: Table, i: nat)
    requires TableInv(t) && t.At(i, Drawn)
    ensures TableInv(t.Register(i))
  {
    var t' := t.Register(i);
    assert PromiseInv(t.received, t.calls[i]);
    AnswerNone(t.received, t.calls[i].id);
    HandlersKeep(t, t');
    assert HandlerInv(t', t.calls[i].id);
    if |t'.calls| <= WORD && !t'.cleared {
      forall j | 0 <= j < |t'.calls|
        ensures FiledInv(t', j)
      {
        assert FiledInv(t, j);
        if t.calls[j].id == t.calls[i].id {
          IdsApart(t, i, j);
        }
      }
    }
  }

  lemma MoveKeeps(t: Table, i: nat, phase: Phase)
    requires TableInv(t) && i < |t.calls| && IsPending(t.calls[i]) && phase != Drawn
    requires phase.Returned? ==> phase.answer.Some? && t.calls[i].promise == [phase.answer.value]
    ensures TableInv(t.Move(i, phase))
  {
    var t' := t.Move(i, phase);
    assert PromiseInv(t.received, t.calls[i]);
    HandlersKeep(t, t');
    if |t'.calls| <= WORD && !t'.cleared {
      forall j | 0 <= j < |t'.calls|
        ensures FiledInv(t', j)
      {
        assert FiledInv(t, j);
      }
    }
  }

  lemma GiveUpKeeps(t: Table, i: nat)
    requires TableInv(t) && i < |t.calls| && IsPending(t.calls[i])
    ensures TableInv(t.GiveUp(i))
  {
    var t' := t.GiveUp(i);
    assert PromiseInv(t.received, t.calls[i]);
    forall id | id in t'.handlers
      ensures t'.handlers[id] != i
    {
      assert HandlerInv(t, id);
    }
    HandlersKeep(t, t');
    if |t'.calls| <= WORD && !t'.cleared {
      forall j | 0 <= j < |t'.calls|
        ensures FiledInv(t', j)
      {
        assert FiledInv(t, j);
        if t.calls[j].id == t.calls[i].id {
          IdsApart(t, i, j);
        }
      }
    }
  }

  lemma FinishKeeps(t: Table, i: nat)
    requires TableInv(t) && t.CanFinish(i)
    ensures TableInv(t.Finish(i))
  {
    assert PromiseInv(t.received, t.calls[i]);
    MoveKeeps(t, i, Returned(Some(t.calls[i].promise[0])));
  }

  lemma ClearKeeps(t: Table)
    requires TableInv(t)
    ensures TableInv(t.Clear())
  {}

  /** One more frame received changes no promise and only the answer of calls that had none. */
  lemma PromiseStable(received: seq<Frame>, f: Frame, c: Call)
    requires PromiseInv(received, c)
    ensures PromiseInv(received + [f], c)
  {
    AnswerStable(received, f, c.since, c.id);
  }

  /** The handler's promise gets the frame, which is the first answer since the call registered. */
  lemma PromiseSet(t: Table, f: Frame)
    requires f.streamId in t.handlers && HandlerInv(t, f.streamId)
    requires PromiseInv(t.received, t.calls[t.handlers[f.streamId]])
    ensures var c := t.calls[t.handlers[f.streamId]];
      PromiseInv(t.received + [f], c.(promise := c.promise + [f.payload]))
  {
    var c := t.calls[t.handlers[f.streamId]];
    AnswerStable(t.received, f, c.since, c.id);
  }

  lemma DispatchPromises(t: Table, f: Frame)
    requires TableInv(t)
    ensures var t' := t.Dispatch(f); forall i | 0 <= i < |t'.calls| :: PromiseInv(t'.received, t'.calls[i])
  {
    var t' := t.Dispatch(f);
    if f.streamId in t.handlers {
      assert HandlerInv(t, f.streamId);
    }
    forall i | 0 <= i < |t'.calls|
      ensures PromiseInv(t'.received, t'.calls[i])
    {
      assert PromiseInv(t.received, t.calls[i]);
      if f.streamId in t.handlers && i == t.handlers[f.streamId] {
        PromiseSet(t, f);
      } else {
        PromiseStable(t.received, f, t.calls[i]);
      }
    }
  }

  lemma DispatchHandlers(t: Table, f: Frame, id: Word)
    requires TableInv(t) && id in t.handlers && id != f.streamId
    ensures id in t.Dispatch(f).handlers && HandlerInv(t.Dispatch(f), id)
  {
    var i := t.handlers[id];
    assert HandlerInv(t, id);
    if f.streamId in t.handlers {
      assert HandlerInv(t, f.streamId);
    }
    AnswerStable(t.received, f, t.calls[i].since, id);
  }

  lemma DispatchFiled(t: Table, f: Frame, i: nat)
    requires TableInv(t) && i < |t.calls| && FiledInv(t, i)
    ensures FiledInv(t.Dispatch(f), i)
  {
    if f.streamId in t.handlers {
      assert HandlerInv(t, f.streamId);
    }
  }

  lemma DispatchKeeps(t: Table, f: Frame)
    requires TableInv(t)
    ensures TableInv(t.Dispatch(f))
  {
    var t' := t.Dispatch(f);
    DispatchPromises(t, f);
    if f.streamId in t.handlers {
      assert HandlerInv(t, f.streamId);
    }
    forall id | id in t'.handlers
      ensures HandlerInv(t', id)
    {
      DispatchHandlers(t, f, id);
    }
    if |t'.calls| <= WORD && !t'.cleared {
      forall i | 0 <= i < |t'.calls|
        ensures FiledInv(t', i)
      {
        assert FiledInv(t, i);
        DispatchFiled(t, f, i);
      }
    }
  }

  lemma TableKeeps(t: Table, step: TableStep)
    requires TableInv(t) && TableEnabled(t, step)
    ensures TableInv(TableTake(t, step))
  {
    match step
    case Draw(payload) => DrawKeeps(t, payload);
    case Register(i) => RegisterKeeps(t, i);
    case Lock(i) => MoveKeeps(t, i, Writing);
    case FailWrite(i) => MoveKeeps(t, i, WriteFailed);
    case EndWrite(i) => MoveKeeps(t, i, Waiting);
    case EraseFailed(i) => GiveUpKeeps(t, i);
    case TimeOut(i) => MoveKeeps(t, i, TimedOut);
    case EraseTimedOut(i) => GiveUpKeeps(t, i);
    case Finish(i) => FinishKeeps(t, i);
    case Dispatch(f) => DispatchKeeps(t, f);
    case Clear => ClearKeeps(t);
  }

  // ---------- every run ----------

  ghost predicate TableNext(t: Table, t': Table) {
    exists step :: TableEnabled(t, step) && t' == TableTake(t, step)
  }

  ghost predicate TableRun(run: seq<Table>) {
    && run != []
    && run[0] == NO_CALLS
    && forall i, j | 0 <= i < j < |run| && j == i + 1 :: TableNext(run[i], run[j])
  }

  lemma {:induction false} TableRunKeeps(run: seq<Table>, i: nat)
    requires TableRun(run) && i < |run|
    ensures TableInv(run[i])
  {
    if i > 0 {
      TableRunKeeps(run, i - 1);
      assert TableNext(run[i - 1], run[i]);
      var step :| TableEnabled(run[i - 1], step) && run[i] == TableTake(run[i - 1], step);
      TableKeeps(run[i - 1], step);
    }
  }

  /** Up to 2^32 calls have distinct ids; the bound is exact. */
  lemma IdsDistinctExactly(run: seq<Table>, i: nat)
    requires TableRun(run) && i < |run|
    ensures var calls := run[i].calls;
      (forall a, b | 0 <= a < b < |calls| :: calls[a].id != calls[b].id) <==> |calls| <= WORD
  {
    TableRunKeeps(run, i);
    var calls := run[i].calls;
    if |calls| <= WORD {
      forall a, b | 0 <= a < b < |calls|
        ensures calls[a].id != calls[b].id
      {
        if calls[a].id == calls[b].id {
          IdsApart(run[i], a, b);
        }
      }
    } else {
      assert calls[0].id == Wrap(0) == Wrap(WORD) == calls[WORD].id;
    }
  }

  /**
   In every state of every run, whatever races with whatever: each promise has been set at most once,
   to the payload of the first frame with the caller's own id received after it registered; and a call
   that returned true returned exactly that.
   */
  lemma AnswersAreOwn(run: seq<Table>, i: nat, k: nat)
    requires TableRun(run) && i < |run| && k < |run[i].calls|
    ensures var c := run[i].calls[k];
      var answer := Answer(run[i].received, c.since, c.id);
      && |c.promise| <= 1
      && (c.promise != [] ==> answer.Some? && c.promise[0] == answer.value.payload)
      && (c.phase.Returned? && c.phase.answer.Some? ==>
            answer.Some? && answer.value.streamId == c.id && c.phase.answer.value == answer.value.payload)
  {
    TableRunKeeps(run, i);
    var c := run[i].calls[k];
    assert PromiseInv(run[i].received, c);
    AnswerMatches(run[i].received, c.since, c.id);
  }

  lemma {:induction false} AnswerMatches(received: seq<Frame>, since: nat, id: Word)
    ensures var f := Answer(received, since, id);
      f.Some? ==> f.value.streamId == id && f.value in received
  {
    if |received| > since {
      AnswerMatches(received[..|received| - 1], since, id);
    }
  }

  /** An answer that arrives while its caller has not given up is not lost, unless disconnect ran. */
  lemma NoAnswerLost(run: seq<Table>, i: nat, k: nat)
    requires TableRun(run) && i < |run| && k < |run[i].calls| <= WORD && !run[i].cleared
    requires IsPending(run[i].calls[k])
    ensures var c := run[i].calls[k];
      c.promise != [] <==> Answer(run[i].received, c.since, c.id).Some?
  {
    TableRunKeeps(run, i);
    var c := run[i].calls[k];
    assert PromiseInv(run[i].received, c) && FiledInv(run[i], k);
    if c.promise == [] {
      assert HandlerInv(run[i], c.id);
    }
  }

  /**
   In every state of every run the next frame changes exactly the call on file under its id, if there is
   one: a call with that id that has registered, not returned, and had no answer.
   */
  lemma FrameReachesOwner(run: seq<Table>, i: nat, f: Frame, k: nat)
    requires TableRun(run) && i < |run| && k < |run[i].calls|
    ensures var t := run[i];
      var filed := f.streamId in t.handlers && t.handlers[f.streamId] == k;
      && (filed ==> IsPending(t.calls[k]) && t.calls[k].id == f.streamId && t.calls[k].promise == [])
      && t.Dispatch(f).calls[k] == if filed then t.calls[k].(promise := [f.payload]) else t.calls[k]
  {
    TableRunKeeps(run, i);
    assert f.streamId in run[i].handlers ==> HandlerInv(run[i], f.streamId);
  }

  /** So no frame, late or not, reaches a call that has returned. */
  lemma LateReachesNobody(run: seq<Table>, i: nat, f: Frame, k: nat)
    requires TableRun(run) && i < |run| && k < |run[i].calls| && run[i].calls[k].phase.Returned?
    ensures run[i].Dispatch(f).calls[k] == run[i].calls[k]
  {
    TableRunKeeps(run, i);
    ReturnedStays(run[i], Dispatch(f), k);
  }

  lemma ReturnedStays(t: Table, step: TableStep, k: nat)
    requires TableInv(t) && TableEnabled(t, step) && k < |t.calls| && t.calls[k].phase.Returned?
    ensures k < |TableTake(t, step).calls| && TableTake(t, step).calls[k] == t.calls[k]
  {
    if step.Dispatch? {
      assert step.f.streamId in t.handlers ==> HandlerInv(t, step.f.streamId);
    }
  }

  /** Calls that have returned stay as they are. */
  predicate ReturnedKept(t: Table, t': Table) {
    |t.calls| <= |t'.calls| && forall k | 0 <= k < |t.calls| && t.calls[k].phase.Returned? :: t'.calls[k] == t.calls[k]
  }

  lemma TableReturned(t: Table, step: TableStep)
    requires TableInv(t) && TableEnabled(t, step)
    ensures ReturnedKept(t, TableTake(t, step))
  {
    assert |t.calls| <= |TableTake(t, step).calls|;
    forall k | 0 <= k < |t.calls| && t.calls[k].phase.Returned?
      ensures TableTake(t, step).calls[k] == t.calls[k]
    {
      ReturnedStays(t, step, k);
    }
  }

  lemma {:induction false} KeptThroughout(tables: seq<Table>, i: nat, j: nat, k: nat)
    requires forall m | 0 < m < |tables| :: ReturnedKept(tables[m - 1], tables[m])
    requires i <= j < |tables| && k < |tables[i].calls| && tables[i].calls[k].phase.Returned?
    ensures k < |tables[j].calls| && tables[j].calls[k] == tables[i].calls[k]
  {
    if i < j {
      KeptThroughout(tables, i, j - 1, k);
    }
  }

  lemma NextReturned(run: seq<Table>, j: nat)
    requires TableRun(run) && 0 < j < |run|
    ensures ReturnedKept(run[j - 1], run[j])
  {
    TableRunKeeps(run, j - 1);
    assert TableNext(run[j - 1], run[j]);
    var step :| TableEnabled(run[j - 1], step) && run[j] == TableTake(run[j - 1], step);
    TableReturned(run[j - 1], step);
  }

  /** A call that has returned is the same in every later state. */
  lemma ReturnedForGood(run: seq<Table>, i: nat, j: nat, k: nat)
    requires TableRun(run) && i <= j < |run| && k < |run[i].calls| && run[i].calls[k].phase.Returned?
    ensures k < |run[j].calls| && run[j].calls[k] == run[i].calls[k]
  {
    forall m | 0 < m < |run|
      ensures ReturnedKept(run[m - 1], run[m])
    {
      NextReturned(run, m);
    }
    KeptThroughout(run, i, j, k);
  }

  // ---------- when false is returned, and when not ----------

  /** The call has its answer: it still waits with it, or has returned true with it. */
  predicate Answered(c: Call, answer: Bytes) {
    c.promise == [answer] && (c.phase.Waiting? || c.phase == Returned(Some(answer)))
  }

  predicate AnsweredKept(t: Table, t': Table) {
    |t.calls| <= |t'.calls| &&
    forall k | 0 <= k < |t.calls| && t.calls[k].promise != [] && Answered(t.calls[k], t.calls[k].promise[0]) ::
      Answered(t'.calls[k], t.calls[k].promise[0])
  }

  lemma AnsweredStays(t: Table, step: TableStep, k: nat)
    requires TableInv(t) && TableEnabled(t, step) && k < |t.calls|
    requires t.calls[k].promise != [] && Answered(t.calls[k], t.calls[k].promise[0])
    ensures k < |TableTake(t, step).calls| && Answered(TableTake(t, step).calls[k], t.calls[k].promise[0])
  {
    if step.Dispatch? {
      assert step.f.streamId in t.handlers ==> HandlerInv(t, step.f.streamId);
    }
  }

  lemma TableAnswered(t: Table, step: TableStep)
    requires TableInv(t) && TableEnabled(t, step)
    ensures AnsweredKept(t, TableTake(t, step))
  {
    assert |t.calls| <= |TableTake(t, step).calls|;
    forall k | 0 <= k < |t.calls| && t.calls[k].promise != [] && Answered(t.calls[k], t.calls[k].promise[0])
      ensures Answered(TableTake(t, step).calls[k], t.calls[k].promise[0])
    {
      AnsweredStays(t, step, k);
    }
  }

  lemma {:induction false} AnsweredThroughout(tables: seq<Table>, i: nat, j: nat, k: nat)
    requires forall m | 0 < m < |tables| :: AnsweredKept(tables[m - 1], tables[m])
    requires i <= j < |tables| && k < |tables[i].calls|
    requires tables[i].calls[k].promise != [] && Answered(tables[i].calls[k], tables[i].calls[k].promise[0])
    ensures k < |tables[j].calls| && Answered(tables[j].calls[k], tables[i].calls[k].promise[0])
  {
    if i < j {
      AnsweredThroughout(tables, i, j - 1, k);
      assert AnsweredKept(tables[j - 1], tables[j]);
    }
  }

  lemma NextAnswered(run: seq<Table>, j: nat)
    requires TableRun(run) && 0 < j < |run|
    ensures AnsweredKept(run[j - 1], run[j])
  {
    TableRunKeeps(run, j - 1);
    assert TableNext(run[j - 1], run[j]);
    var step :| TableEnabled(run[j - 1], step) && run[j] == TableTake(run[j - 1], step);
    TableAnswered(run[j - 1], step);
  }

  /** A waiting call whose answer has arrived does not return false: it waits on, or returns true with that answer. */
  lemma AnsweredForGood(run: seq<Table>, i: nat, j: nat, k: nat)
    requires TableRun(run) && i <= j < |run| && k < |run[i].calls|
    requires run[i].calls[k].phase.Waiting? && run[i].calls[k].promise != []
    ensures k < |run[j].calls| && Answered(run[j].calls[k], run[i].calls[k].promise[0])
  {
    assert PromiseInv(run[i].received, run[i].calls[k]) by {
      TableRunKeeps(run, i);
    }
    forall m | 0 < m < |run|
      ensures AnsweredKept(run[m - 1], run[m])
    {
      NextAnswered(run, m);
    }
    AnsweredThroughout(run, i, j, k);
  }

  /** A step at which a call fails: its write does, or it stops waiting with no answer there. */
  predicate Fails(t: Table, t': Table, k: nat)
    requires k < |t.calls| && k < |t'.calls|
  {
    || (t.calls[k].phase.Writing? && t'.calls[k].phase.WriteFailed?)
    || (t.calls[k].phase.Waiting? && t.calls[k].promise == [] && t'.calls[k].phase.TimedOut?)
  }

  predicate Failing(c: Call) {
    c.phase.WriteFailed? || c.phase.TimedOut? || c.phase == Returned(None)
  }

  predicate FailingStep(t: Table, t': Table) {
    forall k | 0 <= k < |t'.calls| && Failing(t'.calls[k]) ::
      k < |t.calls| && (Failing(t.calls[k]) || Fails(t, t', k))
  }

  lemma {:induction false} FailedBefore(tables: seq<Table>, j: nat, k: nat) returns (m: nat)
    requires tables != [] && tables[0].calls == [] && forall m | 0 < m < |tables| :: FailingStep(tables[m - 1], tables[m])
    requires j < |tables| && k < |tables[j].calls| && Failing(tables[j].calls[k])
    ensures m < j && k < |tables[m].calls| && k < |tables[m + 1].calls| && Fails(tables[m], tables[m + 1], k)
  {
    assert FailingStep(tables[j - 1], tables[j]);
    if Failing(tables[j - 1].calls[k]) {
      m := FailedBefore(tables, j - 1, k);
    } else {
      m := j - 1;
    }
  }

  lemma TableFailing(t: Table, step: TableStep)
    requires TableEnabled(t, step)
    ensures FailingStep(t, TableTake(t, step))
  {}

  lemma NextFailing(run: seq<Table>, j: nat)
    requires TableRun(run) && 0 < j < |run|
    ensures FailingStep(run[j - 1], run[j])
  {
    assert TableNext(run[j - 1], run[j]);
    var step :| TableEnabled(run[j - 1], step) && run[j] == TableTake(run[j - 1], step);
    TableFailing(run[j - 1], step);
  }

  /** A call returns false only if its write failed, or it stopped waiting when no answer had arrived. */
  lemma FalseOnlyOnFailure(run: seq<Table>, j: nat, k: nat) returns (m: nat)
    requires TableRun(run) && j < |run| && k < |run[j].calls| && run[j].calls[k].phase == Returned(None)
    ensures m < j && k < |run[m].calls| && k < |run[m + 1].calls| && Fails(run[m], run[m + 1], k)
  {
    forall n | 0 < n < |run|
      ensures FailingStep(run[n - 1], run[n])
    {
      NextFailing(run, n);
    }
    m := FailedBefore(run, j, k);
  }

  // ---------- what a call keeps, and what disconnect takes ----------

  predicate RequestsKept(t: Table, t': Table) {
    |t.calls| <= |t'.calls| && forall k | 0 <= k < |t.calls| :: Request(t'.calls[k]) == Request(t.calls[k])
  }

  lemma TableRequests(t: Table, step: TableStep)
    requires TableEnabled(t, step)
    ensures RequestsKept(t, TableTake(t, step))
  {}

  lemma NextRequests(run: seq<Table>, j: nat)
    requires TableRun(run) && 0 < j < |run|
    ensures RequestsKept(run[j - 1], run[j])
  {
    assert TableNext(run[j - 1], run[j]);
    var step :| TableEnabled(run[j - 1], step) && run[j] == TableTake(run[j - 1], step);
    TableRequests(run[j - 1], step);
  }

  lemma {:induction false} RequestsThroughout(tables: seq<Table>, i: nat, j: nat)
    requires i <= j < |tables| && forall m | 0 < m < |tables| :: RequestsKept(tables[m - 1], tables[m])
    ensures RequestsKept(tables[i], tables[j])
  {
    if i < j {
      RequestsThroughout(tables, i, j - 1);
      assert RequestsKept(tables[j - 1], tables[j]);
    }
  }

  /** The call made for a payload requests just that payload, under the next id, in every later state. */
  lemma DrawnForGood(run: seq<Table>, i: nat, j: nat, payload: Bytes)
    requires TableRun(run) && i < j < |run| && run[i + 1] == TableTake(run[i], Draw(payload))
    ensures var k := |run[i].calls|;
      && k < |run[j].calls|
      && Request(run[j].calls[k]) == Make(Wrap(k), 1, payload)
  {
    TableRunKeeps(run, i);
    forall m | 0 < m < |run|
      ensures RequestsKept(run[m - 1], run[m])
    {
      NextRequests(run, m);
    }
    RequestsThroughout(run, i + 1, j);
    assert Request(run[i + 1].calls[|run[i].calls|]) == Make(Wrap(|run[i].calls|), 1, payload);
  }

  /** The call has registered, and no handler is on file for it. */
  predicate Unfiled(t: Table, k: nat) {
    k < |t.calls| && IsRegistered(t.calls[k]) && forall id | id in t.handlers :: t.handlers[id] != k
  }

  lemma UnfiledStays(t: Table, step: TableStep, k: nat)
    requires TableEnabled(t, step) && Unfiled(t, k)
    ensures Unfiled(TableTake(t, step), k) && TableTake(t, step).calls[k].promise == t.calls[k].promise
  {}

  predicate UnfiledKept(t: Table, t': Table, k: nat) {
    Unfiled(t, k) ==> Unfiled(t', k) && t'.calls[k].promise == t.calls[k].promise
  }

  lemma NextUnfiled(run: seq<Table>, j: nat, k: nat)
    requires TableRun(run) && 0 < j < |run|
    ensures UnfiledKept(run[j - 1], run[j], k)
  {
    assert TableNext(run[j - 1], run[j]);
    var step :| TableEnabled(run[j - 1], step) && run[j] == TableTake(run[j - 1], step);
    if Unfiled(run[j - 1], k) {
      UnfiledStays(run[j - 1], step, k);
    }
  }

  lemma {:induction false} UnfiledThroughout(tables: seq<Table>, i: nat, j: nat, k: nat)
    requires i <= j < |tables| && forall m | 0 < m < |tables| :: UnfiledKept(tables[m - 1], tables[m], k)
    ensures UnfiledKept(tables[i], tables[j], k)
  {
    if i < j {
      UnfiledThroughout(tables, i, j - 1, k);
      assert UnfiledKept(tables[j - 1], tables[j], k);
    }
  }

  /** Once disconnect has dropped the handlers, no call registered before gets an answer any more. */
  lemma ClearedForGood(run: seq<Table>, i: nat, j: nat, k: nat)
    requires TableRun(run) && i < j < |run| && run[i + 1] == TableTake(run[i], Clear)
    requires k < |run[i].calls| && IsRegistered(run[i].calls[k])
    ensures k < |run[j].calls| && run[j].calls[k].promise == run[i].calls[k].promise
  {
    forall m | 0 < m < |run|
      ensures UnfiledKept(run[m - 1], run[m], k)
    {
      NextUnfiled(run, m, k);
    }
    assert Unfiled(run[i + 1], k);
    UnfiledThroughout(run, i + 1, j, k);
  }

  lemma ExtendTable(run: seq<Table>, step: TableStep) returns (run': seq<Table>)
    requires TableRun(run) && TableEnabled(run[|run| - 1], step)
    ensures TableRun(run') && run'[|run'| - 1] == TableTake(run[|run| - 1], step)
  {
    run' := run + [TableTake(run[|run| - 1], step)];
    forall i, j | 0 <= i < j < |run'| && j == i + 1
      ensures TableNext(run'[i], run'[j])
    {
      assert j < |run| ==> TableNext(run[i], run[j]);
      assert j == |run| ==> TableEnabled(run'[i], step) && run'[j] == TableTake(run'[i], step);
    }
  }

  /** A call that waits without an answer can give up at any time, and returns false. */
  lemma CanGiveUp(run: seq<Table>, k: nat) returns (run': seq<Table>)
    requires TableRun(run) && k < |run[|run| - 1].calls|
    requires run[|run| - 1].calls[k].phase == Waiting && run[|run| - 1].calls[k].promise == []
    ensures TableRun(run') && k < |run'[|run'| - 1].calls| && run'[|run'| - 1].calls[k].phase == Returned(None)
  {
    run' := ExtendTable(run, TimeOut(k));
    run' := ExtendTable(run', EraseTimedOut(k));
  }

  /** A call that has just registered gets the next frame with its id, whoever was on file under it. */
  lemma NewestAnswered(run: seq<Table>, i: nat, k: nat, f: Frame)
    requires TableRun(run) && i < |run| && k < |run[i].calls| && run[i].calls[k].phase == Drawn
    requires f.streamId == run[i].calls[k].id
    ensures TableTake(TableTake(run[i], Register(k)), Dispatch(f)).calls[k].promise == [f.payload]
  {
    TableRunKeeps(run, i);
    RegisterKeeps(run[i], k);
    var t := TableTake(run[i], Register(k));
    assert t.handlers[f.streamId] == k && HandlerInv(t, f.streamId);
    assert [] + [f.payload] == [f.payload];
  }
}
