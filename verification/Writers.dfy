/**
 The two writers that cope with short sends: the server's queue drained in batches
 (include/tcp_server.h) and the client's locked write (include/tcp_client.h).
 */
module Writers {
  import opened Words
  import opened Frames
  import opened Parser

  // ---------- the server's writer, interleaved with callers of `write` ----------

  datatype Outbox = Outbox(
    queue: seq<Bytes>,
    pending: seq<Bytes>,     // the batch taken off the queue; its first buffer is being sent
    sent: nat,               // how much of that buffer the kernel has accepted
    running: bool,
    // log
    wire: Bytes,             // everything the kernel has accepted
    written: seq<Bytes>)     // everything passed to `write`
  {
    function Write(data: Bytes): Outbox {
      this.(queue := queue + [data], written := written + [data])
    }

    predicate CanBatch() {
      running && pending == [] && queue != []
    }

    function Batch(): Outbox {
      this.(pending := queue, queue := [], sent := 0)
    }

    predicate CanSend() {
      running && pending != [] && sent < |pending[0]|
    }

    /** The kernel accepts the next `n` bytes. */
    function Accept(n: nat): Outbox
      requires CanSend() && n <= |pending[0]| - sent
    {
      this.(sent := sent + n, wire := wire + pending[0][sent..sent + n])
    }

    /** A send fails: the writer thread ends. */
    function Fail(): Outbox {
      this.(running := false)
    }

    predicate CanAdvance() {
      running && pending != [] && sent == |pending[0]|
    }

    function Advance(): Outbox
      requires CanAdvance()
    {
      this.(pending := pending[1..], sent := 0)
    }
  }

  const EMPTY_OUTBOX := Outbox([], [], 0, true, [], [])

  datatype OutboxStep = Write(data: Bytes) | Batch | Accept(n: nat) | Fail | Advance

  predicate OutboxEnabled(o: Outbox, step: OutboxStep) {
    match step
    case Write(_) => true
    case Batch => o.CanBatch()
    case Accept(n) => o.CanSend() && 0 < n <= |o.pending[0]| - o.sent
    case Fail => o.CanSend()
    case Advance => o.CanAdvance()
  }

  function OutboxTake(o: Outbox, step: OutboxStep): Outbox
    requires OutboxEnabled(o, step)
  {
    match step
    case Write(data) => o.Write(data)
    case Batch => o.Batch()
    case Accept(n) => o.Accept(n)
    case Fail => o.Fail()
    case Advance => o.Advance()
  }

  /** What has been written but not yet accepted by the kernel. */
  function Unsent(o: Outbox): Bytes
    requires o.sent <= |Concat(o.pending)|
  {
    Concat(o.pending)[o.sent..] + Concat(o.queue)
  }

  /** Bytes are conserved, in order: accepted, then the rest of the batch, then the queue. */
  predicate Conserved(o: Outbox) {
    && o.sent <= (if o.pending == [] then 0 else |o.pending[0]|)
    && o.sent <= |Concat(o.pending)|
    && o.wire + Unsent(o) == Concat(o.written)
  }

  lemma WriteConserves(o: Outbox, data: Bytes)
    requires Conserved(o)
    ensures Conserved(o.Write(data))
  {
    ConcatOne(o.queue, data);
    ConcatOne(o.written, data);
    assert o.wire + Unsent(o.Write(data)) == o.wire + Unsent(o) + data;
  }

  lemma ConcatOne(parts: seq<Bytes>, part: Bytes)
    ensures Concat(parts + [part]) == Concat(parts) + part
  {
    ConcatAppend(parts, [part]);
    assert Concat([part]) == part + Concat([]);
  }

  lemma AcceptConserves(o: Outbox, n: nat)
    requires Conserved(o) && OutboxEnabled(o, Accept(n))
    ensures Conserved(o.Accept(n))
  {
    var all := Concat(o.pending);
    assert o.pending[0] == all[..|o.pending[0]|];
    assert o.pending[0][o.sent..o.sent + n] == all[o.sent..o.sent + n];
    assert all[o.sent..] == all[o.sent..o.sent + n] + all[o.sent + n..];
  }

  lemma AdvanceConserves(o: Outbox)
    requires Conserved(o) && o.CanAdvance()
    ensures Conserved(o.Advance())
  {
    assert Concat(o.pending)[o.sent..] == Concat(o.pending[1..]);
  }

  lemma BatchConserves(o: Outbox)
    requires Conserved(o) && o.CanBatch()
    ensures Conserved(o.Batch())
  {
    assert Concat(o.pending) == [] && Concat([]) == [];
    assert Unsent(o.Batch()) == Unsent(o);
  }

  ghost predicate OutboxRun(run: seq<Outbox>) {
    && run != []
    && run[0] == EMPTY_OUTBOX
    && forall i, j | 0 <= i < j < |run| && j == i + 1 :: OutboxNext(run[i], run[j])
  }

  ghost predicate OutboxNext(o: Outbox, o': Outbox) {
    exists step :: OutboxEnabled(o, step) && o' == OutboxTake(o, step)
  }

  lemma StepConserves(o: Outbox, step: OutboxStep)
    requires Conserved(o) && OutboxEnabled(o, step)
    ensures Conserved(OutboxTake(o, step))
  {
    match step
    case Write(data) => WriteConserves(o, data);
    case Batch => BatchConserves(o);
    case Accept(n) => AcceptConserves(o, n);
    case Fail =>
    case Advance => AdvanceConserves(o);
  }

  /** At every step of every run the wire carries a prefix of all buffers written, in call order. */
  lemma {:induction false} WireIsPrefix(run: seq<Outbox>, i: nat)
    requires OutboxRun(run) && i < |run|
    ensures Conserved(run[i])
    ensures run[i].wire <= Concat(run[i].written)
  {
    if i == 0 {
      assert Concat([]) == [];
    } else {
      WireIsPrefix(run, i - 1);
      assert OutboxNext(run[i - 1], run[i]);
      var step :| OutboxEnabled(run[i - 1], step) && run[i] == OutboxTake(run[i - 1], step);
      StepConserves(run[i - 1], step);
    }
  }

  /** A running writer's send can take any part of what is left of its buffer, or fail; and anyone can write. */
  lemma NothingForced(run: seq<Outbox>, i: nat, n: nat, data: Bytes)
    requires OutboxRun(run) && i < |run|
    ensures OutboxEnabled(run[i], OutboxStep.Write(data))
    ensures run[i].running && run[i].pending != [] && 0 < n <= |run[i].pending[0]| - run[i].sent ==>
      OutboxEnabled(run[i], OutboxStep.Accept(n)) && OutboxEnabled(run[i], OutboxStep.Fail)
  {}

  /** A writer that still runs and has nothing left to do has sent every buffer whole. */
  lemma IdleSentAll(o: Outbox)
    requires Conserved(o) && o.running && !o.CanBatch() && !o.CanSend() && !o.CanAdvance()
    ensures o.wire == Concat(o.written)
  {
    assert Concat([]) == [];
  }

  lemma IdleRunSentAll(run: seq<Outbox>, i: nat)
    requires OutboxRun(run) && i < |run|
    requires run[i].running && !run[i].CanBatch() && !run[i].CanSend() && !run[i].CanAdvance()
    ensures run[i].wire == Concat(run[i].written)
  {
    WireIsPrefix(run, i);
    IdleSentAll(run[i]);
  }

  // ---------- the loops ----------

  type Amount = n: nat | n > 0 witness 1

  /** What one call of send comes back with: up to `n` bytes taken, interrupted by a signal, or an error. */
  datatype SendResult = Taken(n: Amount) | Interrupted | Refused

  /** How a loop of sends ends: all sent, given up, or still inside a send. */
  datatype Outcome = Done | Failed | Blocked

  /** How many bytes a list of results lets through. */
  function Allowance(results: seq<SendResult>): nat {
    if results == [] then 0
    else
      var last := results[|results| - 1];
      Allowance(results[..|results| - 1]) + if last.Taken? then last.n else 0
  }

  lemma AllowanceNext(results: seq<SendResult>, used: nat)
    requires used < |results|
    ensures Allowance(results[..used + 1]) == Allowance(results[..used]) + if results[used].Taken? then results[used].n else 0
  {
    assert results[..used + 1][..used] == results[..used];
  }

  lemma {:induction false} AllowanceMonotone(results: seq<SendResult>, m: nat, n: nat)
    requires m <= n <= |results|
    ensures Allowance(results[..m]) <= Allowance(results[..n])
  {
    if m < n {
      AllowanceMonotone(results, m, n - 1);
      AllowanceNext(results, n - 1);
    }
  }

  /** How many results come before the first refusal; `patient` when an interruption is none. */
  function Usable(results: seq<SendResult>, patient: bool): (n: nat)
    ensures n <= |results| && forall i | 0 <= i < n :: !Stops(results[i], patient)
    ensures n < |results| ==> Stops(results[n], patient)
  {
    if results == [] || Stops(results[0], patient) then 0 else 1 + Usable(results[1..], patient)
  }

  predicate Stops(result: SendResult, patient: bool) {
    result.Refused? || (result.Interrupted? && !patient)
  }

  /** How many bytes of a buffer of this size get through. */
  function Passed(size: nat, results: seq<SendResult>, patient: bool): nat {
    Min(size, Allowance(results[..Usable(results, patient)]))
  }

  /** A loop that has used these results, all but the last not stopping it, has sent what gets through. */
  lemma PassedUsed(size: nat, results: seq<SendResult>, patient: bool, used: nat)
    requires used <= |results| && forall i | 0 <= i < used - 1 :: !Stops(results[i], patient)
    requires used == |results| || Allowance(results[..used]) >= size || (used > 0 && Stops(results[used - 1], patient))
    ensures Min(size, Allowance(results[..used])) == Passed(size, results, patient)
  {
    var n := Usable(results, patient);
    if used > 0 && Stops(results[used - 1], patient) {
      AllowanceNext(results, used - 1);
      assert n == used - 1;
    } else {
      assert used <= n;
      AllowanceMonotone(results, used, n);
    }
  }

  /** Whatever came before, interruptions included, this is the first refusal. */
  predicate FirstRefusal(results: seq<SendResult>, m: nat)
    requires m < |results|
  {
    results[m].Refused? && forall i | 0 <= i < m :: !results[i].Refused?
  }

  lemma UsableRefusal(results: seq<SendResult>)
    ensures Usable(results, true) < |results| <==> exists r :: r in results && r.Refused?
    ensures (forall r | r in results :: !r.Refused?) ==> results[..Usable(results, true)] == results
    ensures forall m | 0 <= m < |results| && FirstRefusal(results, m) :: Usable(results, true) == m
  {
    var n := Usable(results, true);
    if n < |results| {
      assert results[n] in results;
    } else {
      forall r | r in results
        ensures !r.Refused?
      {
        var i :| 0 <= i < |results| && results[i] == r;
        assert !Stops(results[i], true);
      }
    }
  }

  function Min(a: nat, b: nat): nat {
    if a < b then a else b
  }

  /** How many bytes get through of a list of buffers, `sent` bytes into the first; a send stops at the end of its buffer. */
  function Through(pending: seq<Bytes>, sent: nat, results: seq<SendResult>): nat
    decreases |pending|, |results|
  {
    if pending == [] then 0
    else if sent >= |pending[0]| then Through(pending[1..], 0, results)
    else if results == [] || !results[0].Taken? then 0
    else
      var n := Min(results[0].n, |pending[0]| - sent);
      n + Through(pending, sent + n, results[1..])
  }

  lemma ThroughNext(data: Bytes, more: seq<Bytes>, sent: nat, results: seq<SendResult>, used: nat)
    requires sent < |data| && used < |results|
    ensures results[used].Taken? ==>
      var n := Min(results[used].n, |data| - sent);
      Through([data] + more, sent, results[used..]) == n + Through([data] + more, sent + n, results[used + 1..])
    ensures !results[used].Taken? ==> Through([data] + more, sent, results[used..]) == 0
  {
    assert results[used..][1..] == results[used + 1..];
  }

  lemma ThroughDone(data: Bytes, more: seq<Bytes>, results: seq<SendResult>)
    ensures Through([data] + more, |data|, results) == Through(more, 0, results)
  {
    assert ([data] + more)[1..] == more;
  }

  /** In the middle of a buffer: what the results used so far, which all made progress, have let through. */
  ghost predicate Sending(data: Bytes, more: seq<Bytes>, results: seq<SendResult>, sent: nat, used: nat) {
    && sent <= |data| && used <= |results|
    && (forall i | 0 <= i < used :: results[i].Taken?)
    && sent == Min(|data|, Allowance(results[..used]))
    && Through([data] + more, 0, results) == sent + Through([data] + more, sent, results[used..])
  }

  lemma SendingNext(data: Bytes, more: seq<Bytes>, results: seq<SendResult>, sent: nat, used: nat)
    requires Sending(data, more, results, sent, used) && sent < |data| && used < |results| && results[used].Taken?
    ensures Sending(data, more, results, sent + Min(results[used].n, |data| - sent), used + 1)
  {
    AllowanceNext(results, used);
    ThroughNext(data, more, sent, results, used);
  }

  /** If no more results are left, or the next one stops the writer, this is all that gets through. */
  lemma SendingStops(data: Bytes, more: seq<Bytes>, results: seq<SendResult>, sent: nat, used: nat)
    requires Sending(data, more, results, sent, used) && sent < |data|
    ensures used == |results| || !results[used].Taken? ==>
      && sent == Passed(|data|, results, false) && Usable(results, false) == used
      && Through([data] + more, 0, results) == sent
  {
    if used == |results| {
      PassedUsed(|data|, results, false, used);
    } else if !results[used].Taken? {
      AllowanceNext(results, used);
      PassedUsed(|data|, results, false, used + 1);
      ThroughNext(data, more, sent, results, used);
    }
  }

  lemma SendingDone(data: Bytes, more: seq<Bytes>, results: seq<SendResult>, used: nat)
    requires Sending(data, more, results, |data|, used)
    ensures |data| == Passed(|data|, results, false)
    ensures Through([data] + more, 0, results) == |data| + Through(more, 0, results[used..])
  {
    PassedUsed(|data|, results, false, used);
    ThroughDone(data, more, results[used..]);
  }

  class ClientHandler {
    var outgoingQueue: seq<Bytes>
    var running: bool
    var wire: Bytes

    constructor ()
      ensures outgoingQueue == [] && running && wire == []
    {
      outgoingQueue, running, wire := [], true, [];
    }

    method Write(data: Bytes) returns (ok: bool)
      modifies this`outgoingQueue
      ensures ok && outgoingQueue == old(outgoingQueue) + [data]
    {
      outgoingQueue := outgoingQueue + [data];
      ok := true;
    }

    /** Moves the whole queue, in order, into a local batch. */
    method TakeBatch() returns (pending: seq<Bytes>)
      modifies this`outgoingQueue
      ensures pending == old(outgoingQueue) && outgoingQueue == []
    {
      pending := [];
      while outgoingQueue != []
        invariant pending + outgoingQueue == old(outgoingQueue)
        decreases |outgoingQueue|
      {
        pending, outgoingQueue := pending + [outgoingQueue[0]], outgoingQueue[1..];
      }
    }

    /** Sends one buffer; any result but progress ends the writer. */
    method SendBuffer(data: Bytes, results: seq<SendResult>, ghost more: seq<Bytes>) returns (outcome: Outcome, sent: nat, used: nat)
      modifies this`running, this`wire
      ensures used <= |results| && sent <= |data|
      ensures wire == old(wire) + data[..sent] && (outcome.Done? <==> sent == |data|)
      ensures running == (old(running) && !outcome.Failed?)
      ensures sent == Passed(|data|, results, false)
      ensures outcome.Failed? <==> sent < |data| && Usable(results, false) < |results|
      ensures Through([data] + more, 0, results) == sent + if outcome.Done? then Through(more, 0, results[used..]) else 0
      ensures forall i | 0 <= i < used - (if outcome.Failed? then 1 else 0) :: results[i].Taken?
      ensures outcome.Failed? ==> used > 0 && !results[used - 1].Taken?
      ensures outcome.Blocked? ==> used == |results|
    {
      sent, used := 0, 0;
      assert results[0..] == results;
      while sent < |data|
        invariant Sending(data, more, results, sent, used)
        invariant wire == old(wire) + data[..sent]
        invariant running == old(running)
        decreases |results| - used
      {
        SendingStops(data, more, results, sent, used);
        if used == |results| {
          return Blocked, sent, used;
        }
        var result := results[used];
        used := used + 1;
        if !result.Taken? {
          running := false;
          return Failed, sent, used;
        }
        SendingNext(data, more, results, sent, used - 1);
        var n := Min(result.n, |data| - sent);
        SentMore(old(wire), data, sent, n);
        wire := wire + data[sent..sent + n];
        sent := sent + n;
      }
      SendingDone(data, more, results, used);
      outcome := Done;
    }

    /** One turn of the writer thread: take the batch, send its buffers in order. */
    method WriteBatch(results: seq<SendResult>) returns (outcome: Outcome, sent: nat)
      modifies this
      ensures outgoingQueue == []
      ensures sent <= |Concat(old(outgoingQueue))|
      ensures wire == old(wire) + Concat(old(outgoingQueue))[..sent]
      ensures sent == Through(old(outgoingQueue), 0, results)
      ensures outcome.Done? <==> sent == |Concat(old(outgoingQueue))|
      ensures outcome.Failed? <==> sent < |Concat(old(outgoingQueue))| && exists r :: r in results && !r.Taken?
      ensures running == (old(running) && !outcome.Failed?)
    {
      var pending := TakeBatch();
      var used: nat := 0;
      sent := 0;
      BatchingStarts(pending, results);
      assert pending[..0] == [] && Concat([]) == [];
      for i := 0 to |pending|
        invariant outgoingQueue == [] && running == old(running)
        invariant Batching(pending, results, i, sent, used)
        invariant wire == old(wire) + Concat(pending[..i])
      {
        var k, more;
        SliceFront(pending, i);
        outcome, k, more := SendBuffer(pending[i], results[used..], pending[i + 1..]);
        BatchBytes(old(wire), pending, i, k);
        if !outcome.Done? {
          BatchingStops(pending, results, i, sent, used, k);
          sent := sent + k;
          return;
        }
        assert pending[i][..k] == pending[i];
        BatchingNext(pending, results, i, sent, used, more);
        sent, used := sent + k, used + more;
      }
      BatchingDone(pending, results, sent, used);
      outcome := Done;
    }
  }

  /** Between two buffers of a batch: all before are sent, with these results, which all made progress. */
  ghost predicate Batching(pending: seq<Bytes>, results: seq<SendResult>, i: nat, sent: nat, used: nat) {
    && i <= |pending| && used <= |results|
    && (forall j | 0 <= j < used :: results[j].Taken?)
    && sent == |Concat(pending[..i])| <= |Concat(pending)|
    && Through(pending, 0, results) == sent + Through(pending[i..], 0, results[used..])
  }

  lemma BatchingStarts(pending: seq<Bytes>, results: seq<SendResult>)
    ensures Batching(pending, results, 0, 0, 0)
  {
    assert pending[..0] == [] && pending[0..] == pending && results[0..] == results && Concat([]) == [];
  }

  lemma BatchingNext(pending: seq<Bytes>, results: seq<SendResult>, i: nat, sent: nat, used: nat, more: nat)
    requires Batching(pending, results, i, sent, used) && i < |pending| && more <= |results| - used
    requires forall j | 0 <= j < more :: results[used..][j].Taken?
    requires Through([pending[i]] + pending[i + 1..], 0, results[used..])
          == |pending[i]| + Through(pending[i + 1..], 0, results[used..][more..])
    ensures Batching(pending, results, i + 1, sent + |pending[i]|, used + more)
  {
    SliceFront(pending, i);
    ConcatSplit(pending, i);
    assert results[used..][more..] == results[used + more..];
    forall j | 0 <= j < used + more
      ensures results[j].Taken?
    {
      assert j >= used ==> results[used..][j - used].Taken?;
    }
  }

  /** A buffer that is cut off ends the batch there. */
  lemma BatchingStops(pending: seq<Bytes>, results: seq<SendResult>, i: nat, sent: nat, used: nat, k: nat)
    requires Batching(pending, results, i, sent, used) && i < |pending| && k < |pending[i]|
    requires Through([pending[i]] + pending[i + 1..], 0, results[used..]) == k
    ensures sent + k == Through(pending, 0, results) < |Concat(pending)|
    ensures Usable(results[used..], false) < |results[used..]| <==> exists r :: r in results && !r.Taken?
  {
    SliceFront(pending, i);
    ConcatSplit(pending, i);
    var n := Usable(results[used..], false);
    if n < |results[used..]| {
      assert results[used + n] in results && !results[used + n].Taken?;
    } else {
      forall r | r in results
        ensures r.Taken?
      {
        var j :| 0 <= j < |results| && results[j] == r;
        assert j >= used ==> !Stops(results[used..][j - used], false);
      }
    }
  }

  lemma BatchingDone(pending: seq<Bytes>, results: seq<SendResult>, sent: nat, used: nat)
    requires Batching(pending, results, |pending|, sent, used)
    ensures sent == Through(pending, 0, results) == |Concat(pending)| && Concat(pending)[..sent] == Concat(pending)
    ensures Concat(pending[..|pending|]) == Concat(pending)
  {
    assert pending[..|pending|] == pending && pending[|pending|..] == [];
  }

  /** The bytes before a buffer and `k` of its own are the first of the batch. */
  lemma BatchBytes(wire: Bytes, pending: seq<Bytes>, i: nat, k: nat)
    requires i < |pending| && k <= |pending[i]|
    ensures var before := Concat(pending[..i]);
      && |before| + k <= |Concat(pending)|
      && wire + before + pending[i][..k] == wire + Concat(pending)[..|before| + k]
    ensures wire + Concat(pending[..i]) + pending[i] == wire + Concat(pending[..i + 1])
  {
    ConcatSplit(pending, i);
    CutOff(wire, Concat(pending[..i]), pending[i], Concat(pending[i + 1..]), k);
  }

  lemma SentMore(wire: Bytes, data: Bytes, sent: nat, n: nat)
    requires sent + n <= |data|
    ensures wire + data[..sent] + data[sent..sent + n] == wire + data[..sent + n]
  {
    assert data[..sent + n] == data[..sent] + data[sent..sent + n];
  }

  lemma CutOff(wire: Bytes, before: Bytes, data: Bytes, after: Bytes, k: nat)
    requires k <= |data|
    ensures wire + before + data[..k] == wire + (before + data + after)[..|before| + k]
    ensures wire + before + data == wire + (before + data)
  {
    assert (before + data + after)[..|before| + k] == before + data[..k];
  }

  lemma ConcatAround(front: seq<Bytes>, part: Bytes, back: seq<Bytes>)
    ensures Concat(front + [part]) == Concat(front) + part
    ensures Concat(front + [part] + back) == Concat(front) + part + Concat(back)
  {
    ConcatOne(front, part);
    ConcatAppend(front + [part], back);
  }

  lemma ConcatSplit(parts: seq<Bytes>, i: nat)
    requires i < |parts|
    ensures Concat(parts[..i + 1]) == Concat(parts[..i]) + parts[i]
    ensures Concat(parts) == Concat(parts[..i]) + parts[i] + Concat(parts[i + 1..])
  {
    SliceNext(parts, i);
    ConcatAround(parts[..i], parts[i], parts[i + 1..]);
  }

  lemma SliceNext<T>(s: seq<T>, i: nat)
    requires i < |s|
    ensures s[..i + 1] == s[..i] + [s[i]] && s == s[..i] + [s[i]] + s[i + 1..]
  {}

  lemma SliceFront<T>(s: seq<T>, i: nat)
    requires i < |s|
    ensures s[i..] == [s[i]] + s[i + 1..]
  {}

  class ClientSocket {
    var wire: Bytes

    constructor ()
      ensures wire == []
    {
      wire := [];
    }

    /** The locked write: retries when interrupted, gives up on any other failure. */
    method Write(data: Bytes, results: seq<SendResult>) returns (outcome: Outcome, sent: nat)
      modifies this
      ensures sent <= |data|
      ensures wire == old(wire) + data[..sent] && (outcome.Done? <==> sent == |data|)
      ensures sent == Passed(|data|, results, true)
      ensures outcome.Failed? <==> sent < |data| && exists r :: r in results && r.Refused?
      ensures (forall r | r in results :: !r.Refused?) ==> sent == Min(|data|, Allowance(results))
      ensures forall m | 0 <= m < |results| && FirstRefusal(results, m) :: sent == Min(|data|, Allowance(results[..m]))
    {
      UsableRefusal(results);
      sent := 0;
      var used := 0;
      while sent < |data|
        invariant sent <= |data| && 0 <= used <= |results|
        invariant sent == Min(|data|, Allowance(results[..used]))
        invariant forall i | 0 <= i < used :: !results[i].Refused?
        invariant wire == old(wire) + data[..sent]
        decreases |results| - used
      {
        if used == |results| {
          PassedUsed(|data|, results, true, used);
          return Blocked, sent;
        }
        var result := results[used];
        AllowanceNext(results, used);
        used := used + 1;
        if result.Interrupted? {
          continue;
        }
        if result.Refused? {
          PassedUsed(|data|, results, true, used);
          return Failed, sent;
        }
        var n := Min(result.n, |data| - sent);
        SentMore(old(wire), data, sent, n);
        wire := wire + data[sent..sent + n];
        sent := sent + n;
      }
      PassedUsed(|data|, results, true, used);
      outcome := Done;
    }
  }

  lemma PartsLast(checks: bool, fs: seq<Frame>, f: Frame)
    ensures Parts(checks, fs + [f]) == Parts(checks, fs) + [Serialize(checks, f)]
  {}

  lemma SerializeLast(checks: bool, fs: seq<Frame>, f: Frame)
    ensures SerializeAll(checks, fs + [f]) == SerializeAll(checks, fs) + Serialize(checks, f)
  {
    PartsLast(checks, fs, f);
    ConcatOne(Parts(checks, fs), Serialize(checks, f));
  }

  /** How many bytes of a frame its sends let through: retried when interrupted, until one is refused. */
  function Gets(enabled: bool, f: Frame, results: seq<SendResult>): nat {
    Passed(|Serialize(enabled, f)|, results, true)
  }

  /**
   Writes frames one after the other, in lock order, until one write does not return true, which is the
   first whose sends do not let the whole frame through. The wire then holds the whole frames and as
   much of the next one as its sends let through, and the far end parses exactly the whole ones.
   */
  method WriteFrames(enabled: bool, fs: seq<Frame>, results: seq<seq<SendResult>>)
    returns (wire: Bytes, whole: nat, cut: nat)
    requires AllWellFormed(fs) && |results| == |fs|
    ensures whole <= |fs| && (whole == |fs| ==> cut == 0)
    ensures forall j | 0 <= j < whole :: Gets(enabled, fs[j], results[j]) == |Serialize(enabled, fs[j])|
    ensures whole < |fs| ==> cut == Gets(enabled, fs[whole], results[whole]) < |Serialize(enabled, fs[whole])|
    ensures wire == SerializeAll(enabled, fs[..whole]) + if whole < |fs| then Serialize(enabled, fs[whole])[..cut] else []
    ensures Parse(wire) == StampAll(enabled, fs[..whole])
  {
    var socket := new ClientSocket();
    whole, cut := 0, 0;
    while whole < |fs|
      invariant whole <= |fs| && cut == 0
      invariant socket.wire == SerializeAll(enabled, fs[..whole])
      invariant forall j | 0 <= j < whole :: Gets(enabled, fs[j], results[j]) == |Serialize(enabled, fs[j])|
    {
      var data := Serialize(enabled, fs[whole]);
      var outcome, sent := socket.Write(data, results[whole]);
      if !outcome.Done? {
        PrefixIncomplete(enabled, fs[whole], sent);
        ParseSerialized(enabled, fs[..whole], data[..sent]);
        return socket.wire, whole, sent;
      }
      assert data[..sent] == data;
      SliceNext(fs, whole);
      SerializeLast(enabled, fs[..whole], fs[whole]);
      whole := whole + 1;
    }
    ParseSerialized(enabled, fs[..whole], []);
    wire := socket.wire;
    assert wire + [] == wire;
  }

  lemma NothingBetween(a: Bytes, cut: Bytes, b: Bytes)
    ensures a + cut + b == a + b <==> cut == []
  {
    assert |a + cut + b| == |a + b| + |cut|;
    assert a + [] == a;
  }

  /** Bytes of a cut-off write left between whole frames spoil the framing, whatever they are. */
  lemma FramedExactlyWhenWhole(enabled: bool, fs: seq<Frame>, cut: Bytes, gs: seq<Frame>)
    requires AllWellFormed(fs) && AllWellFormed(gs)
    ensures var d := SerializeAll(enabled, fs) + cut + SerializeAll(enabled, gs);
      (Parse(d) == StampAll(enabled, fs + gs) && Residue(d) == []) <==> cut == []
  {
    var d := SerializeAll(enabled, fs) + cut + SerializeAll(enabled, gs);
    SerializeAllAppend(enabled, fs, gs);
    WholeParse(enabled, fs + gs);
    NothingBetween(SerializeAll(enabled, fs), cut, SerializeAll(enabled, gs));
    if Parse(d) == StampAll(enabled, fs + gs) && Residue(d) == [] {
      ParseInjective(d, SerializeAll(enabled, fs + gs));
    }
  }
}
