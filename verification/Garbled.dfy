/**
 Why the answers of the RPC client are only good until a write follows one cut off partway: a run in
 which a caller gets an answer to a request it never made.
 */
module Garbled {
  import opened Words
  import opened Frames
  import opened Parser
  import opened Writers
  import opened Links
  import opened Correlation
  import opened Echo

  // ---------- the bytes ----------

  /** The second caller's payload happens to look like a frame with the second caller's id. */
  function Inner(c: Config): Bytes {
    Serialize(c.clientChecks, Make(1, 1, []))
  }

  function FirstData(c: Config, payload: Bytes): Bytes {
    Serialize(c.clientChecks, Make(0, 1, payload))
  }

  function SecondData(c: Config): Bytes {
    Serialize(c.clientChecks, Make(1, 1, Inner(c)))
  }

  /** What the server makes of the first caller's header followed by the second caller's. */
  function Mixed(c: Config, payload: Bytes): Frame {
    Stamp(c.clientChecks, Make(0, 1, payload)).(payload := SecondData(c)[..HEADER_SIZE])
  }

  function Wire(c: Config, payload: Bytes): Bytes
    requires |payload| == HEADER_SIZE
  {
    FirstData(c, payload)[..HEADER_SIZE] + SecondData(c)
  }

  lemma Sizes(c: Config, payload: Bytes)
    requires |payload| == HEADER_SIZE
    ensures |Inner(c)| == HEADER_SIZE && |FirstData(c, payload)| == 2 * HEADER_SIZE && |SecondData(c)| == 2 * HEADER_SIZE
    ensures SecondData(c)[HEADER_SIZE..] == Inner(c)
  {}

  lemma MixedBytes(c: Config, payload: Bytes)
    requires |payload| == HEADER_SIZE
    ensures Wire(c, payload) == Encode(Mixed(c, payload)) + Inner(c) && WellFormed(Mixed(c, payload))
  {
    Sizes(c, payload);
    WrapWord(HEADER_SIZE);
    var header := FirstData(c, payload)[..HEADER_SIZE];
    assert Encode(Mixed(c, payload)) == header + SecondData(c)[..HEADER_SIZE];
    assert SecondData(c) == SecondData(c)[..HEADER_SIZE] + Inner(c);
  }

  lemma InnerParsed(c: Config)
    ensures Parse(Inner(c)) == [Embedded(c)] && Residue(Inner(c)) == []
  {
    WrapWord(0);
    WholeParse(c.clientChecks, [Make(1, 1, [])]);
    OneSerialized(c.clientChecks, Make(1, 1, []));
  }

  function Embedded(c: Config): Frame {
    Stamp(c.clientChecks, Make(1, 1, []))
  }

  lemma TwoFrames(d: Bytes, f: Frame, rest: Bytes, g: Frame)
    requires WellFormed(f) && f.clientId == -1 && d == Encode(f) + rest && Parse(rest) == [g] && Residue(rest) == []
    ensures Parse(d) == [f, g] && Residue(d) == []
  {
    ParseFirst(f, rest);
  }

  /** The server reads a frame of the first caller that was never sent, and the one in the second's payload. */
  lemma WireParsed(c: Config, payload: Bytes)
    requires |payload| == HEADER_SIZE
    ensures Parse(Wire(c, payload)) == [Mixed(c, payload), Embedded(c)] && Residue(Wire(c, payload)) == []
  {
    MixedBytes(c, payload);
    InnerParsed(c);
    TwoFrames(Wire(c, payload), Mixed(c, payload), Inner(c), Embedded(c));
  }

  // ---------- the run ----------

  function FirstCall(payload: Bytes, phase: Phase): Call {
    Call(0, payload, phase, [], 0)
  }

  function SecondCall(c: Config, phase: Phase, promise: seq<Bytes>): Call {
    Call(1, Inner(c), phase, promise, 0)
  }

  const NO_INTAKE := Intake([], [], [], [])

  /** The first caller's write fails after the header. */
  function Cut(c: Config, payload: Bytes): State
    requires |payload| == HEADER_SIZE
  {
    var sent := FirstData(c, payload)[..HEADER_SIZE];
    State(Table(1, [FirstCall(payload, Returned(None))], map[], false, []),
          Line(None, sent, [], [], sent, false), sent, NO_INTAKE, EMPTY_OUTBOX, [], NO_INTAKE, true, true)
  }

  function Locked(c: Config, payload: Bytes): State {
    State(Table(1, [FirstCall(payload, Writing)], map[0 := 0], false, []),
          Line(Some(Holder(0, Make(0, 1, payload), FirstData(c, payload), 0)), [], [], [], [], false),
          [], NO_INTAKE, EMPTY_OUTBOX, [], NO_INTAKE, true, true)
  }

  lemma LockFirst(c: Config, payload: Bytes) returns (run: seq<State>)
    requires |payload| == HEADER_SIZE
    ensures IsRun(c, run)
    ensures run[|run| - 1] == Locked(c, payload)
  {
    var start := State(NO_CALLS, Line(None, [], [], [], [], false), [], NO_INTAKE, EMPTY_OUTBOX, [], NO_INTAKE, true, true);
    run := [start];
    run := Extend(c, run, Caller(Draw(payload)));
    run := Extend(c, run, Caller(Register(0)));
    assert run[|run| - 1] == start.(table := Table(1, [FirstCall(payload, Registered)], map[0 := 0], false, []));
    run := Extend(c, run, TakeLock(0));
    assert run[|run| - 1].table.calls == [FirstCall(payload, Writing)];
  }

  lemma CutFirst(c: Config, payload: Bytes) returns (run: seq<State>)
    requires |payload| == HEADER_SIZE
    ensures IsRun(c, run) && run[|run| - 1] == Cut(c, payload)
  {
    run := LockFirst(c, payload);
    run := SendHeader(c, payload, run);
    run := Extend(c, run, SendFails);
    assert run[|run| - 1].table.calls == [FirstCall(payload, WriteFailed)];
    run := Extend(c, run, Caller(EraseFailed(0)));
    assert run[|run| - 1].table.calls == [FirstCall(payload, Returned(None))];
  }

  lemma SendHeader(c: Config, payload: Bytes, before: seq<State>) returns (run: seq<State>)
    requires |payload| == HEADER_SIZE && IsRun(c, before)
    requires before[|before| - 1] == Locked(c, payload)
    ensures IsRun(c, run)
    ensures var sent := FirstData(c, payload)[..HEADER_SIZE];
      run[|run| - 1] == Locked(c, payload).(up := sent,
        line := Line(Some(Holder(0, Make(0, 1, payload), FirstData(c, payload), HEADER_SIZE)), sent, [], [], sent, false))
  {
    Sizes(c, payload);
    run := Extend(c, before, SendSome(HEADER_SIZE));
    assert [] + FirstData(c, payload)[0..HEADER_SIZE] == FirstData(c, payload)[..HEADER_SIZE];
  }

  /** The second caller's write succeeds, behind the first's header. */
  function Written(c: Config, payload: Bytes): State
    requires |payload| == HEADER_SIZE
  {
    State(Table(2, [FirstCall(payload, Returned(None)), SecondCall(c, Waiting, [])], map[1 := 1], false, []),
          Line(None, Wire(c, payload), [Make(1, 1, Inner(c))], [], [], true), Wire(c, payload),
          NO_INTAKE, EMPTY_OUTBOX, [], NO_INTAKE, true, true)
  }

  lemma LockSecond(c: Config, payload: Bytes, before: seq<State>) returns (run: seq<State>)
    requires |payload| == HEADER_SIZE && IsRun(c, before) && before[|before| - 1] == Cut(c, payload)
    ensures IsRun(c, run)
    ensures run[|run| - 1] == Cut(c, payload).(
      table := Table(2, [FirstCall(payload, Returned(None)), SecondCall(c, Writing, [])], map[1 := 1], false, []),
      line := Cut(c, payload).line.Take(1, Make(1, 1, Inner(c)), SecondData(c)))
  {
    run := Extend(c, before, Caller(Draw(Inner(c))));
    assert run[|run| - 1].table.calls == [FirstCall(payload, Returned(None)), SecondCall(c, Drawn, [])];
    run := Extend(c, run, Caller(Register(1)));
    assert run[|run| - 1].table.calls == [FirstCall(payload, Returned(None)), SecondCall(c, Registered, [])];
    run := Extend(c, run, TakeLock(1));
    assert run[|run| - 1].table.calls == [FirstCall(payload, Returned(None)), SecondCall(c, Writing, [])];
  }

  lemma WriteSecond(c: Config, payload: Bytes, before: seq<State>) returns (run: seq<State>)
    requires |payload| == HEADER_SIZE && IsRun(c, before) && before[|before| - 1] == Cut(c, payload)
    ensures IsRun(c, run) && run[|run| - 1] == Written(c, payload)
  {
    Sizes(c, payload);
    run := LockSecond(c, payload, before);
    run := Extend(c, run, SendSome(2 * HEADER_SIZE));
    assert SecondData(c)[0..2 * HEADER_SIZE] == SecondData(c);
    run := Extend(c, run, Unlock);
    assert run[|run| - 1].table.calls == [FirstCall(payload, Returned(None)), SecondCall(c, Waiting, [])];
  }

  lemma ReceiveTwo(c: Config, before: seq<State>, f: Frame, g: Frame) returns (run: seq<State>)
    requires IsRun(c, before)
    requires var s := before[|before| - 1];
      s.up != [] && s.server == NO_INTAKE && Parse(s.up) == [f, g] && Residue(s.up) == []
    ensures IsRun(c, run)
    ensures var s := before[|before| - 1]; run[|run| - 1] == s.(up := [], server := Intake([], [f, g], [], s.up))
  {
    var s := before[|before| - 1];
    assert s.up[..|s.up|] == s.up && [] + s.up == s.up;
    run := Extend(c, before, ServerReceive(|s.up|));
  }

  lemma AnswerOne(c: Config, before: seq<State>, f: Frame, rest: seq<Frame>) returns (run: seq<State>)
    requires IsRun(c, before) && before[|before| - 1].server.todo == [f] + rest
    ensures IsRun(c, run)
    ensures var s := before[|before| - 1];
      run[|run| - 1] == s.(server := s.server.(todo := rest, taken := s.server.taken + [f]),
                           outbox := s.outbox.Write(Serialize(c.serverChecks, Reply(f))))
  {
    run := Extend(c, before, ServerHandle);
    assert ([f] + rest)[1..] == rest;
  }

  /** The server answers two frames. */
  lemma AnswerTwo(c: Config, before: seq<State>, f: Frame, g: Frame) returns (run: seq<State>)
    requires IsRun(c, before)
    requires var s := before[|before| - 1];
      s.up != [] && s.server == NO_INTAKE && s.outbox == EMPTY_OUTBOX && Parse(s.up) == [f, g] && Residue(s.up) == []
    ensures IsRun(c, run)
    ensures var s := before[|before| - 1];
      var r0, r1 := Serialize(c.serverChecks, Reply(f)), Serialize(c.serverChecks, Reply(g));
      run[|run| - 1] == s.(up := [], server := Intake([], [], [f, g], s.up), outbox := Outbox([r0, r1], [], 0, true, [], [r0, r1]))
  {
    run := ReceiveTwo(c, before, f, g);
    assert [f, g] == [f] + [g];
    run := AnswerOne(c, run, f, [g]);
    assert [g] == [g] + [] && [] + [f] == [f];
    run := AnswerOne(c, run, g, []);
    TwoWrites(Serialize(c.serverChecks, Reply(f)), Serialize(c.serverChecks, Reply(g)));
  }

  lemma TwoWrites(a: Bytes, b: Bytes)
    ensures EMPTY_OUTBOX.Write(a).Write(b) == Outbox([a, b], [], 0, true, [], [a, b])
  {
    assert [] + [a] + [b] == [a, b];
  }

  lemma SendOne(c: Config, before: seq<State>, a: Bytes, rest: seq<Bytes>) returns (run: seq<State>)
    requires IsRun(c, before) && a != []
    requires var o := before[|before| - 1].outbox; o.pending == [a] + rest && o.sent == 0 && o.running
    ensures IsRun(c, run)
    ensures var s := before[|before| - 1];
      run[|run| - 1] == s.(outbox := s.outbox.(pending := rest, wire := s.outbox.wire + a), down := s.down + a)
  {
    var s := before[|before| - 1];
    run := Extend(c, before, ServerWriter(OutboxStep.Accept(|a|)));
    assert a[0..|a|] == a;
    run := Extend(c, run, ServerWriter(Advance));
    assert s.down + a + [] == s.down + a;
    assert ([a] + rest)[1..] == rest;
  }

  /** The server's writer sends two buffers. */
  lemma SendTwo(c: Config, before: seq<State>, a: Bytes, b: Bytes) returns (run: seq<State>)
    requires IsRun(c, before) && a != [] && b != []
    requires var s := before[|before| - 1]; s.outbox == Outbox([a, b], [], 0, true, [], [a, b]) && s.down == []
    ensures IsRun(c, run)
    ensures run[|run| - 1] == before[|before| - 1].(outbox := Outbox([], [], 0, true, a + b, [a, b]), down := a + b)
  {
    run := Extend(c, before, ServerWriter(Batch));
    assert [a, b] == [a] + [b] && [b] == [b] + [] && [] + a == a;
    run := SendOne(c, run, a, [b]);
    run := SendOne(c, run, b, []);
  }

  lemma DispatchOne(c: Config, before: seq<State>, f: Frame, rest: seq<Frame>) returns (run: seq<State>)
    requires IsRun(c, before) && before[|before| - 1].reading && before[|before| - 1].client.todo == [f] + rest
    ensures IsRun(c, run)
    ensures run[|run| - 1].table == before[|before| - 1].table.Dispatch(f)
    ensures run[|run| - 1].reading && run[|run| - 1].client.todo == rest && run[|run| - 1].line == before[|before| - 1].line
  {
    run := Extend(c, before, ClientDispatch);
    assert ([f] + rest)[1..] == rest;
  }

  lemma FetchTwo(c: Config, before: seq<State>, f: Frame, g: Frame) returns (run: seq<State>)
    requires IsRun(c, before)
    requires var s := before[|before| - 1];
      s.down != [] && s.client == NO_INTAKE && s.reading && Parse(s.down) == [f, g]
    ensures IsRun(c, run)
    ensures run[|run| - 1].table == before[|before| - 1].table && run[|run| - 1].line == before[|before| - 1].line
    ensures run[|run| - 1].reading && run[|run| - 1].client.todo == [f, g]
  {
    var s := before[|before| - 1];
    assert s.down[..|s.down|] == s.down && [] + s.down == s.down;
    run := Extend(c, before, ClientReceive(|s.down|));
  }

  /** The table after both frames: one for nobody, one for the second caller. */
  lemma Delivered(c: Config, payload: Bytes, f: Frame, g: Frame)
    requires |payload| == HEADER_SIZE && f.streamId == 0 && g.streamId == 1
    ensures Written(c, payload).table.Dispatch(f).Dispatch(g).calls
         == [FirstCall(payload, Returned(None)), SecondCall(c, Waiting, [g.payload])]
  {
    assert [] + [g.payload] == [g.payload];
  }

  /** The client's reader takes a frame for nobody and one for the second caller, who returns. */
  lemma TakeTwo(c: Config, payload: Bytes, before: seq<State>, f: Frame, g: Frame) returns (run: seq<State>)
    requires |payload| == HEADER_SIZE && IsRun(c, before)
    requires var s := before[|before| - 1];
      s.down != [] && s.client == NO_INTAKE && s.reading && s.table == Written(c, payload).table && Parse(s.down) == [f, g]
    requires f.streamId == 0 && g.streamId == 1
    ensures IsRun(c, run) && run[|run| - 1].line == before[|before| - 1].line
    ensures run[|run| - 1].table.calls == [FirstCall(payload, Returned(None)), SecondCall(c, Returned(Some(g.payload)), [g.payload])]
  {
    run := FetchTwo(c, before, f, g);
    assert [f, g] == [f] + [g] && [g] == [g] + [];
    run := DispatchOne(c, run, f, [g]);
    run := DispatchOne(c, run, g, []);
    Delivered(c, payload, f, g);
    run := Extend(c, run, Caller(Finish(1)));
  }

  function TwoAnswers(c: Config, payload: Bytes): Bytes {
    Serialize(c.serverChecks, Reply(Mixed(c, payload))) + Serialize(c.serverChecks, Reply(Embedded(c)))
  }

  lemma TwoReplies(c: Config, payload: Bytes)
    requires |payload| == HEADER_SIZE
    ensures TwoAnswers(c, payload) != []
    ensures Parse(TwoAnswers(c, payload))
         == [Stamp(c.serverChecks, Reply(Mixed(c, payload))), Stamp(c.serverChecks, Reply(Embedded(c)))]
  {
    var f, g := Reply(Mixed(c, payload)), Reply(Embedded(c));
    ReplySizes(c, payload);
    WholeParse(c.serverChecks, [g]);
    OneSerialized(c.serverChecks, g);
    TwoFrames(Serialize(c.serverChecks, f) + Serialize(c.serverChecks, g), Stamp(c.serverChecks, f),
              Serialize(c.serverChecks, g), Stamp(c.serverChecks, g));
  }

  lemma ReplySizes(c: Config, payload: Bytes)
    requires |payload| == HEADER_SIZE
    ensures WellFormed(Reply(Mixed(c, payload))) && WellFormed(Reply(Embedded(c)))
  {
    Sizes(c, payload);
    WrapWord(|PREFIX + Mixed(c, payload).payload|);
    WrapWord(|PREFIX + Embedded(c).payload|);
  }

  /**
   The proviso is needed, whatever the checksum settings: the first caller's write fails after the
   header, and the second caller, whose request is then written whole, returns true with the reply to a
   request that nobody made.
   */
  lemma GarbledWriteMisleads(c: Config, payload: Bytes) returns (run: seq<State>)
    requires |payload| == HEADER_SIZE
    ensures IsRun(c, run) && Small(run[|run| - 1].table)
    ensures var s := run[|run| - 1];
      && s.line.garbled && s.line.intact == [] && |s.table.calls| == 2
      && s.table.calls[1].payload == Inner(c) != []
      && s.table.calls[1].phase == Returned(Some(PREFIX))
  {
    Sizes(c, payload);
    run := CutFirst(c, payload);
    run := WriteSecond(c, payload, run);
    run := AnswerBoth(c, payload, run);
    run := ReturnSecond(c, payload, run);
  }

  lemma AnswerBoth(c: Config, payload: Bytes, before: seq<State>) returns (run: seq<State>)
    requires |payload| == HEADER_SIZE && IsRun(c, before) && before[|before| - 1] == Written(c, payload)
    ensures IsRun(c, run)
    ensures var s := run[|run| - 1];
      && s.down == TwoAnswers(c, payload) && s.client == NO_INTAKE && s.reading
      && s.table == Written(c, payload).table && s.line == Written(c, payload).line
  {
    var f, g := Mixed(c, payload), Embedded(c);
    Sizes(c, payload);
    WireParsed(c, payload);
    run := AnswerTwo(c, before, f, g);
    run := SendTwo(c, run, Serialize(c.serverChecks, Reply(f)), Serialize(c.serverChecks, Reply(g)));
  }

  lemma ReturnSecond(c: Config, payload: Bytes, before: seq<State>) returns (run: seq<State>)
    requires |payload| == HEADER_SIZE && IsRun(c, before)
    requires var s := before[|before| - 1];
      && s.down == TwoAnswers(c, payload) && s.client == NO_INTAKE && s.reading
      && s.table == Written(c, payload).table && s.line == Written(c, payload).line
    ensures IsRun(c, run)
    ensures var s := run[|run| - 1];
      && s.line == Written(c, payload).line
      && s.table.calls == [FirstCall(payload, Returned(None)), SecondCall(c, Returned(Some(PREFIX)), [PREFIX])]
  {
    TwoReplies(c, payload);
    run := TakeTwo(c, payload, before, Stamp(c.serverChecks, Reply(Mixed(c, payload))), Stamp(c.serverChecks, Reply(Embedded(c))));
    assert PREFIX + [] == PREFIX;
  }
}
