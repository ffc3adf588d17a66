/** One direction of a connection: frames written whole at one end, bytes cut anywhere at the other. */
module Links {
  import opened Words
  import opened Frames
  import opened Parser

  /** Everything not yet taken by the reader, buffered or in flight, is the parts from `taken` on. */
  predicate Carries(parts: seq<Bytes>, taken: nat, ahead: Bytes) {
    taken <= |parts| && Concat(parts[taken..]) == ahead
  }

  /** Each part is read as the corresponding frame. */
  ghost predicate AllRead(parts: seq<Bytes>, gs: seq<Frame>) {
    |parts| == |gs| && forall i | 0 <= i < |parts| :: Reads(parts[i], gs[i])
  }

  lemma SerializedRead(enabled: bool, fs: seq<Frame>)
    requires AllWellFormed(fs)
    ensures AllRead(Parts(enabled, fs), StampAll(enabled, fs))
  {
    forall i | 0 <= i < |fs|
      ensures Reads(Parts(enabled, fs)[i], StampAll(enabled, fs)[i])
    {
      SerializeReads(enabled, fs[i]);
    }
  }

  lemma LinkWrite(parts: seq<Bytes>, taken: nat, ahead: Bytes, part: Bytes)
    requires Carries(parts, taken, ahead)
    ensures Carries(parts + [part], taken, ahead + part)
  {
    assert (parts + [part])[taken..] == parts[taken..] + [part];
    ConcatAppend(parts[taken..], [part]);
    assert Concat([part]) == part + Concat([]);
  }

  lemma ReadsFront(front: Bytes, g: Frame, rest: Bytes, d: Bytes, wire: Bytes)
    requires Reads(front, g) && d + wire == front + rest && Complete(d)
    ensures Decode(d) == g && FrameSize(d) == |front| && d[FrameSize(d)..] + wire == rest
  {
    assert Complete(front + rest) && FrameSize(front + rest) == |front| && Decode(front + rest) == g;
    CompleteExtends(d, wire);
    assert (front + rest)[|front|..] == rest;
  }

  lemma PartsLeft(parts: seq<Bytes>, tail: Bytes, d: Bytes, wire: Bytes)
    requires !Complete(tail) && Concat(parts) + tail == d + wire && Complete(d)
    ensures parts != []
  {
    CompleteExtends(d, wire);
    assert parts == [] ==> Concat(parts) + tail == tail;
  }

  lemma FirstPart(parts: seq<Bytes>, tail: Bytes)
    requires parts != []
    ensures Concat(parts) + tail == parts[0] + (Concat(parts[1..]) + tail)
  {}

  lemma TakeFirst(parts: seq<Bytes>, gs: seq<Frame>, tail: Bytes, d: Bytes, wire: Bytes)
    requires AllRead(parts, gs) && !Complete(tail) && Concat(parts) + tail == d + wire && Complete(d)
    ensures parts != [] && Decode(d) == gs[0] && Concat(parts[1..]) + tail == d[FrameSize(d)..] + wire
  {
    PartsLeft(parts, tail, d, wire);
    FirstPart(parts, tail);
    assert Reads(parts[0], gs[0]);
    ReadsFront(parts[0], gs[0], Concat(parts[1..]) + tail, d, wire);
  }

  /** Any prefix of whole parts and a cut-off tail parses to a prefix of the frames of those parts. */
  lemma {:induction false} TakeWhole(parts: seq<Bytes>, gs: seq<Frame>, tail: Bytes, d: Bytes, wire: Bytes)
    requires AllRead(parts, gs) && !Complete(tail) && Concat(parts) + tail == d + wire
    ensures Parse(d) <= gs && Concat(parts[|Parse(d)|..]) + tail == Residue(d) + wire
    decreases |d|
  {
    if Complete(d) {
      var d' := d[FrameSize(d)..];
      TakeFirst(parts, gs, tail, d, wire);
      TakeWhole(parts[1..], gs[1..], tail, d', wire);
      assert parts[|Parse(d)|..] == parts[1..][|Parse(d')|..];
    }
  }

  /** A whole frame at the front of the reader's buffer is the next one written. */
  lemma LinkTake(parts: seq<Bytes>, gs: seq<Frame>, taken: nat, d: Bytes, wire: Bytes)
    requires AllRead(parts, gs) && Carries(parts, taken, d + wire) && Complete(d)
    ensures taken < |parts| && Decode(d) == gs[taken]
    ensures Carries(parts, taken + 1, d[FrameSize(d)..] + wire)
  {
    assert Concat(parts[taken..]) + [] == d + wire;
    TakeFirst(parts[taken..], gs[taken..], [], d, wire);
    assert parts[taken..][1..] == parts[taken + 1..];
    assert Concat(parts[taken + 1..]) + [] == Concat(parts[taken + 1..]);
  }

  /** Parsing a buffer yields exactly the next frames written, and the link still carries the rest. */
  lemma LinkParse(parts: seq<Bytes>, gs: seq<Frame>, taken: nat, d: Bytes, wire: Bytes)
    requires AllRead(parts, gs) && Carries(parts, taken, d + wire)
    ensures Parse(d) <= gs[taken..]
    ensures Carries(parts, taken + |Parse(d)|, Residue(d) + wire)
  {
    assert Concat(parts[taken..]) + [] == d + wire;
    TakeWhole(parts[taken..], gs[taken..], [], d, wire);
    var rest := parts[taken + |Parse(d)|..];
    assert parts[taken..][|Parse(d)|..] == rest;
    assert Concat(rest) + [] == Concat(rest);
  }

  lemma LinkGrow(parts: seq<Bytes>, gs: seq<Frame>, taken: seq<Frame>, d: Bytes, wire: Bytes)
    requires AllRead(parts, gs) && taken <= gs && Carries(parts, |taken|, d + wire)
    ensures taken + Parse(d) <= gs
    ensures Carries(parts, |taken + Parse(d)|, Residue(d) + wire)
  {
    LinkParse(parts, gs, |taken|, d, wire);
    PrefixExtends(taken, Parse(d), gs);
  }

  lemma PrefixExtends<T>(a: seq<T>, b: seq<T>, s: seq<T>)
    requires a <= s && b <= s[|a|..]
    ensures a + b <= s && |a + b| == |a| + |b|
  {
    assert s == a + s[|a|..];
  }

  /** All that is ahead parses to all that is left to read. */
  lemma LinkRest(parts: seq<Bytes>, gs: seq<Frame>, taken: nat, ahead: Bytes)
    requires AllRead(parts, gs) && Carries(parts, taken, ahead)
    ensures Parse(ahead) == gs[taken..]
  {
    ParseConcat(parts[taken..], gs[taken..], []);
    assert ahead + [] == ahead;
  }

  // ---------- readers ----------

  /** A read loop: bytes left over from parsing, and parsed frames not yet handled. */
  datatype Intake = Intake(
    buffer: Bytes,
    todo: seq<Frame>,
    // log
    taken: seq<Frame>,       // handled frames
    read: Bytes)             // everything received
  {
    function Receive(chunk: Bytes): Intake {
      this.(buffer := Residue(buffer + chunk), todo := Parse(buffer + chunk), read := read + chunk)
    }

    function Handle(): Intake
      requires todo != []
    {
      this.(todo := todo[1..], taken := taken + [todo[0]])
    }
  }

  predicate IntakeInv(p: Intake) {
    p.taken + p.todo == Parse(p.read) && p.buffer == Residue(p.read)
  }

  lemma ReceiveKeeps(p: Intake, chunk: Bytes)
    requires IntakeInv(p) && p.todo == []
    ensures IntakeInv(p.Receive(chunk))
  {
    ParseAppend(p.read, chunk);
    assert p.taken + [] == p.taken;
  }

  lemma Shift<T>(a: seq<T>, b: seq<T>, all: seq<T>)
    requires b != [] && a + b == all
    ensures a + [b[0]] + b[1..] == all
  {
    assert b == [b[0]] + b[1..];
    assert a + [b[0]] + b[1..] == a + ([b[0]] + b[1..]);
  }

  lemma Cut<T>(a: seq<T>, b: seq<T>, n: nat, all: seq<T>)
    requires n <= |b| && a + b == all
    ensures a + b[..n] + b[n..] == all
  {
    assert b == b[..n] + b[n..];
    assert a + b[..n] + b[n..] == a + (b[..n] + b[n..]);
  }

  lemma Grow<T>(a: seq<T>, b: seq<T>, c: seq<T>, all: seq<T>)
    requires a + b == all
    ensures a + (b + c) == all + c
  {
    assert a + (b + c) == a + b + c;
  }

  lemma HandleKeeps(p: Intake)
    requires IntakeInv(p) && p.todo != []
    ensures IntakeInv(p.Handle())
  {
    Shift(p.taken, p.todo, Parse(p.read));
  }
}
