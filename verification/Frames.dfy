/** The frame, its additive checksum and its wire layout (include/frame.h). */
module Frames {
  import opened Words

  const HEADER_SIZE: nat := 16

  datatype Frame = Frame(
    length: Word, streamId: Word, sequence: Word, checksum: Word,
    payload: Bytes, clientId: int)

  datatype Result<+T> = Success(value: T) | Failure(error: string)

  /** A frame as senders fill it in; the 32-bit length truncates the payload size. */
  function Make(streamId: Word, sequence: Word, payload: Bytes): Frame {
    Frame(Wrap(|payload|), streamId, sequence, 0, payload, -1)
  }

  predicate WellFormed(f: Frame) {
    f.length == |f.payload|
  }

  // ---------- checksum ----------

  /** Running 32-bit sum of the payload bytes, added from the left. */
  function Accumulate(payload: Bytes): Word {
    if payload == [] then 0
    else Plus(Accumulate(payload[..|payload| - 1]), payload[|payload| - 1])
  }

  function Checksum(enabled: bool, f: Frame): Word {
    if !enabled then 0
    else Plus(Plus(Plus(f.length, f.streamId), f.sequence), Accumulate(f.payload))
  }

  predicate Verify(enabled: bool, f: Frame) {
    !enabled || f.checksum == Checksum(enabled, f)
  }

  /** The unbounded sum of some bytes. */
  function Sum(payload: Bytes): nat {
    if payload == [] then 0 else Sum(payload[..|payload| - 1]) + payload[|payload| - 1]
  }

  /** The unbounded sum the checksum stands for. */
  function TrueSum(f: Frame): nat {
    f.length as int + f.streamId as int + f.sequence as int + Sum(f.payload)
  }

  lemma {:induction false} AccumulateIsSum(payload: Bytes)
    ensures Accumulate(payload) == Wrap(Sum(payload))
  {
    if payload != [] {
      AccumulateIsSum(payload[..|payload| - 1]);
      PlusWraps(Sum(payload[..|payload| - 1]), payload[|payload| - 1]);
    }
  }

  /** Four wrapping additions compute the true sum modulo 2^32. */
  lemma ChecksumIsTrueSum(f: Frame)
    ensures Checksum(true, f) == Wrap(TrueSum(f))
  {
    AccumulateIsSum(f.payload);
    HeaderSum(f.length, f.streamId, f.sequence, Sum(f.payload));
  }

  lemma HeaderSum(a: Word, b: Word, c: Word, n: nat)
    ensures Plus(Plus(Plus(a, b), c), Wrap(n)) == Wrap(a as int + b as int + c as int + n)
  {
    WrapWord(a);
    WrapWord(b);
    WrapWord(c);
    PlusWraps(a, b);
    PlusWraps(a as int + b as int, c);
    PlusWraps(a as int + b as int + c as int, n);
  }

  lemma {:induction false} SumUpdate(p: Bytes, i: nat, b: Byte)
    requires i < |p|
    ensures Sum(p[i := b]) == Sum(p) - p[i] as int + b as int
  {
    var last := |p| - 1;
    if i == last {
      assert p[i := b][..last] == p[..last];
    } else {
      SumUpdate(p[..last], i, b);
      assert p[i := b][..last] == p[..last][i := b];
    }
  }

  lemma {:induction false} SumRemove(p: Bytes, i: nat)
    requires i < |p|
    ensures Sum(p) == Sum(p[..i] + p[i + 1..]) + p[i]
  {
    var last := |p| - 1;
    if i == last {
      assert p[..i] + p[i + 1..] == p[..last];
    } else {
      SumRemove(p[..last], i);
      var rest := p[..i] + p[i + 1..];
      assert rest[..|rest| - 1] == p[..last][..i] + p[..last][i + 1..];
    }
  }

  lemma {:induction false} SumPermutation(p: Bytes, q: Bytes)
    requires multiset(p) == multiset(q)
    ensures Sum(p) == Sum(q)
    decreases |p|
  {
    if p == [] {
      assert |multiset(q)| == 0;
    } else {
      var b := p[|p| - 1];
      assert b in multiset(q);
      var i :| 0 <= i < |q| && q[i] == b;
      SumRemove(q, i);
      assert p == p[..|p| - 1] + [b];
      var rest := q[..i] + q[i + 1..];
      assert q == q[..i] + [b] + q[i + 1..];
      assert multiset(p[..|p| - 1]) == multiset(p) - multiset{b};
      assert multiset(rest) == multiset(q) - multiset{b};
      SumPermutation(p[..|p| - 1], rest);
    }
  }

  // ---------- wire layout ----------

  /** Header and payload with the checksum field as stored. */
  function Encode(f: Frame): Bytes {
    ToBytes(f.length) + ToBytes(f.streamId) + ToBytes(f.sequence) + ToBytes(f.checksum) + f.payload
  }

  /** A frame with its checksum field recomputed and no client attached: what the peer decodes. */
  function Stamp(enabled: bool, f: Frame): Frame {
    f.(checksum := Checksum(enabled, f), clientId := -1)
  }

  /** The bytes `serialize` writes: the stored checksum is ignored and recomputed. */
  function Serialize(enabled: bool, f: Frame): Bytes {
    Encode(Stamp(enabled, f))
  }

  /** True when `d` starts with a whole frame. */
  predicate Complete(d: Bytes) {
    |d| >= HEADER_SIZE && |d| >= HEADER_SIZE + WordAt(d, 0)
  }

  function FrameSize(d: Bytes): nat
    requires |d| >= HEADER_SIZE
  {
    HEADER_SIZE + WordAt(d, 0)
  }

  /** The frame at the front of `d`. */
  function Decode(d: Bytes): Frame
    requires Complete(d)
  {
    Frame(WordAt(d, 0), WordAt(d, 4), WordAt(d, 8), WordAt(d, 12), d[HEADER_SIZE..FrameSize(d)], -1)
  }

  function Deserialize(d: Bytes): Result<Frame> {
    if |d| < HEADER_SIZE then Failure("too short for a header")
    else if |d| < HEADER_SIZE + WordAt(d, 0) then Failure("too short for the payload")
    else Success(Decode(d))
  }

  /** Overwrites four bytes of the buffer with a word, between a written front and an untouched back. */
  method PutWord(data: array<Byte>, at: nat, w: Word)
    requires at + 4 <= data.Length
    modifies data
    ensures data[..at + 4] == old(data[..at]) + ToBytes(w)
    ensures data[at + 4..] == old(data[at + 4..])
  {
    data[at], data[at + 1], data[at + 2], data[at + 3] := Octet(w, 0), Octet(w, 1), Octet(w, 2), Octet(w, 3);
    assert data[at..at + 4] == ToBytes(w);
    assert data[..at + 4] == data[..at] + data[at..at + 4];
  }

  /** Fills the buffer field by field, as the source does. */
  method SerializeFrame(enabled: bool, f: Frame) returns (data: array<Byte>)
    ensures data[..] == Serialize(enabled, f)
  {
    data := new Byte[HEADER_SIZE + |f.payload|](_ => 0);
    PutWord(data, 0, f.length);
    PutWord(data, 4, f.streamId);
    PutWord(data, 8, f.sequence);
    PutWord(data, 12, Checksum(enabled, f));
    ghost var header := data[..HEADER_SIZE];
    forall i | 0 <= i < |f.payload| {
      data[HEADER_SIZE + i] := f.payload[i];
    }
    assert data[..] == header + f.payload;
  }

  method ParseHeader(d: Bytes)
    returns (ok: bool, length: Word, streamId: Word, sequence: Word, checksum: Word)
    ensures ok <==> |d| >= HEADER_SIZE
    ensures ok ==> ToBytes(length) + ToBytes(streamId) + ToBytes(sequence) + ToBytes(checksum) == d[..HEADER_SIZE]
  {
    if |d| < HEADER_SIZE {
      return false, 0, 0, 0, 0;
    }
    ok, length, streamId, sequence, checksum := true, WordAt(d, 0), WordAt(d, 4), WordAt(d, 8), WordAt(d, 12);
    HeaderBytes(d);
  }

  lemma HeaderBytes(d: Bytes)
    requires |d| >= HEADER_SIZE
    ensures ToBytes(WordAt(d, 0)) + ToBytes(WordAt(d, 4)) + ToBytes(WordAt(d, 8)) + ToBytes(WordAt(d, 12)) == d[..HEADER_SIZE]
  {
    BytesOfWord(d, 0);
    BytesOfWord(d, 4);
    BytesOfWord(d, 8);
    BytesOfWord(d, 12);
  }

  // ---------- the codec inverts both ways ----------

  lemma HeaderWords(f: Frame, tail: Bytes)
    ensures var d := Encode(f) + tail;
      WordAt(d, 0) == f.length && WordAt(d, 4) == f.streamId && WordAt(d, 8) == f.sequence && WordAt(d, 12) == f.checksum
  {
    var a, b, c, e := ToBytes(f.length), ToBytes(f.streamId), ToBytes(f.sequence), ToBytes(f.checksum);
    var d := Encode(f) + tail;
    WordOfBytes(f.length, [], b + c + e + f.payload + tail);
    assert d == [] + a + (b + c + e + f.payload + tail);
    WordOfBytes(f.streamId, a, c + e + f.payload + tail);
    assert d == a + b + (c + e + f.payload + tail);
    WordOfBytes(f.sequence, a + b, e + f.payload + tail);
    assert d == a + b + c + (e + f.payload + tail);
    WordOfBytes(f.checksum, a + b + c, f.payload + tail);
    assert d == a + b + c + e + (f.payload + tail);
  }

  /** Whatever follows it on the wire, an encoded frame is read back whole. */
  /** Where everything is on the wire. */
  lemma Layout(enabled: bool, f: Frame)
    ensures var d := Serialize(enabled, f);
      && |d| == 16 + |f.payload|
      && WordAt(d, 0) == f.length && WordAt(d, 4) == f.streamId && WordAt(d, 8) == f.sequence
      && WordAt(d, 12) == (if enabled then Wrap(TrueSum(f)) else 0)
      && d[16..] == f.payload
  {
    if enabled {
      ChecksumIsTrueSum(f);
    }
    HeaderWords(Stamp(enabled, f), []);
    assert Serialize(enabled, f) + [] == Serialize(enabled, f);
  }

  lemma DecodeEncode(f: Frame, tail: Bytes)
    requires WellFormed(f)
    ensures var d := Encode(f) + tail;
      Complete(d) && FrameSize(d) == |Encode(f)| && Decode(d) == f.(clientId := -1)
  {
    HeaderWords(f, tail);
  }

  lemma EncodeDecode(d: Bytes)
    requires Complete(d)
    ensures WellFormed(Decode(d)) && Encode(Decode(d)) == d[..FrameSize(d)]
  {
    HeaderBytes(d);
  }

  /** `deserialize(serialize(f))` keeps length, ids and payload, and verifies under either setting. */
  lemma DeserializeSerialize(enabled: bool, f: Frame)
    requires WellFormed(f)
    ensures Deserialize(Serialize(enabled, f)) == Success(Stamp(enabled, f))
    ensures Verify(enabled, Stamp(enabled, f))
  {
    DecodeEncode(Stamp(enabled, f), []);
    assert Serialize(enabled, f) + [] == Serialize(enabled, f);
  }

  /** Re-serializing received bytes reproduces them exactly when the stored checksum was right. */
  lemma SerializeDeserialize(enabled: bool, d: Bytes)
    requires |d| >= HEADER_SIZE && |d| == FrameSize(d)
    ensures Deserialize(d).Success?
    ensures var f := Deserialize(d).value; Serialize(enabled, f) == d <==> f.checksum == Checksum(enabled, f)
  {
    var f := Decode(d);
    EncodeDecode(d);
    assert d[..FrameSize(d)] == d;
    if Serialize(enabled, f) == d {
      HeaderWords(Stamp(enabled, f), []);
      assert Serialize(enabled, f) + [] == d;
    }
  }

  // ---------- what the checksum detects ----------

  /** With the checksum field untouched, a frame passes exactly when the true sums agree modulo 2^32. */
  lemma AcceptedExactlyOnEqualSums(f: Frame, g: Frame)
    requires g.checksum == Checksum(true, f)
    ensures Verify(true, g) <==> Wrap(TrueSum(g)) == Wrap(TrueSum(f))
  {
    ChecksumIsTrueSum(f);
    ChecksumIsTrueSum(g);
  }

  /** The frame read back after byte `i` of a serialized frame was changed to `b`. */
  function Damaged(f: Frame, i: nat, b: Byte): Frame
    requires 4 <= i < |Encode(f)|
  {
    var e := Encode(f)[i := b];
    Frame(f.length, WordAt(e, 4), WordAt(e, 8), WordAt(e, 12), e[HEADER_SIZE..], -1)
  }

  lemma DeserializeDamaged(f: Frame, i: nat, b: Byte)
    requires WellFormed(f) && 4 <= i < |Encode(f)|
    ensures Deserialize(Encode(f)[i := b]) == Success(Damaged(f, i, b))
  {
    HeaderWords(f, []);
    assert Encode(f) + [] == Encode(f);
  }

  lemma WordByteChange(d: Bytes, at: nat, i: nat, b: Byte)
    requires at + 4 <= |d| && at <= i < at + 4 && d[i] != b
    ensures WordAt(d[i := b], at) != WordAt(d, at)
  {}

  lemma DamagedHeader(f: Frame, i: nat, b: Byte)
    requires 4 <= i < HEADER_SIZE && Encode(f)[i] != b
    ensures var g := Damaged(f, i, b);
      || (g.streamId != f.streamId && g == f.(streamId := g.streamId, clientId := -1))
      || (g.sequence != f.sequence && g == f.(sequence := g.sequence, clientId := -1))
      || (g.checksum != f.checksum && g == f.(checksum := g.checksum, clientId := -1))
  {
    var d := Encode(f);
    HeaderWords(f, []);
    assert d + [] == d;
    assert d[i := b][HEADER_SIZE..] == f.payload;
    if i < 8 {
      WordByteChange(d, 4, i, b);
    } else if i < 12 {
      WordByteChange(d, 8, i, b);
    } else {
      WordByteChange(d, 12, i, b);
    }
  }

  lemma DamagedPayload(f: Frame, i: nat, b: Byte)
    requires HEADER_SIZE <= i < |Encode(f)|
    ensures Damaged(f, i, b) == f.(payload := f.payload[i - HEADER_SIZE := b], clientId := -1)
  {
    HeaderWords(f, []);
    assert Encode(f) + [] == Encode(f);
  }

  lemma DamageChangesSum(f: Frame, i: nat, b: Byte)
    requires 4 <= i < |Encode(f)| && Encode(f)[i] != b
    requires Damaged(f, i, b).checksum == f.checksum
    ensures Wrap(TrueSum(Damaged(f, i, b))) != Wrap(TrueSum(f))
  {
    if i < HEADER_SIZE {
      DamagedHeader(f, i, b);
    } else {
      DamagedPayload(f, i, b);
      SumUpdate(f.payload, i - HEADER_SIZE, b);
    }
    WrapApart(TrueSum(f), TrueSum(Damaged(f, i, b)));
  }

  lemma DamageChangesChecksum(f: Frame, i: nat, b: Byte)
    requires 4 <= i < |Encode(f)|
    requires Damaged(f, i, b).checksum != f.checksum
    ensures TrueSum(Damaged(f, i, b)) == TrueSum(f)
  {
    if i < HEADER_SIZE {
      DamagedHeader(f, i, b);
    } else {
      DamagedPayload(f, i, b);
    }
  }

  /** Changing one byte after the length field of a serialized frame is always noticed. */
  lemma SingleByteDetected(f: Frame, i: nat, b: Byte)
    requires WellFormed(f)
    requires 4 <= i < |Serialize(true, f)| && Serialize(true, f)[i] != b
    ensures var r := Deserialize(Serialize(true, f)[i := b]); r.Success? && !Verify(true, r.value)
  {
    var s := Stamp(true, f);
    var g := Damaged(s, i, b);
    DeserializeDamaged(s, i, b);
    assert TrueSum(s) == TrueSum(f);
    ChecksumIsTrueSum(f);
    ChecksumIsTrueSum(g);
    if g.checksum == s.checksum {
      DamageChangesSum(s, i, b);
    } else {
      DamageChangesChecksum(s, i, b);
    }
  }

  /** Reordered payload bytes are never noticed. */
  lemma PermutationAccepted(f: Frame, payload: Bytes)
    requires multiset(payload) == multiset(f.payload)
    ensures Verify(true, Stamp(true, f).(payload := payload))
  {
    SumPermutation(payload, f.payload);
    AcceptedExactlyOnEqualSums(f, Stamp(true, f).(payload := payload));
  }
}
