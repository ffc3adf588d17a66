/** Incremental parsing of a byte stream into frames. */
module Parser {
  import opened Words
  import opened Frames
  import opened Picking

  // ---------- specification ----------

  /** All whole frames at the front of a byte string, in order. */
  function Parse(d: Bytes): seq<Frame>
    decreases |d|
  {
    if !Complete(d) then [] else [Decode(d)] + Parse(d[FrameSize(d)..])
  }

  /** What is left once those frames are taken off. */
  function Residue(d: Bytes): Bytes
    decreases |d|
  {
    if !Complete(d) then d else Residue(d[FrameSize(d)..])
  }

  /** The byte strings written for a list of frames, one each. */
  function Parts(enabled: bool, fs: seq<Frame>): (r: seq<Bytes>)
    ensures |r| == |fs|
    ensures forall i | 0 <= i < |fs| :: r[i] == Serialize(enabled, fs[i])
  {
    seq(|fs|, i requires 0 <= i < |fs| => Serialize(enabled, fs[i]))
  }

  function SerializeAll(enabled: bool, fs: seq<Frame>): Bytes {
    Concat(Parts(enabled, fs))
  }

  function EncodeAll(fs: seq<Frame>): Bytes {
    if fs == [] then [] else Encode(fs[0]) + EncodeAll(fs[1..])
  }

  function StampAll(enabled: bool, fs: seq<Frame>): (r: seq<Frame>)
    ensures |r| == |fs|
    ensures forall i | 0 <= i < |fs| :: r[i] == Stamp(enabled, fs[i])
  {
    seq(|fs|, i requires 0 <= i < |fs| => Stamp(enabled, fs[i]))
  }

  predicate AllWellFormed(fs: seq<Frame>) {
    forall f | f in fs :: WellFormed(f)
  }

  // ---------- chunking ----------

  lemma CompleteExtends(a: Bytes, b: Bytes)
    requires Complete(a)
    ensures Complete(a + b) && FrameSize(a + b) == FrameSize(a) && Decode(a + b) == Decode(a)
    ensures (a + b)[FrameSize(a)..] == a[FrameSize(a)..] + b
  {
    assert (a + b)[HEADER_SIZE..FrameSize(a)] == a[HEADER_SIZE..FrameSize(a)];
  }

  lemma {:induction false} ResidueIncomplete(d: Bytes)
    ensures !Complete(Residue(d))
    ensures |Residue(d)| <= |d| && Residue(d) == d[|d| - |Residue(d)|..]
    decreases |d|
  {
    if Complete(d) {
      ResidueIncomplete(d[FrameSize(d)..]);
    }
  }

  /** Parsing what arrived first, then the rest behind its residue, is parsing everything at once. */
  lemma {:induction false} ParseAppend(a: Bytes, b: Bytes)
    ensures Parse(a + b) == Parse(a) + Parse(Residue(a) + b)
    ensures Residue(a + b) == Residue(Residue(a) + b)
    decreases |a|
  {
    if Complete(a) {
      CompleteExtends(a, b);
      ParseAppend(a[FrameSize(a)..], b);
    }
  }

  /** Nothing is lost: the parsed frames, re-encoded, and the residue make up the input. */
  lemma {:induction false} ParseLossless(d: Bytes)
    ensures AllWellFormed(Parse(d))
    ensures EncodeAll(Parse(d)) + Residue(d) == d
    decreases |d|
  {
    if Complete(d) {
      EncodeDecode(d);
      ParseLossless(d[FrameSize(d)..]);
    }
  }

  // ---------- framing exactness ----------

  /** Whatever follows `front` on the wire, its bytes are read as the frame `g`. */
  ghost predicate Reads(front: Bytes, g: Frame) {
    forall tail: Bytes ::
      Complete(front + tail) && FrameSize(front + tail) == |front| && Decode(front + tail) == g
  }

  lemma SerializeReads(enabled: bool, f: Frame)
    requires WellFormed(f)
    ensures Reads(Serialize(enabled, f), Stamp(enabled, f))
  {
    forall tail: Bytes {
      DecodeEncode(Stamp(enabled, f), tail);
    }
  }

  lemma {:induction false} ParseConcat(parts: seq<Bytes>, gs: seq<Frame>, tail: Bytes)
    requires |parts| == |gs| && forall i | 0 <= i < |parts| :: Reads(parts[i], gs[i])
    requires !Complete(tail)
    ensures Parse(Concat(parts) + tail) == gs && Residue(Concat(parts) + tail) == tail
  {
    if parts == [] {
      assert Concat(parts) + tail == tail;
    } else {
      var front, rest := parts[0], Concat(parts[1..]) + tail;
      assert Concat(parts) + tail == front + rest;
      assert Reads(front, gs[0]);
      assert (front + rest)[|front|..] == rest;
      ParseConcat(parts[1..], gs[1..], tail);
    }
  }

  /** Serialized frames followed by an incomplete tail parse to exactly those frames, leaving the tail. */
  lemma ParseSerialized(enabled: bool, fs: seq<Frame>, tail: Bytes)
    requires AllWellFormed(fs) && !Complete(tail)
    ensures Parse(SerializeAll(enabled, fs) + tail) == StampAll(enabled, fs)
    ensures Residue(SerializeAll(enabled, fs) + tail) == tail
  {
    forall i | 0 <= i < |fs|
      ensures Reads(Parts(enabled, fs)[i], StampAll(enabled, fs)[i])
    {
      SerializeReads(enabled, fs[i]);
    }
    ParseConcat(Parts(enabled, fs), StampAll(enabled, fs), tail);
  }

  /** A proper prefix of a serialized frame is never taken for a frame. */
  lemma PrefixIncomplete(enabled: bool, f: Frame, k: nat)
    requires WellFormed(f) && k < |Serialize(enabled, f)|
    ensures !Complete(Serialize(enabled, f)[..k])
  {
    var d := Serialize(enabled, f);
    DecodeEncode(Stamp(enabled, f), []);
    assert d + [] == d;
    if k >= HEADER_SIZE {
      assert WordAt(d[..k], 0) == WordAt(d, 0);
    }
  }

  /** Whole frames and a cut-off one: exactly the whole frames come out, and their sizes are consumed. */
  lemma FramingExact(enabled: bool, fs: seq<Frame>, next: Frame, k: nat)
    requires AllWellFormed(fs) && WellFormed(next) && k < |Serialize(enabled, next)|
    ensures var d := SerializeAll(enabled, fs) + Serialize(enabled, next)[..k];
      && Parse(d) == StampAll(enabled, fs)
      && |d| - |Residue(d)| == |SerializeAll(enabled, fs)|
  {
    PrefixIncomplete(enabled, next, k);
    ParseSerialized(enabled, fs, Serialize(enabled, next)[..k]);
  }

  lemma SerializeAllAppend(enabled: bool, a: seq<Frame>, b: seq<Frame>)
    ensures SerializeAll(enabled, a + b) == SerializeAll(enabled, a) + SerializeAll(enabled, b)
  {
    assert Parts(enabled, a + b) == Parts(enabled, a) + Parts(enabled, b);
    ConcatAppend(Parts(enabled, a), Parts(enabled, b));
  }

  /** A prefix of a stream parses to a prefix of its frames. */
  lemma ParseMonotone(d: Bytes, all: Bytes)
    requires d <= all
    ensures Parse(d) <= Parse(all)
  {
    assert all == d + all[|d|..];
    ParseAppend(d, all[|d|..]);
  }

  /** No two streams parse alike. */
  lemma ParseInjective(d: Bytes, e: Bytes)
    requires Parse(d) == Parse(e) && Residue(d) == Residue(e)
    ensures d == e
  {
    ParseLossless(d);
    ParseLossless(e);
  }

  lemma WholeParse(enabled: bool, fs: seq<Frame>)
    requires AllWellFormed(fs)
    ensures Parse(SerializeAll(enabled, fs)) == StampAll(enabled, fs) && Residue(SerializeAll(enabled, fs)) == []
  {
    ParseSerialized(enabled, fs, []);
    assert SerializeAll(enabled, fs) + [] == SerializeAll(enabled, fs);
  }

  lemma ParseFirst(f: Frame, tail: Bytes)
    requires WellFormed(f) && f.clientId == -1
    ensures Parse(Encode(f) + tail) == [f] + Parse(tail) && Residue(Encode(f) + tail) == Residue(tail)
  {
    DecodeEncode(f, tail);
    assert (Encode(f) + tail)[|Encode(f)|..] == tail;
  }

  lemma OneSerialized(enabled: bool, f: Frame)
    ensures SerializeAll(enabled, [f]) == Serialize(enabled, f) && StampAll(enabled, [f]) == [Stamp(enabled, f)]
  {
    assert Parts(enabled, [f]) == [Serialize(enabled, f)];
    assert Concat([Serialize(enabled, f)]) == Serialize(enabled, f) + Concat([]);
  }

  // ---------- the two parsers ----------

  /** The cursor parser. The source's catch branch, which would skip a byte, is never entered. */
  method ProcessData(data: Bytes) returns (frames: seq<Frame>, consumed: nat)
    ensures frames == Parse(data)
    ensures consumed <= |data| && data[consumed..] == Residue(data)
  {
    frames, consumed := [], 0;
    while consumed < |data|
      invariant consumed <= |data|
      invariant Parse(data) == frames + Parse(data[consumed..])
      invariant Residue(data) == Residue(data[consumed..])
    {
      var rest := data[consumed..];
      if |rest| < HEADER_SIZE {
        break;
      }
      var end := consumed + HEADER_SIZE + WordAt(rest, 0);
      if |data| < end {
        break;
      }
      var parsed := Deserialize(data[consumed..end]);
      DeserializeAt(data, consumed, end);
      frames, consumed := frames + [parsed.value], end;
    }
  }

  lemma DeserializeFront(d: Bytes)
    requires Complete(d)
    ensures Deserialize(d[..FrameSize(d)]) == Success(Decode(d))
  {
    var size := FrameSize(d);
    CompleteFront(d, size);
    assert d[..size][HEADER_SIZE..size] == d[HEADER_SIZE..size];
  }

  lemma CompleteFront(d: Bytes, size: nat)
    requires Complete(d) && size == FrameSize(d)
    ensures Complete(d[..size]) && FrameSize(d[..size]) == size
    ensures WordAt(d[..size], 4) == WordAt(d, 4) && WordAt(d[..size], 8) == WordAt(d, 8) && WordAt(d[..size], 12) == WordAt(d, 12)
  {}

  lemma DeserializeFirst(d: Bytes, end: nat)
    requires Complete(d) && end == FrameSize(d)
    ensures Deserialize(d[..end]).Success?
    ensures Parse(d) == [Deserialize(d[..end]).value] + Parse(d[end..])
    ensures Residue(d) == Residue(d[end..])
  {
    DeserializeFront(d);
  }

  lemma DeserializeAt(d: Bytes, at: nat, end: nat)
    requires at <= |d| && Complete(d[at..]) && end == at + FrameSize(d[at..])
    ensures Deserialize(d[at..end]).Success?
    ensures Parse(d[at..]) == [Deserialize(d[at..end]).value] + Parse(d[end..])
    ensures Residue(d[at..]) == Residue(d[end..])
  {
    var rest := d[at..];
    DeserializeFirst(rest, end - at);
    assert d[at..end] == rest[..end - at];
    assert d[end..] == rest[end - at..];
  }

  /** The server's own parser, which erases each frame from the front of its buffer. */
  method EraseParse(buffer: Bytes) returns (frames: seq<Frame>, rest: Bytes)
    ensures frames == Parse(buffer)
    ensures rest == Residue(buffer)
  {
    frames, rest := [], buffer;
    while |rest| >= HEADER_SIZE
      invariant Parse(buffer) == frames + Parse(rest)
      invariant Residue(buffer) == Residue(rest)
      decreases |rest|
    {
      var length := WordAt(rest, 0);
      if |rest| >= HEADER_SIZE + length {
        var parsed := Deserialize(rest[..HEADER_SIZE + length]);
        DeserializeFront(rest);
        frames := frames + [parsed.value];
        rest := rest[HEADER_SIZE + length..];
      } else {
        break;
      }
    }
  }

  /** Both parsers give the same frames and keep the same bytes, on every buffer. */
  method ParsersAgree(buffer: Bytes) returns (byCursor: seq<Frame>, kept: Bytes, byErasing: seq<Frame>, rest: Bytes)
    ensures byCursor == Parse(buffer) == byErasing
    ensures kept == Residue(buffer) == rest
  {
    var consumed;
    byCursor, consumed := ProcessData(buffer);
    kept := buffer[consumed..];
    byErasing, rest := EraseParse(buffer);
  }

  // ---------- read loops ----------

  /** Append a chunk, parse, erase what was consumed, for as long as chunks arrive. */
  method ReadLoop(chunks: seq<Bytes>) returns (frames: seq<Frame>, buffer: Bytes)
    ensures frames == Parse(Concat(chunks))
    ensures buffer == Residue(Concat(chunks))
  {
    frames, buffer := [], [];
    for i := 0 to |chunks|
      invariant frames == Parse(Concat(chunks[..i]))
      invariant buffer == Residue(Concat(chunks[..i]))
    {
      var completed, consumed := ProcessData(buffer + chunks[i]);
      if consumed > 0 {
        buffer := (buffer + chunks[i])[consumed..];
      } else {
        buffer := buffer + chunks[i];
      }
      frames := frames + completed;
      ConcatLast(chunks, i);
      ParseAppend(Concat(chunks[..i]), chunks[i]);
    }
    assert chunks[..|chunks|] == chunks;
  }

  lemma ConcatLast(chunks: seq<Bytes>, i: nat)
    requires i < |chunks|
    ensures Concat(chunks[..i + 1]) == Concat(chunks[..i]) + chunks[i]
  {
    assert chunks[..i + 1] == chunks[..i] + [chunks[i]];
    ConcatAppend(chunks[..i], [chunks[i]]);
    assert Concat([chunks[i]]) == chunks[i] + Concat([]);
  }

  // ---------- several clients, one parser ----------

  datatype Arrival = Arrival(client: nat, chunk: Bytes)

  /** The per-client buffers the server keeps beside its one shared parser. */
  class SharedParser {
    var buffers: map<nat, Bytes>

    constructor ()
      ensures buffers == map[]
    {
      buffers := map[];
    }

    method ProcessIncoming(client: nat, data: Bytes) returns (frames: seq<Frame>)
      modifies this
      ensures (buffers, frames) == Feed(old(buffers), Arrival(client, data))
    {
      var buffer := (if client in buffers then buffers[client] else []) + data;
      var parsed, consumed := ProcessData(buffer);
      buffers := buffers[client := buffer[consumed..]];
      frames := Tag(client, parsed);
    }
  }

  function Tag(client: nat, fs: seq<Frame>): (r: seq<Frame>)
    ensures |r| == |fs|
    ensures forall i | 0 <= i < |fs| :: r[i] == fs[i].(clientId := client)
  {
    seq(|fs|, i requires 0 <= i < |fs| => fs[i].(clientId := client))
  }

  function Held(buffers: map<nat, Bytes>, client: nat): Bytes {
    if client in buffers then buffers[client] else []
  }

  function Feed(buffers: map<nat, Bytes>, a: Arrival): (map<nat, Bytes>, seq<Frame>) {
    var d := Held(buffers, a.client) + a.chunk;
    (buffers[a.client := Residue(d)], Tag(a.client, Parse(d)))
  }

  /** Buffers and emitted frames after a series of arrivals. */
  function FeedAll(arrivals: seq<Arrival>): (map<nat, Bytes>, seq<Frame>) {
    if arrivals == [] then (map[], [])
    else
      var (buffers, frames) := FeedAll(arrivals[..|arrivals| - 1]);
      var (buffers', more) := Feed(buffers, arrivals[|arrivals| - 1]);
      (buffers', frames + more)
  }

  function BytesOf(arrivals: seq<Arrival>, client: nat): Bytes {
    if arrivals == [] then []
    else
      var last := arrivals[|arrivals| - 1];
      BytesOf(arrivals[..|arrivals| - 1], client) + if last.client == client then last.chunk else []
  }

  lemma PickTag(owner: nat, fs: seq<Frame>, client: nat)
    ensures Pick(OfClient(client), Tag(owner, fs)) == if owner == client then Tag(owner, fs) else []
  {
    if owner == client {
      PickAll(OfClient(client), Tag(owner, fs));
    } else {
      PickNone(OfClient(client), Tag(owner, fs));
    }
  }

  lemma TagAppend(client: nat, a: seq<Frame>, b: seq<Frame>)
    ensures Tag(client, a) + Tag(client, b) == Tag(client, a + b)
  {}

  lemma FeedOwn(buffers: map<nat, Bytes>, frames: seq<Frame>, client: nat, chunk: Bytes, d: Bytes)
    requires Pick(OfClient(client), frames) == Tag(client, Parse(d)) && Held(buffers, client) == Residue(d)
    ensures var (buffers', more) := Feed(buffers, Arrival(client, chunk));
      Pick(OfClient(client), frames + more) == Tag(client, Parse(d + chunk)) && Held(buffers', client) == Residue(d + chunk)
  {
    var parsed := Parse(Residue(d) + chunk);
    PickAppend(OfClient(client), frames, Tag(client, parsed));
    PickTag(client, parsed, client);
    TagAppend(client, Parse(d), parsed);
    ParseAppend(d, chunk);
  }

  lemma FeedOther(buffers: map<nat, Bytes>, frames: seq<Frame>, last: Arrival, client: nat)
    requires last.client != client
    ensures var (buffers', more) := Feed(buffers, last);
      Pick(OfClient(client), frames + more) == Pick(OfClient(client), frames) && Held(buffers', client) == Held(buffers, client)
  {
    var parsed := Parse(Held(buffers, last.client) + last.chunk);
    PickAppend(OfClient(client), frames, Tag(last.client, parsed));
    PickTag(last.client, parsed, client);
  }

  /** However the clients' chunks interleave, each gets the frames of its own bytes and nothing else. */
  lemma {:induction false} ClientsIndependent(arrivals: seq<Arrival>, client: nat)
    ensures var (buffers, frames) := FeedAll(arrivals);
      && Pick(OfClient(client), frames) == Tag(client, Parse(BytesOf(arrivals, client)))
      && Held(buffers, client) == Residue(BytesOf(arrivals, client))
  {
    if arrivals != [] {
      var init, last := arrivals[..|arrivals| - 1], arrivals[|arrivals| - 1];
      var (buffers, frames) := FeedAll(init);
      ClientsIndependent(init, client);
      if last.client == client {
        FeedOwn(buffers, frames, client, last.chunk, BytesOf(init, client));
      } else {
        FeedOther(buffers, frames, last, client);
        assert BytesOf(arrivals, client) == BytesOf(init, client);
      }
    }
  }
}
