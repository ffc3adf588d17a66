/**
 Reordering of sequence-numbered frames: per stream, a sorted map of early frames and the next
 expected number. The functions follow the code; `Expected` says what a stream must have delivered.
 */
module Reorder {
  import opened Words
  import opened Frames
  import opened Picking

  // ---------- one stream ----------

  /** Buffered frames by number, the next expected number, and the frames delivered so far. */
  datatype Lane = Lane(queue: map<Word, Frame>, next: Word, out: seq<Frame>)

  const EMPTY_LANE := Lane(map[], 0, [])

  /** Delivers from the front of the sorted map while its smallest number is the expected one. */
  function Drain(l: Lane): Lane
    decreases l.queue.Keys
  {
    if l.next in l.queue && forall k | k in l.queue :: l.next <= k then
      Drain(Lane(l.queue - {l.next}, Plus(l.next, 1), l.out + [l.queue[l.next]]))
    else l
  }

  /** Inserting a number that is already buffered keeps the older frame. */
  function Insert(queue: map<Word, Frame>, f: Frame): map<Word, Frame> {
    if f.sequence in queue then queue else queue[f.sequence := f]
  }

  function Push(l: Lane, f: Frame): Lane {
    Drain(l.(queue := Insert(l.queue, f)))
  }

  function PushAll(l: Lane, fs: seq<Frame>): Lane {
    if fs == [] then l else Push(PushAll(l, fs[..|fs| - 1]), fs[|fs| - 1])
  }

  // ---------- what a stream must deliver ----------

  /** The earliest frame that arrived with each number. */
  function Arrived(fs: seq<Frame>): map<Word, Frame> {
    if fs == [] then map[] else Insert(Arrived(fs[..|fs| - 1]), fs[|fs| - 1])
  }

  /** The smallest number from `n` on that is not in `a`; 2^32 if there is none. */
  function MexFrom(a: set<Word>, n: nat): (m: nat)
    requires n <= WORD
    ensures n <= m <= WORD
    ensures forall k: Word | n <= k < m :: k in a
    ensures m < WORD ==> m !in a
    decreases WORD - n
  {
    if n < WORD && n in a then MexFrom(a, n + 1) else n
  }

  /** The smallest number that has not arrived. */
  function Missing(fs: seq<Frame>): nat {
    MexFrom(Arrived(fs).Keys, 0)
  }

  /** No arrival carries a number below the smallest one then missing. */
  predicate NoStale(fs: seq<Frame>) {
    fs == [] || (NoStale(fs[..|fs| - 1]) && fs[|fs| - 1].sequence >= Missing(fs[..|fs| - 1]))
  }

  /** The entries numbered `n` to `m - 1`, in order. */
  function Run(queue: map<Word, Frame>, n: nat, m: nat): (r: seq<Frame>)
    requires n <= m <= WORD && forall k: Word | n <= k < m :: k in queue
    ensures |r| == m - n && forall i | 0 <= i < m - n :: r[i] == queue[n + i]
  {
    seq(m - n, i requires 0 <= i < m - n => queue[n + i])
  }

  /** The entries numbered `m` or more. */
  function AtLeast(queue: map<Word, Frame>, m: nat): (r: map<Word, Frame>)
    ensures forall k :: k in r <==> k in queue && m <= k
    ensures forall k | k in r :: r[k] == queue[k]
  {
    map k | k in queue && m <= k :: queue[k]
  }

  /** Frames 0..m-1 in order. */
  function Delivered(fs: seq<Frame>): seq<Frame> {
    Run(Arrived(fs), 0, Missing(fs))
  }

  /** Frames 0..m-1 delivered in order, all others buffered, where m is the smallest number missing. */
  function Expected(fs: seq<Frame>): Lane {
    Lane(AtLeast(Arrived(fs), Missing(fs)), Wrap(Missing(fs)), Delivered(fs))
  }

  /** What is filed under a number carries that number and did arrive. */
  lemma {:induction false} ArrivedFrames(fs: seq<Frame>)
    ensures forall k | k in Arrived(fs) :: Arrived(fs)[k] in fs && Arrived(fs)[k].sequence == k
    ensures forall f | f in fs :: f.sequence in Arrived(fs)
  {
    if fs != [] {
      ArrivedFrames(fs[..|fs| - 1]);
    }
  }

  /** What a stream delivers is numbered 0, 1, 2, ... without a gap. */
  lemma DeliveredNumbers(fs: seq<Frame>)
    ensures forall i | 0 <= i < |Delivered(fs)| :: Delivered(fs)[i].sequence == i && Delivered(fs)[i] in fs
  {
    ArrivedFrames(fs);
  }

  lemma WrapNext(n: nat)
    requires n < WORD
    ensures Wrap(n) == n && Plus(n, 1) == Wrap(n + 1)
  {}

  /** What draining from `n` to the smallest missing number `m` must produce. */
  function Drained(queue: map<Word, Frame>, n: nat, m: nat, out: seq<Frame>): Lane
    requires n <= m <= WORD && forall k: Word | n <= k < m :: k in queue
  {
    Lane(AtLeast(queue, m), Wrap(m), out + Run(queue, n, m))
  }

  /** The drain loop stops exactly at the smallest missing number `m`. */
  lemma {:induction false} DrainStops(queue: map<Word, Frame>, n: nat, m: nat, out: seq<Frame>)
    requires n <= m <= WORD && (forall k: Word | n <= k < m :: k in queue) && (m < WORD ==> m !in queue)
    requires forall k | k in queue :: n <= k
    ensures Drain(Lane(queue, Wrap(n), out)) == Drained(queue, n, m, out)
    decreases m - n
  {
    if n == m {
      DrainHalts(queue, n, out);
    } else {
      DrainStops(queue - {n}, n + 1, m, out + [queue[n]]);
      DrainTakes(queue, n, out);
      DrainedTakes(queue, n, m, out);
    }
  }

  lemma DrainTakes(queue: map<Word, Frame>, n: nat, out: seq<Frame>)
    requires n < WORD && n in queue && forall k | k in queue :: n <= k
    ensures Drain(Lane(queue, Wrap(n), out)) == Drain(Lane(queue - {n}, Wrap(n + 1), out + [queue[n]]))
  {
    WrapNext(n);
  }

  lemma DrainedTakes(queue: map<Word, Frame>, n: nat, m: nat, out: seq<Frame>)
    requires n < m <= WORD && forall k: Word | n <= k < m :: k in queue
    ensures Drained(queue - {n}, n + 1, m, out + [queue[n]]) == Drained(queue, n, m, out)
  {
    assert AtLeast(queue - {n}, m) == AtLeast(queue, m);
    assert out + [queue[n]] + Run(queue - {n}, n + 1, m) == out + Run(queue, n, m);
  }

  lemma DrainHalts(queue: map<Word, Frame>, n: nat, out: seq<Frame>)
    requires n <= WORD && (forall k | k in queue :: n <= k) && (n < WORD ==> n !in queue)
    ensures Drain(Lane(queue, Wrap(n), out)) == Drained(queue, n, n, out)
  {
    assert AtLeast(queue, n) == queue;
    assert out + Run(queue, n, n) == out;
    if n < WORD {
      WrapNext(n);
    } else {
      assert queue.Keys == {};
    }
  }

  lemma DrainReaches(all: map<Word, Frame>, n: nat)
    requires n <= WORD && forall k: Word | k < n :: k in all
    ensures var m := MexFrom(all.Keys, 0);
      && n <= m
      && Drain(Lane(AtLeast(all, n), Wrap(n), Run(all, 0, n))) == Lane(AtLeast(all, m), Wrap(m), Run(all, 0, m))
  {
    var queue, m := AtLeast(all, n), MexFrom(all.Keys, 0);
    DrainStops(queue, n, m, Run(all, 0, n));
    assert AtLeast(queue, m) == AtLeast(all, m);
    assert Run(all, 0, n) + Run(queue, n, m) == Run(all, 0, m);
  }

  lemma InsertSplits(all: map<Word, Frame>, n: nat, f: Frame)
    requires n <= f.sequence && forall k: Word | k < n :: k in all
    ensures Insert(AtLeast(all, n), f) == AtLeast(Insert(all, f), n)
    ensures Run(all, 0, n) == Run(Insert(all, f), 0, n)
  {}

  /** The code delivers what is expected, for every arrival order without stale numbers. */
  lemma {:induction false} LaneMeetsSpec(fs: seq<Frame>)
    requires NoStale(fs)
    ensures PushAll(EMPTY_LANE, fs) == Expected(fs)
  {
    if fs == [] {
      assert AtLeast(map[], 0) == map[];
    } else {
      var init, f := fs[..|fs| - 1], fs[|fs| - 1];
      LaneMeetsSpec(init);
      var n := Missing(init);
      InsertSplits(Arrived(init), n, f);
      DrainReaches(Arrived(fs), n);
    }
  }

  // ---------- repeats and stale numbers ----------

  lemma {:induction false} DrainTwice(l: Lane)
    ensures Drain(Drain(l)) == Drain(l)
    decreases l.queue.Keys
  {
    if l.next in l.queue && forall k | k in l.queue :: l.next <= k {
      DrainTwice(Lane(l.queue - {l.next}, Plus(l.next, 1), l.out + [l.queue[l.next]]));
    }
  }

  lemma PushedStill(fs: seq<Frame>)
    ensures Drain(PushAll(EMPTY_LANE, fs)) == PushAll(EMPTY_LANE, fs)
  {
    if fs != [] {
      var l := PushAll(EMPTY_LANE, fs[..|fs| - 1]);
      DrainTwice(l.(queue := Insert(l.queue, fs[|fs| - 1])));
    }
  }

  /** Whatever has arrived, a repeat of a number that is still buffered changes nothing. */
  lemma RepeatIgnored(fs: seq<Frame>, f: Frame)
    requires f.sequence in PushAll(EMPTY_LANE, fs).queue
    ensures PushAll(EMPTY_LANE, fs + [f]) == PushAll(EMPTY_LANE, fs)
  {
    PushedStill(fs);
    assert (fs + [f])[..|fs|] == fs;
  }

  /** A buffered number below the expected one blocks the front of the sorted map. */
  predicate Blocked(l: Lane) {
    exists k :: k in l.queue && k < l.next
  }

  /** Once blocked, a stream delivers nothing more, whatever arrives. */
  lemma {:induction false} BlockedForever(l: Lane, fs: seq<Frame>)
    requires Blocked(l)
    ensures var r := PushAll(l, fs); Blocked(r) && r.out == l.out && r.next == l.next
  {
    if fs != [] {
      BlockedForever(l, fs[..|fs| - 1]);
      var r := PushAll(l, fs[..|fs| - 1]);
      var k :| k in r.queue && k < r.next;
      assert k in Insert(r.queue, fs[|fs| - 1]);
    }
  }

  lemma {:induction false} PushAllAppend(l: Lane, a: seq<Frame>, b: seq<Frame>)
    ensures PushAll(l, a + b) == PushAll(PushAll(l, a), b)
  {
    if b == [] {
      assert a + b == a;
    } else {
      PushAllAppend(l, a, b[..|b| - 1]);
      assert (a + b)[..|a + b| - 1] == a + b[..|b| - 1];
    }
  }

  /** The first stale arrival ends delivery for good: later arrivals add nothing to what came before it. */
  lemma StaleStops(fs: seq<Frame>, stale: Frame, more: seq<Frame>)
    requires NoStale(fs) && stale.sequence < Missing(fs) < WORD
    ensures PushAll(EMPTY_LANE, fs + [stale] + more).out == Delivered(fs)
  {
    LaneMeetsSpec(fs);
    assert (fs + [stale])[..|fs|] == fs;
    var l := PushAll(EMPTY_LANE, fs);
    assert stale.sequence in Insert(l.queue, stale);
    WrapWord(Missing(fs));
    BlockedForever(PushAll(EMPTY_LANE, fs + [stale]), more);
    PushAllAppend(EMPTY_LANE, fs + [stale], more);
  }

  /** An arrival leaves the front of the map blocked exactly when it is the first stale one. */
  lemma BlockedExactlyWhenStale(fs: seq<Frame>, f: Frame)
    requires NoStale(fs) && Missing(fs) < WORD
    ensures Blocked(PushAll(EMPTY_LANE, fs + [f])) <==> !NoStale(fs + [f])
  {
    assert (fs + [f])[..|fs|] == fs;
    LaneMeetsSpec(fs);
    WrapWord(Missing(fs));
    if NoStale(fs + [f]) {
      LaneMeetsSpec(fs + [f]);
      var m := Missing(fs + [f]);
      if m < WORD {
        WrapWord(m);
      }
    } else {
      assert f.sequence in Insert(AtLeast(Arrived(fs), Missing(fs)), f);
    }
  }

  lemma {:induction false} ArrivedFirst(fs: seq<Frame>, more: seq<Frame>)
    ensures forall k | k in Arrived(fs) :: k in Arrived(fs + more) && Arrived(fs + more)[k] == Arrived(fs)[k]
  {
    if more == [] {
      assert fs + more == fs;
    } else {
      var n := |more| - 1;
      assert (fs + more)[..|fs| + n] == fs + more[..n];
      ArrivedFirst(fs, more[..n]);
    }
  }

  /** The first stale arrival makes the output wrong as soon as the number then missing arrives, and only then. */
  lemma StaleLoses(fs: seq<Frame>, stale: Frame, more: seq<Frame>)
    requires NoStale(fs) && stale.sequence < Missing(fs) < WORD
    ensures var all := fs + [stale] + more;
      PushAll(EMPTY_LANE, all).out == Delivered(all) <==> Missing(all) == Missing(fs)
  {
    StaleStops(fs, stale, more);
    ArrivedFirst(fs, [stale] + more);
    assert fs + ([stale] + more) == fs + [stale] + more;
  }

  /** A stale arrival leaves a lane that is not the expected one. */
  lemma StaleShows(fs: seq<Frame>, stale: Frame)
    requires NoStale(fs) && stale.sequence < Missing(fs)
    ensures PushAll(EMPTY_LANE, fs + [stale]) != Expected(fs + [stale])
  {
    LaneMeetsSpec(fs);
    assert (fs + [stale])[..|fs|] == fs;
    ArrivedFirst(fs, [stale]);
    if Missing(fs) < WORD {
      WrapWord(Missing(fs));
      assert stale.sequence in PushAll(EMPTY_LANE, fs + [stale]).queue;
    } else {
      FullCycle(fs);
      NewCycle(Delivered(fs), stale);
    }
  }

  /** The first arrival of a new cycle is delivered or buffered. */
  lemma NewCycle(out: seq<Frame>, f: Frame)
    ensures var l := Push(EMPTY_LANE.(out := out), f); |l.out| > |out| || f.sequence in l.queue
  {
    DrainAppends(Insert(map[], f), 0, out);
  }

  predicate AsExpected(fs: seq<Frame>) {
    PushAll(EMPTY_LANE, fs) == Expected(fs)
  }

  ghost predicate ExpectedThroughout(fs: seq<Frame>) {
    forall n | 0 <= n <= |fs| :: AsExpected(fs[..n])
  }

  /** A stream is as expected after every arrival if and only if no arrival is stale. */
  lemma {:induction false} ExpectedExactlyWhenFresh(fs: seq<Frame>)
    ensures ExpectedThroughout(fs) <==> NoStale(fs)
  {
    assert fs[..|fs|] == fs;
    if fs == [] {
      LaneMeetsSpec(fs);
    } else {
      var init, f := fs[..|fs| - 1], fs[|fs| - 1];
      assert fs == init + [f];
      ExpectedExactlyWhenFresh(init);
      if ExpectedThroughout(fs) {
        ThroughoutInit(init, f);
        if !NoStale(fs) {
          StaleShows(init, f);
        }
      } else if NoStale(fs) {
        LaneMeetsSpec(fs);
        ThroughoutNext(init, f);
      }
    }
  }

  lemma SliceInit(fs: seq<Frame>, f: Frame)
    ensures forall n | 0 <= n <= |fs| :: (fs + [f])[..n] == fs[..n]
    ensures (fs + [f])[..|fs| + 1] == fs + [f]
  {}

  lemma ThroughoutInit(fs: seq<Frame>, f: Frame)
    requires ExpectedThroughout(fs + [f])
    ensures ExpectedThroughout(fs) && AsExpected(fs + [f])
  {
    SliceInit(fs, f);
    assert AsExpected((fs + [f])[..|fs| + 1]);
    forall n | 0 <= n <= |fs|
      ensures AsExpected(fs[..n])
    {
      assert AsExpected((fs + [f])[..n]);
    }
  }

  lemma ThroughoutNext(fs: seq<Frame>, f: Frame)
    requires ExpectedThroughout(fs) && AsExpected(fs + [f])
    ensures ExpectedThroughout(fs + [f])
  {
    SliceInit(fs, f);
    forall n | 0 <= n <= |fs| + 1
      ensures AsExpected((fs + [f])[..n])
    {
      assert n <= |fs| ==> AsExpected(fs[..n]);
    }
  }

  /** After all 2^32 numbers the stream is back in its first state, so numbering starts over. */
  lemma FullCycle(fs: seq<Frame>)
    requires NoStale(fs) && Missing(fs) == WORD
    ensures PushAll(EMPTY_LANE, fs) == EMPTY_LANE.(out := Delivered(fs))
  {
    LaneMeetsSpec(fs);
    assert AtLeast(Arrived(fs), WORD) == map[];
  }

  // ---------- the drain loop ----------

  lemma Smallest(a: set<Word>) returns (k: Word)
    requires a != {}
    ensures k in a && forall j | j in a :: k <= j
  {
    var x :| x in a;
    if a == {x} {
      k := x;
    } else {
      var m := Smallest(a - {x});
      k := if x < m then x else m;
      assert forall j | j in a :: j == x || j in a - {x};
    }
  }

  /** Takes frames off the sorted map while its smallest number is the expected one. */
  method DrainLoop(queue0: map<Word, Frame>, next0: Word)
    returns (queue: map<Word, Frame>, next: Word, out: seq<Frame>)
    ensures Lane(queue, next, out) == Drain(Lane(queue0, next0, []))
  {
    queue, next, out := queue0, next0, [];
    while queue != map[]
      invariant Drain(Lane(queue0, next0, [])) == Drain(Lane(queue, next, out))
      decreases queue.Keys
    {
      ghost var k := Smallest(queue.Keys);
      var first :| first in queue && forall j | j in queue :: first <= j;
      if first != next {
        break;
      }
      queue, next, out := queue - {first}, Plus(next, 1), out + [queue[first]];
    }
  }

  // ---------- all streams ----------

  /** The state of the reordering code: a map of maps, a map of counters, and the delivered frames. */
  datatype Buffers = Buffers(frames: map<Word, map<Word, Frame>>, next: map<Word, Word>, out: seq<Frame>)

  const NO_BUFFERS := Buffers(map[], map[], [])

  function QueueOf(b: Buffers, s: Word): map<Word, Frame> {
    if s in b.frames then b.frames[s] else map[]
  }

  function NextOf(b: Buffers, s: Word): Word {
    if s in b.next then b.next[s] else 0
  }

  /** One arrival, as the receive loop handles it. */
  function Arrive(b: Buffers, f: Frame): Buffers {
    var s := f.streamId;
    var l := Push(Lane(QueueOf(b, s), NextOf(b, s), b.out), f);
    Buffers(b.frames[s := l.queue], b.next[s := l.next], l.out)
  }

  function ArriveAll(fs: seq<Frame>): Buffers {
    if fs == [] then NO_BUFFERS else Arrive(ArriveAll(fs[..|fs| - 1]), fs[|fs| - 1])
  }

  lemma ArriveNext(fs: seq<Frame>, f: Frame)
    ensures ArriveAll(fs + [f]) == Arrive(ArriveAll(fs), f)
  {
    assert (fs + [f])[..|fs|] == fs;
  }

  /** The frames of one stream, in order. */
  function OnStream(fs: seq<Frame>, s: Word): seq<Frame> {
    Pick(OfStream(s), fs)
  }

  lemma OnStreamSame(fs: seq<Frame>, s: Word, t: Word)
    requires forall f | f in fs :: f.streamId == t
    ensures OnStream(fs, s) == if s == t then fs else []
  {
    if s == t {
      PickAll(OfStream(s), fs);
    } else {
      PickNone(OfStream(s), fs);
    }
  }

  /** Draining only appends to what was delivered, and only frames that were buffered. */
  lemma {:induction false} DrainAppends(queue: map<Word, Frame>, next: Word, out: seq<Frame>)
    ensures var l, l' := Drain(Lane(queue, next, [])), Drain(Lane(queue, next, out));
      && l' == Lane(l.queue, l.next, out + l.out)
      && (forall k | k in l.queue :: k in queue && l.queue[k] == queue[k])
      && (forall f | f in l.out :: f in queue.Values)
    decreases queue.Keys
  {
    if next in queue && forall k | k in queue :: next <= k {
      var rest := queue - {next};
      DrainAppends(rest, Plus(next, 1), out + [queue[next]]);
      DrainAppends(rest, Plus(next, 1), [queue[next]]);
      assert [] + [queue[next]] == [queue[next]];
    }
  }

  function LaneOf(b: Buffers, s: Word): Lane {
    Lane(QueueOf(b, s), NextOf(b, s), OnStream(b.out, s))
  }

  predicate Filed(b: Buffers) {
    forall s | s in b.frames :: forall k | k in b.frames[s] :: b.frames[s][k].streamId == s
  }

  lemma PushAppends(queue: map<Word, Frame>, next: Word, out: seq<Frame>, f: Frame)
    ensures var l := Push(Lane(queue, next, []), f);
      && Push(Lane(queue, next, out), f) == Lane(l.queue, l.next, out + l.out)
      && (forall k | k in l.queue :: l.queue[k] == f || (k in queue && l.queue[k] == queue[k]))
      && (forall g | g in l.out :: g == f || g in queue.Values)
  {
    DrainAppends(Insert(queue, f), next, out);
  }

  lemma ArriveFiled(b: Buffers, f: Frame)
    requires Filed(b)
    ensures Filed(Arrive(b, f))
  {
    PushAppends(QueueOf(b, f.streamId), NextOf(b, f.streamId), b.out, f);
  }

  lemma ArriveProjects(b: Buffers, f: Frame, s: Word)
    requires Filed(b)
    ensures LaneOf(Arrive(b, f), s) == if f.streamId == s then Push(LaneOf(b, s), f) else LaneOf(b, s)
  {
    var t := f.streamId;
    var l := Push(Lane(QueueOf(b, t), NextOf(b, t), []), f);
    PushAppends(QueueOf(b, t), NextOf(b, t), b.out, f);
    PushAppends(QueueOf(b, t), NextOf(b, t), OnStream(b.out, s), f);
    OnStreamSame(l.out, s, t);
    PickAppend(OfStream(s), b.out, l.out);
  }

  /** Streams do not interfere: each sees only its own arrivals. */
  lemma {:induction false} StreamsIndependent(fs: seq<Frame>, s: Word)
    ensures Filed(ArriveAll(fs))
    ensures LaneOf(ArriveAll(fs), s) == PushAll(EMPTY_LANE, OnStream(fs, s))
  {
    if fs != [] {
      var init, f := fs[..|fs| - 1], fs[|fs| - 1];
      StreamsIndependent(init, s);
      ArriveFiled(ArriveAll(init), f);
      ArriveProjects(ArriveAll(init), f, s);
      if f.streamId == s {
        assert OnStream(fs, s)[..|OnStream(fs, s)| - 1] == OnStream(init, s);
      } else {
        assert OnStream(fs, s) == OnStream(init, s);
      }
    }
  }

  /** For any interleaving over streams, a stream without stale numbers is exactly as expected. */
  lemma ReorderMeetsSpec(fs: seq<Frame>, s: Word)
    requires NoStale(OnStream(fs, s))
    ensures LaneOf(ArriveAll(fs), s) == Expected(OnStream(fs, s))
  {
    StreamsIndependent(fs, s);
    LaneMeetsSpec(OnStream(fs, s));
  }

  // ---------- distinct numbers and confluence ----------

  /** No number occurs twice. */
  predicate Distinct(fs: seq<Frame>) {
    forall i, j | 0 <= i < j < |fs| :: fs[i].sequence != fs[j].sequence
  }

  lemma {:induction false} DistinctIsFresh(fs: seq<Frame>)
    requires Distinct(fs)
    ensures NoStale(fs)
    ensures forall f | f in fs :: f.sequence in Arrived(fs) && Arrived(fs)[f.sequence] == f
  {
    if fs != [] {
      var init, f := fs[..|fs| - 1], fs[|fs| - 1];
      DistinctIsFresh(init);
      ArrivedFrames(init);
      assert f.sequence !in Arrived(init);
    }
  }

  /** With distinct numbers, what is filed depends only on which frames arrived. */
  lemma ArrivedUnordered(fs: seq<Frame>, gs: seq<Frame>)
    requires Distinct(fs) && Distinct(gs) && forall f :: f in fs <==> f in gs
    ensures Arrived(fs) == Arrived(gs)
  {
    DistinctIsFresh(fs);
    DistinctIsFresh(gs);
    ArrivedFrames(fs);
    ArrivedFrames(gs);
  }

  lemma {:induction false} SameKeys(fs: seq<Frame>)
    ensures ArriveAll(fs).frames.Keys == ArriveAll(fs).next.Keys
    ensures forall s :: s in ArriveAll(fs).frames <==> exists f :: f in fs && f.streamId == s
  {
    if fs != [] {
      var init, f := fs[..|fs| - 1], fs[|fs| - 1];
      SameKeys(init);
      assert fs == init + [f];
    }
  }

  lemma SameLane(fs: seq<Frame>, gs: seq<Frame>, s: Word)
    requires Distinct(OnStream(fs, s)) && Distinct(OnStream(gs, s)) && forall f :: f in fs <==> f in gs
    ensures LaneOf(ArriveAll(fs), s) == LaneOf(ArriveAll(gs), s)
  {
    PickedMatch(OfStream(s), fs);
    PickedMatch(OfStream(s), gs);
    DistinctIsFresh(OnStream(fs, s));
    DistinctIsFresh(OnStream(gs, s));
    ReorderMeetsSpec(fs, s);
    ReorderMeetsSpec(gs, s);
    ArrivedUnordered(OnStream(fs, s), OnStream(gs, s));
  }

  lemma SameMembers(fs: seq<Frame>, gs: seq<Frame>)
    requires multiset(fs) == multiset(gs)
    ensures forall f :: f in fs <==> f in gs
  {
    forall f
      ensures f in fs <==> f in gs
    {
      assert f in fs <==> f in multiset(fs);
      assert f in gs <==> f in multiset(gs);
    }
  }

  lemma SameStreams(fs: seq<Frame>, gs: seq<Frame>)
    requires forall f :: f in fs <==> f in gs
    ensures ArriveAll(fs).frames.Keys == ArriveAll(gs).frames.Keys
  {
    SameKeys(fs);
    SameKeys(gs);
  }

  lemma {:induction false} DistinctOnce(fs: seq<Frame>, f: Frame)
    requires Distinct(fs)
    ensures multiset(fs)[f] <= 1
  {
    if fs != [] {
      var init, last := fs[..|fs| - 1], fs[|fs| - 1];
      assert fs == init + [last];
      DistinctOnce(init, f);
      forall i | 0 <= i < |init|
        ensures init[i] != last
      {
        assert fs[i].sequence != fs[|init|].sequence;
      }
    }
  }

  lemma TwiceCounts(fs: seq<Frame>, i: nat, j: nat)
    requires i < j < |fs| && fs[i] == fs[j]
    ensures multiset(fs)[fs[i]] >= 2
  {
    assert fs == fs[..j] + fs[j..];
    assert fs[..j][i] in fs[..j] && fs[j..][0] in fs[j..];
  }

  lemma DistinctPermutation(fs: seq<Frame>, gs: seq<Frame>)
    requires multiset(fs) == multiset(gs) && Distinct(fs)
    ensures Distinct(gs)
  {
    SameMembers(fs, gs);
    forall i, j | 0 <= i < j < |gs|
      ensures gs[i].sequence != gs[j].sequence
    {
      if gs[i] == gs[j] {
        TwiceCounts(gs, i, j);
        DistinctOnce(fs, gs[i]);
        assert false;
      }
      assert gs[i] in fs && gs[j] in fs;
    }
  }

  /** Two arrival orders of the same frames, distinct per stream, end in the same state and deliver the same. */
  lemma Confluence(fs: seq<Frame>, gs: seq<Frame>)
    requires multiset(fs) == multiset(gs) && forall s :: Distinct(OnStream(fs, s))
    ensures ArriveAll(fs).frames == ArriveAll(gs).frames && ArriveAll(fs).next == ArriveAll(gs).next
    ensures forall s :: OnStream(ArriveAll(fs).out, s) == OnStream(ArriveAll(gs).out, s)
  {
    var b, c := ArriveAll(fs), ArriveAll(gs);
    SameMembers(fs, gs);
    SameStreams(fs, gs);
    SameKeys(fs);
    SameKeys(gs);
    forall s
      ensures QueueOf(b, s) == QueueOf(c, s) && NextOf(b, s) == NextOf(c, s) && OnStream(b.out, s) == OnStream(c.out, s)
    {
      PickPermutation(OfStream(s), fs, gs);
      DistinctPermutation(OnStream(fs, s), OnStream(gs, s));
      SameLane(fs, gs, s);
    }
    SameMaps(b, c);
  }

  lemma SameMaps(b: Buffers, c: Buffers)
    requires b.frames.Keys == b.next.Keys == c.frames.Keys == c.next.Keys
    requires forall s :: QueueOf(b, s) == QueueOf(c, s) && NextOf(b, s) == NextOf(c, s)
    ensures b.frames == c.frames && b.next == c.next
  {
    assert forall s | s in b.frames :: b.frames[s] == QueueOf(b, s) == QueueOf(c, s) == c.frames[s];
    assert forall s | s in b.next :: b.next[s] == NextOf(b, s) == NextOf(c, s) == c.next[s];
  }
}
