/** Picking out of a list of frames, in order, those of one stream or client, or those that verify. */
module Picking {
  import opened Words
  import opened Frames

  /** `ForCallback` are the frames the request callback is meant for: they verify and carry a client. */
  datatype Key =
    | OfStream(stream: Word)
    | OfClient(client: nat)
    | OfBoth(client: nat, stream: Word)
    | Verified(checks: bool)
    | ForCallback(checks: bool)
  {
    predicate Matches(f: Frame) {
      match this
      case OfStream(s) => f.streamId == s
      case OfClient(i) => f.clientId == i
      case OfBoth(i, s) => f.clientId == i && f.streamId == s
      case Verified(enabled) => Verify(enabled, f)
      case ForCallback(enabled) => Verify(enabled, f) && f.clientId >= 0
    }
  }

  function Pick(k: Key, fs: seq<Frame>): seq<Frame> {
    if fs == [] then []
    else Pick(k, fs[..|fs| - 1]) + if k.Matches(fs[|fs| - 1]) then [fs[|fs| - 1]] else []
  }

  lemma PickOne(k: Key, fs: seq<Frame>, f: Frame)
    ensures Pick(k, fs + [f]) == if k.Matches(f) then Pick(k, fs) + [f] else Pick(k, fs)
  {
    assert (fs + [f])[..|fs|] == fs;
  }

  lemma {:induction false} PickAppend(k: Key, a: seq<Frame>, b: seq<Frame>)
    ensures Pick(k, a + b) == Pick(k, a) + Pick(k, b)
  {
    if b == [] {
      assert a + b == a;
    } else {
      PickAppend(k, a, b[..|b| - 1]);
      assert (a + b)[..|a + b| - 1] == a + b[..|b| - 1];
    }
  }

  lemma {:induction false} PickAll(k: Key, fs: seq<Frame>)
    requires forall f | f in fs :: k.Matches(f)
    ensures Pick(k, fs) == fs
  {
    if fs != [] {
      assert fs == fs[..|fs| - 1] + [fs[|fs| - 1]] && fs[|fs| - 1] in fs;
      PickAll(k, fs[..|fs| - 1]);
    }
  }

  lemma {:induction false} PickNone(k: Key, fs: seq<Frame>)
    requires forall f | f in fs :: !k.Matches(f)
    ensures Pick(k, fs) == []
  {
    if fs != [] {
      PickNone(k, fs[..|fs| - 1]);
    }
  }

  lemma {:induction false} PickedMatch(k: Key, fs: seq<Frame>)
    ensures forall f :: f in Pick(k, fs) <==> f in fs && k.Matches(f)
  {
    if fs != [] {
      PickedMatch(k, fs[..|fs| - 1]);
    }
  }

  lemma {:induction false} PickCounts(k: Key, fs: seq<Frame>, f: Frame)
    ensures multiset(Pick(k, fs))[f] == if k.Matches(f) then multiset(fs)[f] else 0
  {
    if fs != [] {
      var init, last := fs[..|fs| - 1], fs[|fs| - 1];
      assert fs == init + [last];
      PickCounts(k, init, f);
      PickOne(k, init, last);
    }
  }

  lemma PickPermutation(k: Key, fs: seq<Frame>, gs: seq<Frame>)
    requires multiset(fs) == multiset(gs)
    ensures multiset(Pick(k, fs)) == multiset(Pick(k, gs))
  {
    forall f
      ensures multiset(Pick(k, fs))[f] == multiset(Pick(k, gs))[f]
    {
      PickCounts(k, fs, f);
      PickCounts(k, gs, f);
    }
  }

  /** The order in which two conditions are applied does not matter. */
  lemma {:induction false} PickCommutes(j: Key, k: Key, fs: seq<Frame>)
    ensures Pick(j, Pick(k, fs)) == Pick(k, Pick(j, fs))
  {
    if fs != [] {
      var init, f := fs[..|fs| - 1], fs[|fs| - 1];
      assert fs == init + [f];
      PickCommutes(j, k, init);
      PickOne(j, init, f);
      PickOne(k, init, f);
      PickOne(j, Pick(k, init), f);
      PickOne(k, Pick(j, init), f);
    }
  }

  /** Picking one client's frames of one stream, in either order. */
  lemma {:induction false} PickBoth(client: nat, stream: Word, fs: seq<Frame>)
    ensures Pick(OfClient(client), Pick(OfStream(stream), fs)) == Pick(OfBoth(client, stream), fs)
    ensures Pick(OfStream(stream), Pick(OfClient(client), fs)) == Pick(OfBoth(client, stream), fs)
  {
    if fs != [] {
      var init, f := fs[..|fs| - 1], fs[|fs| - 1];
      assert fs == init + [f];
      PickBoth(client, stream, init);
      PickOne(OfStream(stream), init, f);
      PickOne(OfClient(client), init, f);
      PickOne(OfBoth(client, stream), init, f);
      PickOne(OfClient(client), Pick(OfStream(stream), init), f);
      PickOne(OfStream(stream), Pick(OfClient(client), init), f);
    }
  }
}
