/** 32-bit words, bytes, and the big-endian layout of a word. */
module Words {
  const WORD: int := 0x1_0000_0000

  type Byte = x: int | 0 <= x < 0x100
  type Word = x: int | 0 <= x < 0x1_0000_0000
  type Bytes = seq<Byte>

  datatype Option<+T> = None | Some(value: T)

  /** The word a natural number wraps to. */
  function Wrap(n: nat): Word {
    n % 0x1_0000_0000
  }

  /** Unsigned 32-bit addition. */
  function Plus(a: Word, b: Word): Word {
    if a as int + b as int < WORD then a as int + b as int else a as int + b as int - WORD
  }

  lemma PlusWraps(m: nat, n: nat)
    ensures Plus(Wrap(m), Wrap(n)) == Wrap(m + n)
  {
    var q, r := m / 0x1_0000_0000, n / 0x1_0000_0000;
    assert m + n == (q + r) * 0x1_0000_0000 + Wrap(m) as int + Wrap(n) as int;
  }

  lemma WrapApart(m: nat, n: nat)
    requires m != n && -WORD < m - n < WORD
    ensures Wrap(m) != Wrap(n)
  {}

  lemma WrapWord(w: Word)
    ensures Wrap(w) == w
  {}

  /** Byte `k` of a word, counted from the most significant: `(w >> (24 - 8 * k)) & 0xFF`. */
  function Octet(w: Word, k: nat): Byte
    requires k < 4
  {
    if k == 0 then w / 0x100 / 0x100 / 0x100
    else if k == 1 then w / 0x100 / 0x100 % 0x100
    else if k == 2 then w / 0x100 % 0x100
    else w % 0x100
  }

  /** The four bytes of a word, most significant first. */
  function ToBytes(w: Word): Bytes {
    [Octet(w, 0), Octet(w, 1), Octet(w, 2), Octet(w, 3)]
  }

  /** `(a << 24) | (b << 16) | (c << 8) | d`; the four bytes do not overlap. */
  function Join(a: Byte, b: Byte, c: Byte, d: Byte): Word {
    a as int * 0x100_0000 + b as int * 0x1_0000 + c as int * 0x100 + d as int
  }

  /** The word stored big-endian at position `at`. */
  function WordAt(d: Bytes, at: nat): Word
    requires at + 4 <= |d|
  {
    Join(d[at], d[at + 1], d[at + 2], d[at + 3])
  }

  lemma JoinOctets(w: Word)
    ensures Join(Octet(w, 0), Octet(w, 1), Octet(w, 2), Octet(w, 3)) == w
  {}

  lemma OctetsOfJoin(a: Byte, b: Byte, c: Byte, d: Byte)
    ensures ToBytes(Join(a, b, c, d)) == [a, b, c, d]
  {
    var w := Join(a, b, c, d);
    assert w / 0x100 == a as int * 0x1_0000 + b as int * 0x100 + c as int;
    assert w / 0x100 / 0x100 == a as int * 0x100 + b as int;
  }

  lemma WordOfBytes(w: Word, before: Bytes, after: Bytes)
    ensures WordAt(before + ToBytes(w) + after, |before|) == w
  {
    var d := before + ToBytes(w) + after;
    assert d[|before|..|before| + 4] == ToBytes(w);
    JoinOctets(w);
  }

  lemma BytesOfWord(d: Bytes, at: nat)
    requires at + 4 <= |d|
    ensures ToBytes(WordAt(d, at)) == d[at..at + 4]
  {
    OctetsOfJoin(d[at], d[at + 1], d[at + 2], d[at + 3]);
  }

  /** The order of byte strings of one length: the first byte that differs decides. */
  predicate Precedes(a: Bytes, b: Bytes) {
    |a| == |b| && a != [] && (a[0] < b[0] || (a[0] == b[0] && Precedes(a[1..], b[1..])))
  }

  /** The most significant byte comes first: words and their bytes are ordered alike. */
  lemma BytesKeepOrder(v: Word, w: Word)
    ensures Precedes(ToBytes(v), ToBytes(w)) <==> v < w
  {
    PrecedesFour(ToBytes(v), ToBytes(w));
    JoinOctets(v);
    JoinOctets(w);
  }

  lemma PrecedesFour(a: Bytes, b: Bytes)
    requires |a| == |b| == 4
    ensures Precedes(a, b) <==> Join(a[0], a[1], a[2], a[3]) < Join(b[0], b[1], b[2], b[3])
  {
    var a1, b1 := a[1..], b[1..];
    var a2, b2 := a1[1..], b1[1..];
    assert Precedes(a2, b2) <==> a[2] < b[2] || (a[2] == b[2] && a[3] < b[3]) by {
      assert Precedes(a2[1..], b2[1..]) <==> a[3] < b[3];
    }
    assert Precedes(a1, b1) <==> a[1] < b[1] || (a[1] == b[1] && Precedes(a2, b2));
  }

  /** Concatenation of a list of byte strings. */
  function Concat(parts: seq<Bytes>): Bytes {
    if parts == [] then [] else parts[0] + Concat(parts[1..])
  }

  lemma {:induction false} ConcatAppend(a: seq<Bytes>, b: seq<Bytes>)
    ensures Concat(a + b) == Concat(a) + Concat(b)
  {
    if a == [] {
      assert a + b == b;
    } else {
      ConcatAppend(a[1..], b);
      assert (a + b)[0] == a[0] && (a + b)[1..] == a[1..] + b;
    }
  }
}
