/** Splitting a list of parameter names (include/rpc_provider.hpp). */
module Splitter {

  predicate IsBlank(c: char) {
    c == ' ' || c == '\t' || c == '\n' || c == '\r' || c == '\U{000C}' || c == '\U{000B}'
  }

  predicate AllBlank(s: string) {
    forall c | c in s :: IsBlank(c)
  }

  function TrimLeft(s: string): string {
    if s != [] && IsBlank(s[0]) then TrimLeft(s[1..]) else s
  }

  function TrimRight(s: string): string {
    if s != [] && IsBlank(s[|s| - 1]) then TrimRight(s[..|s| - 1]) else s
  }

  function Trim(s: string): string {
    TrimRight(TrimLeft(s))
  }

  /** Where the first delimiter is, or the length when there is none. */
  function FirstAt(s: string, delimiter: char): (i: nat)
    ensures i <= |s| && (forall k | 0 <= k < i :: s[k] != delimiter) && (i < |s| ==> s[i] == delimiter)
  {
    if s == [] || s[0] == delimiter then 0 else 1 + FirstAt(s[1..], delimiter)
  }

  function NonEmpty(token: string): seq<string> {
    if token == [] then [] else [token]
  }

  /** The pieces between delimiters, trimmed, without the empty ones. */
  function Tokens(s: string, delimiter: char): seq<string>
    decreases |s|
  {
    var i := FirstAt(s, delimiter);
    NonEmpty(Trim(s[..i])) + if i < |s| then Tokens(s[i + 1..], delimiter) else []
  }

  /** The piece up to the next delimiter, and the position after that delimiter. */
  method GetLine(s: string, pos: nat, delimiter: char) returns (piece: string, next: nat)
    requires pos < |s|
    ensures pos < next <= |s|
    ensures Tokens(s[pos..], delimiter) == NonEmpty(Trim(piece)) + Tokens(s[next..], delimiter)
  {
    var length := FirstAt(s[pos..], delimiter);
    TokensFrom(s, pos, length, delimiter);
    piece := s[pos..pos + length];
    next := if pos + length < |s| then pos + length + 1 else |s|;
    assert s[|s|..] == [];
  }

  method Split(s: string, delimiter: char) returns (tokens: seq<string>)
    ensures tokens == Tokens(s, delimiter)
  {
    tokens := [];
    var pos := 0;
    ghost var rest := Tokens(s, delimiter);
    ghost var all := rest;
    assert s[0..] == s;
    while pos < |s|
      invariant pos <= |s| && rest == Tokens(s[pos..], delimiter)
      invariant tokens + rest == all
    {
      var piece, next := GetLine(s, pos, delimiter);
      var token := Trim(piece);
      rest := Tokens(s[next..], delimiter);
      Onward(tokens, token, rest, all);
      if token != [] {
        tokens := tokens + [token];
      }
      pos := next;
    }
    assert s[|s|..] == [];
    NoTokens(delimiter);
  }

  lemma Onward(done: seq<string>, token: string, rest: seq<string>, all: seq<string>)
    requires done + (NonEmpty(token) + rest) == all
    ensures (if token != [] then done + [token] else done) + rest == all
  {
    assert done + (NonEmpty(token) + rest) == done + NonEmpty(token) + rest;
    assert done + [] == done;
  }

  lemma NoTokens(delimiter: char)
    ensures Tokens([], delimiter) == []
  {
    assert FirstAt([], delimiter) == 0 && Trim([]) == [];
  }

  /** One turn of the loop: the piece up to the next delimiter, and what follows it. */
  lemma TokensFrom(s: string, pos: nat, length: nat, delimiter: char)
    requires pos < |s| && length == FirstAt(s[pos..], delimiter)
    ensures var rest := if pos + length < |s| then s[pos + length + 1..] else [];
      Tokens(s[pos..], delimiter) == NonEmpty(Trim(s[pos..pos + length])) + Tokens(rest, delimiter)
  {
    var piece := s[pos..pos + length];
    assert s[pos..][..length] == piece;
    if pos + length < |s| {
      assert s[pos..] == piece + [delimiter] + s[pos + length + 1..];
      TokensCons(piece, s[pos + length + 1..], delimiter);
    } else {
      assert s[pos..] == piece;
      TokensLast(piece, delimiter);
      NoTokens(delimiter);
    }
  }

  lemma FirstIs(s: string, delimiter: char, i: nat)
    requires i <= |s| && (forall k | 0 <= k < i :: s[k] != delimiter) && (i < |s| ==> s[i] == delimiter)
    ensures FirstAt(s, delimiter) == i
  {
    var j := FirstAt(s, delimiter);
    assert j < |s| ==> s[j] == delimiter;
  }

  // ---------- tokens ----------

  /** What `Split` promises of each token. */
  predicate IsName(token: string, delimiter: char) {
    && token != [] && delimiter !in token
    && token[0] !in " \t\n\r\U{000C}\U{000B}" && token[|token| - 1] !in " \t\n\r\U{000C}\U{000B}"
  }

  predicate Starts(s: string) {
    s != [] ==> !IsBlank(s[0])
  }

  predicate Ends(s: string) {
    s != [] ==> !IsBlank(s[|s| - 1])
  }

  lemma {:induction false} TrimmedLeft(s: string, delimiter: char)
    ensures Starts(TrimLeft(s)) && (delimiter !in s ==> delimiter !in TrimLeft(s))
  {
    if s != [] && IsBlank(s[0]) {
      TrimmedLeft(s[1..], delimiter);
    }
  }

  lemma {:induction false} TrimmedRight(s: string, delimiter: char)
    ensures Ends(TrimRight(s)) && TrimRight(s) <= s
    ensures delimiter !in s ==> delimiter !in TrimRight(s)
  {
    if s != [] && IsBlank(s[|s| - 1]) {
      TrimmedRight(s[..|s| - 1], delimiter);
    }
  }

  lemma PieceIsName(piece: string, delimiter: char)
    requires delimiter !in piece
    ensures Trim(piece) != [] ==> IsName(Trim(piece), delimiter)
  {
    TrimmedLeft(piece, delimiter);
    TrimmedRight(TrimLeft(piece), delimiter);
  }

  /** Every token of every string is non-empty, trimmed and free of the delimiter. */
  lemma {:induction false} TokensAreNames(s: string, delimiter: char)
    ensures forall token | token in Tokens(s, delimiter) :: IsName(token, delimiter)
    decreases |s|
  {
    var i := FirstAt(s, delimiter);
    PieceIsName(s[..i], delimiter);
    if i < |s| {
      TokensAreNames(s[i + 1..], delimiter);
    }
  }

  // ---------- joining ----------

  /** A name, possibly empty, between two paddings. */
  datatype Padded = Padded(left: string, name: string, right: string) {
    function Text(): string {
      left + name + right
    }

    predicate Valid(delimiter: char) {
      && (forall c | c in left + right :: c in " \t\n\r\U{000C}\U{000B}" && c != delimiter)
      && (name == [] || IsName(name, delimiter))
    }
  }

  function Join(items: seq<Padded>, delimiter: char): string {
    if items == [] then []
    else if |items| == 1 then items[0].Text()
    else items[0].Text() + [delimiter] + Join(items[1..], delimiter)
  }

  function Names(items: seq<Padded>): seq<string> {
    if items == [] then [] else NonEmpty(items[0].name) + Names(items[1..])
  }

  lemma {:induction false} PaddingLeft(left: string, s: string)
    requires AllBlank(left)
    ensures TrimLeft(left + s) == TrimLeft(s)
  {
    if left == [] {
      assert left + s == s;
    } else {
      assert (left + s)[1..] == left[1..] + s;
      PaddingLeft(left[1..], s);
    }
  }

  lemma {:induction false} PaddingRight(s: string, right: string)
    requires AllBlank(right)
    ensures TrimRight(s + right) == TrimRight(s)
  {
    if right == [] {
      assert s + right == s;
    } else {
      var n := |right| - 1;
      assert (s + right)[..|s| + n] == s + right[..n];
      PaddingRight(s, right[..n]);
    }
  }

  lemma PaddingBlank(p: Padded, delimiter: char)
    requires p.Valid(delimiter)
    ensures AllBlank(p.left) && AllBlank(p.right) && delimiter !in p.left && delimiter !in p.right
  {
    forall c | c in p.left || c in p.right
      ensures IsBlank(c) && c != delimiter
    {
      assert c in p.left + p.right;
    }
  }

  lemma TrimPadded(p: Padded, delimiter: char)
    requires p.Valid(delimiter)
    ensures Trim(p.Text()) == p.name
  {
    assert p.Text() == p.left + (p.name + p.right);
    PaddingBlank(p, delimiter);
    PaddingLeft(p.left, p.name + p.right);
    if p.name == [] {
      assert p.name + p.right == p.right == p.right + [] && [] + p.right == p.right;
      PaddingLeft(p.right, []);
    } else {
      PaddingRight(p.name, p.right);
    }
  }

  lemma TokensCons(piece: string, rest: string, delimiter: char)
    requires delimiter !in piece
    ensures Tokens(piece + [delimiter] + rest, delimiter) == NonEmpty(Trim(piece)) + Tokens(rest, delimiter)
  {
    var s := piece + [delimiter] + rest;
    assert s[..|piece|] == piece && s[|piece| + 1..] == rest;
    FirstIs(s, delimiter, |piece|);
  }

  lemma TokensLast(piece: string, delimiter: char)
    requires delimiter !in piece
    ensures Tokens(piece, delimiter) == NonEmpty(Trim(piece))
  {
    assert piece[..|piece|] == piece;
    FirstIs(piece, delimiter, |piece|);
  }

  /** Joining names with any blank padding, and splitting, returns the non-empty names. */
  lemma {:induction false} SplitJoin(items: seq<Padded>, delimiter: char)
    requires forall p | p in items :: p.Valid(delimiter)
    ensures Tokens(Join(items, delimiter), delimiter) == Names(items)
  {
    if items == [] {
      NoTokens(delimiter);
    } else {
      TrimPadded(items[0], delimiter);
      PaddingBlank(items[0], delimiter);
      if |items| == 1 {
        TokensLast(items[0].Text(), delimiter);
        assert items[1..] == [];
      } else {
        TokensCons(items[0].Text(), Join(items[1..], delimiter), delimiter);
        SplitJoin(items[1..], delimiter);
      }
    }
  }

  lemma {:induction false} PadPiece(piece: string, delimiter: char) returns (p: Padded)
    requires delimiter !in piece
    ensures p.Valid(delimiter) && p.Text() == piece
    decreases |piece|
  {
    var n := |piece| - 1;
    if piece == [] {
      p := Padded([], [], []);
    } else if piece[0] in " \t\n\r\U{000C}\U{000B}" {
      p := PadPiece(piece[1..], delimiter);
      p := p.(left := [piece[0]] + p.left);
      assert p.Text() == [piece[0]] + piece[1..];
    } else if piece[n] in " \t\n\r\U{000C}\U{000B}" {
      p := PadPiece(piece[..n], delimiter);
      p := p.(right := p.right + [piece[n]]);
      assert p.Text() == piece[..n] + [piece[n]];
    } else {
      p := Padded([], piece, []);
    }
  }

  lemma {:induction false} PadAll(s: string, delimiter: char) returns (items: seq<Padded>)
    ensures items != [] && Join(items, delimiter) == s && forall p | p in items :: p.Valid(delimiter)
    decreases |s|
  {
    var i := FirstAt(s, delimiter);
    var p := PadPiece(s[..i], delimiter);
    items := [p];
    if i < |s| {
      var rest := PadAll(s[i + 1..], delimiter);
      items := [p] + rest;
      assert items[1..] == rest;
      assert s == s[..i] + [delimiter] + s[i + 1..];
    }
  }

  /** Every string is such a join, so what is split off is always the non-empty names in it. */
  lemma TokensExactly(s: string, delimiter: char) returns (items: seq<Padded>)
    ensures Join(items, delimiter) == s && forall p | p in items :: p.Valid(delimiter)
    ensures Tokens(s, delimiter) == Names(items)
  {
    items := PadAll(s, delimiter);
    SplitJoin(items, delimiter);
  }

  function Plain(names: seq<string>): (items: seq<Padded>)
    ensures |items| == |names| && forall i | 0 <= i < |names| :: items[i] == Padded([], names[i], [])
  {
    seq(|names|, i requires 0 <= i < |names| => Padded([], names[i], []))
  }

  lemma {:induction false} PlainNames(names: seq<string>)
    requires forall i | 0 <= i < |names| :: names[i] != []
    ensures Names(Plain(names)) == names
  {
    if names != [] {
      PlainNames(names[1..]);
      assert Plain(names)[1..] == Plain(names[1..]);
      assert Plain(names)[0].name == names[0];
    }
  }

  /** Joining the tokens of any string, and splitting, returns the tokens. */
  lemma SplitJoinSplit(s: string, delimiter: char)
    ensures var tokens := Tokens(s, delimiter); Tokens(Join(Plain(tokens), delimiter), delimiter) == tokens
  {
    TokensAreNames(s, delimiter);
    forall i | 0 <= i < |Tokens(s, delimiter)|
      ensures IsName(Tokens(s, delimiter)[i], delimiter)
    {
      assert Tokens(s, delimiter)[i] in Tokens(s, delimiter);
    }
    PlainNames(Tokens(s, delimiter));
    SplitJoin(Plain(Tokens(s, delimiter)), delimiter);
  }
}
