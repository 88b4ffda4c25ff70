/** What the bytes of a configuration mean, in the words of its grammar: the six escapes, comments, and quotes that
    must be followed by a delimiter. */
module ConfigText {
  import opened Wrappers
  import opened Bits
  import opened ConfigLexer

  // ---- Escapes ----

  /** A piece of a word: a byte as it is, one of the six escapes, or a backslash that stays, before any other byte. */
  datatype Piece = Plain(c: byte) | Quote | Tick | Backslash | Tab | Return | Newline | Stays(c: byte)

  ghost predicate Proper(p: Piece) {
    match p
    case Plain(c) => c != 0x5C
    case Stays(c) => c != 0x5C && c != 0x22 && c != 0x27 && c != 0x74 && c != 0x72 && c != 0x6E
    case _ => true
  }

  function PieceText(p: Piece): seq<byte> {
    match p
    case Plain(c) => [c]
    case Quote => [0x5C, 0x22]
    case Tick => [0x5C, 0x27]
    case Backslash => [0x5C, 0x5C]
    case Tab => [0x5C, 0x74]
    case Return => [0x5C, 0x72]
    case Newline => [0x5C, 0x6E]
    case Stays(c) => [0x5C, c]
  }

  function PieceMeaning(p: Piece): seq<byte> {
    match p
    case Plain(c) => [c]
    case Quote => [0x22]
    case Tick => [0x27]
    case Backslash => [0x5C]
    case Tab => [0x09]
    case Return => [0x0D]
    case Newline => [0x0A]
    case Stays(c) => [0x5C, c]
  }

  /** A backslash may also be the last byte. */
  function WordText(ps: seq<Piece>, lone: bool): seq<byte> {
    if ps == [] then (if lone then [0x5C] else []) else PieceText(ps[0]) + WordText(ps[1..], lone)
  }

  function WordMeaning(ps: seq<Piece>, lone: bool): seq<byte> {
    if ps == [] then (if lone then [0x5C] else []) else PieceMeaning(ps[0]) + WordMeaning(ps[1..], lone)
  }

  lemma PieceMeans(p: Piece, rest: seq<byte>)
    requires Proper(p)
    ensures Unescaped(PieceText(p) + rest) == PieceMeaning(p) + Unescaped(rest)
  {
    var s := PieceText(p) + rest;
    assert s[|PieceText(p)|..] == rest;
    if p.Stays? {
      assert Unescaped(s) == [0x5C] + Unescaped(s[1..]);
      assert Unescaped(s[1..]) == [p.c] + Unescaped(s[1..][1..]) && s[1..][1..] == rest;
    }
  }

  /** Each of the six escapes means its byte, and every other byte and backslash itself. */
  lemma {:induction false} EscapesMean(ps: seq<Piece>, lone: bool)
    requires forall p | p in ps :: Proper(p)
    ensures Unescaped(WordText(ps, lone)) == WordMeaning(ps, lone)
    decreases |ps|
  {
    if ps != [] {
      PieceMeans(ps[0], WordText(ps[1..], lone));
      EscapesMean(ps[1..], lone);
    }
  }

  /** The piece at the front of a text. */
  lemma FirstPiece(s: seq<byte>) returns (p: Piece)
    requires s != [] && s != [0x5C]
    ensures Proper(p) && |PieceText(p)| <= |s| && PieceText(p) == s[..|PieceText(p)|]
  {
    if s[0] != 0x5C { return Plain(s[0]); }
    var c := s[1];
    return if c == 0x22 then Quote else if c == 0x27 then Tick else if c == 0x5C then Backslash else if c == 0x74 then Tab
           else if c == 0x72 then Return else if c == 0x6E then Newline else Stays(c);
  }

  /** And every text is made of such pieces. */
  lemma {:induction false} EveryText(s: seq<byte>) returns (ps: seq<Piece>, lone: bool)
    ensures (forall p | p in ps :: Proper(p)) && WordText(ps, lone) == s
    decreases |s|
  {
    if s == [] || s == [0x5C] {
      ps, lone := [], s != [];
    } else {
      var p := FirstPiece(s);
      var more;
      var n := |PieceText(p)|;
      more, lone := EveryText(s[n..]);
      ps := [p] + more;
      assert ps[1..] == more && s[..n] + s[n..] == s;
    }
  }

  // ---- Comments and white space ----

  lemma {:induction false} CommentIs(text: seq<byte>, rest: seq<byte>)
    requires forall k | 0 <= k < |text| :: text[k] != 0x0A
    ensures CommentLength(text + ([0x0A] + rest)) == |text|
  {
    if text == [] {
      assert text + ([0x0A] + rest) == [0x0A] + rest;
    } else {
      CommentIs(text[1..], rest);
      assert (text + ([0x0A] + rest))[1..] == text[1..] + ([0x0A] + rest);
    }
  }

  /** White space in front of a text, of the four kinds, means nothing. */
  lemma SpaceVanishes(c: byte, rest: seq<byte>)
    requires c == 0x20 || c == 0x09 || c == 0x0D || c == 0x0A
    ensures Tokens([c] + rest) == Tokens(rest)
  {
    var s := [c] + rest;
    assert s[1..] == rest && Trivia(s) == 1 + Trivia(rest);
    assert s[Trivia(s)..] == rest[Trivia(rest)..];
  }

  /** Nor does a comment, from its mark to the end of the line, whatever is in it. */
  lemma CommentVanishes(text: seq<byte>, rest: seq<byte>)
    requires forall k | 0 <= k < |text| :: text[k] != 0x0A
    ensures Tokens([0x23] + text + [0x0A] + rest) == Tokens(rest)
  {
    var s := [0x23] + text + [0x0A] + rest;
    var n := |text| + 1;
    CommentIs([0x23] + text, rest);
    assert s == ([0x23] + text) + ([0x0A] + rest);
    assert s[n..] == [0x0A] + rest && CommentLength(s) == n;
    SpaceVanishes(0x0A, rest);
    assert Trivia(s) == n + Trivia(s[n..]);
    assert s[Trivia(s)..] == s[n..][Trivia(s[n..])..];
  }

  /** A comment may also end the text. */
  lemma {:induction false} CommentToEnd(text: seq<byte>)
    requires forall k | 0 <= k < |text| :: text[k] != 0x0A
    ensures CommentLength(text) == |text|
  {
    if text != [] { CommentToEnd(text[1..]); }
  }

  lemma LastCommentVanishes(text: seq<byte>)
    requires forall k | 0 <= k < |text| :: text[k] != 0x0A
    ensures Tokens([0x23] + text) == Some([])
  {
    var s := [0x23] + text;
    CommentToEnd(s);
    assert s[|s|..] == [] && Trivia(s) == |s| + Trivia([]);
  }

  // ---- Quotes ----

  ghost predicate QuoteMark(q: byte) { q == 0x22 || q == 0x27 }

  /** A text between quotes: no quote of that kind but behind a backslash, and no backslash before the end. */
  ghost predicate Inside(s: seq<byte>, q: byte)
    decreases |s|
  {
    s == [] || (if s[0] == 0x5C then |s| > 1 && Inside(s[2..], q) else s[0] != q && Inside(s[1..], q))
  }

  lemma {:induction false} InsideEnds(s: seq<byte>, q: byte, rest: seq<byte>)
    requires QuoteMark(q) && Inside(s, q)
    ensures QuotedLength(s + ([q] + rest), q) == Some(|s|)
    decreases |s|
  {
    var t := s + ([q] + rest);
    if s == [] {
      assert t == [q] + rest;
    } else if s[0] == 0x5C {
      InsideEnds(s[2..], q, rest);
      assert t[2..] == s[2..] + ([q] + rest);
    } else {
      InsideEnds(s[1..], q, rest);
      assert t[1..] == s[1..] + ([q] + rest);
    }
  }

  lemma QuotedNext(t: seq<byte>, s: seq<byte>, q: byte, rest: seq<byte>)
    requires QuoteMark(q) && Inside(s, q) && t == [q] + s + [q] + rest
    ensures Next(t) == if rest == [] || IsDelim(rest[0]) then Got(Word(Unescaped(s), true), |s| + 2) else Bad
    ensures t[|s| + 2..] == rest
  {
    InsideEnds(s, q, rest);
    assert t[1..] == s + ([q] + rest) && t[1..|s| + 1] == s;
    if rest != [] { assert t[|s| + 2] == rest[0]; }
  }

  /** Between two quotes of a kind stands one word, delimiters and all; and behind them must stand a delimiter or
      the end. */
  lemma QuotedWordIs(s: seq<byte>, q: byte, rest: seq<byte>)
    requires QuoteMark(q) && Inside(s, q)
    ensures Tokens([q] + s + [q] + rest) ==
            if rest == [] || IsDelim(rest[0]) then Onto([Word(Unescaped(s), true)], Tokens(rest)) else None
  {
    var t := [q] + s + [q] + rest;
    QuotedNext(t, s, q, rest);
    assert t[0..] == t && Trivia(t) == 0;
  }

  /** A quote that is never closed is no text. */
  lemma {:induction false} NeverCloses(s: seq<byte>, q: byte)
    requires QuoteMark(q) && Inside(s, q)
    ensures QuotedLength(s, q) == None
    decreases |s|
  {
    if s != [] { if s[0] == 0x5C { NeverCloses(s[2..], q); } else { NeverCloses(s[1..], q); } }
  }

  lemma UnclosedIsRefused(s: seq<byte>, q: byte)
    requires QuoteMark(q) && Inside(s, q)
    ensures Tokens([q] + s) == None
  {
    var t := [q] + s;
    NeverCloses(s, q);
    assert t[1..] == s && t[0..] == t && Trivia(t) == 0;
  }
}
