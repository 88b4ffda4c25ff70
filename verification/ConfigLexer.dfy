/** The tokenizer of the configuration grammar, and the words that survive it.

    Text is its UTF-8 bytes. Tokens carry no line numbers here: those only label messages. */
module ConfigLexer {
  import opened Wrappers
  import opened Bits

  const TAB: byte := 0x09
  const LF: byte := 0x0A
  const CR: byte := 0x0D
  const SPACE: byte := 0x20
  const QUOTE: byte := 0x22
  const HASH: byte := 0x23
  const TICK: byte := 0x27
  const SEMI: byte := 0x3B
  const BACKSLASH: byte := 0x5C
  const OPEN: byte := 0x7B
  const CLOSE: byte := 0x7D

  datatype Token = Word(text: seq<byte>, quoted: bool) | Open | Close | Semi

  predicate IsDelim(c: byte) { c == SPACE || c == TAB || c == CR || c == LF || c == SEMI || c == OPEN || c == CLOSE }

  predicate IsSpace(c: byte) { c == SPACE || c == TAB || c == CR || c == LF }

  // ---- The grammar ----

  function CommentLength(s: seq<byte>): (n: nat)
    ensures n <= |s|
  {
    if s == [] || s[0] == LF then 0 else 1 + CommentLength(s[1..])
  }

  /** How much of the front is white space and comments. */
  function Trivia(s: seq<byte>): (n: nat)
    ensures n <= |s| && (n < |s| ==> !IsSpace(s[n]) && s[n] != HASH)
    decreases |s|
  {
    if s == [] then 0
    else if IsSpace(s[0]) then 1 + Trivia(s[1..])
    else if s[0] == HASH then CommentLength(s) + Trivia(s[CommentLength(s)..])
    else 0
  }

  /** Where the closing quote is, behind the opening one. */
  function QuotedLength(s: seq<byte>, quote: byte): (n: Option<nat>)
    ensures n.Some? ==> n.value < |s|
    decreases |s|
  {
    if s == [] then None
    else if s[0] == BACKSLASH && |s| > 1 then
      match QuotedLength(s[2..], quote) case None => None case Some(n) => Some(n + 2)
    else if s[0] == quote then Some(0)
    else match QuotedLength(s[1..], quote) case None => None case Some(n) => Some(n + 1)
  }

  /** The length of a bare word: a backslash keeps the next byte from ending it. */
  function BareLength(s: seq<byte>): (n: nat)
    ensures n <= |s|
    decreases |s|
  {
    if s == [] then 0
    else if s[0] == BACKSLASH && |s| > 1 then 2 + BareLength(s[2..])
    else if IsDelim(s[0]) then 0
    else 1 + BareLength(s[1..])
  }

  /** What a backslash and this byte stand for together, if not for themselves. */
  function Resolved(c: byte): Option<byte> {
    if c == QUOTE || c == TICK || c == BACKSLASH then Some(c)
    else if c == 0x74 then Some(TAB)
    else if c == 0x72 then Some(CR)
    else if c == 0x6E then Some(LF)
    else None
  }

  function Unescaped(s: seq<byte>): seq<byte>
    decreases |s|
  {
    if s == [] then []
    else if s[0] == BACKSLASH && |s| > 1 && Resolved(s[1]).Some? then [Resolved(s[1]).value] + Unescaped(s[2..])
    else [s[0]] + Unescaped(s[1..])
  }

  datatype Lexeme = Bad | Got(token: Token, length: nat)

  /** The token at the front of a text that does not begin with trivia. */
  function Next(s: seq<byte>): (r: Lexeme)
    requires s != [] && !IsSpace(s[0]) && s[0] != HASH
    ensures r.Got? ==> 1 <= r.length <= |s|
  {
    if s[0] == OPEN then Got(Open, 1)
    else if s[0] == CLOSE then Got(Close, 1)
    else if s[0] == SEMI then Got(Semi, 1)
    else if s[0] == QUOTE || s[0] == TICK then
      match QuotedLength(s[1..], s[0])
      case None => Bad
      case Some(n) =>
        if n + 2 < |s| && !IsDelim(s[n + 2]) then Bad else Got(Word(Unescaped(s[1..n + 1]), true), n + 2)
    else Got(Word(Unescaped(s[..BareLength(s)]), false), BareLength(s))
  }

  function Onto(ts: seq<Token>, rest: Option<seq<Token>>): Option<seq<Token>> {
    match rest case None => None case Some(r) => Some(ts + r)
  }

  /** All tokens of a text, or none if some of it is none. */
  function Tokens(s: seq<byte>): Option<seq<Token>>
    decreases |s|, 1
  {
    Started(s[Trivia(s)..])
  }

  /** The same of a text that does not begin with trivia. */
  function Started(s: seq<byte>): Option<seq<Token>>
    requires s != [] ==> !IsSpace(s[0]) && s[0] != HASH
    decreases |s|, 0
  {
    if s == [] then Some([])
    else match Next(s)
      case Bad => None
      case Got(t, n) => Onto([t], Tokens(s[n..]))
  }

  // ---- Escapes ----

  /** `str::replace` of one byte. */
  function Replaced(s: seq<byte>, c: byte, instead: seq<byte>): seq<byte> {
    if s == [] then [] else (if s[0] == c then instead else [s[0]]) + Replaced(s[1..], c, instead)
  }

  /** What `dump` writes between quotes. */
  function Escaped(s: seq<byte>): seq<byte> {
    Replaced(Replaced(s, BACKSLASH, [BACKSLASH, BACKSLASH]), QUOTE, [BACKSLASH, QUOTE])
  }

  function EscapedByte(c: byte): seq<byte> {
    if c == BACKSLASH || c == QUOTE then [BACKSLASH, c] else [c]
  }

  lemma EscapedCons(s: seq<byte>)
    requires s != []
    ensures Escaped(s) == EscapedByte(s[0]) + Escaped(s[1..])
  {
    var inner := Replaced(s[1..], BACKSLASH, [BACKSLASH, BACKSLASH]);
    if s[0] == BACKSLASH {
      ReplacedPair(BACKSLASH, BACKSLASH, inner);
    } else {
      assert ([s[0]] + inner)[1..] == inner;
    }
  }

  lemma ReplacedPair(a: byte, b: byte, rest: seq<byte>)
    requires a != QUOTE && b != QUOTE
    ensures Replaced([a, b] + rest, QUOTE, [BACKSLASH, QUOTE]) == [a, b] + Replaced(rest, QUOTE, [BACKSLASH, QUOTE])
  {
    assert ([a, b] + rest)[1..] == [b] + rest && ([b] + rest)[1..] == rest;
  }

  lemma UnescapedUnit(c: byte, rest: seq<byte>)
    ensures Unescaped(EscapedByte(c) + rest) == [c] + Unescaped(rest)
    ensures forall n: nat :: QuotedLength(rest, QUOTE) == Some(n) ==> QuotedLength(EscapedByte(c) + rest, QUOTE) == Some(n + |EscapedByte(c)|)
  {
    var s := EscapedByte(c) + rest;
    if |EscapedByte(c)| == 2 { assert s[2..] == rest; } else { assert s[1..] == rest; }
  }

  /** Any text at all comes back from its quoted form. */
  lemma {:induction false} UnescapedEscaped(s: seq<byte>)
    ensures Unescaped(Escaped(s)) == s
    decreases |s|
  {
    if s != [] {
      EscapedCons(s);
      UnescapedEscaped(s[1..]);
      UnescapedUnit(s[0], Escaped(s[1..]));
      assert [s[0]] + s[1..] == s;
    }
  }

  lemma {:induction false} EscapedIsClosed(s: seq<byte>, rest: seq<byte>)
    requires rest != [] && rest[0] == QUOTE
    ensures QuotedLength(Escaped(s) + rest, QUOTE) == Some(|Escaped(s)|)
    decreases |s|
  {
    if s == [] {
      assert Escaped(s) + rest == rest;
    } else {
      EscapedCons(s);
      EscapedIsClosed(s[1..], rest);
      UnescapedUnit(s[0], Escaped(s[1..]) + rest);
      assert Escaped(s) + rest == EscapedByte(s[0]) + (Escaped(s[1..]) + rest);
    }
  }

  lemma QuotedLexeme(s: seq<byte>, rest: seq<byte>)
    requires rest != [] ==> IsDelim(rest[0])
    ensures var text := [QUOTE] + Escaped(s) + [QUOTE];
            Next(text + rest) == Got(Word(s, true), |text|)
  {
    var text := [QUOTE] + Escaped(s) + [QUOTE];
    EscapedIsClosed(s, [QUOTE] + rest);
    UnescapedEscaped(s);
    assert (text + rest)[1..] == Escaped(s) + ([QUOTE] + rest);
    assert (text + rest)[1..|Escaped(s)| + 1] == Escaped(s);
  }

  // ---- Bare words ----

  /** Every backslash is data: with a byte after it that it does not resolve. */
  predicate DataOnly(s: seq<byte>)
    decreases |s|
  {
    s == [] || (if s[0] == BACKSLASH then |s| > 1 && Resolved(s[1]).None? && DataOnly(s[1..]) else DataOnly(s[1..]))
  }

  predicate NoDelim(s: seq<byte>) { forall i | 0 <= i < |s| :: !IsDelim(s[i]) }

  /** A word that may be written without quotes. */
  predicate Bare(w: seq<byte>) {
    w != [] && NoDelim(w) && w[0] != QUOTE && w[0] != TICK && w[0] != HASH && DataOnly(w)
  }

  lemma {:induction false} DataOnlyStays(s: seq<byte>)
    requires DataOnly(s)
    ensures Unescaped(s) == s
    decreases |s|
  {
    if s != [] {
      DataOnlyStays(s[1..]);
      assert [s[0]] + s[1..] == s;
    }
  }

  lemma {:induction false} BareEnds(w: seq<byte>, rest: seq<byte>)
    requires NoDelim(w) && DataOnly(w) && (rest != [] ==> IsDelim(rest[0]))
    ensures BareLength(w + rest) == |w|
    decreases |w|
  {
    if w == [] {
      assert w + rest == rest;
    } else if w[0] == BACKSLASH {
      assert (w + rest)[2..] == w[2..] + rest;
      assert w[2..] == w[1..][1..];
      AfterData(w);
      BareEnds(w[2..], rest);
    } else {
      assert (w + rest)[1..] == w[1..] + rest;
      BareEnds(w[1..], rest);
    }
  }

  lemma AfterData(w: seq<byte>)
    requires DataOnly(w) && w != [] && w[0] == BACKSLASH
    ensures |w| > 1 && DataOnly(w[2..])
  {
    assert w[1..][1..] == w[2..];
  }

  lemma BareLexeme(w: seq<byte>, rest: seq<byte>)
    requires Bare(w) && (rest != [] ==> IsDelim(rest[0]))
    ensures !IsSpace((w + rest)[0]) && Next(w + rest) == Got(Word(w, false), |w|)
  {
    BareEnds(w, rest);
    DataOnlyStays(w);
    assert (w + rest)[..|w|] == w;
  }

  lemma {:induction false} UnescapedLength(s: seq<byte>)
    ensures |Unescaped(s)| <= |s|
    decreases |s|
  {
    if s != [] {
      if s[0] == BACKSLASH && |s| > 1 && Resolved(s[1]).Some? { UnescapedLength(s[2..]); } else { UnescapedLength(s[1..]); }
    }
  }

  lemma {:induction false} NotDataChanges(w: seq<byte>, rest: seq<byte>)
    requires NoDelim(w) && rest != [] && IsDelim(rest[0]) && !DataOnly(w)
    ensures |Unescaped(w)| < |w| || BareLength(w + rest) != |w|
    decreases |w|
  {
    if w[0] == BACKSLASH && |w| == 1 {
      assert (w + rest)[0] == BACKSLASH;
    } else if w[0] == BACKSLASH && Resolved(w[1]).Some? {
      UnescapedLength(w[2..]);
    } else if w[0] == BACKSLASH {
      assert w[1..][0] == w[1] && w[1..][1..] == w[2..] && (w + rest)[2..] == w[2..] + rest;
      assert Unescaped(w[1..]) == [w[1]] + Unescaped(w[2..]);
      NotDataChanges(w[2..], rest);
    } else {
      assert (w + rest)[1..] == w[1..] + rest;
      NotDataChanges(w[1..], rest);
    }
  }

  /** A word without delimiters is read back as it was written, unquoted, exactly when it is bare. */
  lemma BareExactly(w: seq<byte>, rest: seq<byte>)
    requires w != [] && NoDelim(w) && rest != [] && IsDelim(rest[0])
    ensures Trivia(w + rest) == 0 && Next(w + rest) == Got(Word(w, false), |w|) <==> Bare(w)
  {
    assert (w + rest)[0] == w[0];
    if Bare(w) {
      BareLexeme(w, rest);
    } else if !DataOnly(w) {
      NotDataChanges(w, rest);
      assert (w + rest)[..|w|] == w;
    }
  }

  // ---- The tokenizer ----

  class Lexer {
    const b: seq<byte>
    var i: nat

    constructor (b: seq<byte>)
      ensures this.b == b && i == 0
    {
      this.b := b;
      i := 0;
    }

    method Run() returns (out: Option<seq<Token>>)
      requires i == 0
      modifies this
      ensures out == Tokens(b)
    {
      var ts: seq<Token> := [];
      ghost var all := Tokens(b);
      OntoNothing(all);
      assert b[0..] == b;
      while true
        invariant i <= |b| && Onto(ts, Tokens(b[i..])) == all
        decreases |b| - i
      {
        var done, t := Step();
        if done {
          assert ts + [] == ts;
          return Some(ts);
        }
        if t.None? { return None; }
        OntoNext(ts, t.value, Tokens(b[i..]));
        ts := ts + [t.value];
      }
    }

    /** The next token, if there is one. */
    method Step() returns (done: bool, t: Option<Token>)
      requires i <= |b|
      modifies this
      ensures if done then Tokens(b[old(i)..]) == Some([])
              else if t == None then Tokens(b[old(i)..]) == None
              else old(i) < i <= |b| && Tokens(b[old(i)..]) == Onto([t.value], Tokens(b[i..]))
    {
      ghost var all := Tokens(b[i..]);
      ghost var start := i;
      SkipTrivia();
      TokensNext(b, start, i);
      if i >= |b| { return true, None; }
      t := OneToken(all);
      return false, t;
    }

    method OneToken(ghost all: Option<seq<Token>>) returns (t: Option<Token>)
      requires i < |b| && !IsSpace(b[i]) && b[i] != HASH && all == Started(b[i..])
      modifies this
      ensures if t == None then all == None else old(i) < i <= |b| && all == Onto([t.value], Tokens(b[i..]))
    {
      ghost var start := i;
      t := ReadToken();
      if t.Some? { StartedGot(b, start, t.value, i - start); }
    }

    method ReadToken() returns (t: Option<Token>)
      requires i < |b| && !IsSpace(b[i]) && b[i] != HASH
      modifies this
      ensures if t == None then Next(b[old(i)..]) == Bad
              else old(i) < i <= |b| && Next(b[old(i)..]) == Got(t.value, i - old(i))
    {
      var c := b[i];
      if c == OPEN || c == CLOSE || c == SEMI {
        i := i + 1;
        t := Some(if c == OPEN then Open else if c == CLOSE then Close else Semi);
      } else if c == QUOTE || c == TICK {
        var w := QuotedWord(c);
        if w.None? { return None; }
        t := Some(Word(w.value, true));
      } else {
        var w := BareWord();
        t := Some(Word(w, false));
      }
    }

    method SkipTrivia()
      requires i <= |b|
      modifies this
      ensures old(i) <= i <= |b| && i == old(i) + Trivia(b[old(i)..])
    {
      ghost var start := i;
      while i < |b|
        invariant start <= i <= |b| && i + Trivia(b[i..]) == start + Trivia(b[start..])
        decreases |b| - i
      {
        ghost var s := b[i..];
        if IsSpace(b[i]) {
          i := i + 1;
          assert s[1..] == b[i..];
        } else if b[i] == HASH {
          SkipComment();
          assert s[CommentLength(s)..] == b[i..];
        } else {
          return;
        }
      }
    }

    method SkipComment()
      requires i < |b| && b[i] == HASH
      modifies this
      ensures old(i) < i <= |b| && i == old(i) + CommentLength(b[old(i)..])
    {
      ghost var hash := i;
      while i < |b| && b[i] != LF
        invariant hash <= i <= |b| && i + CommentLength(b[i..]) == hash + CommentLength(b[hash..])
        decreases |b| - i
      {
        assert b[i..][1..] == b[i + 1..];
        i := i + 1;
      }
    }

    method QuotedWord(quote: byte) returns (w: Option<seq<byte>>)
      requires i < |b| && b[i] == quote && (quote == QUOTE || quote == TICK)
      modifies this
      ensures match w
              case None => Next(b[old(i)..]) == Bad
              case Some(text) => old(i) < i <= |b| && Next(b[old(i)..]) == Got(Word(text, true), i - old(i))
    {
      ghost var s := b[i..];
      i := i + 1;
      var start := i;
      assert s[1..] == b[start..];
      var closed;
      i, closed := ScanQuote(b, start, quote);
      if !closed { return None; }
      var raw := b[start..i];
      assert raw == s[1..i - start + 1];
      i := i + 1;
      assert i < |b| ==> s[i - start + 1] == b[i];
      if i < |b| && !IsDelim(b[i]) { return None; }
      var text := Unescape(raw);
      return Some(text);
    }

    /** Never empty: what starts a bare word is no delimiter. */
    method BareWord() returns (w: seq<byte>)
      requires i < |b| && !IsDelim(b[i])
      modifies this
      ensures old(i) < i <= |b| && i == old(i) + BareLength(b[old(i)..]) && w == Unescaped(b[old(i)..][..BareLength(b[old(i)..])])
    {
      var start := i;
      while i < |b|
        invariant start <= i <= |b| && i + BareLength(b[i..]) == start + BareLength(b[start..])
        decreases |b| - i
      {
        var c := b[i];
        ghost var rest := b[i..];
        if c == BACKSLASH && i + 1 < |b| {
          SliceOfSlice(b, i, 2);
          i := i + 2;
        } else if IsDelim(c) {
          break;
        } else {
          SliceOfSlice(b, i, 1);
          i := i + 1;
        }
      }
      assert b[start..i] == b[start..][..BareLength(b[start..])];
      w := Unescape(b[start..i]);
    }
  }

  /** The loop of `quoted_word`: where the closing quote is, if there is one. */
  method ScanQuote(b: seq<byte>, start: nat, quote: byte) returns (i: nat, closed: bool)
    requires start <= |b|
    ensures start <= i <= |b| && (closed ==> i < |b|)
    ensures QuotedLength(b[start..], quote) == if closed then Some(i - start) else None
  {
    i := start;
    ghost var length := QuotedLength(b[start..], quote);
    while i < |b|
      invariant start <= i <= |b| && Further(b, i, quote, i - start, length)
      decreases |b| - i
    {
      var c := b[i];
      if c == BACKSLASH && i + 1 < |b| {
        QuotedSkips(b, i, quote, i - start, length);
        i := i + 2;
      } else if c == quote {
        return i, true;
      } else {
        QuotedSkips(b, i, quote, i - start, length);
        i := i + 1;
      }
    }
    return i, false;
  }

  /** The quote is as far away as it is from here, and `n` bytes more. */
  ghost predicate Further(b: seq<byte>, i: nat, quote: byte, n: nat, length: Option<nat>)
    requires i <= |b|
  {
    length == match QuotedLength(b[i..], quote) case None => None case Some(m) => Some(n + m)
  }

  /** A byte that closes no quote, or an escaped pair, is passed over. */
  lemma QuotedSkips(b: seq<byte>, i: nat, quote: byte, n: nat, length: Option<nat>)
    requires i < |b| && ((b[i] == BACKSLASH && i + 1 < |b|) || b[i] != quote) && Further(b, i, quote, n, length)
    ensures var k := if b[i] == BACKSLASH && i + 1 < |b| then 2 else 1;
            Further(b, i + k, quote, n + k, length)
  {
    SliceOfSlice(b, i, if b[i] == BACKSLASH && i + 1 < |b| then 2 else 1);
  }

  lemma SliceOfSlice(b: seq<byte>, i: nat, k: nat)
    requires i + k <= |b|
    ensures b[i..][k..] == b[i + k..]
  {}

  lemma TokensNext(b: seq<byte>, i: nat, j: nat)
    requires i <= j <= |b| && j == i + Trivia(b[i..])
    ensures (j < |b| ==> !IsSpace(b[j]) && b[j] != HASH) && Tokens(b[i..]) == Started(b[j..])
  {
    assert b[i..][Trivia(b[i..])..] == b[j..];
  }

  lemma StartedGot(b: seq<byte>, i: nat, t: Token, n: nat)
    requires i < |b| && !IsSpace(b[i]) && b[i] != HASH && Next(b[i..]) == Got(t, n)
    ensures i + n <= |b| && Started(b[i..]) == Onto([t], Tokens(b[i + n..]))
  {
    SliceOfSlice(b, i, n);
  }

  lemma OntoNothing(rest: Option<seq<Token>>)
    ensures Onto([], rest) == rest
  {
    if rest.Some? { assert [] + rest.value == rest.value; }
  }

  lemma OntoNext(ts: seq<Token>, t: Token, rest: Option<seq<Token>>)
    ensures Onto(ts, Onto([t], rest)) == Onto(ts + [t], rest)
  {
    if rest.Some? { assert ts + ([t] + rest.value) == ts + [t] + rest.value; }
  }

  lemma {:induction false} NothingToResolve(s: seq<byte>)
    requires BACKSLASH !in s
    ensures Unescaped(s) == s
    decreases |s|
  {
    if s != [] {
      NothingToResolve(s[1..]);
      assert [s[0]] + s[1..] == s;
    }
  }

  method Unescape(raw: seq<byte>) returns (s: seq<byte>)
    ensures s == Unescaped(raw)
  {
    if BACKSLASH !in raw {
      NothingToResolve(raw);
      return raw;
    }
    s := [];
    var i := 0;
    while i < |raw|
      invariant 0 <= i <= |raw| && s + Unescaped(raw[i..]) == Unescaped(raw)
    {
      ghost var (rest, before) := (raw[i..], s);
      if raw[i] == BACKSLASH && i + 1 < |raw| && Resolved(raw[i + 1]).Some? {
        assert rest[2..] == raw[i + 2..];
        s := s + [Resolved(raw[i + 1]).value];
        i := i + 2;
      } else {
        assert rest[1..] == raw[i + 1..];
        s := s + [raw[i]];
        i := i + 1;
      }
      assert forall more: seq<byte> :: s + more == before + ([s[|s| - 1]] + more);
    }
    assert raw[i..] == [];
  }
}
