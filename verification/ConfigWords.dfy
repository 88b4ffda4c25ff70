/** Which words are read back as they are written, without quotes. */
module ConfigWords {
  import opened Wrappers
  import opened Bits
  import opened ConfigLexer

  /** A word that is read back as it is written: the scan takes all of it and no more, and nothing in it is
      resolved. A delimiter may be in it where a backslash hides it. */
  predicate Kept(w: seq<byte>) {
    && w != [] && !IsDelim(w[0]) && w[0] != QUOTE && w[0] != TICK && w[0] != HASH
    && BareLength(w + [SPACE]) == |w| && Unescaped(w) == w
  }

  lemma BareIsKept(w: seq<byte>)
    requires Bare(w)
    ensures Kept(w)
  {
    BareEnds(w, [SPACE]);
    DataOnlyStays(w);
  }

  /** Which delimiter stands behind a word does not matter. */
  lemma {:induction false} BareTail(w: seq<byte>, rest: seq<byte>)
    requires BareLength(w + [SPACE]) == |w| && (rest != [] ==> IsDelim(rest[0]))
    ensures BareLength(w + rest) == |w|
    decreases |w|
  {
    if w == [] {
      assert w + rest == rest;
    } else if w[0] == BACKSLASH && |w| > 1 {
      assert (w + [SPACE])[2..] == w[2..] + [SPACE] && (w + rest)[2..] == w[2..] + rest;
      BareTail(w[2..], rest);
    } else {
      assert (w + [SPACE])[1..] == w[1..] + [SPACE] && (w + rest)[1..] == w[1..] + rest;
      assert BareLength(w + [SPACE]) == 1 + BareLength(w[1..] + [SPACE]);
      BareTail(w[1..], rest);
    }
  }

  lemma KeptLexeme(w: seq<byte>, rest: seq<byte>)
    requires Kept(w) && (rest != [] ==> IsDelim(rest[0]))
    ensures !IsSpace((w + rest)[0]) && Next(w + rest) == Got(Word(w, false), |w|)
  {
    BareTail(w, rest);
    assert (w + rest)[..|w|] == w;
  }

  /** The scan of a whole word has the same length behind any delimiter. */
  lemma {:induction false} TailBare(w: seq<byte>, rest: seq<byte>)
    requires rest != [] && IsDelim(rest[0]) && BareLength(w + rest) == |w|
    ensures BareLength(w + [SPACE]) == |w|
    decreases |w|
  {
    if w == [] {
      assert w + [SPACE] == [SPACE];
    } else if w[0] == BACKSLASH && |w| > 1 {
      assert (w + [SPACE])[2..] == w[2..] + [SPACE] && (w + rest)[2..] == w[2..] + rest;
      TailBare(w[2..], rest);
    } else {
      assert (w + [SPACE])[1..] == w[1..] + [SPACE] && (w + rest)[1..] == w[1..] + rest;
      assert BareLength(w + rest) == 1 + BareLength(w[1..] + rest);
      TailBare(w[1..], rest);
    }
  }

  /** No such quote but behind a backslash. */
  predicate Unclosed(s: seq<byte>, quote: byte)
    decreases |s|
  {
    s == [] || (if s[0] == BACKSLASH && |s| > 1 then Unclosed(s[2..], quote) else s[0] != quote && Unclosed(s[1..], quote))
  }

  lemma {:induction false} QuotedIsUnclosed(s: seq<byte>, quote: byte)
    requires QuotedLength(s, quote).Some?
    ensures Unclosed(s[..QuotedLength(s, quote).value], quote)
    decreases |s|
  {
    var n := QuotedLength(s, quote).value;
    if s[0] == BACKSLASH && |s| > 1 {
      QuotedIsUnclosed(s[2..], quote);
      assert s[..n][2..] == s[2..][..n - 2];
    } else if s[0] != quote {
      QuotedIsUnclosed(s[1..], quote);
      assert s[..n][1..] == s[1..][..n - 1];
    }
  }

  predicate IsMark(c: byte, quote: byte) { c == BACKSLASH || c == quote }

  /** Once the resolved text lags behind what is read, all of it is escapes of escapes; there are never enough
      of them to spell the word, since a delimiter stands behind it. */
  lemma {:induction false} Lags(w: seq<byte>, tail: seq<byte>, i: nat, j: nat, e: nat, quote: byte)
    requires tail != [] && IsDelim(tail[0]) && i < j <= |w| && j <= e <= |w + tail| && (quote == QUOTE || quote == TICK || quote == BACKSLASH)
    requires forall k | i <= k < j :: IsMark(w[k], quote)
    requires quote == BACKSLASH || Unclosed((w + tail)[j..e], quote)
    ensures Unescaped((w + tail)[j..e]) != w[i..]
    decreases |w| - j
  {
    var s := (w + tail)[j..e];
    assert (w + tail)[|w|] == tail[0];
    if j < e && j < |w| && w[j] == BACKSLASH && j + 1 < e && Resolved(s[1]).Some? {
      assert s[0] == w[j] && s[1] == (w + tail)[j + 1];
      if Resolved(s[1]).value == w[i] {
        assert w[j + 1] == s[1] == w[i];
        assert s[2..] == (w + tail)[j + 2..e];
        Lags(w, tail, i + 1, j + 2, e, quote);
        assert w[i..][1..] == w[i + 1..];
      }
    } else if j < e {
      LagsPlainly(w, tail, i, j, e, quote, s);
    }
  }

  /** Where no escape is resolved, what is read is not what the word has at the lagging place. */
  lemma LagsPlainly(w: seq<byte>, tail: seq<byte>, i: nat, j: nat, e: nat, quote: byte, s: seq<byte>)
    requires tail != [] && IsDelim(tail[0]) && i < j <= |w| && j < e <= |w + tail| && (quote == QUOTE || quote == TICK || quote == BACKSLASH)
    requires s == (w + tail)[j..e] && forall k | i <= k < j :: IsMark(w[k], quote)
    requires quote == BACKSLASH || Unclosed(s, quote)
    requires !(j < |w| && w[j] == BACKSLASH && j + 1 < e && Resolved(s[1]).Some?)
    ensures Unescaped(s) != w[i..]
  {
    assert s[0] == (w + tail)[j];
    if j == |w| {
      assert s[0] == tail[0] && Unescaped(s)[0] == s[0];
    } else if w[j] == BACKSLASH {
      assert Unescaped(s) == [BACKSLASH] + Unescaped(s[1..]);
      if j + 1 < e {
        assert Unescaped(s[1..]) == [s[1]] + Unescaped(s[2..]);
        assert i + 1 < |w| && IsMark(w[i + 1], quote);
        assert Unescaped(s)[1] == s[1] && w[i..][1] == w[i + 1];
      } else {
        assert s[1..] == [] && |Unescaped(s)| == 1 && |w[i..]| > 1;
      }
    } else {
      assert Unescaped(s)[0] == w[j];
    }
  }

  /** A scan that begins with the word and goes beyond it does not give the word. */
  lemma {:induction false} GoesBeyond(w: seq<byte>, tail: seq<byte>, i: nat, e: nat)
    requires tail != [] && IsDelim(tail[0]) && i <= |w| < e <= |w + tail|
    ensures Unescaped((w + tail)[i..e]) != w[i..]
    decreases |w| - i
  {
    var s := (w + tail)[i..e];
    assert (w + tail)[|w|] == tail[0];
    if i < |w| {
      assert s[0] == w[i] && s[1] == (w + tail)[i + 1];
      if w[i] == BACKSLASH && Resolved(s[1]).Some? {
        if Resolved(s[1]).value == BACKSLASH {
          assert s[2..] == (w + tail)[i + 2..e] && w[i..][1..] == w[i + 1..];
          Lags(w, tail, i + 1, i + 2, e, BACKSLASH);
        }
      } else {
        assert s[1..] == (w + tail)[i + 1..e] && w[i..][1..] == w[i + 1..];
        GoesBeyond(w, tail, i + 1, e);
      }
    }
  }

  /** A word that begins with a quote is never read back. */
  lemma QuoteIsLost(w: seq<byte>, tail: seq<byte>)
    requires w != [] && (w[0] == QUOTE || w[0] == TICK) && tail != [] && IsDelim(tail[0])
    ensures Next(w + tail).Got? ==> Next(w + tail).token.Word? && Next(w + tail).token.text != w
  {
    var s := w + tail;
    assert s[0] == w[0];
    if QuotedLength(s[1..], s[0]).Some? {
      var n := QuotedLength(s[1..], s[0]).value;
      QuotedIsUnclosed(s[1..], s[0]);
      assert s[1..][..n] == s[1..n + 1];
      Lags(w, tail, 0, 1, n + 1, w[0]);
      assert w[0..] == w;
    }
  }

  /** Whatever stands behind its delimiter, a word is read back exactly when it is one that is kept. */
  lemma KeptExactly(w: seq<byte>, tail: seq<byte>)
    requires w != [] && !IsSpace(w[0]) && w[0] != HASH && tail != [] && IsDelim(tail[0])
    ensures !IsSpace((w + tail)[0]) && (w + tail)[0] != HASH
    ensures Next(w + tail).Got? && Next(w + tail).token.Word? && Next(w + tail).token.text == w <==> Kept(w)
  {
    var s := w + tail;
    assert s[0] == w[0];
    if Kept(w) {
      KeptLexeme(w, tail);
    } else if w[0] == QUOTE || w[0] == TICK {
      QuoteIsLost(w, tail);
    } else if !IsDelim(w[0]) {
      var n := BareLength(s);
      UnescapedLength(s[..n]);
      if n == |w| {
        TailBare(w, tail);
        assert s[..n] == w;
      } else if n > |w| {
        GoesBeyond(w, tail, 0, n);
        assert s[0..n] == s[..n] && w[0..] == w;
      }
    }
  }
}
