/** Exactly which trees come back from what `dump` writes. `dump` never quotes a name, and quotes an argument
    only for white space, `;`, `{` or `}`; so a quote, a backslash or a `#` in the wrong place is lost. */
module ConfigExact {
  import opened Wrappers
  import opened Bits
  import opened ConfigLexer
  import opened ConfigAst
  import opened ConfigWords

  // ---- Tokens that the parser does not tell apart ----

  predicate Alike(t: Token, u: Token) { if t.Word? && u.Word? then t.text == u.text else t == u }

  ghost predicate Begins(ts: seq<Token>, h: seq<Token>) { |h| <= |ts| && forall i | 0 <= i < |h| :: Alike(ts[i], h[i]) }

  ghost predicate Consumes(ts: seq<Token>, h: seq<Token>, rest: seq<Token>) { Begins(ts, h) && rest == ts[|h|..] }

  lemma ConsumesBoth(ts: seq<Token>, a: seq<Token>, more: seq<Token>, b: seq<Token>, rest: seq<Token>)
    requires Consumes(ts, a, more) && Consumes(more, b, rest)
    ensures Consumes(ts, a + b, rest)
  {
    forall i | 0 <= i < |a + b| ensures Alike(ts[i], (a + b)[i]) {
      if i >= |a| { assert Alike(more[i - |a|], b[i - |a|]); }
    }
  }

  // ---- What the parser has consumed when it gives a tree, where includes are not to be had ----

  function NoFiles(d: Directive): Option<seq<Directive>> { None }

  lemma {:induction false} WordsConsume(ts: seq<Token>)
    ensures Consumes(ts, WordTokens(Words(ts).0), Words(ts).1)
  {
    if ts != [] && ts[0].Word? {
      var (words, rest) := Words(ts[1..]);
      WordsConsume(ts[1..]);
      assert Consumes(ts, [Word(ts[0].text, NeedsQuotes(ts[0].text))], ts[1..]);
      ConsumesBoth(ts, [Word(ts[0].text, NeedsQuotes(ts[0].text))], ts[1..], WordTokens(words), rest);
    }
  }

  lemma {:induction false} DirectiveConsumes(ts: seq<Token>, d: Directive, rest: seq<Token>)
    requires ts != [] && ts[0].Word? && ParseDirective(ts, NoFiles) == Some((d, rest))
    ensures Consumes(ts, DirectiveTokens(d), rest)
    decreases |ts|, 0
  {
    var (args, more) := Words(ts[1..]);
    var head := [Word(d.name, false)];
    WordsConsume(ts[1..]);
    assert Consumes(ts, head, ts[1..]);
    ConsumesBoth(ts, head, ts[1..], WordTokens(args), more);
    if d.Simple? {
      assert Consumes(more, [Semi], rest);
      ConsumesBoth(ts, head + WordTokens(args), more, [Semi], rest);
    } else {
      BlockConsumes(more[1..], false, d.block, rest);
      assert Consumes(more, [Open], more[1..]);
      ConsumesBoth(more, [Open], more[1..], BlockTokens(d.block) + [Close], rest);
      ConsumesBoth(ts, head + WordTokens(args), more, [Open] + (BlockTokens(d.block) + [Close]), rest);
      TokensAssoc([Open], BlockTokens(d.block), [Close]);
    }
  }

  function Closing(top: bool): seq<Token> { if top then [] else [Close] }

  lemma {:induction false} BlockConsumes(ts: seq<Token>, top: bool, ds: seq<Directive>, rest: seq<Token>)
    requires ParseBlock(ts, top, NoFiles) == Some((ds, rest))
    ensures Consumes(ts, BlockTokens(ds) + Closing(top), rest)
    decreases |ts|, 1
  {
    if ts != [] && ts[0].Word? {
      var (d, after) := ParseDirective(ts, NoFiles).value;
      var (more, last) := ParseBlock(after, top, NoFiles).value;
      DirectiveConsumes(ts, d, after);
      BlockConsumes(after, top, more, rest);
      ConsumesBoth(ts, DirectiveTokens(d), after, BlockTokens(more) + Closing(top), rest);
      assert ds == [d] + more && ds[1..] == more;
      TokensAssoc(DirectiveTokens(d), BlockTokens(more), Closing(top));
    }
  }

  // ---- Whole trees ----

  /** A word that begins neither white space nor a comment. */
  predicate Spellable(w: seq<byte>) { w != [] && !IsSpace(w[0]) && w[0] != HASH }

  /** A text is read as tokens that begin like these. */
  ghost predicate ReadAs(text: seq<byte>, h: seq<Token>) { Tokens(text).Some? && Begins(Tokens(text).value, h) }

  /** Tokens that are certain can be left out of account. */
  lemma Peel(text: seq<byte>, a: seq<Token>, rest: seq<byte>, b: seq<Token>)
    requires ReadAs(text, a + b) && Tokens(text) == Onto(a, Tokens(rest))
    ensures ReadAs(rest, b)
  {
    var (ts, more) := (Tokens(text).value, Tokens(rest).value);
    forall i | 0 <= i < |b| ensures Alike(more[i], b[i]) {
      assert Alike(ts[|a| + i], (a + b)[|a| + i]);
    }
  }

  lemma WordRead(w: seq<byte>, tail: seq<byte>, b: seq<Token>, quoted: bool)
    requires Spellable(w) && tail != [] && IsDelim(tail[0]) && ReadAs(w + tail, [Word(w, quoted)] + b)
    ensures Kept(w) && ReadAs(tail, b)
  {
    var s := w + tail;
    assert s[0] == w[0] && s[0..] == s;
    KeptExactly(w, tail);
    FirstRead(s, w, quoted, b);
    LexesKept(w, tail);
    SameWord(s, w, quoted, b);
    Peel(s, [Word(w, false)], tail, b);
  }

  lemma FirstRead(s: seq<byte>, w: seq<byte>, quoted: bool, b: seq<Token>)
    requires s != [] && !IsSpace(s[0]) && s[0] != HASH && ReadAs(s, [Word(w, quoted)] + b)
    ensures Next(s).Got? && Next(s).token.Word? && Next(s).token.text == w
  {
    assert s[0..] == s && Tokens(s) == Started(s);
    assert Alike(Tokens(s).value[0], ([Word(w, quoted)] + b)[0]);
  }

  lemma SameWord(s: seq<byte>, w: seq<byte>, quoted: bool, b: seq<Token>)
    requires ReadAs(s, [Word(w, quoted)] + b)
    ensures ReadAs(s, [Word(w, false)] + b)
  {
    var ts := Tokens(s).value;
    forall i | 0 <= i < 1 + |b| ensures Alike(ts[i], ([Word(w, false)] + b)[i]) {
      assert Alike(ts[i], ([Word(w, quoted)] + b)[i]);
    }
  }

  ghost predicate ArgsSpellable(args: seq<seq<byte>>) {
    forall i | 0 <= i < |args| :: NeedsQuotes(args[i]) || args[i][0] != HASH
  }

  /** No name, and no argument that `dump` does not quote, is empty or begins white space or a comment. */
  ghost predicate NamesSpellable(d: Directive)
    decreases d, 1
  {
    Spellable(d.name) && ArgsSpellable(d.args) && (d.Nested? ==> AllSpellable(d.block))
  }

  ghost predicate AllSpellable(ds: seq<Directive>)
    decreases ds, 2
  {
    ds == [] || (NamesSpellable(ds[0]) && AllSpellable(ds[1..]))
  }

  lemma UnquotedIsSpellable(a: seq<byte>)
    requires !NeedsQuotes(a) && a[0] != HASH
    ensures Spellable(a)
  {
    assert !WhiteAt(a, 0);
  }

  lemma {:induction false} ArgsRead(args: seq<seq<byte>>, rest: seq<byte>, b: seq<Token>)
    requires ArgsSpellable(args) && rest != [] && IsDelim(rest[0]) && ReadAs(ArgsText(args) + rest, WordTokens(args) + b)
    ensures AllWritten(args) && ReadAs(rest, b)
    decreases |args|
  {
    if args == [] {
      assert ArgsText(args) + rest == rest && WordTokens(args) + b == b;
    } else {
      var (a, more) := (args[0], ArgsText(args[1..]) + rest);
      var after := WordTokens(args[1..]) + b;
      ArgsStart(args[1..], rest);
      BytesAssoc([SPACE] + ArgText(a), ArgsText(args[1..]), rest);
      BytesAssoc([SPACE], ArgText(a), more);
      SkipsSpaces([SPACE], ArgText(a) + more);
      TokensAssoc([Word(a, NeedsQuotes(a))], WordTokens(args[1..]), b);
      if NeedsQuotes(a) {
        LexesArg(a, more);
        Peel(ArgText(a) + more, [Word(a, true)], more, after);
      } else {
        UnquotedIsSpellable(a);
        WordRead(a, more, after, false);
      }
      ArgsRead(args[1..], rest, b);
    }
  }

  /** The head of a directive, up to what ends it. */
  lemma HeadRead(d: Directive, indent: nat, rest: seq<byte>, b: seq<Token>)
    requires NamesSpellable(d) && rest != [] && IsDelim(rest[0])
    requires ReadAs(Indent(indent) + d.name + ArgsText(d.args) + rest, [Word(d.name, false)] + (WordTokens(d.args) + b))
    ensures Kept(d.name) && AllWritten(d.args) && ReadAs(rest, b)
  {
    var more := ArgsText(d.args) + rest;
    ArgsStart(d.args, rest);
    HeadText(Indent(indent), d.name, ArgsText(d.args), rest);
    LexesIndented(indent, d.name + more);
    WordRead(d.name, more, WordTokens(d.args) + b, false);
    ArgsRead(d.args, rest, b);
  }

  lemma HeadTokens(d: Directive, closing: seq<Token>, b: seq<Token>)
    requires DirectiveTokens(d) == [Word(d.name, false)] + WordTokens(d.args) + closing
    ensures DirectiveTokens(d) + b == [Word(d.name, false)] + (WordTokens(d.args) + (closing + b))
  {}

  lemma SimpleRead(d: Directive, indent: nat, rest: seq<byte>, b: seq<Token>)
    requires d.Simple? && NamesSpellable(d) && ReadAs(DirectiveText(d, indent) + rest, DirectiveTokens(d) + b)
    ensures Printable(d)
  {
    SimpleText(d, indent, rest);
    HeadTokens(d, [Semi], b);
    HeadRead(d, indent, [SEMI] + ([LF] + rest), [Semi] + b);
  }

  lemma OpenTokens(block: seq<Token>, b: seq<Token>)
    ensures [Open] + block + [Close] + b == [Open] + (block + ([Close] + b))
  {}

  /** Behind the head of a directive with a block stands what is in the block. */
  lemma NestedRead(d: Directive, indent: nat, rest: seq<byte>, b: seq<Token>, inner: seq<byte>, after: seq<Token>)
    requires d.Nested? && NamesSpellable(d) && ReadAs(DirectiveText(d, indent) + rest, DirectiveTokens(d) + b)
    requires inner == Dumped(d.block, indent + 1) + (Indent(indent) + ([CLOSE] + ([LF] + rest)))
    requires after == BlockTokens(d.block) + ([Close] + b)
    ensures Kept(d.name) && AllWritten(d.args) && ReadAs(inner, after)
  {
    var begin := [SPACE] + ([OPEN] + ([LF] + inner));
    NestedText(d, indent, rest, begin);
    HeadTokens(d, [Open] + BlockTokens(d.block) + [Close], b);
    OpenTokens(BlockTokens(d.block), b);
    HeadRead(d, indent, begin, [Open] + after);
    LexesOpen(inner);
    Peel(begin, [Open], inner, after);
  }

  lemma {:induction false} DirectiveRead(d: Directive, indent: nat, rest: seq<byte>, b: seq<Token>)
    requires NamesSpellable(d) && ReadAs(DirectiveText(d, indent) + rest, DirectiveTokens(d) + b)
    ensures Printable(d)
    decreases d, 1
  {
    if d.Simple? {
      SimpleRead(d, indent, rest, b);
    } else {
      var close := Indent(indent) + ([CLOSE] + ([LF] + rest));
      NestedRead(d, indent, rest, b, Dumped(d.block, indent + 1) + close, BlockTokens(d.block) + ([Close] + b));
      BlockRead(d.block, indent + 1, close, [Close] + b);
    }
  }

  lemma {:induction false} BlockRead(ds: seq<Directive>, indent: nat, rest: seq<byte>, b: seq<Token>)
    requires AllSpellable(ds) && ReadAs(Dumped(ds, indent) + rest, BlockTokens(ds) + b)
    ensures AllPrintable(ds)
    decreases ds, 2
  {
    if ds != [] {
      var more := Dumped(ds[1..], indent) + rest;
      var after := BlockTokens(ds[1..]) + b;
      BytesAssoc(DirectiveText(ds[0], indent), Dumped(ds[1..], indent), rest);
      TokensAssoc(DirectiveTokens(ds[0]), BlockTokens(ds[1..]), b);
      DirectiveRead(ds[0], indent, more, after);
      if ds[0].Simple? { LexesSimple(ds[0], indent, more); } else { LexesNested(ds[0], indent, more); }
      Peel(DirectiveText(ds[0], indent) + more, DirectiveTokens(ds[0]), more, after);
      BlockRead(ds[1..], indent, rest, b);
    }
  }

  // ---- Exactly when ----

  /** The tree in a text, where includes are not to be had. */
  function Reparsed(text: seq<byte>): Option<seq<Directive>> {
    match Tokens(text)
    case None => None
    case Some(ts) => match ParseBlock(ts, true, NoFiles) case None => None case Some((ds, _)) => Some(ds)
  }

  /** A tree without block-less includes comes back from what is printed of it exactly when each of its names
      and unquoted arguments does on its own. */
  lemma DumpExactly(ds: seq<Directive>, indent: nat)
    requires NoIncludes(ds) && AllSpellable(ds)
    ensures Reparsed(Dumped(ds, indent)) == Some(ds) <==> AllPrintable(ds)
  {
    if AllPrintable(ds) { PlainRoundTrip(ds, indent, NoFiles); }
    if Reparsed(Dumped(ds, indent)) == Some(ds) {
      var ts := Tokens(Dumped(ds, indent)).value;
      BlockConsumes(ts, true, ds, ParseBlock(ts, true, NoFiles).value.1);
      assert BlockTokens(ds) + Closing(true) == BlockTokens(ds) + [];
      assert Dumped(ds, indent) + [] == Dumped(ds, indent);
      BlockRead(ds, indent, [], []);
    }
  }

  /** A directive `x` with the argument 'a', ticks included, is printed as it is and read back without them. */
  const TICKED: Directive := Simple([0x78], [[TICK, 0x61, TICK]])

  lemma TicksAreLost(indent: nat)
    ensures NoIncludes([TICKED]) && AllSpellable([TICKED]) && !AllPrintable([TICKED])
    ensures Reparsed(Dumped([TICKED], indent)) != Some([TICKED])
  {
    var d := TICKED;
    assert [d][0] == d && [d][1..] == [] && d.name == [0x78] && d.name != INCLUDE && !IsInclude(d);
    assert forall i | 0 <= i < 3 :: !WhiteAt(d.args[0], i);
    assert !NeedsQuotes(d.args[0]) && !Kept(d.args[0]);
    assert NoIncludes([d][1..]) && AllSpellable([d][1..]) && NamesSpellable(d);
    DumpExactly([TICKED], indent);
  }
}
