/** The directive tree: how it is parsed and how it is printed. */
module ConfigAst {
  import opened Wrappers
  import opened Bits
  import opened ConfigLexer
  import opened ConfigWords

  datatype Directive =
    | Simple(name: seq<byte>, args: seq<seq<byte>>)
    | Nested(name: seq<byte>, args: seq<seq<byte>>, block: seq<Directive>)

  const INCLUDE: seq<byte> := [0x69, 0x6E, 0x63, 0x6C, 0x75, 0x64, 0x65]

  predicate IsInclude(d: Directive) { d.Simple? && d.name == INCLUDE }

  // ---- Parsing ----

  /** What an include is replaced by, if its files can be read and parsed. */
  type Includes = Directive -> Option<seq<Directive>>

  /** The words at the front, and what follows them. */
  function Words(ts: seq<Token>): (r: (seq<seq<byte>>, seq<Token>))
    ensures |r.1| <= |ts| && (r.1 != [] ==> !r.1[0].Word?)
  {
    if ts == [] || !ts[0].Word? then ([], ts)
    else var (words, rest) := Words(ts[1..]); ([ts[0].text] + words, rest)
  }

  /** One directive and what follows it. */
  function ParseDirective(ts: seq<Token>, inc: Includes): (r: Option<(Directive, seq<Token>)>)
    requires ts != [] && ts[0].Word?
    ensures r.Some? ==> |r.value.1| < |ts|
    decreases |ts|, 0
  {
    var (args, rest) := Words(ts[1..]);
    if rest == [] then None
    else match rest[0]
      case Semi => Some((Simple(ts[0].text, args), rest[1..]))
      case Open =>
        (match ParseBlock(rest[1..], false, inc)
         case None => None
         case Some((block, after)) => Some((Nested(ts[0].text, args, block), after)))
      case _ => None
  }

  function Expanded(d: Directive, inc: Includes): Option<seq<Directive>> {
    if IsInclude(d) then inc(d) else Some([d])
  }

  /** The directives up to the closing brace, or to the end at the top level. */
  function ParseBlock(ts: seq<Token>, top: bool, inc: Includes): (r: Option<(seq<Directive>, seq<Token>)>)
    ensures r.Some? ==> |r.value.1| <= |ts|
    decreases |ts|, 1
  {
    if ts == [] then if top then Some(([], ts)) else None
    else match ts[0]
      case Close => if top then None else Some(([], ts[1..]))
      case Word(_, _) =>
        (match ParseDirective(ts, inc)
         case None => None
         case Some((d, rest)) =>
           match Expanded(d, inc)
           case None => None
           case Some(ds) =>
             match ParseBlock(rest, top, inc) case None => None case Some((more, after)) => Some((ds + more, after)))
      case _ => None
  }

  // ---- Printing ----

  const INDENT: seq<byte> := [SPACE, SPACE, SPACE, SPACE]

  function Indent(n: nat): seq<byte> { if n == 0 then [] else INDENT + Indent(n - 1) }

  /** `char::is_whitespace` at this byte of UTF-8 text. */
  predicate WhiteAt(s: seq<byte>, i: nat)
    requires i < |s|
  {
    || 0x09 <= s[i] <= 0x0D || s[i] == SPACE
    || (i + 1 < |s| && s[i] == 0xC2 && s[i + 1] in {0x85, 0xA0})
    || (i + 2 < |s| && s[i] == 0xE1 && s[i + 1] == 0x9A && s[i + 2] == 0x80)
    || (i + 2 < |s| && s[i] == 0xE2 && s[i + 1] == 0x80 && (0x80 <= s[i + 2] <= 0x8A || s[i + 2] in {0xA8, 0xA9, 0xAF}))
    || (i + 2 < |s| && s[i] == 0xE2 && s[i + 1] == 0x81 && s[i + 2] == 0x9F)
    || (i + 2 < |s| && s[i] == 0xE3 && s[i + 1] == 0x80 && s[i + 2] == 0x80)
  }

  predicate NeedsQuotes(a: seq<byte>) {
    a == [] || exists i | 0 <= i < |a| :: WhiteAt(a, i) || a[i] == SEMI || a[i] == OPEN || a[i] == CLOSE
  }

  function ArgText(a: seq<byte>): seq<byte> {
    if NeedsQuotes(a) then [QUOTE] + Escaped(a) + [QUOTE] else a
  }

  function ArgsText(args: seq<seq<byte>>): seq<byte> {
    if args == [] then [] else [SPACE] + ArgText(args[0]) + ArgsText(args[1..])
  }

  function DirectiveText(d: Directive, indent: nat): seq<byte>
    decreases d, 1
  {
    Indent(indent) + d.name + ArgsText(d.args) +
    match d
    case Nested(_, _, block) => [SPACE, OPEN, LF] + Dumped(block, indent + 1) + Indent(indent) + [CLOSE, LF]
    case Simple(_, _) => [SEMI, LF]
  }

  function Dumped(ds: seq<Directive>, indent: nat): seq<byte>
    decreases ds, 2
  {
    if ds == [] then [] else DirectiveText(ds[0], indent) + Dumped(ds[1..], indent)
  }

  // ---- Trees as tokens ----

  function WordTokens(args: seq<seq<byte>>): seq<Token> {
    if args == [] then [] else [Word(args[0], NeedsQuotes(args[0]))] + WordTokens(args[1..])
  }

  function DirectiveTokens(d: Directive): (r: seq<Token>)
    ensures r != [] && r[0].Word?
    decreases d, 1
  {
    [Word(d.name, false)] + WordTokens(d.args) +
    match d
    case Nested(_, _, block) => [Open] + BlockTokens(block) + [Close]
    case Simple(_, _) => [Semi]
  }

  function BlockTokens(ds: seq<Directive>): seq<Token>
    decreases ds, 2
  {
    if ds == [] then [] else DirectiveTokens(ds[0]) + BlockTokens(ds[1..])
  }

  /** No block-less include anywhere: those are replaced when parsed. */
  ghost predicate NoInclude(d: Directive)
    decreases d, 1
  {
    !IsInclude(d) && (d.Nested? ==> NoIncludes(d.block))
  }

  ghost predicate NoIncludes(ds: seq<Directive>)
    decreases ds, 2
  {
    ds == [] || (NoInclude(ds[0]) && NoIncludes(ds[1..]))
  }

  /** The tree with what its includes are replaced by in place, if all of those are to be had. */
  function Spliced(d: Directive, inc: Includes): Option<seq<Directive>>
    decreases d, 1
  {
    if IsInclude(d) then inc(d)
    else if d.Simple? then Some([d])
    else match SplicedAll(d.block, inc) case None => None case Some(inner) => Some([d.(block := inner)])
  }

  function SplicedAll(ds: seq<Directive>, inc: Includes): Option<seq<Directive>>
    decreases ds, 2
  {
    if ds == [] then Some([])
    else match Spliced(ds[0], inc)
      case None => None
      case Some(front) => match SplicedAll(ds[1..], inc) case None => None case Some(more) => Some(front + more)
  }

  lemma {:induction false} NothingSpliced(ds: seq<Directive>, inc: Includes)
    requires NoIncludes(ds)
    ensures SplicedAll(ds, inc) == Some(ds)
    decreases ds, 2
  {
    if ds != [] {
      if ds[0].Nested? { NothingSpliced(ds[0].block, inc); }
      NothingSpliced(ds[1..], inc);
      assert [ds[0]] + ds[1..] == ds;
    }
  }

  lemma {:induction false} WordsOf(args: seq<seq<byte>>, rest: seq<Token>)
    requires rest != [] && !rest[0].Word?
    ensures Words(WordTokens(args) + rest) == (args, rest)
    decreases |args|
  {
    if args == [] {
      assert WordTokens(args) + rest == rest;
    } else {
      WordsOf(args[1..], rest);
      OneWord(args[0], NeedsQuotes(args[0]), WordTokens(args[1..]), rest, args[1..]);
      assert [args[0]] + args[1..] == args;
    }
  }

  lemma OneWord(a: seq<byte>, quoted: bool, more: seq<Token>, rest: seq<Token>, words: seq<seq<byte>>)
    requires Words(more + rest) == (words, rest)
    ensures Words([Word(a, quoted)] + more + rest) == ([a] + words, rest)
  {
    assert ([Word(a, quoted)] + more + rest)[1..] == more + rest;
  }

  function Then(ds: seq<Directive>, r: Option<(seq<Directive>, seq<Token>)>): Option<(seq<Directive>, seq<Token>)> {
    match r case None => None case Some((more, after)) => Some((ds + more, after))
  }

  lemma TokensAssoc(a: seq<Token>, b: seq<Token>, c: seq<Token>)
    ensures a + b + c == a + (b + c)
  {}

  lemma SimpleIs(name: seq<byte>, args: seq<seq<byte>>, rest: seq<Token>, inc: Includes)
    ensures ParseDirective([Word(name, false)] + (WordTokens(args) + ([Semi] + rest)), inc) == Some((Simple(name, args), rest))
  {
    var tail := [Semi] + rest;
    var ts := [Word(name, false)] + (WordTokens(args) + tail);
    WordsOf(args, tail);
    assert ts[1..] == WordTokens(args) + tail && tail[1..] == rest;
  }

  function AsNested(name: seq<byte>, args: seq<seq<byte>>, r: Option<(seq<Directive>, seq<Token>)>): Option<(Directive, seq<Token>)> {
    if r.None? then None else Some((Nested(name, args, r.value.0), r.value.1))
  }

  lemma NestedIs(name: seq<byte>, args: seq<seq<byte>>, inner: seq<Token>, inc: Includes, r: Option<(seq<Directive>, seq<Token>)>)
    requires ParseBlock(inner, false, inc) == r
    ensures ParseDirective([Word(name, false)] + (WordTokens(args) + ([Open] + inner)), inc) ==
            AsNested(name, args, r)
  {
    var tail := [Open] + inner;
    var ts := [Word(name, false)] + (WordTokens(args) + tail);
    WordsOf(args, tail);
    assert ts[1..] == WordTokens(args) + tail && tail[1..] == inner;
  }

  lemma ParsesSimple(d: Directive, rest: seq<Token>, inc: Includes)
    requires d.Simple?
    ensures ParseDirective(DirectiveTokens(d) + rest, inc) == Some((d, rest))
  {
    SimpleIs(d.name, d.args, rest, inc);
    assert DirectiveTokens(d) + rest == [Word(d.name, false)] + (WordTokens(d.args) + ([Semi] + rest));
  }

  lemma NestedShape(d: Directive, rest: seq<Token>)
    requires d.Nested?
    ensures DirectiveTokens(d) + rest ==
            [Word(d.name, false)] + (WordTokens(d.args) + ([Open] + (BlockTokens(d.block) + ([Close] + rest))))
  {}

  lemma ParsesNested(d: Directive, rest: seq<Token>, inc: Includes, r: Option<(seq<Directive>, seq<Token>)>)
    requires d.Nested? && ParseBlock(BlockTokens(d.block) + ([Close] + rest), false, inc) == r
    ensures ParseDirective(DirectiveTokens(d) + rest, inc) ==
            AsNested(d.name, d.args, r)
  {
    var inner := BlockTokens(d.block) + ([Close] + rest);
    NestedIs(d.name, d.args, inner, inc, r);
    NestedShape(d, rest);
  }

  lemma ClosedBlock(ds: seq<Directive>, rest: seq<Token>, inc: Includes)
    ensures Then(ds, ParseBlock([Close] + rest, false, inc)) == Some((ds, rest))
  {
    assert ([Close] + rest)[1..] == rest && ds + [] == ds;
  }

  function Before(front: Option<seq<Directive>>, r: Option<(seq<Directive>, seq<Token>)>): Option<(seq<Directive>, seq<Token>)> {
    match front case None => None case Some(ds) => Then(ds, r)
  }

  /** A directive at the front of a block, with its includes spliced, and then what follows it. */
  lemma {:induction false} ParsesFront(d: Directive, more: seq<Token>, top: bool, inc: Includes)
    ensures ParseBlock(DirectiveTokens(d) + more, top, inc) == Before(Spliced(d, inc), ParseBlock(more, top, inc))
    decreases d, 1
  {
    if d.Simple? {
      ParsesSimple(d, more, inc);
    } else {
      var spliced := SplicedAll(d.block, inc);
      ParsesBlock(d.block, [Close] + more, false, inc);
      if spliced.Some? { ClosedBlock(spliced.value, more, inc); }
      ParsesNested(d, more, inc, ParseBlock(BlockTokens(d.block) + ([Close] + more), false, inc));
    }
  }

  /** A printed block parses as its directives, those included in their places, and then as what follows. */
  lemma {:induction false} ParsesBlock(ds: seq<Directive>, rest: seq<Token>, top: bool, inc: Includes)
    ensures ParseBlock(BlockTokens(ds) + rest, top, inc) == Before(SplicedAll(ds, inc), ParseBlock(rest, top, inc))
    decreases ds, 2
  {
    if ds == [] {
      assert BlockTokens(ds) + rest == rest;
      ThenNothing(ParseBlock(rest, top, inc));
    } else {
      var more := BlockTokens(ds[1..]) + rest;
      ParsesFront(ds[0], more, top, inc);
      ParsesBlock(ds[1..], rest, top, inc);
      TokensAssoc(DirectiveTokens(ds[0]), BlockTokens(ds[1..]), rest);
      BeforeBoth(Spliced(ds[0], inc), SplicedAll(ds[1..], inc), ParseBlock(rest, top, inc));
    }
  }

  lemma BeforeBoth(a: Option<seq<Directive>>, b: Option<seq<Directive>>, r: Option<(seq<Directive>, seq<Token>)>)
    ensures Before(a, Before(b, r)) == if a.Some? && b.Some? then Then(a.value + b.value, r) else None
  {
    if a.Some? && b.Some? && r.Some? { assert a.value + (b.value + r.value.0) == a.value + b.value + r.value.0; }
  }

  lemma ThenNothing(r: Option<(seq<Directive>, seq<Token>)>)
    ensures Then([], r) == r
  {
    if r.Some? { assert [] + r.value.0 == r.value.0; }
  }

  // ---- Trees as text ----

  ghost predicate AllWritten(args: seq<seq<byte>>) { forall i | 0 <= i < |args| :: NeedsQuotes(args[i]) || Kept(args[i]) }

  /** What `dump` writes without quotes must be read back as it is. */
  ghost predicate Printable(d: Directive)
    decreases d, 1
  {
    && Kept(d.name)
    && AllWritten(d.args)
    && (d.Nested? ==> AllPrintable(d.block))
  }

  ghost predicate AllPrintable(ds: seq<Directive>)
    decreases ds, 2
  {
    ds == [] || (Printable(ds[0]) && AllPrintable(ds[1..]))
  }

  lemma {:induction false} SkipsSpaces(white: seq<byte>, rest: seq<byte>)
    requires forall i | 0 <= i < |white| :: IsSpace(white[i])
    ensures Tokens(white + rest) == Tokens(rest)
    decreases |white|
  {
    if white == [] {
      assert white + rest == rest;
    } else {
      var s := white + rest;
      assert s[1..] == white[1..] + rest;
      SkipsSpaces(white[1..], rest);
      assert s[Trivia(s)..] == s[1..][Trivia(s[1..])..];
    }
  }

  lemma LexesKept(w: seq<byte>, rest: seq<byte>)
    requires Kept(w) && (rest != [] ==> IsDelim(rest[0]))
    ensures Tokens(w + rest) == Onto([Word(w, false)], Tokens(rest))
  {
    KeptLexeme(w, rest);
    LexesFront(w, Word(w, false), rest);
  }

  lemma LexesFront(text: seq<byte>, t: Token, rest: seq<byte>)
    requires text != [] && !IsSpace(text[0]) && text[0] != HASH && Next(text + rest) == Got(t, |text|)
    ensures Tokens(text + rest) == Onto([t], Tokens(rest))
  {
    var s := text + rest;
    assert s[0] == text[0] && s[0..] == s && s[|text|..] == rest;
  }

  lemma LexesArg(a: seq<byte>, rest: seq<byte>)
    requires (NeedsQuotes(a) || Kept(a)) && (rest != [] ==> IsDelim(rest[0]))
    ensures Tokens(ArgText(a) + rest) == Onto([Word(a, NeedsQuotes(a))], Tokens(rest))
  {
    if NeedsQuotes(a) {
      QuotedLexeme(a, rest);
      LexesFront([QUOTE] + Escaped(a) + [QUOTE], Word(a, true), rest);
    } else {
      LexesKept(a, rest);
    }
  }

  lemma LexesPunct(c: byte, t: Token, rest: seq<byte>)
    requires (c == SEMI && t == Semi) || (c == OPEN && t == Open) || (c == CLOSE && t == Close)
    ensures Tokens([c] + rest) == Onto([t], Tokens(rest))
  {
    LexesFront([c], t, rest);
  }

  lemma OntoTwice(a: seq<Token>, b: seq<Token>, rest: Option<seq<Token>>)
    ensures Onto(a, Onto(b, rest)) == Onto(a + b, rest)
  {
    if rest.Some? { TokensAssoc(a, b, rest.value); }
  }

  lemma BytesAssoc(a: seq<byte>, b: seq<byte>, c: seq<byte>)
    ensures a + b + c == a + (b + c)
  {}

  lemma LexesSpaced(a: seq<byte>, more: seq<byte>)
    requires (NeedsQuotes(a) || Kept(a)) && (more != [] ==> IsDelim(more[0]))
    ensures Tokens([SPACE] + ArgText(a) + more) == Onto([Word(a, NeedsQuotes(a))], Tokens(more))
  {
    LexesArg(a, more);
    SkipsSpaces([SPACE], ArgText(a) + more);
    BytesAssoc([SPACE], ArgText(a), more);
  }

  lemma ArgsStart(args: seq<seq<byte>>, rest: seq<byte>)
    requires rest != [] && IsDelim(rest[0])
    ensures ArgsText(args) + rest != [] && IsDelim((ArgsText(args) + rest)[0])
  {}

  lemma {:induction false} LexesArgs(args: seq<seq<byte>>, rest: seq<byte>)
    requires AllWritten(args) && rest != [] && IsDelim(rest[0])
    ensures Tokens(ArgsText(args) + rest) == Onto(WordTokens(args), Tokens(rest))
    decreases |args|
  {
    if args == [] {
      assert ArgsText(args) + rest == rest;
      OntoNothing(Tokens(rest));
    } else {
      var more := ArgsText(args[1..]) + rest;
      LexesArgs(args[1..], rest);
      ArgsStart(args[1..], rest);
      LexesSpaced(args[0], more);
      BytesAssoc([SPACE] + ArgText(args[0]), ArgsText(args[1..]), rest);
      OntoTwice([Word(args[0], NeedsQuotes(args[0]))], WordTokens(args[1..]), Tokens(rest));
    }
  }

  lemma {:induction false} IndentIsSpaces(n: nat)
    ensures forall i | 0 <= i < |Indent(n)| :: IsSpace(Indent(n)[i])
  {
    if n > 0 { IndentIsSpaces(n - 1); }
  }

  /** The beginning of a directive, up to what ends it. */
  lemma LexesHead(d: Directive, indent: nat, rest: seq<byte>)
    requires Printable(d) && rest != [] && IsDelim(rest[0])
    ensures Tokens(Indent(indent) + d.name + ArgsText(d.args) + rest) == Onto([Word(d.name, false)] + WordTokens(d.args), Tokens(rest))
  {
    var more := ArgsText(d.args) + rest;
    ArgsStart(d.args, rest);
    LexesArgs(d.args, rest);
    LexesKept(d.name, more);
    LexesIndented(indent, d.name + more);
    OntoTwice([Word(d.name, false)], WordTokens(d.args), Tokens(rest));
    HeadText(Indent(indent), d.name, ArgsText(d.args), rest);
  }

  lemma HeadText(a: seq<byte>, b: seq<byte>, c: seq<byte>, d: seq<byte>)
    ensures a + b + c + d == a + (b + (c + d))
  {}

  lemma LexesIndented(indent: nat, rest: seq<byte>)
    ensures Tokens(Indent(indent) + rest) == Tokens(rest)
  {
    IndentIsSpaces(indent);
    SkipsSpaces(Indent(indent), rest);
  }

  lemma LexesSemi(rest: seq<byte>)
    ensures Tokens([SEMI] + ([LF] + rest)) == Onto([Semi], Tokens(rest))
  {
    SkipsSpaces([LF], rest);
    LexesPunct(SEMI, Semi, [LF] + rest);
  }

  lemma SimpleText(d: Directive, indent: nat, rest: seq<byte>)
    requires d.Simple?
    ensures DirectiveText(d, indent) + rest == Indent(indent) + d.name + ArgsText(d.args) + ([SEMI] + ([LF] + rest))
  {}

  lemma LexesSimple(d: Directive, indent: nat, rest: seq<byte>)
    requires Printable(d) && d.Simple?
    ensures Tokens(DirectiveText(d, indent) + rest) == Onto(DirectiveTokens(d), Tokens(rest))
  {
    LexesSemi(rest);
    LexesHead(d, indent, [SEMI] + ([LF] + rest));
    OntoTwice([Word(d.name, false)] + WordTokens(d.args), [Semi], Tokens(rest));
    SimpleText(d, indent, rest);
  }

  lemma LexesOpen(inner: seq<byte>)
    ensures Tokens([SPACE] + ([OPEN] + ([LF] + inner))) == Onto([Open], Tokens(inner))
  {
    SkipsSpaces([LF], inner);
    LexesPunct(OPEN, Open, [LF] + inner);
    SkipsSpaces([SPACE], [OPEN] + ([LF] + inner));
  }

  lemma LexesClose(indent: nat, rest: seq<byte>)
    ensures Tokens(Indent(indent) + ([CLOSE] + ([LF] + rest))) == Onto([Close], Tokens(rest))
  {
    SkipsSpaces([LF], rest);
    LexesPunct(CLOSE, Close, [LF] + rest);
    LexesIndented(indent, [CLOSE] + ([LF] + rest));
  }

  lemma {:induction false} LexesNested(d: Directive, indent: nat, rest: seq<byte>)
    requires Printable(d) && d.Nested?
    ensures Tokens(DirectiveText(d, indent) + rest) == Onto(DirectiveTokens(d), Tokens(rest))
    decreases d, 1
  {
    var close := Indent(indent) + ([CLOSE] + ([LF] + rest));
    var inner := Dumped(d.block, indent + 1) + close;
    var begin := [SPACE] + ([OPEN] + ([LF] + inner));
    LexesClose(indent, rest);
    LexesBlock(d.block, indent + 1, close);
    LexesOpen(inner);
    LexesHead(d, indent, begin);
    OntoTwice(BlockTokens(d.block), [Close], Tokens(rest));
    OntoTwice([Open], BlockTokens(d.block) + [Close], Tokens(rest));
    NestedTokens(d, rest);
    NestedText(d, indent, rest, begin);
  }

  lemma NestedTokens(d: Directive, rest: seq<byte>)
    requires d.Nested?
    ensures Onto([Word(d.name, false)] + WordTokens(d.args), Onto([Open] + (BlockTokens(d.block) + [Close]), Tokens(rest))) ==
            Onto(DirectiveTokens(d), Tokens(rest))
  {
    var head := [Word(d.name, false)] + WordTokens(d.args);
    OntoTwice(head, [Open] + (BlockTokens(d.block) + [Close]), Tokens(rest));
    TokensAssoc([Open], BlockTokens(d.block), [Close]);
    assert DirectiveTokens(d) == head + ([Open] + BlockTokens(d.block) + [Close]);
  }

  lemma NestedText(d: Directive, indent: nat, rest: seq<byte>, begin: seq<byte>)
    requires d.Nested?
    requires begin == [SPACE] + ([OPEN] + ([LF] + (Dumped(d.block, indent + 1) + (Indent(indent) + ([CLOSE] + ([LF] + rest))))))
    ensures DirectiveText(d, indent) + rest == Indent(indent) + d.name + ArgsText(d.args) + begin
  {
    var inner := Dumped(d.block, indent + 1);
    assert [SPACE, OPEN, LF] + inner + Indent(indent) + [CLOSE, LF] + rest == begin;
    BytesAssoc(Indent(indent) + d.name + ArgsText(d.args), [SPACE, OPEN, LF] + inner + Indent(indent) + [CLOSE, LF], rest);
  }

  lemma {:induction false} LexesBlock(ds: seq<Directive>, indent: nat, rest: seq<byte>)
    requires AllPrintable(ds)
    ensures Tokens(Dumped(ds, indent) + rest) == Onto(BlockTokens(ds), Tokens(rest))
    decreases ds, 2
  {
    if ds == [] {
      assert Dumped(ds, indent) + rest == rest;
      OntoNothing(Tokens(rest));
    } else {
      var more := Dumped(ds[1..], indent) + rest;
      LexesBlock(ds[1..], indent, rest);
      if ds[0].Simple? { LexesSimple(ds[0], indent, more); } else { LexesNested(ds[0], indent, more); }
      BytesAssoc(DirectiveText(ds[0], indent), Dumped(ds[1..], indent), rest);
      OntoTwice(DirectiveTokens(ds[0]), BlockTokens(ds[1..]), Tokens(rest));
    }
  }

  /** Printing, tokenizing and parsing give a tree back, with what each of its includes is replaced by in the
      include's place; they fail only where an include does. */
  lemma DumpRoundTrip(ds: seq<Directive>, indent: nat, inc: Includes)
    requires AllPrintable(ds)
    ensures Tokens(Dumped(ds, indent)) == Some(BlockTokens(ds))
    ensures ParseBlock(BlockTokens(ds), true, inc) == match SplicedAll(ds, inc) case None => None case Some(spliced) => Some((spliced, []))
  {
    LexesBlock(ds, indent, []);
    assert Dumped(ds, indent) + [] == Dumped(ds, indent) && BlockTokens(ds) + [] == BlockTokens(ds);
    assert Tokens([]) == Some([]);
    ParsesBlock(ds, [], true, inc);
    if SplicedAll(ds, inc).Some? { assert SplicedAll(ds, inc).value + [] == SplicedAll(ds, inc).value; }
  }

  /** So a tree without block-less includes comes back as it is, whatever the files hold. */
  lemma PlainRoundTrip(ds: seq<Directive>, indent: nat, inc: Includes)
    requires AllPrintable(ds) && NoIncludes(ds)
    ensures Tokens(Dumped(ds, indent)) == Some(BlockTokens(ds)) && ParseBlock(BlockTokens(ds), true, inc) == Some((ds, []))
  {
    DumpRoundTrip(ds, indent, inc);
    NothingSpliced(ds, inc);
  }

  // ---- The parser and the printer ----

  class Parser {
    const t: seq<Token>
    const inc: Includes
    var i: nat

    constructor (t: seq<Token>, inc: Includes)
      ensures this.t == t && this.inc == inc && i == 0
    {
      this.t := t;
      this.inc := inc;
      i := 0;
    }

    /** Directives until `}`, or until the end at the top level. */
    method Block(top: bool) returns (out: Option<seq<Directive>>)
      requires i <= |t|
      modifies this
      ensures old(i) <= i <= |t|
      ensures ParseBlock(t[old(i)..], top, inc) == match out case None => None case Some(ds) => Some((ds, t[i..]))
      decreases |t| - i, 1
    {
      var ds: seq<Directive> := [];
      ghost var all := ParseBlock(t[i..], top, inc);
      ThenNothing(all);
      while i < |t|
        invariant old(i) <= i <= |t| && Then(ds, ParseBlock(t[i..], top, inc)) == all
        decreases |t| - i
      {
        ghost var rest := t[i..];
        match t[i] {
          case Close =>
            if top { return None; }
            i := i + 1;
            assert rest[1..] == t[i..] && ds + [] == ds;
            return Some(ds);
          case Semi => return None;
          case Open => return None;
          case Word(_, _) =>
        }
        var d := OneDirective();
        if d.None? { return None; }
        var spliced := if IsInclude(d.value) then inc(d.value) else Some([d.value]);
        if spliced.None? { return None; }
        ThenTwice(ds, spliced.value, ParseBlock(t[i..], top, inc));
        ds := ds + spliced.value;
      }
      assert t[i..] == [] && ds + [] == ds;
      return if top then Some(ds) else None;
    }

    method OneDirective() returns (d: Option<Directive>)
      requires i < |t| && t[i].Word?
      modifies this
      ensures old(i) <= i <= |t| && (d.Some? ==> old(i) < i)
      ensures ParseDirective(t[old(i)..], inc) == match d case None => None case Some(d) => Some((d, t[i..]))
      decreases |t| - i, 0
    {
      var name := t[i].text;
      ghost var start := i;
      i := i + 1;
      assert t[start..][1..] == t[i..];
      var args := TakeWords();
      if i >= |t| { return None; }
      assert t[i..][1..] == t[i + 1..];
      match t[i] {
        case Semi =>
          i := i + 1;
          return Some(Simple(name, args));
        case Open =>
          i := i + 1;
          var block := Block(false);
          return match block case None => None case Some(b) => Some(Nested(name, args, b));
        case _ => return None;
      }
    }

    method TakeWords() returns (args: seq<seq<byte>>)
      requires i <= |t|
      modifies this
      ensures old(i) <= i <= |t| && Words(t[old(i)..]) == (args, t[i..])
    {
      args := [];
      assert [] + Words(t[i..]).0 == Words(t[i..]).0;
      while i < |t| && t[i].Word?
        invariant old(i) <= i <= |t|
        invariant Words(t[old(i)..]) == (args + Words(t[i..]).0, Words(t[i..]).1)
        decreases |t| - i
      {
        assert t[i..][1..] == t[i + 1..];
        assert args + ([t[i].text] + Words(t[i + 1..]).0) == args + [t[i].text] + Words(t[i + 1..]).0;
        args := args + [t[i].text];
        i := i + 1;
      }
      assert args + [] == args;
    }
  }

  lemma ThenTwice(a: seq<Directive>, b: seq<Directive>, r: Option<(seq<Directive>, seq<Token>)>)
    ensures Then(a, Then(b, r)) == Then(a + b, r)
  {
    if r.Some? { assert a + (b + r.value.0) == a + b + r.value.0; }
  }

  method Dump(ds: seq<Directive>, indent: nat, out: seq<byte>) returns (out': seq<byte>)
    ensures out' == out + Dumped(ds, indent)
    decreases ds, 2
  {
    out' := out;
    for k := 0 to |ds|
      invariant out' + Dumped(ds[k..], indent) == out + Dumped(ds, indent)
    {
      ghost var before := out';
      out' := DumpOne(ds[k], indent, out');
      assert ds[k..][1..] == ds[k + 1..];
      BytesAssoc(before, DirectiveText(ds[k], indent), Dumped(ds[k + 1..], indent));
    }
    assert ds[|ds|..] == [] && out' + [] == out';
  }

  method DumpOne(d: Directive, indent: nat, out: seq<byte>) returns (out': seq<byte>)
    ensures out' == out + DirectiveText(d, indent)
    decreases d, 1
  {
    ghost var head := Indent(indent) + d.name + ArgsText(d.args);
    out' := DumpHead(d, indent, out);
    match d {
      case Nested(_, _, block) =>
        out' := out' + [SPACE, OPEN, LF];
        out' := Dump(block, indent + 1, out');
        out' := DumpIndent(indent, out');
        out' := out' + [CLOSE, LF];
        BlockJoined(out + head, [SPACE, OPEN, LF], Dumped(block, indent + 1), Indent(indent), [CLOSE, LF]);
        BytesAssoc(out, head, [SPACE, OPEN, LF] + Dumped(block, indent + 1) + Indent(indent) + [CLOSE, LF]);
      case Simple(_, _) =>
        out' := out' + [SEMI, LF];
        BytesAssoc(out, head, [SEMI, LF]);
    }
  }

  lemma BlockJoined(a: seq<byte>, b: seq<byte>, c: seq<byte>, d: seq<byte>, e: seq<byte>)
    ensures a + b + c + d + e == a + (b + c + d + e)
  {}

  method DumpHead(d: Directive, indent: nat, out: seq<byte>) returns (out': seq<byte>)
    ensures out' == out + (Indent(indent) + d.name + ArgsText(d.args))
  {
    out' := DumpIndent(indent, out);
    out' := out' + d.name;
    out' := DumpArgs(d.args, out');
    BytesAssoc(out, Indent(indent), d.name);
    BytesAssoc(out, Indent(indent) + d.name, ArgsText(d.args));
  }

  method DumpIndent(n: nat, out: seq<byte>) returns (out': seq<byte>)
    ensures out' == out + Indent(n)
  {
    out' := out;
    for k := 0 to n
      invariant out' + Indent(n - k) == out + Indent(n)
    {
      BytesAssoc(out', INDENT, Indent(n - k - 1));
      out' := out' + INDENT;
    }
    assert out' + [] == out';
  }

  method DumpArgs(args: seq<seq<byte>>, out: seq<byte>) returns (out': seq<byte>)
    ensures out' == out + ArgsText(args)
  {
    out' := out;
    for k := 0 to |args|
      invariant out' + ArgsText(args[k..]) == out + ArgsText(args)
    {
      ghost var before := out';
      out' := DumpArg(args[k], out');
      assert args[k..][1..] == args[k + 1..];
      BytesAssoc(before, [SPACE] + ArgText(args[k]), ArgsText(args[k + 1..]));
    }
    assert args[|args|..] == [] && out' + [] == out';
  }

  method DumpArg(a: seq<byte>, out: seq<byte>) returns (out': seq<byte>)
    ensures out' == out + ([SPACE] + ArgText(a))
  {
    out' := out + [SPACE];
    if NeedsQuotes(a) {
      out' := out' + [QUOTE];
      out' := out' + Escaped(a);
      out' := out' + [QUOTE];
    } else {
      out' := out' + a;
    }
  }
}
