/** QPACK decoding for any peer that keeps to the static table: whichever of the representations of RFC 9204 it
    chooses for each line, the decoder lists what it meant. */
module QpackPeer {
  import opened Wrappers
  import opened Bits
  import opened HpackInt
  import opened HpackString
  import opened Hpack
  import opened Qpack
  import Utf8

  /** A string, Huffman-coded or not. */
  datatype Text = Text(s: seq<byte>, huffman: bool)

  /** A field line (section 4.5 of RFC 9204): an entry of the static table, or a value behind an entry's name or
      a name of its own; `never` says that it must not be indexed further on. */
  datatype Line = Indexed(i: nat) | Named(i: nat, value: Text, never: bool) | Literal(name: Text, value: Text, never: bool)

  ghost predicate TextOk(t: Text) { Utf8.Valid(t.s) && |t.s| < TOO_FAR && (t.huffman ==> |t.s| <= LIMIT && |Packed(t.s)| < TOO_FAR) }

  ghost predicate LineOk(st: seq<Header>, line: Line) {
    match line
    case Indexed(i) => i < |st|
    case Named(i, value, _) => i < |st| && TextOk(value)
    case Literal(name, value, _) => TextOk(name) && TextOk(value)
  }

  function Field(st: seq<Header>, line: Line): Header
    requires LineOk(st, line)
  {
    match line
    case Indexed(i) => st[i]
    case Named(i, value, _) => Header(st[i].name, value.s)
    case Literal(name, value, _) => Header(name.s, value.s)
  }

  function TextBytes(t: Text, prefix: nat, flags: nat): (r: seq<byte>)
    requires FlagsFit(prefix, flags) && FlagsFit(prefix, flags + Pow2(prefix))
    ensures r != []
  {
    if t.huffman then Written(|Packed(t.s)|, prefix, flags + Pow2(prefix)) + Packed(t.s) else Written(|t.s|, prefix, flags) + t.s
  }

  lemma Kinds()
    ensures FlagsFit(6, 0xC0) && FlagsFit(4, 0x50) && FlagsFit(4, 0x70) && FlagsFit(8, 0)
    ensures FlagsFit(3, 0x20) && FlagsFit(3, 0x20 + Pow2(3)) && FlagsFit(3, 0x30) && FlagsFit(3, 0x30 + Pow2(3))
    ensures FlagsFit(7, 0) && FlagsFit(7, 0x80) && FlagsFit(7, 0 + Pow2(7)) && Pow2(6) == 64 && Pow2(4) == 16 && Pow2(3) == 8 && Pow2(7) == 0x80
    ensures ClearBelow(6, 0xC0) && ClearBelow(4, 0x50) && ClearBelow(4, 0x70) && ClearBelow(8, 0) && ClearBelow(7, 0) && ClearBelow(7, 0x80)
    ensures FlagsEnd(3, 0x20, false) && FlagsEnd(3, 0x30, false) && FlagsEnd(7, 0, false)
  {
    Pow2Values();
    assert Clear(0xC0, 64) && Clear(0x50, 16) && Clear(0x70, 16) && Clear(0, 256) && Clear(0, 128) && Clear(0x80, 128);
    assert EndsWith(0x20, 8, false) && EndsWith(0x30, 8, false) && EndsWith(0, 0x80, false);
  }

  function LineText(st: seq<Header>, line: Line): seq<byte>
    requires LineOk(st, line)
  {
    Kinds();
    match line
    case Indexed(i) => Written(i, 6, 0xC0)
    case Named(i, value, never) => Written(i, 4, if never then 0x70 else 0x50) + TextBytes(value, 7, 0)
    case Literal(name, value, never) => TextBytes(name, 3, if never then 0x30 else 0x20) + TextBytes(value, 7, 0)
  }

  // ---- Reading it ----

  lemma TextReads(t: Text, prefix: nat, flags: nat, rest: seq<byte>)
    requires TextOk(t) && 1 <= prefix <= 7 && FlagsFit(prefix, flags) && FlagsFit(prefix, flags + Pow2(prefix)) && FlagsEnd(prefix, flags, false)
    ensures StringAt(TextBytes(t, prefix, flags) + rest, prefix, LIMIT) == Some((t.s, rest))
  {
    if t.huffman {
      UnpackedIs(t.s, LIMIT);
      FlagAbove(prefix, flags);
      PackedReads(t.s, Packed(t.s), prefix, flags + Pow2(prefix), rest);
    } else {
      RawRoundTrip(t.s, prefix, flags, rest, false, LIMIT);
    }
  }

  lemma PackedReads(s: seq<byte>, packed: seq<byte>, prefix: nat, flags: nat, rest: seq<byte>)
    requires Utf8.Valid(s) && |packed| < TOO_FAR && Unpacked(packed, true, LIMIT) == Some(s)
    requires 1 <= prefix <= 7 && FlagsFit(prefix, flags) && FlagsEnd(prefix, flags, true)
    ensures StringAt(Written(|packed|, prefix, flags) + packed + rest, prefix, LIMIT) == Some((s, rest))
  {
    RawRoundTrip(packed, prefix, flags, rest, true, LIMIT);
  }

  lemma NameStarts(t: Text, flags: nat)
    requires FlagsFit(3, flags) && FlagsFit(3, flags + Pow2(3)) && Pow2(3) == 8
    ensures flags <= TextBytes(t, 3, flags)[0] < flags + 16
  {}

  lemma NamedReads(st: seq<Header>, i: nat, value: Text, flags: nat, rest: seq<byte>)
    requires SmallTable(st) && i < |st| && TextOk(value) && (flags == 0x50 || flags == 0x70) && FlagsFit(4, flags) && FlagsFit(7, 0) && FlagsFit(7, 0 + Pow2(7))
    ensures LineAt(st, Written(i, 4, flags) + TextBytes(value, 7, 0) + rest) == Some((Header(st[i].name, value.s), rest))
  {
    Kinds();
    TextReads(value, 7, 0, rest);
    Qpack.IndexReads(i, 4, flags, TextBytes(value, 7, 0) + rest);
    HpackString.Joined(Written(i, 4, flags), TextBytes(value, 7, 0), rest);
  }

  lemma LiteralReads(st: seq<Header>, name: Text, value: Text, flags: nat, rest: seq<byte>)
    requires TextOk(name) && TextOk(value) && (flags == 0x20 || flags == 0x30) && FlagsFit(3, flags) && FlagsFit(3, flags + Pow2(3))
    requires FlagsFit(7, 0) && FlagsFit(7, 0 + Pow2(7)) && FlagsEnd(3, flags, false)
    ensures LineAt(st, TextBytes(name, 3, flags) + TextBytes(value, 7, 0) + rest) == Some((Header(name.s, value.s), rest))
  {
    Kinds();
    var more := TextBytes(value, 7, 0) + rest;
    TextReads(value, 7, 0, rest);
    TextReads(name, 3, flags, more);
    NameStarts(name, flags);
    HpackString.Joined(TextBytes(name, 3, flags), TextBytes(value, 7, 0), rest);
    assert (TextBytes(name, 3, flags) + more)[0] == TextBytes(name, 3, flags)[0];
  }

  /** Every line that a peer may write is read as the field that it means. */
  lemma LineReads(st: seq<Header>, line: Line, rest: seq<byte>)
    requires SmallTable(st) && LineOk(st, line)
    ensures LineText(st, line) != [] && LineAt(st, LineText(st, line) + rest) == Some((Field(st, line), rest))
  {
    Kinds();
    match line
    case Indexed(i) => FullReads(st, i, rest);
    case Named(i, value, never) => NamedReads(st, i, value, if never then 0x70 else 0x50, rest);
    case Literal(name, value, never) => LiteralReads(st, name, value, if never then 0x30 else 0x20, rest);
  }

  // ---- Whole sections ----

  ghost predicate AllOk(st: seq<Header>, lines: seq<Line>) { forall k | 0 <= k < |lines| :: LineOk(st, lines[k]) }

  function TextsOf(st: seq<Header>, lines: seq<Line>): seq<seq<byte>>
    requires AllOk(st, lines)
  {
    seq(|lines|, k requires 0 <= k < |lines| => LineText(st, lines[k]))
  }

  function FieldsOf(st: seq<Header>, lines: seq<Line>): seq<Header>
    requires AllOk(st, lines)
  {
    seq(|lines|, k requires 0 <= k < |lines| => Field(st, lines[k]))
  }

  /** No dynamic table is needed; the base may be anything. */
  function PrefixText(base: nat, negative: bool): seq<byte> {
    Kinds();
    [0x00] + Written(base, 7, if negative then 0x80 else 0)
  }

  /** Whatever representations a peer chooses, the section is read as the list that it means, or refused exactly when
      that is over the limit. */
  lemma PeerIsUnderstood(st: seq<Header>, lines: seq<Line>, base: nat, negative: bool, maxSection: nat)
    requires SmallTable(st) && AllOk(st, lines) && base < TOO_FAR
    ensures var hs := FieldsOf(st, lines);
            Section(st, PrefixText(base, negative) + Flat(TextsOf(st, lines)), maxSection) == if Cost(hs) <= maxSection then Ok(hs) else Err(Excessive)
  {
    var (texts, hs) := (TextsOf(st, lines), FieldsOf(st, lines));
    forall k | 0 <= k < |hs| ensures Qpack.Spells(st, texts[k], hs[k]) {
      forall rest { LineReads(st, lines[k], rest); }
      LineReads(st, lines[k], []);
    }
    PrefixReads(base, negative, Flat(texts));
    LinesRoundTrip(st, texts, hs, maxSection, [], Lines(st, Flat(texts), maxSection, []));
    assert [] + hs == hs;
  }

  lemma PrefixReads(base: nat, negative: bool, lines: seq<byte>)
    requires base < TOO_FAR
    ensures AfterPrefix(PrefixText(base, negative) + lines) == Some(lines)
  {
    Kinds();
    var more := Written(base, 7, if negative then 0x80 else 0);
    ReadWritten(0, 8, 0, more + lines);
    ReadWritten(base, 7, if negative then 0x80 else 0, lines);
    MaskBound(7);
    assert Pow2(8) == 256 by { Pow2Values(); }
    assert Written(0, 8, 0) == [0x00];
    assert PrefixText(base, negative) + lines == [0x00] + (more + lines);
  }

  // ---- What needs the table that is not there ----

  /** An indexed line or a name that refers to a dynamic table, also behind the base, is refused; and so is a section
      that needs entries of one. */
  lemma DynamicIsRefused(st: seq<Header>, buf: seq<byte>, maxSection: nat, out: seq<Header>)
    requires buf != [] && (0x80 <= buf[0] < 0xC0 || 0x40 <= buf[0] < 0x50 || 0x60 <= buf[0] < 0x70 || buf[0] < 0x20)
    ensures Lines(st, buf, maxSection, out) == Err(Decompression)
  {
    NoStaticBit(buf[0]);
    assert LineAt(st, buf) == None;
  }

  lemma NoStaticBit(b: nat)
    ensures 0x80 <= b < 0xC0 ==> b % 0x80 < 0x40
    ensures 0x40 <= b < 0x50 || 0x60 <= b < 0x70 ==> b / 0x10 % 2 == 0
  {}

  lemma NeedsNoEntries(st: seq<Header>, count: nat, rest: seq<byte>, maxSection: nat)
    requires 0 < count < TOO_FAR && FlagsFit(8, 0)
    ensures Section(st, Written(count, 8, 0) + rest, maxSection) == Err(Decompression)
  {
    Kinds();
    ReadWritten(count, 8, 0, rest);
  }
}
