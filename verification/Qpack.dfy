/** QPACK field sections without a dynamic table (RFC 9204), over any static table. */
module Qpack {
  import opened Wrappers
  import opened Bits
  import opened HpackInt
  import opened HpackString
  import opened Hpack
  import Utf8

  const LIMIT: nat := 32768

  datatype Fault = Decompression | Excessive

  // ---- Decoding ----

  function StaticAt(st: seq<Header>, i: nat): Option<Header> { if i < |st| then Some(st[i]) else None }

  /** An indexed field line; bit 6 must say that the table is the static one. */
  ghost function IndexedAt(st: seq<Header>, buf: seq<byte>): (r: Option<(Header, seq<byte>)>)
    requires buf != []
    ensures r.Some? ==> |r.value.1| < |buf|
  {
    if buf[0] % 0x80 < 0x40 then None
    else match Read(buf, 6)
      case None => None
      case Some((i, rest)) => match StaticAt(st, i) case None => None case Some(h) => Some((h, rest))
  }

  ghost function ValueAt(name: seq<byte>, buf: seq<byte>): (r: Option<(Header, seq<byte>)>)
    ensures r.Some? ==> |r.value.1| < |buf|
  {
    match StringAt(buf, 7, LIMIT) case None => None case Some((value, rest)) => Some((Header(name, value), rest))
  }

  /** A literal with a name reference; bit 4 must say that the table is the static one. */
  ghost function NamedAt(st: seq<Header>, buf: seq<byte>): (r: Option<(Header, seq<byte>)>)
    requires buf != []
    ensures r.Some? ==> |r.value.1| < |buf|
  {
    if buf[0] / 0x10 % 2 == 0 then None
    else match Read(buf, 4)
      case None => None
      case Some((i, rest)) => match StaticAt(st, i) case None => None case Some(h) => ValueAt(h.name, rest)
  }

  ghost function LiteralAt(buf: seq<byte>): (r: Option<(Header, seq<byte>)>)
    ensures r.Some? ==> |r.value.1| < |buf|
  {
    match StringAt(buf, 3, LIMIT) case None => None case Some((name, rest)) => ValueAt(name, rest)
  }

  /** The field line at the front; every reference to a dynamic table is refused. */
  ghost function LineAt(st: seq<Header>, buf: seq<byte>): (r: Option<(Header, seq<byte>)>)
    requires buf != []
    ensures r.Some? ==> |r.value.1| < |buf|
  {
    if buf[0] >= 0x80 then IndexedAt(st, buf)
    else if buf[0] >= 0x40 then NamedAt(st, buf)
    else if buf[0] >= 0x20 then LiteralAt(buf)
    else None
  }

  ghost function Lines(st: seq<Header>, buf: seq<byte>, maxSection: nat, out: seq<Header>): Result<seq<Header>, Fault>
    decreases |buf|
  {
    if buf == [] then Ok(out)
    else match LineAt(st, buf)
      case None => Err(Decompression)
      case Some((h, rest)) =>
        if Cost(out + [h]) > maxSection then Err(Excessive) else Lines(st, rest, maxSection, out + [h])
  }

  /** The prefix: the Required Insert Count must be zero, and the Delta Base is not looked at. */
  function AfterPrefix(buf: seq<byte>): Option<seq<byte>> {
    match Read(buf, 8)
    case None => None
    case Some((count, rest)) =>
      if count != 0 then None
      else match Read(rest, 7) case None => None case Some((_, lines)) => Some(lines)
  }

  ghost function Section(st: seq<Header>, buf: seq<byte>, maxSection: nat): Result<seq<Header>, Fault> {
    match AfterPrefix(buf) case None => Err(Decompression) case Some(lines) => Lines(st, lines, maxSection, [])
  }

  // ---- Encoding ----

  lemma Flags()
    ensures FlagsFit(6, 0xC0) && FlagsFit(4, 0x50) && FlagsFit(3, 0x20) && FlagsFit(3, 0x20 + Pow2(3)) && FlagsFit(7, 0) && FlagsFit(7, Pow2(7))
    ensures Pow2(6) == 64 && Pow2(4) == 16 && Pow2(3) == 8
  {
    Pow2Values();
  }

  function NameBytes(st: seq<Header>, name: seq<byte>): seq<byte> {
    Flags();
    match FirstName(st, name, 0)
    case Some(i) => Written(i, 4, 0x50)
    case None => StringBytes(name, 3, 0x20)
  }

  function LineBytes(st: seq<Header>, h: Header): seq<byte> {
    Flags();
    match FirstFull(st, h, 0)
    case Some(i) => Written(i, 6, 0xC0)
    case None => NameBytes(st, h.name) + StringBytes(h.value, 7, 0x00)
  }

  function LinesOf(st: seq<Header>, hs: seq<Header>): seq<seq<byte>> {
    seq(|hs|, i requires 0 <= i < |hs| => LineBytes(st, hs[i]))
  }

  function SectionBytes(st: seq<Header>, hs: seq<Header>): seq<byte> { [0x00, 0x00] + Flat(LinesOf(st, hs)) }

  /** A section is its prefix and then line after line, as they are encoded. */
  lemma SectionAppends(st: seq<Header>, hs: seq<Header>, h: Header)
    ensures SectionBytes(st, hs + [h]) == SectionBytes(st, hs) + LineBytes(st, h)
  {
    assert LinesOf(st, hs + [h]) == LinesOf(st, hs) + [LineBytes(st, h)];
    FlatAppend(LinesOf(st, hs), LineBytes(st, h));
    HpackString.Joined([0x00, 0x00], Flat(LinesOf(st, hs)), LineBytes(st, h));
  }

  ghost predicate Codable(h: Header) {
    Utf8.Valid(h.name) && Utf8.Valid(h.value) && Readable(h.name, LIMIT) && Readable(h.value, LIMIT)
  }

  ghost predicate AllCodable(hs: seq<Header>) { forall h | h in hs :: Codable(h) }

  // ---- Decoding undoes encoding ----

  lemma FlagsAreClear()
    ensures ClearBelow(6, 0xC0) && ClearBelow(4, 0x50) && FlagsEnd(3, 0x20, false) && FlagsEnd(7, 0x00, false)
    ensures ClearBelow(8, 0) && ClearBelow(7, 0)
  {
    Pow2Values();
    assert Clear(0xC0, 64) && Clear(0x50, 16) && EndsWith(0x20, 8, false) && EndsWith(0, 0x80, false) && Clear(0, 256) && Clear(0, 128);
  }

  lemma ValueReads(name: seq<byte>, value: seq<byte>, rest: seq<byte>)
    requires Utf8.Valid(value) && Readable(value, LIMIT)
    ensures FlagsFit(7, 0x00) && FlagsFit(7, Pow2(7)) && ValueAt(name, StringBytes(value, 7, 0x00) + rest) == Some((Header(name, value), rest))
  {
    Flags();
    FlagsAreClear();
    StringRoundTrip(value, 7, 0x00, rest, LIMIT);
  }

  lemma NameReads(name: seq<byte>, rest: seq<byte>)
    requires Utf8.Valid(name) && Readable(name, LIMIT)
    ensures FlagsFit(3, 0x20) && FlagsFit(3, 0x20 + Pow2(3)) && StringAt(StringBytes(name, 3, 0x20) + rest, 3, LIMIT) == Some((name, rest))
    ensures StringBytes(name, 3, 0x20) != [] && 0x20 <= StringBytes(name, 3, 0x20)[0] < 0x40
  {
    Flags();
    FlagsAreClear();
    StringRoundTrip(name, 3, 0x20, rest, LIMIT);
    FirstOfString(name, Packed(name));
  }

  lemma FirstOfString(s: seq<byte>, packed: seq<byte>)
    requires FlagsFit(3, 0x20) && FlagsFit(3, 0x20 + Pow2(3)) && Pow2(3) == 8
    ensures Shorter(s, packed, 3, 0x20) != [] && 0x20 <= Shorter(s, packed, 3, 0x20)[0] < 0x40
  {}

  lemma IndexReads(i: nat, prefix: nat, flags: nat, rest: seq<byte>)
    requires i < 0x1_0000 && FlagsFit(prefix, flags) && ClearBelow(prefix, flags)
    ensures Read(Written(i, prefix, flags) + rest, prefix) == Some((i, rest))
    ensures flags <= (Written(i, prefix, flags) + rest)[0] < flags + Pow2(prefix)
  {
    ReadWritten(i, prefix, flags, rest);
  }

  lemma FullReads(st: seq<Header>, i: nat, rest: seq<byte>)
    requires SmallTable(st) && i < |st| && FlagsFit(6, 0xC0)
    ensures LineAt(st, Written(i, 6, 0xC0) + rest) == Some((st[i], rest))
  {
    Flags();
    FlagsAreClear();
    IndexReads(i, 6, 0xC0, rest);
  }

  /** A line whose value stands behind a name that is read. */
  lemma NamedReads(st: seq<Header>, i: nat, value: seq<byte>, h: Header, rest: seq<byte>)
    requires SmallTable(st) && i < |st| && st[i].name == h.name && FlagsFit(4, 0x50)
    requires ValueAt(h.name, value + rest) == Some((h, rest))
    ensures LineAt(st, Written(i, 4, 0x50) + (value + rest)) == Some((h, rest))
  {
    Flags();
    FlagsAreClear();
    IndexReads(i, 4, 0x50, value + rest);
  }

  lemma LiteralReads(st: seq<Header>, name: seq<byte>, value: seq<byte>, h: Header, rest: seq<byte>)
    requires name != [] && 0x20 <= name[0] < 0x40
    requires StringAt(name + (value + rest), 3, LIMIT) == Some((h.name, value + rest))
    requires ValueAt(h.name, value + rest) == Some((h, rest))
    ensures LineAt(st, name + (value + rest)) == Some((h, rest))
  {}

  /** One written line is read back, whatever follows. */
  lemma LineRoundTrip(st: seq<Header>, h: Header, rest: seq<byte>)
    requires SmallTable(st) && Codable(h)
    ensures LineBytes(st, h) != [] && LineAt(st, LineBytes(st, h) + rest) == Some((h, rest))
  {
    Flags();
    match FirstFull(st, h, 0)
    case Some(i) => FullReads(st, i, rest);
    case None =>
      ValueReads(h.name, h.value, rest);
      var value := StringBytes(h.value, 7, 0x00);
      HpackString.Joined(NameBytes(st, h.name), value, rest);
      match FirstName(st, h.name, 0) {
        case Some(i) => NamedReads(st, i, value, h, rest);
        case None =>
          NameReads(h.name, value + rest);
          LiteralReads(st, StringBytes(h.name, 3, 0x20), value, h, rest);
      }
  }

  ghost predicate Spells(st: seq<Header>, line: seq<byte>, h: Header) {
    line != [] && forall rest :: LineAt(st, line + rest) == Some((h, rest))
  }

  ghost predicate AllSpell(st: seq<Header>, lines: seq<seq<byte>>, hs: seq<Header>) {
    |lines| == |hs| && forall i | 0 <= i < |hs| :: Spells(st, lines[i], hs[i])
  }

  lemma LinesStep(st: seq<Header>, lines: seq<seq<byte>>, hs: seq<Header>, maxSection: nat, out: seq<Header>) returns (r: Result<seq<Header>, Fault>)
    requires AllSpell(st, lines, hs) && hs != []
    ensures AllSpell(st, lines[1..], hs[1..]) && r == Lines(st, Flat(lines[1..]), maxSection, out + [hs[0]])
    ensures Lines(st, Flat(lines), maxSection, out) == if Cost(out + [hs[0]]) > maxSection then Err(Excessive) else r
  {
    assert Spells(st, lines[0], hs[0]);
    r := Lines(st, Flat(lines[1..]), maxSection, out + [hs[0]]);
  }

  lemma {:induction false} LinesRoundTrip(st: seq<Header>, lines: seq<seq<byte>>, hs: seq<Header>, maxSection: nat, out: seq<Header>, r: Result<seq<Header>, Fault>)
    requires AllSpell(st, lines, hs) && Cost(out) <= maxSection && r == Lines(st, Flat(lines), maxSection, out)
    ensures r == if Cost(out + hs) <= maxSection then Ok(out + hs) else Err(Excessive)
    decreases |hs|
  {
    if hs == [] {
      assert out + hs == out;
    } else {
      var r' := LinesStep(st, lines, hs, maxSection, out);
      CostOfNext(out, hs);
      if Cost(out + [hs[0]]) <= maxSection {
        LinesRoundTrip(st, lines[1..], hs[1..], maxSection, out + [hs[0]], r');
      }
    }
  }

  lemma PrefixReads(lines: seq<byte>)
    ensures AfterPrefix([0x00, 0x00] + lines) == Some(lines)
  {
    Pow2Values();
    FlagsAreClear();
    ReadWritten(0, 8, 0, [0x00] + lines);
    ReadWritten(0, 7, 0, lines);
    assert Written(0, 8, 0) == [0x00] && Written(0, 7, 0) == [0x00];
    assert [0x00, 0x00] + lines == [0x00] + ([0x00] + lines);
  }

  /** A written section is read back as the list it was written from, unless that is over the limit. */
  lemma SectionRoundTrip(st: seq<Header>, hs: seq<Header>, maxSection: nat)
    requires SmallTable(st) && AllCodable(hs)
    ensures Section(st, SectionBytes(st, hs), maxSection) == if Cost(hs) <= maxSection then Ok(hs) else Err(Excessive)
  {
    var lines := LinesOf(st, hs);
    forall i | 0 <= i < |hs| ensures Spells(st, lines[i], hs[i]) {
      forall rest { LineRoundTrip(st, hs[i], rest); }
    }
    PrefixReads(Flat(lines));
    LinesRoundTrip(st, lines, hs, maxSection, [], Lines(st, Flat(lines), maxSection, []));
    assert [] + hs == hs;
  }

  // ---- The loops ----

  method Encode(st: seq<Header>, h: Header, out: seq<byte>) returns (out': seq<byte>)
    ensures out' == out + LineBytes(st, h)
  {
    Flags();
    var i := 0;
    while i < |st| && st[i] != h
      invariant i <= |st| && FirstFull(st, h, 0) == FirstFull(st, h, i)
    {
      i := i + 1;
    }
    if i < |st| {
      out' := WriteInt(i, 6, 0xC0, out);
    } else {
      var named := EncodeName(st, h.name, out);
      out' := WriteString(h.value, 7, 0x00, named);
      HpackString.Joined(out, NameBytes(st, h.name), StringBytes(h.value, 7, 0x00));
    }
  }

  method EncodeName(st: seq<Header>, name: seq<byte>, out: seq<byte>) returns (out': seq<byte>)
    ensures out' == out + NameBytes(st, name)
  {
    Flags();
    var i := 0;
    while i < |st| && st[i].name != name
      invariant i <= |st| && FirstName(st, name, 0) == FirstName(st, name, i)
    {
      i := i + 1;
    }
    if i < |st| { out' := WriteInt(i, 4, 0x50, out); } else { out' := WriteString(name, 3, 0x20, out); }
  }

  method BeginSection(out: seq<byte>) returns (out': seq<byte>)
    ensures out' == out + SectionBytes([], [])
  {
    out' := out + [0x00];
    out' := out' + [0x00];
    assert SectionBytes([], []) == [0x00, 0x00];
  }

  method ReadLine(st: seq<Header>, buf: seq<byte>) returns (r: Option<(Header, seq<byte>)>)
    requires buf != []
    ensures r == LineAt(st, buf)
  {
    var b := buf[0];
    if b >= 0x80 {
      if b % 0x80 < 0x40 { return None; }
      var i := ReadInt(buf, 6);
      if i.None? || i.value.0 >= |st| { return None; }
      return Some((st[i.value.0], i.value.1));
    }
    var name: seq<byte>, rest := [], buf;
    if b >= 0x40 {
      if b / 0x10 % 2 == 0 { return None; }
      var i := ReadInt(buf, 4);
      if i.None? || i.value.0 >= |st| { return None; }
      name, rest := st[i.value.0].name, i.value.1;
    } else if b >= 0x20 {
      var text := ReadString(buf, 3, LIMIT);
      if text.None? { return None; }
      name, rest := text.value.0, text.value.1;
    } else {
      return None;
    }
    var value := ReadString(rest, 7, LIMIT);
    if value.None? { return None; }
    return Some((Header(name, value.value.0), value.value.1));
  }

  method Decode(st: seq<Header>, buf: seq<byte>, maxSection: nat) returns (r: Result<seq<Header>, Fault>)
    ensures r == Section(st, buf, maxSection)
  {
    var lines := AfterPrefix(buf);
    if lines.None? { return Err(Decompression); }
    var out: seq<Header>, rest, size := [], lines.value, 0;
    ghost var all := Lines(st, rest, maxSection, []);
    while rest != []
      invariant size == Cost(out) && all == Lines(st, rest, maxSection, out)
      decreases |rest|
    {
      var line := ReadLine(st, rest);
      if line.None? { return Err(Decompression); }
      var h := line.value.0;
      rest := line.value.1;
      assert (out + [h])[..|out|] == out;
      size := size + EntrySize(h);
      if size > maxSection { return Err(Excessive); }
      out := out + [h];
    }
    return Ok(out);
  }
}
