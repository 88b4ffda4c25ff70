/** HPACK (RFC 7541) over any static table; module HpackStatic has the one of Appendix A.

    Header text is its UTF-8 bytes. A decoder's history is every field it was ever told to index,
    newest first; it stands for what the peer believes the table was filled with. */
module Hpack {
  import opened Wrappers
  import opened Bits
  import opened HpackInt
  import opened HpackString
  import Utf8

  const ENTRY_OVERHEAD: nat := 32
  const MAX_STRING: nat := 65536

  datatype Header = Header(name: seq<byte>, value: seq<byte>)

  datatype Failure = Compression | TooLarge

  function EntrySize(h: Header): nat { |h.name| + |h.value| + ENTRY_OVERHEAD }

  function Cost(hs: seq<Header>): nat {
    if hs == [] then 0 else Cost(hs[..|hs| - 1]) + EntrySize(hs[|hs| - 1])
  }

  lemma {:induction false} CostFront(h: Header, hs: seq<Header>)
    ensures Cost([h] + hs) == EntrySize(h) + Cost(hs)
  {
    if hs == [] {
      assert [h] + hs == [h] && [h][..0] == [];
    } else {
      CostFront(h, hs[..|hs| - 1]);
      assert ([h] + hs)[..|hs|] == [h] + hs[..|hs| - 1];
    }
  }

  // ---- The decoder's table ----

  /** `dynamic` is newest first; `size` is its cost. */
  datatype Table = Table(dynamic: seq<Header>, size: nat, maxSize: nat, settingsMax: nat, history: seq<Header>)

  /** What every decoder satisfies: the size is the entries' cost and within the limit, the limit is
      within what was advertised, and the entries are the newest of the history. */
  ghost predicate Sound(d: Table) {
    d.size == Cost(d.dynamic) <= d.maxSize <= d.settingsMax && d.dynamic <= d.history
  }

  function Evicted(dynamic: seq<Header>, max: nat): (r: seq<Header>)
    ensures r <= dynamic && Cost(r) <= max
  {
    if Cost(dynamic) <= max then dynamic else Evicted(dynamic[..|dynamic| - 1], max)
  }

  /** Only what does not fit goes: an entry that fits in front is kept. */
  lemma {:induction false} EvictedKeepsFront(h: Header, dynamic: seq<Header>, max: nat)
    requires EntrySize(h) <= max
    ensures |Evicted([h] + dynamic, max)| > 0 && Evicted([h] + dynamic, max)[0] == h
    decreases |dynamic|
  {
    if dynamic == [] {
      CostFront(h, []);
      assert [h] + dynamic == [h] + [];
    } else if Cost([h] + dynamic) > max {
      assert ([h] + dynamic)[..|dynamic|] == [h] + dynamic[..|dynamic| - 1];
      EvictedKeepsFront(h, dynamic[..|dynamic| - 1], max);
    }
  }

  /** Eviction stops as soon as the table fits: one more entry would not. */
  lemma {:induction false} EvictedIsLongest(dynamic: seq<Header>, max: nat)
    ensures var r := Evicted(dynamic, max);
            |r| < |dynamic| ==> Cost(dynamic[..|r| + 1]) > max
    decreases |dynamic|
  {
    if Cost(dynamic) > max {
      var shorter := dynamic[..|dynamic| - 1];
      EvictedIsLongest(shorter, max);
      var r := Evicted(shorter, max);
      if |r| < |shorter| {
        assert shorter[..|r| + 1] == dynamic[..|r| + 1];
      } else {
        assert dynamic[..|r| + 1] == dynamic;
      }
    }
  }

  function Resized(d: Table, max: nat): Table {
    var dynamic := Evicted(d.dynamic, max);
    d.(dynamic := dynamic, size := Cost(dynamic), maxSize := max)
  }

  function Inserted(d: Table, h: Header): Table {
    var dynamic := if EntrySize(h) > d.maxSize then [] else Evicted([h] + d.dynamic, d.maxSize);
    d.(dynamic := dynamic, size := Cost(dynamic), history := [h] + d.history)
  }

  function WithSettings(d: Table, n: nat): Table {
    var d' := d.(settingsMax := n);
    if d.maxSize > n then Resized(d', n) else d'
  }

  lemma InsertedIsSound(d: Table, h: Header)
    requires Sound(d)
    ensures Sound(Inserted(d, h))
    ensures EntrySize(h) <= d.maxSize ==> |Inserted(d, h).dynamic| > 0 && Inserted(d, h).dynamic[0] == h
  {
    if EntrySize(h) <= d.maxSize { EvictedKeepsFront(h, d.dynamic, d.maxSize); }
    assert [h] + d.dynamic <= [h] + d.history;
  }

  // ---- Decoding ----

  function Lookup(st: seq<Header>, dynamic: seq<Header>, idx: nat): Option<Header> {
    if idx == 0 then None
    else if idx <= |st| then Some(st[idx - 1])
    else if idx - |st| - 1 < |dynamic| then Some(dynamic[idx - |st| - 1])
    else None
  }

  datatype Rep = Listed(h: Header, index: bool) | SizeUpdate(n: nat)

  ghost function Literal(st: seq<Header>, dynamic: seq<Header>, idx: nat, buf: seq<byte>): (r: Option<(Header, seq<byte>)>)
    ensures r.Some? ==> |r.value.1| < |buf|
  {
    var name :=
      if idx == 0 then StringAt(buf, 7, MAX_STRING)
      else match Lookup(st, dynamic, idx) case Some(h) => Some((h.name, buf)) case None => None;
    match name
    case None => None
    case Some((name, rest)) =>
      match StringAt(rest, 7, MAX_STRING)
      case None => None
      case Some((value, rest)) => Some((Header(name, value), rest))
  }

  /** The representation at the front of a block, and what follows it. */
  ghost function RepAt(st: seq<Header>, dynamic: seq<Header>, buf: seq<byte>): (r: Option<(Rep, seq<byte>)>)
    requires buf != []
    ensures r.Some? ==> |r.value.1| < |buf|
  {
    if buf[0] >= 0x80 then
      match Read(buf, 7)
      case None => None
      case Some((idx, rest)) =>
        match Lookup(st, dynamic, idx) case None => None case Some(h) => Some((Listed(h, false), rest))
    else if 0x20 <= buf[0] < 0x40 then
      match Read(buf, 5) case None => None case Some((n, rest)) => Some((SizeUpdate(n), rest))
    else
      var index := buf[0] >= 0x40;
      match Read(buf, if index then 6 else 4)
      case None => None
      case Some((idx, rest)) =>
        match Literal(st, dynamic, idx, rest) case None => None case Some((h, rest)) => Some((Listed(h, index), rest))
  }

  datatype Decoding = Decoding(table: Table, failure: Option<Failure>, out: seq<Header>)

  /** Decoding a block from `buf` on: `out` is what it has listed so far, and `seen` whether that
      includes a field. */
  ghost function DecodeFrom(st: seq<Header>, d: Table, buf: seq<byte>, maxList: nat, seen: bool, out: seq<Header>): Decoding
    decreases |buf|
  {
    if buf == [] then Decoding(d, None, out)
    else match RepAt(st, d.dynamic, buf)
      case None => Decoding(d, Some(Compression), out)
      case Some((SizeUpdate(n), rest)) =>
        if seen || n > d.settingsMax then Decoding(d, Some(Compression), out)
        else DecodeFrom(st, Resized(d, n), rest, maxList, seen, out)
      case Some((Listed(h, index), rest)) =>
        if Cost(out) + EntrySize(h) > maxList then Decoding(d, Some(TooLarge), out)
        else DecodeFrom(st, if index then Inserted(d, h) else d, rest, maxList, true, out + [h])
  }

  ghost function DecodeBlock(st: seq<Header>, d: Table, buf: seq<byte>, maxList: nat): Decoding {
    DecodeFrom(st, d, buf, maxList, false, [])
  }

  ghost predicate Extends(later: seq<Header>, earlier: seq<Header>) {
    |earlier| <= |later| && later[|later| - |earlier|..] == earlier
  }

  lemma ExtendsTrans(a: seq<Header>, b: seq<Header>, c: seq<Header>)
    requires Extends(a, b) && Extends(b, c)
    ensures Extends(a, c)
  {
    assert a[|a| - |c|..] == b[|b| - |c|..];
  }

  /** What one call promises about the table it leaves and the list it returns. */
  ghost predicate Keeps(before: Table, out: seq<Header>, maxList: nat, r: Decoding) {
    && Sound(r.table) && r.table.settingsMax == before.settingsMax && Extends(r.table.history, before.history)
    && Cost(r.out) <= maxList && out <= r.out
  }

  lemma KeepsAfter(d: Table, d': Table, out: seq<Header>, out': seq<Header>, maxList: nat, r: Decoding)
    requires Keeps(d', out', maxList, r) && out <= out' && d'.settingsMax == d.settingsMax && Extends(d'.history, d.history)
    ensures Keeps(d, out, maxList, r)
  {
    ExtendsTrans(r.table.history, d'.history, d.history);
  }

  /** Every call, failing or not, leaves a sound table, only adds to the history, keeps what was
      advertised, and lists no more than allowed. */
  lemma {:induction false} DecodeKeepsSound(st: seq<Header>, d: Table, buf: seq<byte>, maxList: nat, seen: bool, out: seq<Header>)
    requires Sound(d) && Cost(out) <= maxList
    ensures Keeps(d, out, maxList, DecodeFrom(st, d, buf, maxList, seen, out))
    decreases |buf|
  {
    var r := DecodeFrom(st, d, buf, maxList, seen, out);
    if buf != [] {
      var rep := RepAt(st, d.dynamic, buf);
      if rep.Some? && rep.value.0.SizeUpdate? && !seen && rep.value.0.n <= d.settingsMax {
        var d' := Resized(d, rep.value.0.n);
        DecodeKeepsSound(st, d', rep.value.1, maxList, seen, out);
        KeepsAfter(d, d', out, out, maxList, r);
      } else if rep.Some? && rep.value.0.Listed? && Cost(out) + EntrySize(rep.value.0.h) <= maxList {
        var Listed(h, index) := rep.value.0;
        var d' := if index then Inserted(d, h) else d;
        InsertedIsSound(d, h);
        DecodeKeepsSound(st, d', rep.value.1, maxList, true, out + [h]);
        KeepsAfter(d, d', out, out + [h], maxList, r);
      }
    }
  }

  // ---- Encoding ----

  function FirstFull(st: seq<Header>, h: Header, i: nat): (r: Option<nat>)
    requires i <= |st|
    ensures r.Some? ==> r.value < |st| && st[r.value] == h
    decreases |st| - i
  {
    if i == |st| then None else if st[i] == h then Some(i) else FirstFull(st, h, i + 1)
  }

  function FirstName(st: seq<Header>, name: seq<byte>, i: nat): (r: Option<nat>)
    requires i <= |st|
    ensures r.Some? ==> r.value < |st| && st[r.value].name == name
    decreases |st| - i
  {
    if i == |st| then None else if st[i].name == name then Some(i) else FirstName(st, name, i + 1)
  }

  lemma Flags()
    ensures FlagsFit(7, 0x80) && FlagsFit(7, 0) && FlagsFit(4, 0) && FlagsFit(5, 0x20) && Pow2(7) == 0x80 && Pow2(4) == 16
    ensures Pow2(5) == 32
  {
    Pow2Values();
  }

  function NameBytes(st: seq<Header>, name: seq<byte>): (r: seq<byte>)
    ensures r != []
  {
    Flags();
    match FirstName(st, name, 0)
    case Some(i) => Written(i + 1, 4, 0x00)
    case None => [0x00] + StringBytes(name, 7, 0x00)
  }

  function FieldBytes(st: seq<Header>, h: Header): (r: seq<byte>)
    ensures r != []
  {
    Flags();
    match FirstFull(st, h, 0)
    case Some(i) => Written(i + 1, 7, 0x80)
    case None => NameBytes(st, h.name) + StringBytes(h.value, 7, 0x00)
  }

  function Flat(parts: seq<seq<byte>>): seq<byte> {
    if parts == [] then [] else parts[0] + Flat(parts[1..])
  }

  function FieldsOf(st: seq<Header>, hs: seq<Header>): seq<seq<byte>> {
    seq(|hs|, i requires 0 <= i < |hs| => FieldBytes(st, hs[i]))
  }

  function BlockBytes(st: seq<Header>, announced: bool, hs: seq<Header>): seq<byte> {
    Flags();
    (if announced then [] else Written(0, 5, 0x20)) + Flat(FieldsOf(st, hs))
  }

  lemma {:induction false} FlatAppend(parts: seq<seq<byte>>, last: seq<byte>)
    ensures Flat(parts + [last]) == Flat(parts) + last
    decreases |parts|
  {
    if parts == [] {
      assert parts + [last] == [last] && [last][1..] == [];
    } else {
      FlatAppend(parts[1..], last);
      assert (parts + [last])[1..] == parts[1..] + [last];
      Joined(parts[0], Flat(parts[1..]), last);
    }
  }

  /** A block is the beginning and then field after field, as they are encoded. */
  lemma BlockAppends(st: seq<Header>, announced: bool, hs: seq<Header>, h: Header)
    ensures BlockBytes(st, announced, hs + [h]) == BlockBytes(st, announced, hs) + FieldBytes(st, h)
  {
    Flags();
    assert FieldsOf(st, hs + [h]) == FieldsOf(st, hs) + [FieldBytes(st, h)];
    FlatAppend(FieldsOf(st, hs), FieldBytes(st, h));
    Joined(if announced then [] else Written(0, 5, 0x20), Flat(FieldsOf(st, hs)), FieldBytes(st, h));
  }

  ghost predicate Codable(h: Header) {
    Utf8.Valid(h.name) && Utf8.Valid(h.value) && Readable(h.name, MAX_STRING) && Readable(h.value, MAX_STRING)
  }

  // ---- Decoding undoes encoding ----

  lemma FlagsAreClear()
    ensures ClearBelow(7, 0x80) && ClearBelow(4, 0x00) && ClearBelow(5, 0x20) && FlagsEnd(7, 0x00, false)
  {
    Pow2Values();
    assert Clear(0x80, 0x80) && Clear(0, 16) && Clear(0x20, 0x20) && EndsWith(0, 0x80, false);
  }

  lemma ValueReads(value: seq<byte>, rest: seq<byte>)
    requires Utf8.Valid(value) && Readable(value, MAX_STRING)
    ensures FlagsFit(7, 0x00) && FlagsFit(7, Pow2(7)) && StringAt(StringBytes(value, 7, 0x00) + rest, 7, MAX_STRING) == Some((value, rest))
  {
    Flags();
    FlagsAreClear();
    StringRoundTrip(value, 7, 0x00, rest, MAX_STRING);
  }

  /** An index of the static table, as the encoder writes it. */
  lemma IndexReads(i: nat, prefix: nat, flags: nat, rest: seq<byte>)
    requires i < 0x1_0000 && FlagsFit(prefix, flags) && ClearBelow(prefix, flags)
    ensures Read(Written(i + 1, prefix, flags) + rest, prefix) == Some((i + 1, rest))
    ensures flags <= (Written(i + 1, prefix, flags) + rest)[0] < flags + Pow2(prefix)
  {
    ReadWritten(i + 1, prefix, flags, rest);
  }

  ghost predicate SmallTable(st: seq<Header>) { |st| < 0x1_0000 }

  /** One written field is read back as a field that is not indexed. */
  lemma RepRoundTrip(st: seq<Header>, dynamic: seq<Header>, h: Header, rest: seq<byte>)
    requires SmallTable(st) && Codable(h)
    ensures RepAt(st, dynamic, FieldBytes(st, h) + rest) == Some((Listed(h, false), rest))
  {
    Flags();
    FlagsAreClear();
    match FirstFull(st, h, 0)
    case Some(i) =>
      IndexReads(i, 7, 0x80, rest);
    case None =>
      match FirstName(st, h.name, 0) {
        case Some(i) => NamedReads(st, dynamic, h, i, rest);
        case None => NewNameReads(st, dynamic, h, rest);
      }
  }

  lemma NamedReads(st: seq<Header>, dynamic: seq<Header>, h: Header, i: nat, rest: seq<byte>)
    requires SmallTable(st) && Codable(h) && FlagsFit(7, 0) && FlagsFit(7, Pow2(7)) && FlagsFit(4, 0)
    requires i < |st| && st[i].name == h.name
    ensures RepAt(st, dynamic, Written(i + 1, 4, 0x00) + StringBytes(h.value, 7, 0x00) + rest) == Some((Listed(h, false), rest))
  {
    Flags();
    FlagsAreClear();
    ValueReads(h.value, rest);
    var tail := StringBytes(h.value, 7, 0x00) + rest;
    IndexReads(i, 4, 0x00, tail);
    Joined(Written(i + 1, 4, 0x00), StringBytes(h.value, 7, 0x00), rest);
    assert Literal(st, dynamic, i + 1, tail) == Some((h, rest));
  }

  lemma NewNameReads(st: seq<Header>, dynamic: seq<Header>, h: Header, rest: seq<byte>)
    requires Codable(h) && FlagsFit(7, 0) && FlagsFit(7, Pow2(7))
    ensures RepAt(st, dynamic, [0x00] + StringBytes(h.name, 7, 0x00) + StringBytes(h.value, 7, 0x00) + rest) == Some((Listed(h, false), rest))
  {
    ValueReads(h.value, rest);
    ValueReads(h.name, StringBytes(h.value, 7, 0x00) + rest);
    BothRead(st, dynamic, h, StringBytes(h.name, 7, 0x00), StringBytes(h.value, 7, 0x00), rest);
  }

  lemma BothRead(st: seq<Header>, dynamic: seq<Header>, h: Header, name: seq<byte>, value: seq<byte>, rest: seq<byte>)
    requires StringAt(name + (value + rest), 7, MAX_STRING) == Some((h.name, value + rest)) && StringAt(value + rest, 7, MAX_STRING) == Some((h.value, rest))
    ensures RepAt(st, dynamic, [0x00] + name + value + rest) == Some((Listed(h, false), rest))
  {
    var tail := name + (value + rest);
    ZeroReads(tail);
    assert [0x00] + name + value + rest == [0x00] + tail;
    assert Literal(st, dynamic, 0, tail) == Some((h, rest));
    LiteralRep(st, dynamic, [0x00] + tail, 0, tail, h, rest);
  }

  lemma LiteralRep(st: seq<Header>, dynamic: seq<Header>, buf: seq<byte>, idx: nat, tail: seq<byte>, h: Header, rest: seq<byte>)
    requires buf != [] && buf[0] < 0x20 && Read(buf, 4) == Some((idx, tail)) && Literal(st, dynamic, idx, tail) == Some((h, rest))
    ensures RepAt(st, dynamic, buf) == Some((Listed(h, false), rest))
  {}

  lemma ZeroReads(tail: seq<byte>)
    ensures Read([0x00] + tail, 4) == Some((0, tail))
  {
    Flags();
    FlagsAreClear();
    ReadWritten(0, 4, 0x00, tail);
    assert Written(0, 4, 0x00) == [0x00];
  }

  ghost predicate AllCodable(hs: seq<Header>) { forall h | h in hs :: Codable(h) }

  /** Whatever follows them, these bytes are read as that field, not indexed. */
  ghost predicate Spells(st: seq<Header>, dynamic: seq<Header>, field: seq<byte>, h: Header) {
    field != [] && forall rest :: RepAt(st, dynamic, field + rest) == Some((Listed(h, false), rest))
  }

  ghost predicate AllSpell(st: seq<Header>, dynamic: seq<Header>, fields: seq<seq<byte>>, hs: seq<Header>) {
    |fields| == |hs| && forall i | 0 <= i < |hs| :: Spells(st, dynamic, fields[i], hs[i])
  }

  lemma ListedStep(st: seq<Header>, d: Table, field: seq<byte>, h: Header, rest: seq<byte>, maxList: nat, seen: bool, out: seq<Header>)
    requires Spells(st, d.dynamic, field, h)
    ensures DecodeFrom(st, d, field + rest, maxList, seen, out) ==
            if Cost(out + [h]) > maxList then Decoding(d, Some(TooLarge), out)
            else DecodeFrom(st, d, rest, maxList, true, out + [h])
  {
    assert (out + [h])[..|out|] == out;
  }

  lemma CostOfNext(out: seq<Header>, hs: seq<Header>)
    requires hs != []
    ensures out + [hs[0]] + hs[1..] == out + hs && Cost(out + [hs[0]]) <= Cost(out + hs)
  {
    CostOfPrefix(out + [hs[0]], hs[1..]);
    assert out + [hs[0]] + hs[1..] == out + hs;
  }

  lemma FlatStep(st: seq<Header>, d: Table, fields: seq<seq<byte>>, hs: seq<Header>, maxList: nat, seen: bool, out: seq<Header>) returns (r: Decoding)
    requires AllSpell(st, d.dynamic, fields, hs) && hs != []
    ensures AllSpell(st, d.dynamic, fields[1..], hs[1..])
    ensures r == DecodeFrom(st, d, Flat(fields[1..]), maxList, true, out + [hs[0]])
    ensures DecodeFrom(st, d, Flat(fields), maxList, seen, out) == if Cost(out + [hs[0]]) > maxList then Decoding(d, Some(TooLarge), out) else r
  {
    assert Spells(st, d.dynamic, fields[0], hs[0]);
    ListedStep(st, d, fields[0], hs[0], Flat(fields[1..]), maxList, seen, out);
    r := DecodeFrom(st, d, Flat(fields[1..]), maxList, true, out + [hs[0]]);
  }

  lemma {:induction false} FlatRoundTrip(st: seq<Header>, d: Table, fields: seq<seq<byte>>, hs: seq<Header>, maxList: nat, seen: bool, out: seq<Header>, r: Decoding)
    requires AllSpell(st, d.dynamic, fields, hs) && Cost(out) <= maxList
    requires r == DecodeFrom(st, d, Flat(fields), maxList, seen, out)
    ensures if Cost(out + hs) <= maxList then r == Decoding(d, None, out + hs)
            else r.table == d && r.failure == Some(TooLarge)
    decreases |hs|
  {
    if hs == [] {
      assert out + hs == out;
    } else {
      var r' := FlatStep(st, d, fields, hs, maxList, seen, out);
      CostOfNext(out, hs);
      if Cost(out + [hs[0]]) <= maxList {
        FlatRoundTrip(st, d, fields[1..], hs[1..], maxList, true, out + [hs[0]], r');
      }
    }
  }

  /** Reading written fields lists them without touching the table, unless they cost too much. */
  lemma FieldsRoundTrip(st: seq<Header>, d: Table, hs: seq<Header>, maxList: nat, seen: bool, out: seq<Header>)
    requires SmallTable(st) && AllCodable(hs) && Cost(out) <= maxList
    ensures var r := DecodeFrom(st, d, Flat(FieldsOf(st, hs)), maxList, seen, out);
            if Cost(out + hs) <= maxList then r == Decoding(d, None, out + hs)
            else r.table == d && r.failure == Some(TooLarge)
  {
    forall i | 0 <= i < |hs| ensures Spells(st, d.dynamic, FieldsOf(st, hs)[i], hs[i]) {
      forall rest { RepRoundTrip(st, d.dynamic, hs[i], rest); }
    }
    FlatRoundTrip(st, d, FieldsOf(st, hs), hs, maxList, seen, out, DecodeFrom(st, d, Flat(FieldsOf(st, hs)), maxList, seen, out));
  }

  lemma {:induction false} CostOfPrefix(a: seq<Header>, b: seq<Header>)
    ensures Cost(a) <= Cost(a + b)
  {
    if b == [] {
      assert a + b == a;
    } else {
      CostOfPrefix(a, b[..|b| - 1]);
      assert (a + b)[..|a + b| - 1] == a + b[..|b| - 1];
    }
  }

  /** One block: the table is emptied by the announcement, if there is one, and otherwise untouched. */
  lemma BlockRoundTrip(st: seq<Header>, d: Table, announced: bool, hs: seq<Header>, maxList: nat)
    requires SmallTable(st) && AllCodable(hs)
    ensures var r := DecodeBlock(st, d, BlockBytes(st, announced, hs), maxList);
            var d' := if announced then d else Resized(d, 0);
            if Cost(hs) <= maxList then r == Decoding(d', None, hs)
            else r.table == d' && r.failure == Some(TooLarge)
  {
    var d' := if announced then d else Resized(d, 0);
    FieldsRoundTrip(st, d', hs, maxList, false, []);
    assert [] + hs == hs;
    Flags();
    if announced {
      assert BlockBytes(st, announced, hs) == Flat(FieldsOf(st, hs));
    } else {
      FlagsAreClear();
      var fields := Flat(FieldsOf(st, hs));
      ReadWritten(0, 5, 0x20, fields);
      assert Written(0, 5, 0x20) == [0x20];
      assert BlockBytes(st, announced, hs) == Written(0, 5, 0x20) + fields;
      assert RepAt(st, d.dynamic, BlockBytes(st, announced, hs)) == Some((SizeUpdate(0), fields));
    }
  }

  /** A block as the encoder writes it: `announced` is whether it has said before that it stores nothing. */
  datatype Block = Block(announced: bool, hs: seq<Header>)

  function BlocksBytes(st: seq<Header>, blocks: seq<Block>): seq<seq<byte>>
    decreases |blocks|
  {
    if blocks == [] then [] else [BlockBytes(st, blocks[0].announced, blocks[0].hs)] + BlocksBytes(st, blocks[1..])
  }

  function ListsOf(blocks: seq<Block>): seq<seq<Header>> {
    if blocks == [] then [] else [blocks[0].hs] + ListsOf(blocks[1..])
  }

  function TableAfter(d: Table, blocks: seq<Block>): Table
    decreases |blocks|
  {
    if blocks == [] then d else TableAfter(if blocks[0].announced then d else Resized(d, 0), blocks[1..])
  }

  /** Decoding block after block with one table; stops at the first failure. */
  ghost function DecodeBlocks(st: seq<Header>, d: Table, bufs: seq<seq<byte>>, maxList: nat): (Table, Option<seq<seq<Header>>>)
    decreases |bufs|
  {
    if bufs == [] then (d, Some([]))
    else
      var r := DecodeBlock(st, d, bufs[0], maxList);
      if r.failure.Some? then (r.table, None)
      else
        var (d', more) := DecodeBlocks(st, r.table, bufs[1..], maxList);
        (d', match more case None => None case Some(lists) => Some([r.out] + lists))
  }

  lemma BlocksStep(st: seq<Header>, d: Table, d1: Table, block: seq<byte>, hs: seq<Header>, bufs: seq<seq<byte>>, maxList: nat)
    requires DecodeBlock(st, d, block, maxList) == Decoding(d1, None, hs)
    ensures DecodeBlocks(st, d, [block] + bufs, maxList) ==
            var (d', more) := DecodeBlocks(st, d1, bufs, maxList);
            (d', match more case None => None case Some(lists) => Some([hs] + lists))
  {
    assert ([block] + bufs)[1..] == bufs;
  }

  ghost predicate AllDecodable(blocks: seq<Block>, maxList: nat) {
    forall k | 0 <= k < |blocks| :: AllCodable(blocks[k].hs) && Cost(blocks[k].hs) <= maxList
  }

  /** Any sequence of blocks decodes, block by block, to exactly the lists that were encoded, wherever the
      encoder announced that it stores nothing. */
  lemma {:induction false} BlocksRoundTrip(st: seq<Header>, d: Table, blocks: seq<Block>, maxList: nat)
    requires SmallTable(st) && AllDecodable(blocks, maxList)
    ensures DecodeBlocks(st, d, BlocksBytes(st, blocks), maxList) == (TableAfter(d, blocks), Some(ListsOf(blocks)))
    decreases |blocks|
  {
    if blocks != [] {
      var Block(announced, hs) := blocks[0];
      var d1 := if announced then d else Resized(d, 0);
      BlockRoundTrip(st, d, announced, hs, maxList);
      BlocksRoundTrip(st, d1, blocks[1..], maxList);
      BlocksStep(st, d, d1, BlockBytes(st, announced, hs), hs, BlocksBytes(st, blocks[1..]), maxList);
    }
  }

  /** The decoder never indexes any of it: its table is emptied by an announcement, and is otherwise
      what it was. */
  lemma {:induction false} NothingIndexed(d: Table, blocks: seq<Block>)
    requires Sound(d)
    ensures TableAfter(d, blocks) == if forall k | 0 <= k < |blocks| :: blocks[k].announced then d
                                     else d.(dynamic := [], size := 0, maxSize := 0)
    decreases |blocks|
  {
    if blocks != [] {
      var d1 := if blocks[0].announced then d else Resized(d, 0);
      EmptyAtZero(d);
      NothingIndexed(d1, blocks[1..]);
      AllAnnounced(blocks);
      EmptyAtZero(d1);
    }
  }

  lemma AllAnnounced(blocks: seq<Block>)
    requires blocks != []
    ensures (forall k | 0 <= k < |blocks| :: blocks[k].announced) <==>
            blocks[0].announced && forall k | 0 <= k < |blocks[1..]| :: blocks[1..][k].announced
  {
    if blocks[0].announced && forall k | 0 <= k < |blocks[1..]| :: blocks[1..][k].announced {
      forall k | 0 <= k < |blocks| ensures blocks[k].announced {
        if k > 0 { assert blocks[1..][k - 1].announced; }
      }
    }
  }

  /** What any run of blocks becomes in a fresh decoder: the same lists, block by block, with nothing
      indexed. */
  lemma RunRoundTrip(st: seq<Header>, max: nat, blocks: seq<Block>, maxList: nat)
    requires SmallTable(st) && AllDecodable(blocks, maxList)
    ensures var (d, lists) := DecodeBlocks(st, Table([], 0, max, max, []), BlocksBytes(st, blocks), maxList);
            lists == Some(ListsOf(blocks)) && d.history == [] && d.dynamic == [] && Sound(d)
  {
    BlocksRoundTrip(st, Table([], 0, max, max, []), blocks, maxList);
    NothingIndexed(Table([], 0, max, max, []), blocks);
  }

  lemma EmptyAtZero(d: Table)
    ensures Resized(d, 0).dynamic == []
  {
    NothingIsFree(Evicted(d.dynamic, 0));
  }

  lemma NothingIsFree(hs: seq<Header>)
    ensures hs == [] || Cost(hs) >= ENTRY_OVERHEAD
  {
  }

  // ---- The objects ----

  class Decoder {
    const statics: seq<Header>
    var dynamic: seq<Header>
    var size: nat
    var maxSize: nat
    var settingsMax: nat
    ghost var history: seq<Header>

    ghost function View(): Table
      reads this
    {
      Table(dynamic, size, maxSize, settingsMax, history)
    }

    constructor (statics: seq<Header>, max: nat)
      ensures Sound(View()) && View() == Table([], 0, max, max, []) && this.statics == statics
    {
      this.statics := statics;
      dynamic, size, maxSize, settingsMax, history := [], 0, max, max, [];
    }

    /** The size never runs out before the entries do, so the table is not empty when one is popped. */
    method Evict()
      requires size == Cost(dynamic)
      modifies this`dynamic, this`size
      ensures dynamic == Evicted(old(dynamic), maxSize) && size == Cost(dynamic)
    {
      while size > maxSize
        invariant size == Cost(dynamic) && Evicted(old(dynamic), maxSize) == Evicted(dynamic, maxSize)
        decreases |dynamic|
      {
        var last := dynamic[|dynamic| - 1];
        dynamic := dynamic[..|dynamic| - 1];
        size := size - EntrySize(last);
      }
    }

    method SetMaxSize(n: nat)
      requires Sound(View())
      modifies this
      ensures Sound(View()) && View() == WithSettings(old(View()), n)
    {
      settingsMax := n;
      if maxSize > n {
        maxSize := n;
        Evict();
      }
    }

    method Insert(h: Header)
      requires Sound(View())
      modifies this
      ensures Sound(View()) && View() == Inserted(old(View()), h)
    {
      InsertedIsSound(View(), h);
      var cost := EntrySize(h);
      history := [h] + history;
      if cost > maxSize {
        dynamic, size := [], 0;
        return;
      }
      CostFront(h, dynamic);
      size := size + cost;
      dynamic := [h] + dynamic;
      Evict();
    }

    method ReadLiteral(idx: nat, buf: seq<byte>) returns (r: Option<(Header, seq<byte>)>)
      ensures r == Literal(statics, dynamic, idx, buf)
    {
      var name: seq<byte>, rest := [], buf;
      if idx == 0 {
        var text := ReadString(buf, 7, MAX_STRING);
        if text.None? { return None; }
        name, rest := text.value.0, text.value.1;
      } else {
        var h := Lookup(statics, dynamic, idx);
        if h.None? { return None; }
        name := h.value.name;
      }
      var value := ReadString(rest, 7, MAX_STRING);
      if value.None? { return None; }
      return Some((Header(name, value.value.0), value.value.1));
    }

    method ReadRep(buf: seq<byte>) returns (r: Option<(Rep, seq<byte>)>)
      requires buf != []
      ensures r == RepAt(statics, dynamic, buf)
    {
      var first := buf[0];
      if first >= 0x80 {
        var i := ReadInt(buf, 7);
        if i.None? { return None; }
        var h := Lookup(statics, dynamic, i.value.0);
        if h.None? { return None; }
        return Some((Listed(h.value, false), i.value.1));
      }
      if 0x20 <= first < 0x40 {
        var n := ReadInt(buf, 5);
        if n.None? { return None; }
        return Some((SizeUpdate(n.value.0), n.value.1));
      }
      var i := ReadInt(buf, if first >= 0x40 then 6 else 4);
      if i.None? { return None; }
      var h := ReadLiteral(i.value.0, i.value.1);
      if h.None? { return None; }
      return Some((Listed(h.value.0, first >= 0x40), h.value.1));
    }

    /** Decodes one header block; on failure `out` is what was listed before it. */
    method Decode(buf: seq<byte>, maxList: nat) returns (failure: Option<Failure>, out: seq<Header>)
      requires Sound(View())
      modifies this
      ensures Decoding(View(), failure, out) == DecodeBlock(statics, old(View()), buf, maxList)
      ensures Sound(View()) && Extends(history, old(history)) && Cost(out) <= maxList
    {
      DecodeKeepsSound(statics, View(), buf, maxList, false, []);
      failure, out := DecodeAll(buf, maxList);
    }

    method DecodeAll(buf: seq<byte>, maxList: nat) returns (failure: Option<Failure>, out: seq<Header>)
      requires Sound(View())
      modifies this
      ensures Decoding(View(), failure, out) == DecodeBlock(statics, old(View()), buf, maxList)
    {
      out := [];
      var left, listed, seen := buf, 0, false;
      ghost var r := DecodeBlock(statics, View(), buf, maxList);
      while left != []
        invariant Sound(View()) && listed == Cost(out) <= maxList
        invariant r == DecodeFrom(statics, View(), left, maxList, seen, out)
        decreases |left|
      {
        var rep := ReadRep(left);
        if rep.None? { return Some(Compression), out; }
        left := rep.value.1;
        match rep.value.0 {
          case SizeUpdate(n) =>
            if seen || n > settingsMax { return Some(Compression), out; }
            maxSize := n;
            Evict();
          case Listed(h, index) =>
            if listed + EntrySize(h) > maxList { return Some(TooLarge), out; }
            listed := listed + EntrySize(h);
            if index { Insert(h); }
            assert (out + [h])[..|out|] == out;
            out := out + [h];
            seen := true;
        }
      }
      failure := None;
    }
  }

  class Encoder {
    const statics: seq<Header>
    var peerMax: nat
    var announced: bool

    constructor (statics: seq<Header>, peerMax: nat)
      ensures this.statics == statics && this.peerMax == peerMax && !announced
    {
      this.statics := statics;
      this.peerMax := peerMax;
      announced := false;
    }

    /** A changed limit is announced again, at the start of the next block. */
    method SetPeerMax(n: nat)
      modifies this
      ensures peerMax == n && announced == (old(announced) && n == old(peerMax))
    {
      if n != peerMax {
        peerMax := n;
        announced := false;
      }
    }

    method BeginBlock(out: seq<byte>) returns (out': seq<byte>)
      modifies this`announced
      ensures announced && out' == out + BlockBytes(statics, old(announced), [])
    {
      Flags();
      out' := out;
      if !announced {
        announced := true;
        out' := WriteInt(0, 5, 0x20, out);
      }
      assert BlockBytes(statics, old(announced), []) == if old(announced) then [] else Written(0, 5, 0x20);
    }

    method Encode(h: Header, out: seq<byte>) returns (out': seq<byte>)
      ensures out' == out + FieldBytes(statics, h)
    {
      var i := 0;
      while i < |statics| && statics[i] != h
        invariant i <= |statics| && FirstFull(statics, h, 0) == FirstFull(statics, h, i)
      {
        i := i + 1;
      }
      Flags();
      if i < |statics| {
        out' := WriteInt(i + 1, 7, 0x80, out);
      } else {
        var named := EncodeName(h.name, out);
        out' := WriteString(h.value, 7, 0x00, named);
        Joined(out, NameBytes(statics, h.name), StringBytes(h.value, 7, 0x00));
      }
    }

    method EncodeName(name: seq<byte>, out: seq<byte>) returns (out': seq<byte>)
      ensures out' == out + NameBytes(statics, name)
    {
      Flags();
      var i := 0;
      while i < |statics| && statics[i].name != name
        invariant i <= |statics| && FirstName(statics, name, 0) == FirstName(statics, name, i)
      {
        i := i + 1;
      }
      if i < |statics| {
        out' := WriteInt(i + 1, 4, 0x00, out);
      } else {
        out' := WriteString(name, 7, 0x00, out + [0x00]);
        Joined(out, [0x00], StringBytes(name, 7, 0x00));
      }
    }
  }
}
