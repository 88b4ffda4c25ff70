/** HPACK decoding for any peer. A peer keeps its own history of the fields it had indexed, newest first, and
    knows how many of them the decoder still has; whatever representations it chooses, the decoder lists what
    it meant and holds what it thinks. */
module HpackPeer {
  import opened Wrappers
  import opened Bits
  import opened Hpack
  import opened HpackInt
  import opened HpackString
  import Utf8

  // ---- A peer ----

  /** Of the history the newest `kept` entries are in the table, whose limit is `max`; `settings` is what the
      decoder has advertised. */
  datatype Peer = Peer(history: seq<Header>, kept: nat, max: nat, settings: nat)

  /** An entry of the static table, from 0, or of the dynamic one, from the newest. */
  datatype Ref = Static(i: nat) | Dynamic(j: nat)

  datatype Text = Text(s: seq<byte>, huffman: bool)

  datatype Name = NameOf(ref: Ref) | New(text: Text)

  datatype Mode = Indexing | Plain | NeverIndexed

  /** What a peer may write (section 6 of RFC 7541). */
  datatype Inst = Indexed(ref: Ref) | Literal(mode: Mode, name: Name, value: Text) | Resize(n: nat)

  /** The table holds what it may, and its limit is within what was advertised. */
  ghost predicate Fair(p: Peer) { p.kept <= |p.history| && Cost(p.history[..p.kept]) <= p.max <= p.settings }

  /** The decoder's table is what the peer thinks it is. */
  ghost predicate Agree(p: Peer, d: Table) {
    && Fair(p) && d.history == p.history && d.dynamic == p.history[..p.kept] && d.maxSize == p.max && d.settingsMax == p.settings
    && d.size == Cost(d.dynamic)
  }

  ghost predicate RefOk(st: seq<Header>, p: Peer, ref: Ref) {
    match ref case Static(i) => i < |st| case Dynamic(j) => j < p.kept <= |p.history|
  }

  ghost predicate TextOk(t: Text) { Utf8.Valid(t.s) && |t.s| < TOO_FAR && (t.huffman ==> |t.s| <= MAX_STRING && |Packed(t.s)| < TOO_FAR) }

  ghost predicate NameOk(st: seq<Header>, p: Peer, name: Name) {
    match name case NameOf(ref) => RefOk(st, p, ref) case New(text) => TextOk(text)
  }

  /** What it may write now: a size update only before the first field of a block. */
  ghost predicate InstOk(st: seq<Header>, p: Peer, inst: Inst, listed: bool) {
    match inst
    case Indexed(ref) => RefOk(st, p, ref)
    case Literal(_, name, value) => NameOk(st, p, name) && TextOk(value)
    case Resize(n) => !listed && n <= p.settings
  }

  function Entry(st: seq<Header>, p: Peer, ref: Ref): Header
    requires RefOk(st, p, ref)
  {
    match ref case Static(i) => st[i] case Dynamic(j) => p.history[j]
  }

  /** The field that it means. */
  function Field(st: seq<Header>, p: Peer, inst: Inst): Header
    requires InstOk(st, p, inst, false) && !inst.Resize?
  {
    match inst
    case Indexed(ref) => Entry(st, p, ref)
    case Literal(_, name, value) => Header(match name case NameOf(ref) => Entry(st, p, ref).name case New(text) => text.s, value.s)
  }

  /** The most of the newest `kept` entries that fit. */
  function Longest(history: seq<Header>, kept: nat, max: nat): (k: nat)
    requires kept <= |history|
    ensures k <= kept && Cost(history[..k]) <= max && (k < kept ==> Cost(history[..k + 1]) > max)
  {
    if Cost(history[..kept]) <= max then kept else Longest(history, kept - 1, max)
  }

  /** What it thinks of the table afterwards. */
  function After(st: seq<Header>, p: Peer, inst: Inst): Peer
    requires InstOk(st, p, inst, false) && p.kept <= |p.history|
  {
    match inst
    case Resize(n) => p.(kept := Longest(p.history, p.kept, n), max := n)
    case Literal(Indexing, _, _) =>
      var history := [Field(st, p, inst)] + p.history;
      p.(history := history, kept := Longest(history, p.kept + 1, p.max))
    case _ => p
  }

  // ---- What it writes ----

  function IndexOf(st: seq<Header>, ref: Ref): nat { match ref case Static(i) => i + 1 case Dynamic(j) => |st| + 1 + j }

  function TextBytes(t: Text): (r: seq<byte>)
    ensures r != []
  {
    Flags();
    if t.huffman then Written(|Packed(t.s)|, 7, 0x80) + Packed(t.s) else Written(|t.s|, 7, 0x00) + t.s
  }

  /** The name of a literal, behind the bits of its kind. */
  function NameText(st: seq<Header>, name: Name, prefix: nat, flags: nat): (r: seq<byte>)
    requires FlagsFit(prefix, flags)
    ensures r != []
  {
    match name case NameOf(ref) => Written(IndexOf(st, ref), prefix, flags) case New(text) => Written(0, prefix, flags) + TextBytes(text)
  }

  lemma Kinds()
    ensures FlagsFit(7, 0x80) && FlagsFit(6, 0x40) && FlagsFit(5, 0x20) && FlagsFit(4, 0x10) && FlagsFit(4, 0x00)
    ensures Pow2(7) == 0x80 && Pow2(6) == 0x40 && Pow2(5) == 0x20 && Pow2(4) == 0x10
    ensures ClearBelow(7, 0x80) && ClearBelow(6, 0x40) && ClearBelow(5, 0x20) && ClearBelow(4, 0x10) && ClearBelow(4, 0x00)
  {
    Pow2Values();
    assert Clear(0x80, 0x80) && Clear(0x40, 0x40) && Clear(0x20, 0x20) && Clear(0x10, 0x10) && Clear(0x00, 0x10);
  }

  function InstBytes(st: seq<Header>, inst: Inst): (r: seq<byte>)
    ensures r != []
  {
    Kinds();
    match inst
    case Indexed(ref) => Written(IndexOf(st, ref), 7, 0x80)
    case Literal(Indexing, name, value) => NameText(st, name, 6, 0x40) + TextBytes(value)
    case Literal(Plain, name, value) => NameText(st, name, 4, 0x00) + TextBytes(value)
    case Literal(NeverIndexed, name, value) => NameText(st, name, 4, 0x10) + TextBytes(value)
    case Resize(n) => Written(n, 5, 0x20)
  }

  // ---- Reading it ----

  /** Tables for which every index fits the decoder's integers. */
  ghost predicate Countable(st: seq<Header>, p: Peer) { SmallTable(st) && p.settings < 0x1_0000_0000 }

  lemma {:induction false} EntriesCost(hs: seq<Header>)
    ensures |hs| <= Cost(hs)
  {
    if hs != [] { EntriesCost(hs[..|hs| - 1]); }
  }

  lemma PackedReads(s: seq<byte>, packed: seq<byte>, rest: seq<byte>)
    requires Utf8.Valid(s) && |packed| < TOO_FAR && Unpacked(packed, true, MAX_STRING) == Some(s) && FlagsFit(7, 0x80)
    ensures StringAt(Written(|packed|, 7, 0x80) + packed + rest, 7, MAX_STRING) == Some((s, rest))
  {
    Flags();
    FlagsAreClear();
    FlagAbove(7, 0x00);
    RawRoundTrip(packed, 7, 0x80, rest, true, MAX_STRING);
  }

  lemma PlainReads(s: seq<byte>, rest: seq<byte>)
    requires Utf8.Valid(s) && |s| < TOO_FAR && FlagsFit(7, 0x00)
    ensures StringAt(Written(|s|, 7, 0x00) + s + rest, 7, MAX_STRING) == Some((s, rest))
  {
    FlagsAreClear();
    RawRoundTrip(s, 7, 0x00, rest, false, MAX_STRING);
  }

  lemma TextReads(t: Text, rest: seq<byte>)
    requires TextOk(t)
    ensures StringAt(TextBytes(t) + rest, 7, MAX_STRING) == Some((t.s, rest))
  {
    Flags();
    if t.huffman {
      UnpackedIs(t.s, MAX_STRING);
      PackedReads(t.s, Packed(t.s), rest);
    } else {
      PlainReads(t.s, rest);
    }
  }

  lemma RefReads(st: seq<Header>, p: Peer, d: Table, ref: Ref)
    requires Agree(p, d) && RefOk(st, p, ref)
    ensures IndexOf(st, ref) > 0 && Lookup(st, d.dynamic, IndexOf(st, ref)) == Some(Entry(st, p, ref))
  {}

  lemma IndexOfReads(st: seq<Header>, p: Peer, ref: Ref, prefix: nat, flags: nat, rest: seq<byte>)
    requires Fair(p) && Countable(st, p) && RefOk(st, p, ref) && FlagsFit(prefix, flags) && ClearBelow(prefix, flags)
    ensures Read(Written(IndexOf(st, ref), prefix, flags) + rest, prefix) == Some((IndexOf(st, ref), rest))
  {
    EntriesCost(p.history[..p.kept]);
    ReadWritten(IndexOf(st, ref), prefix, flags, rest);
  }

  /** What the bytes of a literal are read as, from its first byte on. */
  ghost predicate ReadsLiteral(st: seq<Header>, d: Table, buf: seq<byte>, prefix: nat, h: Header, rest: seq<byte>)
    requires 1 <= prefix <= 8
  {
    var r := Read(buf, prefix);
    r.Some? && Hpack.Literal(st, d.dynamic, r.value.0, r.value.1) == Some((h, rest))
  }

  lemma LiteralReads(st: seq<Header>, p: Peer, d: Table, name: Name, value: Text, prefix: nat, flags: nat, h: Header, rest: seq<byte>)
    requires Agree(p, d) && Countable(st, p) && NameOk(st, p, name) && TextOk(value) && FlagsFit(prefix, flags) && ClearBelow(prefix, flags)
    requires h == Header(match name case NameOf(ref) => Entry(st, p, ref).name case New(text) => text.s, value.s)
    ensures ReadsLiteral(st, d, NameText(st, name, prefix, flags) + TextBytes(value) + rest, prefix, h, rest)
    ensures flags <= (NameText(st, name, prefix, flags) + TextBytes(value) + rest)[0] < flags + Pow2(prefix)
  {
    var tail := TextBytes(value) + rest;
    TextReads(value, rest);
    match name
    case NameOf(ref) =>
      Joined(Written(IndexOf(st, ref), prefix, flags), TextBytes(value), rest);
      IndexOfReads(st, p, ref, prefix, flags, tail);
      RefReads(st, p, d, ref);
    case New(text) =>
      var first := Written(0, prefix, flags);
      TextReads(text, tail);
      ReadWritten(0, prefix, flags, TextBytes(text) + tail);
      MaskBound(prefix);
      Joined(first, TextBytes(text), TextBytes(value));
      Joined(first, TextBytes(text) + TextBytes(value), rest);
      Joined(TextBytes(text), TextBytes(value), rest);
  }

  /** What one instruction is read as. */
  function RepOf(st: seq<Header>, p: Peer, inst: Inst): Rep
    requires InstOk(st, p, inst, false)
  {
    if inst.Resize? then SizeUpdate(inst.n) else Listed(Field(st, p, inst), inst.Literal? && inst.mode == Indexing)
  }

  lemma InstReads(st: seq<Header>, p: Peer, d: Table, inst: Inst, rest: seq<byte>)
    requires Agree(p, d) && Countable(st, p) && InstOk(st, p, inst, false)
    ensures RepAt(st, d.dynamic, InstBytes(st, inst) + rest) == Some((RepOf(st, p, inst), rest))
  {
    Kinds();
    match inst
    case Indexed(ref) =>
      IndexOfReads(st, p, ref, 7, 0x80, rest);
      RefReads(st, p, d, ref);
    case Resize(n) => ReadWritten(n, 5, 0x20, rest);
    case Literal(mode, name, value) =>
      var h := Field(st, p, inst);
      match mode {
        case Indexing => LiteralReads(st, p, d, name, value, 6, 0x40, h, rest);
        case Plain => LiteralReads(st, p, d, name, value, 4, 0x00, h, rest);
        case NeverIndexed => LiteralReads(st, p, d, name, value, 4, 0x10, h, rest);
      }
  }

  // ---- The table ----

  lemma {:induction false} EvictedIs(history: seq<Header>, kept: nat, max: nat)
    requires kept <= |history|
    ensures Evicted(history[..kept], max) == history[..Longest(history, kept, max)]
  {
    if Cost(history[..kept]) > max {
      assert history[..kept][..kept - 1] == history[..kept - 1];
      EvictedIs(history, kept - 1, max);
    }
  }

  /** There is one such number. */
  lemma LongestIs(history: seq<Header>, kept: nat, max: nat, k: nat)
    requires k <= kept <= |history| && Cost(history[..k]) <= max && (k < kept ==> Cost(history[..k + 1]) > max)
    ensures k == Longest(history, kept, max)
  {
    var l := Longest(history, kept, max);
    if l < k {
      assert history[..k] == history[..l + 1] + history[l + 1..k];
      CostOfPrefix(history[..l + 1], history[l + 1..k]);
    }
    if k < l {
      assert history[..l] == history[..k + 1] + history[k + 1..l];
      CostOfPrefix(history[..k + 1], history[k + 1..l]);
    }
  }

  lemma ResizeAgrees(p: Peer, d: Table, n: nat)
    requires Agree(p, d) && n <= p.settings
    ensures Agree(p.(kept := Longest(p.history, p.kept, n), max := n), Resized(d, n))
  {
    EvictedIs(p.history, p.kept, n);
  }

  lemma InsertAgrees(p: Peer, d: Table, h: Header)
    requires Agree(p, d)
    ensures var history := [h] + p.history;
            Agree(p.(history := history, kept := Longest(history, p.kept + 1, p.max)), Inserted(d, h))
  {
    var history := [h] + p.history;
    assert history[..p.kept + 1] == [h] + d.dynamic;
    EvictedIs(history, p.kept + 1, p.max);
    if EntrySize(h) > p.max {
      TooBig(h, history, Longest(history, p.kept + 1, p.max), p.max);
    }
  }

  lemma TooBig(h: Header, history: seq<Header>, k: nat, max: nat)
    requires k <= |history| && history != [] && history[0] == h && EntrySize(h) > max >= Cost(history[..k])
    ensures k == 0
  {
    if k > 0 {
      assert history[..k] == [h] + history[1..k];
      CostFront(h, history[1..k]);
    }
  }

  /** The advertised limit changes: the peer is told, and so is the decoder. */
  function Told(p: Peer, n: nat): Peer
    requires p.kept <= |p.history|
  {
    if p.max > n then p.(kept := Longest(p.history, p.kept, n), max := n, settings := n) else p.(settings := n)
  }

  lemma ToldAgrees(p: Peer, d: Table, n: nat)
    requires Agree(p, d)
    ensures Agree(Told(p, n), WithSettings(d, n))
  {
    EvictedIs(p.history, p.kept, n);
  }

  // ---- Whole blocks ----

  ghost predicate AllOk(st: seq<Header>, p: Peer, insts: seq<Inst>, listed: bool)
    decreases |insts|
  {
    insts == [] ||
    (Fair(p) && InstOk(st, p, insts[0], listed) && AllOk(st, After(st, p, insts[0]), insts[1..], listed || !insts[0].Resize?))
  }

  /** The fields that a block means, in order. */
  ghost function Fields(st: seq<Header>, p: Peer, insts: seq<Inst>, listed: bool): seq<Header>
    requires AllOk(st, p, insts, listed)
    decreases |insts|
  {
    if insts == [] then []
    else
      (if insts[0].Resize? then [] else [Field(st, p, insts[0])]) +
      Fields(st, After(st, p, insts[0]), insts[1..], listed || !insts[0].Resize?)
  }

  ghost function AfterAll(st: seq<Header>, p: Peer, insts: seq<Inst>, listed: bool): Peer
    requires AllOk(st, p, insts, listed)
    decreases |insts|
  {
    if insts == [] then p else AfterAll(st, After(st, p, insts[0]), insts[1..], listed || !insts[0].Resize?)
  }

  function BlockText(st: seq<Header>, insts: seq<Inst>): seq<byte> {
    if insts == [] then [] else InstBytes(st, insts[0]) + BlockText(st, insts[1..])
  }

  /** The decoder's table after one instruction. */
  function TableAfter(st: seq<Header>, p: Peer, d: Table, inst: Inst): Table
    requires InstOk(st, p, inst, false)
  {
    if inst.Resize? then Resized(d, inst.n)
    else if inst.Literal? && inst.mode == Indexing then Inserted(d, Field(st, p, inst))
    else d
  }

  lemma InstAgrees(st: seq<Header>, p: Peer, d: Table, inst: Inst)
    requires Agree(p, d) && InstOk(st, p, inst, false)
    ensures Agree(After(st, p, inst), TableAfter(st, p, d, inst))
  {
    match inst
    case Resize(n) => ResizeAgrees(p, d, n);
    case Literal(Indexing, _, _) => InsertAgrees(p, d, Field(st, p, inst));
    case _ =>
  }

  lemma InstDecodes(st: seq<Header>, p: Peer, d: Table, inst: Inst, rest: seq<byte>, maxList: nat, seen: bool, out: seq<Header>)
    requires Agree(p, d) && Countable(st, p) && InstOk(st, p, inst, seen)
    ensures DecodeFrom(st, d, InstBytes(st, inst) + rest, maxList, seen, out) ==
            if inst.Resize? then DecodeFrom(st, TableAfter(st, p, d, inst), rest, maxList, seen, out)
            else if Cost(out + [Field(st, p, inst)]) > maxList then Decoding(d, Some(TooLarge), out)
            else DecodeFrom(st, TableAfter(st, p, d, inst), rest, maxList, true, out + [Field(st, p, inst)])
  {
    InstReads(st, p, d, inst, rest);
    if !inst.Resize? {
      var out' := out + [Field(st, p, inst)];
      assert out'[..|out|] == out;
    }
  }

  /** What a decoding of the block comes to. */
  ghost predicate Decodes(st: seq<Header>, p: Peer, insts: seq<Inst>, maxList: nat, listed: bool, out: seq<Header>, r: Decoding)
    requires AllOk(st, p, insts, listed)
  {
    if Cost(out + Fields(st, p, insts, listed)) <= maxList then
      r.failure == None && r.out == out + Fields(st, p, insts, listed) && Agree(AfterAll(st, p, insts, listed), r.table)
    else r.failure == Some(TooLarge)
  }

  /** From the rest of a block to all of it, behind a size update. */
  lemma DecodesResize(st: seq<Header>, p: Peer, insts: seq<Inst>, maxList: nat, listed: bool, out: seq<Header>, r: Decoding)
    requires AllOk(st, p, insts, listed) && insts != [] && insts[0].Resize?
    requires Decodes(st, After(st, p, insts[0]), insts[1..], maxList, listed, out, r)
    ensures Decodes(st, p, insts, maxList, listed, out, r)
  {
    var more := Fields(st, After(st, p, insts[0]), insts[1..], listed);
    assert [] + more == more;
  }

  /** And behind a field. */
  lemma DecodesField(st: seq<Header>, p: Peer, insts: seq<Inst>, maxList: nat, listed: bool, out: seq<Header>, h: Header, r: Decoding)
    requires AllOk(st, p, insts, listed) && insts != [] && !insts[0].Resize? && h == Field(st, p, insts[0])
    requires if Cost(out + [h]) > maxList then r.failure == Some(TooLarge)
             else Decodes(st, After(st, p, insts[0]), insts[1..], maxList, true, out + [h], r)
    ensures Decodes(st, p, insts, maxList, listed, out, r)
  {
    var more := Fields(st, After(st, p, insts[0]), insts[1..], true);
    assert out + ([h] + more) == out + [h] + more;
    CostOfPrefix(out + [h], more);
  }

  lemma {:induction false} BlockDecodes(st: seq<Header>, p: Peer, d: Table, insts: seq<Inst>, maxList: nat, listed: bool, out: seq<Header>)
    requires Agree(p, d) && Countable(st, p) && AllOk(st, p, insts, listed) && Cost(out) <= maxList
    ensures Decodes(st, p, insts, maxList, listed, out, DecodeFrom(st, d, BlockText(st, insts), maxList, listed, out))
    decreases |insts|
  {
    if insts == [] {
      assert out + [] == out;
    } else {
      var (inst, rest) := (insts[0], BlockText(st, insts[1..]));
      var (p', d') := (After(st, p, inst), TableAfter(st, p, d, inst));
      var r := DecodeFrom(st, d, InstBytes(st, inst) + rest, maxList, listed, out);
      InstDecodes(st, p, d, inst, rest, maxList, listed, out);
      InstAgrees(st, p, d, inst);
      if inst.Resize? {
        BlockDecodes(st, p', d', insts[1..], maxList, listed, out);
        DecodesResize(st, p, insts, maxList, listed, out, r);
      } else {
        var h := Field(st, p, inst);
        if Cost(out + [h]) <= maxList { BlockDecodes(st, p', d', insts[1..], maxList, true, out + [h]); }
        DecodesField(st, p, insts, maxList, listed, out, h, r);
      }
    }
  }

  // ---- Whole conversations ----

  /** What the peer and the decoder see, in order: a header block, or a limit that the decoder advertises. */
  datatype Turn = Block(insts: seq<Inst>) | Advertise(n: nat)

  ghost predicate TurnOk(st: seq<Header>, p: Peer, turn: Turn, maxList: nat) {
    match turn
    case Block(insts) => AllOk(st, p, insts, false) && Cost(Fields(st, p, insts, false)) <= maxList
    case Advertise(n) => n < 0x1_0000_0000
  }

  ghost function TurnAfter(st: seq<Header>, p: Peer, turn: Turn, maxList: nat): Peer
    requires Fair(p) && TurnOk(st, p, turn, maxList)
  {
    match turn case Block(insts) => AfterAll(st, p, insts, false) case Advertise(n) => Told(p, n)
  }

  ghost predicate TalkOk(st: seq<Header>, p: Peer, turns: seq<Turn>, maxList: nat)
    decreases |turns|
  {
    turns == [] || (Fair(p) && TurnOk(st, p, turns[0], maxList) && TalkOk(st, TurnAfter(st, p, turns[0], maxList), turns[1..], maxList))
  }

  /** The lists that the peer means, block by block, and what it thinks of the table at the end. */
  ghost function Meant(st: seq<Header>, p: Peer, turns: seq<Turn>, maxList: nat): (seq<seq<Header>>, Peer)
    requires TalkOk(st, p, turns, maxList)
    decreases |turns|
  {
    if turns == [] then ([], p)
    else
      var (lists, p') := Meant(st, TurnAfter(st, p, turns[0], maxList), turns[1..], maxList);
      (match turns[0] case Block(insts) => [Fields(st, p, insts, false)] + lists case Advertise(_) => lists, p')
  }

  /** The lists that the decoder gives, as long as no block fails. */
  ghost function Heard(st: seq<Header>, d: Table, turns: seq<Turn>, maxList: nat): (Option<seq<seq<Header>>>, Table)
    decreases |turns|
  {
    if turns == [] then (Some([]), d)
    else match turns[0]
      case Advertise(n) => Heard(st, WithSettings(d, n), turns[1..], maxList)
      case Block(insts) =>
        var r := DecodeBlock(st, d, BlockText(st, insts), maxList);
        if r.failure.Some? then (None, r.table)
        else
          var (lists, d') := Heard(st, r.table, turns[1..], maxList);
          (match lists case None => None case Some(lists) => Some([r.out] + lists), d')
  }

  /** Whatever representations a peer chooses, in any number of blocks and under any limits advertised in between,
      the decoder gives exactly the lists that it means and holds exactly the front of its history that it
      thinks is there. */
  lemma {:induction false} PeerIsUnderstood(st: seq<Header>, p: Peer, d: Table, turns: seq<Turn>, maxList: nat)
    requires Agree(p, d) && Countable(st, p) && TalkOk(st, p, turns, maxList)
    ensures var (heard, d') := Heard(st, d, turns, maxList);
            var (meant, p') := Meant(st, p, turns, maxList);
            heard == Some(meant) && Agree(p', d')
    decreases |turns|
  {
    if turns != [] {
      match turns[0]
      case Advertise(n) =>
        ToldAgrees(p, d, n);
        PeerIsUnderstood(st, Told(p, n), WithSettings(d, n), turns[1..], maxList);
      case Block(insts) =>
        BlockDecodes(st, p, d, insts, maxList, false, []);
        assert [] + Fields(st, p, insts, false) == Fields(st, p, insts, false);
        SettingsStay(st, p, insts, false);
        PeerIsUnderstood(st, AfterAll(st, p, insts, false), DecodeBlock(st, d, BlockText(st, insts), maxList).table, turns[1..], maxList);
    }
  }

  lemma {:induction false} SettingsStay(st: seq<Header>, p: Peer, insts: seq<Inst>, listed: bool)
    requires AllOk(st, p, insts, listed)
    ensures AfterAll(st, p, insts, listed).settings == p.settings
    decreases |insts|
  {
    if insts != [] { SettingsStay(st, After(st, p, insts[0]), insts[1..], listed || !insts[0].Resize?); }
  }

  /** A fresh decoder agrees with a peer that has said nothing. */
  lemma FreshAgrees(max: nat)
    ensures Agree(Peer([], 0, max, max), Table([], 0, max, max, []))
  {}

  // ---- What no peer may write ----

  /** Index 0 and an index beyond both tables end the connection's decoding, as a field and as a name. */
  lemma NoSuchIndex(st: seq<Header>, p: Peer, d: Table, idx: nat, rest: seq<byte>, maxList: nat, seen: bool, out: seq<Header>)
    requires Agree(p, d) && idx < TOO_FAR && FlagsFit(7, 0x80)
    ensures (idx == 0 || idx > |st| + p.kept) <==> RepAt(st, d.dynamic, Written(idx, 7, 0x80) + rest) == None
    ensures idx == 0 || idx > |st| + p.kept ==>
              DecodeFrom(st, d, Written(idx, 7, 0x80) + rest, maxList, seen, out) == Decoding(d, Some(Compression), out)
  {
    Kinds();
    ReadWritten(idx, 7, 0x80, rest);
  }

  /** A size update is refused exactly behind a field, or beyond what was advertised. */
  lemma BadResize(st: seq<Header>, p: Peer, d: Table, n: nat, maxList: nat, seen: bool, out: seq<Header>)
    requires Agree(p, d) && n < TOO_FAR && FlagsFit(5, 0x20)
    ensures DecodeFrom(st, d, Written(n, 5, 0x20), maxList, seen, out).failure ==
            if seen || n > p.settings then Some(Compression) else None
  {
    Kinds();
    ReadWritten(n, 5, 0x20, []);
    var buf := Written(n, 5, 0x20);
    assert buf + [] == buf;
  }

  // ---- A block that the decoder is not shown ----

  /** The index of the newest entry. */
  function Newest(): Inst { Indexed(Dynamic(0)) }

  /** A field indexed in a block that the decoder never sees is the newest entry for the peer alone: its index then
      reads as the entry before it, or as nothing at all. */
  lemma SkippedIsLost(st: seq<Header>, p: Peer, d: Table, inst: Inst, p': Peer, rest: seq<byte>)
    requires Agree(p, d) && Countable(st, p) && InstOk(st, p, inst, false) && inst.Literal? && inst.mode == Indexing
    requires p' == After(st, p, inst) && EntrySize(Field(st, p, inst)) <= p.max
    ensures InstOk(st, p', Newest(), false) && Field(st, p', Newest()) == Field(st, p, inst)
    ensures RepAt(st, d.dynamic, InstBytes(st, Newest()) + rest) == if p.kept > 0 then Some((Listed(p.history[0], false), rest)) else None
  {
    assert p'.history[..1] == [Field(st, p, inst)];
    assert Cost([Field(st, p, inst)]) == EntrySize(Field(st, p, inst)) by { assert [Field(st, p, inst)][..0] == []; }
    if p.kept > 0 {
      InstReads(st, p, d, Newest(), rest);
    } else {
      Kinds();
      ReadWritten(|st| + 1, 7, 0x80, rest);
    }
  }

  // ---- A limit that is the peer's own ----

  /** Where the decoder takes as its limit one that the peer has named for its own table, an entry of the peer's is
      still there exactly if it is among the newest that fit that. */
  lemma OwnLimitDrops(st: seq<Header>, p: Peer, d: Table, n: nat, j: nat, rest: seq<byte>)
    requires Agree(p, d) && Countable(st, p) && j < p.kept
    ensures RepAt(st, WithSettings(d, n).dynamic, InstBytes(st, Indexed(Dynamic(j))) + rest) ==
            if j < Longest(p.history, p.kept, n) then Some((Listed(p.history[j], false), rest)) else None
  {
    Kinds();
    IndexOfReads(st, p, Dynamic(j), 7, 0x80, rest);
    EvictedIs(p.history, p.kept, n);
  }

  /** The list is what the peer meant, or too large. */
  ghost predicate Lists(st: seq<Header>, p: Peer, insts: seq<Inst>, maxList: nat, r: Decoding)
    requires AllOk(st, p, insts, false)
  {
    var meant := Fields(st, p, insts, false);
    if Cost(meant) <= maxList then r.failure == None && r.out == meant else r.failure == Some(TooLarge)
  }

  /** A peer that is allowed more may write all that it might, and means the same. */
  lemma {:induction false} MoreIsAllowed(st: seq<Header>, p: Peer, insts: seq<Inst>, listed: bool, n: nat)
    requires AllOk(st, p, insts, listed) && n >= p.settings
    ensures AllOk(st, p.(settings := n), insts, listed)
    ensures Fields(st, p.(settings := n), insts, listed) == Fields(st, p, insts, listed)
    decreases |insts|
  {
    if insts != [] {
      assert After(st, p.(settings := n), insts[0]) == After(st, p, insts[0]).(settings := n);
      MoreIsAllowed(st, After(st, p, insts[0]), insts[1..], listed || !insts[0].Resize?, n);
    }
  }

  /** With such a limit every block that the peer may write still lists what it means exactly where the limit is not
      below the one that the decoder has advertised. */
  lemma OwnLimitExactly(st: seq<Header>, p: Peer, d: Table, n: nat, maxList: nat)
    requires Agree(p, d) && Countable(st, p) && n < 0x1_0000_0000
    ensures n >= p.settings <==>
            forall insts | AllOk(st, p, insts, false) :: Lists(st, p, insts, maxList, DecodeBlock(st, WithSettings(d, n), BlockText(st, insts), maxList))
  {
    var d' := WithSettings(d, n);
    if n >= p.settings {
      forall insts | AllOk(st, p, insts, false) ensures Lists(st, p, insts, maxList, DecodeBlock(st, d', BlockText(st, insts), maxList)) {
        MoreIsAllowed(st, p, insts, false, n);
        BlockDecodes(st, p.(settings := n), d', insts, maxList, false, []);
        assert [] + Fields(st, p, insts, false) == Fields(st, p, insts, false);
      }
    } else {
      GrowsInVain(st, p, d, n, maxList);
    }
  }

  /** Below it, announcing the advertised limit is enough to end decoding. */
  lemma GrowsInVain(st: seq<Header>, p: Peer, d: Table, n: nat, maxList: nat)
    requires Agree(p, d) && Countable(st, p) && n < p.settings
    ensures AllOk(st, p, [Resize(p.settings)], false)
    ensures DecodeBlock(st, WithSettings(d, n), BlockText(st, [Resize(p.settings)]), maxList).failure == Some(Compression)
    ensures !Lists(st, p, [Resize(p.settings)], maxList, DecodeBlock(st, WithSettings(d, n), BlockText(st, [Resize(p.settings)]), maxList))
  {
    var insts := [Resize(p.settings)];
    assert insts[1..] == [] && BlockText(st, insts) == InstBytes(st, insts[0]) + [];
    Kinds();
    ReadWritten(p.settings, 5, 0x20, []);
  }
}
