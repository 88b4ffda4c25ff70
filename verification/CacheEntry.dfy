/** The on-disk format of a cached response. */
module CacheEntry {
  import opened Wrappers
  import opened Bits
  import BigEndian
  import Utf8

  const CR: byte := 0x0D
  const LF: byte := 0x0A
  const COLON: byte := 0x3A
  const SPACE: byte := 0x20
  const MAGIC: seq<byte> := [0x4F, 0x58, 0x43, 0x48]
  const VERSION: byte := 1
  const HEADER_LEN: nat := 37
  const U16: nat := 0x1_0000
  const U32: nat := 0x1_0000_0000
  const U64: nat := 0x1_0000_0000_0000_0000

  type Field = (seq<byte>, seq<byte>)

  datatype Entry = Entry(status: nat, headers: seq<Field>, body: seq<byte>, expires: nat, created: nat)

  datatype Fault = NotAnEntry | Truncated | KeyMismatch

  // ---- The header block ----

  /** Where the two bytes first stand next to each other. */
  function Find(s: seq<byte>, a: byte, b: byte): (r: Option<nat>)
    ensures r.Some? ==> r.value + 2 <= |s|
  {
    if |s| < 2 then None
    else if s[0] == a && s[1] == b then Some(0)
    else match Find(s[1..], a, b) case None => None case Some(n) => Some(n + 1)
  }

  /** What a line stands for: nothing without a colon and a space. */
  function LineField(line: seq<byte>): seq<Field> {
    match Find(line, COLON, SPACE) case None => [] case Some(n) => [(line[..n], line[n + 2..])]
  }

  function Fields(s: seq<byte>): seq<Field>
    decreases |s|
  {
    match Find(s, CR, LF)
    case None => LineField(s)
    case Some(n) => LineField(s[..n]) + Fields(s[n + 2..])
  }

  function FieldBytes(f: Field): seq<byte> { f.0 + [COLON, SPACE] + f.1 + [CR, LF] }

  function Block(fs: seq<Field>): seq<byte> {
    if fs == [] then [] else FieldBytes(fs[0]) + Block(fs[1..])
  }

  /** No line break inside, and no colon and space in the name. */
  ghost predicate Plain(f: Field) {
    Find(f.0, CR, LF) == None && Find(f.1, CR, LF) == None && Find(f.0, COLON, SPACE) == None
  }

  ghost predicate AllPlain(fs: seq<Field>) { forall i | 0 <= i < |fs| :: Plain(fs[i]) }

  lemma {:induction false} FindAt(x: seq<byte>, a: byte, b: byte, rest: seq<byte>)
    requires a != b && Find(x, a, b) == None
    ensures Find(x + ([a, b] + rest), a, b) == Some(|x|)
    decreases |x|
  {
    var s := x + ([a, b] + rest);
    if x == [] {
      assert s == [a, b] + rest;
    } else {
      assert s[1..] == x[1..] + ([a, b] + rest);
      if |x| == 1 { assert s[1] == a; } else { assert s[1] == x[1]; }
      FindAt(x[1..], a, b, rest);
    }
  }

  lemma {:induction false} FindInside(x: seq<byte>, y: seq<byte>, a: byte, b: byte)
    requires Find(x, a, b) == None && Find(y, a, b) == None
    requires x != [] && y != [] ==> x[|x| - 1] != a || y[0] != b
    ensures Find(x + y, a, b) == None
    decreases |x|
  {
    if x == [] {
      assert x + y == y;
    } else {
      assert (x + y)[1..] == x[1..] + y;
      if |x| > 1 { assert x[1..][|x| - 2] == x[|x| - 1] && (x + y)[1] == x[1]; }
      FindInside(x[1..], y, a, b);
    }
  }

  lemma TailSlice(s: seq<byte>, i: nat, j: nat)
    requires 1 <= i <= j <= |s|
    ensures s[i..j] == s[1..][i - 1..j - 1]
  {
    assert s[1..][..j - 1] == s[1..j];
    assert s[1..j][i - 1..] == s[i..j];
  }

  lemma {:induction false} FindParts(s: seq<byte>, a: byte, b: byte, i: nat, j: nat)
    requires i <= j <= |s| && (Find(s, a, b).Some? ==> j <= Find(s, a, b).value)
    ensures Find(s[i..j], a, b) == None
    decreases |s|
  {
    if j - i >= 2 {
      if i == 0 {
        assert s[..j][1..] == s[1..][..j - 1];
        FindParts(s[1..], a, b, 0, j - 1);
        assert s[i..j][1..] == s[1..][0..j - 1] && s[i..j][0] == s[0] && s[i..j][1] == s[1];
      } else {
        TailSlice(s, i, j);
        FindParts(s[1..], a, b, i - 1, j - 1);
      }
    }
  }

  lemma LineIsPlain(f: Field)
    requires Plain(f)
    ensures Find(f.0 + [COLON, SPACE] + f.1, CR, LF) == None
    ensures LineField(f.0 + [COLON, SPACE] + f.1) == [f]
  {
    var (n, v) := f;
    FindInside([COLON, SPACE], v, CR, LF);
    FindInside(n, [COLON, SPACE] + v, CR, LF);
    assert n + [COLON, SPACE] + v == n + ([COLON, SPACE] + v);
    FindAt(n, COLON, SPACE, v);
    assert (n + ([COLON, SPACE] + v))[..|n|] == n && (n + ([COLON, SPACE] + v))[|n| + 2..] == v;
  }

  lemma {:induction false} FieldsOfBlock(fs: seq<Field>)
    requires AllPlain(fs)
    ensures Fields(Block(fs)) == fs
    decreases |fs|
  {
    if fs != [] {
      var line := fs[0].0 + [COLON, SPACE] + fs[0].1;
      var s := Block(fs);
      assert Plain(fs[0]);
      LineIsPlain(fs[0]);
      FindAt(line, CR, LF, Block(fs[1..]));
      assert s == line + ([CR, LF] + Block(fs[1..]));
      assert s[..|line|] == line && s[|line| + 2..] == Block(fs[1..]);
      FieldsOfBlock(fs[1..]);
      assert [fs[0]] + fs[1..] == fs;
    }
  }

  lemma LineGivesPlain(line: seq<byte>)
    requires Find(line, CR, LF) == None
    ensures AllPlain(LineField(line))
  {
    if Find(line, COLON, SPACE).Some? {
      var n := Find(line, COLON, SPACE).value;
      FindParts(line, CR, LF, 0, n);
      FindParts(line, CR, LF, n + 2, |line|);
      FindParts(line, COLON, SPACE, 0, n);
      assert line[0..n] == line[..n] && line[n + 2..|line|] == line[n + 2..];
    }
  }

  /** Whatever is read is plain. */
  lemma {:induction false} FieldsArePlain(s: seq<byte>)
    ensures AllPlain(Fields(s))
    decreases |s|
  {
    var at := Find(s, CR, LF);
    if at.None? {
      LineGivesPlain(s);
    } else {
      FindParts(s, CR, LF, 0, at.value);
      assert s[0..at.value] == s[..at.value];
      LineGivesPlain(s[..at.value]);
      FieldsArePlain(s[at.value + 2..]);
    }
  }

  /** So a header list comes back exactly when it is plain. */
  lemma BlockRoundTrip(fs: seq<Field>)
    ensures Fields(Block(fs)) == fs <==> AllPlain(fs)
  {
    if AllPlain(fs) { FieldsOfBlock(fs); } else { FieldsArePlain(Block(fs)); }
  }

  // ---- The whole entry ----

  /** The part of fixed length: each number cut to its width. */
  function Fixed(status: nat, created: nat, expires: nat, key: nat, headers: nat, body: nat): (s: seq<byte>)
    ensures |s| == HEADER_LEN
  {
    MAGIC + [VERSION] + BigEndian.Bytes(status, 2) + BigEndian.Bytes(created, 8) + BigEndian.Bytes(expires, 8)
    + BigEndian.Bytes(key, 2) + BigEndian.Bytes(headers, 4) + BigEndian.Bytes(body, 8)
  }

  function EntryBytes(key: seq<byte>, status: nat, headers: seq<Field>, body: seq<byte>, now: nat, ttl: nat): seq<byte> {
    var block := Block(headers);
    Fixed(status, now, now + ttl, |key|, |block|, |body|) + key + block + body
  }

  /** The header list of a block; one that is not text has none. */
  function HeadersOf(block: seq<byte>): seq<Field> { if Utf8.Valid(block) then Fields(block) else [] }

  /** The lengths of key, headers and body that an entry claims. */
  function Lengths(buf: seq<byte>): (nat, nat, nat)
    requires |buf| >= HEADER_LEN
  {
    (BigEndian.Value(buf[23..25]), BigEndian.Value(buf[25..29]), BigEndian.Value(buf[29..37]))
  }

  /** The source's checked sum of lengths fails where this one is beyond 64 bits, and no buffer is. */
  function Decode(buf: seq<byte>, key: seq<byte>): Result<Entry, Fault> {
    if |buf| < HEADER_LEN then Err(Truncated)
    else if buf[..4] != MAGIC || buf[4] != VERSION then Err(NotAnEntry)
    else
      var (k, h, b) := Lengths(buf);
      if |buf| < HEADER_LEN + k + h + b then Err(Truncated)
      else if buf[HEADER_LEN..HEADER_LEN + k] != key then Err(KeyMismatch)
      else
        var (block, body) := (buf[HEADER_LEN + k..HEADER_LEN + k + h], buf[HEADER_LEN + k + h..HEADER_LEN + k + h + b]);
        Ok(Entry(BigEndian.Value(buf[5..7]), HeadersOf(block), body, BigEndian.Value(buf[15..23]), BigEndian.Value(buf[7..15])))
  }

  ghost predicate Fits(status: nat, now: nat, expires: nat, headers: nat, body: nat) {
    status < U16 && now < U64 && expires < U64 && headers < U32 && body < U64
  }

  lemma FixedSlices(status: nat, created: nat, expires: nat, key: nat, headers: nat, body: nat, f: seq<byte>)
    requires f == Fixed(status, created, expires, key, headers, body)
    ensures f[..4] == MAGIC && f[4] == VERSION && f[5..7] == BigEndian.Bytes(status, 2) && f[7..15] == BigEndian.Bytes(created, 8)
    ensures f[15..23] == BigEndian.Bytes(expires, 8) && f[23..25] == BigEndian.Bytes(key, 2)
    ensures f[25..29] == BigEndian.Bytes(headers, 4) && f[29..37] == BigEndian.Bytes(body, 8)
  {
    SlicesOf(MAGIC + [VERSION], BigEndian.Bytes(status, 2), BigEndian.Bytes(created, 8), BigEndian.Bytes(expires, 8), BigEndian.Bytes(key, 2),
             BigEndian.Bytes(headers, 4), BigEndian.Bytes(body, 8), f);
    assert f[..4] == f[..5][..4] && f[4] == f[..5][4];
  }

  lemma SlicesOf(a: seq<byte>, b: seq<byte>, c: seq<byte>, d: seq<byte>, e: seq<byte>, g: seq<byte>, h: seq<byte>, f: seq<byte>)
    requires |a| == 5 && |b| == 2 && |c| == 8 && |d| == 8 && |e| == 2 && |g| == 4 && |h| == 8 && f == a + b + c + d + e + g + h
    ensures f[..5] == a && f[5..7] == b && f[7..15] == c && f[15..23] == d && f[23..25] == e && f[25..29] == g && f[29..37] == h
  {}

  lemma WideLimits()
    ensures BigEndian.Limit(2) == U16 && BigEndian.Limit(4) == U32 && BigEndian.Limit(8) == U64
  {
    BigEndian.Limits();
    assert BigEndian.Limit(6) == 256 * BigEndian.Limit(5);
    assert BigEndian.Limit(8) == 256 * BigEndian.Limit(7);
  }

  /** The numbers in a buffer that begins with a written fixed part; a key length keeps 16 bits. */
  lemma FixedReads(status: nat, created: nat, expires: nat, key: nat, headers: nat, body: nat, buf: seq<byte>)
    requires Fits(status, created, expires, headers, body)
    requires |buf| >= HEADER_LEN && buf[..HEADER_LEN] == Fixed(status, created, expires, key, headers, body)
    ensures buf[..4] == MAGIC && buf[4] == VERSION && BigEndian.Value(buf[5..7]) == status
    ensures BigEndian.Value(buf[7..15]) == created && BigEndian.Value(buf[15..23]) == expires
    ensures Lengths(buf).1 == headers && Lengths(buf).2 == body && Lengths(buf).0 < U16 && (Lengths(buf).0 == key <==> key < U16)
  {
    var f := buf[..HEADER_LEN];
    FixedSlices(status, created, expires, key, headers, body, f);
    WideLimits();
    assert buf[..4] == f[..4] && buf[5..7] == f[5..7] && buf[7..15] == f[7..15] && buf[15..23] == f[15..23];
    assert buf[23..25] == f[23..25] && buf[25..29] == f[25..29] && buf[29..37] == f[29..37];
    BigEndian.ValueOfBytes(status, 2);
    BigEndian.ValueOfBytes(created, 8);
    BigEndian.ValueOfBytes(expires, 8);
    BigEndian.ValueOfBytes(key, 2);
    BigEndian.ValueBound(buf[23..25]);
    BigEndian.ValueOfBytes(headers, 4);
    BigEndian.ValueOfBytes(body, 8);
  }

  lemma {:induction false} BlockIsText(fs: seq<Field>)
    requires forall i | 0 <= i < |fs| :: Utf8.Valid(fs[i].0) && Utf8.Valid(fs[i].1)
    ensures Utf8.Valid(Block(fs))
    decreases |fs|
  {
    if fs != [] {
      BlockIsText(fs[1..]);
      FieldIsText(fs[0]);
      Utf8.ValidConcat(FieldBytes(fs[0]), Block(fs[1..]));
    }
  }

  lemma FieldIsText(f: Field)
    requires Utf8.Valid(f.0) && Utf8.Valid(f.1)
    ensures Utf8.Valid(FieldBytes(f))
  {
    Utf8.AsciiIsValid([COLON, SPACE]);
    Utf8.AsciiIsValid([CR, LF]);
    Utf8.ValidConcat(f.0, [COLON, SPACE]);
    Utf8.ValidConcat(f.0 + [COLON, SPACE], f.1);
    Utf8.ValidConcat(f.0 + [COLON, SPACE] + f.1, [CR, LF]);
  }

  ghost predicate AllText(fs: seq<Field>) { forall i | 0 <= i < |fs| :: Utf8.Valid(fs[i].0) && Utf8.Valid(fs[i].1) }

  lemma EntryParts(fixed: seq<byte>, key: seq<byte>, block: seq<byte>, body: seq<byte>, buf: seq<byte>)
    requires |fixed| == HEADER_LEN && buf == fixed + key + block + body
    ensures buf[..HEADER_LEN] == fixed && buf[HEADER_LEN..HEADER_LEN + |key|] == key
    ensures buf[HEADER_LEN + |key|..HEADER_LEN + |key| + |block|] == block
    ensures buf[HEADER_LEN + |key| + |block|..HEADER_LEN + |key| + |block| + |body|] == body
  {}

  /** Under another key an entry is found to be another's. */
  lemma KeyDiffers(buf: seq<byte>, asked: seq<byte>, k: nat, h: nat, b: nat)
    requires |buf| >= HEADER_LEN && buf[..4] == MAGIC && buf[4] == VERSION && Lengths(buf) == (k, h, b)
    requires |buf| >= HEADER_LEN + k + h + b && buf[HEADER_LEN..HEADER_LEN + k] != asked
    ensures Decode(buf, asked) == Err(KeyMismatch)
  {}

  lemma DecodesTo(buf: seq<byte>, asked: seq<byte>, key: seq<byte>, block: seq<byte>, body: seq<byte>, e: Entry)
    requires |buf| == HEADER_LEN + |key| + |block| + |body| && buf[..4] == MAGIC && buf[4] == VERSION
    requires Lengths(buf) == (|key|, |block|, |body|) && buf[HEADER_LEN..HEADER_LEN + |key|] == key
    requires buf[HEADER_LEN + |key|..HEADER_LEN + |key| + |block|] == block && Utf8.Valid(block)
    requires buf[HEADER_LEN + |key| + |block|..HEADER_LEN + |key| + |block| + |body|] == body
    requires e == Entry(BigEndian.Value(buf[5..7]), Fields(block), body, BigEndian.Value(buf[15..23]), BigEndian.Value(buf[7..15]))
    ensures Decode(buf, asked) == if asked == key then Ok(e) else Err(KeyMismatch)
  {
    if asked != key { KeyDiffers(buf, asked, |key|, |block|, |body|); }
  }

  /** An entry is read back as it was written for its own key, and for no other. */
  lemma EntryRoundTrip(key: seq<byte>, status: nat, headers: seq<Field>, body: seq<byte>, now: nat, ttl: nat, asked: seq<byte>)
    requires Fits(status, now, now + ttl, |Block(headers)|, |body|) && AllText(headers) && |key| < U16
    ensures Decode(EntryBytes(key, status, headers, body, now, ttl), asked) ==
            if asked == key then Ok(Entry(status, Fields(Block(headers)), body, now + ttl, now)) else Err(KeyMismatch)
  {
    var block := Block(headers);
    var buf := EntryBytes(key, status, headers, body, now, ttl);
    EntryParts(Fixed(status, now, now + ttl, |key|, |block|, |body|), key, block, body, buf);
    FixedReads(status, now, now + ttl, |key|, |block|, |body|, buf);
    BlockIsText(headers);
    DecodesTo(buf, asked, key, block, body, Entry(status, Fields(block), body, now + ttl, now));
  }

  /** A key that is too long for its 16-bit length is never found again. */
  lemma LongKeyIsLost(key: seq<byte>, status: nat, headers: seq<Field>, body: seq<byte>, now: nat, ttl: nat)
    requires Fits(status, now, now + ttl, |Block(headers)|, |body|) && |key| >= U16
    ensures Decode(EntryBytes(key, status, headers, body, now, ttl), key) == Err(KeyMismatch)
  {
    var block := Block(headers);
    var buf := EntryBytes(key, status, headers, body, now, ttl);
    EntryParts(Fixed(status, now, now + ttl, |key|, |block|, |body|), key, block, body, buf);
    FixedReads(status, now, now + ttl, |key|, |block|, |body|, buf);
    KeyDiffers(buf, key, Lengths(buf).0, |block|, |body|);
  }

  /** Status, headers, body and both times come back exactly, if and only if the headers are plain. */
  lemma EntryExactly(key: seq<byte>, status: nat, headers: seq<Field>, body: seq<byte>, now: nat, ttl: nat)
    requires Fits(status, now, now + ttl, |Block(headers)|, |body|) && AllText(headers) && |key| < U16
    ensures Decode(EntryBytes(key, status, headers, body, now, ttl), key) == Ok(Entry(status, headers, body, now + ttl, now)) <==> AllPlain(headers)
  {
    EntryRoundTrip(key, status, headers, body, now, ttl, key);
    BlockRoundTrip(headers);
  }

  /** A header `a` whose value is `b`, a line end and `c`. */
  const BROKEN: Field := ([0x61], [0x62, CR, LF, 0x63])

  lemma LineEndIsLost(key: seq<byte>, body: seq<byte>, now: nat, ttl: nat)
    requires Fits(200, now, now + ttl, |Block([BROKEN])|, |body|) && |key| < U16
    ensures Decode(EntryBytes(key, 200, [BROKEN], body, now, ttl), key) != Ok(Entry(200, [BROKEN], body, now + ttl, now))
  {
    Utf8.AsciiIsValid(BROKEN.0);
    Utf8.AsciiIsValid(BROKEN.1);
    assert BROKEN.1[1..] == [CR, LF, 0x63] && Find([CR, LF, 0x63], CR, LF) == Some(0);
    assert !Plain([BROKEN][0]);
    EntryExactly(key, 200, [BROKEN], body, now, ttl);
  }

  /** An interrupted write is seen: every strict prefix is cut short, whatever key is asked for. */
  lemma PrefixIsTruncated(key: seq<byte>, status: nat, headers: seq<Field>, body: seq<byte>, now: nat, ttl: nat, n: nat, asked: seq<byte>)
    requires Fits(status, now, now + ttl, |Block(headers)|, |body|) && |key| < U16
    requires n < |EntryBytes(key, status, headers, body, now, ttl)|
    ensures Decode(EntryBytes(key, status, headers, body, now, ttl)[..n], asked) == Err(Truncated)
  {
    if n >= HEADER_LEN {
      var block := Block(headers);
      var fixed := Fixed(status, now, now + ttl, |key|, |block|, |body|);
      var buf := EntryBytes(key, status, headers, body, now, ttl);
      assert buf[..n][..HEADER_LEN] == fixed;
      FixedReads(status, now, now + ttl, |key|, |block|, |body|, buf[..n]);
    }
  }

  method EncodeEntry(key: seq<byte>, status: nat, headers: seq<Field>, body: seq<byte>, now: nat, ttl: nat) returns (out: seq<byte>)
    ensures out == EntryBytes(key, status, headers, body, now, ttl)
  {
    var block: seq<byte> := [];
    for i := 0 to |headers|
      invariant block + Block(headers[i..]) == Block(headers)
    {
      ghost var before := block;
      block := block + headers[i].0;
      block := block + [COLON, SPACE];
      block := block + headers[i].1;
      block := block + [CR, LF];
      assert headers[i..][1..] == headers[i + 1..];
      assert before + (FieldBytes(headers[i]) + Block(headers[i + 1..])) == block + Block(headers[i + 1..]);
    }
    assert headers[|headers|..] == [] && block + [] == block;
    out := Fixed(status, now, now + ttl, |key|, |block|, |body|);
    out := out + key;
    out := out + block;
    out := out + body;
  }
}
