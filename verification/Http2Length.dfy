/** Which header lists declare a length, and which. Told from the text: what a writer of decimal numbers, from
    the most significant digit on, would have put there. */
module Http2Length {
  import opened Wrappers
  import opened Bits
  import opened Http2Conn
  import Hpack
  import HpackStatic

  const PLUS: byte := 0x2B
  const ZERO: byte := 0x30

  /** `content-length` */
  const NAME: seq<byte> := [0x63, 0x6F, 0x6E, 0x74, 0x65, 0x6E, 0x74, 0x2D, 0x6C, 0x65, 0x6E, 0x67, 0x74, 0x68]

  lemma NameIs()
    ensures CONTENT_LENGTH == NAME
  {
    var s := "content-length";
    assert |s| == 14;
    assert forall i | 0 <= i < 14 :: HpackStatic.Text(s)[i] == s[i] as int % 0x80;
    assert CONTENT_LENGTH == HpackStatic.Text(s);
  }

  /** The decimal text of a number. */
  function Digits(n: nat): (s: seq<byte>)
    ensures s != []
  {
    if n < 10 then [ZERO + n] else Digits(n / 10) + [ZERO + n % 10]
  }

  function Zeros(k: nat): seq<byte> { seq(k, _ => ZERO) }

  /** The texts of a number that the source takes: with leading zeros, and behind a plus sign. */
  function Spelled(n: nat, plus: bool, zeros: nat): seq<byte> { (if plus then [PLUS] else []) + (Zeros(zeros) + Digits(n)) }

  // ---- From the number to its text and back ----

  lemma {:induction false} DigitsRead(n: nat, zeros: nat)
    ensures AllDigits(Zeros(zeros) + Digits(n)) && Decimal(Zeros(zeros) + Digits(n)) == n
  {
    var s := Zeros(zeros) + Digits(n);
    if n < 10 {
      assert s[..|s| - 1] == Zeros(zeros);
      ZerosRead(zeros);
    } else {
      DigitsRead(n / 10, zeros);
      assert s[..|s| - 1] == Zeros(zeros) + Digits(n / 10);
      assert s == s[..|s| - 1] + [ZERO + n % 10];
    }
  }

  lemma {:induction false} ZerosRead(k: nat)
    ensures AllDigits(Zeros(k)) && Decimal(Zeros(k)) == 0
  {
    if k > 0 {
      ZerosRead(k - 1);
      assert Zeros(k)[..k - 1] == Zeros(k - 1);
    }
  }

  lemma {:induction false} ReadDigits(s: seq<byte>) returns (zeros: nat)
    requires s != [] && AllDigits(s)
    ensures s == Zeros(zeros) + Digits(Decimal(s))
  {
    var (front, last) := (s[..|s| - 1], s[|s| - 1]);
    assert s == front + [last];
    if front == [] {
      zeros := 0;
      assert Decimal(s) == last - ZERO;
      assert Zeros(0) + Digits(Decimal(s)) == [last];
    } else {
      zeros := ReadDigits(front);
      var n := Decimal(front);
      if n == 0 {
        assert front == Zeros(zeros + 1);
        zeros := zeros + 1;
        assert Digits(Decimal(s)) == [last];
      } else {
        assert Decimal(s) == 10 * n + (last - ZERO) && Decimal(s) / 10 == n && Decimal(s) % 10 == last - ZERO;
        assert Zeros(zeros) + Digits(n) + [last] == Zeros(zeros) + (Digits(n) + [last]);
      }
    }
  }

  lemma SpelledReads(n: nat, plus: bool, zeros: nat)
    ensures ParseU64(Spelled(n, plus, zeros)) == if n < U64 then Some(n) else None
  {
    var digits := Zeros(zeros) + Digits(n);
    DigitsRead(n, zeros);
    var s := Spelled(n, plus, zeros);
    assert IsDigit(digits[0]);
    if plus { assert s[1..] == digits; } else { assert s == digits; }
  }

  /** No other text is taken for a number. */
  lemma ReadIsSpelled(s: seq<byte>) returns (plus: bool, zeros: nat)
    requires ParseU64(s).Some?
    ensures s == Spelled(ParseU64(s).value, plus, zeros) && ParseU64(s).value < U64
  {
    plus := s[0] == PLUS;
    var digits := if plus then s[1..] else s;
    zeros := ReadDigits(digits);
    assert s == (if plus then [PLUS] else []) + digits;
  }

  // ---- Header lists ----

  /** The first header of that name is a text of `n`. */
  ghost predicate SaysAt(hs: seq<Hpack.Header>, i: nat, n: nat, plus: bool, zeros: nat) {
    i < |hs| && hs[i].name == NAME && (forall j | 0 <= j < i :: hs[j].name != NAME) && hs[i].value == Spelled(n, plus, zeros)
  }

  /** A header list declares a body of `n` bytes: its first content-length is a text of `n`, below 2^64. What
      later ones say does not matter. */
  ghost predicate Says(hs: seq<Hpack.Header>, n: nat) { n < U64 && exists i: nat, plus, zeros: nat :: SaysAt(hs, i, n, plus, zeros) }

  lemma {:induction false} FirstDecides(hs: seq<Hpack.Header>, i: nat)
    requires i < |hs| && hs[i].name == NAME && forall j | 0 <= j < i :: hs[j].name != NAME
    ensures ContentLength(hs) == ParseU64(hs[i].value)
    decreases i
  {
    NameIs();
    if i > 0 { FirstDecides(hs[1..], i - 1); }
  }

  lemma {:induction false} NoneDecides(hs: seq<Hpack.Header>)
    requires forall h | h in hs :: h.name != NAME
    ensures ContentLength(hs) == None
  {
    NameIs();
    if hs != [] { NoneDecides(hs[1..]); }
  }

  lemma {:induction false} FirstNamed(hs: seq<Hpack.Header>) returns (i: nat)
    requires exists h :: h in hs && h.name == NAME
    ensures i < |hs| && hs[i].name == NAME && forall j | 0 <= j < i :: hs[j].name != NAME
  {
    if hs[0].name == NAME {
      i := 0;
    } else {
      i := FirstNamed(hs[1..]);
      i := i + 1;
    }
  }

  /** The length that the connection holds a request to is exactly the one that its headers declare. */
  lemma LengthExactly(hs: seq<Hpack.Header>, n: nat)
    ensures ContentLength(hs) == Some(n) <==> Says(hs, n)
  {
    if Says(hs, n) {
      var i: nat, plus, zeros: nat :| SaysAt(hs, i, n, plus, zeros);
      FirstDecides(hs, i);
      SpelledReads(n, plus, zeros);
    }
    if ContentLength(hs) == Some(n) {
      if forall h | h in hs :: h.name != NAME {
        NoneDecides(hs);
      } else {
        var i := FirstNamed(hs);
        FirstDecides(hs, i);
        var plus, zeros := ReadIsSpelled(hs[i].value);
        assert SaysAt(hs, i, n, plus, zeros);
      }
    }
  }

  /** It declares at most one. */
  lemma SaysOnce(hs: seq<Hpack.Header>, m: nat, n: nat)
    requires Says(hs, m) && Says(hs, n)
    ensures m == n
  {
    LengthExactly(hs, m);
    LengthExactly(hs, n);
  }
}
