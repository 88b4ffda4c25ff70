/** Bytes that the standards themselves give as examples. */
module RfcExamples {
  import opened Wrappers
  import opened Bits
  import HpackInt
  import Huffman
  import HuffmanTable
  import Http3Frame
  import BigEndian

  /** Appendix C.1 of RFC 7541: 10 and 1337 behind a prefix of five bits, and 42 in eight. */
  lemma PrefixedIntegers()
    ensures HpackInt.FlagsFit(5, 0) && HpackInt.FlagsFit(8, 0)
    ensures HpackInt.Written(10, 5, 0) == [0x0A] && HpackInt.Written(1337, 5, 0) == [0x1F, 0x9A, 0x0A] && HpackInt.Written(42, 8, 0) == [0x2A]
  {
    Pow2Values();
    assert HpackInt.Continuation(10) == [10];
    assert HpackInt.Continuation(1306) == [0x9A] + HpackInt.Continuation(10);
  }

  /** Appendix A.1 of RFC 9000: one, two and four bytes. */
  lemma Varints()
    ensures Http3Frame.GetVarint([0x25]) == Some((37, 1)) && Http3Frame.GetVarint([0x40, 0x25]) == Some((37, 2))
    ensures Http3Frame.GetVarint([0x7B, 0xBD]) == Some((15293, 2)) && Http3Frame.GetVarint([0x9D, 0x7F, 0x3E, 0x7D]) == Some((494878333, 4))
  {
    One(0x25);
    Two(0x00, 0x25);
    Two(0x3B, 0xBD);
    Four(0x1D, 0x7F, 0x3E, 0x7D);
    assert [0x40, 0x25][1..2] == [0x25] && [0x7B, 0xBD][1..2] == [0xBD] && [0x9D, 0x7F, 0x3E, 0x7D][1..4] == [0x7F, 0x3E, 0x7D];
    assert [0x25][1..1] == [];
  }

  lemma One(a: byte)
    ensures BigEndian.Value([a] + []) == a
  {
    assert ([a] + [])[..0] == [];
  }

  lemma Two(a: byte, b: byte)
    ensures BigEndian.Value([a] + [b]) == 256 * a + b
  {
    var s := [a] + [b];
    assert s[..1] == [a] + [];
    One(a);
  }

  lemma Four(a: byte, b: byte, c: byte, d: byte)
    ensures BigEndian.Value([a] + [b, c, d]) == 0x100_0000 * a + 0x1_0000 * b + 0x100 * c + d
  {
    var s := [a] + [b, c, d];
    assert s[..3][..2] == [a] + [b] && s[3] == d && s[..3][2] == c;
    Two(a, b);
  }

  lemma ThreeCodes()
    ensures var t := HuffmanTable.Rfc7541();
            Huffman.Code(t, 0x33) == [0, 1, 1, 0, 0, 1] && Huffman.Code(t, 0x30) == [0, 0, 0, 0, 0] && Huffman.Code(t, 0x32) == [0, 0, 0, 1, 0]
  {
    Fives();
    Six();
  }

  lemma Fives()
    ensures BitsOf(0, 5) == [0, 0, 0, 0, 0] && BitsOf(2, 5) == [0, 0, 0, 1, 0] && BitsOf(12, 5) == [0, 1, 1, 0, 0]
  {
    assert BitsOf(0, 1) == [0] && BitsOf(0, 2) == [0, 0] && BitsOf(0, 3) == [0, 0, 0] && BitsOf(0, 4) == [0, 0, 0, 0];
    assert BitsOf(1, 4) == [0, 0, 0, 1];
    assert BitsOf(1, 2) == [0, 1] && BitsOf(3, 3) == [0, 1, 1] && BitsOf(6, 4) == [0, 1, 1, 0];
  }

  lemma Six()
    ensures BitsOf(0x19, 6) == [0, 1, 1, 0, 0, 1]
  {
    Fives();
  }

  lemma ThreeSymbols(t: Huffman.Table)
    requires |t| == 257
    ensures Huffman.Concat(t, [0x33, 0x30, 0x32]) == Huffman.Code(t, 0x33) + (Huffman.Code(t, 0x30) + Huffman.Code(t, 0x32))
  {
    var s: seq<byte> := [0x33, 0x30, 0x32];
    assert s[1..] == [0x30, 0x32] && s[1..][1..] == [0x32] && s[1..][1..][1..] == [];
    assert Huffman.Concat(t, [0x32]) == Huffman.Code(t, 0x32) + [];
  }

  lemma TwoBytes(bits: seq<Bit>)
    requires bits == [0, 1, 1, 0, 0, 1, 0, 0] + [0, 0, 0, 0, 0, 0, 1, 0]
    ensures BytesOf(bits) == [0x64, 0x02]
  {
    Eight([0, 1, 1, 0, 0, 1, 0, 0]);
    Eight([0, 0, 0, 0, 0, 0, 1, 0]);
    BytesOfPush([0, 1, 1, 0, 0, 1, 0, 0], [0, 0, 0, 0, 0, 0, 1, 0]);
    BytesOfPush([], [0, 1, 1, 0, 0, 1, 0, 0]);
    assert [] + [0, 1, 1, 0, 0, 1, 0, 0] == [0, 1, 1, 0, 0, 1, 0, 0];
  }

  lemma Eight(b: seq<Bit>)
    requires |b| == 8
    ensures ValueOf(b) == 128 * (b[0] as int) + 64 * (b[1] as int) + 32 * (b[2] as int) + 16 * (b[3] as int) + 8 * (b[4] as int) + 4 * (b[5] as int) + 2 * (b[6] as int) + b[7]
  {
    assert ValueOf(b[..1]) == b[0] && b[..2][..1] == b[..1] && b[..3][..2] == b[..2] && b[..4][..3] == b[..3];
    assert b[..5][..4] == b[..4] && b[..6][..5] == b[..5] && b[..7][..6] == b[..6];
    assert ValueOf(b[..4]) == 2 * ValueOf(b[..3]) + b[3] && ValueOf(b[..3]) == 2 * ValueOf(b[..2]) + b[2];
    assert ValueOf(b[..7]) == 2 * ValueOf(b[..6]) + b[6] && ValueOf(b[..6]) == 2 * ValueOf(b[..5]) + b[5];
  }

  /** Appendix C.6.1 of RFC 7541: the text 302, Huffman-coded. */
  lemma HuffmanCoded()
    ensures Huffman.Encoded(HuffmanTable.Rfc7541(), [0x33, 0x30, 0x32]) == [0x64, 0x02]
  {
    var t := HuffmanTable.Rfc7541();
    ThreeCodes();
    ThreeSymbols(t);
    var bits := Huffman.Concat(t, [0x33, 0x30, 0x32]);
    assert bits == [0, 1, 1, 0, 0, 1, 0, 0] + [0, 0, 0, 0, 0, 0, 1, 0];
    assert bits + Ones(0) == bits;
    TwoBytes(bits);
  }
}
