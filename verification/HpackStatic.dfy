/** The static table of RFC 7541, Appendix A, and what holds of the codec with it. */
module HpackStatic {
  import opened Wrappers
  import opened Bits
  import opened Hpack
  import HpackPeer

  /** The bytes of ASCII text. */
  function Text(s: string): seq<byte> { seq(|s|, i requires 0 <= i < |s| => s[i] as int % 0x80) }

  const ROWS: seq<(string, string)> := [
    (":authority", ""),
    (":method", "GET"),
    (":method", "POST"),
    (":path", "/"),
    (":path", "/index.html"),
    (":scheme", "http"),
    (":scheme", "https"),
    (":status", "200"),
    (":status", "204"),
    (":status", "206"),
    (":status", "304"),
    (":status", "400"),
    (":status", "404"),
    (":status", "500"),
    ("accept-charset", ""),
    ("accept-encoding", "gzip, deflate"),
    ("accept-language", ""),
    ("accept-ranges", ""),
    ("accept", ""),
    ("access-control-allow-origin", ""),
    ("age", ""),
    ("allow", ""),
    ("authorization", ""),
    ("cache-control", ""),
    ("content-disposition", ""),
    ("content-encoding", ""),
    ("content-language", ""),
    ("content-length", ""),
    ("content-location", ""),
    ("content-range", ""),
    ("content-type", ""),
    ("cookie", ""),
    ("date", ""),
    ("etag", ""),
    ("expect", ""),
    ("expires", ""),
    ("from", ""),
    ("host", ""),
    ("if-match", ""),
    ("if-modified-since", ""),
    ("if-none-match", ""),
    ("if-range", ""),
    ("if-unmodified-since", ""),
    ("last-modified", ""),
    ("link", ""),
    ("location", ""),
    ("max-forwards", ""),
    ("proxy-authenticate", ""),
    ("proxy-authorization", ""),
    ("range", ""),
    ("referer", ""),
    ("refresh", ""),
    ("retry-after", ""),
    ("server", ""),
    ("set-cookie", ""),
    ("strict-transport-security", ""),
    ("transfer-encoding", ""),
    ("user-agent", ""),
    ("vary", ""),
    ("via", ""),
    ("www-authenticate", "")
  ]

  function Rfc7541Static(): seq<Header> {
    seq(|ROWS|, i requires 0 <= i < |ROWS| => Header(Text(ROWS[i].0), Text(ROWS[i].1)))
  }

  lemma SixtyOneRows()
    ensures |Rfc7541Static()| == 61 && SmallTable(Rfc7541Static())
  {}

  /** One run, from encoder to decoder, over this table. */
  lemma RfcRunRoundTrip(max: nat, blocks: seq<Block>, maxList: nat)
    requires AllDecodable(blocks, maxList)
    ensures var (d, lists) := DecodeBlocks(Rfc7541Static(), Table([], 0, max, max, []), BlocksBytes(Rfc7541Static(), blocks), maxList);
            lists == Some(ListsOf(blocks)) && d.history == [] && d.dynamic == []
  {
    SixtyOneRows();
    RunRoundTrip(Rfc7541Static(), max, blocks, maxList);
  }

  /** What any peer means is what a fresh decoder with this table gives, block by block, and the table is the
      front of the peer's history that it thinks is there. */
  lemma RfcPeerIsUnderstood(max: nat, turns: seq<HpackPeer.Turn>, maxList: nat)
    requires max < 0x1_0000_0000 && HpackPeer.TalkOk(Rfc7541Static(), HpackPeer.Peer([], 0, max, max), turns, maxList)
    ensures var (heard, d) := HpackPeer.Heard(Rfc7541Static(), Table([], 0, max, max, []), turns, maxList);
            var (meant, p) := HpackPeer.Meant(Rfc7541Static(), HpackPeer.Peer([], 0, max, max), turns, maxList);
            heard == Some(meant) && p.kept <= |p.history| && d.dynamic == p.history[..p.kept]
  {
    SixtyOneRows();
    HpackPeer.FreshAgrees(max);
    HpackPeer.PeerIsUnderstood(Rfc7541Static(), HpackPeer.Peer([], 0, max, max), Table([], 0, max, max, []), turns, maxList);
  }
}
