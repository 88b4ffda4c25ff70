# OxiServe: what its protocol code promises

A Dafny model of the self-contained parts of OxiServe, an nginx-compatible web server, with proofs of what
each of them promises. One module stands for one source file or one concern of it; `dafny verify
dfyconfig.toml` verifies all of them.

- `limit_conn` (LimitConn, LimitConnSteps, LimitConnCalls, LimitConnKey, LimitConnRace): the lock-free table of
  connection counts, as an object whose operations run one at a time, and as a transition system in which every
  load and every compare-and-swap of any number of workers is a step of its own; what each call answers, and how
  many workers it stands.
- HTTP/2 (Http2Frame, Http2Conn, Http2Safety, Http2Runs, Http2Settings, Http2Headers, Http2Length, Http2Answers,
  Http2Client, Http2Crowd, Http2Tables, Http2Loop): frames, streams, header blocks and flow control. Received frames and turns
  of the sending loops are the steps; code between two awaits is one step, since a connection runs on one thread.
  Http2Conn is the specification, Http2Loop the loops over mutable state that refine it, and the rest proves what
  holds over every run. Http2Length, Http2Answers and Http2Client tell it from what goes over the wire: declared
  lengths, answers, and when a client that keeps to RFC 9113 is turned away.
- Header compression (Huffman, HuffmanTable, HpackInt, HpackString, Hpack, HpackPeer, HpackStatic, Qpack,
  QpackPeer, QpackStatic), after RFC 7541 and RFC 9204. Huffman coding is proved for every prefix-free table with
  an all-ones EOS, and the table of RFC 7541 is shown to be one. Round trips are about the server's own encoder,
  HpackPeer and QpackPeer about decoding what any peer may write.
- `limit_req` (LeakyBucket, LeakyLimits, LimitReq, LimitReqSteps, LimitReqRace): the leaky bucket, for which
  limits it keeps its rate, and the shared table: as a forgetful map of buckets where checks run one at a
  time, and as a transition system of single loads, stores and swaps of any number of workers.
- Paths (Uri, UriPaths, Utf8), dates (Date, HttpDate, HttpDateExample), configuration (ConfigLexer, ConfigText,
  ConfigWords, ConfigAst, ConfigExact), FastCGI (FcgiProto, FcgiBody, FcgiHead, FcgiSession), HTTP/3 framing
  (Http3Frame, Http3Reader) and cache entries (CacheEntry). Bits, BigEndian and Wrappers are what several of them
  share; RfcExamples has examples that the standards give.

Bytes are integers from 0 to 255, buffers are sequences of them. Where the source works in place on an
object, a class with the same fields does; its methods are proved equal to specification functions, and
the properties are proved of those. Masks by a power of two are written as remainders, and disjoint bits
joined by `|` as sums. Keys of the two shared tables appear as their tags or hashes. Memory is sequentially
consistent. Reads of a socket are given as a list, split in any way; what is queued for a peer is a log.

Where code and comments disagree the code is followed. The comment on QPACK's string limit calls it the same
as HPACK's, but it is 32 KiB (src/http3/qpack.rs:43) against 64 KiB (src/http2/hpack.rs:90). Another such
comment, on `limit_req`, is under "Findings".

## Model

| member | source | states |
|---|---|---|
| LimitConnSteps.EveryRun | src/server/limit_conn.rs:133-240 | After any interleaving of single loads and compare-and-swaps of any number of workers, each slot counts exactly the live guards naming it, those carry its tag, no count passes its tag's limit, and the counts add up to the live guards |
| LimitConnSteps.RunKeeps | src/server/limit_conn.rs:133-240 | The full invariant (words, live guards, and what every worker has read so far) survives every sequence of events from every state that has it |
| LimitConnSteps.DrainedIsZero | src/server/limit_conn.rs:218-240 | On any run no guard is live if and only if every slot's count is zero: nothing leaks |
| LimitConnSteps.NeverTakenOver | src/server/limit_conn.rs:29-33 | No step of any worker takes a slot that a live guard names away from its tag |
| LimitConnSteps.NoEarlyReturn | src/server/limit_conn.rs:220-228 | The early return of release is unreachable: a live guard's slot still has its tag and a count |
| LimitConnSteps.AloneAcquires | src/server/limit_conn.rs:133-212 | An acquire that nobody interrupts leaves the words and hands out the guard that the sequential specification says: the step model and the object model agree |
| LimitConnCalls.AcquireAnswers | src/server/limit_conn.rs:133-212 | However other workers interleave with it, a call of acquire that returns hands out one guard, in a slot of the window that counted less than the limit of its tag or nothing at all, and counts one more; or it changes nothing, and in the last state it saw its slot was at the limit or at 0xFFFF, or had become another tag's, or every place of the window was another tag's and none was idle or the idle one had changed |
| LimitConnCalls.AcquireIsQuiet | src/server/limit_conn.rs:133-212 | None of the call's own steps before the last changes anything that others can see: a lost swap leads to another try |
| LimitConnCalls.ReleaseEnds | src/server/limit_conn.rs:218-240 | A worker that gives a guard back changes nothing until it is done, and then exactly that guard is gone and its slot counts one fewer |
| LimitConnKey.KeyBound | src/server/limit_conn.rs:133-212 | On every run of any number of workers in which no takeover for a tag overlaps another acquire of that tag, the tag's live guards stay within its limit, whatever else overlaps |
| LimitConnKey.KeyBoundAlone | src/server/limit_conn.rs:133-212 | In particular where no two workers are ever inside acquire for the tag at once |
| LimitConnRace.KeyBoundFailsInterleaved | src/server/limit_conn.rs:170-180 | In every table and with any number of workers from two on, a run from the empty table with all limits 1 ends with two live guards for one tag: two workers raced to take over two slots |
| LimitConnRace.KeptExactly | src/server/limit_conn.rs:133-212 | The limit of every key is kept over all interleavings if and only if there is one worker at most, for every table size |
| LimitConn.AcquireKeeps | src/server/limit_conn.rs:133-212 | Run one at a time, acquire keeps one slot a tag, reachable by its probe, exact counts, and every tag within its limit; a refusal changes nothing |
| LimitConn.ReleaseKeeps | src/server/limit_conn.rs:218-240 | Dropping a live guard lowers exactly its slot's count and keeps the table |
| LimitConn.AcquireSucceedsWhen | src/server/limit_conn.rs:139-186 | acquire hands out a guard if and only if the tag is present below its limit, or absent with an empty or idle slot in its window |
| LimitConn.CountIsLive | src/server/limit_conn.rs:242-256 | count is the number of live guards for the tag, and never above its limit |
| LimitConn.Zone.Acquire | src/server/limit_conn.rs:133-186 | The two-pass probe over the shared words does what the specification says and keeps the zone valid |
| LimitConn.Zone.Release | src/server/limit_conn.rs:218-240 | The drop loop lowers exactly the guard's slot and forgets the guard |
| LimitConn.Zone.Count | src/server/limit_conn.rs:242-256 | The counting loop returns the number of live guards for the tag |
| Http2Runs.LoopHead | src/http2/conn.rs:294-316 | Between any two steps of any run: ids are odd and at most the highest opened; a stream whose headers are neither finished nor given up is the one whose block is open; no complete request waits; at most 128 streams count; no stream was handed out twice |
| Http2Runs.EveryRun | src/http2/conn.rs:294-690 | Every state of every run satisfies the connection invariant |
| Http2Runs.NeverBack | src/http2/conn.rs:674-705 | Over any stretch of any run a stream only moves forward through idle, open, half closed, closed or reset |
| Http2Runs.HandedOut | src/http2/conn.rs:643-672 | A request is handed out once, on a frame of its own stream, from a stream neither closed nor reset, with its body the unpadded DATA in order; and whatever length the text of its headers declares is the body's |
| Http2Runs.CompleteIsAnswered | src/http2/conn.rs:643-672 | A request that a frame completes is handed out as it came, or reset with PROTOCOL_ERROR; and it is reset exactly when its headers declare another length than its body has |
| Http2Length.LengthExactly | src/http2/conn.rs:768-771 | A header list has a length n if and only if the first content-length in it is the decimal text of n below 2^64, from the most significant digit, with any leading zeros and at most a plus sign in front; later ones are ignored |
| Http2Runs.OnlyFramesHandOut | src/http2/conn.rs:643-672 | No step of a response task hands out a request or counts as a frame |
| Http2Runs.FlowConserved | src/http2/conn.rs:591-626 | Over every interleaving of frames and sending loops: the connection window is 65535 plus increments less DATA sent and stays in its range; the receive window is what the peer was granted less what it used and stays above half; each unreset stream's window is the current initial one plus its increments less its DATA; a task's output is a front of what it was given |
| Http2Runs.SendsWithinWindows | src/http2/conn.rs:1096-1127 | A DATA frame carries the next bytes of its task, as many as either window, the peer's frame limit and the data allow, and never for a reset stream |
| Http2Runs.StreamsNeverReplenished | src/http2/conn.rs:781-789 | Every WINDOW_UPDATE the server ever sends is the connection's |
| Http2Settings.SettingsOverflow | src/http2/conn.rs:565-571 | A SETTINGS frame leaves some stream's window beyond 2^31-1 if and only if there was an unreset stream that the change of the initial window moves there |
| Http2Settings.OnlySettings | src/http2/conn.rs:318-626 | No other step takes a stream's window beyond the limit |
| Http2Settings.OverflowsWhen | src/http2/conn.rs:522-626 | On any run a stream's window is ever beyond the limit if and only if such a SETTINGS frame came |
| Http2Settings.OverflowReached | src/http2/conn.rs:565-571 | Three frames from a fresh connection reach such a state |
| Http2Answers.EverAnswered | src/http2/conn.rs:522-590 | Over every run the initial window and the frame limit held to are the latest the client sent, as many SETTINGS were acknowledged as came, and every PING was echoed, in order, with its own payload |
| Http2Client.EverServed | src/http2/conn.rs:294-626 | On any run of a client whose every frame RFC 9113 allows, as far as the client can know, the next such frame ends the connection exactly when `Halts` says so, and with that code: DATA or a CONTINUATION for a refused stream, trailers for a reset one, a block beyond 131072 bytes, a connection window beyond 2^31-1, or a block that does not decode |
| Http2Client.EverKnown | src/http2/conn.rs:294-705 | Over every such run the frames sent and received alone say where each stream is that the client has not ended, which block is open, and which streams count |
| Http2Client.ResetExactly | src/http2/conn.rs:318-626 | A stream of such a client is reset by a frame exactly when its body grows beyond the limit, it is the 129th that counts, its header list is too large, its trailers have a pseudo-header, or its window would pass 2^31-1; and with the code of that |
| Http2Crowd.CountsExactly | src/http2/conn.rs:430-441 | Over every such run a stream begun and not ended counts towards the 128 if and only if the server has not reset it; whether the client has cancelled it changes nothing |
| Http2Crowd.CrowdedOut | src/http2/conn.rs:430-441 | A run of 256 such frames, with the real header decoder, after which every stream begun has been cancelled and the next request is refused; and DATA already on its way for that ends the connection |
| Http2Crowd.TrailersTooLate | src/http2/conn.rs:393-397 | Two such frames after which trailers already on their way end the connection, because the server has just reset their stream for its size |
| Http2Crowd.RefusedIsNotRead | src/http2/conn.rs:433-441 | The header block of a refused request does not reach the decoder: the index of an entry that it made reads as the entry before, or as nothing |
| Http2Tables.OwnLimitEnds | src/http2/conn.rs:557-557 | In any state that frames of such a client lead to: a SETTINGS with the size n of the client's own table, and then a request that refers to an entry both sides have had, end the connection with COMPRESSION_ERROR wherever the entry is not among the newest that fit n |
| Http2Tables.OwnLimitRun | src/http2/conn.rs:557-557 | Three such frames from a fresh connection |
| HpackPeer.OwnLimitExactly | src/http2/hpack.rs:132-139 | When a peer's own limit n is taken for the decoder's, every block that it may write still lists what it means if and only if n is not below the limit that the decoder has advertised |
| HpackPeer.OwnLimitDrops | src/http2/hpack.rs:132-139 | An entry of the peer's still reads as itself if and only if it is among the newest that fit n |
| Http2Safety.InitInv | src/http2/conn.rs:284-292 | A fresh connection satisfies the invariant |
| Http2Safety.StepInv | src/http2/conn.rs:294-690 | Every step that does not end the connection keeps it |
| Http2Safety.DispatchedInv | src/http2/conn.rs:643-672 | Handing out what is complete restores that nothing complete is waiting |
| Http2Safety.NeverStuck | src/http2/conn.rs:472-472 | The lookups of a stream that must be there succeed: none of the loop's expects fails |
| Http2Safety.NotHalfClosed | src/http2/conn.rs:692-705 | Outside a header block no stream is half closed and not handed out |
| Http2Headers.AssembledIsWhole | src/http2/conn.rs:462-484 | What reaches the header decoder is the fragments of a HEADERS frame and the CONTINUATIONs right after it, whole and in order |
| Http2Headers.DecodesInOrder | src/http2/conn.rs:725-778 | After any run the decoder's table is that of decoding every opened block, whole and in order, and of the SETTINGS in between |
| Http2Headers.TableIsSound | src/http2/conn.rs:522-560 | That table never outgrows its limit, whatever was sent |
| Http2Headers.HeadersDelivered | src/http2/conn.rs:734-778 | A block that decodes becomes its request's header list, unless the request is reset because its body is not as long as its content-length says |
| Http2Headers.EncodedListArrives | src/http2/conn.rs:462-484 | A list written by the encoder and cut into HEADERS and CONTINUATIONs arrives as the request's list, with the same one exception |
| Http2Loop.Connection.Receive | src/http2/conn.rs:294-672 | One turn of the reading loop on the object does exactly the specified step and keeps it valid |
| Http2Loop.Connection.Data | src/http2/conn.rs:318-361 | The DATA branch leaves exactly the specified state or connection error: padded length charged, window given back, a body that grows too large reset |
| Http2Loop.Connection.Headers | src/http2/conn.rs:363-460 | The HEADERS branch, for any frame: new stream, refused stream, trailers or error, as specified, where a block that ends is decoded by the real decoder |
| Http2Loop.Connection.Continuation | src/http2/conn.rs:462-484 | The CONTINUATION branch assembles or finishes the open block as specified, and refuses one that is not open or too large |
| Http2Loop.Connection.Settings | src/http2/conn.rs:522-575 | The SETTINGS branch takes the parameters six bytes at a time, moves every stream's window by the difference, and acknowledges; or stops with the specified code |
| Http2Loop.Connection.UpdateWindow | src/http2/conn.rs:591-626 | The WINDOW_UPDATE branch widens one window, or resets or stops where it would pass 2^31-1 or the increment is zero |
| Http2Loop.Connection.FinishBlock | src/http2/conn.rs:734-778 | A finished block is decoded by the real decoder, which stays sound |
| Http2Loop.Connection.HandOut | src/http2/conn.rs:643-672 | The loop over all streams hands out what the specification does: only the frame's own stream can be ready |
| Http2Loop.Connection.PumpOnce | src/http2/conn.rs:1096-1127 | One turn of the sending loop is the specified step |
| Http2Loop.Connection.PumpUntilWait | src/http2/conn.rs:1088-1130 | The sending loop ends with everything sent, or with a closed window of an unreset stream, and the connection valid |
| Http2Frame.HeadRoundTrip | src/http2/frame.rs:84-108 | A written frame head is read back if and only if its length fits 24 bits and its stream 31 |
| Http2Frame.HeadOfBytes | src/http2/frame.rs:84-108 | Nine bytes are what their head is written as, if and only if the reserved bit is clear |
| Http2Frame.HeadLayout | src/http2/frame.rs:101-108 | The nine bytes one by one, in the order of section 4.1 of RFC 9113 |
| Http2Frame.UnpadPadded | src/http2/frame.rs:119-131 | Unpadding gives a text if and only if the payload is that text with its length byte and filler |
| Http2Frame.FragmentIsBlock | src/http2/conn.rs:371-392 | However a client writes a header block, padded or not and with the five priority bytes or without, the fragment is that block, unless the stream depends on itself |
| Http2Frame.WireRoundTrip | src/http2/frame.rs:110-117 | Any list of frames written out is read as those frames |
| Huffman.DecodesExactly | src/http2/huffman.rs:85-164 | Decoding gives a string if and only if the string is within the limit and the input is its encoding: one accepted encoding a string |
| Huffman.DecodeEncode | src/http2/huffman.rs:91-164 | Every byte string within the limit comes back from its encoding |
| Huffman.EncodeDecode | src/http2/huffman.rs:120-164 | Whatever is accepted is the encoding of what it decoded to |
| Huffman.EncodedLen | src/http2/huffman.rs:85-89 | The length counted without encoding is the encoding's |
| Huffman.Encode | src/http2/huffman.rs:91-110 | The 64-bit accumulator loop gives the codes in order, padded with ones |
| Huffman.Decode | src/http2/huffman.rs:120-164 | The tree walk gives what the table says, with the padding and EOS rules |
| Huffman.BuildTree | src/http2/huffman.rs:179-201 | The tree grown code by code has exactly the prefixes of codes as its nodes, and the symbols at their ends |
| Huffman.AllOnes | src/http2/huffman.rs:203-216 | The walk down the ones recognises exactly the nodes whose path is all ones |
| HuffmanTable.RfcIsGood | src/http2/huffman.rs:10-81 | The table of RFC 7541, Appendix B, is prefix-free with an all-ones EOS of more than seven bits |
| RfcExamples.HuffmanCoded | src/http2/huffman.rs:91-110 | 302 is 64 02, as in appendix C.6.1 of RFC 7541 |
| RfcExamples.PrefixedIntegers | src/http2/hpack.rs:410-423 | 10, 1337 and 42 are the bytes of appendix C.1 of RFC 7541 |
| HpackInt.ReadWritten | src/http2/hpack.rs:288-315 | Reading a written 64-bit integer gives it back and leaves the rest alone if and only if at most 63 bits of it go beyond the prefix |
| HpackInt.WriteInt | src/http2/hpack.rs:410-423 | The writing loop appends the specified bytes |
| HpackInt.ReadInt | src/http2/hpack.rs:288-315 | The reading loop is the specified reading |
| HpackString.StringRoundTrip | src/http2/hpack.rs:317-343 | A written string is read back, with the rest untouched, if and only if it is within the limit where it is Huffman-coded |
| HpackString.WriteString | src/http2/hpack.rs:425-437 | Huffman is used exactly when it is shorter |
| HpackString.ReadString | src/http2/hpack.rs:317-343 | The reading is the specified one |
| Hpack.EvictedKeepsFront | src/http2/hpack.rs:237-262 | An entry that fits on its own is never evicted by its own insertion |
| Hpack.EvictedIsLongest | src/http2/hpack.rs:251-262 | Eviction keeps the longest front of the table that fits |
| Hpack.InsertedIsSound | src/http2/hpack.rs:237-249 | Insertion keeps size, limit and history in step, and the new entry at the front |
| Hpack.DecodeKeepsSound | src/http2/hpack.rs:147-206 | Every call, failing or not, leaves size the sum of the entries' costs within the limits, the table a front of the history of indexed fields, and lists no more than allowed |
| Hpack.BlockRoundTrip | src/http2/hpack.rs:383-408 | A written block decodes to its list, or fails as too large exactly when the list costs too much |
| Hpack.BlocksRoundTrip | src/http2/hpack.rs:383-408 | Any sequence of blocks decodes, block by block, to the lists that were encoded, wherever a changed limit was announced |
| Hpack.NothingIndexed | src/http2/hpack.rs:348-355 | None of it enters the decoder's table: an announcement empties it, and otherwise it is what it was |
| Hpack.RunRoundTrip | src/http2/hpack.rs:356-408 | A run of blocks in a fresh decoder: the same lists and an empty history |
| Hpack.BlockAppends | src/http2/hpack.rs:383-408 | Encoding one more field appends to the block written so far |
| Hpack.EmptyAtZero | src/http2/hpack.rs:251-262 | A limit of zero empties the table |
| Hpack.Decoder.Evict | src/http2/hpack.rs:251-262 | The loop evicts the specified entries, and never pops an empty table |
| Hpack.Decoder.Insert | src/http2/hpack.rs:237-249 | Insertion on the object is the specified one and keeps the table sound |
| Hpack.Decoder.SetMaxSize | src/http2/hpack.rs:133-142 | A lowered limit evicts at once |
| Hpack.Decoder.Decode | src/http2/hpack.rs:147-206 | The decoding loop gives the specified table, list and failure |
| HpackPeer.PeerIsUnderstood | src/http2/hpack.rs:147-262 | Any peer: whatever it writes, block by block, from a history that it keeps itself (indexed from either table, literals of the three kinds with new or known names, Huffman-coded or not, size updates, and limits it is told in between), the decoder lists exactly what it meant, and its table is the front of that history that fits |
| HpackPeer.BlockDecodes | src/http2/hpack.rs:147-206 | The same of one block, which fails as too large exactly when what it lists costs too much |
| HpackPeer.InstReads | src/http2/hpack.rs:159-235 | Each representation, whatever follows it, reads as the field or the limit that it stands for |
| HpackPeer.NoSuchIndex | src/http2/hpack.rs:221-235 | An index refers to nothing if and only if it is 0 or beyond both tables, and that ends decoding |
| HpackPeer.BadResize | src/http2/hpack.rs:176-191 | A size update is refused if and only if a field came before it in the block or it is beyond what was advertised |
| HpackPeer.LongestIs | src/http2/hpack.rs:251-262 | What a peer takes to be left of its history is well determined: as much as fits, and no more |
| Hpack.Encoder.BeginBlock | src/http2/hpack.rs:383-390 | The size update stands at the start of a block, once for each change |
| Hpack.Encoder.SetPeerMax | src/http2/hpack.rs:368-373 | A changed limit, and only that, is announced again |
| Hpack.Encoder.Encode | src/http2/hpack.rs:393-408 | The field is written with the first full or name match of the static table |
| HpackStatic.RfcRunRoundTrip | src/http2/hpack.rs:20-82 | The same for the static table of RFC 7541, Appendix A |
| HpackStatic.RfcPeerIsUnderstood | src/http2/hpack.rs:20-82 | Any peer of a fresh decoder with that table |
| LeakyBucket.RateBound | src/server/limit_req.rs:68-93 | Any admissions after one fit in what is left of the burst and what the rate allows over the time between |
| LeakyBucket.StartsExactly | src/server/limit_req.rs:86-92 | On every run a request that is admitted starts at once with `nodelay` or where its excess is within `delay_after`, and otherwise waits for as many whole milliseconds as drain what is beyond it |
| LeakyBucket.DelayedWhen | src/server/limit_req.rs:83-92 | A request is delayed if and only if it is admitted, without `nodelay`, with its excess beyond `delay_after` |
| LeakyBucket.ShapingBound | src/server/limit_req.rs:68-93 | Without `nodelay`, admitted requests start no closer than the rate says, but for what `delay_after` lets start early |
| LeakyBucket.AdmittedWhen | src/server/limit_req.rs:68-93 | A request is admitted if and only if what is left of the excess leaves room for it |
| LeakyLimits.SafeExactly | src/server/limit_req.rs:97-119 | A burst keeps the rate bound at every rate, on every run, if and only if it fits the 24 bits in which the excess is stored |
| LeakyLimits.KeptExactly | src/server/limit_req.rs:97-119 | Where the greatest common divisor of a million and the rate is at least 200 thousandths and the rate at most 16777 times that, the bound holds on every run if and only if the burst is beyond the 24 bits by less than the divisor |
| LeakyLimits.KeptAtWholeRates | src/server/limit_req.rs:97-119 | Every whole number of requests a second up to 16777 is such a rate |
| LeakyLimits.GrainKeepsRate | src/server/limit_req.rs:97-119 | At any rate it holds where what is cut off is less than the common grain of a request's cost and a millisecond's drain |
| LeakyLimits.FarBeyond | src/server/limit_req.rs:97-119 | At no rate does it hold when the burst is a thousand units or more beyond |
| LeakyLimits.KeptBeyond | src/server/limit_req.rs:97-119 | A burst of 16778 requests keeps a thousand a second, and does not keep one a second |
| LimitReq.Refines | src/server/limit_req.rs:201-303 | A check decides as the bucket rule does on the key's own bucket or on none, stores what the rule says, and of the other keys forgets at most one victim and touches none |
| LimitReq.VictimIsStalest | src/server/limit_req.rs:201-260 | The victim is a single other key, the one idle longest in a full window |
| LimitReq.ServedAlone | src/server/limit_req.rs:201-303 | On any run a key that is not forgotten is served as by a bucket of its own, whatever other keys do |
| LimitReq.KeyRateBound | src/server/limit_req.rs:201-303 | So the rate bound holds for that key in the shared table |
| LimitReq.KeyShapingBound | src/server/limit_req.rs:201-303 | And so does the shaping bound, for any `delay_after` |
| LimitReq.KeyStartsExactly | src/server/limit_req.rs:201-303 | And its requests wait as those of a bucket of its own |
| LimitReq.ScanFinds | src/server/limit_req.rs:201-245 | The probe meets the key wherever it is held, and otherwise an empty slot or the stalest |
| LimitReq.FreshIsShaped | src/server/limit_req.rs:149-171 | An empty table remembers no key |
| LimitReq.Zone.Check | src/server/limit_req.rs:201-260 | The probing loop on the shared words does the specified check |
| LimitReq.Zone.Bump | src/server/limit_req.rs:262-303 | The compare-and-swap loop does the specified step on the slot's state |
| LimitReqSteps.RateBoundSteps | src/server/limit_req.rs:201-303 | Over every interleaving of single loads, stores and swaps of any number of workers in which no step takes the key's slot over or takes one for it, clears a bucket that counts a request of it, or sets its clock back, the key keeps its rate |
| LimitReqSteps.ShapingBoundSteps | src/server/limit_req.rs:201-303 | And without `nodelay` its requests start at the rate, but for what `delay_after` lets start early |
| LimitReqSteps.StartsExactlySteps | src/server/limit_req.rs:201-303 | And each of them waits exactly as long as it should |
| LimitReqSteps.RunKeeps | src/server/limit_req.rs:201-303 | The invariant behind both (one reachable slot for the key, its bucket that of the key's log, every worker rightly where it is) survives every such run |
| LimitReqSteps.AloneChecks | src/server/limit_req.rs:201-303 | A check that nobody interrupts decides and leaves the table as the sequential specification says: the step model and the object model agree |
| LimitReqRace.KeptExactly | src/server/limit_req.rs:201-303 | Keys that are not forgotten keep their rate over all interleavings if and only if there is one worker at most, for every table size, rate and burst |
| LimitReqRace.ForgetsCounted | src/server/limit_req.rs:222-234 | With two workers a slot that is being claimed can forget a whole burst: requests counted between the claim and the store of the empty state are lost, though no window is full |
| LimitReqRace.PanicsExactly | src/server/limit_req.rs:247-254 | A probe always ends with a candidate to evict, as its expect says, if and only if there is one worker at most |
| Uri.ResultIsNormal | src/http/uri.rs:38-124 | Every path that comes out is absolute, has no empty, dot or dot-dot segment and no NUL, and is text |
| UriPaths.ResolvesExactly | src/http/uri.rs:60-124 | A path is refused for climbing if and only if some front of its decoded segments has more `..` than plain ones; otherwise it becomes the path of exactly those segments that no `..` has undone, with a slash at its end if it had one, or is refused as no text |
| UriPaths.LeftOnce | src/http/uri.rs:60-124 | Which segments those are is determined by the list alone |
| UriPaths.DecodedExactly | src/http/uri.rs:60-90 | A segment is decoded to a text if and only if it spells it: each byte as it is or as a percent sign and two digits in either case, and no NUL, slash or bare percent sign |
| UriPaths.BadSpelling | src/http/uri.rs:60-90 | A segment that spells nothing makes the path invalid |
| UriPaths.DotVanishes | src/http/uri.rs:91-96 | An empty segment, or a spelling of a dot, may stand anywhere without effect |
| UriPaths.UpUndoes | src/http/uri.rs:91-96 | So may any plain segment with a spelling of dot-dot behind it |
| UriPaths.NoneAboveRoot | src/http/uri.rs:92-96 | Dot-dot at the root is refused, with everything behind it |
| UriPaths.UpOnce | src/http/uri.rs:38-124 | /a/../b becomes /b |
| Utf8.ValidExactly | src/http/uri.rs:116-120 | What is accepted as text is exactly the encodings of sequences of Unicode scalar values |
| Uri.NormalStays | src/http/uri.rs:126-147 | The shortcut returns what the full loop would |
| Uri.RangeIsNormal | src/http/uri.rs:38-147 | A text is returned for some path if and only if it is normal |
| Uri.NormalizeEncoded | src/http/uri.rs:158-172 | Normalising undoes encoding on everything normalising can return |
| Uri.NormalizeAgain | src/http/uri.rs:38-147 | A normal path is left alone by normalising again if and only if it has no percent sign |
| Uri.TwiceDiffers | src/http/uri.rs:38-172 | /%2541 becomes /%41, and that does not stay |
| Uri.EscapeShortens | src/http/uri.rs:60-90 | An escape makes a path come out shorter |
| Uri.Normalize | src/http/uri.rs:38-124 | Fast path and loop together compute the specification: split, decode, push and pop, fail on underflow |
| Uri.NormalizeFully | src/http/uri.rs:50-124 | The loop over the buffer and its stack of offsets does too |
| Uri.IsAlreadyNormal | src/http/uri.rs:129-147 | The check scans for exactly what would have to change |
| Uri.EncodePath | src/http/uri.rs:160-172 | The loop appends the percent-encoding |
| Date.Successor | src/http/date.rs:152-163 | Every day number is a valid date and the next number the next day of the calendar |
| Date.Epoch | src/http/date.rs:152-163 | Day 0 is 1 January 1970 |
| Date.CivilCounts | src/http/date.rs:152-163 | The algorithm inverts day counting, for every integer |
| Date.CivilOfCount | src/http/date.rs:152-163 | A date is valid if and only if the algorithm gives it for its own day number |
| Date.Injective | src/http/date.rs:152-163 | Two days never have the same date |
| Date.NoYearIsCut | src/http/date.rs:162-162 | Within the 32-bit years the cut changes nothing |
| HttpDate.TextReads | src/http/date.rs:124-149 | Up to the year 9999 a written date reads back as the same second, with the right day of the week |
| HttpDateExample.RfcExample | src/http/date.rs:124-163 | The second 784111777 is printed as Sun, 06 Nov 1994 08:49:37 GMT, the example of section 5.6.7 of RFC 9110 |
| HttpDateExample.NamesStand | src/http/date.rs:119-149 | Every date has its day's name in front and its month's in the middle, letter by letter |
| HttpDate.AppendHttpDateOf | src/http/date.rs:124-149 | The printing steps append that text; times before the epoch print as it |
| ConfigLexer.UnescapedEscaped | src/config/lexer.rs:189-233 | Any text comes back from its quoted form |
| ConfigText.EscapesMean | src/config/lexer.rs:189-233 | Each of the six escapes becomes its own byte, and every other byte, and every other backslash, stays |
| ConfigText.EveryText | src/config/lexer.rs:189-233 | Every text is made of such pieces |
| ConfigText.CommentVanishes | src/config/lexer.rs:109-128 | A comment, up to the end of its line, is as good as not there |
| ConfigText.SpaceVanishes | src/config/lexer.rs:109-128 | So is white space |
| ConfigText.QuotedWordIs | src/config/lexer.rs:130-161 | Between two quotes of a kind stands one word, delimiters and all, and behind it must stand a delimiter or nothing |
| ConfigText.UnclosedIsRefused | src/config/lexer.rs:130-161 | A quote that is never closed is refused |
| ConfigLexer.QuotedLexeme | src/config/lexer.rs:130-161 | A quoted text is one token, whatever stands behind its delimiter |
| ConfigLexer.BareExactly | src/config/lexer.rs:163-187 | A word without delimiters is read back unquoted if and only if it is bare |
| ConfigWords.KeptExactly | src/config/lexer.rs:130-187 | Any word that begins neither white space nor a comment is read back unquoted, whatever stands behind its delimiter, if and only if the scan takes just the word and resolves nothing in it |
| ConfigWords.BareIsKept | src/config/lexer.rs:163-187 | Bare words are such words |
| ConfigLexer.Lexer.Run | src/config/lexer.rs:75-107 | The tokenizing loop gives the specified tokens |
| ConfigLexer.Lexer.QuotedWord | src/config/lexer.rs:130-161 | From an opening quote the scan returns the specified word and ends behind its quote, or reports what the grammar has no token for |
| ConfigLexer.Lexer.BareWord | src/config/lexer.rs:163-187 | The scan takes exactly the bare word at the cursor, with its escapes resolved |
| ConfigLexer.Unescape | src/config/lexer.rs:189-233 | The resolving loop computes the recursive definition that the round trips are about |
| ConfigAst.ParsesBlock | src/config/ast.rs:150-214 | The tokens of a tree parse as that tree, with each block-less include replaced in its place by what its files hold, and then as what follows; they fail where an include does |
| ConfigAst.LexesBlock | src/config/ast.rs:269-297 | The text of a tree is read as the tree's tokens, and then as what follows |
| ConfigAst.DumpRoundTrip | src/config/ast.rs:269-297 | Printing, tokenizing and parsing give a tree back, with its includes replaced in their places |
| ConfigAst.PlainRoundTrip | src/config/ast.rs:269-297 | And as it was, if it has none, whatever files there are |
| ConfigExact.DumpExactly | src/config/ast.rs:269-297 | A tree, none of whose unquoted words is empty or begins white space or a comment, comes back if and only if each of those words does on its own |
| ConfigExact.TicksAreLost | src/config/ast.rs:269-297 | An argument in ticks is printed as it is and comes back without them |
| ConfigAst.Parser.Block | src/config/ast.rs:150-181 | The block loop gives the specified tree and stops where it says |
| ConfigAst.Parser.OneDirective | src/config/ast.rs:183-214 | The directive loop too |
| ConfigAst.Dump | src/config/ast.rs:269-297 | The printing loops append the specified text |
| FcgiProto.ParseStable | src/server/fcgi_proto.rs:155-179 | What a record or an error is does not depend on what comes after it |
| FcgiProto.ParseSent | src/server/fcgi_proto.rs:155-179 | A record laid out field by field as in section 3.3 of the FastCGI specification, with any request id, padding and reserved byte, is read as that record |
| FcgiProto.RecordIsSent | src/server/fcgi_proto.rs:70-90 | The records written are laid out so |
| FcgiProto.StreamReads | src/server/fcgi_proto.rs:121-135 | A payload of any length written as a stream parses as that payload, ended by exactly one empty record |
| FcgiProto.StreamAligned | src/server/fcgi_proto.rs:70-90 | Every stream written is a multiple of eight bytes |
| FcgiProto.PairReads | src/server/fcgi_proto.rs:103-119 | A written name-value pair is read back when both lengths fit 31 bits |
| FcgiProto.PushRecord | src/server/fcgi_proto.rs:83-90 | The record is appended with its padding |
| FcgiProto.PushStream | src/server/fcgi_proto.rs:121-135 | The chunk loop appends the specified records |
| FcgiProto.PushPair | src/server/fcgi_proto.rs:103-119 | Both lengths, then both texts |
| FcgiBody.DrainSplit | src/server/fastcgi.rs:290-318 | More bytes only continue where draining ran out of whole records, and change nothing where it ended or broke |
| FcgiBody.SplitIndependent | src/server/fastcgi.rs:290-352 | However a stream is split into reads, the same comes out |
| FcgiBody.ResponseGives | src/server/fastcgi.rs:290-318 | A response of any records up to END_REQUEST, padded in any way, gives the STDOUT bodies in order and ends with the application's status; it is refused exactly where END_REQUEST says that the request was |
| FcgiBody.FrontGives | src/server/fastcgi.rs:290-318 | However much of a response has arrived, a front of what it gives has come out, and all of it once the request has ended |
| FcgiBody.HeaderEndsFirst | src/server/fastcgi.rs:515-535 | A head ends at the first line end that an empty line, with or without CR, or nothing follows |
| FcgiHead.HeadExactly | src/server/fastcgi.rs:215-246 | The head with which a response is streamed is the whole output's if and only if no read left the output behind a newline inside that head; otherwise it ends at such a newline. What is streamed is always a front of the output |
| FcgiHead.HeadTooSoon | src/server/fastcgi.rs:222-240 | Two header lines in two reads: the first is streamed as the head and the second as body |
| FcgiBody.DrainFrom | src/server/fastcgi.rs:290-318 | The record loop drains what the specification does |
| FcgiBody.Body.PumpOnce | src/server/fastcgi.rs:328-351 | One read and a parse lose nothing and repeat nothing |
| FcgiBody.Body.Collect | src/server/fastcgi.rs:208-243 | Collecting ends with the whole output, or with its head and what came with it, or with a refusal whose reason is named; and it streams exactly when and with what `StreamsAt` says of the reads |
| FcgiBody.Body.PollRead | src/server/fastcgi.rs:354-423 | A client's read continues exactly where the last one stopped, and is empty only when all has been handed out |
| FcgiSession.Session | src/server/fastcgi.rs:208-423 | For every list of reads, closes and failures of the socket and all buffer sizes, the client gets exactly what the reads come to: all the output up to END_REQUEST or the close, or an end that tells it the answer is lost; an error status comes only where it is lost or is too much to be a header block |
| FcgiSession.ResponseBrings | src/server/fastcgi.rs:290-318 | Which for a response of any records, however it is padded and split, is its STDOUT bodies before END_REQUEST; or lost exactly where that says the request was not taken |
| Http3Frame.VarintRoundTrip | src/http3/frame.rs:76-118 | Every integer below 2^62 is read back, whatever follows |
| Http3Frame.VarintShortest | src/http3/frame.rs:76-88 | No shorter form would hold the value |
| Http3Frame.VarintMeans | src/http3/frame.rs:106-118 | The first two bits give the width; the other six, and the bytes behind them from the most significant on, the value |
| RfcExamples.Varints | src/http3/frame.rs:106-118 | The examples of appendix A.1 of RFC 9000 |
| Http3Frame.VarintStable | src/http3/frame.rs:106-118 | A varint that has been read is unchanged by more bytes |
| Http3Frame.HeadStable | src/http3/frame.rs:130-145 | So is a frame head, or its refusal |
| Http3Frame.HeadRoundTrip | src/http3/frame.rs:130-167 | A written frame's head is read back if and only if its kind is not one of HTTP/2's |
| Http3Frame.PairsDecode | src/http3/frame.rs:212-238 | Any list of parameters decodes to what it means, unless one of HTTP/2's is in it |
| Http3Frame.SettingsRoundTrip | src/http3/frame.rs:198-238 | Our own settings come back as they are |
| Http3Frame.PutVarint | src/http3/frame.rs:90-104 | The writing branches give the specified bytes |
| Http3Frame.ReadVarint | src/http3/frame.rs:106-118 | The folding loop gives the specified value |
| Http3Frame.EncodeSettings | src/http3/frame.rs:198-209 | The loop writes the three parameters |
| Http3Frame.DecodeSettings | src/http3/frame.rs:212-238 | The loop decodes as specified |
| Http3Reader.WireRoundTrip | src/http3/conn.rs:445-521 | Any list of frames written out is read as those frames |
| Http3Reader.Reader.ReadInteger | src/http3/conn.rs:476-486 | What is read depends on the bytes alone, not on how the stream splits them |
| Http3Reader.Reader.ReadHead | src/http3/conn.rs:490-511 | The same of a frame head and of how the stream ends |
| Http3Reader.Reader.ReadExact | src/http3/conn.rs:514-521 | The same of a payload |
| Http3Reader.Reader.ReadFrames | src/http3/conn.rs:445-521 | The same of all frames to the end of the stream |
| Qpack.LineRoundTrip | src/http3/qpack.rs:181-222 | Every written field line is read back, whatever follows |
| Qpack.SectionRoundTrip | src/http3/qpack.rs:175-331 | A written section is read back as its list, or refused exactly when that is over the limit |
| QpackPeer.PeerIsUnderstood | src/http3/qpack.rs:226-331 | Any peer: whichever representations it chooses for its fields, with any base, the section is read as the list that it means, or refused exactly when that is over the limit |
| QpackPeer.DynamicIsRefused | src/http3/qpack.rs:236-262 | Every line that refers to a dynamic table, also behind the base, is refused |
| QpackPeer.NeedsNoEntries | src/http3/qpack.rs:277-288 | So is a section that needs entries of it |
| Qpack.SectionAppends | src/http3/qpack.rs:181-200 | Encoding one more line appends to the section |
| Qpack.Encode | src/http3/qpack.rs:181-200 | The line is written with the first full or name match |
| Qpack.Decode | src/http3/qpack.rs:226-275 | The decoding loop gives the specified list or refusal |
| QpackStatic.RfcSectionRoundTrip | src/http3/qpack.rs:63-163 | The same for the static table of RFC 9204, Appendix A |
| CacheEntry.EntryRoundTrip | src/server/cache.rs:162-264 | An entry is read back as it was written for its own key, and under any other key is another's |
| CacheEntry.EntryExactly | src/server/cache.rs:162-264 | Status, headers, body and both times come back exactly if and only if the headers are plain |
| CacheEntry.LineEndIsLost | src/server/cache.rs:162-264 | A header whose value holds a line end does not come back |
| CacheEntry.BlockRoundTrip | src/server/cache.rs:240-255 | A header list comes back from its block if and only if it is plain |
| CacheEntry.PrefixIsTruncated | src/server/cache.rs:213-238 | Every strict prefix of an entry is refused as cut short, whatever key is asked for |
| CacheEntry.LongKeyIsLost | src/server/cache.rs:162-190 | A key beyond the 16-bit length is never found again |
| CacheEntry.EncodeEntry | src/server/cache.rs:162-191 | The writing steps give the specified bytes |

## Findings

Properties that do not hold of the code as one might first state them, each with an input that breaks it and
the condition under which it holds; where that is exact the entry names the equivalence.

- The limit of one key in `limit_conn`. Two workers that take over two idle slots for the same key at the same
  time both get a guard, under a limit of 1: `LimitConnRace.KeyBoundFailsInterleaved` builds the run from
  the empty table. `LimitConnRace.KeptExactly`: the limit holds over all interleavings if and only if there is
  one worker at most. For single runs of more workers `LimitConnKey.KeyBound` has a sufficient condition: no
  takeover for a key overlaps another acquire of it.
- The rate of one key in `limit_req`. A slot is claimed by its hash first and cleared after that, so a second
  worker can count requests in it that the clearing forgets: `LimitReqRace.ForgetsCounted` loses a whole burst in
  one millisecond, where the comment at src/server/limit_req.rs:250-253 speaks of one request and of full windows
  only. `LimitReqRace.KeptExactly`: keys that are not forgotten keep their rate over all interleavings if and
  only if there is one worker at most. For single runs of more workers `LimitReqSteps.RateBoundSteps` has a
  sufficient condition.
- The candidate that a probe of `limit_req` expects at its end (src/server/limit_req.rs:254). A worker that loses
  all sixteen swaps of its window to other keys has none: `LimitReqRace.PanicsExactly`, again exactly
  from two workers on.
- The rate of `limit_req` for bursts beyond the 24 bits of stored excess (src/server/limit_req.rs:97-101). What
  is cut off can be admitted again. A burst is safe at every rate if and only if it fits the 24 bits:
  `LeakyLimits.SafeExactly`; the failing run starts from a key never seen. For one rate the condition is wider,
  the burst may be beyond by less than the common grain of a request's cost and a millisecond's drain:
  `LeakyLimits.KeptExactly` for rates of coarse grain, among them every whole number of requests a second up to
  16777. `LeakyLimits.KeptBeyond` shows a burst of 16778 requests that keeps the one rate and not the other.
- A stream's send window against the limit of section 6.9.1 of RFC 9113. SETTINGS moves every window without
  checking it (src/http2/conn.rs:565-571). `Http2Settings.OverflowReached` gets there with three frames;
  `Http2Settings.OverflowsWhen` says that it happens on exactly the runs in which a SETTINGS frame comes
  while some unreset stream's window plus the change is beyond the limit.
- Streams that an HTTP/2 client has cancelled. The comment at src/http2/conn.rs:430-432 counts what is in flight,
  but RST_STREAM sets only `reset` (src/http2/conn.rs:515-518), and what counts is whether `done` is set:
  `Http2Crowd.CountsExactly`. `Http2Crowd.CrowdedOut` is a run with no stream left open whose next request is refused.
- Frames in flight when the server resets a stream. `reset_stream` (src/http2/conn.rs:707-708) and `Where::Reset`
  promise that they are not treated as connection errors; section 5.1 of RFC 9113 asks for it. They are, for
  trailers on any reset stream, and for DATA or a CONTINUATION on a refused one, which leaves no entry:
  `Http2Client.EverServed` is the exact condition, `Http2Crowd.TrailersTooLate` and `Http2Crowd.CrowdedOut` are runs.
- The header block of a refused request. The comment at src/http2/conn.rs:727-732 says why every block must be
  decoded; this one is not: `Http2Crowd.RefusedIsNotRead`. `Http2Headers.DecodesInOrder` says which are.
- A client's SETTINGS_HEADER_TABLE_SIZE. Section 6.5.2 of RFC 9113 has it limit what the server's encoder may use;
  src/http2/conn.rs:557 gives it to the server's decoder, where the comment at src/http2/hpack.rs:132 expects the
  server's own. The client's encoder goes on with the 4096 it knows of: `Http2Tables.OwnLimitRun` ends a connection
  by three lawful frames. `HpackPeer.OwnLimitExactly`: no harm is done if and only if the size is at least 4096.
- The head of a streamed FastCGI response. src/server/fastcgi.rs:225-226 means to stream only once the headers are
  complete, but a read that ends behind a header line looks like their end (src/server/fastcgi.rs:527-530):
  `FcgiHead.HeadTooSoon`, and exactly when: `FcgiHead.HeadExactly`.
- Printing a configuration. `dump` never quotes a name, and quotes an argument only for white space, `;`, `{`
  or `}`, so a leading quote or a backslash that the tokenizer resolves is lost: `ConfigExact.TicksAreLost`,
  and exactly when: `ConfigExact.DumpExactly`.
- An integer of HPACK whose part beyond the prefix has 64 bits is written and not read back:
  `HpackInt.ReadWritten` has the exact bound.
- Cache entries. A header whose name holds `: `, or whose name or value holds CR LF, is not read back as it
  was, and no other is lost: `CacheEntry.EntryExactly`, with
  `CacheEntry.LineEndIsLost` for one such value. A key of 65536 bytes or more is
  written with the low bits of its length: `CacheEntry.LongKeyIsLost`.
- Normalising a path twice changes it exactly when its first result has a percent sign:
  `Uri.NormalizeAgain`; `Uri.TwiceDiffers` is one.

## Left out

- ConfigExact.DumpExactly: says nothing of trees in which an unquoted word is empty or begins white space or a comment, because such a word shifts everything behind it; a block-less `include` is replaced by what its files hold
- LeakyLimits.KeptExactly: for rates whose common divisor with a million is below 200 thousandths, or that are more than 16777 times it, only the sufficient half is proved, as LeakyLimits.GrainKeepsRate, and failure from a thousand units on, as LeakyLimits.FarBeyond
- LimitReq.ServedAlone: is about checks that run one at a time; any number of workers are LimitReqSteps and LimitReqRace
- LimitReq.Zone.Check: runs alone, so it loses no swap for an empty slot; that branch is the step Claiming of LimitReqSteps; the hash and state of a slot are two arrays here
- LimitReq.Zone.Bump: runs alone, so its slot is not taken over; that branch is the step Checking of LimitReqSteps
- LimitReqRace.PanicsExactly: is about tables of at most 2^62 slots, for which the keys of the failing run fit 64 bits
- LimitConnRace.KeptExactly: is about tables of fewer than 2^47 slots, for which the tags of the failing run fit 48 bits
- LeakyBucket.RateBound: assumes fixed parameters, clocks that do not go back, and times below 2^39 milliseconds, beyond which the stored time wraps
- LimitConnSteps.EveryRun: assumes that no worker is killed and no guard is forgotten, and takes memory to be sequentially consistent; a limit of 0, which the configuration refuses, is counted as 1
- FcgiSession.Session: after the last read of its list the next one times out; the budget of the response's total time is not modelled
- FcgiProto.PairReads: lengths of 31 bits and more are cut by the source and are not read back
- HttpDate.TextReads: stops at the year 9999, beyond which the year has more than four digits; parsing is an external library's and only its inverse is stated here
- Hpack.RunRoundTrip: is about lists within the decoder's limit of valid text, where a Huffman-coded string is within 64 KiB
- Http2Headers.DecodesInOrder: is about the blocks the loop opens; those of refused or self-dependent HEADERS are not decoded by the source (see "Findings")
- Http2Client.EverServed: counts GOAWAY and PUSH_PROMISE as frames that the client does not send; `Halts` tells that 128 streams count from the connection's state, since a task's end is not seen on the wire
- Http2Runs.HandedOut: the check of pseudo-headers, which the source makes in the response task, is not part of this model
- Http2Loop.Connection.Receive: what follows the end of a connection, GOAWAY's text and the bytes of control frames are not modelled; the streams are visited in any order, since only the frame's own can be ready
- What a response task sends besides DATA with payload: its header block and its empty last DATA frame touch no shared state
- Scheduling and liveness: that a waiting task is woken again is not claimed
- Hash functions of the shared tables, their seeds, and the shared mapping itself
- Line numbers, file names and messages of configuration errors, and how include patterns are resolved; an include is any function here
- The cached dates, local time, and parsing of dates
- The filesystem side of the cache, its index, locks and manager
- HTTP/1 parsing and connections, request handling, static files, regular expressions, TLS, QUIC and the web application firewall: library calls, or long lists of easy cases
