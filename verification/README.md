# NodeLink in Dafny

NodeLink is a BitTorrent client. This project models the path of a download, from the metainfo file and the bytes that
peers send to the bytes on disk, and proves what holds of it for every input and every run.

| file | what it holds |
|---|---|
| `Bytes`, `Message` | big-endian integers, the messages the client builds and the length prefix it reads |
| `Torrents`, `Disk` | how a file is cut into pieces; write jobs and the file they are written to |
| `Assembly`, `Episode`, `AnyOrder` | the piece assembler as a function on states; what any blocks of one piece make of the buffer; blocks arriving in any order |
| `Protocol` | the peer connection as a function on states, with the part all connections share and a log of events |
| `Chunking`, `Framing` | independence from how the stream is cut; which messages a stream holds |
| `History`, `Swarm`, `RequestLaws` | what the log says; any number of connections on one downloader; what follows for their requests |
| `Progress`, `Sending` | what each message makes the connection ask for; what a connection sends, byte for byte |
| `Delivery`, `Seeder` | the blocks of the file in order; the run with one seeder that chokes and unchokes as it likes |
| `Worker`, `Downloader`, `Connection` | the objects, with fields updated in place, proved equal to the functions above |
| `EventLoop` | connection objects on one downloader object, driven event by event |
| `WriterThread` | the writer thread, its callers and its destructor as a step relation |
| `Numbers`, `Bnode`, `BnodeCodec`, `BnodeLaws`, `Canonical` | decimal text, bencode, its decoder and encoder as they run, round trips, canonical form |
| `Grammar` | which bytes spell which value, in literal bytes |
| `TorrentFile` | loading a metainfo file and the bytes of the info hash |
| `Fips180`, `FipsExample`, `Sha1` | SHA-1 as FIPS 180-4 defines it, its published example, and the client's own SHA-1 |
| `Pipeline` | the parts put together, from the wire to the disk |

Each stateful part has a function that takes a state to the next state. The methods of the matching class or module are
proved to compute exactly that function, and the laws are proved about runs of the function. A C++ exception is a value
(`Throw`). A passed-by-reference buffer is returned with its new contents. `vector<uint8_t>` is `seq<byte>`, except the
piece buffer, which is an array that blocks are copied into.

A peer connection is in one of three link states: up, down, or `Undefined`. A message may carry any 32-bit piece index and
block offset; they are passed on as ints, so that values of 2^31 and more become negative, and the assembler takes them as
the program does: it starts any piece over, drops a block that does not fit, and adds offset and size as unsigned 64-bit
numbers. A connection becomes `Undefined` only where C++ gives the program no meaning: a copy leaves the piece buffer
because that sum wrapped around, the expected digest of an index that is no piece is read, or a frame length of at least
2^32 - 4 makes the receive loop read beyond its buffer (reads bring at most 8192 bytes). `Assembly.DefinedIff` says exactly
which blocks do so. Such an event ends what can be said of the whole program, so a run describes it up to the first
one; the laws hold after every run, and so at each point before.

## Where the code and its documentation, or its intent, differ

The model follows the code.

- The expected digests are 20 raw bytes (`source/parsing/TorrentFile.cpp:50-52`), the computed ones 40 hexadecimal
  digits (`include/parsing/Sha1.h:38-41`). `Pipeline.LoadedTorrentVerifiesNothing` shows the consequence:
  no piece of a loaded torrent is ever verified. `Assembly.HandOffPossibleIff` gives the exact condition under which
  anything can be handed to the writer. The other laws take the digest function and the expected digests as given, in
  whatever form, and so hold of a client in which the two forms agree.
- `downloaded_bytes` is increased by the size of the piece buffer after the buffer was moved out
  (`source/download/downloader.cpp:89-91`), so by zero. `Assembly.CompleteOnlyIfEmpty` shows that no run counts as
  complete unless the torrent has length zero.
- `README.md:15` of the repository speaks of rarest-first selection. Pieces are dispensed in ascending order, and a
  piece that the asking peer lacks is dropped (`source/download/Connection.cpp:189-205`).
- A readable event that comes before the first writable one is handled like any other (`source/download/Connection.cpp:83-121`),
  so messages can be answered before the handshake is out. `Sending.HandshakeFirstIff` gives the exact condition for the
  handshake to come first, `Sending.RequestBeforeHandshake` a run in which it does not. The event loop tries to write before
  it reads (`source/download/Farm.cpp:53-63`), so this takes a socket that is readable and not writable.
- The info hash is taken over re-encoded bytes. `TorrentFile.InfoBytesAreFileBytesIff` shows when these are the bytes of the
  file: exactly when the info value is canonical there. `TorrentFile.LeadingZeroIsLost` gives files
  for which they are not.

## Model

| member | source | states |
|---|---|---|
| Bytes.WriteBE32 | include/parsing/buffer.h:28-33 | the four appended bytes read back as the value, and what was there before stays |
| Bytes.At32UndoesBE32 | include/parsing/buffer.h:15-33 | reading undoes writing wherever the four bytes stand |
| Bytes.BE32UndoesAt32 | include/parsing/buffer.h:15-33 | writing undoes reading |
| Message.BuildRequest | source/download/message.cpp:65-73 | a 17-byte message of length 13 and id 6 from which all three 32-bit fields are recovered |
| Message.RequestInjective | source/download/message.cpp:65-73 | requests with equal bytes ask for the same range |
| Message.FrameParts | source/download/message.cpp:75-83 | a frame at the front of a buffer gives back its length, id, payload and the rest |
| Message.BuildHandshake | source/download/message.cpp:16-37 | 68 bytes with the protocol name, the info hash and the peer id in their places |
| Torrents.PieceLenIsCutAtEnd | source/download/downloader.cpp:56-62 | the length computed for a piece is what is left of the file at its start, cut at the piece length, and the last piece ends with the file |
| Torrents.PieceLenElsewhere | source/download/downloader.cpp:56-62 | an index that is no piece gets the full piece length |
| Assembly.OnBlockKeepsInv | source/download/downloader.cpp:48-102 | every block, whatever its index, offset and data, keeps: the buffer has the size of its piece or was moved out after filling up, and all jobs are verified pieces |
| Assembly.RunKeepsInv | source/download/downloader.cpp:48-102 | for blocks in any number and order, with duplicates, overlaps, wrong data, piece switches and numbers outside the torrent, every job is one complete verified piece in its place |
| Assembly.DefinedIff | source/download/downloader.cpp:70-82 | in a reachable state a call leaves its memory exactly when a negative offset plus the size falls back into the buffer, or the buffer is full after the call and the index is no piece |
| Assembly.PieceBlocksAreDefined | source/download/downloader.cpp:70-82 | no block of one of the torrent's pieces at an offset below 2^31 does that, as long as offset and size together are below 2^64 |
| Assembly.OneHandOffPerEpisode | source/download/downloader.cpp:50-102 | between two changes of the current piece at most one job is handed over, whatever blocks arrive |
| Episode.EpisodeLaw | source/download/downloader.cpp:48-102 | for any blocks of one piece after blocks of another: each byte of the buffer is that of the last fitting block over it, or 0, and a block that does not fit changes nothing; the first block that completes the piece with the expected digest hands it over as painted, and then nothing happens; without such a block nothing is handed over |
| Assembly.HandOffPossibleIff | source/download/downloader.cpp:67-88 | some run hands a job over exactly when some content of a piece's length has the expected digest, and then some run of defined calls does |
| Assembly.CompleteOnlyIfEmpty | include/download/downloader.h:39-41 | a run counts as complete exactly when the torrent is empty |
| AnyOrder.AssemblesInAnyOrder | source/download/downloader.cpp:50-77 | blocks that tile a piece, in any permutation and with any blocks that do not fit among them, give the piece byte for byte; the check does not fire before the last fitting block and fires on it; all calls at offsets from 0 on are defined |
| Disk.VerifiedJobsAreSafe | source/download/Worker.cpp:31-33 | after verified jobs in any order and repetition each piece range is untouched or holds one full verified piece, and nothing lies outside the file |
| Disk.LastWriteStays | source/download/Worker.cpp:31-33 | a piece that is not written again stays on disk byte for byte |
| Downloads.Downloader.OnBlockReceived | source/download/downloader.cpp:48-103 | for any index, offset and data the in-place assembler changes its fields exactly as the assembler function says, and tells whether it stays within its memory |
| Downloads.Downloader.GetNextPieceToRequest | include/download/downloader.h:33-37 | the next index, or -1 once all are given out, and the counter advances |
| Worker.Writer.Add | source/download/Worker.cpp:42-46 | the job is appended and the caller's buffer is left empty |
| Worker.Writer.Drain | source/download/Worker.cpp:26-36 | everything queued is written in order and the file is what all added jobs make of it |
| Connections.Connection.ProcessBuffer | source/download/Connection.cpp:81-164 | the receive loop, with its fields updated in place, computes the processing function |
| Connections.Connection.TakeFront | source/download/Connection.cpp:83-120 | one turn cuts off exactly the handshake, the keep-alive or the message at the front, or stops |
| Connections.Connection.TakeBitfield | source/download/Connection.cpp:129-147 | the two bit loops add exactly the marked pieces to those known before |
| Connections.Connection.RequestNextBlock | source/download/Connection.cpp:167-236 | the search loop and the block arithmetic compute the request function |
| Connections.Connection.OnReadyRead | source/download/Connection.cpp:55-79 | a read on a dead connection does nothing, an empty read closes it, other bytes are appended and processed |
| Connections.Connection.OnReadyWrite | source/download/Connection.cpp:32-51 | the handshake is sent once, when connecting |
| EventLoop.HandleEvent | source/download/Farm.cpp:53-72 | an event changes the connection it is for and the shared objects as the step function says, and no other connection |
| EventLoop.Connect | source/download/downloader.cpp:25-33 | at most the first five peers get a connection, each in its initial state |
| EventLoop.RunLoop | source/download/Farm.cpp:38-79 | the objects go through exactly the run of the system |
| EventLoop.Download | source/download/downloader.cpp:16-46 | from fresh objects, whatever the peers send, every job handed to the writer is one complete verified piece |
| Protocol.MarkedReadsBits | source/download/Connection.cpp:131-145 | piece i is bit 7 - (i mod 8) of byte i / 8 |
| Chunking.ProcessExtends | source/download/Connection.cpp:81-164 | processing a stream in two parts is processing it whole, unless the first part ends the connection |
| Chunking.ChunkingIndependence | source/download/Connection.cpp:55-164 | two cuts of one byte stream lead to the same messages handled, messages sent, downloader calls, fields and leftover bytes; only undigested bytes of a dead connection may differ |
| Framing.ParseUndoesStream | source/download/Connection.cpp:99-120 | any list of messages is recovered from its bytes without its keep-alives and with nothing left over |
| Framing.PrefixParsesToPrefix | source/download/Connection.cpp:99-120 | a prefix of any byte stream holds a prefix of its messages |
| Framing.CutOffStream | source/download/Connection.cpp:99-120 | a list of messages cut off at any byte parses to its first messages |
| Framing.ProcessHandlesParsed | source/download/Connection.cpp:99-163 | the connection handles the messages of its buffer in order up to the first that ends it, all of them if none does; it and the assembler end exactly so |
| Framing.ConnectionHandlesItsStream | source/download/Connection.cpp:55-163 | the same for its whole life: any stream after the 68 bytes, in any chunks |
| Swarm.FindPieceKeeps | source/download/Connection.cpp:173-207 | the search finds a piece the peer has or exhausts the dispenser; the attempts guard never fires |
| Swarm.SendBlockKeeps | source/download/Connection.cpp:210-235 | a request keeps what every connection and the shared part maintain |
| Swarm.HandleKeeps | source/download/Connection.cpp:121-162 | so does every message, whatever its id and payload, piece index and offset included |
| Swarm.EveryRunKeeps | source/download/Connection.cpp:55-236 | the invariant of the whole system holds after every interleaving of any number of connections on one downloader |
| RequestLaws.RequestsNeverOverlap | source/download/Connection.cpp:167-236 | in every run all requested ranges of all peers lie in the file and are pairwise disjoint |
| RequestLaws.TotalAtMostLength | source/download/Connection.cpp:167-236 | all peers together are asked for at most the length of the file |
| RequestLaws.ExactTilingPerPiece | source/download/Connection.cpp:209-235 | the requests of an assigned piece are consecutive full blocks covering exactly up to the block offset; a released piece is covered completely, in ceil(length / 16384) blocks |
| RequestLaws.ConservationOfPieces | include/download/downloader.h:33-37 | an index below the counter was given out exactly once, and kept exactly when that peer had announced the piece; no other index was given out |
| RequestLaws.BitfieldHistory | include/download/Connection.h:40-43 | HasPiece holds exactly of the pieces marked by some BITFIELD of that peer handled so far |
| RequestLaws.SentIsLogged | source/download/Connection.cpp:95-225 | the bytes sent to a peer are its handshake, INTERESTED and its requests in order, and no request is made while choked |
| Progress.UnchokeAsks | source/download/Connection.cpp:124-128 | in every state that satisfies the system invariant, message 1 is followed by exactly one request for the next block of the piece in hand, of 16384 bytes or what is left; with none in hand by dropping the pieces the peer lacks and requesting the first block of the least one it announced; or by no request, with the dispenser exhausted |
| Progress.PieceAsks | source/download/Connection.cpp:151-161 | message 7 delivers its block and, while unchoked, asks in the same way; while choked it asks for nothing |
| Progress.OthersAskNothing | source/download/Connection.cpp:121-150 | every other message is only noted, except that 0 chokes and 5 adds exactly the marked pieces |
| Progress.BadPieceEnds | source/download/Connection.cpp:73-78 | message 7 without index and offset closes the connection |
| Sending.EveryRunSends | source/download/Connection.cpp:32-236 | in every run the bytes sent to a peer are its requests made while connecting, the literal handshake, once past that phase 00 00 00 01 02, and all later requests as literal bytes in the order of the log |
| Sending.HandshakeFirstIff | source/download/Connection.cpp:32-51 | once sent the handshake is the first message if and only if no request was made before it; then INTERESTED is the second and the requests follow |
| Sending.WritableFirstSuffices | source/download/Farm.cpp:53-63 | that is so whenever nothing is read from a peer before its connection is found writable |
| Sending.RequestBeforeHandshake | source/download/Connection.cpp:83-128 | but not in every run: a peer whose bitfield and unchoke are read while connecting gets a request first |
| Sending.DeadSaysNothing | source/download/Connection.cpp:55-68 | a connection that has ended never sends, asks or delivers again, whatever events come |
| RequestLaws.EveryJobIsVerified | source/download/downloader.cpp:67-88 | whatever any number of peers send, with any numbers in their messages, every job is one complete verified piece |
| Seeder.AnswersAreAskedFor | source/download/Connection.cpp:149-161 | at every point of the stream of a seeder that chokes and unchokes at will, the blocks asked for are the first of the plan, one for each UNCHOKE and each PIECE that came unchoked; if it answers only what it was asked for, then while it does not choke some block is asked for and unanswered |
| Seeder.DeliversTheFile | source/download/Connection.cpp:55-236 | one such seeder, any chunks, keep-alives and other messages anywhere: what is sent is the handshake, INTERESTED and exactly ceil(length / 16384) requests for each piece in plan order; the jobs are the pieces in order and make the file |
| Delivery.NeverAsksAgain | source/download/Connection.cpp:181-186 | once the dispenser is exhausted and no piece is in hand, no stream of any chunks leads to a request |
| WriterThread.MoveKeepsInv | source/download/Worker.cpp:14-46 | every step of every thread conserves the jobs, the lock discipline and the wake-up rule |
| WriterThread.EveryInterleaving | source/download/Worker.cpp:14-46 | in every interleaving written, in flight and queued are the added jobs in order, and the consumer sleeps only with nothing to do or a notification due |
| WriterThread.DrainsOnceStopped | source/download/Worker.cpp:14-40 | once stopped the machine takes a bounded number of steps, and where it can no longer move every added job is written and the destructor has joined |
| WriterThread.StoppedNeverStuck | source/download/Worker.cpp:14-40 | once stopped somebody can always move until the join |
| WriterThread.QuietDrains | source/download/Worker.cpp:20-46 | between calls the consumer alone writes everything that was added |
| WriterThread.DiskSafeUnderAnySchedule | source/download/Worker.cpp:20-46 | verified jobs leave the file safe in every interleaving |
| Numbers.StollReads | source/parsing/Bnode.cpp:25-27 | white space, a sign (43 or 45) or none, the longest run of digits, the rest ignored; beyond 64 bits an exception |
| Numbers.StollNeedsDigits | source/parsing/Bnode.cpp:25-27 | without a digit in its place there is an exception |
| Numbers.ValueGrows | source/parsing/Bnode.cpp:25-27 | reading one more digit 48 + d makes the value ten times as large plus d |
| Numbers.StollUndoesToText | source/parsing/Bnode.cpp:65-85 | every 64-bit number survives being written and read |
| Bnode.InsertIsMapUpdate | source/parsing/Bnode.cpp:52-52 | assigning to a key replaces its value and leaves the other keys alone |
| Bnode.BuildIsAscending | source/parsing/Bnode.cpp:45-53 | in whatever order keys come, the dictionary is in key order |
| Bnode.BuildKeepsLast | source/parsing/Bnode.cpp:46-53 | of a repeated key the last value stays |
| Bnode.LessMeans | include/parsing/Bnode.h:15-15 | the key order is by the first differing byte, a proper prefix first |
| BnodeCodec.Decode | source/parsing/Bnode.cpp:8-11 | the running decoder gives the node or the exception of the specification |
| BnodeCodec.DecodeElementAt | source/parsing/Bnode.cpp:13-79 | so does the element decoder, with its cursor |
| BnodeCodec.EncodeNode | source/parsing/Bnode.cpp:82-115 | the running encoder gives the bytes of the specification |
| Grammar.DecodesIff | source/parsing/Bnode.cpp:13-79 | an element is read as a value up to a place if and only if the bytes in between spell that value: 105 text 101, length 58 bytes, 108 elements 101, 100 pairs 101, with texts that std::stoll reads |
| Grammar.Refused | source/parsing/Bnode.cpp:14-78 | the exceptions at the end of the data, at an unknown first byte, and for a number or length without its closing byte |
| Grammar.EncodingSpells | source/parsing/Bnode.cpp:82-115 | what the encoder writes of a value spells that value |
| Grammar.DigitsGrow | source/parsing/Bnode.cpp:85-95 | numbers are written with the digits 48 to 57, most significant first, and 45 for minus |
| Grammar.EncodingIs | source/parsing/Bnode.cpp:82-115 | the marks the encoder puts around each kind of value |
| BnodeLaws.RoundTripInContext | source/parsing/Bnode.cpp:13-115 | every node tree is decoded back from its encoding, with any bytes before and after, and the cursor ends at the end of the encoding |
| BnodeLaws.ElementIsLocal | source/parsing/Bnode.cpp:13-79 | what an element decodes to depends only on the bytes it consumes |
| BnodeLaws.ElementsArePrefixFree | source/parsing/Bnode.cpp:13-79 | no accepted element is a proper prefix of another |
| Canonical.EncodeIsCanonical | source/parsing/Bnode.cpp:82-115 | the encoder writes canonical bencoding: plain numbers, keys strictly ascending at every level |
| Canonical.CanonicalIffRoundTrip | source/parsing/Bnode.cpp:13-115 | a stretch of bytes is canonical exactly when it decodes and is encoded back to itself |
| Canonical.ReencodingCanonical | source/parsing/Bnode.cpp:8-115 | canonical bytes survive decoding and encoding |
| TorrentFile.CutPieces | source/parsing/TorrentFile.cpp:42-53 | the digests are the blob cut into 20-byte chunks, nothing more and nothing less |
| TorrentFile.KeysAre | source/parsing/TorrentFile.cpp:22-42 | the keys looked up are the bytes of announce, info, name, piece length, length and pieces |
| TorrentFile.Load | source/parsing/TorrentFile.cpp:18-63 | a file loads exactly when it has the needed keys with the needed types; the result describes it; otherwise the exception is that of the first fault in the order the fields are read |
| TorrentFile.LoadFault | source/parsing/TorrentFile.cpp:18-43 | there is no fault exactly in the files that hold what they must |
| TorrentFile.ValidTorrentIff | source/parsing/TorrentFile.cpp:31-53 | a loaded file is one the download laws speak of exactly when its piece length is positive, its digests are as many as ceil(length / piece length), and both fit an int |
| TorrentFile.DecodedIsWellFormed | source/parsing/Bnode.cpp:13-79 | whatever is decoded has 64-bit numbers and dictionaries in strict key order |
| TorrentFile.InfoBytesAreFileBytesIff | source/parsing/TorrentFile.cpp:25-60 | the bytes hashed are the bytes of the info value in the file exactly when that value is canonical there |
| TorrentFile.InfoHashOfCanonicalFile | source/parsing/TorrentFile.cpp:55-60 | for a canonical metainfo file the info hash is over the exact bytes of info |
| TorrentFile.LeadingZeroIsLost | source/parsing/TorrentFile.cpp:18-60 | whatever the other fields are, a file with a leading zero in its length loads, and the bytes hashed differ from those of its info value: they are one byte shorter |
| Fips180.PaddingIsLeast | include/parsing/Sha1.h:15-17 | at most 63 zero bytes, the least number that makes the length a multiple of 64 |
| Fips180.PaddingIsInjective | include/parsing/Sha1.h:15-17 | messages shorter than 2^61 bytes with the same padded form are equal |
| Fips180.CircularAgrees | include/parsing/Sha1.h:21-24 | the 80-word schedule and the 16-word circular form of FIPS 180-4 section 6.1.3 make the same words |
| Fips180.ConstantsAreRoots | include/parsing/Sha1.h:28-31 | the round constants are 2^30 times the square roots of 2, 3, 5 and 10, rounded down, in this order |
| Fips180.InitialCounts | include/parsing/Sha1.h:11-11 | the initial words read 01 23 ... ef, the same backwards, and f0 e1 d2 c3, least significant byte first |
| Fips180.HashGoesOn | include/parsing/Sha1.h:19-35 | every block goes on from what the blocks before it have made |
| FipsExample.DigestOfAbc | include/parsing/Sha1.h:10-35 | the digest of the bytes "abc" is the published one, through all 80 words and rounds |
| FipsExample.TextOfAbc | include/parsing/Sha1.h:37-41 | and its text is a9993e364706816aba3e25717850c26c9cd0d89d |
| Sha1.AppendZeros | include/parsing/Sha1.h:16-16 | the padding loop ends and appends exactly the zero bytes of FIPS 180-4 section 5.1.1 |
| Sha1.LengthByte | include/parsing/Sha1.h:17-17 | the shifts and masks give the bytes of the 64-bit length, most significant first |
| Sha1.Schedule | include/parsing/Sha1.h:20-24 | the array holds the 80 words of the schedule |
| Sha1.OneRound | include/parsing/Sha1.h:27-33 | the updates of the loop body make one round of FIPS 180-4 section 6.1.2 |
| Sha1.SelectIsF | include/parsing/Sha1.h:28-31 | the "or" forms of the round functions equal the "exclusive or" forms of FIPS 180-4 section 4.1.1 |
| Sha1.SetWidthIsHex | include/parsing/Sha1.h:38-40 | printing a word in hexadecimal to width 8 with fill 0 gives its eight digits |
| Sha1.Calculate | include/parsing/Sha1.h:10-42 | the 40 hexadecimal digits of the FIPS 180-4 digest, for every message shorter than 2^61 bytes |
| Pipeline.DiskSafeInEveryRun | source/download/Connection.cpp:55-164 | whatever peers send and however all threads interleave, no piece range on disk ever holds anything but one full verified piece, and nothing lies outside the file |
| Pipeline.SeederFileReachesDisk | source/download/Worker.cpp:14-46 | one seeder and a stopped writer under any schedule: the file on disk is the seeder's file, byte for byte and nothing more |
| Pipeline.OneConnectionRun | source/download/Farm.cpp:38-79 | the event loop on a single connection, writable once and then readable with each chunk, goes through the states that the laws on one stream speak of |
| Pipeline.DownloadFromSeeder | source/download/downloader.cpp:16-46 | the objects themselves, driven by the event loop with one seeder and a drained writer, end with handshake, INTERESTED and the planned requests sent, the pieces as jobs in order, and the seeder's file on disk |
| Pipeline.LoadedTorrentVerifiesNothing | source/download/downloader.cpp:69-86 | with digests as they are loaded and computed, no run hands anything to the writer |
| Pipeline.LoadedFileVerifiesNothing | source/parsing/TorrentFile.cpp:42-53 | so for every metainfo file that loads and gives a valid torrent |

## Left out

- Sockets, DNS and epoll (`source/tracker/transport.cpp`, `source/download/Farm.cpp`): the event loop gets any sequence of "writable", "readable with these bytes" and "lost" events, a send succeeds, and the loop ends with that sequence instead of asking whether the download is complete.
- Tracker requests and URL splitting (`source/tracker/`): only the peers they yield would matter here.
- The progress display (class `Speed`): terminal output and floating point.
- Reading the file from disk, `ofstream` internals and the OpenSSL digest: a file is its bytes, a write replaces a range, and the digest of the info bytes is a function parameter.
- A write that fails or is cut short by the operating system: a write takes effect as one step.
- Completion with several peers: pieces are dropped and mismatched pieces are not asked for again, so there is none to prove; completion is proved for one seeder.
- Overflow of the dispenser's counter and of the received-bytes counter after 2^31 calls or bytes: counters are unbounded.
- What the program does after an access that C++ leaves undefined: the connection concerned stops as `Undefined`. Copying zero bytes counts as defined, also into an empty buffer.
- The depth of the decoder's recursion: deeply nested lists can exhaust the stack of the program, the model's is unbounded.
- Negative or inconsistent lengths in a metainfo file: loading accepts them as the program does, but the download laws take a torrent whose number of pieces is ceil(length / piece length); `TorrentFile.ValidTorrentIff` says which files give one.
- WriterThread.DrainsOnceStopped: no call of add begins after the destructor has, because C++ allows no use of an object that is being destroyed.
- `isdigit` on a byte of 128 or more, which C++ leaves undefined for a signed char, is false in the model.
- NOT_INTERESTED, HAVE, CANCEL, CHOKE, UNCHOKE and keep-alive builders: nothing sends them.
