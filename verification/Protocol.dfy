/**
  The peer connection as a function on states (download/Connection.cpp), together with the part of the downloader that
  all connections share: the piece dispenser, the assembler, and a log of everything that happened.
 */
module Protocol {
  import opened Bytes
  import opened Torrents
  import opened Assembly
  import Message

  const BLOCK := 16384
  const HANDSHAKE_SIZE := 68

  datatype Phase = Connecting | Handshaking | Downloading

  /**
    `Down`: the socket is gone.  `Undefined`: a number this peer sent made the program do something that C++ gives no
    meaning to; what happens after that, on any connection, is not the program's behaviour any more.
   */
  datatype Link = Up | Down | Undefined

  datatype Conn = Conn(
    peer: nat, link: Link, phase: Phase, choked: bool, handshakeDone: bool, recv: Buffer,
    currentPiece: int, blockOffset: int, pieces: seq<bool>, sent: seq<Buffer>)

  datatype Event =
    | Greeted(peer: nat, bytes: Buffer)                                 // handshake sent
    | Interest(peer: nat)                                               // INTERESTED sent
    | Requested(peer: nat, piece: nat, begin: nat, length: nat)         // REQUEST sent
    | Received(peer: nat, id: byte, payload: Buffer)                    // message handled
    | Assigned(peer: nat, piece: nat)                                   // dispensed and kept
    | Skipped(peer: nat, piece: nat)                                    // dispensed and dropped
    | Delivered(peer: nat, block: Block)                                // call of OnBlockReceived

  datatype Shared = Shared(nextReq: nat, asm: Assembler, log: seq<Event>)

  datatype World = World(c: Conn, d: Shared)

  const IDLE := Shared(0, START, [])

  function NewConn(peer: nat): Conn {
    Conn(peer, Up, Connecting, true, false, [], -1, 0, [], [])
  }

  /** The job of a connection lies inside its piece. */
  ghost predicate Sane(t: Torrent, c: Conn)
    requires t.pieceLength > 0
  {
    && -1 <= c.currentPiece < |t.hashes|
    && (c.currentPiece != -1 ==> 0 <= c.blockOffset < PieceLen(t, c.currentPiece))
  }

  function Note(d: Shared, e: Event): Shared {
    d.(log := d.log + [e])
  }

  // ---- Bitfield ----

  function Shr(n: nat, k: nat): nat {
    if k == 0 then n else Shr(n / 2, k - 1)
  }

  /** Bit 7 - (i mod 8) of byte i / 8, if the payload has that byte. */
  predicate Marked(payload: Buffer, i: nat) {
    i / 8 < |payload| && Shr(payload[i / 8], 7 - i % 8) % 2 == 1
  }

  /** The number whose binary digits are `bits`, most significant first. */
  function Pack(bits: seq<bool>): nat {
    if bits == [] then 0 else 2 * Pack(bits[..|bits| - 1]) + if bits[|bits| - 1] then 1 else 0
  }

  lemma {:induction false} ShrDropsLowBits(bits: seq<bool>, k: nat)
    requires k <= |bits|
    ensures Shr(Pack(bits), k) == Pack(bits[..|bits| - k])
  {
    if k == 0 {
      assert bits[..|bits|] == bits;
    } else {
      var init := bits[..|bits| - 1];
      assert Pack(bits) / 2 == Pack(init);
      ShrDropsLowBits(init, k - 1);
      assert init[..|init| - (k - 1)] == bits[..|bits| - k];
    }
  }

  lemma LastBit(bits: seq<bool>)
    requires bits != []
    ensures Pack(bits) % 2 == 1 <==> bits[|bits| - 1]
  {
  }

  /** Bit 7 of byte 0 is piece 0, bit 0 of byte 0 is piece 7, bit 7 of byte 1 is piece 8, and so on. */
  lemma MarkedReadsBits(payload: Buffer, i: nat, bits: seq<bool>)
    requires i / 8 < |payload| && |bits| == 8 && payload[i / 8] == Pack(bits)
    ensures Marked(payload, i) <==> bits[i % 8]
  {
    hide Shr, Pack;
    var j := i % 8;
    ShrDropsLowBits(bits, 7 - j);
    LastBit(bits[..j + 1]);
  }

  predicate HasPiece(pieces: seq<bool>, i: int) {
    0 <= i < |pieces| && pieces[i]
  }

  /** Bits are added to what the peer announced before; spare bits and missing bytes have no effect. */
  function AddBitfield(n: nat, pieces: seq<bool>, payload: Buffer): (r: seq<bool>)
    ensures |r| == n
    ensures forall i :: 0 <= i < n ==> r[i] == (HasPiece(pieces, i) || Marked(payload, i))
  {
    seq(n, i requires 0 <= i < n => HasPiece(pieces, i) || Marked(payload, i))
  }

  // ---- Requests ----

  function Dispense(t: Torrent, d: Shared): (int, Shared) {
    (if d.nextReq >= |t.hashes| then -1 else d.nextReq, d.(nextReq := d.nextReq + 1))
  }

  datatype Search = Found(piece: nat) | Exhausted | GaveUp

  /** Takes pieces from the dispenser until the peer has one; a piece the peer lacks is dropped. */
  function FindPiece(t: Torrent, peer: nat, pieces: seq<bool>, d: Shared, attempts: nat): (r: (Search, Shared))
    requires attempts <= |t.hashes|
    ensures r.0.Found? ==> r.0.piece < |t.hashes|
    decreases |t.hashes| - attempts
  {
    var (candidate, d') := Dispense(t, d);
    if candidate == -1 then (Exhausted, d')
    else if HasPiece(pieces, candidate) then (Found(candidate), Note(d', Assigned(peer, candidate)))
    else
      var d'' := Note(d', Skipped(peer, candidate));
      if attempts + 1 > |t.hashes| then (GaveUp, d'') else FindPiece(t, peer, pieces, d'', attempts + 1)
  }

  function BlockSize(left: int): int {
    if BLOCK > left then left else BLOCK
  }

  /** Requests the next block of the assigned piece and releases the piece once all of it is requested. */
  function SendBlock(t: Torrent, w: World): (r: World)
    requires Valid(t) && Sane(t, w.c) && w.c.currentPiece != -1
    ensures Sane(t, r.c) && r.c.recv == w.c.recv
  {
    var c := w.c;
    PieceInFile(t, c.currentPiece);
    var len := BlockSize(PieceLen(t, c.currentPiece) - c.blockOffset);
    var c' := c.(blockOffset := c.blockOffset + len,
                 sent := c.sent + [Message.Request(c.currentPiece, c.blockOffset, len)]);
    var d' := Note(w.d, Requested(c.peer, c.currentPiece, c.blockOffset, len));
    World(if c'.blockOffset >= PieceLen(t, c.currentPiece) then c'.(currentPiece := -1) else c', d')
  }

  function RequestNext(t: Torrent, w: World): (r: World)
    requires Valid(t) && Sane(t, w.c)
    ensures Sane(t, r.c) && r.c.recv == w.c.recv
  {
    if w.c.choked then w
    else if w.c.currentPiece != -1 then SendBlock(t, w)
    else
      var (found, d') := FindPiece(t, w.c.peer, w.c.pieces, w.d, 0);
      if found.Found? then
        PieceInFile(t, found.piece);
        SendBlock(t, World(w.c.(currentPiece := found.piece, blockOffset := 0), d'))
      else World(w.c, d')
  }

  // ---- Messages ----

  /** The block of a PIECE message: index and offset are read as 32-bit unsigned numbers and passed on as ints. */
  function BlockOf(payload: Buffer): Block
    requires |payload| >= 8
  {
    Block(ToInt(At32(payload, 0)), ToInt(At32(payload, 4)), payload[8..])
  }

  /** The call of OnBlockReceived. */
  function Deliver(t: Torrent, peer: nat, d: Shared, b: Block): Shared
    requires Valid(t)
  {
    Note(d, Delivered(peer, b)).(asm := OnBlock(t, d.asm, b))
  }

  /** A PIECE message: a short payload throws, which closes the socket. */
  function HandlePiece(t: Torrent, w: World, payload: Buffer): (r: World)
    requires Valid(t) && Sane(t, w.c)
    ensures Sane(t, r.c) && r.c.recv == w.c.recv
  {
    if |payload| < 8 then w.(c := w.c.(link := Down))
    else
      var b := BlockOf(payload);
      var w' := w.(d := Deliver(t, w.c.peer, w.d, b));
      if Defined(t, w.d.asm, b) then RequestNext(t, w') else w'.(c := w'.c.(link := Undefined))
  }

  function Handle(t: Torrent, w: World, id: byte, payload: Buffer): (r: World)
    requires Valid(t) && Sane(t, w.c)
    ensures Sane(t, r.c) && r.c.recv == w.c.recv
  {
    var w' := w.(d := Note(w.d, Received(w.c.peer, id, payload)));
    if id == Message.UNCHOKE then RequestNext(t, w'.(c := w'.c.(choked := false)))
    else if id == Message.BITFIELD then
      w'.(c := w'.c.(pieces := AddBitfield(|t.hashes|, w'.c.pieces, payload)))
    else if id == Message.CHOKE then w'.(c := w'.c.(choked := true))
    else if id == Message.PIECE then HandlePiece(t, w', payload)
    else w'
  }

  // ---- The receive loop ----

  /**
    What the front of a receive buffer holds.  `TooLong` is a length whose frame size overflows 32 bits: the message is
    taken for complete and read from beyond the buffer.
   */
  datatype Front =
    | Incomplete
    | KeepAlive(rest: Buffer)
    | TooLong
    | Message(id: byte, payload: Buffer, rest: Buffer)

  function Cut(recv: Buffer): (f: Front)
    ensures f.KeepAlive? || f.Message? ==> |f.rest| < |recv|
  {
    if |recv| < 4 then Incomplete
    else
      var len := Message.ReadMessageLength(recv);
      if len == 0 then KeepAlive(recv[4..])
      else if 4 + len >= U32 then TooLong
      else if |recv| < 4 + len then Incomplete
      else Message(recv[4], recv[5..4 + len], recv[4 + len..])
  }

  datatype Turn = Blocked | Next(w: World)

  /** The 68 bytes of the peer's handshake are dropped unread. */
  function DropHandshake(w: World): World
    requires |w.c.recv| >= HANDSHAKE_SIZE
  {
    World(w.c.(recv := w.c.recv[HANDSHAKE_SIZE..], handshakeDone := true, phase := Downloading,
               sent := w.c.sent + [Message.Interested()]),
          Note(w.d, Interest(w.c.peer)))
  }

  /** One turn of the loop over the receive buffer. */
  function Iterate(t: Torrent, w: World): (r: Turn)
    requires Valid(t) && Sane(t, w.c)
    ensures r.Next? ==> Sane(t, r.w.c) && (r.w.c.link != Up || |r.w.c.recv| < |w.c.recv|)
  {
    if w.c.phase == Handshaking then
      if |w.c.recv| < HANDSHAKE_SIZE then Blocked else Next(DropHandshake(w))
    else
      match Cut(w.c.recv)
      case Incomplete => Blocked
      case KeepAlive(rest) => Next(w.(c := w.c.(recv := rest)))
      case TooLong => Next(w.(c := w.c.(link := Undefined)))
      case Message(id, payload, rest) => Next(Handle(t, w.(c := w.c.(recv := rest)), id, payload))
  }

  function Process(t: Torrent, w: World): (r: World)
    requires Valid(t) && Sane(t, w.c)
    ensures Sane(t, r.c)
    decreases w.c.link == Up, |w.c.recv|
  {
    if w.c.link != Up then w
    else
      match Iterate(t, w)
      case Blocked => w
      case Next(w') => Process(t, w')
  }

  /** What the socket delivers in one read; an empty read means the peer closed the connection. */
  function Receive(t: Torrent, w: World, chunk: Buffer): (r: World)
    requires Valid(t) && Sane(t, w.c)
    ensures Sane(t, r.c)
  {
    if w.c.link != Up then w
    else if chunk == [] then w.(c := w.c.(link := Down))
    else Process(t, w.(c := w.c.(recv := w.c.recv + chunk)))
  }

  function Greet(t: Torrent, myId: Buffer, w: World): World {
    if w.c.link == Up && w.c.phase == Connecting then
      var hs := Message.Handshake(t.infoHash, myId);
      World(w.c.(sent := w.c.sent + [hs], phase := Handshaking), Note(w.d, Greeted(w.c.peer, hs)))
    else w
  }
}
