/** Any number of connections sharing one downloader: what every step keeps. */
module Swarm {
  import opened Bytes
  import opened Torrents
  import opened Assembly
  import opened Protocol
  import opened History
  import Message

  function Min(a: nat, b: nat): nat { if a < b then a else b }

  /** The shared part: events are in order, the dispenser has counted them, the assembler got the delivered blocks. */
  ghost predicate SharedInv(t: Torrent, d: Shared) {
    && Valid(t) && LogOk(t, d.log)
    && Dispensed(d.log) == Min(d.nextReq, |t.hashes|)
    && d.asm == Run(t, START, Deliveries(d.log))
  }

  /** The owner of a piece has requested it up to its block offset; a piece it let go of is requested completely. */
  ghost predicate JobInv(t: Torrent, c: Conn, log: seq<Event>)
    requires Valid(t)
  {
    && Sane(t, c)
    && (c.currentPiece != -1 ==> Owner(log, c.currentPiece) == c.peer && Asked(log, c.currentPiece) == c.blockOffset)
    && (forall p: nat :: p < |t.hashes| && Owner(log, p) == c.peer && p != c.currentPiece ==>
                           Asked(log, p) == PieceLen(t, p))
  }

  /** The other fields are what the log says. */
  ghost predicate FieldInv(t: Torrent, c: Conn, log: seq<Event>) {
    && (forall i: nat :: i < |t.hashes| ==> HasPiece(c.pieces, i) == Announced(log, c.peer, i))
    && c.choked == !Unchoked(log, c.peer)
    && c.sent == Sends(log, c.peer)
  }

  ghost predicate WorldInv(t: Torrent, w: World) {
    SharedInv(t, w.d) && JobInv(t, w.c, w.d.log) && FieldInv(t, w.c, w.d.log)
  }

  // ---- Small steps ----

  /** The log says the same of everything but piece `p`, which went to `owner`. */
  ghost predicate OnlyMoves(log: seq<Event>, log': seq<Event>, p: int, owner: nat) {
    && (forall p': nat :: Owner(log', p') == if p' == p then owner else Owner(log, p'))
    && (forall p': nat :: Asked(log', p') == Asked(log, p'))
    && (forall i: nat :: Announced(log', owner, i) == Announced(log, owner, i))
    && Unchoked(log', owner) == Unchoked(log, owner)
    && Sends(log', owner) == Sends(log, owner)
  }

  /** Giving out the next piece, kept or dropped according to what the peer announced. */
  lemma DispenseKeeps(t: Torrent, d: Shared, e: Event)
    requires SharedInv(t, d) && d.nextReq < |t.hashes|
    requires e == if Announced(d.log, e.peer, d.nextReq)
                  then Assigned(e.peer, d.nextReq) else Skipped(e.peer, d.nextReq)
    ensures var d' := Note(d.(nextReq := d.nextReq + 1), e);
            && SharedInv(t, d') && Owner(d.log, d.nextReq) == -1
            && OnlyMoves(d.log, d'.log, if e.Assigned? then d.nextReq else -1, e.peer)
  {
    assert History.Front(d.log + [e]) == d.log;
    PieceFacts(t, d.log, d.nextReq);
  }

  lemma MovesAfterSkip(a: seq<Event>, b: seq<Event>, c: seq<Event>, p: int, owner: nat)
    requires OnlyMoves(a, b, -1, owner) && OnlyMoves(b, c, p, owner)
    ensures OnlyMoves(a, c, p, owner)
    ensures p >= 0 ==> Owner(b, p) == Owner(a, p)
  {
  }

  /** What a search by `peer` that takes the shared part from `d` to `d'` may do. */
  ghost predicate Searched(t: Torrent, peer: nat, d: Shared, s: Search, d': Shared) {
    && SharedInv(t, d') && Grows(d.log, d'.log, peer)
    && !s.GaveUp?
    && (s.Exhausted? ==> d'.nextReq > |t.hashes| && OnlyMoves(d.log, d'.log, -1, peer))
    && (s.Found? ==> Owner(d.log, s.piece) == -1 && OnlyMoves(d.log, d'.log, s.piece, peer))
  }

  lemma SearchAfterSkip(t: Torrent, peer: nat, d: Shared, skipped: Shared, s: Search, d': Shared)
    requires skipped.log == d.log + [Skipped(peer, d.nextReq)] && OnlyMoves(d.log, skipped.log, -1, peer)
    requires Searched(t, peer, skipped, s, d')
    ensures Searched(t, peer, d, s, d')
  {
    hide OnlyMoves, SharedInv;
    MovesAfterSkip(d.log, skipped.log, d'.log, if s.Found? then s.piece else -1, peer);
  }

  lemma SearchEnds(t: Torrent, peer: nat, pieces: seq<bool>, d: Shared, attempts: nat)
    requires SharedInv(t, d) && attempts <= |t.hashes|
    requires d.nextReq < |t.hashes| ==> HasPiece(pieces, d.nextReq) && Announced(d.log, peer, d.nextReq)
    ensures var (s, d') := FindPiece(t, peer, pieces, d, attempts); Searched(t, peer, d, s, d')
  {
    hide Owner, Asked, Announced, Unchoked, Sends, LogOk, Deliveries, Run;
    if d.nextReq < |t.hashes| {
      DispenseKeeps(t, d, Assigned(peer, d.nextReq));
    }
  }

  /** The search never gives up: it finds a piece or exhausts the dispenser, and drops only what the peer lacks. */
  lemma {:induction false} FindPieceKeeps(t: Torrent, peer: nat, pieces: seq<bool>, d: Shared, attempts: nat)
    requires SharedInv(t, d)
    requires forall i: nat :: i < |t.hashes| ==> HasPiece(pieces, i) == Announced(d.log, peer, i)
    requires attempts <= |t.hashes| && attempts <= d.nextReq
    ensures var (s, d') := FindPiece(t, peer, pieces, d, attempts); Searched(t, peer, d, s, d')
    decreases |t.hashes| - attempts
  {
    var p := d.nextReq;
    if p >= |t.hashes| || HasPiece(pieces, p) {
      SearchEnds(t, peer, pieces, d, attempts);
    } else {
      var skipped := Note(d.(nextReq := p + 1), Skipped(peer, p));
      DispenseKeeps(t, d, Skipped(peer, p));
      FindPieceKeeps(t, peer, pieces, skipped, attempts + 1);
      var (s, d') := FindPiece(t, peer, pieces, skipped, attempts + 1);
      SearchAfterSkip(t, peer, d, skipped, s, d');
    }
  }

  /** Noting an event that is in order, dispenses nothing and delivers nothing. */
  lemma NoteKeepsShared(t: Torrent, d: Shared, e: Event)
    requires SharedInv(t, d) && InOrder(t, d.log, e) && !e.Assigned? && !e.Skipped? && !e.Delivered?
    ensures SharedInv(t, Note(d, e))
  {
    assert History.Front(Note(d, e).log) == d.log;
  }

  lemma RequestedView(log: seq<Event>, e: Event)
    requires e.Requested? && e.piece < U32 && e.begin < U32 && e.length < U32
    ensures forall p: nat :: Owner(log + [e], p) == Owner(log, p)
    ensures forall p: nat :: Asked(log + [e], p) == Asked(log, p) + if p == e.piece then e.length else 0
    ensures forall i: nat :: Announced(log + [e], e.peer, i) == Announced(log, e.peer, i)
    ensures Unchoked(log + [e], e.peer) == Unchoked(log, e.peer)
    ensures Sends(log + [e], e.peer) == Sends(log, e.peer) + [Message.Request(e.piece, e.begin, e.length)]
  {
    assert History.Front(log + [e]) == log;
  }

  lemma JobAfterRequest(t: Torrent, c: Conn, c': Conn, log: seq<Event>, log': seq<Event>, len: int)
    requires Valid(t) && JobInv(t, c, log) && c.currentPiece != -1
    requires 0 < len <= PieceLen(t, c.currentPiece) - c.blockOffset
    requires forall p: nat :: Owner(log', p) == Owner(log, p)
    requires forall p: nat :: Asked(log', p) == Asked(log, p) + if p == c.currentPiece then len else 0
    requires c'.peer == c.peer && c'.blockOffset == c.blockOffset + len
    requires c'.currentPiece == if c'.blockOffset >= PieceLen(t, c.currentPiece) then -1 else c.currentPiece
    ensures JobInv(t, c', log')
  {
    hide Owner, Asked;
  }

  lemma SendBlockKeeps(t: Torrent, w: World)
    requires WorldInv(t, w) && w.c.currentPiece != -1 && !w.c.choked
    ensures var r := SendBlock(t, w); WorldInv(t, r) && Grows(w.d.log, r.d.log, w.c.peer) && r.c.peer == w.c.peer
  {
    hide Owner, Asked, Announced, Unchoked, Sends, Message.Request;
    var c := w.c;
    PieceInFile(t, c.currentPiece);
    var len := BlockSize(PieceLen(t, c.currentPiece) - c.blockOffset);
    var e := Requested(c.peer, c.currentPiece, c.blockOffset, len);
    NoteKeepsShared(t, w.d, e);
    RequestedView(w.d.log, e);
    JobAfterRequest(t, c, SendBlock(t, w).c, w.d.log, w.d.log + [e], len);
  }

  lemma RequestNextKeeps(t: Torrent, w: World)
    requires WorldInv(t, w)
    ensures var r := RequestNext(t, w); WorldInv(t, r) && Grows(w.d.log, r.d.log, w.c.peer) && r.c.peer == w.c.peer
  {
    if !w.c.choked {
      if w.c.currentPiece != -1 {
        SendBlockKeeps(t, w);
      } else {
        FindPieceKeeps(t, w.c.peer, w.c.pieces, w.d, 0);
        var (found, d') := FindPiece(t, w.c.peer, w.c.pieces, w.d, 0);
        if found.Found? {
          PieceInFile(t, found.piece);
          PieceFacts(t, w.d.log, found.piece);
          SendBlockKeeps(t, World(w.c.(currentPiece := found.piece, blockOffset := 0), d'));
        }
      }
    }
  }

  lemma ReceivedView(log: seq<Event>, e: Event)
    requires e.Received?
    ensures forall p: nat :: Owner(log + [e], p) == Owner(log, p)
    ensures forall p: nat :: Asked(log + [e], p) == Asked(log, p)
    ensures forall i: nat :: Announced(log + [e], e.peer, i) ==
                             (Announced(log, e.peer, i) || (e.id == Message.BITFIELD && Marked(e.payload, i)))
    ensures Unchoked(log + [e], e.peer) == if e.id == Message.UNCHOKE then true
                                           else if e.id == Message.CHOKE then false
                                           else Unchoked(log, e.peer)
    ensures Sends(log + [e], e.peer) == Sends(log, e.peer)
  {
    assert History.Front(log + [e]) == log;
  }

  /** Noting a handled message updates what the log says exactly as the handler updates the fields. */
  lemma ReceivedKeeps(t: Torrent, w: World, id: byte, payload: Buffer, c: Conn)
    requires WorldInv(t, w)
    requires c == if id == Message.UNCHOKE then w.c.(choked := false)
                  else if id == Message.CHOKE then w.c.(choked := true)
                  else if id == Message.BITFIELD then w.c.(pieces := AddBitfield(|t.hashes|, w.c.pieces, payload))
                  else w.c
    ensures WorldInv(t, World(c, Note(w.d, Received(w.c.peer, id, payload))))
  {
    var e := Received(w.c.peer, id, payload);
    NoteKeepsShared(t, w.d, e);
    ReceivedView(w.d.log, e);
  }

  lemma DeliveredView(log: seq<Event>, e: Event)
    requires e.Delivered?
    ensures forall p: nat :: Owner(log + [e], p) == Owner(log, p)
    ensures forall p: nat :: Asked(log + [e], p) == Asked(log, p)
    ensures forall i: nat :: Announced(log + [e], e.peer, i) == Announced(log, e.peer, i)
    ensures Unchoked(log + [e], e.peer) == Unchoked(log, e.peer)
    ensures Sends(log + [e], e.peer) == Sends(log, e.peer)
    ensures Dispensed(log + [e]) == Dispensed(log) && Deliveries(log + [e]) == Deliveries(log) + [e.block]
  {
    assert History.Front(log + [e]) == log;
  }

  lemma DeliveredInOrder(t: Torrent, log: seq<Event>, e: Event)
    requires Valid(t) && LogOk(t, log) && e.Delivered?
    ensures LogOk(t, log + [e])
  {
    assert History.Front(log + [e]) == log;
  }

  /** Handing a block to the assembler keeps its state the run over all delivered blocks. */
  lemma DeliveredKeepsShared(t: Torrent, peer: nat, d: Shared, b: Block)
    requires SharedInv(t, d)
    ensures SharedInv(t, Deliver(t, peer, d, b))
  {
    hide OnBlock, Run, LogOk, Dispensed, Deliveries;
    DeliveredView(d.log, Delivered(peer, b));
    DeliveredInOrder(t, d.log, Delivered(peer, b));
    RunSnoc(t, START, Deliveries(d.log), b);
  }

  lemma DeliveredKeeps(t: Torrent, w: World, b: Block)
    requires WorldInv(t, w)
    ensures WorldInv(t, World(w.c, Deliver(t, w.c.peer, w.d, b)))
  {
    hide SharedInv, Owner, Asked, Announced, Unchoked, Sends, OnBlock, PieceLen;
    DeliveredKeepsShared(t, w.c.peer, w.d, b);
    DeliveredView(w.d.log, Delivered(w.c.peer, b));
  }

  lemma LinkDoesNotMatter(t: Torrent, w: World, link: Link)
    requires WorldInv(t, w)
    ensures WorldInv(t, w.(c := w.c.(link := link)))
  {
  }

  lemma HandlePieceKeeps(t: Torrent, w: World, payload: Buffer)
    requires WorldInv(t, w)
    ensures var r := HandlePiece(t, w, payload);
            WorldInv(t, r) && Grows(w.d.log, r.d.log, w.c.peer) && r.c.peer == w.c.peer
  {
    hide RequestNext, OnBlock, Defined, BlockOf, FieldInv, JobInv, Run, LogOk;
    if |payload| < 8 {
      LinkDoesNotMatter(t, w, Down);
    } else {
      var b := BlockOf(payload);
      var w' := World(w.c, Deliver(t, w.c.peer, w.d, b));
      DeliveredKeeps(t, w, b);
      LinkDoesNotMatter(t, w', Undefined);
      RequestNextKeeps(t, w');
    }
  }

  lemma HandleKeeps(t: Torrent, w: World, id: byte, payload: Buffer)
    requires WorldInv(t, w)
    ensures var r := Handle(t, w, id, payload);
            WorldInv(t, r) && Grows(w.d.log, r.d.log, w.c.peer) && r.c.peer == w.c.peer
  {
    var d' := Note(w.d, Received(w.c.peer, id, payload));
    if id == Message.UNCHOKE {
      ReceivedKeeps(t, w, id, payload, w.c.(choked := false));
      RequestNextKeeps(t, World(w.c.(choked := false), d'));
    } else if id == Message.BITFIELD {
      ReceivedKeeps(t, w, id, payload, w.c.(pieces := AddBitfield(|t.hashes|, w.c.pieces, payload)));
    } else if id == Message.CHOKE {
      ReceivedKeeps(t, w, id, payload, w.c.(choked := true));
    } else {
      ReceivedKeeps(t, w, id, payload, w.c);
      if id == Message.PIECE { HandlePieceKeeps(t, World(w.c, d'), payload); }
    }
  }

  lemma DropHandshakeKeeps(t: Torrent, w: World)
    requires WorldInv(t, w) && |w.c.recv| >= HANDSHAKE_SIZE
    ensures WorldInv(t, DropHandshake(w)) && Grows(w.d.log, DropHandshake(w).d.log, w.c.peer)
  {
    NoteKeepsShared(t, w.d, Interest(w.c.peer));
    assert History.Front(w.d.log + [Interest(w.c.peer)]) == w.d.log;
  }

  lemma GreetKeeps(t: Torrent, myId: Buffer, w: World)
    requires WorldInv(t, w)
    ensures var r := Greet(t, myId, w); WorldInv(t, r) && Grows(w.d.log, r.d.log, w.c.peer) && r.c.peer == w.c.peer
  {
    if w.c.link == Up && w.c.phase == Connecting {
      var e := Greeted(w.c.peer, Message.Handshake(t.infoHash, myId));
      NoteKeepsShared(t, w.d, e);
      assert History.Front(w.d.log + [e]) == w.d.log;
    }
  }

  lemma IterateKeeps(t: Torrent, w: World)
    requires WorldInv(t, w) && Iterate(t, w).Next?
    ensures var r := Iterate(t, w).w; WorldInv(t, r) && Grows(w.d.log, r.d.log, w.c.peer) && r.c.peer == w.c.peer
  {
    if w.c.phase == Handshaking {
      DropHandshakeKeeps(t, w);
    } else {
      match Cut(w.c.recv)
      case Message(id, payload, rest) => HandleKeeps(t, w.(c := w.c.(recv := rest)), id, payload);
      case _ =>
    }
  }

  lemma {:induction false} ProcessKeeps(t: Torrent, w: World)
    requires WorldInv(t, w)
    ensures var r := Process(t, w); WorldInv(t, r) && Grows(w.d.log, r.d.log, w.c.peer) && r.c.peer == w.c.peer
    decreases w.c.link == Up, |w.c.recv|
  {
    if w.c.link != Up || Iterate(t, w).Blocked? {
    } else {
      IterateKeeps(t, w);
      ProcessKeeps(t, Iterate(t, w).w);
    }
  }

  lemma ReceiveKeeps(t: Torrent, w: World, chunk: Buffer)
    requires WorldInv(t, w)
    ensures var r := Receive(t, w, chunk); WorldInv(t, r) && Grows(w.d.log, r.d.log, w.c.peer) && r.c.peer == w.c.peer
  {
    if w.c.link == Up && chunk != [] {
      ProcessKeeps(t, w.(c := w.c.(recv := w.c.recv + chunk)));
    }
  }

  // ---- Runs of the whole system ----

  datatype System = System(conns: seq<Conn>, d: Shared)

  /** The event loop finds a connection writable, or readable with some bytes, or its socket is lost. */
  datatype Action = Writable(i: nat) | Readable(i: nat, chunk: Buffer) | Lost(i: nat)

  function Start(peers: nat): System {
    System(seq(peers, i requires 0 <= i < peers => NewConn(i)), IDLE)
  }

  ghost predicate AllSane(t: Torrent, s: System) {
    Valid(t) && forall i :: 0 <= i < |s.conns| ==> Sane(t, s.conns[i])
  }

  function Act(t: Torrent, myId: Buffer, w: World, a: Action): (r: World)
    requires Valid(t) && Sane(t, w.c)
    ensures Sane(t, r.c)
  {
    match a
    case Writable(_) => Greet(t, myId, w)
    case Readable(_, chunk) => Receive(t, w, chunk)
    case Lost(_) => w.(c := w.c.(link := Down))
  }

  function Step(t: Torrent, myId: Buffer, s: System, a: Action): (s': System)
    requires AllSane(t, s)
    ensures AllSane(t, s') && |s'.conns| == |s.conns|
  {
    if a.i >= |s.conns| then s
    else
      var w := Act(t, myId, World(s.conns[a.i], s.d), a);
      System(s.conns[a.i := w.c], w.d)
  }

  function RunAll(t: Torrent, myId: Buffer, s: System, actions: seq<Action>): (s': System)
    requires AllSane(t, s)
    ensures AllSane(t, s') && |s'.conns| == |s.conns|
  {
    if actions == [] then s
    else Step(t, myId, RunAll(t, myId, s, actions[..|actions| - 1]), actions[|actions| - 1])
  }

  ghost predicate SystemInv(t: Torrent, s: System) {
    && SharedInv(t, s.d)
    && forall i :: 0 <= i < |s.conns| ==>
                     && s.conns[i].peer == i
                     && JobInv(t, s.conns[i], s.d.log) && FieldInv(t, s.conns[i], s.d.log)
  }

  lemma ViewKeeps(t: Torrent, c: Conn, log: seq<Event>, log': seq<Event>)
    requires Valid(t) && JobInv(t, c, log) && FieldInv(t, c, log) && SameView(log, log', c.peer)
    ensures JobInv(t, c, log') && FieldInv(t, c, log')
  {
  }

  lemma ActKeeps(t: Torrent, myId: Buffer, w: World, a: Action)
    requires WorldInv(t, w)
    ensures var r := Act(t, myId, w, a); WorldInv(t, r) && Grows(w.d.log, r.d.log, w.c.peer) && r.c.peer == w.c.peer
  {
    match a
    case Writable(_) => GreetKeeps(t, myId, w);
    case Readable(_, chunk) => ReceiveKeeps(t, w, chunk);
    case Lost(_) =>
  }

  lemma StepKeeps(t: Torrent, myId: Buffer, s: System, a: Action)
    requires AllSane(t, s) && SystemInv(t, s)
    ensures SystemInv(t, Step(t, myId, s, a))
  {
    if a.i < |s.conns| {
      var w := World(s.conns[a.i], s.d);
      ActKeeps(t, myId, w, a);
      var r := Act(t, myId, w, a);
      forall q | 0 <= q < |s.conns| && q != a.i
        ensures JobInv(t, s.conns[q], r.d.log) && FieldInv(t, s.conns[q], r.d.log)
      {
        ForeignEvents(t, s.d.log, r.d.log, a.i, q);
        ViewKeeps(t, s.conns[q], s.d.log, r.d.log);
      }
    }
  }

  /** The invariant holds after every run, whatever the peers send and however the event loop interleaves them. */
  lemma {:induction false} EveryRunKeeps(t: Torrent, myId: Buffer, peers: nat, actions: seq<Action>)
    requires Valid(t)
    ensures SystemInv(t, RunAll(t, myId, Start(peers), actions))
  {
    if actions == [] {
    } else {
      EveryRunKeeps(t, myId, peers, actions[..|actions| - 1]);
      StepKeeps(t, myId, RunAll(t, myId, Start(peers), actions[..|actions| - 1]), actions[|actions| - 1]);
    }
  }
}
