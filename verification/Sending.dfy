/** What a connection sends, byte for byte and in order: its handshake, INTERESTED and its requests. */
module Sending {
  import opened Bytes
  import opened Torrents
  import opened Assembly
  import opened Protocol
  import opened History
  import opened Swarm
  import Progress
  import Framing
  import Message

  /** 00 00 00 01 02 */
  const INTERESTED: Buffer := [0, 0, 0, 1, 2]

  /** The handshake: 19, "BitTorrent protocol", eight zero bytes, info hash and peer id. */
  function HandshakeBytes(infoHash: Buffer, peerId: Buffer): Buffer {
    [19] + [66, 105, 116, 84, 111, 114, 114, 101, 110, 116, 32, 112, 114, 111, 116, 111, 99, 111, 108]
    + [0, 0, 0, 0, 0, 0, 0, 0] + infoHash + peerId
  }

  /** A request: 00 00 00 0d 06 and three big-endian numbers. */
  function RequestBytes(piece: nat, begin: nat, length: nat): Buffer
    requires piece < U32 && begin < U32 && length < U32
  {
    [0, 0, 0, 13, 6] + BE32(piece) + BE32(begin) + BE32(length)
  }

  /** The requests to peer `q` in the log, in order, as bytes. */
  function RequestsTo(log: seq<Event>, q: nat): seq<Buffer> {
    if log == [] then []
    else
      var init, e := RequestsTo(History.Front(log), q), Last(log);
      if e.Requested? && e.peer == q && e.piece < U32 && e.begin < U32 && e.length < U32
      then init + [RequestBytes(e.piece, e.begin, e.length)] else init
  }

  /** How many of them were made before the handshake went out. */
  function Early(log: seq<Event>, q: nat): nat {
    if log == [] then 0
    else if Last(log).Greeted? && Last(log).peer == q then |RequestsTo(History.Front(log), q)|
    else Early(History.Front(log), q)
  }

  /** What was sent in each phase. */
  ghost predicate SentAs(t: Torrent, myId: Buffer, c: Conn, log: seq<Event>) {
    var asks, k := RequestsTo(log, c.peer), Early(log, c.peer);
    match c.phase
    case Connecting => c.sent == asks
    case Handshaking => c.sent == asks + [HandshakeBytes(t.infoHash, myId)] && k == |asks|
    case Downloading =>
      k <= |asks| && c.sent == asks[..k] + [HandshakeBytes(t.infoHash, myId), INTERESTED] + asks[k..]
  }

  lemma HandshakeLiteral(infoHash: Buffer, peerId: Buffer)
    ensures Message.Handshake(infoHash, peerId) == HandshakeBytes(infoHash, peerId)
  {
    assert Zeros(8) == [0, 0, 0, 0, 0, 0, 0, 0];
  }

  lemma InterestedLiteral()
    ensures Message.Interested() == INTERESTED
  {
    assert BE32(1) == [0, 0, 0, 1];
  }

  lemma RequestLiteral(piece: nat, begin: nat, length: nat)
    requires piece < U32 && begin < U32 && length < U32
    ensures Message.Request(piece, begin, length) == RequestBytes(piece, begin, length)
  {
    assert BE32(13) == [0, 0, 0, 13];
    hide BE32;
    var payload := BE32(piece) + BE32(begin) + BE32(length);
    assert Message.Request(piece, begin, length) == [0, 0, 0, 13] + [6] + payload;
  }

  /** `r` has sent what its log says, and its handshake did not go out on the way from `w`. */
  ghost predicate SentOn(t: Torrent, myId: Buffer, w: World, r: World) {
    && SentAs(t, myId, r.c, r.d.log) && r.c.peer == w.c.peer
    && Early(r.d.log, w.c.peer) == Early(w.d.log, w.c.peer)
    && (r.c.phase == Connecting <==> w.c.phase == Connecting)
  }

  // ---- Small steps ----

  /** The log goes on without requests or handshakes of `q`. */
  lemma Unheard(log: seq<Event>, e: Event, q: nat)
    requires e.peer != q || !(e.Requested? || e.Greeted?)
    ensures RequestsTo(log + [e], q) == RequestsTo(log, q) && Early(log + [e], q) == Early(log, q)
  {
    assert History.Front(log + [e]) == log;
  }

  lemma {:induction false} SearchUnheard(t: Torrent, q: nat, pieces: seq<bool>, d: Shared, attempts: nat, p: nat)
    requires attempts <= |t.hashes|
    ensures var log := FindPiece(t, q, pieces, d, attempts).1.log;
            RequestsTo(log, p) == RequestsTo(d.log, p) && Early(log, p) == Early(d.log, p)
    decreases |t.hashes| - attempts
  {
    var (candidate, d') := Dispense(t, d);
    if candidate == -1 {
    } else if HasPiece(pieces, candidate) {
      Unheard(d.log, Assigned(q, candidate), p);
    } else {
      Unheard(d.log, Skipped(q, candidate), p);
      if attempts + 1 <= |t.hashes| {
        SearchUnheard(t, q, pieces, Note(d', Skipped(q, candidate)), attempts + 1, p);
      }
    }
  }

  lemma AskIsSent(t: Torrent, myId: Buffer, w: World)
    requires Valid(t) && Sane(t, w.c) && w.c.currentPiece != -1 && w.c.phase != Handshaking
    requires SentAs(t, myId, w.c, w.d.log)
    ensures var r := SendBlock(t, w); SentOn(t, myId, w, r) && r.c.phase == w.c.phase
  {
    hide Message.Request, RequestBytes, HandshakeBytes, BE32;
    var c := w.c;
    PieceInFile(t, c.currentPiece);
    var len := BlockSize(PieceLen(t, c.currentPiece) - c.blockOffset);
    RequestLiteral(c.currentPiece, c.blockOffset, len);
    var e := Requested(c.peer, c.currentPiece, c.blockOffset, len);
    assert History.Front(w.d.log + [e]) == w.d.log;
    var asks, k := RequestsTo(w.d.log, c.peer), Early(w.d.log, c.peer);
    var ask := RequestBytes(c.currentPiece, c.blockOffset, len);
    if c.phase == Downloading {
      assert (asks + [ask])[..k] == asks[..k] && (asks + [ask])[k..] == asks[k..] + [ask];
    }
  }

  lemma BlockKeepsPeer(t: Torrent, w: World)
    requires Valid(t) && Sane(t, w.c) && w.c.currentPiece != -1
    ensures SendBlock(t, w).c.peer == w.c.peer
  {
  }

  lemma NextIsSent(t: Torrent, myId: Buffer, w: World)
    requires Valid(t) && Sane(t, w.c) && w.c.phase != Handshaking && SentAs(t, myId, w.c, w.d.log)
    ensures var r := RequestNext(t, w);
            SentOn(t, myId, w, r) && r.c.phase == w.c.phase
  {
    hide HandshakeBytes, RequestsTo, Early, SendBlock;
    if !w.c.choked {
      if w.c.currentPiece != -1 {
        AskIsSent(t, myId, w);
        BlockKeepsPeer(t, w);
      } else {
        SearchUnheard(t, w.c.peer, w.c.pieces, w.d, 0, w.c.peer);
        var (found, d') := FindPiece(t, w.c.peer, w.c.pieces, w.d, 0);
        if found.Found? {
          PieceInFile(t, found.piece);
          var w' := World(w.c.(currentPiece := found.piece, blockOffset := 0), d');
          AskIsSent(t, myId, w');
          BlockKeepsPeer(t, w');
        }
      }
    }
  }

  /** The fields that tell what was sent, and the log of one connection. */
  lemma SentUnchanged(t: Torrent, myId: Buffer, w: World, r: World, e: Event)
    requires SentAs(t, myId, w.c, w.d.log) && r.d.log == w.d.log + [e] && !e.Requested? && !e.Greeted?
    requires r.c.peer == w.c.peer && r.c.phase == w.c.phase && r.c.sent == w.c.sent
    ensures SentOn(t, myId, w, r)
  {
    Unheard(w.d.log, e, w.c.peer);
  }

  lemma HandleIsSent(t: Torrent, myId: Buffer, w: World, id: byte, payload: Buffer)
    requires Valid(t) && Sane(t, w.c) && w.c.phase != Handshaking && SentAs(t, myId, w.c, w.d.log)
    ensures var r := Handle(t, w, id, payload);
            SentOn(t, myId, w, r) && r.c.phase == w.c.phase
  {
    hide SentAs, RequestNext, OnBlock, Defined, BlockOf;
    var w' := w.(d := Note(w.d, Received(w.c.peer, id, payload)));
    var e := Received(w.c.peer, id, payload);
    SentUnchanged(t, myId, w, w', e);
    if id == Message.UNCHOKE {
      SentUnchanged(t, myId, w, w'.(c := w.c.(choked := false)), e);
      NextIsSent(t, myId, w'.(c := w.c.(choked := false)));
    } else if id == Message.PIECE && |payload| >= 8 {
      var b := BlockOf(payload);
      var w'' := w'.(d := Deliver(t, w.c.peer, w'.d, b));
      SentUnchanged(t, myId, w', w'', Delivered(w.c.peer, b));
      SentUnchanged(t, myId, w', w''.(c := w.c.(link := Undefined)), Delivered(w.c.peer, b));
      NextIsSent(t, myId, w'');
    } else {
      SentUnchanged(t, myId, w, Handle(t, w, id, payload), e);
    }
  }

  lemma InterestIsSent(t: Torrent, myId: Buffer, w: World)
    requires |w.c.recv| >= HANDSHAKE_SIZE && w.c.phase == Handshaking && SentAs(t, myId, w.c, w.d.log)
    ensures SentOn(t, myId, w, DropHandshake(w))
  {
    hide HandshakeBytes, RequestsTo, Early;
    InterestedLiteral();
    Unheard(w.d.log, Interest(w.c.peer), w.c.peer);
    var asks, hs := RequestsTo(w.d.log, w.c.peer), HandshakeBytes(t.infoHash, myId);
    assert asks[..|asks|] == asks && asks[|asks|..] == [];
    assert asks + [hs] + [INTERESTED] == asks + [hs, INTERESTED] + [];
  }

  lemma GreetIsSent(t: Torrent, myId: Buffer, w: World)
    requires SentAs(t, myId, w.c, w.d.log)
    ensures var r := Greet(t, myId, w); SentAs(t, myId, r.c, r.d.log) && r.c.peer == w.c.peer
  {
    if w.c.link == Up && w.c.phase == Connecting {
      HandshakeLiteral(t.infoHash, myId);
      var e := Greeted(w.c.peer, Message.Handshake(t.infoHash, myId));
      assert History.Front(w.d.log + [e]) == w.d.log;
    }
  }

  lemma IterateIsSent(t: Torrent, myId: Buffer, w: World)
    requires Valid(t) && Sane(t, w.c) && SentAs(t, myId, w.c, w.d.log) && Iterate(t, w).Next?
    ensures SentOn(t, myId, w, Iterate(t, w).w)
  {
    hide Handle, DropHandshake, RequestsTo, Early, HandshakeBytes;
    if w.c.phase == Handshaking {
      InterestIsSent(t, myId, w);
    } else {
      match Cut(w.c.recv)
      case Message(id, payload, rest) => HandleIsSent(t, myId, w.(c := w.c.(recv := rest)), id, payload);
      case _ =>
    }
  }

  lemma {:induction false} ProcessIsSent(t: Torrent, myId: Buffer, w: World)
    requires Valid(t) && Sane(t, w.c) && SentAs(t, myId, w.c, w.d.log)
    ensures SentOn(t, myId, w, Process(t, w))
    decreases w.c.link == Up, |w.c.recv|
  {
    hide SentAs, Handle, Cut;
    if w.c.link != Up || Iterate(t, w).Blocked? {
    } else {
      IterateIsSent(t, myId, w);
      ProcessIsSent(t, myId, Iterate(t, w).w);
    }
  }

  lemma ReceiveIsSent(t: Torrent, myId: Buffer, w: World, chunk: Buffer)
    requires Valid(t) && Sane(t, w.c) && SentAs(t, myId, w.c, w.d.log)
    ensures SentOn(t, myId, w, Receive(t, w, chunk))
  {
    if w.c.link == Up && chunk != [] {
      ProcessIsSent(t, myId, w.(c := w.c.(recv := w.c.recv + chunk)));
    }
  }

  // ---- Runs ----

  lemma {:induction false} OthersUnheard(log: seq<Event>, log': seq<Event>, i: nat, q: nat)
    requires Grows(log, log', i) && i != q
    ensures RequestsTo(log', q) == RequestsTo(log, q) && Early(log', q) == Early(log, q)
  {
    if log == log' {
    } else {
      OthersUnheard(log, History.Front(log'), i, q);
      assert log' == History.Front(log') + [Last(log')];
      Unheard(History.Front(log'), Last(log'), q);
    }
  }

  lemma ActIsSent(t: Torrent, myId: Buffer, w: World, a: Action)
    requires Valid(t) && Sane(t, w.c) && SentAs(t, myId, w.c, w.d.log)
    ensures var r := Act(t, myId, w, a); SentAs(t, myId, r.c, r.d.log)
  {
    match a
    case Writable(_) => GreetIsSent(t, myId, w);
    case Readable(_, chunk) => ReceiveIsSent(t, myId, w, chunk);
    case Lost(_) =>
  }

  lemma SameSent(t: Torrent, myId: Buffer, c: Conn, log: seq<Event>, log': seq<Event>)
    requires SentAs(t, myId, c, log)
    requires RequestsTo(log', c.peer) == RequestsTo(log, c.peer) && Early(log', c.peer) == Early(log, c.peer)
    ensures SentAs(t, myId, c, log')
  {
  }

  lemma StepIsSent(t: Torrent, myId: Buffer, s: System, a: Action, q: nat)
    requires AllSane(t, s) && SystemInv(t, s) && q < |s.conns| && SentAs(t, myId, s.conns[q], s.d.log)
    ensures var r := Step(t, myId, s, a);
            && SentAs(t, myId, r.conns[q], r.d.log)
            && (a.i != q ==> r.conns[q] == s.conns[q] && Early(r.d.log, q) == Early(s.d.log, q)
                             && RequestsTo(r.d.log, q) == RequestsTo(s.d.log, q))
  {
    hide SentAs, Act, SharedInv, JobInv, FieldInv;
    if a.i < |s.conns| {
      var w := World(s.conns[a.i], s.d);
      assert WorldInv(t, w);
      ActKeeps(t, myId, w, a);
      if a.i == q {
        ActIsSent(t, myId, w, a);
      } else {
        OthersUnheard(s.d.log, Act(t, myId, w, a).d.log, a.i, q);
        SameSent(t, myId, s.conns[q], s.d.log, Act(t, myId, w, a).d.log);
      }
    }
  }

  lemma NothingSent(t: Torrent, myId: Buffer, q: nat)
    ensures SentAs(t, myId, NewConn(q), [])
  {
  }

  /**
    In every run, a connection has sent: before its handshake only requests; then the handshake; once past its handshake
    phase INTERESTED right after that; and all its requests, in the order of the log, around these two.
   */
  lemma {:induction false} EveryRunSends(t: Torrent, myId: Buffer, peers: nat, actions: seq<Action>, q: nat)
    requires Valid(t) && q < peers
    ensures var s := RunAll(t, myId, Start(peers), actions); SentAs(t, myId, s.conns[q], s.d.log)
  {
    hide Step, SentAs;
    if actions == [] {
      assert SentAs(t, myId, NewConn(q), []) by { NothingSent(t, myId, q); }
    } else {
      var last := |actions| - 1;
      EveryRunSends(t, myId, peers, actions[..last], q);
      EveryRunKeeps(t, myId, peers, actions[..last]);
      StepIsSent(t, myId, RunAll(t, myId, Start(peers), actions[..last]), actions[last], q);
    }
  }

  // ---- The handshake comes first ----

  lemma {:induction false} RequestsHave17Bytes(log: seq<Event>, q: nat)
    ensures forall k :: 0 <= k < |RequestsTo(log, q)| ==> |RequestsTo(log, q)[k]| == 17
  {
    if log == [] {
    } else {
      RequestsHave17Bytes(History.Front(log), q);
    }
  }

  /**
    In every run, once the handshake is out it is the first thing sent if and only if no request was made before it;
    then INTERESTED is the second, and all that follows are the requests, in the order of the log.
   */
  lemma HandshakeFirstIff(t: Torrent, myId: Buffer, peers: nat, actions: seq<Action>, q: nat)
    requires Valid(t) && q < peers
    requires RunAll(t, myId, Start(peers), actions).conns[q].phase != Connecting
    ensures var s := RunAll(t, myId, Start(peers), actions);
            var c, hs := s.conns[q], HandshakeBytes(t.infoHash, myId);
            && c.sent != []
            && (c.sent[0] == hs <==> Early(s.d.log, q) == 0)
            && (Early(s.d.log, q) == 0 ==>
                  c.sent == if c.phase == Handshaking then [hs] else [hs, INTERESTED] + RequestsTo(s.d.log, q))
  {
    hide RunAll;
    EveryRunSends(t, myId, peers, actions, q);
    EveryRunKeeps(t, myId, peers, actions);
    var s := RunAll(t, myId, Start(peers), actions);
    RequestsHave17Bytes(s.d.log, q);
    var asks := RequestsTo(s.d.log, q);
    assert asks[..0] == [] && asks[0..] == asks;
  }

  /** Whatever comes in on connection `q` comes after it was found writable for the first time. */
  ghost predicate WritableFirst(actions: seq<Action>, q: nat) {
    forall j :: 0 <= j < |actions| && actions[j].Readable? && actions[j].i == q ==>
                  Writable(q) in actions[..j]
  }

  /** No request before the handshake; and a live connection that was found writable has greeted. */
  ghost predicate GreetsFirst(c: Conn, log: seq<Event>, actions: seq<Action>, q: nat) {
    && Early(log, q) == 0 && (c.phase == Connecting ==> RequestsTo(log, q) == [])
    && (c.phase == Connecting && c.link == Up ==> Writable(q) !in actions)
  }

  lemma DeadIsSilent(t: Torrent, w: World, chunk: Buffer)
    requires Valid(t) && Sane(t, w.c) && w.c.link != Up
    ensures Receive(t, w, chunk) == w
  {
  }

  lemma GreetIsFirst(t: Torrent, myId: Buffer, w: World)
    requires w.c.phase == Connecting ==> RequestsTo(w.d.log, w.c.peer) == []
    requires Early(w.d.log, w.c.peer) == 0
    ensures Early(Greet(t, myId, w).d.log, w.c.peer) == 0
    ensures Greet(t, myId, w).c.phase == Connecting ==> Greet(t, myId, w) == w && w.c.link != Up
  {
    if w.c.link == Up && w.c.phase == Connecting {
      var e := Greeted(w.c.peer, Message.Handshake(t.infoHash, myId));
      assert History.Front(w.d.log + [e]) == w.d.log;
    }
  }

  lemma GreetsFirstStep(t: Torrent, myId: Buffer, s: System, before: seq<Action>, a: Action, q: nat)
    requires AllSane(t, s) && SystemInv(t, s) && q < |s.conns| && SentAs(t, myId, s.conns[q], s.d.log)
    requires GreetsFirst(s.conns[q], s.d.log, before, q)
    requires a.Readable? && a.i == q ==> Writable(q) in before
    ensures var r := Step(t, myId, s, a); GreetsFirst(r.conns[q], r.d.log, before + [a], q)
  {
    hide SharedInv, JobInv, FieldInv, Receive;
    if a.i != q {
      StepIsSent(t, myId, s, a, q);
    } else {
      var w := World(s.conns[q], s.d);
      match a
      case Writable(_) => GreetIsFirst(t, myId, w);
      case Readable(_, chunk) =>
        ReceiveIsSent(t, myId, w, chunk);
        if w.c.phase == Connecting { DeadIsSilent(t, w, chunk); }
      case Lost(_) =>
    }
  }

  /** If nothing is read from a peer before its connection is writable, the handshake always comes first. */
  lemma {:induction false} WritableFirstSuffices(t: Torrent, myId: Buffer, peers: nat, actions: seq<Action>, q: nat)
    requires Valid(t) && q < peers && WritableFirst(actions, q)
    ensures var s := RunAll(t, myId, Start(peers), actions); GreetsFirst(s.conns[q], s.d.log, actions, q)
  {
    hide Step, SentAs;
    if actions == [] {
    } else {
      var last := |actions| - 1;
      var before := actions[..last];
      assert forall j :: 0 <= j < last ==> before[..j] == actions[..j];
      WritableFirstSuffices(t, myId, peers, before, q);
      EveryRunSends(t, myId, peers, before, q);
      EveryRunKeeps(t, myId, peers, before);
      GreetsFirstStep(t, myId, RunAll(t, myId, Start(peers), before), before, actions[last], q);
      assert before + [actions[last]] == actions;
    }
  }

  // ---- A connection that has ended ----

  /** An empty read and a lost socket end a connection, and change nothing else. */
  lemma EndsQuietly(t: Torrent, myId: Buffer, w: World, a: Action)
    requires Valid(t) && Sane(t, w.c) && (a.Lost? || (a.Readable? && a.chunk == [] && w.c.link == Up))
    ensures Act(t, myId, w, a) == World(w.c.(link := Down), w.d)
  {
  }

  lemma DeadStep(t: Torrent, myId: Buffer, s: System, a: Action, i: nat)
    requires AllSane(t, s) && i < |s.conns| && s.conns[i].link != Up
    ensures var c := Step(t, myId, s, a).conns[i]; c.link != Up && c == s.conns[i].(link := c.link)
    ensures a.i == i ==> Step(t, myId, s, a).d == s.d
  {
  }

  /** A connection that has ended sends, asks and delivers nothing any more, whatever events still come for it. */
  lemma {:induction false} DeadSaysNothing(t: Torrent, myId: Buffer, s: System, actions: seq<Action>, i: nat)
    requires AllSane(t, s) && i < |s.conns| && s.conns[i].link != Up
    ensures var r := RunAll(t, myId, s, actions);
            && r.conns[i].link != Up && r.conns[i] == s.conns[i].(link := r.conns[i].link)
            && ((forall k :: 0 <= k < |actions| ==> actions[k].i == i) ==> r.d == s.d)
  {
    hide Step;
    if actions == [] {
    } else {
      var last := |actions| - 1;
      DeadSaysNothing(t, myId, s, actions[..last], i);
      DeadStep(t, myId, RunAll(t, myId, s, actions[..last]), actions[last], i);
    }
  }

  // ---- A request before the handshake ----

  /** BITFIELD with its first bit set, and UNCHOKE. */
  const OPENING: Buffer := [0, 0, 0, 2, 5, 128] + [0, 0, 0, 1, 1]

  lemma {:induction false} ShrTwice(n: nat, j: nat, k: nat)
    ensures Shr(n, j + k) == Shr(Shr(n, j), k)
  {
    if j == 0 {
    } else {
      ShrTwice(n / 2, j - 1, k);
    }
  }

  lemma OpeningParts()
    ensures Cut(OPENING) == Front.Message(5, [128], [0, 0, 0, 1, 1])
    ensures Cut([0, 0, 0, 1, 1]) == Front.Message(1, [], [])
    ensures Marked([128], 0)
  {
    assert OPENING[5..6] == [128] && OPENING[6..] == [0, 0, 0, 1, 1];
    assert Shr(128, 7) == 1 by { assert Shr(128, 4) == 8 == Shr(128, 4) && Shr(8, 3) == 1; ShrTwice(128, 4, 3); }
  }

  lemma OpeningIsHandled(t: Torrent, w: World) returns (r: World)
    requires Valid(t) && Sane(t, w.c) && w.c.link == Up && w.c.phase == Connecting && w.c.recv == OPENING
    ensures var w1 := Handle(t, w.(c := w.c.(recv := [0, 0, 0, 1, 1])), 5, [128]);
            r == Handle(t, w1.(c := w1.c.(recv := [])), 1, [])
    ensures r.c.recv == [] && Process(t, w) == Process(t, r)
  {
    OpeningParts();
    var w0 := w.(c := w.c.(recv := [0, 0, 0, 1, 1]));
    var w1 := Handle(t, w0, 5, [128]);
    Progress.OthersAskNothing(t, w0, 5, [128]);
    hide Handle, Cut;
    assert Iterate(t, w) == Next(w1);
    r := Handle(t, w1.(c := w1.c.(recv := [])), 1, []);
    assert Iterate(t, w1) == Next(r);
  }

  lemma EmptyIsBlocked(t: Torrent, w: World)
    requires Valid(t) && Sane(t, w.c) && w.c.recv == []
    ensures Process(t, w) == w
  {
  }

  /** A connection that has read its peer's first piece and UNCHOKE asks for the first block. */
  lemma OpeningAsks(t: Torrent, c: Conn) returns (r: World)
    requires Valid(t) && |t.hashes| > 0 && c == NewConn(0).(recv := OPENING)
    ensures r == Process(t, World(c, IDLE)) && r.c.link == Up && Progress.AskLength(t, 0, 0) > 0
    ensures r.d.log == [Received(0, 5, [128])] + [Received(0, 1, [])] + [Assigned(0, 0)]
                       + [Requested(0, 0, 0, Progress.AskLength(t, 0, 0))]
  {
    hide RequestNext, Process;
    PieceInFile(t, 0);
    r := OpeningIsHandled(t, World(c, IDLE));
    var b, u := Received(0, 5, [128]), Received(0, 1, []);
    var w0 := World(c.(recv := [0, 0, 0, 1, 1]), IDLE);
    var w1 := Handle(t, w0, 5, [128]);
    Progress.OthersAskNothing(t, w0, 5, [128]);
    OpeningParts();
    assert w1.d.log == [b] && w1.d.nextReq == 0 && HasPiece(w1.c.pieces, 0);
    var w2 := World(w1.c.(recv := [], choked := false), Note(w1.d, u));
    assert r == RequestNext(t, w2);
    Progress.AsksFirstBlock(t, w2, 0);
    Progress.RequestKeepsState(t, w2);
    EmptyIsBlocked(t, r);
  }

  lemma OpeningRequests(e: Event)
    requires e.Requested? && e.peer == 0 && e.piece < U32 && e.begin < U32 && e.length < U32
    ensures RequestsTo([Received(0, 5, [128])] + [Received(0, 1, [])] + [Assigned(0, 0)] + [e], 0) ==
            [RequestBytes(e.piece, e.begin, e.length)]
  {
    hide RequestBytes;
    var a, b, c := [Received(0, 5, [128])], Received(0, 1, []), Assigned(0, 0);
    Unheard([], a[0], 0);
    assert [] + a == a;
    Unheard(a, b, 0);
    Unheard(a + [b], c, 0);
    assert History.Front(a + [b] + [c] + [e]) == a + [b] + [c];
  }

  lemma TwoSteps(t: Torrent, myId: Buffer, a: Action, b: Action)
    requires Valid(t)
    ensures RunAll(t, myId, Start(1), [a]) == Step(t, myId, Start(1), a)
    ensures RunAll(t, myId, Start(1), [a, b]) == Step(t, myId, Step(t, myId, Start(1), a), b)
  {
    hide Step;
    assert [a, b][..1] == [a] && [a][..0] == [];
  }

  lemma OneConnection(t: Torrent, myId: Buffer, chunk: Buffer)
    requires Valid(t) && chunk != []
    ensures var r := Process(t, World(NewConn(0).(recv := chunk), IDLE));
            Step(t, myId, Start(1), Readable(0, chunk)) == System([r.c], r.d)
  {
    hide Process;
    assert [] + chunk == chunk;
    var r := Process(t, World(NewConn(0).(recv := chunk), IDLE));
    assert Start(1).conns[0 := r.c] == [r.c];
  }

  lemma AfterOpening(t: Torrent, myId: Buffer, chunk: Buffer)
    requires Valid(t) && |t.hashes| > 0 && chunk == OPENING
    ensures 0 < Progress.AskLength(t, 0, 0) < U32
    ensures var c := Step(t, myId, Start(1), Readable(0, chunk)).conns[0];
            && c.link == Up && c.phase == Connecting && c.peer == 0
            && c.sent == [RequestBytes(0, 0, Progress.AskLength(t, 0, 0))]
  {
    hide Process, Step;
    PieceInFile(t, 0);
    OneConnection(t, myId, chunk);
    var r := OpeningAsks(t, NewConn(0).(recv := chunk));
    OpeningRequests(Requested(0, 0, 0, Progress.AskLength(t, 0, 0)));
    NothingSent(t, myId, 0);
    ProcessIsSent(t, myId, World(NewConn(0).(recv := chunk), IDLE));
  }

  /**
    The handshake does not come first in every run: a peer whose BITFIELD and UNCHOKE are read before the connection is
    found writable gets a request before the handshake.
   */
  lemma RequestBeforeHandshake(t: Torrent, myId: Buffer, chunk: Buffer)
    requires Valid(t) && |t.hashes| > 0 && chunk == [0, 0, 0, 2, 5, 128] + [0, 0, 0, 1, 1]
    ensures 0 < Progress.AskLength(t, 0, 0) < U32
    ensures var c := RunAll(t, myId, Start(1), [Readable(0, chunk), Writable(0)]).conns[0];
            && c.phase == Handshaking
            && c.sent == [RequestBytes(0, 0, Progress.AskLength(t, 0, 0)), HandshakeBytes(t.infoHash, myId)]
  {
    hide RunAll, Receive, RequestBytes, HandshakeBytes;
    AfterOpening(t, myId, chunk);
    TwoSteps(t, myId, Readable(0, chunk), Writable(0));
    HandshakeLiteral(t.infoHash, myId);
  }
}
