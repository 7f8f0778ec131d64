/** The blocks of a file in order: how they are asked for, answered and assembled, and what they amount to. */
module Delivery {
  import opened Bytes
  import opened Torrents
  import opened Disk
  import opened Assembly
  import opened Protocol
  import Framing
  import Chunking
  import History
  import Message

  datatype Ask = Ask(piece: nat, begin: nat, length: nat)

  function Content(t: Torrent, file: Buffer, p: nat): (c: Buffer)
    requires Valid(t) && |file| == t.length && p < |t.hashes|
    ensures |c| == PieceLen(t, p)
  {
    PieceInFile(t, p);
    file[PieceStart(t, p)..PieceStart(t, p) + PieceLen(t, p)]
  }

  /** The seeder's file, whose pieces have the expected digests. */
  ghost predicate Seeds(t: Torrent, file: Buffer) {
    && Valid(t) && |file| == t.length
    && forall p: nat :: p < |t.hashes| ==> t.digest(Content(t, file, p)) == t.hashes[p]
  }

  // ---- The plan: all blocks of all pieces, in order ----

  /** A place in the file where a block starts; (|hashes|, 0) is the end. */
  ghost predicate Place(t: Torrent, p: nat, off: nat) {
    Valid(t) && p <= |t.hashes| && (if p < |t.hashes| then off < PieceLen(t, p) else off == 0)
  }

  function Size(t: Torrent, p: nat, off: nat): (len: nat)
    requires Place(t, p, off) && p < |t.hashes|
    ensures 0 < len <= 16384 && off + len <= PieceLen(t, p)
  {
    BlockSize(PieceLen(t, p) - off)
  }

  function After(t: Torrent, p: nat, off: nat): (q: (nat, nat))
    requires Place(t, p, off) && p < |t.hashes|
    ensures Place(t, q.0, q.1)
  {
    PieceLenPositive(t, p + 1);
    if off + Size(t, p, off) >= PieceLen(t, p) then (p + 1, 0) else (p, off + Size(t, p, off))
  }

  function Plan(t: Torrent, p: nat, off: nat): seq<Ask>
    requires Place(t, p, off)
    decreases |t.hashes| - p, if p < |t.hashes| then PieceLen(t, p) - off else 0
  {
    if p == |t.hashes| then []
    else [Ask(p, off, Size(t, p, off))] + Plan(t, After(t, p, off).0, After(t, p, off).1)
  }

  /** The plan for the whole file. */
  function WholePlan(t: Torrent): seq<Ask>
    requires Valid(t)
  {
    PieceLenPositive(t, 0);
    Plan(t, 0, 0)
  }

  function Answer(t: Torrent, file: Buffer, p: nat, off: nat): Framing.Msg
    requires Place(t, p, off) && p < |t.hashes| && |file| == t.length
  {
    PieceInFile(t, p);
    Framing.Msg(Message.PIECE,
                Message.PiecePayload(p, off, Content(t, file, p)[off..off + Size(t, p, off)]))
  }

  /** Each request of the plan answered with the true bytes. */
  function Answers(t: Torrent, file: Buffer, p: nat, off: nat): seq<Framing.Msg>
    requires Place(t, p, off) && |file| == t.length
    decreases |t.hashes| - p, if p < |t.hashes| then PieceLen(t, p) - off else 0
  {
    if p == |t.hashes| then []
    else [Answer(t, file, p, off)] + Answers(t, file, After(t, p, off).0, After(t, p, off).1)
  }

  function AllAnswers(t: Torrent, file: Buffer): seq<Framing.Msg>
    requires Valid(t) && |file| == t.length
  {
    PieceLenPositive(t, 0);
    Answers(t, file, 0, 0)
  }

  // ---- The assembler receives the blocks of the plan ----

  function Jobs(t: Torrent, file: Buffer, n: nat): seq<Job>
    requires Valid(t) && |file| == t.length && n <= |t.hashes|
  {
    if n == 0 then [] else Jobs(t, file, n - 1) + [Job(Content(t, file, n - 1), PieceStart(t, n - 1))]
  }

  /** All pieces before `p` are handed over, and of piece `p` the first `off` bytes are in the buffer. */
  ghost predicate AssembledTo(t: Torrent, file: Buffer, a: Assembler, p: nat, off: nat)
    requires Place(t, p, off) && |file| == t.length
  {
    && a.jobs == Jobs(t, file, p)
    && (off == 0 ==> a.current < p)
    && (off > 0 ==> a.current == p && a.received == off && |a.buffer| == PieceLen(t, p)
                    && a.buffer[..off] == Content(t, file, p)[..off])
  }

  lemma PatchExtends(buffer: Buffer, content: Buffer, off: nat, len: nat)
    requires |buffer| == |content| && off + len <= |content| && buffer[..off] == content[..off]
    ensures Patch(buffer, off, content[off..off + len])[..off + len] == content[..off + len]
  {
    assert buffer[..off] + content[off..off + len] == content[..off + len];
  }

  lemma BlockAdvances(t: Torrent, file: Buffer, a: Assembler, p: nat, off: nat)
    requires Seeds(t, file) && Place(t, p, off) && p < |t.hashes| && AssembledTo(t, file, a, p, off)
    ensures var data := Content(t, file, p)[off..off + Size(t, p, off)];
            AssembledTo(t, file, OnBlock(t, a, Block(p, off, data)), After(t, p, off).0, After(t, p, off).1)
  {
    PieceInFile(t, p);
    var content, len := Content(t, file, p), Size(t, p, off);
    var b := Begin(t, a, p);
    var s := Store(b, Block(p, off, content[off..off + len]));
    hide Patch;
    PatchExtends(b.buffer, content, off, len);
    if off + len == PieceLen(t, p) {
      assert s.buffer == content;
      assert t.digest(content) == t.hashes[p];
    }
  }

  // ---- The connection requests the blocks of the plan ----

  /** Everything that was requested, in order. */
  function Asks(log: seq<Event>): seq<Ask> {
    if log == [] then []
    else
      var e := History.Last(log);
      var init := Asks(History.Front(log));
      if e.Requested? then init + [Ask(e.piece, e.begin, e.length)] else init
  }

  ghost predicate HasAll(t: Torrent, pieces: seq<bool>) {
    forall i: nat :: i < |t.hashes| ==> HasPiece(pieces, i)
  }

  /** The next block the connection will ask for is the one at (n, at), once it is unchoked. */
  ghost predicate Asking(t: Torrent, c: Conn, d: Shared, n: nat, at: nat)
    requires Place(t, n, at)
  {
    && Sane(t, c) && c.link == Up && c.phase == Downloading && HasAll(t, c.pieces)
    && (at == 0 && n < |t.hashes| ==> c.currentPiece == -1 && d.nextReq == n)
    && (at == 0 && n == |t.hashes| ==> c.currentPiece == -1 && d.nextReq >= n)
    && (at > 0 ==> c.currentPiece == n && c.blockOffset == at && d.nextReq == n + 1)
  }

  lemma SendBlockAsks(t: Torrent, w: World)
    requires Valid(t) && Sane(t, w.c) && w.c.currentPiece != -1
    requires Place(t, w.c.currentPiece, w.c.blockOffset)
    ensures var r, c := SendBlock(t, w), w.c;
            var p, off := c.currentPiece, c.blockOffset;
            && Asks(r.d.log) == Asks(w.d.log) + [Ask(p, off, Size(t, p, off))]
            && r.c.blockOffset == off + Size(t, p, off)
            && r.c.currentPiece == (if off + Size(t, p, off) >= PieceLen(t, p) then -1 else p)
  {
    assert History.Front(SendBlock(t, w).d.log) == w.d.log;
  }

  lemma RequestNextAsks(t: Torrent, w: World, n: nat, at: nat)
    requires Place(t, n, at) && n < |t.hashes| && Asking(t, w.c, w.d, n, at) && !w.c.choked
    ensures var r := RequestNext(t, w);
            && Asking(t, r.c, r.d, After(t, n, at).0, After(t, n, at).1)
            && Asks(r.d.log) == Asks(w.d.log) + [Ask(n, at, Size(t, n, at))]
            && r.d.asm == w.d.asm && !r.c.choked
  {
    if at > 0 {
      SendBlockAsks(t, w);
    } else {
      PieceInFile(t, n);
      var d' := Note(w.d.(nextReq := n + 1), Assigned(w.c.peer, n));
      assert HasPiece(w.c.pieces, n);
      assert FindPiece(t, w.c.peer, w.c.pieces, w.d, 0) == (Found(n), d');
      assert History.Front(d'.log) == w.d.log;
      SendBlockAsks(t, World(w.c.(currentPiece := n, blockOffset := 0), d'));
    }
  }

  lemma RequestNextStops(t: Torrent, w: World)
    requires Place(t, |t.hashes|, 0) && Asking(t, w.c, w.d, |t.hashes|, 0) && !w.c.choked
    ensures var r := RequestNext(t, w);
            && Asking(t, r.c, r.d, |t.hashes|, 0) && r.d.nextReq > |t.hashes|
            && r.d.log == w.d.log && r.d.asm == w.d.asm && !r.c.choked
  {
    assert FindPiece(t, w.c.peer, w.c.pieces, w.d, 0) == (Exhausted, w.d.(nextReq := w.d.nextReq + 1));
  }

  /** What is asked for next: the block at (n, at), if the plan has not ended. */
  function NextAsk(t: Torrent, n: nat, at: nat): seq<Ask>
    requires Place(t, n, at)
  {
    if n == |t.hashes| then [] else [Ask(n, at, Size(t, n, at))]
  }

  function AfterAsk(t: Torrent, n: nat, at: nat): (q: (nat, nat))
    requires Place(t, n, at)
    ensures Place(t, q.0, q.1)
  {
    if n == |t.hashes| then (n, at) else After(t, n, at)
  }

  /** The block that an answer carries. */
  function AnsweredBlock(t: Torrent, file: Buffer, p: nat, off: nat): Block
    requires Place(t, p, off) && p < |t.hashes| && |file| == t.length
  {
    Block(p, off, Content(t, file, p)[off..off + Size(t, p, off)])
  }

  /** The state in which the handler of an answer asks for the next block. */
  function Stored(t: Torrent, file: Buffer, w: World, p: nat, off: nat): World
    requires Place(t, p, off) && p < |t.hashes| && |file| == t.length
  {
    var b := AnsweredBlock(t, file, p, off);
    var m := Answer(t, file, p, off);
    World(w.c, Deliver(t, w.c.peer, Note(w.d, Received(w.c.peer, m.id, m.payload)), b))
  }

  lemma HandleAnswer(t: Torrent, file: Buffer, w: World, p: nat, off: nat)
    requires Place(t, p, off) && p < |t.hashes| && |file| == t.length && Sane(t, w.c)
    ensures var m := Answer(t, file, p, off);
            Handle(t, w, m.id, m.payload) == RequestNext(t, Stored(t, file, w, p, off))
    ensures Asks(Stored(t, file, w, p, off).d.log) == Asks(w.d.log)
  {
    PieceInFile(t, p);
    var m, b := Answer(t, file, p, off), AnsweredBlock(t, file, p, off);
    Message.PieceFields(p, off, b.data);
    PieceBlocksAreDefined(t, w.d.asm, b);
    var log' := w.d.log + [Received(w.c.peer, m.id, m.payload)];
    assert History.Front(log') == w.d.log;
    assert History.Front(log' + [Delivered(w.c.peer, b)]) == log';
  }

  // ---- What the plan and the jobs amount to ----

  /** The sum over the pieces from `p` on of ceil(length / 16384). */
  function BlocksFrom(t: Torrent, p: nat): nat
    requires Valid(t) && p <= |t.hashes|
    decreases |t.hashes| - p
  {
    if p == |t.hashes| then 0
    else
      PieceInFile(t, p);
      (PieceLen(t, p) + 16384 - 1) / 16384 + BlocksFrom(t, p + 1)
  }

  lemma {:induction false} PlanCount(t: Torrent, p: nat, off: nat)
    requires Place(t, p, off)
    ensures |Plan(t, p, off)| ==
            if p == |t.hashes| then 0 else (PieceLen(t, p) - off + 16384 - 1) / 16384 + BlocksFrom(t, p + 1)
    decreases |t.hashes| - p, if p < |t.hashes| then PieceLen(t, p) - off else 0
  {
    if p == |t.hashes| {
    } else {
      PlanCount(t, After(t, p, off).0, After(t, p, off).1);
    }
  }

  function DataOf(jobs: seq<Job>): Buffer {
    if jobs == [] then [] else DataOf(jobs[..|jobs| - 1]) + jobs[|jobs| - 1].data
  }

  /** Where the first `n` pieces end. */
  function EndOf(t: Torrent, n: nat): nat {
    if n == |t.hashes| then t.length else PieceStart(t, n)
  }

  lemma PieceEnds(t: Torrent, n: nat)
    requires Valid(t) && n <= |t.hashes|
    ensures n == 0 ==> EndOf(t, n) == 0
    ensures n > 0 ==> EndOf(t, n) == PieceStart(t, n - 1) + PieceLen(t, n - 1) <= t.length
  {
    if n > 0 {
      PieceLenIsCutAtEnd(t, n - 1);
      PieceInFile(t, n - 1);
    }
  }

  lemma TakeMore(file: Buffer, i: nat, j: nat)
    requires i <= j <= |file|
    ensures file[..i] + file[i..j] == file[..j]
  {
  }

  lemma {:induction false} JobsMakeTheFile(t: Torrent, file: Buffer, n: nat)
    requires Valid(t) && |file| == t.length && n <= |t.hashes|
    ensures EndOf(t, n) <= |file| && DataOf(Jobs(t, file, n)) == file[..EndOf(t, n)]
  {
    PieceEnds(t, n);
    if n == 0 {
    } else {
      JobsMakeTheFile(t, file, n - 1);
      var jobs := Jobs(t, file, n);
      assert jobs[..|jobs| - 1] == Jobs(t, file, n - 1);
      TakeMore(file, PieceStart(t, n - 1), EndOf(t, n));
    }
  }

  // ---- Nothing is asked for after the plan ----

  /** The dispenser is exhausted and no piece is in hand. */
  ghost predicate Sated(t: Torrent, w: World) {
    Valid(t) && Sane(t, w.c) && w.c.currentPiece == -1 && w.d.nextReq >= |t.hashes|
  }

  /** `r` is sated as well, and nothing was asked for in between. */
  ghost predicate StaysSated(t: Torrent, w: World, r: World) {
    Sated(t, r) && Asks(r.d.log) == Asks(w.d.log)
  }

  lemma RequestNextAsksNothing(t: Torrent, w: World)
    requires Sated(t, w)
    ensures StaysSated(t, w, RequestNext(t, w))
  {
  }

  lemma HandleAsksNothing(t: Torrent, w: World, id: byte, payload: Buffer)
    requires Sated(t, w)
    ensures StaysSated(t, w, Handle(t, w, id, payload))
  {
    hide RequestNext, OnBlock, Defined, BlockOf;
    var w' := w.(d := Note(w.d, Received(w.c.peer, id, payload)));
    assert History.Front(w'.d.log) == w.d.log;
    assert StaysSated(t, w, w');
    if id == Message.UNCHOKE {
      RequestNextAsksNothing(t, w'.(c := w.c.(choked := false)));
    } else if id == Message.PIECE && |payload| >= 8 {
      var w'' := w'.(d := Deliver(t, w.c.peer, w'.d, BlockOf(payload)));
      assert History.Front(w''.d.log) == w'.d.log;
      RequestNextAsksNothing(t, w'');
      assert StaysSated(t, w', RequestNext(t, w''));
    }
  }

  lemma IterateAsksNothing(t: Torrent, w: World)
    requires Sated(t, w) && Iterate(t, w).Next?
    ensures StaysSated(t, w, Iterate(t, w).w)
  {
    hide Handle;
    if w.c.phase == Handshaking {
      assert History.Front(DropHandshake(w).d.log) == w.d.log;
    } else {
      match Cut(w.c.recv)
      case Message(id, payload, rest) => HandleAsksNothing(t, w.(c := w.c.(recv := rest)), id, payload);
      case _ =>
    }
  }

  lemma {:induction false} ProcessAsksNothing(t: Torrent, w: World)
    requires Sated(t, w)
    ensures StaysSated(t, w, Process(t, w))
    decreases w.c.link == Up, |w.c.recv|
  {
    hide Iterate, Asks;
    if w.c.link != Up || Iterate(t, w).Blocked? {
    } else {
      IterateAsksNothing(t, w);
      ProcessAsksNothing(t, Iterate(t, w).w);
    }
  }

  /** Once the dispenser is exhausted and no piece is in hand, nothing a peer sends makes the connection ask again. */
  lemma {:induction false} NeverAsksAgain(t: Torrent, w: World, chunks: seq<Buffer>)
    requires Sated(t, w)
    ensures StaysSated(t, w, Chunking.ReceiveAll(t, w, chunks))
  {
    hide Process, Asks;
    if chunks == [] {
    } else {
      var last := |chunks| - 1;
      var r := Chunking.ReceiveAll(t, w, chunks[..last]);
      NeverAsksAgain(t, w, chunks[..last]);
      ProcessAsksNothing(t, r.(c := r.c.(recv := r.c.recv + chunks[last])));
    }
  }

  lemma WholePlanCount(t: Torrent)
    requires Valid(t)
    ensures |WholePlan(t)| == BlocksFrom(t, 0)
  {
    PieceLenPositive(t, 0);
    PlanCount(t, 0, 0);
  }

  lemma WholeFile(t: Torrent, file: Buffer)
    requires Valid(t) && |file| == t.length
    ensures DataOf(Jobs(t, file, |t.hashes|)) == file
  {
    JobsMakeTheFile(t, file, |t.hashes|);
    assert file[..t.length] == file;
  }
}
