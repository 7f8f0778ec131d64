/** What each message leads to, event by event: in particular, when it makes the connection ask and for what. */
module Progress {
  import opened Bytes
  import opened Torrents
  import opened Assembly
  import opened Protocol
  import opened History
  import opened Swarm

  /** 16384 bytes, or what is left of the piece. */
  function AskLength(t: Torrent, p: int, begin: int): int
    requires t.pieceLength > 0
  {
    var left := PieceLen(t, p) - begin;
    if left < 16384 then left else 16384
  }

  /** The pieces from `from` up to `to` are dropped. */
  function Drops(q: nat, from: nat, to: nat): seq<Event> {
    if from >= to then [] else Drops(q, from, to - 1) + [Skipped(q, to - 1)]
  }

  /** The least index not yet dispensed that this peer has announced. */
  ghost predicate FirstAnnounced(t: Torrent, log: seq<Event>, q: nat, from: nat, k: nat) {
    from <= k < |t.hashes| && Announced(log, q, k) && forall j: nat :: from <= j < k ==> !Announced(log, q, j)
  }

  ghost predicate NoneAnnounced(t: Torrent, log: seq<Event>, q: nat, from: nat) {
    forall j: nat :: from <= j < |t.hashes| ==> !Announced(log, q, j)
  }

  /**
    After the events `log` the connection has gone on asking.  With a piece in hand: one request for its next block.
    With none: the pieces its peer lacks are dropped, and the first that it has is assigned and its first block
    requested; if it has none of those left, all are dropped and the dispenser is exhausted.
   */
  ghost predicate GoesOn(t: Torrent, w: World, log: seq<Event>, r: World)
    requires Valid(t)
  {
    var c, from := w.c, w.d.nextReq;
    if c.currentPiece != -1 then
      && c.currentPiece >= 0 && c.blockOffset >= 0 && AskLength(t, c.currentPiece, c.blockOffset) > 0
      && r.d.log == log + [Requested(c.peer, c.currentPiece, c.blockOffset,
                                     AskLength(t, c.currentPiece, c.blockOffset))]
      && r.d.nextReq == from
    else
      && (forall k: nat :: FirstAnnounced(t, w.d.log, c.peer, from, k) ==>
                        && AskLength(t, k, 0) > 0
                        && r.d.log == log + Drops(c.peer, from, k)
                                      + [Assigned(c.peer, k), Requested(c.peer, k, 0, AskLength(t, k, 0))]
                        && r.d.nextReq == k + 1)
      && (NoneAnnounced(t, w.d.log, c.peer, from) ==>
            r.d.log == log + Drops(c.peer, from, |t.hashes|) && r.d.nextReq > |t.hashes|)
  }

  lemma {:induction false} DropsFirst(q: nat, from: nat, to: nat)
    requires from < to
    ensures Drops(q, from, to) == [Skipped(q, from)] + Drops(q, from + 1, to)
  {
    if to == from + 1 {
      assert Drops(q, from, from) == [] && Drops(q, to, to) == [];
    } else {
      DropsFirst(q, from, to - 1);
    }
  }

  lemma {:induction false} SearchFinds(t: Torrent, q: nat, pieces: seq<bool>, d: Shared, attempts: nat, k: nat)
    requires attempts <= d.nextReq <= k < |t.hashes| && HasPiece(pieces, k)
    requires forall j: nat :: d.nextReq <= j < k ==> !HasPiece(pieces, j)
    ensures FindPiece(t, q, pieces, d, attempts) ==
            (Found(k), d.(nextReq := k + 1, log := d.log + Drops(q, d.nextReq, k) + [Assigned(q, k)]))
    decreases k - d.nextReq
  {
    var n := d.nextReq;
    if n == k {
      assert d.log + Drops(q, k, k) == d.log;
    } else {
      var d' := Note(d.(nextReq := n + 1), Skipped(q, n));
      assert !HasPiece(pieces, n);
      SearchFinds(t, q, pieces, d', attempts + 1, k);
      DropsFirst(q, n, k);
      assert d.log + [Skipped(q, n)] + Drops(q, n + 1, k) == d.log + Drops(q, n, k);
    }
  }

  lemma {:induction false} SearchExhausts(t: Torrent, q: nat, pieces: seq<bool>, d: Shared, attempts: nat)
    requires attempts <= |t.hashes| && attempts <= d.nextReq
    requires forall j: nat :: d.nextReq <= j < |t.hashes| ==> !HasPiece(pieces, j)
    ensures var (s, r) := FindPiece(t, q, pieces, d, attempts);
            && s == Exhausted && r.asm == d.asm && r.nextReq > |t.hashes|
            && r.log == d.log + Drops(q, d.nextReq, |t.hashes|)
    decreases |t.hashes| - d.nextReq
  {
    var n := d.nextReq;
    if n >= |t.hashes| {
      assert d.log + Drops(q, n, |t.hashes|) == d.log;
    } else {
      var d' := Note(d.(nextReq := n + 1), Skipped(q, n));
      assert !HasPiece(pieces, n);
      SearchExhausts(t, q, pieces, d', attempts + 1);
      DropsFirst(q, n, |t.hashes|);
      assert d.log + [Skipped(q, n)] + Drops(q, n + 1, |t.hashes|) == d.log + Drops(q, n, |t.hashes|);
    }
  }

  lemma AsksNextBlock(t: Torrent, w: World)
    requires Valid(t) && Sane(t, w.c) && w.c.currentPiece != -1
    ensures AskLength(t, w.c.currentPiece, w.c.blockOffset) > 0
    ensures var r, c := SendBlock(t, w), w.c;
            && r.d == w.d.(log := w.d.log + [Requested(c.peer, c.currentPiece, c.blockOffset,
                                                       AskLength(t, c.currentPiece, c.blockOffset))])
  {
    PieceInFile(t, w.c.currentPiece);
  }

  /** The peer's pieces are those it has announced in a past whose view of it is unchanged. */
  ghost predicate Knows(t: Torrent, c: Conn, log: seq<Event>) {
    forall i: nat :: i < |t.hashes| ==> HasPiece(c.pieces, i) == Announced(log, c.peer, i)
  }

  lemma AsksFirstBlock(t: Torrent, w: World, k: nat)
    requires Valid(t) && Sane(t, w.c) && !w.c.choked && w.c.currentPiece == -1
    requires w.d.nextReq <= k < |t.hashes| && HasPiece(w.c.pieces, k)
    requires forall j: nat :: w.d.nextReq <= j < k ==> !HasPiece(w.c.pieces, j)
    ensures AskLength(t, k, 0) > 0
    ensures RequestNext(t, w).d ==
            w.d.(nextReq := k + 1, log := w.d.log + Drops(w.c.peer, w.d.nextReq, k)
                                          + [Assigned(w.c.peer, k), Requested(w.c.peer, k, 0, AskLength(t, k, 0))])
  {
    hide SendBlock;
    PieceInFile(t, k);
    SearchFinds(t, w.c.peer, w.c.pieces, w.d, 0, k);
    var d' := FindPiece(t, w.c.peer, w.c.pieces, w.d, 0).1;
    AsksNextBlock(t, World(w.c.(currentPiece := k, blockOffset := 0), d'));
    var log := w.d.log + Drops(w.c.peer, w.d.nextReq, k);
    var ask := Requested(w.c.peer, k, 0, AskLength(t, k, 0));
    assert log + [Assigned(w.c.peer, k)] + [ask] == log + [Assigned(w.c.peer, k), ask];
  }

  lemma NextWithNone(t: Torrent, w: World)
    requires Valid(t) && Sane(t, w.c) && !w.c.choked && w.c.currentPiece == -1
    requires FindPiece(t, w.c.peer, w.c.pieces, w.d, 0).0.Exhausted?
    ensures RequestNext(t, w) == World(w.c, FindPiece(t, w.c.peer, w.c.pieces, w.d, 0).1)
  {
  }

  lemma NextWithPiece(t: Torrent, w: World)
    requires Valid(t) && Sane(t, w.c) && !w.c.choked && w.c.currentPiece != -1
    ensures RequestNext(t, w) == SendBlock(t, w)
  {
  }

  lemma {:induction false} Least(t: Torrent, log: seq<Event>, q: nat, from: nat) returns (k: nat)
    requires !NoneAnnounced(t, log, q, from)
    ensures FirstAnnounced(t, log, q, from, k)
    decreases |t.hashes| - from
  {
    hide Announced;
    if Announced(log, q, from) {
      k := from;
    } else {
      k := Least(t, log, q, from + 1);
    }
  }

  /** `past` is the log before the message that led here. */
  lemma RequestGoesOn(t: Torrent, past: seq<Event>, w: World)
    requires Valid(t) && Sane(t, w.c) && !w.c.choked && Knows(t, w.c, past)
    ensures GoesOn(t, w.(d := w.d.(log := past)), w.d.log, RequestNext(t, w))
    ensures RequestNext(t, w).d.asm == w.d.asm
  {
    hide SendBlock, Announced, AskLength, FindPiece, RequestNext;
    var r, from := RequestNext(t, w), w.d.nextReq;
    if w.c.currentPiece != -1 {
      AsksNextBlock(t, w);
      NextWithPiece(t, w);
    } else {
      forall k: nat | FirstAnnounced(t, past, w.c.peer, from, k)
        ensures AskLength(t, k, 0) > 0
        ensures r.d == w.d.(nextReq := k + 1,
                            log := w.d.log + Drops(w.c.peer, from, k)
                                   + [Assigned(w.c.peer, k), Requested(w.c.peer, k, 0, AskLength(t, k, 0))])
      {
        AsksFirstBlock(t, w, k);
      }
      if NoneAnnounced(t, past, w.c.peer, from) {
        SearchExhausts(t, w.c.peer, w.c.pieces, w.d, 0);
        NextWithNone(t, w);
      } else {
        var k := Least(t, past, w.c.peer, from);
        assert FirstAnnounced(t, past, w.c.peer, from, k);
      }
    }
  }

  // ---- Message by message, with the ids as they are on the wire ----

  lemma RequestKeepsState(t: Torrent, w: World)
    requires Valid(t) && Sane(t, w.c)
    ensures RequestNext(t, w).c.choked == w.c.choked && RequestNext(t, w).c.link == w.c.link
  {
  }

  /** Only the job, the peer and the past matter for what is asked next. */
  lemma SameQuestion(t: Torrent, w: World, w': World, log: seq<Event>, r: World)
    requires Valid(t) && GoesOn(t, w', log, r)
    requires w'.d == w.d && w'.c.peer == w.c.peer
    requires w'.c.currentPiece == w.c.currentPiece && w'.c.blockOffset == w.c.blockOffset
    ensures GoesOn(t, w, log, r)
  {
  }

  /** UNCHOKE makes the connection go on asking, also in the middle of a piece. */
  lemma UnchokeAsks(t: Torrent, w: World, payload: Buffer)
    requires WorldInv(t, w)
    ensures var r := Handle(t, w, 1, payload);
            && GoesOn(t, w, w.d.log + [Received(w.c.peer, 1, payload)], r)
            && !r.c.choked && r.c.link == w.c.link && r.d.asm == w.d.asm
  {
    hide RequestNext, GoesOn;
    var w' := World(w.c.(choked := false), Note(w.d, Received(w.c.peer, 1, payload)));
    RequestGoesOn(t, w.d.log, w');
    SameQuestion(t, w, w'.(d := w'.d.(log := w.d.log)), w'.d.log, RequestNext(t, w'));
    RequestKeepsState(t, w');
  }

  lemma AnyAssembler(t: Torrent, w: World, w': World, log: seq<Event>, r: World)
    requires Valid(t) && GoesOn(t, w', log, r) && w'.c == w.c && w'.d == w.d.(asm := w'.d.asm)
    ensures GoesOn(t, w, log, r)
  {
  }

  lemma ChokedAsksNothing(t: Torrent, w: World)
    requires Valid(t) && Sane(t, w.c) && w.c.choked
    ensures RequestNext(t, w) == w
  {
  }

  /**
    PIECE, when index, offset and data are complete and the call is defined: the block is delivered, and while unchoked
    the connection goes on asking; while choked nothing is asked.
   */
  lemma PieceAsks(t: Torrent, w: World, payload: Buffer)
    requires WorldInv(t, w) && |payload| >= 8 && Defined(t, w.d.asm, BlockOf(payload))
    ensures var r, b := Handle(t, w, 7, payload), BlockOf(payload);
            var log := w.d.log + [Received(w.c.peer, 7, payload), Delivered(w.c.peer, b)];
            && (!w.c.choked ==> GoesOn(t, w, log, r))
            && (w.c.choked ==> r.d.log == log && r.d.nextReq == w.d.nextReq)
            && r.c.choked == w.c.choked && r.c.link == w.c.link && r.d.asm == OnBlock(t, w.d.asm, b)
  {
    hide RequestNext, GoesOn, OnBlock, Defined, BlockOf;
    var b := BlockOf(payload);
    var w' := World(w.c, Deliver(t, w.c.peer, Note(w.d, Received(w.c.peer, 7, payload)), b));
    assert w'.d.log == w.d.log + [Received(w.c.peer, 7, payload), Delivered(w.c.peer, b)];
    RequestKeepsState(t, w');
    if w.c.choked {
      ChokedAsksNothing(t, w');
    } else {
      RequestGoesOn(t, w.d.log, w');
      AnyAssembler(t, w, w'.(d := w'.d.(log := w.d.log)), w'.d.log, RequestNext(t, w'));
    }
  }

  /** CHOKE, BITFIELD and everything that is not UNCHOKE or PIECE: no request, and only the field concerned changes. */
  lemma OthersAskNothing(t: Torrent, w: World, id: byte, payload: Buffer)
    requires Valid(t) && Sane(t, w.c) && id != 1 && id != 7
    ensures var r := Handle(t, w, id, payload);
            && r.d == w.d.(log := w.d.log + [Received(w.c.peer, id, payload)])
            && r.c == w.c.(choked := id == 0 || w.c.choked, pieces := if id == 5 then r.c.pieces else w.c.pieces)
            && (id == 5 ==> |r.c.pieces| == |t.hashes| && forall i: nat :: i < |t.hashes| ==>
                              HasPiece(r.c.pieces, i) == (HasPiece(w.c.pieces, i) || Marked(payload, i)))
  {
  }

  /** PIECE without its eight bytes of index and offset ends the connection; so does one whose call is not defined. */
  lemma BadPieceEnds(t: Torrent, w: World, payload: Buffer)
    requires Valid(t) && Sane(t, w.c)
    ensures |payload| < 8 ==>
              Handle(t, w, 7, payload) ==
              World(w.c.(link := Down), w.d.(log := w.d.log + [Received(w.c.peer, 7, payload)]))
    ensures |payload| >= 8 && !Defined(t, w.d.asm, BlockOf(payload)) ==> Handle(t, w, 7, payload).c.link == Undefined
  {
  }
}
