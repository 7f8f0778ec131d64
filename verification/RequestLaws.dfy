/** What follows for the requests of every run of any number of connections. */
module RequestLaws {
  import opened Bytes
  import opened Torrents
  import opened Assembly
  import opened Protocol
  import opened History
  import opened Swarm
  import Disk
  import Message

  // ---- Requests never overlap ----

  /** Where a requested range starts in the file. */
  function FileStart(t: Torrent, e: Event): nat
    requires e.Requested?
  {
    PieceStart(t, e.piece) + e.begin
  }

  lemma {:induction false} AskedGrows(log: seq<Event>, j: nat, k: nat, p: nat)
    requires j <= k <= |log|
    ensures Asked(log[..j], p) <= Asked(log[..k], p)
  {
    if j == k {
    } else {
      AskedGrows(log, j, k - 1, p);
      assert History.Front(log[..k]) == log[..k - 1];
    }
  }

  lemma RequestInFile(t: Torrent, log: seq<Event>, k: nat)
    requires Valid(t) && LogOk(t, log) && k < |log| && log[k].Requested?
    ensures FileStart(t, log[k]) + log[k].length <= t.length && log[k].length > 0
  {
    OrderAt(t, log, k);
    PieceInFile(t, log[k].piece);
  }

  lemma LaterRequestElsewhere(t: Torrent, log: seq<Event>, j: nat, k: nat)
    requires Valid(t) && LogOk(t, log) && j < k < |log| && log[j].Requested? && log[k].Requested?
    ensures || FileStart(t, log[j]) + log[j].length <= FileStart(t, log[k])
            || FileStart(t, log[k]) + log[k].length <= FileStart(t, log[j])
  {
    var e, e' := log[j], log[k];
    OrderAt(t, log, j);
    OrderAt(t, log, k);
    if e.piece == e'.piece {
      AskedGrows(log, j + 1, k, e.piece);
      assert History.Front(log[..j + 1]) == log[..j];
    } else {
      PiecesDisjoint(t, e.piece, e'.piece);
    }
  }

  /**
    In any interleaving of any number of connections, all requested ranges lie in the file and are pairwise disjoint,
    whoever made them.
   */
  lemma RequestsNeverOverlap(t: Torrent, myId: Buffer, peers: nat, actions: seq<Action>, j: nat, k: nat)
    requires Valid(t)
    requires var log := RunAll(t, myId, Start(peers), actions).d.log;
             j < k < |log| && log[j].Requested? && log[k].Requested?
    ensures var log := RunAll(t, myId, Start(peers), actions).d.log;
            && FileStart(t, log[j]) + log[j].length <= t.length
            && FileStart(t, log[k]) + log[k].length <= t.length
            && (|| FileStart(t, log[j]) + log[j].length <= FileStart(t, log[k])
                || FileStart(t, log[k]) + log[k].length <= FileStart(t, log[j]))
  {
    EveryRunKeeps(t, myId, peers, actions);
    var log := RunAll(t, myId, Start(peers), actions).d.log;
    RequestInFile(t, log, j);
    RequestInFile(t, log, k);
    LaterRequestElsewhere(t, log, j, k);
  }

  // ---- Together they never exceed the file ----

  function TotalAsked(log: seq<Event>): nat {
    if log == [] then 0
    else TotalAsked(History.Front(log)) + if Last(log).Requested? then Last(log).length else 0
  }

  /** The bytes requested of pieces below `n`. */
  function AskedBelow(log: seq<Event>, n: nat): nat {
    if n == 0 then 0 else AskedBelow(log, n - 1) + Asked(log, n - 1)
  }

  lemma {:induction false} AskedBelowStep(log: seq<Event>, n: nat)
    requires log != []
    ensures var e := Last(log);
            AskedBelow(log, n) ==
            AskedBelow(History.Front(log), n) + if e.Requested? && e.piece < n then e.length else 0
  {
    if n == 0 {
    } else {
      AskedBelowStep(log, n - 1);
    }
  }

  lemma {:induction false} AskedBelowEmpty(n: nat)
    ensures AskedBelow([], n) == 0
  {
    if n == 0 {
    } else {
      AskedBelowEmpty(n - 1);
    }
  }

  lemma {:induction false} TotalIsSumOverPieces(t: Torrent, log: seq<Event>)
    requires Valid(t) && LogOk(t, log)
    ensures TotalAsked(log) == AskedBelow(log, |t.hashes|)
  {
    if log == [] {
      AskedBelowEmpty(|t.hashes|);
    } else {
      TotalIsSumOverPieces(t, History.Front(log));
      AskedBelowStep(log, |t.hashes|);
    }
  }

  lemma {:induction false} AskedBelowBound(t: Torrent, log: seq<Event>, n: nat)
    requires Valid(t) && LogOk(t, log) && n <= |t.hashes|
    ensures n < |t.hashes| ==> AskedBelow(log, n) <= PieceStart(t, n)
    ensures n == |t.hashes| ==> AskedBelow(log, n) <= t.length
    ensures n == |t.hashes| && (forall p: nat :: p < n ==> Asked(log, p) == PieceLen(t, p)) ==>
              AskedBelow(log, n) == t.length
    ensures n < |t.hashes| && (forall p: nat :: p < n ==> Asked(log, p) == PieceLen(t, p)) ==>
              AskedBelow(log, n) == PieceStart(t, n)
  {
    if n == 0 {
    } else {
      AskedBelowBound(t, log, n - 1);
      PieceFacts(t, log, n - 1);
      PieceLenIsCutAtEnd(t, n - 1);
    }
  }

  /** In every run the bytes requested of all peers together are at most the length of the file. */
  lemma TotalAtMostLength(t: Torrent, myId: Buffer, peers: nat, actions: seq<Action>)
    requires Valid(t)
    ensures TotalAsked(RunAll(t, myId, Start(peers), actions).d.log) <= t.length
  {
    EveryRunKeeps(t, myId, peers, actions);
    var log := RunAll(t, myId, Start(peers), actions).d.log;
    TotalIsSumOverPieces(t, log);
    AskedBelowBound(t, log, |t.hashes|);
  }

  // ---- Exact tiling of each piece ----

  /** The requests made for piece `p`, in order, as (begin, length). */
  function Requests(log: seq<Event>, p: nat): seq<(nat, nat)> {
    if log == [] then []
    else
      var init := Requests(History.Front(log), p);
      var e := Last(log);
      if e.Requested? && e.piece == p then init + [(e.begin, e.length)] else init
  }

  /** Consecutive blocks of the full size from 0 to `end`; only a block that ends the piece may be shorter. */
  ghost predicate Tiling(reqs: seq<(nat, nat)>, end: nat, pieceLen: int) {
    && (forall k :: 0 <= k < |reqs| ==>
                      && reqs[k].0 == k * 16384
                      && (k + 1 < |reqs| ==> reqs[k].1 == 16384)
                      && (reqs[k].1 == 16384 || reqs[k].0 + reqs[k].1 == pieceLen))
    && end == if reqs == [] then 0 else reqs[|reqs| - 1].0 + reqs[|reqs| - 1].1
  }

  lemma {:induction false} RequestsTile(t: Torrent, log: seq<Event>, p: nat)
    requires Valid(t) && LogOk(t, log) && p < |t.hashes|
    ensures Tiling(Requests(log, p), Asked(log, p), PieceLen(t, p))
  {
    if log == [] {
    } else {
      RequestsTile(t, History.Front(log), p);
    }
  }

  /** ceil(x / 16384) */
  function Blocks(x: nat): nat { (x + 16384 - 1) / 16384 }

  /** A tiling that covers a whole piece has exactly as many blocks as the piece needs. */
  lemma TilingCount(reqs: seq<(nat, nat)>, pieceLen: nat)
    requires Tiling(reqs, pieceLen, pieceLen) && pieceLen > 0
    requires forall k :: 0 <= k < |reqs| ==> 0 < reqs[k].1 <= 16384
    ensures |reqs| == Blocks(pieceLen)
  {
    var m := |reqs| - 1;
    assert reqs != [];
    assert pieceLen == m * 16384 + reqs[m].1;
  }

  lemma {:induction false} RequestSizes(t: Torrent, log: seq<Event>, p: nat)
    requires Valid(t) && LogOk(t, log)
    ensures forall k :: 0 <= k < |Requests(log, p)| ==> 0 < Requests(log, p)[k].1 <= 16384
  {
    if log == [] {
    } else {
      RequestSizes(t, History.Front(log), p);
    }
  }

  /**
    In every reachable state the requests of a connection's piece cover exactly [0, block_offset), across chokes and
    unchokes, and a piece it was assigned and has released is covered completely, in as many blocks as it needs.
   */
  lemma ExactTilingPerPiece(t: Torrent, myId: Buffer, peers: nat, actions: seq<Action>, i: nat, p: nat)
    requires Valid(t) && p < |t.hashes| && i < peers
    requires Owner(RunAll(t, myId, Start(peers), actions).d.log, p) == i
    ensures var s := RunAll(t, myId, Start(peers), actions);
            var c, reqs := s.conns[i], Requests(s.d.log, p);
            if c.currentPiece == p
            then 0 <= c.blockOffset < PieceLen(t, p) && Tiling(reqs, c.blockOffset, PieceLen(t, p))
            else Tiling(reqs, PieceLen(t, p), PieceLen(t, p)) && |reqs| == Blocks(PieceLen(t, p))
  {
    EveryRunKeeps(t, myId, peers, actions);
    var s := RunAll(t, myId, Start(peers), actions);
    RequestsTile(t, s.d.log, p);
    RequestSizes(t, s.d.log, p);
    PieceInFile(t, p);
    if s.conns[i].currentPiece != p {
      TilingCount(Requests(s.d.log, p), PieceLen(t, p));
    }
  }

  // ---- Conservation of piece indices ----

  predicate Dispenses(e: Event, p: nat) {
    (e.Assigned? || e.Skipped?) && e.piece == p
  }

  lemma {:induction false} NotYetDispensed(t: Torrent, log: seq<Event>, p: nat, j: nat)
    requires Valid(t) && LogOk(t, log) && p >= Dispensed(log) && j < |log|
    ensures !Dispenses(log[j], p)
  {
    if j == |log| - 1 {
    } else {
      NotYetDispensed(t, History.Front(log), p, j);
    }
  }

  lemma {:induction false} DispensedOnce(t: Torrent, log: seq<Event>, p: nat) returns (k: nat)
    requires Valid(t) && LogOk(t, log) && p < Dispensed(log)
    ensures k < |log| && Dispenses(log[k], p)
    ensures forall j :: 0 <= j < |log| && Dispenses(log[j], p) ==> j == k
  {
    var last := |log| - 1;
    if p < Dispensed(History.Front(log)) {
      k := DispensedOnce(t, History.Front(log), p);
    } else {
      k := last;
      forall j | 0 <= j < last && Dispenses(log[j], p) ensures false {
        NotYetDispensed(t, History.Front(log), p, j);
      }
    }
  }

  /**
    Every index the dispenser has given out went, exactly once, to one connection: kept if that peer had announced the
    piece by then, dropped if not; and no index it has not reached was given out.
   */
  lemma ConservationOfPieces(t: Torrent, myId: Buffer, peers: nat, actions: seq<Action>, p: nat)
    requires Valid(t) && p < |t.hashes|
    ensures var s := RunAll(t, myId, Start(peers), actions);
            p < s.d.nextReq <==> exists k: nat :: k < |s.d.log| && Dispenses(s.d.log[k], p)
    ensures var log := RunAll(t, myId, Start(peers), actions).d.log;
            forall j, k :: 0 <= j < |log| && 0 <= k < |log| && Dispenses(log[j], p) && Dispenses(log[k], p) ==> j == k
    ensures var log := RunAll(t, myId, Start(peers), actions).d.log;
            forall k :: 0 <= k < |log| && Dispenses(log[k], p) ==>
                          (log[k].Assigned? <==> Announced(log[..k], log[k].peer, p))
  {
    EveryRunKeeps(t, myId, peers, actions);
    var s := RunAll(t, myId, Start(peers), actions);
    if p < Dispensed(s.d.log) {
      var k := DispensedOnce(t, s.d.log, p);
    } else {
      forall j: nat | j < |s.d.log| ensures !Dispenses(s.d.log[j], p) { NotYetDispensed(t, s.d.log, p, j); }
    }
    forall k | 0 <= k < |s.d.log| && Dispenses(s.d.log[k], p)
      ensures s.d.log[k].Assigned? <==> Announced(s.d.log[..k], s.d.log[k].peer, p)
    {
      OrderAt(t, s.d.log, k);
    }
  }

  // ---- What a connection's fields mean ----

  lemma {:induction false} AnnouncedMeans(log: seq<Event>, q: nat, i: nat)
    ensures Announced(log, q, i) <==>
            exists k, payload ::
              0 <= k < |log| && log[k] == Received(q, Message.BITFIELD, payload) && Marked(payload, i)
  {
    if log == [] {
    } else {
      var init, e := History.Front(log), Last(log);
      AnnouncedMeans(init, q, i);
      if Announced(init, q, i) {
        var k, payload :| 0 <= k < |init| && init[k] == Received(q, Message.BITFIELD, payload) && Marked(payload, i);
        assert log[k] == Received(q, Message.BITFIELD, payload);
      } else if Announced(log, q, i) {
        assert log[|log| - 1] == Received(q, Message.BITFIELD, e.payload);
      }
      if k, payload :| 0 <= k < |log| && log[k] == Received(q, Message.BITFIELD, payload) && Marked(payload, i) {
        if k < |log| - 1 { assert init[k] == Received(q, Message.BITFIELD, payload); }
      }
    }
  }

  /** After any run, HasPiece holds exactly of the pieces some BITFIELD of that peer had marked. */
  lemma BitfieldHistory(t: Torrent, myId: Buffer, peers: nat, actions: seq<Action>, q: nat, i: nat)
    requires Valid(t) && q < peers && i < |t.hashes|
    ensures var s := RunAll(t, myId, Start(peers), actions);
            HasPiece(s.conns[q].pieces, i) <==>
            exists k, payload ::
              0 <= k < |s.d.log| && s.d.log[k] == Received(q, Message.BITFIELD, payload) && Marked(payload, i)
  {
    EveryRunKeeps(t, myId, peers, actions);
    AnnouncedMeans(RunAll(t, myId, Start(peers), actions).d.log, q, i);
  }

  /** What was sent to a peer is exactly its greeting, INTERESTED and its requests, in the order of the log. */
  lemma SentIsLogged(t: Torrent, myId: Buffer, peers: nat, actions: seq<Action>, q: nat)
    requires Valid(t) && q < peers
    ensures var s := RunAll(t, myId, Start(peers), actions); s.conns[q].sent == Sends(s.d.log, q)
    ensures var s := RunAll(t, myId, Start(peers), actions);
            forall k :: 0 <= k < |s.d.log| && s.d.log[k].Requested? ==> Unchoked(s.d.log[..k], s.d.log[k].peer)
  {
    EveryRunKeeps(t, myId, peers, actions);
    var log := RunAll(t, myId, Start(peers), actions).d.log;
    forall k | 0 <= k < |log| && log[k].Requested? ensures Unchoked(log[..k], log[k].peer) {
      OrderAt(t, log, k);
    }
  }

  // ---- Disk safety, from the wire to the jobs ----

  /** Whatever the peers send: every job ever handed to the writer is one complete verified piece in its place. */
  lemma EveryJobIsVerified(t: Torrent, myId: Buffer, peers: nat, actions: seq<Action>)
    requires Valid(t)
    ensures Disk.Verified(t, RunAll(t, myId, Start(peers), actions).d.asm.jobs)
  {
    EveryRunKeeps(t, myId, peers, actions);
    RunKeepsInv(t, START, Deliveries(RunAll(t, myId, Start(peers), actions).d.log));
  }
}
