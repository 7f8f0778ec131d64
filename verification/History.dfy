/** What the log says: who owns which piece, how much of it was requested, and when an event is in order. */
module History {
  import opened Bytes
  import opened Torrents
  import opened Assembly
  import opened Protocol
  import Message

  function Front(log: seq<Event>): seq<Event>
    requires log != []
  {
    log[..|log| - 1]
  }

  function Last(log: seq<Event>): Event
    requires log != []
  {
    log[|log| - 1]
  }

  /** How many bytes of piece `p` were requested, by anyone. */
  function Asked(log: seq<Event>, p: nat): nat {
    if log == [] then 0
    else
      var e := Last(log);
      Asked(Front(log), p) + if e.Requested? && e.piece == p then e.length else 0
  }

  /** The connection that piece `p` was assigned to, or -1. */
  function Owner(log: seq<Event>, p: nat): int {
    if log == [] then -1
    else
      var e := Last(log);
      if e.Assigned? && e.piece == p then e.peer else Owner(Front(log), p)
  }

  /** How many pieces the dispenser gave out, kept or not. */
  function Dispensed(log: seq<Event>): nat {
    if log == [] then 0
    else
      var e := Last(log);
      Dispensed(Front(log)) + if e.Assigned? || e.Skipped? then 1 else 0
  }

  /** Whether some BITFIELD of peer `q` had the bit of piece `i` set. */
  predicate Announced(log: seq<Event>, q: nat, i: nat) {
    log != [] && (
      var e := Last(log);
      || (e.Received? && e.peer == q && e.id == Message.BITFIELD && Marked(e.payload, i))
      || Announced(Front(log), q, i))
  }

  /** Whether the last CHOKE or UNCHOKE of peer `q` was an UNCHOKE. */
  predicate Unchoked(log: seq<Event>, q: nat) {
    log != [] && (
      var e := Last(log);
      if e.Received? && e.peer == q && e.id == Message.UNCHOKE then true
      else if e.Received? && e.peer == q && e.id == Message.CHOKE then false
      else Unchoked(Front(log), q))
  }

  /** Everything that was sent to peer `q`, in order. */
  function Sends(log: seq<Event>, q: nat): seq<Buffer> {
    if log == [] then []
    else
      var init := Sends(Front(log), q);
      if Last(log).peer != q then init
      else
        match Last(log)
        case Greeted(_, bytes) => init + [bytes]
        case Interest(_) => init + [Message.Interested()]
        case Requested(_, p, b, l) => if p < U32 && b < U32 && l < U32 then init + [Message.Request(p, b, l)] else init
        case _ => init
  }

  /** The calls of OnBlockReceived, in order. */
  function Deliveries(log: seq<Event>): seq<Block> {
    if log == [] then []
    else
      var init := Deliveries(Front(log));
      if Last(log).Delivered? then init + [Last(log).block] else init
  }

  /**
    When an event is in order after a past.  A piece is dispensed in turn, and kept exactly when its peer announced it.
    A request continues its piece where the requests so far end, is made by the owner while unchoked, has the
    full block size unless it ends the piece, and stays inside the piece.
   */
  ghost predicate InOrder(t: Torrent, past: seq<Event>, e: Event)
    requires Valid(t)
  {
    match e
    case Assigned(q, p) => p == Dispensed(past) < |t.hashes| && Announced(past, q, p)
    case Skipped(q, p) => p == Dispensed(past) < |t.hashes| && !Announced(past, q, p)
    case Requested(q, p, begin, length) =>
      && p < |t.hashes| && Owner(past, p) == q && Unchoked(past, q)
      && begin == Asked(past, p) && 0 < length <= 16384 && begin + length <= PieceLen(t, p)
      && (length == 16384 || begin + length == PieceLen(t, p))
    case _ => true
  }

  ghost predicate LogOk(t: Torrent, log: seq<Event>)
    requires Valid(t)
  {
    log == [] || (LogOk(t, Front(log)) && InOrder(t, Front(log), Last(log)))
  }

  lemma {:induction false} OrderAt(t: Torrent, log: seq<Event>, k: nat)
    requires Valid(t) && LogOk(t, log) && k < |log|
    ensures LogOk(t, log[..k]) && InOrder(t, log[..k], log[k])
  {
    if k == |log| - 1 {
    } else {
      OrderAt(t, Front(log), k);
      assert Front(log)[..k] == log[..k];
    }
  }

  /** A piece not dispensed has no owner; a piece without owner was not requested; nothing is asked beyond a piece. */
  lemma {:induction false} PieceFacts(t: Torrent, log: seq<Event>, p: nat)
    requires Valid(t) && LogOk(t, log)
    ensures Dispensed(log) <= |t.hashes|
    ensures p >= Dispensed(log) ==> Owner(log, p) == -1
    ensures Owner(log, p) == -1 ==> Asked(log, p) == 0
    ensures p < |t.hashes| ==> Asked(log, p) <= PieceLen(t, p)
  {
    if p < |t.hashes| { PieceInFile(t, p); }
    if log == [] {
    } else {
      PieceFacts(t, Front(log), p);
    }
  }

  // ---- One connection's events do not change what the log says of the others ----

  /** What the log says of connection `q`. */
  ghost predicate SameView(log: seq<Event>, log': seq<Event>, q: nat) {
    && (forall p: nat :: Owner(log', p) == q <==> Owner(log, p) == q)
    && (forall p: nat :: Owner(log, p) == q ==> Asked(log', p) == Asked(log, p))
    && (forall i: nat :: Announced(log', q, i) == Announced(log, q, i))
    && Unchoked(log', q) == Unchoked(log, q)
    && Sends(log', q) == Sends(log, q)
  }

  lemma ForeignEvent(t: Torrent, log: seq<Event>, e: Event, q: nat)
    requires Valid(t) && LogOk(t, log + [e]) && e.peer != q
    ensures SameView(log, log + [e], q)
  {
    assert Front(log + [e]) == log;
    if e.Assigned? {
      PieceFacts(t, log, e.piece);
    }
  }

  /** `log'` continues `log` by events of connection `i` only. */
  ghost predicate Grows(log: seq<Event>, log': seq<Event>, i: nat) {
    log <= log' && forall k :: |log| <= k < |log'| ==> log'[k].peer == i
  }

  lemma {:induction false} ForeignEvents(t: Torrent, log: seq<Event>, log': seq<Event>, i: nat, q: nat)
    requires Valid(t) && LogOk(t, log') && Grows(log, log', i) && i != q
    ensures SameView(log, log', q)
  {
    if log == log' {
    } else {
      ForeignEvents(t, log, Front(log'), i, q);
      assert log' == Front(log') + [Last(log')];
      ForeignEvent(t, Front(log'), Last(log'), q);
    }
  }
}
