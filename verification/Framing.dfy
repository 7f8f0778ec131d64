/** Framing: which messages a byte stream holds, independently of what the connection does with them. */
module Framing {
  import opened Bytes
  import opened Torrents
  import opened Assembly
  import opened Protocol
  import Chunking
  import Message

  datatype Msg = Alive | Msg(id: byte, payload: Buffer)

  /** The largest message whose frame size does not overflow 32 bits. */
  predicate Fits(m: Msg) {
    m.Msg? ==> 5 + |m.payload| < 0x1_0000_0000
  }

  ghost predicate AllFit(ms: seq<Msg>) {
    forall k :: 0 <= k < |ms| ==> Fits(ms[k])
  }

  function Wire(m: Msg): Buffer
    requires Fits(m)
  {
    match m
    case Alive => Message.KeepAlive()
    case Msg(id, payload) => Message.Frame(id, payload)
  }

  ghost function Stream(ms: seq<Msg>): Buffer
    requires AllFit(ms)
  {
    if ms == [] then [] else Wire(ms[0]) + Stream(ms[1..])
  }

  function WithoutAlive(ms: seq<Msg>): seq<Msg> {
    if ms == [] then []
    else (if ms[0].Alive? then [] else [ms[0]]) + WithoutAlive(ms[1..])
  }

  /** The messages at the front of a buffer and the bytes left over. */
  function Parse(recv: Buffer): (r: (seq<Msg>, Buffer))
    decreases |recv|
  {
    match Cut(recv)
    case Incomplete => ([], recv)
    case TooLong => ([], recv)
    case KeepAlive(rest) => Parse(rest)
    case Message(id, payload, rest) => var (ms, left) := Parse(rest); ([Msg(id, payload)] + ms, left)
  }

  lemma CutFrame(m: Msg, rest: Buffer)
    requires Fits(m)
    ensures Cut(Wire(m) + rest) ==
            match m { case Alive => KeepAlive(rest) case Msg(id, payload) => Front.Message(id, payload, rest) }
  {
    match m
    case Alive =>
      assert (Wire(m) + rest)[4..] == rest;
    case Msg(id, payload) =>
      Message.FrameParts(id, payload, rest);
  }

  lemma ParseUnfold(recv: Buffer)
    ensures Cut(recv).KeepAlive? ==> Parse(recv) == Parse(Cut(recv).rest)
    ensures Cut(recv).Message? ==>
              var f := Cut(recv);
              Parse(recv) == ([Msg(f.id, f.payload)] + Parse(f.rest).0, Parse(f.rest).1)
    ensures Cut(recv).Incomplete? || Cut(recv).TooLong? ==> Parse(recv) == ([], recv)
  {
  }

  lemma ParseOne(m: Msg, rest: Buffer)
    requires Fits(m)
    ensures Parse(Wire(m) + rest) == ((if m.Alive? then [] else [m]) + Parse(rest).0, Parse(rest).1)
  {
    CutFrame(m, rest);
    ParseUnfold(Wire(m) + rest);
    assert [] + Parse(rest).0 == Parse(rest).0;
  }

  /** Parsing a list of messages yields the list back without its keep-alives, and nothing is left over. */
  lemma {:induction false} ParseUndoesStream(ms: seq<Msg>)
    requires AllFit(ms)
    ensures Parse(Stream(ms)) == (WithoutAlive(ms), [])
  {
    if ms == [] {
    } else {
      ParseOne(ms[0], Stream(ms[1..]));
      ParseUndoesStream(ms[1..]);
    }
  }

  /** Any bytes after `a` leave the messages of `a` as they are and continue from its leftover. */
  ghost predicate Extends(a: Buffer, b: Buffer) {
    var p := Parse(a);
    var q := Parse(p.1 + b);
    Parse(a + b) == (p.0 + q.0, q.1)
  }

  lemma Regroup(a: seq<Msg>, b: seq<Msg>, c: seq<Msg>)
    ensures (a + b) + c == a + (b + c)
  {
  }

  lemma ExtendsStep(a: Buffer, b: Buffer, f: Front)
    requires f == Cut(a) && (f.KeepAlive? || f.Message?) && Extends(f.rest, b)
    ensures Extends(a, b)
  {
    hide Cut, Parse;
    Chunking.CutExtends(a, b);
    ParseUnfold(a);
    ParseUnfold(a + b);
    if f.Message? {
      var p := Parse(f.rest);
      Regroup([Msg(f.id, f.payload)], p.0, Parse(p.1 + b).0);
    }
  }

  lemma {:induction false} ParseExtends(a: Buffer, b: Buffer)
    requires !Cut(Parse(a).1).TooLong?
    ensures Extends(a, b)
    decreases |a|
  {
    var f := Cut(a);
    ParseUnfold(a);
    if f.Incomplete? {
      assert [] + Parse(a + b).0 == Parse(a + b).0;
    } else {
      ParseExtends(f.rest, b);
      ExtendsStep(a, b, f);
    }
  }

  lemma {:induction false} ParseStops(a: Buffer, b: Buffer)
    requires Cut(Parse(a).1).TooLong?
    ensures Parse(a + b).0 == Parse(a).0
    decreases |a|
  {
    Chunking.CutExtends(a, b);
    if Cut(a).TooLong? {
    } else {
      ParseStops(Cut(a).rest, b);
    }
  }

  /** A prefix of a stream holds a prefix of its messages. */
  lemma PrefixParsesToPrefix(a: Buffer, b: Buffer)
    ensures Parse(a).0 <= Parse(a + b).0
  {
    if Cut(Parse(a).1).TooLong? { ParseStops(a, b); } else { ParseExtends(a, b); }
  }

  /** In particular a list of messages, cut off anywhere, parses to the first of its messages. */
  lemma CutOffStream(ms: seq<Msg>, n: nat)
    requires AllFit(ms) && n <= |Stream(ms)|
    ensures Parse(Stream(ms)[..n]).0 <= WithoutAlive(ms)
  {
    ParseUndoesStream(ms);
    PrefixParsesToPrefix(Stream(ms)[..n], Stream(ms)[n..]);
    assert Stream(ms)[..n] + Stream(ms)[n..] == Stream(ms);
  }

  // ---- The connection handles exactly the messages of its stream ----

  /** The messages that were handled for a peer, in order. */
  function Handled(log: seq<Event>, peer: nat): seq<Msg> {
    if log == [] then []
    else
      var init := Handled(log[..|log| - 1], peer);
      var e := log[|log| - 1];
      if e.Received? && e.peer == peer then init + [Msg(e.id, e.payload)] else init
  }

  lemma {:induction false} FindPieceHandlesNothing(t: Torrent, peer: nat, pieces: seq<bool>, d: Shared, attempts: nat)
    requires attempts <= |t.hashes|
    ensures forall q :: Handled(FindPiece(t, peer, pieces, d, attempts).1.log, q) == Handled(d.log, q)
    ensures FindPiece(t, peer, pieces, d, attempts).1.asm == d.asm
    decreases |t.hashes| - attempts
  {
    var (candidate, d') := Dispense(t, d);
    if candidate == -1 || HasPiece(pieces, candidate) || attempts + 1 > |t.hashes| {
    } else {
      FindPieceHandlesNothing(t, peer, pieces, Note(d', Skipped(peer, candidate)), attempts + 1);
    }
  }

  lemma RequestNextHandlesNothing(t: Torrent, w: World)
    requires Valid(t) && Sane(t, w.c)
    ensures forall q :: Handled(RequestNext(t, w).d.log, q) == Handled(w.d.log, q)
    ensures var r := RequestNext(t, w);
            r.c.link == w.c.link && r.c.peer == w.c.peer && r.c.phase == w.c.phase && r.d.asm == w.d.asm
  {
    FindPieceHandlesNothing(t, w.c.peer, w.c.pieces, w.d, 0);
  }

  /** The assembler after a message has been handled; 7 is the id of PIECE. */
  function Assembled(t: Torrent, a: Assembler, m: Msg): Assembler
    requires Valid(t)
  {
    if m.Msg? && m.id == 7 && |m.payload| >= 8 then OnBlock(t, a, BlockOf(m.payload)) else a
  }

  /** What a message does to the connection that handles it, if it is up; `a` is the assembler before. */
  function Verdict(t: Torrent, a: Assembler, m: Msg): Link
    requires Valid(t)
  {
    if m.Alive? || m.id != 7 then Up
    else if |m.payload| < 8 then Down
    else if Defined(t, a, BlockOf(m.payload)) then Up
    else Undefined
  }

  /** A length of at least 2^32 - 4: its frame size does not fit 32 bits. */
  predicate Overlong(left: Buffer) {
    |left| >= 4 && left[0] == 255 && left[1] == 255 && left[2] == 255 && left[3] >= 252
  }

  lemma OverlongIsTooLong(left: Buffer)
    ensures Cut(left).TooLong? <==> Overlong(left)
  {
  }

  datatype Outcome = Outcome(handled: nat, link: Link, asm: Assembler)

  /** How many of the messages a connection handles, and what becomes of it and of the assembler. */
  function Fate(t: Torrent, a: Assembler, ms: seq<Msg>, left: Buffer): (f: Outcome)
    requires Valid(t)
    ensures f.handled <= |ms| && (f.link == Up ==> f.handled == |ms|)
    decreases |ms|
  {
    if ms == [] then Outcome(0, if Overlong(left) then Undefined else Up, a)
    else if Verdict(t, a, ms[0]) != Up then Outcome(1, Verdict(t, a, ms[0]), Assembled(t, a, ms[0]))
    else
      var f := Fate(t, Assembled(t, a, ms[0]), ms[1..], left);
      f.(handled := f.handled + 1)
  }

  lemma HandlePieceHandlesNothing(t: Torrent, w: World, payload: Buffer)
    requires Valid(t) && Sane(t, w.c) && w.c.link == Up
    ensures var r, m := HandlePiece(t, w, payload), Msg(7, payload);
            && (forall q :: Handled(r.d.log, q) == Handled(w.d.log, q))
            && r.c.peer == w.c.peer && r.c.phase == w.c.phase
            && r.c.link == Verdict(t, w.d.asm, m) && r.d.asm == Assembled(t, w.d.asm, m)
  {
    hide RequestNext, OnBlock, Defined, BlockOf;
    if |payload| >= 8 {
      var w' := w.(d := Deliver(t, w.c.peer, w.d, BlockOf(payload)));
      assert w'.d.log[..|w'.d.log| - 1] == w.d.log;
      RequestNextHandlesNothing(t, w');
    }
  }

  lemma HandleHandlesOne(t: Torrent, w: World, id: byte, payload: Buffer)
    requires Valid(t) && Sane(t, w.c) && w.c.link == Up
    ensures var r, m := Handle(t, w, id, payload), Msg(id, payload);
            && Handled(r.d.log, w.c.peer) == Handled(w.d.log, w.c.peer) + [m]
            && r.c.peer == w.c.peer && r.c.phase == w.c.phase
            && r.c.link == Verdict(t, w.d.asm, m) && r.d.asm == Assembled(t, w.d.asm, m)
  {
    hide RequestNext, HandlePiece, OnBlock, Defined, BlockOf;
    var w' := w.(d := Note(w.d, Received(w.c.peer, id, payload)));
    assert w'.d.log[..|w'.d.log| - 1] == w.d.log;
    assert Handled(w'.d.log, w.c.peer) == Handled(w.d.log, w.c.peer) + [Msg(id, payload)];
    if id == Message.UNCHOKE {
      RequestNextHandlesNothing(t, w'.(c := w'.c.(choked := false)));
    } else if id == Message.PIECE {
      HandlePieceHandlesNothing(t, w', payload);
    }
  }

  /** `r` handled those of the messages it was fated to, and everything became what it was fated to. */
  ghost predicate MeetsFate(t: Torrent, w: World, r: World, ms: seq<Msg>, left: Buffer)
    requires Valid(t)
  {
    var f := Fate(t, w.d.asm, ms, left);
    && Handled(r.d.log, w.c.peer) == Handled(w.d.log, w.c.peer) + ms[..f.handled]
    && r.c.link == f.link && r.d.asm == f.asm
    && (f.link == Up ==> r.c.recv == left)
  }

  lemma HandledOneMore(t: Torrent, w: World, m: World, r: World, msg: Msg, ms: seq<Msg>, left: Buffer)
    requires Valid(t)
    requires Handled(m.d.log, w.c.peer) == Handled(w.d.log, w.c.peer) + [msg] && m.c.peer == w.c.peer
    requires m.d.asm == Assembled(t, w.d.asm, msg)
    requires Verdict(t, w.d.asm, msg) == Up && MeetsFate(t, m, r, ms, left)
    ensures MeetsFate(t, w, r, [msg] + ms, left)
  {
    hide Assembled, Verdict, Handled;
    var k := Fate(t, m.d.asm, ms, left).handled;
    assert ([msg] + ms)[1..] == ms && ([msg] + ms)[..k + 1] == [msg] + ms[..k];
    var h := Handled(w.d.log, w.c.peer);
    assert (h + [msg]) + ms[..k] == h + ([msg] + ms[..k]);
  }

  lemma HandledLast(t: Torrent, w: World, m: World, msg: Msg, ms: seq<Msg>, left: Buffer)
    requires Valid(t)
    requires Handled(m.d.log, w.c.peer) == Handled(w.d.log, w.c.peer) + [msg]
    requires m.c.link == Verdict(t, w.d.asm, msg) != Up && m.d.asm == Assembled(t, w.d.asm, msg)
    ensures MeetsFate(t, w, m, [msg] + ms, left)
  {
    assert ([msg] + ms)[..1] == [msg];
  }

  lemma {:induction false} HandlesFrame(t: Torrent, w: World, f: Front)
    requires Valid(t) && Sane(t, w.c) && w.c.link == Up && w.c.phase == Downloading
    requires f == Cut(w.c.recv) && f.Message?
    ensures MeetsFate(t, w, Process(t, w), Parse(w.c.recv).0, Parse(w.c.recv).1)
    decreases |w.c.recv|, 0
  {
    hide Handle, Verdict, Assembled, Fate, Handled, Cut;
    var w' := w.(c := w.c.(recv := f.rest));
    var m := Handle(t, w', f.id, f.payload);
    var msg := Msg(f.id, f.payload);
    HandleHandlesOne(t, w', f.id, f.payload);
    ParseUnfold(w.c.recv);
    assert Process(t, w) == Process(t, m);
    if m.c.link == Up {
      ProcessHandlesParsed(t, m);
      HandledOneMore(t, w, m, Process(t, m), msg, Parse(f.rest).0, Parse(f.rest).1);
    } else {
      HandledLast(t, w, m, msg, Parse(f.rest).0, Parse(f.rest).1);
    }
  }

  /**
    After the handshake a connection handles the messages of its buffer in order, up to and including the first that
    ends it, and all of them if none does; it ends exactly so, and so does the assembler.
   */
  lemma {:induction false} ProcessHandlesParsed(t: Torrent, w: World)
    requires Valid(t) && Sane(t, w.c) && w.c.link == Up && w.c.phase == Downloading
    ensures MeetsFate(t, w, Process(t, w), Parse(w.c.recv).0, Parse(w.c.recv).1)
    decreases |w.c.recv|
  {
    var f := Cut(w.c.recv);
    ParseUnfold(w.c.recv);
    var h := Handled(w.d.log, w.c.peer);
    OverlongIsTooLong(w.c.recv);
    if f.Incomplete? || f.TooLong? {
      assert h + [] == h;
    } else if f.KeepAlive? {
      ProcessHandlesParsed(t, w.(c := w.c.(recv := f.rest)));
    } else {
      HandlesFrame(t, w, f);
    }
  }

  /**
    The whole life of a connection whose handshake is out: whatever follows the 68 bytes, in whatever chunks, the
    messages of that stream are handled in order until one ends the connection, and its last state is as fated.
   */
  lemma ConnectionHandlesItsStream(t: Torrent, w: World, chunks: seq<Buffer>, hs: Buffer, stream: Buffer)
    requires Valid(t) && Sane(t, w.c) && w.c.link == Up && w.c.phase == Handshaking && w.c.recv == []
    requires |hs| == 68 && Chunking.NonEmpty(chunks) && Chunking.Concat(chunks) == hs + stream
    ensures var r, p := Chunking.ReceiveAll(t, w, chunks), Parse(stream);
            var f := Fate(t, w.d.asm, p.0, p.1);
            && Handled(r.d.log, w.c.peer) == Handled(w.d.log, w.c.peer) + p.0[..f.handled]
            && r.c.link == f.link && r.d.asm == f.asm && (f.link == Up ==> r.c.recv == p.1)
  {
    hide Fate, Parse;
    Chunking.FreshConnectionIsBlocked(t, w.c, w.d);
    Chunking.ChunksDoWhatTheStreamDoes(t, w, chunks);
    var full := Chunking.Append(w, hs + stream);
    assert [] + (hs + stream) == hs + stream && (hs + stream)[HANDSHAKE_SIZE..] == stream;
    var ready := DropHandshake(full);
    assert Iterate(t, full) == Next(ready);
    assert ready.d.log[..|ready.d.log| - 1] == w.d.log;
    ProcessHandlesParsed(t, ready);
  }
}
