/** The receive loop does not depend on how the byte stream is cut into chunks. */
module Chunking {
  import opened Bytes
  import opened Torrents
  import opened Protocol
  import Message

  function WithBuffer(w: World, recv: Buffer): World {
    w.(c := w.c.(recv := recv))
  }

  function Append(w: World, more: Buffer): World {
    WithBuffer(w, w.c.recv + more)
  }

  // ---- Handling a message neither reads nor writes the buffer ----

  lemma RequestNextIgnoresBuffer(t: Torrent, w: World, recv: Buffer)
    requires Valid(t) && Sane(t, w.c)
    ensures RequestNext(t, WithBuffer(w, recv)) == WithBuffer(RequestNext(t, w), recv)
  {
  }

  lemma HandlePieceIgnoresBuffer(t: Torrent, w: World, payload: Buffer, recv: Buffer)
    requires Valid(t) && Sane(t, w.c)
    ensures HandlePiece(t, WithBuffer(w, recv), payload) == WithBuffer(HandlePiece(t, w, payload), recv)
  {
    if |payload| >= 8 {
      RequestNextIgnoresBuffer(t, w.(d := Deliver(t, w.c.peer, w.d, BlockOf(payload))), recv);
    }
  }

  lemma HandleIgnoresBuffer(t: Torrent, w: World, id: byte, payload: Buffer, recv: Buffer)
    requires Valid(t) && Sane(t, w.c)
    ensures Handle(t, WithBuffer(w, recv), id, payload) == WithBuffer(Handle(t, w, id, payload), recv)
  {
    var w' := w.(d := Note(w.d, Received(w.c.peer, id, payload)));
    RequestNextIgnoresBuffer(t, w'.(c := w'.c.(choked := false)), recv);
    HandlePieceIgnoresBuffer(t, w', payload, recv);
  }

  // ---- More bytes do not change what the bytes before them do ----

  function WithRest(f: Front, more: Buffer): Front {
    match f
    case KeepAlive(rest) => KeepAlive(rest + more)
    case Message(id, payload, rest) => Front.Message(id, payload, rest + more)
    case _ => f
  }

  lemma CutExtends(recv: Buffer, more: Buffer)
    requires !Cut(recv).Incomplete?
    ensures Cut(recv + more) == WithRest(Cut(recv), more)
  {
    var full := recv + more;
    assert full[0..4] == recv[0..4];
    At32Local(full, 0, recv, 0);
    var len := Message.ReadMessageLength(recv);
    if len == 0 {
      assert full[4..] == recv[4..] + more;
    } else if 4 + len < U32 {
      assert full[4 + len..] == recv[4 + len..] + more;
      assert full[5..4 + len] == recv[5..4 + len];
    }
  }

  lemma IterateExtends(t: Torrent, w: World, more: Buffer)
    requires Valid(t) && Sane(t, w.c) && Iterate(t, w).Next?
    ensures Iterate(t, Append(w, more)) == Next(Append(Iterate(t, w).w, more))
  {
    var recv := w.c.recv;
    if w.c.phase == Handshaking {
      assert (recv + more)[HANDSHAKE_SIZE..] == recv[HANDSHAKE_SIZE..] + more;
    } else {
      CutExtends(recv, more);
      match Cut(recv)
      case Message(id, payload, rest) =>
        HandleIgnoresBuffer(t, WithBuffer(w, rest), id, payload, rest + more);
      case _ =>
    }
  }

  /** Processing a + b is processing a, then appending b and processing on, unless a already ended the connection. */
  lemma {:induction false} ProcessExtends(t: Torrent, w: World, more: Buffer)
    requires Valid(t) && Sane(t, w.c)
    ensures var r := Process(t, w);
            Process(t, Append(w, more)) == if r.c.link == Up then Process(t, Append(r, more)) else Append(r, more)
    decreases w.c.link == Up, |w.c.recv|
  {
    if w.c.link != Up || Iterate(t, w).Blocked? {
    } else {
      IterateExtends(t, w, more);
      ProcessExtends(t, Iterate(t, w).w, more);
    }
  }

  lemma {:induction false} ProcessTwice(t: Torrent, w: World)
    requires Valid(t) && Sane(t, w.c)
    ensures Process(t, Process(t, w)) == Process(t, w)
    decreases w.c.link == Up, |w.c.recv|
  {
    if w.c.link != Up || Iterate(t, w).Blocked? {
    } else {
      ProcessTwice(t, Iterate(t, w).w);
    }
  }

  // ---- Whole streams ----

  function Concat(chunks: seq<Buffer>): Buffer {
    if chunks == [] then [] else Concat(chunks[..|chunks| - 1]) + chunks[|chunks| - 1]
  }

  function ReceiveAll(t: Torrent, w: World, chunks: seq<Buffer>): (r: World)
    requires Valid(t) && Sane(t, w.c)
    ensures Sane(t, r.c)
  {
    if chunks == [] then w
    else Receive(t, ReceiveAll(t, w, chunks[..|chunks| - 1]), chunks[|chunks| - 1])
  }

  ghost predicate NonEmpty(chunks: seq<Buffer>) {
    forall k :: 0 <= k < |chunks| ==> chunks[k] != []
  }

  /** The same in every respect, except that a dead connection may hold different bytes it will never look at. */
  predicate Same(w: World, w': World) {
    w == w' || (w.c.link != Up && w == WithBuffer(w', w.c.recv))
  }

  lemma OneMoreChunk(t: Torrent, stream: World, r: World, chunk: Buffer)
    requires Valid(t) && Sane(t, stream.c) && Sane(t, r.c) && chunk != []
    requires Same(r, Process(t, stream)) && Process(t, r) == r
    ensures Same(Receive(t, r, chunk), Process(t, Append(stream, chunk)))
    ensures Process(t, Receive(t, r, chunk)) == Receive(t, r, chunk)
  {
    ProcessExtends(t, stream, chunk);
    if r.c.link == Up {
      assert Receive(t, r, chunk) == Process(t, Append(r, chunk));
      ProcessTwice(t, Append(r, chunk));
    }
  }

  /** Any cut of a stream does what the whole stream does in one piece. */
  lemma {:induction false} ChunksDoWhatTheStreamDoes(t: Torrent, w: World, chunks: seq<Buffer>)
    requires Valid(t) && Sane(t, w.c) && Process(t, w) == w && NonEmpty(chunks)
    ensures Same(ReceiveAll(t, w, chunks), Process(t, Append(w, Concat(chunks))))
    ensures Process(t, ReceiveAll(t, w, chunks)) == ReceiveAll(t, w, chunks)
  {
    hide Process, Receive;
    if chunks == [] {
      assert w.c.recv + [] == w.c.recv;
    } else {
      var last := |chunks| - 1;
      var before, chunk := chunks[..last], chunks[last];
      ChunksDoWhatTheStreamDoes(t, w, before);
      assert Append(Append(w, Concat(before)), chunk) == Append(w, Concat(chunks)) by {
        assert w.c.recv + Concat(before) + chunk == w.c.recv + Concat(chunks);
      }
      OneMoreChunk(t, Append(w, Concat(before)), ReceiveAll(t, w, before), chunk);
    }
  }

  /**
    Two ways of cutting one byte stream: the same messages are handled, the same messages are sent, the downloader gets
    the same calls, and all fields end equal, the leftover bytes too while the connection lives.
   */
  lemma ChunkingIndependence(t: Torrent, w: World, chunks: seq<Buffer>, chunks': seq<Buffer>)
    requires Valid(t) && Sane(t, w.c) && Process(t, w) == w
    requires NonEmpty(chunks) && NonEmpty(chunks') && Concat(chunks) == Concat(chunks')
    ensures Same(ReceiveAll(t, w, chunks), ReceiveAll(t, w, chunks'))
  {
    ChunksDoWhatTheStreamDoes(t, w, chunks);
    ChunksDoWhatTheStreamDoes(t, w, chunks');
  }

  /** The states the previous lemma starts from include every connection that has not received anything yet. */
  lemma FreshConnectionIsBlocked(t: Torrent, c: Conn, d: Shared)
    requires Valid(t) && Sane(t, c) && c.recv == []
    ensures Process(t, World(c, d)) == World(c, d)
  {
  }
}
