/** The peer connection object (download/Connection.cpp). */
module Connections {
  import opened Exceptions
  import opened Bytes
  import opened Torrents
  import opened Assembly
  import opened Protocol
  import opened Downloads
  import Message

  class Connection {
    const peer: nat
    const downloader: Downloader
    var link: Link
    var state: Phase
    var choked: bool
    var handshakeDone: bool
    var recvBuffer: Buffer
    var currentPiece: int
    var blockOffset: int
    var peerPieces: seq<bool>
    var sent: seq<Buffer>

    ghost function State(): Conn
      reads this
    {
      Conn(peer, link, state, choked, handshakeDone, recvBuffer, currentPiece, blockOffset, peerPieces, sent)
    }

    ghost function Model(): World
      reads this, downloader, downloader.pieceBuffer, downloader.fileWriter
    {
      World(State(), downloader.Model())
    }

    ghost predicate Ok()
      reads this, downloader, downloader.fileWriter
    {
      downloader.Ok() && Sane(downloader.torrent, State())
    }

    constructor (p: nat, d: Downloader)
      requires d.Ok()
      ensures peer == p && downloader == d && Ok() && Model() == World(NewConn(p), d.Model())
    {
      peer, downloader := p, d;
      link, state, choked, handshakeDone, recvBuffer := Up, Connecting, true, false, [];
      currentPiece, blockOffset, peerPieces, sent := -1, 0, [], [];
    }

    method Send(b: Buffer)
      modifies this`sent
      ensures sent == old(sent) + [b]
    {
      sent := sent + [b];
    }

    method OnReadyWrite()
      requires Ok()
      modifies this`sent, this`state, downloader`log
      ensures Ok() && Model() == Greet(downloader.torrent, downloader.myId, old(Model()))
    {
      if link != Up { return; }
      if state == Connecting {
        var hs := Message.BuildHandshake(downloader.torrent.infoHash, downloader.myId);
        Send(hs);
        downloader.log := downloader.log + [Greeted(peer, hs)];
        state := Handshaking;
      }
    }

    /** The socket is given up, as on an error. */
    method Disconnect()
      requires Ok()
      modifies this`link
      ensures Ok() && Model() == old(Model()).(c := old(Model()).c.(link := Down))
    {
      link := Down;
    }

    /** One byte at a time, bit 7 down to bit 0. */
    method TakeBitfield(payload: Buffer)
      modifies this`peerPieces
      ensures peerPieces == AddBitfield(|downloader.torrent.hashes|, old(peerPieces), payload)
    {
      var n := |downloader.torrent.hashes|;
      peerPieces := if |peerPieces| >= n then peerPieces[..n] else peerPieces + seq(n - |peerPieces|, _ => false);
      ghost var had := peerPieces;
      var i := 0;
      while i < |payload|
        invariant 0 <= i <= |payload| && |peerPieces| == n
        invariant forall k :: 0 <= k < n ==> peerPieces[k] == (had[k] || (k < 8 * i && Marked(payload, k)))
      {
        var b := payload[i];
        var bit := 0;
        while bit < 8
          invariant 0 <= bit <= 8 && |peerPieces| == n
          invariant forall k :: 0 <= k < n ==> peerPieces[k] == (had[k] || (k < 8 * i + bit && Marked(payload, k)))
        {
          assert Marked(payload, 8 * i + bit) == (Shr(b, 7 - bit) % 2 == 1);
          if Shr(b, 7 - bit) % 2 == 1 {
            var pieceIndex := i * 8 + bit;
            if pieceIndex < |peerPieces| {
              peerPieces := peerPieces[pieceIndex := true];
            }
          }
          bit := bit + 1;
        }
        i := i + 1;
      }
    }

    /** Requests the next block of the current piece, and lets go of the piece when all of it is requested. */
    method SendRequest()
      requires Ok() && currentPiece != -1
      modifies this, downloader`log
      ensures Ok()
      ensures Model() == SendBlock(downloader.torrent, old(Model()))
    {
      hide Message.Request;
      PieceInFile(downloader.torrent, currentPiece);
      var pieceLen := downloader.LengthOf(currentPiece);
      if blockOffset < pieceLen {
        var reqLen := 16384;
        if blockOffset + reqLen > pieceLen { reqLen := pieceLen - blockOffset; }
        var request := Message.BuildRequest(currentPiece, blockOffset, reqLen);
        Send(request);
        downloader.log := downloader.log + [Requested(peer, currentPiece, blockOffset, reqLen)];
        blockOffset := blockOffset + reqLen;
      }
      if blockOffset >= pieceLen { currentPiece := -1; }
    }

    /** Asks the downloader for pieces until the peer has one. */
    method FindNextPiece() returns (found: bool)
      requires Ok() && currentPiece == -1
      modifies this, downloader
      ensures Ok() && downloader.pieceBuffer == old(downloader.pieceBuffer)
      ensures var (s, d) := FindPiece(downloader.torrent, peer, old(peerPieces), old(downloader.Model()), 0);
              && found == s.Found?
              && Model() == World(if s.Found? then old(Model()).c.(currentPiece := s.piece, blockOffset := 0)
                                  else old(Model()).c, d)
    {
      var attempts := 0;
      ghost var t, d0 := downloader.torrent, downloader.Model();
      while true
        invariant downloader.Ok() && downloader.pieceBuffer == old(downloader.pieceBuffer)
        invariant Model().c == old(Model()).c && attempts <= |t.hashes|
        invariant FindPiece(t, peer, peerPieces, downloader.Model(), attempts) == FindPiece(t, peer, peerPieces, d0, 0)
        decreases |t.hashes| - attempts
      {
        var candidate := downloader.GetNextPieceToRequest();
        if candidate == -1 { return false; }
        if HasPiece(peerPieces, candidate) {
          PieceInFile(t, candidate);
          downloader.log := downloader.log + [Assigned(peer, candidate)];
          currentPiece := candidate;
          blockOffset := 0;
          return true;
        } else {
          downloader.log := downloader.log + [Skipped(peer, candidate)];
          attempts := attempts + 1;
          if attempts > |downloader.torrent.hashes| { return false; }
        }
      }
    }

    method RequestNextBlock()
      requires Ok()
      modifies this, downloader
      ensures Ok() && downloader.pieceBuffer == old(downloader.pieceBuffer)
      ensures Model() == RequestNext(downloader.torrent, old(Model()))
    {
      if choked { return; }
      if currentPiece == -1 {
        var found := FindNextPiece();
        if !found { return; }
      }
      SendRequest();
    }

    method TakePiece(payload: Buffer)
      requires Ok()
      modifies this, downloader, downloader.pieceBuffer, downloader.fileWriter
      ensures Ok() && (downloader.pieceBuffer == old(downloader.pieceBuffer) || fresh(downloader.pieceBuffer))
      ensures Model() == HandlePiece(downloader.torrent, old(Model()), payload)
    {
      var index, begin := ReadBE32(payload, 0), ReadBE32(payload, 4);
      if index.Throw? || begin.Throw? {
        link := Down;
        return;
      }
      var data := payload[8..];
      ghost var b := BlockOf(payload);
      downloader.log := downloader.log + [Delivered(peer, b)];
      var defined := downloader.OnBlockReceived(ToInt(index.value), ToInt(begin.value), data);
      if !defined {
        link := Undefined;
        return;
      }
      RequestNextBlock();
    }

    /** The switch on the message id; a payload too short for its fields throws, which closes the socket. */
    method HandleMessage(id: byte, payload: Buffer)
      requires Ok()
      modifies this, downloader, downloader.pieceBuffer, downloader.fileWriter
      ensures Ok() && (downloader.pieceBuffer == old(downloader.pieceBuffer) || fresh(downloader.pieceBuffer))
      ensures Model() == Handle(downloader.torrent, old(Model()), id, payload)
    {
      downloader.log := downloader.log + [Received(peer, id, payload)];
      if id == Message.UNCHOKE {
        choked := false;
        RequestNextBlock();
      } else if id == Message.BITFIELD {
        TakeBitfield(payload);
      } else if id == Message.CHOKE {
        choked := true;
      } else if id == Message.PIECE {
        TakePiece(payload);
      }
    }

    /** One turn of the loop: the handshake, a keep-alive or a message is cut off the buffer, if it is complete. */
    method TakeFront() returns (more: bool)
      requires Ok() && link == Up
      modifies this, downloader, downloader.pieceBuffer, downloader.fileWriter
      ensures Ok() && (downloader.pieceBuffer == old(downloader.pieceBuffer) || fresh(downloader.pieceBuffer))
      ensures var turn := Iterate(downloader.torrent, old(Model()));
              more == turn.Next? && Model() == if more then turn.w else old(Model())
    {
      hide Handle, HandlePiece, RequestNext;
      if state == Handshaking {
        if |recvBuffer| < 68 { return false; }
        recvBuffer := recvBuffer[68..];
        handshakeDone := true;
        state := Downloading;
        var interested := Message.BuildInterested();
        Send(interested);
        downloader.log := downloader.log + [Interest(peer)];
        return true;
      }

      if |recvBuffer| < 4 { return false; }
      var len := Message.ReadMessageLength(recvBuffer);
      if len == 0 {
        recvBuffer := recvBuffer[4..];
        return true;
      }
      if 4 + len >= U32 {
        link := Undefined;
        return true;
      }
      if |recvBuffer| < 4 + len { return false; }

      var id := recvBuffer[4];
      var payload := [];
      if len > 1 { payload := recvBuffer[5..4 + len]; }
      assert payload == recvBuffer[5..4 + len];
      recvBuffer := recvBuffer[4 + len..];
      HandleMessage(id, payload);
      return true;
    }

    method ProcessBuffer()
      requires Ok()
      modifies this, downloader, downloader.pieceBuffer, downloader.fileWriter
      ensures Ok() && (downloader.pieceBuffer == old(downloader.pieceBuffer) || fresh(downloader.pieceBuffer))
      ensures Model() == Process(downloader.torrent, old(Model()))
    {
      while link == Up
        invariant Ok() && (downloader.pieceBuffer == old(downloader.pieceBuffer) || fresh(downloader.pieceBuffer))
        invariant Process(downloader.torrent, Model()) == Process(downloader.torrent, old(Model()))
        decreases link == Up, |recvBuffer|
      {
        var more := TakeFront();
        if !more { break; }
      }
    }

    method OnReadyRead(chunk: Buffer)
      requires Ok()
      modifies this, downloader, downloader.pieceBuffer, downloader.fileWriter
      ensures Ok() && (downloader.pieceBuffer == old(downloader.pieceBuffer) || fresh(downloader.pieceBuffer))
      ensures Model() == Receive(downloader.torrent, old(Model()), chunk)
    {
      if link != Up { return; }
      if chunk == [] {
        link := Down;
        return;
      }
      recvBuffer := recvBuffer + chunk;
      ProcessBuffer();
    }
  }
}
