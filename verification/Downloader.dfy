/** The downloader object: piece dispenser and piece assembler (download/downloader.h and .cpp). */
module Downloads {
  import opened Bytes
  import opened Torrents
  import opened Assembly
  import opened Protocol
  import opened Worker

  class Downloader {
    const torrent: Torrent
    const myId: Buffer
    const fileWriter: Writer
    var nextReqIndex: nat
    var downloadedBytes: nat
    var pieceBuffer: array<byte>
    var pieceBytesReceived: nat
    var currentPieceIndex: int

    ghost var log: seq<Event>

    ghost predicate Ok()
      reads this, fileWriter
    {
      Valid(torrent) && fileWriter.Valid()
    }

    ghost function Model(): Shared
      reads this, pieceBuffer, fileWriter
    {
      Shared(nextReqIndex,
             Assembler(currentPieceIndex, pieceBytesReceived, pieceBuffer[..], downloadedBytes, fileWriter.added),
             log)
    }

    constructor (t: Torrent, id: Buffer)
      requires Valid(t)
      ensures Ok() && Model() == IDLE && torrent == t && myId == id
      ensures fresh(fileWriter) && fresh(pieceBuffer)
    {
      torrent, myId := t, id;
      fileWriter := new Writer();
      pieceBuffer := new byte[0];
      nextReqIndex, downloadedBytes, pieceBytesReceived, currentPieceIndex := 0, 0, 0, -1;
      log := [];
    }

    method GetNextPieceToRequest() returns (idx: int)
      requires Ok()
      modifies this`nextReqIndex
      ensures (idx, Model()) == Dispense(torrent, old(Model()))
      ensures Ok()
    {
      idx := nextReqIndex;
      nextReqIndex := nextReqIndex + 1;
      if idx >= |torrent.hashes| { return -1; }
    }

    method IsComplete() returns (b: bool)
      ensures b == Assembly.IsComplete(torrent, Model().asm)
    {
      b := downloadedBytes >= torrent.length;
    }

    /** The length of piece `index` as computed before allocating its buffer. */
    method LengthOf(index: int) returns (len: int)
      requires Valid(torrent)
      ensures len == PieceLen(torrent, index) && len > 0
    {
      len := torrent.pieceLength;
      if index == |torrent.hashes| - 1 {
        var rem := torrent.length % torrent.pieceLength;
        if rem != 0 { len := rem; }
      }
    }

    /** memcpy of a block into the buffer. */
    method CopyIn(offset: nat, data: Buffer)
      requires offset + |data| <= pieceBuffer.Length
      modifies pieceBuffer
      ensures pieceBuffer[..] == Patch(old(pieceBuffer[..]), offset, data)
    {
      var i := 0;
      while i < |data|
        invariant 0 <= i <= |data|
        invariant forall k :: 0 <= k < pieceBuffer.Length ==>
                    pieceBuffer[k] == if offset <= k < offset + i then data[k - offset] else old(pieceBuffer[k])
      {
        pieceBuffer[offset + i] := data[i];
        i := i + 1;
      }
      assert forall k :: 0 <= k < pieceBuffer.Length ==>
                           pieceBuffer[..][k] == Patch(old(pieceBuffer[..]), offset, data)[k];
    }

    /** A block of another piece: a new zeroed buffer. */
    method StartPiece(pieceIndex: int)
      requires Ok() && pieceIndex != currentPieceIndex
      modifies this`currentPieceIndex, this`pieceBytesReceived, this`pieceBuffer
      ensures Ok() && fresh(pieceBuffer)
      ensures Model() == old(Model()).(asm := Begin(torrent, old(Model()).asm, pieceIndex))
    {
      currentPieceIndex := pieceIndex;
      pieceBytesReceived := 0;
      var pieceLen := LengthOf(pieceIndex);
      pieceBuffer := new byte[pieceLen](_ => 0);
      assert pieceBuffer[..] == Zeros(pieceLen);
    }

    /** The integrity check of a full buffer, and the hand-off to the writer. */
    method CheckPiece(pieceIndex: int) returns (defined: bool)
      requires Ok()
      modifies this`pieceBuffer, this`downloadedBytes, fileWriter
      ensures Ok() && (pieceBuffer == old(pieceBuffer) || fresh(pieceBuffer))
      ensures Model() == old(Model()).(asm := Check(torrent, old(Model()).asm, pieceIndex))
      ensures defined == (IsPieceIndex(torrent, pieceIndex) || old(pieceBytesReceived) != old(pieceBuffer.Length))
    {
      if pieceBytesReceived == pieceBuffer.Length {
        var calculated := torrent.digest(pieceBuffer[..]);
        if !(0 <= pieceIndex < |torrent.hashes|) { return false; }
        var expected := torrent.hashes[pieceIndex];
        if calculated == expected {
          var moved := fileWriter.Add(pieceBuffer[..], pieceIndex * torrent.pieceLength);
          pieceBuffer := new byte[|moved|](i requires 0 <= i < |moved| => moved[i]);
          downloadedBytes := downloadedBytes + pieceBuffer.Length;
        }
      }
      return true;
    }

    /** `defined` tells whether the call stays within its memory; if not, it stops where it would leave it. */
    method OnBlockReceived(pieceIndex: int, offset: int, data: Buffer) returns (defined: bool)
      requires Ok()
      modifies this, pieceBuffer, fileWriter
      ensures Ok() && (pieceBuffer == old(pieceBuffer) || fresh(pieceBuffer))
      ensures Model() == old(Model()).(asm := OnBlock(torrent, old(Model()).asm, Block(pieceIndex, offset, data)))
      ensures defined == Defined(torrent, old(Model()).asm, Block(pieceIndex, offset, data))
    {
      if pieceIndex != currentPieceIndex {
        StartPiece(pieceIndex);
      }
      if SizeT(offset + |data|) <= pieceBuffer.Length {
        if offset < 0 || offset + |data| > pieceBuffer.Length { return false; }
        CopyIn(offset, data);
        pieceBytesReceived := pieceBytesReceived + |data|;
      }
      defined := CheckPiece(pieceIndex);
    }
  }
}
