/** What the download needs of a torrent: its length, how it is cut into pieces, and the expected digests. */
module Torrents {
  import opened Bytes

  type Digest = Buffer

  /** `digest` is the function that verifies a piece; only its being a function matters here. */
  datatype Torrent = Torrent(
    length: nat, pieceLength: nat, hashes: seq<Digest>, infoHash: Buffer, digest: Buffer -> Digest)

  /** There are ceil(length / pieceLength) pieces, and piece indices fit an int. */
  ghost predicate Valid(t: Torrent) {
    && 0 < t.pieceLength < I32
    && |t.hashes| < I32
    && t.length <= |t.hashes| * t.pieceLength
    && (|t.hashes| > 0 ==> (|t.hashes| - 1) * t.pieceLength < t.length)
  }

  /** The length of piece `i`; the last piece is shorter when the length leaves a remainder. */
  function PieceLen(t: Torrent, i: int): (len: int)
    requires t.pieceLength > 0
  {
    if i == |t.hashes| - 1 && t.length % t.pieceLength != 0 then t.length % t.pieceLength else t.pieceLength
  }

  /** An index that is not that of a piece gets the full length. */
  lemma PieceLenElsewhere(t: Torrent, i: int)
    requires Valid(t) && !(0 <= i < |t.hashes|)
    ensures PieceLen(t, i) == t.pieceLength
  {
    if |t.hashes| == 0 {
      assert |t.hashes| * t.pieceLength == 0;
      assert t.length % t.pieceLength == 0;
    }
  }

  lemma MulGap(i: int, j: int, d: nat)
    requires i < j
    ensures i * d + d <= j * d
  {
    assert (j - i - 1) * d >= 0;
  }

  lemma Remainder(x: nat, d: nat, q: nat)
    requires d > 0 && q * d <= x < q * d + d
    ensures x % d == x - q * d
  {
    var q' := x / d;
    assert q' == q by {
      if q' < q { MulGap(q', q, d); }
      if q < q' { MulGap(q, q', d); }
    }
  }

  /** Where piece `i` starts in the file. */
  function PieceStart(t: Torrent, i: nat): nat {
    i * t.pieceLength
  }

  /** A piece is what is left of the file at its start, cut at the piece length. */
  lemma PieceLenIsCutAtEnd(t: Torrent, i: nat)
    requires Valid(t) && i < |t.hashes|
    ensures PieceStart(t, i) < t.length
    ensures var left := t.length - PieceStart(t, i);
            PieceLen(t, i) == if left < t.pieceLength then left else t.pieceLength
    ensures i + 1 == |t.hashes| ==> PieceStart(t, i) + PieceLen(t, i) == t.length
    ensures i + 1 < |t.hashes| ==> PieceStart(t, i) + PieceLen(t, i) == PieceStart(t, i + 1)
  {
    var n, d := |t.hashes|, t.pieceLength;
    assert n * d == (n - 1) * d + d;
    if i < n - 1 {
      MulGap(i, n - 1, d);
    } else if t.length < n * d {
      Remainder(t.length, d, n - 1);
    } else {
      Remainder(t.length, d, n);
    }
  }

  lemma PieceInFile(t: Torrent, i: nat)
    requires Valid(t) && i < |t.hashes|
    ensures 0 < PieceLen(t, i) <= t.pieceLength
    ensures PieceStart(t, i) + PieceLen(t, i) <= t.length
  {
    PieceLenIsCutAtEnd(t, i);
  }

  /** Ranges of different pieces do not meet in the file. */
  lemma PiecesDisjoint(t: Torrent, i: nat, j: nat)
    requires Valid(t) && i < |t.hashes| && j < |t.hashes| && i != j
    ensures PieceStart(t, i) != PieceStart(t, j)
    ensures PieceStart(t, i) < PieceStart(t, j) ==> PieceStart(t, i) + PieceLen(t, i) <= PieceStart(t, j)
    ensures PieceStart(t, j) < PieceStart(t, i) ==> PieceStart(t, j) + PieceLen(t, j) <= PieceStart(t, i)
    ensures i < j <==> PieceStart(t, i) < PieceStart(t, j)
  {
    PieceInFile(t, i);
    PieceInFile(t, j);
    if i < j { MulGap(i, j, t.pieceLength); } else { MulGap(j, i, t.pieceLength); }
  }
}
