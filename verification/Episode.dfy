/** An assembly episode: what blocks of one piece, whatever they hold, make of the buffer and when they complete it. */
module Episode {
  import opened Bytes
  import opened Torrents
  import opened Disk
  import opened Assembly

  ghost predicate AllOf(blocks: seq<Block>, p: int) {
    forall k :: 0 <= k < |blocks| ==> blocks[k].piece == p
  }

  /** The block lies in a piece of this length. */
  predicate Fits(b: Block, len: int) {
    0 <= b.offset && b.offset + |b.data| <= len
  }

  /** The bytes of the blocks that fit, counted as often as they come. */
  function Got(blocks: seq<Block>, len: int): nat {
    if blocks == [] then 0
    else
      var b := blocks[|blocks| - 1];
      Got(blocks[..|blocks| - 1], len) + if Fits(b, len) then |b.data| else 0
  }

  predicate Covers(b: Block, len: int, x: int) {
    Fits(b, len) && b.offset <= x < b.offset + |b.data|
  }

  /** The byte at `x` is that of the last fitting block that covers it, and 0 if there is none. */
  function ByteAt(blocks: seq<Block>, len: int, x: int): byte {
    if blocks == [] then 0
    else
      var b := blocks[|blocks| - 1];
      if Covers(b, len, x) then b.data[x - b.offset] else ByteAt(blocks[..|blocks| - 1], len, x)
  }

  function Painted(blocks: seq<Block>, len: nat): (b: Buffer)
    ensures |b| == len && forall x :: 0 <= x < len ==> b[x] == ByteAt(blocks, len, x)
  {
    seq(len, x requires 0 <= x < len => ByteAt(blocks, len, x))
  }

  /** The blocks have brought in as many bytes as the piece has, and what they paint has the expected digest. */
  ghost predicate Completes(t: Torrent, p: int, blocks: seq<Block>)
    requires Valid(t)
  {
    PieceLenPositive(t, p);
    && IsPieceIndex(t, p) && Got(blocks, PieceLen(t, p)) == PieceLen(t, p)
    && t.digest(Painted(blocks, PieceLen(t, p))) == t.hashes[p]
  }

  /** No first part of the blocks completes the piece. */
  ghost predicate Unfinished(t: Torrent, p: int, blocks: seq<Block>)
    requires Valid(t)
  {
    forall k :: 0 < k <= |blocks| ==> !Completes(t, p, blocks[..k])
  }

  /** The assembler holds what the blocks have painted. */
  ghost predicate Holding(t: Torrent, a: Assembler, p: int, blocks: seq<Block>, r: Assembler)
    requires Valid(t)
  {
    PieceLenPositive(t, p);
    r == a.(current := p, received := Got(blocks, PieceLen(t, p)), buffer := Painted(blocks, PieceLen(t, p)))
  }

  /** The painted piece has been handed over. */
  ghost predicate HandedOver(t: Torrent, a: Assembler, p: int, blocks: seq<Block>, r: Assembler)
    requires Valid(t)
  {
    PieceLenPositive(t, p);
    && IsPieceIndex(t, p)
    && r == a.(current := p, received := PieceLen(t, p), buffer := [],
               jobs := a.jobs + [Job(Painted(blocks, PieceLen(t, p)), PieceStart(t, p))])
  }

  lemma PaintOne(blocks: seq<Block>, len: nat, b: Block)
    ensures var front := Painted(blocks, len);
            Painted(blocks + [b], len) == if Fits(b, len) then Patch(front, b.offset, b.data) else front
    ensures Got(blocks + [b], len) == Got(blocks, len) + if Fits(b, len) then |b.data| else 0
  {
    assert (blocks + [b])[..|blocks|] == blocks;
  }

  lemma NothingYet(t: Torrent, a: Assembler, p: int)
    requires Valid(t) && a.current != p
    ensures Holding(t, a, p, [], Begin(t, a, p)) && !Completes(t, p, [])
  {
    PieceLenPositive(t, p);
  }

  lemma NotYetComplete(t: Torrent, p: int, blocks: seq<Block>)
    requires Valid(t) && Unfinished(t, p, blocks)
    ensures !Completes(t, p, blocks)
  {
    PieceLenPositive(t, p);
    assert blocks[..|blocks|] == blocks;
  }

  lemma HoldingIsCurrent(t: Torrent, a: Assembler, p: int, blocks: seq<Block>, r: Assembler)
    requires Valid(t) && Holding(t, a, p, blocks, r)
    ensures r.current == p && Begin(t, r, p) == r
  {
  }

  /** One more block: stored if it fits, ignored if not, and then the check. */
  lemma OneMore(t: Torrent, a: Assembler, p: int, blocks: seq<Block>, m: Assembler, b: Block)
    requires Valid(t) && b.piece == p && a.current != p && !Completes(t, p, blocks)
    requires Holding(t, a, p, blocks, Begin(t, m, p))
    ensures var r := OnBlock(t, m, b);
            if Completes(t, p, blocks + [b]) then HandedOver(t, a, p, blocks + [b], r)
            else Holding(t, a, p, blocks + [b], r)
  {
    hide Got, Painted;
    PieceLenPositive(t, p);
    PaintOne(blocks, PieceLen(t, p), b);
  }

  /**
    Blocks of one piece after blocks of another: as long as they do not complete it, every byte of the buffer is that of
    the last fitting block over it or 0, and as many bytes are counted as the fitting blocks have; a block that does not
    fit changes nothing.
   */
  lemma {:induction false} EpisodeHolds(t: Torrent, a: Assembler, blocks: seq<Block>, p: int)
    requires Valid(t) && a.current != p && AllOf(blocks, p) && Unfinished(t, p, blocks)
    ensures Holding(t, a, p, blocks, Begin(t, Run(t, a, blocks), p))
    ensures blocks != [] ==> Run(t, a, blocks).current == p
  {
    hide Completes, Holding, OnBlock;
    if blocks == [] {
      NothingYet(t, a, p);
    } else {
      var last := |blocks| - 1;
      var before, b := blocks[..last], blocks[last];
      assert forall k :: 0 < k <= last ==> before[..k] == blocks[..k];
      EpisodeHolds(t, a, before, p);
      assert blocks == before + [b] && blocks[..|blocks|] == blocks;
      NotYetComplete(t, p, before);
      OneMore(t, a, p, before, Run(t, a, before), b);
      assert Run(t, a, blocks) == OnBlock(t, Run(t, a, before), b);
      HoldingIsCurrent(t, a, p, blocks, Run(t, a, blocks));
    }
  }

  /** The first `k` blocks are the first that complete the piece. */
  ghost predicate CompletesAt(t: Torrent, p: int, blocks: seq<Block>, k: nat)
    requires Valid(t)
  {
    0 < k <= |blocks| && Completes(t, p, blocks[..k]) && Unfinished(t, p, blocks[..k - 1])
  }

  lemma LastCompletes(t: Torrent, a: Assembler, blocks: seq<Block>, p: int)
    requires Valid(t) && a.current != p && AllOf(blocks, p) && CompletesAt(t, p, blocks, |blocks|)
    ensures HandedOver(t, a, p, blocks, Run(t, a, blocks))
  {
    hide Completes, Holding, HandedOver, OnBlock;
    var last := |blocks| - 1;
    var before, b := blocks[..last], blocks[last];
    EpisodeHolds(t, a, before, p);
    if before == [] { NothingYet(t, a, p); } else { NotYetComplete(t, p, before); }
    assert blocks == before + [b] && blocks[..|blocks|] == blocks;
    OneMore(t, a, p, before, Run(t, a, before), b);
  }

  /**
    What an episode amounts to: the piece is handed over exactly once, as painted, by the first block that completes it,
    and afterwards nothing happens; without such a block nothing is handed over and the buffer is as painted.
   */
  lemma EpisodeLaw(t: Torrent, a: Assembler, blocks: seq<Block>, p: int)
    requires Inv(t, a) && a.current != p && AllOf(blocks, p) && blocks != []
    ensures Unfinished(t, p, blocks) ==> Holding(t, a, p, blocks, Run(t, a, blocks))
    ensures forall k: nat :: CompletesAt(t, p, blocks, k) ==>
                          && HandedOver(t, a, p, blocks[..k], Run(t, a, blocks[..k]))
                          && Run(t, a, blocks) == Run(t, a, blocks[..k])
  {
    hide Completes, Holding, OnBlock, Run;
    if Unfinished(t, p, blocks) {
      EpisodeHolds(t, a, blocks, p);
    }
    forall k: nat | CompletesAt(t, p, blocks, k)
      ensures HandedOver(t, a, p, blocks[..k], Run(t, a, blocks[..k]))
      ensures Run(t, a, blocks) == Run(t, a, blocks[..k])
    {
      var first := blocks[..k];
      assert first[..k] == first && first[..k - 1] == blocks[..k - 1];
      LastCompletes(t, a, first, p);
      assert blocks == first + blocks[k..];
      RunConcat(t, a, first, blocks[k..]);
      RunKeepsInv(t, a, first);
      SpentStaysSpent(t, Run(t, a, first), blocks[k..], p);
    }
  }
}
