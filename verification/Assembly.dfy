/** The piece assembler of the downloader, as a function from state to state. */
module Assembly {
  import opened Bytes
  import opened Torrents
  import opened Disk

  /** `jobs` are the jobs handed to the writer so far, in order. */
  datatype Assembler = Assembler(current: int, received: nat, buffer: Buffer, downloaded: nat, jobs: seq<Job>)

  const START := Assembler(-1, 0, [], 0, [])

  /** A block as the peer sent it: any index and any offset that an int can hold. */
  datatype Block = Block(piece: int, offset: int, data: Buffer)

  lemma PieceLenPositive(t: Torrent, piece: int)
    requires t.pieceLength > 0
    ensures 0 < PieceLen(t, piece) <= t.pieceLength
  {
  }

  /** memcpy into the buffer. */
  function Patch(buffer: Buffer, offset: nat, data: Buffer): (b: Buffer)
    requires offset + |data| <= |buffer|
    ensures |b| == |buffer|
  {
    buffer[..offset] + data + buffer[offset + |data|..]
  }

  predicate IsPieceIndex(t: Torrent, piece: int) {
    0 <= piece < |t.hashes|
  }

  /** A block of another piece starts that piece over with a zeroed buffer; any index will do. */
  function Begin(t: Torrent, a: Assembler, piece: int): Assembler
    requires Valid(t)
  {
    if piece != a.current then
      PieceLenPositive(t, piece);
      a.(current := piece, received := 0, buffer := Zeros(PieceLen(t, piece)))
    else a
  }

  /** The range that a block claims lies in the buffer. */
  predicate InBounds(buffer: Buffer, b: Block) {
    0 <= b.offset && b.offset + |b.data| <= |buffer|
  }

  /** The guard before the copy: offset and size are added as unsigned 64-bit numbers. */
  predicate PassesGuard(buffer: Buffer, b: Block) {
    SizeT(b.offset + |b.data|) <= |buffer|
  }

  /** A block that does not fit is dropped. */
  function Store(a: Assembler, b: Block): Assembler {
    if InBounds(a.buffer, b) then
      a.(buffer := Patch(a.buffer, b.offset, b.data), received := a.received + |b.data|)
    else a
  }

  /** A full buffer is hashed; if it matches it is moved to the writer, which leaves an empty buffer behind. */
  function Check(t: Torrent, a: Assembler, piece: int): Assembler
    requires Valid(t)
  {
    if a.received == |a.buffer| && IsPieceIndex(t, piece) && t.digest(a.buffer) == t.hashes[piece] then
      var moved: Buffer := [];
      a.(jobs := a.jobs + [Job(a.buffer, PieceStart(t, piece))], buffer := moved, downloaded := a.downloaded + |moved|)
    else a
  }

  /** The sum in the guard wrapped around, so the copy would leave the buffer. */
  predicate CopyEscapes(buffer: Buffer, b: Block) {
    PassesGuard(buffer, b) && !InBounds(buffer, b)
  }

  /** One call of OnBlockReceived, as far as it is defined. */
  function OnBlock(t: Torrent, a: Assembler, b: Block): Assembler
    requires Valid(t)
  {
    var s := Begin(t, a, b.piece);
    if CopyEscapes(s.buffer, b) then s else Check(t, Store(s, b), b.piece)
  }

  /** The call touches no memory but its own: no copy out of the buffer, and no expected digest of a piece beyond. */
  predicate Defined(t: Torrent, a: Assembler, b: Block)
    requires Valid(t)
  {
    var s := Begin(t, a, b.piece);
    && !CopyEscapes(s.buffer, b)
    && (IsPieceIndex(t, b.piece) || Store(s, b).received != |s.buffer|)
  }

  ghost function Run(t: Torrent, a: Assembler, blocks: seq<Block>): Assembler
    requires Valid(t)
  {
    if blocks == [] then a else OnBlock(t, Run(t, a, blocks[..|blocks| - 1]), blocks[|blocks| - 1])
  }

  lemma RunSnoc(t: Torrent, a: Assembler, blocks: seq<Block>, b: Block)
    requires Valid(t)
    ensures Run(t, a, blocks + [b]) == OnBlock(t, Run(t, a, blocks), b)
  {
    hide OnBlock;
    assert (blocks + [b])[..|blocks|] == blocks;
  }

  lemma {:induction false} RunConcat(t: Torrent, a: Assembler, x: seq<Block>, y: seq<Block>)
    requires Valid(t)
    ensures Run(t, a, x + y) == Run(t, Run(t, a, x), y)
  {
    hide OnBlock;
    if y == [] {
      assert x + y == x;
    } else {
      assert (x + y)[..|x + y| - 1] == x + y[..|y| - 1];
      RunConcat(t, a, x, y[..|y| - 1]);
    }
  }

  /** Every call in a run is defined. */
  ghost predicate AllDefined(t: Torrent, a: Assembler, blocks: seq<Block>)
    requires Valid(t)
  {
    forall k :: 0 <= k < |blocks| ==> Defined(t, Run(t, a, blocks[..k]), blocks[k])
  }

  /** What every block keeps: the buffer has the size of the current piece, or was moved out after filling up. */
  ghost predicate Inv(t: Torrent, a: Assembler) {
    && Valid(t)
    && (|| (a.current == -1 && a.buffer == [] && a.received == 0)
        || |a.buffer| == PieceLen(t, a.current)
        || (IsPieceIndex(t, a.current) && a.buffer == [] && a.received > 0))
    && a.downloaded == 0
    && Verified(t, a.jobs)
  }

  lemma OnBlockKeepsInv(t: Torrent, a: Assembler, b: Block)
    requires Inv(t, a)
    ensures Inv(t, OnBlock(t, a, b))
  {
    PieceLenPositive(t, b.piece);
    var s := Store(Begin(t, a, b.piece), b);
    var r := OnBlock(t, a, b);
    if r.jobs != a.jobs {
      assert IsPiece(t, Job(s.buffer, PieceStart(t, b.piece)), b.piece);
    }
  }

  /** Any sequence of blocks keeps the invariant: every job handed over is a complete verified piece. */
  lemma {:induction false} RunKeepsInv(t: Torrent, a: Assembler, blocks: seq<Block>)
    requires Inv(t, a)
    ensures Inv(t, Run(t, a, blocks))
  {
    if blocks == [] {
    } else {
      var last := |blocks| - 1;
      RunKeepsInv(t, a, blocks[..last]);
      OnBlockKeepsInv(t, Run(t, a, blocks[..last]), blocks[last]);
    }
  }

  // ---- When a call is defined ----

  /**
    In a reachable state, for numbers as they come from the wire, a call is undefined in two cases only: a negative
    offset whose sum with the size falls back into the buffer, and a buffer that is full after the call although its
    index is not that of a piece.
   */
  lemma DefinedIff(t: Torrent, a: Assembler, b: Block)
    requires Inv(t, a) && -I32 <= b.offset < I32 && |b.data| < U32
    ensures var s := Begin(t, a, b.piece);
            Defined(t, a, b) <==>
            if b.offset < 0 then
              !(0 <= b.offset + |b.data| <= |s.buffer|) && (IsPieceIndex(t, b.piece) || s.received != |s.buffer|)
            else
              var stored := if b.offset + |b.data| <= |s.buffer| then |b.data| else 0;
              IsPieceIndex(t, b.piece) || s.received + stored != |s.buffer|
  {
    PieceLenPositive(t, b.piece);
    PieceLenPositive(t, a.current);
  }

  /** Blocks of the torrent's own pieces, at any offset that is not negative, are always safe. */
  lemma PieceBlocksAreDefined(t: Torrent, a: Assembler, b: Block)
    requires Valid(t) && IsPieceIndex(t, b.piece) && 0 <= b.offset && b.offset + |b.data| < U64
    ensures Defined(t, a, b)
  {
  }

  // ---- One hand-off per assembly episode ----

  /** After a hand-off nothing happens until another piece comes in between. */
  lemma {:induction false} SpentStaysSpent(t: Torrent, a: Assembler, blocks: seq<Block>, p: nat)
    requires Inv(t, a) && p < |t.hashes|
    requires forall k :: 0 <= k < |blocks| ==> blocks[k].piece == p
    requires a.current == p && a.buffer == []
    ensures Run(t, a, blocks) == a && a.received > 0
  {
    PieceLenPositive(t, p);
    if blocks == [] {
    } else {
      SpentStaysSpent(t, a, blocks[..|blocks| - 1], p);
    }
  }

  /** Between two changes of the current piece at most one job is handed over, whatever blocks arrive. */
  lemma {:induction false} OneHandOffPerEpisode(t: Torrent, a: Assembler, blocks: seq<Block>, p: int)
    requires Inv(t, a)
    requires forall k :: 0 <= k < |blocks| ==> blocks[k].piece == p
    ensures var r := Run(t, a, blocks);
            || r.jobs == a.jobs
            || (&& IsPieceIndex(t, p) && r.current == p && r.buffer == []
                && exists data :: r.jobs == a.jobs + [Job(data, PieceStart(t, p))])
  {
    PieceLenPositive(t, p);
    if blocks == [] {
    } else {
      var last := |blocks| - 1;
      var init := blocks[..last];
      OneHandOffPerEpisode(t, a, init, p);
      RunKeepsInv(t, a, init);
      var m := Run(t, a, init);
      assert blocks[last].piece == p;
      if m.jobs != a.jobs {
        assert blocks[last..] == [blocks[last]];
        SpentStaysSpent(t, m, blocks[last..], p);
        assert blocks[last..][..0] == [];
      }
    }
  }

  // ---- When anything can be handed over at all ----

  ghost predicate Matches(t: Torrent, p: nat, content: Buffer)
    requires t.pieceLength > 0
  {
    p < |t.hashes| && |content| == PieceLen(t, p) && t.digest(content) == t.hashes[p]
  }

  /**
    Some blocks lead to a job exactly when some content of the right length has an expected digest; then blocks do
    whose calls are all defined.
   */
  lemma HandOffPossibleIff(t: Torrent)
    requires Valid(t)
    ensures (exists blocks :: Run(t, START, blocks).jobs != []) <==> (exists p: nat, content :: Matches(t, p, content))
    ensures (exists p: nat, content :: Matches(t, p, content)) ==>
              exists blocks :: AllDefined(t, START, blocks) && Run(t, START, blocks).jobs != []
  {
    if blocks :| Run(t, START, blocks).jobs != [] {
      RunKeepsInv(t, START, blocks);
      var job := Run(t, START, blocks).jobs[0];
      var i: nat :| IsPiece(t, job, i);
      assert Matches(t, i, job.data);
    }
    if p: nat, content :| Matches(t, p, content) {
      PieceLenPositive(t, p);
      var blocks := [Block(p, 0, content)];
      assert blocks[..0] == [];
      assert Patch(Zeros(PieceLen(t, p)), 0, content) == content;
      assert Run(t, START, blocks).jobs == [Job(content, PieceStart(t, p))];
      PieceBlocksAreDefined(t, START, blocks[0]);
      assert AllDefined(t, START, blocks);
    }
  }

  /** The counter that ends the download: it counts the buffer after the buffer was moved out. */
  predicate IsComplete(t: Torrent, a: Assembler) {
    a.downloaded >= t.length
  }

  /** So no run ever counts as complete, unless there is nothing to download. */
  lemma CompleteOnlyIfEmpty(t: Torrent, blocks: seq<Block>)
    requires Valid(t)
    ensures IsComplete(t, Run(t, START, blocks)) <==> t.length == 0
  {
    RunKeepsInv(t, START, blocks);
  }
}
