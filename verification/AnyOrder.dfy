/** Blocks that tile a piece assemble it in whatever order they arrive. */
module AnyOrder {
  import opened Bytes
  import opened Torrents
  import opened Disk
  import opened Assembly
  import opened Episode

  function Total(blocks: seq<Block>): nat {
    if blocks == [] then 0 else Total(blocks[..|blocks| - 1]) + |blocks[|blocks| - 1].data|
  }

  lemma {:induction false} TotalConcat(a: seq<Block>, b: seq<Block>)
    ensures Total(a + b) == Total(a) + Total(b)
  {
    if b == [] {
      assert a + b == a;
    } else {
      assert (a + b)[..|a + b| - 1] == a + b[..|b| - 1];
      TotalConcat(a, b[..|b| - 1]);
    }
  }

  lemma {:induction false} TotalOfPermutation(a: seq<Block>, b: seq<Block>)
    requires multiset(a) == multiset(b)
    ensures Total(a) == Total(b)
  {
    if a == [] {
      assert |multiset(b)| == 0;
    } else {
      var last := |a| - 1;
      var x := a[last];
      assert x in multiset(b);
      var k :| 0 <= k < |b| && b[k] == x;
      assert a == a[..last] + [x];
      assert b == b[..k] + [x] + b[k + 1..];
      assert multiset(a) == multiset(a[..last]) + multiset{x};
      assert multiset(b) == multiset(b[..k] + b[k + 1..]) + multiset{x};
      assert multiset(a[..last]) == multiset(a) - multiset{x};
      assert multiset(b[..k] + b[k + 1..]) == multiset(b) - multiset{x};
      TotalOfPermutation(a[..last], b[..k] + b[k + 1..]);
      TotalConcat(b[..k], b[k + 1..]);
      TotalConcat(b[..k] + [x], b[k + 1..]);
      TotalConcat(b[..k], [x]);
      assert [x][..0] == [];
    }
  }

  /** A non-empty block of piece `p` whose bytes are the content's bytes at its offset. */
  ghost predicate Cuts(b: Block, p: nat, content: Buffer) {
    && b.piece == p && b.data != []
    && 0 <= b.offset && b.offset + |b.data| <= |content|
    && b.data == content[b.offset..b.offset + |b.data|]
  }

  ghost predicate AllCut(blocks: seq<Block>, p: nat, content: Buffer) {
    forall k :: 0 <= k < |blocks| ==> Cuts(blocks[k], p, content)
  }

  /** The blocks, in this order, are consecutive and cover the content from `from` to its end. */
  ghost predicate Tile(blocks: seq<Block>, p: nat, content: Buffer, from: nat) {
    if blocks == [] then from == |content|
    else
      && Cuts(blocks[0], p, content) && blocks[0].offset == from
      && Tile(blocks[1..], p, content, from + |blocks[0].data|)
  }

  ghost predicate Covered(x: nat, blocks: seq<Block>) {
    exists b :: b in blocks && b.offset <= x < b.offset + |b.data|
  }

  lemma {:induction false} TileFacts(blocks: seq<Block>, p: nat, content: Buffer, from: nat)
    requires Tile(blocks, p, content, from)
    ensures AllCut(blocks, p, content)
    ensures from + Total(blocks) == |content|
    ensures forall x :: from <= x < |content| ==> Covered(x, blocks)
  {
    if blocks == [] {
    } else {
      var b := blocks[0];
      TileFacts(blocks[1..], p, content, from + |b.data|);
      assert blocks == [b] + blocks[1..];
      TotalConcat([b], blocks[1..]);
      assert [b][..0] == [];
      forall x | from <= x < |content| ensures Covered(x, blocks) {
        if x < from + |b.data| {
          assert b in blocks;
        } else {
          assert Covered(x, blocks[1..]);
          var c :| c in blocks[1..] && c.offset <= x < c.offset + |c.data|;
          assert c in blocks;
        }
      }
    }
  }

  // ---- The blocks that fit, among others that do not ----

  function Fitting(blocks: seq<Block>, len: int): seq<Block> {
    if blocks == [] then []
    else
      var b := blocks[|blocks| - 1];
      Fitting(blocks[..|blocks| - 1], len) + if Fits(b, len) then [b] else []
  }

  lemma {:induction false} GotIsTotal(blocks: seq<Block>, len: int)
    ensures Got(blocks, len) == Total(Fitting(blocks, len))
  {
    if blocks == [] {
    } else {
      var last := |blocks| - 1;
      var init := Fitting(blocks[..last], len);
      GotIsTotal(blocks[..last], len);
      TotalConcat(init, [blocks[last]]);
      assert [blocks[last]][..0] == [] && init + [] == init;
    }
  }

  lemma {:induction false} FittingIn(blocks: seq<Block>, len: int, b: Block)
    ensures b in Fitting(blocks, len) <==> b in blocks && Fits(b, len)
  {
    if blocks == [] {
    } else {
      var last := |blocks| - 1;
      FittingIn(blocks[..last], len, b);
      assert blocks == blocks[..last] + [blocks[last]];
    }
  }

  /** Where a block that fits is still to come, bytes are missing. */
  lemma {:induction false} PrefixGot(blocks: seq<Block>, len: int, k: nat)
    requires k <= |blocks|
    ensures Got(blocks[..k], len) <= Got(blocks, len)
    ensures (exists j :: k <= j < |blocks| && Fits(blocks[j], len) && blocks[j].data != []) ==>
              Got(blocks[..k], len) < Got(blocks, len)
    ensures (forall j :: k <= j < |blocks| ==> !Fits(blocks[j], len)) ==>
              Got(blocks[..k], len) == Got(blocks, len) && Fitting(blocks[..k], len) == Fitting(blocks, len)
  {
    if k == |blocks| {
      assert blocks[..k] == blocks;
    } else {
      var last := |blocks| - 1;
      PrefixGot(blocks[..last], len, k);
      assert blocks[..last][..k] == blocks[..k];
    }
  }

  /** Covered bytes are those of the content. */
  lemma {:induction false} PaintsContent(blocks: seq<Block>, p: nat, content: Buffer, x: nat)
    requires x < |content| && forall b :: b in blocks && Fits(b, |content|) ==> Cuts(b, p, content)
    requires exists b :: b in blocks && Covers(b, |content|, x)
    ensures ByteAt(blocks, |content|, x) == content[x]
  {
    var last := |blocks| - 1;
    if Covers(blocks[last], |content|, x) {
      assert blocks[last] in blocks;
    } else {
      assert blocks == blocks[..last] + [blocks[last]];
      PaintsContent(blocks[..last], p, content, x);
    }
  }

  lemma FittingAreCuts(blocks: seq<Block>, p: nat, content: Buffer, tiling: seq<Block>)
    requires AllCut(tiling, p, content) && multiset(Fitting(blocks, |content|)) == multiset(tiling)
    ensures forall b :: b in blocks && Fits(b, |content|) ==> Cuts(b, p, content)
  {
    forall b | b in blocks && Fits(b, |content|) ensures Cuts(b, p, content) {
      FittingIn(blocks, |content|, b);
      assert b in multiset(tiling);
    }
  }

  /** Once all fitting blocks are in, the painted buffer is the content. */
  lemma PaintedIsContent(blocks: seq<Block>, p: nat, content: Buffer, tiling: seq<Block>)
    requires Tile(tiling, p, content, 0) && multiset(Fitting(blocks, |content|)) == multiset(tiling)
    ensures Painted(blocks, |content|) == content
  {
    TileFacts(tiling, p, content, 0);
    FittingAreCuts(blocks, p, content, tiling);
    forall x: nat | x < |content| ensures Painted(blocks, |content|)[x] == content[x] {
      assert Covered(x, tiling);
      var c :| c in tiling && c.offset <= x < c.offset + |c.data|;
      assert c in multiset(tiling);
      FittingIn(blocks, |content|, c);
      assert Covers(c, |content|, x);
      PaintsContent(blocks, p, content, x);
    }
  }

  /** A block that fits is still to come after the first `k`. */
  ghost predicate MoreToCome(arrival: seq<Block>, len: int, k: nat) {
    exists j :: k <= j < |arrival| && Fits(arrival[j], len)
  }

  /** The arrival in terms of its first parts: bytes are missing, or the painted buffer is the content. */
  lemma ArrivalFacts(p: nat, content: Buffer, tiling: seq<Block>, arrival: seq<Block>, k: nat)
    requires Tile(tiling, p, content, 0) && multiset(Fitting(arrival, |content|)) == multiset(tiling) && k <= |arrival|
    ensures if MoreToCome(arrival, |content|, k) then Got(arrival[..k], |content|) < |content|
            else Got(arrival[..k], |content|) == |content| && Painted(arrival[..k], |content|) == content
  {
    TileFacts(tiling, p, content, 0);
    FittingAreCuts(arrival, p, content, tiling);
    GotIsTotal(arrival, |content|);
    TotalOfPermutation(Fitting(arrival, |content|), tiling);
    PrefixGot(arrival, |content|, k);
    if !MoreToCome(arrival, |content|, k) {
      PaintedIsContent(arrival[..k], p, content, tiling);
    }
  }

  lemma {:induction false} LastFitting(arrival: seq<Block>, len: int) returns (k: nat)
    requires MoreToCome(arrival, len, 0)
    ensures 0 < k <= |arrival| && !MoreToCome(arrival, len, k)
    ensures forall j: nat :: j < k ==> MoreToCome(arrival, len, j)
  {
    var last := |arrival| - 1;
    if Fits(arrival[last], len) {
      k := |arrival|;
    } else {
      var init := arrival[..last];
      assert MoreToCome(init, len, 0);
      k := LastFitting(init, len);
      forall j: nat | j < k ensures MoreToCome(arrival, len, j) {
        assert MoreToCome(init, len, j);
        var i :| j <= i < |init| && Fits(init[i], len);
        assert Fits(arrival[i], len);
      }
      forall j | k <= j < |arrival| ensures !Fits(arrival[j], len) {
        if j < last { assert Fits(init[j], len) == Fits(arrival[j], len); }
      }
    }
  }

  /** While a fitting block is to come nothing completes the piece; when the last one is in, the content does or not. */
  lemma WhenComplete(t: Torrent, p: nat, content: Buffer, tiling: seq<Block>, arrival: seq<Block>, k: nat)
    requires Valid(t) && p < |t.hashes| && |content| == PieceLen(t, p) && k <= |arrival|
    requires Tile(tiling, p, content, 0) && multiset(Fitting(arrival, |content|)) == multiset(tiling)
    ensures Completes(t, p, arrival[..k]) <==>
            !MoreToCome(arrival, |content|, k) && t.digest(content) == t.hashes[p]
  {
    hide Tile, MoreToCome, Fitting, Got;
    ArrivalFacts(p, content, tiling, arrival, k);
  }

  lemma NonEmptyTiling(t: Torrent, p: nat, content: Buffer, tiling: seq<Block>, arrival: seq<Block>)
    requires Valid(t) && p < |t.hashes| && |content| == PieceLen(t, p)
    requires Tile(tiling, p, content, 0) && multiset(Fitting(arrival, |content|)) == multiset(tiling)
    ensures MoreToCome(arrival, |content|, 0)
  {
    PieceLenPositive(t, p);
    ArrivalFacts(p, content, tiling, arrival, 0);
    assert arrival[..0] == [];
  }

  /** Until the last fitting block nothing is handed over, and bytes are missing. */
  lemma BeforeTheLast(
    t: Torrent, a: Assembler, p: nat, content: Buffer, tiling: seq<Block>, arrival: seq<Block>, k: nat)
    requires Inv(t, a) && p < |t.hashes| && a.current != p && |content| == PieceLen(t, p) && AllOf(arrival, p)
    requires Tile(tiling, p, content, 0) && multiset(Fitting(arrival, |content|)) == multiset(tiling)
    requires 0 < k <= |arrival| && MoreToCome(arrival, |content|, k)
    ensures var m := Run(t, a, arrival[..k]); m.jobs == a.jobs && m.current == p && m.received < |m.buffer|
  {
    hide Tile, Fitting, Got, Completes, Run;
    forall j | 0 < j <= k ensures !Completes(t, p, arrival[..k][..j]) {
      assert arrival[..k][..j] == arrival[..j];
      WhenComplete(t, p, content, tiling, arrival, j);
    }
    EpisodeLaw(t, a, arrival[..k], p);
    ArrivalFacts(p, content, tiling, arrival, k);
  }

  lemma NothingAfter(arrival: seq<Block>, len: int)
    ensures !MoreToCome(arrival, len, |arrival|)
  {
  }

  /** The last fitting block is the first that completes the piece, if anything does. */
  lemma CompletedByTheLast(t: Torrent, p: nat, content: Buffer, tiling: seq<Block>, arrival: seq<Block>)
    returns (last: nat)
    requires Valid(t) && p < |t.hashes| && |content| == PieceLen(t, p)
    requires Tile(tiling, p, content, 0) && multiset(Fitting(arrival, |content|)) == multiset(tiling)
    ensures 0 < last <= |arrival| && !MoreToCome(arrival, |content|, last)
    ensures if t.digest(content) == t.hashes[p] then CompletesAt(t, p, arrival, last) else Unfinished(t, p, arrival)
  {
    hide Tile, Completes, Fitting, MoreToCome;
    NonEmptyTiling(t, p, content, tiling, arrival);
    last := LastFitting(arrival, |content|);
    forall j: nat | 0 < j <= |arrival|
      ensures Completes(t, p, arrival[..j]) <==> !MoreToCome(arrival, |content|, j) && t.digest(content) == t.hashes[p]
    {
      WhenComplete(t, p, content, tiling, arrival, j);
    }
    var before := arrival[..last - 1];
    assert forall j :: 0 < j <= |before| ==> before[..j] == arrival[..j];
  }

  lemma AtTheEnd(t: Torrent, a: Assembler, p: nat, content: Buffer, tiling: seq<Block>, arrival: seq<Block>)
    requires Inv(t, a) && p < |t.hashes| && a.current != p && |content| == PieceLen(t, p) && AllOf(arrival, p)
    requires Tile(tiling, p, content, 0) && multiset(Fitting(arrival, |content|)) == multiset(tiling)
    ensures var r := Run(t, a, arrival);
            if t.digest(content) == t.hashes[p]
            then r == a.(current := p, received := |content|, buffer := [],
                         jobs := a.jobs + [Job(content, PieceStart(t, p))])
            else r == a.(current := p, received := |content|, buffer := content)
  {
    hide Run, Tile, Completes, Fitting, Got, MoreToCome, Unfinished, CompletesAt;
    var last := CompletedByTheLast(t, p, content, tiling, arrival);
    EpisodeLaw(t, a, arrival, p);
    ArrivalFacts(p, content, tiling, arrival, last);
    ArrivalFacts(p, content, tiling, arrival, |arrival|);
    assert arrival[..|arrival|] == arrival;
    NothingAfter(arrival, |content|);
  }

  /**
    Blocks that tile one piece, delivered in any permutation with no other piece in between, but with any number of
    blocks that do not fit the piece among them: no check fires before the last fitting block, the buffer checked then
    is the whole content, and whatever does not fit changes nothing.
   */
  lemma AssemblesInAnyOrder(t: Torrent, a: Assembler, p: nat, content: Buffer, tiling: seq<Block>, arrival: seq<Block>)
    requires Inv(t, a) && p < |t.hashes| && a.current != p && |content| == PieceLen(t, p) && AllOf(arrival, p)
    requires Tile(tiling, p, content, 0) && multiset(Fitting(arrival, |content|)) == multiset(tiling)
    ensures forall k :: 0 <= k < |arrival| && 0 <= arrival[k].offset && arrival[k].offset + |arrival[k].data| < U64 ==>
                          Defined(t, Run(t, a, arrival[..k]), arrival[k])
    ensures forall k: nat :: 0 < k <= |arrival| && MoreToCome(arrival, |content|, k) ==>
                               var m := Run(t, a, arrival[..k]);
                               m.jobs == a.jobs && m.current == p && m.received < |m.buffer|
    ensures var r := Run(t, a, arrival);
            if t.digest(content) == t.hashes[p]
            then r == a.(current := p, received := |content|, buffer := [],
                         jobs := a.jobs + [Job(content, PieceStart(t, p))])
            else r == a.(current := p, received := |content|, buffer := content)
  {
    hide Run, Tile, Completes, Fitting, Defined;
    forall k | 0 <= k < |arrival| && 0 <= arrival[k].offset && arrival[k].offset + |arrival[k].data| < U64
      ensures Defined(t, Run(t, a, arrival[..k]), arrival[k])
    {
      PieceBlocksAreDefined(t, Run(t, a, arrival[..k]), arrival[k]);
    }
    forall k: nat | 0 < k <= |arrival| && MoreToCome(arrival, |content|, k)
      ensures var m := Run(t, a, arrival[..k]); m.jobs == a.jobs && m.current == p && m.received < |m.buffer|
    {
      BeforeTheLast(t, a, p, content, tiling, arrival, k);
    }
    AtTheEnd(t, a, p, content, tiling, arrival);
  }
}
