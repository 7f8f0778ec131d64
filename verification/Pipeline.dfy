/** From the bytes of the peers to the bytes on disk: the parts put together. */
module Pipeline {
  import opened Bytes
  import opened Torrents
  import opened Disk
  import opened Assembly
  import opened Protocol
  import opened Swarm
  import RequestLaws
  import Delivery
  import Seeder
  import Chunking
  import Framing
  import Sending
  import Threads = WriterThread
  import EventLoop
  import Downloads
  import Connections
  import TorrentFile
  import Bnode
  import History

  /**
    Whatever any number of peers send, however the event loop interleaves them, and however the writer thread is
    scheduled: if the threads add only what the assembler handed over, in that order, the file never holds anything in
    a piece range but one full verified piece, and nothing outside its length.
   */
  lemma DiskSafeInEveryRun(
    t: Torrent, myId: Buffer, peers: nat, actions: seq<Action>, producers: nat, moves: seq<Threads.Move>)
    requires Valid(t) && Threads.CanRun(Threads.Start(producers), moves)
    requires Threads.RunMoves(Threads.Start(producers), moves).added
          <= RunAll(t, myId, Start(peers), actions).d.asm.jobs
    ensures Safe(t, WriteAll(Threads.RunMoves(Threads.Start(producers), moves).written))
  {
    RequestLaws.EveryJobIsVerified(t, myId, peers, actions);
    Threads.DiskSafeUnderAnySchedule(t, RunAll(t, myId, Start(peers), actions).d.asm.jobs, producers, moves);
  }

  // ---- The seeder's file arrives on disk ----

  lemma {:induction false} JobsOnDisk(t: Torrent, file: Buffer, n: nat)
    requires Valid(t) && |file| == t.length && n <= |t.hashes|
    ensures Delivery.EndOf(t, n) <= |file|
    ensures Holds(WriteAll(Delivery.Jobs(t, file, n)), 0, file[..Delivery.EndOf(t, n)])
  {
    Delivery.PieceEnds(t, n);
    if n == 0 {
    } else {
      JobsOnDisk(t, file, n - 1);
      var jobs := Delivery.Jobs(t, file, n);
      assert jobs[..|jobs| - 1] == Delivery.Jobs(t, file, n - 1);
    }
  }

  lemma {:induction false} JobsAreVerified(t: Torrent, file: Buffer, n: nat)
    requires Delivery.Seeds(t, file) && n <= |t.hashes|
    ensures Verified(t, Delivery.Jobs(t, file, n))
  {
    if n == 0 {
    } else {
      JobsAreVerified(t, file, n - 1);
      assert IsPiece(t, Job(Delivery.Content(t, file, n - 1), PieceStart(t, n - 1)), n - 1);
    }
  }

  /** The bytes on disk are the file's, no more and no less. */
  ghost predicate IsFile(disk: File, file: Buffer) {
    Holds(disk, 0, file) && forall x :: x in disk ==> x < |file|
  }

  lemma JobsMakeTheDisk(t: Torrent, file: Buffer)
    requires Delivery.Seeds(t, file)
    ensures IsFile(WriteAll(Delivery.Jobs(t, file, |t.hashes|)), file)
  {
    JobsOnDisk(t, file, |t.hashes|);
    assert file[..t.length] == file;
    JobsAreVerified(t, file, |t.hashes|);
    VerifiedJobsAreSafe(t, Delivery.Jobs(t, file, |t.hashes|));
  }

  /**
    One well-behaved seeder, its stream cut in any way, and a writer thread under any schedule that has been stopped and
    can no longer move: the file on disk is the seeder's file, byte for byte, and nothing more.
   */
  lemma SeederFileReachesDisk(
    t: Torrent, file: Buffer, myId: Buffer, peer: nat, chunks: seq<Buffer>,
    hs: Buffer, ms: seq<Framing.Msg>, bits: Buffer,
    producers: nat, moves: seq<Threads.Move>)
    requires Seeder.FromSeeder(t, file, chunks, hs, ms, bits) && Seeder.FullService(t, ms)
    requires Threads.CanRun(Threads.Start(producers), moves)
    requires var s := Threads.RunMoves(Threads.Start(producers), moves);
             && s.added == Chunking.ReceiveAll(t, Seeder.HandshakeSent(t, myId, peer), chunks).d.asm.jobs
             && s.stop && forall m :: !Threads.Enabled(s, m)
    ensures var s := Threads.RunMoves(Threads.Start(producers), moves);
            s.written == s.added && IsFile(WriteAll(s.written), file)
  {
    Seeder.DeliversTheFile(t, file, myId, peer, chunks, hs, ms, bits);
    Threads.EveryInterleaving(producers, moves);
    Threads.DrainsOnceStopped(Threads.RunMoves(Threads.Start(producers), moves), []);
    JobsMakeTheDisk(t, file);
  }

  // ---- The same of the objects ----

  /** What the event loop sees of a single connection: it can be written to, then the chunks come in. */
  function Events(chunks: seq<Buffer>): seq<Action> {
    [Writable(0)] + seq(|chunks|, k requires 0 <= k < |chunks| => Readable(0, chunks[k]))
  }

  /** The system with one connection goes through the states of that connection. */
  lemma {:induction false} OneConnectionRun(t: Torrent, myId: Buffer, chunks: seq<Buffer>)
    requires Valid(t)
    ensures var r := Chunking.ReceiveAll(t, Seeder.HandshakeSent(t, myId, 0), chunks);
            RunAll(t, myId, Start(1), Events(chunks)) == System([r.c], r.d)
  {
    hide Receive;
    var events := Events(chunks);
    var last := |chunks| - 1;
    if chunks == [] {
      assert events[..0] == [] && RunAll(t, myId, Start(1), []) == Start(1);
      assert Start(1).conns[0 := Seeder.HandshakeSent(t, myId, 0).c] == [Seeder.HandshakeSent(t, myId, 0).c];
    } else {
      OneConnectionRun(t, myId, chunks[..last]);
      assert events[..|events| - 1] == Events(chunks[..last]);
      var before := Chunking.ReceiveAll(t, Seeder.HandshakeSent(t, myId, 0), chunks[..last]);
      var after := Receive(t, before, chunks[last]);
      assert [before.c][0 := after.c] == [after.c];
    }
  }

  /**
    The objects with one well-behaved seeder: the jobs in the writer are the pieces in order, and once its thread has
    emptied the queue the file on disk is the seeder's file.
   */
  method DownloadFromSeeder(
    t: Torrent, myId: Buffer, chunks: seq<Buffer>,
    ghost file: Buffer, ghost hs: Buffer, ghost ms: seq<Framing.Msg>, ghost bits: Buffer)
    returns (d: Downloads.Downloader, conns: seq<Connections.Connection>)
    requires Seeder.FromSeeder(t, file, chunks, hs, ms, bits) && Seeder.FullService(t, ms)
    ensures |conns| == 1 && conns[0].link == Up && conns[0].recvBuffer == []
    ensures Delivery.Asks(d.log) == Delivery.WholePlan(t)
    ensures conns[0].sent == [Sending.HandshakeBytes(t.infoHash, myId), Sending.INTERESTED]
                             + Seeder.AskBytes(Delivery.WholePlan(t))
    ensures d.fileWriter.added == d.fileWriter.written == Delivery.Jobs(t, file, |t.hashes|)
    ensures IsFile(d.fileWriter.out, file)
  {
    hide RunAll, Receive;
    OneConnectionRun(t, myId, chunks);
    Seeder.DeliversTheFile(t, file, myId, 0, chunks, hs, ms, bits);
    JobsMakeTheDisk(t, file);
    d, conns := EventLoop.Download(t, myId, 1, Events(chunks));
    ghost var r := Chunking.ReceiveAll(t, Seeder.HandshakeSent(t, myId, 0), chunks);
    assert EventLoop.SystemOf(conns, d) == System([r.c], r.d);
    assert conns[0].State() == EventLoop.SystemOf(conns, d).conns[0];
    d.fileWriter.Drain();
  }

  // ---- The digests that are compared ----

  /**
    The torrent as the client itself builds it: expected digests are 20 raw bytes cut from the metainfo file, and a
    piece is hashed to 40 hexadecimal digits, as Sha1.Calculate promises.
   */
  ghost predicate AsLoaded(t: Torrent, blob: Buffer) {
    TorrentFile.CutsInto(blob, t.hashes) && forall m :: |t.digest(m)| == 40
  }

  lemma NothingMatches(t: Torrent, blob: Buffer)
    requires Valid(t) && AsLoaded(t, blob)
    ensures forall p: nat, content :: !Matches(t, p, content)
  {
    forall p: nat, content ensures !Matches(t, p, content) {
      if p < |t.hashes| { assert |t.hashes[p]| == 20; }
    }
  }

  /** The two forms never meet: no piece is ever verified, nothing is handed to the writer, no download completes. */
  lemma LoadedTorrentVerifiesNothing(t: Torrent, blob: Buffer, myId: Buffer, peers: nat, actions: seq<Action>)
    requires Valid(t) && AsLoaded(t, blob)
    ensures var asm := RunAll(t, myId, Start(peers), actions).d.asm;
            asm.jobs == [] && (IsComplete(t, asm) <==> t.length == 0)
  {
    EveryRunKeeps(t, myId, peers, actions);
    var blocks := History.Deliveries(RunAll(t, myId, Start(peers), actions).d.log);
    CompleteOnlyIfEmpty(t, blocks);
    NothingMatches(t, blob);
    HandOffPossibleIff(t);
    assert Run(t, START, blocks).jobs == [];
  }

  /** So for every metainfo file that loads and that a download can work on. */
  lemma LoadedFileVerifiesNothing(
    data: Buffer, sha1: Buffer -> Buffer, m: TorrentFile.Metainfo, digest: Buffer -> Buffer,
    myId: Buffer, peers: nat, actions: seq<Action>)
    requires TorrentFile.Loadable(data) && TorrentFile.Describes(data, sha1, m) && 0 <= m.length && 0 <= m.pieceLength
    requires Valid(TorrentFile.TorrentOf(m, digest)) && forall b :: |digest(b)| == 40
    ensures RunAll(TorrentFile.TorrentOf(m, digest), myId, Start(peers), actions).d.asm.jobs == []
  {
    var blob := Bnode.Lookup(TorrentFile.InfoOf(data).entries, TorrentFile.PIECES).value.s;
    assert AsLoaded(TorrentFile.TorrentOf(m, digest), blob);
    LoadedTorrentVerifiesNothing(TorrentFile.TorrentOf(m, digest), blob, myId, peers, actions);
  }
}
