/** Write jobs and the file they are written to. */
module Disk {
  import opened Bytes
  import opened Torrents

  datatype Job = Job(data: Buffer, offset: nat)

  /** A job is one complete, verified piece at its place in the file. */
  ghost predicate IsPiece(t: Torrent, job: Job, i: nat)
    requires t.pieceLength > 0
  {
    && i < |t.hashes|
    && job.offset == PieceStart(t, i)
    && |job.data| == PieceLen(t, i)
    && t.digest(job.data) == t.hashes[i]
  }

  ghost predicate IsVerified(t: Torrent, job: Job)
    requires t.pieceLength > 0
  {
    exists i: nat :: IsPiece(t, job, i)
  }

  ghost predicate Verified(t: Torrent, jobs: seq<Job>)
    requires t.pieceLength > 0
  {
    forall k :: 0 <= k < |jobs| ==> IsVerified(t, jobs[k])
  }

  /** The bytes of a file, by position. */
  type File = map<nat, byte>

  /** seekp and write: the range is overwritten, everything else is kept. */
  function Write(file: File, offset: nat, data: Buffer): (f: File)
    ensures forall x: nat :: x in f <==> x in file || offset <= x < offset + |data|
    ensures forall x: nat :: x in f ==> f[x] == if offset <= x < offset + |data| then data[x - offset] else file[x]
  {
    if data == [] then file
    else
      var last := |data| - 1;
      Write(file, offset, data[..last])[offset + last := data[last]]
  }

  function WriteAll(jobs: seq<Job>): File {
    if jobs == [] then map[]
    else
      var job := jobs[|jobs| - 1];
      Write(WriteAll(jobs[..|jobs| - 1]), job.offset, job.data)
  }

  ghost predicate Untouched(file: File, start: nat, len: int) {
    forall x: nat :: start <= x < start + len ==> x !in file
  }

  ghost predicate Holds(file: File, start: nat, data: Buffer) {
    forall x: nat :: start <= x < start + |data| ==> x in file && file[x] == data[x - start]
  }

  /** Each piece range is untouched or holds one full verified piece. */
  ghost predicate RangeSafe(t: Torrent, file: File, i: nat)
    requires t.pieceLength > 0 && i < |t.hashes|
  {
    || Untouched(file, PieceStart(t, i), PieceLen(t, i))
    || exists data :: |data| == PieceLen(t, i) && t.digest(data) == t.hashes[i] && Holds(file, PieceStart(t, i), data)
  }

  /** Nothing outside the file is written, and every piece range is safe. */
  ghost predicate Safe(t: Torrent, file: File)
    requires t.pieceLength > 0
  {
    && (forall x :: x in file ==> x < t.length)
    && (forall i: nat :: i < |t.hashes| ==> RangeSafe(t, file, i))
  }

  lemma WriteElsewhere(t: Torrent, file: File, job: Job, j: nat, i: nat)
    requires Valid(t) && IsPiece(t, job, j) && i < |t.hashes| && i != j
    requires RangeSafe(t, file, i)
    ensures RangeSafe(t, Write(file, job.offset, job.data), i)
  {
    PiecesDisjoint(t, i, j);
    var start := PieceStart(t, i);
    if !Untouched(file, start, PieceLen(t, i)) {
      var data :| |data| == PieceLen(t, i) && t.digest(data) == t.hashes[i] && Holds(file, start, data);
      assert Holds(Write(file, job.offset, job.data), start, data);
    }
  }

  lemma WriteSafe(t: Torrent, file: File, job: Job)
    requires Valid(t) && Safe(t, file) && IsVerified(t, job)
    ensures Safe(t, Write(file, job.offset, job.data))
  {
    var j: nat :| IsPiece(t, job, j);
    PieceInFile(t, j);
    var f := Write(file, job.offset, job.data);
    forall i: nat | i < |t.hashes| ensures RangeSafe(t, f, i) {
      if i == j {
        assert Holds(f, PieceStart(t, i), job.data);
      } else {
        WriteElsewhere(t, file, job, j, i);
      }
    }
  }

  /** Verified jobs, in any number, order and repetition, leave the file safe. */
  lemma {:induction false} VerifiedJobsAreSafe(t: Torrent, jobs: seq<Job>)
    requires Valid(t) && Verified(t, jobs)
    ensures Safe(t, WriteAll(jobs))
  {
    if jobs == [] {
    } else {
      var last := |jobs| - 1;
      VerifiedJobsAreSafe(t, jobs[..last]);
      WriteSafe(t, WriteAll(jobs[..last]), jobs[last]);
    }
  }

  /** What is on disk of one verified job survives the write of another piece. */
  lemma OtherWriteStays(t: Torrent, file: File, job: Job, other: Job)
    requires Valid(t) && IsVerified(t, job) && IsVerified(t, other) && other.offset != job.offset
    requires Holds(file, job.offset, job.data)
    ensures Holds(Write(file, other.offset, other.data), job.offset, job.data)
  {
    hide PieceStart, PieceLen;
    var i: nat :| IsPiece(t, job, i);
    var j: nat :| IsPiece(t, other, j);
    PiecesDisjoint(t, i, j);
  }

  lemma JustWritten(file: File, job: Job)
    ensures Holds(Write(file, job.offset, job.data), job.offset, job.data)
  {
  }

  /** A piece that is not written again stays on disk byte for byte. */
  lemma {:induction false} LastWriteStays(t: Torrent, jobs: seq<Job>, k: nat)
    requires Valid(t) && Verified(t, jobs) && k < |jobs|
    requires forall l :: k < l < |jobs| ==> jobs[l].offset != jobs[k].offset
    ensures Holds(WriteAll(jobs), jobs[k].offset, jobs[k].data)
  {
    hide Holds, IsVerified;
    var last := |jobs| - 1;
    if k == last {
      JustWritten(WriteAll(jobs[..last]), jobs[last]);
    } else {
      LastWriteStays(t, jobs[..last], k);
      OtherWriteStays(t, WriteAll(jobs[..last]), jobs[k], jobs[last]);
    }
  }
}
