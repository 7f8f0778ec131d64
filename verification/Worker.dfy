/** The writer object: its queue, its file, and what its callers and its thread do to them (download/Worker.cpp). */
module Worker {
  import opened Bytes
  import opened Disk

  class Writer {
    var queue: seq<Job>
    var out: File
    var stopFlag: bool

    ghost var added: seq<Job>
    ghost var written: seq<Job>

    ghost predicate Valid()
      reads this
    {
      written + queue == added && out == WriteAll(written)
    }

    constructor ()
      ensures Valid() && added == [] && queue == [] && out == map[] && !stopFlag
    {
      queue, out, stopFlag := [], map[], false;
      added, written := [], [];
    }

    /** The buffer is moved into the queue; `moved` is what the caller's buffer holds afterwards. */
    method Add(b: Buffer, offset: nat) returns (moved: Buffer)
      requires Valid()
      modifies this
      ensures Valid() && moved == []
      ensures added == old(added) + [Job(b, offset)] && queue == old(queue) + [Job(b, offset)]
      ensures written == old(written) && out == old(out) && stopFlag == old(stopFlag)
    {
      queue := queue + [Job(b, offset)];
      added := added + [Job(b, offset)];
      moved := [];
    }

    /** The thread's loop over the queue while nobody else touches it: everything queued is written, in order. */
    method Drain()
      requires Valid()
      modifies this
      ensures Valid() && queue == [] && written == added == old(added) && stopFlag == old(stopFlag)
      ensures out == WriteAll(old(added))
    {
      while queue != []
        invariant Valid() && added == old(added) && stopFlag == old(stopFlag)
        decreases |queue|
      {
        hide Write;
        var j := queue[0];
        queue := queue[1..];
        out := Write(out, j.offset, j.data);
        written := written + [j];
        assert written[..|written| - 1] + [j] == written;
      }
    }
  }
}
