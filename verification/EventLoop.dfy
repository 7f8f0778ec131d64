/** Connection objects that share one downloader object, driven by the event loop. */
module EventLoop {
  import opened Bytes
  import opened Torrents
  import opened Protocol
  import opened Swarm
  import opened Downloads
  import opened Connections
  import Disk
  import RequestLaws

  ghost predicate Ready(conns: seq<Connection>, d: Downloader)
    reads conns, d, d.fileWriter
  {
    && d.Ok()
    && (forall i :: 0 <= i < |conns| ==> conns[i].downloader == d && Sane(d.torrent, conns[i].State()))
    && (forall i, j :: 0 <= i < j < |conns| ==> conns[i] != conns[j])
  }

  ghost function SystemOf(conns: seq<Connection>, d: Downloader): System
    reads conns, d, d.pieceBuffer, d.fileWriter
  {
    System(seq(|conns|, i requires 0 <= i < |conns| reads conns => conns[i].State()), d.Model())
  }

  lemma ReadyIsSane(conns: seq<Connection>, d: Downloader)
    requires Ready(conns, d)
    ensures AllSane(d.torrent, SystemOf(conns, d))
  {
  }

  /** One event: the connection concerned changes as the step function says, and no other does. */
  method HandleEvent(conns: seq<Connection>, d: Downloader, a: Action)
    requires Ready(conns, d) && AllSane(d.torrent, SystemOf(conns, d))
    modifies conns, d, d.pieceBuffer, d.fileWriter
    ensures Ready(conns, d) && (d.pieceBuffer == old(d.pieceBuffer) || fresh(d.pieceBuffer))
    ensures SystemOf(conns, d) == Step(d.torrent, d.myId, old(SystemOf(conns, d)), a)
  {
    hide Greet, Receive, Sane;
    if a.i >= |conns| { return; }
    var conn := conns[a.i];
    match a
    case Writable(_) => conn.OnReadyWrite();
    case Readable(_, chunk) => conn.OnReadyRead(chunk);
    case Lost(_) => conn.Disconnect();
    assert SystemOf(conns, d).conns == old(SystemOf(conns, d)).conns[a.i := conn.State()];
  }

  /** The event loop computes the run of the system, event by event. */
  method RunLoop(conns: seq<Connection>, d: Downloader, actions: seq<Action>)
    requires Ready(conns, d) && AllSane(d.torrent, SystemOf(conns, d))
    modifies conns, d, d.pieceBuffer, d.fileWriter
    ensures Ready(conns, d) && (d.pieceBuffer == old(d.pieceBuffer) || fresh(d.pieceBuffer))
    ensures SystemOf(conns, d) == RunAll(d.torrent, d.myId, old(SystemOf(conns, d)), actions)
  {
    hide Step;
    var k := 0;
    while k < |actions|
      invariant k <= |actions| && Ready(conns, d) && (d.pieceBuffer == old(d.pieceBuffer) || fresh(d.pieceBuffer))
      invariant SystemOf(conns, d) == RunAll(d.torrent, d.myId, old(SystemOf(conns, d)), actions[..k])
    {
      ReadyIsSane(conns, d);
      HandleEvent(conns, d, actions[k]);
      assert actions[..k + 1][..k] == actions[..k];
      k := k + 1;
    }
    assert actions[..k] == actions;
  }

  /** Connections to the first five peers at most. */
  method Connect(d: Downloader, peers: nat) returns (conns: seq<Connection>)
    requires d.Ok()
    ensures |conns| == if peers < 5 then peers else 5
    ensures Ready(conns, d) && fresh(conns)
    ensures forall i :: 0 <= i < |conns| ==> conns[i].State() == NewConn(i)
  {
    conns := [];
    var count := 0;
    while count < peers
      invariant 0 <= count == |conns| && count <= peers && count <= 5 && d.Ok()
      invariant forall i :: 0 <= i < |conns| ==>
                  fresh(conns[i]) && conns[i].downloader == d && conns[i].State() == NewConn(i)
      invariant forall i, j :: 0 <= i < j < |conns| ==> conns[i] != conns[j]
    {
      if count >= 5 { break; }
      var c := new Connection(count, d);
      conns := conns + [c];
      count := count + 1;
    }
  }

  /**
    A download with at most five connections: the objects end as the run of the system says, and every job handed to
    the writer is one complete verified piece.
   */
  method Download(t: Torrent, myId: Buffer, peers: nat, actions: seq<Action>)
    returns (d: Downloader, conns: seq<Connection>)
    requires Valid(t)
    ensures |conns| == if peers < 5 then peers else 5
    ensures SystemOf(conns, d) == RunAll(t, myId, Swarm.Start(|conns|), actions)
    ensures d.torrent == t && Disk.Verified(t, d.fileWriter.added)
    ensures Ready(conns, d) && fresh(d.fileWriter)
  {
    hide RunAll, NewConn, Disk.Verified;
    d := new Downloader(t, myId);
    conns := Connect(d, peers);
    assert SystemOf(conns, d) == Swarm.Start(|conns|);
    ReadyIsSane(conns, d);
    RunLoop(conns, d, actions);
    RequestLaws.EveryJobIsVerified(t, myId, |conns|, actions);
  }
}
