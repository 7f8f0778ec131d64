/**
  The writer thread, its callers and its destructor (download/Worker.cpp), one lock operation, one access or one
  notification at a time.
 */
module WriterThread {
  import opened Torrents
  import opened Disk

  /** `Checking` evaluates the wait predicate, `Looping` is at the condition of the inner loop; both hold the lock. */
  datatype Consumer = Starting | Checking | Asleep | Woken | Looping | Writing | Relocking | Finished

  /** A call of add: lock, push, notify, unlock. */
  datatype Producer = Idle | Entered(job: Job) | Pushed | Notified

  /** The destructor: lock, set the flag, unlock, notify, join. */
  datatype Destructor = Alive | Closing | Flagged | Unlocked | Joining | Joined

  datatype Holder = Free | ByConsumer | ByProducer(i: nat) | ByDestructor

  datatype State = State(
    queue: seq<Job>, inFlight: seq<Job>, written: seq<Job>, added: seq<Job>, stop: bool,
    lock: Holder, consumer: Consumer, producers: seq<Producer>, destructor: Destructor)

  /** Who moves next. `Call` starts an add; `Spurious` is a wake-up nobody asked for. */
  datatype Move = Consume | Spurious | Call(i: nat, job: Job) | Produce(i: nat) | Destroy

  function Start(producers: nat): State {
    State([], [], [], [], false, Free, Starting, seq(producers, _ => Idle), Alive)
  }

  predicate AllIdle(s: State) {
    forall i :: 0 <= i < |s.producers| ==> s.producers[i] == Idle
  }

  predicate Enabled(s: State, m: Move) {
    match m
    case Consume =>
      (match s.consumer
       case Starting | Woken | Relocking => s.lock == Free
       case Checking | Looping | Writing => true
       case Asleep | Finished => false)
    case Spurious => s.consumer == Asleep
    case Call(i, _) => i < |s.producers| && s.producers[i] == Idle && s.lock == Free && s.destructor == Alive
    case Produce(i) => i < |s.producers| && s.producers[i] != Idle
    case Destroy =>
      (match s.destructor
       case Alive => AllIdle(s) && s.lock == Free
       case Closing | Flagged | Unlocked => true
       case Joining => s.consumer == Finished
       case Joined => false)
  }

  function Wake(c: Consumer): Consumer {
    if c == Asleep then Woken else c
  }

  function Apply(s: State, m: Move): State
    requires Enabled(s, m)
  {
    match m
    case Consume =>
      (match s.consumer
       case Starting | Woken => s.(consumer := Checking, lock := ByConsumer)
       case Checking =>
         if s.queue != [] || s.stop then s.(consumer := Looping) else s.(consumer := Asleep, lock := Free)
       case Looping =>
         if s.queue != [] then
           s.(consumer := Writing, inFlight := [s.queue[0]], queue := s.queue[1..], lock := Free)
         else if s.stop then s.(consumer := Finished, lock := Free)
         else s.(consumer := Starting, lock := Free)
       case Writing => s.(consumer := Relocking, written := s.written + s.inFlight, inFlight := [])
       case Relocking => s.(consumer := Looping, lock := ByConsumer)
       case _ => s)
    case Spurious => s.(consumer := Woken)
    case Call(i, job) => s.(producers := s.producers[i := Entered(job)], lock := ByProducer(i))
    case Produce(i) =>
      (match s.producers[i]
       case Entered(job) =>
         s.(producers := s.producers[i := Pushed], queue := s.queue + [job], added := s.added + [job])
       case Pushed => s.(producers := s.producers[i := Notified], consumer := Wake(s.consumer))
       case _ => s.(producers := s.producers[i := Idle], lock := Free))
    case Destroy =>
      (match s.destructor
       case Alive => s.(destructor := Closing, lock := ByDestructor)
       case Closing => s.(destructor := Flagged, stop := true)
       case Flagged => s.(destructor := Unlocked, lock := Free)
       case Unlocked => s.(destructor := Joining, consumer := Wake(s.consumer))
       case _ => s.(destructor := Joined))
  }

  // ---- What every step keeps ----

  /** Somebody has changed the queue or the flag and has yet to notify. */
  predicate OwesNotify(s: State) {
    || s.destructor == Flagged || s.destructor == Unlocked
    || exists i :: 0 <= i < |s.producers| && s.producers[i] == Pushed
  }

  /** Nothing is lost, duplicated or reordered. */
  predicate Conserved(s: State) {
    s.written + s.inFlight + s.queue == s.added && |s.inFlight| == if s.consumer == Writing then 1 else 0
  }

  predicate LockInv(s: State) {
    && (s.lock == ByConsumer <==> s.consumer == Checking || s.consumer == Looping)
    && (forall i :: 0 <= i < |s.producers| ==> (s.lock == ByProducer(i) <==> s.producers[i] != Idle))
    && (s.lock.ByProducer? ==> s.lock.i < |s.producers|)
    && (s.lock == ByDestructor <==> s.destructor == Closing || s.destructor == Flagged)
  }

  predicate StopInv(s: State) {
    && s.stop == (s.destructor != Alive && s.destructor != Closing)
    && (s.destructor != Alive ==> AllIdle(s))
    && (s.consumer == Finished ==> s.queue == [] && s.stop)
    && (s.destructor == Joined ==> s.consumer == Finished)
  }

  /** The consumer sleeps only when it has nothing to do, or when a notification is still due. */
  predicate NoLostWakeup(s: State) {
    s.consumer == Asleep ==> (s.queue == [] && !s.stop) || OwesNotify(s)
  }

  predicate Inv(s: State) {
    Conserved(s) && LockInv(s) && StopInv(s) && NoLostWakeup(s)
  }

  lemma MoveConserves(s: State, m: Move)
    requires Inv(s) && Enabled(s, m)
    ensures Conserved(Apply(s, m))
  {
    if m == Consume && s.consumer == Looping && s.queue != [] {
      assert s.queue == [s.queue[0]] + s.queue[1..];
    }
  }

  lemma MoveKeepsStop(s: State, m: Move)
    requires Inv(s) && Enabled(s, m)
    ensures StopInv(Apply(s, m))
  {
  }

  lemma MoveKeepsWakeup(s: State, m: Move)
    requires Inv(s) && Enabled(s, m)
    ensures NoLostWakeup(Apply(s, m))
  {
    assert forall i :: 0 <= i < |s.producers| && s.producers[i] == Pushed ==> s.lock == ByProducer(i);
    var s' := Apply(s, m);
    if s'.consumer == Asleep && m.Produce? && s.producers[m.i].Entered? {
      assert s'.producers[m.i] == Pushed;
    }
  }

  lemma MoveKeepsInv(s: State, m: Move)
    requires Inv(s) && Enabled(s, m)
    ensures Inv(Apply(s, m))
  {
    MoveConserves(s, m);
    MoveKeepsStop(s, m);
    MoveKeepsWakeup(s, m);
  }

  // ---- Runs ----

  ghost predicate CanRun(s: State, moves: seq<Move>)
    decreases |moves|
  {
    moves == [] || (Enabled(s, moves[0]) && CanRun(Apply(s, moves[0]), moves[1..]))
  }

  ghost function RunMoves(s: State, moves: seq<Move>): State
    requires CanRun(s, moves)
    decreases |moves|
  {
    if moves == [] then s else RunMoves(Apply(s, moves[0]), moves[1..])
  }

  lemma {:induction false} RunKeepsInv(s: State, moves: seq<Move>)
    requires Inv(s) && CanRun(s, moves)
    ensures Inv(RunMoves(s, moves))
    decreases |moves|
  {
    if moves == [] {
    } else {
      MoveKeepsInv(s, moves[0]);
      RunKeepsInv(Apply(s, moves[0]), moves[1..]);
    }
  }

  /**
    In every interleaving of any number of producers, the writer and the destructor: the jobs written, in flight and
    queued are the jobs added, in order; and no wake-up is lost.
   */
  lemma EveryInterleaving(producers: nat, moves: seq<Move>)
    requires CanRun(Start(producers), moves)
    ensures var s := RunMoves(Start(producers), moves);
            && s.written + s.inFlight + s.queue == s.added
            && (s.consumer == Asleep ==> (s.queue == [] && !s.stop) || OwesNotify(s))
            && Inv(s)
  {
    RunKeepsInv(Start(producers), moves);
  }

  // ---- Draining ----

  function ConsumerLeft(s: State): nat {
    3 * |s.queue| +
    match s.consumer
    case Asleep => 4
    case Starting | Woken | Writing => 3
    case Checking | Relocking => 2
    case Looping => 1
    case Finished => 0
  }

  function DestructorLeft(d: Destructor): nat {
    match d
    case Alive => 5
    case Closing => 4
    case Flagged => 3
    case Unlocked => 2
    case Joining => 1
    case Joined => 0
  }

  function Left(s: State): nat { ConsumerLeft(s) + DestructorLeft(s.destructor) }

  /** Once stopped, every step of anyone, even a spurious wake-up, brings the end nearer. */
  lemma StoppedMoveCounts(s: State, m: Move)
    requires Inv(s) && s.stop && Enabled(s, m)
    ensures Left(Apply(s, m)) < Left(s) && Apply(s, m).stop && Apply(s, m).added == s.added
  {
  }

  /** Once stopped, somebody can move until the destructor has joined. */
  lemma StoppedNeverStuck(s: State) returns (m: Move)
    requires Inv(s) && s.stop && s.destructor != Joined
    ensures Enabled(s, m) && m != Spurious
  {
    if Enabled(s, Destroy) { m := Destroy; } else { m := Consume; }
  }

  /** Once stopped, the machine runs for at most `Left` more steps, and when it can no longer move all is written. */
  lemma {:induction false} DrainsOnceStopped(s: State, moves: seq<Move>)
    requires Inv(s) && s.stop && CanRun(s, moves)
    ensures |moves| <= Left(s)
    ensures var r := RunMoves(s, moves);
            (forall m :: !Enabled(r, m)) ==>
              r.destructor == Joined && r.consumer == Finished && r.written == s.added && r.added == s.added
    decreases |moves|
  {
    if moves == [] {
      if forall m :: !Enabled(s, m) {
        if s.destructor != Joined { var m := StoppedNeverStuck(s); }
        assert s.inFlight == [] && s.queue == [];
      }
    } else {
      StoppedMoveCounts(s, moves[0]);
      MoveKeepsInv(s, moves[0]);
      DrainsOnceStopped(Apply(s, moves[0]), moves[1..]);
    }
  }

  /** While no call is in progress and jobs are waiting, the consumer is awake and can move without anyone's help. */
  lemma QuietMeansAwake(s: State)
    requires Inv(s) && AllIdle(s) && s.destructor == Alive && (s.queue != [] || s.inFlight != [])
    ensures Enabled(s, Consume)
    ensures s.consumer != Asleep
  {
    assert !s.lock.ByProducer?;
  }

  /** So between calls the consumer alone writes everything that was added. */
  lemma {:induction false} QuietDrains(s: State) returns (moves: seq<Move>)
    requires Inv(s) && AllIdle(s) && s.destructor == Alive
    ensures CanRun(s, moves) && (forall k :: 0 <= k < |moves| ==> moves[k] == Consume)
    ensures RunMoves(s, moves).written == s.added && |moves| <= ConsumerLeft(s)
    decreases ConsumerLeft(s)
  {
    if s.queue == [] && s.inFlight == [] {
      moves := [];
    } else {
      QuietMeansAwake(s);
      MoveKeepsInv(s, Consume);
      var rest := QuietDrains(Apply(s, Consume));
      moves := [Consume] + rest;
    }
  }

  // ---- Disk safety under any schedule ----

  lemma PrefixVerified(t: Torrent, jobs: seq<Job>, jobs': seq<Job>)
    requires t.pieceLength > 0 && jobs <= jobs' && Verified(t, jobs')
    ensures Verified(t, jobs)
  {
    forall k | 0 <= k < |jobs| ensures IsVerified(t, jobs[k]) { assert jobs[k] == jobs'[k]; }
  }

  /**
    If every job handed over is a verified piece, then in every interleaving the file never holds anything in a piece
    range but one full verified piece, and nothing is written outside the file.
   */
  lemma DiskSafeUnderAnySchedule(t: Torrent, jobs: seq<Job>, producers: nat, moves: seq<Move>)
    requires Valid(t) && Verified(t, jobs) && CanRun(Start(producers), moves)
    requires RunMoves(Start(producers), moves).added <= jobs
    ensures Safe(t, WriteAll(RunMoves(Start(producers), moves).written))
  {
    RunKeepsInv(Start(producers), moves);
    var s := RunMoves(Start(producers), moves);
    assert s.written + (s.inFlight + s.queue) == s.added;
    PrefixVerified(t, s.written, jobs);
    VerifiedJobsAreSafe(t, s.written);
  }
}
