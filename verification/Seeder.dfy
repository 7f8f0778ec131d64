/** One peer that serves the whole file, choking and unchoking as it likes: nothing stalls, and the file arrives. */
module Seeder {
  import opened Bytes
  import opened Torrents
  import opened Assembly
  import opened Protocol
  import opened Delivery
  import Framing
  import Chunking
  import History
  import Progress
  import Sending
  import Swarm

  // ---- A seeder that may choke and unchoke at will ----

  /** UNCHOKE prompts a request, and so does PIECE while unchoked; 1 and 7 are their ids. */
  predicate IsPrompt(m: Framing.Msg, choked: bool) {
    m.Msg? && (m.id == 1 || (m.id == 7 && !choked))
  }

  /** CHOKE has the id 0; other messages leave it as it is. */
  predicate ChokedAfter(m: Framing.Msg, choked: bool) {
    if m.Msg? && m.id == 0 then true else if m.Msg? && m.id == 1 then false else choked
  }

  function Prompts(ms: seq<Framing.Msg>, choked: bool): nat {
    if ms == [] then 0
    else (if IsPrompt(ms[0], choked) then 1 else 0) + Prompts(ms[1..], ChokedAfter(ms[0], choked))
  }

  predicate ChokedBy(ms: seq<Framing.Msg>, choked: bool) {
    if ms == [] then choked else ChokedBy(ms[1..], ChokedAfter(ms[0], choked))
  }

  predicate IsAnswer(m: Framing.Msg) { m.Msg? && m.id == 7 }

  function AnswerCount(ms: seq<Framing.Msg>): nat {
    if ms == [] then 0 else (if IsAnswer(ms[0]) then 1 else 0) + AnswerCount(ms[1..])
  }

  /** The PIECE messages are the answers from (p, off) on, in order; any other messages may come among them. */
  ghost predicate Serves(t: Torrent, file: Buffer, ms: seq<Framing.Msg>, p: nat, off: nat)
    requires Place(t, p, off) && |file| == t.length
    decreases |ms|
  {
    if ms == [] then true
    else if IsAnswer(ms[0]) then
      && p < |t.hashes| && ms[0] == Answer(t, file, p, off)
      && Serves(t, file, ms[1..], After(t, p, off).0, After(t, p, off).1)
    else Serves(t, file, ms[1..], p, off)
  }

  /** The seeder answers only what it was asked for. */
  predicate Honest(ms: seq<Framing.Msg>, choked: bool, prompts: nat, answers: nat)
    decreases |ms|
  {
    if ms == [] then true
    else
      && (IsAnswer(ms[0]) ==> answers < prompts)
      && Honest(ms[1..], ChokedAfter(ms[0], choked),
                prompts + (if IsPrompt(ms[0], choked) then 1 else 0), answers + (if IsAnswer(ms[0]) then 1 else 0))
  }

  /** An honest seeder is never ahead, and while it does not choke there is always a block asked for and unanswered. */
  lemma {:induction false} HonestIsBehind(ms: seq<Framing.Msg>, choked: bool, prompts: nat, answers: nat)
    requires Honest(ms, choked, prompts, answers) && answers <= prompts && (!choked ==> answers < prompts)
    ensures answers + AnswerCount(ms) <= prompts + Prompts(ms, choked)
    ensures !ChokedBy(ms, choked) ==> answers + AnswerCount(ms) < prompts + Prompts(ms, choked)
    decreases |ms|
  {
    if ms == [] {
    } else {
      HonestIsBehind(ms[1..], ChokedAfter(ms[0], choked),
                     prompts + (if IsPrompt(ms[0], choked) then 1 else 0),
                     answers + (if IsAnswer(ms[0]) then 1 else 0));
    }
  }

  /** Answered up to (p, off) and asked up to (n, at). */
  ghost predicate Serving(t: Torrent, file: Buffer, w: World, p: nat, off: nat, n: nat, at: nat)
    requires Place(t, p, off) && Place(t, n, at) && |file| == t.length
  {
    AssembledTo(t, file, w.d.asm, p, off) && Asking(t, w.c, w.d, n, at)
  }

  /** What one message does: `r` has answered up to `q`, and asked one block more if it was prompted. */
  ghost predicate Moved(
    t: Torrent, file: Buffer, w: World, r: World, q: (nat, nat), n: nat, at: nat, prompted: bool, choked: bool)
    requires Place(t, q.0, q.1) && Place(t, n, at) && |file| == t.length
  {
    var next := if prompted then AfterAsk(t, n, at) else (n, at);
    && Serving(t, file, r, q.0, q.1, next.0, next.1)
    && Asks(r.d.log) == Asks(w.d.log) + (if prompted then NextAsk(t, n, at) else [])
    && (w.d.nextReq > |t.hashes| || (prompted && n == |t.hashes|) ==> r.d.nextReq > |t.hashes|)
    && r.c.choked == choked && r.c.recv == w.c.recv
  }

  lemma Prompted(t: Torrent, file: Buffer, w: World, p: nat, off: nat, n: nat, at: nat)
    requires Place(t, p, off) && Place(t, n, at) && |file| == t.length
    requires Serving(t, file, w, p, off, n, at) && !w.c.choked
    ensures Moved(t, file, w, RequestNext(t, w), (p, off), n, at, true, false)
  {
    hide AssembledTo;
    if n < |t.hashes| {
      RequestNextAsks(t, w, n, at);
    } else {
      RequestNextStops(t, w);
      assert Asks(w.d.log) + [] == Asks(w.d.log);
    }
  }

  lemma ChokedStays(t: Torrent, w: World)
    requires Valid(t) && Sane(t, w.c) && w.c.choked
    ensures RequestNext(t, w) == w
  {
  }

  lemma AnswerMoves(t: Torrent, file: Buffer, w: World, m: Framing.Msg, p: nat, off: nat, n: nat, at: nat)
    returns (r: World)
    requires Seeds(t, file) && Place(t, p, off) && Place(t, n, at) && Serving(t, file, w, p, off, n, at)
    requires p < |t.hashes| && m == Answer(t, file, p, off)
    ensures r == Handle(t, w, m.id, m.payload)
    ensures Moved(t, file, w, r, After(t, p, off), n, at, !w.c.choked, w.c.choked)
  {
    hide Handle, RequestNext, OnBlock, AssembledTo;
    var stored, q := Stored(t, file, w, p, off), After(t, p, off);
    HandleAnswer(t, file, w, p, off);
    BlockAdvances(t, file, w.d.asm, p, off);
    r := RequestNext(t, stored);
    assert Serving(t, file, stored, q.0, q.1, n, at);
    if w.c.choked {
      ChokedStays(t, stored);
      assert Asks(w.d.log) + [] == Asks(w.d.log);
    } else {
      Prompted(t, file, stored, q.0, q.1, n, at);
    }
  }

  lemma UnchokeMoves(t: Torrent, file: Buffer, w: World, payload: Buffer, p: nat, off: nat, n: nat, at: nat)
    returns (r: World)
    requires Place(t, p, off) && Place(t, n, at) && |file| == t.length && Serving(t, file, w, p, off, n, at)
    ensures r == Handle(t, w, 1, payload)
    ensures Moved(t, file, w, r, (p, off), n, at, true, false)
  {
    hide RequestNext, AssembledTo;
    var d' := Note(w.d, Received(w.c.peer, 1, payload));
    assert History.Front(d'.log) == w.d.log;
    var w' := World(w.c.(choked := false), d');
    r := RequestNext(t, w');
    Prompted(t, file, w', p, off, n, at);
  }

  lemma OtherMoves(t: Torrent, file: Buffer, w: World, m: Framing.Msg, p: nat, off: nat, n: nat, at: nat)
    returns (r: World)
    requires Place(t, p, off) && Place(t, n, at) && |file| == t.length && Serving(t, file, w, p, off, n, at)
    requires m.Msg? && m.id != 1 && m.id != 7
    ensures r == Handle(t, w, m.id, m.payload)
    ensures Moved(t, file, w, r, (p, off), n, at, false, m.id == 0 || w.c.choked)
  {
    hide AssembledTo, RequestNext;
    r := Handle(t, w, m.id, m.payload);
    assert History.Front(r.d.log) == w.d.log;
    assert Asks(w.d.log) + [] == Asks(w.d.log);
  }

  // ---- Whole streams ----

  lemma ProcessOne(t: Torrent, w: World, m: Framing.Msg, rest: Buffer)
    requires Valid(t) && Sane(t, w.c) && w.c.link == Up && w.c.phase == Downloading && Framing.Fits(m)
    requires w.c.recv == Framing.Wire(m) + rest
    ensures var w' := w.(c := w.c.(recv := rest));
            Process(t, w) == Process(t, if m.Alive? then w' else Handle(t, w', m.id, m.payload))
  {
    Framing.CutFrame(m, rest);
  }

  /** How far a stream of messages has brought the connection. */
  datatype Reach = Reach(p: nat, off: nat, n: nat, at: nat)

  function Less(a: nat, b: nat): nat { if a < b then 0 else a - b }

  /**
    After `ms` the answers up to (p, off) are assembled and the blocks up to (n, at) asked for: one for each prompt, as
    long as the plan lasts.
   */
  ghost predicate Reached(
    t: Torrent, file: Buffer, w: World, r: World, ms: seq<Framing.Msg>, from: Reach, to: Reach)
    requires Place(t, from.p, from.off) && Place(t, from.n, from.at) && |file| == t.length
  {
    && Place(t, to.p, to.off) && Place(t, to.n, to.at)
    && Serving(t, file, r, to.p, to.off, to.n, to.at) && r.c.recv == []
    && r.c.choked == ChokedBy(ms, w.c.choked)
    && |Plan(t, to.p, to.off)| + AnswerCount(ms) == |Plan(t, from.p, from.off)|
    && Asks(r.d.log) + Plan(t, to.n, to.at) == Asks(w.d.log) + Plan(t, from.n, from.at)
    && |Plan(t, to.n, to.at)| == Less(|Plan(t, from.n, from.at)|, Prompts(ms, w.c.choked))
    && (w.d.nextReq > |t.hashes| || Prompts(ms, w.c.choked) > |Plan(t, from.n, from.at)| ==> r.d.nextReq > |t.hashes|)
  }

  lemma PlanUnfolds(t: Torrent, n: nat, at: nat)
    requires Place(t, n, at)
    ensures var q := AfterAsk(t, n, at); Plan(t, n, at) == NextAsk(t, n, at) + Plan(t, q.0, q.1)
    ensures n == |t.hashes| <==> Plan(t, n, at) == []
  {
  }

  lemma NextAskLength(t: Torrent, n: nat, at: nat)
    requires Place(t, n, at)
    ensures |NextAsk(t, n, at)| == if n == |t.hashes| then 0 else 1
  {
  }

  lemma AnswerUnfolds(t: Torrent, p: nat, off: nat)
    requires Place(t, p, off) && p < |t.hashes|
    ensures |Plan(t, p, off)| == 1 + |Plan(t, After(t, p, off).0, After(t, p, off).1)|
  {
  }

  lemma ReachedOneMore(
    t: Torrent, file: Buffer, w: World, h: World, r: World, m: Framing.Msg, ms: seq<Framing.Msg>,
    from: Reach, mid: Reach, to: Reach)
    requires Place(t, from.p, from.off) && Place(t, from.n, from.at) && |file| == t.length
    requires Place(t, mid.p, mid.off) && Place(t, mid.n, mid.at)
    requires Reached(t, file, h, r, ms, mid, to)
    requires if IsAnswer(m) then from.p < |t.hashes| && (mid.p, mid.off) == After(t, from.p, from.off)
             else (mid.p, mid.off) == (from.p, from.off)
    requires (mid.n, mid.at) == if IsPrompt(m, w.c.choked) then AfterAsk(t, from.n, from.at) else (from.n, from.at)
    requires Moved(t, file, w, h, (mid.p, mid.off), from.n, from.at,
                   IsPrompt(m, w.c.choked), ChokedAfter(m, w.c.choked))
    ensures Reached(t, file, w, r, [m] + ms, from, to)
  {
    hide Plan, Asks, Serving, NextAsk, AfterAsk, After, IsPrompt, IsAnswer, ChokedAfter;
    assert ([m] + ms)[1..] == ms;
    PlanUnfolds(t, from.n, from.at);
    PlanUnfolds(t, from.p, from.off);
    if IsAnswer(m) { AnswerUnfolds(t, from.p, from.off); }
    var more := if IsPrompt(m, w.c.choked) then NextAsk(t, from.n, from.at) else [];
    assert Asks(w.d.log) + more + Plan(t, mid.n, mid.at) == Asks(w.d.log) + (more + Plan(t, mid.n, mid.at));
    assert [] + Plan(t, mid.n, mid.at) == Plan(t, mid.n, mid.at);
    NextAskLength(t, from.n, from.at);
  }

  lemma MessageMoves(t: Torrent, file: Buffer, w: World, m: Framing.Msg, from: Reach) returns (r: World, mid: Reach)
    requires Seeds(t, file) && Place(t, from.p, from.off) && Place(t, from.n, from.at) && m.Msg?
    requires Serving(t, file, w, from.p, from.off, from.n, from.at)
    requires IsAnswer(m) ==> from.p < |t.hashes| && m == Answer(t, file, from.p, from.off)
    ensures r == Handle(t, w, m.id, m.payload)
    ensures Place(t, mid.p, mid.off) && Place(t, mid.n, mid.at)
    ensures if IsAnswer(m) then from.p < |t.hashes| && (mid.p, mid.off) == After(t, from.p, from.off)
            else (mid.p, mid.off) == (from.p, from.off)
    ensures (mid.n, mid.at) == if IsPrompt(m, w.c.choked) then AfterAsk(t, from.n, from.at) else (from.n, from.at)
    ensures Moved(t, file, w, r, (mid.p, mid.off), from.n, from.at, IsPrompt(m, w.c.choked), ChokedAfter(m, w.c.choked))
  {
    hide Handle, Moved, Answer, Serving;
    var q := if IsAnswer(m) then After(t, from.p, from.off) else (from.p, from.off);
    var next := if IsPrompt(m, w.c.choked) then AfterAsk(t, from.n, from.at) else (from.n, from.at);
    mid := Reach(q.0, q.1, next.0, next.1);
    if m.id == 7 {
      r := AnswerMoves(t, file, w, m, from.p, from.off, from.n, from.at);
    } else if m.id == 1 {
      r := UnchokeMoves(t, file, w, m.payload, from.p, from.off, from.n, from.at);
    } else {
      r := OtherMoves(t, file, w, m, from.p, from.off, from.n, from.at);
    }
  }

  lemma AliveMoves(
    t: Torrent, file: Buffer, w: World, r: World, ms: seq<Framing.Msg>, rest: Buffer, from: Reach, to: Reach)
    requires Place(t, from.p, from.off) && Place(t, from.n, from.at) && |file| == t.length
    requires Reached(t, file, w.(c := w.c.(recv := rest)), r, ms, from, to)
    ensures Reached(t, file, w, r, [Framing.Alive] + ms, from, to)
  {
    assert ([Framing.Alive] + ms)[1..] == ms;
  }

  lemma NothingMoves(t: Torrent, file: Buffer, w: World, from: Reach)
    requires Place(t, from.p, from.off) && Place(t, from.n, from.at) && |file| == t.length
    requires Serving(t, file, w, from.p, from.off, from.n, from.at) && w.c.recv == []
    ensures Process(t, w) == w && Reached(t, file, w, w, [], from, from)
  {
  }

  lemma MovedServes(t: Torrent, file: Buffer, w: World, h: World, mid: Reach, from: Reach, m: Framing.Msg)
    requires Place(t, from.p, from.off) && Place(t, from.n, from.at) && |file| == t.length
    requires Place(t, mid.p, mid.off) && Place(t, mid.n, mid.at)
    requires (mid.n, mid.at) == if IsPrompt(m, w.c.choked) then AfterAsk(t, from.n, from.at) else (from.n, from.at)
    requires Moved(t, file, w, h, (mid.p, mid.off), from.n, from.at,
                   IsPrompt(m, w.c.choked), ChokedAfter(m, w.c.choked))
    ensures Serving(t, file, h, mid.p, mid.off, mid.n, mid.at) && h.c.recv == w.c.recv
  {
  }

  lemma BufferDoesNotMatter(
    t: Torrent, file: Buffer, w: World, rest: Buffer, r: World, ms: seq<Framing.Msg>, from: Reach, to: Reach)
    requires Place(t, from.p, from.off) && Place(t, from.n, from.at) && |file| == t.length
    requires Reached(t, file, w.(c := w.c.(recv := rest)), r, ms, from, to)
    ensures Reached(t, file, w, r, ms, from, to)
  {
  }

  /** Any stream of the next answers and whatever else among them. */
  lemma {:induction false} ServeAdvances(t: Torrent, file: Buffer, w: World, ms: seq<Framing.Msg>, from: Reach)
    returns (to: Reach)
    requires Seeds(t, file) && Place(t, from.p, from.off) && Place(t, from.n, from.at) && Framing.AllFit(ms)
    requires Serving(t, file, w, from.p, from.off, from.n, from.at)
    requires Serves(t, file, ms, from.p, from.off) && w.c.recv == Framing.Stream(ms)
    ensures Reached(t, file, w, Process(t, w), ms, from, to)
    decreases |ms|
  {
    hide Handle, Reached, Moved, Process, AssembledTo, IsPrompt, ChokedAfter, Answer;
    if ms == [] {
      NothingMoves(t, file, w, from);
      to := from;
    } else {
      var rest := Framing.Stream(ms[1..]);
      var w' := w.(c := w.c.(recv := rest));
      assert ms == [ms[0]] + ms[1..];
      ProcessOne(t, w, ms[0], rest);
      if ms[0].Alive? {
        to := ServeAdvances(t, file, w', ms[1..], from);
        AliveMoves(t, file, w, Process(t, w), ms[1..], rest, from, to);
      } else {
        var h, mid := MessageMoves(t, file, w', ms[0], from);
        MovedServes(t, file, w', h, mid, from, ms[0]);
        to := ServeAdvances(t, file, h, ms[1..], mid);
        ReachedOneMore(t, file, w', h, Process(t, w), ms[0], ms[1..], from, mid, to);
        BufferDoesNotMatter(t, file, w, rest, Process(t, w), ms, from, to);
      }
    }
  }

  // ---- From the handshake on ----

  /** Nothing was requested or received yet. */
  ghost predicate Opening(t: Torrent, w: World) {
    && Valid(t) && Sane(t, w.c) && w.c.link == Up && w.c.phase == Downloading && w.c.currentPiece == -1 && w.c.choked
    && w.d.nextReq == 0 && w.d.asm == START && Asks(w.d.log) == []
  }

  /**
    What the seeder says: a bitfield with every piece, and then the answers from the first on, as far as they have come;
    any other messages may come among them, and keep-alives anywhere.
   */
  ghost predicate SeederSays(t: Torrent, file: Buffer, ms: seq<Framing.Msg>, bits: Buffer)
    requires Valid(t) && |file| == t.length
    decreases |ms|
  {
    PieceLenPositive(t, 0);
    if ms == [] then true
    else if ms[0].Alive? then SeederSays(t, file, ms[1..], bits)
    else ms[0] == Framing.Msg(5, bits) && Serves(t, file, ms[1..], 0, 0)
  }

  /** How far the connection has come: everything answered is assembled, and the plan asked for up to the prompts. */
  ghost predicate Arrived(t: Torrent, file: Buffer, r: World, ms: seq<Framing.Msg>, to: Reach)
    requires Valid(t) && |file| == t.length
  {
    && Place(t, to.p, to.off) && Place(t, to.n, to.at)
    && r.c.link == Up && r.c.phase == Downloading && r.c.recv == [] && r.c.choked == ChokedBy(ms, true)
    && AssembledTo(t, file, r.d.asm, to.p, to.off)
    && |Plan(t, to.p, to.off)| + AnswerCount(ms) == |WholePlan(t)|
    && Asks(r.d.log) + Plan(t, to.n, to.at) == WholePlan(t)
    && |Plan(t, to.n, to.at)| == Less(|WholePlan(t)|, Prompts(ms, true))
    && (to.n == |t.hashes| ==> Sane(t, r.c) && r.c.currentPiece == -1 && r.d.nextReq >= |t.hashes|)
    && (Prompts(ms, true) > |WholePlan(t)| ==> r.d.nextReq > |t.hashes|)
  }

  lemma OpeningArrives(t: Torrent, file: Buffer, w: World)
    requires Opening(t, w) && |file| == t.length && w.c.recv == []
    ensures Process(t, w) == w && Arrived(t, file, w, [], Reach(0, 0, 0, 0))
  {
    PieceLenPositive(t, 0);
    assert [] + WholePlan(t) == WholePlan(t);
  }

  lemma StartsServing(t: Torrent, file: Buffer, r: World, p: nat, off: nat)
    requires Valid(t) && |file| == t.length && p == 0 && off == 0
    requires Sane(t, r.c) && r.c.link == Up && r.c.phase == Downloading && r.c.currentPiece == -1
    requires HasAll(t, r.c.pieces) && r.d.nextReq == 0 && r.d.asm == START
    ensures Place(t, p, off) && Serving(t, file, r, p, off, p, off)
  {
    PieceLenPositive(t, p);
  }

  lemma BitfieldOpens(t: Torrent, file: Buffer, w: World, bits: Buffer) returns (r: World)
    requires Opening(t, w) && |file| == t.length && forall i: nat :: i < |t.hashes| ==> Marked(bits, i)
    ensures r == Handle(t, w, 5, bits)
    ensures Place(t, 0, 0) && Serving(t, file, r, 0, 0, 0, 0)
    ensures r.c.recv == w.c.recv && r.c.choked && Asks(r.d.log) == [] && r.d.nextReq == 0
  {
    hide Serving, Place, Handle;
    Progress.OthersAskNothing(t, w, 5, bits);
    r := Handle(t, w, 5, bits);
    assert History.Front(r.d.log) == w.d.log;
    StartsServing(t, file, r, 0, 0);
  }

  lemma ServedArrives(t: Torrent, file: Buffer, w: World, r: World, bits: Buffer, ms: seq<Framing.Msg>, to: Reach)
    requires Valid(t) && |file| == t.length && Place(t, 0, 0) && w.c.choked && Asks(w.d.log) == []
    requires Reached(t, file, w, r, ms, Reach(0, 0, 0, 0), to)
    ensures Arrived(t, file, r, [Framing.Msg(5, bits)] + ms, to)
  {
    hide AssembledTo, Plan, Asks;
    var all := [Framing.Msg(5, bits)] + ms;
    assert all[1..] == ms;
    assert Asks(w.d.log) + Plan(t, 0, 0) == Plan(t, 0, 0);
  }

  lemma AliveArrives(t: Torrent, file: Buffer, r: World, ms: seq<Framing.Msg>, to: Reach)
    requires Valid(t) && |file| == t.length && Arrived(t, file, r, ms, to)
    ensures Arrived(t, file, r, [Framing.Alive] + ms, to)
  {
    hide AssembledTo, Plan, Asks;
    assert ([Framing.Alive] + ms)[1..] == ms;
  }

  lemma {:induction false} ScriptArrives(t: Torrent, file: Buffer, w: World, ms: seq<Framing.Msg>, bits: Buffer)
    returns (to: Reach)
    requires Opening(t, w) && Seeds(t, file) && Framing.AllFit(ms) && SeederSays(t, file, ms, bits)
    requires forall i: nat :: i < |t.hashes| ==> Marked(bits, i)
    requires w.c.recv == Framing.Stream(ms)
    ensures Arrived(t, file, Process(t, w), ms, to)
    decreases |ms|
  {
    hide Handle, Process, Reached, Arrived, AssembledTo, Serving;
    if ms == [] {
      OpeningArrives(t, file, w);
      to := Reach(0, 0, 0, 0);
    } else {
      var rest := Framing.Stream(ms[1..]);
      var w' := w.(c := w.c.(recv := rest));
      assert ms == [ms[0]] + ms[1..];
      ProcessOne(t, w, ms[0], rest);
      if ms[0].Alive? {
        to := ScriptArrives(t, file, w', ms[1..], bits);
        AliveArrives(t, file, Process(t, w), ms[1..], to);
      } else {
        var h := BitfieldOpens(t, file, w', bits);
        to := ServeAdvances(t, file, h, ms[1..], Reach(0, 0, 0, 0));
        ServedArrives(t, file, h, Process(t, w), bits, ms[1..], to);
      }
    }
  }

  /** A connection whose handshake has just been sent. */
  function HandshakeSent(t: Torrent, myId: Buffer, peer: nat): (w: World)
    ensures w.c.link == Up && w.c.phase == Handshaking && w.c.recv == [] && w.c.currentPiece == -1
  {
    Greet(t, myId, World(NewConn(peer), IDLE))
  }

  lemma HandshakeOpens(t: Torrent, myId: Buffer, peer: nat, hs: Buffer, stream: Buffer) returns (w: World)
    requires Valid(t) && |hs| == 68
    ensures Opening(t, w) && w.c.recv == stream
    ensures Process(t, Chunking.Append(HandshakeSent(t, myId, peer), hs + stream)) == Process(t, w)
  {
    var start := HandshakeSent(t, myId, peer);
    var full := Chunking.Append(start, hs + stream);
    assert [] + (hs + stream) == hs + stream;
    assert (hs + stream)[HANDSHAKE_SIZE..] == stream;
    w := DropHandshake(full);
    assert History.Front(start.d.log) == [] && History.Front(w.d.log) == start.d.log;
    assert Asks(start.d.log) == [];
    assert Iterate(t, full) == Next(w);
  }

  /** The seeder's stream up to some point, cut into chunks in any way. */
  ghost predicate FromSeeder(
    t: Torrent, file: Buffer, chunks: seq<Buffer>, hs: Buffer, ms: seq<Framing.Msg>, bits: Buffer)
  {
    && Seeds(t, file) && |hs| == 68 && Framing.AllFit(ms) && SeederSays(t, file, ms, bits)
    && (forall i: nat :: i < |t.hashes| ==> Marked(bits, i))
    && Chunking.NonEmpty(chunks) && Chunking.Concat(chunks) == hs + Framing.Stream(ms)
  }

  lemma IsUp(t: Torrent, file: Buffer, r: World, ms: seq<Framing.Msg>, to: Reach)
    requires Valid(t) && |file| == t.length && Arrived(t, file, r, ms, to)
    ensures r.c.link == Up
  {
  }

  lemma SeederArrives(
    t: Torrent, file: Buffer, myId: Buffer, peer: nat, chunks: seq<Buffer>,
    hs: Buffer, ms: seq<Framing.Msg>, bits: Buffer)
    returns (to: Reach)
    requires FromSeeder(t, file, chunks, hs, ms, bits)
    ensures Arrived(t, file, Chunking.ReceiveAll(t, HandshakeSent(t, myId, peer), chunks), ms, to)
  {
    hide Arrived;
    var start := HandshakeSent(t, myId, peer);
    var ready := HandshakeOpens(t, myId, peer, hs, Framing.Stream(ms));
    to := ScriptArrives(t, file, ready, ms, bits);
    Chunking.FreshConnectionIsBlocked(t, start.c, start.d);
    Chunking.ChunksDoWhatTheStreamDoes(t, start, chunks);
    IsUp(t, file, Process(t, ready), ms, to);
  }

  // ---- What follows ----

  /** Exactly the first blocks of the plan are asked for, one for each prompt, until the plan ends. */
  lemma AsksAreThePlan(t: Torrent, file: Buffer, r: World, ms: seq<Framing.Msg>, to: Reach)
    requires Valid(t) && |file| == t.length && Arrived(t, file, r, ms, to)
    ensures |Asks(r.d.log)| == (if Prompts(ms, true) < |WholePlan(t)| then Prompts(ms, true) else |WholePlan(t)|)
    ensures Asks(r.d.log) == WholePlan(t)[..|Asks(r.d.log)|]
  {
    hide Plan, Asks, AssembledTo;
    assert (Asks(r.d.log) + Plan(t, to.n, to.at))[..|Asks(r.d.log)|] == Asks(r.d.log);
  }

  /**
    At every point of a seeder's stream, however it chokes and unchokes: the blocks asked for are the first of the plan,
    one for each UNCHOKE and for each PIECE that came unchoked.  If the seeder answers only what it was asked for, then
    while it does not choke there is always a block asked for that it has not answered: the download never stalls.
   */
  lemma AnswersAreAskedFor(
    t: Torrent, file: Buffer, myId: Buffer, peer: nat, chunks: seq<Buffer>,
    hs: Buffer, ms: seq<Framing.Msg>, bits: Buffer)
    requires FromSeeder(t, file, chunks, hs, ms, bits)
    ensures var r := Chunking.ReceiveAll(t, HandshakeSent(t, myId, peer), chunks);
            var asked, prompts, total := |Asks(r.d.log)|, Prompts(ms, true), |WholePlan(t)|;
            && r.c.link == Up && r.c.recv == [] && AnswerCount(ms) <= total
            && asked == (if prompts < total then prompts else total) && Asks(r.d.log) == WholePlan(t)[..asked]
            && (Honest(ms, true, 0, 0) ==>
                  && AnswerCount(ms) <= asked
                  && (!ChokedBy(ms, true) && AnswerCount(ms) < total ==> AnswerCount(ms) < asked))
  {
    hide Plan, Asks, AssembledTo;
    var to := SeederArrives(t, file, myId, peer, chunks, hs, ms, bits);
    AsksAreThePlan(t, file, Chunking.ReceiveAll(t, HandshakeSent(t, myId, peer), chunks), ms, to);
    if Honest(ms, true, 0, 0) { HonestIsBehind(ms, true, 0, 0); }
  }

  lemma PlanEnds(t: Torrent, p: nat, off: nat)
    requires Place(t, p, off) && |Plan(t, p, off)| == 0
    ensures p == |t.hashes| && off == 0
  {
  }

  // ---- What was sent ----

  /** The bytes of the asks, in order. */
  function AskBytes(asks: seq<Ask>): seq<Buffer> {
    if asks == [] then []
    else
      var init, a := AskBytes(asks[..|asks| - 1]), asks[|asks| - 1];
      if a.piece < U32 && a.begin < U32 && a.length < U32
      then init + [Sending.RequestBytes(a.piece, a.begin, a.length)] else init
  }

  lemma {:induction false} AsksAreRequests(log: seq<Event>, q: nat)
    requires forall k :: 0 <= k < |log| ==> log[k].peer == q
    ensures Sending.RequestsTo(log, q) == AskBytes(Asks(log))
  {
    hide Sending.RequestBytes;
    if log == [] {
    } else {
      var e := History.Last(log);
      AsksAreRequests(History.Front(log), q);
      assert e.peer == q;
      if e.Requested? {
        var asks := Asks(log);
        assert asks[..|asks| - 1] == Asks(History.Front(log));
      }
    }
  }

  /** All events of the log are those of one connection, and nothing was asked before the handshake. */
  ghost predicate Alone(t: Torrent, myId: Buffer, w: World, q: nat) {
    && Valid(t) && Sane(t, w.c) && Swarm.WorldInv(t, w) && Sending.SentAs(t, myId, w.c, w.d.log) && w.c.peer == q
    && (forall k :: 0 <= k < |w.d.log| ==> w.d.log[k].peer == q)
    && w.c.phase != Connecting && Sending.Early(w.d.log, q) == 0
  }

  lemma {:induction false} StaysAlone(t: Torrent, myId: Buffer, w: World, q: nat, chunks: seq<Buffer>)
    requires Alone(t, myId, w, q)
    ensures Alone(t, myId, Chunking.ReceiveAll(t, w, chunks), q)
  {
    hide Swarm.WorldInv, Sending.SentAs, Receive;
    if chunks == [] {
    } else {
      var last := |chunks| - 1;
      StaysAlone(t, myId, w, q, chunks[..last]);
      var r := Chunking.ReceiveAll(t, w, chunks[..last]);
      Swarm.ReceiveKeeps(t, r, chunks[last]);
      Sending.ReceiveIsSent(t, myId, r, chunks[last]);
    }
  }

  lemma GreetedIsAlone(t: Torrent, myId: Buffer, peer: nat)
    requires Valid(t)
    ensures Alone(t, myId, HandshakeSent(t, myId, peer), peer)
  {
    var w := World(NewConn(peer), IDLE);
    Swarm.GreetKeeps(t, myId, w);
    Sending.GreetIsSent(t, myId, w);
    Sending.GreetIsFirst(t, myId, w);
  }

  /** A connection that is alone and past its handshake has sent the handshake, INTERESTED and its requests. */
  lemma AloneHasSent(t: Torrent, myId: Buffer, w: World, q: nat)
    requires Alone(t, myId, w, q) && w.c.phase == Downloading
    ensures w.c.sent ==
            [Sending.HandshakeBytes(t.infoHash, myId), Sending.INTERESTED] + AskBytes(Asks(w.d.log))
  {
    AsksAreRequests(w.d.log, q);
    var asks := Sending.RequestsTo(w.d.log, q);
    assert asks[..0] == [] && asks[0..] == asks;
  }

  // ---- The whole delivery ----

  /** Everything the seeder has to say was said, and it answered only what it was asked for. */
  ghost predicate FullService(t: Torrent, ms: seq<Framing.Msg>)
    requires Valid(t)
  {
    AnswerCount(ms) == |WholePlan(t)| && Honest(ms, true, 0, 0)
  }

  lemma EndOfService(t: Torrent, file: Buffer, r: World, ms: seq<Framing.Msg>, to: Reach)
    requires Seeds(t, file) && Arrived(t, file, r, ms, to) && FullService(t, ms)
    ensures Sated(t, r) && Asks(r.d.log) == WholePlan(t) && r.d.asm.jobs == Jobs(t, file, |t.hashes|)
  {
    hide Asks, Plan;
    HonestIsBehind(ms, true, 0, 0);
    AsksAreThePlan(t, file, r, ms, to);
    PlanEnds(t, to.p, to.off);
    PlanEnds(t, to.n, to.at);
    assert WholePlan(t)[..|WholePlan(t)|] == WholePlan(t);
  }

  /**
    One peer that sends a handshake and a full bitfield, answers in order what it is asked for with the true bytes, and
    chokes, unchokes and says anything else as it likes, the stream cut into chunks in any way: what is sent to it is
    the handshake, INTERESTED and exactly the requests of the plan, ceil(length / 16384) for each piece; nothing more
    will be asked for; and the jobs handed to the writer are the pieces in order, which make the file.
   */
  lemma DeliversTheFile(
    t: Torrent, file: Buffer, myId: Buffer, peer: nat, chunks: seq<Buffer>,
    hs: Buffer, ms: seq<Framing.Msg>, bits: Buffer)
    requires FromSeeder(t, file, chunks, hs, ms, bits) && FullService(t, ms)
    ensures var r := Chunking.ReceiveAll(t, HandshakeSent(t, myId, peer), chunks);
            && r.c.link == Up && r.c.recv == []
            && Asks(r.d.log) == WholePlan(t) && |Asks(r.d.log)| == BlocksFrom(t, 0)
            && r.c.sent == [Sending.HandshakeBytes(t.infoHash, myId), Sending.INTERESTED] + AskBytes(WholePlan(t))
            && Sated(t, r) && (Prompts(ms, true) > |WholePlan(t)| ==> r.d.nextReq > |t.hashes|)
            && r.d.asm.jobs == Jobs(t, file, |t.hashes|) && DataOf(r.d.asm.jobs) == file
  {
    hide Asks, Plan, Sated, Alone;
    var start := HandshakeSent(t, myId, peer);
    var r := Chunking.ReceiveAll(t, start, chunks);
    var to := SeederArrives(t, file, myId, peer, chunks, hs, ms, bits);
    EndOfService(t, file, r, ms, to);
    GreetedIsAlone(t, myId, peer);
    StaysAlone(t, myId, start, peer, chunks);
    AloneHasSent(t, myId, r, peer);
    WholePlanCount(t);
    WholeFile(t, file);
  }
}
