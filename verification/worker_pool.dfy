/**
  The worker threads of the multi-threaded loop: a step system with one step for every critical
  section of a worker or of the main thread, and for every other thing that can happen to a worker.
 */
module WorkerPool {
  import opened Wrappers
  import opened Lists

  /** A `struct fuse_worker`; a number is never used for two of them. */
  type Wid = nat

  /** Where a listed worker is: waiting for a request, at work on one, or finished. */
  datatype Phase = Receiving | Working(forget: bool) | Stopped

  datatype Pool = Pool(
    list: seq<Wid>,            // mt.main.next
    phase: map<Wid, Phase>,
    numworker: int,
    numavail: int,
    exited: bool,              // fuse_session_exited
    exit: bool,                // mt.exit
    leaving: set<Wid>,         // off the list, about to free themselves
    freed: set<Wid>)

  const MAX_AVAIL := 10

  datatype Event =
    | Receive(w: Wid, forget: bool, started: Option<Wid>)  // up to the processing of a request
    | Finish(w: Wid)                                       // after it
    | Refuse(w: Wid)                                       // a request that comes after mt.exit
    | EndLoop(w: Wid)                                      // receive failed, or the session has exited
    | Cancel(w: Wid)                                       // pthread_cancel takes effect
    | FreeSelf(w: Wid)
    | SessionExit
    | StopAll                                              // the main thread cancels all workers
    | Join(w: Wid)                                         // fuse_join_worker

  ghost predicate New(s: Pool, w: Wid) {
    w !in s.list && w !in s.phase && w !in s.leaving && w !in s.freed
  }

  /** `fuse_loop_start_thread` */
  function Started(s: Pool, w: Option<Wid>): Pool {
    if w.None? then s
    else s.(list := s.list + [w.value], phase := s.phase[w.value := Receiving],
            numworker := s.numworker + 1, numavail := s.numavail + 1)
  }

  function Received(s: Pool, w: Wid, forget: bool, started: Option<Wid>): Pool {
    var s1 := s.(phase := s.phase[w := Working(forget)], numavail := s.numavail - if forget then 0 else 1);
    if s1.numavail == 0 then Started(s1, started) else s1
  }

  function Finished(s: Pool, w: Wid): Pool
    requires w in s.phase && s.phase[w].Working?
  {
    var avail := s.numavail + if s.phase[w].forget then 0 else 1;
    if avail > MAX_AVAIL then
      if s.exit then s.(numavail := avail, phase := s.phase[w := Stopped])
      else s.(list := Without(s.list, w), phase := s.phase - {w}, leaving := s.leaving + {w},
              numavail := avail - 1, numworker := s.numworker - 1)
    else s.(numavail := avail, phase := s.phase[w := Receiving])
  }

  ghost predicate Enabled(s: Pool, ev: Event) {
    match ev
    case Receive(w, _, started) =>
      w in s.phase && s.phase[w].Receiving? && !s.exit && (started.Some? ==> New(s, started.value))
    case Finish(w) => w in s.phase && s.phase[w].Working?
    case Refuse(w) => w in s.phase && s.phase[w].Receiving? && s.exit
    case EndLoop(w) => w in s.phase && s.phase[w].Receiving?
    case Cancel(w) => w in s.phase && s.phase[w].Receiving? && s.exit
    case FreeSelf(w) => w in s.leaving
    case SessionExit => true
    case StopAll => s.exited && !s.exit
    case Join(w) => s.exit && s.list != [] && s.list[0] == w && w in s.phase && s.phase[w].Stopped?
  }

  function Next(s: Pool, ev: Event): Pool
    requires ev.Finish? ==> ev.w in s.phase && s.phase[ev.w].Working?
  {
    match ev
    case Receive(w, forget, started) => Received(s, w, forget, started)
    case Finish(w) => Finished(s, w)
    case Refuse(w) => s.(phase := s.phase[w := Stopped])
    case EndLoop(w) => s.(phase := s.phase[w := Stopped], exited := true)
    case Cancel(w) => s.(phase := s.phase[w := Stopped])
    case FreeSelf(w) => s.(leaving := s.leaving - {w}, freed := s.freed + {w})
    case SessionExit => s.(exited := true)
    case StopAll => s.(exit := true)
    case Join(w) => s.(list := Without(s.list, w), phase := s.phase - {w}, freed := s.freed + {w})
  }

  // ---------------------------------------------------------------- the invariant

  /** The workers that are busy with something else than a FORGET. */
  ghost function Busy(phase: map<Wid, Phase>): set<Wid> {
    set w | w in phase && phase[w] == Working(false)
  }

  ghost predicate CountsOk(s: Pool) {
    && s.numavail == s.numworker - |Busy(s.phase)|
    && (if s.exit then s.numworker >= |s.list| else s.numworker == |s.list|)
    && 0 <= s.numavail
    && (!s.exit ==> s.numavail <= MAX_AVAIL)
  }

  ghost predicate RecordsOk(s: Pool) {
    && Distinct(s.list)
    && (forall w :: w in s.list <==> w in s.phase)
    && s.phase.Keys !! s.leaving && s.phase.Keys !! s.freed && s.leaving !! s.freed
  }

  ghost predicate Inv(s: Pool) {
    && CountsOk(s) && RecordsOk(s)
    && (s.exit ==> s.exited)
    && (forall w | w in s.phase && s.phase[w].Stopped? :: s.exited)
  }

  lemma BusyMoves(phase: map<Wid, Phase>, w: Wid, ph: Phase)
    ensures |Busy(phase[w := ph])| ==
              |Busy(phase)| + (if ph == Working(false) then 1 else 0)
              - if w in phase && phase[w] == Working(false) then 1 else 0
    ensures |Busy(phase - {w})| == |Busy(phase)| - if w in phase && phase[w] == Working(false) then 1 else 0
  {
    hide Busy;
    var b, b' := Busy(phase), Busy(phase[w := ph]);
    BusyIs(phase, w, ph);
    assert Busy(phase - {w}) == b - {w};
    if ph == Working(false) && w !in b {
      assert b' == b + {w};
    } else if ph != Working(false) && w in b {
      assert b' == b - {w};
    } else {
      assert b' == b;
    }
  }

  lemma BusyIs(phase: map<Wid, Phase>, w: Wid, ph: Phase)
    ensures forall x :: x in Busy(phase - {w}) <==> x in Busy(phase) && x != w
    ensures forall x :: x in Busy(phase[w := ph]) <==> if x == w then ph == Working(false) else x in Busy(phase)
    ensures w in Busy(phase) <==> w in phase && phase[w] == Working(false)
  {
  }

  /** A worker is listed that is not busy, so at least one is available. */
  lemma IdleIsAvailable(s: Pool, w: Wid)
    requires Inv(s) && w in s.phase && s.phase[w] != Working(false)
    ensures s.numavail >= 1
  {
    var l := set x | x in s.list;
    DistinctSize(s.list);
    assert Busy(s.phase) <= l - {w};
    SubsetSize(Busy(s.phase), l - {w});
  }

  lemma ReceiveKeeps(s: Pool, w: Wid, forget: bool, started: Option<Wid>)
    requires Inv(s) && Enabled(s, Receive(w, forget, started))
    ensures Inv(Received(s, w, forget, started))
  {
    hide Inv, New;
    TakeKeeps(s, w, forget);
    var s1 := s.(phase := s.phase[w := Working(forget)], numavail := s.numavail - if forget then 0 else 1);
    if s1.numavail == 0 && started.Some? {
      StillNew(s, w, Working(forget), s1.numavail, started.value);
      StartKeeps(s1, started.value);
    }
  }

  lemma TakeKeeps(s: Pool, w: Wid, forget: bool)
    requires Inv(s) && w in s.phase && s.phase[w].Receiving? && !s.exit
    ensures Inv(s.(phase := s.phase[w := Working(forget)], numavail := s.numavail - if forget then 0 else 1))
  {
    hide Distinct;
    IdleIsAvailable(s, w);
    BusyMoves(s.phase, w, Working(forget));
  }

  lemma StillNew(s: Pool, w: Wid, ph: Phase, avail: int, x: Wid)
    requires w in s.phase && New(s, x)
    ensures New(s.(phase := s.phase[w := ph], numavail := avail), x)
  {
  }

  lemma StartKeeps(s: Pool, x: Wid)
    requires Inv(s) && !s.exit && s.numavail == 0 && New(s, x)
    ensures Inv(Started(s, Some(x)))
  {
    hide Distinct;
    AppendDistinct(s.list, x);
    BusyMoves(s.phase, x, Receiving);
  }

  lemma FinishKeeps(s: Pool, w: Wid)
    requires Inv(s) && Enabled(s, Finish(w))
    ensures Inv(Finished(s, w))
  {
    hide Distinct, Without;
    WithoutIs(s.list, w);
    BusyMoves(s.phase, w, Stopped);
    BusyMoves(s.phase, w, Receiving);
  }

  lemma StepKeeps(s: Pool, ev: Event)
    requires Inv(s) && Enabled(s, ev)
    ensures Inv(Next(s, ev))
  {
    hide Distinct, Without;
    match ev
    case Receive(w, forget, started) => ReceiveKeeps(s, w, forget, started);
    case Finish(w) => FinishKeeps(s, w);
    case Refuse(w) => BusyMoves(s.phase, w, Stopped);
    case EndLoop(w) => BusyMoves(s.phase, w, Stopped);
    case Cancel(w) => BusyMoves(s.phase, w, Stopped);
    case Join(w) =>
      WithoutIs(s.list, w);
      BusyMoves(s.phase, w, Stopped);
    case _ =>
  }

  /** The pool after the first worker was started. */
  ghost predicate Init(s: Pool) {
    exists w :: s == Started(Pool([], map[], 0, 0, false, false, {}, {}), Some(w))
  }

  ghost predicate IsRun(run: seq<Pool>, evs: seq<Event>) {
    && |run| == |evs| + 1 && Init(run[0])
    && forall i | 0 <= i < |evs| :: Enabled(run[i], evs[i]) && run[i + 1] == Next(run[i], evs[i])
  }

  lemma {:induction false} RunKeepsInv(run: seq<Pool>, evs: seq<Event>, i: nat)
    requires IsRun(run, evs) && i < |run|
    ensures Inv(run[i])
    decreases i
  {
    if i == 0 {
      var w :| run[0] == Started(Pool([], map[], 0, 0, false, false, {}, {}), Some(w));
      BusyMoves(map[], w, Receiving);
      assert Busy(map[]) == {};
    } else {
      RunKeepsInv(run, evs, i - 1);
      StepKeeps(run[i - 1], evs[i - 1]);
    }
  }

  /**
    Until the loop exits, the counters are what their names say and at most ten workers wait for
    requests, in every reachable state.
   */
  lemma RunCounts(run: seq<Pool>, evs: seq<Event>, i: nat)
    requires IsRun(run, evs) && i < |run| && !run[i].exit
    ensures var s := run[i];
            && s.numworker == |s.list|
            && s.numavail == |set w | w in s.list && s.phase.Keys >= {w} && s.phase[w] != Working(false)|
            && 0 <= s.numavail <= MAX_AVAIL
  {
    RunKeepsInv(run, evs, i);
    var s := run[i];
    var l := set x | x in s.list;
    DistinctSize(s.list);
    var idle := set w | w in s.list && s.phase.Keys >= {w} && s.phase[w] != Working(false);
    assert idle == l - Busy(s.phase);
    assert Busy(s.phase) <= l;
    assert |l - Busy(s.phase)| == |l| - |Busy(s.phase)|;
  }

  /** If the step leaves no worker available, memory and a thread for a new one can be had. */
  ghost predicate CouldStart(s: Pool, ev: Event) {
    ev.Receive? && s.numavail - (if ev.forget then 0 else 1) == 0 ==> ev.started.Some?
  }

  /**
    Before mt.exit a worker is added exactly when a request leaves none available and one can be
    started; and one goes exactly when its return makes more than ten available.
   */
  lemma StepMovesWorkers(s: Pool, ev: Event)
    requires Inv(s) && Enabled(s, ev) && !s.exit
    ensures var s' := Next(s, ev);
            if ev.Receive? && s.numavail - (if ev.forget then 0 else 1) == 0 && ev.started.Some? then
              s'.list == s.list + [ev.started.value] && s'.numworker == s.numworker + 1 && s'.numavail == 1
              && ev.started.value in s'.phase && s'.phase[ev.started.value].Receiving?
            else if ev.Finish? && s.numavail + (if s.phase[ev.w].forget then 0 else 1) > 10 then
              s'.list == Without(s.list, ev.w) && s'.numworker == s.numworker - 1 && s'.numavail == 10
              && ev.w in s'.leaving && ev.w !in s'.phase
            else s'.list == s.list && s'.numworker == s.numworker && s'.leaving <= s.leaving
    ensures CouldStart(s, ev) && s.numavail >= 1 ==> Next(s, ev).numavail >= 1
  {
    hide Distinct, Without;
  }

  /**
    As long as every worker that is needed can be started, one is always available: in every reachable
    state before mt.exit some listed worker is not busy with a request.
   */
  lemma {:induction false} RunStaysAvailable(run: seq<Pool>, evs: seq<Event>, i: nat)
    requires IsRun(run, evs) && i < |run| && !run[i].exit && forall j | 0 <= j < i :: CouldStart(run[j], evs[j])
    ensures run[i].numavail >= 1
    ensures exists w :: w in run[i].list && w in run[i].phase && run[i].phase[w] != Working(false)
    decreases i
  {
    hide Inv, Enabled, Next, CouldStart;
    RunKeepsInv(run, evs, i);
    if i > 0 {
      RunKeepsInv(run, evs, i - 1);
      ExitStays(run[i - 1], evs[i - 1]);
      RunStaysAvailable(run, evs, i - 1);
      StepMovesWorkers(run[i - 1], evs[i - 1]);
    }
    AvailableIsIdle(run[i]);
  }

  lemma ExitStays(s: Pool, ev: Event)
    requires Enabled(s, ev)
    ensures s.exit ==> Next(s, ev).exit
  {
  }

  lemma AvailableIsIdle(s: Pool)
    requires Inv(s) && !s.exit
    ensures s.numavail >= 1 ==> exists w :: w in s.list && w in s.phase && s.phase[w] != Working(false)
  {
    var l := set x | x in s.list;
    DistinctSize(s.list);
    assert |l| == |s.list|;
    assert s.numavail >= 1 ==> Busy(s.phase) != l;
    assert s.numavail >= 1 ==> exists w :: w in l && w !in Busy(s.phase) by {
      assert Busy(s.phase) <= l;
    }
  }

  // ---------------------------------------------------------------- the end

  /** After mt.exit no worker is added, and nothing leaves the list but by fuse_join_worker. */
  lemma NobodyJoinsLate(s: Pool, ev: Event)
    requires Inv(s) && Enabled(s, ev) && s.exit
    ensures var s' := Next(s, ev);
            s'.exit && s'.list == if ev.Join? then s.list[1..] else s.list
  {
  }

  /** A record is freed once: by its own worker or by the joiner, and never while it is listed. */
  lemma FreedOnce(s: Pool, ev: Event, w: Wid)
    requires Inv(s) && Enabled(s, ev)
    ensures w in s.freed ==> w in Next(s, ev).freed && w !in Next(s, ev).list && w !in Next(s, ev).leaving
    ensures w in Next(s, ev).freed && w !in s.freed ==>
              || (ev == Join(w) && w in s.list && w !in s.leaving)
              || (ev == FreeSelf(w) && w in s.leaving && w !in s.list)
  {
    StepKeeps(s, ev);
  }

  /** How many more steps the workers on l and the joiner have to take. */
  ghost function Weight(l: seq<Wid>, phase: map<Wid, Phase>): nat {
    if l == [] then 0
    else (if l[0] in phase && phase[l[0]].Working? then 3 else if l[0] in phase && phase[l[0]].Receiving? then 2 else 1)
         + Weight(l[1..], phase)
  }

  lemma {:induction false} WeightFrame(l: seq<Wid>, phase: map<Wid, Phase>, phase': map<Wid, Phase>)
    requires forall w | w in l :: w in phase <==> w in phase'
    requires forall w | w in l && w in phase :: phase'[w] == phase[w]
    ensures Weight(l, phase') == Weight(l, phase)
  {
    if l != [] {
      WeightFrame(l[1..], phase, phase');
    }
  }

  lemma {:induction false} WeightDrops(l: seq<Wid>, phase: map<Wid, Phase>, w: Wid, ph: Phase)
    requires Distinct(l) && w in l && w in phase
    requires (phase[w].Working? && !ph.Working?) || (phase[w].Receiving? && ph.Stopped?)
    ensures Weight(l, phase[w := ph]) < Weight(l, phase)
  {
    if l[0] == w {
      WeightFrame(l[1..], phase, phase[w := ph]);
    } else {
      WeightDrops(l[1..], phase, w, ph);
    }
  }

  /** Every step of a worker or the joiner after mt.exit brings the end nearer. */
  lemma JoinLoopEnds(s: Pool, ev: Event)
    requires Inv(s) && Enabled(s, ev) && s.exit && !ev.SessionExit?
    ensures var s' := Next(s, ev);
            Weight(s'.list, s'.phase) + |s'.leaving| < Weight(s.list, s.phase) + |s.leaving|
  {
    match ev
    case Finish(w) =>
      WeightDrops(s.list, s.phase, w, Stopped);
      WeightDrops(s.list, s.phase, w, Receiving);
    case Refuse(w) => WeightDrops(s.list, s.phase, w, Stopped);
    case EndLoop(w) => WeightDrops(s.list, s.phase, w, Stopped);
    case Cancel(w) => WeightDrops(s.list, s.phase, w, Stopped);
    case Join(w) => WeightFrame(s.list[1..], s.phase, s.phase - {w});
    case FreeSelf(w) =>
  }

  /** And there is such a step as long as a worker is listed. */
  lemma JoinLoopProceeds(s: Pool)
    requires Inv(s) && s.exit && s.list != []
    ensures var w := s.list[0];
            Enabled(s, Join(w)) || Enabled(s, Cancel(w)) || Enabled(s, Finish(w))
  {
    assert s.list[0] in s.list;
  }

  /** Steps that other threads than the main one can take in this order. */
  ghost predicate CanRun(s: Pool, evs: seq<Event>)
    decreases |evs|
  {
    evs != [] ==>
      Enabled(s, evs[0]) && !evs[0].Join? && !evs[0].StopAll? && CanRun(Next(s, evs[0]), evs[1..])
  }

  ghost function After(s: Pool, evs: seq<Event>): Pool
    requires CanRun(s, evs)
    decreases |evs|
  {
    if evs == [] then s else After(Next(s, evs[0]), evs[1..])
  }

  /**
    What happens between the joins: `pthread_join` waits for the first worker on the list, and the
    other threads run on meanwhile, in any order, until that worker has ended.
   */
  ghost predicate Joins(s: Pool, between: seq<seq<Event>>)
    decreases |between|
  {
    s.list != [] ==>
      && between != [] && CanRun(s, between[0])
      && var s1 := After(s, between[0]);
         && s1.list == s.list && Enabled(s1, Join(s.list[0]))
         && Joins(Next(s1, Join(s.list[0])), between[1..])
  }

  /** While the main thread waits the list stays, and every record is still freed once. */
  lemma WaitingKeeps(s: Pool, ev: Event)
    requires Inv(s) && s.exit && Enabled(s, ev) && !ev.Join?
    ensures var s' := Next(s, ev);
            Inv(s') && s'.exit && s'.list == s.list && s'.freed + s'.leaving == s.freed + s.leaving
  {
    hide Inv;
    StepKeeps(s, ev);
    NobodyJoinsLate(s, ev);
  }

  /** Whatever state the workers are in, they can all be joined. */
  lemma {:induction false} AllCanBeJoined(s: Pool)
    requires Inv(s) && s.exit
    ensures exists between :: Joins(s, between)
    decreases |s.list|
  {
    hide Inv, Without;
    if s.list == [] {
      assert Joins(s, []);
    } else {
      var evs := FirstEnds(s);
      var s1 := After(s, evs);
      StepKeeps(s1, Join(s.list[0]));
      NobodyJoinsLate(s1, Join(s.list[0]));
      AllCanBeJoined(Next(s1, Join(s.list[0])));
      var rest :| Joins(Next(s1, Join(s.list[0])), rest);
      assert ([evs] + rest)[1..] == rest;
      assert Joins(s, [evs] + rest);
    }
  }

  /** The first worker on the list ends after two steps of its own at most. */
  lemma FirstEnds(s: Pool) returns (evs: seq<Event>)
    requires Inv(s) && s.exit && s.list != []
    ensures CanRun(s, evs)
    ensures var s1 := After(s, evs); Inv(s1) && s1.exit && s1.list == s.list && Enabled(s1, Join(s.list[0]))
  {
    hide Inv;
    JoinLoopProceeds(s);
    var w := s.list[0];
    if Enabled(s, Join(w)) {
      evs := [];
    } else if Enabled(s, Cancel(w)) {
      WaitingKeeps(s, Cancel(w));
      evs := [Cancel(w)];
      AfterOne(s, Cancel(w));
    } else {
      WaitingKeeps(s, Finish(w));
      var s1 := Next(s, Finish(w));
      if Enabled(s1, Join(w)) {
        evs := [Finish(w)];
        AfterOne(s, Finish(w));
      } else {
        WaitingKeeps(s1, Cancel(w));
        evs := [Finish(w), Cancel(w)];
        AfterOne(s1, Cancel(w));
        assert evs[1..] == [Cancel(w)];
      }
    }
  }

  lemma AfterOne(s: Pool, ev: Event)
    requires Enabled(s, ev) && !ev.Join? && !ev.StopAll?
    ensures CanRun(s, [ev]) && After(s, [ev]) == Next(s, ev)
  {
    assert [ev][1..] == [];
  }

  // ---------------------------------------------------------------- the code

  /** `struct fuse_mt`; the last four fields say where the threads are. */
  class Mt {
    var list: seq<Wid>
    var numworker: int
    var numavail: int
    var exit: bool

    var phase: map<Wid, Phase>
    var exited: bool
    var leaving: set<Wid>
    var freed: set<Wid>

    function View(): Pool
      reads this
    {
      Pool(list, phase, numworker, numavail, exited, exit, leaving, freed)
    }

    /** `fuse_loop_start_thread`; w is the new worker if memory and a thread can be had. */
    method StartThread(w: Option<Wid>) returns (res: int)
      modifies this
      ensures View() == Started(old(View()), w) && res == if w.Some? then 0 else -1
    {
      if w.None? {
        return -1;
      }
      list := list + [w.value];
      phase := phase[w.value := Receiving];
      numavail := numavail + 1;
      numworker := numworker + 1;
      res := 0;
    }

    /** The critical section of `fuse_do_work` before a request is processed; false ends the thread. */
    method TakeRequest(w: Wid, isforget: bool, started: Option<Wid>) returns (go: bool)
      requires Inv(View()) && w in phase && phase[w].Receiving? && (started.Some? ==> New(View(), started.value))
      modifies this
      ensures Inv(View()) && go == !old(exit)
      ensures View() == Next(old(View()), if go then Receive(w, isforget, started) else Refuse(w))
      ensures var left := old(numavail) - if isforget then 0 else 1;
              if go && left == 0 && started.Some? then
                list == old(list) + [started.value] && numworker == old(numworker) + 1 && numavail == 1
                && started.value in phase && phase[started.value].Receiving?
              else
                list == old(list) && numworker == old(numworker) && numavail == if go then left else old(numavail)
      ensures w in phase && phase[w] == if go then Working(isforget) else Stopped
    {
      hide Inv;
      ghost var s := View();
      if exit {
        StepKeeps(s, Refuse(w));
        phase := phase[w := Stopped];
        return false;
      }
      StepKeeps(s, Receive(w, isforget, started));
      phase := phase[w := Working(isforget)];
      if !isforget {
        numavail := numavail - 1;
      }
      if numavail == 0 {
        var res := StartThread(started);
      }
      go := true;
    }

    /** The critical section of `fuse_do_work` after it; false ends the thread. */
    method ReturnWorker(w: Wid, isforget: bool) returns (go: bool)
      requires Inv(View()) && w in phase && phase[w] == Working(isforget)
      modifies this
      ensures Inv(View()) && View() == Finished(old(View()), w)
      ensures go <==> w in phase && phase[w].Receiving?
      ensures go <==> old(numavail) + (if isforget then 0 else 1) <= 10
      ensures if go || old(exit) then list == old(list) && numworker == old(numworker)
              else list == Without(old(list), w) && numworker == old(numworker) - 1 && w in leaving && w !in phase
      ensures numavail - old(numavail) == (if isforget then 0 else 1) - if go || old(exit) then 0 else 1
    {
      hide Inv, Without;
      FinishKeeps(View(), w);
      if !isforget {
        numavail := numavail + 1;
      }
      if numavail > MAX_AVAIL {
        if exit {
          phase := phase[w := Stopped];
          return false;
        }
        list := Without(list, w);
        phase := phase - {w};
        leaving := leaving + {w};
        numavail := numavail - 1;
        numworker := numworker - 1;
        return false;
      }
      phase := phase[w := Receiving];
      go := true;
    }

    /** Steps of the other threads, while the main thread waits in `pthread_join`. */
    method OthersRun(evs: seq<Event>)
      requires Inv(View()) && exit && CanRun(View(), evs)
      modifies this
      ensures View() == After(old(View()), evs)
      ensures Inv(View()) && exit && list == old(list) && freed + leaving == old(freed + leaving)
      decreases |evs|
    {
      hide Inv, Next;
      if evs != [] {
        WaitingKeeps(View(), evs[0]);
        Become(Next(View(), evs[0]));
        OthersRun(evs[1..]);
      }
    }

    method Become(s: Pool)
      modifies this
      ensures View() == s
    {
      list, phase, numworker, numavail := s.list, s.phase, s.numworker, s.numavail;
      exited, exit, leaving, freed := s.exited, s.exit, s.leaving, s.freed;
    }

    /** `fuse_join_worker` of the first worker; evs is what the other threads do until it has ended. */
    method JoinFirst(evs: seq<Event>)
      requires Inv(View()) && exit && list != [] && CanRun(View(), evs) && Enabled(After(View(), evs), Join(list[0]))
      modifies this
      ensures View() == Next(After(old(View()), evs), Join(old(list)[0]))
      ensures Inv(View()) && exit && list == old(list)[1..]
      ensures freed + leaving == old(freed + leaving) + {old(list)[0]}
    {
      hide Inv, CanRun, After;
      OthersRun(evs);
      var w := list[0];
      StepKeeps(View(), Join(w));
      NobodyJoinsLate(View(), Join(w));
      list := Without(list, w);
      phase := phase - {w};
      freed := freed + {w};
    }

    /**
      The join loop of `fuse_session_loop_mt`; between says what the other threads do while it waits.
      In the end every record that was on the list has been freed, and none twice.
     */
    method JoinAll(between: seq<seq<Event>>)
      requires Inv(View()) && exit && Joins(View(), between)
      modifies this
      ensures Inv(View()) && list == [] && phase == map[]
      ensures freed + leaving == old(freed + leaving) + set w | w in old(list)
    {
      hide Inv, Enabled, CanRun, After, Next, Joins;
      var i := 0;
      assert between[0..] == between;
      while |list| > 0
        invariant Inv(View()) && exit && i <= |between| && Joins(View(), between[i..])
        invariant freed + leaving + (set w | w in list) == old(freed + leaving) + set w | w in old(list)
        decreases |list|
      {
        ghost var s := View();
        JoinsNext(s, between[i..]);
        assert between[i..][1..] == between[i + 1..];
        JoinFirst(between[i]);
        i := i + 1;
        assert s.list == [s.list[0]] + list;
      }
      NobodyIsLeft(View());
    }
  }

  lemma JoinsNext(s: Pool, between: seq<seq<Event>>)
    requires s.list != [] && Joins(s, between)
    ensures between != [] && CanRun(s, between[0]) && Enabled(After(s, between[0]), Join(s.list[0]))
    ensures Joins(Next(After(s, between[0]), Join(s.list[0])), between[1..])
  {
  }

  lemma NobodyIsLeft(s: Pool)
    requires Inv(s) && s.list == []
    ensures s.phase == map[]
  {
  }
}
