/**
  Interrupts of the low-level library: the list of requests being served, the list of pending
  interrupts, and the lock of each request.  Every critical section under `f->lock`, and every
  locking, unlocking or callback in between, is one step; the steps of all threads interleave.
 */
module Interrupts {
  import opened Wrappers
  import opened Lists

  /** A `struct fuse_req` in memory; a number is never used for two of them. */
  type Rid = nat

  /** An interrupt callback with its data. */
  type Func = nat

  /**
    `aim` is the unique number an INTERRUPT asks for.  `notified` records that the callback now
    registered has been called since it was registered; the program has no such field.
   */
  datatype Req = Req(unique: nat, aim: nat, ctr: int, interrupted: bool, func: Option<Func>, notified: bool,
      locked: bool)

  /** Where `find_interrupted` is with a request t that it has found. */
  datatype Phase =
    | Found(t: Rid)                       // has taken a reference, waits for t's lock
    | Locked(t: Rid)                      // has t's lock
    | Calling(t: Rid, call: Option<Func>) // has marked t and read its callback
    | Called(t: Rid)                      // has called it
    | Unlocked(t: Rid)                    // has only its reference left

  /** Where the thread that serves a request is. */
  datatype Service =
    | Serving
    | Setting(func: Option<Func>)         // in fuse_req_interrupt_func, has the request's lock
    | Checking(func: Option<Func>)        // has registered the callback
    | Leaving                             // has called it if the request was interrupted

  /** What has become of an INTERRUPT. */
  datatype Fate = Working(t: Rid) | Pending | Marked(t: Rid) | Bounced | Duplicate

  datatype State = State(
    reqs: map<Rid, Req>,
    list: seq<Rid>,               // f->list
    pending: seq<Rid>,            // f->interrupts
    intr: map<Rid, Phase>,        // INTERRUPTs in find_interrupted
    bouncing: set<Rid>,           // INTERRUPTs about to be answered with EAGAIN
    server: map<Rid, Service>,
    dying: set<Rid>,              // off the list and about to be destroyed
    destroyed: set<Rid>,
    fate: map<Rid, Fate>)

  datatype Event =
    | Arrive(r: Rid, unique: nat)
    | Interrupt(p: Rid, unique: nat, aim: nat)
    | LockTarget(p: Rid) | MarkTarget(p: Rid) | CallTarget(p: Rid) | UnlockTarget(p: Rid) | PutTarget(p: Rid)
    | LockForFunc(r: Rid, func: Option<Func>) | SetFunc(r: Rid) | CheckFunc(r: Rid) | UnlockForFunc(r: Rid)
    | Free(r: Rid) | FreeBounced(p: Rid) | Destroy(r: Rid)

  // ---------------------------------------------------------------- searching the lists

  /** The first request on the list with this unique number. */
  function FirstUnique(reqs: map<Rid, Req>, list: seq<Rid>, unique: nat): Option<Rid> {
    if list == [] then None
    else if list[0] in reqs && reqs[list[0]].unique == unique then Some(list[0])
    else FirstUnique(reqs, list[1..], unique)
  }

  /** The first pending interrupt that asks for this unique number. */
  function FirstAim(reqs: map<Rid, Req>, pending: seq<Rid>, unique: nat): Option<Rid> {
    if pending == [] then None
    else if pending[0] in reqs && reqs[pending[0]].aim == unique then Some(pending[0])
    else FirstAim(reqs, pending[1..], unique)
  }

  lemma {:induction false} FirstUniqueIff(reqs: map<Rid, Req>, list: seq<Rid>, unique: nat)
    ensures match FirstUnique(reqs, list, unique)
            case Some(r) => r in list && r in reqs && reqs[r].unique == unique
            case None => forall r | r in list && r in reqs :: reqs[r].unique != unique
    ensures FirstUnique(reqs, list, unique).Some? ==>
              exists i :: 0 <= i < |list| && list[i] == FirstUnique(reqs, list, unique).value &&
                forall j | 0 <= j < i && list[j] in reqs :: reqs[list[j]].unique != unique
  {
    if list != [] {
      FirstUniqueIff(reqs, list[1..], unique);
      if !(list[0] in reqs && reqs[list[0]].unique == unique) && FirstUnique(reqs, list[1..], unique).Some? {
        var i :| 0 <= i < |list[1..]| && list[1..][i] == FirstUnique(reqs, list, unique).value &&
          forall j | 0 <= j < i && list[1..][j] in reqs :: reqs[list[1..][j]].unique != unique;
        assert list[i + 1] == FirstUnique(reqs, list, unique).value;
        forall j | 0 <= j < i + 1 && list[j] in reqs
          ensures reqs[list[j]].unique != unique
        {
          assert j > 0 ==> list[j] == list[1..][j - 1];
        }
      }
    }
  }

  lemma {:induction false} FirstAimIff(reqs: map<Rid, Req>, pending: seq<Rid>, unique: nat)
    ensures match FirstAim(reqs, pending, unique)
            case Some(p) => p in pending && p in reqs && reqs[p].aim == unique
            case None => forall p | p in pending && p in reqs :: reqs[p].aim != unique
    ensures FirstAim(reqs, pending, unique).Some? ==>
              exists i :: 0 <= i < |pending| && pending[i] == FirstAim(reqs, pending, unique).value &&
                forall j | 0 <= j < i && pending[j] in reqs :: reqs[pending[j]].aim != unique
  {
    if pending != [] {
      FirstAimIff(reqs, pending[1..], unique);
      if !(pending[0] in reqs && reqs[pending[0]].aim == unique) && FirstAim(reqs, pending[1..], unique).Some? {
        var i :| 0 <= i < |pending[1..]| && pending[1..][i] == FirstAim(reqs, pending, unique).value &&
          forall j | 0 <= j < i && pending[1..][j] in reqs :: reqs[pending[1..][j]].aim != unique;
        assert pending[i + 1] == FirstAim(reqs, pending, unique).value;
        forall j | 0 <= j < i + 1 && pending[j] in reqs
          ensures reqs[pending[j]].aim != unique
        {
          assert j > 0 ==> pending[j] == pending[1..][j - 1];
        }
      }
    }
  }

  // ---------------------------------------------------------------- the steps

  function Update(s: State, x: Rid, r: Req): State {
    s.(reqs := s.reqs[x := r])
  }

  /** A request as `fuse_ll_alloc_req` sets it up */
  function NewReq(unique: nat, aim: nat, interrupted: bool): Req {
    Req(unique, aim, 1, interrupted, None, false, false)
  }

  /** `check_interrupt` and the listing of a request that has come in */
  ghost function DoArrive(s: State, r: Rid, unique: nat): State {
    var s1 := s.(list := s.list + [r], server := s.server[r := Serving]);
    match FirstAim(s.reqs, s.pending, unique)
    case Some(p) =>
      s1.(reqs := (s.reqs - {p})[r := NewReq(unique, 0, true)], pending := Without(s.pending, p),
          destroyed := s.destroyed + {p}, fate := s.fate[p := Marked(r)])
    case None =>
      var s2 := Update(s1, r, NewReq(unique, 0, false));
      if s.pending == [] then s2
      else s2.(pending := s.pending[1..], bouncing := s.bouncing + {s.pending[0]},
               fate := s.fate[s.pending[0] := Bounced])
  }

  /** `do_interrupt` and `find_interrupted`, as far as they go without t's lock */
  ghost function DoInterrupt(s: State, p: Rid, unique: nat, aim: nat): State {
    match FirstUnique(s.reqs, s.list, aim)
    case Some(t) =>
      var reqs := if t in s.reqs then s.reqs[t := s.reqs[t].(ctr := s.reqs[t].ctr + 1)] else s.reqs;
      s.(reqs := reqs[p := NewReq(unique, aim, false)], intr := s.intr[p := Found(t)], fate := s.fate[p := Working(t)])
    case None =>
      if FirstAim(s.reqs, s.pending, aim).Some? then
        s.(destroyed := s.destroyed + {p}, fate := s.fate[p := Duplicate])
      else
        s.(reqs := s.reqs[p := NewReq(unique, aim, false)], pending := s.pending + [p], fate := s.fate[p := Pending])
  }

  ghost predicate InPhase(s: State, p: Rid) {
    p in s.intr && s.intr[p].t in s.reqs
  }

  ghost function DoLockTarget(s: State, p: Rid): State
    requires InPhase(s, p)
  {
    var t := s.intr[p].t;
    Update(s, t, s.reqs[t].(locked := true)).(intr := s.intr[p := Locked(t)])
  }

  ghost function DoMarkTarget(s: State, p: Rid): State
    requires InPhase(s, p)
  {
    var t := s.intr[p].t;
    Update(s, t, s.reqs[t].(interrupted := true))
      .(intr := s.intr[p := Calling(t, s.reqs[t].func)], fate := s.fate[p := Marked(t)])
  }

  ghost function DoCallTarget(s: State, p: Rid): State
    requires InPhase(s, p) && s.intr[p].Calling?
  {
    var t, call := s.intr[p].t, s.intr[p].call;
    Update(s, t, s.reqs[t].(notified := s.reqs[t].notified || (call.Some? && call == s.reqs[t].func)))
      .(intr := s.intr[p := Called(t)])
  }

  ghost function DoUnlockTarget(s: State, p: Rid): State
    requires InPhase(s, p)
  {
    var t := s.intr[p].t;
    Update(s, t, s.reqs[t].(locked := false)).(intr := s.intr[p := Unlocked(t)])
  }

  /** The end of `find_interrupted` and `do_interrupt`: the INTERRUPT itself is destroyed, too. */
  ghost function DoPutTarget(s: State, p: Rid): State
    requires InPhase(s, p)
  {
    var t := s.intr[p].t;
    var s1 := Update(s, t, s.reqs[t].(ctr := s.reqs[t].ctr - 1)).(intr := s.intr - {p});
    var gone := {p} + if s1.reqs[t].ctr == 0 then {t} else {};
    s1.(reqs := s1.reqs - gone, destroyed := s.destroyed + gone)
  }

  ghost function DoLockForFunc(s: State, r: Rid, func: Option<Func>): State
    requires r in s.reqs
  {
    Update(s, r, s.reqs[r].(locked := true)).(server := s.server[r := Setting(func)])
  }

  ghost function DoSetFunc(s: State, r: Rid): State
    requires r in s.reqs && r in s.server && s.server[r].Setting?
  {
    var func := s.server[r].func;
    Update(s, r, s.reqs[r].(func := func, notified := false)).(server := s.server[r := Checking(func)])
  }

  ghost function DoCheckFunc(s: State, r: Rid): State
    requires r in s.reqs && r in s.server && s.server[r].Checking?
  {
    Update(s, r, s.reqs[r].(notified := s.reqs[r].notified || (s.reqs[r].interrupted && s.server[r].func.Some?)))
      .(server := s.server[r := Leaving])
  }

  ghost function DoUnlockForFunc(s: State, r: Rid): State
    requires r in s.reqs
  {
    Update(s, r, s.reqs[r].(locked := false)).(server := s.server[r := Serving])
  }

  /** `fuse_free_req`, up to the end of its critical section */
  ghost function DoFree(s: State, r: Rid): State
    requires r in s.reqs
  {
    var s1 := Update(s, r, s.reqs[r].(func := None, ctr := s.reqs[r].ctr - 1));
    s1.(list := Without(s.list, r), server := s.server - {r},
        dying := s.dying + if s1.reqs[r].ctr == 0 then {r} else {})
  }

  /** `fuse_free_req` of an INTERRUPT, which is on no list */
  ghost function DoFreeBounced(s: State, p: Rid): State
    requires p in s.reqs
  {
    var s1 := Update(s, p, s.reqs[p].(func := None, ctr := s.reqs[p].ctr - 1));
    s1.(bouncing := s.bouncing - {p}, dying := s.dying + if s1.reqs[p].ctr == 0 then {p} else {})
  }

  ghost function DoDestroy(s: State, r: Rid): State {
    s.(reqs := s.reqs - {r}, dying := s.dying - {r}, destroyed := s.destroyed + {r})
  }

  ghost predicate New(s: State, x: Rid) {
    x !in s.reqs && x !in s.destroyed && x !in s.fate
  }

  ghost predicate Served(s: State, r: Rid) {
    r in s.server && r in s.reqs
  }

  ghost predicate Enabled(s: State, ev: Event) {
    match ev
    case Arrive(r, _) => New(s, r)
    case Interrupt(p, _, _) => New(s, p)
    case LockTarget(p) => InPhase(s, p) && s.intr[p].Found? && !s.reqs[s.intr[p].t].locked
    case MarkTarget(p) => InPhase(s, p) && s.intr[p].Locked?
    case CallTarget(p) => InPhase(s, p) && s.intr[p].Calling?
    case UnlockTarget(p) => InPhase(s, p) && s.intr[p].Called?
    case PutTarget(p) => InPhase(s, p) && s.intr[p].Unlocked?
    case LockForFunc(r, _) => Served(s, r) && s.server[r].Serving? && !s.reqs[r].locked
    case SetFunc(r) => Served(s, r) && s.server[r].Setting?
    case CheckFunc(r) => Served(s, r) && s.server[r].Checking?
    case UnlockForFunc(r) => Served(s, r) && s.server[r].Leaving?
    case Free(r) => Served(s, r) && s.server[r].Serving?
    case FreeBounced(p) => p in s.bouncing && p in s.reqs
    case Destroy(r) => r in s.dying
  }

  ghost function Next(s: State, ev: Event): State
    requires Enabled(s, ev)
  {
    match ev
    case Arrive(r, unique) => DoArrive(s, r, unique)
    case Interrupt(p, unique, aim) => DoInterrupt(s, p, unique, aim)
    case LockTarget(p) => DoLockTarget(s, p)
    case MarkTarget(p) => DoMarkTarget(s, p)
    case CallTarget(p) => DoCallTarget(s, p)
    case UnlockTarget(p) => DoUnlockTarget(s, p)
    case PutTarget(p) => DoPutTarget(s, p)
    case LockForFunc(r, func) => DoLockForFunc(s, r, func)
    case SetFunc(r) => DoSetFunc(s, r)
    case CheckFunc(r) => DoCheckFunc(s, r)
    case UnlockForFunc(r) => DoUnlockForFunc(s, r)
    case Free(r) => DoFree(s, r)
    case FreeBounced(p) => DoFreeBounced(s, p)
    case Destroy(r) => DoDestroy(s, r)
  }

  // ---------------------------------------------------------------- the invariant

  /** The INTERRUPTs that have a reference to t, and those that have its lock. */
  ghost function Refs(intr: map<Rid, Phase>, t: Rid): set<Rid> {
    set p | p in intr && intr[p].t == t
  }

  predicate Holding(ph: Phase) {
    ph.Locked? || ph.Calling? || ph.Called?
  }

  ghost function LockRefs(intr: map<Rid, Phase>, t: Rid): set<Rid> {
    set p | p in intr && intr[p].t == t && Holding(intr[p])
  }

  /** x is on one of the lists, or in the hands of the thread that handles it. */
  ghost predicate Placed(s: State, x: Rid) {
    x in s.list || x in s.pending || x in s.intr || x in s.bouncing
  }

  ghost predicate CountOk(s: State, x: Rid)
    requires x in s.reqs
  {
    && s.reqs[x].ctr == (if Placed(s, x) then 1 else 0) + |Refs(s.intr, x)|
    && (s.reqs[x].ctr == 0 <==> x in s.dying)
  }

  ghost predicate LockOk(s: State, x: Rid)
    requires x in s.reqs
  {
    (if s.reqs[x].locked then 1 else 0) ==
      |LockRefs(s.intr, x)| + if x in s.server && !s.server[x].Serving? then 1 else 0
  }

  /**
    Only a listed request has a callback, no callback is called before the request is interrupted, and
    one that is owed a call is about to be called by a thread that holds the lock.
   */
  ghost predicate NotifyOk(s: State, x: Rid)
    requires x in s.reqs
  {
    && (x !in s.list ==> s.reqs[x].func == None)
    && (s.reqs[x].notified ==> s.reqs[x].interrupted)
    && (s.reqs[x].interrupted && s.reqs[x].func.Some? && !s.reqs[x].notified ==>
          || (exists p :: p in s.intr && s.intr[p] == Calling(x, s.reqs[x].func))
          || (x in s.server && s.server[x] == Checking(s.reqs[x].func)))
  }

  /**
    What a thread that works on an interrupt relies on; the callback it is about to call is the
    registered one, unless the request was answered meanwhile.
   */
  ghost predicate PhaseOk(s: State, p: Rid)
    requires p in s.intr
  {
    var ph := s.intr[p];
    && p in s.reqs && ph.t in s.reqs && ph.t !in s.fate && s.reqs[p].aim == s.reqs[ph.t].unique
    && (ph.Calling? ==>
        s.reqs[ph.t].interrupted && (s.reqs[ph.t].func == ph.call || (s.reqs[ph.t].func == None && ph.t !in s.list)))
    && p in s.fate && s.fate[p] == (if ph.Found? || ph.Locked? then Working(ph.t) else Marked(ph.t))
  }

  ghost predicate ServerOk(s: State, r: Rid)
    requires r in s.server
  {
    r in s.reqs && (s.server[r].Checking? ==> s.reqs[r].func == s.server[r].func)
  }

  ghost predicate ListsOk(s: State) {
    && Distinct(s.list) && Distinct(s.pending)
    && (forall x | x in s.list :: x in s.server && x !in s.pending && x !in s.intr && x !in s.bouncing && x !in s.dying)
    && (forall x | x in s.server :: x in s.list && x !in s.fate)
    && (forall x | x in s.pending ::
        x in s.reqs && x in s.fate && s.fate[x] == Pending && x !in s.intr && x !in s.bouncing && x !in s.dying)
    && (forall x | x in s.bouncing ::
        x in s.reqs && x in s.fate && s.fate[x] == Bounced && x !in s.intr && x !in s.dying)
    && (forall x | x in s.dying :: x in s.reqs && x !in s.intr)
    && s.reqs.Keys !! s.destroyed
  }

  /** No pending interrupt asks for a listed request, and no two ask for the same one. */
  ghost predicate PendingOk(s: State) {
    && (forall p, r | p in s.pending && r in s.list && p in s.reqs && r in s.reqs :: s.reqs[p].aim != s.reqs[r].unique)
    && (forall p, q |
          p in s.pending && q in s.pending && p in s.reqs && q in s.reqs && s.reqs[p].aim == s.reqs[q].aim :: p == q)
  }

  /** What is known of the fate of INTERRUPT p. */
  ghost predicate FateOk(s: State, p: Rid)
    requires p in s.fate
  {
    match s.fate[p]
    case Working(t) => p in s.intr
    case Pending => p in s.pending
    case Marked(t) => (t in s.reqs && s.reqs[t].interrupted) || t in s.destroyed
    case Bounced => p in s.bouncing || p in s.dying || p in s.destroyed
    case Duplicate => p in s.destroyed
  }

  ghost predicate Inv(s: State) {
    && ListsOk(s)
    && PendingOk(s)
    && (forall x {:trigger CountOk(s, x)} {:trigger LockOk(s, x)} {:trigger NotifyOk(s, x)} | x in s.reqs ::
          CountOk(s, x) && LockOk(s, x) && NotifyOk(s, x))
    && (forall p {:trigger PhaseOk(s, p)} | p in s.intr :: PhaseOk(s, p))
    && (forall r {:trigger ServerOk(s, r)} | r in s.server :: ServerOk(s, r))
    && (forall p {:trigger FateOk(s, p)} | p in s.fate :: FateOk(s, p))
  }

  // ---------------------------------------------------------------- steps that move one thread on

  lemma Singleton(a: set<Rid>, x: Rid, y: Rid)
    requires |a| <= 1 && x in a && y in a
    ensures x == y
  {
    assert |a - {x}| == |a| - 1;
    assert a - {x} == {};
  }

  lemma LockRefsIs(intr: map<Rid, Phase>, p: Rid, ph: Phase, x: Rid)
    requires p in intr && ph.t == intr[p].t
    ensures forall q :: q in LockRefs(intr[p := ph], x) <==>
              if q == p then ph.t == x && Holding(ph) else q in LockRefs(intr, x)
    ensures p in LockRefs(intr, x) <==> ph.t == x && Holding(intr[p])
  {
  }

  lemma LockRefsMove(intr: map<Rid, Phase>, p: Rid, ph: Phase, x: Rid)
    requires p in intr && ph.t == intr[p].t
    ensures Refs(intr[p := ph], x) == Refs(intr, x)
    ensures |LockRefs(intr[p := ph], x)| == |LockRefs(intr, x)|
              + (if x == ph.t && Holding(ph) then 1 else 0) - (if x == ph.t && Holding(intr[p]) then 1 else 0)
  {
    hide LockRefs;
    var l, l' := LockRefs(intr, x), LockRefs(intr[p := ph], x);
    LockRefsIs(intr, p, ph, x);
    if x == ph.t && Holding(ph) && !Holding(intr[p]) {
      assert l' == l + {p};
    } else if x == ph.t && !Holding(ph) && Holding(intr[p]) {
      assert l' == l - {p};
    } else {
      assert l' == l;
    }
  }

  /** Two requests in memory that differ in the progress of an interrupt at most. */
  ghost predicate Later(a: Req, b: Req) {
    b.unique == a.unique && b.aim == a.aim && b.ctr == a.ctr && (a.interrupted ==> b.interrupted)
  }

  /** The thread of INTERRUPT p moves to phase ph and changes its target on the way. */
  ghost function Moved(s: State, p: Rid, r: Req, ph: Phase, fate: Fate): State {
    s.(reqs := s.reqs[ph.t := r], intr := s.intr[p := ph], fate := s.fate[p := fate])
  }

  lemma MoveKeeps(s: State, p: Rid, r: Req, ph: Phase, fate: Fate)
    requires Inv(s) && InPhase(s, p) && ph.t == s.intr[p].t && Later(s.reqs[ph.t], r) && r.func == s.reqs[ph.t].func
    requires var s' := Moved(s, p, r, ph, fate);
             LockOk(s', ph.t) && NotifyOk(s', ph.t) && PhaseOk(s', p) && FateOk(s', p)
    ensures Inv(Moved(s, p, r, ph, fate))
  {
    hide CountOk, LockOk, NotifyOk, Distinct;
    var s' := Moved(s, p, r, ph, fate);
    forall x | x in s'.reqs
      ensures CountOk(s', x) && LockOk(s', x) && NotifyOk(s', x)
    {
      assert CountOk(s, x) && LockOk(s, x) && NotifyOk(s, x);
      MoveKeepsReq(s, p, r, ph, fate, x);
    }
    assert PhaseOk(s, p);
    MoveThreads(s, p, r, ph, fate);
    assert forall q {:trigger PhaseOk(s', q)} | q in s'.intr :: PhaseOk(s', q);
    assert forall x {:trigger ServerOk(s', x)} | x in s'.server :: ServerOk(s', x);
    assert forall q {:trigger FateOk(s', q)} | q in s'.fate :: FateOk(s', q);
  }

  lemma MoveThreads(s: State, p: Rid, r: Req, ph: Phase, fate: Fate)
    requires Inv(s) && InPhase(s, p) && ph.t == s.intr[p].t && Later(s.reqs[ph.t], r) && r.func == s.reqs[ph.t].func
    requires var s' := Moved(s, p, r, ph, fate);
             PhaseOk(s', p) && FateOk(s', p)
    ensures var s' := Moved(s, p, r, ph, fate);
            && (forall q {:trigger PhaseOk(s', q)} | q in s'.intr :: PhaseOk(s', q))
            && (forall x {:trigger ServerOk(s', x)} | x in s'.server :: ServerOk(s', x))
            && (forall q {:trigger FateOk(s', q)} | q in s'.fate :: FateOk(s', q))
  {
    hide CountOk, LockOk, NotifyOk, ListsOk, PendingOk;
    var s' := Moved(s, p, r, ph, fate);
    forall q | q in s'.intr
      ensures PhaseOk(s', q)
    {
      assert PhaseOk(s, p) && PhaseOk(s, q);
    }
    forall x | x in s'.server
      ensures ServerOk(s', x)
    {
      assert ServerOk(s, x);
    }
    forall q | q in s'.fate
      ensures FateOk(s', q)
    {
      assert PhaseOk(s, p);
      assert q != p ==> FateOk(s, q);
    }
  }

  lemma MoveKeepsReq(s: State, p: Rid, r: Req, ph: Phase, fate: Fate, x: Rid)
    requires InPhase(s, p) && ph.t == s.intr[p].t && r.ctr == s.reqs[ph.t].ctr
    requires x in s.reqs && CountOk(s, x) && LockOk(s, x) && NotifyOk(s, x)
    ensures var s' := Moved(s, p, r, ph, fate);
            CountOk(s', x) && (x != ph.t ==> LockOk(s', x) && NotifyOk(s', x))
  {
    hide Refs, LockRefs;
    var s' := Moved(s, p, r, ph, fate);
    LockRefsMove(s.intr, p, ph, x);
    if x != ph.t && s.reqs[x].interrupted && s.reqs[x].func.Some? && !s.reqs[x].notified
         && !(x in s.server && s.server[x] == Checking(s.reqs[x].func)) {
      var q :| q in s.intr && s.intr[q] == Calling(x, s.reqs[x].func);
      assert q in s'.intr && s'.intr[q] == Calling(x, s'.reqs[x].func);
    }
  }

  /** Who has t's lock has it alone. */
  lemma OnlyHolder(s: State, p: Rid)
    requires Inv(s) && p in s.intr && Holding(s.intr[p])
    ensures var t := s.intr[p].t;
            && t in s.reqs && s.reqs[t].locked
            && (t in s.server ==> s.server[t].Serving?)
            && forall q | q in s.intr && s.intr[q].t == t && Holding(s.intr[q]) :: q == p
  {
    var t := s.intr[p].t;
    assert PhaseOk(s, p) && LockOk(s, t);
    assert p in LockRefs(s.intr, t);
    forall q | q in s.intr && s.intr[q].t == t && Holding(s.intr[q])
      ensures q == p
    {
      Singleton(LockRefs(s.intr, t), p, q);
    }
  }

  lemma LockTargetKeeps(s: State, p: Rid)
    requires Inv(s) && Enabled(s, LockTarget(p))
    ensures Inv(DoLockTarget(s, p))
  {
    hide Refs, LockRefs, ListsOk, PendingOk;
    var t := s.intr[p].t;
    var r, ph := s.reqs[t].(locked := true), Locked(t);
    assert PhaseOk(s, p) && LockOk(s, t) && NotifyOk(s, t) && FateOk(s, p);
    LockRefsMove(s.intr, p, ph, t);
    var s' := Moved(s, p, r, ph, s.fate[p]);
    NotifyMoves(s, p, r, ph);
    MoveKeeps(s, p, r, ph, s.fate[p]);
    assert s' == DoLockTarget(s, p);
  }

  /** Leaving a phase other than Calling owes nobody a call that was not owed before. */
  lemma NotifyMoves(s: State, p: Rid, r: Req, ph: Phase)
    requires p in s.intr && ph.t in s.reqs && NotifyOk(s, ph.t) && !s.intr[p].Calling?
    requires Later(s.reqs[ph.t], r) && r.func == s.reqs[ph.t].func && r.interrupted == s.reqs[ph.t].interrupted
    requires r.notified == s.reqs[ph.t].notified
    ensures forall fate :: NotifyOk(Moved(s, p, r, ph, fate), ph.t)
  {
    var t := ph.t;
    if r.interrupted && r.func.Some? && !r.notified && !(t in s.server && s.server[t] == Checking(r.func)) {
      var q :| q in s.intr && s.intr[q] == Calling(t, r.func);
      forall fate
        ensures NotifyOk(Moved(s, p, r, ph, fate), t)
      {
        assert q in Moved(s, p, r, ph, fate).intr && Moved(s, p, r, ph, fate).intr[q] == Calling(t, r.func);
      }
    }
  }

  lemma MarkTargetKeeps(s: State, p: Rid)
    requires Inv(s) && Enabled(s, MarkTarget(p))
    ensures Inv(DoMarkTarget(s, p))
  {
    hide Refs, LockRefs, ListsOk, PendingOk;
    var t := s.intr[p].t;
    var r, ph := s.reqs[t].(interrupted := true), Calling(t, s.reqs[t].func);
    assert PhaseOk(s, p) && LockOk(s, t);
    LockRefsMove(s.intr, p, ph, t);
    var s' := Moved(s, p, r, ph, Marked(t));
    assert s'.intr[p] == Calling(t, s'.reqs[t].func);
    MoveKeeps(s, p, r, ph, Marked(t));
    assert s' == DoMarkTarget(s, p);
  }

  lemma CallTargetKeeps(s: State, p: Rid)
    requires Inv(s) && Enabled(s, CallTarget(p))
    ensures Inv(DoCallTarget(s, p))
  {
    hide Refs, LockRefs, ListsOk, PendingOk;
    var t, call := s.intr[p].t, s.intr[p].call;
    var r, ph := s.reqs[t].(notified := s.reqs[t].notified || (call.Some? && call == s.reqs[t].func)), Called(t);
    assert PhaseOk(s, p) && LockOk(s, t) && FateOk(s, p);
    LockRefsMove(s.intr, p, ph, t);
    MoveKeeps(s, p, r, ph, s.fate[p]);
    assert Moved(s, p, r, ph, s.fate[p]) == DoCallTarget(s, p);
  }

  lemma UnlockTargetKeeps(s: State, p: Rid)
    requires Inv(s) && Enabled(s, UnlockTarget(p))
    ensures Inv(DoUnlockTarget(s, p))
  {
    hide Refs, LockRefs, ListsOk, PendingOk;
    var t := s.intr[p].t;
    var r, ph := s.reqs[t].(locked := false), Unlocked(t);
    assert PhaseOk(s, p) && LockOk(s, t) && NotifyOk(s, t) && FateOk(s, p);
    LockRefsMove(s.intr, p, ph, t);
    NotifyMoves(s, p, r, ph);
    MoveKeeps(s, p, r, ph, s.fate[p]);
    assert Moved(s, p, r, ph, s.fate[p]) == DoUnlockTarget(s, p);
  }

  // ---------------------------------------------------------------- steps of the serving thread

  ghost function Serviced(s: State, r: Rid, req: Req, sv: Service): State {
    s.(reqs := s.reqs[r := req], server := s.server[r := sv])
  }

  lemma ServiceKeeps(s: State, r: Rid, req: Req, sv: Service)
    requires Inv(s) && Served(s, r) && Later(s.reqs[r], req)
    requires req.func == s.reqs[r].func || LockRefs(s.intr, r) == {}
    requires var s' := Serviced(s, r, req, sv);
             LockOk(s', r) && NotifyOk(s', r) && ServerOk(s', r)
    ensures Inv(Serviced(s, r, req, sv))
  {
    hide CountOk, LockOk, NotifyOk, Distinct;
    var s' := Serviced(s, r, req, sv);
    forall x | x in s'.reqs
      ensures CountOk(s', x) && LockOk(s', x) && NotifyOk(s', x)
    {
      assert CountOk(s, x) && LockOk(s, x) && NotifyOk(s, x);
      ServiceKeepsReq(s, r, req, sv, x);
    }
    forall q | q in s'.intr
      ensures PhaseOk(s', q)
    {
      assert PhaseOk(s, q);
      assert s.intr[q].Calling? && s.intr[q].t == r ==> q in LockRefs(s.intr, r);
    }
    forall x | x in s'.server
      ensures ServerOk(s', x)
    {
      assert x != r ==> ServerOk(s, x);
    }
    forall q | q in s'.fate
      ensures FateOk(s', q)
    {
      assert FateOk(s, q);
    }
  }

  lemma ServiceKeepsReq(s: State, r: Rid, req: Req, sv: Service, x: Rid)
    requires Served(s, r) && req.ctr == s.reqs[r].ctr
    requires x in s.reqs && CountOk(s, x) && LockOk(s, x) && NotifyOk(s, x)
    ensures var s' := Serviced(s, r, req, sv);
            CountOk(s', x) && (x != r ==> LockOk(s', x) && NotifyOk(s', x))
  {
    hide Refs, LockRefs;
  }

  lemma LockForFuncKeeps(s: State, r: Rid, func: Option<Func>)
    requires Inv(s) && Enabled(s, LockForFunc(r, func))
    ensures Inv(DoLockForFunc(s, r, func))
  {
    hide Refs, LockRefs, ListsOk, PendingOk;
    assert LockOk(s, r) && NotifyOk(s, r) && ServerOk(s, r);
    ServiceKeeps(s, r, s.reqs[r].(locked := true), Setting(func));
  }

  lemma ServedIsListed(s: State, r: Rid)
    requires Inv(s) && r in s.server
    ensures r in s.list
  {
  }

  lemma SetFuncKeeps(s: State, r: Rid)
    requires Inv(s) && Enabled(s, SetFunc(r))
    ensures Inv(DoSetFunc(s, r))
  {
    hide Refs, LockRefs, ListsOk, PendingOk;
    var func := s.server[r].func;
    assert LockOk(s, r) && ServerOk(s, r);
    ServedIsListed(s, r);
    assert |LockRefs(s.intr, r)| == 0;
    ServiceKeeps(s, r, s.reqs[r].(func := func, notified := false), Checking(func));
  }

  lemma CheckFuncKeeps(s: State, r: Rid)
    requires Inv(s) && Enabled(s, CheckFunc(r))
    ensures Inv(DoCheckFunc(s, r))
  {
    hide Refs, LockRefs, ListsOk, PendingOk;
    assert LockOk(s, r) && ServerOk(s, r);
    ServiceKeeps(s, r, s.reqs[r].(notified := s.reqs[r].notified || (s.reqs[r].interrupted && s.server[r].func.Some?)),
                 Leaving);
  }

  lemma UnlockForFuncKeeps(s: State, r: Rid)
    requires Inv(s) && Enabled(s, UnlockForFunc(r))
    ensures Inv(DoUnlockForFunc(s, r))
  {
    hide Refs, LockRefs, ListsOk, PendingOk;
    assert LockOk(s, r) && ServerOk(s, r) && NotifyOk(s, r);
    ServiceKeeps(s, r, s.reqs[r].(locked := false), Serving);
  }

  // ---------------------------------------------------------------- requests that come and go

  /** What Inv says of x when neither x nor anybody's phase changes. */
  ghost predicate ReqOk(s: State, x: Rid)
    requires x in s.reqs
  {
    CountOk(s, x) && LockOk(s, x) && NotifyOk(s, x)
  }

  /** The rest of Inv. */
  ghost predicate ThreadsOk(s: State) {
    && (forall p {:trigger PhaseOk(s, p)} | p in s.intr :: PhaseOk(s, p))
    && (forall r {:trigger ServerOk(s, r)} | r in s.server :: ServerOk(s, r))
    && (forall p {:trigger FateOk(s, p)} | p in s.fate :: FateOk(s, p))
  }

  lemma InvFrom(s: State)
    requires ListsOk(s) && PendingOk(s) && ThreadsOk(s)
    requires forall x {:trigger ReqOk(s, x)} | x in s.reqs :: ReqOk(s, x)
    ensures Inv(s)
  {
    hide ListsOk, PendingOk, CountOk, LockOk, NotifyOk, PhaseOk, ServerOk, FateOk;
    forall x | x in s.reqs
      ensures CountOk(s, x) && LockOk(s, x) && NotifyOk(s, x)
    {
      assert ReqOk(s, x);
    }
  }

  /** Nothing refers to an INTERRUPT, nor to a request that is not in memory. */
  lemma NoRefs(s: State, x: Rid)
    requires Inv(s) && (x in s.fate || x !in s.reqs)
    ensures Refs(s.intr, x) == {} && LockRefs(s.intr, x) == {}
    ensures forall p | p in s.intr :: s.intr[p].t != x
  {
    forall p | p in s.intr
      ensures s.intr[p].t != x
    {
      assert PhaseOk(s, p);
    }
  }

  lemma FreeLists(s: State, r: Rid)
    requires Inv(s) && Enabled(s, Free(r))
    ensures var s' := DoFree(s, r); ListsOk(s') && PendingOk(s')
  {
    hide LockOk, NotifyOk, Distinct, PhaseOk, ServerOk, FateOk, Refs, Without, PendingOk;
    assert CountOk(s, r);
    WithoutIs(s.list, r);
    assert r in s.list;
    PendingStill(s, DoFree(s, r));
  }

  lemma PendingStill(s: State, s': State)
    requires PendingOk(s) && s'.pending == s.pending && forall x | x in s'.list :: x in s.list
    requires forall x | x in s'.reqs ::
               x in s.reqs && s'.reqs[x].aim == s.reqs[x].aim && s'.reqs[x].unique == s.reqs[x].unique
    ensures PendingOk(s')
  {
  }

  lemma FreeThreads(s: State, r: Rid)
    requires Inv(s) && Enabled(s, Free(r))
    ensures ThreadsOk(DoFree(s, r))
  {
    hide CountOk, LockOk, NotifyOk, Distinct, PendingOk, Without;
    var s' := DoFree(s, r);
    WithoutIs(s.list, r);
    forall p | p in s'.intr
      ensures PhaseOk(s', p)
    {
      assert PhaseOk(s, p);
    }
    forall x | x in s'.server
      ensures ServerOk(s', x)
    {
      assert ServerOk(s, x);
    }
    forall p | p in s'.fate
      ensures FateOk(s', p)
    {
      assert FateOk(s, p);
    }
  }

  lemma FreeKeeps(s: State, r: Rid)
    requires Inv(s) && Enabled(s, Free(r))
    ensures Inv(DoFree(s, r))
  {
    hide Refs, LockRefs, ThreadsOk, PendingOk, Distinct;
    var s' := DoFree(s, r);
    FreeLists(s, r);
    FreeThreads(s, r);
    WithoutIs(s.list, r);
    forall x | x in s'.reqs
      ensures ReqOk(s', x)
    {
      assert CountOk(s, x) && LockOk(s, x) && NotifyOk(s, x);
    }
    InvFrom(s');
  }

  lemma FreeBouncedKeeps(s: State, p: Rid)
    requires Inv(s) && Enabled(s, FreeBounced(p))
    ensures Inv(DoFreeBounced(s, p))
  {
    hide Distinct, Refs, LockRefs, ThreadsOk, PendingOk, LockOk, NotifyOk, ReqOk;
    var s' := DoFreeBounced(s, p);
    NoRefs(s, p);
    assert CountOk(s, p);
    forall x | x in s'.reqs
      ensures ReqOk(s', x)
    {
      FreeBouncedReqs(s, p, x);
    }
    FreeBouncedThreads(s, p);
    PendingStill(s, s');
    InvFrom(s');
  }

  lemma FreeBouncedReqs(s: State, p: Rid, x: Rid)
    requires Inv(s) && Enabled(s, FreeBounced(p)) && x in s.reqs
    ensures ReqOk(DoFreeBounced(s, p), x)
  {
    hide Distinct, Refs, LockRefs, ThreadsOk, PendingOk;
    NoRefs(s, p);
    assert CountOk(s, x) && LockOk(s, x) && NotifyOk(s, x);
  }

  lemma FreeBouncedThreads(s: State, p: Rid)
    requires Inv(s) && Enabled(s, FreeBounced(p)) && CountOk(s, p) && Refs(s.intr, p) == {}
    ensures ThreadsOk(DoFreeBounced(s, p))
  {
    hide LockOk, NotifyOk, Distinct, PendingOk;
    var s' := DoFreeBounced(s, p);
    forall q | q in s'.intr
      ensures PhaseOk(s', q)
    {
      assert PhaseOk(s, q);
    }
    forall x | x in s'.server
      ensures ServerOk(s', x)
    {
      assert ServerOk(s, x);
    }
    forall q | q in s'.fate
      ensures FateOk(s', q)
    {
      assert FateOk(s, q);
    }
  }

  /** The memory of x goes, which nobody refers to. */
  lemma DestroyKeeps(s: State, r: Rid)
    requires Inv(s) && Enabled(s, Destroy(r))
    ensures Inv(DoDestroy(s, r))
  {
    hide Distinct, Refs, LockRefs;
    var s' := DoDestroy(s, r);
    assert CountOk(s, r);
    assert |Refs(s.intr, r)| == 0;
    NobodyRefers(s.intr, r);
    forall x | x in s'.reqs
      ensures ReqOk(s', x)
    {
      assert CountOk(s, x) && LockOk(s, x) && NotifyOk(s, x);
    }
    assert ThreadsOk(s') by {
      DestroyThreads(s, r);
    }
    InvFrom(s');
  }

  lemma NobodyRefers(intr: map<Rid, Phase>, x: Rid)
    requires |Refs(intr, x)| == 0
    ensures forall p | p in intr :: intr[p].t != x
  {
    assert forall p | p in intr && intr[p].t == x :: p in Refs(intr, x);
  }

  lemma DestroyThreads(s: State, r: Rid)
    requires Inv(s) && r in s.dying && forall p | p in s.intr :: s.intr[p].t != r
    ensures ThreadsOk(DoDestroy(s, r))
  {
    hide CountOk, LockOk, NotifyOk, Distinct;
    var s' := DoDestroy(s, r);
    forall q | q in s'.intr
      ensures PhaseOk(s', q)
    {
      assert PhaseOk(s, q);
    }
    forall x | x in s'.server
      ensures ServerOk(s', x)
    {
      assert ServerOk(s, x);
    }
    forall q | q in s'.fate
      ensures FateOk(s', q)
    {
      assert FateOk(s, q);
    }
  }

  lemma RefsLess(intr: map<Rid, Phase>, p: Rid, x: Rid)
    requires p in intr && intr[p].Unlocked?
    ensures |Refs(intr - {p}, x)| == |Refs(intr, x)| - (if intr[p].t == x then 1 else 0)
    ensures LockRefs(intr - {p}, x) == LockRefs(intr, x)
  {
    assert p in Refs(intr, x) <==> intr[p].t == x;
    assert Refs(intr - {p}, x) == Refs(intr, x) - {p};
    assert p !in LockRefs(intr, x);
    assert forall q :: q in LockRefs(intr - {p}, x) <==> q in LockRefs(intr, x);
  }

  lemma RefsMore(intr: map<Rid, Phase>, p: Rid, t: Rid, x: Rid)
    requires p !in intr
    ensures |Refs(intr[p := Found(t)], x)| == |Refs(intr, x)| + (if t == x then 1 else 0)
    ensures LockRefs(intr[p := Found(t)], x) == LockRefs(intr, x)
  {
    hide LockRefs;
    assert forall q :: q in LockRefs(intr[p := Found(t)], x) <==> q in LockRefs(intr, x) by {
      LockRefsFound(intr, p, t, x);
    }
    if t == x {
      assert Refs(intr[p := Found(t)], x) == Refs(intr, x) + {p};
    } else {
      assert Refs(intr[p := Found(t)], x) == Refs(intr, x);
    }
  }

  lemma LockRefsFound(intr: map<Rid, Phase>, p: Rid, t: Rid, x: Rid)
    requires p !in intr
    ensures forall q :: q in LockRefs(intr[p := Found(t)], x) <==> q in LockRefs(intr, x)
  {
  }

  lemma PutTargetReqs(s: State, p: Rid, x: Rid)
    requires Inv(s) && Enabled(s, PutTarget(p)) && x in DoPutTarget(s, p).reqs
    ensures ReqOk(DoPutTarget(s, p), x)
  {
    hide Refs, LockRefs, ThreadsOk, PendingOk, Distinct, FateOk;
    assert CountOk(s, x) && LockOk(s, x) && NotifyOk(s, x) && PhaseOk(s, p);
    RefsLess(s.intr, p, x);
    var s' := DoPutTarget(s, p);
    if s.reqs[x].interrupted && s.reqs[x].func.Some? && !s.reqs[x].notified
         && !(x in s.server && s.server[x] == Checking(s.reqs[x].func)) {
      var q :| q in s.intr && s.intr[q] == Calling(x, s.reqs[x].func);
      assert q in s'.intr && s'.intr[q] == Calling(x, s'.reqs[x].func);
    }
  }

  /** A target that is destroyed is on no list, and no other thread refers to it. */
  lemma LastReference(s: State, p: Rid)
    requires Inv(s) && Enabled(s, PutTarget(p))
    ensures var t := s.intr[p].t;
            && t in s.reqs && t != p && p in s.reqs && p in s.fate && t !in s.fate
            && (s.reqs[t].ctr == 1 ==>
                && !Placed(s, t) && t !in s.server && t !in s.dying
                && forall q | q in s.intr && q != p :: s.intr[q].t != t)
  {
    hide LockRefs, PendingOk, Distinct, FateOk;
    var t := s.intr[p].t;
    assert PhaseOk(s, p) && CountOk(s, t);
    assert p in Refs(s.intr, t);
    if s.reqs[t].ctr == 1 {
      assert |Refs(s.intr, t)| >= 1;
      forall q | q in s.intr && q != p
        ensures s.intr[q].t != t
      {
        if s.intr[q].t == t {
          assert q in Refs(s.intr, t);
          Singleton(Refs(s.intr, t), p, q);
          assert false;
        }
      }
    }
  }

  lemma PutTargetThreads(s: State, p: Rid)
    requires Inv(s) && Enabled(s, PutTarget(p))
    ensures ThreadsOk(DoPutTarget(s, p))
  {
    hide CountOk, LockOk, NotifyOk, Distinct, PendingOk;
    var s' := DoPutTarget(s, p);
    LastReference(s, p);
    assert PhaseOk(s, p);
    forall q | q in s'.intr
      ensures PhaseOk(s', q)
    {
      assert PhaseOk(s, q);
    }
    forall x | x in s'.server
      ensures ServerOk(s', x)
    {
      assert ServerOk(s, x);
    }
    forall q | q in s'.fate
      ensures FateOk(s', q)
    {
      assert FateOk(s, q);
    }
  }

  lemma PutTargetLists(s: State, p: Rid)
    requires Inv(s) && Enabled(s, PutTarget(p))
    ensures ListsOk(DoPutTarget(s, p))
  {
    hide CountOk, LockOk, NotifyOk, Distinct, PendingOk, PhaseOk, ServerOk, FateOk;
    LastReference(s, p);
  }

  lemma PutTargetKeeps(s: State, p: Rid)
    requires Inv(s) && Enabled(s, PutTarget(p))
    ensures Inv(DoPutTarget(s, p))
  {
    hide CountOk, LockOk, NotifyOk, ListsOk, PendingOk, ThreadsOk, ReqOk, PhaseOk, ServerOk, FateOk;
    var s' := DoPutTarget(s, p);
    LastReference(s, p);
    PutTargetLists(s, p);
    PutTargetThreads(s, p);
    PendingStill(s, s');
    forall x | x in s'.reqs
      ensures ReqOk(s', x)
    {
      PutTargetReqs(s, p, x);
    }
    InvFrom(s');
  }

  // ---------------------------------------------------------------- an INTERRUPT comes in

  lemma NewIsNowhere(s: State, x: Rid)
    requires Inv(s) && New(s, x)
    ensures !Placed(s, x) && x !in s.server && x !in s.dying
    ensures Refs(s.intr, x) == {} && LockRefs(s.intr, x) == {}
    ensures forall p | p in s.intr :: s.intr[p].t != x
  {
    hide CountOk, LockOk, NotifyOk, Distinct;
    NoRefs(s, x);
    assert x in s.intr ==> PhaseOk(s, x);
    assert x in s.list ==> ServerOk(s, x);
  }

  /** An INTERRUPT whose target is on the list gets a reference to it. */
  lemma InterruptFound(s: State, p: Rid, unique: nat, aim: nat)
    requires Inv(s) && New(s, p) && FirstUnique(s.reqs, s.list, aim).Some?
    ensures Inv(DoInterrupt(s, p, unique, aim))
  {
    hide Inv, ListsOk, PendingOk, ThreadsOk, ReqOk, New, FirstUnique;
    var s' := DoInterrupt(s, p, unique, aim);
    FoundLists(s, p, unique, aim);
    FoundThreads(s, p, unique, aim);
    forall x | x in s'.reqs
      ensures ReqOk(s', x)
    {
      FoundReqs(s, p, unique, aim, x);
    }
    InvFrom(s');
  }

  lemma FoundLists(s: State, p: Rid, unique: nat, aim: nat)
    requires Inv(s) && New(s, p) && FirstUnique(s.reqs, s.list, aim).Some?
    ensures var s' := DoInterrupt(s, p, unique, aim); ListsOk(s') && PendingOk(s')
  {
    hide CountOk, LockOk, NotifyOk, PhaseOk, ServerOk, FateOk, Distinct, FirstUnique, Refs, LockRefs;
    FirstUniqueIff(s.reqs, s.list, aim);
    NewIsNowhere(s, p);
  }

  lemma FoundReqs(s: State, p: Rid, unique: nat, aim: nat, x: Rid)
    requires Inv(s) && New(s, p) && FirstUnique(s.reqs, s.list, aim).Some? && x in DoInterrupt(s, p, unique, aim).reqs
    ensures ReqOk(DoInterrupt(s, p, unique, aim), x)
  {
    hide Refs, LockRefs, PhaseOk, FateOk, PendingOk, Distinct, FirstUnique;
    var s', t := DoInterrupt(s, p, unique, aim), FirstUnique(s.reqs, s.list, aim).value;
    FirstUniqueIff(s.reqs, s.list, aim);
    NewIsNowhere(s, p);
    RefsMore(s.intr, p, t, x);
    if x != p {
      assert CountOk(s, x) && LockOk(s, x) && NotifyOk(s, x);
      if s.reqs[x].interrupted && s.reqs[x].func.Some? && !s.reqs[x].notified
           && !(x in s.server && s.server[x] == Checking(s.reqs[x].func)) {
        var q :| q in s.intr && s.intr[q] == Calling(x, s.reqs[x].func);
        assert q in s'.intr && s'.intr[q] == Calling(x, s'.reqs[x].func);
      }
    }
  }

  lemma FoundThreads(s: State, p: Rid, unique: nat, aim: nat)
    requires Inv(s) && New(s, p) && FirstUnique(s.reqs, s.list, aim).Some?
    ensures ThreadsOk(DoInterrupt(s, p, unique, aim))
  {
    hide CountOk, LockOk, NotifyOk, PendingOk, Distinct, FirstUnique, Refs, LockRefs;
    var s', t := DoInterrupt(s, p, unique, aim), FirstUnique(s.reqs, s.list, aim).value;
    FirstUniqueIff(s.reqs, s.list, aim);
    NewIsNowhere(s, p);
    forall q | q in s'.intr
      ensures PhaseOk(s', q)
    {
      assert q != p ==> PhaseOk(s, q);
    }
    forall x | x in s'.server
      ensures ServerOk(s', x)
    {
      assert ServerOk(s, x);
    }
    forall q | q in s'.fate
      ensures FateOk(s', q)
    {
      assert q != p ==> FateOk(s, q);
    }
  }

  /** An INTERRUPT whose target is not on the list waits for it, unless another one does already. */
  lemma InterruptPending(s: State, p: Rid, unique: nat, aim: nat)
    requires Inv(s) && New(s, p) && FirstUnique(s.reqs, s.list, aim).None?
    ensures Inv(DoInterrupt(s, p, unique, aim))
  {
    hide Inv, ListsOk, PendingOk, ThreadsOk, ReqOk, New, FirstUnique, FirstAim;
    var s' := DoInterrupt(s, p, unique, aim);
    PendingLists(s, p, unique, aim);
    PendingApart(s, p, unique, aim);
    PendingThreads(s, p, unique, aim);
    forall x | x in s'.reqs
      ensures ReqOk(s', x)
    {
      PendingReqs(s, p, unique, aim, x);
    }
    InvFrom(s');
  }

  lemma PendingLists(s: State, p: Rid, unique: nat, aim: nat)
    requires Inv(s) && New(s, p) && FirstUnique(s.reqs, s.list, aim).None?
    ensures ListsOk(DoInterrupt(s, p, unique, aim))
  {
    hide CountOk, LockOk, NotifyOk, PhaseOk, ServerOk, FateOk, PendingOk, Distinct, FirstUnique, FirstAim, Refs,
         LockRefs;
    NewIsNowhere(s, p);
    AppendDistinct(s.pending, p);
  }

  lemma PendingApart(s: State, p: Rid, unique: nat, aim: nat)
    requires Inv(s) && New(s, p) && FirstUnique(s.reqs, s.list, aim).None?
    ensures PendingOk(DoInterrupt(s, p, unique, aim))
  {
    hide CountOk, LockOk, NotifyOk, PhaseOk, ServerOk, FateOk, Distinct, FirstUnique, FirstAim, Refs, LockRefs;
    FirstUniqueIff(s.reqs, s.list, aim);
    FirstAimIff(s.reqs, s.pending, aim);
    NewIsNowhere(s, p);
    AppendDistinct(s.pending, p);
  }

  lemma PendingReqs(s: State, p: Rid, unique: nat, aim: nat, x: Rid)
    requires Inv(s) && New(s, p) && FirstUnique(s.reqs, s.list, aim).None? && x in DoInterrupt(s, p, unique, aim).reqs
    ensures ReqOk(DoInterrupt(s, p, unique, aim), x)
  {
    hide Refs, LockRefs, PhaseOk, FateOk, PendingOk, Distinct, FirstUnique, FirstAim;
    NewIsNowhere(s, p);
    if x != p {
      assert CountOk(s, x) && LockOk(s, x) && NotifyOk(s, x);
    }
  }

  lemma PendingThreads(s: State, p: Rid, unique: nat, aim: nat)
    requires Inv(s) && New(s, p) && FirstUnique(s.reqs, s.list, aim).None?
    ensures ThreadsOk(DoInterrupt(s, p, unique, aim))
  {
    hide CountOk, LockOk, NotifyOk, PendingOk, Distinct, FirstUnique, FirstAim, Refs, LockRefs;
    var s' := DoInterrupt(s, p, unique, aim);
    NewIsNowhere(s, p);
    forall q | q in s'.intr
      ensures PhaseOk(s', q)
    {
      assert PhaseOk(s, q);
    }
    forall x | x in s'.server
      ensures ServerOk(s', x)
    {
      assert ServerOk(s, x);
    }
    forall q | q in s'.fate
      ensures FateOk(s', q)
    {
      assert q != p ==> FateOk(s, q);
    }
  }

  // ---------------------------------------------------------------- a request comes in

  lemma ArriveThreads(s: State, r: Rid, unique: nat)
    requires Inv(s) && New(s, r)
    ensures ThreadsOk(DoArrive(s, r, unique))
  {
    hide CountOk, LockOk, NotifyOk, FateOk, PhaseOk, Distinct, FirstAim, Refs, LockRefs, Without, PendingOk;
    var s' := DoArrive(s, r, unique);
    NewIsNowhere(s, r);
    FirstAimIff(s.reqs, s.pending, unique);
    forall q | q in s'.intr
      ensures PhaseOk(s', q)
    {
      ArrivePhase(s, r, unique, q);
    }
    forall x | x in s'.server
      ensures ServerOk(s', x)
    {
      assert x != r ==> ServerOk(s, x);
    }
    forall q | q in s'.fate
      ensures FateOk(s', q)
    {
      ArriveFate(s, r, unique, q);
    }
  }

  lemma ArrivePhase(s: State, r: Rid, unique: nat, q: Rid)
    requires Inv(s) && New(s, r) && q in s.intr
    ensures PhaseOk(DoArrive(s, r, unique), q)
  {
    hide CountOk, LockOk, NotifyOk, FateOk, ServerOk, Distinct, FirstAim, Refs, LockRefs, Without, PendingOk;
    NewIsNowhere(s, r);
    FirstAimIff(s.reqs, s.pending, unique);
    assert PhaseOk(s, q);
  }

  lemma ArriveFate(s: State, r: Rid, unique: nat, q: Rid)
    requires Inv(s) && New(s, r) && q in DoArrive(s, r, unique).fate
    ensures FateOk(DoArrive(s, r, unique), q)
  {
    hide CountOk, LockOk, NotifyOk, PhaseOk, ServerOk, Distinct, FirstAim, Refs, LockRefs, Without, PendingOk;
    NewIsNowhere(s, r);
    FirstAimIff(s.reqs, s.pending, unique);
    WithoutPending(s, unique);
    assert FateOk(s, q);
  }

  lemma WithoutPending(s: State, unique: nat)
    requires Inv(s)
    ensures var p := FirstAim(s.reqs, s.pending, unique);
            p.Some? ==>
              && Distinct(Without(s.pending, p.value))
              && forall q :: q in Without(s.pending, p.value) <==> q in s.pending && q != p.value
    ensures s.pending != [] ==>
              && Distinct(s.pending[1..]) && s.pending[0] in s.pending
              && forall q :: q in s.pending[1..] <==> q in s.pending && q != s.pending[0]
  {
    hide CountOk, LockOk, NotifyOk, PhaseOk, ServerOk, FateOk;
    var p := FirstAim(s.reqs, s.pending, unique);
    if p.Some? {
      WithoutIs(s.pending, p.value);
    }
    if s.pending != [] {
      WithoutIs(s.pending, s.pending[0]);
    }
  }

  lemma ArriveLists(s: State, r: Rid, unique: nat)
    requires Inv(s) && New(s, r)
    ensures ListsOk(DoArrive(s, r, unique))
  {
    hide Inv, ListsOk;
    if FirstAim(s.reqs, s.pending, unique).Some? {
      MatchedLists(s, r, unique);
    } else {
      UnmatchedLists(s, r, unique);
    }
  }

  lemma MatchedLists(s: State, r: Rid, unique: nat)
    requires Inv(s) && New(s, r) && FirstAim(s.reqs, s.pending, unique).Some?
    ensures ListsOk(DoArrive(s, r, unique))
  {
    hide CountOk, LockOk, NotifyOk, PhaseOk, ServerOk, FateOk, FirstAim, Without, Refs, LockRefs, PendingOk, Distinct;
    NewIsNowhere(s, r);
    FirstAimIff(s.reqs, s.pending, unique);
    WithoutPending(s, unique);
    AppendDistinct(s.list, r);
  }

  lemma UnmatchedLists(s: State, r: Rid, unique: nat)
    requires Inv(s) && New(s, r) && FirstAim(s.reqs, s.pending, unique).None?
    ensures ListsOk(DoArrive(s, r, unique))
  {
    hide CountOk, LockOk, NotifyOk, PhaseOk, ServerOk, FateOk, FirstAim, Without, Refs, LockRefs, PendingOk, Distinct;
    NewIsNowhere(s, r);
    FirstAimIff(s.reqs, s.pending, unique);
    WithoutPending(s, unique);
    AppendDistinct(s.list, r);
  }

  lemma ArrivePending(s: State, r: Rid, unique: nat)
    requires Inv(s) && New(s, r)
    ensures PendingOk(DoArrive(s, r, unique))
  {
    hide CountOk, LockOk, NotifyOk, PhaseOk, ServerOk, FateOk, FirstAim, Without, Refs, LockRefs, Distinct;
    NewIsNowhere(s, r);
    FirstAimIff(s.reqs, s.pending, unique);
    WithoutPending(s, unique);
  }

  lemma ArriveReqs(s: State, r: Rid, unique: nat, x: Rid)
    requires Inv(s) && New(s, r) && x in DoArrive(s, r, unique).reqs
    ensures ReqOk(DoArrive(s, r, unique), x)
  {
    hide Inv, ReqOk;
    if FirstAim(s.reqs, s.pending, unique).Some? {
      MatchedReqs(s, r, unique, x);
    } else {
      UnmatchedReqs(s, r, unique, x);
    }
  }

  lemma MatchedReqs(s: State, r: Rid, unique: nat, x: Rid)
    requires Inv(s) && New(s, r) && x in DoArrive(s, r, unique).reqs && FirstAim(s.reqs, s.pending, unique).Some?
    ensures ReqOk(DoArrive(s, r, unique), x)
  {
    hide Refs, LockRefs, PhaseOk, FateOk, PendingOk, Distinct, FirstAim, Without;
    NewIsNowhere(s, r);
    FirstAimIff(s.reqs, s.pending, unique);
    WithoutPending(s, unique);
    if x != r {
      assert CountOk(s, x) && LockOk(s, x) && NotifyOk(s, x);
    }
  }

  lemma UnmatchedReqs(s: State, r: Rid, unique: nat, x: Rid)
    requires Inv(s) && New(s, r) && x in DoArrive(s, r, unique).reqs && FirstAim(s.reqs, s.pending, unique).None?
    ensures ReqOk(DoArrive(s, r, unique), x)
  {
    hide Refs, LockRefs, PhaseOk, FateOk, PendingOk, Distinct, FirstAim, Without;
    NewIsNowhere(s, r);
    FirstAimIff(s.reqs, s.pending, unique);
    WithoutPending(s, unique);
    if x != r {
      assert CountOk(s, x) && LockOk(s, x) && NotifyOk(s, x);
    }
  }

  /** A request that has come in is marked by the interrupt that waited for it, or one is bounced. */
  lemma ArriveKeeps(s: State, r: Rid, unique: nat)
    requires Inv(s) && New(s, r)
    ensures Inv(DoArrive(s, r, unique))
  {
    hide Inv, ListsOk, PendingOk, ThreadsOk, ReqOk, New, DoArrive;
    var s' := DoArrive(s, r, unique);
    ArriveLists(s, r, unique);
    ArrivePending(s, r, unique);
    ArriveThreads(s, r, unique);
    forall x | x in s'.reqs
      ensures ReqOk(s', x)
    {
      ArriveReqs(s, r, unique, x);
    }
    InvFrom(s');
  }

  // ---------------------------------------------------------------- every run

  lemma StepKeeps(s: State, ev: Event)
    requires Inv(s) && Enabled(s, ev)
    ensures Inv(Next(s, ev))
  {
    hide Inv, New, Served, InPhase;
    match ev
    case Arrive(r, unique) => ArriveKeeps(s, r, unique);
    case Interrupt(p, unique, aim) =>
      if FirstUnique(s.reqs, s.list, aim).Some? {
        InterruptFound(s, p, unique, aim);
      } else {
        InterruptPending(s, p, unique, aim);
      }
    case LockTarget(p) => LockTargetKeeps(s, p);
    case MarkTarget(p) => MarkTargetKeeps(s, p);
    case CallTarget(p) => CallTargetKeeps(s, p);
    case UnlockTarget(p) => UnlockTargetKeeps(s, p);
    case PutTarget(p) => PutTargetKeeps(s, p);
    case LockForFunc(r, func) => LockForFuncKeeps(s, r, func);
    case SetFunc(r) => SetFuncKeeps(s, r);
    case CheckFunc(r) => CheckFuncKeeps(s, r);
    case UnlockForFunc(r) => UnlockForFuncKeeps(s, r);
    case Free(r) => FreeKeeps(s, r);
    case FreeBounced(p) => FreeBouncedKeeps(s, p);
    case Destroy(r) => DestroyKeeps(s, r);
  }

  ghost predicate Init(s: State) {
    s == State(map[], [], [], map[], {}, map[], {}, {}, map[])
  }

  ghost predicate IsRun(run: seq<State>, evs: seq<Event>) {
    && |run| == |evs| + 1 && Init(run[0])
    && forall i | 0 <= i < |evs| :: Enabled(run[i], evs[i]) && run[i + 1] == Next(run[i], evs[i])
  }

  lemma {:induction false} RunKeepsInv(run: seq<State>, evs: seq<Event>, i: nat)
    requires IsRun(run, evs) && i < |run|
    ensures Inv(run[i])
    decreases i
  {
    if i > 0 {
      RunKeepsInv(run, evs, i - 1);
      StepKeeps(run[i - 1], evs[i - 1]);
    }
  }

  // ---------------------------------------------------------------- what the invariant means

  /** Whenever the lock of an interrupted request is free, its callback has been called. */
  lemma InterruptsNotLost(run: seq<State>, evs: seq<Event>, i: nat, x: Rid)
    requires IsRun(run, evs) && i < |run| && x in run[i].reqs
    requires !run[i].reqs[x].locked && run[i].reqs[x].interrupted && run[i].reqs[x].func.Some?
    ensures run[i].reqs[x].notified
  {
    hide ListsOk, PendingOk, PhaseOk, ServerOk, FateOk;
    RunKeepsInv(run, evs, i);
    var s := run[i];
    assert CountOk(s, x) && LockOk(s, x) && NotifyOk(s, x);
    assert forall p | p in s.intr && s.intr[p].t == x && Holding(s.intr[p]) :: p in LockRefs(s.intr, x);
    assert LockRefs(s.intr, x) == {};
  }

  /**
    The callback that a thread is about to call is the one registered at that moment, unless the
    request has been answered since the thread read it.
   */
  lemma CallbackIsCurrent(run: seq<State>, evs: seq<Event>, i: nat, p: Rid)
    requires IsRun(run, evs) && i < |run| && p in run[i].intr && run[i].intr[p].Calling?
    ensures var s, t := run[i], run[i].intr[p].t;
            t in s.reqs && s.reqs[t].interrupted
              && (s.reqs[t].func == s.intr[p].call <==> s.intr[p].call == None || t in s.list)
  {
    hide ListsOk, PendingOk, CountOk, LockOk, ServerOk, FateOk;
    RunKeepsInv(run, evs, i);
    assert PhaseOk(run[i], p) && NotifyOk(run[i], run[i].intr[p].t);
  }

  /** In every reachable state no pending interrupt asks for a request that is on the list. */
  lemma PendingMatchesNothing(run: seq<State>, evs: seq<Event>, i: nat, p: Rid, r: Rid)
    requires IsRun(run, evs) && i < |run| && p in run[i].pending && r in run[i].list
    ensures p in run[i].reqs && r in run[i].reqs && run[i].reqs[p].aim != run[i].reqs[r].unique
  {
    hide CountOk, LockOk, NotifyOk, PhaseOk, FateOk;
    RunKeepsInv(run, evs, i);
    assert ServerOk(run[i], r);
  }

  /**
    What an INTERRUPT has done when it has come in: it has a reference to the first listed request it
    asks for, or is a duplicate of a pending one and destroyed, or is the last of the pending ones.
   */
  ghost predicate Searched(s: State, s': State, p: Rid, unique: nat, aim: nat, found: Option<Rid>) {
    && s'.list == s.list && s'.bouncing == s.bouncing && p in s'.fate
    && (found.Some? <==> exists r :: r in s.list && r in s.reqs && s.reqs[r].unique == aim)
    && (found.Some? ==>
        && FirstOnList(s, aim, found.value) && s'.fate[p] == Working(found.value) && s'.pending == s.pending
        && s'.reqs == s.reqs[found.value := s.reqs[found.value].(ctr := s.reqs[found.value].ctr + 1)]
                      [p := Req(unique, aim, 1, false, None, false, false)])
    && (found.None? && Asked(s, aim) ==>
        && s'.fate[p] == Duplicate && p in s'.destroyed && s'.pending == s.pending && s'.reqs == s.reqs)
    && (found.None? && !Asked(s, aim) ==>
        && s'.fate[p] == Pending && s'.pending == s.pending + [p]
        && s'.reqs == s.reqs[p := Req(unique, aim, 1, false, None, false, false)])
  }

  ghost predicate FirstOnList(s: State, unique: nat, r: Rid) {
    && r in s.reqs && s.reqs[r].unique == unique
    && (exists i :: 0 <= i < |s.list| && s.list[i] == r &&
          forall j | 0 <= j < i && s.list[j] in s.reqs :: s.reqs[s.list[j]].unique != unique)
  }

  /** What an INTERRUPT does when it comes in. */
  lemma InterruptOutcome(s: State, p: Rid, unique: nat, aim: nat)
    requires Inv(s) && New(s, p)
    ensures Searched(s, DoInterrupt(s, p, unique, aim), p, unique, aim, FirstUnique(s.reqs, s.list, aim))
  {
    hide Inv, New, FirstUnique, FirstAim;
    FirstUniqueIff(s.reqs, s.list, aim);
    FirstAimIff(s.reqs, s.pending, aim);
  }

  /** A pending interrupt asks for the number. */
  ghost predicate Asked(s: State, unique: nat) {
    exists p :: p in s.pending && p in s.reqs && s.reqs[p].aim == unique
  }

  /**
    What an arriving request does: it is listed last, and marked exactly if a pending interrupt asks
    for it, which is then destroyed; if none does, the oldest one is bounced.
   */
  lemma ArriveOutcome(s: State, r: Rid, unique: nat)
    requires Inv(s) && New(s, r)
    ensures var s' := DoArrive(s, r, unique);
            && s'.list == s.list + [r]
            && r in s'.reqs && s'.reqs[r] == Req(unique, 0, 1, Asked(s, unique), None, false, false)
            && (forall x | x in s'.reqs && x != r :: x in s.reqs && s'.reqs[x] == s.reqs[x])
    ensures !Asked(s, unique) && s.pending == [] ==> DoArrive(s, r, unique).pending == []
    ensures !Asked(s, unique) && s.pending != [] ==>
              var s', oldest := DoArrive(s, r, unique), s.pending[0];
              && s'.pending == s.pending[1..] && s'.bouncing == s.bouncing + {oldest} && oldest in s'.reqs
              && oldest in s'.fate && s'.fate[oldest] == Bounced
    ensures Asked(s, unique) ==>
              exists i :: 0 <= i < |s.pending| && Matched(s, DoArrive(s, r, unique), r, unique, i)
  {
    hide CountOk, LockOk, NotifyOk, PhaseOk, ServerOk, FateOk, FirstAim, Without, Distinct, PendingOk;
    FirstAimIff(s.reqs, s.pending, unique);
    if Asked(s, unique) {
      var p := FirstAim(s.reqs, s.pending, unique).value;
      var i :| 0 <= i < |s.pending| && s.pending[i] == p &&
        forall j | 0 <= j < i && s.pending[j] in s.reqs :: s.reqs[s.pending[j]].aim != unique;
      WithoutAt(s.pending, i);
      NewIsNotInMemory(s, r);
      assert Matched(s, DoArrive(s, r, unique), r, unique, i);
    }
    ListsInMemory(s);
  }

  /** The pending interrupt at position i, the first that asks for r, has marked r and is gone. */
  ghost predicate Matched(s: State, s': State, r: Rid, unique: nat, i: nat)
    requires i < |s.pending|
  {
    var p := s.pending[i];
    && p in s.reqs && s.reqs[p].aim == unique
    && (forall j | 0 <= j < i && s.pending[j] in s.reqs :: s.reqs[s.pending[j]].aim != unique)
    && s'.pending == s.pending[..i] + s.pending[i + 1..] && s'.bouncing == s.bouncing
    && p !in s'.reqs && p in s'.destroyed && p in s'.fate && s'.fate[p] == Marked(r)
  }

  /** A step that takes in a request which no pending interrupt asks for. */
  ghost predicate Misses(s: State, ev: Event) {
    ev.Arrive? && !Asked(s, ev.unique)
  }

  /** The interrupt at position i is pending no more. */
  ghost predicate Answered(s: State, s': State, i: nat)
    requires i < |s.pending|
  {
    var p := s.pending[i];
    p in s'.fate && (s'.fate[p].Marked? || s'.fate[p] == Bounced)
  }

  /** The interrupt at position i has moved to position k. */
  ghost predicate StandsAt(s: State, s': State, i: nat, k: nat)
    requires i < |s.pending|
  {
    k < |s'.pending| && s'.pending[k] == s.pending[i]
  }

  /** An interrupt leaves the pending list exactly if its request comes in, or it is the oldest and none does. */
  lemma PendingLeavesIff(s: State, ev: Event, i: nat)
    requires Inv(s) && Enabled(s, ev) && i < |s.pending|
    ensures s.pending[i] in s.reqs
    ensures var leaves := (ev.Arrive? && s.reqs[s.pending[i]].aim == ev.unique) || (Misses(s, ev) && i == 0);
            if leaves then Answered(s, Next(s, ev), i)
            else if Misses(s, ev) then StandsAt(s, Next(s, ev), i, i - 1)
            else StandsAt(s, Next(s, ev), i, i) || (ev.Arrive? && i > 0 && StandsAt(s, Next(s, ev), i, i - 1))
  {
    hide Inv, FirstAim, FirstUnique, Without, DoArrive, Served, InPhase, Answered, StandsAt, Asked, New;
    ListsInMemory(s);
    if ev.Arrive? {
      ArrivalMoves(s, ev.r, ev.unique, i);
    } else {
      NothingElseMoves(s, ev, i);
    }
  }

  lemma NothingElseMoves(s: State, ev: Event, i: nat)
    requires Enabled(s, ev) && !ev.Arrive? && i < |s.pending|
    ensures !Misses(s, ev) && StandsAt(s, Next(s, ev), i, i)
  {
    hide FirstAim, FirstUnique, Without, New;
  }

  lemma ArrivalMoves(s: State, r: Rid, unique: nat, i: nat)
    requires Inv(s) && New(s, r) && i < |s.pending|
    ensures s.pending[i] in s.reqs
    ensures var s' := DoArrive(s, r, unique);
            var leaves := s.reqs[s.pending[i]].aim == unique || (!Asked(s, unique) && i == 0);
            if leaves then Answered(s, s', i)
            else if !Asked(s, unique) then StandsAt(s, s', i, i - 1)
            else StandsAt(s, s', i, i) || (i > 0 && StandsAt(s, s', i, i - 1))
  {
    hide CountOk, LockOk, NotifyOk, PhaseOk, ServerOk, FateOk, Distinct, DoArrive, New, ListsOk;
    ListsInMemory(s);
    ArriveOutcome(s, r, unique);
    if Asked(s, unique) {
      var j :| 0 <= j < |s.pending| && Matched(s, DoArrive(s, r, unique), r, unique, j);
    }
  }

  /**
    What may become of an INTERRUPT later: one that has found its target marks it, a pending one
    marks the request it waited for when that comes in, or is bounced; nothing else changes.
   */
  lemma FateMoves(s: State, ev: Event, p: Rid)
    requires Inv(s) && Enabled(s, ev) && p in s.fate
    ensures var s' := Next(s, ev);
            && p in s'.fate
            && (s'.fate[p] == s.fate[p]
                || (s.fate[p].Working? && s'.fate[p] == Marked(s.fate[p].t)
                    && s.fate[p].t in s'.reqs && s'.reqs[s.fate[p].t].interrupted)
                || (s.fate[p].Pending? && ev.Arrive? && s'.fate[p] == Marked(ev.r) && p in s.reqs
                    && s'.reqs[ev.r].interrupted && s'.reqs[ev.r].unique == s.reqs[p].aim)
                || (s.fate[p].Pending? && ev.Arrive? && s'.fate[p] == Bounced && p in s'.bouncing))
  {
    hide CountOk, LockOk, NotifyOk, FateOk, ServerOk, FirstAim, FirstUnique, Without, Distinct;
    if ev.Arrive? {
      FirstAimIff(s.reqs, s.pending, ev.unique);
    } else if ev.MarkTarget? {
      assert PhaseOk(s, ev.p);
    }
  }

  /** What has become of an INTERRUPT stays: marked or bounced once is marked or bounced for good. */
  lemma AnsweredStays(s: State, ev: Event, p: Rid)
    requires Inv(s) && Enabled(s, ev) && p in s.fate && (s.fate[p].Marked? || s.fate[p] == Bounced)
    ensures p in Next(s, ev).fate && Next(s, ev).fate[p] == s.fate[p]
  {
    hide Inv, Enabled, Next;
    FateMoves(s, ev, p);
  }

  /** How many of the steps from a to b took in a request that no pending interrupt asked for. */
  ghost function MissCount(run: seq<State>, evs: seq<Event>, a: nat, b: nat): nat
    requires a <= b < |run| && |run| == |evs| + 1
  {
    if a == b then 0 else MissCount(run, evs, a, b - 1) + if Misses(run[b - 1], evs[b - 1]) then 1 else 0
  }

  ghost predicate AnsweredOrAhead(s: State, s': State, i: nat, misses: nat)
    requires i < |s.pending|
  {
    Answered(s, s', i) || exists k: nat :: StandsAt(s, s', i, k) && k + misses <= i
  }

  lemma {:induction false} PendingMovesUp(run: seq<State>, evs: seq<Event>, a: nat, b: nat, i: nat)
    requires IsRun(run, evs) && a <= b < |run| && i < |run[a].pending|
    ensures AnsweredOrAhead(run[a], run[b], i, MissCount(run, evs, a, b))
    decreases b
  {
    hide Inv, Enabled, Next, Misses;
    if a == b {
      assert StandsAt(run[a], run[b], i, i);
    } else {
      PendingMovesUp(run, evs, a, b - 1, i);
      RunKeepsInv(run, evs, b - 1);
      var s := run[b - 1];
      if Answered(run[a], s, i) {
        AnsweredStays(s, evs[b - 1], run[a].pending[i]);
      } else {
        var k: nat :| StandsAt(run[a], s, i, k) && k + MissCount(run, evs, a, b - 1) <= i;
        PendingLeavesIff(s, evs[b - 1], k);
        if !Answered(s, run[b], k) {
          var k' := if StandsAt(s, run[b], k, k) && !Misses(s, evs[b - 1]) then k else k - 1;
          assert StandsAt(run[a], run[b], i, k');
        }
      }
    }
  }

  /**
    No interrupt stays pending for long: as soon as more unasked-for requests have come in than stood
    before it on the list, the INTERRUPT has marked its request or is bounced.
   */
  lemma RunAnswersPending(run: seq<State>, evs: seq<Event>, a: nat, b: nat, i: nat)
    requires IsRun(run, evs) && a <= b < |run| && i < |run[a].pending| && MissCount(run, evs, a, b) > i
    ensures Answered(run[a], run[b], i)
  {
    hide Answered, StandsAt;
    PendingMovesUp(run, evs, a, b, i);
  }

  /** Two interrupts have come in for requests that have not. */
  ghost function TwoPending(): State {
    State(map[0 := NewReq(10, 1, false), 1 := NewReq(11, 2, false)], [], [0, 1], map[], {}, map[], {}, {},
          map[0 := Pending, 1 := Pending])
  }

  lemma TwoInterrupts(s: State)
    requires Init(s)
    ensures DoInterrupt(DoInterrupt(s, 0, 10, 1), 1, 11, 2) == TwoPending()
  {
    var s1 := DoInterrupt(s, 0, 10, 1);
    assert s1.pending == [0] && s1.reqs == map[0 := NewReq(10, 1, false)] && s1.fate == map[0 := Pending];
    FirstSkips(s1.reqs, s1.pending, 0, 2);
    NoneLeft(s1.reqs, s1.pending[1..], 2);
    assert s1.pending[0..] == s1.pending;
  }

  lemma SecondMatches()
    ensures var s := DoArrive(TwoPending(), 2, 2);
            s.pending == [0] && s.fate[0] == Pending
  {
    hide FirstAim;
    var s := TwoPending();
    FirstSkips(s.reqs, s.pending, 0, 2);
    FirstSkips(s.reqs, s.pending, 1, 2);
    assert s.pending[0..] == s.pending;
  }

  /** A request that a younger interrupt asks for does not move the older one: only the misses count. */
  lemma MatchedArrivalMovesNobody(s: State)
    requires Init(s)
    ensures exists run: seq<State>, evs: seq<Event> ::
              && IsRun(run, evs) && |evs| == 3 && run[0] == s && run[2].pending == [0, 1] && evs[2].Arrive?
              && run[3].pending == [0] && !Answered(run[2], run[3], 0)
  {
    hide DoInterrupt, DoArrive;
    var s1 := DoInterrupt(s, 0, 10, 1);
    var s3 := DoArrive(TwoPending(), 2, 2);
    var run, evs := [s, s1, TwoPending(), s3], [Interrupt(0, 10, 1), Interrupt(1, 11, 2), Arrive(2, 2)];
    TwoInterrupts(s);
    SecondMatches();
    FirstIsNotThere(s);
    assert IsRun(run, evs);
  }

  lemma FirstIsNotThere(s: State)
    requires Init(s)
    ensures New(DoInterrupt(s, 0, 10, 1), 1)
  {
  }

  /** A request stays what it is while it is in memory; only new ones get numbers. */
  lemma NumbersStay(s: State, ev: Event, x: Rid)
    requires Inv(s) && Enabled(s, ev) && x in Next(s, ev).reqs
    ensures var r' := Next(s, ev).reqs[x];
            if x in s.reqs then r'.unique == s.reqs[x].unique && r'.aim == s.reqs[x].aim
            else (ev.Arrive? && ev.r == x && r'.unique == ev.unique)
                 || (ev.Interrupt? && ev.p == x && r'.unique == ev.unique && r'.aim == ev.aim && !r'.interrupted)
  {
    hide CountOk, LockOk, NotifyOk, FateOk, PhaseOk, ServerOk, ListsOk, PendingOk, FirstAim, FirstUnique, Without;
  }

  /** The interrupt p has marked x, whose number it asks for. */
  ghost predicate Marks(s: State, p: Rid, x: Rid)
    requires x in s.reqs
  {
    p in s.reqs && s.reqs[p].aim == s.reqs[x].unique && (p in s.pending || p in s.intr)
  }

  /** A request is marked only by an interrupt that asks for it. */
  lemma MarkedOnlyIfAsked(s: State, ev: Event, x: Rid)
    requires Inv(s) && Enabled(s, ev) && x in Next(s, ev).reqs && Next(s, ev).reqs[x].interrupted
    requires x in s.reqs ==> !s.reqs[x].interrupted
    ensures if x in s.reqs then ev.MarkTarget? && Marks(s, ev.p, x)
            else ev.Arrive? && ev.r == x && Asked(s, ev.unique) && Next(s, ev).reqs[x].unique == ev.unique
  {
    hide CountOk, LockOk, NotifyOk, FateOk, ServerOk, ListsOk, PendingOk, FirstAim, FirstUnique, Without, New;
    if ev.Arrive? {
      NewArrival(s, ev.r, ev.unique);
    } else if ev.MarkTarget? {
      assert PhaseOk(s, ev.p);
    }
  }

  lemma NewArrival(s: State, r: Rid, unique: nat)
    requires Inv(s) && New(s, r)
    ensures var s' := DoArrive(s, r, unique);
            && r !in s.reqs && r in s'.reqs && s'.reqs[r].unique == unique
            && (s'.reqs[r].interrupted ==> Asked(s, unique))
            && (forall x | x in s'.reqs && x != r :: x in s.reqs && s'.reqs[x] == s.reqs[x])
  {
    hide Inv, DoArrive, Asked;
    ArriveOutcome(s, r, unique);
  }

  /** An INTERRUPT with this aim has come in before the run's state i. */
  ghost predicate CameIn(evs: seq<Event>, i: nat, aim: nat)
    requires i <= |evs|
  {
    exists m :: 0 <= m < i && evs[m].Interrupt? && evs[m].aim == aim
  }

  /** Every INTERRUPT in memory asks for what it asked for when it came in. */
  lemma {:induction false} RunKeepsAims(run: seq<State>, evs: seq<Event>, i: nat, p: Rid)
    requires IsRun(run, evs) && i < |run| && p in run[i].reqs && p in run[i].fate
    ensures CameIn(evs, i, run[i].reqs[p].aim)
    decreases i
  {
    hide Inv, Enabled, Next;
    if i > 0 {
      RunKeepsInv(run, evs, i - 1);
      NumbersStay(run[i - 1], evs[i - 1], p);
      FatesAreOfInterrupts(run[i - 1], evs[i - 1], p);
      if p in run[i - 1].reqs {
        RunKeepsAims(run, evs, i - 1, p);
      }
    }
  }

  lemma FatesAreOfInterrupts(s: State, ev: Event, p: Rid)
    requires Inv(s) && Enabled(s, ev) && p in Next(s, ev).fate && p in Next(s, ev).reqs
    ensures if p in s.reqs then p in s.fate else ev.Interrupt? && ev.p == p
  {
    hide CountOk, LockOk, NotifyOk, FateOk, ServerOk, PendingOk, FirstUnique, Without;
    if ev.MarkTarget? {
      assert PhaseOk(s, ev.p);
    } else if ev.Arrive? {
      FirstAimIff(s.reqs, s.pending, ev.unique);
    }
  }

  lemma WaitsWithFate(s: State, p: Rid)
    requires Inv(s) && (p in s.pending || p in s.intr)
    ensures p in s.fate
  {
    assert p in s.intr ==> PhaseOk(s, p);
  }

  /** No request is interrupted that no INTERRUPT has asked for. */
  lemma {:induction false} RunMarksOnlyAsked(run: seq<State>, evs: seq<Event>, i: nat, x: Rid)
    requires IsRun(run, evs) && i < |run| && x in run[i].reqs && run[i].reqs[x].interrupted
    ensures CameIn(evs, i, run[i].reqs[x].unique)
    decreases i
  {
    hide Inv, Enabled, Next;
    if i > 0 {
      var s, ev := run[i - 1], evs[i - 1];
      RunKeepsInv(run, evs, i - 1);
      NumbersStay(s, ev, x);
      if x in s.reqs && s.reqs[x].interrupted {
        RunMarksOnlyAsked(run, evs, i - 1, x);
      } else {
        MarkedOnlyIfAsked(s, ev, x);
        var p :| p in s.reqs && s.reqs[p].aim == run[i].reqs[x].unique && (p in s.pending || p in s.intr);
        WaitsWithFate(s, p);
        RunKeepsAims(run, evs, i - 1, p);
      }
    }
  }

  /** And no callback is called before its request is interrupted. */
  lemma RunCallsOnlyInterrupted(run: seq<State>, evs: seq<Event>, i: nat, x: Rid)
    requires IsRun(run, evs) && i < |run| && x in run[i].reqs && run[i].reqs[x].notified
    ensures CameIn(evs, i, run[i].reqs[x].unique)
  {
    hide Enabled, Next, CountOk, LockOk, PhaseOk, ServerOk, FateOk, ListsOk, PendingOk, CameIn;
    RunKeepsInv(run, evs, i);
    assert NotifyOk(run[i], x);
    RunMarksOnlyAsked(run, evs, i, x);
  }

  /** What a step destroys was in memory until then, or is a duplicate that has just come in. */
  lemma DestroyedWasThere(s: State, ev: Event, x: Rid)
    requires Inv(s) && Enabled(s, ev) && x in Next(s, ev).destroyed && x !in s.destroyed
    ensures x in s.reqs || (ev.Interrupt? && ev.p == x && Next(s, ev).fate[x] == Duplicate)
  {
    hide CountOk, LockOk, NotifyOk, FateOk, PhaseOk, ServerOk, PendingOk, FirstAim, FirstUnique, Without, Distinct;
    if ev.Arrive? {
      FirstAimIff(s.reqs, s.pending, ev.unique);
    } else if ev.PutTarget? {
      LastReference(s, ev.p);
    }
  }

  /**
    Nothing that was destroyed is destroyed again or referred to: not by a list, a thread, or
    another request.
   */
  lemma DestroyedOnce(s: State, ev: Event, x: Rid)
    requires Inv(s) && Enabled(s, ev) && x in Next(s, ev).destroyed
    ensures var s' := Next(s, ev);
            && x !in s'.reqs && x !in s'.list && x !in s'.pending && x !in s'.server && x !in s'.bouncing
            && x !in s'.dying
            && (forall p | p in s'.intr :: p != x && s'.intr[p].t != x)
  {
    StepKeeps(s, ev);
    hide Enabled, Next, CountOk, LockOk, NotifyOk, FateOk, PendingOk, Distinct;
    var s' := Next(s, ev);
    forall p | p in s'.intr
      ensures p != x && s'.intr[p].t != x
    {
      assert PhaseOk(s', p);
    }
    assert x in s'.list ==> ServerOk(s', x);
  }

  /** When no thread is at work on an interrupt, only listed requests and pending interrupts are in memory. */
  lemma NothingLeaks(s: State, x: Rid)
    requires Inv(s) && s.intr == map[] && s.bouncing == {} && s.dying == {}
    ensures x in s.reqs <==> x in s.list || x in s.pending
  {
    hide LockOk, NotifyOk, FateOk, PendingOk, Distinct;
    assert Refs(s.intr, x) == {};
    assert x in s.reqs ==> CountOk(s, x);
    assert x in s.list ==> ServerOk(s, x);
  }

  /** A thread waits for a request's lock only while another one can go on. */
  ghost predicate CanProceed(s: State, x: Rid) {
    || (exists p :: Enabled(s, MarkTarget(p)) && s.intr[p].t == x)
    || (exists p :: Enabled(s, CallTarget(p)) && s.intr[p].t == x)
    || (exists p :: Enabled(s, UnlockTarget(p)) && s.intr[p].t == x)
    || Enabled(s, SetFunc(x)) || Enabled(s, CheckFunc(x)) || Enabled(s, UnlockForFunc(x))
  }

  lemma LockIsGivenBack(s: State, x: Rid)
    requires Inv(s) && x in s.reqs && s.reqs[x].locked
    ensures CanProceed(s, x)
  {
    hide CountOk, NotifyOk, FateOk, PendingOk, ListsOk;
    assert LockOk(s, x);
    if LockRefs(s.intr, x) != {} {
      var p :| p in LockRefs(s.intr, x);
      assert PhaseOk(s, p);
      assert Enabled(s, MarkTarget(p)) || Enabled(s, CallTarget(p)) || Enabled(s, UnlockTarget(p));
    } else {
      assert Served(s, x);
    }
  }

  // ---------------------------------------------------------------- the code

  lemma FirstSkips(reqs: map<Rid, Req>, l: seq<Rid>, i: nat, unique: nat)
    requires i < |l|
    ensures FirstUnique(reqs, l[i..], unique) ==
              if l[i] in reqs && reqs[l[i]].unique == unique then Some(l[i]) else FirstUnique(reqs, l[i + 1..], unique)
    ensures FirstAim(reqs, l[i..], unique) ==
              if l[i] in reqs && reqs[l[i]].aim == unique then Some(l[i]) else FirstAim(reqs, l[i + 1..], unique)
  {
    assert l[i..][0] == l[i] && l[i..][1..] == l[i + 1..];
  }

  lemma MayFree(s: State, r: Rid)
    requires Inv(s) && Enabled(s, Free(r))
    ensures r in s.reqs && r in s.server && r !in s.dying && Distinct(s.list) && Inv(DoFree(s, r))
  {
    hide Inv, Distinct, Without;
    FreeKeeps(s, r);
    ListsInMemory(s);
    NotDying(s, r);
  }

  lemma ListsInMemory(s: State)
    requires Inv(s)
    ensures forall x | x in s.list || x in s.pending :: x in s.reqs
    ensures Distinct(s.list) && Distinct(s.pending)
  {
    forall x | x in s.list
      ensures x in s.reqs
    {
      assert ServerOk(s, x);
    }
  }

  lemma {:induction false} WithoutAt(l: seq<Rid>, i: nat)
    requires Distinct(l) && i < |l|
    ensures Without(l, l[i]) == l[..i] + l[i + 1..]
  {
    if i > 0 {
      assert l[0] != l[i] && l[1..][i - 1] == l[i];
      WithoutAt(l[1..], i - 1);
      assert l[..i] == [l[0]] + l[1..][..i - 1];
      assert l[1..][i..] == l[i + 1..];
    }
  }

  lemma NewIsNotInMemory(s: State, x: Rid)
    requires Inv(s) && New(s, x)
    ensures x !in s.reqs && x !in s.list && x !in s.pending
  {
    NewIsNowhere(s, x);
  }

  lemma NotDying(s: State, r: Rid)
    requires Inv(s) && r in s.server
    ensures r !in s.dying
  {
    assert r in s.list;
  }

  /**
    What `check_interrupt` has done: it returns the oldest pending interrupt exactly if none asks for
    the request, unlinks it and leaves the request unmarked; else the one that asks is unlinked and
    destroyed, and the request marked.
   */
  ghost predicate TakenIn(s: State, s': State, r: Rid, unique: nat, bounced: Option<Rid>) {
    && (bounced.Some? <==> s.pending != [] && forall p | p in s.pending && p in s.reqs :: s.reqs[p].aim != unique)
    && (bounced.Some? ==>
        && bounced.value == s.pending[0] && s'.pending == s.pending[1..]
        && s'.bouncing == s.bouncing + {bounced.value} && s'.fate == s.fate[bounced.value := Bounced]
        && s'.reqs == s.reqs[r := Req(unique, 0, 1, false, None, false, false)])
    && (bounced.None? ==> s'.bouncing == s.bouncing)
    && (bounced.None? && s.pending != [] ==> exists i :: 0 <= i < |s.pending| && Matched(s, s', r, unique, i))
    && s'.list == s.list + [r] && r in s'.reqs
    && (s'.reqs[r].interrupted <==> bounced.None? && s.pending != [])
  }

  /** Whom `check_interrupt` returns, and what that means. */
  lemma Reported(s: State, r: Rid, unique: nat)
    requires Inv(s) && New(s, r)
    ensures var matched := FirstAim(s.reqs, s.pending, unique);
            TakenIn(s, DoArrive(s, r, unique), r, unique,
                    if matched.Some? || s.pending == [] then None else Some(s.pending[0]))
  {
    hide Inv, New, Without, FirstAim, Matched;
    ArriveOutcome(s, r, unique);
    FirstAimIff(s.reqs, s.pending, unique);
  }

  /** `struct fuse_ll` and its requests; the ghost fields are where the threads are. */
  class LowLevel {
    var reqs: map<Rid, Req>
    var list: seq<Rid>
    var interrupts: seq<Rid>

    ghost var intr: map<Rid, Phase>
    ghost var bouncing: set<Rid>
    ghost var server: map<Rid, Service>
    ghost var dying: set<Rid>
    ghost var destroyed: set<Rid>
    ghost var fate: map<Rid, Fate>

    ghost function View(): State
      reads this
    {
      State(reqs, list, interrupts, intr, bouncing, server, dying, destroyed, fate)
    }

    /** `list_del_req` on f->list and on f->interrupts */
    method Unlink(l: seq<Rid>, x: Rid) returns (l': seq<Rid>)
      requires Distinct(l)
      ensures l' == Without(l, x)
    {
      var i := 0;
      while i < |l|
        invariant i <= |l| && Without(l, x) == l[..i] + Without(l[i..], x)
      {
        if l[i] == x {
          assert l[i..][1..] == l[i + 1..];
          return l[..i] + l[i + 1..];
        }
        assert l[i..][1..] == l[i + 1..] && l[..i + 1] == l[..i] + [l[i]];
        i := i + 1;
      }
      l' := l;
    }

    /** `check_interrupt`, and the listing of the request after it; bounced is answered with EAGAIN. */
    method CheckInterrupt(r: Rid, unique: nat) returns (bounced: Option<Rid>)
      requires Inv(View()) && New(View(), r)
      modifies this
      ensures View() == DoArrive(old(View()), r, unique) && Inv(View())
      ensures TakenIn(old(View()), View(), r, unique, bounced)
    {
      hide Inv, New, Without, FirstAim, Distinct, Placed, TakenIn;
      ArriveKeeps(View(), r, unique);
      Reported(View(), r, unique);
      ListsInMemory(View());
      NewIsNotInMemory(View(), r);
      server := server[r := Serving];
      list := list + [r];
      reqs := reqs[r := NewReq(unique, 0, false)];
      ghost var s := View();
      var i := 0;
      while i < |interrupts|
        invariant i <= |interrupts| && View() == s
        invariant FirstAim(old(reqs), interrupts, unique) == FirstAim(old(reqs), interrupts[i..], unique)
      {
        FirstSkips(old(reqs), interrupts, i, unique);
        var curr := interrupts[i];
        if reqs[curr].aim == unique {
          reqs := reqs[r := reqs[r].(interrupted := true)] - {curr};
          assert reqs == (old(reqs) - {curr})[r := NewReq(unique, 0, true)];
          interrupts := Unlink(interrupts, curr);
          destroyed := destroyed + {curr};
          fate := fate[curr := Marked(r)];
          return None;
        }
        i := i + 1;
      }
      NoneLeft(old(reqs), interrupts[i..], unique);
      if |interrupts| > 0 {
        bounced := Some(interrupts[0]);
        fate := fate[interrupts[0] := Bounced];
        bouncing := bouncing + {interrupts[0]};
        interrupts := interrupts[1..];
      } else {
        bounced := None;
      }
    }

    /**
      `do_interrupt` and `find_interrupted` up to the point where the thread waits for the lock of
      the request it has found, or to their end if there is none.
     */
    method FindInterrupted(p: Rid, unique: nat, aim: nat) returns (found: Option<Rid>)
      requires Inv(View()) && New(View(), p)
      modifies this
      ensures View() == DoInterrupt(old(View()), p, unique, aim) && Inv(View())
      ensures Searched(old(View()), View(), p, unique, aim, found)
    {
      hide Inv, New, FirstAim, FirstUnique, Distinct, Placed, Searched;
      ghost var s := View();
      InterruptOutcome(s, p, unique, aim);
      StepKeeps(s, Interrupt(p, unique, aim));
      ListsInMemory(s);
      NewIsNotInMemory(s, p);
      var i := 0;
      while i < |list|
        invariant i <= |list| && View() == s
        invariant FirstUnique(reqs, list, aim) == FirstUnique(reqs, list[i..], aim)
      {
        FirstSkips(reqs, list, i, aim);
        var curr := list[i];
        if reqs[curr].unique == aim {
          reqs := reqs[curr := reqs[curr].(ctr := reqs[curr].ctr + 1)];
          reqs := reqs[p := NewReq(unique, aim, false)];
          intr := intr[p := Found(curr)];
          fate := fate[p := Working(curr)];
          return Some(curr);
        }
        i := i + 1;
      }
      NoneLeft(reqs, list[i..], aim);
      found := None;
      i := 0;
      while i < |interrupts|
        invariant i <= |interrupts| && View() == s
        invariant FirstAim(reqs, interrupts, aim) == FirstAim(reqs, interrupts[i..], aim)
      {
        FirstSkips(reqs, interrupts, i, aim);
        if reqs[interrupts[i]].aim == aim {
          destroyed := destroyed + {p};
          fate := fate[p := Duplicate];
          return;
        }
        i := i + 1;
      }
      NoneLeft(reqs, interrupts[i..], aim);
      reqs := reqs[p := NewReq(unique, aim, false)];
      interrupts := interrupts + [p];
      fate := fate[p := Pending];
    }

    /** The critical section of `fuse_free_req`; the caller destroys the request if it is the last one. */
    method FreeReq(r: Rid) returns (last: bool)
      requires Inv(View()) && Enabled(View(), Free(r))
      modifies this
      ensures View() == DoFree(old(View()), r) && Inv(View())
      ensures last <==> r in dying
      ensures r in old(reqs) && r in reqs && reqs[r].func == None && reqs[r].ctr == old(reqs)[r].ctr - 1
      ensures last <==> reqs[r].ctr == 0
    {
      hide Inv, Distinct, Without, Enabled;
      MayFree(View(), r);
      reqs := reqs[r := reqs[r].(func := None)];
      list := Unlink(list, r);
      reqs := reqs[r := reqs[r].(ctr := reqs[r].ctr - 1)];
      assert reqs == old(reqs)[r := old(reqs)[r].(func := None, ctr := old(reqs)[r].ctr - 1)];
      last := reqs[r].ctr == 0;
      server := server - {r};
      dying := dying + if last then {r} else {};
    }

    /** The end of `find_interrupted` and `do_interrupt`, back under f->lock. */
    method PutInterrupted(p: Rid, curr: Rid)
      requires Inv(View()) && Enabled(View(), PutTarget(p)) && intr[p].t == curr
      modifies this
      ensures View() == DoPutTarget(old(View()), p) && Inv(View())
      ensures p !in reqs && p in destroyed && curr in old(reqs) && curr != p
      ensures if old(reqs)[curr].ctr == 1 then curr !in reqs && curr in destroyed
              else curr in reqs && reqs[curr] == old(reqs)[curr].(ctr := old(reqs)[curr].ctr - 1)
    {
      hide Inv;
      PutTargetKeeps(View(), p);
      LastReference(View(), p);
      ghost var s := View();
      reqs := reqs[curr := reqs[curr].(ctr := reqs[curr].ctr - 1)];
      intr := intr - {p};
      if reqs[curr].ctr == 0 {
        reqs := reqs - {curr};
        destroyed := destroyed + {curr};
      }
      reqs := reqs - {p};
      destroyed := destroyed + {p};
      assert DoPutTarget(s, p).reqs == reqs && DoPutTarget(s, p).destroyed == destroyed;
    }
  }

  lemma NoneLeft(reqs: map<Rid, Req>, l: seq<Rid>, unique: nat)
    requires l == []
    ensures FirstAim(reqs, l, unique) == None && FirstUnique(reqs, l, unique) == None
  {
  }
}
