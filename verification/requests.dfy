/**
  The step system of the inode cache: every critical section under `f->lock` is one step, and the
  steps of any number of requests interleave in any order.  What holds in every run is proved here.
 */
module Requests {
  import opened Wrappers
  import opened Lists
  import opened Tree
  import opened LockCounts
  import opened PathLocks
  import opened LockQueue

  /** A request that has its paths and is working on them. */
  datatype Job = Job(p1: Path, p2: Option<Path>)

  datatype State = State(c: Cache, q: seq<Elem>, active: map<ReqId, Job>, k: Refs)

  datatype Event =
    | Begin(r: ReqId, p1: Path, p2: Option<Path>)       // get_path, get_path_wrlock, get_path2
    | Leave(i: nat)                                     // wait_path or forget_node dequeues
    | Finish(r: ReqId)                                  // free_path, free_path2
    | Remove(r: ReqId)                                  // remove_node
    | HideName(r: ReqId, which: Which, newname: string) // rename_node from hide_node
    | Rename(r: ReqId)                                  // rename_node
    | Exchange(r: ReqId)                                // exchange_node
    | Create(n: Ino, dir: Ino, name: string)            // find_node, new name
    | Touch(n: Ino)                                     // find_node, known node
    | Forget(n: Ino, count: nat)                        // forget_node
    | Delete(n: Ino)                                    // delete_node
    | TakeDot(r: ReqId, n: Ino)                         // "." lookup, start and end
    | DropDot(r: ReqId)
    | NameParent(r: ReqId, n: Ino)                      // ".." lookup of n, start and end
    | UnnameParent(r: ReqId)
    | WaitForget(n: Ino)                                // forget_node queues

  ghost function InFlight(s: State): set<ReqId> {
    s.active.Keys + QueueReqs(s.q)
  }

  // ---------------------------------------------------------------- the steps

  ghost function PathOf(j: Job, which: Which): Path {
    if which == Second && j.p2.Some? then j.p2.value else j.p1
  }

  /** The write path of a running request names nothing but what the request has write-locked. */
  ghost predicate Binds(s: State, r: ReqId, which: Which) {
    && r in s.active
    && (which == Second ==> s.active[r].p2.Some?)
    && var p := PathOf(s.active[r], which);
       p.wr && Owns(s.c, HoldId(r, which), Lookup(s.c, p.dir, p.name))
  }

  /**
    The kernel keeps referenced what a waiting request names, and there are fewer than 2^30
    requests at a time.
   */
  ghost predicate Kernel(s: State) {
    QueueReady(s.c, s.k, s.q) && 2 * (|InFlight(s)| + 1) + 1 < INT_MAX
  }

  // One function for what may happen and one for what does, step by step.

  ghost predicate CanBegin(s: State, r: ReqId, p1: Path, p2: Option<Path>) {
    r !in InFlight(s) && PathReady(s.c, s.k, r, p1) && (p2.Some? ==> PathReady(s.c, s.k, r, p2.value))
  }

  /** Where a request goes after its first try: to work, to the end of the queue, or away. */
  ghost function Placed(s: State, c': Cache, err: Err, r: ReqId, p1: Path, p2: Option<Path>): State {
    if err == Ok then s.(c := c', active := s.active[r := Job(p1, p2)])
    else if err == Again then s.(c := c', q := s.q + [Elem(r, p1, p2, false, Ok)])
    else s.(c := c')
  }

  ghost function DoBegin(s: State, r: ReqId, p1: Path, p2: Option<Path>): State {
    var (c', err) := TryFirst(s.c, r, p1, p2);
    Placed(s, c', err, r, p1, p2)
  }

  ghost predicate CanLeave(s: State, i: nat) {
    i < |s.q| && (s.q[i].Waiter? || s.q[i].done)
  }

  ghost function DoLeave(s: State, i: nat): State
    requires CanLeave(s, i)
  {
    var e := s.q[i];
    s.(q := s.q[..i] + s.q[i + 1..],
       active := if e.Elem? && e.err == Ok then s.active[e.req := Job(e.p1, e.p2)] else s.active)
  }

  ghost predicate CanFinish(s: State, r: ReqId) {
    r in s.active
  }

  ghost function DoFinish(s: State, r: ReqId): State {
    var (c', q') := WakeFrom(DropBoth(s.c, r), s.q, 0);
    s.(c := c', q := q', active := s.active - {r})
  }

  ghost predicate CanHide(s: State, r: ReqId, which: Which, newname: string) {
    Binds(s, r, which) && Lookup(s.c, PathOf(s.active[r], which).dir, newname) == None
  }

  ghost predicate CanForget(s: State, n: Ino, count: nat) {
    && n in s.c.t && n in s.c.lk && n != ROOT && n in s.k.nlookup && count <= s.k.nlookup[n]
    && !(s.k.nlookup[n] == count && s.c.lk[n] != 0)
    && !(s.k.nlookup[n] == count && n in s.k.named.Values)
  }

  /** `unref_node` found the reference count at zero. */
  ghost predicate CanDelete(s: State, n: Ino) {
    && n in s.c.t && n != ROOT && n in s.k.nlookup && s.k.nlookup[n] == 0 && n !in s.k.dots.Values
    && forall m | m in s.c.t && s.c.t[m].Linked? :: s.c.t[m].dir != n
  }

  ghost predicate Enabled(s: State, ev: Event) {
    Kernel(s) && match ev
    case Begin(r, p1, p2) => CanBegin(s, r, p1, p2)
    case Leave(i) => CanLeave(s, i)
    case Finish(r) => CanFinish(s, r)
    case Remove(r) => Binds(s, r, First)
    case HideName(r, which, newname) => CanHide(s, r, which, newname)
    case Rename(r) => Binds(s, r, First) && Binds(s, r, Second)
    case Exchange(r) => Binds(s, r, First) && Binds(s, r, Second)
    case Create(n, dir, name) => n !in s.c.t && dir in s.c.t && Lookup(s.c, dir, name) == None
    case Touch(n) => n in s.c.t && n in s.k.nlookup
    case Forget(n, count) => CanForget(s, n, count)
    case Delete(n) => CanDelete(s, n)
    case TakeDot(r, n) => r !in InFlight(s) && r !in s.k.dots && n in s.c.t
    case DropDot(r) => r !in InFlight(s) && r in s.k.dots
    case NameParent(r, n) => r !in InFlight(s) && r !in s.k.named && n in s.k.nlookup && s.k.nlookup[n] > 0
    case UnnameParent(r) => r !in InFlight(s) && r in s.k.named
    case WaitForget(n) => n in s.c.t
  }

  ghost function Next(s: State, ev: Event): State
    requires Enabled(s, ev)
  {
    match ev
    case Begin(r, p1, p2) => DoBegin(s, r, p1, p2)
    case Leave(i) => DoLeave(s, i)
    case Finish(r) => DoFinish(s, r)
    case Remove(r) => s.(c := RemovedBy(s.c, s.active[r]))
    case HideName(r, which, newname) => s.(c := HiddenBy(s.c, PathOf(s.active[r], which), newname))
    case Rename(r) => s.(c := RenamedBy(s.c, s.active[r]))
    case Exchange(r) => s.(c := ExchangedBy(s.c, s.active[r]))
    case Create(n, dir, name) => s.(c := AddNode(s.c, n, dir, name), k := s.k.(nlookup := s.k.nlookup[n := 1]))
    case Touch(n) => s.(k := s.k.(nlookup := s.k.nlookup[n := s.k.nlookup[n] + 1]))
    case Forget(n, count) => s.(k := s.k.(nlookup := s.k.nlookup[n := s.k.nlookup[n] - count]))
    case Delete(n) => s.(c := DeleteNode(s.c, n), k := s.k.(nlookup := s.k.nlookup - {n}))
    case TakeDot(r, n) => s.(k := s.k.(dots := s.k.dots[r := n]))
    case DropDot(r) => s.(k := s.k.(dots := s.k.dots - {r}))
    case NameParent(r, n) => s.(k := s.k.(named := s.k.named[r := n]))
    case UnnameParent(r) => s.(k := s.k.(named := s.k.named - {r}))
    case WaitForget(n) => s.(q := s.q + [Waiter(n)])
  }

  function RemovedBy(c: Cache, j: Job): Cache {
    RemoveNode(c, j.p1.dir, j.p1.name)
  }

  function HiddenBy(c: Cache, p: Path, newname: string): Cache {
    RenameNode(c, p.dir, p.name, p.dir, newname, true)
  }

  function RenamedBy(c: Cache, j: Job): Cache
    requires j.p2.Some?
  {
    RenameNode(c, j.p1.dir, j.p1.name, j.p2.value.dir, j.p2.value.name, false)
  }

  function ExchangedBy(c: Cache, j: Job): Cache
    requires j.p2.Some?
  {
    ExchangeNode(c, j.p1.dir, j.p1.name, j.p2.value.dir, j.p2.value.name)
  }

  // ---------------------------------------------------------------- the invariant

  ghost predicate ActiveOk(c: Cache, active: map<ReqId, Job>) {
    forall r | r in active :: Matches(c, r, active[r].p1, active[r].p2) && HasAll(c, r, active[r].p2)
  }

  /** Whoever is about to change names has got the directories from the kernel. */
  ghost predicate ActiveKnown(k: Refs, active: map<ReqId, Job>) {
    forall r | r in active ::
      WritesKnown(k, active[r].p1) && (active[r].p2.Some? ==> WritesKnown(k, active[r].p2.value))
  }

  ghost predicate Inv(s: State) {
    && Sound(s.c, s.k, InFlight(s))
    && DistinctReqs(s.q) && s.active.Keys !! QueueReqs(s.q)
    && QueueDisciplined(s.c, s.q)
    && ActiveOk(s.c, s.active)
    && HeldParents(s.c)
    && ActiveKnown(s.k, s.active)
  }

  /** What is held before and after a step is the same path, node for node and name for name. */
  ghost predicate PathsStable(c: Cache, c': Cache) {
    forall id {:trigger ClimbKept(c.t, c'.t, c.holds[id].leaf)} | id in c.holds && id in c'.holds ::
      c'.holds[id].leaf == c.holds[id].leaf && ClimbKept(c.t, c'.t, c.holds[id].leaf)
  }

  lemma SameTreeStable(c: Cache, c': Cache)
    requires CacheInv(c) && c'.t == c.t
    requires forall id | id in c.holds && id in c'.holds :: c'.holds[id].leaf == c.holds[id].leaf
    ensures PathsStable(c, c')
  {
    KeepsRefl(c);
    forall id | id in c.holds
      ensures ClimbKept(c.t, c'.t, c.holds[id].leaf)
    {
      assert ClimbKept(c.t, c.t, c.holds[id].leaf);
    }
  }

  // ---------------------------------------------------------------- each step keeps the invariant

  lemma SoundGrows(c: Cache, k: Refs, reqs: set<ReqId>, r: ReqId)
    requires Sound(c, k, reqs) && 2 * (|reqs| + 1) + 1 < INT_MAX
    ensures Sound(c, k, reqs + {r})
  {
    SubsetSize(reqs, reqs + {r});
    assert r !in reqs ==> |reqs + {r}| == |reqs| + 1;
    assert r in reqs ==> reqs + {r} == reqs;
  }

  /** Requests other than r keep their discipline when only r's holds change. */
  lemma OthersKept(c: Cache, c': Cache, r: ReqId, q: seq<Elem>, active: map<ReqId, Job>)
    requires OnlyHoldsOf(c, c', r) && QueueDisciplined(c, q) && ActiveOk(c, active)
    requires r !in QueueReqs(q)
    ensures QueueDisciplined(c', q) && ActiveOk(c', active - {r})
  {
    forall i | 0 <= i < |q|
      ensures Disciplined(c', q[i], i == 0)
    {
      assert Disciplined(c, q[i], i == 0);
      assert q[i].Elem? ==> q[i].req in QueueReqs(q);
    }
  }

  lemma QueueReqsAppend(q: seq<Elem>, e: Elem)
    ensures QueueReqs(q + [e]) == QueueReqs(q) + if e.Elem? then {e.req} else {}
  {
    var q' := q + [e];
    forall i | 0 <= i < |q|
      ensures q'[i] == q[i]
    {
    }
    assert q'[|q|] == e;
    assert e.Elem? ==> q'[|q|].req in QueueReqs(q');
    forall i | 0 <= i < |q| && q[i].Elem?
      ensures q[i].req in QueueReqs(q')
    {
      assert q'[i].req in QueueReqs(q');
    }
  }

  lemma PlacedActive(s: State, c': Cache, r: ReqId, p1: Path, p2: Option<Path>)
    requires Inv(s) && r !in InFlight(s)
    requires Sound(c', s.k, InFlight(s) + {r}) && HeldParents(c') && OnlyHoldsOf(s.c, c', r) && Matches(c', r, p1, p2)
    requires HasAll(c', r, p2) && WritesKnown(s.k, p1) && (p2.Some? ==> WritesKnown(s.k, p2.value))
    ensures Inv(Placed(s, c', Ok, r, p1, p2))
  {
    hide Sound, HeldParents, OnlyHoldsOf, QueueDisciplined, DistinctReqs, QueueReqs, Matches, HasAll;
    OthersKept(s.c, c', r, s.q, s.active);
    assert s.active - {r} == s.active;
    assert InFlight(Placed(s, c', Ok, r, p1, p2)) == InFlight(s) + {r};
  }

  lemma PlacedQueued(s: State, c': Cache, r: ReqId, p1: Path, p2: Option<Path>)
    requires Inv(s) && r !in InFlight(s)
    requires Sound(c', s.k, InFlight(s) + {r}) && HeldParents(c') && OnlyHoldsOf(s.c, c', r) && Matches(c', r, p1, p2)
    requires HasNone(c', r)
    ensures Inv(Placed(s, c', Again, r, p1, p2))
  {
    hide Sound, HeldParents, OnlyHoldsOf, QueueDisciplined, DistinctReqs, QueueReqs, Matches, HasAll, HasNone, ActiveOk;
    OthersKept(s.c, c', r, s.q, s.active);
    assert s.active - {r} == s.active;
    var e := Elem(r, p1, p2, false, Ok);
    QueueReqsAppend(s.q, e);
    AppendDisciplined(c', s.q, e);
    assert InFlight(Placed(s, c', Again, r, p1, p2)) == InFlight(s) + {r};
  }

  lemma PlacedGone(s: State, c': Cache, r: ReqId, p1: Path, p2: Option<Path>)
    requires Inv(s) && r !in InFlight(s)
    requires Sound(c', s.k, InFlight(s) + {r}) && HeldParents(c') && OnlyHoldsOf(s.c, c', r) && Matches(c', r, p1, p2)
    requires HasNone(c', r)
    ensures Inv(Placed(s, c', NoEnt, r, p1, p2))
  {
    hide CacheInv, HoldsAlive, HeldParents, OnlyHoldsOf, QueueDisciplined, DistinctReqs, QueueReqs, Matches, HasAll,
         HasNone, ActiveOk;
    OthersKept(s.c, c', r, s.q, s.active);
    assert s.active - {r} == s.active;
    NoHoldsOf(c', r, InFlight(s) + {r});
    assert InFlight(s) + {r} - {r} == InFlight(s);
    SoundShrinks(c', s.k, InFlight(s) + {r}, InFlight(s));
  }

  lemma ReadyIsKnown(c: Cache, k: Refs, r: ReqId, p: Path)
    requires PathReady(c, k, r, p)
    ensures WritesKnown(k, p)
  {
  }

  lemma BeginKeeps(s: State, r: ReqId, p1: Path, p2: Option<Path>)
    requires Inv(s) && Kernel(s) && CanBegin(s, r, p1, p2)
    ensures var s' := DoBegin(s, r, p1, p2);
            Inv(s') && PathsStable(s.c, s'.c) && s'.c.t == s.c.t
  {
    hide CacheInv, HoldsAlive, HeldParents, TryFirst, PathReady, PathsStable, QueueDisciplined, QueueReqs, Matches,
         HasAll, ActiveOk;
    var (c', err) := TryFirst(s.c, r, p1, p2);
    SoundGrows(s.c, s.k, InFlight(s), r);
    TryFirstSound(s.c, s.k, InFlight(s) + {r}, r, p1, p2);
    if err == Ok {
      ReadyIsKnown(s.c, s.k, r, p1);
      if p2.Some? {
        ReadyIsKnown(s.c, s.k, r, p2.value);
      }
      PlacedActive(s, c', r, p1, p2);
    } else if err == Again {
      PlacedQueued(s, c', r, p1, p2);
    } else {
      PlacedGone(s, c', r, p1, p2);
    }
    SameTreeStable(s.c, c');
  }

  lemma AppendDisciplined(c: Cache, q: seq<Elem>, e: Elem)
    requires QueueDisciplined(c, q) && e.Elem? && !e.done && HasNone(c, e.req)
    requires DistinctReqs(q) && e.req !in QueueReqs(q)
    ensures QueueDisciplined(c, q + [e]) && DistinctReqs(q + [e])
  {
    var q' := q + [e];
    forall j | 0 <= j < |q|
      ensures q'[j] == q[j] && (q[j].Elem? ==> q[j].req in QueueReqs(q)) && Disciplined(c, q'[j], j == 0)
    {
    }
    assert q'[|q|] == e;
  }

  lemma NoHoldsOf(c: Cache, r: ReqId, reqs: set<ReqId>)
    requires HasNone(c, r) && HoldsOfReqs(c, reqs)
    ensures HoldsOfReqs(c, reqs - {r})
  {
    forall id | id in c.holds
      ensures id.req != r
    {
      assert id.which == First || id.which == Second;
    }
  }

  lemma SoundShrinks(c: Cache, k: Refs, reqs: set<ReqId>, reqs': set<ReqId>)
    requires Sound(c, k, reqs) && reqs' <= reqs && HoldsOfReqs(c, reqs')
    ensures Sound(c, k, reqs')
  {
    SubsetSize(reqs', reqs);
  }

  lemma QueueReqsCut(q: seq<Elem>, i: nat)
    requires i < |q| && DistinctReqs(q)
    ensures QueueReqs(q[..i] + q[i + 1..]) == QueueReqs(q) - if q[i].Elem? then {q[i].req} else {}
    ensures DistinctReqs(q[..i] + q[i + 1..])
  {
    var q' := q[..i] + q[i + 1..];
    assert forall j | 0 <= j < |q'| :: q'[j] == q[if j < i then j else j + 1];
    forall j | 0 <= j < |q| && j != i && q[j].Elem?
      ensures q[j].req in QueueReqs(q')
    {
      assert q'[if j < i then j else j - 1].req in QueueReqs(q');
    }
  }

  lemma CutDisciplined(c: Cache, q: seq<Elem>, i: nat)
    requires QueueDisciplined(c, q) && i < |q|
    ensures QueueDisciplined(c, q[..i] + q[i + 1..])
  {
    var q' := q[..i] + q[i + 1..];
    forall j | 0 <= j < |q'|
      ensures Disciplined(c, q'[j], j == 0)
    {
      var m := if j < i then j else j + 1;
      assert Disciplined(c, q[m], m == 0);
    }
  }

  lemma LeaveKnows(s: State, i: nat)
    requires Kernel(s) && ActiveKnown(s.k, s.active) && CanLeave(s, i)
    ensures ActiveKnown(s.k, DoLeave(s, i).active)
  {
    hide Known;
    assert ElemReady(s.c, s.k, s.q[i]);
  }

  lemma LeaveKeeps(s: State, i: nat)
    requires Inv(s) && Kernel(s) && CanLeave(s, i)
    ensures var s' := DoLeave(s, i);
            Inv(s') && PathsStable(s.c, s'.c)
  {
    hide CacheInv, HoldsAlive, HeldParents, PathsStable, ActiveKnown, Kernel, Known;
    var s' := DoLeave(s, i);
    LeaveKnows(s, i);
    QueueReqsCut(s.q, i);
    CutDisciplined(s.c, s.q, i);
    var e := s.q[i];
    assert Disciplined(s.c, e, i == 0);
    assert e.Elem? ==> e.req in QueueReqs(s.q);
    assert ActiveOk(s.c, s'.active);
    assert HoldsOfReqs(s.c, InFlight(s')) by {
      forall id | id in s.c.holds
        ensures id.req in InFlight(s')
      {
        assert id.which == First || id.which == Second;
      }
    }
    SoundShrinks(s.c, s.k, InFlight(s), InFlight(s'));
    SameTreeStable(s.c, s.c);
  }

  /** A queued request only ever locks its own two paths. */
  lemma QueuedLeafKept(c: Cache, c': Cache, q: seq<Elem>, q': seq<Elem>, id: HoldId)
    requires QueueDisciplined(c, q) && QueueDisciplined(c', q') && SameRequests(q, q')
    requires id in c.holds && id in c'.holds && id.req in QueueReqs(q)
    ensures c'.holds[id].leaf == c.holds[id].leaf
  {
    var i :| 0 <= i < |q| && q[i].Elem? && q[i].req == id.req;
    assert Disciplined(c, q[i], i == 0) && Disciplined(c', q'[i], i == 0);
    assert id.which == First || id.which == Second;
  }

  /** What is held on both sides is held on the same leaf; the tree is the same. */
  ghost predicate SameLeaves(c: Cache, c': Cache) {
    c'.t == c.t && forall id | id in c.holds && id in c'.holds :: c'.holds[id].leaf == c.holds[id].leaf
  }

  /** The unlocking half of `free_path` and `free_path2`. */
  lemma ReleaseKeeps(s: State, r: ReqId)
    requires Inv(s) && r in s.active
    ensures var s' := s.(c := DropBoth(s.c, r), active := s.active - {r});
            Inv(s') && OnlyHoldsOf(s.c, s'.c, r) && r !in InFlight(s')
  {
    hide CacheInv, HoldsAlive, HeldParents, DropBoth, QueueDisciplined, ActiveOk, DistinctReqs, QueueReqs, OnlyHoldsOf;
    var s' := s.(c := DropBoth(s.c, r), active := s.active - {r});
    DropBothSound(s.c, s.k, InFlight(s), r);
    DropBothParents(s.c, r);
    OthersKept(s.c, s'.c, r, s.q, s.active);
    NoHoldsOf(s'.c, r, InFlight(s));
    assert InFlight(s') == InFlight(s) - {r};
    SoundShrinks(s'.c, s.k, InFlight(s), InFlight(s'));
  }

  lemma ActiveFrame(c: Cache, c': Cache, active: map<ReqId, Job>, others: set<ReqId>)
    requires ActiveOk(c, active) && active.Keys !! others
    requires forall id: HoldId | id.req !in others :: id in c'.holds <==> id in c.holds
    requires forall id: HoldId | id.req !in others && id in c.holds :: c'.holds[id] == c.holds[id]
    ensures ActiveOk(c', active)
  {
  }

  /** The waking half: a pass over the queue. */
  lemma PassKeeps(s: State)
    requires Inv(s) && QueueReady(s.c, s.k, s.q)
    ensures var (c', q') := WakeFrom(s.c, s.q, 0);
            Inv(s.(c := c', q := q')) && SameLeaves(s.c, c') && QueueReqs(q') == QueueReqs(s.q)
  {
    hide CacheInv, HoldsAlive, HeldParents, Wake, WakeFrom, Disciplined, ElemReady, ActiveOk;
    var (c', q') := WakeFrom(s.c, s.q, 0);
    WakeFromSound(s.c, s.k, InFlight(s), s.q, 0);
    SameQueueReqs(s.q, q');
    ActiveFrame(s.c, c', s.active, QueueReqs(s.q));
    forall id | id in s.c.holds && id in c'.holds
      ensures c'.holds[id].leaf == s.c.holds[id].leaf
    {
      if id.req in QueueReqs(s.q) {
        QueuedLeafKept(s.c, c', s.q, q', id);
      }
    }
  }

  lemma FinishKeeps(s: State, r: ReqId)
    requires Inv(s) && Kernel(s) && CanFinish(s, r)
    ensures Inv(DoFinish(s, r)) && PathsStable(s.c, DoFinish(s, r).c) && DoFinish(s, r).c.t == s.c.t
  {
    hide CacheInv, HoldsAlive, HeldParents, DropBoth, WakeFrom, PathsStable, QueueDisciplined, ActiveOk, DistinctReqs,
         HoldAlive;
    var s1, s' := s.(c := DropBoth(s.c, r), active := s.active - {r}), DoFinish(s, r);
    ReleaseKeeps(s, r);
    forall i | 0 <= i < |s.q|
      ensures ElemReady(s1.c, s.k, s.q[i])
    {
      assert ElemReady(s.c, s.k, s.q[i]);
    }
    PassKeeps(s1);
    forall id | id in s.c.holds && id in s'.c.holds
      ensures s'.c.holds[id].leaf == s.c.holds[id].leaf
    {
      assert id.req in InFlight(s') && id.req != r;
      assert id in s1.c.holds;
    }
    SameTreeStable(s.c, s'.c);
  }

  // ---------------------------------------------------------------- steps that change the tree

  lemma TreeStepKeeps(s: State, c': Cache, k': Refs)
    requires Inv(s) && CacheInv(c') && c'.holds == s.c.holds && ChainsKept(s.c, c') && HoldsAlive(c', k')
    requires HeldParents(c') && StaysUnrooted(s.c.t, c'.t) && QueueReady(s.c, s.k, s.q)
    requires ActiveKnown(k', s.active)
    ensures Inv(s.(c := c', k := k')) && PathsStable(s.c, c')
  {
    hide CacheInv, HoldsAlive, HeldParents, QueueDisciplined, DistinctReqs, ActiveOk, ChainsKept, StaysUnrooted;
    TreeDisciplined(s, c');
    SameHoldsActive(s.c, c', s.active);
    ChainsKeptStable(s.c, c');
  }

  lemma TreeDisciplined(s: State, c': Cache)
    requires QueueDisciplined(s.c, s.q) && c'.holds == s.c.holds && ChainsKept(s.c, c')
    requires StaysUnrooted(s.c.t, c'.t) && QueueReady(s.c, s.k, s.q)
    ensures QueueDisciplined(c', s.q)
  {
    hide HoldAlive, Acyclic;
    forall i | 0 <= i < |s.q|
      ensures Disciplined(c', s.q[i], i == 0)
    {
      assert Disciplined(s.c, s.q[i], i == 0) && ElemReady(s.c, s.k, s.q[i]);
    }
  }

  lemma SameHoldsActive(c: Cache, c': Cache, active: map<ReqId, Job>)
    requires ActiveOk(c, active) && c'.holds == c.holds
    ensures ActiveOk(c', active)
  {
  }

  lemma ChainsKeptStable(c: Cache, c': Cache)
    requires ChainsKept(c, c')
    ensures PathsStable(c, c')
  {
    forall id | id in c.holds && id in c'.holds
      ensures c'.holds[id].leaf == c.holds[id].leaf && ClimbKept(c.t, c'.t, c.holds[id].leaf)
    {
      assert ClimbKept(c.t, c'.t, c.holds[id].leaf);
    }
  }

  /** What did not reach the root before a step does not reach it after. */
  ghost predicate StaysUnrooted(t: Links, t': Links) {
    forall n {:trigger Top(t', n)} | n in t && n in t' && Top(t', n) == ROOT :: Top(t, n) == ROOT
  }

  /** A node that is given a place had one under the root before. */
  ghost predicate MovedRooted(t: Links, t': Links, n: Ino) {
    n in t && n in t' && t'[n] != t[n] && t'[n].Linked? ==> Top(t, n) == ROOT
  }

  lemma {:induction false} ClimbsBack(t: Links, t': Links, n: Ino, c: seq<Ino>)
    requires Acyclic(t) && n in t && Climbs(t', n, c, ROOT)
    requires forall x {:trigger MovedRooted(t, t', x)} :: MovedRooted(t, t', x)
    ensures Top(t, n) == ROOT
    decreases |c|
  {
    if c == [] {
      assert ClimbEnds(t, ROOT, [], ROOT);
      ChainIs(t, ROOT, [], ROOT);
    } else if t'[n] == t[n] {
      TopOfChild(t, n);
      ClimbsBack(t, t', t[n].dir, c[1..]);
    } else {
      assert MovedRooted(t, t', n);
    }
  }

  lemma MovesKeepUnrooted(t: Links, t': Links)
    requires Acyclic(t) && Acyclic(t')
    requires forall x {:trigger MovedRooted(t, t', x)} :: MovedRooted(t, t', x)
    ensures StaysUnrooted(t, t')
  {
    forall n | n in t && n in t' && Top(t', n) == ROOT
      ensures Top(t, n) == ROOT
    {
      assert Grounded(t', n);
      ClimbsBack(t, t', n, Chain(t', n));
    }
  }

  /** A step of request r gives a place only to what r has write-locked, in a directory r has locked. */
  ghost predicate MovedBy(c: Cache, c': Cache, r: ReqId, n: Ino) {
    n in c.t && n in c'.t && c'.t[n].Linked? ==>
      || c'.t[n] == c.t[n]
      || (Top(c.t, n) == ROOT && HoldsLeaf(c, r, c'.t[n].dir)
          && exists which :: HoldId(r, which) in c.holds && c.holds[HoldId(r, which)].w == Some(n))
  }

  lemma MovesKeepParents(c: Cache, c': Cache, r: ReqId)
    requires CacheInv(c) && CacheInv(c') && HeldParents(c) && c'.holds == c.holds
    requires forall n {:trigger MovedBy(c, c', r, n)} :: MovedBy(c, c', r, n)
    ensures HeldParents(c') && StaysUnrooted(c.t, c'.t)
  {
    forall id | id in c'.holds
      ensures HeldParent(c', id.req, c'.holds[id].w)
    {
      var w := c.holds[id].w;
      assert HeldParent(c, id.req, w) && HoldRooted(c.t, c.holds[id]);
      if w.Some? && w.value in c'.t && c'.t[w.value].Linked? {
        assert MovedBy(c, c', r, w.value);
        if !(w.value in c.t && c'.t[w.value] == c.t[w.value]) {
          var which :| HoldId(r, which) in c.holds && c.holds[HoldId(r, which)].w == w;
          WrittenIsOnNoChain(c, id, HoldId(r, which));
        }
      }
    }
    forall n
      ensures MovedRooted(c.t, c'.t, n)
    {
      assert MovedBy(c, c', r, n);
    }
    MovesKeepUnrooted(c.t, c'.t);
  }

  lemma OwnedMove(s: State, r: ReqId, which: Which, c': Cache)
    requires Inv(s) && Binds(s, r, which)
    ensures var p := PathOf(s.active[r], which);
            var n := Lookup(s.c, p.dir, p.name);
            && HoldsLeaf(s.c, r, p.dir)
            && (n.Some? ==> n.value in s.c.t && s.c.t[n.value].Linked? && Top(s.c.t, n.value) == ROOT)
            && (n.Some? && n.value in c'.t && c'.t[n.value].Linked? && HoldsLeaf(s.c, r, c'.t[n.value].dir) ==>
                MovedBy(s.c, c', r, n.value))
  {
    JobHold(s, r, which);
    var p, id := PathOf(s.active[r], which), HoldId(r, which);
    var n := Lookup(s.c, p.dir, p.name);
    assert which == First || which == Second;
    if n.Some? {
      assert s.c.t[n.value] == Linked(p.dir, p.name);
      UnderHeldLeaf(s.c, n.value, id);
      assert HoldId(r, which) in s.c.holds && s.c.holds[HoldId(r, which)].w == n;
    }
  }

  /** The hold of a running request's path has that path's directory as its leaf. */
  lemma JobHold(s: State, r: ReqId, which: Which)
    requires Inv(s) && Binds(s, r, which)
    ensures var id := HoldId(r, which);
            id in s.c.holds && s.c.holds[id].leaf == PathOf(s.active[r], which).dir
  {
    assert Matches(s.c, r, s.active[r].p1, s.active[r].p2);
  }

  lemma RemoveStepKeeps(s: State, r: ReqId)
    requires Inv(s) && Binds(s, r, First)
    ensures var c' := RemovedBy(s.c, s.active[r]);
            Keeps(s.c, c') && c'.t == Relinked(s.c.t, Lookup(s.c, s.active[r].p1.dir, s.active[r].p1.name), Detached)
  {
    hide CacheInv, HoldsAlive;
    RemoveKeeps(s.c, HoldId(r, First), s.active[r].p1.dir, s.active[r].p1.name);
  }

  lemma HideStepKeeps(s: State, r: ReqId, which: Which, newname: string)
    requires Inv(s) && CanHide(s, r, which, newname)
    ensures var p := PathOf(s.active[r], which);
            var c' := HiddenBy(s.c, p, newname);
            Keeps(s.c, c') && c'.t == Relinked(s.c.t, Lookup(s.c, p.dir, p.name), Linked(p.dir, newname))
  {
    hide CacheInv, HoldsAlive;
    var p, id := PathOf(s.active[r], which), HoldId(r, which);
    JobHold(s, r, which);
    if Lookup(s.c, p.dir, p.name).Some? {
      RenameKeeps(s.c, id, id, p.dir, p.name, p.dir, newname, true);
    } else {
      KeepsRefl(s.c);
    }
  }

  /**
    A rename by a request that holds both paths: the moved node ends up under the root at its new
    place, a replaced node loses its name, no other node moves.
   */
  lemma RenameStepKeeps(s: State, r: ReqId)
    requires Inv(s) && Binds(s, r, First) && Binds(s, r, Second)
    ensures var c' := RenamedBy(s.c, s.active[r]);
            var p1, p2 := s.active[r].p1, s.active[r].p2.value;
            var node, newnode := Lookup(s.c, p1.dir, p1.name), Lookup(s.c, p2.dir, p2.name);
            && Keeps(s.c, c')
            && (node.Some? ==> Top(c'.t, node.value) == ROOT)
            && c'.t == if node.Some? then Relinked(Relinked(s.c.t, newnode, Detached), node, Linked(p2.dir, p2.name))
               else s.c.t
  {
    hide CacheInv, HoldsAlive;
    var p1, p2 := s.active[r].p1, s.active[r].p2.value;
    JobHold(s, r, Second);
    if Lookup(s.c, p1.dir, p1.name).Some? {
      RenameKeeps(s.c, HoldId(r, First), HoldId(r, Second), p1.dir, p1.name, p2.dir, p2.name, false);
    } else {
      KeepsRefl(s.c);
    }
  }

  lemma ExchangeStepKeeps(s: State, r: ReqId)
    requires Inv(s) && Binds(s, r, First) && Binds(s, r, Second)
    ensures var c' := ExchangedBy(s.c, s.active[r]);
            var p1, p2 := s.active[r].p1, s.active[r].p2.value;
            var oldnode, newnode := Lookup(s.c, p1.dir, p1.name), Lookup(s.c, p2.dir, p2.name);
            && Keeps(s.c, c')
            && (oldnode.Some? ==> Top(c'.t, oldnode.value) == ROOT)
            && (newnode.Some? ==> Top(c'.t, newnode.value) == ROOT)
            && c'.t == Relinked(Relinked(s.c.t, oldnode, Linked(p2.dir, p2.name)), newnode, Linked(p1.dir, p1.name))
  {
    hide CacheInv, HoldsAlive;
    var p1, p2 := s.active[r].p1, s.active[r].p2.value;
    var id1, id2 := HoldId(r, First), HoldId(r, Second);
    var oldnode, newnode := Lookup(s.c, p1.dir, p1.name), Lookup(s.c, p2.dir, p2.name);
    JobHold(s, r, First);
    JobHold(s, r, Second);
    if oldnode.Some? {
      WrittenIsOnNoChain(s.c, id1, id2);
      OwnedIsOffChains(s.c, id1, oldnode);
    }
    if newnode.Some? {
      OwnedIsOffChains(s.c, id2, newnode);
    }
    if oldnode.Some? || newnode.Some? {
      ExchangeKeeps(s.c, id1, id2, p1.dir, p1.name, p2.dir, p2.name);
      var c' := ExchangedBy(s.c, s.active[r]);
      ExchangeEndsRooted(c', oldnode, id2);
      ExchangeEndsRooted(c', newnode, id1);
    } else {
      KeepsRefl(s.c);
    }
  }

  lemma ExchangeEndsRooted(c: Cache, n: Option<Ino>, id: HoldId)
    requires CacheInv(c) && id in c.holds
    requires n.Some? ==>
               n.value in c.t && n.value != ROOT && c.t[n.value].Linked? && c.t[n.value].dir == c.holds[id].leaf
    ensures n.Some? ==> Top(c.t, n.value) == ROOT
  {
    if n.Some? {
      UnderHeldLeaf(c, n.value, id);
    }
  }

  // ---------------------------------------------------------------- who moves what

  lemma RemoveMoves(s: State, r: ReqId)
    requires Inv(s) && Binds(s, r, First)
    ensures var c' := RemovedBy(s.c, s.active[r]); HeldParents(c') && StaysUnrooted(s.c.t, c'.t)
  {
    hide CacheInv, HoldsAlive, HeldParents, StaysUnrooted, RemovedBy;
    RemoveStepKeeps(s, r);
    var c' := RemovedBy(s.c, s.active[r]);
    forall n
      ensures MovedBy(s.c, c', r, n)
    {
    }
    MovesKeepParents(s.c, c', r);
  }

  lemma HideMoves(s: State, r: ReqId, which: Which, newname: string)
    requires Inv(s) && CanHide(s, r, which, newname)
    ensures var c' := HiddenBy(s.c, PathOf(s.active[r], which), newname); HeldParents(c') && StaysUnrooted(s.c.t, c'.t)
  {
    hide CacheInv, HoldsAlive, HeldParents, StaysUnrooted, HiddenBy;
    HideStepKeeps(s, r, which, newname);
    var c' := HiddenBy(s.c, PathOf(s.active[r], which), newname);
    OwnedMove(s, r, which, c');
    forall n
      ensures MovedBy(s.c, c', r, n)
    {
    }
    MovesKeepParents(s.c, c', r);
  }

  lemma RenameMoves(s: State, r: ReqId)
    requires Inv(s) && Binds(s, r, First) && Binds(s, r, Second)
    ensures var c' := RenamedBy(s.c, s.active[r]); HeldParents(c') && StaysUnrooted(s.c.t, c'.t)
  {
    hide CacheInv, HoldsAlive, HeldParents, StaysUnrooted, RenamedBy;
    RenameStepKeeps(s, r);
    var c' := RenamedBy(s.c, s.active[r]);
    OwnedMove(s, r, First, c');
    OwnedMove(s, r, Second, c');
    forall n
      ensures MovedBy(s.c, c', r, n)
    {
    }
    MovesKeepParents(s.c, c', r);
  }

  lemma ExchangeMoves(s: State, r: ReqId)
    requires Inv(s) && Binds(s, r, First) && Binds(s, r, Second)
    ensures var c' := ExchangedBy(s.c, s.active[r]); HeldParents(c') && StaysUnrooted(s.c.t, c'.t)
  {
    hide CacheInv, HoldsAlive, HeldParents, StaysUnrooted, ExchangedBy;
    ExchangeStepKeeps(s, r);
    var c' := ExchangedBy(s.c, s.active[r]);
    OwnedMove(s, r, First, c');
    OwnedMove(s, r, Second, c');
    forall n
      ensures MovedBy(s.c, c', r, n)
    {
    }
    MovesKeepParents(s.c, c', r);
  }
}
