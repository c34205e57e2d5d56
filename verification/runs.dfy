/**
  What holds in every run of the step system: lock accounting, the queue discipline, stable paths,
  an acyclic tree, and assertions that never fail.
 */
module Runs {
  import opened Wrappers
  import opened Tree
  import opened LockCounts
  import opened PathLocks
  import opened LockQueue
  import opened Requests

  // ---------------------------------------------------------------- references

  /** The assertion of `delete_node`: a node nothing refers to is not locked. */
  lemma DeleteIsSafe(s: State, n: Ino)
    requires Inv(s) && CanDelete(s, n)
    ensures n in s.c.lk && s.c.lk[n] == 0
  {
    var g := GrantsOf(s.c);
    forall id | id in s.c.holds
      ensures n !in g[id].rd && g[id].w != Some(n)
    {
      var leaf := s.c.holds[id].leaf;
      assert HoldAlive(s.c.t, s.k, id.req, s.c.holds[id]) && HoldRooted(s.c.t, s.c.holds[id]);
      var c := Chain(s.c.t, leaf);
      ClimbsInTree(s.c.t, leaf, c, ROOT);
      forall i | 0 <= i < |c|
        ensures c[i] != n
      {
        if i == 0 {
          assert c[0] == leaf;
        } else {
          var j := i - 1;
          assert s.c.t[c[j]].dir == c[i];
        }
      }
    }
    assert Readers(g, n) == {} && Writers(g, n) == {};
    CounterMeaning(s.c.lk, g, n);
  }

  lemma AliveAfterDelete(s: State, n: Ino)
    requires HoldsAlive(s.c, s.k) && ActiveKnown(s.k, s.active) && CanDelete(s, n)
    ensures var k' := s.k.(nlookup := s.k.nlookup - {n});
            HoldsAlive(DeleteNode(s.c, n), k') && ActiveKnown(k', s.active)
  {
    var c', k' := DeleteNode(s.c, n), s.k.(nlookup := s.k.nlookup - {n});
    forall id | id in c'.holds
      ensures HoldAlive(c'.t, k', id.req, c'.holds[id])
    {
      assert HoldAlive(s.c.t, s.k, id.req, s.c.holds[id]);
    }
  }

  /** A forget that takes the last lookup reference has waited until the node was unlocked. */
  lemma AliveAfterForget(s: State, n: Ino, count: nat)
    requires Inv(s) && CanForget(s, n, count)
    ensures HoldsAlive(s.c, s.k.(nlookup := s.k.nlookup[n := s.k.nlookup[n] - count]))
  {
    hide CacheInv, ActiveKnown, QueueDisciplined, DistinctReqs, ActiveOk, HeldParents;
    var k' := s.k.(nlookup := s.k.nlookup[n := s.k.nlookup[n] - count]);
    forall id | id in s.c.holds
      ensures HoldAlive(s.c.t, k', id.req, s.c.holds[id])
    {
      var h := s.c.holds[id];
      assert HoldAlive(s.c.t, s.k, id.req, h);
      if s.c.lk[n] == 0 {
        FreeIsNotHeld(s.c, id, n);
      }
    }
  }

  lemma FreeIsNotHeld(c: Cache, id: HoldId, n: Ino)
    requires CacheInv(c) && id in c.holds && n in c.lk && c.lk[n] == 0 && n != ROOT
    ensures c.holds[id].leaf != n && c.holds[id].w != Some(n)
  {
    var g, h := GrantsOf(c), c.holds[id];
    assert HoldRooted(c.t, h);
    FreeIsUnmentioned(c.lk, g, n);
    assert n !in g[id].rd && g[id].w != Some(n);
    ChainSetInTree(c.t, h.leaf);
  }

  /** So the directories of running requests stay known, too. */
  lemma KnownAfterForget(s: State, n: Ino, count: nat)
    requires Inv(s) && CanForget(s, n, count)
    ensures ActiveKnown(s.k.(nlookup := s.k.nlookup[n := s.k.nlookup[n] - count]), s.active)
  {
    hide CacheInv, HoldsAlive, HeldParents, QueueDisciplined, DistinctReqs;
    var k' := s.k.(nlookup := s.k.nlookup[n := s.k.nlookup[n] - count]);
    forall r | r in s.active
      ensures WritesKnown(k', s.active[r].p1) && (s.active[r].p2.Some? ==> WritesKnown(k', s.active[r].p2.value))
    {
      var j := s.active[r];
      assert WritesKnown(s.k, j.p1) && (j.p2.Some? ==> WritesKnown(s.k, j.p2.value));
      assert Matches(s.c, r, j.p1, j.p2) && HasAll(s.c, r, j.p2);
      LeafIsLocked(s, HoldId(r, First));
      if j.p2.Some? {
        LeafIsLocked(s, HoldId(r, Second));
      }
    }
  }

  lemma LeafIsLocked(s: State, id: HoldId)
    requires Inv(s) && id in s.c.holds
    ensures var leaf := s.c.holds[id].leaf; leaf == ROOT || (leaf in s.c.lk && s.c.lk[leaf] != 0)
  {
    hide HoldsAlive, HeldParents, QueueDisciplined, DistinctReqs, ActiveOk, ActiveKnown;
    assert HoldRooted(s.c.t, s.c.holds[id]);
    ChainSetInTree(s.c.t, s.c.holds[id].leaf);
    UnlockIsSafe(s.c, id);
  }

  lemma AliveMono(c: Cache, k: Refs, k': Refs, active: map<ReqId, Job>)
    requires HoldsAlive(c, k) && ActiveKnown(k, active)
    requires forall n | n in k.nlookup :: n in k'.nlookup && k'.nlookup[n] >= k.nlookup[n]
    requires forall id | id in c.holds && id.req in k.dots :: id.req in k'.dots && k'.dots[id.req] == k.dots[id.req]
    requires forall id | id in c.holds && id.req in k.named ::
               id.req in k'.named && k'.named[id.req] == k.named[id.req]
    ensures HoldsAlive(c, k') && ActiveKnown(k', active)
  {
    forall id | id in c.holds
      ensures HoldAlive(c.t, k', id.req, c.holds[id])
    {
      assert HoldAlive(c.t, k, id.req, c.holds[id]);
    }
  }

  lemma RefStepKeeps(s: State, k': Refs)
    requires Inv(s) && Kernel(s) && HoldsAlive(s.c, k') && ActiveKnown(k', s.active)
    ensures Inv(s.(k := k')) && PathsStable(s.c, s.c)
  {
    hide HoldsAlive, HeldParents;
    KeepsRefl(s.c);
    TreeStepKeeps(s, s.c, k');
  }

  lemma DeleteStepSteady(s: State, n: Ino)
    requires Inv(s) && CanDelete(s, n)
    ensures Steady(s.c, DeleteNode(s.c, n))
  {
    hide CacheInv, HoldsAlive;
    DeleteIsSafe(s, n);
    assert s.c.lk[n] == 0;
    DeleteNodeKeeps(s.c, n);
  }

  /** A step that gives no node that stays another place. */
  lemma NothingMoves(s: State, c': Cache)
    requires Inv(s) && CacheInv(c') && c'.holds == s.c.holds
    requires forall n | n in s.c.t && n in c'.t && c'.t[n].Linked? :: c'.t[n] == s.c.t[n]
    ensures HeldParents(c') && StaysUnrooted(s.c.t, c'.t)
  {
    hide CacheInv, HoldsAlive, HeldParents, StaysUnrooted;
    forall n
      ensures MovedBy(s.c, c', 0, n)
    {
    }
    MovesKeepParents(s.c, c', 0);
  }

  lemma DeleteStepKeeps(s: State, n: Ino)
    requires Inv(s) && Kernel(s) && CanDelete(s, n)
    ensures var c' := DeleteNode(s.c, n);
            Inv(s.(c := c', k := s.k.(nlookup := s.k.nlookup - {n}))) && PathsStable(s.c, c')
  {
    hide CacheInv, HoldsAlive, HeldParents, StaysUnrooted, DeleteNode, ChainsKept;
    var c' := DeleteNode(s.c, n);
    DeleteStepSteady(s, n);
    DeletedLinks(s.c, n);
    NothingMoves(s, c');
    AliveAfterDelete(s, n);
    TreeStepKeeps(s, c', s.k.(nlookup := s.k.nlookup - {n}));
  }

  lemma DeletedLinks(c: Cache, n: Ino)
    requires n in c.t
    ensures var c' := DeleteNode(c, n);
            forall m | m in c.t && m in c'.t && c'.t[m].Linked? :: c'.t[m] == c.t[m]
  {
  }

  lemma CreateStepKeeps(s: State, n: Ino, dir: Ino, name: string)
    requires Inv(s) && Kernel(s) && n !in s.c.t && dir in s.c.t && Lookup(s.c, dir, name) == None
    ensures var c' := AddNode(s.c, n, dir, name);
            Inv(s.(c := c', k := s.k.(nlookup := s.k.nlookup[n := 1]))) && PathsStable(s.c, c')
  {
    hide CacheInv, HoldsAlive, HeldParents, StaysUnrooted, ChainsKept;
    var c', k' := AddNode(s.c, n, dir, name), s.k.(nlookup := s.k.nlookup[n := 1]);
    AddNodeKeeps(s.c, n, dir, name);
    NothingMoves(s, c');
    AliveAfterCreate(s, n, dir, name);
    TreeStepKeeps(s, c', k');
  }

  lemma AliveAfterCreate(s: State, n: Ino, dir: Ino, name: string)
    requires HoldsAlive(s.c, s.k) && ActiveKnown(s.k, s.active) && n !in s.c.t
    ensures var k' := s.k.(nlookup := s.k.nlookup[n := 1]);
            HoldsAlive(AddNode(s.c, n, dir, name), k') && ActiveKnown(k', s.active)
  {
    var c', k' := AddNode(s.c, n, dir, name), s.k.(nlookup := s.k.nlookup[n := 1]);
    forall id | id in c'.holds
      ensures HoldAlive(c'.t, k', id.req, c'.holds[id])
    {
      assert HoldAlive(s.c.t, s.k, id.req, s.c.holds[id]);
    }
  }

  /** A node that leaves its directory leaves one that the kernel knows. */
  ghost predicate LeavesKnown(c: Cache, c': Cache, k: Refs, n: Ino) {
    n in c.t && c.t[n].Linked? ==> (n in c'.t && c'.t[n] == c.t[n]) || Known(k, c.t[n].dir)
  }

  ghost predicate AllLeaveKnown(c: Cache, c': Cache, k: Refs) {
    forall n {:trigger LeavesKnown(c, c', k, n)} :: LeavesKnown(c, c', k, n)
  }

  lemma BoundIsKnown(s: State, r: ReqId, which: Which)
    requires Inv(s) && Binds(s, r, which)
    ensures var p := PathOf(s.active[r], which);
            var n := Lookup(s.c, p.dir, p.name);
            Known(s.k, p.dir) && (n.Some? ==> n.value in s.c.t && s.c.t[n.value] == Linked(p.dir, p.name))
  {
    hide HoldsAlive, HeldParents, QueueDisciplined, DistinctReqs, ActiveOk;
    assert WritesKnown(s.k, s.active[r].p1);
  }

  /** Whatever a running request does to the tree, what it moves leaves a known directory. */
  lemma JobLeavesKnown(s: State, ev: Event)
    requires Inv(s) && Enabled(s, ev) && (ev.Remove? || ev.HideName? || ev.Rename? || ev.Exchange?)
    ensures AllLeaveKnown(s.c, Next(s, ev).c, s.k)
  {
    hide CacheInv, HoldsAlive, HeldParents, Kernel, QueueDisciplined, ActiveOk, DistinctReqs, ActiveKnown, Owns,
         RemovedBy, HiddenBy, RenamedBy, ExchangedBy, Known;
    match ev
    case Remove(r) =>
      BoundIsKnown(s, r, First);
      RemoveStepKeeps(s, r);
    case HideName(r, which, newname) =>
      BoundIsKnown(s, r, which);
      HideStepKeeps(s, r, which, newname);
    case Rename(r) =>
      BoundIsKnown(s, r, First);
      BoundIsKnown(s, r, Second);
      RenameStepKeeps(s, r);
    case Exchange(r) =>
      BoundIsKnown(s, r, First);
      BoundIsKnown(s, r, Second);
      ExchangeStepKeeps(s, r);
  }

  lemma JobStepKeeps(s: State, c': Cache)
    requires Inv(s) && Kernel(s) && Keeps(s.c, c') && HeldParents(c') && StaysUnrooted(s.c.t, c'.t)
    requires AllLeaveKnown(s.c, c', s.k)
    ensures Inv(s.(c := c')) && PathsStable(s.c, c')
  {
    hide CacheInv, ChainsKept, HeldParents, StaysUnrooted;
    assert HoldsAlive(c', s.k) by {
      forall id | id in c'.holds
        ensures HoldAlive(c'.t, s.k, id.req, c'.holds[id])
      {
        assert HoldAlive(s.c.t, s.k, id.req, s.c.holds[id]);
        if id.req in s.k.named {
          assert LeavesKnown(s.c, c', s.k, s.k.named[id.req]);
        }
      }
    }
    TreeStepKeeps(s, c', s.k);
  }

  lemma WaitStepKeeps(s: State, n: Ino)
    requires Inv(s)
    ensures Inv(s.(q := s.q + [Waiter(n)])) && PathsStable(s.c, s.c)
  {
    hide CacheInv, HoldsAlive, HeldParents, QueueReqs;
    var q' := s.q + [Waiter(n)];
    QueueReqsAppend(s.q, Waiter(n));
    forall i | 0 <= i < |q'|
      ensures Disciplined(s.c, q'[i], i == 0)
    {
      assert i < |s.q| ==> Disciplined(s.c, s.q[i], i == 0);
    }
    assert InFlight(s.(q := q')) == InFlight(s);
    SameTreeStable(s.c, s.c);
  }

  // ---------------------------------------------------------------- every step

  /** Every step keeps the invariant, and every path that is held throughout it. */
  lemma StepKeeps(s: State, ev: Event)
    requires Inv(s) && Enabled(s, ev)
    ensures Inv(Next(s, ev)) && PathsStable(s.c, Next(s, ev).c)
  {
    hide Inv, Kernel, HeldParents, StaysUnrooted, PathsStable, CanBegin, CanLeave, CanFinish, CanDelete;
    match ev
    case Begin(r, p1, p2) => BeginKeeps(s, r, p1, p2);
    case Leave(i) => LeaveKeeps(s, i);
    case Finish(r) => FinishKeeps(s, r);
    case Remove(_) => ChangeKeeps(s, ev);
    case HideName(_, _, _) => ChangeKeeps(s, ev);
    case Rename(_) => ChangeKeeps(s, ev);
    case Exchange(_) => ChangeKeeps(s, ev);
    case Create(n, dir, name) => CreateStepKeeps(s, n, dir, name);
    case Delete(n) => DeleteStepKeeps(s, n);
    case WaitForget(n) => WaitStepKeeps(s, n);
    case _ => RefsStepKeeps(s, ev);
  }

  /** The steps that change the tree on behalf of a running request. */
  lemma ChangeKeeps(s: State, ev: Event)
    requires Inv(s) && Enabled(s, ev) && (ev.Remove? || ev.HideName? || ev.Rename? || ev.Exchange?)
    ensures Inv(Next(s, ev)) && PathsStable(s.c, Next(s, ev).c)
  {
    hide Inv, Kernel, HeldParents, StaysUnrooted, PathsStable, AllLeaveKnown, Keeps, RemovedBy, HiddenBy, RenamedBy,
         ExchangedBy, Owns, Top;
    JobLeavesKnown(s, ev);
    match ev
    case Remove(r) =>
      RemoveStepKeeps(s, r);
      RemoveMoves(s, r);
      JobStepKeeps(s, RemovedBy(s.c, s.active[r]));
    case HideName(r, which, newname) =>
      HideStepKeeps(s, r, which, newname);
      HideMoves(s, r, which, newname);
      JobStepKeeps(s, HiddenBy(s.c, PathOf(s.active[r], which), newname));
    case Rename(r) =>
      RenameStepKeeps(s, r);
      RenameMoves(s, r);
      JobStepKeeps(s, RenamedBy(s.c, s.active[r]));
    case Exchange(r) =>
      ExchangeStepKeeps(s, r);
      ExchangeMoves(s, r);
      JobStepKeeps(s, ExchangedBy(s.c, s.active[r]));
  }

  lemma RefsStepKeeps(s: State, ev: Event)
    requires Inv(s) && Enabled(s, ev) && (ev.Touch? || ev.Forget? || ev.TakeDot? || ev.DropDot?
             || ev.NameParent? || ev.UnnameParent?)
    ensures Inv(Next(s, ev)) && PathsStable(s.c, Next(s, ev).c)
  {
    hide Inv, HoldsAlive, ActiveKnown, Kernel, PathsStable, CanForget;
    var k' := Next(s, ev).k;
    if ev.Forget? {
      AliveAfterForget(s, ev.n, ev.count);
      KnownAfterForget(s, ev.n, ev.count);
    } else {
      RefsGrow(s, ev);
    }
    RefStepKeeps(s, k');
  }

  lemma RefsGrow(s: State, ev: Event)
    requires Inv(s) && Enabled(s, ev) && (ev.Touch? || ev.TakeDot? || ev.DropDot? || ev.NameParent? || ev.UnnameParent?)
    ensures HoldsAlive(s.c, Next(s, ev).k) && ActiveKnown(Next(s, ev).k, s.active)
  {
    hide CacheInv, HoldsAlive, HeldParents, Kernel, QueueDisciplined, ActiveOk, DistinctReqs, ActiveKnown;
    AliveMono(s.c, s.k, Next(s, ev).k, s.active);
  }

  // ---------------------------------------------------------------- whole runs

  ghost predicate Init(s: State) {
    s == State(Cache(map[ROOT := Detached], map[], map[ROOT := 0], map[]), [], map[],
               Refs(map[ROOT := 1], map[], map[]))
  }

  ghost predicate IsRun(run: seq<State>, evs: seq<Event>) {
    && |run| == |evs| + 1 && Init(run[0])
    && forall i | 0 <= i < |evs| :: Enabled(run[i], evs[i]) && run[i + 1] == Next(run[i], evs[i])
  }

  lemma InitInv(s: State)
    requires Init(s)
    ensures Inv(s)
  {
    assert ClimbEnds(s.c.t, ROOT, [], ROOT);
    assert Acyclic(s.c.t);
    var g := GrantsOf(s.c);
    assert g == map[];
    assert Readers(g, ROOT) == {} && Writers(g, ROOT) == {};
    assert AccountedAt(s.c.lk, g, ROOT);
  }

  lemma InvCache(s: State)
    requires Inv(s)
    ensures CacheInv(s.c)
  {
  }

  /** Every reachable state satisfies the invariant. */
  lemma {:induction false} RunKeepsInv(run: seq<State>, evs: seq<Event>, i: nat)
    requires IsRun(run, evs) && i < |run|
    ensures Inv(run[i])
    decreases i
  {
    hide Inv, Enabled, Next;
    if i == 0 {
      InitInv(run[0]);
    } else {
      RunKeepsInv(run, evs, i - 1);
      StepKeeps(run[i - 1], evs[i - 1]);
    }
  }

  /**
    From the moment a path is locked until it is unlocked, its chain consists of the same nodes,
    each with the same parent and the same name: `unlock_path` walks exactly what was locked.
   */
  lemma {:induction false} RunKeepsPath(run: seq<State>, evs: seq<Event>, i: nat, j: nat, id: HoldId)
    requires IsRun(run, evs) && i <= j < |run|
    requires forall m | i <= m <= j :: id in run[m].c.holds
    ensures var leaf := run[i].c.holds[id].leaf;
            run[j].c.holds[id].leaf == leaf && ClimbKept(run[i].c.t, run[j].c.t, leaf)
    decreases j
  {
    hide Inv, Next, Enabled;
    RunKeepsInv(run, evs, i);
    if i == j {
      assert CacheInv(run[i].c) by {
        InvCache(run[i]);
      }
      KeepsRefl(run[i].c);
      assert ClimbKept(run[i].c.t, run[i].c.t, run[i].c.holds[id].leaf);
    } else {
      RunKeepsPath(run, evs, i, j - 1, id);
      RunKeepsInv(run, evs, j - 1);
      StepKeeps(run[j - 1], evs[j - 1]);
      assert ClimbKept(run[j - 1].c.t, run[j].c.t, run[j - 1].c.holds[id].leaf);
    }
  }

  /**
    In every reachable state a counter is 0 exactly when nobody holds the node, -1 exactly when one
    request writes it and nobody reads it, and otherwise the number of readers, with INT_MIN added
    or not.
   */
  lemma RunAccounts(run: seq<State>, evs: seq<Event>, i: nat, n: Ino)
    requires IsRun(run, evs) && i < |run| && n in run[i].c.t
    ensures var c, g := run[i].c, GrantsOf(run[i].c);
            && n in c.lk
            && (c.lk[n] == WRITE <==> |Writers(g, n)| == 1 && Readers(g, n) == {})
            && (c.lk[n] != WRITE ==> Writers(g, n) == {})
            && (c.lk[n] != WRITE ==>
                c.lk[n] == |Readers(g, n)| || (Readers(g, n) != {} && c.lk[n] == WAIT_OFFSET + |Readers(g, n)|))
            && |Readers(g, n)| < INT_MAX
  {
    RunKeepsInv(run, evs, i);
    CounterMeaning(run[i].c.lk, GrantsOf(run[i].c), n);
    HoldersBounded(GrantsOf(run[i].c), n);
  }

  /**
    In every reachable state the tree is acyclic, every held path reaches the root, and no
    write-locked node is on a held chain.
   */
  lemma RunKeepsTree(run: seq<State>, evs: seq<Event>, i: nat)
    requires IsRun(run, evs) && i < |run|
    ensures var c := run[i].c;
            && Acyclic(c.t) && NamesAgree(c.t, c.names)
            && (forall id | id in c.holds :: Top(c.t, c.holds[id].leaf) == ROOT)
            && (forall id, id' | id in c.holds && id' in c.holds && c.holds[id].w.Some? ::
                  c.holds[id].w.value !in Chain(c.t, c.holds[id'].leaf))
  {
    RunKeepsInv(run, evs, i);
    var c := run[i].c;
    forall id | id in c.holds
      ensures Top(c.t, c.holds[id].leaf) == ROOT
    {
      assert HoldRooted(c.t, c.holds[id]);
    }
    forall id, id' | id in c.holds && id' in c.holds && c.holds[id].w.Some?
      ensures c.holds[id].w.value !in Chain(c.t, c.holds[id'].leaf)
    {
      WrittenIsOnNoChain(c, id, id');
      assert c.holds[id].w.value !in ChainSet(c.t, c.holds[id'].leaf);
    }
  }

  /** No assertion of `unlock_path` or `delete_node` can fail in any reachable state. */
  lemma RunAssertions(run: seq<State>, evs: seq<Event>, i: nat)
    requires IsRun(run, evs) && i < |run|
    ensures forall id | id in run[i].c.holds :: UnlockAsserts(run[i].c.t, run[i].c.lk, run[i].c.holds[id])
    ensures forall n | CanDelete(run[i], n) :: n in run[i].c.lk && run[i].c.lk[n] == 0
  {
    RunKeepsInv(run, evs, i);
    forall id | id in run[i].c.holds
      ensures UnlockAsserts(run[i].c.t, run[i].c.lk, run[i].c.holds[id])
    {
      UnlockIsSafe(run[i].c, id);
    }
    forall n | CanDelete(run[i], n)
      ensures n in run[i].c.lk && run[i].c.lk[n] == 0
    {
      DeleteIsSafe(run[i], n);
    }
  }

  /**
    In every reachable state a waiting request that is not the head of the queue holds nothing, a
    finished one holds all its paths or failed and holds nothing, a running one holds all its paths,
    and nobody else holds anything.
   */
  lemma RunKeepsDiscipline(run: seq<State>, evs: seq<Event>, i: nat)
    requires IsRun(run, evs) && i < |run|
    ensures var s := run[i];
            && (forall j | 0 < j < |s.q| && s.q[j].Elem? && !s.q[j].done :: HasNone(s.c, s.q[j].req))
            && (forall j | 0 <= j < |s.q| && s.q[j].Elem? && s.q[j].done ::
                  if s.q[j].err == Ok then HasAll(s.c, s.q[j].req, s.q[j].p2) else HasNone(s.c, s.q[j].req))
            && (forall r | r in s.active :: HasAll(s.c, r, s.active[r].p2))
            && (forall id | id in s.c.holds :: id.req in InFlight(s))
  {
    RunKeepsInv(run, evs, i);
    forall j | 0 <= j < |run[i].q|
      ensures Disciplined(run[i].c, run[i].q[j], j == 0)
    {
    }
  }

  /**
    No wakeup is lost: whenever a request has given its paths back, every request in the queue has
    its paths, or another request holds a node that keeps it from having them, or its own two paths
    keep each other from being locked.
   */
  lemma RunLosesNoWakeup(run: seq<State>, evs: seq<Event>, i: nat)
    requires IsRun(run, evs) && i < |evs| && evs[i].Finish?
    ensures AllWait(run[i + 1].c, run[i + 1].q, 0)
  {
    RunKeepsInv(run, evs, i);
    FinishLeavesWaiting(run[i], evs[i].r);
  }

  lemma FinishLeavesWaiting(s: State, r: ReqId)
    requires Inv(s) && Kernel(s) && CanFinish(s, r)
    ensures AllWait(DoFinish(s, r).c, DoFinish(s, r).q, 0)
  {
    hide CacheInv, HoldsAlive, HeldParents, DropBoth, WakeFrom, QueueDisciplined, ActiveOk, DistinctReqs, HoldAlive,
         AllWait;
    var s1 := s.(c := DropBoth(s.c, r), active := s.active - {r});
    ReleaseKeeps(s, r);
    forall i | 0 <= i < |s.q|
      ensures ElemReady(s1.c, s.k, s.q[i])
    {
      assert ElemReady(s.c, s.k, s.q[i]);
    }
    AllWaitFrom(s1.c, s.k, InFlight(s1), s.q, 0);
  }

  /**
    And the queue is served in turn: whom an unfinished request waits for held something before the
    pass or stood before it in the queue; the head holds each of its paths or finds somebody in its way.
   */
  lemma RunServesInTurn(run: seq<State>, evs: seq<Event>, i: nat, j: nat)
    requires IsRun(run, evs) && i < |evs| && evs[i].Finish? && j < |run[i + 1].q|
    ensures j < |run[i].q|
    ensures var c, c', e := DropBoth(run[i].c, evs[i].r), run[i + 1].c, run[i + 1].q[j];
            && InTurn(c, run[i].q, 0, j, c', e)
            && (j == 0 && e.Elem? && !e.done ==>
                && LockedOrNot(c', HoldId(e.req, First), e.p1)
                && (e.p2.Some? ==> LockedOrNot(c', HoldId(e.req, Second), e.p2.value)))
  {
    hide Inv, Kernel, DropBoth, WakeFrom, InTurn, LockedOrNot;
    RunKeepsInv(run, evs, i);
    FinishServesInTurn(run[i], evs[i].r, j);
  }

  lemma FinishServesInTurn(s: State, r: ReqId, j: nat)
    requires Inv(s) && Kernel(s) && CanFinish(s, r) && j < |DoFinish(s, r).q|
    ensures j < |s.q|
    ensures var c, c', e := DropBoth(s.c, r), DoFinish(s, r).c, DoFinish(s, r).q[j];
            && InTurn(c, s.q, 0, j, c', e)
            && (j == 0 && e.Elem? && !e.done ==>
                && LockedOrNot(c', HoldId(e.req, First), e.p1)
                && (e.p2.Some? ==> LockedOrNot(c', HoldId(e.req, Second), e.p2.value)))
  {
    hide CacheInv, HoldsAlive, HeldParents, DropBoth, WakeFrom, QueueDisciplined, ActiveOk, DistinctReqs, HoldAlive,
         InTurn, LockedOrNot;
    var s1 := s.(c := DropBoth(s.c, r), active := s.active - {r});
    ReleaseKeeps(s, r);
    forall m | 0 <= m < |s.q|
      ensures ElemReady(s1.c, s.k, s.q[m])
    {
      assert ElemReady(s.c, s.k, s.q[m]);
    }
    ServedInTurn(s1.c, s.k, InFlight(s1), s.q, 0, j);
    if j == 0 {
      HeadAfterPass(s1.c, s.k, InFlight(s1), s.q);
    }
  }

  // ---------------------------------------------------------------- nobody waits for nothing

  ghost predicate WaitsForOne(e: Elem) {
    e.Elem? && !e.done && e.p2.None?
  }

  ghost predicate HeldByOther(c: Cache, r: ReqId) {
    exists id: HoldId :: id in c.holds && id.req != r
  }

  /** While a request waits for one path, some other request holds something. */
  ghost predicate OthersHold(s: State) {
    forall j | 0 <= j < |s.q| && WaitsForOne(s.q[j]) :: HeldByOther(s.c, s.q[j].req)
  }

  lemma HoldsSame(s: State, ev: Event)
    requires Enabled(s, ev) && !ev.Begin? && !ev.Finish?
    ensures Next(s, ev).c.holds == s.c.holds
  {
    hide Kernel, CanDelete, CanForget, CanLeave, Owns, Lookup, RemovedBy, HiddenBy, RenamedBy, ExchangedBy, DeleteNode;
    match ev
    case Remove(r) => ChangesHoldNothing(s.c, s.active[r]);
    case HideName(r, which, newname) => HidingHoldsNothing(s.c, PathOf(s.active[r], which), newname);
    case Rename(r) => ChangesHoldNothing(s.c, s.active[r]);
    case Exchange(r) => ChangesHoldNothing(s.c, s.active[r]);
    case Delete(n) =>
      DeleteTarget(s, n);
      DeletionHoldsNothing(s.c, n);
    case _ =>
  }

  lemma ChangesHoldNothing(c: Cache, j: Job)
    ensures RemovedBy(c, j).holds == c.holds
    ensures j.p2.Some? ==> RenamedBy(c, j).holds == c.holds && ExchangedBy(c, j).holds == c.holds
  {
  }

  lemma HidingHoldsNothing(c: Cache, p: Path, newname: string)
    ensures HiddenBy(c, p, newname).holds == c.holds
  {
  }

  lemma DeletionHoldsNothing(c: Cache, n: Ino)
    requires n in c.t
    ensures DeleteNode(c, n).holds == c.holds
  {
  }

  lemma WaitingIsHeld(c: Cache, e: Elem, first: bool)
    requires Waits(c, e, first) && WaitsForOne(e)
    ensures HeldByOther(c, e.req)
  {
    hide InTheWay;
    var id: HoldId :| id.req != e.req && InTheWay(c, id, e.p1);
    HolderHolds(c, id, e.p1);
  }

  lemma BeginKeepsOthers(s: State, r: ReqId, p1: Path, p2: Option<Path>)
    requires Inv(s) && Kernel(s) && CanBegin(s, r, p1, p2) && OthersHold(s)
    ensures OthersHold(DoBegin(s, r, p1, p2))
  {
    hide CacheInv, HoldsAlive, HeldParents, TryFirst, PathReady, QueueDisciplined, Matches, HasAll, HasNone, ActiveOk,
         Waits;
    var s', e := DoBegin(s, r, p1, p2), Elem(r, p1, p2, false, Ok);
    var c' := TryFirst(s.c, r, p1, p2).0;
    SoundGrows(s.c, s.k, InFlight(s), r);
    NothingHeld(s, r);
    TryFirstSound(s.c, s.k, InFlight(s) + {r}, r, p1, p2);
    forall j | 0 <= j < |s'.q| && WaitsForOne(s'.q[j])
      ensures HeldByOther(s'.c, s'.q[j].req)
    {
      if j < |s.q| {
        assert s'.q[j] == s.q[j] && HeldByOther(s.c, s.q[j].req);
        var id: HoldId :| id in s.c.holds && id.req != s.q[j].req;
        assert id.req in InFlight(s) && id in c'.holds;
      } else {
        TryFirstWaits(s.c, s.k, InFlight(s) + {r}, e);
        WaitingIsHeld(c', e, false);
      }
    }
  }

  lemma NothingHeld(s: State, r: ReqId)
    requires Inv(s) && r !in InFlight(s)
    ensures HasNone(s.c, r)
  {
    hide CacheInv, HoldsAlive, HeldParents;
  }

  lemma StepKeepsOthers(s: State, ev: Event)
    requires Inv(s) && Enabled(s, ev) && OthersHold(s)
    ensures OthersHold(Next(s, ev))
  {
    hide Inv, Kernel, CanBegin, CanFinish, DoBegin, DoFinish, Waits, HeldByOther, CanDelete, CanForget;
    var s' := Next(s, ev);
    match ev
    case Begin(r, p1, p2) => BeginKeepsOthers(s, r, p1, p2);
    case Finish(r) =>
      FinishLeavesWaiting(s, r);
      forall j | 0 <= j < |s'.q| && WaitsForOne(s'.q[j])
        ensures HeldByOther(s'.c, s'.q[j].req)
      {
        WaitingIsHeld(s'.c, s'.q[j], j == 0);
      }
    case Leave(i) => FewerWait(s, s', s.q[..i] + s.q[i + 1..]);
    case _ =>
      HoldsSame(s, ev);
      FewerWait(s, s', s'.q);
  }

  lemma FewerWait(s: State, s': State, q: seq<Elem>)
    requires OthersHold(s) && s'.c.holds == s.c.holds && s'.q == q
    requires forall e | e in q && WaitsForOne(e) :: e in s.q
    ensures OthersHold(s')
  {
    hide HeldByOther;
    forall j | 0 <= j < |q| && WaitsForOne(q[j])
      ensures HeldByOther(s'.c, q[j].req)
    {
      var m :| 0 <= m < |s.q| && s.q[m] == q[j];
      SameHolders(s.c, s'.c, q[j].req);
    }
  }

  lemma SameHolders(c: Cache, c': Cache, r: ReqId)
    requires c'.holds == c.holds && HeldByOther(c, r)
    ensures HeldByOther(c', r)
  {
  }

  lemma {:induction false} RunKeepsOthers(run: seq<State>, evs: seq<Event>, i: nat)
    requires IsRun(run, evs) && i < |run|
    ensures OthersHold(run[i])
    decreases i
  {
    hide Inv, Enabled, Next;
    if i > 0 {
      RunKeepsOthers(run, evs, i - 1);
      RunKeepsInv(run, evs, i - 1);
      StepKeepsOthers(run[i - 1], evs[i - 1]);
    }
  }

  /** A request that holds paths and goes on by itself, or the head of the queue, which holds one of its two. */
  ghost predicate Holder(s: State, id: HoldId) {
    && id in s.c.holds
    && (id.req in s.active
        || (exists m :: 0 <= m < |s.q| && s.q[m].Elem? && s.q[m].req == id.req
              && (s.q[m].done || (m == 0 && s.q[m].p2.Some?))))
  }

  /**
    In every reachable state, a request that waits for one path is not alone: another one holds
    something, and it is running, or has its paths and is about to leave the queue, or stands at the
    head of the queue with one of two paths.
   */
  lemma RunWaitsForHolders(run: seq<State>, evs: seq<Event>, i: nat, j: nat)
    requires IsRun(run, evs) && i < |run| && j < |run[i].q| && WaitsForOne(run[i].q[j])
    ensures exists id: HoldId :: Holder(run[i], id) && id.req != run[i].q[j].req
  {
    hide Inv;
    RunKeepsOthers(run, evs, i);
    RunKeepsInv(run, evs, i);
    var id: HoldId :| id in run[i].c.holds && id.req != run[i].q[j].req;
    HoldsAreHolders(run[i], id);
  }

  lemma HoldsAreHolders(s: State, id: HoldId)
    requires Inv(s) && id in s.c.holds
    ensures Holder(s, id)
  {
    hide CacheInv, HoldsAlive, HeldParents;
    if id.req !in s.active {
      var m :| 0 <= m < |s.q| && s.q[m].Elem? && s.q[m].req == id.req;
      assert Disciplined(s.c, s.q[m], m == 0);
      assert id.which == First || id.which == Second;
    }
  }

  /** What does not reach the root never reaches it again, whatever step is taken. */
  lemma StepStaysUnrooted(s: State, ev: Event)
    requires Inv(s) && Enabled(s, ev)
    ensures StaysUnrooted(s.c.t, Next(s, ev).c.t)
  {
    hide CacheInv, HoldsAlive, HeldParents, Kernel, QueueDisciplined, ActiveOk, DistinctReqs, DoBegin, DoFinish,
         DeleteNode, AddNode;
    hide RemovedBy, HiddenBy, RenamedBy, ExchangedBy, CanBegin, CanFinish;
    match ev
    case Remove(r) => RemoveMoves(s, r);
    case HideName(r, which, newname) => HideMoves(s, r, which, newname);
    case Rename(r) => RenameMoves(s, r);
    case Exchange(r) => ExchangeMoves(s, r);
    case Create(n, dir, name) => CreateStaysUnrooted(s, n, dir, name);
    case Delete(n) => DeleteStaysUnrooted(s, n);
    case _ => QuietStep(s, ev);
  }

  lemma CreateStaysUnrooted(s: State, n: Ino, dir: Ino, name: string)
    requires Inv(s) && n !in s.c.t && dir in s.c.t && Lookup(s.c, dir, name) == None
    ensures StaysUnrooted(s.c.t, AddNode(s.c, n, dir, name).t)
  {
    hide CacheInv, HoldsAlive, HeldParents, StaysUnrooted;
    AddNodeKeeps(s.c, n, dir, name);
    NothingMoves(s, AddNode(s.c, n, dir, name));
  }

  lemma DeleteStaysUnrooted(s: State, n: Ino)
    requires Inv(s) && CanDelete(s, n)
    ensures StaysUnrooted(s.c.t, DeleteNode(s.c, n).t)
  {
    hide CacheInv, HoldsAlive, HeldParents, StaysUnrooted;
    DeleteStepSteady(s, n);
    DeletedLinks(s.c, n);
    NothingMoves(s, DeleteNode(s.c, n));
  }

  /**
    In every reachable state `try_get_path` fails with -ENOENT exactly when the directory does not
    reach the root, whoever holds what; and once that is so it stays so while the node is cached.
   */
  lemma {:induction false} RunFailsForGood(run: seq<State>, evs: seq<Event>, i: nat, j: nat, r: ReqId, p: Path)
    requires IsRun(run, evs) && i <= j < |run| && forall m | i <= m <= j :: PathReady(run[m].c, run[m].k, r, p)
    ensures TryErr(run[i].c, p) == NoEnt <==> Top(run[i].c.t, p.dir) != ROOT
    ensures TryErr(run[i].c, p) == NoEnt ==> TryErr(run[j].c, p) == NoEnt
    decreases j
  {
    hide Inv, Next, Enabled, PathReady, TryErr;
    RunKeepsInv(run, evs, i);
    InvTries(run[i], r, p);
    if i < j {
      RunFailsForGood(run, evs, i, j - 1, r, p);
      RunKeepsInv(run, evs, j - 1);
      RunKeepsInv(run, evs, j);
      InvTries(run[j - 1], r, p);
      InvTries(run[j], r, p);
      StepStaysUnrooted(run[j - 1], evs[j - 1]);
    }
  }

  lemma InvTries(s: State, r: ReqId, p: Path)
    requires Inv(s) && PathReady(s.c, s.k, r, p)
    ensures p.dir in s.c.t && (TryErr(s.c, p) == NoEnt <==> Top(s.c.t, p.dir) != ROOT)
  {
    hide CacheInv, HoldsAlive, HeldParents, TryErr;
    TryMeaning(s.c, s.k, r, p);
  }

  /** Whose step it is that may change the tree. */
  ghost predicate ChangesTreeFor(ev: Event, r: ReqId) {
    match ev
    case Remove(r') => r' == r
    case HideName(r', _, _) => r' == r
    case Rename(r') => r' == r
    case Exchange(r') => r' == r
    case _ => false
  }

  lemma OwnsDiffer(c: Cache, id: HoldId, id': HoldId, n: Option<Ino>)
    requires CacheInv(c) && id in c.holds && c.holds[id].w.Some? && Owns(c, id', n) && id != id'
    ensures n != c.holds[id].w
  {
    WrittenIsOnNoChain(c, id, id');
  }

  /** What another request changes in the tree is not what this one has write-locked. */
  lemma JobStepSpares(s: State, ev: Event, id: HoldId)
    requires Inv(s) && Enabled(s, ev) && id in s.c.holds && s.c.holds[id].w.Some? && !ChangesTreeFor(ev, id.req)
    requires ev.Remove? || ev.HideName? || ev.Rename? || ev.Exchange?
    ensures var n, t' := s.c.holds[id].w.value, Next(s, ev).c.t;
            n in s.c.t ==> n in t' && t'[n] == s.c.t[n]
  {
    hide CacheInv, HoldsAlive, QueueDisciplined, ActiveOk, DistinctReqs, Kernel, RemovedBy, HiddenBy, RenamedBy,
         ExchangedBy;
    match ev
    case Remove(r) =>
      RemoveStepKeeps(s, r);
      OwnsDiffer(s.c, id, HoldId(r, First), Lookup(s.c, s.active[r].p1.dir, s.active[r].p1.name));
    case HideName(r, which, newname) =>
      HideStepKeeps(s, r, which, newname);
      var p := PathOf(s.active[r], which);
      OwnsDiffer(s.c, id, HoldId(r, which), Lookup(s.c, p.dir, p.name));
    case Rename(r) =>
      RenameStepKeeps(s, r);
      OwnsBothDiffer(s, r, id);
    case Exchange(r) =>
      ExchangeStepKeeps(s, r);
      OwnsBothDiffer(s, r, id);
  }

  /** Only the request that has a node write-locked gives it another parent or name, or takes it away. */
  lemma WriteTargetStable(s: State, ev: Event, id: HoldId)
    requires Inv(s) && Enabled(s, ev) && id in s.c.holds && s.c.holds[id].w.Some?
    requires !ChangesTreeFor(ev, id.req)
    ensures var n, t' := s.c.holds[id].w.value, Next(s, ev).c.t;
            n in s.c.t && n in t' && t'[n] == s.c.t[n]
  {
    hide CacheInv, HoldsAlive, HeldParents, Kernel, Next, CanDelete;
    OwnedIsOffChains(s.c, id, Some(s.c.holds[id].w.value));
    if ev.Remove? || ev.HideName? || ev.Rename? || ev.Exchange? {
      JobStepSpares(s, ev, id);
    } else if ev.Create? || ev.Delete? {
      HeldIsLocked(s, id);
      CreateOrDeleteSpares(s, ev);
    } else {
      QuietStep(s, ev);
    }
  }

  /** All other steps leave the tree alone. */
  lemma QuietStep(s: State, ev: Event)
    requires Inv(s) && Enabled(s, ev)
    requires !ev.Remove? && !ev.HideName? && !ev.Rename? && !ev.Exchange? && !ev.Create? && !ev.Delete?
    ensures Next(s, ev).c.t == s.c.t
  {
    hide Inv, Kernel, DoBegin, DoFinish, CanBegin, CanFinish;
    match ev
    case Begin(r, p1, p2) => BeginKeeps(s, r, p1, p2);
    case Finish(r) => FinishKeeps(s, r);
    case _ =>
  }

  lemma CreateOrDeleteSpares(s: State, ev: Event)
    requires Inv(s) && Enabled(s, ev) && (ev.Create? || ev.Delete?)
    ensures forall n | n in s.c.t && n in s.c.lk && s.c.lk[n] != 0 ::
              n in Next(s, ev).c.t && Next(s, ev).c.t[n] == s.c.t[n]
  {
    hide Inv, Kernel, CanDelete, DeleteNode;
    if ev.Delete? {
      DeleteIsSafe(s, ev.n);
      DeleteTarget(s, ev.n);
      DeleteSpares(s.c, ev.n);
    }
  }

  lemma DeleteTarget(s: State, n: Ino)
    requires CanDelete(s, n)
    ensures n in s.c.t
  {
  }

  lemma DeleteSpares(c: Cache, m: Ino)
    requires m in c.t
    ensures forall n | n in c.t && n != m :: n in DeleteNode(c, m).t && DeleteNode(c, m).t[n] == c.t[n]
  {
  }

  lemma OwnsBothDiffer(s: State, r: ReqId, id: HoldId)
    requires CacheInv(s.c) && Binds(s, r, First) && Binds(s, r, Second) && id in s.c.holds && s.c.holds[id].w.Some?
             && id.req != r
    ensures var p1, p2 := s.active[r].p1, s.active[r].p2.value;
            Lookup(s.c, p1.dir, p1.name) != s.c.holds[id].w && Lookup(s.c, p2.dir, p2.name) != s.c.holds[id].w
  {
    var p1, p2 := s.active[r].p1, s.active[r].p2.value;
    OwnsDiffer(s.c, id, HoldId(r, First), Lookup(s.c, p1.dir, p1.name));
    OwnsDiffer(s.c, id, HoldId(r, Second), Lookup(s.c, p2.dir, p2.name));
  }

  lemma HeldIsLocked(s: State, id: HoldId)
    requires Inv(s) && id in s.c.holds && s.c.holds[id].w.Some?
    ensures s.c.holds[id].w.value in s.c.lk && s.c.lk[s.c.holds[id].w.value] == WRITE
  {
    UnlockIsSafe(s.c, id);
  }

  // ---------------------------------------------------------------- a waiting writer

  lemma FinishLetsNoneJoin(s: State, r: ReqId, id0: HoldId, n: Ino)
    requires Inv(s) && Kernel(s) && CanFinish(s, r)
    requires Taken(s.c, n) && Holds(s.c, id0, n) && id0 in DoFinish(s, r).c.holds
    ensures NoneJoins(s.c, DoFinish(s, r).c, n)
  {
    hide CacheInv, HoldsAlive, HeldParents, DropBoth, WakeFrom, QueueDisciplined, ActiveOk, DistinctReqs, HoldAlive,
         Taken, Holds, NoneJoins;
    var s1 := s.(c := DropBoth(s.c, r), active := s.active - {r});
    ReleaseKeeps(s, r);
    FinishedHoldsNothing(s, r, id0);
    DropBothLetsNoneJoin(s.c, r, id0, n);
    JoinedIsTaken(s.c, s1.c, n);
    forall i | 0 <= i < |s.q|
      ensures ElemReady(s1.c, s.k, s.q[i])
    {
      assert ElemReady(s.c, s.k, s.q[i]);
    }
    WakeFromLetsNoneJoin(s1.c, s.k, InFlight(s1), s.q, 0, id0, n);
    NoneJoinsTrans(s.c, s1.c, DoFinish(s, r).c, n);
  }

  lemma FinishedHoldsNothing(s: State, r: ReqId, id: HoldId)
    requires Inv(s) && Kernel(s) && CanFinish(s, r) && id in DoFinish(s, r).c.holds
    ensures id.req != r
  {
    hide CacheInv, HoldsAlive, HeldParents, DropBoth, WakeFrom, QueueDisciplined, ActiveOk, DistinctReqs, HoldAlive,
         PathsStable;
    var s1 := s.(c := DropBoth(s.c, r), active := s.active - {r});
    ReleaseKeeps(s, r);
    forall i | 0 <= i < |s.q|
      ensures ElemReady(s1.c, s.k, s.q[i])
    {
      assert ElemReady(s.c, s.k, s.q[i]);
    }
    PassKeeps(s1);
  }

  lemma BeginLetsNoneJoin(s: State, r: ReqId, p1: Path, p2: Option<Path>, id0: HoldId, n: Ino)
    requires Inv(s) && Kernel(s) && CanBegin(s, r, p1, p2) && Taken(s.c, n) && Holds(s.c, id0, n)
    ensures NoneJoins(s.c, DoBegin(s, r, p1, p2).c, n)
  {
    hide CacheInv, HoldsAlive, HeldParents, TryFirst, PathReady, QueueDisciplined, Taken, Holds, NoneJoins;
    SoundGrows(s.c, s.k, InFlight(s), r);
    NothingHeld(s, r);
    TryFirstLetsNoneJoin(s.c, s.k, InFlight(s) + {r}, r, p1, p2, id0, n);
  }

  /** A step that leaves locks and holds alone adds no holder. */
  lemma QuietLetsNoneJoin(c: Cache, c': Cache, n: Ino)
    requires Taken(c, n) && n in c'.lk && c'.lk[n] == c.lk[n] && c'.holds == c.holds && GrantsOf(c') == GrantsOf(c)
    ensures NoneJoins(c, c', n)
  {
    forall id | Holds(c', id, n)
      ensures Holds(c, id, n)
    {
      assert GrantsOf(c')[id] == Granted(c'.t, c'.holds[id]) && GrantsOf(c)[id] == Granted(c.t, c.holds[id]);
    }
  }

  lemma LockedStays(s: State, ev: Event, n: Ino)
    requires Inv(s) && Enabled(s, ev) && (ev.Create? || ev.Delete?) && n in s.c.lk && s.c.lk[n] != 0
    ensures var c' := Next(s, ev).c;
            n in c'.lk && c'.lk[n] == s.c.lk[n] && c'.holds == s.c.holds && GrantsOf(c') == GrantsOf(s.c)
  {
    hide HoldsAlive, HeldParents, QueueDisciplined, ActiveOk, DistinctReqs, DeleteNode, AddNode, GrantsOf;
    CreateOrDeleteSpares(s, ev);
    match ev
    case Create(m, dir, name) => AddNodeKeeps(s.c, m, dir, name);
    case Delete(m) => DeleteStepSteady(s, m);
  }

  lemma JobStepLocksNothing(s: State, ev: Event)
    requires Inv(s) && Enabled(s, ev) && (ev.Remove? || ev.HideName? || ev.Rename? || ev.Exchange?)
    ensures var c' := Next(s, ev).c;
            c'.lk == s.c.lk && c'.holds == s.c.holds && GrantsOf(c') == GrantsOf(s.c)
  {
    hide CacheInv, HoldsAlive, HeldParents, QueueDisciplined, ActiveOk, DistinctReqs, RemovedBy, HiddenBy, RenamedBy,
         ExchangedBy, GrantsOf, ChainsKept, Lookup;
    match ev
    case Remove(r) => RemoveStepKeeps(s, r);
    case HideName(r, which, newname) => HideStepKeeps(s, r, which, newname);
    case Rename(r) => RenameStepKeeps(s, r);
    case Exchange(r) => ExchangeStepKeeps(s, r);
  }

  /**
    Writers are not starved: while a request that holds a taken node goes on holding it, no step lets
    anybody else have the node, and it stays taken.
   */
  lemma StepLetsNoneJoin(s: State, ev: Event, id0: HoldId, n: Ino)
    requires Inv(s) && Enabled(s, ev) && Taken(s.c, n) && Holds(s.c, id0, n) && id0 in Next(s, ev).c.holds
    ensures NoneJoins(s.c, Next(s, ev).c, n)
  {
    hide Inv, Kernel, Holds, NoneJoins, DoBegin, DoFinish, CanBegin, CanFinish, GrantsOf, DeleteNode, AddNode,
         RemovedBy,
         HiddenBy, RenamedBy, ExchangedBy, Binds, CanDelete, CanForget, CanHide;
    match ev
    case Begin(r, p1, p2) => BeginLetsNoneJoin(s, r, p1, p2, id0, n);
    case Finish(r) => FinishLetsNoneJoin(s, r, id0, n);
    case _ =>
      if ev.Create? || ev.Delete? {
        LockedStays(s, ev, n);
      } else if ev.Remove? || ev.HideName? || ev.Rename? || ev.Exchange? {
        JobStepLocksNothing(s, ev);
      }
      QuietLetsNoneJoin(s.c, Next(s, ev).c, n);
  }

  /**
    Until the counter of a taken node has been zero, no step adds a reader: after each step the
    readers are some of those before it and the node is still taken, or all who held it have left.
   */
  lemma ReadersOnlyLeave(s: State, ev: Event, n: Ino)
    requires Inv(s) && Enabled(s, ev) && Taken(s.c, n)
    ensures var c' := Next(s, ev).c;
            || (Readers(GrantsOf(c'), n) <= Readers(GrantsOf(s.c), n) && Taken(c', n))
            || forall id | Holds(s.c, id, n) :: id !in c'.holds
  {
    hide Inv, Enabled, Next, Taken, Holds, ChainSet, PathsStable;
    var c' := Next(s, ev).c;
    if id0 :| Holds(s.c, id0, n) && id0 in c'.holds {
      StepLetsNoneJoin(s, ev, id0, n);
      JoinedIsTaken(s.c, c', n);
      StepKeeps(s, ev);
      forall id | id in Readers(GrantsOf(c'), n)
        ensures id in Readers(GrantsOf(s.c), n)
      {
        ReaderHolds(c', id, n);
        assert Holds(s.c, id, n);
        ReaderBefore(s.c, c', id, n);
      }
    }
  }

  lemma ReaderHolds(c: Cache, id: HoldId, n: Ino)
    requires id in Readers(GrantsOf(c), n)
    ensures Holds(c, id, n)
  {
  }

  lemma ReaderBefore(c: Cache, c': Cache, id: HoldId, n: Ino)
    requires PathsStable(c, c') && Holds(c, id, n) && id in Readers(GrantsOf(c'), n)
    ensures id in Readers(GrantsOf(c), n)
  {
    hide Top;
    assert id in c.holds && id in c'.holds;
    assert ClimbKept(c.t, c'.t, c.holds[id].leaf);
    assert GrantsOf(c)[id] == Granted(c.t, c.holds[id]) && GrantsOf(c')[id] == Granted(c'.t, c'.holds[id]);
  }

  /**
    From the moment a node is taken, a reader that stays keeps everybody else out until it leaves:
    there is no new holder, and each try through the node or at it is told to wait.
   */
  lemma {:induction false} RunLetsNoneJoin(run: seq<State>, evs: seq<Event>, i: nat, j: nat, id0: HoldId, n: Ino)
    requires IsRun(run, evs) && i <= j < |run| && Taken(run[i].c, n)
    requires forall m | i <= m <= j :: Holds(run[m].c, id0, n)
    ensures NoneJoins(run[i].c, run[j].c, n)
    ensures forall p: Path | n in ChainSet(run[j].c.t, p.dir) || Target(run[j].c, p) == Some(n) ::
              TryErr(run[j].c, p) == Again
    decreases j
  {
    hide Inv, Next, Enabled, Taken, TryErr, ChainSet, Target;
    if i == j {
      NoneJoinsRefl(run[i].c, n);
    } else {
      RunLetsNoneJoin(run, evs, i, j - 1, id0, n);
      RunKeepsInv(run, evs, j - 1);
      JoinedIsTaken(run[i].c, run[j - 1].c, n);
      HolderHoldsIt(run[j].c, id0, n);
      StepLetsNoneJoin(run[j - 1], evs[j - 1], id0, n);
      NoneJoinsTrans(run[i].c, run[j - 1].c, run[j].c, n);
    }
    JoinedIsTaken(run[i].c, run[j].c, n);
    forall p: Path | n in ChainSet(run[j].c.t, p.dir) || Target(run[j].c, p) == Some(n)
      ensures TryErr(run[j].c, p) == Again
    {
      TakenKeepsOut(run[j].c, n, p);
    }
  }

  lemma BeginMarks(s: State, r: ReqId, p1: Path, p2: Option<Path>, id0: HoldId, w: Ino)
    requires Inv(s) && Kernel(s) && CanBegin(s, r, p1, p2) && Wanted(s.c, p1, p2, w) && Holds(s.c, id0, w)
    ensures NoneJoins(s.c, DoBegin(s, r, p1, p2).c, w)
    ensures DoBegin(s, r, p1, p2).q == s.q + [Elem(r, p1, p2, false, Ok)]
  {
    hide CacheInv, HoldsAlive, HeldParents, TryFirst, PathReady, QueueDisciplined, Wanted, Holds, NoneJoins;
    SoundGrows(s.c, s.k, InFlight(s), r);
    NothingHeld(s, r);
    TryFirstMarks(s.c, s.k, InFlight(s) + {r}, r, p1, p2, id0, w);
  }

  /**
    A request that comes to write a node which another one holds has to wait; and until that one gives
    the node back, nobody gets it who did not have it when the writer came.
   */
  lemma RunWriterComesNext(run: seq<State>, evs: seq<Event>, i: nat, j: nat, id0: HoldId, w: Ino)
    requires IsRun(run, evs) && i < j < |run|
    requires evs[i].Begin? && Wanted(run[i].c, evs[i].p1, evs[i].p2, w)
    requires forall m | i <= m <= j :: Holds(run[m].c, id0, w)
    ensures NoneJoins(run[i].c, run[j].c, w)
    ensures run[i + 1].q == run[i].q + [Elem(evs[i].r, evs[i].p1, evs[i].p2, false, Ok)]
  {
    hide Inv, Kernel, DoBegin, CanBegin, Wanted, Taken, TryErr, ChainSet, Target, Holds, NoneJoins;
    RunKeepsInv(run, evs, i);
    BeginMarks(run[i], evs[i].r, evs[i].p1, evs[i].p2, id0, w);
    JoinedIsTaken(run[i].c, run[i + 1].c, w);
    RunLetsNoneJoin(run, evs, i + 1, j, id0, w);
    NoneJoinsTrans(run[i].c, run[i + 1].c, run[j].c, w);
  }

  /** And so it is for a writer in the queue: a pass marks what it waits to write, as long as others hold it. */
  lemma RunPassMarks(run: seq<State>, evs: seq<Event>, i: nat, j: nat, id0: HoldId, w: Ino)
    requires IsRun(run, evs) && i < |evs| && evs[i].Finish? && j < |run[i].q|
    requires WaitsToWrite(run[i].c, run[i].q[j], w) && id0.req != run[i].q[j].req
    requires Holds(run[i].c, id0, w) && id0 in run[i + 1].c.holds
    ensures j < |run[i + 1].q| && run[i + 1].q[j].Elem? && run[i + 1].q[j].req == run[i].q[j].req
    ensures run[i + 1].q[j].done || Taken(run[i + 1].c, w)
  {
    hide Inv, Kernel, DropBoth, WakeFrom, Holds, Taken, WaitsToWrite;
    RunKeepsInv(run, evs, i);
    FinishMarks(run[i], evs[i].r, j, id0, w);
  }

  lemma FinishMarks(s: State, r: ReqId, j: nat, id0: HoldId, w: Ino)
    requires Inv(s) && Kernel(s) && CanFinish(s, r) && j < |s.q|
    requires WaitsToWrite(s.c, s.q[j], w) && id0.req != s.q[j].req
    requires Holds(s.c, id0, w) && id0 in DoFinish(s, r).c.holds
    ensures var s' := DoFinish(s, r);
            && j < |s'.q| && s'.q[j].Elem? && s'.q[j].req == s.q[j].req
            && (s'.q[j].done || Taken(s'.c, w))
  {
    hide CacheInv, HoldsAlive, HeldParents, DropBoth, WakeFrom, QueueDisciplined, ActiveOk, DistinctReqs, HoldAlive,
         Taken, Holds, WaitsToWrite;
    var s1 := s.(c := DropBoth(s.c, r), active := s.active - {r});
    ReleaseKeeps(s, r);
    FinishedHoldsNothing(s, r, id0);
    forall m | 0 <= m < |s.q|
      ensures ElemReady(s1.c, s.k, s.q[m])
    {
      assert ElemReady(s.c, s.k, s.q[m]);
    }
    DropHoldsAcross(s.c, r, id0, w);
    WriterIsElem(s.c, s.q[j], w);
    assert s.q[j].req in QueueReqs(s.q);
    DropStillToWrite(s.c, s1.c, r, s.q[j], w);
    PassMarks(s1.c, s.k, InFlight(s1), s.q, 0, j, id0, w);
    WakeFromSound(s1.c, s.k, InFlight(s1), s.q, 0);
  }

  lemma DropHoldsAcross(c: Cache, r: ReqId, id0: HoldId, w: Ino)
    requires Holds(c, id0, w) && id0.req != r
    ensures Holds(DropBoth(c, r), id0, w)
  {
    DropKeepsHold(c, HoldId(r, First), id0);
    DropKeepsHold(Drop(c, HoldId(r, First)), HoldId(r, Second), id0);
  }

  lemma DropStillToWrite(c: Cache, c': Cache, r: ReqId, e: Elem, w: Ino)
    requires WaitsToWrite(c, e, w) && e.Elem? && e.req != r && OnlyHoldsOf(c, c', r)
    ensures WaitsToWrite(c', e, w)
  {
  }

  // ---------------------------------------------------------------- the order of the queue

  ghost predicate StandsAt(q: seq<Elem>, i: nat, r: ReqId) {
    i < |q| && q[i].Elem? && q[i].req == r
  }

  lemma OneStand(q: seq<Elem>, i: nat, j: nat, r: ReqId)
    requires DistinctReqs(q) && StandsAt(q, i, r) && StandsAt(q, j, r)
    ensures i == j
  {
  }

  /** Where a request stands in the queue after a step, if it is still there. */
  lemma StandsAfter(s: State, ev: Event, i: nat, r: ReqId) returns (i': nat)
    requires Inv(s) && Enabled(s, ev) && StandsAt(s.q, i, r)
    ensures ev == Leave(i) || StandsAt(Next(s, ev).q, i', r)
    ensures i' == if ev.Leave? && ev.i < i then i - 1 else i
  {
    hide Inv, Kernel, CanBegin, DoBegin, WakeFrom, DropBoth, CanDelete, CanForget, RemovedBy, HiddenBy, RenamedBy,
         ExchangedBy, DeleteNode, AddNode, Binds, CanHide;
    i' := if ev.Leave? && ev.i < i then i - 1 else i;
    if ev.Begin? {
      BeginAppends(s, ev.r, ev.p1, ev.p2);
    } else if ev.Finish? {
      FinishSameRequests(s, ev.r);
    }
  }

  lemma BeginAppends(s: State, r: ReqId, p1: Path, p2: Option<Path>)
    ensures var q' := DoBegin(s, r, p1, p2).q;
            q' == s.q || q' == s.q + [Elem(r, p1, p2, false, Ok)]
  {
    hide TryFirst;
  }

  lemma FinishSameRequests(s: State, r: ReqId)
    requires Inv(s) && Kernel(s) && CanFinish(s, r)
    ensures SameRequests(s.q, DoFinish(s, r).q)
  {
    hide CacheInv, HoldsAlive, HeldParents, DropBoth, WakeFrom, QueueDisciplined, ActiveOk, DistinctReqs, HoldAlive;
    var s1 := s.(c := DropBoth(s.c, r), active := s.active - {r});
    ReleaseKeeps(s, r);
    forall m | 0 <= m < |s.q|
      ensures ElemReady(s1.c, s.k, s.q[m])
    {
      assert ElemReady(s.c, s.k, s.q[m]);
    }
    WakeFromSound(s1.c, s.k, InFlight(s1), s.q, 0);
  }

  /** No step lets one waiting request overtake another: who comes before whom in the queue stays. */
  lemma {:induction false} RunKeepsTurn(run: seq<State>, evs: seq<Event>, a: nat, b: nat, i: nat, j: nat, i': nat,
      j': nat, r: ReqId, r': ReqId)
    requires IsRun(run, evs) && a <= b < |run| && i < j
    requires StandsAt(run[a].q, i, r) && StandsAt(run[a].q, j, r')
    requires StandsAt(run[b].q, i', r) && StandsAt(run[b].q, j', r')
    requires forall m | a <= m <= b :: Queued(run[m], r) && Queued(run[m], r')
    ensures i' < j'
    decreases b - a
  {
    hide Inv, Enabled, Next, StandsAt, Queued, DistinctReqs;
    RunKeepsInv(run, evs, a);
    QueueDistinct(run[a]);
    if a == b {
      OneStand(run[a].q, i, i', r);
      OneStand(run[a].q, j, j', r');
    } else {
      var i1 := StandsAfter(run[a], evs[a], i, r);
      var j1 := StandsAfter(run[a], evs[a], j, r');
      assert Queued(run[a + 1], r) && Queued(run[a + 1], r') && run[a + 1] == Next(run[a], evs[a]);
      StayedInQueue(run[a], evs[a], i, r);
      StayedInQueue(run[a], evs[a], j, r');
      RunKeepsTurn(run, evs, a + 1, b, i1, j1, i', j', r, r');
    }
  }

  ghost predicate Queued(s: State, r: ReqId) {
    r in QueueReqs(s.q)
  }

  lemma QueueDistinct(s: State)
    requires Inv(s)
    ensures DistinctReqs(s.q)
  {
  }

  /** Who is still in the queue has not left it. */
  lemma StayedInQueue(s: State, ev: Event, i: nat, r: ReqId)
    requires Inv(s) && Enabled(s, ev) && StandsAt(s.q, i, r) && Queued(Next(s, ev), r)
    ensures ev != Leave(i)
  {
    hide CacheInv, HoldsAlive, HeldParents, Kernel, QueueDisciplined, ActiveOk;
    if ev == Leave(i) {
      QueueReqsCut(s.q, i);
    }
  }
}
