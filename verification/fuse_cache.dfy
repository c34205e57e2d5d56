/**
  The code of the path locks: `struct fuse` as far as it is used by them, with the loops over the
  parent pointers that lock, unlock and name a path, and the pass over the lock queue.
  Every method is tied to the function that says what it does to the cache.
 */
module FuseCache {
  import opened Wrappers
  import opened Tree
  import opened LockCounts
  import opened PathLocks
  import opened LockQueue
  import opened PathBuffer

  /** The names of the nodes of c. */
  function NamesAlong(t: Links, c: seq<Ino>): (names: seq<string>)
    requires forall x | x in c :: x in t && t[x].Linked?
    ensures |names| == |c|
  {
    seq(|c|, i requires 0 <= i < |c| => t[c[i]].name)
  }

  lemma NamesAlongAppend(t: Links, c: seq<Ino>, n: Ino)
    requires forall x | x in c + [n] :: x in t && t[x].Linked?
    ensures NamesAlong(t, c + [n]) == NamesAlong(t, c) + [t[n].name]
  {
  }

  /** The components of a path from the last one up, first the extra name; "" stands for a NULL name. */
  function Components(name: string, names: seq<string>): seq<string> {
    (if name == "" then [] else [name]) + names
  }

  /** The names on the climb from a directory, the directory's own first. */
  ghost function NamesUp(t: Links, dir: Ino): seq<string>
    requires Acyclic(t) && dir in t
  {
    ChainSetInTree(t, dir);
    assert forall x | x in Chain(t, dir) :: x in ChainSet(t, dir);
    NamesAlong(t, Chain(t, dir))
  }

  /** The path text of a directory that climbs to the root, with an extra name. */
  ghost function PathText(t: Links, dir: Ino, name: string): string
    requires Acyclic(t) && dir in t
  {
    PathOf(Components(name, NamesUp(t, dir)))
  }

  /** The text of a path with a component falls into the names on the climb, from the root down. */
  lemma PathSplits(t: Links, dir: Ino, name: string)
    requires Acyclic(t) && dir in t && Components(name, NamesUp(t, dir)) != [] && '/' !in name
    requires forall i | 0 <= i < |NamesUp(t, dir)| :: '/' !in NamesUp(t, dir)[i]
    ensures Split(PathText(t, dir, name), "") == [""] + Reverse(Components(name, NamesUp(t, dir)))
  {
    hide Acyclic;
    SplitSlashed(Components(name, NamesUp(t, dir)));
  }

  /** One more name on the way up. */
  lemma OneUp(name: string, t: Links, c: seq<Ino>, n: Ino)
    requires forall x | x in c + [n] :: x in t && t[x].Linked?
    ensures Slashed(Components(name, NamesAlong(t, c + [n]))) ==
              "/" + t[n].name + Slashed(Components(name, NamesAlong(t, c)))
  {
    NamesAlongAppend(t, c, n);
    var some := Components(name, NamesAlong(t, c));
    SlashedLonger(some, t[n].name);
    assert Components(name, NamesAlong(t, c) + [t[n].name]) == some + [t[n].name];
  }

  /** What is written before the climb starts. */
  lemma FirstName(name: string, t: Links)
    ensures Components(name, NamesAlong(t, [])) == if name == "" then [] else [name]
    ensures Slashed(Components(name, NamesAlong(t, []))) == if name == "" then "" else "/" + name
  {
    if name != "" {
      SlashedLonger([], name);
      assert [] + [name] == [name];
      assert "/" + name + "" == "/" + name;
    }
  }

  /** The text when the climb from dir has passed i nodes. */
  ghost function TextUp(t: Links, dir: Ino, name: string, i: nat): string
    requires Acyclic(t) && dir in t && i <= |Chain(t, dir)|
  {
    Slashed(Components(name, NamesUp(t, dir)[..i]))
  }

  lemma TextStarts(t: Links, dir: Ino, name: string)
    requires Acyclic(t) && dir in t
    ensures TextUp(t, dir, name, 0) == if name == "" then "" else "/" + name + ""
    ensures TextUp(t, dir, name, |Chain(t, dir)|) == Slashed(Components(name, NamesUp(t, dir)))
    ensures |TextUp(t, dir, name, 0)| <= |Slashed(Components(name, NamesUp(t, dir)))|
  {
    hide Slashed;
    var names := NamesUp(t, dir);
    assert names[..|names|] == names && names[..0] == NamesAlong(t, []);
    FirstName(name, t);
    UpFits(name, names, 0);
  }

  lemma TextGrows(t: Links, dir: Ino, name: string, i: nat)
    requires Acyclic(t) && dir in t && i < |Chain(t, dir)|
    ensures var n := Chain(t, dir)[i];
            n in t && t[n].Linked? && TextUp(t, dir, name, i + 1) == "/" + t[n].name + TextUp(t, dir, name, i)
    ensures |TextUp(t, dir, name, i + 1)| <= |Slashed(Components(name, NamesUp(t, dir)))|
  {
    hide Slashed, Acyclic;
    ChainFacts(t, dir);
    var names, n := NamesUp(t, dir), Chain(t, dir)[i];
    var some := Components(name, names[..i]);
    assert names[i] == t[n].name;
    SlashedLonger(some, names[i]);
    assert Components(name, names[..i + 1]) == some + [names[i]];
    UpFits(name, names, i + 1);
  }

  lemma UpFits(name: string, names: seq<string>, i: nat)
    requires i <= |names|
    ensures |Slashed(Components(name, names[..i]))| <= |Slashed(Components(name, names))|
  {
    var all := Components(name, names);
    PrefixFits(all, |all| - |names| + i);
    assert all[..|all| - |names| + i] == Components(name, names[..i]);
  }

  lemma NoText(names: seq<string>)
    ensures PathOf(names) == if Slashed(names) == "" then "/" else Slashed(names)
  {
  }

  ghost function SetOf(c: seq<Ino>): set<Ino> {
    set x | x in c
  }

  lemma LowerNext(lk: Counters, c: seq<Ino>, i: nat, k: nat)
    requires i < k <= |c| && c[i] in lk && c[i] !in c[..i]
    ensures c[i] in SetOf(c[..k]) && c[i] !in SetOf(c[..i])
    ensures var lk' := Lower(lk, SetOf(c[..i]));
            && c[i] in lk' && lk'[c[i]] == lk[c[i]]
            && Lower(lk, SetOf(c[..i + 1])) == lk'[c[i] := Lowered(lk[c[i]])]
  {
    assert c[..i + 1] == c[..i] + [c[i]];
  }

  lemma NothingYet(lk: Counters, c: seq<Ino>)
    ensures SetOf(c[..0]) == {} && Lower(lk, {}) == lk && Raise(lk, {}) == lk
  {
  }

  lemma RaiseNext(lk: Counters, c: seq<Ino>, i: nat)
    requires i < |c| && c[i] in lk && c[i] !in c[..i]
    ensures c[i] in SetOf(c) && SetOf(c[..i + 1]) == SetOf(c[..i]) + {c[i]}
    ensures var lk' := Raise(lk, SetOf(c[..i]));
            && c[i] in lk' && lk'[c[i]] == lk[c[i]]
            && Raise(lk, SetOf(c[..i + 1])) == lk'[c[i] := lk[c[i]] + 1]
  {
    assert c[..i + 1] == c[..i] + [c[i]];
  }

  /** What was locked on the way to a node where the walk has to stop can be given back exactly. */
  lemma UndoRaise(lk0: Counters, w: Option<Ino>, rd: set<Ino>)
    requires w.Some? ==> w.value in lk0 && lk0[w.value] == WRITE
    requires forall n | n in rd :: n in lk0 && lk0[n] >= 0
    ensures var lk := Raise(lk0, rd);
            && lk.Keys == lk0.Keys
            && (w.Some? ==> w.value in lk && lk[w.value] == WRITE && w.value !in rd)
            && (forall n | n in rd :: n in lk && lk[n] != 0 && lk[n] != WAIT_OFFSET && lk[n] != WRITE)
            && Lower(SetLock(lk, w, 0), rd) == SetLock(lk0, w, 0)
  {
  }

  /** The walk along the parent pointers, as a loop sees it. */
  lemma ChainFacts(t: Links, n: Ino)
    requires Acyclic(t) && n in t
    ensures var c, top := Chain(t, n), Top(t, n);
            && (forall i | 0 <= i < |c| ::
                c[i] in t && c[i] != ROOT && t[c[i]].Linked? && c[i] !in c[..i] && c[i] != top)
            && (forall i, j | 0 <= i && j == i + 1 && j < |c| :: t[c[i]].dir == c[j])
            && (if c == [] then n == top else c[0] == n && t[c[|c| - 1]].dir == top)
            && top in t && (top != ROOT ==> t[top].Detached?)
            && ChainSet(t, n) == SetOf(c)
  {
    var c, top := Chain(t, n), Top(t, n);
    ClimbsInTree(t, n, c, top);
    ClimbEndsDistinct(t, n, c, top);
  }

  /**
    What `try_get_path` has done when it returns err: a write target that is locked has got INT_MIN
    added if it was read, and nothing else has changed; or the target is -1 and each node of the climb
    has one more reader; or nothing has changed at all.
   */
  ghost predicate LockedOrMarked(s: Cache, s': Cache, id: HoldId, p: Path, err: Err) {
    var w := if p.wr && (p.dir, p.name) in s.names then Some(s.names[(p.dir, p.name)]) else None;
    && s'.t == s.t && s'.names == s.names && s'.lk.Keys == s.lk.Keys
    && s'.holds == (if err == Ok then s.holds[id := Hold(p.dir, w)] else s.holds)
    && (w.Some? ==> w.value in s.lk)
    && (if w.Some? && s.lk[w.value] != 0 then
          && err == Again
          && s'.lk[w.value] == (if s.lk[w.value] > 0 then s.lk[w.value] - 0x8000_0000 else s.lk[w.value])
          && forall n | n in s.lk && n != w.value :: s'.lk[n] == s.lk[n]
        else if err != Ok then s'.lk == s.lk
        else
          && (w.Some? ==> s'.lk[w.value] == -1)
          && forall n | n in s.lk && w != Some(n) ::
               s'.lk[n] == s.lk[n] + if n in ChainSet(s.t, p.dir) then 1 else 0)
  }

  lemma TryIsThat(s: Cache, id: HoldId, p: Path)
    requires CacheInv(s) && p.dir in s.t && id !in s.holds
    ensures LockedOrMarked(s, Try(s, id, p), id, p, TryErr(s, p))
  {
    hide Acyclic, Accounted, HoldsRooted, ChainSet;
    TargetIsCached(s, p);
    if TryErr(s, p) == Ok {
      TryLocks(s, id, p);
    } else if Target(s, p).Some? && s.lk[Target(s, p).value] != 0 {
      BusyTargetIsMarked(s, id, p);
    }
  }

  lemma TargetIsCached(s: Cache, p: Path)
    requires CacheInv(s)
    ensures Target(s, p).Some? ==> Target(s, p).value in s.lk
  {
    hide Acyclic, Accounted, HoldsRooted;
  }

  class Fuse {
    var link: Links
    var names: Names
    var treelock: Counters
    var holds: map<HoldId, Hold>
    var lockq: seq<Elem>

    ghost function View(): Cache
      reads this
    {
      Cache(link, names, treelock, holds)
    }

    /**
      `unlock_path`: gives back the write target and the first k nodes of the chain of dir.  The
      preconditions on the counters are the function's own assertions.
     */
    method UnlockPath(dir: Ino, w: Option<Ino>, end: Ino, ghost k: nat)
      requires Acyclic(link) && dir in link && link.Keys == treelock.Keys
      requires k <= |Chain(link, dir)| && end == if k < |Chain(link, dir)| then Chain(link, dir)[k] else Top(link, dir)
      requires w.Some? ==> w.value in treelock && treelock[w.value] == WRITE && w.value !in SetOf(Chain(link, dir)[..k])
      requires forall n | n in SetOf(Chain(link, dir)[..k]) ::
                 n in treelock && treelock[n] != 0 && treelock[n] != WAIT_OFFSET && treelock[n] != WRITE
      modifies this`treelock
      ensures treelock == Lower(SetLock(old(treelock), w, 0), SetOf(Chain(link, dir)[..k]))
    {
      hide Acyclic, Chain, Top, Lower, SetOf, ChainSet;
      ghost var c, lk0 := Chain(link, dir), SetLock(treelock, w, 0);
      ChainFacts(link, dir);
      NothingYet(lk0, c);
      if w.Some? {
        treelock := treelock[w.value := 0];
      }
      var node := dir;
      ghost var i := 0;
      while node != end && node != ROOT
        invariant i <= k && node == if i < |c| then c[i] else Top(link, dir)
        invariant treelock == Lower(lk0, SetOf(c[..i]))
        decreases k - i
      {
        LowerNext(lk0, c, i, k);
        treelock := treelock[node := treelock[node] - 1];
        if treelock[node] == WAIT_OFFSET {
          treelock := treelock[node := 0];
        }
        node := link[node].dir;
        i := i + 1;
      }
    }

    /**
      The walk of `try_get_path` with `need_lock` set: locks the whole chain and extends the text,
      or undoes everything, the write lock on w included.
     */
    method LockChain(dir: Ino, w: Option<Ino>, name: string, tail: string) returns (err: Err, path: string)
      requires Acyclic(link) && dir in link && link.Keys == treelock.Keys
      requires w.Some? ==> w.value in treelock && treelock[w.value] == WRITE
      requires tail == Slashed(Components(name, NamesAlong(link, [])))
      modifies this`treelock
      ensures err == if Blocked(old(treelock), ChainSet(link, dir)) then Again
              else if Top(link, dir) != ROOT then NoEnt else Ok
      ensures treelock == if err == Ok then Raise(old(treelock), ChainSet(link, dir)) else SetLock(old(treelock), w, 0)
      ensures err == Ok ==> path == Slashed(Components(name, NamesUp(link, dir)))
    {
      hide Acyclic, Chain, Top, ChainSet, Raise, SetOf, Slashed, Components, NamesAlong;
      ghost var c, top, lk0 := Chain(link, dir), Top(link, dir), treelock;
      ChainFacts(link, dir);
      NothingYet(lk0, c);
      path := tail;
      assert c[..0] == [];
      var node := dir;
      ghost var i := 0;
      while node != ROOT
        invariant i <= |c| && node == if i < |c| then c[i] else top
        invariant treelock == Raise(lk0, SetOf(c[..i]))
        invariant forall n | n in SetOf(c[..i]) :: n in lk0 && lk0[n] >= 0
        invariant path == Slashed(Components(name, NamesAlong(link, c[..i])))
        decreases |c| - i
      {
        if i < |c| {
          RaiseNext(lk0, c, i);
        } else {
          assert c[..i] == c;
        }
        if link[node].Detached? || treelock[node] < 0 {
          err := if link[node].Detached? then NoEnt else Again;
          UndoRaise(lk0, w, SetOf(c[..i]));
          UnlockPath(dir, w, node, i);
          return;
        }
        assert c[..i + 1] == c[..i] + [c[i]];
        OneUp(name, link, c[..i], c[i]);
        path := "/" + link[node].name + path;
        treelock := treelock[node := treelock[node] + 1];
        node := link[node].dir;
        i := i + 1;
      }
      assert c[..i] == c;
      err := Ok;
    }

    /**
      `try_get_path` with `need_lock` set: locks the path on behalf of id and returns its text, or
      fails and leaves nothing behind but the waiting mark on a target that readers hold.
     */
    method TryGetPath(id: HoldId, p: Path) returns (err: Err, path: string, wnode: Option<Ino>)
      requires CacheInv(View()) && p.dir in link && id !in holds
      modifies this`treelock, this`holds
      ensures View() == Try(old(View()), id, p) && err == TryErr(old(View()), p)
      ensures LockedOrMarked(old(View()), View(), id, p, err)
      ensures err == Ok ==> path == PathText(link, p.dir, p.name) && wnode == Target(old(View()), p)
    {
      hide LockedOrMarked, Acyclic, Accounted, HoldsRooted, ChainSet;
      ghost var s := View();
      TryIsThat(s, id, p);
      FirstName(p.name, link);
      path, wnode := if p.name == "" then "" else "/" + p.name, None;
      if p.wr && (p.dir, p.name) in names {
        var w := names[(p.dir, p.name)];
        if treelock[w] != 0 {
          if treelock[w] > 0 {
            treelock := treelock[w := treelock[w] + WAIT_OFFSET];
          }
          return Again, path, None;
        }
        wnode := Some(w);
        treelock := treelock[w := WRITE];
      }
      err, path := LockChain(p.dir, wnode, p.name, path);
      assert wnode.Some? ==> SetLock(SetLock(s.lk, wnode, WRITE), wnode, 0) == s.lk;
      if err == Ok {
        NoText(Components(p.name, NamesUp(link, p.dir)));
        if path == "" {
          path := "/";
        }
        holds := holds[id := Hold(p.dir, wnode)];
      }
    }

    /**
      `try_get_path` without `need_lock`, as `hide_node` calls it: the walk fills the buffer that
      `add_name` replaces by bigger ones.  The text must fit 32 bits.
     */
    method PathName(dir: Ino, name: string) returns (err: Err, path: string)
      requires Acyclic(link) && dir in link
      requires |Slashed(Components(name, NamesUp(link, dir)))| + 1 < TWO_TO_32
      ensures err == if Top(link, dir) != ROOT then NoEnt else Ok
      ensures err == Ok ==> path == PathText(link, dir, name)
    {
      hide Acyclic, Chain, Top, ChainSet, SetOf, Slashed, Components, NamesUp, TextUp, PathBuf.Text;
      ghost var c, top := Chain(link, dir), Top(link, dir);
      ChainFacts(link, dir);
      TextStarts(link, dir, name);
      var b := new PathBuf();
      if name != "" {
        b.AddName(name);
      }
      var node := dir;
      ghost var i := 0;
      while node != ROOT
        invariant i <= |c| && node == if i < |c| then c[i] else top
        invariant fresh(b) && fresh(b.buf) && b.Valid() && b.Text() == TextUp(link, dir, name, i)
        decreases |c| - i
      {
        if link[node].Detached? {
          return NoEnt, "";
        }
        TextGrows(link, dir, name, i);
        b.AddName(link[node].name);
        node := link[node].dir;
        i := i + 1;
      }
      NoText(Components(name, NamesUp(link, dir)));
      err := Ok;
      path := b.Finish();
    }

    /** `unlock_path` on a whole path that id has locked, if it has. */
    method Release(id: HoldId)
      requires CacheInv(View())
      modifies this`treelock, this`holds
      ensures View() == Drop(old(View()), id)
    {
      if id in holds {
        var h := holds[id];
        ghost var c := Chain(link, h.leaf);
        UnlockIsSafe(View(), id);
        assert HoldRooted(link, h);
        ChainFacts(link, h.leaf);
        assert c[..|c|] == c;
        UnlockPath(h.leaf, h.w, ROOT, |c|);
        holds := holds - {id};
      }
    }

    /** `queue_element_unlock` */
    method QueueElementUnlock(r: ReqId)
      requires CacheInv(View())
      modifies this`treelock, this`holds
      ensures View() == DropBoth(old(View()), r)
    {
      DropKeepsInv(View(), HoldId(r, First));
      Release(HoldId(r, First));
      Release(HoldId(r, Second));
    }

    /** One of the two tries of a wakeup; a path that is locked already is left alone. */
    method TryUnlessLocked(id: HoldId, p: Path, ghost k: Refs, ghost reqs: set<ReqId>) returns (err: Err)
      requires Sound(View(), k, reqs) && id.req in reqs && PathReady(View(), k, id.req, p)
      modifies this`treelock, this`holds
      ensures View() == TryIf(old(View()), id, p) && err == ErrIf(old(View()), id, p)
      ensures Sound(View(), k, reqs) && OnlyHoldsOf(old(View()), View(), id.req)
    {
      hide CacheInv, HoldsAlive, Try, TryErr;
      TryIfSound(View(), k, reqs, id, p);
      err := Ok;
      if id !in holds {
        var path, wnode;
        err, path, wnode := TryGetPath(id, p);
      }
    }

    /** `queue_element_wakeup` for the element at position i; a waiting forget is only signalled. */
    method QueueElementWakeup(i: nat, ghost k: Refs, ghost reqs: set<ReqId>)
      requires i < |lockq| && Sound(View(), k, reqs) && ElemReady(View(), k, lockq[i])
      requires lockq[i].Elem? ==> lockq[i].req in reqs
      modifies this`treelock, this`holds, this`lockq
      ensures var (c', e') := Wake(old(View()), old(lockq)[i], i == 0);
              View() == c' && lockq == old(lockq)[i := e']
    {
      hide CacheInv, HoldsAlive, TryIf, ErrIf, DropBoth;
      var e := lockq[i];
      assert lockq[i := e] == lockq;
      if e.Waiter? {
        return;
      }
      var first := HoldId(e.req, First);
      var second := HoldId(e.req, Second);
      var err := TryUnlessLocked(first, e.p1, k, reqs);
      if err != NoEnt && e.p2.Some? {
        err := TryUnlessLocked(second, e.p2.value, k, reqs);
      }
      if err == NoEnt {
        QueueElementUnlock(e.req);
        lockq := lockq[i := e.(done := true, err := NoEnt)];
      } else if first in holds && (e.p2.None? || second in holds) {
        lockq := lockq[i := e.(done := true, err := Ok)];
      } else if i != 0 {
        QueueElementUnlock(e.req);
      }
    }

    /** `wake_up_queued` */
    method WakeUpQueued(ghost k: Refs, ghost reqs: set<ReqId>)
      requires Sound(View(), k, reqs) && QueueReqs(lockq) <= reqs
      requires DistinctReqs(lockq) && QueueDisciplined(View(), lockq) && QueueReady(View(), k, lockq)
               && HeldParents(View())
      modifies this`treelock, this`holds, this`lockq
      ensures (View(), lockq) == WakeFrom(old(View()), old(lockq), 0)
    {
      hide CacheInv, HoldsAlive, HeldParents, Wake, Disciplined, ElemReady;
      var i := 0;
      while i < |lockq|
        invariant i <= |lockq| && Sound(View(), k, reqs) && QueueReqs(lockq) <= reqs
        invariant DistinctReqs(lockq) && QueueDisciplined(View(), lockq) && QueueReady(View(), k, lockq)
        invariant HeldParents(View())
        invariant WakeFrom(old(View()), old(lockq), 0) == WakeFrom(View(), lockq, i)
        decreases |lockq| - i
      {
        ghost var c, q := View(), lockq;
        assert lockq[i].Elem? ==> lockq[i].req in QueueReqs(lockq);
        WakeAtSound(c, k, reqs, q, i);
        QueueElementWakeup(i, k, reqs);
        assert WakeFrom(c, q, i) == WakeFrom(View(), lockq, i + 1);
        i := i + 1;
      }
    }

    /**
      `get_path_common` and `get_path2` up to the point where the request waits: it has its paths,
      has failed, or stands at the end of the queue.
     */
    method GetPaths(r: ReqId, p1: Path, p2: Option<Path>, ghost k: Refs, ghost reqs: set<ReqId>)
      returns (err: Err, path1: string, path2: string)
      requires Sound(View(), k, reqs) && r in reqs && HasNone(View(), r)
      requires PathReady(View(), k, r, p1) && (p2.Some? ==> PathReady(View(), k, r, p2.value))
      modifies this`treelock, this`holds, this`lockq
      ensures (View(), err) == TryFirst(old(View()), r, p1, p2)
      ensures lockq == if err == Again then old(lockq) + [Elem(r, p1, p2, false, Ok)] else old(lockq)
      ensures err == Ok ==> path1 == PathText(link, p1.dir, p1.name)
      ensures err == Ok && p2.Some? ==> path2 == PathText(link, p2.value.dir, p2.value.name)
    {
      hide CacheInv, HoldsAlive, Try, TryErr, PathText, Drop;
      var wnode1, wnode2;
      path2 := "";
      TryIfSound(View(), k, reqs, HoldId(r, First), p1);
      err, path1, wnode1 := TryGetPath(HoldId(r, First), p1);
      if err == Ok && p2.Some? {
        TryIfSound(View(), k, reqs, HoldId(r, Second), p2.value);
        err, path2, wnode2 := TryGetPath(HoldId(r, Second), p2.value);
        if err != Ok {
          Release(HoldId(r, First));
        }
      }
      if err == Again {
        lockq := lockq + [Elem(r, p1, p2, false, Ok)];
      }
    }

    /** `free_path` and `free_path2`: unlock, then wake the queue. */
    method FreePath(r: ReqId, ghost k: Refs, ghost reqs: set<ReqId>)
      requires Sound(View(), k, reqs) && QueueReqs(lockq) <= reqs && r !in QueueReqs(lockq)
      requires DistinctReqs(lockq) && QueueDisciplined(View(), lockq) && QueueReady(View(), k, lockq)
               && HeldParents(View())
      modifies this`treelock, this`holds, this`lockq
      ensures (View(), lockq) == WakeFrom(DropBoth(old(View()), r), old(lockq), 0)
    {
      hide CacheInv, HoldsAlive, HeldParents, Wake, DropBoth;
      ghost var c := View();
      DropBothSound(c, k, reqs, r);
      DropBothParents(c, r);
      QueueElementUnlock(r);
      forall i | 0 <= i < |lockq|
        ensures Disciplined(View(), lockq[i], i == 0) && ElemReady(View(), k, lockq[i])
      {
        assert Disciplined(c, lockq[i], i == 0) && ElemReady(c, k, lockq[i]);
        assert lockq[i].Elem? ==> lockq[i].req in QueueReqs(lockq);
      }
      WakeUpQueued(k, reqs);
    }

    /** `unhash_name` */
    method UnhashName(n: Ino)
      requires n in link
      modifies this`link, this`names
      ensures View() == Unhash(old(View()), n)
    {
      if link[n].Linked? {
        names := names - {(link[n].dir, link[n].name)};
        link := link[n := Detached];
      }
    }

    /** `hash_name`, when the name can be copied */
    method HashName(n: Ino, dir: Ino, name: string)
      modifies this`link, this`names
      ensures View() == Hash(old(View()), n, dir, name)
    {
      link := link[n := Linked(dir, name)];
      names := names[(dir, name) := n];
    }

    /** `remove_node` */
    method RemoveTheNode(dir: Ino, name: string)
      requires NamesAgree(link, names)
      modifies this`link, this`names
      ensures View() == RemoveNode(old(View()), dir, name) && (dir, name) !in names
    {
      if (dir, name) in names {
        UnhashName(names[(dir, name)]);
      }
    }

    /** `rename_node`; returns false for -EBUSY */
    method RenameTheNode(olddir: Ino, oldname: string, newdir: Ino, newname: string, hiding: bool) returns (ok: bool)
      requires NamesAgree(link, names)
      modifies this`link, this`names
      ensures View() == RenameNode(old(View()), olddir, oldname, newdir, newname, hiding)
      ensures ok <==> !((olddir, oldname) in old(names) && (newdir, newname) in old(names) && hiding)
      ensures !ok || (olddir, oldname) !in old(names) ==> View() == old(View())
      ensures ok && (olddir, oldname) in old(names) ==>
                && (newdir, newname) in names && names[(newdir, newname)] == old(names)[(olddir, oldname)]
                && ((olddir, oldname) != (newdir, newname) ==> (olddir, oldname) !in names)
    {
      ok := true;
      var bound := (newdir, newname) in names;
      if (olddir, oldname) !in names {
        return;
      }
      var node := names[(olddir, oldname)];
      if bound {
        if hiding {
          return false;
        }
        UnhashName(names[(newdir, newname)]);
      }
      UnhashName(node);
      HashName(node, newdir, newname);
    }

    /** `exchange_node` */
    method ExchangeTheNodes(olddir: Ino, oldname: string, newdir: Ino, newname: string)
      requires NamesAgree(link, names)
      modifies this`link, this`names
      ensures View() == ExchangeNode(old(View()), olddir, oldname, newdir, newname)
      ensures (olddir, oldname) != (newdir, newname) ==>
                && Lookup(View(), newdir, newname) == Lookup(old(View()), olddir, oldname)
                && Lookup(View(), olddir, oldname) == Lookup(old(View()), newdir, newname)
    {
      var oldnode := if (olddir, oldname) in names then Some(names[(olddir, oldname)]) else None;
      var newnode := if (newdir, newname) in names then Some(names[(newdir, newname)]) else None;
      if oldnode.Some? {
        UnhashName(oldnode.value);
      }
      if newnode.Some? {
        UnhashName(newnode.value);
      }
      if oldnode.Some? {
        HashName(oldnode.value, newdir, newname);
      }
      if newnode.Some? {
        HashName(newnode.value, olddir, oldname);
      }
    }
  }
}
