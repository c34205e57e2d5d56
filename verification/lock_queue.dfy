/**
  The queue of requests that wait for a path, and the pass over it that every unlock makes.
 */
module LockQueue {
  import opened Wrappers
  import opened Lists
  import opened Tree
  import opened LockCounts
  import opened PathLocks

  /**
    `struct lock_queue_element`: a request waiting for one or two paths, or a forget that waits for
    one node to be unlocked (`path1` is NULL).  `first_locked` and `second_locked` are the presence
    of the request's two hold ids in the cache's table of holds.
   */
  datatype Elem =
    | Elem(req: ReqId, p1: Path, p2: Option<Path>, done: bool, err: Err)
    | Waiter(node: Ino)

  /**
    What keeps nodes alive from outside: lookup counts, the extra reference of a "." lookup, and for a
    ".." lookup the node it names, whose parent it is about.
   */
  datatype Refs = Refs(nlookup: map<Ino, nat>, dots: map<ReqId, Ino>, named: map<ReqId, Ino>)

  // ---------------------------------------------------------------- who holds what

  ghost predicate HasAll(c: Cache, r: ReqId, p2: Option<Path>) {
    HoldId(r, First) in c.holds && (p2.Some? ==> HoldId(r, Second) in c.holds)
  }

  ghost predicate HasNone(c: Cache, r: ReqId) {
    HoldId(r, First) !in c.holds && HoldId(r, Second) !in c.holds
  }

  ghost predicate HoldOf(c: Cache, id: HoldId, p: Path) {
    id in c.holds ==> c.holds[id].leaf == p.dir && (c.holds[id].w.Some? ==> p.wr)
  }

  /** The request's holds are holds of its own paths. */
  ghost predicate Matches(c: Cache, r: ReqId, p1: Path, p2: Option<Path>) {
    && HoldOf(c, HoldId(r, First), p1)
    && (if p2.Some? then HoldOf(c, HoldId(r, Second), p2.value) else HoldId(r, Second) !in c.holds)
  }

  /** The climb from the directory does not reach the root. */
  ghost predicate Unrooted(t: Links, dir: Ino) {
    dir in t ==> Top(t, dir) != ROOT
  }

  ghost predicate ElemUnrooted(t: Links, p1: Path, p2: Option<Path>) {
    Unrooted(t, p1.dir) || (p2.Some? && Unrooted(t, p2.value.dir))
  }

  /**
    The queue discipline: a finished request holds all its paths or, if it failed, none, and then
    one of its paths still does not reach the root; an unfinished one holds nothing, except that the
    head of the queue may hold one of two.
   */
  ghost predicate Disciplined(c: Cache, e: Elem, first: bool) {
    e.Elem? ==>
      && Matches(c, e.req, e.p1, e.p2)
      && if e.done then
           if e.err == Ok then HasAll(c, e.req, e.p2)
              else e.err == NoEnt && HasNone(c, e.req) && ElemUnrooted(c.t, e.p1, e.p2)
         else if first then !HasAll(c, e.req, e.p2) else HasNone(c, e.req)
  }

  /** The kernel has a reference to the node. */
  ghost predicate Known(k: Refs, n: Ino) {
    n == ROOT || (n in k.nlookup && k.nlookup[n] > 0)
  }

  /** The node is the parent of the one that the ".." lookup r names. */
  ghost predicate ParentOfNamed(t: Links, k: Refs, r: ReqId, n: Ino) {
    && r in k.named && k.named[r] in t && k.named[r] in k.nlookup && k.nlookup[k.named[r]] > 0
    && t[k.named[r]].Linked? && t[k.named[r]].dir == n
  }

  ghost predicate Alive(t: Links, k: Refs, r: ReqId, n: Ino) {
    Known(k, n) || (r in k.dots && k.dots[r] == n) || ParentOfNamed(t, k, r, n)
  }

  ghost predicate HoldAlive(t: Links, k: Refs, r: ReqId, h: Hold) {
    Alive(t, k, r, h.leaf) && (h.w.Some? ==> h.w.value in k.nlookup && k.nlookup[h.w.value] > 0)
  }

  ghost predicate HoldsAlive(c: Cache, k: Refs) {
    forall id {:trigger HoldAlive(c.t, k, id.req, c.holds[id])} | id in c.holds ::
      HoldAlive(c.t, k, id.req, c.holds[id])
  }

  /** A directory in which a request changes names is one that the kernel names. */
  ghost predicate WritesKnown(k: Refs, p: Path) {
    p.wr ==> Known(k, p.dir)
  }

  /**
    What the kernel guarantees about a path it sends: the write target is referenced, and so is the
    directory, or for a ".." lookup the node whose parent it is.
   */
  ghost predicate PathReady(c: Cache, k: Refs, r: ReqId, p: Path) {
    p.dir in c.t && HoldAlive(c.t, k, r, Hold(p.dir, Target(c, p))) && WritesKnown(k, p)
  }

  ghost predicate ElemReady(c: Cache, k: Refs, e: Elem) {
    e.Elem? ==> PathReady(c, k, e.req, e.p1) && (e.p2.Some? ==> PathReady(c, k, e.req, e.p2.value))
  }

  ghost predicate HoldsOfReqs(c: Cache, reqs: set<ReqId>) {
    forall id | id in c.holds :: id.req in reqs
  }

  /** All that a pass over the queue relies on and keeps. */
  ghost predicate Sound(c: Cache, k: Refs, reqs: set<ReqId>) {
    CacheInv(c) && HoldsAlive(c, k) && HoldsOfReqs(c, reqs) && 2 * |reqs| + 1 < INT_MAX
  }

  lemma HoldsCounted(ids: set<HoldId>, reqs: set<ReqId>)
    requires forall id | id in ids :: id.req in reqs
    ensures |ids| <= 2 * |reqs|
  {
    if reqs == {} {
      assert ids == {};
    } else {
      var r :| r in reqs;
      var own := {HoldId(r, First), HoldId(r, Second)};
      forall id | id in ids - own
        ensures id.req in reqs - {r}
      {
        assert id.which == First || id.which == Second;
      }
      HoldsCounted(ids - own, reqs - {r});
      assert |ids| <= |ids - own| + |own| by {
        SubsetSize(ids, (ids - own) + own);
      }
      assert |own| == 2;
    }
  }

  // ---------------------------------------------------------------- queue_element_wakeup

  ghost function TryIf(c: Cache, id: HoldId, p: Path): Cache {
    if id in c.holds then c else Try(c, id, p)
  }

  ghost function ErrIf(c: Cache, id: HoldId, p: Path): Err {
    if id in c.holds then Ok else TryErr(c, p)
  }

  /** `queue_element_unlock` */
  ghost function DropBoth(c: Cache, r: ReqId): Cache {
    Drop(Drop(c, HoldId(r, First)), HoldId(r, Second))
  }

  ghost function TrySecond(c: Cache, r: ReqId, p2: Option<Path>): Cache {
    if p2.Some? then TryIf(c, HoldId(r, Second), p2.value) else c
  }

  ghost function SecondErr(c: Cache, r: ReqId, p2: Option<Path>): Err {
    if p2.Some? then ErrIf(c, HoldId(r, Second), p2.value) else Ok
  }

  /** Both tries of a wakeup, the second one only if the first did not fail for good. */
  ghost function Tried(c: Cache, r: ReqId, p1: Path, p2: Option<Path>): (Cache, Err) {
    var c1 := TryIf(c, HoldId(r, First), p1);
    if ErrIf(c, HoldId(r, First), p1) == NoEnt then (c1, NoEnt)
    else
      var c2 := TrySecond(c1, r, p2);
      (c2, if SecondErr(c1, r, p2) == NoEnt then NoEnt else if HasAll(c2, r, p2) then Ok else Again)
  }

  /** `queue_element_wakeup` */
  ghost function Wake(c: Cache, e: Elem, first: bool): (Cache, Elem) {
    if e.Waiter? then (c, e)
    else
      var (c', err) := Tried(c, e.req, e.p1, e.p2);
      if err == Ok then (c', e.(done := true, err := Ok))
      else if err == NoEnt then (DropBoth(c', e.req), e.(done := true, err := NoEnt))
      else if first then (c', e)
      else (DropBoth(c', e.req), e)
  }

  /** `wake_up_queued`, from position i on. */
  ghost function WakeFrom(c: Cache, q: seq<Elem>, i: nat): (r: (Cache, seq<Elem>))
    requires i <= |q|
    ensures |r.1| == |q|
    decreases |q| - i
  {
    if i == |q| then (c, q)
    else
      var (c1, e1) := Wake(c, q[i], i == 0);
      WakeFrom(c1, q[i := e1], i + 1)
  }

  /** `try_get_path2`, or `try_get_path` when there is one path only. */
  ghost function TryFirst(c: Cache, r: ReqId, p1: Path, p2: Option<Path>): (Cache, Err) {
    var c1 := Try(c, HoldId(r, First), p1);
    if TryErr(c, p1) != Ok || p2.None? then (c1, TryErr(c, p1))
    else
      var c2 := Try(c1, HoldId(r, Second), p2.value);
      if TryErr(c1, p2.value) == Ok then (c2, Ok) else (Drop(c2, HoldId(r, First)), TryErr(c1, p2.value))
  }

  // ---------------------------------------------------------------- what a pass keeps

  /** Nothing but the counters and r's own holds changes. */
  ghost predicate OnlyHoldsOf(c: Cache, c': Cache, r: ReqId) {
    && c'.t == c.t && c'.names == c.names
    && (forall id: HoldId | id.req != r :: id in c'.holds <==> id in c.holds)
    && (forall id: HoldId | id.req != r && id in c.holds :: c'.holds[id] == c.holds[id])
  }

  ghost predicate OwnKept(c: Cache, c': Cache, r: ReqId) {
    forall id: HoldId | id.req == r && id in c.holds :: id in c'.holds && c'.holds[id] == c.holds[id]
  }

  lemma TryIfSound(c: Cache, k: Refs, reqs: set<ReqId>, id: HoldId, p: Path)
    requires Sound(c, k, reqs) && id.req in reqs && PathReady(c, k, id.req, p)
    ensures var c' := TryIf(c, id, p);
            && Sound(c', k, reqs) && OnlyHoldsOf(c, c', id.req) && OwnKept(c, c', id.req)
            && (id in c'.holds <==> ErrIf(c, id, p) == Ok)
            && (forall id' | id' in c'.holds && id' != id :: id' in c.holds)
            && (HoldOf(c, id, p) ==> HoldOf(c', id, p))
  {
    if id !in c.holds {
      HoldsCounted(c.holds.Keys, reqs);
      assert |c.holds.Keys| == |c.holds|;
      TryKeepsInv(c, id, p);
      var c' := Try(c, id, p);
      forall id' | id' in c'.holds
        ensures HoldAlive(c'.t, k, id'.req, c'.holds[id'])
      {
        assert id' != id ==> HoldAlive(c.t, k, id'.req, c.holds[id']);
      }
    }
  }

  lemma DropSound(c: Cache, k: Refs, reqs: set<ReqId>, id: HoldId)
    requires Sound(c, k, reqs)
    ensures var c' := Drop(c, id);
            && Sound(c', k, reqs) && OnlyHoldsOf(c, c', id.req) && id !in c'.holds
            && forall id' | id' in c'.holds :: id' in c.holds
  {
    DropKeepsInv(c, id);
    var c' := Drop(c, id);
    forall id' | id' in c'.holds
      ensures HoldAlive(c'.t, k, id'.req, c'.holds[id'])
    {
      assert HoldAlive(c.t, k, id'.req, c.holds[id']);
    }
  }

  lemma DropBothSound(c: Cache, k: Refs, reqs: set<ReqId>, r: ReqId)
    requires Sound(c, k, reqs)
    ensures var c' := DropBoth(c, r);
            Sound(c', k, reqs) && OnlyHoldsOf(c, c', r) && HasNone(c', r)
  {
    DropSound(c, k, reqs, HoldId(r, First));
    DropSound(Drop(c, HoldId(r, First)), k, reqs, HoldId(r, Second));
  }

  // ---------------------------------------------------------------- what failed once fails again

  ghost predicate HoldsLeaf(c: Cache, r: ReqId, dir: Ino) {
    || (HoldId(r, First) in c.holds && c.holds[HoldId(r, First)].leaf == dir)
    || (HoldId(r, Second) in c.holds && c.holds[HoldId(r, Second)].leaf == dir)
  }

  ghost predicate HeldParent(c: Cache, r: ReqId, w: Option<Ino>) {
    w.Some? && w.value in c.t && c.t[w.value].Linked? ==> HoldsLeaf(c, r, c.t[w.value].dir)
  }

  /** The parent of a write-locked node that has one is a directory its request has locked. */
  ghost predicate HeldParents(c: Cache) {
    forall id {:trigger HeldParent(c, id.req, c.holds[id].w)} | id in c.holds :: HeldParent(c, id.req, c.holds[id].w)
  }

  lemma LockedIsRooted(c: Cache, n: Ino)
    requires CacheInv(c) && HeldParents(c) && n in c.t && n != ROOT && c.t[n].Linked? && c.lk[n] != 0
    ensures Top(c.t, n) == ROOT
  {
    var g := GrantsOf(c);
    CounterMeaning(c.lk, g, n);
    if Readers(g, n) != {} {
      var id :| id in Readers(g, n);
      var leaf := c.holds[id].leaf;
      assert HoldRooted(c.t, c.holds[id]) && n in ChainSet(c.t, leaf);
      var i :| 0 <= i < |Chain(c.t, leaf)| && Chain(c.t, leaf)[i] == n;
      assert Grounded(c.t, leaf);
      ChainSuffix(c.t, leaf, i);
    } else {
      var id :| id in Writers(g, n);
      assert c.holds[id].w == Some(n) && HeldParent(c, id.req, c.holds[id].w);
      var first, second := HoldId(id.req, First), HoldId(id.req, Second);
      var id' := if first in c.holds && c.holds[first].leaf == c.t[n].dir then first else second;
      assert HoldRooted(c.t, c.holds[id']);
      TopOfChild(c.t, n);
    }
  }

  /** Below a node that lost its name no counter is set, so `try_get_path` fails for good. */
  lemma UnrootedFails(c: Cache, p: Path)
    requires CacheInv(c) && HeldParents(c) && p.dir in c.t && Top(c.t, p.dir) != ROOT
    ensures TryErr(c, p) == NoEnt
  {
    var w, chain := Target(c, p), ChainSet(c.t, p.dir);
    ChainSetInTree(c.t, p.dir);
    if w.Some? {
      assert c.t[w.value] == Linked(p.dir, p.name);
      TopOfChild(c.t, w.value);
      if c.lk[w.value] != 0 {
        LockedIsRooted(c, w.value);
      }
    }
    forall n | n in chain
      ensures n in SetLock(c.lk, w, WRITE) && SetLock(c.lk, w, WRITE)[n] >= 0
    {
      UnlockedBelow(c, p.dir, n);
      if w.Some? {
        NotAbove(c.t, w.value, n);
      }
    }
  }

  lemma UnlockedBelow(c: Cache, dir: Ino, n: Ino)
    requires CacheInv(c) && HeldParents(c) && dir in c.t && Top(c.t, dir) != ROOT && n in ChainSet(c.t, dir)
    ensures n in c.lk && c.lk[n] == 0
  {
    ChainSetInTree(c.t, dir);
    var i :| 0 <= i < |Chain(c.t, dir)| && Chain(c.t, dir)[i] == n;
    assert Grounded(c.t, dir);
    ChainSuffix(c.t, dir, i);
    if c.lk[n] != 0 {
      LockedIsRooted(c, n);
    }
  }

  /** A node is not among the ancestors of its parent. */
  lemma NotAbove(t: Links, n: Ino, m: Ino)
    requires Acyclic(t) && n in t && n != ROOT && t[n].Linked? && m in ChainSet(t, t[n].dir)
    ensures m != n
  {
    TopOfChild(t, n);
    ClimbEndsDistinct(t, n, Chain(t, n), Top(t, n));
    var i :| 0 <= i < |Chain(t, t[n].dir)| && Chain(t, t[n].dir)[i] == m;
    assert Chain(t, n)[i + 1] == m && Chain(t, n)[0] == n;
  }

  lemma TryIfParents(c: Cache, id: HoldId, p: Path)
    requires CacheInv(c) && HeldParents(c)
    ensures HeldParents(TryIf(c, id, p)) && TryIf(c, id, p).t == c.t
  {
    var c' := TryIf(c, id, p);
    forall id' | id' in c'.holds
      ensures HeldParent(c', id'.req, c'.holds[id'].w)
    {
      assert id' in c.holds ==> HeldParent(c, id'.req, c.holds[id'].w);
      assert id.which == First || id.which == Second;
    }
  }

  lemma DropBothParents(c: Cache, r: ReqId)
    requires HeldParents(c)
    ensures HeldParents(DropBoth(c, r)) && DropBoth(c, r).t == c.t
  {
    var c' := DropBoth(c, r);
    forall id | id in c'.holds
      ensures HeldParent(c', id.req, c'.holds[id].w)
    {
      assert HeldParent(c, id.req, c.holds[id].w);
      assert id.which == First || id.which == Second;
    }
  }

  // ---------------------------------------------------------------- one wakeup

  /** `try_get_path` fails for good exactly when the directory does not reach the root. */
  lemma TryMeaning(c: Cache, k: Refs, r: ReqId, p: Path)
    requires CacheInv(c) && HeldParents(c) && PathReady(c, k, r, p)
    ensures TryErr(c, p) == NoEnt <==> Unrooted(c.t, p.dir)
  {
    if Top(c.t, p.dir) != ROOT {
      UnrootedFails(c, p);
    }
  }

  lemma TriedSound(c: Cache, k: Refs, reqs: set<ReqId>, r: ReqId, p1: Path, p2: Option<Path>)
    requires Sound(c, k, reqs) && r in reqs && PathReady(c, k, r, p1) && (p2.Some? ==> PathReady(c, k, r, p2.value))
    requires Matches(c, r, p1, p2)
    requires HeldParents(c)
    ensures var (c', err) := Tried(c, r, p1, p2);
            && Sound(c', k, reqs) && OnlyHoldsOf(c, c', r) && Matches(c', r, p1, p2) && HeldParents(c')
            && (err == Ok ==> HasAll(c', r, p2)) && (err == Again ==> !HasAll(c', r, p2))
            && (HasAll(c, r, p2) ==> err == Ok)
            && (err == NoEnt ==> ElemUnrooted(c.t, p1, p2))
            && (HasNone(c, r) && ElemUnrooted(c.t, p1, p2) ==> err == NoEnt)
  {
    hide CacheInv, HoldsAlive, HeldParents, Try, TryErr, Unrooted;
    var c1 := TryIf(c, HoldId(r, First), p1);
    TryIfSound(c, k, reqs, HoldId(r, First), p1);
    TryIfParents(c, HoldId(r, First), p1);
    TryMeaning(c, k, r, p1);
    if p2.Some? {
      TryIfSound(c1, k, reqs, HoldId(r, Second), p2.value);
      TryIfParents(c1, HoldId(r, Second), p2.value);
      TryMeaning(c1, k, r, p2.value);
    }
  }

  lemma WakeSound(c: Cache, k: Refs, reqs: set<ReqId>, e: Elem, first: bool)
    requires Sound(c, k, reqs) && ElemReady(c, k, e) && Disciplined(c, e, first)
    requires e.Elem? && e.req in reqs && HeldParents(c)
    ensures var (c', e') := Wake(c, e, first);
            && Sound(c', k, reqs) && HeldParents(c') && OnlyHoldsOf(c, c', e.req) && Disciplined(c', e', first)
            && e' == e.(done := e'.done, err := e'.err)
  {
    hide CacheInv, HoldsAlive, Tried, DropBoth;
    TriedSound(c, k, reqs, e.req, e.p1, e.p2);
    DropBothSound(Tried(c, e.req, e.p1, e.p2).0, k, reqs, e.req);
    DropBothParents(Tried(c, e.req, e.p1, e.p2).0, e.req);
  }

  lemma DropFirstParents(c: Cache, r: ReqId)
    requires HeldParents(c)
    ensures HoldId(r, Second) !in c.holds ==> HeldParents(Drop(c, HoldId(r, First)))
  {
    var c' := Drop(c, HoldId(r, First));
    if HoldId(r, Second) !in c.holds {
      forall id | id in c'.holds
        ensures HeldParent(c', id.req, c'.holds[id].w)
      {
        assert HeldParent(c, id.req, c.holds[id].w);
        assert id.which == First || id.which == Second;
      }
    }
  }

  lemma TryFirstSound(c: Cache, k: Refs, reqs: set<ReqId>, r: ReqId, p1: Path, p2: Option<Path>)
    requires Sound(c, k, reqs) && HeldParents(c) && r in reqs && HasNone(c, r)
    requires PathReady(c, k, r, p1) && (p2.Some? ==> PathReady(c, k, r, p2.value))
    ensures var (c', err) := TryFirst(c, r, p1, p2);
            && Sound(c', k, reqs) && HeldParents(c') && OnlyHoldsOf(c, c', r) && Matches(c', r, p1, p2)
            && if err == Ok then HasAll(c', r, p2) else HasNone(c', r)
  {
    hide CacheInv, HoldsAlive, HeldParents, Try, TryErr, Drop;
    var c1 := Try(c, HoldId(r, First), p1);
    TryIfSound(c, k, reqs, HoldId(r, First), p1);
    TryIfParents(c, HoldId(r, First), p1);
    if p2.Some? {
      var c2 := Try(c1, HoldId(r, Second), p2.value);
      TryIfSound(c1, k, reqs, HoldId(r, Second), p2.value);
      TryIfParents(c1, HoldId(r, Second), p2.value);
      DropSound(c2, k, reqs, HoldId(r, First));
      DropFirstParents(c2, r);
    }
  }

  ghost predicate DistinctReqs(q: seq<Elem>) {
    forall i, j | 0 <= i < j < |q| && q[i].Elem? && q[j].Elem? :: q[i].req != q[j].req
  }

  ghost predicate QueueDisciplined(c: Cache, q: seq<Elem>) {
    forall i | 0 <= i < |q| :: Disciplined(c, q[i], i == 0)
  }

  ghost predicate QueueReady(c: Cache, k: Refs, q: seq<Elem>) {
    forall i | 0 <= i < |q| :: ElemReady(c, k, q[i])
  }

  ghost function QueueReqs(q: seq<Elem>): set<ReqId> {
    set i | 0 <= i < |q| && q[i].Elem? :: q[i].req
  }

  ghost predicate SameRequests(q: seq<Elem>, q': seq<Elem>) {
    |q'| == |q| && forall i | 0 <= i < |q| ::
      if q[i].Waiter? then q'[i] == q[i] else q'[i].Elem? && q'[i] == q[i].(done := q'[i].done, err := q'[i].err)
  }

  /**
    A pass over the queue keeps the counters accounted for and leaves every request in the queue
    disciplined; requests outside the queue keep what they hold.
   */
  lemma {:induction false} WakeFromSound(c: Cache, k: Refs, reqs: set<ReqId>, q: seq<Elem>, i: nat)
    requires Sound(c, k, reqs) && i <= |q| && QueueReqs(q) <= reqs
    requires DistinctReqs(q) && QueueDisciplined(c, q) && QueueReady(c, k, q)
    requires HeldParents(c)
    ensures var (c', q') := WakeFrom(c, q, i);
            && Sound(c', k, reqs) && HeldParents(c') && SameRequests(q, q') && QueueDisciplined(c', q')
            && c'.t == c.t && c'.names == c.names
            && (forall id: HoldId | id.req !in QueueReqs(q) :: (id in c'.holds <==> id in c.holds))
            && (forall id: HoldId | id.req !in QueueReqs(q) && id in c.holds :: c'.holds[id] == c.holds[id])
    decreases |q| - i
  {
    hide CacheInv, HoldsAlive, HeldParents, Disciplined, ElemReady, Wake;
    if i < |q| {
      var (c1, e1) := Wake(c, q[i], i == 0);
      var q1 := q[i := e1];
      WakeAtSound(c, k, reqs, q, i);
      WakeFromSound(c1, k, reqs, q1, i + 1);
    }
  }

  /** One element of the pass. */
  lemma WakeAtSound(c: Cache, k: Refs, reqs: set<ReqId>, q: seq<Elem>, i: nat)
    requires Sound(c, k, reqs) && i < |q| && QueueReqs(q) <= reqs
    requires DistinctReqs(q) && QueueDisciplined(c, q) && QueueReady(c, k, q) && HeldParents(c)
    ensures var (c1, e1) := Wake(c, q[i], i == 0);
            var q1 := q[i := e1];
            && Sound(c1, k, reqs) && HeldParents(c1) && SameRequests(q, q1) && QueueReqs(q1) == QueueReqs(q)
            && DistinctReqs(q1) && QueueDisciplined(c1, q1) && QueueReady(c1, k, q1)
            && c1.t == c.t && c1.names == c.names
            && (forall id: HoldId | id.req !in QueueReqs(q) :: (id in c1.holds <==> id in c.holds))
            && (forall id: HoldId | id.req !in QueueReqs(q) && id in c.holds :: c1.holds[id] == c.holds[id])
  {
    if q[i].Elem? {
      assert q[i].req in QueueReqs(q);
      WakeSound(c, k, reqs, q[i], i == 0);
      var (c1, e1) := Wake(c, q[i], i == 0);
      OthersUntouched(c, c1, k, q, i, e1);
    } else {
      assert q[i := q[i]] == q;
    }
  }

  /** What one element's wakeup does is invisible to the others. */
  lemma OthersUntouched(c: Cache, c': Cache, k: Refs, q: seq<Elem>, i: nat, e': Elem)
    requires i < |q| && q[i].Elem? && e'.Elem? && e' == q[i].(done := e'.done, err := e'.err)
    requires DistinctReqs(q) && QueueDisciplined(c, q) && QueueReady(c, k, q)
    requires OnlyHoldsOf(c, c', q[i].req) && Disciplined(c', e', i == 0)
    ensures var q' := q[i := e'];
            && SameRequests(q, q') && QueueReqs(q') == QueueReqs(q)
            && DistinctReqs(q') && QueueDisciplined(c', q') && QueueReady(c', k, q')
  {
    var q' := q[i := e'];
    forall j | 0 <= j < |q'|
      ensures Disciplined(c', q'[j], j == 0) && ElemReady(c', k, q'[j])
    {
      assert ElemReady(c, k, q[j]) && Disciplined(c, q[j], j == 0);
      assert j != i && q[j].Elem? ==> q[j].req != q[i].req;
    }
    SameQueueReqs(q, q');
  }

  lemma SameQueueReqs(q: seq<Elem>, q': seq<Elem>)
    requires SameRequests(q, q')
    ensures QueueReqs(q') == QueueReqs(q)
  {
    forall i | 0 <= i < |q|
      ensures q[i].Elem? <==> q'[i].Elem?
      ensures q[i].Elem? ==> q'[i].req == q[i].req && q[i].req in QueueReqs(q') && q'[i].req in QueueReqs(q)
    {
    }
  }

  // ---------------------------------------------------------------- no wakeup is lost

  ghost predicate HoldsNode(c: Cache, id: HoldId, n: Ino)
    requires id in c.holds
  {
    n in ChainSet(c.t, c.holds[id].leaf) || c.holds[id].w == Some(n)
  }

  /** What id holds keeps the path from being locked: its write target, or a node of its chain that is taken. */
  ghost predicate InTheWay(c: Cache, id: HoldId, p: Path) {
    && id in c.holds
    && ((Target(c, p).Some? && HoldsNode(c, id, Target(c, p).value))
        || exists n :: n in ChainSet(c.t, p.dir) && Taken(c, n) && HoldsNode(c, id, n))
  }

  lemma LockedByHolder(c: Cache, n: Ino)
    requires CacheInv(c) && n in c.lk && c.lk[n] != 0
    ensures exists id :: id in c.holds && HoldsNode(c, id, n)
  {
    var g := GrantsOf(c);
    CounterMeaning(c.lk, g, n);
    assert Readers(g, n) + Writers(g, n) != {};
    var id :| id in Readers(g, n) + Writers(g, n);
    assert g[id] == Granted(c.t, c.holds[id]);
    assert HoldsNode(c, id, n);
  }

  /** Who is told to wait waits for somebody who is in the way. */
  lemma WaitsForHolder(c: Cache, p: Path)
    requires CacheInv(c) && p.dir in c.t && TryErr(c, p) == Again
    ensures exists id :: InTheWay(c, id, p)
  {
    var w := Target(c, p);
    ChainSetInTree(c.t, p.dir);
    if Busy(c, w) {
      LockedByHolder(c, w.value);
      var id :| id in c.holds && HoldsNode(c, id, w.value);
      assert InTheWay(c, id, p);
    } else {
      var n :| n in ChainSet(c.t, p.dir) && n in SetLock(c.lk, w, WRITE) && SetLock(c.lk, w, WRITE)[n] < 0;
      if w.Some? {
        assert c.t[w.value] == Linked(p.dir, p.name);
        NotAbove(c.t, w.value, n);
      }
      LockedByHolder(c, n);
      var id :| id in c.holds && HoldsNode(c, id, n);
      assert Taken(c, n) && InTheWay(c, id, p);
    }
  }

  lemma HeldNodeIsLocked(c: Cache, id: HoldId, n: Ino)
    requires CacheInv(c) && id in c.holds && HoldsNode(c, id, n)
    ensures n in c.lk && c.lk[n] != 0
  {
    UnlockIsSafe(c, id);
  }

  /** `try_get_path` tells to wait exactly when somebody is in the way. */
  lemma TryAgainIff(c: Cache, p: Path)
    requires CacheInv(c) && p.dir in c.t
    ensures TryErr(c, p) == Again <==> exists id :: InTheWay(c, id, p)
  {
    if TryErr(c, p) == Again {
      WaitsForHolder(c, p);
    } else if id :| InTheWay(c, id, p) {
      if n :| n in ChainSet(c.t, p.dir) && Taken(c, n) && HoldsNode(c, id, n) {
        TakenKeepsOut(c, n, p);
      } else {
        HeldNodeIsLocked(c, id, Target(c, p).value);
      }
    }
  }

  /** Nothing is given back, and what is taken stays taken. */
  ghost predicate HoldsGrow(c: Cache, c': Cache) {
    && c'.t == c.t && c'.names == c.names
    && (forall id | id in c.holds :: id in c'.holds && c'.holds[id] == c.holds[id])
    && (forall n | Taken(c, n) :: Taken(c', n))
  }

  lemma HoldsGrowTrans(c: Cache, c': Cache, c'': Cache)
    requires HoldsGrow(c, c') && HoldsGrow(c', c'')
    ensures HoldsGrow(c, c'')
  {
    hide Taken;
  }

  lemma StillInTheWay(c: Cache, c': Cache, id: HoldId, p: Path)
    requires HoldsGrow(c, c') && InTheWay(c, id, p)
    ensures InTheWay(c', id, p)
  {
    if n :| n in ChainSet(c.t, p.dir) && Taken(c, n) && HoldsNode(c, id, n) {
      assert Taken(c', n) && HoldsNode(c', id, n);
    }
  }

  /** A try takes nothing from anybody, and locks no node that was taken. */
  lemma TryGrows(c: Cache, id: HoldId, p: Path)
    requires CacheInv(c) && p.dir in c.t
    ensures var c' := TryIf(c, id, p);
            && HoldsGrow(c, c')
            && (id !in c.holds && id in c'.holds ==>
                && c'.holds[id] == Hold(p.dir, Target(c, p))
                && (forall n | n in ChainSet(c.t, p.dir) :: n in c'.lk && c'.lk[n] > 0)
                && (forall n | Taken(c, n) :: !HoldsNode(c', id, n) && n in c'.lk && c'.lk[n] == c.lk[n]))
  {
    hide CacheInv, Acyclic;
    if id !in c.holds && TryErr(c, p) == Ok {
      TargetFree(c, p);
    }
  }

  /** Dropping a hold leaves the nodes it does not hold as they are. */
  lemma DropSpares(c: Cache, id: HoldId, n: Ino)
    requires n in c.lk && (id in c.holds ==> !HoldsNode(c, id, n))
    ensures n in Drop(c, id).lk && Drop(c, id).lk[n] == c.lk[n]
  {
  }

  /** Waking an element behind the head takes nothing from anybody. */
  lemma WakeGrows(c: Cache, k: Refs, reqs: set<ReqId>, e: Elem)
    requires Sound(c, k, reqs) && ElemReady(c, k, e) && Disciplined(c, e, false)
    requires e.Elem? && e.req in reqs && HeldParents(c)
    ensures HoldsGrow(c, Wake(c, e, false).0)
  {
    hide CacheInv, HoldsAlive, HeldParents, Tried, DropBoth, Unrooted, Taken;
    TriedSound(c, k, reqs, e.req, e.p1, e.p2);
    if HasAll(c, e.req, e.p2) {
      TriedHolding(c, e.req, e.p1, e.p2);
    } else {
      TriedGrows(c, k, reqs, e.req, e.p1, e.p2);
      DroppedGrows(c, k, reqs, e.req, e.p1, e.p2);
    }
  }

  /** A request that holds all its paths locks nothing more. */
  lemma TriedHolding(c: Cache, r: ReqId, p1: Path, p2: Option<Path>)
    requires HasAll(c, r, p2)
    ensures Tried(c, r, p1, p2) == (c, Ok)
  {
  }

  lemma TriedGrows(c: Cache, k: Refs, reqs: set<ReqId>, r: ReqId, p1: Path, p2: Option<Path>)
    requires Sound(c, k, reqs) && r in reqs && PathReady(c, k, r, p1) && (p2.Some? ==> PathReady(c, k, r, p2.value))
    ensures HoldsGrow(c, Tried(c, r, p1, p2).0)
  {
    hide CacheInv, HoldsAlive, TryIf, HoldsGrow;
    var c1 := TryIf(c, HoldId(r, First), p1);
    TryIfSound(c, k, reqs, HoldId(r, First), p1);
    TryGrows(c, HoldId(r, First), p1);
    if p2.Some? {
      TryGrows(c1, HoldId(r, Second), p2.value);
      HoldsGrowTrans(c, c1, TryIf(c1, HoldId(r, Second), p2.value));
    }
  }

  /** Giving both paths back after a try leaves what was taken before the try as it was. */
  lemma DroppedGrows(c: Cache, k: Refs, reqs: set<ReqId>, r: ReqId, p1: Path, p2: Option<Path>)
    requires Sound(c, k, reqs) && r in reqs && PathReady(c, k, r, p1) && (p2.Some? ==> PathReady(c, k, r, p2.value))
    requires HasNone(c, r)
    ensures HoldsGrow(c, DropBoth(Tried(c, r, p1, p2).0, r))
  {
    hide CacheInv, HoldsAlive, TryIf, ChainSet, Drop;
    var first, second := HoldId(r, First), HoldId(r, Second);
    var c1, c2 := TryIf(c, first, p1), Tried(c, r, p1, p2).0;
    TryIfSound(c, k, reqs, first, p1);
    TryGrows(c, first, p1);
    if p2.Some? {
      TryIfSound(c1, k, reqs, second, p2.value);
      TryGrows(c1, second, p2.value);
    }
    DropBothSound(c2, k, reqs, r);
    forall n | Taken(c, n)
      ensures Taken(DropBoth(c2, r), n)
    {
      assert Taken(c1, n) && Taken(c2, n);
      DropSpares(c2, first, n);
      DropKeepsHold(c2, first, second);
      DropSpares(Drop(c2, first), second, n);
    }
    forall id | id in c.holds
      ensures id in DropBoth(c2, r).holds && DropBoth(c2, r).holds[id] == c.holds[id]
    {
      assert id.which == First || id.which == Second;
    }
  }

  lemma DropKeepsHold(c: Cache, id: HoldId, id': HoldId)
    requires id != id'
    ensures id' in Drop(c, id).holds <==> id' in c.holds
    ensures id' in c.holds ==> Drop(c, id).holds[id'] == c.holds[id']
    ensures Drop(c, id).t == c.t && Drop(c, id).names == c.names
  {
  }

  lemma {:induction false} WakeFromGrows(c: Cache, k: Refs, reqs: set<ReqId>, q: seq<Elem>, i: nat)
    requires Sound(c, k, reqs) && HeldParents(c) && 0 < i <= |q| && QueueReqs(q) <= reqs
    requires DistinctReqs(q) && QueueDisciplined(c, q) && QueueReady(c, k, q)
    ensures HoldsGrow(c, WakeFrom(c, q, i).0) && WakeFrom(c, q, i).1[..i] == q[..i]
    decreases |q| - i
  {
    hide CacheInv, HoldsAlive, HeldParents, Disciplined, ElemReady, Wake, HoldsGrow;
    if i < |q| {
      var (c1, e1) := Wake(c, q[i], false);
      var q1 := q[i := e1];
      WakeAtSound(c, k, reqs, q, i);
      WakeFromGrows(c1, k, reqs, q1, i + 1);
      WakeStepGrows(c, k, reqs, q, i);
      var (c', q') := WakeFrom(c1, q1, i + 1);
      HoldsGrowTrans(c, c1, c');
      assert q'[..i] == q'[..i + 1][..i] == q1[..i] == q[..i];
    } else {
      HoldsGrowRefl(c);
    }
  }

  lemma HoldsGrowRefl(c: Cache)
    ensures HoldsGrow(c, c)
  {
  }

  lemma WakeStepGrows(c: Cache, k: Refs, reqs: set<ReqId>, q: seq<Elem>, i: nat)
    requires Sound(c, k, reqs) && HeldParents(c) && 0 < i < |q| && QueueReqs(q) <= reqs
    requires QueueDisciplined(c, q) && QueueReady(c, k, q)
    ensures HoldsGrow(c, Wake(c, q[i], false).0)
  {
    hide CacheInv, HoldsAlive, HeldParents, HoldsGrow;
    if q[i].Elem? {
      assert q[i].req in QueueReqs(q);
      WakeGrows(c, k, reqs, q[i]);
    } else {
      HoldsGrowRefl(c);
    }
  }

  // ---------------------------------------------------------------- who waits for whom

  /** Another request is in the way of one of e's paths. */
  ghost predicate OtherInTheWay(c: Cache, e: Elem)
    requires e.Elem?
  {
    exists id: HoldId :: id.req != e.req && (InTheWay(c, id, e.p1) || (e.p2.Some? && InTheWay(c, id, e.p2.value)))
  }

  /** One of e's two paths is locked, and in the way of the other. */
  ghost predicate SelfInTheWay(c: Cache, e: Elem)
    requires e.Elem?
  {
    e.p2.Some? && (InTheWay(c, HoldId(e.req, First), e.p2.value) || InTheWay(c, HoldId(e.req, Second), e.p1))
  }

  /** Two paths that one request cannot lock together: one writes what the other reads or writes. */
  ghost predicate Clash(c: Cache, p1: Path, p2: Path) {
    var w1, w2 := Target(c, p1), Target(c, p2);
    || (w2.Some? && (w2.value in ChainSet(c.t, p1.dir) || w1 == w2))
    || (w1.Some? && w1.value in ChainSet(c.t, p2.dir))
  }

  /**
    An unfinished request waits for another one, or its own two paths do not go together; only the
    head of the queue may hold one of them meanwhile.
   */
  ghost predicate Waits(c: Cache, e: Elem, first: bool) {
    e.Elem? && !e.done ==>
      || OtherInTheWay(c, e)
      || (if first then SelfInTheWay(c, e) else e.p2.Some? && Clash(c, e.p1, e.p2.value))
  }

  lemma StillWaits(c: Cache, c': Cache, e: Elem, first: bool)
    requires HoldsGrow(c, c') && Waits(c, e, first)
    ensures Waits(c', e, first)
  {
    hide InTheWay, ChainSet;
    if e.Elem? && !e.done {
      if OtherInTheWay(c, e) {
        var id: HoldId :| id.req != e.req && (InTheWay(c, id, e.p1) || (e.p2.Some? && InTheWay(c, id, e.p2.value)));
        StillBoth(c, c', e, id);
      } else if first {
        StillBoth(c, c', e, HoldId(e.req, First));
        StillBoth(c, c', e, HoldId(e.req, Second));
      } else {
        SameClash(c, c', e.p1, e.p2.value);
      }
    }
  }

  lemma StillBoth(c: Cache, c': Cache, e: Elem, id: HoldId)
    requires HoldsGrow(c, c') && e.Elem?
    ensures InTheWay(c, id, e.p1) ==> InTheWay(c', id, e.p1)
    ensures e.p2.Some? && InTheWay(c, id, e.p2.value) ==> InTheWay(c', id, e.p2.value)
  {
    hide InTheWay, HoldsGrow;
    if InTheWay(c, id, e.p1) {
      StillInTheWay(c, c', id, e.p1);
    }
    if e.p2.Some? && InTheWay(c, id, e.p2.value) {
      StillInTheWay(c, c', id, e.p2.value);
    }
  }

  lemma HolderHolds(c: Cache, id: HoldId, p: Path)
    requires InTheWay(c, id, p)
    ensures id in c.holds
  {
  }

  /** The tries of a wakeup that fail for now find somebody in the way, after both of them. */
  lemma TriedAgain(c: Cache, k: Refs, reqs: set<ReqId>, e: Elem)
    requires Sound(c, k, reqs) && ElemReady(c, k, e) && e.Elem? && e.req in reqs
    requires Matches(c, e.req, e.p1, e.p2) && Tried(c, e.req, e.p1, e.p2).1 == Again
    ensures var c' := Tried(c, e.req, e.p1, e.p2).0; OtherInTheWay(c', e) || SelfInTheWay(c', e)
  {
    hide CacheInv, HoldsAlive, Try, TryErr, InTheWay, HoldsGrow;
    var r, p1 := e.req, e.p1;
    var c1, c' := TryIf(c, HoldId(r, First), p1), Tried(c, r, p1, e.p2).0;
    TryIfSound(c, k, reqs, HoldId(r, First), p1);
    TryGrows(c, HoldId(r, First), p1);
    HoldsGrowRefl(c1);
    if e.p2.Some? {
      TryIfSound(c1, k, reqs, HoldId(r, Second), e.p2.value);
      TryGrows(c1, HoldId(r, Second), e.p2.value);
    }
    if ErrIf(c, HoldId(r, First), p1) == Again {
      WaitsForHolder(c, p1);
      var id :| InTheWay(c, id, p1);
      HolderHolds(c, id, p1);
      StillInTheWay(c, c1, id, p1);
      StillInTheWay(c1, c', id, p1);
      assert id.which == First || id.which == Second;
    } else {
      WaitsForHolder(c1, e.p2.value);
      var id :| InTheWay(c1, id, e.p2.value);
      HolderHolds(c1, id, e.p2.value);
      StillInTheWay(c1, c', id, e.p2.value);
      assert id.which == First || id.which == Second;
    }
  }

  /** The first path does not stand in the way of the second one but by a clash of the two. */
  lemma OwnFirstClashes(c: Cache, r: ReqId, p1: Path, p2: Path)
    requires CacheInv(c) && p1.dir in c.t && HoldId(r, First) !in c.holds
    requires InTheWay(TryIf(c, HoldId(r, First), p1), HoldId(r, First), p2)
    ensures Clash(c, p1, p2)
  {
    hide CacheInv, ChainSet, TryIf;
    TryGrows(c, HoldId(r, First), p1);
  }

  /** Who is in the way of a path besides the holder of its first path stays there when that is given back. */
  lemma StaysInTheWay(c: Cache, r: ReqId, id: HoldId, p: Path)
    requires CacheInv(c) && InTheWay(c, id, p) && id != HoldId(r, First)
    requires HoldId(r, First) in c.holds ==>
               forall n | n in ChainSet(c.t, c.holds[HoldId(r, First)].leaf) :: n in c.lk && c.lk[n] > 0
    ensures InTheWay(Drop(c, HoldId(r, First)), id, p)
  {
    hide CacheInv, ChainSet, Drop;
    var first := HoldId(r, First);
    var c' := Drop(c, first);
    DropKeepsHold(c, first, id);
    if n :| n in ChainSet(c.t, p.dir) && Taken(c, n) && HoldsNode(c, id, n) {
      if first in c.holds && c.holds[first].w == Some(n) {
        WrittenIsOnNoChain(c, first, id);
      }
      DropSpares(c, first, n);
      assert Taken(c', n) && HoldsNode(c', id, n);
    }
  }

  /** Behind the head: whose tries fail for now holds nothing, and somebody else is in the way or the paths clash. */
  lemma TriedAgainBehind(c: Cache, k: Refs, reqs: set<ReqId>, e: Elem)
    requires Sound(c, k, reqs) && ElemReady(c, k, e) && e.Elem? && e.req in reqs && HeldParents(c)
    requires Matches(c, e.req, e.p1, e.p2) && HasNone(c, e.req) && Tried(c, e.req, e.p1, e.p2).1 == Again
    ensures var c' := DropBoth(Tried(c, e.req, e.p1, e.p2).0, e.req);
            OtherInTheWay(c', e) || (e.p2.Some? && Clash(c, e.p1, e.p2.value))
  {
    hide CacheInv, HoldsAlive, HeldParents, Try, TryErr, InTheWay, HoldsGrow, Clash, Drop, Unrooted;
    var r, p1, first := e.req, e.p1, HoldId(e.req, First);
    var c1, c2 := TryIf(c, first, p1), Tried(c, r, p1, e.p2).0;
    TryIfSound(c, k, reqs, first, p1);
    if TryErr(c, p1) == Again {
      WaitsForHolder(c, p1);
      var id :| InTheWay(c, id, p1);
      HolderHolds(c, id, p1);
      assert id.which == First || id.which == Second;
      DroppedGrows(c, k, reqs, r, p1, e.p2);
      StillInTheWay(c, DropBoth(c2, r), id, p1);
    } else {
      SecondFails(c, k, reqs, e);
    }
  }

  lemma SecondFails(c: Cache, k: Refs, reqs: set<ReqId>, e: Elem)
    requires Sound(c, k, reqs) && ElemReady(c, k, e) && e.Elem? && e.req in reqs
    requires HasNone(c, e.req) && Tried(c, e.req, e.p1, e.p2).1 == Again && TryErr(c, e.p1) == Ok
    ensures var c' := DropBoth(Tried(c, e.req, e.p1, e.p2).0, e.req);
            OtherInTheWay(c', e) || (e.p2.Some? && Clash(c, e.p1, e.p2.value))
  {
    hide CacheInv, HoldsAlive, Try, TryErr, InTheWay, HoldsGrow, Clash, Drop, ChainSet;
    var r, p1, first, second := e.req, e.p1, HoldId(e.req, First), HoldId(e.req, Second);
    var c1, c2 := TryIf(c, first, p1), Tried(c, r, p1, e.p2).0;
    TryIfSound(c, k, reqs, first, p1);
    TryGrows(c, first, p1);
    var p2 := e.p2.value;
    TryIfSound(c1, k, reqs, second, p2);
    TryGrows(c1, second, p2);
    WaitsForHolder(c1, p2);
    var id :| InTheWay(c1, id, p2);
    HolderHolds(c1, id, p2);
    assert id.which == First || id.which == Second;
    if id == first {
      OwnFirstClashes(c, r, p1, p2);
    } else if Target(c, p2).Some? && Target(c, p2).value in ChainSet(c.t, p1.dir) {
      TargetClashes(c, p1, p2);
    } else {
      StillInTheWay(c1, c2, id, p2);
      FailedTryMarks(c1, second, p2);
      StaysInTheWay(c2, r, id, p2);
      DropKeepsHold(c2, first, second);
      DropOfNothing(Drop(c2, first), second);
    }
  }

  lemma TargetClashes(c: Cache, p1: Path, p2: Path)
    requires Target(c, p2).Some? && Target(c, p2).value in ChainSet(c.t, p1.dir)
    ensures Clash(c, p1, p2)
  {
  }

  /** A try that fails for now changes nothing but the counter of its write target. */
  lemma FailedTryMarks(c: Cache, id: HoldId, p: Path)
    requires id !in c.holds && TryErr(c, p) == Again
    ensures var c' := TryIf(c, id, p);
            c'.holds == c.holds && forall n | n in c.lk && Target(c, p) != Some(n) :: n in c'.lk && c'.lk[n] == c.lk[n]
  {
  }

  lemma DropOfNothing(c: Cache, id: HoldId)
    requires id !in c.holds
    ensures Drop(c, id) == c
  {
  }

  lemma WokenWaits(c: Cache, k: Refs, reqs: set<ReqId>, e: Elem, first: bool)
    requires Sound(c, k, reqs) && ElemReady(c, k, e) && (e.Elem? ==> e.req in reqs) && Disciplined(c, e, first)
    requires HeldParents(c)
    ensures var (c1, e1) := Wake(c, e, first); Waits(c1, e1, first)
  {
    hide CacheInv, HoldsAlive, HeldParents, Tried, InTheWay, Unrooted, DropBoth, Clash, Target;
    if e.Elem? && !Wake(c, e, first).1.done {
      TriedSound(c, k, reqs, e.req, e.p1, e.p2);
      if first {
        TriedAgain(c, k, reqs, e);
      } else {
        TriedAgainBehind(c, k, reqs, e);
        DropBothSound(Tried(c, e.req, e.p1, e.p2).0, k, reqs, e.req);
        if e.p2.Some? {
          SameClash(c, Wake(c, e, first).0, e.p1, e.p2.value);
        }
      }
    }
  }

  lemma SameClash(c: Cache, c': Cache, p1: Path, p2: Path)
    requires c'.t == c.t && c'.names == c.names
    ensures Clash(c', p1, p2) <==> Clash(c, p1, p2)
  {
  }

  /** Every unfinished request from position i on waits. */
  ghost predicate AllWait(c: Cache, q: seq<Elem>, i: nat) {
    forall j | i <= j < |q| :: Waits(c, q[j], j == 0)
  }

  /** After a pass every request it has passed, at whatever place in the queue, is finished or waits. */
  lemma {:induction false} AllWaitFrom(c: Cache, k: Refs, reqs: set<ReqId>, q: seq<Elem>, i: nat)
    requires Sound(c, k, reqs) && HeldParents(c) && i <= |q| && QueueReqs(q) <= reqs
    requires DistinctReqs(q) && QueueDisciplined(c, q) && QueueReady(c, k, q)
    ensures var (c', q') := WakeFrom(c, q, i);
            AllWait(c', q', i)
    decreases |q| - i
  {
    hide CacheInv, HoldsAlive, HeldParents, Disciplined, ElemReady, Wake, Waits, HoldsGrow;
    if i < |q| {
      var (c1, e1) := Wake(c, q[i], i == 0);
      var q1 := q[i := e1];
      assert q[i].Elem? ==> q[i].req in QueueReqs(q);
      assert Disciplined(c, q[i], i == 0) && ElemReady(c, k, q[i]);
      WokenWaits(c, k, reqs, q[i], i == 0);
      WakeAtSound(c, k, reqs, q, i);
      AllWaitFrom(c1, k, reqs, q1, i + 1);
      WakeFromGrows(c1, k, reqs, q1, i + 1);
      var (c', q') := WakeFrom(c1, q1, i + 1);
      assert q'[i] == q'[..i + 1][i] == q1[..i + 1][i] == e1;
      StillWaits(c1, c', e1, i == 0);
    }
  }

  /** What id holds keeps e from one of its paths. */
  ghost predicate Blocks(c: Cache, id: HoldId, e: Elem)
    requires e.Elem?
  {
    id.req != e.req && (InTheWay(c, id, e.p1) || (e.p2.Some? && InTheWay(c, id, e.p2.value)))
  }

  /** The hold was there before the pass came to position i, or belongs to a request in q[i..j]. */
  ghost predicate Ahead(c: Cache, q: seq<Elem>, i: nat, j: nat, id: HoldId)
    requires j <= |q|
  {
    id in c.holds || exists m :: i <= m < j && q[m].Elem? && q[m].req == id.req
  }

  /** Where e, at position j, is blocked by others, one of them was not behind it in the queue. */
  ghost predicate InTurn(c: Cache, q: seq<Elem>, i: nat, j: nat, c': Cache, e: Elem)
    requires j <= |q|
  {
    e.Elem? && !e.done ==>
      || (exists id :: Ahead(c, q, i, j, id) && Blocks(c', id, e))
      || SelfInTheWay(c', e)
      || (e.p2.Some? && Clash(c', e.p1, e.p2.value))
  }

  /** First come, first served: a pass gives no request what one before it in the queue waits for. */
  lemma {:induction false} ServedInTurn(c: Cache, k: Refs, reqs: set<ReqId>, q: seq<Elem>, i: nat, j: nat)
    requires Sound(c, k, reqs) && HeldParents(c) && i <= j < |q| && QueueReqs(q) <= reqs
    requires DistinctReqs(q) && QueueDisciplined(c, q) && QueueReady(c, k, q)
    ensures var (c', q') := WakeFrom(c, q, i);
            InTurn(c, q, i, j, c', q'[j])
    decreases |q| - i
  {
    hide CacheInv, HoldsAlive, HeldParents, Disciplined, ElemReady, Wake, Waits, HoldsGrow, InTurn;
    var (c1, e1) := Wake(c, q[i], i == 0);
    var q1 := q[i := e1];
    var (c', q') := WakeFrom(c1, q1, i + 1);
    WakeAtSound(c, k, reqs, q, i);
    WakeAtTouches(c, k, reqs, q, i);
    if i == j {
      assert q[i].Elem? ==> q[i].req in QueueReqs(q);
      assert Disciplined(c, q[i], i == 0) && ElemReady(c, k, q[i]);
      WokenWaits(c, k, reqs, q[i], i == 0);
      WakeFromGrows(c1, k, reqs, q1, i + 1);
      assert q'[i] == q'[..i + 1][i] == q1[..i + 1][i] == e1;
      WokenInTurn(c, q, i, c1, e1);
      StillInTurn(c, q, i, i, c1, c', e1);
    } else {
      ServedInTurn(c1, k, reqs, q1, i + 1, j);
      LaterInTurn(c, q, i, j, c1, e1, c', q'[j]);
    }
  }

  lemma WokenInTurn(c: Cache, q: seq<Elem>, i: nat, c1: Cache, e1: Elem)
    requires i < |q| && Waits(c1, e1, i == 0) && SameRequests(q, q[i := e1])
    requires if q[i].Elem? then OnlyHoldsOf(c, c1, q[i].req) else c1 == c
    ensures InTurn(c, q, i, i, c1, e1)
  {
    hide InTheWay, SelfInTheWay, Clash;
    if e1.Elem? && !e1.done && OtherInTheWay(c1, e1) {
      var id: HoldId :| id.req != e1.req
        && (InTheWay(c1, id, e1.p1) || (e1.p2.Some? && InTheWay(c1, id, e1.p2.value)));
      BlockerHolds(c1, id, e1);
      assert Ahead(c, q, i, i, id) && Blocks(c1, id, e1);
    }
  }

  lemma BlockerHolds(c: Cache, id: HoldId, e: Elem)
    requires e.Elem? && Blocks(c, id, e)
    ensures id in c.holds
  {
  }

  lemma StillInTurn(c: Cache, q: seq<Elem>, i: nat, j: nat, c1: Cache, c': Cache, e: Elem)
    requires j <= |q| && HoldsGrow(c1, c') && InTurn(c, q, i, j, c1, e)
    ensures InTurn(c, q, i, j, c', e)
  {
    hide InTheWay, Clash, HoldsGrow;
    if e.Elem? && !e.done {
      if id :| Ahead(c, q, i, j, id) && Blocks(c1, id, e) {
        StillBoth(c1, c', e, id);
        assert Ahead(c, q, i, j, id) && Blocks(c', id, e);
      } else {
        StillBoth(c1, c', e, HoldId(e.req, First));
        StillBoth(c1, c', e, HoldId(e.req, Second));
        GrownTree(c1, c');
        if e.p2.Some? {
          SameClash(c1, c', e.p1, e.p2.value);
        }
      }
    }
  }

  lemma GrownTree(c: Cache, c': Cache)
    requires HoldsGrow(c, c')
    ensures c'.t == c.t && c'.names == c.names
  {
  }

  lemma LaterInTurn(c: Cache, q: seq<Elem>, i: nat, j: nat, c1: Cache, e1: Elem, c': Cache, e: Elem)
    requires i < j <= |q| && SameRequests(q, q[i := e1]) && InTurn(c1, q[i := e1], i + 1, j, c', e)
    requires if q[i].Elem? then OnlyHoldsOf(c, c1, q[i].req) else c1 == c
    ensures InTurn(c, q, i, j, c', e)
  {
    hide InTheWay, SelfInTheWay, Clash, Blocks;
    var q1 := q[i := e1];
    if e.Elem? && !e.done {
      if id :| Ahead(c1, q1, i + 1, j, id) && Blocks(c', id, e) {
        if id in c1.holds {
          assert id in c.holds || (q[i].Elem? && q[i].req == id.req);
        } else {
          var m :| i + 1 <= m < j && q1[m].Elem? && q1[m].req == id.req;
          assert q1[m] == q[m];
        }
        assert Ahead(c, q, i, j, id) && Blocks(c', id, e);
      }
    }
  }

  /** The path is locked, or somebody is in the way. */
  ghost predicate LockedOrNot(c: Cache, id: HoldId, p: Path) {
    id in c.holds || exists id' :: InTheWay(c, id', p)
  }

  /** The head of the queue is not starved: it keeps each of its paths that could be locked. */
  lemma HeadTakesBoth(c: Cache, k: Refs, reqs: set<ReqId>, e: Elem)
    requires Sound(c, k, reqs) && ElemReady(c, k, e) && e.Elem? && e.req in reqs
    requires Disciplined(c, e, true) && !Wake(c, e, true).1.done
    ensures var c' := Wake(c, e, true).0;
            && LockedOrNot(c', HoldId(e.req, First), e.p1)
            && (e.p2.Some? ==> LockedOrNot(c', HoldId(e.req, Second), e.p2.value))
  {
    hide CacheInv, HoldsAlive, Try, TryErr, InTheWay, HoldsGrow, Disciplined;
    var first, second := HoldId(e.req, First), HoldId(e.req, Second);
    var c1, c' := TryIf(c, first, e.p1), Tried(c, e.req, e.p1, e.p2).0;
    TryIfSound(c, k, reqs, first, e.p1);
    TryGrows(c, first, e.p1);
    HoldsGrowRefl(c1);
    if e.p2.Some? {
      TryIfSound(c1, k, reqs, second, e.p2.value);
      TryGrows(c1, second, e.p2.value);
      if second !in c'.holds {
        WaitsForHolder(c1, e.p2.value);
        var id :| InTheWay(c1, id, e.p2.value);
        StillInTheWay(c1, c', id, e.p2.value);
      }
    }
    if first !in c'.holds {
      WaitsForHolder(c, e.p1);
      var id :| InTheWay(c, id, e.p1);
      StillInTheWay(c, c1, id, e.p1);
      StillInTheWay(c1, c', id, e.p1);
    }
  }

  lemma StillLockedOrNot(c: Cache, c': Cache, id: HoldId, p: Path)
    requires HoldsGrow(c, c') && LockedOrNot(c, id, p)
    ensures LockedOrNot(c', id, p)
  {
    hide InTheWay, Taken;
    if id !in c.holds {
      var id' :| InTheWay(c, id', p);
      StillInTheWay(c, c', id', p);
    }
  }

  /** So it is after the whole pass. */
  lemma HeadAfterPass(c: Cache, k: Refs, reqs: set<ReqId>, q: seq<Elem>)
    requires Sound(c, k, reqs) && HeldParents(c) && q != [] && QueueReqs(q) <= reqs
    requires DistinctReqs(q) && QueueDisciplined(c, q) && QueueReady(c, k, q)
    ensures var (c', q') := WakeFrom(c, q, 0);
            var e := q'[0];
            e.Elem? && !e.done ==>
              && LockedOrNot(c', HoldId(e.req, First), e.p1)
              && (e.p2.Some? ==> LockedOrNot(c', HoldId(e.req, Second), e.p2.value))
  {
    hide CacheInv, HoldsAlive, HeldParents, Disciplined, ElemReady, Wake, HoldsGrow, LockedOrNot;
    var (c1, e1) := Wake(c, q[0], true);
    var q1 := q[0 := e1];
    WakeAtSound(c, k, reqs, q, 0);
    WakeFromGrows(c1, k, reqs, q1, 1);
    var (c', q') := WakeFrom(c1, q1, 1);
    assert q'[0] == q'[..1][0] == q1[..1][0] == e1;
    if e1.Elem? && !e1.done {
      assert q[0].Elem? ==> q[0].req in QueueReqs(q);
      HeadTakesBoth(c, k, reqs, q[0]);
      StillLockedOrNot(c1, c', HoldId(e1.req, First), e1.p1);
      if e1.p2.Some? {
        StillLockedOrNot(c1, c', HoldId(e1.req, Second), e1.p2.value);
      }
    }
  }

  /** Who has to queue up waits for another request, too, or has two paths that do not go together. */
  lemma TryFirstWaits(c: Cache, k: Refs, reqs: set<ReqId>, e: Elem)
    requires Sound(c, k, reqs) && HeldParents(c) && ElemReady(c, k, e) && e.Elem? && e.req in reqs
    requires HasNone(c, e.req) && TryFirst(c, e.req, e.p1, e.p2).1 == Again
    ensures Waits(TryFirst(c, e.req, e.p1, e.p2).0, e, false)
  {
    hide CacheInv, HoldsAlive, HeldParents, Try, TryErr, InTheWay, HoldsGrow, Clash, Drop, Unrooted;
    var r, p1, first, second := e.req, e.p1, HoldId(e.req, First), HoldId(e.req, Second);
    var c1 := Try(c, first, p1);
    TryIfSound(c, k, reqs, first, p1);
    TryGrows(c, first, p1);
    if TryErr(c, p1) == Again {
      WaitsForHolder(c, p1);
      var id :| InTheWay(c, id, p1);
      HolderHolds(c, id, p1);
      assert id.which == First || id.which == Second;
      StillInTheWay(c, c1, id, p1);
    } else {
      var c2 := Try(c1, second, e.p2.value);
      TryIfSound(c1, k, reqs, second, e.p2.value);
      assert Tried(c, r, p1, e.p2) == (c2, Again);
      SecondFails(c, k, reqs, e);
      DropKeepsHold(c2, first, second);
      DropOfNothing(Drop(c2, first), second);
      DropSound(c2, k, reqs, first);
      SameClash(c, Drop(c2, first), p1, e.p2.value);
    }
  }

  // ---------------------------------------------------------------- a waiting writer

  ghost predicate Holds(c: Cache, id: HoldId, n: Ino) {
    id in c.holds && HoldsNode(c, id, n)
  }

  /** The node takes no more readers, and nobody holds it who did not hold it before. */
  ghost predicate NoneJoins(c: Cache, c': Cache, n: Ino) {
    Taken(c', n) && forall id | Holds(c', id, n) :: Holds(c, id, n)
  }

  lemma NoneJoinsTrans(c: Cache, c': Cache, c'': Cache, n: Ino)
    requires NoneJoins(c, c', n) && NoneJoins(c', c'', n)
    ensures NoneJoins(c, c'', n)
  {
    hide Taken, Holds;
  }

  lemma TryLetsNoneJoin(c: Cache, id: HoldId, p: Path, n: Ino)
    requires CacheInv(c) && p.dir in c.t && Taken(c, n)
    ensures NoneJoins(c, TryIf(c, id, p), n)
  {
    hide CacheInv, ChainSet, Try, TryErr;
    TryGrows(c, id, p);
    TryTouchesOwn(c, id, p);
  }

  lemma TryTouchesOwn(c: Cache, id: HoldId, p: Path)
    ensures var c' := TryIf(c, id, p);
            c'.t == c.t && forall id' | id' in c'.holds && id' != id :: id' in c.holds && c'.holds[id'] == c.holds[id']
  {
  }

  /** The mark stays until the last reader has left. */
  lemma DropLetsNoneJoin(c: Cache, id: HoldId, id0: HoldId, n: Ino)
    requires CacheInv(c) && Taken(c, n) && Holds(c, id0, n) && id0 != id
    ensures NoneJoins(c, Drop(c, id), n) && Holds(Drop(c, id), id0, n)
  {
    DropKeepsHold(c, id, id0);
    if Holds(c, id, n) {
      SharedIsRead(c, id, id0, n);
    } else {
      DropSpares(c, id, n);
    }
  }

  /** A node that two paths hold is read by both. */
  lemma SharedIsRead(c: Cache, id: HoldId, id0: HoldId, n: Ino)
    requires CacheInv(c) && Taken(c, n) && Holds(c, id, n) && Holds(c, id0, n) && id0 != id
    ensures c.holds[id].w != Some(n) && Lowered(c.lk[n]) < 0
  {
    hide ChainSet, Acyclic, NamesAgree, HoldsRooted;
    if c.holds[id].w == Some(n) {
      WrittenIsOnNoChain(c, id, id0);
    }
    if c.holds[id0].w == Some(n) {
      WrittenIsOnNoChain(c, id0, id);
    }
    ReadByTwo(c.lk, GrantsOf(c), n, id, id0);
  }

  lemma ReadByTwo(lk: Counters, g: Grants, n: Ino, id: HoldId, id0: HoldId)
    requires Accounted(lk, g) && n in lk && lk[n] < 0 && id in Readers(g, n) && id0 in Readers(g, n) && id0 != id
    ensures Lowered(lk[n]) < 0
  {
    CounterMeaning(lk, g, n);
    SubsetSize({id, id0}, Readers(g, n));
    assert |{id, id0}| == 2;
  }

  lemma DropBothLetsNoneJoin(c: Cache, r: ReqId, id0: HoldId, n: Ino)
    requires CacheInv(c) && Taken(c, n) && Holds(c, id0, n) && id0.req != r
    ensures NoneJoins(c, DropBoth(c, r), n) && Holds(DropBoth(c, r), id0, n)
  {
    hide CacheInv, Taken, Holds, Drop;
    var first, second := HoldId(r, First), HoldId(r, Second);
    DropLetsNoneJoin(c, first, id0, n);
    DropKeepsInv(c, first);
    DropLetsNoneJoin(Drop(c, first), second, id0, n);
    NoneJoinsTrans(c, Drop(c, first), DropBoth(c, r), n);
  }

  lemma TriedLetsNoneJoin(c: Cache, k: Refs, reqs: set<ReqId>, e: Elem, n: Ino)
    requires Sound(c, k, reqs) && ElemReady(c, k, e) && e.Elem? && e.req in reqs && Taken(c, n)
    ensures NoneJoins(c, Tried(c, e.req, e.p1, e.p2).0, n)
  {
    hide CacheInv, HoldsAlive, TryIf, ErrIf, Taken, Holds;
    var first := HoldId(e.req, First);
    var c1 := TryIf(c, first, e.p1);
    TryIfSound(c, k, reqs, first, e.p1);
    TryLetsNoneJoin(c, first, e.p1, n);
    if e.p2.Some? {
      TryLetsNoneJoin(c1, HoldId(e.req, Second), e.p2.value, n);
      NoneJoinsTrans(c, c1, TryIf(c1, HoldId(e.req, Second), e.p2.value), n);
    }
  }

  lemma NoneJoinsRefl(c: Cache, n: Ino)
    requires Taken(c, n)
    ensures NoneJoins(c, c, n)
  {
  }

  lemma HoldsTransfer(c: Cache, c': Cache, id: HoldId, n: Ino)
    requires Holds(c, id, n) && c'.t == c.t && id in c'.holds && c'.holds[id] == c.holds[id]
    ensures Holds(c', id, n)
  {
  }

  lemma HasNoneOf(c: Cache, r: ReqId, id: HoldId)
    requires HasNone(c, r) && id.req == r
    ensures id !in c.holds
  {
    assert id.which == First || id.which == Second;
  }

  /** One wakeup, while id0 goes on holding n. */
  lemma WakeLetsNoneJoin(c: Cache, k: Refs, reqs: set<ReqId>, e: Elem, first: bool, id0: HoldId, n: Ino)
    requires Sound(c, k, reqs) && ElemReady(c, k, e) && Disciplined(c, e, first) && HeldParents(c)
    requires e.Elem? && e.req in reqs && Taken(c, n) && Holds(c, id0, n) && id0 in Wake(c, e, first).0.holds
    ensures NoneJoins(c, Wake(c, e, first).0, n) && Holds(Wake(c, e, first).0, id0, n)
  {
    hide CacheInv, HoldsAlive, HeldParents, Tried, DropBoth, Unrooted, Taken, Holds, HasNone, HasAll;
    var c' := Tried(c, e.req, e.p1, e.p2).0;
    TriedSound(c, k, reqs, e.req, e.p1, e.p2);
    TriedLetsNoneJoin(c, k, reqs, e, n);
    TriedGrows(c, k, reqs, e.req, e.p1, e.p2);
    HolderHoldsIt(c, id0, n);
    HoldsTransfer(c, c', id0, n);
    if Wake(c, e, first).0 != c' {
      DropBothSound(c', k, reqs, e.req);
      if id0.req == e.req {
        HasNoneOf(DropBoth(c', e.req), e.req, id0);
      }
      DropBothLetsNoneJoin(c', e.req, id0, n);
      NoneJoinsTrans(c, c', DropBoth(c', e.req), n);
    }
  }

  /** The pass from position i on does not touch what requests before it, or outside the queue, hold. */
  lemma {:induction false} PassedUntouched(c: Cache, k: Refs, reqs: set<ReqId>, q: seq<Elem>, i: nat, id: HoldId)
    requires Sound(c, k, reqs) && HeldParents(c) && i <= |q| && QueueReqs(q) <= reqs
    requires DistinctReqs(q) && QueueDisciplined(c, q) && QueueReady(c, k, q)
    requires forall j | i <= j < |q| && q[j].Elem? :: q[j].req != id.req
    ensures var c' := WakeFrom(c, q, i).0;
            (id in c'.holds <==> id in c.holds) && (id in c.holds ==> c'.holds[id] == c.holds[id])
    decreases |q| - i
  {
    hide CacheInv, HoldsAlive, HeldParents, Disciplined, ElemReady, Wake;
    if i < |q| {
      var (c1, e1) := Wake(c, q[i], i == 0);
      WakeAtSound(c, k, reqs, q, i);
      WakeAtTouches(c, k, reqs, q, i);
      PassedUntouched(c1, k, reqs, q[i := e1], i + 1, id);
    }
  }

  lemma WakeAtTouches(c: Cache, k: Refs, reqs: set<ReqId>, q: seq<Elem>, i: nat)
    requires Sound(c, k, reqs) && i < |q| && QueueReqs(q) <= reqs
    requires DistinctReqs(q) && QueueDisciplined(c, q) && QueueReady(c, k, q) && HeldParents(c)
    ensures var (c1, e1) := Wake(c, q[i], i == 0);
            if q[i].Elem? then OnlyHoldsOf(c, c1, q[i].req) else c1 == c
  {
    hide CacheInv, HoldsAlive, HeldParents;
    if q[i].Elem? {
      assert q[i].req in QueueReqs(q);
      WakeSound(c, k, reqs, q[i], i == 0);
    }
  }

  /** A pass of the queue, while id0 goes on holding n. */
  lemma {:induction false} WakeFromLetsNoneJoin(c: Cache, k: Refs, reqs: set<ReqId>, q: seq<Elem>, i: nat, id0: HoldId,
      n: Ino)
    requires Sound(c, k, reqs) && HeldParents(c) && i <= |q| && QueueReqs(q) <= reqs
    requires DistinctReqs(q) && QueueDisciplined(c, q) && QueueReady(c, k, q)
    requires Taken(c, n) && Holds(c, id0, n) && id0 in WakeFrom(c, q, i).0.holds
    ensures NoneJoins(c, WakeFrom(c, q, i).0, n)
    decreases |q| - i
  {
    hide CacheInv, HoldsAlive, HeldParents, Disciplined, ElemReady, Wake, Taken, Holds, NoneJoins;
    if i < |q| {
      var (c1, e1) := Wake(c, q[i], i == 0);
      var q1 := q[i := e1];
      WakeAtSound(c, k, reqs, q, i);
      HolderHoldsIt(c, id0, n);
      StillThere(c, k, reqs, q, i, id0);
      WakeAtLetsNoneJoin(c, k, reqs, q, i, id0, n);
      WakeFromLetsNoneJoin(c1, k, reqs, q1, i + 1, id0, n);
      NoneJoinsTrans(c, c1, WakeFrom(c1, q1, i + 1).0, n);
    } else {
      NoneJoinsRefl(c, n);
    }
  }

  /** What is held before a pass and after it is held in between. */
  lemma StillThere(c: Cache, k: Refs, reqs: set<ReqId>, q: seq<Elem>, i: nat, id: HoldId)
    requires Sound(c, k, reqs) && HeldParents(c) && i < |q| && QueueReqs(q) <= reqs
    requires DistinctReqs(q) && QueueDisciplined(c, q) && QueueReady(c, k, q)
    requires id in c.holds && id in WakeFrom(c, q, i).0.holds
    ensures id in Wake(c, q[i], i == 0).0.holds
  {
    hide CacheInv, HoldsAlive, HeldParents, Disciplined, ElemReady, Wake;
    var (c1, e1) := Wake(c, q[i], i == 0);
    WakeAtSound(c, k, reqs, q, i);
    WakeAtTouches(c, k, reqs, q, i);
    if q[i].Elem? && q[i].req == id.req {
      PassedUntouched(c1, k, reqs, q[i := e1], i + 1, id);
    }
  }

  lemma WakeAtLetsNoneJoin(c: Cache, k: Refs, reqs: set<ReqId>, q: seq<Elem>, i: nat, id0: HoldId, n: Ino)
    requires Sound(c, k, reqs) && HeldParents(c) && i < |q| && QueueReqs(q) <= reqs
    requires QueueDisciplined(c, q) && QueueReady(c, k, q)
    requires Taken(c, n) && Holds(c, id0, n) && id0 in Wake(c, q[i], i == 0).0.holds
    ensures var c1 := Wake(c, q[i], i == 0).0; NoneJoins(c, c1, n) && Taken(c1, n) && Holds(c1, id0, n)
  {
    hide CacheInv, HoldsAlive, HeldParents, Taken, Holds;
    if q[i].Elem? {
      assert q[i].req in QueueReqs(q);
      WakeLetsNoneJoin(c, k, reqs, q[i], i == 0, id0, n);
    } else {
      NoneJoinsRefl(c, n);
    }
  }

  /** The first tries of a request, which hold nothing before and may fail. */
  lemma TryFirstLetsNoneJoin(c: Cache, k: Refs, reqs: set<ReqId>, r: ReqId, p1: Path, p2: Option<Path>, id0: HoldId,
      n: Ino)
    requires Sound(c, k, reqs) && r in reqs && HasNone(c, r) && Taken(c, n) && Holds(c, id0, n)
    requires PathReady(c, k, r, p1) && (p2.Some? ==> PathReady(c, k, r, p2.value))
    ensures NoneJoins(c, TryFirst(c, r, p1, p2).0, n)
  {
    hide CacheInv, HoldsAlive, Try, TryErr, Taken, Holds, Drop;
    var first, second := HoldId(r, First), HoldId(r, Second);
    var c1 := Try(c, first, p1);
    TryIfSound(c, k, reqs, first, p1);
    TryLetsNoneJoin(c, first, p1, n);
    TryGrows(c, first, p1);
    HolderHoldsIt(c, id0, n);
    HoldsTransfer(c, c1, id0, n);
    if p2.Some? {
      var c2 := Try(c1, second, p2.value);
      TryIfSound(c1, k, reqs, second, p2.value);
      TryLetsNoneJoin(c1, second, p2.value, n);
      TryGrows(c1, second, p2.value);
      HoldsTransfer(c1, c2, id0, n);
      NoneJoinsTrans(c, c1, c2, n);
      DropLetsNoneJoin(c2, first, id0, n);
      NoneJoinsTrans(c, c2, Drop(c2, first), n);
    }
  }

  lemma HolderHoldsIt(c: Cache, id: HoldId, n: Ino)
    requires Holds(c, id, n)
    ensures id in c.holds
  {
  }

  /** The node is what one of the two paths is to write, and that path is tried. */
  ghost predicate Wanted(c: Cache, p1: Path, p2: Option<Path>, w: Ino) {
    Target(c, p1) == Some(w) || (p2.Some? && Target(c, p2.value) == Some(w) && TryErr(c, p1) == Ok)
  }

  /** A request that finds what it wants to write held by another one leaves it marked, and adds no holder. */
  lemma TryFirstMarks(c: Cache, k: Refs, reqs: set<ReqId>, r: ReqId, p1: Path, p2: Option<Path>, id0: HoldId, w: Ino)
    requires Sound(c, k, reqs) && r in reqs && HasNone(c, r)
    requires PathReady(c, k, r, p1) && (p2.Some? ==> PathReady(c, k, r, p2.value))
    requires Wanted(c, p1, p2, w) && Holds(c, id0, w)
    ensures NoneJoins(c, TryFirst(c, r, p1, p2).0, w) && TryFirst(c, r, p1, p2).1 == Again
  {
    hide HoldsAlive, Try, TryErr, Taken, Holds, Drop, ChainSet, Acyclic, NamesAgree, HoldsRooted, Accounted;
    var first, second := HoldId(r, First), HoldId(r, Second);
    HolderHoldsIt(c, id0, w);
    if Target(c, p1) == Some(w) {
      TargetIsMarked(c, first, p1, id0, w);
    } else {
      var c1 := Try(c, first, p1);
      var c2 := Try(c1, second, p2.value);
      TryIfSound(c, k, reqs, first, p1);
      TryGrows(c, first, p1);
      HoldsTransfer(c, c1, id0, w);
      SameTarget(c, c1, p2.value);
      TargetIsMarked(c1, second, p2.value, id0, w);
      TryIfSound(c1, k, reqs, second, p2.value);
      JoinedIsTaken(c1, c2, w);
      DropLetsNoneJoin(c2, first, id0, w);
      DroppedAddsNone(c, c2, first, w);
    }
  }

  lemma SameTarget(c: Cache, c': Cache, p: Path)
    requires c'.names == c.names
    ensures Target(c', p) == Target(c, p)
  {
  }

  lemma TargetIsMarked(c: Cache, id: HoldId, p: Path, id0: HoldId, w: Ino)
    requires CacheInv(c) && Target(c, p) == Some(w) && Holds(c, id0, w)
    ensures var c' := Try(c, id, p);
            NoneJoins(c, c', w) && Holds(c', id0, w) && TryErr(c, p) == Again && c'.holds == c.holds
  {
    hide Acyclic, NamesAgree, HoldsRooted, Accounted;
    HeldNodeIsLocked(c, id0, w);
    BusyTargetIsMarked(c, id, p);
    var c' := Try(c, id, p);
    forall id' | Holds(c', id', w)
      ensures Holds(c, id', w)
    {
      HoldsTransfer(c', c, id', w);
    }
    HoldsTransfer(c, c', id0, w);
  }

  lemma JoinedIsTaken(c: Cache, c': Cache, n: Ino)
    requires NoneJoins(c, c', n)
    ensures Taken(c', n)
  {
  }

  lemma DroppedAddsNone(c: Cache, c2: Cache, id: HoldId, w: Ino)
    requires c2.t == c.t && Taken(Drop(c2, id), w)
    requires forall id' | id' in c2.holds && id' != id :: id' in c.holds && c2.holds[id'] == c.holds[id']
    ensures NoneJoins(c, Drop(c2, id), w)
  {
  }

  /** The node is what e is to write on a path that is not locked yet. */
  ghost predicate WaitsToWrite(c: Cache, e: Elem, w: Ino) {
    && e.Elem?
    && ((HoldId(e.req, First) !in c.holds && Target(c, e.p1) == Some(w))
        || (e.p2.Some? && HoldId(e.req, Second) !in c.holds && Target(c, e.p2.value) == Some(w)))
  }

  /** The tries of a wakeup mark what another request holds and e is to write. */
  lemma TriedMarks(c: Cache, k: Refs, reqs: set<ReqId>, e: Elem, id0: HoldId, w: Ino)
    requires Sound(c, k, reqs) && ElemReady(c, k, e) && e.Elem? && e.req in reqs
    requires WaitsToWrite(c, e, w) && Holds(c, id0, w) && Tried(c, e.req, e.p1, e.p2).1 == Again
    ensures var c' := Tried(c, e.req, e.p1, e.p2).0; Holds(c', id0, w) && Taken(c', w)
  {
    hide CacheInv, HoldsAlive, Taken, Holds, Try, TryErr, Target, ChainSet;
    var first, second := HoldId(e.req, First), HoldId(e.req, Second);
    var c1, c' := TryIf(c, first, e.p1), Tried(c, e.req, e.p1, e.p2).0;
    HolderHoldsIt(c, id0, w);
    TryIfSound(c, k, reqs, first, e.p1);
    TryGrows(c, first, e.p1);
    HoldsTransfer(c, c1, id0, w);
    if first !in c.holds && Target(c, e.p1) == Some(w) {
      TargetIsMarked(c, first, e.p1, id0, w);
      JoinedIsTaken(c, c1, w);
    }
    if e.p2.Some? {
      var p2 := e.p2.value;
      SameTarget(c, c1, p2);
      TryIfSound(c1, k, reqs, second, p2);
      TryGrows(c1, second, p2);
      HoldsTransfer(c1, c', id0, w);
      if second !in c.holds && Target(c, p2) == Some(w) {
        TargetIsMarked(c1, second, p2, id0, w);
        JoinedIsTaken(c1, c', w);
      }
    }
  }

  lemma WakeMarks(c: Cache, k: Refs, reqs: set<ReqId>, e: Elem, first: bool, id0: HoldId, w: Ino)
    requires Sound(c, k, reqs) && ElemReady(c, k, e) && Disciplined(c, e, first) && HeldParents(c)
    requires e.Elem? && e.req in reqs && WaitsToWrite(c, e, w) && Holds(c, id0, w) && id0.req != e.req
    requires !Wake(c, e, first).1.done
    ensures Taken(Wake(c, e, first).0, w) && Holds(Wake(c, e, first).0, id0, w)
  {
    hide CacheInv, HoldsAlive, HeldParents, Tried, DropBoth, Unrooted, Taken, Holds, HasNone, HasAll, WaitsToWrite;
    var c' := Tried(c, e.req, e.p1, e.p2).0;
    TriedSound(c, k, reqs, e.req, e.p1, e.p2);
    TriedMarks(c, k, reqs, e, id0, w);
    if Wake(c, e, first).0 != c' {
      DropBothLetsNoneJoin(c', e.req, id0, w);
      JoinedIsTaken(c', DropBoth(c', e.req), w);
    }
  }

  /**
    After a pass every writer that still waits has marked its targets: those that another request
    went on holding take no more readers.
   */
  lemma {:induction false} PassMarks(c: Cache, k: Refs, reqs: set<ReqId>, q: seq<Elem>, i: nat, j: nat, id0: HoldId,
      w: Ino)
    requires Sound(c, k, reqs) && HeldParents(c) && i <= j < |q| && QueueReqs(q) <= reqs
    requires DistinctReqs(q) && QueueDisciplined(c, q) && QueueReady(c, k, q)
    requires WaitsToWrite(c, q[j], w) && id0.req != q[j].req && Holds(c, id0, w) && id0 in WakeFrom(c, q, i).0.holds
    ensures q[j].Elem? && WakeFrom(c, q, i).1[j].Elem?
    ensures !WakeFrom(c, q, i).1[j].done ==> Taken(WakeFrom(c, q, i).0, w)
    decreases |q| - i
  {
    hide CacheInv, HoldsAlive, HeldParents, Disciplined, ElemReady, Wake, Taken, Holds, NoneJoins, WaitsToWrite;
    var (c1, e1) := Wake(c, q[i], i == 0);
    var q1 := q[i := e1];
    WakeAtSound(c, k, reqs, q, i);
    HolderHoldsIt(c, id0, w);
    StillThere(c, k, reqs, q, i, id0);
    WriterIsElem(c, q[j], w);
    if i == j {
      PassKeepsEarlier(c1, k, reqs, q1, i + 1);
      if !e1.done {
        MarkedAt(c, k, reqs, q, i, id0, w);
        WakeFromLetsNoneJoin(c1, k, reqs, q1, i + 1, id0, w);
        JoinedIsTaken(c1, WakeFrom(c1, q1, i + 1).0, w);
      }
    } else {
      HoldsAcross(c, k, reqs, q, i, id0, w);
      StillToWrite(c, k, reqs, q, i, j, w);
      PassMarks(c1, k, reqs, q1, i + 1, j, id0, w);
    }
  }

  lemma WriterIsElem(c: Cache, e: Elem, w: Ino)
    requires WaitsToWrite(c, e, w)
    ensures e.Elem?
  {
  }

  lemma PassKeepsEarlier(c: Cache, k: Refs, reqs: set<ReqId>, q: seq<Elem>, i: nat)
    requires Sound(c, k, reqs) && HeldParents(c) && 0 < i <= |q| && QueueReqs(q) <= reqs
    requires DistinctReqs(q) && QueueDisciplined(c, q) && QueueReady(c, k, q)
    ensures WakeFrom(c, q, i).1[i - 1] == q[i - 1]
  {
    hide CacheInv, HoldsAlive, HeldParents, Disciplined, ElemReady, Wake, HoldsGrow;
    WakeFromGrows(c, k, reqs, q, i);
    var q' := WakeFrom(c, q, i).1;
    assert q'[i - 1] == q'[..i][i - 1] == q[..i][i - 1];
  }

  lemma MarkedAt(c: Cache, k: Refs, reqs: set<ReqId>, q: seq<Elem>, i: nat, id0: HoldId, w: Ino)
    requires Sound(c, k, reqs) && HeldParents(c) && i < |q| && QueueReqs(q) <= reqs
    requires QueueDisciplined(c, q) && QueueReady(c, k, q) && q[i].Elem?
    requires WaitsToWrite(c, q[i], w) && id0.req != q[i].req && Holds(c, id0, w) && !Wake(c, q[i], i == 0).1.done
    ensures var c1 := Wake(c, q[i], i == 0).0; Taken(c1, w) && Holds(c1, id0, w)
  {
    hide CacheInv, HoldsAlive, HeldParents, Taken, Holds, WaitsToWrite;
    assert q[i].req in QueueReqs(q);
    WakeMarks(c, k, reqs, q[i], i == 0, id0, w);
  }

  lemma HoldsAcross(c: Cache, k: Refs, reqs: set<ReqId>, q: seq<Elem>, i: nat, id0: HoldId, w: Ino)
    requires Sound(c, k, reqs) && i < |q| && QueueReqs(q) <= reqs && HeldParents(c)
    requires DistinctReqs(q) && QueueDisciplined(c, q) && QueueReady(c, k, q)
    requires Holds(c, id0, w) && id0 in Wake(c, q[i], i == 0).0.holds
    ensures Holds(Wake(c, q[i], i == 0).0, id0, w)
  {
    hide CacheInv, HoldsAlive, HeldParents, Taken, Holds;
    var c1 := Wake(c, q[i], i == 0).0;
    HolderHoldsIt(c, id0, w);
    WakeAtSound(c, k, reqs, q, i);
    if q[i].Elem? {
      assert q[i].req in QueueReqs(q);
      WakeKeepsOwn(c, k, reqs, q[i], i == 0, id0);
    }
    HoldsTransfer(c, c1, id0, w);
  }

  /** A hold that is there before a wakeup and after it is the same. */
  lemma WakeKeepsOwn(c: Cache, k: Refs, reqs: set<ReqId>, e: Elem, first: bool, id: HoldId)
    requires Sound(c, k, reqs) && ElemReady(c, k, e) && Disciplined(c, e, first) && HeldParents(c)
    requires e.Elem? && e.req in reqs && id in c.holds && id in Wake(c, e, first).0.holds
    ensures Wake(c, e, first).0.holds[id] == c.holds[id]
  {
    hide CacheInv, HoldsAlive, HeldParents, Tried, DropBoth, Unrooted, HasAll, HasNone;
    var c' := Tried(c, e.req, e.p1, e.p2).0;
    TriedGrows(c, k, reqs, e.req, e.p1, e.p2);
    TriedSound(c, k, reqs, e.req, e.p1, e.p2);
    DropBothSound(c', k, reqs, e.req);
    if id.req == e.req && Wake(c, e, first).0 != c' {
      HasNoneOf(DropBoth(c', e.req), e.req, id);
    }
  }

  lemma StillToWrite(c: Cache, k: Refs, reqs: set<ReqId>, q: seq<Elem>, i: nat, j: nat, w: Ino)
    requires Sound(c, k, reqs) && i < j < |q| && QueueReqs(q) <= reqs && HeldParents(c)
    requires DistinctReqs(q) && QueueDisciplined(c, q) && QueueReady(c, k, q) && WaitsToWrite(c, q[j], w)
    ensures WaitsToWrite(Wake(c, q[i], i == 0).0, q[j], w)
  {
    hide CacheInv, HoldsAlive, HeldParents, Disciplined, ElemReady, Wake;
    WakeAtSound(c, k, reqs, q, i);
    WakeAtTouches(c, k, reqs, q, i);
  }
}
