/**
  Path locking over the directory tree: `try_get_path` and `unlock_path`, the changes a request
  makes to the tree while it holds its paths, and the invariant all of them keep.
 */
module PathLocks {
  import opened Wrappers
  import opened Lists
  import opened Tree
  import opened LockCounts

  /** What one successful `try_get_path` has locked: the chain of leaf, and w if `*wnodep` is set. */
  datatype Hold = Hold(leaf: Ino, w: Option<Ino>)

  /** The arguments of `try_get_path`; wr says that `wnodep` was passed. */
  datatype Path = Path(dir: Ino, name: string, wr: bool)

  datatype Err = Ok | Again | NoEnt

  type Names = map<(Ino, string), Ino>

  /**
    The part of the inode cache that path locking reads and writes.  `holds` is the table of who
    holds what: `first_locked` and `second_locked` of a queued request, or the local variables of a
    running one.
   */
  datatype Cache = Cache(t: Links, names: Names, lk: Counters, holds: map<HoldId, Hold>)

  ghost function Granted(t: Links, h: Hold): Grant {
    Grant(ChainSet(t, h.leaf), h.w)
  }

  ghost function GrantsOf(s: Cache): Grants {
    map id | id in s.holds :: Granted(s.t, s.holds[id])
  }

  // ---------------------------------------------------------------- the invariant

  /** The name table holds exactly the named nodes, each under its own parent and name. */
  ghost predicate NamesAgree(t: Links, names: Names) {
    && (forall n {:trigger t[n]} | n in t && t[n].Linked? ::
        (t[n].dir, t[n].name) in names && names[(t[n].dir, t[n].name)] == n)
    && (forall k {:trigger names[k]} | k in names :: names[k] in t && t[names[k]] == Linked(k.0, k.1))
    && (ROOT in t ==> t[ROOT] == Detached)
  }

  ghost predicate HoldRooted(t: Links, h: Hold) {
    && h.leaf in t && Top(t, h.leaf) == ROOT
    && (h.w.Some? ==> h.w.value in t && h.w.value != ROOT)
  }

  ghost predicate HoldsRooted(s: Cache) {
    forall id {:trigger HoldRooted(s.t, s.holds[id])} | id in s.holds :: HoldRooted(s.t, s.holds[id])
  }

  ghost predicate CacheInv(s: Cache) {
    && Acyclic(s.t)
    && NamesAgree(s.t, s.names)
    && s.lk.Keys == s.t.Keys
    && HoldsRooted(s)
    && Accounted(s.lk, GrantsOf(s))
  }

  lemma ChainSetInTree(t: Links, n: Ino)
    requires Acyclic(t) && n in t
    ensures forall x | x in ChainSet(t, n) :: x in t && x != ROOT && t[x].Linked?
    ensures Top(t, n) !in ChainSet(t, n)
    ensures n == Top(t, n) || n in ChainSet(t, n)
  {
    ClimbsInTree(t, n, Chain(t, n), Top(t, n));
  }

  // ---------------------------------------------------------------- try_get_path and unlock_path

  /** `lookup_node` on the write target, if there is one to lock. */
  function Target(s: Cache, p: Path): Option<Ino> {
    if p.wr && (p.dir, p.name) in s.names then Some(s.names[(p.dir, p.name)]) else None
  }

  ghost predicate Busy(s: Cache, w: Option<Ino>) {
    w.Some? && w.value in s.lk && s.lk[w.value] != 0
  }

  ghost predicate Blocked(lk: Counters, c: set<Ino>) {
    exists n | n in c :: n in lk && lk[n] < 0
  }

  /** A node that takes no more readers: it is written, or read while a writer waits. */
  ghost predicate Taken(s: Cache, n: Ino) {
    n in s.lk && s.lk[n] < 0
  }

  /** What `try_get_path` returns. */
  ghost function TryErr(s: Cache, p: Path): Err {
    var w := Target(s, p);
    if Busy(s, w) || Blocked(SetLock(s.lk, w, WRITE), ChainSet(s.t, p.dir)) then Again
    else if Top(s.t, p.dir) != ROOT then NoEnt
    else Ok
  }

  /** The cache after `try_get_path` on behalf of id. */
  ghost function Try(s: Cache, id: HoldId, p: Path): Cache {
    var w := Target(s, p);
    if TryErr(s, p) == Ok then
      s.(lk := Raise(SetLock(s.lk, w, WRITE), ChainSet(s.t, p.dir)), holds := s.holds[id := Hold(p.dir, w)])
    else if Busy(s, w) && s.lk[w.value] > 0 then
      s.(lk := s.lk[w.value := s.lk[w.value] + WAIT_OFFSET])
    else s
  }

  /** A write target that is locked is marked as waited for, and nothing else changes. */
  lemma BusyTargetIsMarked(s: Cache, id: HoldId, p: Path)
    requires CacheInv(s) && Target(s, p).Some? && s.lk[Target(s, p).value] != 0
    ensures var w, s' := Target(s, p).value, Try(s, id, p);
            && TryErr(s, p) == Again && Taken(s', w)
            && s' == s.(lk := s.lk[w := s'.lk[w]])
            && (s'.lk[w] - s.lk[w] == if Taken(s, w) then 0 else WAIT_OFFSET)
  {
    var w := Target(s, p).value;
    CounterMeaning(s.lk, GrantsOf(s), w);
    assert s.lk[w := s.lk[w]] == s.lk;
  }

  /** Nobody can lock a path through a node that is taken, or to it. */
  lemma TakenKeepsOut(s: Cache, n: Ino, q: Path)
    requires Taken(s, n) && (n in ChainSet(s.t, q.dir) || Target(s, q) == Some(n))
    ensures TryErr(s, q) == Again
  {
    if n in ChainSet(s.t, q.dir) {
      var lk := SetLock(s.lk, Target(s, q), WRITE);
      assert n in lk && lk[n] < 0;
    }
  }

  /** What a try that succeeds has locked: its target for writing, and one more reader on each node of the climb. */
  lemma TryLocks(s: Cache, id: HoldId, p: Path)
    requires CacheInv(s) && p.dir in s.t && TryErr(s, p) == Ok
    ensures var w, s' := Target(s, p), Try(s, id, p);
            && s'.t == s.t && s'.names == s.names && s'.holds == s.holds[id := Hold(p.dir, w)]
            && s'.lk.Keys == s.lk.Keys
            && (w.Some? ==> s.lk[w.value] == 0 && s'.lk[w.value] == WRITE)
            && forall n | n in s.lk && w != Some(n) ::
                 if n in ChainSet(s.t, p.dir) then s.lk[n] >= 0 && s'.lk[n] == s.lk[n] + 1 else s'.lk[n] == s.lk[n]
  {
    TargetFree(s, p);
  }

  /** The assertions `unlock_path` makes about a hold. */
  ghost predicate UnlockAsserts(t: Links, lk: Counters, h: Hold) {
    && (h.w.Some? ==> h.w.value in lk && lk[h.w.value] == WRITE && h.w.value !in ChainSet(t, h.leaf))
    && forall n | n in ChainSet(t, h.leaf) :: n in lk && lk[n] != 0 && lk[n] != WAIT_OFFSET && lk[n] != WRITE
  }

  /** The cache after `unlock_path` on behalf of id; nothing happens if id holds nothing. */
  ghost function Drop(s: Cache, id: HoldId): Cache {
    if id in s.holds then
      var h := s.holds[id];
      s.(lk := Lower(SetLock(s.lk, h.w, 0), ChainSet(s.t, h.leaf)), holds := s.holds - {id})
    else s
  }

  lemma GrantsFollow(s: Cache, lk: Counters, id: HoldId, h: Hold)
    ensures GrantsOf(s.(lk := lk, holds := s.holds[id := h])) == GrantsOf(s)[id := Granted(s.t, h)]
    ensures GrantsOf(s.(lk := lk, holds := s.holds - {id})) == GrantsOf(s) - {id}
    ensures |GrantsOf(s)| == |s.holds|
  {
    assert GrantsOf(s).Keys == s.holds.Keys;
  }

  lemma TryOkKeepsAccount(s: Cache, id: HoldId, p: Path)
    requires Accounted(s.lk, GrantsOf(s)) && id !in s.holds && |s.holds| + 1 < INT_MAX && TryErr(s, p) == Ok
    requires var w, c := Target(s, p), ChainSet(s.t, p.dir);
             && (w.Some? ==> w.value in s.lk && s.lk[w.value] == 0 && w.value !in c)
             && (forall n | n in c :: n in s.lk && s.lk[n] >= 0)
    ensures Accounted(Try(s, id, p).lk, GrantsOf(Try(s, id, p)))
  {
    var s', h := Try(s, id, p), Hold(p.dir, Target(s, p));
    GrantsFollow(s, s'.lk, id, h);
    TakeKeepsAccount(s.lk, GrantsOf(s), id, Granted(s.t, h));
  }

  /**
    A failed try leaves every counter as it was, except that it may mark its write target as
    waited for.
   */
  lemma TryKeepsInv(s: Cache, id: HoldId, p: Path)
    requires CacheInv(s) && id !in s.holds && |s.holds| + 1 < INT_MAX && p.dir in s.t
    ensures var s' := Try(s, id, p);
            && CacheInv(s')
            && s'.t == s.t && s'.names == s.names
            && (TryErr(s, p) == Ok ==> s'.holds == s.holds[id := Hold(p.dir, Target(s, p))])
            && (TryErr(s, p) != Ok ==> s'.holds == s.holds && forall n | n in s.lk ::
                  s'.lk[n] == s.lk[n] || (Target(s, p) == Some(n) && s.lk[n] > 0 && s'.lk[n] == s.lk[n] + WAIT_OFFSET))
  {
    var w := Target(s, p);
    if TryErr(s, p) == Ok {
      TargetFree(s, p);
      TryOkKeepsAccount(s, id, p);
      assert HoldRooted(s.t, Hold(p.dir, w));
    } else if Busy(s, w) && s.lk[w.value] > 0 {
      MarkKeepsAccount(s.lk, GrantsOf(s), w.value);
      assert GrantsOf(Try(s, id, p)) == GrantsOf(s);
    }
  }

  /** What a try that succeeds has found out about the counters. */
  lemma TargetFree(s: Cache, p: Path)
    requires CacheInv(s) && p.dir in s.t && TryErr(s, p) == Ok
    ensures var w, c := Target(s, p), ChainSet(s.t, p.dir);
            && (w.Some? ==> w.value in s.t && w.value != ROOT && s.lk[w.value] == 0 && w.value !in c)
            && (forall n | n in c :: n in s.lk && s.lk[n] >= 0)
  {
    var w, c := Target(s, p), ChainSet(s.t, p.dir);
    ChainSetInTree(s.t, p.dir);
    forall n | n in c
      ensures n in s.lk && s.lk[n] >= 0 && w != Some(n)
    {
      assert !Blocked(SetLock(s.lk, w, WRITE), c);
      assert n in SetLock(s.lk, w, WRITE);
    }
  }

  /** No assertion of `unlock_path` can fail on a hold, whatever happened since it was taken. */
  lemma UnlockIsSafe(s: Cache, id: HoldId)
    requires CacheInv(s) && id in s.holds
    ensures UnlockAsserts(s.t, s.lk, s.holds[id])
  {
    assert HoldRooted(s.t, s.holds[id]);
    ChainSetInTree(s.t, s.holds[id].leaf);
    assert GrantsOf(s)[id] == Granted(s.t, s.holds[id]);
    GrantAsserts(s.lk, GrantsOf(s), id);
  }

  lemma DropKeepsInv(s: Cache, id: HoldId)
    requires CacheInv(s)
    ensures var s' := Drop(s, id);
            CacheInv(s') && s'.t == s.t && s'.names == s.names && s'.holds == s.holds - {id}
  {
    if id in s.holds {
      var s', h := Drop(s, id), s.holds[id];
      assert HoldRooted(s.t, h);
      assert GrantsOf(s)[id] == Granted(s.t, h);
      GiveBackKeepsAccount(s.lk, GrantsOf(s), id);
      GrantsFollow(s, s'.lk, id, h);
    } else {
      assert s.holds - {id} == s.holds;
    }
  }

  /** Locking a path and unlocking it again puts the cache back exactly. */
  lemma DropUndoesTry(s: Cache, id: HoldId, p: Path)
    requires CacheInv(s) && id !in s.holds && p.dir in s.t && TryErr(s, p) == Ok
    ensures Drop(Try(s, id, p), id) == s
  {
    TargetFree(s, p);
    GiveBackUndoesTake(s.lk, GrantsOf(s), Granted(s.t, Hold(p.dir, Target(s, p))));
    assert Drop(Try(s, id, p), id).holds == s.holds;
  }

  /** A write-locked node is on no read-locked chain, its own request's other path included. */
  lemma WrittenIsOnNoChain(s: Cache, id: HoldId, id': HoldId)
    requires CacheInv(s) && id in s.holds && id' in s.holds && s.holds[id].w.Some?
    ensures s.holds[id].w.value !in ChainSet(s.t, s.holds[id'].leaf)
    ensures s.holds[id'].w == s.holds[id].w ==> id' == id
  {
    var n, g := s.holds[id].w.value, GrantsOf(s);
    assert HoldRooted(s.t, s.holds[id]);
    CounterMeaning(s.lk, g, n);
    assert id in Writers(g, n);
    assert n in ChainSet(s.t, s.holds[id'].leaf) ==> id' in Readers(g, n);
    if s.holds[id'].w == s.holds[id].w && id' != id {
      assert {id, id'} <= Writers(g, n);
      SubsetSize({id, id'}, Writers(g, n));
      assert false;
    }
  }

  // ---------------------------------------------------------------- changing the tree

  /** `unhash_name` and `hash_name`, as far as links and the name table go. */
  function Unhash(s: Cache, n: Ino): Cache
    requires n in s.t
  {
    if s.t[n].Linked? then
      s.(t := s.t[n := Detached], names := s.names - {(s.t[n].dir, s.t[n].name)})
    else s
  }

  function Hash(s: Cache, n: Ino, dir: Ino, name: string): Cache {
    s.(t := s.t[n := Linked(dir, name)], names := s.names[(dir, name) := n])
  }

  /** The hold climbs the very nodes it climbed before, each under its old parent and name. */
  ghost predicate ClimbKept(t: Links, t': Links, leaf: Ino) {
    && Chain(t', leaf) == Chain(t, leaf)
    && forall x | x in Chain(t, leaf) :: x in t && x in t' && t'[x] == t[x]
  }

  ghost predicate ChainsKept(s: Cache, s': Cache) {
    forall id {:trigger ClimbKept(s.t, s'.t, s.holds[id].leaf)} | id in s.holds && id in s'.holds ::
      s'.holds[id] == s.holds[id] && ClimbKept(s.t, s'.t, s.holds[id].leaf)
  }

  ghost predicate OffChains(s: Cache, n: Ino) {
    n != ROOT && forall id | id in s.holds :: n !in GrantsOf(s)[id].rd
  }

  /** Changing the link of a node that is on no held chain leaves all held chains alone. */
  lemma RelinkKeepsChains(s: Cache, n: Ino, t': Links)
    requires CacheInv(s) && OffChains(s, n)
    requires forall x | x in s.t && x != n :: x in t' && t'[x] == s.t[x]
    requires forall id | id in s.holds :: s.holds[id].w == Some(n) ==> n in t'
    ensures var s' := s.(t := t');
            ChainsKept(s, s') && HoldsRooted(s') && GrantsOf(s') == GrantsOf(s)
  {
    forall id | id in s.holds
      ensures ClimbKept(s.t, t', s.holds[id].leaf) && HoldRooted(t', s.holds[id])
      ensures Granted(t', s.holds[id]) == Granted(s.t, s.holds[id])
    {
      var leaf := s.holds[id].leaf;
      assert n !in GrantsOf(s)[id].rd && HoldRooted(s.t, s.holds[id]);
      ChainSetInTree(s.t, leaf);
      ChainFrame(s.t, t', leaf);
    }
  }

  lemma UnhashKeeps(s: Cache, n: Ino)
    requires CacheInv(s) && n in s.t && OffChains(s, n)
    ensures var s' := Unhash(s, n);
            Keeps(s, s') && s'.t == s.t[n := Detached] && OffChains(s', n)
  {
    if s.t[n].Linked? {
      RelinkKeepsChains(s, n, s.t[n := Detached]);
      DetachKeepsAcyclic(s.t, n);
    } else {
      KeepsRefl(s);
      assert s.t[n := Detached] == s.t;
    }
  }

  lemma HashKeeps(s: Cache, n: Ino, dir: Ino, name: string)
    requires CacheInv(s) && n in s.t && OffChains(s, n)
    requires s.t[n].Detached? && dir in s.t && (dir, name) !in s.names && Top(s.t, dir) == ROOT
    ensures var s' := Hash(s, n, dir, name);
            Keeps(s, s') && Top(s'.t, n) == ROOT
  {
    RelinkKeepsChains(s, n, s.t[n := Linked(dir, name)]);
    AttachKeepsAcyclic(s.t, n, dir, name);
  }

  /** From s to s' the locks and holds stay, and so does every held chain; both are sound. */
  ghost predicate Keeps(s: Cache, s': Cache) {
    && CacheInv(s) && CacheInv(s')
    && s'.holds == s.holds && s'.lk == s.lk && GrantsOf(s') == GrantsOf(s)
    && ChainsKept(s, s')
  }

  lemma KeepsRefl(s: Cache)
    requires CacheInv(s)
    ensures Keeps(s, s)
  {
    forall id | id in s.holds
      ensures ClimbKept(s.t, s.t, s.holds[id].leaf)
    {
      assert HoldRooted(s.t, s.holds[id]);
      ChainSetInTree(s.t, s.holds[id].leaf);
      assert forall x | x in Chain(s.t, s.holds[id].leaf) :: x in ChainSet(s.t, s.holds[id].leaf);
    }
  }

  lemma KeepsTrans(s: Cache, s': Cache, s'': Cache)
    requires Keeps(s, s') && Keeps(s', s'')
    ensures Keeps(s, s'')
  {
    forall id | id in s.holds
      ensures ClimbKept(s.t, s''.t, s.holds[id].leaf)
    {
      assert ClimbKept(s.t, s'.t, s.holds[id].leaf) && ClimbKept(s'.t, s''.t, s'.holds[id].leaf);
    }
  }

  function Lookup(s: Cache, dir: Ino, name: string): Option<Ino> {
    if (dir, name) in s.names then Some(s.names[(dir, name)]) else None
  }

  /** `remove_node` */
  function RemoveNode(s: Cache, dir: Ino, name: string): Cache {
    var n := Lookup(s, dir, name);
    if n.Some? && n.value in s.t then Unhash(s, n.value) else s
  }

  /** `rename_node`; with hiding set a bound target is an error and nothing happens. */
  function RenameNode(s: Cache, olddir: Ino, oldname: string, newdir: Ino, newname: string, hiding: bool): Cache {
    var node, newnode := Lookup(s, olddir, oldname), Lookup(s, newdir, newname);
    if node.None? || (newnode.Some? && hiding) then s
    else
      var s1 := RemoveNode(s, newdir, newname);
      if node.value in s1.t then Hash(Unhash(s1, node.value), node.value, newdir, newname) else s1
  }

  /** `exchange_node` */
  function ExchangeNode(s: Cache, olddir: Ino, oldname: string, newdir: Ino, newname: string): Cache {
    var oldnode, newnode := Lookup(s, olddir, oldname), Lookup(s, newdir, newname);
    var s1 := if oldnode.Some? && oldnode.value in s.t then Unhash(s, oldnode.value) else s;
    var s2 := if newnode.Some? && newnode.value in s1.t then Unhash(s1, newnode.value) else s1;
    var s3 := if oldnode.Some? then Hash(s2, oldnode.value, newdir, newname) else s2;
    if newnode.Some? then Hash(s3, newnode.value, olddir, oldname) else s3
  }

  /** The node is unbound, or it is the one this hold has write-locked. */
  ghost predicate Owns(s: Cache, id: HoldId, n: Option<Ino>) {
    id in s.holds && (n.Some? ==> s.holds[id].w == n)
  }

  lemma OwnedIsOffChains(s: Cache, id: HoldId, n: Option<Ino>)
    requires CacheInv(s) && Owns(s, id, n) && n.Some?
    ensures n.value in s.t && OffChains(s, n.value)
  {
    assert HoldRooted(s.t, s.holds[id]);
    forall id' | id' in s.holds
      ensures n.value !in GrantsOf(s)[id'].rd
    {
      WrittenIsOnNoChain(s, id, id');
    }
  }

  lemma RemoveKeeps(s: Cache, id: HoldId, dir: Ino, name: string)
    requires CacheInv(s) && Owns(s, id, Lookup(s, dir, name))
    ensures var s', n := RemoveNode(s, dir, name), Lookup(s, dir, name);
            && Keeps(s, s') && Lookup(s', dir, name) == None
            && s'.t == if n.Some? then s.t[n.value := Detached] else s.t
  {
    var n := Lookup(s, dir, name);
    if n.Some? {
      OwnedIsOffChains(s, id, n);
      UnhashKeeps(s, n.value);
    } else {
      KeepsRefl(s);
    }
  }

  lemma NameFreed(s: Cache, n: Ino, dir: Ino, name: string)
    requires NamesAgree(s.t, s.names) && n in s.t && ((dir, name) in s.names ==> s.names[(dir, name)] == n)
    ensures (dir, name) !in Unhash(s, n).names
  {
    if (dir, name) in s.names {
      assert s.t[n] == Linked(dir, name);
    }
  }

  /** Moving a write-locked node to a free name under the leaf of a held path. */
  lemma MoveKeeps(s: Cache, id: HoldId, n: Ino, id': HoldId, name: string)
    requires CacheInv(s) && Owns(s, id, Some(n)) && id' in s.holds && n in s.t
    requires (s.holds[id'].leaf, name) in s.names ==> s.names[(s.holds[id'].leaf, name)] == n
    ensures var dir := s.holds[id'].leaf;
            var s' := Hash(Unhash(s, n), n, dir, name);
            Keeps(s, s') && s'.t == s.t[n := Linked(dir, name)] && Top(s'.t, n) == ROOT
  {
    hide Acyclic, Accounted, HoldsRooted, ChainsKept, GrantsOf, OffChains, Hash;
    var s1, dir := Unhash(s, n), s.holds[id'].leaf;
    OwnedIsOffChains(s, id, Some(n));
    NameFreed(s, n, dir, name);
    UnhashKeeps(s, n);
    PlaceKeeps(s1, id, Some(n), id', name);
    KeepsTrans(s, s1, Hash(s1, n, dir, name));
    assert s.t[n := Detached][n := Linked(dir, name)] == s.t[n := Linked(dir, name)];
  }

  /**
    A rename whose source is write-locked on one path and whose target directory is the leaf of a
    held path leaves the tree acyclic, the moved node under the root, the replaced node without a
    name, every other node where it was, and every held chain unchanged.
   */
  lemma RenameKeeps(s: Cache, id: HoldId, id': HoldId, olddir: Ino, oldname: string, newdir: Ino, newname: string,
      hiding: bool)
    requires CacheInv(s) && Owns(s, id, Lookup(s, olddir, oldname)) && Owns(s, id', Lookup(s, newdir, newname))
    requires s.holds[id'].leaf == newdir && Lookup(s, olddir, oldname).Some?
    requires hiding ==> Lookup(s, newdir, newname).None?
    ensures var s' := RenameNode(s, olddir, oldname, newdir, newname, hiding);
            var node, newnode := Lookup(s, olddir, oldname).value, Lookup(s, newdir, newname);
            && Keeps(s, s') && Top(s'.t, node) == ROOT
            && s'.t == (if newnode.Some? then s.t[newnode.value := Detached] else s.t)[node := Linked(newdir, newname)]
  {
    var node := Lookup(s, olddir, oldname).value;
    var s1 := RemoveNode(s, newdir, newname);
    RemoveKeeps(s, id', newdir, newname);
    OwnedIsOffChains(s, id, Some(node));
    MoveKeeps(s1, id, node, id', newname);
    KeepsTrans(s, s1, Hash(Unhash(s1, node), node, newdir, newname));
  }

  ghost function Relinked(t: Links, n: Option<Ino>, l: Link): Links {
    if n.Some? then t[n.value := l] else t
  }

  /** Hashing one of the two nodes of an exchange into the other's place. */
  lemma PlaceKeeps(s: Cache, id: HoldId, n: Option<Ino>, id': HoldId, name: string)
    requires CacheInv(s) && Owns(s, id, n) && id' in s.holds && (n.Some? ==> n.value in s.t && s.t[n.value].Detached?)
    requires n.Some? ==> (s.holds[id'].leaf, name) !in s.names
    ensures var dir := s.holds[id'].leaf;
            var s' := if n.Some? then Hash(s, n.value, dir, name) else s;
            Keeps(s, s') && s'.t == Relinked(s.t, n, Linked(dir, name)) && (n.Some? ==> Top(s'.t, n.value) == ROOT)
  {
    if n.Some? {
      OwnedIsOffChains(s, id, n);
      assert HoldRooted(s.t, s.holds[id']);
      HashKeeps(s, n.value, s.holds[id'].leaf, name);
    } else {
      KeepsRefl(s);
    }
  }

  /** Taking both names of an exchange away. */
  lemma RemoveBothKeeps(s: Cache, id: HoldId, id': HoldId, olddir: Ino, oldname: string, newdir: Ino, newname: string)
    requires CacheInv(s) && Owns(s, id, Lookup(s, olddir, oldname)) && Owns(s, id', Lookup(s, newdir, newname))
    requires (olddir, oldname) != (newdir, newname)
    ensures var s2 := RemoveNode(RemoveNode(s, olddir, oldname), newdir, newname);
            var oldnode, newnode := Lookup(s, olddir, oldname), Lookup(s, newdir, newname);
            && Keeps(s, s2) && Lookup(s2, olddir, oldname) == None && Lookup(s2, newdir, newname) == None
            && s2.t == Relinked(Relinked(s.t, oldnode, Detached), newnode, Detached)
            && Lookup(RemoveNode(s, olddir, oldname), newdir, newname) == newnode
            && (oldnode.Some? ==> oldnode.value in s.t) && (newnode.Some? ==> newnode.value in s.t)
  {
    var s1 := RemoveNode(s, olddir, oldname);
    RemoveKeeps(s, id, olddir, oldname);
    RemoveKeeps(s1, id', newdir, newname);
    KeepsTrans(s, s1, RemoveNode(s1, newdir, newname));
  }

  /** Putting both nodes of an exchange back, each in the other's place. */
  lemma PlaceBothKeeps(s: Cache, id: HoldId, a: Option<Ino>, id': HoldId, b: Option<Ino>, oldname: string,
      newname: string)
    requires CacheInv(s) && Owns(s, id, a) && Owns(s, id', b) && id != id'
    requires a.Some? ==> a.value in s.t && s.t[a.value].Detached?
    requires b.Some? ==> b.value in s.t && s.t[b.value].Detached?
    requires var olddir, newdir := s.holds[id].leaf, s.holds[id'].leaf;
             (olddir, oldname) != (newdir, newname) && (olddir, oldname) !in s.names && (newdir, newname) !in s.names
    ensures var olddir, newdir := s.holds[id].leaf, s.holds[id'].leaf;
            var s3 := if a.Some? then Hash(s, a.value, newdir, newname) else s;
            var s4 := if b.Some? then Hash(s3, b.value, olddir, oldname) else s3;
            Keeps(s, s4) && s4.t == Relinked(Relinked(s.t, a, Linked(newdir, newname)), b, Linked(olddir, oldname))
  {
    var olddir, newdir := s.holds[id].leaf, s.holds[id'].leaf;
    var s3 := if a.Some? then Hash(s, a.value, newdir, newname) else s;
    if a.Some? {
      WrittenIsOnNoChain(s, id, id');
    }
    PlaceKeeps(s, id, a, id', newname);
    PlaceKeeps(s3, id', b, id, oldname);
    KeepsTrans(s, s3, if b.Some? then Hash(s3, b.value, olddir, oldname) else s3);
  }

  lemma RelinkedTwice(t: Links, a: Option<Ino>, b: Option<Ino>, l: Link, l': Link)
    ensures Relinked(Relinked(Relinked(Relinked(t, a, Detached), b, Detached), a, l), b, l') ==
              Relinked(Relinked(t, a, l), b, l')
  {
  }

  /** An exchange puts each bound node at the other's place and nothing else moves. */
  lemma ExchangeKeeps(s: Cache, id: HoldId, id': HoldId, olddir: Ino, oldname: string, newdir: Ino, newname: string)
    requires CacheInv(s) && Owns(s, id, Lookup(s, olddir, oldname)) && Owns(s, id', Lookup(s, newdir, newname))
    requires s.holds[id].leaf == olddir && s.holds[id'].leaf == newdir && id != id'
    requires (olddir, oldname) != (newdir, newname)
    ensures var s' := ExchangeNode(s, olddir, oldname, newdir, newname);
            var oldnode, newnode := Lookup(s, olddir, oldname), Lookup(s, newdir, newname);
            && Keeps(s, s')
            && s'.t == Relinked(Relinked(s.t, oldnode, Linked(newdir, newname)), newnode, Linked(olddir, oldname))
  {
    var oldnode, newnode := Lookup(s, olddir, oldname), Lookup(s, newdir, newname);
    var s2 := RemoveNode(RemoveNode(s, olddir, oldname), newdir, newname);
    RemoveBothKeeps(s, id, id', olddir, oldname, newdir, newname);
    PlaceBothKeeps(s2, id, oldnode, id', newnode, oldname, newname);
    RelinkedTwice(s.t, oldnode, newnode, Linked(newdir, newname), Linked(olddir, oldname));
    KeepsTrans(s, s2, ExchangeNode(s, olddir, oldname, newdir, newname));
  }

  /** A node linked under a held leaf has the root at the end of its climb. */
  lemma UnderHeldLeaf(s: Cache, n: Ino, id: HoldId)
    requires CacheInv(s) && id in s.holds && n in s.t && n != ROOT && s.t[n].Linked? && s.t[n].dir == s.holds[id].leaf
    ensures Top(s.t, n) == ROOT
  {
    assert HoldRooted(s.t, s.holds[id]);
    TopOfChild(s.t, n);
  }

  // ---------------------------------------------------------------- nodes that come and go

  /** The cache side of `find_node` when the name is new: `hash_name` and `hash_id` of a fresh node. */
  function AddNode(s: Cache, n: Ino, dir: Ino, name: string): Cache {
    s.(t := s.t[n := Linked(dir, name)], names := s.names[(dir, name) := n], lk := s.lk[n := 0])
  }

  /** `delete_node` */
  function DeleteNode(s: Cache, n: Ino): Cache
    requires n in s.t
  {
    var s' := Unhash(s, n);
    s'.(t := s'.t - {n}, lk := s'.lk - {n})
  }

  /** The held chains stay, and so does what is held; counters of nodes that stay do not change. */
  ghost predicate Steady(s: Cache, s': Cache) {
    && CacheInv(s) && CacheInv(s')
    && s'.holds == s.holds && GrantsOf(s') == GrantsOf(s)
    && (forall n | n in s.lk && n in s'.lk :: s'.lk[n] == s.lk[n])
    && ChainsKept(s, s')
  }

  lemma GrantsInTree(s: Cache, n: Ino)
    requires Acyclic(s.t) && HoldsRooted(s) && n !in s.t
    ensures forall id | id in s.holds :: n !in GrantsOf(s)[id].rd && s.holds[id].w != Some(n)
  {
    forall id | id in s.holds
      ensures n !in GrantsOf(s)[id].rd && s.holds[id].w != Some(n)
    {
      assert HoldRooted(s.t, s.holds[id]);
      ChainSetInTree(s.t, s.holds[id].leaf);
    }
  }

  lemma AddNodeKeeps(s: Cache, n: Ino, dir: Ino, name: string)
    requires CacheInv(s) && n !in s.t && dir in s.t && (dir, name) !in s.names
    ensures Steady(s, AddNode(s, n, dir, name))
  {
    hide Acyclic, NamesAgree, Accounted;
    RootCached(s);
    GrantsInTree(s, n);
    FreshKeepsAccount(s.lk, GrantsOf(s), n);
    RelinkKeepsChains(s, n, s.t[n := Linked(dir, name)]);
    FreshAcyclic(s.t, n, dir, name);
    AddedNames(s, n, dir, name);
  }

  lemma RootCached(s: Cache)
    requires CacheInv(s)
    ensures ROOT in s.t
  {
  }

  lemma AddedNames(s: Cache, n: Ino, dir: Ino, name: string)
    requires NamesAgree(s.t, s.names) && ROOT in s.t && n !in s.t && (dir, name) !in s.names
    ensures NamesAgree(AddNode(s, n, dir, name).t, AddNode(s, n, dir, name).names)
  {
  }

  /** The new node is found under its name and is not locked; all other names are as before. */
  lemma AddedIsFound(s: Cache, n: Ino, dir: Ino, name: string, d: Ino, m: string)
    requires CacheInv(s) && n !in s.t && dir in s.t && (dir, name) !in s.names
    ensures var s' := AddNode(s, n, dir, name);
            && Lookup(s', d, m) == (if (d, m) == (dir, name) then Some(n) else Lookup(s, d, m))
            && s'.t.Keys == s.t.Keys + {n} && s'.t[n] == Linked(dir, name) && n in s'.lk && s'.lk[n] == 0
  {
  }

  /** A deleted node is found under no name; all other names are as before. */
  lemma DeletedIsGone(s: Cache, n: Ino, d: Ino, m: string)
    requires CacheInv(s) && n in s.t
    ensures var s' := DeleteNode(s, n);
            && Lookup(s', d, m) == (if Lookup(s, d, m) == Some(n) then None else Lookup(s, d, m))
            && s'.t.Keys == s.t.Keys - {n} && s'.lk.Keys == s.lk.Keys - {n}
  {
    hide Acyclic, Accounted, HoldsRooted;
    assert Lookup(s, d, m) == Some(n) ==> s.t[n] == Linked(d, m);
  }

  /** A node that is nobody's parent can leave the tree. */
  lemma RemoveLeafKeepsAcyclic(t: Links, n: Ino)
    requires Acyclic(t) && n in t && n != ROOT && forall m | m in t && t[m].Linked? :: t[m].dir != n
    ensures Acyclic(t - {n})
  {
    var t' := t - {n};
    forall m | m in t'
      ensures Grounded(t', m)
    {
      var c, top := Chain(t, m), Top(t, m);
      ClimbsInTree(t, m, c, top);
      forall i | 0 <= i < |c|
        ensures c[i] != n
      {
        if i > 0 {
          var j := i - 1;
          assert t[c[j]].dir == c[i];
        }
      }
      ClimbsFrame(t, t', m, c, top);
      assert ClimbEnds(t', m, c, top);
    }
  }

  lemma DropLeafKeeps(s: Cache, n: Ino)
    requires CacheInv(s) && n in s.t && n != ROOT && s.t[n].Detached? && s.lk[n] == 0
    requires forall m | m in s.t && s.t[m].Linked? :: s.t[m].dir != n
    ensures Steady(s, s.(t := s.t - {n}, lk := s.lk - {n}))
  {
    FreeIsUnmentioned(s.lk, GrantsOf(s), n);
    FreshKeepsAccount(s.lk, GrantsOf(s), n);
    assert forall id | id in s.holds :: GrantsOf(s)[id].w == s.holds[id].w;
    RelinkKeepsChains(s, n, s.t - {n});
    assert Acyclic(s.t - {n}) by {
      RemoveLeafKeepsAcyclic(s.t, n);
    }
  }

  /** The assertion of `delete_node` is enough to keep every held chain and every counter. */
  lemma DeleteNodeKeeps(s: Cache, n: Ino)
    requires CacheInv(s) && n in s.t && n != ROOT && s.lk[n] == 0
    requires forall m | m in s.t && s.t[m].Linked? :: s.t[m].dir != n
    ensures Steady(s, DeleteNode(s, n))
  {
    FreeIsUnmentioned(s.lk, GrantsOf(s), n);
    UnhashKeeps(s, n);
    DropLeafKeeps(Unhash(s, n), n);
    SteadyTrans(s, Unhash(s, n), DeleteNode(s, n));
  }

  lemma SteadyTrans(s: Cache, s': Cache, s'': Cache)
    requires Keeps(s, s') && Steady(s', s'')
    ensures Steady(s, s'')
  {
    forall id | id in s.holds
      ensures ClimbKept(s.t, s''.t, s.holds[id].leaf)
    {
      assert ClimbKept(s.t, s'.t, s.holds[id].leaf) && ClimbKept(s'.t, s''.t, s'.holds[id].leaf);
    }
  }
}
