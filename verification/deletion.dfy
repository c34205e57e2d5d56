/**
  Where the two models of the inode cache meet: what the operations of `node_refs.dfy` do to the cache
  are steps of the system of `requests.dfy`, a freed node one `Delete` each; so the reference counts
  say when a node may be deleted, and the locks that nobody has it locked then.
 */
module Deletion {
  import opened Wrappers
  import opened Lists
  import opened Tree
  import P = PathLocks
  import R = NodeRefs
  import opened LockCounts
  import opened LockQueue
  import opened Requests
  import opened Runs

  /** The lookups of "." that are in progress at n. */
  ghost function DotsAt(open: map<ReqId, Ino>, n: Ino): set<ReqId> {
    set r | r in open && open[r] == n
  }

  ghost predicate DotsCounted(dots: multiset<Ino>, open: map<ReqId, Ino>) {
    forall n {:trigger dots[n]} :: dots[n] == |DotsAt(open, n)|
  }

  ghost predicate SameLookups(c: R.Cache, k: Refs) {
    k.nlookup.Keys == c.nodes.Keys && forall n | n in c.nodes :: k.nlookup[n] == c.nodes[n].nlookup
  }

  /** The same nodes, names, lookups of the kernel and lookups of "." */
  ghost predicate SameCache(c: R.Cache, s: State) {
    R.LinksOf(c.nodes) == s.c.t && c.names == s.c.names && SameLookups(c, s.k) && DotsCounted(c.dots, s.k.dots)
  }

  /** A cache as the kernel's first request finds it, in both models. */
  lemma InitSame(c: R.Cache, s: State)
    requires Init(s) && c == R.Cache(map[ROOT := R.Inode(1, 1, 0, Detached)], map[], multiset{})
    ensures SameCache(c, s) && Inv(s)
  {
    InitInv(s);
    assert R.LinksOf(c.nodes) == map[ROOT := Detached];
    forall n
      ensures DotsAt(s.k.dots, n) == {}
    {
    }
  }

  // ---------------------------------------------------------------- when a node may be deleted

  lemma DotsIff(c: R.Cache, s: State, n: Ino)
    requires SameCache(c, s)
    ensures n in c.dots <==> n in s.k.dots.Values
  {
    assert c.dots[n] == |DotsAt(s.k.dots, n)|;
    if n in s.k.dots.Values {
      var r :| r in s.k.dots && s.k.dots[r] == n;
      assert r in DotsAt(s.k.dots, n);
    } else {
      assert DotsAt(s.k.dots, n) == {};
    }
  }

  /** A node is without references exactly when the step system lets it be deleted. */
  lemma UnreferencedIff(c: R.Cache, s: State, n: Ino)
    requires R.NamesMatch(c) && SameCache(c, s) && n in c.nodes && n != ROOT
    ensures R.Unreferenced(c, n) <==> CanDelete(s, n)
  {
    DotsIff(c, s, n);
    if R.Unreferenced(c, n) {
      R.NobodysParent(c, n);
      forall m | m in s.c.t && s.c.t[m].Linked?
        ensures s.c.t[m].dir != n
      {
        assert s.c.t[m] == R.LinksOf(c.nodes)[m] == c.nodes[m].link;
      }
    }
    if CanDelete(s, n) {
      forall k | k in c.names
        ensures k.0 != n
      {
        assert c.nodes[c.names[k]].link == R.LinksOf(c.nodes)[c.names[k]] == s.c.t[c.names[k]];
      }
    }
  }

  /** The assertion of `delete_node` holds whenever a reference count has dropped to zero. */
  lemma ZeroCountIsUnlocked(c: R.Cache, s: State, n: Ino)
    requires R.NamesMatch(c) && SameCache(c, s) && Inv(s) && n in c.nodes && n != ROOT && R.References(c, n) == 0
    ensures n in s.c.lk && s.c.lk[n] == 0
  {
    hide Inv, CanDelete, R.Unreferenced, R.References;
    R.NoReferences(c, n);
    UnreferencedIff(c, s, n);
    DeleteIsSafe(s, n);
  }

  // ---------------------------------------------------------------- lookups

  /** `find_node` of a known node */
  lemma TouchFollows(c: R.Cache, s: State, n: Ino)
    requires n in c.nodes && SameCache(c, s) && Enabled(s, Touch(n))
    ensures SameCache(R.LookedUp(c, n), Next(s, Touch(n)))
  {
    hide Kernel, DotsCounted;
    assert R.LinksOf(R.LookedUp(c, n).nodes) == R.LinksOf(c.nodes);
  }

  /** `find_node` of a new name */
  lemma CreateFollows(c: R.Cache, s: State, n: Ino, dir: Ino, name: string, generation: nat)
    requires dir in c.nodes && SameCache(c, s) && Enabled(s, Create(n, dir, name))
    ensures SameCache(R.LookedUp(R.Named(R.Allocated(c, n, generation), n, dir, name), n),
                      Next(s, Create(n, dir, name)))
  {
    hide Kernel, DotsCounted;
    var c' := R.LookedUp(R.Named(R.Allocated(c, n, generation), n, dir, name), n);
    assert n !in R.LinksOf(c.nodes) && dir != n;
    assert R.LinksOf(c'.nodes) == R.LinksOf(c.nodes)[n := Linked(dir, name)];
  }

  lemma OneDotMore(dots: multiset<Ino>, open: map<ReqId, Ino>, r: ReqId, n: Ino)
    requires DotsCounted(dots, open) && r !in open
    ensures DotsCounted(dots + multiset{n}, open[r := n])
  {
    hide DotsAt;
    forall m
      ensures (dots + multiset{n})[m] == |DotsAt(open[r := n], m)|
    {
      assert dots[m] == |DotsAt(open, m)|;
      DotsAtWith(open, r, n, m);
    }
  }

  lemma DotsAtWith(open: map<ReqId, Ino>, r: ReqId, n: Ino, m: Ino)
    requires r !in open
    ensures |DotsAt(open[r := n], m)| == |DotsAt(open, m)| + if m == n then 1 else 0
  {
    assert DotsAt(open[r := n], m) == DotsAt(open, m) + if m == n then {r} else {};
  }

  lemma DotsAtWithout(open: map<ReqId, Ino>, r: ReqId, m: Ino)
    requires r in open
    ensures |DotsAt(open - {r}, m)| == |DotsAt(open, m)| - if m == open[r] then 1 else 0
    ensures r in DotsAt(open, open[r])
  {
    assert r in DotsAt(open, open[r]);
    assert DotsAt(open - {r}, m) == DotsAt(open, m) - if m == open[r] then {r} else {};
  }

  lemma OneDotLess(dots: multiset<Ino>, open: map<ReqId, Ino>, r: ReqId)
    requires DotsCounted(dots, open) && r in open
    ensures DotsCounted(dots - multiset{open[r]}, open - {r})
  {
    hide DotsAt;
    var n := open[r];
    forall m
      ensures (dots - multiset{n})[m] == |DotsAt(open - {r}, m)|
    {
      assert dots[m] == |DotsAt(open, m)|;
      DotsAtWithout(open, r, m);
      assert m == n ==> |DotsAt(open, m)| > 0;
    }
  }

  /** The start of a lookup of "." */
  lemma TakeDotFollows(c: R.Cache, s: State, r: ReqId, n: Ino)
    requires n in c.nodes && SameCache(c, s) && Enabled(s, TakeDot(r, n))
    ensures SameCache(R.WithDot(c, n), Next(s, TakeDot(r, n)))
  {
    hide Kernel, DotsCounted;
    OneDotMore(c.dots, s.k.dots, r, n);
    assert R.LinksOf(R.WithDot(c, n).nodes) == R.LinksOf(c.nodes);
  }

  // ---------------------------------------------------------------- names

  /** The same links and the same names */
  ghost predicate SameTree(a: P.Cache, b: P.Cache) {
    a.t == b.t && a.names == b.names
  }

  // The changes of the tree read nothing but the tree.

  lemma RemoveReadsTree(a: P.Cache, b: P.Cache, dir: Ino, name: string)
    requires SameTree(a, b)
    ensures SameTree(P.RemoveNode(a, dir, name), P.RemoveNode(b, dir, name))
  {
  }

  lemma RehashReadsTree(a: P.Cache, b: P.Cache, n: Ino, dir: Ino, name: string)
    requires SameTree(a, b)
    ensures n in a.t ==> SameTree(P.Unhash(a, n), P.Unhash(b, n))
    ensures SameTree(P.Hash(a, n, dir, name), P.Hash(b, n, dir, name))
  {
  }

  lemma RenameReadsTree(a: P.Cache, b: P.Cache, olddir: Ino, oldname: string, newdir: Ino, newname: string,
      hiding: bool)
    requires SameTree(a, b)
    ensures SameTree(P.RenameNode(a, olddir, oldname, newdir, newname, hiding),
                     P.RenameNode(b, olddir, oldname, newdir, newname, hiding))
  {
    hide P.Hash, P.Unhash, P.RemoveNode;
    var a1, b1 := P.RemoveNode(a, newdir, newname), P.RemoveNode(b, newdir, newname);
    RemoveReadsTree(a, b, newdir, newname);
    if (olddir, oldname) in a.names {
      var n := a.names[(olddir, oldname)];
      RehashReadsTree(a1, b1, n, newdir, newname);
      if n in a1.t {
        RehashReadsTree(P.Unhash(a1, n), P.Unhash(b1, n), n, newdir, newname);
      }
    }
  }

  lemma ExchangeReadsTree(a: P.Cache, b: P.Cache, olddir: Ino, oldname: string, newdir: Ino, newname: string)
    requires SameTree(a, b)
    ensures SameTree(P.ExchangeNode(a, olddir, oldname, newdir, newname),
                     P.ExchangeNode(b, olddir, oldname, newdir, newname))
  {
    hide P.Hash, P.Unhash;
    var oldnode, newnode := P.Lookup(a, olddir, oldname), P.Lookup(a, newdir, newname);
    var a1 := if oldnode.Some? && oldnode.value in a.t then P.Unhash(a, oldnode.value) else a;
    var b1 := if oldnode.Some? && oldnode.value in b.t then P.Unhash(b, oldnode.value) else b;
    if oldnode.Some? {
      RehashReadsTree(a, b, oldnode.value, newdir, newname);
    }
    if newnode.Some? {
      RehashReadsTree(a1, b1, newnode.value, olddir, oldname);
    }
    var a2 := if newnode.Some? && newnode.value in a1.t then P.Unhash(a1, newnode.value) else a1;
    var b2 := if newnode.Some? && newnode.value in b1.t then P.Unhash(b1, newnode.value) else b1;
    if oldnode.Some? {
      RehashReadsTree(a2, b2, oldnode.value, newdir, newname);
    }
    var a3 := if oldnode.Some? then P.Hash(a2, oldnode.value, newdir, newname) else a2;
    var b3 := if oldnode.Some? then P.Hash(b2, oldnode.value, newdir, newname) else b2;
    if newnode.Some? {
      RehashReadsTree(a3, b3, newnode.value, olddir, oldname);
    }
  }

  lemma SameAfter(c: R.Cache, s: State, c': R.Cache, p: P.Cache)
    requires SameCache(c, s) && R.SameReferences(c, c') && SameTree(R.TreeOf(c'), p)
    ensures SameCache(c', s.(c := p))
  {
  }

  lemma TreesAgree(c: R.Cache, s: State)
    requires SameCache(c, s)
    ensures SameTree(R.TreeOf(c), s.c)
  {
  }

  lemma CacheIsTree(s: State, t: Links)
    requires Inv(s) && s.c.t == t
    ensures Acyclic(t)
  {
  }

  /** The directory of a running request's path is referenced. */
  lemma DirReferenced(c: R.Cache, s: State, r: ReqId, which: Which)
    requires Binds(s, r, which) && R.Inv(c) && Inv(s) && SameCache(c, s)
    ensures R.Referenced(c, PathOf(s.active[r], which).dir)
  {
    hide Inv, R.Inv, R.NamesMatch, P.Owns;
    BoundIsKnown(s, r, which);
    R.InvMatches(c);
    KnownIsReferenced(c, s, PathOf(s.active[r], which).dir);
  }

  lemma KnownIsReferenced(c: R.Cache, s: State, n: Ino)
    requires R.NamesMatch(c) && SameCache(c, s) && Known(s.k, n)
    ensures R.Referenced(c, n)
  {
  }

  /** `remove_node` of a request that holds its path is one step. */
  lemma RemoveFollows(c: R.Cache, s: State, r: ReqId, p: P.Path, c': R.Cache)
    requires r in s.active && s.active[r].p1 == p && SameCache(c, s) && Enabled(s, Remove(r))
    requires R.TreeOf(c') == P.RemoveNode(R.TreeOf(c), p.dir, p.name) && R.SameReferences(c, c')
    ensures SameCache(c', Next(s, Remove(r)))
  {
    hide P.RemoveNode, Kernel, SameCache, R.SameReferences, P.Owns;
    TreesAgree(c, s);
    RemoveReadsTree(R.TreeOf(c), s.c, p.dir, p.name);
    SameAfter(c, s, c', RemovedBy(s.c, s.active[r]));
  }

  /** Its directory is referenced, so that nothing is freed. */
  lemma MayRemove(c: R.Cache, s: State, r: ReqId, p: P.Path)
    requires r in s.active && s.active[r].p1 == p && R.Inv(c) && Inv(s) && SameCache(c, s) && Enabled(s, Remove(r))
    ensures R.Referenced(c, p.dir)
  {
    hide Inv, R.Inv, Kernel, SameCache, R.Referenced, P.Owns;
    DirReferenced(c, s, r, First);
  }

  /** `rename_node` of a request that holds both paths is one step. */
  lemma RenameFollows(c: R.Cache, s: State, r: ReqId, p1: P.Path, p2: P.Path, c': R.Cache)
    requires r in s.active && s.active[r] == Job(p1, Some(p2)) && SameCache(c, s) && Enabled(s, Rename(r))
    requires R.TreeOf(c') == P.RenameNode(R.TreeOf(c), p1.dir, p1.name, p2.dir, p2.name, false)
             && R.SameReferences(c, c')
    ensures SameCache(c', Next(s, Rename(r)))
  {
    hide P.RenameNode, Kernel, SameCache, R.SameReferences, P.Owns;
    TreesAgree(c, s);
    RenameReadsTree(R.TreeOf(c), s.c, p1.dir, p1.name, p2.dir, p2.name, false);
    SameAfter(c, s, c', RenamedBy(s.c, s.active[r]));
  }

  /** What `rename_node` relies on holds for such a request. */
  lemma MayRename(c: R.Cache, s: State, r: ReqId, p1: P.Path, p2: P.Path)
    requires r in s.active && s.active[r] == Job(p1, Some(p2)) && R.Inv(c) && Inv(s) && SameCache(c, s)
             && Enabled(s, Rename(r))
    ensures R.Referenced(c, p1.dir) && R.Referenced(c, p2.dir)
    ensures Acyclic(P.RenameNode(R.TreeOf(c), p1.dir, p1.name, p2.dir, p2.name, false).t)
  {
    hide P.RenameNode, Inv, R.Inv, Kernel, SameCache, R.Referenced, Acyclic, P.Owns;
    DirReferenced(c, s, r, First);
    DirReferenced(c, s, r, Second);
    TreesAgree(c, s);
    RenameReadsTree(R.TreeOf(c), s.c, p1.dir, p1.name, p2.dir, p2.name, false);
    StepKeeps(s, Rename(r));
    CacheIsTree(Next(s, Rename(r)), P.RenameNode(R.TreeOf(c), p1.dir, p1.name, p2.dir, p2.name, false).t);
  }

  /** `rename_node` as `hide_node` calls it */
  lemma HideFollows(c: R.Cache, s: State, r: ReqId, which: Which, newname: string, p: P.Path, c': R.Cache)
    requires r in s.active && PathOf(s.active[r], which) == p && SameCache(c, s)
             && Enabled(s, HideName(r, which, newname))
    requires R.TreeOf(c') == P.RenameNode(R.TreeOf(c), p.dir, p.name, p.dir, newname, true) && R.SameReferences(c, c')
    ensures SameCache(c', Next(s, HideName(r, which, newname)))
  {
    hide P.RenameNode, Kernel, SameCache, R.SameReferences, P.Owns;
    TreesAgree(c, s);
    RenameReadsTree(R.TreeOf(c), s.c, p.dir, p.name, p.dir, newname, true);
    SameAfter(c, s, c', HiddenBy(s.c, p, newname));
  }

  lemma MayHide(c: R.Cache, s: State, r: ReqId, which: Which, newname: string, p: P.Path)
    requires r in s.active && PathOf(s.active[r], which) == p && R.Inv(c) && Inv(s) && SameCache(c, s)
    requires Enabled(s, HideName(r, which, newname))
    ensures R.Referenced(c, p.dir) && Acyclic(P.RenameNode(R.TreeOf(c), p.dir, p.name, p.dir, newname, true).t)
  {
    hide P.RenameNode, Inv, R.Inv, Kernel, SameCache, R.Referenced, Acyclic, P.Owns;
    DirReferenced(c, s, r, which);
    TreesAgree(c, s);
    RenameReadsTree(R.TreeOf(c), s.c, p.dir, p.name, p.dir, newname, true);
    StepKeeps(s, HideName(r, which, newname));
    CacheIsTree(Next(s, HideName(r, which, newname)), P.RenameNode(R.TreeOf(c), p.dir, p.name, p.dir, newname, true).t);
  }

  /** `exchange_node` of a request that holds both paths is one step. */
  lemma ExchangeFollows(c: R.Cache, s: State, r: ReqId, p1: P.Path, p2: P.Path, c': R.Cache)
    requires r in s.active && s.active[r] == Job(p1, Some(p2)) && SameCache(c, s) && Enabled(s, Exchange(r))
    requires R.TreeOf(c') == P.ExchangeNode(R.TreeOf(c), p1.dir, p1.name, p2.dir, p2.name) && R.SameReferences(c, c')
    ensures SameCache(c', Next(s, Exchange(r)))
  {
    hide P.ExchangeNode, Kernel, SameCache, R.SameReferences, P.Owns;
    TreesAgree(c, s);
    ExchangeReadsTree(R.TreeOf(c), s.c, p1.dir, p1.name, p2.dir, p2.name);
    SameAfter(c, s, c', ExchangedBy(s.c, s.active[r]));
  }

  /** That the two names differ, if there is anything to exchange, comes from the locks. */
  lemma MayExchange(c: R.Cache, s: State, r: ReqId, p1: P.Path, p2: P.Path)
    requires r in s.active && s.active[r] == Job(p1, Some(p2)) && R.Inv(c) && Inv(s) && SameCache(c, s)
             && Enabled(s, Exchange(r))
    ensures R.Referenced(c, p1.dir) && R.Referenced(c, p2.dir)
    ensures Acyclic(P.ExchangeNode(R.TreeOf(c), p1.dir, p1.name, p2.dir, p2.name).t)
    ensures (p1.dir, p1.name) in c.names ==> (p1.dir, p1.name) != (p2.dir, p2.name)
  {
    hide P.ExchangeNode, Inv, R.Inv, Kernel, SameCache, R.Referenced, Acyclic, P.CacheInv;
    DirReferenced(c, s, r, First);
    DirReferenced(c, s, r, Second);
    TreesAgree(c, s);
    ExchangeReadsTree(R.TreeOf(c), s.c, p1.dir, p1.name, p2.dir, p2.name);
    StepKeeps(s, Exchange(r));
    CacheIsTree(Next(s, Exchange(r)), P.ExchangeNode(R.TreeOf(c), p1.dir, p1.name, p2.dir, p2.name).t);
    InvCache(s);
    if (p1.dir, p1.name) in s.c.names {
      P.WrittenIsOnNoChain(s.c, HoldId(r, First), HoldId(r, Second));
    }
  }

  // ---------------------------------------------------------------- freeing

  /** From q, deleting the nodes of ns in this order leads to q'. */
  ghost predicate DeletesTo(q: State, ns: seq<Ino>, q': State)
    decreases |ns|
  {
    if ns == [] then q' == q
    else Enabled(q, Delete(ns[0])) && DeletesTo(Next(q, Delete(ns[0])), ns[1..], q')
  }

  /** Deleting exactly the nodes of gone, each once, leads to a state of the cache c. */
  ghost predicate Prunes(q: State, gone: set<Ino>, c: R.Cache) {
    exists ns, q' :: DeletesTo(q, ns, q') && SameCache(c, q') && Inv(q') && |ns| == |gone| && gone == set n | n in ns
  }

  /** The cache without node n and its name. */
  ghost function OneFreed(c: R.Cache, n: Ino): R.Cache
    requires n in c.nodes
  {
    var l := c.nodes[n].link;
    c.(nodes := c.nodes - {n}, names := if l.Linked? then c.names - {(l.dir, l.name)} else c.names)
  }

  lemma DeleteFollows(c: R.Cache, s: State, n: Ino)
    requires SameCache(c, s) && n in c.nodes && Enabled(s, Delete(n))
    ensures SameCache(OneFreed(c, n), Next(s, Delete(n)))
  {
    hide Kernel, DotsCounted, CanDelete, P.DeleteNode;
    DeletedTree(s.c, n);
    assert R.LinksOf(c.nodes)[n] == c.nodes[n].link;
    assert R.LinksOf(OneFreed(c, n).nodes) == R.LinksOf(c.nodes) - {n};
  }

  lemma DeletedTree(c: P.Cache, n: Ino)
    requires n in c.t
    ensures var c' := P.DeleteNode(c, n);
            && c'.t == c.t - {n}
            && c'.names == if c.t[n].Linked? then c.names - {(c.t[n].dir, c.t[n].name)} else c.names
  {
  }

  lemma OneFreedMatches(c: R.Cache, n: Ino)
    requires R.NamesMatch(c) && n in c.nodes && c.nodes[n].nlookup == 0 && forall k | k in c.names :: k.0 != n
    ensures R.NamesMatch(OneFreed(c, n))
  {
    R.OnlyName(c, n);
  }

  lemma OneFreedPruned(a: R.Cache, b: R.Cache, gone: set<Ino>, n: Ino)
    requires R.NamesMatch(a) && R.Pruned(a, b, gone) && n in gone
    ensures n in a.nodes && R.Pruned(OneFreed(a, n), b, gone - {n})
  {
    var a' := OneFreed(a, n);
    R.OnlyName(a, n);
    forall m | m in b.nodes
      ensures m in a'.nodes && R.SameButCount(a'.nodes[m], b.nodes[m])
    {
      assert R.SameButCount(a.nodes[m], b.nodes[m]);
    }
  }

  lemma ChildFreed(a: R.Cache, b: R.Cache, gone: set<Ino>, k: (Ino, string))
    requires R.NamesMatch(a) && R.NamesMatch(b) && R.Pruned(a, b, gone) && k in a.names && k.0 in gone
    ensures a.names[k] in gone && a.names[k] in a.nodes && a.nodes[a.names[k]].link == Linked(k.0, k.1)
  {
  }

  /** Below a node that is freed every node is freed, and the deepest has nothing below it. */
  lemma {:induction false} DeepestFreed(a: R.Cache, b: R.Cache, gone: set<Ino>, n: Ino)
    requires R.NamesMatch(a) && R.NamesMatch(b) && R.Pruned(a, b, gone) && n in gone && Acyclic(R.LinksOf(a.nodes))
    ensures exists m :: m in gone && forall k | k in a.names :: k.0 != m
    decreases |a.nodes| - |Chain(R.LinksOf(a.nodes), n)|
  {
    hide Acyclic;
    if k :| k in a.names && k.0 == n {
      var child, t := a.names[k], R.LinksOf(a.nodes);
      assert t[child] == a.nodes[child].link;
      ChildFreed(a, b, gone, k);
      R.NamedNotRoot(a, child);
      TopOfChild(t, child);
      R.ChainShort(a, child);
      DeepestFreed(a, b, gone, child);
    }
  }

  /** What the kernel guarantees about waiting requests survives the deletion of an unreferenced node. */
  lemma KernelAfterDelete(s: State, n: Ino)
    requires Kernel(s) && CanDelete(s, n)
    ensures Kernel(Next(s, Delete(n)))
  {
    var s' := Next(s, Delete(n));
    forall i | 0 <= i < |s.q|
      ensures ElemReady(s'.c, s'.k, s.q[i])
    {
      var e := s.q[i];
      assert ElemReady(s.c, s.k, e);
      if e.Elem? {
        PathAfterDelete(s, n, e.req, e.p1);
        if e.p2.Some? {
          PathAfterDelete(s, n, e.req, e.p2.value);
        }
      }
    }
  }

  lemma PathAfterDelete(s: State, n: Ino, r: ReqId, p: P.Path)
    requires CanDelete(s, n) && PathReady(s.c, s.k, r, p)
    ensures PathReady(P.DeleteNode(s.c, n), s.k.(nlookup := s.k.nlookup - {n}), r, p)
  {
  }

  /** What an operation has freed, the step system can delete, one node after the other. */
  lemma {:induction false} PrunedFollows(a: R.Cache, b: R.Cache, gone: set<Ino>, q: State)
    requires R.NamesMatch(a) && R.NamesMatch(b) && R.Pruned(a, b, gone)
    requires SameCache(a, q) && Inv(q) && Kernel(q)
    ensures Prunes(q, gone, b)
    decreases |gone|
  {
    hide R.NamesMatch, R.Pruned, SameCache, Inv, Kernel, CanDelete, Next, OneFreed, R.Unreferenced, Prunes;
    if gone == {} {
      PrunedSame(a, b, q);
      PrunesNothing(q, b);
    } else {
      var m := NextFreed(a, b, gone, q);
      StepKeeps(q, Delete(m));
      KernelAfterDelete(q, m);
      DeleteFollows(a, q, m);
      OneFreedMatches(a, m);
      OneFreedPruned(a, b, gone, m);
      PrunedFollows(OneFreed(a, m), b, gone - {m}, Next(q, Delete(m)));
      PrunesOneMore(q, m, gone, b);
    }
  }

  /** One of the freed nodes can be deleted first. */
  lemma NextFreed(a: R.Cache, b: R.Cache, gone: set<Ino>, q: State) returns (m: Ino)
    requires R.NamesMatch(a) && R.NamesMatch(b) && R.Pruned(a, b, gone) && gone != {}
    requires SameCache(a, q) && Inv(q)
    ensures m in gone && m in a.nodes && a.nodes[m].nlookup == 0 && CanDelete(q, m)
    ensures forall k | k in a.names :: k.0 != m
  {
    hide R.NamesMatch, R.Pruned, SameCache, Inv, CanDelete, R.Unreferenced;
    var n :| n in gone;
    FreedIsUnreferenced(a, b, gone, q, n);
    DeepestFreed(a, b, gone, n);
    m :| m in gone && forall k | k in a.names :: k.0 != m;
    FreedIsUnreferenced(a, b, gone, q, m);
    UnreferencedIff(a, q, m);
  }

  lemma PrunesNothing(q: State, c: R.Cache)
    requires SameCache(c, q) && Inv(q)
    ensures Prunes(q, {}, c)
  {
    hide SameCache, Inv;
    var none: seq<Ino> := [];
    assert DeletesTo(q, none, q) && {} == set n | n in none;
  }

  lemma PrunesOneMore(q: State, m: Ino, gone: set<Ino>, c: R.Cache)
    requires m in gone && Enabled(q, Delete(m)) && Prunes(Next(q, Delete(m)), gone - {m}, c)
    ensures Prunes(q, gone, c)
  {
    hide SameCache, Inv, Enabled, Next;
    var q1 := Next(q, Delete(m));
    var ns, q' :| DeletesTo(q1, ns, q') && SameCache(c, q') && Inv(q') && |ns| == |gone - {m}|
          && gone - {m} == set x | x in ns;
    var ns' := [m] + ns;
    assert ns'[1..] == ns && DeletesTo(q, ns', q');
    assert (set x | x in ns') == (gone - {m}) + {m};
  }

  lemma PrunedSame(a: R.Cache, b: R.Cache, q: State)
    requires SameCache(a, q) && R.Pruned(a, b, {})
    ensures SameCache(b, q)
  {
    R.PrunedNone(a, b);
    TreesAgree(a, q);
    assert R.TreeOf(b) == R.TreeOf(a);
    SameAfter(a, q, b, q.c);
    assert q.(c := q.c) == q;
  }

  lemma FreedIsUnreferenced(a: R.Cache, b: R.Cache, gone: set<Ino>, q: State, m: Ino)
    requires R.NamesMatch(a) && R.Pruned(a, b, gone) && m in gone && SameCache(a, q) && Inv(q)
    ensures m in a.nodes && m != ROOT && a.nodes[m].nlookup == 0 && Acyclic(R.LinksOf(a.nodes))
    ensures (forall k | k in a.names :: k.0 != m) ==> R.Unreferenced(a, m)
  {
  }

  /** `forget_node`: a `Forget`, and then a `Delete` for every node that it frees. */
  lemma ForgetFollows(c: R.Cache, s: State, n: Ino, count: nat, c': R.Cache)
    requires n in c.nodes && count <= c.nodes[n].nlookup && c.nodes[n].nlookup > 0
    requires Enabled(s, Forget(n, count)) && Kernel(Next(s, Forget(n, count)))
    requires R.Inv(c) && R.Inv(c') && Inv(s) && SameCache(c, s)
    requires R.Pruned(R.Forgotten(c, n, count), c', c.nodes.Keys - c'.nodes.Keys)
    ensures Prunes(Next(s, Forget(n, count)), c.nodes.Keys - c'.nodes.Keys, c')
  {
    hide R.Inv, R.NamesMatch, R.Pruned, Inv, Kernel, Prunes, Acyclic, DotsCounted;
    var a, q := R.Forgotten(c, n, count), Next(s, Forget(n, count));
    assert R.LinksOf(a.nodes) == R.LinksOf(c.nodes);
    R.ForgottenSane(c, n, count);
    R.SaneMatches(a, if a.nodes[n].nlookup == 0 then Some(n) else None);
    R.InvMatches(c');
    StepKeeps(s, Forget(n, count));
    PrunedFollows(a, c', c.nodes.Keys - c'.nodes.Keys, q);
  }

  /** The end of a lookup of ".": a `DropDot`, and then the `Delete`s. */
  lemma DropDotFollows(c: R.Cache, s: State, r: ReqId, c': R.Cache)
    requires r in s.k.dots && Enabled(s, DropDot(r)) && Kernel(Next(s, DropDot(r)))
    requires R.Inv(c) && R.Inv(c') && Inv(s) && SameCache(c, s)
    requires R.Pruned(R.WithoutDot(c, s.k.dots[r]), c', c.nodes.Keys - c'.nodes.Keys)
    ensures s.k.dots[r] in c.dots
    ensures Prunes(Next(s, DropDot(r)), c.nodes.Keys - c'.nodes.Keys, c')
  {
    hide R.Inv, R.NamesMatch, R.Pruned, Inv, Kernel, Prunes, Acyclic, DotsCounted;
    var n := s.k.dots[r];
    var a, q := R.WithoutDot(c, n), Next(s, DropDot(r));
    DotsIff(c, s, n);
    OneDotLess(c.dots, s.k.dots, r);
    R.InvMatches(c);
    R.NoDotMatches(c, n);
    R.InvMatches(c');
    StepKeeps(s, DropDot(r));
    PrunedFollows(a, c', c.nodes.Keys - c'.nodes.Keys, q);
  }
}
