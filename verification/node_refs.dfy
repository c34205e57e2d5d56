/**
  Life and death of cached nodes: reference counts, deletion up the tree, and the ids that nodes
  are given.  A node is referenced by the kernel's lookups, by the names of the nodes below it, and
  by lookups of "." in progress.
 */
module NodeRefs {
  import opened Wrappers
  import opened Lists
  import opened Tree
  import P = PathLocks

  /** FUSE_UNKNOWN_INO */
  const UNKNOWN_INO := 0xffff_ffff
  const WRAP := 0x1_0000_0000

  datatype Inode = Inode(nlookup: nat, refctr: int, generation: nat, link: Link)

  type Nodes = map<Ino, Inode>
  type Names = map<(Ino, string), Ino>

  /** The id table, the name table, and the `dot` variables of the lookups in progress. */
  datatype Cache = Cache(nodes: Nodes, names: Names, dots: multiset<Ino>)

  ghost function LinksOf(nodes: Nodes): Links {
    map n | n in nodes :: nodes[n].link
  }

  ghost function Children(names: Names, n: Ino): set<(Ino, string)> {
    set k | k in names && k.0 == n
  }

  /** The number of references to n there are. */
  ghost function References(s: Cache, n: Ino): nat
    requires n in s.nodes
  {
    (if s.nodes[n].nlookup > 0 then 1 else 0) + |Children(s.names, n)| + s.dots[n]
  }

  ghost predicate Unreferenced(s: Cache, n: Ino)
    requires n in s.nodes
  {
    s.nodes[n].nlookup == 0 && s.dots[n] == 0 && forall k | k in s.names :: k.0 != n
  }

  lemma NoReferences(s: Cache, n: Ino)
    requires n in s.nodes
    ensures References(s, n) == 0 <==> Unreferenced(s, n)
  {
    assert forall k | k in s.names && k.0 == n :: k in Children(s.names, n);
    assert References(s, n) == 0 ==> Children(s.names, n) == {};
    assert Unreferenced(s, n) ==> Children(s.names, n) == {};
  }

  /** The name table holds exactly the named nodes, under their names; the root has none. */
  ghost predicate NamesMatch(s: Cache) {
    && (forall k {:trigger s.names[k]} | k in s.names ::
          s.names[k] in s.nodes && s.nodes[s.names[k]].link == Linked(k.0, k.1) && k.0 in s.nodes)
    && (forall n | n in s.nodes && s.nodes[n].link.Linked? ::
          var k := (s.nodes[n].link.dir, s.nodes[n].link.name); k in s.names && s.names[k] == n)
    && ROOT in s.nodes && s.nodes[ROOT].link == Detached && s.nodes[ROOT].nlookup > 0
  }

  /**
    Within an operation one node may be owed an `unref_node`, and others are dying: their count is
    zero and they are about to be freed.
   */
  ghost predicate CountedAt(s: Cache, owed: Option<Ino>, dying: set<Ino>, n: Ino)
    requires n in s.nodes
  {
    && s.nodes[n].refctr == References(s, n) + (if owed == Some(n) then 1 else 0)
    && (s.nodes[n].refctr == 0 <==> n in dying)
  }

  ghost predicate Sane(s: Cache, owed: Option<Ino>, dying: set<Ino>) {
    && NamesMatch(s)
    && dying <= s.nodes.Keys
    && (owed.Some? ==> owed.value in s.nodes)
    && (forall n {:trigger CountedAt(s, owed, dying, n)} | n in s.nodes :: CountedAt(s, owed, dying, n))
    && (forall n | n in s.dots :: n in s.nodes)
    && Acyclic(LinksOf(s.nodes))
  }

  /** Every count is the number of references, and nothing without references is kept. */
  ghost predicate Inv(s: Cache) {
    Sane(s, None, {})
  }

  lemma NothingRefers(s: Cache, n: Ino)
    requires n in s.nodes
    ensures Unreferenced(s, n) <==>
              s.nodes[n].nlookup == 0 && s.dots[n] == 0 && forall k | k in s.names :: k.0 != n
  {
  }

  /** From s to s', nodes have been freed that only freed nodes referred to; the rest is as it was. */
  ghost predicate Pruned(s: Cache, s': Cache, freed: set<Ino>) {
    && s'.nodes.Keys == s.nodes.Keys - freed
    && (forall n | n in s'.nodes :: SameButCount(s.nodes[n], s'.nodes[n]))
    && (forall n | n in freed :: n in s.nodes && s.nodes[n].nlookup == 0 && s.dots[n] == 0)
    && (forall k | k in s'.names :: k in s.names && s'.names[k] == s.names[k])
    && (forall k | k in s.names :: k in s'.names <==> s.names[k] !in freed)
    && s'.dots == s.dots
  }

  predicate SameButCount(a: Inode, b: Inode) {
    b == a.(refctr := b.refctr)
  }

  /** A set of nodes that contains the parents of its members. */
  ghost predicate UpClosed(nodes: Nodes, up: set<Ino>) {
    forall n | n in up && n in nodes && nodes[n].link.Linked? :: nodes[n].link.dir in up
  }

  // ---------------------------------------------------------------- changing one reference

  lemma ChildrenWithout(names: Names, k: (Ino, string), n: Ino)
    requires k in names
    ensures |Children(names - {k}, n)| == |Children(names, n)| - (if k.0 == n then 1 else 0)
  {
    assert Children(names - {k}, n) == Children(names, n) - {k};
  }

  lemma ChildrenWith(names: Names, k: (Ino, string), m: Ino, n: Ino)
    requires k !in names
    ensures |Children(names[k := m], n)| == |Children(names, n)| + (if k.0 == n then 1 else 0)
  {
    assert Children(names[k := m], n) == Children(names, n) + if k.0 == n then {k} else {};
  }

  /** `unhash_name` up to the call of `unref_node`: the parent is owed one reference less. */
  function Unnamed(s: Cache, n: Ino): Cache
    requires n in s.nodes && s.nodes[n].link.Linked?
  {
    var l := s.nodes[n].link;
    s.(nodes := s.nodes[n := s.nodes[n].(link := Detached)], names := s.names - {(l.dir, l.name)})
  }

  lemma UnnamedSane(s: Cache, dying: set<Ino>, n: Ino)
    requires Sane(s, None, dying) && n in s.nodes && s.nodes[n].link.Linked?
    ensures Sane(Unnamed(s, n), Some(s.nodes[n].link.dir), dying) && s.nodes[n].link.dir !in dying
    ensures s.nodes[n].link.dir in s.nodes
  {
    hide Acyclic, Children;
    var l, s' := s.nodes[n].link, Unnamed(s, n);
    var k := (l.dir, l.name);
    assert s.names[k] == n;
    forall m | m in s'.nodes
      ensures CountedAt(s', Some(l.dir), dying, m)
    {
      assert CountedAt(s, None, dying, m);
      ChildrenWithout(s.names, k, m);
    }
    assert LinksOf(s'.nodes) == LinksOf(s.nodes)[n := Detached];
    DetachKeepsAcyclic(LinksOf(s.nodes), n);
  }

  /** `unref_node` up to the call of `delete_node`. */
  function Less(s: Cache, n: Ino): Cache
    requires n in s.nodes
  {
    s.(nodes := s.nodes[n := s.nodes[n].(refctr := s.nodes[n].refctr - 1)])
  }

  lemma LessSane(s: Cache, dying: set<Ino>, n: Ino)
    requires Sane(s, Some(n), dying) && n !in dying
    ensures n in s.nodes && s.nodes[n].refctr > 0
    ensures var s' := Less(s, n);
            && Sane(s', None, if s'.nodes[n].refctr == 0 then dying + {n} else dying)
            && (s'.nodes[n].refctr == 0 ==> n != ROOT)
            && (s'.nodes[n].refctr == 0 <==> Unreferenced(s, n)) && (Unreferenced(s', n) <==> Unreferenced(s, n))
  {
    hide Acyclic, References, Unreferenced;
    var s' := Less(s, n);
    var dying' := if s'.nodes[n].refctr == 0 then dying + {n} else dying;
    assert CountedAt(s, Some(n), dying, n);
    forall m | m in s'.nodes
      ensures CountedAt(s', None, dying', m)
    {
      assert CountedAt(s, Some(n), dying, m);
      LessReferences(s, n, m);
    }
    assert LinksOf(s'.nodes) == LinksOf(s.nodes);
    NoReferences(s, n);
    NoReferences(s', n);
    RootReferenced(s');
  }

  lemma LessReferences(s: Cache, n: Ino, m: Ino)
    requires n in s.nodes && m in s.nodes
    ensures References(Less(s, n), m) == References(s, m)
  {
  }

  lemma RootReferenced(s: Cache)
    requires ROOT in s.nodes && s.nodes[ROOT].nlookup > 0
    ensures References(s, ROOT) > 0
  {
  }

  /** `delete_node` after its call of `unhash_name`. */
  lemma FreeSane(s: Cache, dying: set<Ino>, n: Ino)
    requires Sane(s, None, dying + {n}) && n in s.nodes && n !in dying && s.nodes[n].link == Detached
    ensures Sane(s.(nodes := s.nodes - {n}), None, dying) && Unreferenced(s, n)
  {
    hide Acyclic, Children, Unreferenced, NamesMatch;
    var s' := s.(nodes := s.nodes - {n});
    assert CountedAt(s, None, dying + {n}, n);
    NoReferences(s, n);
    NobodysParent(s, n);
    forall m | m in s'.nodes
      ensures CountedAt(s', None, dying, m)
    {
      assert CountedAt(s, None, dying + {n}, m);
    }
    FreedTree(s, n);
  }

  lemma FreedTree(s: Cache, n: Ino)
    requires NamesMatch(s) && Acyclic(LinksOf(s.nodes)) && n in s.nodes && s.nodes[n].link == Detached
    requires Unreferenced(s, n)
    ensures var s' := s.(nodes := s.nodes - {n}); NamesMatch(s') && Acyclic(LinksOf(s'.nodes))
  {
    hide Acyclic;
    var s' := s.(nodes := s.nodes - {n});
    NobodysParent(s, n);
    assert n != ROOT;
    assert LinksOf(s'.nodes) == LinksOf(s.nodes) - {n};
    PartAcyclic(LinksOf(s.nodes), LinksOf(s'.nodes));
  }

  lemma NobodysParent(s: Cache, n: Ino)
    requires NamesMatch(s) && n in s.nodes && Unreferenced(s, n)
    ensures forall m | m in s.nodes && s.nodes[m].link.Linked? :: s.nodes[m].link.dir != n
    ensures forall k | k in s.names :: k.0 != n
    ensures s.dots[n] == 0
  {
  }

  /** A part of the tree that contains the parents of its nodes is a tree. */
  lemma PartAcyclic(t: Links, t': Links)
    requires Acyclic(t) && ROOT in t'
    requires forall n | n in t' :: n in t && t'[n] == t[n] && (t[n].Linked? ==> t[n].dir in t')
    ensures Acyclic(t')
  {
    forall n | n in t'
      ensures Grounded(t', n)
    {
      PartClimbs(t, t', n, Chain(t, n), Top(t, n));
      assert ClimbEnds(t', n, Chain(t, n), Top(t, n));
    }
  }

  lemma {:induction false} PartClimbs(t: Links, t': Links, n: Ino, c: seq<Ino>, top: Ino)
    requires Climbs(t, n, c, top) && n in t'
    requires forall n | n in t' :: n in t && t'[n] == t[n] && (t[n].Linked? ==> t[n].dir in t')
    ensures Climbs(t', n, c, top) && top in t'
    decreases |c|
  {
    if c != [] {
      PartClimbs(t, t', t[n].dir, c[1..], top);
    }
  }

  // ---------------------------------------------------------------- freeing nodes

  lemma PrunedNothing(s: Cache, s': Cache)
    requires s'.nodes.Keys == s.nodes.Keys && s'.names == s.names && s'.dots == s.dots
    requires forall n | n in s.nodes :: SameButCount(s.nodes[n], s'.nodes[n])
    ensures Pruned(s, s', {})
  {
  }

  /** Counting down first changes nothing about what is pruned. */
  lemma PrunedAfterLess(s: Cache, n: Ino, s': Cache, freed: set<Ino>)
    requires n in s.nodes && Pruned(Less(s, n), s', freed)
    ensures Pruned(s, s', freed)
  {
    var s1 := Less(s, n);
    assert forall m | m in s'.nodes :: SameButCount(s1.nodes[m], s'.nodes[m]);
  }

  /** `delete_node`: what `unhash_name` prunes, and the node itself with its name. */
  lemma PrunedWithNode(s: Cache, n: Ino, s': Cache, freed: set<Ino>)
    requires NamesMatch(s) && n in s.nodes && Unreferenced(s, n)
    requires Pruned(if s.nodes[n].link.Linked? then Unnamed(s, n) else s, s', freed) && n !in freed
    ensures Pruned(s, s'.(nodes := s'.nodes - {n}), freed + {n})
  {
    hide NamesMatch, Unreferenced;
    var s1 := if s.nodes[n].link.Linked? then Unnamed(s, n) else s;
    OnlyName(s, n);
    IsUnreferenced(s, n);
    forall m | m in s'.nodes && m != n
      ensures SameButCount(s.nodes[m], s'.nodes[m])
    {
      assert SameButCount(s1.nodes[m], s'.nodes[m]);
    }
  }

  lemma IsUnreferenced(s: Cache, n: Ino)
    requires n in s.nodes && Unreferenced(s, n)
    ensures s.nodes[n].nlookup == 0 && s.dots[n] == 0
  {
  }

  lemma OnlyName(s: Cache, n: Ino)
    requires NamesMatch(s) && n in s.nodes
    ensures s.nodes[n].link.Linked? ==>
              var k := (s.nodes[n].link.dir, s.nodes[n].link.name); k in s.names && s.names[k] == n
    ensures forall k | k in s.names && s.names[k] == n :: s.nodes[n].link == Linked(k.0, k.1)
  {
  }

  lemma UpClosedStill(nodes: Nodes, nodes': Nodes, up: set<Ino>)
    requires UpClosed(nodes, up)
    requires forall n | n in nodes' && nodes'[n].link.Linked? :: n in nodes && nodes'[n].link == nodes[n].link
    ensures UpClosed(nodes', up)
  {
  }

  lemma UnnamedUp(s: Cache, n: Ino, up: set<Ino>)
    requires n in s.nodes && s.nodes[n].link.Linked? && UpClosed(s.nodes, up)
    ensures UpClosed(Unnamed(s, n).nodes, up) && Unnamed(s, n).nodes.Keys == s.nodes.Keys
  {
  }

  lemma PrunedKeys(s: Cache, s': Cache, freed: set<Ino>)
    requires Pruned(s, s', freed)
    ensures s'.nodes.Keys == s.nodes.Keys - freed && freed <= s.nodes.Keys
    ensures forall n | n in s'.nodes ::
              n in s.nodes && s'.nodes[n].link == s.nodes[n].link && s'.nodes[n].nlookup == s.nodes[n].nlookup
    ensures s'.dots == s.dots
  {
    assert forall n | n in s'.nodes :: SameButCount(s.nodes[n], s'.nodes[n]);
  }

  /** The frees recorded in log after those of log0 are those of the given nodes, each once. */
  ghost predicate FreedOnce(log0: seq<Ino>, log: seq<Ino>, freed: set<Ino>) {
    && |log0| <= |log| && log[..|log0|] == log0
    && freed == (set n | n in log[|log0|..])
    && |freed| == |log| - |log0|
  }

  lemma FreedNothing(log: seq<Ino>)
    ensures FreedOnce(log, log, {})
  {
  }

  lemma FreedOneMore(log0: seq<Ino>, log: seq<Ino>, freed: set<Ino>, n: Ino)
    requires FreedOnce(log0, log, freed) && n !in freed
    ensures FreedOnce(log0, log + [n], freed + {n})
  {
    assert (log + [n])[|log0|..] == log[|log0|..] + [n];
  }

  lemma OneNameLess(names: Names, k: (Ino, string))
    requires k in names
    ensures |names - {k}| < |names|
  {
    assert (names - {k}).Keys == names.Keys - {k};
  }

  /** What unref_node, delete_node and unhash_name may free while `dying` wait to be freed. */
  ghost predicate MayFree(gone: set<Ino>, up: set<Ino>, dying: set<Ino>) {
    gone <= up && gone !! dying
  }

  /** The end of `delete_node`, after `unhash_name` has turned s into s1. */
  lemma DeleteEnds(s: Cache, s1: Cache, dying: set<Ino>, n: Ino, up: set<Ino>, log: seq<Ino>, log1: seq<Ino>)
    requires NamesMatch(s) && n in s.nodes && n in up && n !in dying && Unreferenced(s, n)
    requires Sane(s1, None, dying + {n}) && n in s1.nodes && s1.nodes[n].link == Detached
    requires var gone := s.nodes.Keys - s1.nodes.Keys;
             && Pruned(if s.nodes[n].link.Linked? then Unnamed(s, n) else s, s1, gone)
             && MayFree(gone, up, dying + {n}) && FreedOnce(log, log1, gone)
    ensures var s2 := s1.(nodes := s1.nodes - {n});
            var gone := s.nodes.Keys - s2.nodes.Keys;
            && Sane(s2, None, dying) && Pruned(s, s2, gone) && MayFree(gone, up, dying)
            && FreedOnce(log, log1 + [n], gone) && n in gone
  {
    hide Sane, Pruned, FreedOnce, Unreferenced, NamesMatch;
    var s2, gone := s1.(nodes := s1.nodes - {n}), s.nodes.Keys - s1.nodes.Keys;
    FreeSane(s1, dying, n);
    PrunedWithNode(s, n, s1, gone);
    FreedOneMore(log, log1, gone, n);
    PrunedKeys(s, s2, gone + {n});
    assert s.nodes.Keys - s2.nodes.Keys == gone + {n};
  }

  lemma ParentsUp(s: Cache, dying: set<Ino>, n: Ino, up: set<Ino>)
    requires Sane(s, None, dying) && n in s.nodes && n in up && UpClosed(s.nodes, up)
    ensures s.nodes[n].link.Linked? ==> s.nodes[n].link.dir in up
    ensures NamesMatch(s)
  {
  }

  lemma NameInTable(s: Cache, dying: set<Ino>, n: Ino)
    requires Sane(s, None, dying) && n in s.nodes && s.nodes[n].link.Linked?
    ensures var k := (s.nodes[n].link.dir, s.nodes[n].link.name); k in s.names && s.names[k] == n
  {
  }

  // ---------------------------------------------------------------- the tree that is counted

  /** The tree of the cache, as the path locks see it. */
  ghost function TreeOf(s: Cache): P.Cache {
    P.Cache(LinksOf(s.nodes), s.names, map[], map[])
  }

  /** A node that a request names: the kernel, or a lookup of ".", has a reference to it. */
  ghost predicate Referenced(s: Cache, n: Ino) {
    n in s.nodes && (s.nodes[n].nlookup > 0 || s.dots[n] > 0)
  }

  /** The nodes a climb from n passes, and its end. */
  ghost function UpFrom(nodes: Nodes, n: Ino): set<Ino> {
    ChainSet(LinksOf(nodes), n) + {Top(LinksOf(nodes), n)}
  }

  /** The ancestors of a node. */
  ghost function Above(nodes: Nodes, n: Ino): set<Ino> {
    if n in nodes && nodes[n].link.Linked? then UpFrom(nodes, nodes[n].link.dir) else {}
  }

  lemma UpFromClosed(nodes: Nodes, n: Ino)
    requires Acyclic(LinksOf(nodes)) && n in nodes && nodes.Keys == LinksOf(nodes).Keys
    requires ROOT in nodes && nodes[ROOT].link == Detached
    ensures UpClosed(nodes, UpFrom(nodes, n)) && n in UpFrom(nodes, n)
  {
    var t, c, top := LinksOf(nodes), Chain(LinksOf(nodes), n), Top(LinksOf(nodes), n);
    ClimbsInTree(t, n, c, top);
    forall m | m in UpFrom(nodes, n) && m in nodes && nodes[m].link.Linked?
      ensures nodes[m].link.dir in UpFrom(nodes, n)
    {
      var i :| 0 <= i < |c| && c[i] == m;
      assert t[m] == nodes[m].link;
      var j := i + 1;
      assert j < |c| ==> t[c[i]].dir == c[j];
    }
  }

  lemma AboveClosed(s: Cache, n: Ino)
    requires Inv(s) && n in s.nodes
    ensures var up := Above(s.nodes, n);
            && UpClosed(s.nodes, up) && n !in up
            && (s.nodes[n].link.Linked? ==> s.nodes[n].link.dir in up)
  {
    if s.nodes[n].link.Linked? {
      var t := LinksOf(s.nodes);
      assert t[n] == s.nodes[n].link;
      TopOfChild(t, n);
      UpFromClosed(s.nodes, t[n].dir);
      ClimbEndsDistinct(t, n, Chain(t, n), Top(t, n));
      var d := Chain(t, t[n].dir);
      assert forall i | 0 <= i < |d| :: d[i] == Chain(t, n)[i + 1];
      assert Chain(t, n)[0] == n;
    }
  }

  /** `unhash_name` below a directory that is referenced frees nothing. */
  lemma UnhashedKept(s: Cache, n: Ino, s': Cache, gone: set<Ino>)
    requires NamesMatch(s) && n in s.nodes && (s.nodes[n].link.Linked? ==> Referenced(s, s.nodes[n].link.dir))
    requires Pruned(if s.nodes[n].link.Linked? then Unnamed(s, n) else s, s', gone)
    requires gone != {} ==> s.nodes[n].link.Linked? && s.nodes[n].link.dir in gone
    ensures gone == {} && TreeOf(s') == P.Unhash(TreeOf(s), n)
    ensures SameReferences(s, s') && OthersLinked(s, s', n)
  {
    hide NamesMatch, Pruned;
    var s1 := if s.nodes[n].link.Linked? then Unnamed(s, n) else s;
    PrunedKeys(s1, s', gone);
    assert s1.nodes.Keys == s.nodes.Keys;
    var dir := if s.nodes[n].link.Linked? then s.nodes[n].link.dir else n;
    PrunedUnreferenced(s1, s', gone, dir);
    PrunedNone(s1, s');
  }

  lemma PrunedUnreferenced(s: Cache, s': Cache, gone: set<Ino>, n: Ino)
    requires Pruned(s, s', gone)
    ensures n in gone ==> n in s.nodes && s.nodes[n].nlookup == 0 && s.dots[n] == 0
  {
  }

  lemma PrunedNone(s: Cache, s': Cache)
    requires Pruned(s, s', {})
    ensures TreeOf(s') == TreeOf(s) && SameReferences(s, s')
  {
    assert forall n | n in s'.nodes :: SameButCount(s.nodes[n], s'.nodes[n]);
    assert LinksOf(s'.nodes) == LinksOf(s.nodes);
    assert s'.names == s.names;
  }

  /** The same nodes under the same ids, with the same lookups of the kernel. */
  ghost predicate SameReferences(s: Cache, s': Cache) {
    && s'.nodes.Keys == s.nodes.Keys && s'.dots == s.dots
    && forall n | n in s.nodes ::
         s'.nodes[n].nlookup == s.nodes[n].nlookup && s'.nodes[n].generation == s.nodes[n].generation
  }

  ghost predicate OthersLinked(s: Cache, s': Cache, n: Ino) {
    forall m | m in s.nodes && m != n :: m in s'.nodes && s'.nodes[m].link == s.nodes[m].link
  }

  /** `hash_name` */
  function Named(s: Cache, n: Ino, dir: Ino, name: string): Cache
    requires n in s.nodes && dir in s.nodes
  {
    var nodes1 := s.nodes[dir := s.nodes[dir].(refctr := s.nodes[dir].refctr + 1)];
    s.(nodes := nodes1[n := nodes1[n].(link := Linked(dir, name))], names := s.names[(dir, name) := n])
  }

  lemma NamedSane(s: Cache, dying: set<Ino>, n: Ino, dir: Ino, name: string)
    requires Sane(s, None, dying) && n in s.nodes && s.nodes[n].link == Detached && n != ROOT
    requires dir in s.nodes && dir !in dying && (dir, name) !in s.names
    requires Acyclic(LinksOf(s.nodes)[n := Linked(dir, name)])
    ensures Sane(Named(s, n, dir, name), None, dying)
    ensures TreeOf(Named(s, n, dir, name)) == P.Hash(TreeOf(s), n, dir, name)
    ensures SameReferences(s, Named(s, n, dir, name))
    ensures LinksOf(Named(s, n, dir, name).nodes) == LinksOf(s.nodes)[n := Linked(dir, name)]
  {
    hide Acyclic, References, Children, NamesMatch, SameReferences, TreeOf, P.Hash;
    var s' := Named(s, n, dir, name);
    NamedTree(s, n, dir, name);
    NamedMatches(s, n, dir, name);
    forall m | m in s'.nodes
      ensures CountedAt(s', None, dying, m)
    {
      assert CountedAt(s, None, dying, m);
      NamedReferences(s, n, dir, name, m);
    }
  }

  lemma NamedTree(s: Cache, n: Ino, dir: Ino, name: string)
    requires n in s.nodes && dir in s.nodes
    ensures TreeOf(Named(s, n, dir, name)) == P.Hash(TreeOf(s), n, dir, name)
    ensures SameReferences(s, Named(s, n, dir, name))
    ensures LinksOf(Named(s, n, dir, name).nodes) == LinksOf(s.nodes)[n := Linked(dir, name)]
  {
    assert LinksOf(Named(s, n, dir, name).nodes) == LinksOf(s.nodes)[n := Linked(dir, name)];
  }

  lemma NamedMatches(s: Cache, n: Ino, dir: Ino, name: string)
    requires NamesMatch(s) && n in s.nodes && s.nodes[n].link == Detached && n != ROOT
    requires dir in s.nodes && (dir, name) !in s.names
    ensures NamesMatch(Named(s, n, dir, name))
  {
    OnlyNames(s, n);
    var s' := Named(s, n, dir, name);
    assert forall m | m in s.nodes && m != n ::
             s'.nodes[m].link == s.nodes[m].link && s'.nodes[m].nlookup == s.nodes[m].nlookup;
  }

  lemma NamedReferences(s: Cache, n: Ino, dir: Ino, name: string, m: Ino)
    requires n in s.nodes && dir in s.nodes && (dir, name) !in s.names && m in s.nodes
    ensures var s' := Named(s, n, dir, name);
            && References(s', m) == References(s, m) + (if m == dir then 1 else 0)
            && s'.nodes[m].refctr == s.nodes[m].refctr + (if m == dir then 1 else 0)
  {
    hide Children;
    ChildrenWith(s.names, (dir, name), n, m);
  }

  lemma OnlyNames(s: Cache, n: Ino)
    requires NamesMatch(s) && n in s.nodes && s.nodes[n].link == Detached
    ensures forall k | k in s.names :: s.names[k] != n
  {
  }

  lemma NameIsOf(s: Cache, k: (Ino, string))
    requires Inv(s)
    ensures NamesMatch(s)
    ensures k in s.names ==>
              && s.names[k] in s.nodes && s.nodes[s.names[k]].link == Linked(k.0, k.1) && k.0 in s.nodes
              && s.names[k] != ROOT
  {
  }

  lemma FreedNone(log: seq<Ino>, log': seq<Ino>)
    requires FreedOnce(log, log', {})
    ensures log' == log
  {
    assert log' == log'[..|log|];
  }

  /** `forget_node` before it calls `unref_node` */
  function Forgotten(s: Cache, n: Ino, count: nat): Cache
    requires n in s.nodes && count <= s.nodes[n].nlookup
  {
    s.(nodes := s.nodes[n := s.nodes[n].(nlookup := s.nodes[n].nlookup - count)])
  }

  lemma ForgottenSane(s: Cache, n: Ino, count: nat)
    requires Inv(s) && n in s.nodes && n != ROOT && count <= s.nodes[n].nlookup && s.nodes[n].nlookup > 0
    ensures var s' := Forgotten(s, n, count);
            && Sane(s', if s'.nodes[n].nlookup == 0 then Some(n) else None, {})
            && UpClosed(s'.nodes, UpFrom(s'.nodes, n)) && n in UpFrom(s'.nodes, n)
            && (s'.nodes[n].nlookup > 0 ==> !Unreferenced(s', n)) && s'.nodes.Keys == s.nodes.Keys
  {
    hide Acyclic, Children, UpFrom;
    var s' := Forgotten(s, n, count);
    assert LinksOf(s'.nodes) == LinksOf(s.nodes);
    forall m | m in s'.nodes
      ensures CountedAt(s', if s'.nodes[n].nlookup == 0 then Some(n) else None, {}, m)
    {
      assert CountedAt(s, None, {}, m);
    }
    UpFromClosed(s'.nodes, n);
  }

  /**
    The reference that `forget_node` gives back when no lookup is left is owed exactly when the node
    had lookups before: forgetting none of none lowers the count wrongly.
   */
  lemma ForgetOwesIff(s: Cache, n: Ino, count: nat)
    requires Inv(s) && n in s.nodes && count == s.nodes[n].nlookup
    ensures CountedAt(Forgotten(s, n, count), Some(n), {}, n) <==> s.nodes[n].nlookup > 0
    ensures s.nodes[n].nlookup == 0 ==>
              var s' := Less(Forgotten(s, n, count), n); s'.nodes[n].refctr < References(s', n)
  {
    hide Acyclic, Children;
    assert CountedAt(s, None, {}, n);
  }

  /** A lookup of "." takes a reference, and gives it back before it calls `unref_node`. */
  function WithDot(s: Cache, n: Ino): Cache
    requires n in s.nodes
  {
    s.(nodes := s.nodes[n := s.nodes[n].(refctr := s.nodes[n].refctr + 1)], dots := s.dots + multiset{n})
  }

  function WithoutDot(s: Cache, n: Ino): Cache {
    s.(dots := s.dots - multiset{n})
  }

  lemma DotSane(s: Cache, n: Ino)
    requires Inv(s) && n in s.nodes
    ensures Inv(WithDot(s, n))
  {
    hide Acyclic, References;
    var s' := WithDot(s, n);
    assert LinksOf(s'.nodes) == LinksOf(s.nodes);
    forall m | m in s.nodes
      ensures CountedAt(s', None, {}, m)
    {
      assert CountedAt(s, None, {}, m);
      DotReferences(s, n, m);
    }
  }

  lemma DotReferences(s: Cache, n: Ino, m: Ino)
    requires n in s.nodes && m in s.nodes
    ensures References(WithDot(s, n), m) == References(s, m) + if m == n then 1 else 0
  {
  }

  lemma NoDotSane(s: Cache, n: Ino)
    requires Inv(s) && n in s.dots
    ensures n in s.nodes && Sane(WithoutDot(s, n), Some(n), {})
    ensures UpClosed(s.nodes, UpFrom(s.nodes, n)) && n in UpFrom(s.nodes, n)
  {
    hide Acyclic, Children, UpFrom;
    forall m | m in s.nodes
      ensures CountedAt(WithoutDot(s, n), Some(n), {}, m)
    {
      assert CountedAt(s, None, {}, m);
    }
    UpFromClosed(s.nodes, n);
  }

  /** `inc_nlookup` */
  function LookedUp(s: Cache, n: Ino): Cache
    requires n in s.nodes
  {
    var i := s.nodes[n];
    s.(nodes := s.nodes[n := i.(nlookup := i.nlookup + 1, refctr := i.refctr + if i.nlookup == 0 then 1 else 0)])
  }

  lemma LookedUpMatches(s: Cache, n: Ino)
    requires NamesMatch(s) && n in s.nodes
    ensures NamesMatch(LookedUp(s, n))
  {
  }

  lemma LookedUpSane(s: Cache, dying: set<Ino>, n: Ino)
    requires Sane(s, None, dying) && n in s.nodes && dying <= {n}
    ensures Inv(LookedUp(s, n)) && TreeOf(LookedUp(s, n)) == TreeOf(s)
  {
    hide Acyclic, Children, NamesMatch;
    var s' := LookedUp(s, n);
    assert LinksOf(s'.nodes) == LinksOf(s.nodes);
    LookedUpMatches(s, n);
    forall m | m in s'.nodes
      ensures CountedAt(s', None, {}, m)
    {
      assert CountedAt(s, None, dying, m);
    }
  }

  /** A node as `alloc_node` and `next_id` leave it. */
  function Allocated(s: Cache, n: Ino, generation: nat): Cache {
    s.(nodes := s.nodes[n := Inode(0, 0, generation, Detached)])
  }

  lemma AllocatedMatches(s: Cache, n: Ino, generation: nat)
    requires NamesMatch(s) && n !in s.nodes
    ensures NamesMatch(Allocated(s, n, generation)) && Children(s.names, n) == {}
  {
  }

  lemma AllocatedSane(s: Cache, n: Ino, generation: nat, dir: Ino, name: string)
    requires Inv(s) && n !in s.nodes && dir in s.nodes
    ensures var s' := Allocated(s, n, generation);
            Sane(s', None, {n}) && Acyclic(LinksOf(s'.nodes)[n := Linked(dir, name)])
  {
    hide Acyclic, NamesMatch;
    var s' := Allocated(s, n, generation);
    assert LinksOf(s'.nodes) == LinksOf(s.nodes)[n := Detached];
    assert LinksOf(s'.nodes)[n := Linked(dir, name)] == LinksOf(s.nodes)[n := Linked(dir, name)];
    AllocatedMatches(s, n, generation);
    assert s.dots[n] == 0;
    forall m | m in s'.nodes
      ensures CountedAt(s', None, {n}, m)
    {
      assert m != n ==> CountedAt(s, None, {}, m);
    }
    FreshAcyclic(LinksOf(s.nodes), n, dir, name);
  }

  // ---------------------------------------------------------------- nothing is kept in vain

  /**
    The cache holds exactly the nodes that are referenced from outside and their ancestors: nothing
    more, and nothing less.
   */
  lemma NoGarbage(s: Cache, n: Ino)
    requires Inv(s)
    ensures n in s.nodes <==> exists x :: Referenced(s, x) && n in UpFrom(s.nodes, x)
  {
    if n in s.nodes {
      KeptFor(s, n);
    }
    forall x | Referenced(s, x) && n in UpFrom(s.nodes, x)
      ensures n in s.nodes
    {
      ClimbsInTree(LinksOf(s.nodes), x, Chain(LinksOf(s.nodes), x), Top(LinksOf(s.nodes), x));
    }
  }

  lemma {:induction false} KeptFor(s: Cache, n: Ino)
    requires Inv(s) && n in s.nodes
    ensures exists x :: Referenced(s, x) && n in UpFrom(s.nodes, x)
    decreases |s.nodes| - |Chain(LinksOf(s.nodes), n)|
  {
    UpFromClosed(s.nodes, n);
    if !Referenced(s, n) {
      assert CountedAt(s, None, {}, n);
      assert Children(s.names, n) != {};
      var k :| k in Children(s.names, n);
      var c, t := s.names[k], LinksOf(s.nodes);
      TopOfChild(t, c);
      ChainShort(s, c);
      KeptFor(s, c);
      var x :| Referenced(s, x) && c in UpFrom(s.nodes, x);
      UpFromClosed(s.nodes, x);
    }
  }

  lemma ChainShort(s: Cache, n: Ino)
    requires Acyclic(LinksOf(s.nodes)) && n in s.nodes
    ensures |Chain(LinksOf(s.nodes), n)| <= |s.nodes|
  {
    var t := LinksOf(s.nodes);
    var c := Chain(t, n);
    ClimbsInTree(t, n, c, Top(t, n));
    ClimbEndsDistinct(t, n, c, Top(t, n));
    DistinctSize(c);
    SubsetSize((set x | x in c), s.nodes.Keys);
    assert |s.nodes.Keys| == |s.nodes|;
  }

  lemma InvMatches(s: Cache)
    requires Inv(s)
    ensures NamesMatch(s)
  {
  }

  lemma SaneMatches(s: Cache, owed: Option<Ino>)
    requires Sane(s, owed, {})
    ensures NamesMatch(s)
  {
  }

  lemma NamedNotRoot(s: Cache, n: Ino)
    requires NamesMatch(s) && n in s.nodes && s.nodes[n].link.Linked?
    ensures n != ROOT && s.nodes[n].link.dir in s.nodes
  {
  }

  lemma NoDotMatches(s: Cache, n: Ino)
    requires NamesMatch(s)
    ensures NamesMatch(WithoutDot(s, n))
  {
  }

  lemma RootThere(s: Cache)
    requires Inv(s)
    ensures ROOT in s.nodes
  {
  }

  lemma SameReferencesRefl(s: Cache)
    ensures SameReferences(s, s)
  {
  }

  lemma SameReferencesTrans(s: Cache, s': Cache, s'': Cache)
    requires SameReferences(s, s') && SameReferences(s', s'')
    ensures SameReferences(s, s'')
  {
  }

  lemma ReferencedStays(s: Cache, s': Cache, n: Ino)
    requires SameReferences(s, s') && Referenced(s, n)
    ensures n in s'.nodes && Referenced(s', n)
  {
  }

  /** After n has lost its name, another node is still below a referenced directory, if below any. */
  lemma BelowStill(s: Cache, s': Cache, n: Ino, m: Ino)
    requires SameReferences(s, s') && OthersLinked(s, s', n) && n in s'.nodes && s'.nodes[n].link == Detached
    requires m in s.nodes && s.nodes[m].link.Linked? && Referenced(s, s.nodes[m].link.dir)
    ensures m in s'.nodes && (s'.nodes[m].link.Linked? ==> Referenced(s', s'.nodes[m].link.dir))
  {
  }

  lemma StillDetached(s: Cache, s': Cache, n: Ino, m: Ino)
    requires OthersLinked(s, s', n) && m in s.nodes && s.nodes[m].link == Detached && m != n
    ensures m in s'.nodes && s'.nodes[m].link == Detached
  {
  }

  /** `lookup_node` */
  function NodeAt(names: Names, dir: Ino, name: string): Option<Ino> {
    if (dir, name) in names then Some(names[(dir, name)]) else None
  }

  /** `exchange_node` and `rename_node` after two nodes have lost their names */
  ghost function BothUnhashed(s: P.Cache, oldnode: Option<Ino>, newnode: Option<Ino>): P.Cache {
    var s1 := if oldnode.Some? && oldnode.value in s.t then P.Unhash(s, oldnode.value) else s;
    if newnode.Some? && newnode.value in s1.t then P.Unhash(s1, newnode.value) else s1
  }

  lemma RenamesNothing(s: Cache, olddir: Ino, oldname: string, newdir: Ino, newname: string, hiding: bool)
    ensures (olddir, oldname) !in s.names || ((newdir, newname) in s.names && hiding) ==>
              P.RenameNode(TreeOf(s), olddir, oldname, newdir, newname, hiding) == TreeOf(s)
  {
  }

  lemma RenameReady(s: Cache, s2: Cache, olddir: Ino, oldname: string, newdir: Ino, newname: string, hiding: bool)
    requires NamesMatch(s) && (olddir, oldname) in s.names && ((newdir, newname) in s.names ==> !hiding)
    requires Acyclic(P.RenameNode(TreeOf(s), olddir, oldname, newdir, newname, hiding).t)
    requires TreeOf(s2) ==
               BothUnhashed(TreeOf(s), NodeAt(s.names, newdir, newname), NodeAt(s.names, olddir, oldname))
    ensures var node := s.names[(olddir, oldname)];
            && Acyclic(LinksOf(s2.nodes)[node := Linked(newdir, newname)]) && (newdir, newname) !in s2.names
            && P.Hash(TreeOf(s2), node, newdir, newname) ==
                 P.RenameNode(TreeOf(s), olddir, oldname, newdir, newname, hiding)
  {
    hide Acyclic;
    assert s2.names == TreeOf(s2).names && LinksOf(s2.nodes) == TreeOf(s2).t;
  }

  /** `exchange_node` from there on */
  ghost function BothHashed(s: P.Cache, oldnode: Option<Ino>, newnode: Option<Ino>, olddir: Ino, oldname: string,
      newdir: Ino, newname: string): P.Cache {
    var s3 := if oldnode.Some? then P.Hash(s, oldnode.value, newdir, newname) else s;
    if newnode.Some? then P.Hash(s3, newnode.value, olddir, oldname) else s3
  }

  lemma ExchangeReady(s: Cache, s2: Cache, olddir: Ino, oldname: string, newdir: Ino, newname: string)
    requires NamesMatch(s) && ((olddir, oldname) in s.names ==> (olddir, oldname) != (newdir, newname))
    requires Acyclic(P.ExchangeNode(TreeOf(s), olddir, oldname, newdir, newname).t)
    requires TreeOf(s2) ==
               BothUnhashed(TreeOf(s), NodeAt(s.names, olddir, oldname), NodeAt(s.names, newdir, newname))
    ensures (olddir, oldname) !in s2.names && (newdir, newname) !in s2.names
    ensures var oldnode, newnode := NodeAt(s.names, olddir, oldname), NodeAt(s.names, newdir, newname);
            var t3 := if oldnode.Some? then LinksOf(s2.nodes)[oldnode.value := Linked(newdir, newname)]
                else LinksOf(s2.nodes);
            && (oldnode.Some? ==> Acyclic(t3))
            && (newnode.Some? ==> Acyclic(t3[newnode.value := Linked(olddir, oldname)]))
            && (oldnode.Some? && newnode.Some? ==> oldnode != newnode)
    ensures P.ExchangeNode(TreeOf(s), olddir, oldname, newdir, newname) ==
              BothHashed(TreeOf(s2), NodeAt(s.names, olddir, oldname), NodeAt(s.names, newdir, newname),
                         olddir, oldname, newdir, newname)
  {
    hide Acyclic;
    var oldnode, newnode := NodeAt(s.names, olddir, oldname), NodeAt(s.names, newdir, newname);
    var result := P.ExchangeNode(TreeOf(s), olddir, oldname, newdir, newname);
    assert s2.names == TreeOf(s2).names && LinksOf(s2.nodes) == TreeOf(s2).t;
    if oldnode.Some? && newnode.Some? {
      DetachKeepsAcyclic(result.t, newnode.value);
      assert result.t[newnode.value := Detached] == LinksOf(s2.nodes)[oldnode.value := Linked(newdir, newname)];
    }
  }

  /**
    `exchange_node` of a name with itself would hash its node twice, and the directory's count would
    be one more than its references for good.
   */
  lemma SelfExchangeMiscounts(s: Cache, dir: Ino, name: string)
    requires Inv(s) && (dir, name) in s.names && Referenced(s, dir)
    ensures var n := s.names[(dir, name)];
            && n in s.nodes && s.nodes[n].link.Linked? && dir in s.nodes && n != dir
            && var s1 := Less(Unnamed(s, n), dir);
               var s2 := Named(Named(s1, n, dir, name), n, dir, name);
               && s2.names == s.names && LinksOf(s2.nodes) == LinksOf(s.nodes)
               && s2.nodes[dir].refctr == References(s2, dir) + 1
  {
    hide Acyclic, Children;
    NameIsOf(s, (dir, name));
    var n := s.names[(dir, name)];
    NotItsParent(s, n);
    assert CountedAt(s, None, {}, dir);
    var s1 := Less(Unnamed(s, n), dir);
    var s2 := Named(Named(s1, n, dir, name), n, dir, name);
    assert s2.names == s.names;
    assert s2.nodes[dir].nlookup == s.nodes[dir].nlookup;
  }

  lemma NotItsParent(s: Cache, n: Ino)
    requires Inv(s) && n in s.nodes && s.nodes[n].link.Linked?
    ensures s.nodes[n].link.dir != n
  {
    hide Acyclic;
    var t := LinksOf(s.nodes);
    assert t[n] == s.nodes[n].link;
    assert n != ROOT;
    TopOfChild(t, n);
    assert |Chain(t, n)| == |[n] + Chain(t, t[n].dir)|;
  }

  /** Every node but the root goes by an id and a generation that were given out together. */
  ghost predicate AllIssued(nodes: Nodes, issued: seq<(Ino, nat)>) {
    forall n | n in nodes && n != ROOT :: (n, nodes[n].generation) in issued
  }

  /**
    Unless the generation counter has wrapped around, no pair was issued twice, and none that the
    counters have not passed.
   */
  ghost predicate IssuedUpTo(issued: seq<(Ino, nat)>, laps: nat, ctr: nat) {
    laps < WRAP ==> Distinct(issued) && forall p | p in issued :: p.1 * WRAP + p.0 <= laps * WRAP + ctr
  }

  lemma IssueOne(issued: seq<(Ino, nat)>, laps: nat, p: (Ino, nat))
    requires laps < WRAP ==> Distinct(issued) && p !in issued
    ensures laps < WRAP ==> Distinct(issued + [p])
    ensures forall x :: x in issued + [p] <==> x in issued || x == p
  {
    if laps < WRAP {
      AppendDistinct(issued, p);
    }
  }

  lemma PrunedIssued(s: Cache, s': Cache, gone: set<Ino>, issued: seq<(Ino, nat)>)
    requires Pruned(s, s', gone) && AllIssued(s.nodes, issued)
    ensures AllIssued(s'.nodes, issued)
  {
    assert forall n | n in s'.nodes :: SameButCount(s.nodes[n], s'.nodes[n]);
  }

  lemma GenerationsIssued(nodes: Nodes, nodes': Nodes, issued: seq<(Ino, nat)>)
    requires AllIssued(nodes, issued)
    requires forall n | n in nodes' :: n in nodes && nodes'[n].generation == nodes[n].generation
    ensures AllIssued(nodes', issued)
  {
  }

  lemma ForgottenIssued(s: Cache, n: Ino, count: nat, issued: seq<(Ino, nat)>)
    requires n in s.nodes && count <= s.nodes[n].nlookup && AllIssued(s.nodes, issued)
    ensures AllIssued(Forgotten(s, n, count).nodes, issued)
  {
    GenerationsIssued(s.nodes, Forgotten(s, n, count).nodes, issued);
  }

  lemma UnnamedIssued(s: Cache, n: Ino, issued: seq<(Ino, nat)>)
    requires n in s.nodes && s.nodes[n].link.Linked? && AllIssued(s.nodes, issued)
    ensures AllIssued(Unnamed(s, n).nodes, issued)
  {
    GenerationsIssued(s.nodes, Unnamed(s, n).nodes, issued);
  }

  lemma SameIssued(s: Cache, s': Cache, issued: seq<(Ino, nat)>)
    requires SameReferences(s, s') && AllIssued(s.nodes, issued)
    ensures AllIssued(s'.nodes, issued)
  {
  }

  /** An id that `next_id` may not give to a new node. */
  ghost predicate Passed(v: nat, nodes: map<Ino, Inode>) {
    v % WRAP == 0 || v % WRAP == UNKNOWN_INO || v % WRAP in nodes
  }

  /** Whatever the counter was between a and b could not be given. */
  ghost predicate AllPassed(a: nat, b: nat, nodes: map<Ino, Inode>) {
    forall v: nat | a < v < b :: Passed(v, nodes)
  }

  lemma NonePassed(a: nat, nodes: map<Ino, Inode>)
    ensures AllPassed(a, a + 1, nodes)
  {
  }

  lemma PassOne(a: nat, laps: nat, ctr: nat, nodes: map<Ino, Inode>)
    requires ctr < WRAP && (ctr == 0 || ctr == UNKNOWN_INO || ctr in nodes) && AllPassed(a, laps * WRAP + ctr, nodes)
    ensures AllPassed(a, laps * WRAP + ctr + 1, nodes)
  {
    assert (laps * WRAP + ctr) % WRAP == ctr;
  }

  class InodeCache {
    var nodes: Nodes
    var names: Names
    var dots: multiset<Ino>

    /** The nodes passed to `free_node`, in order. */
    ghost var freed: seq<Ino>

    var ctr: nat
    var generation: nat

    /** How often the ids have started over; the generation counter is this number in 32 bits. */
    ghost var laps: nat

    /** All pairs of a node id and a generation that were ever given to a node, in order. */
    ghost var issued: seq<(Ino, nat)>

    ghost predicate IdsOk()
      reads this
    {
      && ctr < WRAP && generation == laps % WRAP
      && IssuedUpTo(issued, laps, ctr)
      && AllIssued(nodes, issued)
    }

    ghost function View(): Cache
      reads this
    {
      Cache(nodes, names, dots)
    }

    /** What every operation of the cache keeps. */
    ghost predicate Valid()
      reads this
    {
      Inv(View()) && IdsOk()
    }

    /**
      `unref_node`: one reference less, and if it was the last one the node is freed, and its
      ancestors as far as they were only kept for it.
     */
    method UnrefNode(n: Ino, ghost dying: set<Ino>, ghost up: set<Ino>)
      requires Sane(View(), Some(n), dying) && n !in dying && n in up && UpClosed(nodes, up)
      modifies this`nodes, this`names, this`freed
      ensures Sane(View(), None, dying)
      ensures var gone := old(nodes).Keys - nodes.Keys;
              && Pruned(old(View()), View(), gone) && MayFree(gone, up, dying)
              && FreedOnce(old(freed), freed, gone)
              && (gone != {} ==> n in gone) && (n in gone <==> Unreferenced(old(View()), n))
      decreases |names|, 2
    {
      hide Sane, Pruned, UpClosed, FreedOnce, Unreferenced;
      ghost var s := View();
      LessSane(s, dying, n);
      nodes := nodes[n := nodes[n].(refctr := nodes[n].refctr - 1)];
      ghost var s1 := View();
      UpClosedStill(s.nodes, s1.nodes, up);
      if nodes[n].refctr == 0 {
        DeleteNode(n, dying, up);
        assert s1.nodes.Keys == s.nodes.Keys;
        PrunedAfterLess(s, n, View(), s1.nodes.Keys - nodes.Keys);
      } else {
        PrunedNothing(s, s1);
        FreedNothing(freed);
        assert s.nodes.Keys - nodes.Keys == {};
      }
    }

    /** `delete_node` */
    method DeleteNode(n: Ino, ghost dying: set<Ino>, ghost up: set<Ino>)
      requires Sane(View(), None, dying + {n}) && n !in dying && n in up && UpClosed(nodes, up)
      requires n in nodes && Unreferenced(View(), n)
      modifies this`nodes, this`names, this`freed
      ensures Sane(View(), None, dying)
      ensures var gone := old(nodes).Keys - nodes.Keys;
              && Pruned(old(View()), View(), gone) && MayFree(gone, up, dying)
              && FreedOnce(old(freed), freed, gone)
              && n in gone
      decreases |names|, 1
    {
      hide Sane, Pruned, UpClosed, FreedOnce, Unreferenced;
      ghost var s, log := View(), freed;
      ParentsUp(s, dying + {n}, n, up);
      UnhashName(n, dying + {n}, up);
      DeleteEnds(s, View(), dying, n, up, log, freed);
      nodes := nodes - {n};
      freed := freed + [n];
    }

    /**
      `unhash_name`: the node loses its name, and its parent a reference.  That the node is not in
      the name table, where the original aborts, cannot happen.
     */
    method UnhashName(n: Ino, ghost dying: set<Ino>, ghost up: set<Ino>)
      requires Sane(View(), None, dying) && n in nodes && UpClosed(nodes, up)
      requires (nodes[n].link.Linked? ==> nodes[n].link.dir in up) && (n in up ==> n in dying)
      modifies this`nodes, this`names, this`freed
      ensures Sane(View(), None, dying)
      ensures n in nodes && nodes[n].link == Detached
      ensures var s := if old(nodes)[n].link.Linked? then Unnamed(old(View()), n) else old(View());
              var gone := old(nodes).Keys - nodes.Keys;
              && Pruned(s, View(), gone) && MayFree(gone, up, dying)
              && FreedOnce(old(freed), freed, gone)
              && (gone != {} ==> old(nodes)[n].link.Linked? && old(nodes)[n].link.dir in gone)
      decreases |names|, 0
    {
      hide Sane, Pruned, UpClosed, FreedOnce;
      ghost var s := View();
      if nodes[n].link.Linked? {
        var k := (nodes[n].link.dir, nodes[n].link.name);
        NameInTable(s, dying, n);
        if k in names && names[k] == n {
          UnnamedSane(s, dying, n);
          OneNameLess(names, k);
          names := names - {k};
          nodes := nodes[n := nodes[n].(link := Detached)];
          UnnamedUp(s, n, up);
          ghost var s1 := View();
          UnrefNode(k.0, dying, up);
          PrunedKeys(s1, View(), s1.nodes.Keys - nodes.Keys);
        } else {
          assert false;
        }
      } else {
        PrunedNothing(s, s);
        FreedNothing(freed);
        assert s.nodes.Keys - nodes.Keys == {};
      }
    }

    /** `hash_name`, when the name can be copied */
    method HashName(n: Ino, dir: Ino, name: string, ghost dying: set<Ino>)
      requires Sane(View(), None, dying) && n in nodes && nodes[n].link == Detached && n != ROOT
      requires dir in nodes && dir !in dying && (dir, name) !in names
      requires Acyclic(LinksOf(nodes)[n := Linked(dir, name)])
      modifies this`nodes, this`names
      ensures View() == Named(old(View()), n, dir, name) && Sane(View(), None, dying)
    {
      hide Sane, Acyclic;
      NamedSane(View(), dying, n, dir, name);
      nodes := nodes[dir := nodes[dir].(refctr := nodes[dir].refctr + 1)];
      nodes := nodes[n := nodes[n].(link := Linked(dir, name))];
      names := names[(dir, name) := n];
    }

    /** `hash_name` between two operations' steps */
    method HashDetached(n: Ino, dir: Ino, name: string)
      requires Inv(View()) && n in nodes && nodes[n].link == Detached && n != ROOT
      requires dir in nodes && (dir, name) !in names && Acyclic(LinksOf(nodes)[n := Linked(dir, name)])
      modifies this`nodes, this`names
      ensures Inv(View()) && View() == Named(old(View()), n, dir, name) && SameReferences(old(View()), View())
      ensures TreeOf(View()) == P.Hash(TreeOf(old(View())), n, dir, name)
      ensures LinksOf(nodes) == LinksOf(old(nodes))[n := Linked(dir, name)]
    {
      hide Sane, Acyclic;
      NamedSane(View(), {}, n, dir, name);
      HashName(n, dir, name, {});
    }

    /** `remove_node`: the node loses its name; what was only kept for that name is freed. */
    method RemoveNode(dir: Ino, name: string)
      requires Valid()
      modifies this`nodes, this`names, this`freed
      ensures Valid()
      ensures var gone := old(nodes).Keys - nodes.Keys;
              && FreedOnce(old(freed), freed, gone)
              && (gone != {} ==> dir in gone)
              && (if (dir, name) in old(names) then
                    var n := old(names)[(dir, name)];
                    n in nodes && n in old(nodes) && old(nodes)[n].link.Linked?
                      && Pruned(Unnamed(old(View()), n), View(), gone)
                  else View() == old(View()))
      ensures Referenced(old(View()), dir) ==>
                && TreeOf(View()) == P.RemoveNode(TreeOf(old(View())), dir, name)
                && SameReferences(old(View()), View()) && freed == old(freed)
    {
      hide Sane, Pruned, UpClosed, FreedOnce, AllIssued, IssuedUpTo;
      ghost var s := View();
      if (dir, name) in names {
        var n := names[(dir, name)];
        NameIsOf(s, (dir, name));
        AboveClosed(s, n);
        UnhashName(n, {}, Above(nodes, n));
        UnnamedIssued(s, n, issued);
        PrunedIssued(Unnamed(s, n), View(), s.nodes.Keys - nodes.Keys, issued);
        if Referenced(s, dir) {
          UnhashedKept(s, n, View(), s.nodes.Keys - nodes.Keys);
          FreedNone(old(freed), freed);
        }
      } else {
        FreedNothing(freed);
        assert s.nodes.Keys - nodes.Keys == {};
      }
    }

    /** `unhash_name` of a node below a directory that is referenced: nothing is freed. */
    method UnhashBelow(n: Ino)
      requires Inv(View()) && n in nodes && (nodes[n].link.Linked? ==> Referenced(View(), nodes[n].link.dir))
      modifies this`nodes, this`names, this`freed
      ensures Inv(View()) && freed == old(freed)
      ensures TreeOf(View()) == P.Unhash(TreeOf(old(View())), n) && SameReferences(old(View()), View())
      ensures n in nodes && nodes[n].link == Detached && OthersLinked(old(View()), View(), n)
    {
      hide Sane, Pruned, UpClosed, FreedOnce, AllIssued, IssuedUpTo;
      ghost var s := View();
      InvMatches(s);
      AboveClosed(s, n);
      UnhashName(n, {}, Above(nodes, n));
      UnhashedKept(s, n, View(), s.nodes.Keys - nodes.Keys);
      FreedNone(old(freed), freed);
    }

    /** `unhash_name` of both nodes of an exchange, or of the target and the source of a rename. */
    method UnhashBoth(oldnode: Option<Ino>, newnode: Option<Ino>)
      requires Inv(View())
      requires oldnode.Some? ==>
                 oldnode.value in nodes && nodes[oldnode.value].link.Linked?
                   && Referenced(View(), nodes[oldnode.value].link.dir)
      requires newnode.Some? ==>
                 newnode.value in nodes && nodes[newnode.value].link.Linked?
                   && Referenced(View(), nodes[newnode.value].link.dir)
      modifies this`nodes, this`names, this`freed
      ensures Inv(View()) && freed == old(freed) && SameReferences(old(View()), View())
      ensures TreeOf(View()) == BothUnhashed(TreeOf(old(View())), oldnode, newnode)
      ensures oldnode.Some? ==> oldnode.value in nodes && nodes[oldnode.value].link == Detached
      ensures newnode.Some? ==> newnode.value in nodes && nodes[newnode.value].link == Detached
    {
      hide Sane, P.Unhash, Referenced, SameReferences, OthersLinked;
      ghost var s := View();
      SameReferencesRefl(s);
      if oldnode.Some? {
        UnhashBelow(oldnode.value);
        if newnode.Some? {
          BelowStill(s, View(), oldnode.value, newnode.value);
        }
      }
      ghost var s1 := View();
      if newnode.Some? {
        UnhashBelow(newnode.value);
        SameReferencesTrans(s, s1, View());
        if oldnode.Some? && oldnode != newnode {
          StillDetached(s1, View(), newnode.value, oldnode.value);
        }
      }
    }

    /** The part of `rename_node` that changes something. */
    method MoveNode(node: Ino, newnode: Option<Ino>, ghost olddir: Ino, ghost oldname: string, newdir: Ino,
        newname: string, ghost hiding: bool)
      requires Inv(View()) && Referenced(View(), olddir) && Referenced(View(), newdir)
      requires (olddir, oldname) in names && names[(olddir, oldname)] == node
      requires newnode == NodeAt(names, newdir, newname) && (newnode.Some? ==> !hiding)
      requires Acyclic(P.RenameNode(TreeOf(View()), olddir, oldname, newdir, newname, hiding).t)
      modifies this`nodes, this`names, this`freed
      ensures Inv(View()) && freed == old(freed) && SameReferences(old(View()), View())
      ensures TreeOf(View()) == P.RenameNode(TreeOf(old(View())), olddir, oldname, newdir, newname, hiding)
    {
      hide Inv, NamesMatch, Acyclic, LinksOf, Named, P.Hash, P.RenameNode, Referenced, SameReferences, OthersLinked,
           BothUnhashed, TreeOf;
      ghost var s := View();
      NameIsOf(s, (olddir, oldname));
      NameIsOf(s, (newdir, newname));
      UnhashBoth(newnode, Some(node));
      ghost var s2 := View();
      ReferencedStays(s, s2, newdir);
      RenameReady(s, s2, olddir, oldname, newdir, newname, hiding);
      HashDetached(node, newdir, newname);
      SameReferencesTrans(s, s2, View());
    }

    /**
      `rename_node`, between directories that are referenced and where the result is a tree; returns
      false for -EBUSY.
     */
    method RenameNode(olddir: Ino, oldname: string, newdir: Ino, newname: string, hiding: bool) returns (ok: bool)
      requires Valid() && Referenced(View(), olddir) && Referenced(View(), newdir)
      requires Acyclic(P.RenameNode(TreeOf(View()), olddir, oldname, newdir, newname, hiding).t)
      modifies this`nodes, this`names, this`freed
      ensures Valid() && freed == old(freed)
      ensures TreeOf(View()) == P.RenameNode(TreeOf(old(View())), olddir, oldname, newdir, newname, hiding)
      ensures SameReferences(old(View()), View())
      ensures ok <==> !((olddir, oldname) in old(names) && (newdir, newname) in old(names) && hiding)
    {
      hide Inv, NamesMatch, Acyclic, LinksOf, Named, P.Hash, P.RenameNode, Referenced, SameReferences, OthersLinked,
           AllIssued, IssuedUpTo, BothUnhashed, TreeOf;
      ghost var s := View();
      SameReferencesRefl(s);
      RenamesNothing(s, olddir, oldname, newdir, newname, hiding);
      ok := true;
      var newnode := NodeAt(names, newdir, newname);
      if (olddir, oldname) !in names {
        return;
      }
      var node := names[(olddir, oldname)];
      if newnode.Some? && hiding {
        return false;
      }
      MoveNode(node, newnode, olddir, oldname, newdir, newname, hiding);
      SameIssued(s, View(), issued);
    }

    /** The half that gives each the other's name. */
    method HashBoth(oldnode: Option<Ino>, newnode: Option<Ino>, olddir: Ino, oldname: string, newdir: Ino,
        newname: string)
      requires Inv(View()) && olddir in nodes && newdir in nodes
      requires (olddir, oldname) !in names && (newdir, newname) !in names
      requires oldnode.Some? ==>
                 oldnode.value in nodes && nodes[oldnode.value].link == Detached && oldnode.value != ROOT
      requires newnode.Some? ==>
                 newnode.value in nodes && nodes[newnode.value].link == Detached && newnode.value != ROOT
      requires oldnode.Some? && newnode.Some? ==> oldnode != newnode && (olddir, oldname) != (newdir, newname)
      requires var t3 := if oldnode.Some? then LinksOf(nodes)[oldnode.value := Linked(newdir, newname)]
               else LinksOf(nodes);
               && (oldnode.Some? ==> Acyclic(t3))
               && (newnode.Some? ==> Acyclic(t3[newnode.value := Linked(olddir, oldname)]))
      modifies this`nodes, this`names
      ensures Inv(View()) && SameReferences(old(View()), View())
      ensures TreeOf(View()) == BothHashed(TreeOf(old(View())), oldnode, newnode, olddir, oldname, newdir, newname)
    {
      hide Sane, Acyclic, P.Hash, SameReferences;
      ghost var s2 := View();
      SameReferencesRefl(s2);
      if oldnode.Some? {
        HashDetached(oldnode.value, newdir, newname);
      }
      ghost var s3 := View();
      if newnode.Some? {
        HashDetached(newnode.value, olddir, oldname);
        SameReferencesTrans(s2, s3, View());
      }
    }

    /** `exchange_node`, likewise */
    method ExchangeNode(olddir: Ino, oldname: string, newdir: Ino, newname: string)
      requires Valid() && Referenced(View(), olddir) && Referenced(View(), newdir)
      requires (olddir, oldname) in names ==> (olddir, oldname) != (newdir, newname)
      requires Acyclic(P.ExchangeNode(TreeOf(View()), olddir, oldname, newdir, newname).t)
      modifies this`nodes, this`names, this`freed
      ensures Valid() && freed == old(freed)
      ensures TreeOf(View()) == P.ExchangeNode(TreeOf(old(View())), olddir, oldname, newdir, newname)
      ensures SameReferences(old(View()), View())
    {
      hide Inv, NamesMatch, Acyclic, LinksOf, P.Hash, P.ExchangeNode, Referenced, SameReferences, OthersLinked,
           AllIssued, IssuedUpTo, BothUnhashed, BothHashed, TreeOf;
      ghost var s := View();
      NameIsOf(s, (olddir, oldname));
      NameIsOf(s, (newdir, newname));
      var oldnode := NodeAt(names, olddir, oldname);
      var newnode := NodeAt(names, newdir, newname);
      UnhashBoth(oldnode, newnode);
      ghost var s2 := View();
      ReferencedStays(s, s2, olddir);
      ReferencedStays(s, s2, newdir);
      ExchangeReady(s, s2, olddir, oldname, newdir, newname);
      HashBoth(oldnode, newnode, olddir, oldname, newdir, newname);
      SameReferencesTrans(s, s2, View());
      SameIssued(s, View(), issued);
    }

    /**
      `forget_node` once the node is not locked, or not forgotten for good: the kernel takes back
      `count` of its lookups.
     */
    method ForgetNode(n: Ino, count: nat)
      requires Valid()
      requires n != ROOT ==> n in nodes && nodes[n].nlookup > 0 && count <= nodes[n].nlookup
      modifies this`nodes, this`names, this`freed
      ensures Valid()
      ensures n == ROOT ==> View() == old(View()) && freed == old(freed)
      ensures n != ROOT ==>
                var s1, gone := Forgotten(old(View()), n, count), old(nodes).Keys - nodes.Keys;
                && Pruned(s1, View(), gone) && FreedOnce(old(freed), freed, gone)
                && (gone != {} ==> n in gone) && (n in gone <==> Unreferenced(s1, n))
      ensures n != ROOT ==>
                && (n !in nodes <==> old(nodes)[n].nlookup == count && old(dots)[n] == 0
                                     && forall k | k in old(names) :: k.0 != n)
                && (n in nodes ==> nodes[n].nlookup == old(nodes)[n].nlookup - count)
                && forall m | m in nodes && m != n :: nodes[m].nlookup == old(nodes)[m].nlookup
    {
      hide Sane, Pruned, UpClosed, FreedOnce, UpFrom, Unreferenced, AllIssued, IssuedUpTo;
      if n == ROOT {
        return;
      }
      ghost var s := View();
      ForgottenSane(s, n, count);
      ForgottenIssued(s, n, count, issued);
      nodes := nodes[n := nodes[n].(nlookup := nodes[n].nlookup - count)];
      ghost var s1 := View();
      UnrefUnused(n);
      PrunedKeys(s1, View(), s1.nodes.Keys - nodes.Keys);
      NothingRefers(s1, n);
    }

    /** The end of `forget_node`: the kernel's reference goes when its last lookup has gone. */
    method UnrefUnused(n: Ino)
      requires n in nodes && Sane(View(), if nodes[n].nlookup == 0 then Some(n) else None, {})
               && AllIssued(nodes, issued)
      requires UpClosed(nodes, UpFrom(nodes, n)) && n in UpFrom(nodes, n)
      requires nodes[n].nlookup > 0 ==> !Unreferenced(View(), n)
      modifies this`nodes, this`names, this`freed
      ensures Inv(View()) && AllIssued(nodes, issued)
      ensures var gone := old(nodes).Keys - nodes.Keys;
              && Pruned(old(View()), View(), gone) && FreedOnce(old(freed), freed, gone)
              && (gone != {} ==> n in gone) && (n in gone <==> Unreferenced(old(View()), n))
    {
      hide Sane, Pruned, UpClosed, FreedOnce, UpFrom, Unreferenced, AllIssued;
      ghost var s := View();
      if nodes[n].nlookup == 0 {
        UnrefNode(n, {}, UpFrom(nodes, n));
      } else {
        PrunedNothing(s, s);
        FreedNothing(freed);
        assert s.nodes.Keys - nodes.Keys == {};
      }
      PrunedIssued(s, View(), s.nodes.Keys - nodes.Keys, issued);
    }

    /** The start of a lookup of "."; false stands for -ESTALE. */
    method TakeDot(n: Ino) returns (ok: bool)
      requires Valid()
      modifies this`nodes, this`dots
      ensures Valid() && ok == (n in old(nodes))
      ensures View() == if ok then WithDot(old(View()), n) else old(View())
    {
      hide Sane, UpClosed, UpFrom, AllIssued, IssuedUpTo;
      ok := n in nodes;
      if ok {
        DotSane(View(), n);
        nodes := nodes[n := nodes[n].(refctr := nodes[n].refctr + 1)];
        GenerationsIssued(old(nodes), nodes, issued);
        dots := dots + multiset{n};
      }
    }

    /** The end of a lookup of "." */
    method DropDot(n: Ino)
      requires Valid() && n in dots
      modifies this`nodes, this`names, this`dots, this`freed
      ensures Valid() && n in old(nodes)
      ensures var s1, gone := WithoutDot(old(View()), n), old(nodes).Keys - nodes.Keys;
              && Pruned(s1, View(), gone) && FreedOnce(old(freed), freed, gone)
              && (gone != {} ==> n in gone) && (n in gone <==> Unreferenced(s1, n))
    {
      hide Sane, Pruned, UpClosed, FreedOnce, UpFrom, Unreferenced, AllIssued, IssuedUpTo;
      NoDotSane(View(), n);
      dots := dots - multiset{n};
      ghost var s1 := View();
      UnrefNode(n, {}, UpFrom(nodes, n));
      PrunedIssued(s1, View(), s1.nodes.Keys - nodes.Keys, issued);
    }

    // -------------------------------------------------------------- ids

    /**
      `next_id`: an id that no live node has, and together with the generation one that no node
      ever had, until the generation counter wraps around.
     */
    method NextId() returns (id: Ino)
      requires IdsOk()
      requires exists x :: 0 < x < UNKNOWN_INO && x !in nodes
      modifies this`ctr, this`generation, this`laps
      ensures IdsOk() && id == ctr
      ensures 0 < id < UNKNOWN_INO && id !in nodes
      ensures laps * WRAP + ctr > old(laps) * WRAP + old(ctr)
      ensures AllPassed(old(laps) * WRAP + old(ctr), laps * WRAP + ctr, nodes)
      ensures laps < WRAP ==> (id, generation) !in issued
    {
      hide AllPassed;
      ghost var free :| 0 < free < UNKNOWN_INO && free !in nodes;
      AdvanceCtr();
      NonePassed(old(laps) * WRAP + old(ctr), nodes);
      while ctr == 0 || ctr == UNKNOWN_INO || ctr in nodes
        invariant ctr < WRAP && generation == laps % WRAP
        invariant laps * WRAP + ctr > old(laps) * WRAP + old(ctr)
        invariant AllPassed(old(laps) * WRAP + old(ctr), laps * WRAP + ctr, nodes)
        decreases if ctr <= free then free - ctr else free + WRAP - ctr
      {
        PassOne(old(laps) * WRAP + old(ctr), laps, ctr, nodes);
        AdvanceCtr();
      }
      id := ctr;
    }

    /** The body of the loop of `next_id` */
    method AdvanceCtr()
      requires ctr < WRAP && generation == laps % WRAP
      modifies this`ctr, this`generation, this`laps
      ensures ctr == if old(ctr) + 1 < WRAP then old(ctr) + 1 else 0
      ensures generation == laps % WRAP && laps * WRAP + ctr == old(laps) * WRAP + old(ctr) + 1
    {
      ctr := (ctr + 1) % WRAP;
      if ctr == 0 {
        generation := (generation + 1) % WRAP;
        laps := laps + 1;
      }
    }

    /** `find_node`: the kernel gets one more lookup of the node, which is created if it has to be. */
    method FindNode(parent: Ino, name: Option<string>) returns (n: Ino)
      requires Valid() && parent in nodes
      requires exists x :: 0 < x < UNKNOWN_INO && x !in nodes
      modifies this`nodes, this`names, this`ctr, this`generation, this`laps, this`issued
      ensures Valid() && n in nodes
      ensures name.None? ==> n == parent
      ensures name.Some? ==> (parent, name.value) in names && names[(parent, name.value)] == n
      ensures n in old(nodes) ==> View() == LookedUp(old(View()), n) && issued == old(issued)
      ensures nodes[n].nlookup == 1 + if n in old(nodes) then old(nodes)[n].nlookup else 0
      ensures forall m | m in old(nodes) && m != n :: m in nodes && nodes[m].nlookup == old(nodes)[m].nlookup
      ensures n !in old(nodes) ==>
                && name.Some? && (parent, name.value) !in old(names) && 0 < n < UNKNOWN_INO
                && nodes[n] == Inode(1, 1, generation, Linked(parent, name.value))
                && View() == LookedUp(Named(Allocated(old(View()), n, generation), n, parent, name.value), n)
                && (laps < WRAP ==> (n, generation) !in old(issued))
                && issued == old(issued) + [(n, generation)]
      ensures laps >= old(laps)
    {
      hide Sane, Acyclic, AllIssued, IssuedUpTo;
      ghost var s := View();
      ghost var added := {};
      if name.None? {
        n := parent;
      } else if (parent, name.value) in names {
        NameIsOf(s, (parent, name.value));
        n := names[(parent, name.value)];
      } else {
        n := AddFresh(parent, name.value);
        added := {n};
      }
      ghost var s1 := View();
      IncNlookup(n, added);
      GenerationsIssued(s1.nodes, nodes, issued);
    }

    /** The part of `find_node` for a new name: a fresh node that nothing refers to yet gets an id and the name. */
    method AddFresh(parent: Ino, name: string) returns (n: Ino)
      requires Valid() && parent in nodes && (parent, name) !in names
      requires exists x :: 0 < x < UNKNOWN_INO && x !in nodes
      modifies this`nodes, this`names, this`ctr, this`generation, this`laps, this`issued
      ensures n !in old(nodes) && 0 < n < UNKNOWN_INO && Sane(View(), None, {n}) && IdsOk()
      ensures View() == Named(Allocated(old(View()), n, generation), n, parent, name)
      ensures laps < WRAP ==> (n, generation) !in old(issued)
      ensures issued == old(issued) + [(n, generation)] && laps >= old(laps)
    {
      hide Sane, Acyclic;
      ghost var s := View();
      n := NextId();
      AllocatedSane(s, n, generation, parent, name);
      RootThere(s);
      nodes := nodes[n := Inode(0, 0, generation, Detached)];
      HashName(n, parent, name, {n});
      IssueOne(issued, laps, (n, generation));
      issued := issued + [(n, generation)];
    }

    /** `inc_nlookup` */
    method IncNlookup(n: Ino, ghost dying: set<Ino>)
      requires Sane(View(), None, dying) && n in nodes && dying <= {n}
      modifies this`nodes
      ensures Inv(View()) && View() == LookedUp(old(View()), n)
    {
      hide Sane;
      ghost var s := View();
      LookedUpSane(s, dying, n);
      if nodes[n].nlookup == 0 {
        nodes := nodes[n := nodes[n].(refctr := nodes[n].refctr + 1)];
      }
      nodes := nodes[n := nodes[n].(nlookup := nodes[n].nlookup + 1)];
      assert nodes == LookedUp(s, n).nodes;
    }

    /** The cache as `fuse_new` sets it up: the root only, looked up once. */
    constructor ()
      ensures Valid() && freed == []
      ensures nodes == map[ROOT := Inode(1, 1, 0, Detached)] && names == map[] && dots == multiset{}
    {
      nodes := map[ROOT := Inode(1, 1, 0, Detached)];
      names := map[];
      dots := multiset{};
      freed := [];
      ctr, generation, laps, issued := 0, 0, 0, [];
      new;
      assert ClimbEnds(LinksOf(nodes), ROOT, [], ROOT);
      assert Children(names, ROOT) == {};
      assert CountedAt(View(), None, {}, ROOT);
    }
  }
}
