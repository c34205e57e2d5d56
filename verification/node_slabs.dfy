/**
  The slab allocator under the inode cache: pages that begin with a header and hold nodes up to
  their end, on a list of slabs with free nodes or on a list of full ones.
 */
module NodeSlabs {
  import opened Wrappers
  import opened Arithmetic
  import opened Lists

  type Addr = nat

  /** `node_to_slab`: masking with the complement of the page size minus one, a power of two. */
  function SlabOf(page: nat, node: Addr): Addr
    requires page > 0
  {
    node - node % page
  }

  /** `(f->pagesize - sizeof(struct node_slab)) / node_size` */
  function Capacity(page: nat, header: nat, size: nat): nat
    requires size > 0 && header <= page
  {
    (page - header) / size
  }

  /** The address of the i-th node of a slab with num nodes. */
  function NodeAt(page: nat, size: nat, num: nat, slab: Addr, i: nat): Addr
    requires num * size <= page && i < num
  {
    slab + (page - num * size) + i * size
  }

  lemma TimesMono(a: nat, b: nat, c: nat)
    requires a <= b
    ensures a * c <= b * c
  {
  }

  /** As many nodes as fit behind the header, and one more would not. */
  lemma CapacityFits(page: nat, header: nat, size: nat)
    requires size > 0 && header <= page
    ensures var n := Capacity(page, header, size);
            header + n * size <= page < header + (n + 1) * size
  {
    var n := Capacity(page, header, size);
    assert page - header == size * n + (page - header) % size;
    assert (n + 1) * size == n * size + size;
  }

  /** A node lies in its page behind the header, and does not overlap any other node of the page. */
  lemma NodePlace(page: nat, size: nat, num: nat, slab: Addr, i: nat)
    requires size > 0 && num * size <= page && i < num
    ensures var n := NodeAt(page, size, num, slab, i);
            && slab + (page - num * size) <= n && n + size <= slab + page
            && forall j: nat | i < j < num :: n + size <= NodeAt(page, size, num, slab, j)
  {
    TimesMono(i + 1, num, size);
    assert (i + 1) * size == i * size + size;
    forall j: nat | i < j < num
      ensures NodeAt(page, size, num, slab, i) + size <= NodeAt(page, size, num, slab, j)
    {
      TimesMono(i + 1, j, size);
    }
  }

  /** Masking the address of a node finds the slab it lies in. */
  lemma MaskFindsSlab(page: nat, size: nat, num: nat, slab: Addr, i: nat)
    requires size > 0 && 0 < num * size < page && i < num && slab % page == 0
    ensures SlabOf(page, NodeAt(page, size, num, slab, i)) == slab
  {
    NodePlace(page, size, num, slab, i);
    var n := NodeAt(page, size, num, slab, i);
    assert slab == page * (slab / page);
    RemainderIs(n, page, slab / page, n - slab);
  }

  /** The addresses of all nodes of a slab. */
  ghost function NodesOf(page: nat, size: nat, num: nat, slab: Addr): set<Addr>
    requires num * size <= page
  {
    set i: nat | i < num :: NodeAt(page, size, num, slab, i)
  }

  lemma {:induction false} NodesOfSize(page: nat, size: nat, num: nat, slab: Addr, k: nat)
    requires size > 0 && num * size <= page && k <= num
    ensures |set i: nat | i < k :: NodeAt(page, size, num, slab, i)| == k
  {
    var s := set i: nat | i < k :: NodeAt(page, size, num, slab, i);
    if k == 0 {
      assert s == {};
    } else {
      var t := set i: nat | i < k - 1 :: NodeAt(page, size, num, slab, i);
      NodesOfSize(page, size, num, slab, k - 1);
      var last := NodeAt(page, size, num, slab, k - 1);
      forall i: nat | i < k - 1
        ensures NodeAt(page, size, num, slab, i) != last
      {
        NodePlace(page, size, num, slab, i);
      }
      assert s == t + {last};
    }
  }

  lemma AllNodesSize(page: nat, size: nat, num: nat, slab: Addr)
    requires size > 0 && num * size <= page
    ensures |NodesOf(page, size, num, slab)| == num
  {
    NodesOfSize(page, size, num, slab, num);
  }

  lemma FullSet(a: set<Addr>, b: set<Addr>)
    requires a <= b && |a| >= |b|
    ensures a == b
  {
    assert |b - a| == |b| - |a|;
  }

  /** `struct node_slab` without its list links */
  datatype Slab = Slab(used: nat, freelist: seq<Addr>)

  class SlabAllocator {
    const page: nat
    const header: nat
    const size: nat
    const num: nat

    var slabs: map<Addr, Slab>     // the pages that are mapped
    var partial: seq<Addr>         // f->partial_slabs
    var full: seq<Addr>            // f->full_slabs

    /** The nodes that were handed out and not given back. */
    ghost var live: set<Addr>

    ghost predicate Geometry() {
      size > 0 && 0 < header <= page && num == Capacity(page, header, size) && num > 0 && num * size < page
    }

    /** The free list holds the free nodes, each once, and the rest is in use. */
    ghost predicate SlabOk(a: Addr)
      requires Geometry() && a in slabs
      reads this
    {
      var s := slabs[a];
      && a % page == 0 && s.used + |s.freelist| == num
      && Distinct(s.freelist) && forall x | x in s.freelist :: x in NodesOf(page, size, num, a)
    }

    /** A node that is in use, as its address and the slab found by masking it tell. */
    ghost predicate InUse(n: Addr)
      requires Geometry()
      reads this
    {
      var a := SlabOf(page, n);
      a in slabs && n in NodesOf(page, size, num, a) && n !in slabs[a].freelist
    }

    /** Partial slabs are those with a free node, full ones those without. */
    ghost predicate ListsOk()
      reads this
    {
      && Distinct(partial) && Distinct(full)
      && (forall a :: a in partial <==> a in slabs && slabs[a].used < num)
      && (forall a :: a in full <==> a in slabs && slabs[a].used == num)
    }

    ghost predicate Sound()
      reads this
    {
      && Geometry()
      && (forall a {:trigger SlabOk(a)} | a in slabs :: SlabOk(a))
      && ListsOk()
      && (forall n {:trigger InUse(n)} {:trigger n in live} :: n in live <==> InUse(n))
    }

    /** Between operations no slab is mapped in vain. */
    ghost predicate Valid()
      reads this
    {
      Sound() && forall a | a in slabs :: slabs[a].used > 0
    }

    constructor (page: nat, header: nat, size: nat)
      requires size > 0 && 0 < header <= page && Capacity(page, header, size) > 0
      ensures Valid() && live == {} && this.page == page && this.header == header && this.size == size
    {
      CapacityFits(page, header, size);
      this.page, this.header, this.size, num := page, header, size, Capacity(page, header, size);
      slabs, partial, full, live := map[], [], [], {};
    }

    /** `alloc_slab`, when mmap returns the page at mem: all nodes of the slab are free. */
    method AllocSlab(mem: Addr)
      requires Sound() && mem !in slabs && mem % page == 0
      modifies this`slabs, this`partial
      ensures Sound() && partial == old(partial) + [mem]
      ensures mem in slabs && slabs[mem].used == 0 && slabs == old(slabs)[mem := slabs[mem]]
    {
      hide Capacity, NodesOf, Distinct;
      var start := mem + page - num * size;
      var freelist: seq<Addr> := [];
      NoNodes(page, size, num, mem);
      NothingTwice<Addr>();
      var i := 0;
      while i < num
        invariant unchanged(this) && i <= num && |freelist| == i && Distinct(freelist)
        invariant forall x :: x in freelist <==> x in FirstNodes(page, size, num, mem, i)
      {
        NodeIsNew(page, size, num, mem, i);
        AppendDistinct<Addr>(freelist, start + i * size);
        freelist := freelist + [start + i * size];
        i := i + 1;
      }
      AllNodes(page, size, num, mem);
      AppendDistinct<Addr>(partial, mem);
      slabs := slabs[mem := Slab(0, freelist)];
      partial := partial + [mem];
      forall a | a in slabs
        ensures SlabOk(a)
      {
        assert a != mem ==> old(a in slabs && SlabOk(a));
      }
      forall n
        ensures n in live <==> InUse(n)
      {
        assert n in live <==> old(InUse(n));
      }
    }
  
    /** `alloc_node`; mem is the page that mmap returns if one is needed. */
    method AllocNode(mem: Option<Addr>) returns (node: Option<Addr>)
      requires Valid() && (mem.Some? ==> mem.value !in slabs && mem.value % page == 0)
      modifies this`slabs, this`partial, this`full, this`live
      ensures Valid()
      ensures node.None? <==> old(partial) == [] && mem.None?
      ensures node.Some? ==> node.value !in old(live) && live == old(live) + {node.value}
      ensures node.None? ==> live == old(live) && slabs == old(slabs)
      ensures old(partial) != [] ==> slabs.Keys == old(slabs).Keys && SlabOf(page, node.value) == old(partial)[0]
      ensures old(partial) == [] && mem.Some? ==>
                slabs.Keys == old(slabs).Keys + {mem.value} && SlabOf(page, node.value) == mem.value
    {
      hide Distinct, NodesOf, Capacity, SlabOf;
      if |partial| == 0 {
        if mem.None? {
          return None;
        }
        AllocSlab(mem.value);
      }
      var n := TakeNode();
      node := Some(n);
    }

    /** The part of `alloc_node` that takes the first free node of the first partial slab. */
    method TakeNode() returns (node: Addr)
      requires Sound() && |partial| > 0 && forall a | a in slabs && a != partial[0] :: slabs[a].used > 0
      modifies this`slabs, this`partial, this`full, this`live
      ensures Valid() && slabs.Keys == old(slabs).Keys
      ensures node !in old(live) && live == old(live) + {node} && SlabOf(page, node) == old(partial)[0]
    {
      hide Distinct, NodesOf, Capacity;
      var slab := partial[0];
      assert SlabOk(slab);
      var s := slabs[slab];
      node := s.freelist[0];
      FirstOf<Addr>(s.freelist);
      MaskOfNode(node, slab);
      slabs := slabs[slab := Slab(s.used + 1, s.freelist[1..])];
      if |s.freelist| == 1 {
        FirstOf<Addr>(partial);
        AppendDistinct<Addr>(full, slab);
        partial := partial[1..];
        full := full + [slab];
      }
      live := live + {node};
      forall a | a in slabs
        ensures SlabOk(a)
      {
        assert old(SlabOk(a));
      }
      forall n
        ensures n in live <==> InUse(n)
      {
        assert old(n in live <==> InUse(n));
      }
    }

    /** `free_slab`: the slab goes, with the last node of it that was in use. */
    method FreeSlab(slab: Addr, ghost node: Addr)
      requires Valid() && node in live && slab == SlabOf(page, node) && slabs[slab].used == 1
      modifies this`slabs, this`partial, this`full, this`live
      ensures Valid() && live == old(live) - {node} && slabs.Keys == old(slabs).Keys - {slab}
    {
      hide Distinct, NodesOf, Capacity, Without;
      assert InUse(node) && SlabOk(slab);
      LastNode(slab, node);
      WithoutIs<Addr>(partial, slab);
      WithoutIs<Addr>(full, slab);
      partial := Without(partial, slab);
      full := Without(full, slab);
      slabs := slabs - {slab};
      live := live - {node};
      forall a | a in slabs
        ensures SlabOk(a)
      {
        assert old(SlabOk(a));
      }
      forall n
        ensures n in live <==> InUse(n)
      {
        assert old(n in live <==> InUse(n));
      }
    }

    /** The part of `free_node_mem` for a node that is not the last of its slab. */
    method PutBack(node: Addr, slab: Addr)
      requires Valid() && node in live && slab == SlabOf(page, node) && slab in slabs && slabs[slab].used > 1
      modifies this`slabs, this`partial, this`full, this`live
      ensures Valid() && live == old(live) - {node} && slabs.Keys == old(slabs).Keys
    {
      hide Distinct, NodesOf, Capacity, SlabOf, Without;
      assert InUse(node) && SlabOk(slab);
      var s := slabs[slab];
      if |s.freelist| == 0 {
        WithoutIs<Addr>(full, slab);
        AppendDistinct<Addr>(partial, slab);
        full := Without(full, slab);
        partial := partial + [slab];
      }
      AppendDistinct<Addr>(s.freelist, node);
      slabs := slabs[slab := Slab(s.used - 1, [node] + s.freelist)];
      live := live - {node};
      forall a | a in slabs
        ensures SlabOk(a)
      {
        assert old(SlabOk(a));
      }
      forall n
        ensures n in live <==> InUse(n)
      {
        assert old(n in live <==> InUse(n));
      }
    }

    /** `free_node_mem`, and `free_slab` when it was the last node of its slab. */
    method FreeNodeMem(node: Addr)
      requires Valid() && node in live
      modifies this`slabs, this`partial, this`full, this`live
      ensures Valid() && live == old(live) - {node}
      ensures SlabOf(page, node) in old(slabs)
      ensures slabs.Keys == if old(slabs)[SlabOf(page, node)].used == 1 then old(slabs).Keys - {SlabOf(page, node)}
                            else old(slabs).Keys
    {
      hide Distinct, NodesOf, Capacity, SlabOf;
      var slab := SlabOf(page, node);
      assert InUse(node) && SlabOk(slab);
      if slabs[slab].used - 1 > 0 {
        PutBack(node, slab);
      } else {
        FreeSlab(slab, node);
      }
    }

    /** When one node of a slab is in use, all others are on the free list. */
    lemma LastNode(slab: Addr, node: Addr)
      requires Geometry() && slab in slabs && SlabOk(slab) && slabs[slab].used == 1
      requires node in NodesOf(page, size, num, slab) && node !in slabs[slab].freelist
      ensures forall n | n in NodesOf(page, size, num, slab) && n != node :: n in slabs[slab].freelist
    {
      hide NodesOf, Distinct, Capacity;
      var l, all := slabs[slab].freelist, NodesOf(page, size, num, slab);
      var f := set x | x in l;
      DistinctSize<Addr>(l);
      AllNodesSize(page, size, num, slab);
      assert |all - {node}| == |all| - 1;
      FullSet(f, all - {node});
      assert forall n | n in f :: n in l;
    }

    /** Once every node has been given back, no slab is left. */
    lemma NothingLeft()
      requires Valid() && live == {}
      ensures partial == [] && full == [] && slabs == map[]
    {
      forall a | a in slabs
        ensures false
      {
        assert SlabOk(a);
        var l, all := slabs[a].freelist, NodesOf(page, size, num, a);
        DistinctSize<Addr>(l);
        NodesOfSize(page, size, num, a, num);
        if all <= (set x | x in l) {
          FullSet(all, (set x | x in l));
        }
        var n :| n in all && n !in l;
        MaskOfNode(n, a);
        assert InUse(n);
      }
      DistinctSize<Addr>(partial);
      DistinctSize<Addr>(full);
      assert (set a | a in partial) == {} && (set a | a in full) == {};
    }

    /** Live nodes do not overlap each other nor a slab's header, and lie in the slab that masking finds. */
    lemma LiveNodesApart(n: Addr, m: Addr)
      requires Valid() && n in live && m in live && n != m
      ensures var a := SlabOf(page, n);
              a in slabs && a % page == 0 && a + header <= n && n + size <= a + page
      ensures n + size <= m || m + size <= n
    {
      var a, b := SlabOf(page, n), SlabOf(page, m);
      assert InUse(n) && InUse(m) && SlabOk(a) && SlabOk(b);
      var i: nat :| i < num && n == NodeAt(page, size, num, a, i);
      var j: nat :| j < num && m == NodeAt(page, size, num, b, j);
      NodePlace(page, size, num, a, i);
      NodePlace(page, size, num, b, j);
      CapacityFits(page, header, size);
      if a != b {
        PagesApart(page, a, b);
      }
    }

    /** In every state between operations the counts add up, and the lists are what they should be. */
    lemma CountsAddUp(a: Addr)
      requires Valid() && a in slabs
      ensures slabs[a].used + |slabs[a].freelist| == num
      ensures |set n | n in live && SlabOf(page, n) == a| == slabs[a].used
      ensures a in partial <==> 0 < slabs[a].used < num
      ensures a in full <==> slabs[a].used == num
    {
      assert SlabOk(a);
      var l, all := slabs[a].freelist, NodesOf(page, size, num, a);
      DistinctSize<Addr>(l);
      NodesOfSize(page, size, num, a, num);
      var f, mine := (set x | x in l), (set n | n in live && SlabOf(page, n) == a);
      forall n
        ensures n in mine <==> n in all && n !in f
      {
        if n in all {
          MaskOfNode(n, a);
        }
        assert n in live <==> InUse(n);
      }
      assert mine == all - f && f <= all;
    }

    lemma MaskOfNode(n: Addr, slab: Addr)
      requires Geometry() && slab % page == 0 && n in NodesOf(page, size, num, slab)
      ensures SlabOf(page, n) == slab
    {
      var i: nat :| i < num && n == NodeAt(page, size, num, slab, i);
      TimesPositive(num, size);
      MaskFindsSlab(page, size, num, slab, i);
    }
  }

  lemma PagesApart(page: nat, a: nat, b: nat)
    requires page > 0 && a % page == 0 && b % page == 0 && a != b
    ensures a + page <= b || b + page <= a
  {
    var i, j := a / page, b / page;
    assert a == i * page && b == j * page;
    assert (i + 1) * page == i * page + page && (j + 1) * page == j * page + page;
    if i < j {
      TimesMono(i + 1, j, page);
    } else {
      TimesMono(j + 1, i, page);
    }
  }

  lemma TimesPositive(a: nat, b: nat)
    requires a > 0 && b > 0
    ensures a * b > 0
  {
  }

  lemma NothingTwice<T>()
    ensures Distinct<T>([])
  {
  }

  lemma FirstOf<T>(l: seq<T>)
    requires Distinct(l) && l != []
    ensures Distinct(l[1..]) && l[0] in l && l[0] !in l[1..]
    ensures forall y :: y in l <==> y == l[0] || y in l[1..]
  {
    assert l == [l[0]] + l[1..];
  }

  /** The addresses of the first k nodes of a slab. */
  ghost function FirstNodes(page: nat, size: nat, num: nat, slab: Addr, k: nat): set<Addr>
    requires num * size <= page && k <= num
  {
    set i: nat | i < k :: NodeAt(page, size, num, slab, i)
  }

  lemma NoNodes(page: nat, size: nat, num: nat, slab: Addr)
    requires num * size <= page
    ensures FirstNodes(page, size, num, slab, 0) == {}
  {
  }

  lemma AllNodes(page: nat, size: nat, num: nat, slab: Addr)
    requires num * size <= page
    ensures FirstNodes(page, size, num, slab, num) == NodesOf(page, size, num, slab)
  {
  }

  lemma NodeIsNew(page: nat, size: nat, num: nat, slab: Addr, i: nat)
    requires size > 0 && num * size <= page && i < num
    ensures var n := NodeAt(page, size, num, slab, i);
            && n == slab + page - num * size + i * size
            && n !in FirstNodes(page, size, num, slab, i)
            && FirstNodes(page, size, num, slab, i + 1) == FirstNodes(page, size, num, slab, i) + {n}
  {
    forall j: nat | j < i
      ensures NodeAt(page, size, num, slab, j) != NodeAt(page, size, num, slab, i)
    {
      NodePlace(page, size, num, slab, j);
    }
  }
}
