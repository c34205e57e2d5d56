/**
  The per-node tree lock: one signed 32-bit counter that stands for "free", "n readers",
  "n readers and a waiting writer" or "one writer".
 */
module LockCounts {
  import opened Wrappers
  import opened Lists
  import opened Tree

  /** TREELOCK_WRITE, and TREELOCK_WAIT_OFFSET, which is INT_MIN. */
  const WRITE := -1
  const WAIT_OFFSET := -0x8000_0000
  const INT_MAX := 0x7fff_ffff

  type ReqId = nat
  datatype Which = First | Second
  datatype HoldId = HoldId(req: ReqId, which: Which)

  type Counters = map<Ino, int>

  /** The nodes one locked path reads, and the node it writes if there is one. */
  datatype Grant = Grant(rd: set<Ino>, w: Option<Ino>)
  type Grants = map<HoldId, Grant>

  ghost function Readers(g: Grants, n: Ino): set<HoldId> {
    set id | id in g && n in g[id].rd
  }

  ghost function Writers(g: Grants, n: Ino): set<HoldId> {
    set id | id in g && g[id].w == Some(n)
  }

  ghost predicate Encodes(v: int, readers: nat, writers: nat) {
    if writers == 0 then v == readers || (readers >= 1 && v == WAIT_OFFSET + readers)
    else writers == 1 && readers == 0 && v == WRITE
  }

  ghost predicate AccountedAt(lk: Counters, g: Grants, n: Ino)
    requires n in lk
  {
    Encodes(lk[n], |Readers(g, n)|, |Writers(g, n)|)
  }

  ghost predicate Accounted(lk: Counters, g: Grants) {
    && |g| < INT_MAX
    && forall n {:trigger AccountedAt(lk, g, n)} | n in lk :: AccountedAt(lk, g, n)
  }

  function Raise(lk: Counters, c: set<Ino>): Counters {
    map n | n in lk :: if n in c then lk[n] + 1 else lk[n]
  }

  function Lowered(v: int): int {
    if v - 1 == WAIT_OFFSET then 0 else v - 1
  }

  function Lower(lk: Counters, c: set<Ino>): Counters {
    map n | n in lk :: if n in c then Lowered(lk[n]) else lk[n]
  }

  function SetLock(lk: Counters, w: Option<Ino>, v: int): Counters {
    if w.Some? then lk[w.value := v] else lk
  }

  lemma HoldersBounded(g: Grants, n: Ino)
    ensures |Readers(g, n)| <= |g| && |Writers(g, n)| <= |g|
  {
    assert |g.Keys| == |g|;
    SubsetSize(Readers(g, n), g.Keys);
    SubsetSize(Writers(g, n), g.Keys);
  }

  /** The counter alone tells free from read from written. */
  lemma CounterMeaning(lk: Counters, g: Grants, n: Ino)
    requires Accounted(lk, g) && n in lk
    ensures lk[n] == 0 <==> Readers(g, n) == {} && Writers(g, n) == {}
    ensures lk[n] == WRITE <==> |Writers(g, n)| == 1 && Readers(g, n) == {}
    ensures lk[n] == WRITE <==> Writers(g, n) != {}
    ensures lk[n] > 0 ==> lk[n] == |Readers(g, n)| && Writers(g, n) == {}
    ensures lk[n] < WRITE ==> lk[n] == WAIT_OFFSET + |Readers(g, n)| && Readers(g, n) != {} && Writers(g, n) == {}
    ensures WAIT_OFFSET < lk[n] < INT_MAX
  {
    assert AccountedAt(lk, g, n);
    HoldersBounded(g, n);
  }

  lemma MarkKeepsAccount(lk: Counters, g: Grants, w: Ino)
    requires Accounted(lk, g) && w in lk && lk[w] > 0
    ensures Accounted(lk[w := lk[w] + WAIT_OFFSET], g)
  {
    CounterMeaning(lk, g, w);
    forall n | n in lk
      ensures AccountedAt(lk[w := lk[w] + WAIT_OFFSET], g, n)
    {
      assert AccountedAt(lk, g, n);
    }
  }

  lemma HoldersAfterTake(g: Grants, id: HoldId, h: Grant, n: Ino)
    requires id !in g
    ensures |Readers(g[id := h], n)| == |Readers(g, n)| + if n in h.rd then 1 else 0
    ensures |Writers(g[id := h], n)| == |Writers(g, n)| + if h.w == Some(n) then 1 else 0
  {
    var g' := g[id := h];
    assert Readers(g', n) - {id} == Readers(g, n) && (id in Readers(g', n) <==> n in h.rd);
    assert Writers(g', n) - {id} == Writers(g, n) && (id in Writers(g', n) <==> h.w == Some(n));
  }

  lemma TakeKeepsAccount(lk: Counters, g: Grants, id: HoldId, h: Grant)
    requires Accounted(lk, g) && id !in g && |g| + 1 < INT_MAX
    requires h.w.Some? ==> h.w.value in lk && lk[h.w.value] == 0 && h.w.value !in h.rd
    requires forall n | n in h.rd && n in lk :: lk[n] >= 0
    ensures Accounted(Raise(SetLock(lk, h.w, WRITE), h.rd), g[id := h])
  {
    var lk', g' := Raise(SetLock(lk, h.w, WRITE), h.rd), g[id := h];
    assert |g'| == |g| + 1;
    forall n | n in lk'
      ensures AccountedAt(lk', g', n)
    {
      CounterMeaning(lk, g, n);
      HoldersAfterTake(g, id, h, n);
    }
  }

  /** The assertions of `unlock_path` hold of every grant at any time. */
  lemma GrantAsserts(lk: Counters, g: Grants, id: HoldId)
    requires Accounted(lk, g) && id in g
    ensures g[id].w.Some? && g[id].w.value in lk ==> lk[g[id].w.value] == WRITE && g[id].w.value !in g[id].rd
    ensures forall n | n in g[id].rd && n in lk :: lk[n] != 0 && lk[n] != WAIT_OFFSET && lk[n] != WRITE
  {
    forall n | n in lk
      ensures g[id].w == Some(n) ==> lk[n] == WRITE && n !in g[id].rd
      ensures n in g[id].rd ==> lk[n] != 0 && lk[n] != WAIT_OFFSET && lk[n] != WRITE
    {
      CounterMeaning(lk, g, n);
      assert n in g[id].rd ==> id in Readers(g, n);
      assert g[id].w == Some(n) ==> id in Writers(g, n);
    }
  }

  lemma GiveBackKeepsAccount(lk: Counters, g: Grants, id: HoldId)
    requires Accounted(lk, g) && id in g && (g[id].w.Some? ==> g[id].w.value in lk)
    ensures Accounted(Lower(SetLock(lk, g[id].w, 0), g[id].rd), g - {id})
  {
    hide Readers, Writers;
    var h := g[id];
    var lk', g' := Lower(SetLock(lk, h.w, 0), h.rd), g - {id};
    assert g'.Keys == g.Keys - {id} && |g'| == |g'.Keys| && |g| == |g.Keys|;
    GrantAsserts(lk, g, id);
    forall n | n in lk'
      ensures AccountedAt(lk', g', n)
    {
      CounterMeaning(lk, g, n);
      HoldersAfterGivingBack(g, id, n);
    }
  }

  lemma HoldersAfterGivingBack(g: Grants, id: HoldId, n: Ino)
    requires id in g
    ensures |Readers(g - {id}, n)| == |Readers(g, n)| - if n in g[id].rd then 1 else 0
    ensures |Writers(g - {id}, n)| == |Writers(g, n)| - if g[id].w == Some(n) then 1 else 0
    ensures Writers(g - {id}, n) == Writers(g, n) - {id} && Readers(g - {id}, n) == Readers(g, n) - {id}
  {
    assert id in Readers(g, n) <==> n in g[id].rd;
    assert id in Writers(g, n) <==> g[id].w == Some(n);
    assert Readers(g - {id}, n) == Readers(g, n) - {id};
    assert Writers(g - {id}, n) == Writers(g, n) - {id};
  }

  /** Taking and giving back is the identity on the counters. */
  lemma GiveBackUndoesTake(lk: Counters, g: Grants, h: Grant)
    requires Accounted(lk, g)
    requires h.w.Some? ==> h.w.value in lk && lk[h.w.value] == 0 && h.w.value !in h.rd
    requires forall n | n in h.rd && n in lk :: lk[n] >= 0
    ensures Lower(SetLock(Raise(SetLock(lk, h.w, WRITE), h.rd), h.w, 0), h.rd) == lk
  {
    forall n | n in lk
      ensures n in h.rd ==> Lowered(lk[n] + 1) == lk[n]
    {
      CounterMeaning(lk, g, n);
    }
  }

  /** A fresh node starts free, and a free node can go. */
  lemma FreshKeepsAccount(lk: Counters, g: Grants, n: Ino)
    requires Accounted(lk, g) && forall id | id in g :: n !in g[id].rd && g[id].w != Some(n)
    ensures Accounted(lk[n := 0], g) && Accounted(lk - {n}, g)
  {
    assert Readers(g, n) == {} && Writers(g, n) == {};
    forall m | m in lk || m == n
      ensures AccountedAt(lk[n := 0], g, m) && (m in lk && m != n ==> AccountedAt(lk - {n}, g, m))
    {
      assert m in lk ==> AccountedAt(lk, g, m);
    }
  }

  lemma FreeIsUnmentioned(lk: Counters, g: Grants, n: Ino)
    requires Accounted(lk, g) && n in lk && lk[n] == 0
    ensures forall id | id in g :: n !in g[id].rd && g[id].w != Some(n)
  {
    CounterMeaning(lk, g, n);
    forall id | id in g
      ensures n !in g[id].rd && g[id].w != Some(n)
    {
      assert n in g[id].rd ==> id in Readers(g, n);
      assert g[id].w == Some(n) ==> id in Writers(g, n);
    }
  }
}
