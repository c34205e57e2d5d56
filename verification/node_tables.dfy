/**
  The two incremental linear-hash tables of the inode cache.  A table grows by splitting one bucket
  per insertion and shrinks by merging buckets back, and all the time it stands for a finite map.
 */
module NodeTables {
  import opened Wrappers
  import opened Arithmetic

  /** NODE_TABLE_MIN_SIZE */
  const MIN_SIZE := 8192

  /** The full hash of a node id: a 32-bit product. */
  function IdHash(ino: nat): nat {
    (ino % 0x1_0000_0000 * 2654435761) % 0x1_0000_0000
  }

  /** The multiplier is odd, so no two ids below 2^32 share a hash: the id can be computed back. */
  lemma IdHashDistinct(ino: nat)
    ensures IdHash(ino) * 244002641 % 0x1_0000_0000 == ino % 0x1_0000_0000
  {
    var a := ino % 0x1_0000_0000;
    var q, h := Divide(a * 2654435761, 0x1_0000_0000);
    var k := a * 150801925 - q * 244002641;
    assert h * 244002641 == 0x1_0000_0000 * k + a;
    RemainderIs(h * 244002641, 0x1_0000_0000, k, a);
  }

  /** The full hash of a parent id and a name, a 64-bit polynomial in the bytes of the name. */
  function NameHash(parent: nat, name: seq<nat>): nat {
    if name == [] then parent % 0x1_0000_0000_0000_0000
    else (NameHash(parent, name[..|name| - 1]) * 31 + name[|name| - 1]) % 0x1_0000_0000_0000_0000
  }

  function Power31(k: nat): nat {
    if k == 0 then 1 else 31 * Power31(k - 1)
  }

  /** The bytes as digits to the base 31, the first one the most significant. */
  function Digits31(name: seq<nat>): nat {
    if name == [] then 0 else name[0] * Power31(|name| - 1) + Digits31(name[1..])
  }

  lemma {:induction false} DigitsNext(name: seq<nat>, c: nat)
    ensures Digits31(name + [c]) == 31 * Digits31(name) + c
  {
    if name == [] {
      assert [] + [c] == [c] && [c][1..] == [];
    } else {
      DigitsNext(name[1..], c);
      assert (name + [c])[1..] == name[1..] + [c];
      TimesThrice(name[0], Power31(|name| - 1));
    }
  }

  lemma TimesThrice(a: nat, b: nat)
    ensures a * (31 * b) == 31 * (a * b)
  {
  }

  lemma WrapsOnce(x: nat, c: nat, y: nat)
    requires y == x % 0x1_0000_0000_0000_0000
    ensures (y * 31 + c) % 0x1_0000_0000_0000_0000 == (x * 31 + c) % 0x1_0000_0000_0000_0000
  {
    var q, r := Divide(x, 0x1_0000_0000_0000_0000);
    var q', r' := Divide(y * 31 + c, 0x1_0000_0000_0000_0000);
    RemainderIs(x * 31 + c, 0x1_0000_0000_0000_0000, 31 * q + q', r');
  }

  /** Wrapping around at every step is the same as doing so once in the end. */
  lemma {:induction false} NameHashIs(parent: nat, name: seq<nat>)
    ensures NameHash(parent, name) == (parent * Power31(|name|) + Digits31(name)) % 0x1_0000_0000_0000_0000
  {
    if name != [] {
      var front, c := name[..|name| - 1], name[|name| - 1];
      NameHashIs(parent, front);
      assert name == front + [c];
      DigitsNext(front, c);
      TimesThrice(parent, Power31(|front|));
      WrapsOnce(parent * Power31(|front|) + Digits31(front), c, NameHash(parent, front));
    }
  }

  /** `id_hash` and `name_hash` below the full hash: the bucket for the current size and split. */
  function Bucket(h: nat, size: nat, split: nat): nat
    requires size >= 2
  {
    var hash := h % size;
    var oldhash := hash % (size / 2);
    if oldhash >= split then oldhash else hash
  }

  /** The loop of `name_hash`, wrapping around at 64 bits. */
  method ComputeNameHash(parent: nat, name: seq<nat>, size: nat, split: nat) returns (bucket: nat)
    requires size >= 2
    ensures bucket == Bucket(NameHash(parent, name), size, split)
  {
    var h := parent % 0x1_0000_0000_0000_0000;
    var i := 0;
    while i < |name|
      invariant i <= |name| && h == NameHash(parent, name[..i])
    {
      assert name[..i + 1][..i] == name[..i];
      h := (h * 31 + name[i]) % 0x1_0000_0000_0000_0000;
      i := i + 1;
    }
    assert name[..|name|] == name;
    bucket := Bucket(h, size, split);
  }

  /** Sizes the table can have: the smallest one, doubled any number of times. */
  ghost predicate TableSize(size: nat) {
    size == MIN_SIZE || (size % 2 == 0 && size / 2 >= MIN_SIZE && TableSize(size / 2))
  }

  /** The two remainders the buckets are made of. */
  lemma HalfMod(h: nat, n: nat)
    requires n > 0
    ensures (h % (2 * n)) % n == h % n
    ensures h % (2 * n) == h % n || h % (2 * n) == h % n + n
  {
    var q, r := Divide(h, 2 * n);
    RemainderByHalf(h, n, q, r);
  }

  /** Where a key sits, in terms of its hash modulo half the size. */
  lemma BucketIs(h: nat, size: nat, split: nat)
    requires size >= 2 && size % 2 == 0 && split <= size / 2
    ensures var n, low := size / 2, h % (size / 2);
            && low < n
            && (low >= split ==> Bucket(h, size, split) == low)
            && (low < split ==> Bucket(h, size, split) == low || Bucket(h, size, split) == low + n)
            && Bucket(h, size, split) < n + split
            && Bucket(h, size, n) == h % size
            && Bucket(h, size, 0) == low
  {
    HalfMod(h, size / 2);
  }

  /** Moving the split point by one only concerns the bucket it passes. */
  lemma BucketMoves(h: nat, size: nat, split: nat)
    requires size >= 2 && size % 2 == 0 && split < size / 2
    ensures var b, b' := Bucket(h, size, split), Bucket(h, size, split + 1);
            && (b != split ==> b' == b)
            && (b == split ==> b' == split || b' == split + size / 2)
            && (b' != split && b' != split + size / 2 ==> b == b')
            && (b' == split || b' == split + size / 2 ==> b == split)
  {
    HalfMod(h, size / 2);
  }

  /** Doubling after the last split, and halving after the last merge, moves nothing. */
  lemma BucketAtResize(h: nat, size: nat)
    requires size >= 2 && size % 2 == 0
    ensures Bucket(h, 2 * size, 0) == Bucket(h, size, size / 2)
  {
    BucketIs(h, size, size / 2);
    BucketIs(h, 2 * size, 0);
  }

  datatype Entry<K, V> = Entry(key: K, node: V)

  type Chain<K, V> = seq<Entry<K, V>>

  /** The entries of a chain are entries of the map, none twice. */
  ghost predicate ChainOk<K, V>(m: map<K, V>, s: Chain<K, V>) {
    && (forall i | 0 <= i < |s| :: s[i].key in m && m[s[i].key] == s[i].node)
    && (forall i, j | 0 <= i < j < |s| :: s[i].key != s[j].key)
  }

  ghost predicate DisjointKeys<K, V>(s: Chain<K, V>, t: Chain<K, V>) {
    forall i, j | 0 <= i < |s| && 0 <= j < |t| :: s[i].key != t[j].key
  }

  /** Relinking one entry from chain s to the front of chain t. */
  lemma RelinkKeepsChains<K, V>(m: map<K, V>, s: Chain<K, V>, i: nat, t: Chain<K, V>)
    requires ChainOk(m, s) && ChainOk(m, t) && i < |s| && DisjointKeys(s, t)
    ensures var s', t' := s[..i] + s[i + 1..], [s[i]] + t;
            && ChainOk(m, s') && ChainOk(m, t') && DisjointKeys(s', t')
            && (forall e :: e in s || e in t <==> e in s' || e in t')
  {
    var s', t' := s[..i] + s[i + 1..], [s[i]] + t;
    assert forall j | 0 <= j < |s'| :: s'[j] == s[if j < i then j else j + 1];
    assert s == s[..i] + [s[i]] + s[i + 1..];
    assert t'[1..] == t;
  }

  /** All entries of chain s belong into slot b. */
  ghost predicate Belongs<K, V>(hash: K -> nat, s: Chain<K, V>, size: nat, split: nat, b: nat)
    requires size >= 2
  {
    forall i | 0 <= i < |s| :: Bucket(hash(s[i].key), size, split) == b
  }

  ghost predicate Shape(len: nat, size: nat, split: nat) {
    TableSize(size) && size >= 2 && size % 2 == 0 && split <= size / 2 && size <= len
  }

  /** The table holds exactly the entries of m, each in the slot its hash asks for. */
  ghost predicate TableOk<K(!new), V>(hash: K -> nat, m: map<K, V>, slots: seq<Chain<K, V>>, size: nat, split: nat) {
    && Shape(|slots|, size, split)
    && (forall b | 0 <= b < size :: ChainOk(m, slots[b]) && Belongs(hash, slots[b], size, split, b))
    && (forall k | k in m :: Stored(hash, m, slots, size, split, k))
  }

  ghost predicate Stored<K, V>(hash: K -> nat, m: map<K, V>, slots: seq<Chain<K, V>>, size: nat, split: nat, k: K)
    requires size >= 2 && k in m
  {
    var b := Bucket(hash(k), size, split);
    b < size && b < |slots| && Entry(k, m[k]) in slots[b]
  }

  /** A key is looked for in one slot only, and found there if it is in the table. */
  lemma OneSlot<K(!new), V>(hash: K -> nat, m: map<K, V>, slots: seq<Chain<K, V>>, size: nat, split: nat, k: K)
    requires TableOk(hash, m, slots, size, split)
    ensures size >= 2
    ensures var b := Bucket(hash(k), size, split);
            && b < size <= |slots|
            && ChainOk(m, slots[b])
            && (k in m ==> Entry(k, m[k]) in slots[b])
  {
    BucketIs(hash(k), size, split);
    assert k in m ==> Stored(hash, m, slots, size, split, k);
  }

  lemma TableFits<K(!new), V>(hash: K -> nat, m: map<K, V>, slots: seq<Chain<K, V>>, size: nat, split: nat)
    requires TableOk(hash, m, slots, size, split)
    ensures size >= 2 && size % 2 == 0 && split <= size / 2 && size <= |slots|
  {
  }

  /** The slots from size/2 + split upward are empty. */
  lemma UpperSlotsEmpty<K(!new), V>(hash: K -> nat, m: map<K, V>, slots: seq<Chain<K, V>>, size: nat, split: nat,
      b: nat)
    requires TableOk(hash, m, slots, size, split) && size / 2 + split <= b < size
    ensures slots[b] == []
  {
    assert Belongs(hash, slots[b], size, split, b);
    if slots[b] != [] {
      BucketIs(hash(slots[b][0].key), size, split);
    }
  }

  // ---------------------------------------------------------------- splitting one slot

  /**
    Splitting slot h: the first `done` entries of its chain stay, the others are still to be looked
    at, and those that move are in slot up.
   */
  ghost predicate Splitting<K(!new), V>(hash: K -> nat, m: map<K, V>, slots: seq<Chain<K, V>>, size: nat, h: nat,
      done: nat) {
    && Shape(|slots|, size, h + 1)
    && (forall b | 0 <= b < size && b != h && b != h + size / 2 ::
        ChainOk(m, slots[b]) && Belongs(hash, slots[b], size, h + 1, b))
    && ChainOk(m, slots[h + size / 2]) && Belongs(hash, slots[h + size / 2], size, h + 1, h + size / 2)
    && done <= |slots[h]| && ChainOk(m, slots[h]) && Belongs(hash, slots[h][..done], size, h + 1, h)
    && Belongs(hash, slots[h], size, h, h)
    && DisjointKeys(slots[h], slots[h + size / 2])
    && (forall k | k in m :: StoredMeanwhile(hash, m, slots, size, h, k))
  }

  ghost predicate StoredMeanwhile<K, V>(hash: K -> nat, m: map<K, V>, slots: seq<Chain<K, V>>, size: nat, h: nat, k: K)
    requires size >= 2 && k in m && h + size / 2 < |slots|
  {
    var b := Bucket(hash(k), size, h + 1);
    if b == h || b == h + size / 2 then Entry(k, m[k]) in slots[h] || Entry(k, m[k]) in slots[h + size / 2]
    else b < size && b < |slots| && Entry(k, m[k]) in slots[b]
  }

  lemma SplitStarts<K(!new), V>(hash: K -> nat, m: map<K, V>, slots: seq<Chain<K, V>>, size: nat, h: nat)
    requires TableOk(hash, m, slots, size, h) && h < size / 2
    ensures Splitting(hash, m, slots, size, h, 0)
  {
    hide Bucket;
    UpperSlotsEmpty(hash, m, slots, size, h, h + size / 2);
    forall b | 0 <= b < size && b != h
      ensures Belongs(hash, slots[b], size, h + 1, b)
    {
      assert Belongs(hash, slots[b], size, h, b);
      forall i | 0 <= i < |slots[b]|
        ensures Bucket(hash(slots[b][i].key), size, h + 1) == b
      {
        BucketMoves(hash(slots[b][i].key), size, h);
      }
    }
    forall k | k in m
      ensures StoredMeanwhile(hash, m, slots, size, h, k)
    {
      assert Stored(hash, m, slots, size, h, k);
      BucketMoves(hash(k), size, h);
    }
  }

  /** An entry whose bucket is still the lower slot stays where it is. */
  lemma SplitStays<K(!new), V>(hash: K -> nat, m: map<K, V>, slots: seq<Chain<K, V>>, size: nat, h: nat, i: nat)
    requires Splitting(hash, m, slots, size, h, i) && i < |slots[h]|
    requires Bucket(hash(slots[h][i].key), size, h + 1) == h
    ensures Splitting(hash, m, slots, size, h, i + 1)
  {
    hide Bucket, ChainOk, DisjointKeys, StoredMeanwhile, TableSize;
    assert slots[h][..i + 1] == slots[h][..i] + [slots[h][i]];
  }

  lemma SplittingFits<K(!new), V>(hash: K -> nat, m: map<K, V>, slots: seq<Chain<K, V>>, size: nat, h: nat, i: nat)
    requires Splitting(hash, m, slots, size, h, i)
    ensures h < h + size / 2 < |slots| && i <= |slots[h]|
  {
  }

  /** An entry whose new bucket is the upper slot goes to the front of that slot's chain. */
  lemma SplitMoves<K(!new), V>(hash: K -> nat, m: map<K, V>, slots: seq<Chain<K, V>>, size: nat, h: nat, i: nat)
    requires Splitting(hash, m, slots, size, h, i) && i < |slots[h]|
    requires Bucket(hash(slots[h][i].key), size, h + 1) != h
    ensures var up := h + size / 2;
            && Bucket(hash(slots[h][i].key), size, h + 1) == up
            && Splitting(hash, m, slots[h := slots[h][..i] + slots[h][i + 1..]][up := [slots[h][i]] + slots[up]],
                         size, h, i)
  {
    hide Bucket, ChainOk, DisjointKeys, Belongs, StoredMeanwhile, TableSize;
    var up := h + size / 2;
    var slots' := slots[h := slots[h][..i] + slots[h][i + 1..]][up := [slots[h][i]] + slots[up]];
    RelinkBelongs(hash, slots[h], i, slots[up], size, h);
    RelinkKeepsChains(m, slots[h], i, slots[up]);
    forall k | k in m
      ensures StoredMeanwhile(hash, m, slots', size, h, k)
    {
      assert StoredMeanwhile(hash, m, slots, size, h, k);
      RelinkStored(hash, m, slots, size, h, i, k);
    }
  }

  lemma RelinkBelongs<K, V>(hash: K -> nat, s: Chain<K, V>, i: nat, t: Chain<K, V>, size: nat, h: nat)
    requires size >= 2 && size % 2 == 0 && h < size / 2 && i < |s|
    requires Belongs(hash, s, size, h, h) && Belongs(hash, s[..i], size, h + 1, h)
             && Belongs(hash, t, size, h + 1, h + size / 2)
    requires Bucket(hash(s[i].key), size, h + 1) != h
    ensures var s', t' := s[..i] + s[i + 1..], [s[i]] + t;
            && Bucket(hash(s[i].key), size, h + 1) == h + size / 2
            && Belongs(hash, s', size, h, h) && Belongs(hash, s'[..i], size, h + 1, h)
            && Belongs(hash, t', size, h + 1, h + size / 2)
  {
    hide Bucket;
    var s' := s[..i] + s[i + 1..];
    BucketMoves(hash(s[i].key), size, h);
    assert forall j | 0 <= j < |s'| :: s'[j] == s[if j < i then j else j + 1];
    assert s'[..i] == s[..i];
  }

  lemma RelinkStored<K, V>(hash: K -> nat, m: map<K, V>, slots: seq<Chain<K, V>>, size: nat, h: nat, i: nat, k: K)
    requires size >= 2 && h < h + size / 2 < |slots| && i < |slots[h]|
    requires k in m && StoredMeanwhile(hash, m, slots, size, h, k)
    ensures var up := h + size / 2;
            var slots' := slots[h := slots[h][..i] + slots[h][i + 1..]][up := [slots[h][i]] + slots[up]];
            StoredMeanwhile(hash, m, slots', size, h, k)
  {
    hide Bucket;
    assert slots[h] == slots[h][..i] + [slots[h][i]] + slots[h][i + 1..];
  }

  lemma SplitEnds<K(!new), V>(hash: K -> nat, m: map<K, V>, slots: seq<Chain<K, V>>, size: nat, h: nat)
    requires h < |slots| && Splitting(hash, m, slots, size, h, |slots[h]|)
    ensures TableOk(hash, m, slots, size, h + 1)
  {
    hide Bucket;
    assert slots[h][..|slots[h]|] == slots[h];
    forall k | k in m
      ensures Stored(hash, m, slots, size, h + 1, k)
    {
      assert StoredMeanwhile(hash, m, slots, size, h, k);
    }
  }

  // ---------------------------------------------------------------- merging, resizing, insertion, removal

  lemma EmptyChain<K, V>(m: map<K, V>)
    ensures ChainOk(m, [])
  {
  }

  /** The chains of the two slots make up the chain of the merged one. */
  lemma MergedChain<K, V>(hash: K -> nat, m: map<K, V>, s: Chain<K, V>, t: Chain<K, V>, size: nat, h: nat)
    requires size >= 2 && size % 2 == 0 && h < size / 2
    requires ChainOk(m, s) && ChainOk(m, t)
    requires Belongs(hash, s, size, h + 1, h) && Belongs(hash, t, size, h + 1, h + size / 2)
    ensures ChainOk(m, s + t) && Belongs(hash, s + t, size, h, h)
  {
    hide Bucket;
    forall i | 0 <= i < |s + t|
      ensures Bucket(hash((s + t)[i].key), size, h) == h
    {
      BucketMoves(hash((s + t)[i].key), size, h);
    }
  }

  lemma BelongsStill<K, V>(hash: K -> nat, s: Chain<K, V>, size: nat, h: nat, b: nat)
    requires size >= 2 && size % 2 == 0 && h < size / 2
    requires Belongs(hash, s, size, h + 1, b) && b != h && b != h + size / 2
    ensures Belongs(hash, s, size, h, b)
  {
    hide Bucket;
    forall i | 0 <= i < |s|
      ensures Bucket(hash(s[i].key), size, h) == b
    {
      BucketMoves(hash(s[i].key), size, h);
    }
  }

  lemma StoredMerged<K, V>(hash: K -> nat, m: map<K, V>, slots: seq<Chain<K, V>>, size: nat, h: nat, k: K)
    requires size >= 2 && size % 2 == 0 && h < size / 2 && size <= |slots|
    requires k in m && Stored(hash, m, slots, size, h + 1, k)
    ensures Stored(hash, m, slots[h := slots[h] + slots[h + size / 2]][h + size / 2 := []], size, h, k)
  {
    hide Bucket;
    BucketMoves(hash(k), size, h);
  }

  /** Appending the upper slot's chain to the lower one and moving the split point down. */
  lemma MergeKeeps<K(!new), V>(hash: K -> nat, m: map<K, V>, slots: seq<Chain<K, V>>, size: nat, h: nat)
    requires TableOk(hash, m, slots, size, h + 1)
    ensures var up := h + size / 2;
            && h < up < |slots|
            && TableOk(hash, m, slots[h := slots[h] + slots[up]][up := []], size, h)
            && (slots[up] == [] ==> TableOk(hash, m, slots, size, h))
  {
    hide Bucket, ChainOk, TableSize, Stored;
    var up := h + size / 2;
    var merged := slots[h] + slots[up];
    var slots' := slots[h := merged][up := []];
    MergedChain(hash, m, slots[h], slots[up], size, h);
    EmptyChain(m);
    forall b | 0 <= b < size
      ensures ChainOk(m, slots'[b]) && Belongs(hash, slots'[b], size, h, b)
    {
      assert Belongs(hash, slots[b], size, h + 1, b);
      if b != h && b != up {
        BelongsStill(hash, slots[b], size, h, b);
      }
    }
    forall k | k in m
      ensures Stored(hash, m, slots', size, h, k)
    {
      assert Stored(hash, m, slots, size, h + 1, k);
      StoredMerged(hash, m, slots, size, h, k);
    }
    if slots[up] == [] {
      assert merged == slots[h];
      assert |slots'| == |slots| && forall b | 0 <= b < |slots| :: slots'[b] == slots[b];
      assert slots' == slots;
    }
  }

  lemma ResizeKeeps<K(!new), V>(hash: K -> nat, m: map<K, V>, slots: seq<Chain<K, V>>, size: nat)
    requires TableOk(hash, m, slots, size, size / 2)
    ensures TableOk(hash, m, slots[..size] + seq(size, i => []), 2 * size, 0)
  {
    hide Bucket;
    var slots' := slots[..size] + seq(size, i => []);
    forall b | 0 <= b < 2 * size
      ensures ChainOk(m, slots'[b]) && Belongs(hash, slots'[b], 2 * size, 0, b)
    {
      if b < size {
        assert Belongs(hash, slots[b], size, size / 2, b);
        forall i | 0 <= i < |slots'[b]|
          ensures Bucket(hash(slots'[b][i].key), 2 * size, 0) == b
        {
          BucketAtResize(hash(slots'[b][i].key), size);
        }
      }
    }
    forall k | k in m
      ensures Stored(hash, m, slots', 2 * size, 0, k)
    {
      assert Stored(hash, m, slots, size, size / 2, k);
      BucketAtResize(hash(k), size);
    }
  }

  lemma ReduceKeeps<K(!new), V>(hash: K -> nat, m: map<K, V>, slots: seq<Chain<K, V>>, size: nat,
      slots': seq<Chain<K, V>>)
    requires TableOk(hash, m, slots, size, 0) && size / 2 >= MIN_SIZE
    requires slots' == slots || slots' == slots[..size / 2]
    ensures TableOk(hash, m, slots', size / 2, size / 2 / 2)
  {
    hide Bucket;
    var n := size / 2;
    assert TableSize(n);
    forall b | 0 <= b < n
      ensures ChainOk(m, slots'[b]) && Belongs(hash, slots'[b], n, n / 2, b)
    {
      assert Belongs(hash, slots[b], size, 0, b);
      forall i | 0 <= i < |slots'[b]|
        ensures Bucket(hash(slots'[b][i].key), n, n / 2) == b
      {
        BucketAtResize(hash(slots'[b][i].key), n);
      }
    }
    forall k | k in m
      ensures Stored(hash, m, slots', n, n / 2, k)
    {
      assert Stored(hash, m, slots, size, 0, k);
      BucketAtResize(hash(k), n);
      BucketIs(hash(k), size, 0);
    }
  }

  lemma InsertKeeps<K(!new), V>(hash: K -> nat, m: map<K, V>, slots: seq<Chain<K, V>>, size: nat, split: nat,
      e: Entry<K, V>)
    requires TableOk(hash, m, slots, size, split) && e.key !in m
    ensures size >= 2
    ensures var b := Bucket(hash(e.key), size, split);
            b < size <= |slots| && TableOk(hash, m[e.key := e.node], slots[b := [e] + slots[b]], size, split)
  {
    BucketIs(hash(e.key), size, split);
    hide Bucket;
    var b := Bucket(hash(e.key), size, split);
    var m', slots' := m[e.key := e.node], slots[b := [e] + slots[b]];
    assert slots'[b][1..] == slots[b];
    forall c | 0 <= c < size
      ensures ChainOk(m', slots'[c]) && Belongs(hash, slots'[c], size, split, c)
    {
      assert ChainOk(m, slots[c]) && Belongs(hash, slots[c], size, split, c);
    }
    forall k | k in m'
      ensures Stored(hash, m', slots', size, split, k)
    {
      if k == e.key {
        assert slots'[b][0] == e;
      } else {
        assert Stored(hash, m, slots, size, split, k);
      }
    }
  }

  lemma RemoveKeeps<K(!new), V>(hash: K -> nat, m: map<K, V>, slots: seq<Chain<K, V>>, size: nat, split: nat, b: nat,
      i: nat)
    requires TableOk(hash, m, slots, size, split) && b < size && i < |slots[b]|
    ensures var e := slots[b][i];
            e.key in m && m[e.key] == e.node
            && TableOk(hash, m - {e.key}, slots[b := slots[b][..i] + slots[b][i + 1..]], size, split)
  {
    hide Bucket;
    var e := slots[b][i];
    var m', s' := m - {e.key}, slots[b][..i] + slots[b][i + 1..];
    var slots' := slots[b := s'];
    assert ChainOk(m, slots[b]) && Belongs(hash, slots[b], size, split, b);
    assert forall j | 0 <= j < |s'| :: s'[j] == slots[b][if j < i then j else j + 1];
    forall c | 0 <= c < size
      ensures ChainOk(m', slots'[c]) && Belongs(hash, slots'[c], size, split, c)
    {
      assert ChainOk(m, slots[c]) && Belongs(hash, slots[c], size, split, c);
      if c != b {
        // the removed key belongs into slot b only
        assert forall j | 0 <= j < |slots[c]| :: slots[c][j].key != e.key;
      }
    }
    forall k | k in m'
      ensures Stored(hash, m', slots', size, split, k)
    {
      assert Stored(hash, m, slots, size, split, k);
      if Bucket(hash(k), size, split) == b {
        assert slots[b] == slots[b][..i] + [e] + slots[b][i + 1..];
        assert Entry(k, m[k]) in s';
      }
    }
  }

  /** Size and split point from which `remerge_id` goes down: of half the table if nothing is split. */
  function Above(size: nat, split: nat): (nat, nat) {
    if split > 0 then (size, split)
    else if size / 2 >= 8192 then (size / 2, size / 2 / 2)
    else (size, 0)
  }

  /** Eight splits at most are undone, and one at least if there is any. */
  predicate Merged(size: nat, split: nat, size': nat, split': nat) {
    var (top, from) := Above(size, split);
    size' == top && if from == 0 then split' == 0 else from - 8 <= split' < from
  }

  /** `struct node_table`, for the id table and the name table alike. */
  class NodeTable<K(!new, ==), V(==)> {
    /** The map the table stands for. */
    ghost var contents: map<K, V>

    const hash: K -> nat
    var slots: seq<Chain<K, V>>
    var use: nat
    var size: nat
    var split: nat

    ghost predicate Valid()
      reads this
    {
      TableOk(hash, contents, slots, size, split) && use == |contents|
    }

    /** On average there is at most one node in each slot that is in use. */
    predicate Roomy()
      reads this
    {
      use <= size / 2 + split
    }

    /** `node_table_init` */
    constructor (hash: K -> nat)
      ensures Valid() && Roomy() && contents == map[] && this.hash == hash
      ensures size == 8192 && split == 0
    {
      this.hash := hash;
      slots := seq(MIN_SIZE, i => []);
      use, size, split := 0, MIN_SIZE, 0;
      contents := map[];
    }

    /** `get_node_nocheck` and `lookup_node`: exactly the node with that key, if there is one. */
    method Lookup(key: K) returns (node: Option<V>)
      requires Valid()
      ensures node == if key in contents then Some(contents[key]) else None
    {
      hide Bucket, TableOk;
      OneSlot(hash, contents, slots, size, split, key);
      var h := Bucket(hash(key), size, split);
      var chain := slots[h];
      var i := 0;
      while i < |chain|
        invariant i <= |chain| && forall j | 0 <= j < i :: chain[j].key != key
      {
        if chain[i].key == key {
          return Some(chain[i].node);
        }
        i := i + 1;
      }
      node := None;
    }

    /** `hash_id`, and the table part of `hash_name` */
    method Insert(key: K, node: V, canGrow: bool)
      requires Valid() && key !in contents
      modifies this
      ensures Valid() && contents == old(contents)[key := node] && use == old(use) + 1
      ensures if use < old(size) / 2 || old(split) == old(size) / 2 then size == old(size) && split == old(split)
              else if old(split) + 1 == old(size) / 2 && canGrow then size == 2 * old(size) && split == 0
              else size == old(size) && split == old(split) + 1
      ensures old(Roomy()) && (old(split) < old(size) / 2 || use <= old(size)) ==> Roomy()
    {
      hide Bucket, TableOk;
      TableFits(hash, contents, slots, size, split);
      InsertKeeps(hash, contents, slots, size, split, Entry(key, node));
      var h := Bucket(hash(key), size, split);
      slots := slots[h := [Entry(key, node)] + slots[h]];
      use := use + 1;
      contents := contents[key := node];
      if use >= size / 2 {
        Rehash(canGrow);
      }
    }

    /** `rehash_id` and `rehash_name`: split one slot, and double the table after the last one. */
    method Rehash(canGrow: bool)
      requires Valid()
      modifies this
      ensures Valid() && contents == old(contents) && use == old(use)
      ensures if old(split) == old(size) / 2 then size == old(size) && split == old(split)
              else if old(split) + 1 == old(size) / 2 && canGrow then size == 2 * old(size) && split == 0
              else size == old(size) && split == old(split) + 1
    {
      hide Bucket, TableOk, Splitting;
      if split == size / 2 {
        return;
      }
      TableFits(hash, contents, slots, size, split);
      var h := split;
      SplitStarts(hash, contents, slots, size, h);
      split := split + 1;
      SplittingFits(hash, contents, slots, size, h, 0);
      var i := 0;
      while i < |slots[h]|
        invariant h < |slots| && i <= |slots[h]| && Splitting(hash, contents, slots, size, h, i)
        invariant size == old(size) && contents == old(contents) && use == old(use) && split == h + 1
        decreases |slots[h]| - i
      {
        var e := slots[h][i];
        var newhash := Bucket(hash(e.key), size, split);
        if newhash != h {
          SplitMoves(hash, contents, slots, size, h, i);
          SplittingFits(hash, contents, slots, size, h, i);
          slots := slots[h := slots[h][..i] + slots[h][i + 1..]][newhash := [e] + slots[newhash]];
        } else {
          SplitStays(hash, contents, slots, size, h, i);
          i := i + 1;
        }
      }
      SplitEnds(hash, contents, slots, size, h);
      if split == size / 2 {
        Resize(canGrow);
      }
    }

    /** `node_table_resize`; when there is no memory for twice the slots, the table stays as it is. */
    method Resize(canGrow: bool)
      requires Valid() && split == size / 2
      modifies this
      ensures Valid() && contents == old(contents) && use == old(use)
      ensures if canGrow then size == 2 * old(size) && split == 0 else size == old(size) && split == old(split)
    {
      if !canGrow {
        return;
      }
      ResizeKeeps(hash, contents, slots, size);
      slots := slots[..size] + seq(size, i => []);
      size := 2 * size;
      split := 0;
    }

    /** `unhash_id`, and the table part of `unhash_name`: found says whether the node was there. */
    method Remove(key: K, node: V, canShrink: bool) returns (found: bool)
      requires Valid()
      modifies this
      ensures Valid()
      ensures found <==> key in old(contents) && old(contents)[key] == node
      ensures contents == if found then old(contents) - {key} else old(contents)
      ensures use == old(use) - if found then 1 else 0
      ensures !found || use >= old(size) / 4 ==> size == old(size) && split == old(split)
      ensures found && use < old(size) / 4 ==> Merged(old(size), old(split), size, split)
      ensures old(Roomy()) ==> Roomy()
    {
      hide Bucket, TableOk;
      TableFits(hash, contents, slots, size, split);
      OneSlot(hash, contents, slots, size, split, key);
      var h := Bucket(hash(key), size, split);
      var i := 0;
      while i < |slots[h]|
        invariant i <= |slots[h]| && forall j | 0 <= j < i :: slots[h][j] != Entry(key, node)
      {
        if slots[h][i] == Entry(key, node) {
          RemoveKeeps(hash, contents, slots, size, split, h, i);
          slots := slots[h := slots[h][..i] + slots[h][i + 1..]];
          use := use - 1;
          contents := contents - {key};
          if use < size / 4 {
            Remerge(canShrink);
          }
          return true;
        }
        i := i + 1;
      }
      found := false;
    }

    /** `remerge_id` and `remerge_name`: undo up to eight splits, but move at most one chain. */
    method Remerge(canShrink: bool)
      requires Valid()
      modifies this
      ensures Valid() && contents == old(contents) && use == old(use)
      ensures Merged(old(size), old(split), size, split)
      ensures split > 0 && split > Above(old(size), old(split)).1 - 8 ==>
                split + size / 2 < |old(slots)| && old(slots)[split + size / 2] != []
      ensures forall b | split + size / 2 < b < size / 2 + Above(old(size), old(split)).1 :: old(slots)[b] == []
    {
      hide Bucket, TableOk;
      if split == 0 {
        Reduce(canShrink);
      }
      TableFits(hash, contents, slots, size, split);
      ghost var top, slots0 := split, slots;
      var iter := 8;
      while split > 0 && iter > 0
        invariant Valid() && contents == old(contents) && use == old(use) && slots == slots0
        invariant (size, top) == Above(old(size), old(split)) && top <= size / 2 && size <= |slots|
        invariant 0 <= iter <= 8 && top == split + (8 - iter)
        invariant forall b | split + size / 2 <= b < size / 2 + top :: slots[b] == []
        decreases iter
      {
        split := split - 1;
        var upper := split + size / 2;
        MergeKeeps(hash, contents, slots, size, split);
        if slots[upper] != [] {
          slots := slots[split := slots[split] + slots[upper]][upper := []];
          break;
        }
        iter := iter - 1;
      }
    }

    /** `node_table_reduce`; when the array cannot be made smaller, the spare slots stay unused. */
    method Reduce(canShrink: bool)
      requires Valid() && split == 0
      modifies this
      ensures Valid() && contents == old(contents) && use == old(use)
      ensures size <= |slots| <= |old(slots)| && slots == old(slots)[..|slots|]
      ensures if old(size) / 2 >= MIN_SIZE then size == old(size) / 2 && split == size / 2
              else size == old(size) && split == 0
    {
      var newsize := size / 2;
      if newsize < MIN_SIZE {
        return;
      }
      ReduceKeeps(hash, contents, slots, size, if canShrink then slots[..newsize] else slots);
      if canShrink {
        slots := slots[..newsize];
      }
      size := newsize;
      split := size / 2;
    }
  }

  /** A parent id and a name, the key of the name table */
  type NameKey = (nat, seq<nat>)

  function NameKeyHash(k: NameKey): nat {
    NameHash(k.0, k.1)
  }

  /** `id_table` and `name_table` of `struct fuse` */
  class Tables<V(==)> {
    const ids: NodeTable<nat, V>
    const names: NodeTable<NameKey, V>

    ghost predicate Valid()
      reads this, ids, names
    {
      ids.Valid() && names.Valid() && ids.hash == IdHash && names.hash == NameKeyHash
    }

    /** The two tables as `fuse_new` sets them up, before the root is added. */
    constructor ()
      ensures Valid() && fresh(ids) && fresh(names) && ids.contents == map[] && names.contents == map[]
    {
      ids := new NodeTable(IdHash);
      names := new NodeTable(NameKeyHash);
    }

    /** `find_node` of a new name, as far as the tables go: `hash_name`, then `hash_id` */
    method AddNode(id: nat, parent: nat, name: seq<nat>, node: V, canGrow: bool)
      requires Valid() && id !in ids.contents && (parent, name) !in names.contents
      modifies ids, names
      ensures Valid()
      ensures ids.contents == old(ids.contents)[id := node]
              && names.contents == old(names.contents)[(parent, name) := node]
    {
      hide TableOk;
      names.Insert((parent, name), node, canGrow);
      ids.Insert(id, node, canGrow);
    }

    /** `delete_node`, as far as the tables go; a node that has lost its name is in the id table only. */
    method DeleteNode(id: nat, name: Option<NameKey>, node: V, canShrink: bool)
      requires Valid() && id in ids.contents && ids.contents[id] == node
      requires name.Some? ==> name.value in names.contents && names.contents[name.value] == node
      modifies ids, names
      ensures Valid() && ids.contents == old(ids.contents) - {id}
      ensures names.contents == if name.Some? then old(names.contents) - {name.value} else old(names.contents)
    {
      hide TableOk;
      if name.Some? {
        var named := names.Remove(name.value, node, canShrink);
      }
      var known := ids.Remove(id, node, canShrink);
    }
  }
}
