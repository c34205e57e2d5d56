/**
  Copying between two buffer vectors.  A buffer is memory or a range of a file; copying from or to
  a file may move less than was asked for, or fail.
 */
module BufferCopy {

  type Byte = b: nat | b < 256

  /** The bytes of all buffers, one after the other. */
  function Flat(bufs: seq<seq<Byte>>): seq<Byte> {
    if bufs == [] then [] else bufs[0] + Flat(bufs[1..])
  }

  /** s with the bytes of c at position p. */
  function Splice(s: seq<Byte>, p: nat, c: seq<Byte>): (r: seq<Byte>)
    requires p + |c| <= |s|
    ensures |r| == |s|
  {
    s[..p] + c + s[p + |c|..]
  }

  lemma {:induction false} FlatSplit(bufs: seq<seq<Byte>>, i: nat)
    requires i < |bufs|
    ensures Flat(bufs) == Flat(bufs[..i]) + bufs[i] + Flat(bufs[i + 1..])
    ensures |Flat(bufs[..i + 1])| == |Flat(bufs[..i])| + |bufs[i]|
    ensures |Flat(bufs[..i + 1])| <= |Flat(bufs)|
  {
    if i == 0 {
      assert bufs[..1] == [bufs[0]] && bufs[..1][1..] == [];
    } else {
      FlatSplit(bufs[1..], i - 1);
      assert bufs[..i][1..] == bufs[1..][..i - 1] && bufs[1..][i - 1] == bufs[i] && bufs[1..][i..] == bufs[i + 1..];
      assert bufs[..i + 1][1..] == bufs[1..][..i];
      assert bufs[0] + (Flat(bufs[1..][..i - 1]) + bufs[i] + Flat(bufs[i + 1..])) ==
               bufs[0] + Flat(bufs[1..][..i - 1]) + bufs[i] + Flat(bufs[i + 1..]);
    }
  }

  /** Writing into one buffer writes into the flat sequence. */
  lemma FlatWrite(bufs: seq<seq<Byte>>, i: nat, off: nat, c: seq<Byte>)
    requires i < |bufs| && off + |c| <= |bufs[i]|
    ensures var p := |Flat(bufs[..i])| + off;
            p + |c| <= |Flat(bufs)| && Flat(bufs[i := Splice(bufs[i], off, c)]) == Splice(Flat(bufs), p, c)
  {
    hide Flat, Splice;
    var b := bufs[i := Splice(bufs[i], off, c)];
    FlatSplit(bufs, i);
    FlatSplit(b, i);
    assert b[..i] == bufs[..i] && b[i + 1..] == bufs[i + 1..];
    SpliceMiddle(Flat(bufs[..i]), bufs[i], Flat(bufs[i + 1..]), off, c);
  }

  lemma SpliceMiddle(a: seq<Byte>, x: seq<Byte>, b: seq<Byte>, off: nat, c: seq<Byte>)
    requires off + |c| <= |x|
    ensures a + Splice(x, off, c) + b == Splice(a + x + b, |a| + off, c)
  {
    var s := a + x + b;
    assert s[..|a| + off] == a + x[..off];
    assert s[|a| + off + |c|..] == x[off + |c|..] + b;
  }

  /** Reading from one buffer reads from the flat sequence. */
  lemma FlatRead(bufs: seq<seq<Byte>>, i: nat, off: nat, n: nat)
    requires i < |bufs| && off + n <= |bufs[i]|
    ensures var p := |Flat(bufs[..i])| + off;
            p + n <= |Flat(bufs)| && bufs[i][off..off + n] == Flat(bufs)[p..p + n]
  {
    FlatSplit(bufs, i);
  }

  /** Copying n bytes and then m bytes from where that ended is copying n + m bytes. */
  lemma CopyOn(d0: seq<Byte>, d: seq<Byte>, pd: nat, s: seq<Byte>, ps: nat, n: nat, m: nat)
    requires ps + n + m <= |s| && pd + n + m <= |d0|
    requires d == Splice(d0, pd, s[ps..ps + n])
    ensures Splice(d, pd + n, s[ps + n..ps + n + m]) == Splice(d0, pd, s[ps..ps + n + m])
  {
    assert s[ps..ps + n + m] == s[ps..ps + n] + s[ps + n..ps + n + m];
  }

  /** What a buffer is, as far as its flags say: FUSE_BUF_IS_FD and FUSE_BUF_FD_RETRY */
  datatype Kind = Memory | File(retry: bool)

  /** What is left of a buffer. */
  datatype Piece = Piece(len: nat, kind: Kind)

  /** The buffers from idx on, without the first off bytes. */
  function PiecesFrom(bufs: seq<seq<Byte>>, kinds: seq<Kind>, idx: nat, off: nat): (p: seq<Piece>)
    requires |kinds| == |bufs| && idx <= |bufs| && (idx < |bufs| ==> off <= |bufs[idx]|)
    ensures |p| == |bufs| - idx
    ensures p != [] ==> p[0] == Piece(|bufs[idx]| - off, kinds[idx])
    decreases |bufs| - idx
  {
    if idx == |bufs| then []
    else [Piece(|bufs[idx]| - off, kinds[idx])] + PiecesFrom(bufs, kinds, idx + 1, 0)
  }

  /** The pieces without the first n bytes, which lie in the first piece. */
  function Drop(p: seq<Piece>, n: nat): seq<Piece>
    requires p != [] && n <= p[0].len
  {
    if n == p[0].len then p[1..] else [p[0].(len := p[0].len - n)] + p[1..]
  }

  lemma DropIs(bufs: seq<seq<Byte>>, kinds: seq<Kind>, idx: nat, off: nat, n: nat)
    requires |kinds| == |bufs| && idx < |bufs| && off + n <= |bufs[idx]|
    ensures Drop(PiecesFrom(bufs, kinds, idx, off), n) ==
              if off + n == |bufs[idx]| then PiecesFrom(bufs, kinds, idx + 1, 0)
              else PiecesFrom(bufs, kinds, idx, off + n)
  {
  }

  lemma PiecesEnd(bufs: seq<seq<Byte>>, kinds: seq<Kind>, off: nat)
    requires |kinds| == |bufs|
    ensures PiecesFrom(bufs, kinds, |bufs|, off) == PiecesFrom(bufs, kinds, |bufs|, 0)
  {
  }

  /** `struct fuse_bufvec` with its buffers */
  class BufVec {
    var bufs: seq<seq<Byte>>
    const kinds: seq<Kind>
    var idx: nat
    var off: nat

    ghost predicate Valid()
      reads this
    {
      |kinds| == |bufs| && idx <= |bufs| && (idx < |bufs| ==> off <= |bufs[idx]|)
    }

    /** How far the cursor is into the flat sequence. */
    ghost function Pos(): (p: nat)
      requires Valid()
      reads this
      ensures p <= |Flat(bufs)|
    {
      if idx < |bufs| then
        FlatSplit(bufs, idx);
        |Flat(bufs[..idx])| + off
      else |Flat(bufs)|
    }

    /** How many bytes behind the cursor are left. */
    ghost function Remaining(): nat
      requires Valid()
      reads this
    {
      |Flat(bufs)| - Pos()
    }

    /** What is left, buffer by buffer. */
    ghost function Left(): (p: seq<Piece>)
      requires Valid()
      reads this
      ensures |p| == |bufs| - idx
    {
      PiecesFrom(bufs, kinds, idx, off)
    }

    lemma LeftRemains()
      requires Valid()
      ensures Total(Left()) == Remaining()
    {
      PiecesTotal(bufs, kinds, idx, off);
      if idx < |bufs| {
        FlatSplit(bufs, idx);
        assert bufs[idx..][1..] == bufs[idx + 1..];
      }
    }

    /** How many of them are in the last buffer. */
    ghost function LastRest(): nat
      requires Valid()
      reads this
    {
      if idx == |bufs| then 0
      else if idx == |bufs| - 1 then |bufs[idx]| - off
      else |bufs[|bufs| - 1]|
    }

    lemma LastRestRemains()
      requires Valid()
      ensures LastRest() <= Remaining()
    {
      if idx < |bufs| {
        FlatSplit(bufs, |bufs| - 1);
        FlatSplit(bufs, idx);
        if idx < |bufs| - 1 {
          FlatSplit(bufs[..|bufs| - 1], idx);
          assert bufs[..|bufs| - 1][..idx] == bufs[..idx] && bufs[..|bufs| - 1][idx] == bufs[idx];
        }
      }
    }

    constructor (bufs: seq<seq<Byte>>, kinds: seq<Kind>)
      requires |kinds| == |bufs|
      ensures Valid() && Pos() == 0 && idx == 0 && off == 0 && this.bufs == bufs && this.kinds == kinds
    {
      this.bufs, this.kinds, idx, off := bufs, kinds, 0, 0;
      new;
      assert bufs[..0] == [];
    }

    /** `fuse_buf_size` */
    method Size() returns (size: nat)
      requires Valid()
      ensures size == |Flat(bufs)|
    {
      size := 0;
      var i := 0;
      assert bufs[..0] == [];
      while i < |bufs|
        invariant i <= |bufs| && size == |Flat(bufs[..i])|
      {
        FlatSplit(bufs, i);
        size := size + |bufs[i]|;
        i := i + 1;
      }
      assert bufs[..i] == bufs;
    }

    /** `fuse_bufvec_advance`; its assertions hold whenever no more than a buffer's rest is passed. */
    method Advance(len: nat) returns (more: bool)
      requires Valid() && idx < |bufs| && off + len <= |bufs[idx]|
      modifies this`idx, this`off
      ensures Valid() && Pos() == old(Pos()) + len
      ensures more == (idx < |bufs|) && Left() == Drop(old(Left()), len)
      ensures if old(off) + len == |bufs[old(idx)]| then idx == old(idx) + 1 && (more ==> off == 0)
              else idx == old(idx) && off == old(off) + len
    {
      hide PiecesFrom, Drop;
      FlatSplit(bufs, idx);
      DropIs(bufs, kinds, idx, off, len);
      PiecesEnd(bufs, kinds, off + len);
      off := off + len;
      if off == |bufs[idx]| {
        idx := idx + 1;
        if idx == |bufs| {
          assert bufs[..idx] == bufs;
          return false;
        }
        off := 0;
      }
      more := true;
    }
  }

  // ---------------------------------------------------------------- system calls

  function Min(a: int, b: int): int {
    if a < b then a else b
  }

  function Sum(s: seq<int>): int {
    if s == [] then 0 else Sum(s[..|s| - 1]) + s[|s| - 1]
  }

  /** How many of the results come before the first one that is zero or an error. */
  function Positive(s: seq<int>): (n: nat)
    ensures n <= |s| && (n < |s| ==> s[n] <= 0) && forall i | 0 <= i < n :: s[i] > 0
  {
    if s == [] || s[0] <= 0 then 0 else 1 + Positive(s[1..])
  }

  lemma {:induction false} SumOfPositive(s: seq<int>, i: nat)
    requires i <= |s| && forall j | 0 <= j < i :: s[j] > 0
    ensures i <= Positive(s) && 0 <= Sum(s[..i]) <= Sum(s[..Positive(s)])
    decreases Positive(s) - i
  {
    PositiveAtLeast(s, i);
    SumNotNegative(s[..i]);
    if i < Positive(s) {
      assert s[..i + 1][..i] == s[..i];
      SumOfPositive(s, i + 1);
    }
  }

  lemma {:induction false} SumNotNegative(s: seq<int>)
    requires forall i | 0 <= i < |s| :: s[i] > 0
    ensures Sum(s) >= 0
  {
    if s != [] {
      SumNotNegative(s[..|s| - 1]);
    }
  }

  lemma {:induction false} PositiveAtLeast(s: seq<int>, i: nat)
    requires i <= |s| && forall j | 0 <= j < i :: s[j] > 0
    ensures i <= Positive(s)
  {
    if i > 0 {
      assert forall j | 0 <= j < i - 1 :: s[1..][j] == s[j + 1];
      PositiveAtLeast(s[1..], i - 1);
    }
  }

  predicate Fails(results: seq<int>) {
    results != [] && results[0] == -1
  }

  /** How many bytes such calls move, or the error of the first one. */
  function Moved(len: nat, retry: bool, results: seq<int>, errno: int): (n: int)
    ensures errno > 0 ==> n <= len
  {
    if len == 0 then 0
    else if Fails(results) then -errno
    else Min(len, if retry then Sum(results[..Positive(results)]) else if results == [] then 0 else results[0])
  }

  /**
    What n can be when the calls return these results: the first one alone without retry, up to len;
    with retry all up to the first that is zero or an error, or up to len.
   */
  ghost predicate Transfers(len: nat, retry: bool, results: seq<int>, errno: int, n: int) {
    if len == 0 || results == [] || results[0] == 0 then n == 0
    else if results[0] < 0 then n == -errno
    else if !retry then n == Min(len, results[0])
    else exists k :: 0 < k <= |results| && PositiveTo(results, k) && n == Min(len, Sum(results[..k]))
                     && (k < |results| && results[k] > 0 ==> n == len)
  }

  ghost predicate PositiveTo(s: seq<int>, k: nat) {
    k <= |s| && forall i | 0 <= i < k :: s[i] > 0
  }

  /** There is exactly one such number. */
  lemma MovedIff(len: nat, retry: bool, results: seq<int>, errno: int, n: int)
    requires forall i | 0 <= i < |results| :: -1 <= results[i]
    ensures Transfers(len, retry, results, errno, n) <==> n == Moved(len, retry, results, errno)
  {
    if len > 0 && retry && results != [] && results[0] > 0 {
      var p := Positive(results);
      PositiveAtLeast(results, 1);
      assert PositiveTo(results, p);
      if k :| 0 < k <= |results| && PositiveTo(results, k) && n == Min(len, Sum(results[..k]))
              && (k < |results| && results[k] > 0 ==> n == len) {
        SumOfPositive(results, k);
      }
    }
  }

  /**
    The loops of `fuse_buf_read` and `fuse_buf_write`: results are what the successive system calls
    return, -1 for an error; with retry set they go on after a short count.  Behind the last of the
    results the file is at its end.
   */
  method RetryLoop(len: nat, retry: bool, results: seq<int>, errno: int) returns (res: int)
    requires forall i | 0 <= i < |results| :: -1 <= results[i]
    requires errno > 0
    ensures res == Moved(len, retry, results, errno) && Transfers(len, retry, results, errno, res)
    ensures -errno <= res <= len && (res < 0 <==> len > 0 && Fails(results))
    ensures !retry && len > 0 && results != [] && results[0] >= 0 ==> res == Min(len, results[0])
    ensures retry && 0 <= res < len ==>
              exists k: nat :: PositiveTo(results, k) && res == Sum(results[..k]) && (k == |results| || results[k] <= 0)
  {
    hide Transfers;
    MovedIff(len, retry, results, errno, Moved(len, retry, results, errno));
    assert PositiveTo(results, Positive(results));
    var copied := 0;
    var rest := len;
    var i := 0;
    SumOfPositive(results, 0);
    while rest > 0 && i < |results|
      invariant i <= |results| && rest == len - copied >= 0 && copied == Min(len, Sum(results[..i]))
      invariant forall j | 0 <= j < i :: results[j] > 0
      invariant i > 0 ==> retry && copied > 0
      decreases |results| - i
    {
      assert results[..i + 1][..i] == results[..i];
      SumOfPositive(results, i);
      var r := Min(results[i], rest);
      if r == -1 {
        if copied == 0 {
          return -errno;
        }
        break;
      }
      if r == 0 {
        break;
      }
      copied := copied + r;
      SumOfPositive(results, i + 1);
      if !retry {
        break;
      }
      rest := rest - r;
      i := i + 1;
    }
    SumOfPositive(results, i);
    res := copied;
  }

  const TMP_SIZE := 4096

  /** What the system calls of one copy step return, round by round. */
  datatype Calls = Calls(readCalls: seq<seq<int>>, writeCalls: seq<seq<int>>, errno: int)

  const NO_CALLS := Calls([], [], 1)

  predicate CallsOk(c: Calls)
    ensures c == NO_CALLS ==> CallsOk(c)
  {
    && c.errno > 0
    && (forall i, j | 0 <= i < |c.readCalls| && 0 <= j < |c.readCalls[i]| :: -1 <= c.readCalls[i][j])
    && (forall i, j | 0 <= i < |c.writeCalls| && 0 <= j < |c.writeCalls[i]| :: -1 <= c.writeCalls[i][j])
  }

  function Round(results: seq<seq<int>>, i: nat): seq<int> {
    if i < |results| then results[i] else []
  }

  /** What one round of `fuse_buf_fd_to_fd` moves: what was read, as far as it could be written. */
  function MovedInRound(len: nat, srcRetry: bool, dstRetry: bool, c: Calls, i: nat): (n: int)
    ensures c.errno > 0 ==> n <= len
  {
    var r := Moved(len, srcRetry, Round(c.readCalls, i), c.errno);
    if r <= 0 then r else Moved(r, dstRetry, Round(c.writeCalls, i), c.errno)
  }

  /** The first round from i on that does not move all it should, or the number of rounds there are. */
  function ShortRound(len: nat, srcRetry: bool, dstRetry: bool, c: Calls, i: nat): (k: nat)
    ensures i <= k && forall j | i <= j < k :: j * TMP_SIZE < len && FullRound(len, srcRetry, dstRetry, c, j)
    ensures k * TMP_SIZE < len ==> !FullRound(len, srcRetry, dstRetry, c, k)
    decreases len - i * TMP_SIZE
  {
    if i * TMP_SIZE >= len || !FullRound(len, srcRetry, dstRetry, c, i) then i
    else ShortRound(len, srcRetry, dstRetry, c, i + 1)
  }

  predicate FullRound(len: nat, srcRetry: bool, dstRetry: bool, c: Calls, i: nat)
    requires i * TMP_SIZE < len
  {
    var thisLen := Min(TMP_SIZE, len - i * TMP_SIZE);
    MovedInRound(thisLen, srcRetry, dstRetry, c, i) == thisLen
  }

  lemma ShortStep(len: nat, srcRetry: bool, dstRetry: bool, c: Calls, i: nat)
    ensures var k := ShortRound(len, srcRetry, dstRetry, c, i);
            if i * TMP_SIZE >= len then k == i
            else
              var thisLen := Min(TMP_SIZE, len - i * TMP_SIZE);
              if MovedInRound(thisLen, srcRetry, dstRetry, c, i) == thisLen
              then k == ShortRound(len, srcRetry, dstRetry, c, i + 1)
              else k == i
  {
    hide MovedInRound;
  }

  /** What `fuse_buf_fd_to_fd` returns: an error counts only before anything was copied. */
  function MovedThrough(len: nat, srcRetry: bool, dstRetry: bool, c: Calls): (n: int)
    ensures c.errno > 0 ==> n <= len
  {
    var k := ShortRound(len, srcRetry, dstRetry, c, 0);
    if k * TMP_SIZE >= len then len
    else
      var r := MovedInRound(Min(TMP_SIZE, len - k * TMP_SIZE), srcRetry, dstRetry, c, k);
      if k > 0 && r < 0 then k * TMP_SIZE else k * TMP_SIZE + r
  }

  /** What r can be for a round: what could be read, written as far as it could be. */
  ghost predicate RoundTransfers(len: nat, srcRetry: bool, dstRetry: bool, c: Calls, i: nat, r: int) {
    exists read: int :: Transfers(len, srcRetry, Round(c.readCalls, i), c.errno, read)
                        && if read <= 0 then r == read
                           else Transfers(read, dstRetry, Round(c.writeCalls, i), c.errno, r)
  }

  /** What r can be for the i-th round of copying len bytes. */
  ghost predicate NthTransfers(len: nat, srcRetry: bool, dstRetry: bool, c: Calls, i: nat, r: int) {
    i * 4096 < len && RoundTransfers(Min(4096, len - i * 4096), srcRetry, dstRetry, c, i, r)
  }

  /** What n can be for all rounds: k full ones of 4096 bytes, and what the first shorter one moves. */
  ghost predicate ThroughBuffer(len: nat, srcRetry: bool, dstRetry: bool, c: Calls, n: int) {
    exists k: nat, r: int :: FullRounds(len, srcRetry, dstRetry, c, k) && EndsWith(len, srcRetry, dstRetry, c, k, r, n)
  }

  ghost predicate FullRounds(len: nat, srcRetry: bool, dstRetry: bool, c: Calls, k: nat) {
    forall j: nat | j < k :: NthTransfers(len, srcRetry, dstRetry, c, j, Min(4096, len - j * 4096))
  }

  ghost predicate EndsWith(len: nat, srcRetry: bool, dstRetry: bool, c: Calls, k: nat, r: int, n: int) {
    if k * 4096 >= len then n == len
    else
      && NthTransfers(len, srcRetry, dstRetry, c, k, r) && r < Min(4096, len - k * 4096)
      && n == if k > 0 && r < 0 then k * 4096 else k * 4096 + r
  }

  lemma RoundIff(len: nat, srcRetry: bool, dstRetry: bool, c: Calls, i: nat, r: int)
    requires CallsOk(c)
    ensures RoundTransfers(len, srcRetry, dstRetry, c, i, r) <==> r == MovedInRound(len, srcRetry, dstRetry, c, i)
  {
    hide Moved, Transfers;
    var results := Round(c.readCalls, i);
    var m := Moved(len, srcRetry, results, c.errno);
    MovedIff(len, srcRetry, results, c.errno, m);
    if m > 0 {
      MovedIff(m, dstRetry, Round(c.writeCalls, i), c.errno, r);
    }
    forall read: int | Transfers(len, srcRetry, results, c.errno, read)
      ensures read == m
    {
      MovedIff(len, srcRetry, results, c.errno, read);
    }
  }

  lemma NthIff(len: nat, srcRetry: bool, dstRetry: bool, c: Calls, i: nat, r: int)
    requires CallsOk(c) && i * TMP_SIZE < len
    ensures NthTransfers(len, srcRetry, dstRetry, c, i, r) <==>
              r == MovedInRound(Min(TMP_SIZE, len - i * TMP_SIZE), srcRetry, dstRetry, c, i)
  {
    RoundIff(Min(TMP_SIZE, len - i * TMP_SIZE), srcRetry, dstRetry, c, i, r);
  }

  /** There is exactly one such number. */
  lemma MovedThroughIff(len: nat, srcRetry: bool, dstRetry: bool, c: Calls, n: int)
    requires CallsOk(c)
    ensures ThroughBuffer(len, srcRetry, dstRetry, c, n) <==> n == MovedThrough(len, srcRetry, dstRetry, c)
  {
    hide MovedInRound, NthTransfers;
    var k0 := ShortRound(len, srcRetry, dstRetry, c, 0);
    forall j: nat, r: int | j * TMP_SIZE < len
      ensures NthTransfers(len, srcRetry, dstRetry, c, j, r) <==>
                r == MovedInRound(Min(TMP_SIZE, len - j * TMP_SIZE), srcRetry, dstRetry, c, j)
    {
      NthIff(len, srcRetry, dstRetry, c, j, r);
    }
    var r0 := if k0 * TMP_SIZE < len then MovedInRound(Min(TMP_SIZE, len - k0 * TMP_SIZE), srcRetry, dstRetry, c, k0)
        else 0;
    var n0 := MovedThrough(len, srcRetry, dstRetry, c);
    assert FullRounds(len, srcRetry, dstRetry, c, k0) && EndsWith(len, srcRetry, dstRetry, c, k0, r0, n0);
    if k: nat, r: int :| FullRounds(len, srcRetry, dstRetry, c, k) && EndsWith(len, srcRetry, dstRetry, c, k, r, n) {
      assert k * TMP_SIZE < len ==> !FullRound(len, srcRetry, dstRetry, c, k);
      assert k0 * TMP_SIZE < len ==>
               !NthTransfers(len, srcRetry, dstRetry, c, k0, Min(TMP_SIZE, len - k0 * TMP_SIZE));
      assert k == k0 || len <= k * TMP_SIZE;
    }
  }

  /** The body of the loop of `fuse_buf_fd_to_fd` */
  method FdRound(len: nat, srcRetry: bool, dstRetry: bool, c: Calls, i: nat) returns (r: int)
    requires CallsOk(c)
    ensures r == MovedInRound(len, srcRetry, dstRetry, c, i) && -c.errno <= r <= len
    ensures r < 0 ==> Fails(Round(c.readCalls, i)) || Fails(Round(c.writeCalls, i))
  {
    hide Moved;
    r := RetryLoop(len, srcRetry, Round(c.readCalls, i), c.errno);
    if r > 0 {
      r := RetryLoop(r, dstRetry, Round(c.writeCalls, i), c.errno);
    }
  }

  /**
    `fuse_buf_fd_to_fd`: through a buffer of 4096 bytes, up to the first round that falls short.
   */
  method FdToFd(len: nat, srcRetry: bool, dstRetry: bool, c: Calls) returns (res: int)
    requires CallsOk(c)
    ensures -c.errno <= res <= len
    ensures res < 0 ==> Fails(Round(c.readCalls, 0)) || Fails(Round(c.writeCalls, 0))
    ensures res == MovedThrough(len, srcRetry, dstRetry, c) && ThroughBuffer(len, srcRetry, dstRetry, c, res)
  {
    hide MovedInRound, ShortRound, FullRound, ThroughBuffer;
    MovedThroughIff(len, srcRetry, dstRetry, c, MovedThrough(len, srcRetry, dstRetry, c));
    var copied, rest := 0, len;
    var i := 0;
    while rest > 0
      invariant copied == Min(len, i * TMP_SIZE) && rest == len - copied
      invariant ShortRound(len, srcRetry, dstRetry, c, 0) == ShortRound(len, srcRetry, dstRetry, c, i)
      decreases rest
    {
      var thisLen := Min(TMP_SIZE, rest);
      ShortStep(len, srcRetry, dstRetry, c, i);
      var r := FdRound(thisLen, srcRetry, dstRetry, c, i);
      if r <= 0 {
        res := if copied == 0 then r else copied;
        return;
      }
      copied := copied + r;
      if r < thisLen {
        break;
      }
      rest := rest - r;
      i := i + 1;
    }
    ShortStep(len, srcRetry, dstRetry, c, i);
    res := copied;
  }

  /** What one step moves between buffers of the given kinds. */
  function StepMoves(dst: Kind, src: Kind, len: nat, c: Calls): (n: int)
    ensures c.errno > 0 ==> n <= len
  {
    match (src, dst)
    case (Memory, Memory) => len
    case (Memory, File(retry)) => Moved(len, retry, Round(c.writeCalls, 0), c.errno)
    case (File(retry), Memory) => Moved(len, retry, Round(c.readCalls, 0), c.errno)
    case (File(retry), File(retry')) => MovedThrough(len, retry, retry', c)
  }

  /** What n can be for one step between buffers of the given kinds. */
  ghost predicate StepTransfers(dst: Kind, src: Kind, len: nat, c: Calls, n: int) {
    match (src, dst)
    case (Memory, Memory) => n == len
    case (Memory, File(retry)) => Transfers(len, retry, Round(c.writeCalls, 0), c.errno, n)
    case (File(retry), Memory) => Transfers(len, retry, Round(c.readCalls, 0), c.errno, n)
    case (File(retry), File(retry')) => ThroughBuffer(len, retry, retry', c, n)
  }

  lemma StepIff(dst: Kind, src: Kind, len: nat, c: Calls, n: int)
    requires CallsOk(c)
    ensures StepTransfers(dst, src, len, c, n) <==> n == StepMoves(dst, src, len, c)
  {
    hide Transfers, ThroughBuffer, Moved, MovedThrough;
    match (src, dst)
    case (Memory, Memory) =>
    case (Memory, File(retry)) => MovedIff(len, retry, Round(c.writeCalls, 0), c.errno, n);
    case (File(retry), Memory) => MovedIff(len, retry, Round(c.readCalls, 0), c.errno, n);
    case (File(retry), File(retry')) => MovedThroughIff(len, retry, retry', c, n);
  }

  /** What `fuse_buf_copy_one` returns, without splice. */
  method CopyResult(dst: Kind, src: Kind, len: nat, c: Calls) returns (res: int)
    requires CallsOk(c)
    ensures -c.errno <= res <= len
    ensures res == StepMoves(dst, src, len, c) && StepTransfers(dst, src, len, c, res)
    ensures dst.Memory? && src.Memory? ==> res == len
  {
    hide Transfers, ThroughBuffer, Moved, MovedThrough;
    match (src, dst)
    case (Memory, Memory) => res := len;
    case (Memory, File(retry)) => res := RetryLoop(len, retry, Round(c.writeCalls, 0), c.errno);
    case (File(retry), Memory) => res := RetryLoop(len, retry, Round(c.readCalls, 0), c.errno);
    case (File(retry), File(retry')) => res := FdToFd(len, retry, retry', c);
  }

  // ---------------------------------------------------------------- copying

  /** n bytes, and then what follows; an error that follows only counts if n is zero. */
  function Plus(n: nat, r: int): int {
    if r >= 0 then n + r else if n > 0 then n else r
  }

  function CallsFrom(calls: seq<Calls>, k: nat): seq<Calls> {
    if k < |calls| then calls[k..] else []
  }

  function FirstCalls(calls: seq<Calls>): Calls {
    if calls == [] then NO_CALLS else calls[0]
  }

  /**
    How many bytes are copied from the pieces s to the pieces d, or the error: step by step, each up
    to the end of the shorter piece, until the pieces are used up or a step moves less than it should.
   */
  function CopyCount(d: seq<Piece>, s: seq<Piece>, calls: seq<Calls>): int
    decreases |d| + |s|
  {
    if d == [] || s == [] then 0
    else
      var len := Min(d[0].len, s[0].len);
      var r := StepMoves(d[0].kind, s[0].kind, len, FirstCalls(calls));
      if r < len then r else Plus(len, CopyCount(Drop(d, len), Drop(s, len), CallsFrom(calls, 1)))
  }

  // What CopyCount means, without its recursion: the pieces are cut into chunks, and as many chunks
  // are copied as go through whole, and then what the next one moves.

  /** A stretch that lies in one source buffer and in one destination buffer. */
  datatype Chunk = Chunk(len: nat, dst: Kind, src: Kind)

  lemma {:induction false} PiecesTotal(bufs: seq<seq<Byte>>, kinds: seq<Kind>, idx: nat, off: nat)
    requires |kinds| == |bufs| && idx <= |bufs| && (idx < |bufs| ==> off <= |bufs[idx]|)
    ensures Total(PiecesFrom(bufs, kinds, idx, off)) == |Flat(bufs[idx..])| - if idx < |bufs| then off else 0
    decreases |bufs| - idx
  {
    if idx < |bufs| {
      PiecesTotal(bufs, kinds, idx + 1, 0);
      assert bufs[idx..][1..] == bufs[idx + 1..];
    }
  }

  /** The chunks into which both lists of pieces fall. */
  function Chunks(d: seq<Piece>, s: seq<Piece>): (cs: seq<Chunk>)
    decreases |d| + |s|
  {
    if d == [] || s == [] then []
    else
      var len := Min(d[0].len, s[0].len);
      [Chunk(len, d[0].kind, s[0].kind)] + Chunks(Drop(d, len), Drop(s, len))
  }

  function Total(p: seq<Piece>): nat {
    if p == [] then 0 else p[0].len + Total(p[1..])
  }

  /** The bytes of the first k chunks. */
  function Through(cs: seq<Chunk>, k: nat): nat
    requires k <= |cs|
  {
    if k == 0 then 0 else cs[0].len + Through(cs[1..], k - 1)
  }

  lemma {:induction false} ChunksFill(d: seq<Piece>, s: seq<Piece>)
    ensures Through(Chunks(d, s), |Chunks(d, s)|) == Min(Total(d), Total(s))
    decreases |d| + |s|
  {
    if d != [] && s != [] {
      var len := Min(d[0].len, s[0].len);
      ChunksFill(Drop(d, len), Drop(s, len));
      DropTotal(d, len);
      DropTotal(s, len);
      assert Chunks(d, s)[1..] == Chunks(Drop(d, len), Drop(s, len));
    }
  }

  lemma DropTotal(p: seq<Piece>, n: nat)
    requires p != [] && n <= p[0].len
    ensures Total(Drop(p, n)) == Total(p) - n
  {
    if n != p[0].len {
      assert Drop(p, n)[1..] == p[1..];
    }
  }

  function CallsAt(calls: seq<Calls>, k: nat): Calls {
    if k < |calls| then calls[k] else NO_CALLS
  }

  ghost predicate Whole(cs: seq<Chunk>, calls: seq<Calls>, k: nat)
    requires k < |cs|
  {
    StepTransfers(cs[k].dst, cs[k].src, cs[k].len, CallsAt(calls, k), cs[k].len)
  }

  /** The first k chunks go through whole, the next one moves r, and res is what that amounts to. */
  ghost predicate StopsAt(cs: seq<Chunk>, calls: seq<Calls>, k: nat, r: int, res: int) {
    && k <= |cs|
    && (forall j | 0 <= j < k :: Whole(cs, calls, j))
    && if k == |cs| then res == Through(cs, k)
       else
         && StepTransfers(cs[k].dst, cs[k].src, cs[k].len, CallsAt(calls, k), r) && r < cs[k].len
         && res == if r < 0 && Through(cs, k) > 0 then Through(cs, k) else Through(cs, k) + r
  }

  lemma {:induction false} CopyCountStops(d: seq<Piece>, s: seq<Piece>, calls: seq<Calls>)
    requires forall i | 0 <= i < |calls| :: CallsOk(calls[i])
    ensures exists k: nat, r: int :: StopsAt(Chunks(d, s), calls, k, r, CopyCount(d, s, calls))
    decreases |d| + |s|
  {
    hide StepTransfers, StepMoves, CallsOk;
    var cs := Chunks(d, s);
    if d == [] || s == [] {
      assert StopsAt(cs, calls, 0, 0, CopyCount(d, s, calls));
    } else {
      var len := Min(d[0].len, s[0].len);
      var r := StepMoves(d[0].kind, s[0].kind, len, FirstCalls(calls));
      NoCallsOk();
      StepIff(d[0].kind, s[0].kind, len, FirstCalls(calls), r);
      if r < len {
        assert StopsAt(cs, calls, 0, r, CopyCount(d, s, calls));
      } else {
        StepAtMost(d[0].kind, s[0].kind, len, FirstCalls(calls));
        var d', s', calls' := Drop(d, len), Drop(s, len), CallsFrom(calls, 1);
        CopyCountStops(d', s', calls');
        assert cs[1..] == Chunks(d', s');
        var k: nat, r': int :| StopsAt(Chunks(d', s'), calls', k, r', CopyCount(d', s', calls'));
        StopsLater(cs, calls, k, r', CopyCount(d', s', calls'));
        assert StopsAt(cs, calls, k + 1, r', CopyCount(d, s, calls));
      }
    }
  }

  lemma NoCallsOk()
    ensures CallsOk(NO_CALLS)
  {
  }

  lemma StepAtMost(dst: Kind, src: Kind, len: nat, c: Calls)
    requires CallsOk(c)
    ensures StepMoves(dst, src, len, c) <= len
  {
  }

  lemma StopsLater(cs: seq<Chunk>, calls: seq<Calls>, k: nat, r: int, res: int)
    requires cs != [] && Whole(cs, calls, 0) && StopsAt(cs[1..], CallsFrom(calls, 1), k, r, res)
    ensures StopsAt(cs, calls, k + 1, r, Plus(cs[0].len, res))
  {
    hide StepTransfers;
    var calls' := CallsFrom(calls, 1);
    forall j | 0 <= j < k + 1
      ensures Whole(cs, calls, j)
    {
      if j > 0 {
        assert Whole(cs[1..], calls', j - 1) && CallsAt(calls', j - 1) == CallsAt(calls, j);
      }
    }
    assert CallsAt(calls', k) == CallsAt(calls, k + 1);
  }

  lemma StopsOnce(cs: seq<Chunk>, calls: seq<Calls>, k: nat, r: int, n: int, k': nat, r': int, n': int)
    requires forall i | 0 <= i < |calls| :: CallsOk(calls[i])
    requires StopsAt(cs, calls, k, r, n) && StopsAt(cs, calls, k', r', n') && k <= k'
    ensures n == n'
  {
    hide StepTransfers, StepMoves, CallsOk;
    NoCallsOk();
    if k < |cs| {
      var c := cs[k];
      StepIff(c.dst, c.src, c.len, CallsAt(calls, k), r);
      StepIff(c.dst, c.src, c.len, CallsAt(calls, k), r');
      if k < k' {
        assert Whole(cs, calls, k);
        StepIff(c.dst, c.src, c.len, CallsAt(calls, k), c.len);
      }
    }
  }

  /** The number of bytes copied is determined by the chunks and by what the system calls return. */
  lemma CopyCountIff(d: seq<Piece>, s: seq<Piece>, calls: seq<Calls>, n: int)
    requires forall i | 0 <= i < |calls| :: CallsOk(calls[i])
    ensures n == CopyCount(d, s, calls) <==> exists k: nat, r: int :: StopsAt(Chunks(d, s), calls, k, r, n)
  {
    hide StopsAt, CallsOk, CopyCount;
    var cs := Chunks(d, s);
    CopyCountStops(d, s, calls);
    var k: nat, r: int :| StopsAt(cs, calls, k, r, CopyCount(d, s, calls));
    if k': nat, r': int :| StopsAt(cs, calls, k', r', n) {
      if k <= k' {
        StopsOnce(cs, calls, k, r, CopyCount(d, s, calls), k', r', n);
      } else {
        StopsOnce(cs, calls, k', r', n, k, r, CopyCount(d, s, calls));
      }
    }
  }

  /** Between two single buffers that is what one step moves. */
  lemma CopyCountOfOne(d: Piece, s: Piece, calls: seq<Calls>, n: int)
    requires forall i | 0 <= i < |calls| :: CallsOk(calls[i])
    ensures n == CopyCount([d], [s], calls) <==>
              StepTransfers(d.kind, s.kind, Min(d.len, s.len), CallsAt(calls, 0), n)
  {
    hide StepTransfers, StepMoves, CallsOk;
    var len := Min(d.len, s.len);
    NoCallsOk();
    StepIff(d.kind, s.kind, len, CallsAt(calls, 0), n);
    StepAtMost(d.kind, s.kind, len, CallsAt(calls, 0));
    assert Drop([d], len) == [] || Drop([s], len) == [];
  }

  predicate AllMemory(kinds: seq<Kind>) {
    forall i | 0 <= i < |kinds| :: kinds[i].Memory?
  }

  predicate SameSizes(bufs: seq<seq<Byte>>, bufs': seq<seq<Byte>>) {
    |bufs'| == |bufs| && forall i | 0 <= i < |bufs| :: |bufs'[i]| == |bufs[i]|
  }

  lemma {:induction false} SameSizesFlat(bufs: seq<seq<Byte>>, bufs': seq<seq<Byte>>)
    requires SameSizes(bufs, bufs')
    ensures |Flat(bufs')| == |Flat(bufs)|
  {
    if bufs != [] {
      SameSizesFlat(bufs[1..], bufs'[1..]);
    }
  }

  lemma {:induction false} PiecesSame(bufs: seq<seq<Byte>>, bufs': seq<seq<Byte>>, kinds: seq<Kind>, idx: nat, off: nat)
    requires SameSizes(bufs, bufs') && |kinds| == |bufs| && idx <= |bufs| && (idx < |bufs| ==> off <= |bufs[idx]|)
    ensures PiecesFrom(bufs', kinds, idx, off) == PiecesFrom(bufs, kinds, idx, off)
    decreases |bufs| - idx
  {
    if idx < |bufs| {
      PiecesSame(bufs, bufs', kinds, idx + 1, 0);
    }
  }

  lemma CopyNothing(d: seq<seq<Byte>>, pd: nat, s: seq<seq<Byte>>, ps: nat)
    requires pd <= |Flat(d)| && ps <= |Flat(s)|
    ensures CopiedSoFar(d, d, pd, s, ps, 0)
  {
  }

  lemma SameSizesTrans(a: seq<seq<Byte>>, b: seq<seq<Byte>>, c: seq<seq<Byte>>)
    requires SameSizes(a, b) && SameSizes(b, c)
    ensures SameSizes(a, c) && |Flat(b)| == |Flat(a)| && |Flat(c)| == |Flat(a)|
  {
    SameSizesFlat(a, b);
    SameSizesFlat(a, c);
  }

  /** `fuse_buf_copy_one` between the current buffers: the bytes go from cursor to cursor. */
  method CopyOne(dst: BufVec, src: BufVec, len: nat, r: nat)
    requires dst != src && dst.Valid() && src.Valid() && dst.idx < |dst.bufs| && src.idx < |src.bufs|
    requires src.off + len <= |src.bufs[src.idx]| && dst.off + len <= |dst.bufs[dst.idx]| && r <= len
    modifies dst`bufs
    ensures dst.Valid() && dst.Pos() == old(dst.Pos()) && SameSizes(old(dst.bufs), dst.bufs)
    ensures |dst.bufs| == |old(dst.bufs)| && |dst.bufs[dst.idx]| == |old(dst.bufs)[dst.idx]|
    ensures src.Pos() + r <= |Flat(src.bufs)| && dst.Pos() + r <= |Flat(old(dst.bufs))|
    ensures Flat(dst.bufs) == Splice(Flat(old(dst.bufs)), dst.Pos(), Flat(src.bufs)[src.Pos()..src.Pos() + r])
  {
    hide Splice, Flat;
    var chunk := src.bufs[src.idx][src.off..src.off + r];
    FlatRead(src.bufs, src.idx, src.off, r);
    FlatWrite(dst.bufs, dst.idx, dst.off, chunk);
    ghost var before := dst.bufs;
    dst.bufs := dst.bufs[dst.idx := Splice(dst.bufs[dst.idx], dst.off, chunk)];
    assert dst.bufs[..dst.idx] == before[..dst.idx];
  }

  /** The first n bytes have been copied, and nothing else has changed. */
  ghost predicate CopiedSoFar(d0: seq<seq<Byte>>, d: seq<seq<Byte>>, pd: nat, s: seq<seq<Byte>>, ps: nat, n: nat) {
    && SameSizes(d0, d) && |Flat(d)| == |Flat(d0)|
    && ps + n <= |Flat(s)| && pd + n <= |Flat(d0)|
    && Flat(d) == Splice(Flat(d0), pd, Flat(s)[ps..ps + n])
  }

  lemma HasCopied(d0: seq<seq<Byte>>, d: seq<seq<Byte>>, pd: nat, s: seq<seq<Byte>>, ps: nat, n: nat)
    requires CopiedSoFar(d0, d, pd, s, ps, n)
    ensures SameSizes(d0, d) && |Flat(d)| == |Flat(d0)| && ps + n <= |Flat(s)| && pd + n <= |Flat(d0)|
    ensures Flat(d) == Splice(Flat(d0), pd, Flat(s)[ps..ps + n])
  {
  }

  /** The copying half of a turn of `fuse_buf_copy` */
  method CopyTurn(dst: BufVec, src: BufVec, len: nat, r: nat, ghost d0: seq<seq<Byte>>, ghost pd: nat, ghost ps: nat,
      ghost n: nat)
    requires dst != src && dst.Valid() && src.Valid() && dst.idx < |dst.bufs| && src.idx < |src.bufs|
    requires src.off + len <= |src.bufs[src.idx]| && dst.off + len <= |dst.bufs[dst.idx]| && r <= len
    requires CopiedSoFar(d0, dst.bufs, pd, src.bufs, ps, n) && src.Pos() == ps + n && dst.Pos() == pd + n
    modifies dst`bufs
    ensures dst.Valid() && dst.Pos() == old(dst.Pos()) && dst.Left() == old(dst.Left())
    ensures |dst.bufs| == |old(dst.bufs)| && |dst.bufs[dst.idx]| == |old(dst.bufs)[dst.idx]|
    ensures CopiedSoFar(d0, dst.bufs, pd, src.bufs, ps, n + r)
  {
    hide Splice, Flat, SameSizes, PiecesFrom;
    ghost var d := dst.bufs;
    CopyOne(dst, src, len, r);
    SameSizesTrans(d0, d, dst.bufs);
    PiecesSame(d, dst.bufs, dst.kinds, dst.idx, dst.off);
    CopyOn(Flat(d0), Flat(d), pd, Flat(src.bufs), ps, n, r);
  }

  /**
    The end of a turn of `fuse_buf_copy`: the source's cursor moves, and then the destination's,
    unless the source is used up.
   */
  method MoveCursors(dst: BufVec, src: BufVec, r: nat) returns (more: bool)
    requires dst != src && dst.Valid() && src.Valid() && dst.idx < |dst.bufs| && src.idx < |src.bufs|
    requires src.off + r <= |src.bufs[src.idx]| && dst.off + r <= |dst.bufs[dst.idx]|
    modifies src`idx, src`off, dst`idx, dst`off
    ensures dst.Valid() && src.Valid() && src.Pos() == old(src.Pos()) + r
    ensures more ==> src.idx < |src.bufs| && dst.idx < |dst.bufs|
    ensures src.idx == |src.bufs| ==>
              !more && dst.idx == old(dst.idx) && dst.off == old(dst.off) && r == old(src.LastRest())
    ensures src.idx < |src.bufs| ==>
              && dst.Pos() == old(dst.Pos()) + r && more == (dst.idx < |dst.bufs|)
              && (old(src.LastRest()) > 0 ==> src.LastRest() > 0)
              && (r < old(|src.bufs[src.idx]| - src.off) && r == old(|dst.bufs[dst.idx]| - dst.off) && more ==>
                  dst.off == 0)
              && (r == old(|src.bufs[src.idx]| - src.off) ==> src.LastRest() == old(src.LastRest()))
    ensures src.LastRest() <= old(src.LastRest())
    ensures src.idx >= old(src.idx) && dst.idx >= old(dst.idx)
    ensures r == old(|src.bufs[src.idx]| - src.off) ==> src.idx > old(src.idx)
    ensures src.idx < |src.bufs| && r == old(|dst.bufs[dst.idx]| - dst.off) ==> dst.idx > old(dst.idx)
    ensures src.Left() == Drop(old(src.Left()), r)
    ensures src.idx < |src.bufs| ==> dst.Left() == Drop(old(dst.Left()), r)
  {
    hide PiecesFrom, Drop;
    more := src.Advance(r);
    if more {
      more := dst.Advance(r);
    }
  }

  /**
    Where the destination's cursor stays behind: the last step, of lag bytes, used up the source.  It
    began where the last source buffer or a destination buffer begins, whichever is later, and
    filled no more than that destination buffer.
   */
  ghost predicate StaysBehind(dst: BufVec, lag: int, rest: nat)
    reads dst
  {
    && 0 < lag <= rest
    && dst.idx < |dst.bufs| && dst.off + lag <= |dst.bufs[dst.idx]|
    && (lag == rest || dst.off == 0)
  }

  /** Where a call of `fuse_buf_copy` began. */
  datatype Start = Start(bufs: seq<seq<Byte>>, dpos: nat, spos: nat, dst: nat, src: nat, lastRest: nat, memory: bool)

  /** What a call that began at b has done when it has copied n bytes and goes on. */
  ghost predicate Copying(b: Start, dst: BufVec, src: BufVec, n: nat)
    reads dst, src
  {
    && dst.Valid() && src.Valid()
    && CopiedSoFar(b.bufs, dst.bufs, b.dpos, src.bufs, b.spos, n)
    && src.Pos() == b.spos + n && dst.Pos() == b.dpos + n
    && b.src == n + src.Remaining() && b.dst == n + dst.Remaining()
    && src.LastRest() <= b.lastRest && src.LastRest() <= src.Remaining() && (src.LastRest() == 0 ==> b.lastRest == 0)
    && (src.LastRest() == b.lastRest || dst.idx == |dst.bufs| || dst.off == 0)
    && (src.idx < |src.bufs| - 1 ==> src.LastRest() == b.lastRest)
    && (b.memory <==> AllMemory(src.kinds) && AllMemory(dst.kinds))
  }

  /** What it has done when it returns. */
  ghost predicate Finished(b: Start, dst: BufVec, src: BufVec, n: nat)
    reads dst, src
  {
    && dst.Valid() && src.Valid()
    && CopiedSoFar(b.bufs, dst.bufs, b.dpos, src.bufs, b.spos, n)
    && src.Pos() == b.spos + n
    && (dst.Pos() == b.dpos + n <==> !(n == b.src && b.lastRest > 0))
    && (dst.Pos() != b.dpos + n ==> StaysBehind(dst, b.dpos + n - dst.Pos(), b.lastRest))
  }

  lemma StopsCopying(b: Start, dst: BufVec, src: BufVec, n: nat)
    requires Copying(b, dst, src, n)
    requires src.idx < |src.bufs| || src.LastRest() == 0
    ensures Finished(b, dst, src, n)
  {
    hide CopiedSoFar, Flat, AllMemory;
  }

  /** One turn of `fuse_buf_copy`; more is false where the loop is left. */
  method Turn(dst: BufVec, src: BufVec, c: Calls, ghost b: Start, ghost n: nat) returns (r: int, more: bool)
    requires dst != src && CallsOk(c) && Copying(b, dst, src, n)
    requires dst.idx < |dst.bufs| && src.idx < |src.bufs|
    modifies dst, src
    ensures src.bufs == old(src.bufs) && |dst.bufs| == |old(dst.bufs)|
    ensures r < 0 ==> unchanged(dst) && unchanged(src) && !b.memory
    ensures r >= 0 && more ==> Copying(b, dst, src, n + r) && src.idx < |src.bufs| && dst.idx < |dst.bufs|
    ensures r >= 0 && more ==> src.idx >= old(src.idx) && dst.idx >= old(dst.idx)
    ensures r >= 0 && more ==> src.idx > old(src.idx) || dst.idx > old(dst.idx)
    ensures r >= 0 && !more ==> Finished(b, dst, src, n + r)
    ensures r >= 0 && !more ==> (b.memory ==> n + r == Min(b.src, b.dst))
    ensures var d, s := old(dst.Left()), old(src.Left());
            && r == StepMoves(d[0].kind, s[0].kind, Min(d[0].len, s[0].len), c) && r <= Min(d[0].len, s[0].len)
            && (more ==> r == Min(d[0].len, s[0].len) && dst.Left() == Drop(d, r) && src.Left() == Drop(s, r))
            && (!more && r == Min(d[0].len, s[0].len) ==>
                Drop(s, r) == [] || Drop(d, r) == [])
  {
    hide CopiedSoFar, Flat, Splice, CallsOk, SameSizes, PiecesFrom, Drop, StepMoves;
    var srcLen := |src.bufs[src.idx]| - src.off;
    var dstLen := |dst.bufs[dst.idx]| - dst.off;
    var len := Min(srcLen, dstLen);
    r := CopyResult(dst.kinds[dst.idx], src.kinds[src.idx], len, c);
    if r < 0 {
      more := false;
      return;
    }
    HasCopied(b.bufs, dst.bufs, b.dpos, src.bufs, b.spos, n);
    CopyTurn(dst, src, len, r, b.bufs, b.dpos, b.spos, n);
    HasCopied(b.bufs, dst.bufs, b.dpos, src.bufs, b.spos, n + r);
    more := MoveCursors(dst, src, r);
    src.LastRestRemains();
    more := more && r == len;
  }

  /** The loop of `fuse_buf_copy` */
  method CopySteps(dst: BufVec, src: BufVec, calls: seq<Calls>, ghost b: Start) returns (res: int)
    requires dst != src && Copying(b, dst, src, 0) && forall i | 0 <= i < |calls| :: CallsOk(calls[i])
    modifies dst, src
    ensures src.bufs == old(src.bufs) && Finished(b, dst, src, if res < 0 then 0 else res)
    ensures b.memory ==> res == Min(b.src, b.dst)
    ensures res == CopyCount(old(dst.Left()), old(src.Left()), calls)
  {
    hide Splice, Flat, SameSizes, CallsOk, CopiedSoFar, AllMemory, PiecesFrom, Drop, StepMoves, CopyCount, CallsFrom,
         Finished;
    var copied := 0;
    var k := 0;
    CallsFromStart(calls);
    ghost var total := CopyCount(dst.Left(), src.Left(), calls);
    while src.idx < |src.bufs| && dst.idx < |dst.bufs|
      invariant src.bufs == old(src.bufs) && Copying(b, dst, src, copied)
      invariant total == Plus(copied, CopyCount(dst.Left(), src.Left(), CallsFrom(calls, k)))
      decreases |src.bufs| - src.idx + |dst.bufs| - dst.idx
    {
      var c := if k < |calls| then calls[k] else NO_CALLS;
      CountStep(dst.Left(), src.Left(), calls, k);
      var r, more := Turn(dst, src, c, b, copied);
      k := k + 1;
      if r < 0 {
        StopsCopying(b, dst, src, copied);
        res := if copied == 0 then r else copied;
        return;
      }
      copied := copied + r;
      if !more {
        return copied;
      }
    }
    StopsCopying(b, dst, src, copied);
    CountEnds(dst.Left(), src.Left(), CallsFrom(calls, k));
    res := copied;
  }

  /**
    `fuse_buf_copy`: res bytes from the source's cursor on replace those from the destination's
    cursor on, and nothing else changes.  The source's cursor moves by exactly res; so does the
    destination's, unless all that remained of the source was copied and its last buffer had bytes
    left: then it stays where the last step began.
   */
  method BufCopy(dst: BufVec, src: BufVec, calls: seq<Calls>) returns (res: int)
    requires dst.Valid() && src.Valid() && forall i | 0 <= i < |calls| :: CallsOk(calls[i])
    modifies dst, src
    ensures dst.Valid() && src.Valid() && src.bufs == old(src.bufs)
    ensures dst == src ==> res == |Flat(src.bufs)| && unchanged(src)
    ensures dst != src ==>
              var n := if res < 0 then 0 else res;
              var before := old(dst.Pos());
              && old(src.Pos()) + n <= |Flat(src.bufs)| && before + n <= |Flat(old(dst.bufs))|
              && Flat(dst.bufs) ==
                   Splice(Flat(old(dst.bufs)), before, Flat(src.bufs)[old(src.Pos())..old(src.Pos()) + n])
              && SameSizes(old(dst.bufs), dst.bufs)
              && src.Pos() == old(src.Pos()) + n
              && (dst.Pos() == before + n <==> !(n == old(src.Remaining()) && old(src.LastRest()) > 0))
              && (dst.Pos() != before + n ==> StaysBehind(dst, before + n - dst.Pos(), old(src.LastRest())))
    ensures dst != src && AllMemory(src.kinds) && AllMemory(dst.kinds) ==>
              res == Min(old(src.Remaining()), old(dst.Remaining()))
    ensures dst != src ==> res == CopyCount(old(dst.Left()), old(src.Left()), calls)
    ensures dst != src ==>
              exists k: nat, r: int :: StopsAt(Chunks(old(dst.Left()), old(src.Left())), calls, k, r, res)
  {
    hide Splice, Flat, SameSizes, CallsOk, CopiedSoFar, AllMemory, PiecesFrom, CopyCount, Chunks, StopsAt;
    if dst == src {
      res := dst.Size();
      return;
    }
    CopyCountStops(dst.Left(), src.Left(), calls);
    ghost var b := Start(dst.bufs, dst.Pos(), src.Pos(), dst.Remaining(), src.Remaining(), src.LastRest(),
                         AllMemory(src.kinds) && AllMemory(dst.kinds));
    CopyNothing(dst.bufs, dst.Pos(), src.bufs, src.Pos());
    src.LastRestRemains();
    res := CopySteps(dst, src, calls, b);
    HasCopied(b.bufs, dst.bufs, b.dpos, src.bufs, b.spos, if res < 0 then 0 else res);
  }

  /** Where the first step has something to move, the call fails exactly if that step does. */
  lemma FailsIff(d: seq<Piece>, s: seq<Piece>, calls: seq<Calls>)
    requires d != [] && s != [] && d[0].len > 0 && s[0].len > 0
    ensures CopyCount(d, s, calls) < 0 <==>
              StepMoves(d[0].kind, s[0].kind, Min(d[0].len, s[0].len), FirstCalls(calls)) < 0
  {
    hide StepMoves;
  }

  lemma CallsFromStart(calls: seq<Calls>)
    ensures CallsFrom(calls, 0) == calls
  {
  }

  lemma CountEnds(d: seq<Piece>, s: seq<Piece>, calls: seq<Calls>)
    ensures d == [] || s == [] ==> CopyCount(d, s, calls) == 0
  {
  }

  lemma CountStep(d: seq<Piece>, s: seq<Piece>, calls: seq<Calls>, k: nat)
    requires d != [] && s != []
    ensures var len := Min(d[0].len, s[0].len);
            var r := StepMoves(d[0].kind, s[0].kind, len, if k < |calls| then calls[k] else NO_CALLS);
            CopyCount(d, s, CallsFrom(calls, k)) ==
              if r < len then r
              else if Drop(d, len) == [] || Drop(s, len) == [] then len
              else Plus(len, CopyCount(Drop(d, len), Drop(s, len), CallsFrom(calls, k + 1)))
  {
    hide StepMoves;
    assert CallsFrom(CallsFrom(calls, k), 1) == CallsFrom(calls, k + 1);
  }

  /** One byte into a destination of two: the destination's cursor stays at its start. */
  method OneByteStaysBehind() returns (n: int, dst: BufVec)
    ensures n == 1 && dst.Valid() && dst.bufs == [[7, 0]] && dst.idx == 0 && dst.off == 0
  {
    var src := new BufVec([[7]], [Memory]);
    dst := new BufVec([[0, 0]], [Memory]);
    OneBuffer([7]);
    OneBuffer([0, 0]);
    n := BufCopy(dst, src, []);
    assert Flat(src.bufs)[0..1] == [7] && Splice([0, 0], 0, [7]) == [7, 0];
    OneBuffer(dst.bufs[0]);
    assert dst.bufs == [dst.bufs[0]];
  }

  lemma OneBuffer(b: seq<Byte>)
    ensures Flat([b]) == b
  {
    assert [b][1..] == [];
  }
}
