/**
  The advisory byte-range locks of one node: a list shared by all owners, edited in place.  What the
  list means is a map from owner and offset to a lock type, and a lock request overwrites a range of
  that map, as fcntl() in IEEE Std 1003.1-2008 (System Interfaces) asks.
 */
module RangeLocks {
  import opened Wrappers

  const OFFSET_MAX := 0x7fff_ffff_ffff_ffff

  datatype LockType = RdLck | WrLck | UnLck

  /** `struct lock`; both ends belong to the range. */
  datatype Lock = Lock(typ: LockType, start: int, end: int, pid: int, owner: nat)

  predicate Covers(l: Lock, owner: nat, b: int) {
    l.owner == owner && l.start <= b <= l.end
  }

  /** What owner holds at offset b; UnLck stands for nothing. */
  ghost function TypeAt(ls: seq<Lock>, owner: nat, b: int): LockType {
    if ls == [] then UnLck
    else if Covers(ls[0], owner, b) then ls[0].typ
    else TypeAt(ls[1..], owner, b)
  }

  /** The same after the range of l has been given l's type. */
  ghost function Overwritten(ls: seq<Lock>, l: Lock, owner: nat, b: int): LockType {
    if Covers(l, owner, b) then l.typ else TypeAt(ls, owner, b)
  }

  ghost predicate ValidRange(l: Lock) {
    0 <= l.start <= l.end <= OFFSET_MAX
  }

  /** l lies before l', with a gap if they could be one entry. */
  ghost predicate Apart(l: Lock, l': Lock) {
    l.owner == l'.owner ==> l.end < l'.start && (l.typ == l'.typ ==> l.end + 1 < l'.start)
  }

  /** Each owner's entries are sorted, disjoint and maximally merged. */
  ghost predicate WellFormed(ls: seq<Lock>) {
    && (forall i | 0 <= i < |ls| :: ValidRange(ls[i]) && ls[i].typ != UnLck)
    && (forall i, j | 0 <= i < j < |ls| :: Apart(ls[i], ls[j]))
  }

  lemma {:induction false} TypeAtAppend(x: seq<Lock>, y: seq<Lock>, owner: nat, b: int)
    requires forall i | 0 <= i < |x| :: x[i].typ != UnLck
    ensures TypeAt(x + y, owner, b) == if TypeAt(x, owner, b) != UnLck then TypeAt(x, owner, b) else TypeAt(y, owner, b)
  {
    if x == [] {
      assert x + y == y;
    } else {
      TypeAtAppend(x[1..], y, owner, b);
      assert (x + y)[1..] == x[1..] + y;
    }
  }

  lemma {:induction false} NothingAt(x: seq<Lock>, owner: nat, b: int)
    requires forall i | 0 <= i < |x| :: !Covers(x[i], owner, b)
    ensures TypeAt(x, owner, b) == UnLck
  {
    if x != [] {
      NothingAt(x[1..], owner, b);
    }
  }

  /** Replacing one entry by others, seen at one offset. */
  lemma TypeAtReplaced(ls: seq<Lock>, i: nat, mid: seq<Lock>, owner: nat, b: int)
    requires i < |ls| && forall j | 0 <= j < |ls| :: ls[j].typ != UnLck
    requires forall j | 0 <= j < |mid| :: mid[j].typ != UnLck
    requires TypeAt(ls[..i], owner, b) == UnLck ==> TypeAt(mid, owner, b) == TypeAt([ls[i]], owner, b)
    ensures TypeAt(ls[..i] + mid + ls[i + 1..], owner, b) == TypeAt(ls, owner, b)
  {
    hide TypeAt;
    var pre, post := ls[..i], ls[i + 1..];
    assert ls == pre + ([ls[i]] + post);
    assert pre + mid + post == pre + (mid + post);
    TypeAtAppend(pre, [ls[i]] + post, owner, b);
    TypeAtAppend([ls[i]], post, owner, b);
    TypeAtAppend(pre, mid + post, owner, b);
    TypeAtAppend(mid, post, owner, b);
  }

  /** Where an entry lies, its type is what the owner holds. */
  lemma EntryAt(ls: seq<Lock>, i: nat, owner: nat, b: int)
    requires WellFormed(ls) && i < |ls| && Covers(ls[i], owner, b)
    ensures TypeAt(ls, owner, b) == ls[i].typ
  {
    assert ls == ls[..i] + ([ls[i]] + ls[i + 1..]);
    forall j | 0 <= j < i
      ensures !Covers(ls[..i][j], owner, b)
    {
      assert Apart(ls[j], ls[i]);
    }
    NothingAt(ls[..i], owner, b);
    TypeAtAppend(ls[..i], [ls[i]] + ls[i + 1..], owner, b);
  }

  predicate PartOf(l: Lock, whole: Lock) {
    l.typ == whole.typ && l.owner == whole.owner && whole.start <= l.start && l.end <= whole.end
  }

  lemma PartsWellFormed(ls: seq<Lock>, i: nat, mid: seq<Lock>)
    requires WellFormed(ls) && i < |ls| && WellFormed(mid) && forall j | 0 <= j < |mid| :: PartOf(mid[j], ls[i])
    ensures WellFormed(ls[..i] + mid + ls[i + 1..])
  {
    var ls' := ls[..i] + mid + ls[i + 1..];
    forall j, m | 0 <= j < m < |ls'|
      ensures Apart(ls'[j], ls'[m])
    {
      var j' := if j < i then j else if j < i + |mid| then i else j - |mid| + 1;
      var m' := if m < i then m else if m < i + |mid| then i else m - |mid| + 1;
      assert j' < m' ==> Apart(ls[j'], ls[m']);
      assert PartOf(ls'[j], ls[j']) && PartOf(ls'[m], ls[m']);
      if j' == m' {
        assert Apart(mid[j - i], mid[m - i]);
      }
    }
  }

  /**
    Replacing entry i by mid while the pending request grows from lock to lock' does not change what
    the list will mean in the end: outside lock' mid says what the entry said, and what lock' gained
    was held with its type already.
   */
  lemma EditKeeps(ls: seq<Lock>, i: nat, mid: seq<Lock>, lock: Lock, lock': Lock)
    requires WellFormed(ls) && i < |ls| && lock' == lock.(start := lock'.start, end := lock'.end)
    requires lock'.start <= lock.start && lock.end <= lock'.end
    requires WellFormed(mid) && forall j | 0 <= j < |mid| :: PartOf(mid[j], ls[i])
    requires forall o, b :: Covers(lock', o, b) || TypeAt(mid, o, b) == TypeAt([ls[i]], o, b)
    requires forall o, b :: Covers(lock', o, b) && !Covers(lock, o, b) ==> Covers(ls[i], o, b) && ls[i].typ == lock.typ
    ensures WellFormed(ls[..i] + mid + ls[i + 1..])
    ensures forall o, b :: Overwritten(ls[..i] + mid + ls[i + 1..], lock', o, b) == Overwritten(ls, lock, o, b)
  {
    PartsWellFormed(ls, i, mid);
    forall o, b
      ensures Overwritten(ls[..i] + mid + ls[i + 1..], lock', o, b) == Overwritten(ls, lock, o, b)
    {
      if !Covers(lock', o, b) {
        TypeAtReplaced(ls, i, mid, o, b);
      } else if !Covers(lock, o, b) {
        EntryAt(ls, i, o, b);
      }
    }
  }

  /** What is left of an entry outside the request. */
  function Outside(l: Lock, lock: Lock): seq<Lock> {
    (if l.start < lock.start then [l.(end := lock.start - 1)] else [])
    + if lock.end < l.end then [l.(start := lock.end + 1)] else []
  }

  /** Cutting the range of the request out of an overlapping entry. */
  lemma CutKeeps(ls: seq<Lock>, i: nat, lock: Lock)
    requires WellFormed(ls) && i < |ls| && ls[i].owner == lock.owner && ValidRange(lock)
    requires lock.start <= ls[i].end && ls[i].start <= lock.end
    ensures var ls' := ls[..i] + Outside(ls[i], lock) + ls[i + 1..];
            WellFormed(ls') && forall o, b :: Overwritten(ls', lock, o, b) == Overwritten(ls, lock, o, b)
  {
    forall o, b | !Covers(lock, o, b)
      ensures TypeAt(Outside(ls[i], lock), o, b) == TypeAt([ls[i]], o, b)
    {
      var l := ls[i];
      TypeAtAppend(if l.start < lock.start then [l.(end := lock.start - 1)] else [],
                   if lock.end < l.end then [l.(start := lock.end + 1)] else [], o, b);
    }
    EditKeeps(ls, i, Outside(ls[i], lock), lock, lock);
  }

  /** Joining an overlapping or adjacent entry of the same type into the request. */
  lemma JoinKeeps(ls: seq<Lock>, i: nat, lock: Lock, lock': Lock)
    requires WellFormed(ls) && i < |ls| && ls[i].owner == lock.owner && ls[i].typ == lock.typ && ValidRange(lock)
    requires lock.start - 1 <= ls[i].end && ls[i].start - 1 <= lock.end
    requires var l := ls[i];
             lock' == lock.(start := if l.start < lock.start then l.start else lock.start,
                            end := if lock.end < l.end then l.end else lock.end)
    ensures var ls' := ls[..i] + ls[i + 1..];
            WellFormed(ls') && forall o, b :: Overwritten(ls', lock', o, b) == Overwritten(ls, lock, o, b)
  {
    EditKeeps(ls, i, [], lock, lock');
    assert ls[..i] + [] + ls[i + 1..] == ls[..i] + ls[i + 1..];
  }

  /** A request inside an entry of its own type changes nothing. */
  lemma InsideKeeps(ls: seq<Lock>, i: nat, lock: Lock)
    requires WellFormed(ls) && i < |ls| && ls[i].owner == lock.owner && ls[i].typ == lock.typ
    requires ls[i].start <= lock.start && lock.end <= ls[i].end
    ensures forall o, b :: Overwritten(ls, lock, o, b) == TypeAt(ls, o, b)
  {
    forall o, b | Covers(lock, o, b)
      ensures TypeAt(ls, o, b) == lock.typ
    {
      EntryAt(ls, i, o, b);
    }
  }

  /** The four ways the code writes the cut down. */
  lemma CutCases(ls: seq<Lock>, i: nat, lock: Lock)
    requires i < |ls|
    ensures var l := ls[i];
            var cut := ls[..i] + Outside(l, lock) + ls[i + 1..];
            var left, right := l.(end := lock.start - 1), l.(start := lock.end + 1);
            && (lock.start <= l.start && l.end <= lock.end ==> cut == ls[..i] + ls[i + 1..])
            && (l.start < lock.start && l.end <= lock.end ==> cut == ls[i := left])
            && (lock.start <= l.start && lock.end < l.end ==> cut == ls[i := right])
            && (l.start < lock.start && lock.end < l.end ==> cut == ls[..i] + [left, right] + ls[i + 1..])
  {
  }

  lemma StoreWellFormed(ls: seq<Lock>, i: nat, lock: Lock)
    requires WellFormed(ls) && i <= |ls| && ValidRange(lock) && lock.typ != UnLck
    requires forall j | 0 <= j < i :: Apart(ls[j], lock)
    requires forall j | i <= j < |ls| :: Apart(lock, ls[j])
    ensures WellFormed(ls[..i] + [lock] + ls[i..])
  {
    var ls' := ls[..i] + [lock] + ls[i..];
    forall j, m | 0 <= j < m < |ls'|
      ensures Apart(ls'[j], ls'[m])
    {
      var j' := if j < i then j else j - 1;
      var m' := if m < i then m else m - 1;
      assert j != i && m != i ==> Apart(ls[j'], ls[m']);
    }
  }

  /** Storing the pending request between the entries before and after it. */
  lemma StoreKeeps(ls: seq<Lock>, i: nat, lock: Lock)
    requires WellFormed(ls) && i <= |ls|
    requires forall j | 0 <= j < i :: Apart(ls[j], lock)
    requires forall j | i <= j < |ls| :: Apart(lock, ls[j])
    requires ValidRange(lock)
    ensures var ls' := if lock.typ != UnLck then ls[..i] + [lock] + ls[i..] else ls;
            WellFormed(ls') && forall o, b :: TypeAt(ls', o, b) == Overwritten(ls, lock, o, b)
  {
    var ls' := if lock.typ != UnLck then ls[..i] + [lock] + ls[i..] else ls;
    if lock.typ != UnLck {
      StoreWellFormed(ls, i, lock);
    }
    forall o, b
      ensures TypeAt(ls', o, b) == Overwritten(ls, lock, o, b)
    {
      StoredAt(ls, i, lock, o, b);
    }
  }

  lemma StoredAt(ls: seq<Lock>, i: nat, lock: Lock, o: nat, b: int)
    requires WellFormed(ls) && i <= |ls|
    requires forall j | 0 <= j < i :: Apart(ls[j], lock)
    requires forall j | i <= j < |ls| :: Apart(lock, ls[j])
    ensures var ls' := if lock.typ != UnLck then ls[..i] + [lock] + ls[i..] else ls;
            TypeAt(ls', o, b) == Overwritten(ls, lock, o, b)
  {
    if Covers(lock, o, b) {
      NothingAt(ls[..i], o, b);
      NothingAt(ls[i..], o, b);
    }
    assert ls == ls[..i] + ls[i..];
    TypeAtAppend(ls[..i], ls[i..], o, b);
    if lock.typ != UnLck {
      assert ls[..i] + [lock] + ls[i..] == ls[..i] + ([lock] + ls[i..]);
      TypeAtAppend(ls[..i], [lock] + ls[i..], o, b);
      TypeAtAppend([lock], ls[i..], o, b);
    }
  }

  // ---------------------------------------------------------------- mutual exclusion

  predicate Conflicts(l: Lock, lock: Lock) {
    && l.owner != lock.owner
    && lock.start <= l.end && l.start <= lock.end
    && (l.typ == WrLck || lock.typ == WrLck)
  }

  /** Two owners cannot hold these types on the same byte. */
  predicate Clash(held: LockType, wanted: LockType) {
    held != UnLck && (held == WrLck || wanted == WrLck)
  }

  /** No byte of the request is held incompatibly by another owner. */
  ghost predicate Free(ls: seq<Lock>, lock: Lock) {
    forall o, b | o != lock.owner && lock.start <= b <= lock.end :: !Clash(TypeAt(ls, o, b), lock.typ)
  }

  /** All owners are pairwise compatible. */
  ghost predicate Compatible(ls: seq<Lock>) {
    forall o, o', b | o != o' && TypeAt(ls, o', b) != UnLck :: !Clash(TypeAt(ls, o, b), TypeAt(ls, o', b))
  }

  lemma FreeIff(ls: seq<Lock>, lock: Lock)
    requires WellFormed(ls) && ValidRange(lock)
    ensures Free(ls, lock) <==> forall i | 0 <= i < |ls| :: !Conflicts(ls[i], lock)
  {
    forall i | 0 <= i < |ls| && Conflicts(ls[i], lock)
      ensures !Free(ls, lock)
    {
      var b := if ls[i].start < lock.start then lock.start else ls[i].start;
      EntryAt(ls, i, ls[i].owner, b);
      assert Clash(TypeAt(ls, ls[i].owner, b), lock.typ);
    }
    if forall i | 0 <= i < |ls| :: !Conflicts(ls[i], lock) {
      forall o, b | o != lock.owner && lock.start <= b <= lock.end
        ensures !Clash(TypeAt(ls, o, b), lock.typ)
      {
        if i :| 0 <= i < |ls| && Covers(ls[i], o, b) {
          EntryAt(ls, i, o, b);
        } else {
          NothingAt(ls, o, b);
        }
      }
    }
  }

  /**
    Owners that were compatible stay so exactly when what is inserted is an unlock or conflicts with
    nobody.
   */
  lemma InsertCompatibleIff(ls: seq<Lock>, ls': seq<Lock>, lock: Lock)
    requires Compatible(ls) && ValidRange(lock)
    requires forall o, b :: TypeAt(ls', o, b) == Overwritten(ls, lock, o, b)
    ensures Compatible(ls') <==> lock.typ == UnLck || Free(ls, lock)
  {
    if lock.typ == UnLck || Free(ls, lock) {
      InsertKeepsCompatible(ls, ls', lock);
    } else {
      var o, b :| o != lock.owner && lock.start <= b <= lock.end && Clash(TypeAt(ls, o, b), lock.typ);
      assert TypeAt(ls', o, b) == Overwritten(ls, lock, o, b) && TypeAt(ls', lock.owner, b) == lock.typ;
    }
  }

  lemma InsertKeepsCompatible(ls: seq<Lock>, ls': seq<Lock>, lock: Lock)
    requires Compatible(ls) && (lock.typ == UnLck || Free(ls, lock))
    requires forall o, b :: TypeAt(ls', o, b) == Overwritten(ls, lock, o, b)
    ensures Compatible(ls')
  {
    forall o, o', b | o != o' && TypeAt(ls', o', b) != UnLck
      ensures !Clash(TypeAt(ls', o, b), TypeAt(ls', o', b))
    {
      assert TypeAt(ls', o, b) == Overwritten(ls, lock, o, b) && TypeAt(ls', o', b) == Overwritten(ls, lock, o', b);
      if Covers(lock, o, b) {
        assert lock.typ != UnLck ==> !Clash(TypeAt(ls, o', b), lock.typ);
      } else if Covers(lock, o', b) {
        assert !Clash(TypeAt(ls, o, b), lock.typ);
      } else {
        assert !Clash(TypeAt(ls, o, b), TypeAt(ls, o', b));
      }
    }
  }

  // ---------------------------------------------------------------- whose entries change

  /** The entries of all other owners, in order. */
  function OthersOf(ls: seq<Lock>, owner: nat): seq<Lock> {
    if ls == [] then []
    else (if ls[0].owner == owner then [] else [ls[0]]) + OthersOf(ls[1..], owner)
  }

  /** The entry carries the process id of the request or of an earlier entry of its owner. */
  ghost predicate PidFrom(l: Lock, ls: seq<Lock>, request: Lock) {
    l.pid == request.pid || exists i :: 0 <= i < |ls| && ls[i].owner == l.owner && ls[i].pid == l.pid
  }

  /** From ls0 to ls only entries of the request's owner have changed. */
  ghost predicate OwnOnly(ls0: seq<Lock>, ls: seq<Lock>, request: Lock) {
    && OthersOf(ls, request.owner) == OthersOf(ls0, request.owner)
    && forall i | 0 <= i < |ls| && ls[i].owner == request.owner :: PidFrom(ls[i], ls0, request)
  }

  lemma {:induction false} OthersAppend(x: seq<Lock>, y: seq<Lock>, owner: nat)
    ensures OthersOf(x + y, owner) == OthersOf(x, owner) + OthersOf(y, owner)
  {
    if x == [] {
      assert x + y == y;
    } else {
      OthersAppend(x[1..], y, owner);
      assert (x + y)[1..] == x[1..] + y;
      var first := if x[0].owner == owner then [] else [x[0]];
      assert first + (OthersOf(x[1..], owner) + OthersOf(y, owner)) ==
               first + OthersOf(x[1..], owner) + OthersOf(y, owner);
    }
  }

  lemma {:induction false} NoOthers(x: seq<Lock>, owner: nat)
    requires forall i | 0 <= i < |x| :: x[i].owner == owner
    ensures OthersOf(x, owner) == []
  {
    if x != [] {
      NoOthers(x[1..], owner);
    }
  }

  lemma OwnAtFirst(ls: seq<Lock>, request: Lock)
    ensures OwnOnly(ls, ls, request)
  {
  }

  /** Replacing some entries of the owner by others of his. */
  lemma EditOwn(ls0: seq<Lock>, ls: seq<Lock>, i: nat, k: nat, mid: seq<Lock>, request: Lock)
    requires i <= k <= |ls| && OwnOnly(ls0, ls, request)
    requires forall j | i <= j < k :: ls[j].owner == request.owner
    requires forall j | 0 <= j < |mid| ::
               mid[j].owner == request.owner && (mid[j].pid == request.pid || (i < k && mid[j].pid == ls[i].pid))
    ensures OwnOnly(ls0, ls[..i] + mid + ls[k..], request)
  {
    hide OthersOf, PidFrom;
    var owner := request.owner;
    assert ls == ls[..i] + ls[i..k] + ls[k..];
    NoOthers(ls[i..k], owner);
    NoOthers(mid, owner);
    OthersAppend(ls[..i] + ls[i..k], ls[k..], owner);
    OthersAppend(ls[..i], ls[i..k], owner);
    OthersAppend(ls[..i] + mid, ls[k..], owner);
    OthersAppend(ls[..i], mid, owner);
    var ls' := ls[..i] + mid + ls[k..];
    forall j | 0 <= j < |ls'| && ls'[j].owner == owner
      ensures PidFrom(ls'[j], ls0, request)
    {
      if j < i {
        assert ls'[j] == ls[j];
      } else if j < i + |mid| {
        if i < k {
          assert PidFrom(ls[i], ls0, request);
        }
        SamePid(mid[j - i], ls0, request);
        if i < k && mid[j - i].pid == ls[i].pid {
          SamePids(ls[i], mid[j - i], ls0, request);
        }
      } else {
        assert ls'[j] == ls[j - i - |mid| + k];
      }
    }
  }

  lemma OutsideIsOwn(l: Lock, lock: Lock)
    ensures forall i | 0 <= i < |Outside(l, lock)| ::
              Outside(l, lock)[i].owner == l.owner && Outside(l, lock)[i].pid == l.pid
  {
  }

  lemma SamePid(l: Lock, ls: seq<Lock>, request: Lock)
    ensures l.pid == request.pid ==> PidFrom(l, ls, request)
  {
  }

  lemma SamePids(l: Lock, l': Lock, ls: seq<Lock>, request: Lock)
    requires PidFrom(l, ls, request) && l'.owner == l.owner && l'.pid == l.pid
    ensures PidFrom(l', ls, request)
  {
  }

  // What the loop does to the list, with what it keeps.

  ghost predicate SameMeaning(ls: seq<Lock>, lock: Lock, ls': seq<Lock>, lock': Lock) {
    forall o, b :: Overwritten(ls', lock', o, b) == Overwritten(ls, lock, o, b)
  }

  lemma MeaningFirst(ls: seq<Lock>, lock: Lock)
    ensures SameMeaning(ls, lock, ls, lock)
  {
  }

  lemma MeaningTrans(ls: seq<Lock>, lock: Lock, ls': seq<Lock>, lock': Lock, ls'': seq<Lock>, lock'': Lock)
    requires SameMeaning(ls, lock, ls', lock') && SameMeaning(ls', lock', ls'', lock'')
    ensures SameMeaning(ls, lock, ls'', lock'')
  {
  }

  /** The entry that holds the request already means that all is done. */
  lemma InsideStep(ls0: seq<Lock>, ls: seq<Lock>, i: nat, lock: Lock, request: Lock)
    requires WellFormed(ls) && i < |ls| && ls[i].owner == lock.owner && ls[i].typ == lock.typ
    requires ls[i].start <= lock.start && lock.end <= ls[i].end && SameMeaning(ls0, request, ls, lock)
    ensures forall o, b :: TypeAt(ls, o, b) == Overwritten(ls0, request, o, b)
  {
    hide TypeAt, Overwritten;
    InsideKeeps(ls, i, lock);
  }

  lemma JoinStep(ls0: seq<Lock>, ls: seq<Lock>, i: nat, lock: Lock, lock': Lock, request: Lock)
    requires WellFormed(ls) && i < |ls| && ls[i].owner == lock.owner && ls[i].typ == lock.typ && ValidRange(lock)
    requires lock.start - 1 <= ls[i].end && ls[i].start - 1 <= lock.end
    requires var l := ls[i];
             lock' == lock.(start := if l.start < lock.start then l.start else lock.start,
                            end := if lock.end < l.end then l.end else lock.end)
    requires OwnOnly(ls0, ls, request) && lock.owner == request.owner && SameMeaning(ls0, request, ls, lock)
    ensures var ls' := ls[..i] + ls[i + 1..];
            WellFormed(ls') && SameMeaning(ls0, request, ls', lock') && OwnOnly(ls0, ls', request)
  {
    hide TypeAt, Overwritten, OwnOnly;
    JoinKeeps(ls, i, lock, lock');
    MeaningTrans(ls0, request, ls, lock, ls[..i] + ls[i + 1..], lock');
    EditOwn(ls0, ls, i, i + 1, [], request);
    assert ls[..i] + [] + ls[i + 1..] == ls[..i] + ls[i + 1..];
  }

  lemma CutStep(ls0: seq<Lock>, ls: seq<Lock>, i: nat, lock: Lock, request: Lock)
    requires WellFormed(ls) && i < |ls| && ls[i].owner == lock.owner && ValidRange(lock)
    requires lock.start <= ls[i].end && ls[i].start <= lock.end
    requires OwnOnly(ls0, ls, request) && lock.owner == request.owner && SameMeaning(ls0, request, ls, lock)
    ensures var l := ls[i];
            var left, right := l.(end := lock.start - 1), l.(start := lock.end + 1);
            var ls' := if lock.start <= l.start && l.end <= lock.end then ls[..i] + ls[i + 1..]
                       else if l.end <= lock.end then ls[i := left]
                       else if lock.start <= l.start then ls[i := right]
                       else ls[..i] + [left, right] + ls[i + 1..];
            WellFormed(ls') && SameMeaning(ls0, request, ls', lock) && OwnOnly(ls0, ls', request)
  {
    hide TypeAt, Overwritten, OwnOnly;
    CutKeeps(ls, i, lock);
    MeaningTrans(ls0, request, ls, lock, ls[..i] + Outside(ls[i], lock) + ls[i + 1..], lock);
    CutCases(ls, i, lock);
    OutsideIsOwn(ls[i], lock);
    EditOwn(ls0, ls, i, i + 1, Outside(ls[i], lock), request);
  }

  lemma StoreStep(ls0: seq<Lock>, ls: seq<Lock>, i: nat, lock: Lock, request: Lock)
    requires WellFormed(ls) && i <= |ls| && ValidRange(lock)
    requires forall j | 0 <= j < i :: Apart(ls[j], lock)
    requires forall j | i <= j < |ls| :: Apart(lock, ls[j])
    requires OwnOnly(ls0, ls, request) && lock.owner == request.owner && lock.pid == request.pid
    requires SameMeaning(ls0, request, ls, lock)
    ensures var ls' := if lock.typ != UnLck then ls[..i] + [lock] + ls[i..] else ls;
            && WellFormed(ls') && OwnOnly(ls0, ls', request)
            && forall o, b :: TypeAt(ls', o, b) == Overwritten(ls0, request, o, b)
  {
    hide TypeAt, Overwritten, OwnOnly;
    StoreKeeps(ls, i, lock);
    EditOwn(ls0, ls, i, i, [lock], request);
  }

  class Node {
    var locks: seq<Lock>

    /**
      `locks_conflict`: the first entry that conflicts.  There is none exactly when no byte of the
      request is held incompatibly by another owner.
     */
    method LocksConflict(lock: Lock) returns (l: Option<Lock>)
      requires WellFormed(locks) && ValidRange(lock)
      ensures l.Some? ==>
                exists i :: 0 <= i < |locks| && locks[i] == l.value && Conflicts(locks[i], lock)
                            && forall j | 0 <= j < i :: !Conflicts(locks[j], lock)
      ensures l.None? <==> Free(locks, lock)
    {
      var i := 0;
      while i < |locks|
        invariant i <= |locks| && forall j | 0 <= j < i :: !Conflicts(locks[j], lock)
      {
        if Conflicts(locks[i], lock) {
          FreeIff(locks, lock);
          return Some(locks[i]);
        }
        i := i + 1;
      }
      FreeIff(locks, lock);
      l := None;
    }

    /**
      `locks_insert`: the owner gets the new type on exactly the given range, and nothing else
      changes.  alloc says whether the two nodes asked for in advance can be had; they are not
      asked for when everything is unlocked.
     */
    method LocksInsert(request: Lock, alloc: bool) returns (ok: bool)
      requires WellFormed(locks) && ValidRange(request)
      modifies this
      ensures ok <==> alloc || (request.typ == UnLck && request.start == 0 && request.end == OFFSET_MAX)
      ensures !ok ==> locks == old(locks)
      ensures ok ==> WellFormed(locks)
      ensures ok ==> forall o, b :: TypeAt(locks, o, b) == Overwritten(old(locks), request, o, b)
      ensures ok ==> OwnOnly(old(locks), locks, request)
      ensures ok && Compatible(old(locks)) ==>
                (Compatible(locks) <==> request.typ == UnLck || Free(old(locks), request))
    {
      hide TypeAt, Overwritten, Outside, Compatible, Free, OwnOnly, SameMeaning;
      OwnAtFirst(locks, request);
      MeaningFirst(locks, request);
      var lock := request;
      var newl1, newl2 := false, false;
      if lock.typ != UnLck || lock.start != 0 || lock.end != OFFSET_MAX {
        if !alloc {
          return false;
        }
        newl1, newl2 := true, true;
      }
      var i := 0;
      while i < |locks|
        invariant i <= |locks| && WellFormed(locks) && ValidRange(lock)
        invariant lock == request.(start := lock.start, end := lock.end)
        invariant lock.start <= request.start && request.end <= lock.end
        invariant forall j | 0 <= j < i :: Apart(locks[j], lock)
        invariant lock.typ != UnLck || !(request.start == 0 && request.end == OFFSET_MAX) ==> newl1
        invariant newl1 == newl2
                  || (i < |locks| && locks[i].owner == lock.owner && locks[i].start > lock.end
                      && locks[i].typ != lock.typ)
        invariant SameMeaning(old(locks), request, locks, lock)
        invariant OwnOnly(old(locks), locks, request)
        decreases |locks| - i, newl2
      {
        var l := locks[i];
        if l.owner != lock.owner {
          i := i + 1;
        } else if lock.typ == l.typ {
          if l.end < lock.start - 1 {
            i := i + 1;
          } else if lock.end < l.start - 1 {
            break;
          } else if l.start <= lock.start && lock.end <= l.end {
            InsideStep(old(locks), locks, i, lock, request);
            if Compatible(old(locks)) {
              InsertCompatibleIff(old(locks), locks, request);
            }
            return true;
          } else {
            ghost var before := lock;
            if l.start < lock.start {
              lock := lock.(start := l.start);
            }
            if lock.end < l.end {
              lock := lock.(end := l.end);
            }
            JoinStep(old(locks), locks, i, before, lock, request);
            locks := locks[..i] + locks[i + 1..];
          }
        } else if l.end < lock.start {
          i := i + 1;
        } else if lock.end < l.start {
          break;
        } else {
          CutStep(old(locks), locks, i, lock, request);
          if lock.start <= l.start && l.end <= lock.end {
            locks := locks[..i] + locks[i + 1..];
          } else if l.end <= lock.end {
            locks := locks[i := l.(end := lock.start - 1)];
            i := i + 1;
          } else if lock.start <= l.start {
            locks := locks[i := l.(start := lock.end + 1)];
            break;
          } else {
            assert newl2;
            locks := locks[..i] + [l.(end := lock.start - 1), l.(start := lock.end + 1)] + locks[i + 1..];
            newl2 := false;
            i := i + 1;
          }
        }
      }
      assert forall j | i <= j < |locks| :: Apart(lock, locks[j]);
      StoreStep(old(locks), locks, i, lock, request);
      if lock.typ != UnLck {
        assert newl1;
        locks := locks[..i] + [lock] + locks[i..];
      }
      if Compatible(old(locks)) {
        InsertCompatibleIff(old(locks), locks, request);
      }
      ok := true;
    }
  }
}
