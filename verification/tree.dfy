/**
  The directory tree that the inode cache keeps: every node has a parent pointer and a name,
  or neither once its name was removed.  Climbing means following parent pointers, which is what
  every path operation of the cache does.
 */
module Tree {

  type Ino = nat

  /** FUSE_ROOT_ID */
  const ROOT: Ino := 1

  /** `node->parent` and `node->name`; both are NULL after `unhash_name`, and for the root. */
  datatype Link = Detached | Linked(dir: Ino, name: string)

  type Links = map<Ino, Link>

  /** Climbing from n passes exactly the nodes of c and then stands at top. */
  ghost predicate Climbs(t: Links, n: Ino, c: seq<Ino>, top: Ino)
    decreases |c|
  {
    if c == [] then n == top
    else n == c[0] && n != ROOT && n in t && t[n].Linked? && Climbs(t, t[n].dir, c[1..], top)
  }

  /** A climb ends at the root, or at a node that has lost its name. */
  ghost predicate IsTop(t: Links, n: Ino) {
    n in t && (n == ROOT || t[n].Detached?)
  }

  ghost predicate ClimbEnds(t: Links, n: Ino, c: seq<Ino>, top: Ino) {
    Climbs(t, n, c, top) && IsTop(t, top)
  }

  ghost predicate Grounded(t: Links, n: Ino) {
    exists c, top :: ClimbEnds(t, n, c, top)
  }

  /** No climb runs in a circle or leaves the cache. */
  ghost predicate Acyclic(t: Links) {
    ROOT in t && forall n {:trigger Grounded(t, n)} | n in t :: Grounded(t, n)
  }

  /** The nodes a climb from n passes, n first, the end of the climb left out. */
  ghost function Chain(t: Links, n: Ino): (c: seq<Ino>)
    ensures Grounded(t, n) ==> exists top :: ClimbEnds(t, n, c, top)
  {
    if Grounded(t, n) then var c, top :| ClimbEnds(t, n, c, top); c else []
  }

  /** Where a climb from n ends. */
  ghost function Top(t: Links, n: Ino): (top: Ino)
    ensures Grounded(t, n) ==> ClimbEnds(t, n, Chain(t, n), top)
  {
    if Grounded(t, n) then var top: Ino :| ClimbEnds(t, n, Chain(t, n), top); top else n
  }

  ghost function ChainSet(t: Links, n: Ino): set<Ino> {
    set x | x in Chain(t, n)
  }

  lemma {:induction false} ClimbsUnique(t: Links, n: Ino, c: seq<Ino>, top: Ino, c': seq<Ino>, top': Ino)
    requires ClimbEnds(t, n, c, top) && ClimbEnds(t, n, c', top')
    ensures c == c' && top == top'
    decreases |c|
  {
    if c != [] && c' != [] {
      ClimbsUnique(t, t[n].dir, c[1..], top, c'[1..], top');
      assert c == [c[0]] + c[1..] && c' == [c'[0]] + c'[1..];
    }
  }

  lemma ChainIs(t: Links, n: Ino, c: seq<Ino>, top: Ino)
    requires ClimbEnds(t, n, c, top)
    ensures Grounded(t, n) && Chain(t, n) == c && Top(t, n) == top
  {
    assert Grounded(t, n);
    ClimbsUnique(t, n, c, top, Chain(t, n), Top(t, n));
  }

  lemma {:induction false} ClimbsAppend(t: Links, n: Ino, c: seq<Ino>, m: Ino, c': seq<Ino>, top: Ino)
    requires Climbs(t, n, c, m) && Climbs(t, m, c', top)
    ensures Climbs(t, n, c + c', top)
    decreases |c|
  {
    if c == [] {
      assert c + c' == c';
    } else {
      ClimbsAppend(t, t[n].dir, c[1..], m, c', top);
      assert (c + c')[1..] == c[1..] + c';
    }
  }

  /** A climb can be cut at any node it passes. */
  lemma {:induction false} ClimbsCut(t: Links, n: Ino, c: seq<Ino>, top: Ino, i: nat)
    requires Climbs(t, n, c, top) && i <= |c|
    ensures var m := if i < |c| then c[i] else top;
            Climbs(t, n, c[..i], m) && Climbs(t, m, c[i..], top)
    decreases |c|
  {
    if i == 0 {
      assert c[..0] == [] && c[0..] == c;
    } else {
      ClimbsCut(t, t[n].dir, c[1..], top, i - 1);
      assert c[..i][1..] == c[1..][..i - 1] && c[1..][i - 1..] == c[i..];
    }
  }

  lemma ClimbEndsDistinct(t: Links, n: Ino, c: seq<Ino>, top: Ino)
    requires ClimbEnds(t, n, c, top)
    ensures forall i, j | 0 <= i < j < |c| :: c[i] != c[j]
    ensures top !in c
  {
    ClimbsInTree(t, n, c, top);
    forall i, j | 0 <= i < j < |c|
      ensures c[i] != c[j]
    {
      ClimbsCut(t, n, c, top, i);
      ClimbsCut(t, n, c, top, j);
      if c[i] == c[j] {
        ClimbsUnique(t, c[i], c[i..], top, c[j..], top);
      }
    }
  }

  lemma {:induction false} ClimbsInTree(t: Links, n: Ino, c: seq<Ino>, top: Ino)
    requires Climbs(t, n, c, top)
    ensures forall x | x in c :: x in t && x != ROOT && t[x].Linked?
    ensures forall i, j | 0 <= i && j == i + 1 && j < |c| :: t[c[i]].dir == c[j]
    ensures if c == [] then n == top else c[0] == n && t[c[|c| - 1]].dir == top
    decreases |c|
  {
    if c != [] {
      var rest := c[1..];
      ClimbsInTree(t, t[n].dir, rest, top);
      forall i | 0 <= i < |c|
        ensures c[i] in t && c[i] != ROOT && t[c[i]].Linked?
        ensures i + 1 < |c| ==> t[c[i]].dir == c[i + 1]
      {
        assert i > 0 ==> c[i] == rest[i - 1];
        assert i + 1 < |c| ==> c[i + 1] == rest[i];
      }
      assert |c| > 1 ==> c[|c| - 1] == rest[|rest| - 1];
    }
  }

  /** A climb only depends on the nodes it passes. */
  lemma {:induction false} ClimbsFrame(t: Links, t': Links, n: Ino, c: seq<Ino>, top: Ino)
    requires Climbs(t, n, c, top)
    requires forall x | x in c :: x in t && x in t' && t'[x] == t[x]
    ensures Climbs(t', n, c, top)
    decreases |c|
  {
    if c != [] {
      ClimbsFrame(t, t', t[n].dir, c[1..], top);
    }
  }

  /** Every node on the climb from n has the rest of that climb as its own. */
  lemma ChainSuffix(t: Links, n: Ino, i: nat)
    requires Grounded(t, n) && i < |Chain(t, n)|
    ensures var m := Chain(t, n)[i];
            Grounded(t, m) && Chain(t, m) == Chain(t, n)[i..] && Top(t, m) == Top(t, n)
  {
    var c, top := Chain(t, n), Top(t, n);
    ClimbsCut(t, n, c, top, i);
    ChainIs(t, c[i], c[i..], top);
  }

  /** A climb stays the same in any tree that agrees on the nodes it passes and on its end. */
  lemma ChainFrame(t: Links, t': Links, m: Ino)
    requires Grounded(t, m)
    requires forall x | x in Chain(t, m) || x == Top(t, m) :: x in t && x in t' && t'[x] == t[x]
    ensures Grounded(t', m) && Chain(t', m) == Chain(t, m) && Top(t', m) == Top(t, m)
  {
    var c, top := Chain(t, m), Top(t, m);
    ClimbsFrame(t, t', m, c, top);
    ChainIs(t', m, c, top);
  }

  /** A named node climbs to where its parent climbs. */
  lemma TopOfChild(t: Links, n: Ino)
    requires Acyclic(t) && n in t && n != ROOT && t[n].Linked?
    ensures t[n].dir in t && Top(t, n) == Top(t, t[n].dir) && Chain(t, n) == [n] + Chain(t, t[n].dir)
  {
    var c, top := Chain(t, n), Top(t, n);
    ClimbsInTree(t, n, c, top);
    ChainIs(t, t[n].dir, c[1..], top);
    ClimbsInTree(t, t[n].dir, c[1..], top);
  }

  /** Taking a node's name away keeps the tree acyclic. */
  lemma DetachKeepsAcyclic(t: Links, n: Ino)
    requires Acyclic(t) && n in t && n != ROOT
    ensures Acyclic(t[n := Detached])
  {
    var t' := t[n := Detached];
    forall m | m in t'
      ensures Grounded(t', m)
    {
      var c, top := Chain(t, m), Top(t, m);
      if n in c {
        var i :| 0 <= i < |c| && c[i] == n;
        ClimbsCut(t, m, c, top, i);
        ClimbEndsDistinct(t, m, c, top);
        ClimbsInTree(t, m, c, top);
        ClimbsFrame(t, t', m, c[..i], n);
        assert ClimbEnds(t', m, c[..i], n);
      } else {
        ClimbsInTree(t, m, c, top);
        ClimbsFrame(t, t', m, c, top);
        assert ClimbEnds(t', m, c, top);
      }
    }
  }

  lemma AttachKeepsAcyclic(t: Links, n: Ino, dir: Ino, name: string)
    requires Acyclic(t) && n != ROOT && (n in t ==> t[n].Detached?) && dir in t && Top(t, dir) != n
    ensures Acyclic(t[n := Linked(dir, name)])
    ensures Top(t[n := Linked(dir, name)], n) == Top(t, dir)
  {
    var t', d, dtop := t[n := Linked(dir, name)], Chain(t, dir), Top(t, dir);
    ClimbsInTree(t, dir, d, dtop);
    ClimbsFrame(t, t', dir, d, dtop);
    var up := [n] + d;
    assert up[1..] == d;
    assert ClimbEnds(t', n, up, dtop);
    ChainIs(t', n, up, dtop);
    forall m | m in t && m != n
      ensures Grounded(t', m)
    {
      AttachKeepsGrounded(t, n, t'[n], m);
    }
  }

  lemma AttachKeepsGrounded(t: Links, n: Ino, l: Link, m: Ino)
    requires Grounded(t, m) && n != ROOT && (n in t ==> t[n].Detached?) && Grounded(t[n := l], n)
    ensures Grounded(t[n := l], m)
  {
    var t', c, top := t[n := l], Chain(t, m), Top(t, m);
    ClimbsInTree(t, m, c, top);
    ClimbsFrame(t, t', m, c, top);
    if top == n {
      ClimbsAppend(t', m, c, n, Chain(t', n), Top(t', n));
      assert ClimbEnds(t', m, c + Chain(t', n), Top(t', n));
    } else {
      assert ClimbEnds(t', m, c, top);
    }
  }

  lemma AttachMakesCycle(t: Links, n: Ino, dir: Ino, name: string)
    requires Acyclic(t) && n != ROOT && (n in t ==> t[n].Detached?) && dir in t && Top(t, dir) == n
    ensures !Acyclic(t[n := Linked(dir, name)])
  {
    var t', d := t[n := Linked(dir, name)], Chain(t, dir);
    ClimbsInTree(t, dir, d, n);
    ClimbsFrame(t, t', dir, d, n);
    if Acyclic(t') {
      // n's own climb passes dir and comes back to n
      var c, top := Chain(t', n), Top(t', n);
      assert ClimbEnds(t', dir, c[1..], top);
      ClimbsAppend(t', dir, d, n, c, top);
      ClimbsUnique(t', dir, c[1..], top, d + c, top);
    }
  }

  /**
    Giving a nameless node a parent keeps the tree acyclic exactly when the climb from the new
    parent does not end at that node.
   */
  lemma AttachAcyclicIff(t: Links, n: Ino, dir: Ino, name: string)
    requires Acyclic(t) && n != ROOT && (n in t ==> t[n].Detached?) && dir in t
    ensures Acyclic(t[n := Linked(dir, name)]) <==> Top(t, dir) != n
  {
    if Top(t, dir) != n {
      AttachKeepsAcyclic(t, n, dir, name);
    } else {
      AttachMakesCycle(t, n, dir, name);
    }
  }

  /** A fresh node can be added, with a parent or without. */
  lemma FreshAcyclic(t: Links, n: Ino, dir: Ino, name: string)
    requires Acyclic(t) && n !in t && dir in t
    ensures Acyclic(t[n := Detached]) && Acyclic(t[n := Linked(dir, name)])
  {
    AttachKeepsAcyclic(t, n, dir, name);
    DetachKeepsAcyclic(t[n := Linked(dir, name)], n);
    assert t[n := Linked(dir, name)][n := Detached] == t[n := Detached];
  }
}
