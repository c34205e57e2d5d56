/**
  The text of a path: names are put in front of it one by one, in a buffer that is filled from its
  end and replaced by a bigger one when it is too small.
 */
module PathBuffer {

  const TWO_TO_32 := 0x1_0000_0000

  /** The names, from the last component to the first, each after a slash. */
  function Slashed(names: seq<string>): string {
    if names == [] then "" else Slashed(names[1..]) + "/" + names[0]
  }

  lemma {:induction false} SlashedLonger(names: seq<string>, name: string)
    ensures Slashed(names + [name]) == "/" + name + Slashed(names)
    decreases |names|
  {
    if names == [] {
      assert names + [name] == [name] && [name][1..] == [];
    } else {
      SlashedLonger(names[1..], name);
      assert (names + [name])[1..] == names[1..] + [name];
      Reassociate("/" + name, Slashed(names[1..]), "/" + names[0]);
      Reassociate("/" + name + Slashed(names[1..]), "/", names[0]);
      Reassociate(Slashed(names[1..]), "/", names[0]);
    }
  }

  /** The path that try_get_path returns: "/" when there is no component at all. */
  function PathOf(names: seq<string>): string {
    if names == [] then "/" else Slashed(names)
  }

  lemma Reassociate(a: string, b: string, c: string)
    ensures a + (b + c) == a + b + c
  {
  }

  /** What stands between the slashes of a path, from left to right; acc has been read already. */
  function Split(path: string, acc: string): seq<string>
    decreases |path|
  {
    if path == "" then [acc]
    else if path[0] == '/' then [acc] + Split(path[1..], "")
    else Split(path[1..], acc + [path[0]])
  }

  function Reverse(names: seq<string>): seq<string> {
    if names == [] then [] else Reverse(names[1..]) + [names[0]]
  }

  lemma {:induction false} SplitName(name: string, acc: string)
    requires '/' !in name
    ensures Split(name, acc) == [acc + name]
    decreases |name|
  {
    if name == "" {
      assert acc + name == acc;
    } else {
      SplitName(name[1..], acc + [name[0]]);
      assert acc + [name[0]] + name[1..] == acc + name;
    }
  }

  lemma {:induction false} SplitLast(path: string, name: string, acc: string)
    requires '/' !in name
    ensures Split(path + "/" + name, acc) == Split(path, acc) + [name]
    decreases |path|
  {
    var all := path + "/" + name;
    if path == "" {
      SplitName(name, "");
      assert all[1..] == name && "" + name == name;
    } else {
      var acc' := if path[0] == '/' then "" else acc + [path[0]];
      SplitLast(path[1..], name, acc');
      assert all[0] == path[0] && all[1..] == path[1..] + "/" + name;
      assert [acc] + (Split(path[1..], acc') + [name]) == [acc] + Split(path[1..], acc') + [name];
    }
  }

  /** The text of a path falls into the names it was made of, the one below the root first. */
  lemma {:induction false} SplitSlashed(names: seq<string>)
    requires forall i | 0 <= i < |names| :: '/' !in names[i]
    ensures Split(Slashed(names), "") == [""] + Reverse(names)
  {
    if names != [] {
      SplitSlashed(names[1..]);
      SplitLast(Slashed(names[1..]), names[0], "");
    }
  }

  /** The variables buf, bufsize and s of `try_get_path` */
  class PathBuf {
    var buf: array<char>
    var s: nat

    /** The text has its final NUL in the last byte of the buffer. */
    ghost predicate Valid()
      reads this, buf
    {
      s < buf.Length < TWO_TO_32 && buf[buf.Length - 1] == '\0'
    }

    ghost function Text(): string
      requires Valid()
      reads this, buf
    {
      buf[s..buf.Length - 1]
    }

    constructor ()
      ensures Valid() && Text() == "" && fresh(buf)
    {
      buf := new char[256];
      s := 255;
      new;
      buf[255] := '\0';
    }

    /** Copying the text, with its NUL, to the end of a bigger buffer: `realloc` and `memmove` */
    method Grow(newbufsize: nat)
      requires Valid() && buf.Length <= newbufsize < TWO_TO_32
      modifies this
      ensures Valid() && fresh(buf) && buf.Length == newbufsize && Text() == old(Text())
      ensures buf.Length - s == old(buf.Length - s)
    {
      var newbuf := new char[newbufsize];
      var pathlen := buf.Length - s;
      var at := newbufsize - pathlen;
      var i := 0;
      while i < pathlen
        invariant i <= pathlen && newbuf[at..at + i] == old(buf[s..s + i])
        invariant unchanged(this) && unchanged(buf) && fresh(newbuf)
      {
        newbuf[at + i] := buf[s + i];
        i := i + 1;
      }
      assert newbuf[at..at + pathlen] == old(buf[s..]);
      assert newbuf[newbufsize - 1] == newbuf[at..at + pathlen][pathlen - 1];
      assert newbuf[at..newbufsize - 1] == newbuf[at..at + pathlen][..pathlen - 1];
      buf, s := newbuf, at;
    }

    /** The first half of `add_name`: makes room for a name of length len and a slash. */
    method MakeRoom(len: nat)
      requires Valid() && |Text()| + len + 2 < TWO_TO_32
      modifies this
      ensures Valid() && Text() == old(Text()) && s > len
      ensures if old(s) > len then buf == old(buf) && s == old(s) else fresh(buf)
      ensures buf.Length == old(buf.Length) || buf.Length < 2 * (|Text()| + len + 2) || buf.Length == 0xffff_ffff
    {
      if s <= len {
        var pathlen := buf.Length - s;
        var newbufsize := buf.Length;
        while newbufsize < pathlen + len + 1
          invariant buf.Length <= newbufsize < TWO_TO_32
          invariant newbufsize == buf.Length || newbufsize < 2 * (pathlen + len + 1) || newbufsize == 0xffff_ffff
          invariant unchanged(this) && unchanged(buf)
          decreases pathlen + len + 1 - newbufsize
        {
          newbufsize := if newbufsize >= 0x8000_0000 then 0xffff_ffff else 2 * newbufsize;
        }
        Grow(newbufsize);
      }
    }

    /** `add_name`; the text must fit 32 bits. */
    method AddName(name: string)
      requires Valid() && |Text()| + |name| + 2 < TWO_TO_32
      modifies this, buf
      ensures Valid() && Text() == "/" + name + old(Text())
      ensures buf == old(buf) || fresh(buf)
    {
      MakeRoom(|name|);
      ghost var text := Text();
      s := s - |name|;
      CopyName(buf, s, name);
      assert Text() == name + text;
      s := s - 1;
      PutSlash(buf, s);
      Reassociate("/", name, text);
    }

    /** The whole text, at the front of the buffer. */
    method Finish() returns (path: string)
      requires Valid()
      ensures path == if Text() == "" then "/" else Text()
    {
      if s < buf.Length - 1 {
        path := buf[s..buf.Length - 1];
      } else {
        path := "/";
      }
    }
  }

  /** `strncpy` of a whole name in front of the text in b, which ends with a NUL */
  method CopyName(b: array<char>, at: nat, name: string)
    requires at + |name| < b.Length
    modifies b
    ensures b[at..b.Length - 1] == name + old(b[at + |name|..b.Length - 1])
    ensures b[b.Length - 1] == old(b[b.Length - 1])
  {
    var i := 0;
    while i < |name|
      invariant i <= |name| && b[at..at + i] == name[..i]
      invariant forall j | at + i <= j < b.Length :: b[j] == old(b[j])
    {
      b[at + i] := name[i];
      i := i + 1;
    }
  }

  method PutSlash(b: array<char>, at: nat)
    requires at + 1 < b.Length
    modifies b
    ensures b[at..b.Length - 1] == "/" + old(b[at + 1..b.Length - 1])
    ensures b[b.Length - 1] == old(b[b.Length - 1])
  {
    b[at] := '/';
  }

  lemma {:induction false} PrefixFits(names: seq<string>, i: nat)
    requires i <= |names|
    ensures |Slashed(names[..i])| <= |Slashed(names)|
    decreases |names|
  {
    if i > 0 {
      PrefixFits(names[1..], i - 1);
      assert names[..i][1..] == names[1..][..i - 1];
    }
  }
}
