/**
  Reading a directory page by page: the packing of directory entries into a reply buffer, the page
  that a given offset yields, and what the kernel gets when it goes on from the last offset it saw.
 */
module ReaddirPages {

  type Byte = b: nat | b < 256

  /** One entry of `dh->first`: its name, inode number and file type. */
  datatype Entry = Entry(name: seq<Byte>, ino: nat, kind: nat)

  /** An entry together with the offset to go on from. */
  datatype Dirent = Dirent(entry: Entry, off: nat)

  const TWO_TO_32 := 0x1_0000_0000
  const TWO_TO_64 := 0x1_0000_0000_0000_0000

  /** FUSE_NAME_OFFSET */
  const NAME_OFFSET := 24

  ghost predicate EntryOk(e: Entry) {
    |e.name| < TWO_TO_32 - 32 && e.ino < TWO_TO_64 && e.kind < 16
  }

  ghost predicate AllOk(l: seq<Entry>) {
    (forall i | 0 <= i < |l| :: EntryOk(l[i])) && |l| < TWO_TO_64
  }

  // ---------------------------------------------------------------- bytes

  /** n in k bytes, the least significant first */
  function Bytes(n: nat, k: nat): (s: seq<Byte>)
    ensures |s| == k
  {
    if k == 0 then [] else [n % 256] + Bytes(n / 256, k - 1)
  }

  function Number(s: seq<Byte>): nat {
    if s == [] then 0 else s[0] + 256 * Number(s[1..])
  }

  function Power(k: nat): nat {
    if k == 0 then 1 else 256 * Power(k - 1)
  }

  lemma {:induction false} NumberOfBytes(n: nat, k: nat)
    requires n < Power(k)
    ensures Number(Bytes(n, k)) == n
  {
    if k > 0 {
      NumberOfBytes(n / 256, k - 1);
      assert Bytes(n, k)[1..] == Bytes(n / 256, k - 1);
    }
  }

  lemma Powers()
    ensures Power(4) == TWO_TO_32 && Power(8) == TWO_TO_64
  {
    assert Power(4) == 256 * Power(3) && Power(3) == 256 * Power(2) && Power(2) == 256 * Power(1);
    assert Power(8) == 256 * Power(7) && Power(7) == 256 * Power(6) && Power(6) == 256 * Power(5)
             && Power(5) == 256 * Power(4);
  }

  function Zeros(n: nat): seq<Byte> {
    seq(n, i => 0)
  }

  // ---------------------------------------------------------------- packing

  /** FUSE_DIRENT_ALIGN */
  function Align(x: nat): (r: nat)
    ensures x <= r < x + 8 && r % 8 == 0
  {
    (x + 7) / 8 * 8
  }

  /** The padded length of an entry */
  function EntryLen(namelen: nat): (r: nat)
    ensures NAME_OFFSET + namelen <= r < NAME_OFFSET + namelen + 8 && r % 8 == 0
  {
    Align(NAME_OFFSET + namelen)
  }

  /** `struct fuse_dirent`: inode number, offset, name length, type, name, padding */
  function Encode(e: Entry, off: nat): (r: seq<Byte>)
    ensures |r| == EntryLen(|e.name|)
  {
    Bytes(e.ino, 8) + Bytes(off, 8) + Bytes(|e.name|, 4) + Bytes(e.kind, 4) + e.name
    + Zeros(EntryLen(|e.name|) - NAME_OFFSET - |e.name|)
  }

  /** How the kernel reads a reply: entry after entry, as long as a whole one is left. */
  function Decode(b: seq<Byte>): seq<Dirent>
    decreases |b|
  {
    if |b| < NAME_OFFSET then []
    else
      var len := Number(b[16..20]);
      if EntryLen(len) > |b| then []
      else [Dirent(Entry(b[24..24 + len], Number(b[..8]), Number(b[20..24])), Number(b[8..16]))]
             + Decode(b[EntryLen(len)..])
  }

  lemma EncodeParts(e: Entry, off: nat, rest: seq<Byte>)
    ensures var b := Encode(e, off) + rest;
            && b[..8] == Bytes(e.ino, 8) && b[8..16] == Bytes(off, 8)
            && b[16..20] == Bytes(|e.name|, 4) && b[20..24] == Bytes(e.kind, 4)
            && b[24..24 + |e.name|] == e.name && b[EntryLen(|e.name|)..] == rest
  {
    hide Bytes, EntryLen, Zeros;
    var pad := Zeros(EntryLen(|e.name|) - NAME_OFFSET - |e.name|);
    BytesLen(e.ino, 8);
    BytesLen(off, 8);
    BytesLen(|e.name|, 4);
    BytesLen(e.kind, 4);
    PartsAt(Bytes(e.ino, 8), Bytes(off, 8), Bytes(|e.name|, 4), Bytes(e.kind, 4), e.name, pad, rest);
    ZerosLen(EntryLen(|e.name|) - NAME_OFFSET - |e.name|);
  }

  lemma BytesLen(n: nat, k: nat)
    ensures |Bytes(n, k)| == k
  {
  }

  lemma PartsAt(a: seq<Byte>, b: seq<Byte>, c: seq<Byte>, d: seq<Byte>, name: seq<Byte>, pad: seq<Byte>,
      rest: seq<Byte>)
    requires |a| == 8 && |b| == 8 && |c| == 4 && |d| == 4
    ensures var s := a + b + c + d + name + pad + rest;
            && s[..8] == a && s[8..16] == b && s[16..20] == c && s[20..24] == d
            && s[24..24 + |name|] == name && s[24 + |name| + |pad|..] == rest
  {
  }

  lemma DecodeEncoded(e: Entry, off: nat, rest: seq<Byte>)
    requires EntryOk(e) && off < TWO_TO_64
    ensures Decode(Encode(e, off) + rest) == [Dirent(e, off)] + Decode(rest)
  {
    hide Encode, EntryLen, Bytes, Number, Power, Zeros;
    EncodeParts(e, off, rest);
    Powers();
    NumberOfBytes(e.ino, 8);
    NumberOfBytes(off, 8);
    NumberOfBytes(|e.name|, 4);
    NumberOfBytes(e.kind, 4);
  }

  // ---------------------------------------------------------------- pages

  /** The reply to a read from offset off into a buffer with room bytes. */
  function Page(l: seq<Entry>, off: nat, room: nat): (r: seq<Byte>)
    ensures |r| <= room
    decreases |l| - off
  {
    if off >= |l| then []
    else
      var e := Encode(l[off], off + 1);
      if |e| > room then [] else e + Page(l, off + 1, room - |e|)
  }

  lemma {:induction false} PageAligned(l: seq<Entry>, off: nat, room: nat)
    ensures |Page(l, off, room)| % 8 == 0
    decreases |l| - off
  {
    hide Encode, EntryLen;
    if off < |l| && |Encode(l[off], off + 1)| <= room {
      PageAligned(l, off + 1, room - |Encode(l[off], off + 1)|);
    }
  }

  /** The entries of l from i on, up to k, with the offset behind each. */
  function Slice(l: seq<Entry>, i: nat, k: nat): (r: seq<Dirent>)
    requires i <= k <= |l|
    ensures |r| == k - i
    decreases k - i
  {
    if i == k then [] else [Dirent(l[i], i + 1)] + Slice(l, i + 1, k)
  }

  /** Where the page from offset off ends. */
  function PageEnd(l: seq<Entry>, off: nat, room: nat): (k: nat)
    requires off <= |l|
    ensures off <= k <= |l|
    ensures k == off <==> off == |l| || EntryLen(|l[off].name|) > room
    decreases |l| - off
  {
    if off == |l| || EntryLen(|l[off].name|) > room then off
    else PageEnd(l, off + 1, room - EntryLen(|l[off].name|))
  }

  /** A page ends where the list does or the next entry does not fit in what is left of the room. */
  lemma {:induction false} PageIsFull(l: seq<Entry>, off: nat, room: nat)
    requires off <= |l|
    ensures var k := PageEnd(l, off, room);
            k == |l| || EntryLen(|l[k].name|) > room - |Page(l, off, room)|
    decreases |l| - off
  {
    hide Encode, EntryLen;
    if off < |l| && EntryLen(|l[off].name|) <= room {
      PageIsFull(l, off + 1, room - EntryLen(|l[off].name|));
    }
  }

  /** A page decodes to consecutive entries, the first one being that at its offset. */
  lemma {:induction false} DecodePage(l: seq<Entry>, off: nat, room: nat)
    requires AllOk(l) && off <= |l|
    ensures Decode(Page(l, off, room)) == Slice(l, off, PageEnd(l, off, room))
    decreases |l| - off
  {
    hide Decode, Encode, EntryLen;
    if off < |l| && |Encode(l[off], off + 1)| <= room {
      var rest := room - EntryLen(|l[off].name|);
      DecodePage(l, off + 1, rest);
      DecodeEncoded(l[off], off + 1, Page(l, off + 1, rest));
    } else {
      DecodeNothing();
    }
  }

  lemma DecodeNothing()
    ensures Decode([]) == []
  {
  }

  lemma {:induction false} SliceJoin(l: seq<Entry>, i: nat, j: nat, k: nat)
    requires i <= j <= k <= |l|
    ensures Slice(l, i, j) + Slice(l, j, k) == Slice(l, i, k)
    ensures i < j ==> Slice(l, i, j)[j - i - 1].off == j
    decreases j - i
  {
    if i < j {
      SliceJoin(l, i + 1, j, k);
    }
  }

  /** All a reader gets that starts at off and goes on from the last offset until a page is empty. */
  ghost function ReadFrom(l: seq<Entry>, off: nat, size: nat): seq<Dirent>
    requires AllOk(l) && off <= |l|
    decreases |l| - off
  {
    var page := Decode(Page(l, off, size));
    if page == [] then []
    else
      DecodePage(l, off, size);
      SliceJoin(l, off, PageEnd(l, off, size), |l|);
      page + ReadFrom(l, page[|page| - 1].off, size)
  }

  /** The first entry from off on that is longer than size, or the end of the list. */
  function Stuck(l: seq<Entry>, off: nat, size: nat): (k: nat)
    requires off <= |l|
    ensures off <= k <= |l|
    ensures forall i | off <= i < k :: EntryLen(|l[i].name|) <= size
    ensures k < |l| ==> EntryLen(|l[k].name|) > size
    decreases |l| - off
  {
    if off == |l| || EntryLen(|l[off].name|) > size then off else Stuck(l, off + 1, size)
  }

  lemma {:induction false} PageBeforeStuck(l: seq<Entry>, off: nat, room: nat, size: nat)
    requires off <= |l| && room <= size
    ensures PageEnd(l, off, room) <= Stuck(l, off, size)
    ensures Stuck(l, PageEnd(l, off, room), size) == Stuck(l, off, size)
    decreases |l| - off
  {
    if PageEnd(l, off, room) != off {
      PageBeforeStuck(l, off + 1, room - EntryLen(|l[off].name|), size);
    }
  }

  /** A reader gets every entry before the first that does not fit a page, once and in order. */
  lemma {:induction false} ReadsUpTo(l: seq<Entry>, off: nat, size: nat)
    requires AllOk(l) && off <= |l|
    ensures ReadFrom(l, off, size) == Slice(l, off, Stuck(l, off, size))
    decreases |l| - off
  {
    hide Decode, Page, EntryLen;
    var k := PageEnd(l, off, size);
    DecodePage(l, off, size);
    PageBeforeStuck(l, off, size, size);
    if k > off {
      SliceJoin(l, off, k, Stuck(l, off, size));
      ReadsUpTo(l, k, size);
    }
  }

  /**
    Reading a directory from its start, always going on from the last offset, gives every entry
    exactly once and in order if and only if the page size fits the longest padded entry.
   */
  lemma ReadsAllIff(l: seq<Entry>, size: nat)
    requires AllOk(l)
    ensures ReadFrom(l, 0, size) == Slice(l, 0, |l|) <==> forall i | 0 <= i < |l| :: EntryLen(|l[i].name|) <= size
  {
    ReadsUpTo(l, 0, size);
    var k := Stuck(l, 0, size);
    assert |Slice(l, 0, k)| == k;
  }

  /** The i-th entry a reader gets, which is the i-th of the list. */
  lemma {:induction false} SliceAt(l: seq<Entry>, i: nat, k: nat, j: nat)
    requires i <= k <= |l| && j < k - i
    ensures Slice(l, i, k)[j] == Dirent(l[i + j], i + j + 1)
    decreases k - i
  {
    if j > 0 {
      SliceAt(l, i + 1, k, j - 1);
    }
  }

  // ---------------------------------------------------------------- the code

  /** Writes s at position p; what is before and behind it stays. */
  method Write(buf: array<Byte>, p: nat, s: seq<Byte>) returns (p': nat)
    requires p + |s| <= buf.Length
    modifies buf
    ensures p' == p + |s| && buf[..p'] == old(buf[..p]) + s
    ensures forall j | p' <= j < buf.Length :: buf[j] == old(buf[j])
  {
    var i := 0;
    while i < |s|
      invariant i <= |s| && buf[..p + i] == old(buf[..p]) + s[..i]
      invariant forall j | p + |s| <= j < buf.Length :: buf[j] == old(buf[j])
    {
      buf[p + i] := s[i];
      assert s[..i + 1] == s[..i] + [s[i]];
      i := i + 1;
    }
    p' := p + |s|;
    assert s[..i] == s;
  }

  lemma Together(b: seq<Byte>, e: Entry, off: nat)
    ensures b + Bytes(e.ino, 8) + Bytes(off, 8) + Bytes(|e.name|, 4) + Bytes(e.kind, 4) + e.name
            + Zeros(EntryLen(|e.name|) - NAME_OFFSET - |e.name|) == b + Encode(e, off)
  {
    hide Bytes, Zeros, EntryLen;
    AppendSix(b, Bytes(e.ino, 8), Bytes(off, 8), Bytes(|e.name|, 4), Bytes(e.kind, 4), e.name,
              Zeros(EntryLen(|e.name|) - NAME_OFFSET - |e.name|));
  }

  lemma AppendSix(b: seq<Byte>, c: seq<Byte>, d: seq<Byte>, e: seq<Byte>, f: seq<Byte>, g: seq<Byte>, h: seq<Byte>)
    ensures b + c + d + e + f + g + h == b + (c + d + e + f + g + h)
  {
  }

  /** `fuse_add_direntry`: an entry that does not fit changes nothing. */
  method AddDirentry(buf: array<Byte>, p: nat, bufsize: nat, e: Entry, off: nat) returns (len: nat)
    requires p + bufsize <= buf.Length
    modifies buf
    ensures len == EntryLen(|e.name|)
    ensures len > bufsize ==> buf[..] == old(buf[..])
    ensures len <= bufsize ==>
              && buf[..p + len] == old(buf[..p]) + Encode(e, off)
              && forall j | p + len <= j < buf.Length :: buf[j] == old(buf[j])
  {
    hide Bytes, EntryLen, Encode, Zeros;
    len := EntryLen(|e.name|);
    if len > bufsize {
      return;
    }
    var q := Write(buf, p, Bytes(e.ino, 8));
    q := Write(buf, q, Bytes(off, 8));
    q := Write(buf, q, Bytes(|e.name|, 4));
    q := Write(buf, q, Bytes(e.kind, 4));
    q := Write(buf, q, e.name);
    ZerosLen(len - NAME_OFFSET - |e.name|);
    q := Write(buf, q, Zeros(len - NAME_OFFSET - |e.name|));
    Together(old(buf[..p]), e, off);
  }

  lemma ZerosLen(n: nat)
    ensures |Zeros(n)| == n
  {
  }

  /** `struct fuse_dh`, when the whole directory has been read into the list */
  class DirHandle {
    var entries: seq<Entry>
    var contents: array<Byte>
    var len: nat
    var needlen: nat

    constructor (entries: seq<Entry>)
      ensures this.entries == entries && fresh(contents)
    {
      this.entries, len, needlen := entries, 0, 0;
      contents := new Byte[0];
    }

    /** `extend_contents`: doubles the buffer until it holds minsize bytes, within 32 bits. */
    method ExtendContents(minsize: nat)
      requires minsize < TWO_TO_32
      modifies this`contents
      ensures contents.Length >= minsize
      ensures contents == old(contents) <== minsize <= old(contents.Length)
      ensures contents != old(contents) ==>
                && fresh(contents) && minsize > old(contents.Length)
                && (contents.Length < 2 * minsize || contents.Length == 1024 || contents.Length == 0xffff_ffff)
      ensures contents.Length >= old(contents.Length) && contents[..old(contents.Length)] == old(contents[..])
    {
      if minsize > contents.Length {
        var newsize := contents.Length;
        if newsize == 0 {
          newsize := 1024;
        }
        while newsize < minsize
          invariant newsize > 0 && newsize >= contents.Length
          invariant newsize == contents.Length || newsize < 2 * minsize || newsize == 1024 || newsize == 0xffff_ffff
          decreases minsize - newsize
        {
          newsize := if newsize >= 0x8000_0000 then 0xffff_ffff else 2 * newsize;
        }
        var newptr := new Byte[newsize];
        forall i | 0 <= i < contents.Length {
          newptr[i] := contents[i];
        }
        contents := newptr;
      }
    }

    /** `readdir_fill_from_list` */
    method FillFromList(off: nat)
      requires needlen < TWO_TO_32
      modifies this`contents, this`len, contents
      ensures len <= contents.Length && contents[..len] == Page(entries, off, needlen)
      ensures len <= needlen && len % 8 == 0
    {
      hide Page, Encode, EntryLen, Align;
      len := 0;
      ExtendContents(needlen);
      ghost var buf := contents;
      var pos := 0;
      var de := 0;
      while pos < off && de < |entries|
        invariant pos == de <= off && de <= |entries|
      {
        de := de + 1;
        pos := pos + 1;
      }
      PageBehind(entries, off, needlen);
      while de < |entries|
        invariant contents == buf && pos == de <= |entries| && len <= needlen <= contents.Length
        invariant contents[..len] + Page(entries, de, needlen - len) == Page(entries, off, needlen)
      {
        ghost var before, room := contents[..len], needlen - len;
        pos := pos + 1;
        var more := AddEntry(entries[de], pos);
        if !more {
          break;
        }
        PageTurn(entries, de, room, before);
        de := de + 1;
      }
      PageStep(entries, de, needlen - len);
      assert contents[..len] + [] == contents[..len];
      PageAligned(entries, off, needlen);
    }

    /** One turn of the loop of `readdir_fill_from_list`; false if the entry does not fit. */
    method AddEntry(e: Entry, pos: nat) returns (more: bool)
      requires len <= needlen <= contents.Length
      modifies this`len, contents
      ensures more == (EntryLen(|e.name|) <= needlen - old(len))
      ensures if more then len == old(len) + EntryLen(|e.name|) && len <= needlen
              && contents[..len] == old(contents[..len]) + Encode(e, pos)
              else len == old(len) && contents[..len] == old(contents[..len])
    {
      hide Encode, EntryLen;
      ghost var before := contents[..];
      var thislen := AddDirentry(contents, len, needlen - len, e, pos);
      var newlen := len + thislen;
      if newlen > needlen {
        assert contents[..len] == before[..len];
        return false;
      }
      len := newlen;
      more := true;
    }
  }

  /** An entry that fits is the first of the page, and the rest is the page behind it. */
  lemma PageTurn(l: seq<Entry>, de: nat, room: nat, before: seq<Byte>)
    requires de < |l| && EntryLen(|l[de].name|) <= room
    ensures before + Encode(l[de], de + 1) + Page(l, de + 1, room - EntryLen(|l[de].name|)) ==
              before + Page(l, de, room)
  {
    hide Encode, EntryLen;
  }

  lemma PageBehind(l: seq<Entry>, off: nat, room: nat)
    ensures off > |l| ==> Page(l, off, room) == Page(l, |l|, room)
    ensures [] + Page(l, off, room) == Page(l, off, room)
  {
  }

  lemma PageStep(l: seq<Entry>, off: nat, room: nat)
    ensures off >= |l| ==> Page(l, off, room) == []
    ensures off < |l| && EntryLen(|l[off].name|) > room ==> Page(l, off, room) == []
    ensures off < |l| && EntryLen(|l[off].name|) <= room ==>
              Page(l, off, room) == Encode(l[off], off + 1) + Page(l, off + 1, room - EntryLen(|l[off].name|))
  {
  }
}
