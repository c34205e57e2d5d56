/**
  Option lists of the command line: escaping and joining options, splitting and unescaping a list
  in place, and `fuse_opt_parse` without templates and without a callback.
 */
module OptionLists {
  import opened Wrappers

  type Byte = b: nat | b < 256

  /** The bytes of a C string before its NUL. */
  type CStr = seq<Byte>

  ghost predicate NulFree(s: CStr) {
    forall i | 0 <= i < |s| :: s[i] != 0
  }

  const COMMA: Byte := 44
  const BACKSLASH: Byte := 92
  const DASH: Byte := 45
  const LETTER_O: Byte := 111
  const DIGIT_0: Byte := 48

  // ---------------------------------------------------------------- escaping and joining

  function EscapeChar(c: Byte, esc: bool): CStr {
    if esc && (c == COMMA || c == BACKSLASH) then [BACKSLASH, c] else [c]
  }

  function Escape(opt: CStr): CStr {
    if opt == [] then [] else EscapeChar(opt[0], true) + Escape(opt[1..])
  }

  /** `add_opt_common`: a comma separates the option from what is there, if that is not empty. */
  function AddOpt(opts: Option<CStr>, opt: CStr, esc: bool): Option<CStr> {
    Some(Before(opts) + if esc then Escape(opt) else opt)
  }

  /** `fuse_opt_add_opt_escaped`, option after option */
  function AddAll(opts: Option<CStr>, l: seq<CStr>): Option<CStr>
    decreases |l|
  {
    if l == [] then opts else AddAll(AddOpt(opts, l[0], true), l[1..])
  }

  /** The option list made of l. */
  function Joined(l: seq<CStr>): CStr
    requires l != []
  {
    AddAllSome(None, l);
    AddAll(None, l).value
  }

  lemma {:induction false} AddAllSome(opts: Option<CStr>, l: seq<CStr>)
    ensures l != [] || opts.Some? ==> AddAll(opts, l).Some?
    decreases |l|
  {
    if l != [] {
      AddAllSome(AddOpt(opts, l[0], true), l[1..]);
    }
  }

  lemma Associative(a: CStr, b: CStr, c: CStr)
    ensures a + b + c == a + (b + c)
  {
  }

  lemma {:induction false} EscapeNext(opt: CStr, i: nat)
    requires i < |opt|
    ensures Escape(opt[..i + 1]) == Escape(opt[..i]) + EscapeChar(opt[i], true)
    ensures opt[..i + 1] == opt[..i] + EscapeChar(opt[i], false)
  {
    hide EscapeChar;
    if i == 0 {
      assert opt[..1] == [opt[0]] && opt[..1][1..] == [];
    } else {
      EscapeNext(opt[1..], i - 1);
      assert opt[..i + 1][1..] == opt[1..][..i] && opt[..i][1..] == opt[1..][..i - 1];
      Associative(EscapeChar(opt[0], true), Escape(opt[1..][..i - 1]), EscapeChar(opt[i], true));
    }
    assert EscapeChar(opt[i], false) == [opt[i]] by {
      PlainChar(opt[i]);
    }
  }

  lemma PlainChar(c: Byte)
    ensures EscapeChar(c, false) == [c]
  {
  }

  lemma {:induction false} EscapeLength(opt: CStr)
    ensures |opt| <= |Escape(opt)| <= 2 * |opt|
  {
    if opt != [] {
      EscapeLength(opt[1..]);
    }
  }

  /** `*d++ = c` */
  method Put(d: array<Byte>, n: nat, c: Byte) returns (n': nat)
    requires n < d.Length
    modifies d
    ensures n' == n + 1 && d[..n'] == old(d[..n]) + [c]
  {
    d[n] := c;
    n' := n + 1;
  }

  /** One character of the option, with a backslash before it where one is needed. */
  method PutEscaped(d: array<Byte>, n: nat, c: Byte, esc: bool) returns (n': nat)
    requires n + 1 < d.Length
    modifies d
    ensures n' == n + |EscapeChar(c, esc)| <= n + 2 <= d.Length && d[..n'] == old(d[..n]) + EscapeChar(c, esc)
  {
    n' := n;
    if esc && (c == COMMA || c == BACKSLASH) {
      n' := Put(d, n', BACKSLASH);
    }
    n' := Put(d, n', c);
  }

  /** What `add_opt_common` writes before the option. */
  function Before(opts: Option<CStr>): CStr {
    if opts.None? || opts.value == [] then [] else opts.value + [COMMA]
  }

  /** `add_opt_common`; the buffer it allocates is always long enough, with the final NUL. */
  method AddOptCommon(opts: Option<CStr>, opt: CStr, esc: bool) returns (r: CStr)
    ensures Some(r) == AddOpt(opts, opt, esc)
  {
    hide Escape, EscapeChar;
    var have := if opts.Some? then opts.value else [];
    var d := new Byte[|have| + 1 + |opt| * 2 + 1];
    var n := 0;
    while n < |have|
      invariant n <= |have| && d[..n] == have[..n]
    {
      assert have[..n + 1] == have[..n] + [have[n]];
      n := Put(d, n, have[n]);
    }
    if |have| > 0 {
      n := Put(d, n, COMMA);
    }
    ghost var start := Before(opts);
    assert d[..n] == start;
    var i := 0;
    assert opt[..0] == [];
    EscapeNothing();
    while i < |opt|
      invariant i <= |opt| && |start| <= n <= |start| + 2 * i
      invariant d[..n] == start + if esc then Escape(opt[..i]) else opt[..i]
    {
      EscapeNext(opt, i);
      Associative(start, if esc then Escape(opt[..i]) else opt[..i], EscapeChar(opt[i], esc));
      n := PutEscaped(d, n, opt[i], esc);
      i := i + 1;
    }
    assert opt[..i] == opt;
    d[n] := 0;
    r := d[..n];
  }

  lemma EscapeNothing()
    ensures Escape([]) == []
  {
  }

  // ---------------------------------------------------------------- splitting and unescaping

  /** What a C function sees of a buffer: the bytes before the first NUL. */
  function Cut(s: seq<Byte>): (c: CStr)
    ensures NulFree(c)
  {
    if s == [] || s[0] == 0 then [] else [s[0]] + Cut(s[1..])
  }

  predicate IsOctal(s: seq<Byte>) {
    && |s| >= 3 && DIGIT_0 <= s[0] <= DIGIT_0 + 3
    && DIGIT_0 <= s[1] <= DIGIT_0 + 7 && DIGIT_0 <= s[2] <= DIGIT_0 + 7
  }

  function OctalValue(s: seq<Byte>): Byte
    requires IsOctal(s)
  {
    (s[0] - DIGIT_0) * 64 + (s[1] - DIGIT_0) * 8 + (s[2] - DIGIT_0)
  }

  /** How many bytes one character takes in the list, and which character it is. */
  function CharAt(s: CStr): (r: (nat, Byte))
    requires s != [] && s[0] != COMMA
    ensures 1 <= r.0 <= |s|
  {
    if s[0] == BACKSLASH && |s| > 1 then
      if IsOctal(s[1..]) then (4, OctalValue(s[1..])) else (2, s[1])
    else (1, s[0])
  }

  /** The options in s, the first of which starts with the characters of acc. */
  function Options(s: CStr, acc: seq<Byte>): seq<CStr> {
    if s == [] then [Cut(acc)]
    else if s[0] == COMMA then [Cut(acc)] + Options(s[1..], [])
    else var (n, c) := CharAt(s); Options(s[n..], acc + [c])
  }

  lemma {:induction false} CutIsAll(s: CStr)
    requires NulFree(s)
    ensures Cut(s) == s
  {
    if s != [] {
      CutIsAll(s[1..]);
    }
  }

  lemma {:induction false} CutAt(s: seq<Byte>, c: seq<Byte>, n: nat)
    requires n < |s| && s[n] == 0 && s[..n] == c
    ensures Cut(s) == Cut(c)
  {
    if n > 0 && s[0] != 0 {
      assert s[..n][1..] == s[1..][..n - 1];
      CutAt(s[1..], c[1..], n - 1);
    }
  }

  /**
    `process_real_option_group` on the buffer `opts`: calls add_opt for each option of the list.
    The pointer d that writes never passes the pointer s that reads, so what is read is still the
    original list.
   */
  method ProcessGroup(buf: array<Byte>, opts: Option<CStr>) returns (opts': Option<CStr>, ghost l: seq<CStr>)
    requires buf.Length > 0 && buf[buf.Length - 1] == 0
    requires NulFree(buf[..buf.Length - 1])
    modifies buf
    ensures l == Options(old(buf[..buf.Length - 1]), []) && opts' == AddAll(opts, l)
  {
    hide Options, CharAt, AddAll, Cut, IsOctal, OctalValue;
    ghost var list, s0 := buf[..buf.Length - 1], buf[..];
    opts', l := opts, [];
    AddNothing(opts);
    var s, d := 0, 0;
    var end := false;
    assert list[0..] == list && buf[..0] == [];
    while !end
      invariant 0 <= d <= s <= buf.Length && (!end ==> s < buf.Length)
      invariant buf[s..] == s0[s..]
      invariant opts' == AddAll(opts, l)
      invariant if end then l == Options(list, []) else l + Options(list[s..], buf[..d]) == Options(list, [])
      decreases !end, buf.Length - s
    {
      assert buf[s] == buf[s..][0] == s0[s];
      assert buf[s..][1..] == buf[s + 1..] && s0[s..][1..] == s0[s + 1..];
      OptionsStep(list[s..], buf[..d]);
      if buf[s] == 0 {
        end := true;
        assert s == |list|;
      }
      if buf[s] == COMMA || end {
        ghost var acc := buf[..d];
        buf[d] := 0;
        assert buf[..d] == acc && buf[s + 1..] == s0[s + 1..];
        CutAt(buf[..], acc, d);
        assert buf[..][..d] == acc;
        var opt := CString(buf);
        AddAllAppend(opts, l, opt);
        var o := AddOptCommon(opts', opt, true);
        Associative3(l, opt, if end then [] else Options(list[s..][1..], []));
        opts', l := Some(o), l + [opt];
        d := 0;
        assert buf[..d] == [] && (!end ==> list[s..][1..] == list[s + 1..]);
      } else {
        ghost var was, at := buf[..], s;
        s, d := ReadChar(buf, s, d, list);
        SuffixOf(was, s0, at, s + 1);
      }
      s := s + 1;
    }
  }

  lemma {:induction false} AddAllAppend(opts: Option<CStr>, l: seq<CStr>, opt: CStr)
    ensures AddAll(opts, l + [opt]) == AddOpt(AddAll(opts, l), opt, true)
    decreases |l|
  {
    if l != [] {
      AddAllAppend(AddOpt(opts, l[0], true), l[1..], opt);
      assert (l + [opt])[1..] == l[1..] + [opt];
    }
  }

  lemma SuffixOf(a: seq<Byte>, b: seq<Byte>, i: nat, j: nat)
    requires i <= j <= |a| == |b| && a[i..] == b[i..]
    ensures a[j..] == b[j..]
  {
    assert a[j..] == a[i..][j - i..];
  }

  lemma AddNothing(opts: Option<CStr>)
    ensures AddAll(opts, []) == opts
  {
  }

  lemma Associative3(l: seq<CStr>, opt: CStr, rest: seq<CStr>)
    ensures l + ([opt] + rest) == l + [opt] + rest
  {
  }

  lemma OptionsStep(s: CStr, acc: seq<Byte>)
    ensures s == [] ==> Options(s, acc) == [Cut(acc)]
    ensures s != [] && s[0] == COMMA ==> Options(s, acc) == [Cut(acc)] + Options(s[1..], [])
    ensures s != [] && s[0] != COMMA ==> Options(s, acc) == Options(s[CharAt(s).0..], acc + [CharAt(s).1])
  {
  }

  /** One character of an option: s ends on its last byte. */
  method ReadChar(buf: array<Byte>, s: nat, d: nat, ghost list: CStr) returns (s': nat, d': nat)
    requires d <= s < |list| && buf.Length == |list| + 1
    requires NulFree(list) && list[s] != COMMA && buf[s..] == list[s..] + [0]
    modifies buf
    ensures var (n, c) := CharAt(list[s..]);
            s' == s + n - 1 && d' == d + 1 <= s' + 1 <= |list| && buf[..d'] == old(buf[..d]) + [c]
    ensures buf[s' + 1..] == old(buf[s' + 1..])
  {
    s', d' := s, d;
    ghost var rest := list[s..];
    assert forall i | s <= i < |list| :: buf[i] == buf[s..][i - s] == list[i];
    assert buf[|list|] == buf[s..][|list| - s] == 0;
    var c := buf[s];
    if buf[s] == BACKSLASH && buf[s + 1] != 0 {
      s' := s + 1;
      c := buf[s'];
      if DIGIT_0 <= buf[s'] <= DIGIT_0 + 3 && DIGIT_0 <= buf[s' + 1] <= DIGIT_0 + 7
           && DIGIT_0 <= buf[s' + 2] <= DIGIT_0 + 7 {
        c := (buf[s'] - DIGIT_0) * 64 + (buf[s' + 1] - DIGIT_0) * 8 + (buf[s' + 2] - DIGIT_0);
        s' := s' + 2;
      }
    }
    buf[d] := c;
    d' := d + 1;
  }

  /** The C string at the start of a buffer that holds a NUL. */
  method CString(buf: array<Byte>) returns (c: CStr)
    requires exists i :: 0 <= i < buf.Length && buf[i] == 0
    ensures c == Cut(buf[..])
  {
    var n := 0;
    while buf[n] != 0
      invariant n < buf.Length && forall i | 0 <= i < n :: buf[i] != 0
      decreases buf.Length - n
    {
      n := n + 1;
    }
    c := buf[..n];
    CutIsAll(c);
    CutAt(buf[..], c, n);
    assert buf[..][..n] == c;
  }

  // ---------------------------------------------------------------- there and back

  /** An escaped option is read back as it was, whatever comes after it. */
  lemma {:induction false} ReadEscaped(opt: CStr, rest: CStr, acc: seq<Byte>)
    ensures Options(Escape(opt) + rest, acc) == Options(rest, acc + opt)
    decreases |opt|
  {
    hide Options, EscapeChar;
    if opt == [] {
      assert Escape(opt) + rest == rest && acc + opt == acc;
    } else {
      ReadChars(opt[0], Escape(opt[1..]) + rest, acc);
      Associative(EscapeChar(opt[0], true), Escape(opt[1..]), rest);
      ReadEscaped(opt[1..], rest, acc + [opt[0]]);
      assert acc + [opt[0]] + opt[1..] == acc + opt;
    }
  }

  lemma ReadChars(c: Byte, more: CStr, acc: seq<Byte>)
    ensures Options(EscapeChar(c, true) + more, acc) == Options(more, acc + [c])
  {
    hide Options;
    var e := EscapeChar(c, true);
    var s := e + more;
    assert s[|e|..] == more;
    OptionsStep(s, acc);
  }

  /** The options of l with commas in between. */
  function Body(l: seq<CStr>): CStr
    requires l != []
    decreases |l|
  {
    Escape(l[0]) + if |l| == 1 then [] else [COMMA] + Body(l[1..])
  }

  ghost predicate AllNulFree(l: seq<CStr>) {
    forall i | 0 <= i < |l| :: NulFree(l[i])
  }

  lemma {:induction false} ReadBody(l: seq<CStr>)
    requires l != [] && AllNulFree(l)
    ensures Options(Body(l), []) == l
    decreases |l|
  {
    hide Options, Escape;
    var rest := if |l| == 1 then [] else [COMMA] + Body(l[1..]);
    ReadEscaped(l[0], rest, []);
    assert [] + l[0] == l[0];
    CutIsAll(l[0]);
    OptionsStep(rest, l[0]);
    if |l| > 1 {
      ReadBody(l[1..]);
      assert rest[1..] == Body(l[1..]);
    }
    assert l == [l[0]] + l[1..];
  }

  lemma {:induction false} AddAllToSome(v: CStr, l: seq<CStr>)
    requires v != [] && l != []
    ensures AddAll(Some(v), l) == Some(v + [COMMA] + Body(l))
    decreases |l|
  {
    hide Escape;
    var w := v + [COMMA] + Escape(l[0]);
    assert AddOpt(Some(v), l[0], true) == Some(w);
    assert AddAll(Some(v), l) == AddAll(Some(w), l[1..]);
    if |l| > 1 {
      AddAllToSome(w, l[1..]);
      assert w + [COMMA] + Body(l[1..]) == v + [COMMA] + Body(l);
    } else {
      assert Body(l) == Escape(l[0]);
    }
  }

  /** Empty options at the start of a list leave no trace, unless there is nothing else. */
  function WithoutLeadingEmpty(l: seq<CStr>): seq<CStr>
    decreases |l|
  {
    if |l| > 1 && l[0] == [] then WithoutLeadingEmpty(l[1..]) else l
  }

  lemma {:induction false} JoinedIs(opts: Option<CStr>, l: seq<CStr>)
    requires l != [] && (opts.None? || opts.value == [])
    ensures WithoutLeadingEmpty(l) != [] && AddAll(opts, l) == Some(Body(WithoutLeadingEmpty(l)))
    decreases |l|
  {
    hide Body, Escape, AddOpt;
    var w := Escape(l[0]);
    FirstAdded(opts, l[0]);
    EscapeLength(l[0]);
    BodyOf(l);
    if |l| == 1 {
      assert l[1..] == [];
    } else if l[0] == [] {
      JoinedIs(Some([]), l[1..]);
    } else {
      AddAllToSome(w, l[1..]);
      Associative(w, [COMMA], Body(l[1..]));
    }
  }

  lemma FirstAdded(opts: Option<CStr>, opt: CStr)
    requires opts.None? || opts.value == []
    ensures AddOpt(opts, opt, true) == Some(Escape(opt))
  {
    assert [] + Escape(opt) == Escape(opt);
  }

  lemma BodyOf(l: seq<CStr>)
    requires l != []
    ensures Body(l) == if |l| == 1 then Escape(l[0]) else Escape(l[0]) + ([COMMA] + Body(l[1..]))
  {
  }

  lemma {:induction false} WithoutLeadingEmptyIs(l: seq<CStr>)
    ensures WithoutLeadingEmpty(l) == l <==> |l| <= 1 || l[0] != []
    ensures l != [] ==> WithoutLeadingEmpty(l) != []
    ensures AllNulFree(l) ==> AllNulFree(WithoutLeadingEmpty(l))
    ensures WithoutLeadingEmpty(WithoutLeadingEmpty(l)) == WithoutLeadingEmpty(l)
    ensures |WithoutLeadingEmpty(l)| <= |l|
    decreases |l|
  {
    if |l| > 1 && l[0] == [] {
      WithoutLeadingEmptyIs(l[1..]);
    }
  }

  /** What splitting makes of a joined list. */
  lemma SplitJoined(l: seq<CStr>)
    requires l != [] && AllNulFree(l)
    ensures Options(Joined(l), []) == WithoutLeadingEmpty(l)
  {
    JoinedIs(None, l);
    WithoutLeadingEmptyIs(l);
    ReadBody(WithoutLeadingEmpty(l));
  }

  /**
    Escaping and joining a list of options, then splitting and unescaping it, gives the list back
    exactly when it has one option only or its first option is not empty.
   */
  lemma RoundTripIff(l: seq<CStr>)
    requires l != [] && AllNulFree(l)
    ensures Options(Joined(l), []) == l <==> |l| == 1 || l[0] != []
  {
    SplitJoined(l);
    WithoutLeadingEmptyIs(l);
  }

  /** The empty first option of the list "", "a" is lost. */
  lemma EmptyFirstOptionIsLost()
    ensures Options(Joined([[], [97]]), []) == [[97]]
  {
    SplitJoined([[], [97]]);
    assert [[], [97]][1..] == [[97]];
  }

  /** Joining again what was split gives the same list. */
  lemma JoinSplitJoined(l: seq<CStr>)
    requires l != [] && AllNulFree(l)
    ensures Options(Joined(l), []) != [] && Joined(Options(Joined(l), [])) == Joined(l)
  {
    SplitJoined(l);
    WithoutLeadingEmptyIs(l);
    JoinedIs(None, l);
    JoinedIs(None, WithoutLeadingEmpty(l));
  }

  /** An octal escape for NUL cuts the option off: `a\000b` is read as "a". */
  lemma OctalNulCutsOff()
    ensures Options([97, BACKSLASH, DIGIT_0, DIGIT_0, DIGIT_0, 98], []) == [[97]]
  {
    hide Options, Cut;
    var s := [97, BACKSLASH, DIGIT_0, DIGIT_0, DIGIT_0, 98];
    var t := [BACKSLASH, DIGIT_0, DIGIT_0, DIGIT_0, 98];
    assert s[1..] == t && t[1..] == [DIGIT_0, DIGIT_0, DIGIT_0, 98] && t[4..] == [98] && [98][1..] == [];
    OptionsStep(s, []);
    OptionsStep(t, [97]);
    OptionsStep([98], [97, 0]);
    OptionsStep([], [97, 0, 98]);
    assert [] + [97] == [97] && [97] + [0] == [97, 0] && [97, 0] + [98] == [97, 0, 98];
    CutAt([97, 0, 98], [97], 1);
    CutIsAll([97]);
  }

  // ---------------------------------------------------------------- what a user writes by hand

  /** The three octal digits of a byte. */
  function OctalDigits(b: Byte): CStr {
    [DIGIT_0 + b / 64, DIGIT_0 + b / 8 % 8, DIGIT_0 + b % 8]
  }

  /** Every byte can be written as a backslash and three octal digits. */
  lemma OctalReadBack(b: Byte, rest: CStr, acc: seq<Byte>)
    ensures Options([BACKSLASH] + OctalDigits(b) + rest, acc) == Options(rest, acc + [b])
  {
    hide Options;
    var s := [BACKSLASH] + OctalDigits(b) + rest;
    assert s[1..] == OctalDigits(b) + rest && s[4..] == rest;
    OptionsStep(s, acc);
  }

  /** Before anything else a backslash stands for the byte that follows, and at the end for itself. */
  lemma BackslashReadBack(c: Byte, rest: CStr, acc: seq<Byte>)
    ensures !IsOctal([c] + rest) ==> Options([BACKSLASH, c] + rest, acc) == Options(rest, acc + [c])
    ensures Options([BACKSLASH], acc) == [Cut(acc + [BACKSLASH])]
  {
    hide Options;
    var s := [BACKSLASH, c] + rest;
    assert s[1..] == [c] + rest && s[2..] == rest;
    OptionsStep(s, acc);
    OptionsStep([BACKSLASH], acc);
    OptionsStep([], acc + [BACKSLASH]);
    assert [BACKSLASH][1..] == [];
  }

  /** All other bytes but the comma, which ends the option, stand for themselves. */
  lemma PlainReadBack(c: Byte, rest: CStr, acc: seq<Byte>)
    ensures c != COMMA && c != BACKSLASH ==> Options([c] + rest, acc) == Options(rest, acc + [c])
    ensures Options([COMMA] + rest, acc) == [Cut(acc)] + Options(rest, [])
  {
    hide Options;
    assert ([c] + rest)[1..] == rest && ([COMMA] + rest)[1..] == rest;
    OptionsStep([c] + rest, acc);
    OptionsStep([COMMA] + rest, acc);
  }

  lemma {:induction false} ReadBodyAnd(l: seq<CStr>, s: CStr)
    requires l != [] && AllNulFree(l)
    ensures Options(Body(l) + ([COMMA] + s), []) == l + Options(s, [])
    decreases |l|
  {
    hide Options, Escape;
    var rest := (if |l| == 1 then [] else [COMMA] + Body(l[1..])) + ([COMMA] + s);
    assert Body(l) + ([COMMA] + s) == Escape(l[0]) + rest;
    ReadEscaped(l[0], rest, []);
    assert [] + l[0] == l[0];
    CutIsAll(l[0]);
    OptionsStep(rest, l[0]);
    if |l| > 1 {
      ReadBodyAnd(l[1..], s);
      assert rest[1..] == Body(l[1..]) + ([COMMA] + s);
    } else {
      assert rest[1..] == s;
    }
    assert l == [l[0]] + l[1..];
  }

  /** `fuse_opt_add_opt`: what is added without escaping is read as a list of its own. */
  lemma AddedUnescaped(l: seq<CStr>, s: CStr)
    requires l != [] && AllNulFree(l) && Joined(l) != []
    ensures AddOpt(Some(Joined(l)), s, false).Some?
    ensures Options(AddOpt(Some(Joined(l)), s, false).value, []) == WithoutLeadingEmpty(l) + Options(s, [])
  {
    hide Options, Body, Escape;
    JoinedIs(None, l);
    WithoutLeadingEmptyIs(l);
    ReadBodyAnd(WithoutLeadingEmpty(l), s);
    Associative(Joined(l), [COMMA], s);
  }

  /** Escaping changes exactly the options that have a comma or a backslash. */
  lemma {:induction false} EscapeChangesIff(opt: CStr)
    ensures Escape(opt) == opt <==> COMMA !in opt && BACKSLASH !in opt
  {
    if opt != [] {
      EscapeChangesIff(opt[1..]);
      EscapeLength(opt[1..]);
      assert opt == [opt[0]] + opt[1..];
      assert Escape(opt) == EscapeChar(opt[0], true) + Escape(opt[1..]);
      if EscapeChar(opt[0], true) == [opt[0]] {
        assert Escape(opt)[1..] == Escape(opt[1..]);
      }
    }
  }
}
