/**
  `fuse_opt_parse` with no templates and no callback: it gathers the options of all -o arguments in
  one list behind the program's name, and keeps all other arguments.
 */
module OptionParse {
  import opened Wrappers
  import opened OptionLists

  const DASH_O: CStr := [DASH, LETTER_O]
  const SEPARATOR: CStr := [DASH, DASH]

  /** `struct fuse_opt_context` */
  datatype Context = Context(out: seq<CStr>, opts: Option<CStr>, nonopt: nat)

  predicate IsGroup(arg: CStr) {
    |arg| >= 2 && arg[0] == DASH && arg[1] == LETTER_O
  }

  /** Adding the options of one -o list */
  function Grouped(c: Context, list: CStr): Context {
    c.(opts := AddAll(c.opts, Options(list, [])))
  }

  /** Adding an argument that is kept */
  function Kept(c: Context, arg: CStr): Context {
    var out := c.out + [arg];
    Context(out, c.opts, if c.nonopt == 0 && arg == SEPARATOR then |out| else c.nonopt)
  }

  /** The loop of `opt_parse` over the arguments from args on; None if the list of a -o is missing. */
  function Run(c: Context, args: seq<CStr>): Option<Context>
    decreases |args|
  {
    if args == [] then Some(c)
    else if c.nonopt > 0 || !IsGroup(args[0]) then Run(Kept(c, args[0]), args[1..])
    else if |args[0]| > 2 then Run(Grouped(c, args[0][2..]), args[1..])
    else if |args| < 2 then None
    else Run(Grouped(c, args[1]), args[2..])
  }

  /** The end of `opt_parse` */
  function Finish(c: Context): seq<CStr>
    requires c.out != []
  {
    if c.opts.Some? then [c.out[0], DASH_O, c.opts.value] + c.out[1..]
    else if c.nonopt > 0 && c.nonopt == |c.out| && c.out[|c.out| - 1] == SEPARATOR then c.out[..|c.out| - 1]
    else c.out
  }

  /** `fuse_opt_parse`; None stands for failure. */
  function Parse(args: seq<CStr>): Option<seq<CStr>> {
    if args == [] then Some([])
    else
      var c := Run(Context([args[0]], None, 0), args[1..]);
      if c.None? then None
      else
        RunAgain(Context([args[0]], None, 0), args[1..], None);
        Some(Finish(c.value))
  }

  // ---------------------------------------------------------------- parsing the output again

  /** The list gathered so far comes from a list of options. */
  ghost predicate Gathered(opts: Option<CStr>) {
    opts.Some? ==> exists l :: IsListOf(opts.value, l)
  }

  ghost predicate IsListOf(opts: CStr, l: seq<CStr>) {
    l != [] && AllNulFree(l) && opts == Joined(l)
  }

  lemma {:induction false} OptionsNulFree(s: CStr, acc: seq<Byte>)
    ensures Options(s, acc) != [] && AllNulFree(Options(s, acc))
    decreases |s|
  {
    hide CharAt, Cut;
    OptionsStep(s, acc);
    if s != [] {
      if s[0] == COMMA {
        OptionsNulFree(s[1..], []);
      } else {
        OptionsNulFree(s[CharAt(s).0..], acc + [CharAt(s).1]);
      }
    }
  }

  lemma {:induction false} AddAllTwice(opts: Option<CStr>, l: seq<CStr>, l': seq<CStr>)
    ensures AddAll(AddAll(opts, l), l') == AddAll(opts, l + l')
    decreases |l|
  {
    hide AddOpt;
    if l == [] {
      assert l + l' == l';
    } else {
      AddAllTwice(AddOpt(opts, l[0], true), l[1..], l');
      assert (l + l')[1..] == l[1..] + l';
    }
  }

  lemma GroupedGathered(c: Context, list: CStr)
    requires Gathered(c.opts)
    ensures Gathered(Grouped(c, list).opts) && Grouped(c, list).opts.Some?
  {
    hide Options, AddAll;
    var l := Options(list, []);
    OptionsNulFree(list, []);
    AddAllSome(c.opts, l);
    if c.opts.Some? {
      var l0 :| IsListOf(c.opts.value, l0);
      JoinedFrom(l0);
      AddAllTwice(None, l0, l);
      JoinedFrom(l0 + l);
      assert IsListOf(Grouped(c, list).opts.value, l0 + l);
    } else {
      JoinedFrom(l);
      assert IsListOf(Grouped(c, list).opts.value, l);
    }
  }

  lemma JoinedFrom(l: seq<CStr>)
    requires l != []
    ensures AddAll(None, l) == Some(Joined(l))
  {
    AddAllSome(None, l);
  }

  lemma Peel(out: seq<CStr>, a: CStr, full: seq<CStr>, end: nat)
    requires |out| < end <= |full| && full[..|out| + 1] == out + [a]
    ensures full[|out|..end] != [] && full[|out|..end][0] == a && full[|out|..end][1..] == full[|out| + 1..end]
    ensures full[..|out|] == out
  {
    assert full[|out|] == full[..|out| + 1][|out|];
    assert full[..|out|] == full[..|out| + 1][..|out|];
  }

  /** What is kept of the arguments is kept again, whatever list is there when it is parsed again. */
  lemma {:induction false} RunAgain(c: Context, args: seq<CStr>, opts: Option<CStr>)
    requires c.out != [] && c.nonopt <= |c.out| && Gathered(c.opts) && Run(c, args).Some?
    ensures var c' := Run(c, args).value;
            && |c.out| <= |c'.out| && c'.nonopt <= |c'.out| && Gathered(c'.opts)
            && c'.out[..|c.out|] == c.out
            && Run(Context(c.out, opts, c.nonopt), c'.out[|c.out|..]) == Some(Context(c'.out, opts, c'.nonopt))
    decreases |args|
  {
    hide Gathered, AddAll, Options;
    if args != [] {
      if c.nonopt > 0 || !IsGroup(args[0]) {
        var c1, c' := Kept(c, args[0]), Run(c, args).value;
        RunAgain(c1, args[1..], opts);
        Peel(c.out, args[0], c'.out, |c'.out|);
      } else if |args[0]| > 2 {
        GroupedGathered(c, args[0][2..]);
        RunAgain(Grouped(c, args[0][2..]), args[1..], opts);
      } else {
        GroupedGathered(c, args[1]);
        RunAgain(Grouped(c, args[1]), args[2..], opts);
      }
    }
  }

  lemma SeparatorLast(c: Context, args: seq<CStr>)
    requires args != [] && args[0] == SEPARATOR && c.nonopt == 0 && Run(c, args).Some?
    requires Run(c, args).value.nonopt == |Run(c, args).value.out|
    ensures var out := Run(c, args).value.out;
            && |out| == |c.out| + 1 && out[..|c.out|] == c.out && out[|c.out|] == SEPARATOR
            && out[|c.out|..|out| - 1] == []
    ensures Run(Context(c.out, None, 0), []) == Some(Context(c.out, None, 0))
  {
    NonoptStays(Kept(c, args[0]), args[1..]);
  }

  lemma KeptAgain(c: Context, a: CStr, full: seq<CStr>)
    requires c.nonopt == 0 && !IsGroup(a) && a != SEPARATOR
    requires |c.out| + 1 < |full| && full[..|c.out| + 1] == c.out + [a]
    ensures full[..|c.out|] == c.out
    ensures Run(Context(c.out, None, 0), full[|c.out|..|full| - 1]) ==
              Run(Context(c.out + [a], None, 0), full[|c.out| + 1..|full| - 1])
  {
    Peel(c.out, a, full, |full| - 1);
  }

  /** Without a separator that comes last, the other arguments are kept just the same. */
  lemma {:induction false} RunWithoutLast(c: Context, args: seq<CStr>)
    requires c.out != [] && c.nonopt == 0 && Gathered(c.opts) && Run(c, args).Some?
    requires Run(c, args).value.nonopt == |Run(c, args).value.out|
    ensures var c' := Run(c, args).value;
            && |c.out| < |c'.out| && c'.out[..|c.out|] == c.out && c'.out[|c'.out| - 1] == SEPARATOR
            && Run(Context(c.out, None, 0), c'.out[|c.out|..|c'.out| - 1]) ==
                 Some(Context(c'.out[..|c'.out| - 1], None, 0))
    decreases |args|
  {
    hide Gathered, AddAll, Options, Run, Kept, IsGroup;
    var c' := Run(c, args).value;
    RunStep(c, args);
    if args != [] {
      if !IsGroup(args[0]) {
        if args[0] == SEPARATOR {
          SeparatorLast(c, args);
        } else {
          KeptPlain(c, args[0]);
          RunWithoutLast(Kept(c, args[0]), args[1..]);
          KeptAgain(c, args[0], c'.out);
        }
      } else if |args[0]| > 2 {
        GroupedGathered(c, args[0][2..]);
        RunWithoutLast(Grouped(c, args[0][2..]), args[1..]);
      } else {
        GroupedGathered(c, args[1]);
        RunWithoutLast(Grouped(c, args[1]), args[2..]);
      }
    }
  }

  lemma KeptPlain(c: Context, a: CStr)
    requires c.nonopt == 0 && a != SEPARATOR
    ensures Kept(c, a) == Context(c.out + [a], c.opts, 0)
  {
  }

  lemma RunStep(c: Context, args: seq<CStr>)
    ensures Run(c, args) ==
              if args == [] then Some(c)
              else if c.nonopt > 0 || !IsGroup(args[0]) then Run(Kept(c, args[0]), args[1..])
              else if |args[0]| > 2 then Run(Grouped(c, args[0][2..]), args[1..])
              else if |args| < 2 then None
              else Run(Grouped(c, args[1]), args[2..])
    ensures args != [] && IsGroup(args[0]) ==> |args[0]| >= 2
  {
  }

  /** After the separator every argument is kept, and counts. */
  lemma {:induction false} NonoptStays(c: Context, args: seq<CStr>)
    requires c.nonopt > 0
    ensures Run(c, args) == Some(Context(c.out + args, c.opts, c.nonopt))
    decreases |args|
  {
    if args == [] {
      assert c.out + args == c.out;
    } else {
      NonoptStays(Kept(c, args[0]), args[1..]);
      assert c.out + [args[0]] + args[1..] == c.out + args;
    }
  }

  lemma ListAgain(opts: CStr)
    requires Gathered(Some(opts))
    ensures AddAll(None, Options(opts, [])) == Some(opts)
  {
    hide Options, AddAll;
    var l :| IsListOf(opts, l);
    JoinSplitJoined(l);
    JoinedFrom(Options(opts, []));
  }

  /** Parsing the output of a successful parse again gives the same arguments. */
  lemma ParseIsIdempotent(args: seq<CStr>)
    requires Parse(args).Some?
    ensures Parse(Parse(args).value) == Parse(args)
  {
    hide AddAll, Options;
    if args != [] {
      var c0 := Context([args[0]], None, 0);
      var c, out := Run(c0, args[1..]).value, Parse(args).value;
      RunAgain(c0, args[1..], c.opts);
      assert c.out[..1] == [args[0]];
      assert c.out[0] == args[0];
      if c.opts.Some? {
        assert out[1..] == [DASH_O, c.opts.value] + c.out[1..];
        assert out[1..][2..] == c.out[1..];
        ListAgain(c.opts.value);
        assert Run(c0, out[1..]) == Run(Context([args[0]], c.opts, 0), c.out[1..]);
      } else if out != c.out {
        RunWithoutLast(c0, args[1..]);
        assert out[1..] == c.out[1..|c.out| - 1];
      }
    }
  }

  lemma {:induction false} RunInTwo(c: Context, args: seq<CStr>, more: seq<CStr>)
    requires Run(c, args).Some?
    ensures Run(c, args + more) == Run(Run(c, args).value, more)
    decreases |args|
  {
    if args == [] {
      assert args + more == more;
    } else {
      assert (args + more)[1..] == args[1..] + more;
      if c.nonopt > 0 || !IsGroup(args[0]) {
        RunInTwo(Kept(c, args[0]), args[1..], more);
      } else if |args[0]| > 2 {
        RunInTwo(Grouped(c, args[0][2..]), args[1..], more);
      } else {
        assert (args + more)[2..] == args[2..] + more;
        RunInTwo(Grouped(c, args[1]), args[2..], more);
      }
    }
  }

  /** Behind the program's name there is neither a separator nor a -o. */
  ghost predicate Bare(args: seq<CStr>) {
    SEPARATOR !in args && forall i | 0 <= i < |args| :: !IsGroup(args[i])
  }

  lemma {:induction false} OptsStay(c: Context, args: seq<CStr>)
    requires c.opts.Some? && Run(c, args).Some?
    ensures Run(c, args).value.opts.Some?
    decreases |args|
  {
    hide AddAll, Options;
    if args != [] {
      if c.nonopt > 0 || !IsGroup(args[0]) {
        OptsStay(Kept(c, args[0]), args[1..]);
      } else if |args[0]| > 2 {
        AddAllSome(c.opts, Options(args[0][2..], []));
        OptsStay(Grouped(c, args[0][2..]), args[1..]);
      } else {
        AddAllSome(c.opts, Options(args[1], []));
        OptsStay(Grouped(c, args[1]), args[2..]);
      }
    }
  }

  /** Exactly for bare arguments nothing is gathered and no separator is met; then all are kept. */
  lemma {:induction false} BareIff(c: Context, args: seq<CStr>)
    requires c.opts.None? && c.nonopt == 0 && Run(c, args).Some?
    ensures var c' := Run(c, args).value;
            && (Bare(args) <==> c'.opts.None? && c'.nonopt == 0)
            && (Bare(args) ==> c'.out == c.out + args)
            && (SEPARATOR !in args && !Bare(args) ==> c'.opts.Some?)
    decreases |args|
  {
    hide AddAll, Options;
    if args == [] {
      assert c.out + args == c.out;
    } else if IsGroup(args[0]) {
      var list := if |args[0]| > 2 then args[0][2..] else args[1];
      AddAllSome(c.opts, Options(list, []));
      OptionsNulFree(list, []);
      OptsStay(Grouped(c, list), if |args[0]| > 2 then args[1..] else args[2..]);
    } else if args[0] == SEPARATOR {
      NonoptStays(Kept(c, args[0]), args[1..]);
    } else {
      BareIff(Kept(c, args[0]), args[1..]);
      assert args == [args[0]] + args[1..];
      assert Bare(args) <==> Bare(args[1..]);
      assert c.out + [args[0]] + args[1..] == c.out + args;
    }
  }

  /**
    The separator "--" as last argument is removed exactly when no argument behind the program's
    name is a -o or an earlier separator; the comment in the code promises its removal in any case.
   */
  lemma LastSeparatorIff(args: seq<CStr>)
    requires args != [] && Parse(args).Some?
    ensures Parse(args + [SEPARATOR]).Some?
    ensures var out := Parse(args + [SEPARATOR]).value;
            && (out == Parse(args).value <==> Bare(args[1..]))
            && (Bare(args[1..]) ==> out == args)
            && (SEPARATOR !in args[1..] && !Bare(args[1..]) ==> out == Parse(args).value + [SEPARATOR])
            && (!Bare(args[1..]) ==> out != [] && out[|out| - 1] == SEPARATOR)
  {
    hide AddAll, Options, Bare, Run, Kept, Finish;
    var c0, args' := Context([args[0]], None, 0), args + [SEPARATOR];
    var c := Run(c0, args[1..]).value;
    assert args'[0] == args[0] && args'[1..] == args[1..] + [SEPARATOR];
    RunInTwo(c0, args[1..], [SEPARATOR]);
    LastIsKept(c);
    RunAgain(c0, args[1..], None);
    BareIff(c0, args[1..]);
    FinishedWithLast(c);
    assert args == [args[0]] + args[1..];
  }

  lemma LastIsKept(c: Context)
    ensures Run(c, [SEPARATOR]) == Some(Kept(c, SEPARATOR))
  {
    assert [SEPARATOR][1..] == [];
    NothingAfter(Kept(c, SEPARATOR));
  }

  lemma FinishedWithLast(c: Context)
    requires c.out != [] && c.nonopt <= |c.out|
    ensures var out := Finish(Kept(c, SEPARATOR));
            && (c.opts.None? && c.nonopt == 0 ==> out == Finish(c) == c.out)
            && (c.opts.Some? || c.nonopt > 0 ==> out != [] && out[|out| - 1] == SEPARATOR && |out| > |Finish(c)|)
            && (c.opts.Some? ==> out == Finish(c) + [SEPARATOR])
  {
    var c' := Kept(c, SEPARATOR);
    if c.opts.Some? {
      assert c'.out[1..] == c.out[1..] + [SEPARATOR];
    }
  }

  /** `prog -o a --` keeps its separator. */
  lemma SeparatorIsKept(prog: CStr, a: Byte)
    requires a != COMMA && a != BACKSLASH && a != 0
    ensures Parse([prog, DASH_O, [a], SEPARATOR]) == Some([prog, DASH_O, [a], SEPARATOR])
  {
    var args, c0 := [prog, DASH_O, [a], SEPARATOR], Context([prog], None, 0);
    var c := Context([prog], Some([a]), 0);
    assert args[1..] == [DASH_O, [a], SEPARATOR];
    OneOption(a);
    assert Grouped(c0, [a]) == c;
    assert args[1..][2..] == [SEPARATOR] && [SEPARATOR][1..] == [];
    assert Run(c0, args[1..]) == Run(c, [SEPARATOR]);
    NothingAfter(Kept(c, SEPARATOR));
    assert Run(c, [SEPARATOR]) == Some(Kept(c, SEPARATOR));
    assert Finish(Kept(c, SEPARATOR)) == [prog, DASH_O, [a]] + [SEPARATOR];
    assert [prog, DASH_O, [a]] + [SEPARATOR] == args;
  }

  lemma OneOption(a: Byte)
    requires a != COMMA && a != BACKSLASH && a != 0
    ensures AddAll(None, Options([a], [])) == Some([a])
  {
    assert [a][1..] == [] && [] + [a] == [a];
    CutIsAll([a]);
    assert Options([a], []) == [[a]];
    assert Escape([a]) == [a] + Escape([]);
    assert [[a]][1..] == [];
  }

  lemma NothingAfter(c: Context)
    ensures Run(c, []) == Some(c)
  {
  }

  // ---------------------------------------------------------------- what the output consists of

  /** The options of all -o lists among args up to a separator, in order. */
  function OptionsIn(args: seq<CStr>): seq<CStr>
    decreases |args|
  {
    if args == [] || args[0] == SEPARATOR then []
    else if !IsGroup(args[0]) then OptionsIn(args[1..])
    else if |args[0]| > 2 then Options(args[0][2..], []) + OptionsIn(args[1..])
    else if |args| < 2 then []
    else Options(args[1], []) + OptionsIn(args[2..])
  }

  /** The arguments that belong to no -o, in order; from a separator on that is all of them. */
  function Others(args: seq<CStr>): seq<CStr>
    decreases |args|
  {
    if args == [] || args[0] == SEPARATOR then args
    else if !IsGroup(args[0]) then [args[0]] + Others(args[1..])
    else if |args[0]| > 2 then Others(args[1..])
    else if |args| < 2 then []
    else Others(args[2..])
  }

  /** The last argument, before any separator, is a -o whose list is missing. */
  predicate Lacks(args: seq<CStr>)
    decreases |args|
  {
    args != [] && args[0] != SEPARATOR
    && if IsGroup(args[0]) && |args[0]| == 2 then |args| == 1 || Lacks(args[2..]) else Lacks(args[1..])
  }

  lemma {:induction false} RunGathers(c: Context, args: seq<CStr>)
    requires c.nonopt == 0
    ensures Run(c, args).None? <==> Lacks(args)
    ensures Run(c, args).Some? ==>
              var c' := Run(c, args).value;
              && c'.out == c.out + Others(args) && c'.opts == AddAll(c.opts, OptionsIn(args))
              && (c'.nonopt == 0 <==> SEPARATOR !in Others(args))
              && (c'.nonopt == |c'.out| && c'.nonopt > 0 <==> OnlyLast(Others(args)))
    decreases |args|
  {
    hide AddAll, Options, Run, OptionsIn, Others, Lacks, IsGroup, OnlyLast;
    RunStep(c, args);
    PartStep(args);
    if args == [] {
      AddNothing(c.opts);
      assert c.out + Others(args) == c.out;
      NoSeparator();
    } else if args[0] == SEPARATOR {
      AddNothing(c.opts);
      SeparatorFirst(c, args);
    } else if !IsGroup(args[0]) {
      KeptPlain(c, args[0]);
      RunGathers(Kept(c, args[0]), args[1..]);
      OneMoreOther(args[0], Others(args[1..]));
      assert c.out + [args[0]] + Others(args[1..]) == c.out + Others(args);
    } else if |args[0]| > 2 {
      RunGathers(Grouped(c, args[0][2..]), args[1..]);
      AddAllTwice(c.opts, Options(args[0][2..], []), OptionsIn(args[1..]));
    } else if |args| >= 2 {
      RunGathers(Grouped(c, args[1]), args[2..]);
      AddAllTwice(c.opts, Options(args[1], []), OptionsIn(args[2..]));
    }
  }

  lemma NoSeparator()
    ensures !OnlyLast([])
  {
  }

  lemma SeparatorFirst(c: Context, args: seq<CStr>)
    requires c.nonopt == 0 && args != [] && args[0] == SEPARATOR
    ensures Others(args) == args && OptionsIn(args) == [] && !Lacks(args) && SEPARATOR in args
    ensures var n := |c.out| + 1;
            Run(c, args) == Some(Context(c.out + args, c.opts, n)) && (n == |c.out + args| <==> OnlyLast(args))
  {
    NotAGroup();
    NonoptStays(Kept(c, args[0]), args[1..]);
    assert c.out + [args[0]] + args[1..] == c.out + args;
    assert |args| > 1 ==> args[..|args| - 1][0] == SEPARATOR;
  }

  lemma NotAGroup()
    ensures !IsGroup(SEPARATOR)
  {
  }

  /** The first separator is the last argument. */
  predicate OnlyLast(args: seq<CStr>) {
    args != [] && args[|args| - 1] == SEPARATOR && SEPARATOR !in args[..|args| - 1]
  }

  lemma OneMoreOther(a: CStr, rest: seq<CStr>)
    requires a != SEPARATOR
    ensures OnlyLast([a] + rest) <==> OnlyLast(rest)
    ensures SEPARATOR in [a] + rest <==> SEPARATOR in rest
  {
    var l := [a] + rest;
    if rest != [] {
      assert l[..|l| - 1] == [a] + rest[..|rest| - 1];
      assert l[|l| - 1] == rest[|rest| - 1];
    }
  }

  lemma {:induction false} OptionsInNulFree(args: seq<CStr>)
    ensures AllNulFree(OptionsIn(args))
    decreases |args|
  {
    hide Options;
    if args != [] && args[0] != SEPARATOR {
      if !IsGroup(args[0]) {
        OptionsInNulFree(args[1..]);
      } else if |args[0]| > 2 {
        OptionsNulFree(args[0][2..], []);
        OptionsInNulFree(args[1..]);
      } else if |args| >= 2 {
        OptionsNulFree(args[1], []);
        OptionsInNulFree(args[2..]);
      }
    }
  }

  /**
    What a successful parse returns: one -o with all the options of all lists, but for empty ones at
    the start, and then all other arguments in order; or those alone if there is no list.
   */
  ghost predicate Collected(args: seq<CStr>, out: seq<CStr>)
    requires args != []
  {
    var options, others := OptionsIn(args[1..]), Others(args[1..]);
    if options != [] then
      && |out| >= 3 && out[0] == args[0] && out[1] == DASH_O && out[3..] == others
      && Options(out[2], []) == WithoutLeadingEmpty(options)
    else if OnlyLast(others) then out == [args[0]] + others[..|others| - 1]
    else out == [args[0]] + others
  }

  lemma ParseCollects(args: seq<CStr>)
    requires args != []
    ensures Parse(args).None? <==> Lacks(args[1..])
    ensures Parse(args).Some? ==> Collected(args, Parse(args).value)
  {
    hide AddAll, Options, Run, OptionsIn, Others, Lacks, OnlyLast;
    var c0, options, others := Context([args[0]], None, 0), OptionsIn(args[1..]), Others(args[1..]);
    RunGathers(c0, args[1..]);
    AddNothing(None);
    if Parse(args).Some? {
      var c, out := Run(c0, args[1..]).value, Parse(args).value;
      assert c.out[1..] == others;
      if options != [] {
        OptionsInNulFree(args[1..]);
        JoinedFrom(options);
        SplitJoined(options);
        assert out == [args[0], DASH_O, Joined(options)] + others;
      } else {
        LastOfOthers(c, others);
        assert OnlyLast(others) ==> c.out[..|c.out| - 1] == [args[0]] + others[..|others| - 1];
      }
    }
  }

  lemma LastOfOthers(c: Context, others: seq<CStr>)
    requires c.out != [] && c.out[1..] == others
    ensures OnlyLast(others) ==> others != [] && c.out[|c.out| - 1] == SEPARATOR
  {
  }

  /** How the lists and the other arguments of a command line follow from those of its parts. */
  lemma {:induction false} PartsOf(args: seq<CStr>, more: seq<CStr>)
    requires !Lacks(args) && SEPARATOR !in Others(args)
    ensures OptionsIn(args + more) == OptionsIn(args) + OptionsIn(more)
    ensures Others(args + more) == Others(args) + Others(more)
    ensures Lacks(args + more) <==> Lacks(more)
    decreases |args|
  {
    hide Options, IsGroup, OptionsIn, Others, Lacks;
    var all := args + more;
    PartStep(args);
    PartStep(all);
    if args == [] {
      assert all == more;
    } else if IsGroup(args[0]) && |args[0]| == 2 {
      PartsOf(args[2..], more);
      assert all[2..] == args[2..] + more;
      AssociativeLists(Options(args[1], []), OptionsIn(args[2..]), OptionsIn(more));
    } else {
      PartsOf(args[1..], more);
      assert all[1..] == args[1..] + more;
      if IsGroup(args[0]) {
        AssociativeLists(Options(args[0][2..], []), OptionsIn(args[1..]), OptionsIn(more));
      } else {
        AssociativeLists([args[0]], Others(args[1..]), Others(more));
      }
    }
  }

  lemma AssociativeLists(a: seq<CStr>, b: seq<CStr>, c: seq<CStr>)
    ensures a + (b + c) == a + b + c
  {
  }

  lemma PartStep(args: seq<CStr>)
    ensures args == [] ==> OptionsIn(args) == [] && Others(args) == [] && !Lacks(args)
    ensures args != [] && args[0] == SEPARATOR ==> SEPARATOR in Others(args)
    ensures args != [] && args[0] != SEPARATOR ==>
              if !IsGroup(args[0]) then
                OptionsIn(args) == OptionsIn(args[1..]) && Others(args) == [args[0]] + Others(args[1..])
                && Lacks(args) == Lacks(args[1..])
              else if |args[0]| != 2 then
                |args[0]| > 2 && OptionsIn(args) == Options(args[0][2..], []) + OptionsIn(args[1..])
                && Others(args) == Others(args[1..]) && Lacks(args) == Lacks(args[1..])
              else if |args| == 1 then Lacks(args)
              else
                OptionsIn(args) == Options(args[1], []) + OptionsIn(args[2..]) && Others(args) == Others(args[2..])
                && Lacks(args) == Lacks(args[2..])
  {
  }

  // ---------------------------------------------------------------- the code

  /** The `memmove` of `fuse_opt_insert_arg_common`: what is behind the position moves up by one. */
  method ShiftUp<T>(argv: array<T>, pos: nat)
    requires pos < argv.Length
    modifies argv
    ensures forall j | 0 <= j <= pos :: argv[j] == old(argv[j])
    ensures forall j | pos < j < argv.Length :: argv[j] == old(argv[j - 1])
  {
    var i := argv.Length - 1;
    while i > pos
      invariant pos <= i < argv.Length
      invariant forall j | 0 <= j <= i :: argv[j] == old(argv[j])
      invariant forall j | i < j < argv.Length :: argv[j] == old(argv[j - 1])
    {
      argv[i] := argv[i - 1];
      i := i - 1;
    }
  }

  /** `fuse_opt_insert_arg_common`: append, and shift what is behind the position. */
  method InsertArg<T>(args: seq<T>, pos: nat, arg: T) returns (args': seq<T>)
    requires pos <= |args|
    ensures args' == args[..pos] + [arg] + args[pos..]
  {
    var n := |args|;
    var all := args + [arg];
    var argv := new T[n + 1](i requires 0 <= i < |all| => all[i]);
    if pos != n {
      var newarg := argv[n];
      ShiftUp(argv, pos);
      argv[pos] := newarg;
    }
    args' := argv[..];
    InsertedIs(args, pos, arg, args');
  }

  lemma InsertedIs<T>(args: seq<T>, pos: nat, arg: T, args': seq<T>)
    requires pos <= |args| && |args'| == |args| + 1 && args'[pos] == arg
    requires forall j | 0 <= j < pos :: args'[j] == args[j]
    requires forall j | pos < j <= |args| :: args'[j] == args[j - 1]
    ensures args' == args[..pos] + [arg] + args[pos..]
  {
  }

  class Parser {
    const argv: seq<CStr>
    var argctr: nat
    var outargs: seq<CStr>
    var opts: Option<CStr>
    var nonopt: nat

    ghost function View(): Context
      reads this
    {
      Context(outargs, opts, nonopt)
    }

    constructor (argv: seq<CStr>)
      ensures this.argv == argv && View() == Context([], None, 0)
    {
      this.argv, argctr, outargs, opts, nonopt := argv, 0, [], None, 0;
    }

    /** `process_option_group`: works on a copy of the list. */
    method ProcessOptionGroup(list: CStr)
      requires NulFree(list)
      modifies this`opts
      ensures View() == Grouped(old(View()), list)
    {
      var copy := new Byte[|list| + 1](i requires 0 <= i <= |list| => if i < |list| then list[i] else 0);
      assert copy[..|list|] == list;
      ghost var l;
      opts, l := ProcessGroup(copy, opts);
    }

    /** `process_one` on the argument at argctr, which moves on to the list of a lone -o. */
    method ProcessOne() returns (ok: bool)
      requires 0 < argctr < |argv| && AllNulFree(argv) && nonopt <= |outargs| && outargs != []
      modifies this
      ensures nonopt <= |outargs| && outargs != []
      ensures old(argctr) <= argctr < |argv|
      ensures if ok then Run(old(View()), argv[old(argctr)..]) == Run(View(), argv[argctr + 1..])
              else Run(old(View()), argv[old(argctr)..]) == None
    {
      hide Options, AddAll;
      var arg := argv[argctr];
      ghost var rest := argv[argctr..];
      assert rest[0] == arg && rest[1..] == argv[argctr + 1..];
      ok := true;
      if nonopt > 0 || |arg| == 0 || arg[0] != DASH {
        outargs := outargs + [arg];
      } else if |arg| > 1 && arg[1] == LETTER_O {
        if |arg| > 2 {
          ProcessOptionGroup(arg[2..]);
        } else {
          if argctr + 1 >= |argv| {
            return false;
          }
          argctr := argctr + 1;
          assert rest[1] == argv[argctr] && rest[2..] == argv[argctr + 1..];
          ProcessOptionGroup(argv[argctr]);
        }
      } else if arg == SEPARATOR {
        outargs := outargs + [arg];
        nonopt := |outargs|;
      } else {
        outargs := outargs + [arg];
      }
    }

    /** `opt_parse`, and `fuse_opt_parse` around it */
    method OptParse() returns (res: Option<seq<CStr>>)
      requires argctr == 0 && View() == Context([], None, 0) && AllNulFree(argv)
      modifies this
      ensures res == Parse(argv)
      ensures argv == [] ==> res == Some([])
      ensures argv != [] ==> (res.None? <==> Lacks(argv[1..])) && (res.Some? ==> Collected(argv, res.value))
    {
      hide Run, Collected, Lacks;
      if |argv| > 0 {
        ParseCollects(argv);
      }
      if |argv| == 0 {
        return Some([]);
      }
      outargs := [argv[0]];
      argctr := 1;
      assert outargs != [];
      ghost var c0 := Context([argv[0]], None, 0);
      while argctr < |argv|
        invariant nonopt <= |outargs| && outargs != []
        invariant 0 < argctr <= |argv| && Run(c0, argv[1..]) == Run(View(), argv[argctr..])
      {
        var ok := ProcessOne();
        if !ok {
          return None;
        }
        argctr := argctr + 1;
      }
      NothingAfter(View());
      assert argv[argctr..] == [];
      ghost var c := View();
      if opts.Some? {
        outargs := InsertArg(outargs, 1, DASH_O);
        outargs := InsertArg(outargs, 2, opts.value);
        assert outargs == [c.out[0], DASH_O, opts.value] + c.out[1..];
      }
      if nonopt > 0 && nonopt == |outargs| && outargs[|outargs| - 1] == SEPARATOR {
        outargs := outargs[..|outargs| - 1];
      }
      res := Some(outargs);
    }
  }
}
