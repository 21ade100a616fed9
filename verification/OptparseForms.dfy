/**
 The forms an argument can take, spelled out character by character, and what the parser reports
 for each: "--", groups of flags, short options with values, long options with and without "=".
 */
module OptparseForms {
  import opened Wrappers
  import opened OptparseSpec
  import opened OptparseScan
  import opened OptparseDoc

  // ----- classes of arguments -----

  // An argument that is no option: empty, not beginning with a dash, or a dash alone.
  predicate Plain(a: string)
  {
    a == "" || a[0] != '-' || a == "-"
  }

  /** Every argument is plain, "--", a dash and letters of which the first is no dash, or two dashes
      and more. */
  lemma Classes(p: Parser, a: string)
    ensures Plain(a) ==> !IsOption(p, a) && !IsDashDash(a)
    ensures IsDashDash(a) <==> a == "--"
    ensures IsShortOpt(a) <==> |a| >= 2 && a[0] == '-' && a[1] != '-'
    ensures IsLongOpt(a) <==> |a| >= 3 && a[0] == '-' && a[1] == '-'
    ensures IsOption(p, a) <==> IsShortOpt(a) || (p.Long? && IsLongOpt(a))
    ensures !Plain(a) ==> IsDashDash(a) || IsShortOpt(a) || IsLongOpt(a)
  {
  }

  // A whole run, from the first argument on, by its scan.
  lemma RunFromStart(p: Parser, prog: string, args: seq<string>)
    ensures OfRun(Run(p, State([prog] + args, 1, 0))) == FromScan([prog], Scan(p, args, 0))
  {
    hide Run, Scan, FromScan, OfRun;
    var argv := [prog] + args;
    assert argv[..1] == [prog] && argv[1..] == args;
    RunIsScan(p, State(argv, 1, 0));
  }

  /** "--" ends the options: for both parsers, whatever follows it, options included, is left to the
      client, behind the plain arguments before it, and it is the one argument consumed. */
  lemma DashDashEnds(p: Parser, prog: string, before: seq<string>, after: seq<string>)
    requires forall i :: 0 <= i < |before| ==> Plain(before[i])
    ensures OfRun(Run(p, State([prog] + before + ["--"] + after, 1, 0)))
         == Some(([], [prog, "--"] + before + after, 2))
  {
    hide IsOption, IsDashDash, Run, OfRun;
    var args := before + ["--"] + after;
    assert [prog] + before + ["--"] + after == [prog] + args;
    RunFromStart(p, prog, args);
    forall i | 0 <= i < |before|
      ensures !IsOption(p, args[i]) && !IsDashDash(args[i])
    {
      assert args[i] == before[i];
      Classes(p, args[i]);
    }
    ScanSkips(p, args, |before|, 0);
    Classes(p, "--");
    assert args[..|before|] == before && args[|before|..] == ["--"] + after;
    var tail := ["--"] + after;
    assert tail[0] == "--" && tail[..1] == ["--"] && tail[1..] == after;
    assert Scan(p, tail, 0) == Some(Parse([], ["--"], [], after));
    assert [prog] + ["--"] + (before + []) + after == [prog, "--"] + before + after;
  }

  /** Without "--" and options, nothing is reported and nothing moves. */
  lemma PlainOnly(p: Parser, prog: string, args: seq<string>)
    requires forall i :: 0 <= i < |args| ==> Plain(args[i])
    ensures OfRun(Run(p, State([prog] + args, 1, 0))) == Some(([], [prog] + args, 1))
  {
    hide IsOption, IsDashDash, Run, OfRun;
    RunFromStart(p, prog, args);
    forall i | 0 <= i < |args|
      ensures !IsOption(p, args[i]) && !IsDashDash(args[i])
    {
      Classes(p, args[i]);
    }
    ScanSkips(p, args, |args|, 0);
    assert args[..|args|] == args && args[|args|..] == [];
    assert Scan(p, [], 0) == Some(Parse([], [], [], []));
    assert [prog] + [] + (args + []) + [] == [prog] + args;
  }

  // ----- option strings -----

  // How many of the colons at the front of a string count: at most two.
  function FrontColons(s: string): nat
  {
    if |s| >= 2 && s[0] == ':' && s[1] == ':' then 2 else if |s| >= 1 && s[0] == ':' then 1 else 0
  }

  // The string behind the first occurrence of a letter.
  ghost predicate Declared(optstring: string, c: char, colons: nat)
  {
    exists before, after :: DeclaredAt(optstring, c, colons, before, after)
  }

  ghost predicate DeclaredAt(optstring: string, c: char, colons: nat, before: string, after: string)
  {
    optstring == before + [c] + after && c !in before && '\0' !in before && FrontColons(after) == colons
  }

  /** In an option string a letter followed by no colon is a flag, by one takes a value, by two may
      have one; the first occurrence counts. */
  lemma {:induction false} OptstringRule(before: string, c: char, after: string)
    requires c != ':' && c != '\0' && c !in before && '\0' !in before
    ensures ArgTypeOf(before + [c] + after, c) == FrontColons(after)
    decreases |before|
  {
    var s := before + [c] + after;
    if before == "" {
      assert s[1..] == after;
    } else {
      assert before[0] in before;
      assert s[1..] == before[1..] + [c] + after;
      OptstringRule(before[1..], c, after);
    }
  }

  // A letter that is not in the string, and the colon itself, are unknown.
  lemma {:induction false} UnknownRule(optstring: string, c: char)
    requires c == ':' || c !in optstring
    ensures ArgTypeOf(optstring, c) == -1
    decreases |optstring|
  {
    if c != ':' && optstring != "" {
      assert optstring[0] in optstring;
      UnknownRule(optstring[1..], c);
    }
  }

  lemma DeclaredKind(optstring: string, c: char, colons: nat)
    requires c != ':' && c != '\0' && Declared(optstring, c, colons)
    ensures ArgTypeOf(optstring, c) == colons
  {
    var before, after :| DeclaredAt(optstring, c, colons, before, after);
    OptstringRule(before, c, after);
  }

  // ----- short options -----

  // An argument with letters before c and a value after it.
  function ShortArg(flags: string, c: char, v: string): string
  {
    "-" + flags + [c] + v
  }

  lemma ShortArgParts(flags: string, c: char, v: string)
    requires (flags + [c])[0] != '-'
    ensures var a := ShortArg(flags, c, v);
            && IsShortOpt(a) && !IsDashDash(a) && |flags| + 1 < |a|
            && Letter(a, |flags|) == c && AfterLetter(a, |flags|) == v
  {
    var a := ShortArg(flags, c, v);
    assert a[1] == (flags + [c])[0];
    assert a[|flags| + 2..] == v;
  }

  // One step of the scan of a short option string, at a letter.
  lemma ShortStep(optstring: string, flags: string, c: char, v: string, args: seq<string>)
    requires (flags + [c])[0] != '-'
    ensures var p, a, s := Short(optstring), ShortArg(flags, c, v), |flags|;
            var base := ShortBase(optstring, a, if args == [] then None else Some(args[0]), s, None);
            && base.took <= 1 + |args|
            && Scan(p, [a] + args, s) == Prepend(base.event, ([a] + args)[..base.took], Scan(p, ([a] + args)[base.took..], base.subopt))
  {
    ShortArgParts(flags, c, v);
    hide ShortBase, ShortArg, Prepend, Scan, IsShortOpt, IsDashDash;
    var p, argv := Short(optstring), [ShortArg(flags, c, v)] + args;
    assert argv[0..] == argv;
    ScanAtOption(p, argv, 0, |flags|);
    assert Next(argv, 0) == if args == [] then None else Some(args[0]);
    var took := ShortBase(optstring, argv[0], Next(argv, 0), |flags|, None).took;
    assert argv[0..took] == argv[..took];
  }

  /** A letter c of a group, from the letters before it on: what the argument, the option string and
      the arguments after it make of it. */
  lemma ShortForms(optstring: string, flags: string, c: char, v: string, args: seq<string>)
    requires c != ':' && c != '\0' && (flags + [c])[0] != '-'
    ensures var p, a, s, n := Short(optstring), ShortArg(flags, c, v), |flags|, c as int;
            && ((Declared(optstring, c, 1) || Declared(optstring, c, 2)) && v != "" ==>
                  Scan(p, [a] + args, s) == Prepend(Event(n, n, Some(v), None, None), [a], Scan(p, args, 0)))
            && (Declared(optstring, c, 1) && v == "" && args != [] ==>
                  Scan(p, [a] + args, s)
                  == Prepend(Event(n, n, Some(args[0]), None, None), [a, args[0]], Scan(p, args[1..], 0)))
            && (Declared(optstring, c, 1) && v == "" && args == [] ==>
                  Scan(p, [a] + args, s)
                  == Prepend(Event('?' as int, n, None, None, Some(Message("option requires an argument", [c]))),
                             [a], Scan(p, args, 0)))
            && ((Declared(optstring, c, 2) || Declared(optstring, c, 0)) && v == "" ==>
                  Scan(p, [a] + args, s) == Prepend(Event(n, n, None, None, None), [a], Scan(p, args, 0)))
            && (Declared(optstring, c, 0) && v != "" ==>
                  Scan(p, [a] + args, s) == Prepend(Event(n, n, None, None, None), [], Scan(p, [a] + args, s + 1)))
            && (c !in optstring ==>
                  Scan(p, [a] + args, s)
                  == Prepend(Event('?' as int, n, None, None, Some(Message("invalid option", [c]))), [a], Scan(p, args, s)))
  {
    ShortStep(optstring, flags, c, v, args);
    ShortArgParts(flags, c, v);
    if c !in optstring {
      UnknownRule(optstring, c);
    }
    forall colons: nat | Declared(optstring, c, colons)
      ensures ArgTypeOf(optstring, c) == colons
    {
      DeclaredKind(optstring, c, colons);
    }
    hide Scan, Prepend, ShortArg, ArgTypeOf, Declared;
    Slices(ShortArg(flags, c, v), args);
  }

  lemma Slices(a: string, args: seq<string>)
    ensures ([a] + args)[..1] == [a] && ([a] + args)[1..] == args
    ensures ([a] + args)[..0] == [] && ([a] + args)[0..] == [a] + args
    ensures args != [] ==> ([a] + args)[..2] == [a, args[0]] && ([a] + args)[2..] == args[1..]
  {
  }

  // The reports of some flags.
  function FlagEvents(flags: string): (events: seq<Event>)
    ensures |events| == |flags|
  {
    if flags == "" then []
    else FlagEvents(flags[..|flags| - 1])
         + [Event(flags[|flags| - 1] as int, flags[|flags| - 1] as int, None, None, None)]
  }

  /** Flags can share a dash: "-abc" reports a, b and whatever the letter c makes of the rest. */
  lemma {:induction false} FlagsFirst(optstring: string, flags: string, rest: string, args: seq<string>)
    requires flags != "" && flags[0] != '-' && rest != ""
    requires forall i :: 0 <= i < |flags| ==> flags[i] != ':' && flags[i] != '\0' && Declared(optstring, flags[i], 0)
    ensures var p, a := Short(optstring), "-" + flags + rest;
            Scan(p, [a] + args, 0) == JoinAll(FlagEvents(flags), [], Scan(p, [a] + args, |flags|))
    decreases |flags|
  {
    hide Scan, JoinAll, Prepend, Declared;
    var p, n := Short(optstring), |flags| - 1;
    var front, c, a := flags[..n], flags[n], "-" + flags + rest;
    assert flags == front + [c];
    assert ShortArg(front, c, rest) == a;
    assert n > 0 ==> front[0] == flags[0];
    ShortForms(optstring, front, c, rest, args);
    var e, r := Event(c as int, c as int, None, None, None), Scan(p, [a] + args, |flags|);
    if n > 0 {
      FlagsFirst(optstring, front, [c] + rest, args);
      assert "-" + front + ([c] + rest) == a;
      JoinPrepend(FlagEvents(front), e, [], r);
    } else {
      JoinPrepend([], e, [], r);
      JoinNothing(Prepend(e, [], r));
    }
  }

  lemma JoinNothing(r: Option<Parse>)
    ensures JoinAll([], [], r) == r
  {
    if r.Some? {
      assert [] + r.value.events == r.value.events && [] + r.value.consumed == r.value.consumed;
    }
  }

  lemma JoinPrepend(events: seq<Event>, e: Event, took: seq<string>, r: Option<Parse>)
    ensures JoinAll(events, [], Prepend(e, took, r)) == JoinAll(events + [e], took, r)
  {
    if r.Some? {
      assert events + ([e] + r.value.events) == events + [e] + r.value.events;
      assert [] + (took + r.value.consumed) == took + r.value.consumed;
    }
  }

  /** A group of flags, one dash for all: each is reported, and the argument consumed. */
  lemma FlagGroup(optstring: string, flags: string, args: seq<string>)
    requires flags != "" && flags[0] != '-'
    requires forall i :: 0 <= i < |flags| ==> flags[i] != ':' && flags[i] != '\0' && Declared(optstring, flags[i], 0)
    ensures Scan(Short(optstring), ["-" + flags] + args, 0)
         == JoinAll(FlagEvents(flags), ["-" + flags], Scan(Short(optstring), args, 0))
  {
    hide Scan, JoinAll, Prepend, Declared;
    var n := |flags| - 1;
    var front, c := flags[..n], flags[n];
    assert flags == front + [c];
    assert ShortArg(front, c, "") == "-" + flags;
    assert n > 0 ==> front[0] == flags[0];
    ShortForms(optstring, front, c, "", args);
    var e, r := Event(c as int, c as int, None, None, None), Scan(Short(optstring), args, 0);
    if n > 0 {
      FlagsFirst(optstring, front, [c], args);
      assert "-" + front + [c] == "-" + flags;
      JoinPrepend(FlagEvents(front), e, ["-" + flags], r);
    } else {
      JoinPrepend([], e, ["-" + flags], r);
      JoinNothing(Prepend(e, ["-" + flags], r));
    }
  }

  /** The long parser reports a short option as the short one does for its compiled string, with the
      index of the last table entry of that name, or -1. */
  lemma ShortInLong(table: seq<Entry>, a: string, next: Option<string>, subopt: nat)
    requires IsShortOpt(a)
    ensures var short, long := OptionBase(Short(FromLong(table)), a, next, subopt), OptionBase(Long(table), a, next, subopt);
            && long == short.(event := short.event.(longindex := long.event.longindex))
            && long.event.longindex == Some(LastShort(table, long.event.optopt))
  {
    hide ArgTypeOf, FromLong, LastShort;
  }

  lemma {:induction false} LastShortRule(table: seq<Entry>, shortname: int)
    ensures var i := LastShort(table, shortname);
            && -1 <= i < |table|
            && (i >= 0 ==> table[i].shortname == shortname)
            && forall j :: i < j < |table| ==> table[j].shortname != shortname
  {
    if table != [] && table[|table| - 1].shortname != shortname {
      LastShortRule(table[..|table| - 1], shortname);
    }
  }

  // ----- long options -----

  // Entry i is the first of that name.
  predicate FirstNamed(table: seq<Entry>, i: nat, name: string)
  {
    i < |table| && table[i].longname == Some(name) && forall j :: 0 <= j < i ==> table[j].longname != Some(name)
  }

  lemma {:induction false} FindsFirst(table: seq<Entry>, i: nat, name: string)
    requires FirstNamed(table, i, name)
    ensures FindLong(table, name) == i
  {
    if i > 0 {
      assert table[0].longname != Some(name);
      FindsFirst(table[1..], i - 1, name);
    }
  }

  lemma {:induction false} FindsNone(table: seq<Entry>, name: string)
    requires forall j :: 0 <= j < |table| ==> table[j].longname != Some(name)
    ensures FindLong(table, name) == |table|
  {
    if table != [] {
      FindsNone(table[1..], name);
    }
  }

  lemma {:induction false} NameAlone(name: string)
    requires '=' !in name
    ensures NamePart(name) == name && ValuePart(name) == None
  {
    if name != "" {
      assert name[0] in name;
      NameAlone(name[1..]);
    }
  }

  lemma {:induction false} NameAndValue(name: string, v: string)
    requires '=' !in name
    ensures NamePart(name + "=" + v) == name && ValuePart(name + "=" + v) == Some(v)
  {
    var s := name + "=" + v;
    if name == "" {
      assert s[1..] == v;
    } else {
      assert name[0] in name;
      assert s[1..] == name[1..] + "=" + v;
      NameAndValue(name[1..], v);
    }
  }

  // One step of the scan of a long option.
  lemma LongStep(table: seq<Entry>, body: string, args: seq<string>, s: nat)
    requires body != ""
    ensures var p, a := Long(table), "--" + body;
            var (event, took) := LongEvent(table, body, if args == [] then None else Some(args[0]));
            && took <= 1 + |args|
            && Scan(p, [a] + args, s) == Prepend(event, ([a] + args)[..took], Scan(p, ([a] + args)[took..], s))
  {
    hide LongEvent, Prepend, Scan;
    var p, argv := Long(table), ["--" + body] + args;
    assert argv[0..] == argv && argv[0][2..] == body;
    ScanAtOption(p, argv, 0, s);
    assert Next(argv, 0) == if args == [] then None else Some(args[0]);
    var took := LongEvent(table, body, Next(argv, 0)).1;
    assert argv[0..took] == argv[..took];
  }

  /** A long option with a value behind "=": reported with that value, also an empty one, unless it
      takes none; whatever subopt is, it stays. */
  lemma LongWithValue(table: seq<Entry>, i: nat, name: string, v: string, args: seq<string>, s: nat)
    requires FirstNamed(table, i, name) && '=' !in name
    ensures var p, a, n := Long(table), "--" + name + "=" + v, table[i].shortname;
            Scan(p, [a] + args, s)
            == Prepend(if table[i].argtype != 0 then Event(n, n, Some(v), Some(i), None)
                       else Event('?' as int, n, None, Some(i), Some(Message("option takes no arguments", name))),
                       [a], Scan(p, args, s))
  {
    hide Scan, Prepend, NamePart, ValuePart, FindLong;
    var body := name + "=" + v;
    assert "--" + name + "=" + v == "--" + body;
    LongStep(table, body, args, s);
    NameAndValue(name, v);
    FindsFirst(table, i, name);
    Slices("--" + body, args);
  }

  /** A long option without "=": a value that is required is the next argument, which is consumed,
      or reported as missing; an optional one is not taken from there. */
  lemma LongAlone(table: seq<Entry>, i: nat, name: string, args: seq<string>, s: nat)
    requires FirstNamed(table, i, name) && '=' !in name && name != ""
    ensures var p, a, n := Long(table), "--" + name, table[i].shortname;
            && (table[i].argtype != 1 ==>
                  Scan(p, [a] + args, s) == Prepend(Event(n, n, None, Some(i), None), [a], Scan(p, args, s)))
            && (table[i].argtype == 1 && args != [] ==>
                  Scan(p, [a] + args, s)
                  == Prepend(Event(n, n, Some(args[0]), Some(i), None), [a, args[0]], Scan(p, args[1..], s)))
            && (table[i].argtype == 1 && args == [] ==>
                  Scan(p, [a] + args, s)
                  == Prepend(Event('?' as int, n, None, Some(i), Some(Message("option requires an argument", name))),
                             [a], Scan(p, args, s)))
  {
    hide Scan, Prepend, NamePart, ValuePart, FindLong;
    LongStep(table, name, args, s);
    NameAlone(name);
    FindsFirst(table, i, name);
    Slices("--" + name, args);
  }

  /** A name that no entry has is reported as invalid, with all that stands behind the dashes. */
  lemma LongUnknown(table: seq<Entry>, name: string, value: Option<string>, args: seq<string>, s: nat)
    requires '=' !in name && (value.None? ==> name != "")
    requires forall j :: 0 <= j < |table| ==> table[j].longname != Some(name)
    ensures var p, body := Long(table), name + if value.Some? then "=" + value.value else "";
            Scan(p, ["--" + body] + args, s)
            == Prepend(Event('?' as int, 0, None, None, Some(Message("invalid option", body))), ["--" + body], Scan(p, args, s))
  {
    hide Scan, Prepend, ValuePart, FindLong;
    var body := name + if value.Some? then "=" + value.value else "";
    if value.Some? {
      NameAndValue(name, value.value);
      assert body == name + "=" + value.value;
    } else {
      NameAlone(name);
      assert body == name;
    }
    LongStep(table, body, args, s);
    FindsNone(table, name);
    hide NamePart;
    Slices("--" + body, args);
  }

  // ----- whole runs -----

  // The scan of plain arguments and "--".
  lemma ScanToDashDash(p: Parser, plain: seq<string>, after: seq<string>)
    requires forall i :: 0 <= i < |plain| ==> Plain(plain[i])
    ensures Scan(p, plain + ["--"] + after, 0) == Some(Parse([], ["--"], plain, after))
  {
    hide IsOption, IsDashDash;
    var args := plain + ["--"] + after;
    forall i | 0 <= i < |plain|
      ensures !IsOption(p, args[i]) && !IsDashDash(args[i])
    {
      assert args[i] == plain[i];
      Classes(p, args[i]);
    }
    ScanSkips(p, args, |plain|, 0);
    Classes(p, "--");
    assert args[..|plain|] == plain && args[|plain|..] == ["--"] + after;
    var tail := ["--"] + after;
    assert tail[0] == "--" && tail[..1] == ["--"] && tail[1..] == after;
    assert plain + [] == plain;
  }

  lemma OptionThenEnd(p: Parser, prog: string, before: seq<string>, a: string, mid: seq<string>, after: seq<string>,
                      events: seq<Event>)
    requires forall i :: 0 <= i < |before| ==> Plain(before[i])
    requires forall i :: 0 <= i < |mid| ==> Plain(mid[i])
    requires Scan(p, [a] + (mid + ["--"] + after), 0) == JoinAll(events, [a], Scan(p, mid + ["--"] + after, 0))
    ensures OfRun(Run(p, State([prog] + (before + ([a] + (mid + ["--"] + after))), 1, 0)))
         == Some((events, [prog, a, "--"] + before + mid + after, 3))
  {
    hide IsOption, IsDashDash, Run, OfRun, Scan, Skip, JoinAll, FromScan;
    var args := before + ([a] + (mid + ["--"] + after));
    RunFromStart(p, prog, args);
    forall i | 0 <= i < |before|
      ensures !IsOption(p, args[i]) && !IsDashDash(args[i])
    {
      assert args[i] == before[i];
      Classes(p, args[i]);
    }
    ScanSkips(p, args, |before|, 0);
    assert args[..|before|] == before && args[|before|..] == [a] + (mid + ["--"] + after);
    ScanToDashDash(p, mid, after);
    Rebuilt(prog, before, a, mid, after, events);
  }

  lemma Rebuilt(prog: string, before: seq<string>, a: string, mid: seq<string>, after: seq<string>, events: seq<Event>)
    ensures FromScan([prog], Skip(before, JoinAll(events, [a], Some(Parse([], ["--"], mid, after)))))
         == Some((events, [prog, a, "--"] + before + mid + after, 3))
  {
    assert events + [] == events;
    assert [prog] + ([a] + ["--"]) + (before + mid) + after == [prog, a, "--"] + before + mid + after;
  }

  /** A whole command line with a group of flags among plain arguments: the flags are reported, and
      the client finds the plain arguments and all that follows "--", in order. */
  lemma FlagsRun(optstring: string, prog: string, before: seq<string>, flags: string, mid: seq<string>, after: seq<string>)
    requires forall i :: 0 <= i < |before| ==> Plain(before[i])
    requires forall i :: 0 <= i < |mid| ==> Plain(mid[i])
    requires flags != "" && flags[0] != '-'
    requires forall i :: 0 <= i < |flags| ==> flags[i] != ':' && flags[i] != '\0' && Declared(optstring, flags[i], 0)
    ensures OfRun(Run(Short(optstring), State([prog] + (before + (["-" + flags] + (mid + ["--"] + after))), 1, 0)))
         == Some((FlagEvents(flags), [prog, "-" + flags, "--"] + before + mid + after, 3))
  {
    hide Run, OfRun, Scan, JoinAll;
    FlagGroup(optstring, flags, mid + ["--"] + after);
    OptionThenEnd(Short(optstring), prog, before, "-" + flags, mid, after, FlagEvents(flags));
  }

  /** The same with a long option and its value. */
  lemma LongRun(table: seq<Entry>, i: nat, name: string, v: string, prog: string, before: seq<string>, mid: seq<string>,
                after: seq<string>)
    requires forall j :: 0 <= j < |before| ==> Plain(before[j])
    requires forall j :: 0 <= j < |mid| ==> Plain(mid[j])
    requires FirstNamed(table, i, name) && '=' !in name && table[i].argtype != 0
    ensures var a, n := "--" + name + "=" + v, table[i].shortname;
            (OfRun(Run(Long(table), State([prog] + (before + ([a] + (mid + ["--"] + after))), 1, 0)))
             == Some(([Event(n, n, Some(v), Some(i), None)], [prog, a, "--"] + before + mid + after, 3)))
  {
    hide Run, OfRun, Scan, JoinAll, Prepend;
    var a, n, rest := "--" + name + "=" + v, table[i].shortname, mid + ["--"] + after;
    LongWithValue(table, i, name, v, rest, 0);
    PrependJoin(Event(n, n, Some(v), Some(i), None), [], [a], Scan(Long(table), rest, 0));
    OptionThenEnd(Long(table), prog, before, a, mid, after, [Event(n, n, Some(v), Some(i), None)]);
  }
}
