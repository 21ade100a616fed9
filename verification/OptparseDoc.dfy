/**
 The documented meaning of a command line, read group by group with no parser state, and
 exactly when the parser delivers it.
 */
module OptparseDoc {
  import opened Wrappers
  import opened OptparseSpec
  import opened OptparseScan

  // The kind a table's short name is declared with. A letter is one byte: no other is a name.
  function FirstShort(table: seq<Entry>, c: char): ArgType
  {
    if table == [] || c as int > 255 then -1
    else if table[0].shortname != 0 && table[0].shortname == c as int then table[0].argtype
    else FirstShort(table[1..], c)
  }

  function KindOf(p: Parser, c: char): ArgType
  {
    match p
    case Short(optstring) => ArgTypeOf(optstring, c)
    case Long(table) => FirstShort(table, c)
  }

  function IndexOf(p: Parser, c: char): Option<int>
  {
    match p
    case Short(_) => None
    case Long(table) => Some(LastShort(table, c as int))
  }

  /** The letters of one argument: flags are reported one by one; a letter that takes a
      value takes the rest of the argument or the next one; an unknown letter ends the
      argument. The second result is the number of arguments used. */
  function Group(p: Parser, letters: string, next: Option<string>): (r: (seq<Event>, nat))
    requires letters != ""
    ensures 1 <= r.1 <= if next.Some? then 2 else 1
  {
    var c, rest := letters[0], letters[1..];
    var t, i := KindOf(p, c), IndexOf(p, letters[0]);
    if t == -1 then ([Bad(c as int, i, INVALID, LetterText(c))], 1)
    else if t == OPTPARSE_NONE then
      if rest == "" then ([Good(c as int, None, i)], 1)
      else
        var (events, took) := Group(p, rest, next);
        ([Good(c as int, None, i)] + events, took)
    else if rest != "" then ([Good(c as int, Some(rest), i)], 1)
    else if t == OPTPARSE_OPTIONAL then ([Good(c as int, None, i)], 1)
    else if next.Some? then ([Good(c as int, next, i)], 2)
    else ([Bad(c as int, i, MISSING, LetterText(c))], 1)
  }

  // The events of the option at the front of some arguments, and the arguments it uses.
  function FrontOption(p: Parser, args: seq<string>): (r: (seq<Event>, nat))
    requires args != [] && IsOption(p, args[0])
    ensures 1 <= r.1 <= |args|
  {
    if IsShortOpt(args[0]) then Group(p, args[0][1..], Next(args, 0))
    else
      var (event, took) := LongEvent(p.table, args[0][2..], Next(args, 0));
      ([event], took)
  }

  function Join(events: seq<Event>, took: seq<string>, q: Parse): Parse
  {
    Parse(events + q.events, took + q.consumed, q.skipped, q.rest)
  }

  /** The documented reading of a command line. */
  function Doc(p: Parser, args: seq<string>): Parse
    decreases |args|
  {
    if args == [] then Parse([], [], [], [])
    else if IsDashDash(args[0]) then Parse([], args[..1], [], args[1..])
    else if IsOption(p, args[0]) then
      var (events, took) := FrontOption(p, args);
      Join(events, args[..took], Doc(p, args[took..]))
    else
      var q := Doc(p, args[1..]);
      Parse(q.events, q.consumed, args[..1] + q.skipped, q.rest)
  }

  // ----- the condition -----

  // An unknown letter stands after nothing but flags, and not in the first place.
  ghost predicate Stale(p: Parser, letters: string)
  {
    exists k :: 1 <= k < |letters| && UnknownAfterFlags(p, letters, k)
  }

  ghost predicate UnknownAfterFlags(p: Parser, letters: string, k: nat)
    requires k < |letters|
  {
    KindOf(p, letters[k]) == -1 && forall i :: 0 <= i < k ==> KindOf(p, letters[i]) == OPTPARSE_NONE
  }

  /** No group of the command line has an unknown letter after a flag. */
  ghost predicate Clean(p: Parser, args: seq<string>)
    decreases |args|
  {
    if args == [] || IsDashDash(args[0]) then true
    else if IsOption(p, args[0]) then
      && (IsShortOpt(args[0]) ==> !Stale(p, args[0][1..]))
      && Clean(p, args[FrontOption(p, args).1..])
    else Clean(p, args[1..])
  }

  /** No short group is met while an earlier one has left subopt set. A long option or a
      non-option in between does no harm and does not help; after "--" nothing matters. */
  ghost predicate Safe(p: Parser, args: seq<string>, stale: bool)
    decreases |args|
  {
    if args == [] || IsDashDash(args[0]) then true
    else if IsShortOpt(args[0]) then !stale && Safe(p, args[FrontOption(p, args).1..], Stale(p, args[0][1..]))
    else if IsOption(p, args[0]) then Safe(p, args[FrontOption(p, args).1..], stale)
    else Safe(p, args[1..], stale)
  }

  // The option string compiled from the table says of every letter what the table says.
  ghost predicate TableFaithful(p: Parser)
  {
    p.Long? ==> forall c: char :: ArgTypeOf(FromLong(p.table), c) == FirstShort(p.table, c)
  }

  // ----- the scan of one group -----

  // The subopt a group leaves behind when its first letter is number s.
  function Carry(p: Parser, letters: string, s: nat): nat
    requires letters != ""
  {
    if KindOf(p, letters[0]) == -1 then s
    else if KindOf(p, letters[0]) == OPTPARSE_NONE && |letters| > 1 then Carry(p, letters[1..], s + 1)
    else 0
  }

  function JoinAll(events: seq<Event>, took: seq<string>, r: Option<Parse>): Option<Parse>
  {
    match r
    case None => None
    case Some(q) => Some(Join(events, took, q))
  }

  lemma PrependJoin(event: Event, events: seq<Event>, took: seq<string>, r: Option<Parse>)
    ensures Prepend(event, took, r) == JoinAll([event], took, r)
    ensures Prepend(event, [], JoinAll(events, took, r)) == JoinAll([event] + events, took, r)
  {
    if r.Some? {
      assert [event] + (events + r.value.events) == [event] + events + r.value.events;
      assert [] + (took + r.value.consumed) == took + r.value.consumed;
    }
  }

  // One letter of a group, read by the documentation and by the parser.
  lemma LetterAgrees(p: Parser, a: string, next: Option<string>, s: nat)
    requires TableFaithful(p) && IsShortOpt(a) && s + 1 < |a|
    ensures var letters, base := a[s + 1..], OptionBase(p, a, next, s);
            && letters[1..] == a[s + 2..]
            && (if base.took == 0 then
                  && base.subopt == s + 1 && s + 2 < |a|
                  && Group(p, letters, next)
                  == ([base.event] + Group(p, letters[1..], next).0, Group(p, letters[1..], next).1)
                  && Carry(p, letters, s) == Carry(p, letters[1..], s + 1)
                else
                  && Group(p, letters, next) == ([base.event], base.took)
                  && Carry(p, letters, s) == base.subopt)
  {
  }

  /** The parser reads a group as documented, but may leave a stale subopt behind. */
  lemma {:induction false} ScanGroup(p: Parser, args: seq<string>, s: nat)
    requires TableFaithful(p)
    requires args != [] && IsShortOpt(args[0]) && s + 1 < |args[0]|
    ensures var letters := args[0][s + 1..];
            var (events, took) := Group(p, letters, Next(args, 0));
            took <= |args|
            && Scan(p, args, s) == JoinAll(events, args[..took], Scan(p, args[took..], Carry(p, letters, s)))
    decreases |args[0]| - s
  {
    hide OptionBase, Prepend, JoinAll, Group, Carry, TableFaithful;
    var a, next := args[0], Next(args, 0);
    var base := OptionBase(p, a, next, s);
    LetterAgrees(p, a, next, s);
    assert Scan(p, args, s) == Prepend(base.event, args[..base.took], Scan(p, args[base.took..], base.subopt));
    if base.took == 0 {
      assert args[0..] == args && args[..0] == [];
      ScanGroup(p, args, s + 1);
      var (events, took) := Group(p, a[s + 2..], next);
      PrependJoin(base.event, events, args[..took], Scan(p, args[took..], Carry(p, a[s + 2..], s + 1)));
    } else {
      PrependJoin(base.event, [], args[..base.took], Scan(p, args[base.took..], base.subopt));
    }
  }

  lemma {:induction false} CarryMeaning(p: Parser, letters: string, s: nat)
    requires letters != ""
    ensures Carry(p, letters, s) > 0
       <==> exists k :: 0 <= k < |letters| && s + k > 0 && UnknownAfterFlags(p, letters, k)
  {
    hide KindOf;
    if Carry(p, letters, s) > 0 {
      if KindOf(p, letters[0]) == -1 {
        assert UnknownAfterFlags(p, letters, 0);
      } else {
        CarryMeaning(p, letters[1..], s + 1);
        var k :| 0 <= k < |letters[1..]| && UnknownAfterFlags(p, letters[1..], k);
        assert UnknownAfterFlags(p, letters, k + 1) by {
          forall i | 0 <= i < k + 1
            ensures KindOf(p, letters[i]) == OPTPARSE_NONE
          {
            assert i > 0 ==> letters[i] == letters[1..][i - 1];
          }
        }
      }
    }
    if k: nat :| k < |letters| && s + k > 0 && UnknownAfterFlags(p, letters, k) {
      if k > 0 {
        assert UnknownAfterFlags(p, letters[1..], k - 1);
        CarryMeaning(p, letters[1..], s + 1);
      }
    }
  }

  lemma CarryIsStale(p: Parser, letters: string)
    requires letters != ""
    ensures Carry(p, letters, 0) > 0 <==> Stale(p, letters)
  {
    CarryMeaning(p, letters, 0);
  }

  // A scan of an option from subopt 0, whether its group leaves a stale subopt or not.
  lemma ScanFront(p: Parser, args: seq<string>)
    requires TableFaithful(p) && args != [] && IsOption(p, args[0]) && !IsDashDash(args[0])
    ensures var (events, took) := FrontOption(p, args);
            var carry := if IsShortOpt(args[0]) then Carry(p, args[0][1..], 0) else 0;
            Scan(p, args, 0) == JoinAll(events, args[..took], Scan(p, args[took..], carry))
  {
    hide TableFaithful, Group, Carry, LongEvent, ShortBase, JoinAll, Prepend;
    if IsShortOpt(args[0]) {
      ScanGroup(p, args, 0);
    } else {
      var (events, took) := FrontOption(p, args);
      PrependJoin(events[0], [], args[..took], Scan(p, args[took..], 0));
    }
  }

  // A long option leaves subopt as it is.
  lemma ScanLong(p: Parser, args: seq<string>, s: nat)
    requires args != [] && IsOption(p, args[0]) && !IsShortOpt(args[0]) && !IsDashDash(args[0])
    ensures var (events, took) := FrontOption(p, args);
            Scan(p, args, s) == JoinAll(events, args[..took], Scan(p, args[took..], s))
  {
    hide LongEvent, ShortBase, JoinAll, Prepend;
    var (events, took) := FrontOption(p, args);
    PrependJoin(events[0], [], args[..took], Scan(p, args[took..], s));
  }

  lemma {:induction false} ScanFrom(p: Parser, args: seq<string>, s: nat)
    requires TableFaithful(p) && Safe(p, args, s > 0)
    ensures Scan(p, args, s) == Some(Doc(p, args))
    decreases |args|
  {
    hide TableFaithful, FrontOption, Stale, Carry;
    if args == [] || IsDashDash(args[0]) {
    } else if IsShortOpt(args[0]) {
      CarryIsStale(p, args[0][1..]);
      ScanFront(p, args);
      ScanFrom(p, args[FrontOption(p, args).1..], Carry(p, args[0][1..], 0));
    } else if IsOption(p, args[0]) {
      ScanLong(p, args, s);
      ScanFrom(p, args[FrontOption(p, args).1..], s);
    } else {
      ScanFrom(p, args[1..], s);
    }
  }

  /** A safe command line is parsed as documented. */
  lemma ScanIsDoc(p: Parser, args: seq<string>)
    requires TableFaithful(p) && Safe(p, args, false)
    ensures Scan(p, args, 0) == Some(Doc(p, args))
  {
    ScanFrom(p, args, 0);
  }

  /** Call by call: whenever the parser comes to another short option, it starts at its first
      letter. `arrived` says that the call before did not stop inside args[0]. */
  predicate FromFirstLetter(p: Parser, args: seq<string>, subopt: nat, arrived: bool)
    decreases |args|, Unread(args, subopt)
  {
    if args == [] || IsDashDash(args[0]) then true
    else if !IsOption(p, args[0]) then FromFirstLetter(p, args[1..], subopt, true)
    else if IsShortOpt(args[0]) && (if arrived then subopt > 0 else subopt + 1 > |args[0]|) then false
    else
      var base := OptionBase(p, args[0], Next(args, 0), subopt);
      FromFirstLetter(p, args[base.took..], base.subopt, base.took > 0)
  }

  lemma {:induction false} GroupFromFirst(p: Parser, args: seq<string>, s: nat, arrived: bool)
    requires TableFaithful(p) && args != [] && IsShortOpt(args[0]) && s + 1 < |args[0]| && (arrived ==> s == 0)
    ensures var letters := args[0][s + 1..];
            var took := Group(p, letters, Next(args, 0)).1;
            took <= |args|
            && FromFirstLetter(p, args, s, arrived) == FromFirstLetter(p, args[took..], Carry(p, letters, s), true)
    decreases |args[0]| - s
  {
    hide OptionBase, Group, Carry, TableFaithful;
    var base := OptionBase(p, args[0], Next(args, 0), s);
    LetterAgrees(p, args[0], Next(args, 0), s);
    if base.took == 0 {
      assert args[0..] == args;
      GroupFromFirst(p, args, s + 1, false);
    }
  }

  /** Safe is exact about how the parser reads: every short option from its first letter. */
  lemma {:induction false} SafeIsFromFirst(p: Parser, args: seq<string>, s: nat)
    requires TableFaithful(p)
    ensures Safe(p, args, s > 0) <==> FromFirstLetter(p, args, s, true)
    decreases |args|
  {
    hide TableFaithful, Group, Stale, Carry, LongEvent, ShortBase;
    if args == [] || IsDashDash(args[0]) {
    } else if IsShortOpt(args[0]) {
      if s == 0 {
        CarryIsStale(p, args[0][1..]);
        GroupFromFirst(p, args, 0, true);
        SafeIsFromFirst(p, args[FrontOption(p, args).1..], Carry(p, args[0][1..], 0));
      }
    } else if IsOption(p, args[0]) {
      SafeIsFromFirst(p, args[FrontOption(p, args).1..], s);
    } else {
      SafeIsFromFirst(p, args[1..], s);
    }
  }

  lemma {:induction false} CleanIsSafe(p: Parser, args: seq<string>)
    requires Clean(p, args)
    ensures Safe(p, args, false)
    decreases |args|
  {
    hide FrontOption, Stale;
    if args == [] || IsDashDash(args[0]) {
    } else if IsOption(p, args[0]) {
      CleanIsSafe(p, args[FrontOption(p, args).1..]);
    } else {
      CleanIsSafe(p, args[1..]);
    }
  }

  /** Main result: parsing a safe command line from the start, call after call with argv
      permuted in between, reports exactly the documented events, and leaves the program
      name, the consumed arguments, the non-options in order and the rest, with optind at
      the non-options. */
  lemma FullRunIsDocumented(p: Parser, argv: seq<string>)
    requires argv != [] && TableFaithful(p) && Safe(p, argv[1..], false)
    ensures var d := Doc(p, argv[1..]);
            (OfRun(Run(p, State(argv, 1, 0)))
             == Some((d.events, argv[..1] + d.consumed + d.skipped + d.rest, 1 + |d.consumed|)))
  {
    RunIsScan(p, State(argv, 1, 0));
    ScanIsDoc(p, argv[1..]);
  }

  // ----- command lines without errors -----

  ghost predicate ErrorFree(events: seq<Event>)
  {
    forall i :: 0 <= i < |events| ==> events[i].message.None?
  }

  // An unknown letter after flags is reported as an error.
  lemma {:induction false} StaleReports(p: Parser, letters: string, next: Option<string>, k: nat)
    requires k < |letters| && UnknownAfterFlags(p, letters, k)
    ensures !ErrorFree(Group(p, letters, next).0)
    decreases k
  {
    hide KindOf, IndexOf;
    var events := Group(p, letters, next).0;
    if k == 0 {
      assert events[0].message.Some?;
    } else {
      StaleReports(p, letters[1..], next, k - 1);
      var inner := Group(p, letters[1..], next).0;
      var i :| 0 <= i < |inner| && inner[i].message.Some?;
      assert events[i + 1] == inner[i];
    }
  }

  lemma ErrorFreeParts(a: seq<Event>, b: seq<Event>)
    requires ErrorFree(a + b)
    ensures ErrorFree(a) && ErrorFree(b)
  {
    assert forall i :: 0 <= i < |a| ==> a[i] == (a + b)[i];
    assert forall i :: 0 <= i < |b| ==> b[i] == (a + b)[|a| + i];
  }

  /** A command line in whose documented reading nothing is wrong is clean: whoever makes no
      mistake is never misread. */
  lemma {:induction false} ErrorFreeIsClean(p: Parser, args: seq<string>)
    requires ErrorFree(Doc(p, args).events)
    ensures Clean(p, args)
    decreases |args|
  {
    hide Group, ErrorFree, UnknownAfterFlags;
    if args == [] || IsDashDash(args[0]) {
    } else if IsOption(p, args[0]) {
      var (events, took) := FrontOption(p, args);
      ErrorFreeParts(events, Doc(p, args[took..]).events);
      if IsShortOpt(args[0]) && Stale(p, args[0][1..]) {
        var k :| 1 <= k < |args[0][1..]| && UnknownAfterFlags(p, args[0][1..], k);
        StaleReports(p, args[0][1..], Next(args, 0), k);
        assert false;
      }
      ErrorFreeIsClean(p, args[took..]);
    } else {
      ErrorFreeIsClean(p, args[1..]);
    }
  }

  /** So it is parsed as documented, with no further condition. */
  lemma ErrorFreeIsDocumented(p: Parser, argv: seq<string>)
    requires argv != [] && TableFaithful(p) && ErrorFree(Doc(p, argv[1..]).events)
    ensures var d := Doc(p, argv[1..]);
            (OfRun(Run(p, State(argv, 1, 0)))
             == Some((d.events, argv[..1] + d.consumed + d.skipped + d.rest, 1 + |d.consumed|)))
  {
    ErrorFreeIsClean(p, argv[1..]);
    CleanIsSafe(p, argv[1..]);
    FullRunIsDocumented(p, argv);
  }

  // ----- the condition is exact -----

  // An argument that is one flag on its own.
  predicate IsFlag(p: Parser, f: char)
  {
    f != '-' && KindOf(p, f) == OPTPARSE_NONE
  }

  predicate Agrees(p: Parser, args: seq<string>)
  {
    Scan(p, args, 0) == Some(Doc(p, args))
  }

  // What a group uses depends on whether there is a next argument, not on which.
  lemma {:induction false} GroupNext(p: Parser, letters: string, x: string, y: string)
    requires letters != ""
    ensures Group(p, letters, Some(x)).1 == Group(p, letters, Some(y)).1
    ensures Group(p, letters, Some(x)).1 == 1 ==> Group(p, letters, Some(x)) == Group(p, letters, Some(y))
    decreases |letters|
  {
    hide KindOf, IndexOf;
    if |letters| > 1 {
      GroupNext(p, letters[1..], x, y);
    }
  }

  lemma FrontNext(p: Parser, args: seq<string>, args': seq<string>)
    requires |args| > 1 && |args'| > 1 && args[0] == args'[0] && IsOption(p, args[0])
    ensures FrontOption(p, args).1 == FrontOption(p, args').1
    ensures FrontOption(p, args).1 == 1 || args[1] == args'[1] ==> FrontOption(p, args).0 == FrontOption(p, args').0
  {
    hide Group;
    if IsShortOpt(args[0]) {
      GroupNext(p, args[0][1..], args[1], args'[1]);
    }
  }

  lemma FlagAlone(p: Parser, f: char)
    requires IsFlag(p, f)
    ensures Clean(p, [['-', f]])
    ensures Doc(p, [['-', f]]).events == [Good(f as int, None, IndexOf(p, f))]
  {
  }

  lemma {:induction false} CleanPrefix(p: Parser, args: seq<string>, k: nat, f: char)
    requires Clean(p, args) && k <= |args| && IsFlag(p, f)
    ensures Clean(p, args[..k] + [['-', f]])
    decreases |args|
  {
    hide FrontOption, Stale, IsFlag;
    var xs := args[..k] + [['-', f]];
    FlagAlone(p, f);
    if k == 0 {
      assert xs == [['-', f]];
    } else if IsDashDash(args[0]) {
    } else if IsOption(p, args[0]) {
      var t := FrontOption(p, xs).1;
      if |args| > 1 {
        FrontNext(p, args, xs);
      }
      TookAtMostTwo(p, xs);
      if t > k {
        assert xs[t..] == [];
      } else {
        assert xs[t..] == args[t..][..k - t] + [['-', f]];
        if |args| > 1 {
          CleanPrefix(p, args[t..], k - t, f);
        }
      }
    } else {
      CleanPrefix(p, args[1..], k - 1, f);
      assert xs[1..] == args[1..][..k - 1] + [['-', f]];
    }
  }

  lemma TookAtMostTwo(p: Parser, args: seq<string>)
    requires args != [] && IsOption(p, args[0])
    ensures FrontOption(p, args).1 <= 2
  {
  }

  // A flag read from a stale subopt is not reported as that flag.
  lemma StaleFlag(p: Parser, f: char, carry: nat)
    requires TableFaithful(p) && IsFlag(p, f) && carry > 0
    ensures var r := Scan(p, [['-', f]], carry);
            r.None? || (|r.value.events| == 1 && r.value.events[0].result == '?' as int && r.value.events[0].message.Some?)
  {
  }

  lemma {:induction false} DirtyDisagrees(p: Parser, args: seq<string>, f: char) returns (k: nat)
    requires TableFaithful(p) && !Clean(p, args) && IsFlag(p, f)
    ensures k <= |args| && !Agrees(p, args[..k] + [['-', f]])
    decreases |args|
  {
    hide TableFaithful, FrontOption, Stale, Carry, IsFlag, KindOf;
    if IsOption(p, args[0]) {
      if IsShortOpt(args[0]) && Stale(p, args[0][1..]) {
        k := 1;
        StaleDisagrees(p, args[0], f);
        assert args[..1] + [['-', f]] == [args[0], ['-', f]];
      } else {
        var t := FrontOption(p, args).1;
        var k' := DirtyDisagrees(p, args[t..], f);
        k := t + k';
        var xs := args[..k] + [['-', f]];
        FrontNext(p, args, xs);
        assert xs[t..] == args[t..][..k'] + [['-', f]];
        if IsShortOpt(args[0]) {
          CarryIsStale(p, args[0][1..]);
        }
        ScanFront(p, xs);
        JoinInjective(FrontOption(p, xs).0, xs[..t], Scan(p, xs[t..], 0), Doc(p, xs[t..]));
      }
    } else {
      var k' := DirtyDisagrees(p, args[1..], f);
      k := 1 + k';
      var xs := args[..k] + [['-', f]];
      assert xs[1..] == args[1..][..k'] + [['-', f]];
      SkipInjective(p, xs);
    }
  }

  lemma JoinInjective(events: seq<Event>, took: seq<string>, r: Option<Parse>, q: Parse)
    requires r != Some(q)
    ensures JoinAll(events, took, r) != Some(Join(events, took, q))
  {
    if r.Some? {
      var x := r.value;
      if events + x.events == events + q.events && took + x.consumed == took + q.consumed {
        assert x.events == (events + x.events)[|events|..] && q.events == (events + q.events)[|events|..];
        assert x.consumed == (took + x.consumed)[|took|..] && q.consumed == (took + q.consumed)[|took|..];
      }
    }
  }

  lemma SkipInjective(p: Parser, xs: seq<string>)
    requires xs != [] && !IsDashDash(xs[0]) && !IsOption(p, xs[0]) && !Agrees(p, xs[1..])
    ensures !Agrees(p, xs)
  {
    var r, q := Scan(p, xs[1..], 0), Doc(p, xs[1..]);
    if r.Some? && xs[..1] + r.value.skipped == xs[..1] + q.skipped {
      assert r.value.skipped == (xs[..1] + r.value.skipped)[1..] && q.skipped == (xs[..1] + q.skipped)[1..];
    }
  }

  // A group whose unknown letter follows flags uses no other argument.
  lemma {:induction false} StaleTakesOne(p: Parser, letters: string, next: Option<string>, s: nat)
    requires letters != "" && Carry(p, letters, s) > 0
    ensures Group(p, letters, next).1 == 1
    decreases |letters|
  {
    hide KindOf, IndexOf;
    if KindOf(p, letters[0]) == OPTPARSE_NONE && |letters| > 1 {
      StaleTakesOne(p, letters[1..], next, s + 1);
    }
  }

  lemma StaleDisagrees(p: Parser, a: string, f: char)
    requires TableFaithful(p) && IsFlag(p, f) && IsShortOpt(a) && Stale(p, a[1..])
    ensures !Agrees(p, [a, ['-', f]])
  {
    var xs := [a, ['-', f]];
    var letters := a[1..];
    CarryIsStale(p, letters);
    StaleTakesOne(p, letters, Next(xs, 0), 0);
    ScanFront(p, xs);
    StaleFlag(p, f, Carry(p, letters, 0));
    FlagAlone(p, f);
    assert xs[1..] == [['-', f]];
    JoinInjective(FrontOption(p, xs).0, xs[..1], Scan(p, xs[1..], Carry(p, letters, 0)), Doc(p, xs[1..]));
    hide FrontOption, Carry, Stale, TableFaithful, Scan, JoinAll;
  }

  /** The condition is exact: a command line is clean if and only if the parser delivers
      the documented reading of every one of its beginnings followed by one more flag. */
  lemma CleanIsExact(p: Parser, args: seq<string>, f: char)
    requires TableFaithful(p) && IsFlag(p, f)
    ensures Clean(p, args) <==> forall k: nat :: k <= |args| ==> Agrees(p, args[..k] + [['-', f]])
  {
    hide Clean, TableFaithful, Agrees, IsFlag;
    if Clean(p, args) {
      forall k: nat | k <= |args|
        ensures Agrees(p, args[..k] + [['-', f]])
      {
        CleanPrefix(p, args, k, f);
        CleanAgrees(p, args[..k] + [['-', f]]);
      }
    } else {
      var k := DirtyDisagrees(p, args, f);
    }
  }

  lemma CleanAgrees(p: Parser, args: seq<string>)
    requires TableFaithful(p) && Clean(p, args)
    ensures Agrees(p, args)
  {
    CleanIsSafe(p, args);
    ScanIsDoc(p, args);
  }

  /** The smallest case: after "-ax" with only "a" known, a following "-a" is misread. */
  lemma StaleExample()
    ensures !Clean(Short("a"), ["-ax", "-a"])
    ensures var r := Scan(Short("a"), ["-ax", "-a"], 0);
            r.Some? && |r.value.events| == 3 && r.value.events[2].result == '?' as int
    ensures |Doc(Short("a"), ["-ax", "-a"]).events| == 3
         && Doc(Short("a"), ["-ax", "-a"]).events[2].result == 'a' as int
  {
    var p, args := Short("a"), ["-ax", "-a"];
    assert KindOf(p, 'a') == OPTPARSE_NONE && KindOf(p, 'x') == -1 && KindOf(p, '\0') == -1;
    assert UnknownAfterFlags(p, "ax", 1);
    assert args[0][1..] == "ax" && "ax"[1..] == "x";
    assert args[1..] == ["-a"] && args[0..] == args;
    assert ["-a"][0][1..] == "a" && "a"[1..] == "";
    assert Carry(p, "x", 1) == 1;
    assert Carry(p, "ax", 0) == 1;
    ScanFront(p, args);
    var none := ["-a"][1..];
    assert none == [];
    StaleFlag(p, 'a', 1);
    assert Group(p, "x", Next(args, 0)) == ([Bad('x' as int, None, INVALID, "x")], 1);
    assert FrontOption(p, args).1 == 1;
    FlagAlone(p, 'a');
    assert ['-', 'a'] == "-a";
  }

  /** Two flags and an unknown letter leave subopt at 2: the next "-a" is read past its end. */
  lemma StalePastEnd()
    ensures Scan(Short("ab"), ["-abx", "-a"], 0) == None
  {
    var p, args := Short("ab"), ["-abx", "-a"];
    assert "ab"[1..] == "b" && "b"[1..] == "";
    assert KindOf(p, 'a') == OPTPARSE_NONE && KindOf(p, 'b') == OPTPARSE_NONE && KindOf(p, 'x') == -1;
    assert args[0][1..] == "abx" && "abx"[1..] == "bx" && "bx"[1..] == "x";
    assert Carry(p, "x", 2) == 2;
    assert Carry(p, "bx", 1) == 2;
    assert Carry(p, "abx", 0) == 2;
    StaleTakesOne(p, "abx", Next(args, 0), 0);
    ScanFront(p, args);
    assert args[1..] == ["-a"];
  }

  /** A stale subopt that no later group meets does no harm ... */
  lemma HarmlessStale()
    ensures !Clean(Short("a"), ["-ax"]) && Safe(Short("a"), ["-ax"], false) && Agrees(Short("a"), ["-ax"])
  {
    var p := Short("a");
    assert KindOf(p, 'a') == OPTPARSE_NONE && KindOf(p, 'x') == -1;
    assert UnknownAfterFlags(p, "ax", 1);
    assert "-ax"[1..] == "ax" && "ax"[1..] == "x";
    var none := ["-ax"][1..];
    assert none == [];
    assert FrontOption(p, ["-ax"]).1 == 1;
    ScanIsDoc(p, ["-ax"]);
  }

  /** ... and one that is met can go unnoticed, when the letter read happens to report the same. */
  lemma LuckyStale()
    ensures !Safe(Short("a"), ["-ax", "-xx"], false) && Agrees(Short("a"), ["-ax", "-xx"])
  {
    var p, args := Short("a"), ["-ax", "-xx"];
    assert KindOf(p, 'a') == OPTPARSE_NONE && KindOf(p, 'x') == -1;
    assert UnknownAfterFlags(p, "ax", 1);
    assert args[0][1..] == "ax" && "ax"[1..] == "x" && args[1..] == ["-xx"];
    assert Carry(p, "x", 1) == 1;
    assert Carry(p, "ax", 0) == 1;
    StaleTakesOne(p, "ax", Next(args, 0), 0);
    ScanFront(p, args);
    var none := ["-xx"][1..];
    assert none == [];
    assert Scan(p, ["-xx"], 1) == Some(Doc(p, ["-xx"]));
  }
}
