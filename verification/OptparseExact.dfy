/**
 Exactly when one command line is read as documented, for options without required arguments: a
 stale subopt goes unnoticed only where the letters it points at repeat the ones before them.
 */
module OptparseExact {
  import opened Wrappers
  import opened OptparseSpec
  import opened OptparseScan
  import opened OptparseDoc

  // ----- the condition -----

  // Every option stands for itself: none takes the argument after it.
  ghost predicate NoneRequired(p: Parser)
  {
    && (forall c: char :: KindOf(p, c) != OPTPARSE_REQUIRED)
    && (p.Long? ==> forall e :: e in p.table ==> e.argtype != OPTPARSE_REQUIRED)
  }

  // Arguments are C strings.
  ghost predicate NulFree(args: seq<string>)
  {
    forall a :: a in args ==> '\0' !in a
  }

  /** From letter s on, the group repeats its beginning, up to and including the first unknown
      letter after nothing but flags. */
  ghost predicate Repeats(p: Parser, letters: string, s: nat)
  {
    exists t: nat :: RepeatsTo(p, letters, s, t)
  }

  ghost predicate RepeatsTo(p: Parser, letters: string, s: nat, t: nat)
  {
    s + t < |letters| && UnknownAfterFlags(p, letters, t) && letters[s..s + t + 1] == letters[..t + 1]
  }

  /** Every short group that meets a subopt s left set repeats its beginning from letter s on. */
  ghost predicate Unnoticed(p: Parser, args: seq<string>, s: nat)
    decreases |args|
  {
    if args == [] || IsDashDash(args[0]) then true
    else if IsShortOpt(args[0]) then
      var letters := args[0][1..];
      && (s == 0 || Repeats(p, letters, s))
      && Unnoticed(p, args[1..], Carry(p, letters[s..], s))
    else Unnoticed(p, args[1..], s)
  }

  // ----- the events of a group -----

  // Nothing but the report of a flag lets a group go on.
  ghost predicate Ends(p: Parser, e: Event)
  {
    !(e.message.None? && exists c: char :: c as int == e.result && KindOf(p, c) == OPTPARSE_NONE)
  }

  ghost function Endings(p: Parser, events: seq<Event>): nat
  {
    if events == [] then 0 else (if Ends(p, events[0]) then 1 else 0) + Endings(p, events[1..])
  }

  lemma {:induction false} EndingsJoin(p: Parser, a: seq<Event>, b: seq<Event>)
    ensures Endings(p, a + b) == Endings(p, a) + Endings(p, b)
  {
    hide Ends;
    if a == [] {
      assert a + b == b;
    } else {
      EndingsJoin(p, a[1..], b);
      assert (a + b)[1..] == a[1..] + b;
    }
  }

  lemma {:induction false} EndingAt(p: Parser, events: seq<Event>)
    ensures Endings(p, events) > 0 <==> exists i :: 0 <= i < |events| && Ends(p, events[i])
  {
    hide Ends;
    if events != [] {
      var rest := events[1..];
      EndingAt(p, rest);
      if i :| 0 <= i < |rest| && Ends(p, rest[i]) {
        assert Ends(p, events[i + 1]);
      }
      if i :| 0 < i < |events| && Ends(p, events[i]) {
        assert Ends(p, rest[i - 1]);
      }
    }
  }

  ghost predicate AllFlags(p: Parser, letters: string)
  {
    forall i :: 0 <= i < |letters| ==> KindOf(p, letters[i]) == OPTPARSE_NONE
  }

  // What is reported for the terminator of an argument.
  function NulEvent(p: Parser): Event
  {
    Bad(0, IndexOf(p, '\0'), INVALID, "")
  }

  /** A group reports its letters one by one; only the last report ends it, if any does: if none
      does, all letters are flags. */
  lemma {:induction false} GroupReports(p: Parser, letters: string, next: Option<string>)
    requires NoneRequired(p) && letters != "" && '\0' !in letters
    ensures var (events, took) := Group(p, letters, next);
            && took == 1 && 1 <= |events| <= |letters| && NulEvent(p) !in events
            && (forall i :: 0 <= i < |events| ==> events[i].optopt == letters[i] as int)
            && (forall i :: 0 <= i < |events| - 1 ==> !Ends(p, events[i]) && KindOf(p, letters[i]) == OPTPARSE_NONE)
            && (Ends(p, events[|events| - 1]) <==> KindOf(p, letters[|events| - 1]) != OPTPARSE_NONE)
            && (KindOf(p, letters[|events| - 1]) == OPTPARSE_NONE ==> |events| == |letters|)
    decreases |letters|
  {
    hide KindOf, IndexOf;
    if KindOf(p, letters[0]) == OPTPARSE_NONE && |letters| > 1 {
      GroupReports(p, letters[1..], next);
      assert !Ends(p, Good(letters[0] as int, None, IndexOf(p, letters[0])));
    }
  }

  // The report of an unknown letter or of a letter with a value depends on what follows it.
  lemma {:induction false} LastReport(p: Parser, letters: string, next: Option<string>)
    requires NoneRequired(p) && letters != "" && '\0' !in letters
    ensures var events := Group(p, letters, next).0;
            1 <= |events| <= |letters|
            && (var k := |events| - 1;
                && (KindOf(p, letters[k]) == -1 ==> events[k].message.Some?)
                && (KindOf(p, letters[k]) > OPTPARSE_NONE ==>
                      && events[k].message.None?
                      && events[k].optarg == if k + 1 < |letters| then Some(letters[k + 1..]) else None))
    decreases |letters|
  {
    hide IndexOf;
    if KindOf(p, letters[0]) == OPTPARSE_NONE && |letters| > 1 {
      LastReport(p, letters[1..], next);
      GroupReports(p, letters[1..], next);
    }
  }

  // The reports of a group up to its first unknown letter are determined by the letters up to it.
  lemma {:induction false} UnknownReports(p: Parser, a: string, b: string, next: Option<string>, t: nat)
    requires t < |a| && t < |b| && a[..t + 1] == b[..t + 1] && UnknownAfterFlags(p, a, t)
    ensures Group(p, a, next) == Group(p, b, next)
    decreases t
  {
    hide KindOf, IndexOf;
    assert a[0] == a[..t + 1][0] == b[0];
    if t > 0 {
      assert a[1..][..t] == a[..t + 1][1..] == b[..t + 1][1..] == b[1..][..t];
      assert UnknownAfterFlags(p, a[1..], t - 1);
      UnknownReports(p, a[1..], b[1..], next, t - 1);
    }
  }

  // Reports that are the same name the same letters.
  lemma SameLetters(p: Parser, letters: string, next: Option<string>, s: nat)
    requires NoneRequired(p) && 0 < s < |letters| && '\0' !in letters
    requires Group(p, letters, next).0 == Group(p, letters[s..], next).0
    ensures var t := |Group(p, letters, next).0| - 1;
            && 0 <= t && s + t < |letters| && letters[s..s + t + 1] == letters[..t + 1]
            && KindOf(p, letters[t]) != OPTPARSE_NONE
            && forall i :: 0 <= i < t ==> KindOf(p, letters[i]) == OPTPARSE_NONE
  {
    hide Group, KindOf, Ends;
    var tail, events := letters[s..], Group(p, letters, next).0;
    GroupReports(p, letters, next);
    GroupReports(p, tail, next);
    forall i | 0 <= i < |events|
      ensures letters[i] == tail[i]
    {
      assert events[i].optopt == letters[i] as int && events[i].optopt == tail[i] as int;
    }
    assert letters[s..s + |events|] == tail[..|events|] == letters[..|events|];
  }

  // A letter with a value shows how much follows it.
  lemma SameLast(p: Parser, letters: string, next: Option<string>, s: nat)
    requires NoneRequired(p) && 0 < s < |letters| && '\0' !in letters
    requires Group(p, letters, next).0 == Group(p, letters[s..], next).0
    ensures var t := |Group(p, letters, next).0| - 1;
            0 <= t < |letters| && KindOf(p, letters[t]) <= OPTPARSE_NONE
  {
    hide Group, KindOf;
    var tail, t := letters[s..], |Group(p, letters, next).0| - 1;
    LastReport(p, letters, next);
    LastReport(p, tail, next);
    SameLetters(p, letters, next, s);
    assert tail[t] == letters[s..s + t + 1][t] == letters[..t + 1][t];
    assert |letters[t + 1..]| == |letters| - t - 1 && (t + 1 <= |tail| ==> |tail[t + 1..]| == |letters| - s - t - 1);
  }

  /** Read from letter s > 0 on, a group reports the same if and only if it repeats its beginning
      up to an unknown letter. */
  lemma SameReports(p: Parser, letters: string, next: Option<string>, s: nat)
    requires NoneRequired(p) && 0 < s < |letters| && '\0' !in letters
    ensures Group(p, letters, next) == Group(p, letters[s..], next) <==> Repeats(p, letters, s)
  {
    hide Group, KindOf, Ends;
    if Repeats(p, letters, s) {
      var t: nat :| RepeatsTo(p, letters, s, t);
      assert letters[s..][..t + 1] == letters[s..s + t + 1];
      UnknownReports(p, letters, letters[s..], next, t);
    }
    if Group(p, letters, next) == Group(p, letters[s..], next) {
      SameLetters(p, letters, next, s);
      SameLast(p, letters, next, s);
      assert RepeatsTo(p, letters, s, |Group(p, letters, next).0| - 1);
    }
  }

  // ----- one option, read from a stale subopt -----

  lemma ScanStale(p: Parser, args: seq<string>, s: nat)
    requires TableFaithful(p) && NoneRequired(p) && NulFree(args) && args != [] && IsShortOpt(args[0])
    ensures var letters := args[0][1..];
            && (s < |letters| ==>
                  Scan(p, args, s) == JoinAll(Group(p, letters[s..], Next(args, 0)).0, args[..1],
                                              Scan(p, args[1..], Carry(p, letters[s..], s))))
            && (s == |letters| ==> Scan(p, args, s) == JoinAll([NulEvent(p)], args[..1], Scan(p, args[1..], s)))
            && (s > |letters| ==> Scan(p, args, s) == None)
  {
    hide Group, Carry, KindOf;
    var a, letters := args[0], args[0][1..];
    assert a in args;
    if s < |letters| {
      ScanGroup(p, args, s);
      assert a[s + 1..] == letters[s..];
      GroupReports(p, letters[s..], Next(args, 0));
    } else if s == |letters| {
      ScanNul(p, args);
    }
  }

  lemma ScanNul(p: Parser, args: seq<string>)
    requires TableFaithful(p) && args != [] && IsShortOpt(args[0])
    ensures var s := |args[0]| - 1;
            Scan(p, args, s) == JoinAll([NulEvent(p)], args[..1], Scan(p, args[1..], s))
  {
    var s := |args[0]| - 1;
    assert OptionBase(p, args[0], Next(args, 0), s) == Base(NulEvent(p), 1, s);
    PrependJoin(NulEvent(p), [], args[..1], Scan(p, args[1..], s));
    hide OptionBase, NulEvent, JoinAll, Prepend;
  }

  // What a short option means, and what a stale subopt can leave behind.
  lemma DocShort(p: Parser, args: seq<string>)
    requires NoneRequired(p) && NulFree(args) && args != [] && IsShortOpt(args[0])
    ensures Doc(p, args) == Join(Group(p, args[0][1..], Next(args, 0)).0, args[..1], Doc(p, args[1..]))
  {
    hide Group;
    assert args[0] in args;
    GroupReports(p, args[0][1..], Next(args, 0));
  }

  // A long option is the same for both.
  lemma ScanDocLong(p: Parser, args: seq<string>, s: nat) returns (event: Event)
    requires NoneRequired(p) && args != [] && IsOption(p, args[0]) && !IsShortOpt(args[0]) && !IsDashDash(args[0])
    ensures event != NulEvent(p)
    ensures Doc(p, args) == Join([event], args[..1], Doc(p, args[1..]))
    ensures Scan(p, args, s) == JoinAll([event], args[..1], Scan(p, args[1..], s))
  {
    hide Join, JoinAll, NamePart, ValuePart;
    ScanLong(p, args, s);
    FindLongBound(p.table, NamePart(args[0][2..]));
    event := LongEvent(p.table, args[0][2..], Next(args, 0)).0;
  }

  lemma CarryOfFlags(p: Parser, letters: string, s: nat)
    requires letters != "" && s > 0 && Carry(p, letters, s) > 0
    ensures !AllFlags(p, letters)
  {
    CarryMeaning(p, letters, s);
  }

  // ----- a report missed is never made up for -----

  // Two ways to cut a sequence of events in two.
  lemma Align(a: seq<Event>, x: seq<Event>, b: seq<Event>, y: seq<Event>)
    requires a + x == b + y && |b| <= |a|
    ensures a == b + a[|b|..] && y == a[|b|..] + x
  {
    assert (a + x)[..|b|] == a[..|b|] && (b + y)[..|b|] == b;
    assert (a + x)[|b|..] == a[|b|..] + x && (b + y)[|b|..] == y;
  }

  // The documented reading is behind by the events q: what that says of q and the next group.
  ghost predicate Behind(p: Parser, q: seq<Event>, s: nat)
  {
    q != [] && NulEvent(p) !in q && (Endings(p, q) > 0 || s == 0)
  }

  // A group that both read alike turns q round.
  lemma Turned(p: Parser, q: seq<Event>, g: seq<Event>, s: nat)
    requires Behind(p, q, s) && g != [] && NulEvent(p) !in g && q + g == g + (q + g)[|g|..]
    requires forall i :: 0 <= i < |g| - 1 ==> !Ends(p, g[i])
    ensures Behind(p, (q + g)[|g|..], s) && (Ends(p, g[|g| - 1]) ==> Endings(p, q) > 0)
    ensures Endings(p, (q + g)[|g|..]) == Endings(p, q)
  {
    hide Ends;
    var q' := (q + g)[|g|..];
    EndingsJoin(p, q, g);
    EndingsJoin(p, g, q');
    EndingAt(p, q);
    assert forall e :: e in q' ==> e in q + g;
    if Ends(p, g[|g| - 1]) {
      assert (q + g)[|g| - 1] == g[|g| - 1];
      if |g| - 1 < |q| {
        assert Ends(p, q[|g| - 1]);
      } else {
        assert (q + g)[|g| - 1] == g[|g| - 1 - |q|];
      }
    }
  }

  lemma {:induction false} NeverMadeUp(p: Parser, args: seq<string>, s: nat, q: seq<Event>)
    requires TableFaithful(p) && NoneRequired(p) && NulFree(args) && Behind(p, q, s)
    ensures Scan(p, args, s).Some? ==> Scan(p, args, s).value.events != q + Doc(p, args).events
    decreases |args|
  {
    hide TableFaithful, NoneRequired, Group, Carry, Ends, Endings, Behind, NulEvent, KindOf, LongEvent, ShortBase;
    if args == [] || IsDashDash(args[0]) {
      assert q != [] by { BehindSome(p, q, s); }
    } else if IsShortOpt(args[0]) {
      NeverAtGroup(p, args, s, q);
    } else if IsOption(p, args[0]) {
      var event := ScanDocLong(p, args, s);
      var rest := Doc(p, args[1..]).events;
      if Scan(p, args, s).Some? && Scan(p, args, s).value.events == q + Doc(p, args).events {
        assert q + ([event] + rest) == (q + [event]) + rest;
        Align(q + [event], rest, [event], Scan(p, args[1..], s).value.events);
        Turned(p, q, [event], s);
        NeverMadeUp(p, args[1..], s, (q + [event])[1..]);
      }
    } else {
      NeverMadeUp(p, args[1..], s, q);
    }
  }

  lemma BehindSome(p: Parser, q: seq<Event>, s: nat)
    requires Behind(p, q, s)
    ensures q != []
  {
  }

  // A group that ends no earlier than its last report is no longer than events with an ending.
  lemma ShorterThan(p: Parser, q: seq<Event>, x: seq<Event>, g: seq<Event>, y: seq<Event>)
    requires q + x == g + y && Endings(p, q) > 0 && forall i :: 0 <= i < |g| - 1 ==> !Ends(p, g[i])
    ensures |g| <= |q|
  {
    hide Ends, Endings;
    EndingAt(p, q);
    var i :| 0 <= i < |q| && Ends(p, q[i]);
    assert q[i] == (q + x)[i];
  }

  lemma {:induction false} NeverAtGroup(p: Parser, args: seq<string>, s: nat, q: seq<Event>)
    requires TableFaithful(p) && NoneRequired(p) && NulFree(args) && Behind(p, q, s)
    requires args != [] && IsShortOpt(args[0])
    ensures Scan(p, args, s).Some? ==> Scan(p, args, s).value.events != q + Doc(p, args).events
    decreases |args|, 0
  {
    hide TableFaithful, NoneRequired, Group, Carry, Ends, Endings, NulEvent, KindOf, Scan, Doc;
    assert args[0] in args;
    var letters, next := args[0][1..], Next(args, 0);
    var g, rest := Group(p, letters, next).0, Doc(p, args[1..]).events;
    ScanStale(p, args, s);
    DocShort(p, args);
    GroupReports(p, letters, next);
    if Scan(p, args, s).Some? && Scan(p, args, s).value.events == q + Doc(p, args).events {
      assert q + (g + rest) == (q + g) + rest;
      if s == 0 {
        assert letters[0..] == letters;
        var carry := Carry(p, letters, 0);
        Align(q + g, rest, g, Scan(p, args[1..], carry).value.events);
        Turned(p, q, g, 0);
        if carry > 0 {
          CarryEnds(p, letters, next, 0);
        }
        NeverMadeUp(p, args[1..], carry, (q + g)[|g|..]);
      } else if s < |letters| {
        var tail := letters[s..];
        var again, carry := Group(p, tail, next).0, Carry(p, tail, s);
        GroupReports(p, tail, next);
        ShorterThan(p, q, g + rest, again, Scan(p, args[1..], carry).value.events);
        Align(q, g + rest, again, Scan(p, args[1..], carry).value.events);
        var q' := q[|again|..] + g;
        EndingsJoin(p, q[|again|..], g);
        EndingAt(p, g);
        if carry > 0 {
          CarryOfFlags(p, tail, s);
        }
        assert q[|again|..] + (g + rest) == q' + rest;
        NeverMadeUp(p, args[1..], carry, q');
      } else {
        NulNotFirst(p, q, g + rest, Scan(p, args[1..], s).value.events);
      }
    }
  }

  lemma NulNotFirst(p: Parser, q: seq<Event>, x: seq<Event>, y: seq<Event>)
    requires q != [] && NulEvent(p) !in q
    ensures q + x != [NulEvent(p)] + y
  {
    assert (q + x)[0] == q[0] && ([NulEvent(p)] + y)[0] == NulEvent(p);
  }

  // A group that leaves a subopt behind ends with an error.
  lemma CarryEnds(p: Parser, letters: string, next: Option<string>, s: nat)
    requires NoneRequired(p) && letters != "" && '\0' !in letters && Carry(p, letters, s) > 0 && s == 0
    ensures var events := Group(p, letters, next).0;
            events != [] && Ends(p, events[|events| - 1])
  {
    hide Group, Carry;
    CarryMeaning(p, letters, s);
    GroupReports(p, letters, next);
  }

  // ----- the theorem -----

  /** One command line, options without required arguments: it is read as documented if and only
      if every short group that meets a stale subopt repeats its beginning from there on, up to
      an unknown letter. */
  lemma {:induction false} UnnoticedIsExact(p: Parser, args: seq<string>, s: nat)
    requires TableFaithful(p) && NoneRequired(p) && NulFree(args)
    ensures Scan(p, args, s) == Some(Doc(p, args)) <==> Unnoticed(p, args, s)
    decreases |args|
  {
    hide TableFaithful, NoneRequired, Group, Carry, KindOf, LongEvent, ShortBase, Repeats, NulEvent;
    if args == [] || IsDashDash(args[0]) {
    } else if IsShortOpt(args[0]) {
      ExactAtGroup(p, args, s);
    } else if IsOption(p, args[0]) {
      var event := ScanDocLong(p, args, s);
      UnnoticedIsExact(p, args[1..], s);
      JoinExact([event], args[..1], Scan(p, args[1..], s), Doc(p, args[1..]));
    } else {
      UnnoticedIsExact(p, args[1..], s);
      SkipExact(args[..1], Scan(p, args[1..], s), Doc(p, args[1..]));
    }
  }

  lemma JoinExact(events: seq<Event>, took: seq<string>, r: Option<Parse>, q: Parse)
    ensures JoinAll(events, took, r) == Some(Join(events, took, q)) <==> r == Some(q)
  {
    if r != Some(q) {
      JoinInjective(events, took, r, q);
    }
  }

  lemma SkipExact(plain: seq<string>, r: Option<Parse>, q: Parse)
    ensures Skip(plain, r) == Some(Parse(q.events, q.consumed, plain + q.skipped, q.rest)) <==> r == Some(q)
  {
    if r.Some? && plain + r.value.skipped == plain + q.skipped {
      assert r.value.skipped == (plain + r.value.skipped)[|plain|..] && q.skipped == (plain + q.skipped)[|plain|..];
    }
  }

  lemma {:induction false} ExactAtGroup(p: Parser, args: seq<string>, s: nat)
    requires TableFaithful(p) && NoneRequired(p) && NulFree(args) && args != [] && IsShortOpt(args[0])
    ensures Scan(p, args, s) == Some(Doc(p, args)) <==> Unnoticed(p, args, s)
    decreases |args|, 0
  {
    hide TableFaithful, NoneRequired, Group, Carry, KindOf, Scan, Doc, NulEvent, Ends;
    assert args[0] in args;
    var letters, next := args[0][1..], Next(args, 0);
    var g := Group(p, letters, next).0;
    ScanStale(p, args, s);
    DocShort(p, args);
    GroupReports(p, letters, next);
    if s >= |letters| {
      NoSuchRepeat(p, letters, s);
      NulApart(p, g, args[..1], Scan(p, args[1..], s), Doc(p, args[1..]));
    } else {
      assert s == 0 ==> letters[s..] == letters;
      var tail := letters[s..];
      var again, carry := Group(p, tail, next).0, Carry(p, tail, s);
      UnnoticedIsExact(p, args[1..], carry);
      JoinExact(g, args[..1], Scan(p, args[1..], carry), Doc(p, args[1..]));
      if s > 0 {
        SameReports(p, letters, next, s);
        GroupReports(p, tail, next);
        if again != g {
          OtherReports(p, args, s);
        }
      }
    }
  }

  lemma NulApart(p: Parser, g: seq<Event>, took: seq<string>, r: Option<Parse>, q: Parse)
    requires g != [] && NulEvent(p) !in g
    ensures JoinAll([NulEvent(p)], took, r) != Some(Join(g, took, q))
  {
    if r.Some? {
      NulNotFirst(p, g, q.events, r.value.events);
    }
  }

  lemma NoSuchRepeat(p: Parser, letters: string, s: nat)
    requires s >= |letters|
    ensures !Repeats(p, letters, s)
  {
  }

  /** Where a group reports something else, what follows never makes up for it. */
  lemma {:induction false} OtherReports(p: Parser, args: seq<string>, s: nat)
    requires TableFaithful(p) && NoneRequired(p) && NulFree(args) && args != [] && IsShortOpt(args[0])
    requires 0 < s < |args[0][1..]|
    requires Group(p, args[0][1..], Next(args, 0)).0 != Group(p, args[0][1..][s..], Next(args, 0)).0
    ensures Scan(p, args, s) != Some(Doc(p, args))
  {
    hide TableFaithful, NoneRequired, Group, Carry, KindOf, Scan, Doc, NulEvent, Ends, Endings;
    assert args[0] in args;
    var letters, next := args[0][1..], Next(args, 0);
    var tail := letters[s..];
    var g, again, carry := Group(p, letters, next).0, Group(p, tail, next).0, Carry(p, tail, s);
    ScanStale(p, args, s);
    DocShort(p, args);
    GroupReports(p, letters, next);
    GroupReports(p, tail, next);
    if Scan(p, args, s) == Some(Doc(p, args)) {
      var x, y := Doc(p, args[1..]).events, Scan(p, args[1..], carry).value.events;
      if |again| > |g| {
        Align(again, y, g, x);
        assert false;
      } else {
        Align(g, x, again, y);
        var q := g[|again|..];
        assert forall e :: e in q ==> e in g;
        if carry > 0 {
          StaleEnds(p, letters, next, s);
          assert false;
        }
        NeverMadeUp(p, args[1..], carry, q);
      }
    }
  }

  // What a stale subopt reports when it stays stale ends with an error.
  lemma StaleEnds(p: Parser, letters: string, next: Option<string>, s: nat)
    requires NoneRequired(p) && 0 < s < |letters| && '\0' !in letters && Carry(p, letters[s..], s) > 0
    ensures var events := Group(p, letters[s..], next).0;
            events != [] && Ends(p, events[|events| - 1])
  {
    hide Group, Carry;
    CarryMeaning(p, letters[s..], s);
    GroupReports(p, letters[s..], next);
  }
}
