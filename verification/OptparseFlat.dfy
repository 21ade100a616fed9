/**
 A run of the option parser with permutation off: argv stays as it is, and the run is the scan
 up to the first non-option.
 */
module OptparseFlat {
  import opened Wrappers
  import opened OptparseSpec
  import opened OptparseScan

  /** Repeated calls with permutation off; None if a call would read past the end of an argument. */
  function FlatRun(p: Parser, st: State): Option<Outcome>
    requires st.optind <= |st.argv|
    decreases |st.argv| - st.optind, Pending(p, st)
  {
    if !Ready(p, false, st) then None
    else
      var (event, st') := Step(p, false, st);
      if event.None? then Some(Outcome([], st'))
      else
        StepProgress(p, false, st);
        match FlatRun(p, st')
        case None => None
        case Some(o) => Some(Outcome([event.value] + o.events, o.final))
  }

  /** The scan of the arguments that ends at the first non-option, which it leaves with the rest. */
  function FlatScan(p: Parser, args: seq<string>, subopt: nat): Option<Parse>
    decreases |args|, Unread(args, subopt)
  {
    if args == [] then Some(Parse([], [], [], []))
    else if IsDashDash(args[0]) then Some(Parse([], args[..1], [], args[1..]))
    else if !IsOption(p, args[0]) then Some(Parse([], [], [], args))
    else if IsShortOpt(args[0]) && subopt + 1 > |args[0]| then None
    else
      var base := OptionBase(p, args[0], Next(args, 0), subopt);
      Prepend(base.event, args[..base.took], FlatScan(p, args[base.took..], base.subopt))
  }

  // Its answer: argv as it was, optind behind what it consumed.
  function InPlace(st: State, r: Option<Parse>): Option<(seq<Event>, seq<string>, nat)>
    requires st.optind <= |st.argv|
  {
    match r
    case None => None
    case Some(q) => Some((q.events, st.argv, st.optind + |q.consumed|))
  }

  lemma FlatAtOption(p: Parser, argv: seq<string>, j: nat, subopt: nat)
    requires j < |argv| && IsOption(p, argv[j]) && !IsDashDash(argv[j])
    requires IsShortOpt(argv[j]) ==> subopt + 1 <= |argv[j]|
    ensures var base := OptionBase(p, argv[j], Next(argv, j), subopt);
            && j + base.took <= |argv|
            && FlatScan(p, argv[j..], subopt)
            == Prepend(base.event, argv[j..j + base.took], FlatScan(p, argv[j + base.took..], base.subopt))
  {
    var base := OptionBase(p, argv[j], Next(argv, j), subopt);
    var tail := argv[j..];
    assert tail[0] == argv[j] && Next(tail, 0) == Next(argv, j);
    assert tail[..base.took] == argv[j..j + base.took];
    assert tail[base.took..] == argv[j + base.took..];
    hide OptionBase;
  }

  lemma FlatRunStep(p: Parser, st: State)
    requires st.optind < |st.argv| && Ready(p, false, st)
    requires IsOption(p, st.argv[st.optind]) && !IsDashDash(st.argv[st.optind])
    ensures IsShortOpt(st.argv[st.optind]) ==> st.subopt + 1 <= |st.argv[st.optind]|
    ensures var base := OptionBase(p, st.argv[st.optind], Next(st.argv, st.optind), st.subopt);
            var st' := State(st.argv, st.optind + base.took, base.subopt);
            && st'.optind <= |st.argv| && Step(p, false, st) == (Some(base.event), st')
            && OfRun(FlatRun(p, st)) == match OfRun(FlatRun(p, st'))
                                        case None => None
                                        case Some(t) => Some(([base.event] + t.0, t.1, t.2))
  {
    hide OptionBase, Rotate, At;
    AtFront(p, false, st);
  }

  lemma InPlaceStep(st: State, took: seq<string>, event: Event, subopt: nat, r: Option<Parse>)
    requires st.optind + |took| <= |st.argv|
    ensures InPlace(st, Prepend(event, took, r))
         == match InPlace(State(st.argv, st.optind + |took|, subopt), r)
            case None => None
            case Some(t) => Some(([event] + t.0, t.1, t.2))
  {
  }

  // The last call: a non-option, "--" or the end of the arguments.
  lemma FlatEnds(p: Parser, st: State)
    requires st.optind <= |st.argv|
    requires st.optind == |st.argv| || !IsOption(p, st.argv[st.optind]) || IsDashDash(st.argv[st.optind])
    ensures OfRun(FlatRun(p, st)) == InPlace(st, FlatScan(p, st.argv[st.optind..], st.subopt))
  {
    hide OptionBase, Rotate;
    Unmoved(st.argv, st.optind, 0);
    if st.optind < |st.argv| && IsDashDash(st.argv[st.optind]) {
      Unmoved(st.argv, st.optind, 1);
    }
  }

  /** For every argument vector and position: with permutation off the run reports the events of
      the scan up to the first non-option, never changes argv, and leaves optind at that argument
      (or behind "--", or at the end). */
  lemma {:induction false} FlatRunIsScan(p: Parser, st: State)
    requires st.optind <= |st.argv|
    ensures OfRun(FlatRun(p, st)) == InPlace(st, FlatScan(p, st.argv[st.optind..], st.subopt))
    decreases |st.argv| - st.optind, Pending(p, st)
  {
    hide OptionBase, Step, FlatScan, InPlace, Prepend, OfRun, Pending, IsOption, IsDashDash;
    var i := st.optind;
    if i == |st.argv| || !IsOption(p, st.argv[i]) || IsDashDash(st.argv[i]) {
      FlatEnds(p, st);
    } else if Ready(p, false, st) {
      var base := OptionBase(p, st.argv[i], Next(st.argv, i), st.subopt);
      FlatRunStep(p, st);
      StepProgress(p, false, st);
      FlatRunIsScan(p, Step(p, false, st).1);
      FlatAtOption(p, st.argv, i, st.subopt);
      InPlaceStep(st, st.argv[i..i + base.took], base.event, base.subopt, FlatScan(p, st.argv[i + base.took..], base.subopt));
    } else {
      FlatStuck(p, st);
    }
  }

  lemma FlatStuck(p: Parser, st: State)
    requires st.optind <= |st.argv| && !Ready(p, false, st)
    ensures OfRun(FlatRun(p, st)) == None == InPlace(st, FlatScan(p, st.argv[st.optind..], st.subopt))
  {
  }

  // What both begin with.
  ghost predicate Begins(flat: Option<Parse>, full: Option<Parse>, args: seq<string>)
  {
    flat.Some? && full.Some? ==>
      && flat.value.events <= full.value.events && flat.value.consumed <= full.value.consumed
      && flat.value.skipped == [] && args == flat.value.consumed + flat.value.rest
  }

  lemma BeginsStep(event: Event, took: seq<string>, flat: Option<Parse>, full: Option<Parse>, args: seq<string>)
    requires Begins(flat, full, args)
    ensures Begins(Prepend(event, took, flat), Prepend(event, took, full), took + args)
  {
  }

  /** And those are the first events of the run with permutation on, of the same arguments. */
  lemma {:induction false} FlatIsBeginning(p: Parser, args: seq<string>, subopt: nat)
    ensures Begins(FlatScan(p, args, subopt), Scan(p, args, subopt), args)
    decreases |args|, Unread(args, subopt)
  {
    hide OptionBase, Prepend;
    if args != [] && IsOption(p, args[0]) && !IsDashDash(args[0]) && !(IsShortOpt(args[0]) && subopt + 1 > |args[0]|) {
      hide Begins, FlatScan, Scan, IsOption, IsDashDash;
      var base := OptionBase(p, args[0], Next(args, 0), subopt);
      assert args[0..] == args;
      FlatAtOption(p, args, 0, subopt);
      ScanAtOption(p, args, 0, subopt);
      assert args[0..base.took] == args[..base.took];
      if base.took == 0 {
        BaseAdvances(p, args[0], Next(args, 0), subopt);
      }
      FlatIsBeginning(p, args[base.took..], base.subopt);
      BeginsStep(base.event, args[..base.took], FlatScan(p, args[base.took..], base.subopt),
                 Scan(p, args[base.took..], base.subopt), args[base.took..]);
      assert args == args[..base.took] + args[base.took..];
    }
  }
}
