/**
 A whole run of the option parser, call by call with argv permuted in between, is one
 left-to-right scan of the original arguments.
 */
module OptparseScan {
  import opened Wrappers
  import opened OptparseSpec

  /** The result of parsing some arguments: the events, then the arguments that were
      consumed, the non-options that were skipped, and what follows "--", each in order. */
  datatype Parse = Parse(events: seq<Event>, consumed: seq<string>, skipped: seq<string>, rest: seq<string>)

  // ----- the run: calls until -1 -----

  datatype Outcome = Outcome(events: seq<Event>, final: State)

  /** Repeated calls with permutation on; None if a call would read past the end of an
      argument. */
  function Run(p: Parser, st: State): Option<Outcome>
    requires st.optind <= |st.argv|
    decreases |st.argv| - st.optind, Pending(p, st)
  {
    if !Ready(p, true, st) then None
    else
      var (event, st') := Step(p, true, st);
      if event.None? then Some(Outcome([], st'))
      else
        StepProgress(p, true, st);
        match Run(p, st')
        case None => None
        case Some(o) => Some(Outcome([event.value] + o.events, o.final))
  }

  // ----- the scan: one pass, nothing moved -----

  function Prepend(event: Event, took: seq<string>, r: Option<Parse>): Option<Parse>
  {
    match r
    case None => None
    case Some(q) => Some(Parse([event] + q.events, took + q.consumed, q.skipped, q.rest))
  }

  function Skip(args: seq<string>, r: Option<Parse>): Option<Parse>
  {
    match r
    case None => None
    case Some(q) => Some(Parse(q.events, q.consumed, args + q.skipped, q.rest))
  }

  function Unread(args: seq<string>, subopt: nat): nat
  {
    if args != [] && subopt < |args[0]| then |args[0]| - subopt else 0
  }

  /** Reads the arguments from left to right. `subopt` carries over from one group to the
      next as in the source: an invalid letter does not reset it. */
  function Scan(p: Parser, args: seq<string>, subopt: nat): Option<Parse>
    decreases |args|, Unread(args, subopt)
  {
    if args == [] then Some(Parse([], [], [], []))
    else if IsDashDash(args[0]) then Some(Parse([], args[..1], [], args[1..]))
    else if !IsOption(p, args[0]) then Skip(args[..1], Scan(p, args[1..], subopt))
    else if IsShortOpt(args[0]) && subopt + 1 > |args[0]| then None
    else
      var base := OptionBase(p, args[0], Next(args, 0), subopt);
      Prepend(base.event, args[..base.took], Scan(p, args[base.took..], base.subopt))
  }

  // ----- the run is the scan -----

  lemma SkipTwice(a: seq<string>, b: seq<string>, r: Option<Parse>)
    ensures Skip([], r) == r && Skip(a, Skip(b, r)) == Skip(a + b, r)
  {
    if r.Some? {
      assert [] + r.value.skipped == r.value.skipped;
      assert a + (b + r.value.skipped) == a + b + r.value.skipped;
    }
  }

  // Skipping several non-options at once.
  lemma {:induction false} ScanSkips(p: Parser, args: seq<string>, k: nat, subopt: nat)
    requires k <= |args|
    requires forall i :: 0 <= i < k ==> !IsOption(p, args[i]) && !IsDashDash(args[i])
    ensures Scan(p, args, subopt) == Skip(args[..k], Scan(p, args[k..], subopt))
    decreases k
  {
    hide IsOption, IsDashDash, OptionBase, Skip, Prepend;
    if k == 0 {
      SkipTwice([], [], Scan(p, args, subopt));
      assert args[0..] == args;
    } else {
      SkipTwice(args[..1], args[1..k], Scan(p, args[k..], subopt));
      ScanSkips(p, args[1..], k - 1, subopt);
      assert args[1..][k - 1..] == args[k..] && args[1..][..k - 1] == args[1..k];
      assert args[..1] + args[1..k] == args[..k];
    }
  }

  // The run's answer, rebuilt from a scan of the unparsed arguments.
  function FromScan(done: seq<string>, r: Option<Parse>): Option<(seq<Event>, seq<string>, nat)>
  {
    match r
    case None => None
    case Some(q) => Some((q.events, done + q.consumed + q.skipped + q.rest, |done| + |q.consumed|))
  }

  function OfRun(r: Option<Outcome>): Option<(seq<Event>, seq<string>, nat)>
  {
    match r
    case None => None
    case Some(o) => Some((o.events, o.final.argv, o.final.optind))
  }

  // Non-options and a consumed option commute.
  lemma FromScanStep(done: seq<string>, took: seq<string>, plain: seq<string>, event: Event, r: Option<Parse>)
    ensures FromScan(done, Skip(plain, Prepend(event, took, r)))
         == match FromScan(done + took, Skip(plain, r))
            case None => None
            case Some(t) => Some(([event] + t.0, t.1, t.2))
  {
    if r.Some? {
      var q := r.value;
      Reassociate(done, took, q.consumed, plain + q.skipped, q.rest);
    }
  }

  lemma Reassociate(a: seq<string>, b: seq<string>, c: seq<string>, d: seq<string>, e: seq<string>)
    ensures a + (b + c) + d + e == a + b + c + d + e
  {
  }

  // The arguments after a call that consumed d of them at j.
  lemma RotatedParts(argv: seq<string>, i: nat, j: nat, d: nat)
    requires i <= j && j + d <= |argv|
    ensures var r := Rotate(argv, i, j, d);
            && |r| == |argv|
            && r[..i + d] == argv[..i] + argv[j..j + d]
            && r[i + d..] == argv[i..j] + argv[j + d..]
  {
  }

  lemma ScanAtOption(p: Parser, argv: seq<string>, j: nat, subopt: nat)
    requires j < |argv| && IsOption(p, argv[j]) && !IsDashDash(argv[j])
    requires IsShortOpt(argv[j]) ==> subopt + 1 <= |argv[j]|
    ensures var base := OptionBase(p, argv[j], Next(argv, j), subopt);
            && j + base.took <= |argv|
            && Scan(p, argv[j..], subopt)
            == Prepend(base.event, argv[j..j + base.took], Scan(p, argv[j + base.took..], base.subopt))
  {
    var base := OptionBase(p, argv[j], Next(argv, j), subopt);
    var tail := argv[j..];
    assert tail[0] == argv[j] && Next(tail, 0) == Next(argv, j);
    assert tail[..base.took] == argv[j..j + base.took];
    assert tail[base.took..] == argv[j + base.took..];
    hide OptionBase;
  }

  lemma RunContinues(p: Parser, st: State, j: nat)
    requires st.optind <= |st.argv| && j == Front(p, st.argv, st.optind) < |st.argv|
    requires IsOption(p, st.argv[j]) && Ready(p, true, st)
    requires var st' := Step(p, true, st).1;
             OfRun(Run(p, st')) == FromScan(st'.argv[..st'.optind], Scan(p, st'.argv[st'.optind..], st'.subopt))
    ensures OfRun(Run(p, st))
         == FromScan(st.argv[..st.optind], Skip(st.argv[st.optind..j], Scan(p, st.argv[j..], st.subopt)))
  {
    hide Run, Ready, Step, OptionBase, Rotate, Skip, Prepend, FromScan, OfRun, Scan;
    var i := st.optind;
    var done, plain := st.argv[..i], st.argv[i..j];
    var base := OptionBase(p, st.argv[j], Next(st.argv, j), st.subopt);
    var d := base.took;
    FrontStep(p, st, j);
    ScanAtOption(p, st.argv, j, st.subopt);
    RotatedParts(st.argv, i, j, d);
    var rest := st.argv[j + d..];
    assert (plain + rest)[..|plain|] == plain && (plain + rest)[|plain|..] == rest;
    ScanSkips(p, plain + rest, |plain|, base.subopt);
    FromScanStep(done, st.argv[j..j + d], plain, base.event, Scan(p, rest, base.subopt));
  }

  lemma FrontStep(p: Parser, st: State, j: nat)
    requires st.optind <= |st.argv| && j == Front(p, st.argv, st.optind) < |st.argv|
    requires IsOption(p, st.argv[j]) && Ready(p, true, st)
    ensures IsShortOpt(st.argv[j]) ==> st.subopt + 1 <= |st.argv[j]|
    ensures var base := OptionBase(p, st.argv[j], Next(st.argv, j), st.subopt);
            && j + base.took <= |st.argv|
            && Step(p, true, st).1 == State(Rotate(st.argv, st.optind, j, base.took), st.optind + base.took, base.subopt)
            && OfRun(Run(p, st)) == match OfRun(Run(p, Step(p, true, st).1))
                                    case None => None
                                    case Some(t) => Some(([base.event] + t.0, t.1, t.2))
  {
  }

  // The last call: it returns -1 at the end of the arguments or on "--".
  lemma RunEnds(p: Parser, st: State, j: nat)
    requires st.optind <= |st.argv| && j == Front(p, st.argv, st.optind)
    requires j == |st.argv| || IsDashDash(st.argv[j])
    ensures OfRun(Run(p, st))
         == FromScan(st.argv[..st.optind], Skip(st.argv[st.optind..j], Scan(p, st.argv[j..], st.subopt)))
  {
    var i := st.optind;
    var done, plain := st.argv[..i], st.argv[i..j];
    var d := if j == |st.argv| then 0 else 1;
    RotatedParts(st.argv, i, j, d);
    assert done + st.argv[j..j + d] + (plain + []) + st.argv[j + d..] == Rotate(st.argv, i, j, d);
    if j < |st.argv| {
      assert st.argv[j..][..1] == st.argv[j..j + 1] && st.argv[j..][1..] == st.argv[j + 1..];
    }
  }

  /** For every argument vector and position: the run reads outside an argument exactly when
      the scan does; otherwise it returns the scan's events, and leaves argv as a stable
      partition into consumed arguments, skipped non-options and the rest after "--", with
      optind at the skipped ones. */
  lemma {:induction false} RunIsScan(p: Parser, st: State)
    requires st.optind <= |st.argv|
    ensures OfRun(Run(p, st)) == FromScan(st.argv[..st.optind], Scan(p, st.argv[st.optind..], st.subopt))
    decreases |st.argv| - st.optind, Pending(p, st)
  {
    var i, j := st.optind, Front(p, st.argv, st.optind);
    var args := st.argv[i..];
    assert args[..j - i] == st.argv[i..j] && args[j - i..] == st.argv[j..];
    ScanSkips(p, args, j - i, st.subopt);
    if j == |st.argv| || IsDashDash(st.argv[j]) {
      RunEnds(p, st, j);
    } else if Ready(p, true, st) {
      StepProgress(p, true, st);
      RunIsScan(p, Step(p, true, st).1);
      RunContinues(p, st, j);
    }
  }
}
