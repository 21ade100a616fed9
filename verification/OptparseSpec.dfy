/**
 What one call of the option parser does, as a function of the argument vector and the
 parser's position in it. Covers the short parser and the long one.
 */
module OptparseSpec {
  import opened Wrappers

  // ----- option descriptions -----

  // -1 for no such option, else the source's enumeration.
  type ArgType = t: int | -1 <= t <= 2
  const OPTPARSE_NONE: ArgType := 0
  const OPTPARSE_REQUIRED: ArgType := 1
  const OPTPARSE_OPTIONAL: ArgType := 2

  type DeclaredType = t: ArgType | 0 <= t
  datatype LongOpt = LongOpt(longname: Option<string>, shortname: int, argtype: DeclaredType)

  // An entry with neither name ends the table; a table is the entries before it.
  type Entry = e: LongOpt | e.longname.Some? || e.shortname != 0 witness LongOpt(Some(""), 0, 0)

  // The kind of the first occurrence of c in a getopt-style option string.
  function ArgTypeOf(optstring: string, c: char): ArgType
  {
    if c == ':' || c == '\0' || optstring == "" || optstring[0] == '\0' then -1
    else if optstring[0] == c then Colons(optstring[1..])
    else ArgTypeOf(optstring[1..], c)
  }

  function Colons(s: string): ArgType
  {
    if |s| == 0 || s[0] != ':' then 0 else if |s| > 1 && s[1] == ':' then 2 else 1
  }

  // The source stores the int in a char.
  function ToChar(shortname: int): char
  {
    (shortname % 256) as char
  }

  // The option string that stands for the short names of a table.
  function FromLong(table: seq<Entry>): string
  {
    if table == [] then "" else EntryText(table[0]) + FromLong(table[1..])
  }

  function EntryText(e: LongOpt): string
  {
    if e.shortname != 0 then [ToChar(e.shortname)] + Repeat(':', e.argtype) else ""
  }

  function Repeat(c: char, n: int): string
  {
    if n <= 0 then "" else [c] + Repeat(c, n - 1)
  }

  // The part of a long option before and after the first '='.
  function NamePart(s: string): string
  {
    if s == "" || s[0] == '=' then "" else [s[0]] + NamePart(s[1..])
  }

  function ValuePart(s: string): Option<string>
  {
    if s == "" then None else if s[0] == '=' then Some(s[1..]) else ValuePart(s[1..])
  }

  // The first entry with the given long name, or the table's length.
  function FindLong(table: seq<Entry>, name: string): nat
  {
    if table == [] || table[0].longname == Some(name) then 0 else 1 + FindLong(table[1..], name)
  }

  lemma FindLongBound(table: seq<Entry>, name: string)
    ensures FindLong(table, name) <= |table|
  {
  }

  // The last entry with the given short name, or -1.
  function LastShort(table: seq<Entry>, shortname: int): int
  {
    if table == [] then -1
    else if table[|table| - 1].shortname == shortname then |table| - 1
    else LastShort(table[..|table| - 1], shortname)
  }

  // ----- classifying arguments -----

  predicate IsDashDash(a: string)
  {
    a == "--"
  }

  predicate IsShortOpt(a: string)
  {
    |a| > 1 && a[0] == '-' && a[1] != '-'
  }

  predicate IsLongOpt(a: string)
  {
    |a| > 2 && a[0] == '-' && a[1] == '-'
  }

  datatype Parser = Short(optstring: string) | Long(table: seq<Entry>)

  predicate IsOption(p: Parser, a: string)
  {
    IsShortOpt(a) || (p.Long? && IsLongOpt(a))
  }

  // ----- one option -----

  datatype Message = Message(text: string, data: string)

  const INVALID := "invalid option"
  const MISSING := "option requires an argument"
  const TOOMANY := "option takes no arguments"

  /** What a call reports: the returned value, optopt, optarg, the table index when the
      call sets one, and the error message if any. */
  datatype Event = Event(result: int, optopt: int, optarg: Option<string>, longindex: Option<int>,
                         message: Option<Message>)

  function Good(c: int, optarg: Option<string>, longindex: Option<int>): Event
  {
    Event(c, c, optarg, longindex, None)
  }

  function Bad(optopt: int, longindex: Option<int>, text: string, data: string): Event
  {
    Event('?' as int, optopt, None, longindex, Some(Message(text, data)))
  }

  /** An option's event, how many arguments it consumes, and the new subopt. */
  datatype Base = Base(event: Event, took: nat, subopt: nat)

  // Letter `subopt` of a group, or the terminating NUL.
  function Letter(a: string, subopt: nat): char
  {
    if subopt + 1 < |a| then a[subopt + 1] else '\0'
  }

  function AfterLetter(a: string, subopt: nat): string
  {
    if subopt + 2 <= |a| then a[subopt + 2..] else ""
  }

  function LetterText(c: char): string
  {
    if c == '\0' then "" else [c]
  }

  function ShortBase(optstring: string, a: string, next: Option<string>, subopt: nat, index: Option<int>): Base
  {
    var c, rest := Letter(a, subopt), AfterLetter(a, subopt);
    var t := ArgTypeOf(optstring, c);
    if t == -1 then Base(Bad(c as int, index, INVALID, LetterText(c)), 1, subopt)
    else if t == OPTPARSE_NONE then
      if rest != "" then Base(Good(c as int, None, index), 0, subopt + 1) else Base(Good(c as int, None, index), 1, 0)
    else if rest != "" then Base(Good(c as int, Some(rest), index), 1, 0)
    else if t == OPTPARSE_OPTIONAL then Base(Good(c as int, None, index), 1, 0)
    else if next.Some? then Base(Good(c as int, next, index), 2, 0)
    else Base(Bad(c as int, index, MISSING, LetterText(c)), 1, 0)
  }

  function LongEvent(table: seq<Entry>, body: string, next: Option<string>): (Event, nat)
  {
    var i := FindLong(table, NamePart(body));
    FindLongBound(table, NamePart(body));
    if i == |table| then (Bad(0, None, INVALID, body), 1)
    else
      var e, value := table[i], ValuePart(body);
      if e.argtype == OPTPARSE_NONE && value.Some? then (Bad(e.shortname, Some(i), TOOMANY, NamePart(body)), 1)
      else if value.Some? then (Good(e.shortname, value, Some(i)), 1)
      else if e.argtype != OPTPARSE_REQUIRED then (Good(e.shortname, None, Some(i)), 1)
      else if next.Some? then (Good(e.shortname, next, Some(i)), 2)
      else (Bad(e.shortname, Some(i), MISSING, NamePart(body)), 1)
  }

  function OptionBase(p: Parser, a: string, next: Option<string>, subopt: nat): Base
    requires IsOption(p, a)
  {
    match p
    case Short(optstring) => ShortBase(optstring, a, next, subopt, None)
    case Long(table) =>
      if IsShortOpt(a) then
        ShortBase(FromLong(table), a, next, subopt, Some(LastShort(table, Letter(a, subopt) as int)))
      else
        var (event, took) := LongEvent(table, a[2..], next);
        Base(event, took, subopt)
  }

  // ----- one call -----

  /** The parser's position: argv[optind..] is still to be parsed, and the first option
      there starts at letter `subopt`. */
  datatype State = State(argv: seq<string>, optind: nat, subopt: nat)

  // The first argument from i on that is not a plain non-option.
  function Front(p: Parser, argv: seq<string>, i: nat): (j: nat)
    requires i <= |argv|
    ensures i <= j <= |argv|
    ensures forall k :: i <= k < j ==> !IsOption(p, argv[k]) && !IsDashDash(argv[k])
    ensures j < |argv| ==> IsOption(p, argv[j]) || IsDashDash(argv[j])
    decreases |argv| - i
  {
    if i == |argv| || IsOption(p, argv[i]) || IsDashDash(argv[i]) then i else Front(p, argv, i + 1)
  }

  function Next(argv: seq<string>, i: nat): Option<string>
  {
    if i + 1 < |argv| then Some(argv[i + 1]) else None
  }

  // The d arguments at j move in front of the non-options at i..j.
  function Rotate(argv: seq<string>, i: nat, j: nat, d: nat): seq<string>
    requires i <= j && j + d <= |argv|
  {
    argv[..i] + argv[j..j + d] + argv[i..j] + argv[j + d..]
  }

  /** The letter the call looks at is inside its argument, its NUL included. */
  predicate Ready(p: Parser, permute: bool, st: State)
    requires st.optind <= |st.argv|
  {
    var j := if permute then Front(p, st.argv, st.optind) else st.optind;
    j < |st.argv| && IsShortOpt(st.argv[j]) ==> st.subopt + 1 <= |st.argv[j]|
  }

  // What a call at argument j does there; None stands for the returned -1.
  function At(p: Parser, st: State, j: nat): (Option<Event>, nat, nat)
    requires j <= |st.argv|
  {
    if j == |st.argv| then (None, 0, st.subopt)
    else if IsDashDash(st.argv[j]) then (None, 1, st.subopt)
    else if IsOption(p, st.argv[j]) then
      var base := OptionBase(p, st.argv[j], Next(st.argv, j), st.subopt);
      (Some(base.event), base.took, base.subopt)
    else (None, 0, st.subopt)
  }

  lemma TookFits(p: Parser, st: State, j: nat)
    requires j <= |st.argv|
    ensures j + At(p, st, j).1 <= |st.argv|
  {
  }

  /** One call. Without permutation a non-option ends the parse where it stands. */
  function Step(p: Parser, permute: bool, st: State): (r: (Option<Event>, State))
    requires st.optind <= |st.argv|
    ensures r.1.optind <= |r.1.argv| == |st.argv|
  {
    var j := if permute then Front(p, st.argv, st.optind) else st.optind;
    var (event, took, subopt) := At(p, st, j);
    TookFits(p, st, j);
    (event, State(Rotate(st.argv, st.optind, j, took), st.optind + took, subopt))
  }

  // ----- what every call keeps -----

  /** Every call, whatever it returns, permutes argv: it leaves what is already parsed, moves
      the d arguments it consumes in front of the non-options it skipped, and keeps the order
      of both and of what follows. */
  lemma StepPermutes(p: Parser, permute: bool, st: State) returns (j: nat, d: nat)
    requires st.optind <= |st.argv|
    ensures st.optind <= j && j + d <= |st.argv| && d <= 2
    ensures forall k :: st.optind <= k < j ==> !IsOption(p, st.argv[k]) && !IsDashDash(st.argv[k])
    ensures var st' := Step(p, permute, st).1;
            && st'.optind == st.optind + d && |st'.argv| == |st.argv|
            && multiset(st'.argv) == multiset(st.argv)
            && st'.argv[..st.optind] == st.argv[..st.optind]
            && st'.argv[st.optind..st'.optind] == st.argv[j..j + d]
            && st'.argv[st'.optind..] == st.argv[st.optind..j] + st.argv[j + d..]
  {
    hide Rotate, OptionBase;
    j := if permute then Front(p, st.argv, st.optind) else st.optind;
    d := At(p, st, j).1;
    TookFits(p, st, j);
    TookFew(p, st, j);
    RotatePermutes(st.argv, st.optind, j, d);
  }

  lemma TookFew(p: Parser, st: State, j: nat)
    requires j <= |st.argv|
    ensures At(p, st, j).1 <= 2
  {
  }

  lemma RotatePermutes(argv: seq<string>, i: nat, j: nat, d: nat)
    requires i <= j && j + d <= |argv|
    ensures var r := Rotate(argv, i, j, d);
            && |r| == |argv| && r[..i] == argv[..i]
            && r[i..i + d] == argv[j..j + d]
            && r[i + d..] == argv[i..j] + argv[j + d..]
            && multiset(r) == multiset(argv)
  {
    assert argv == argv[..i] + argv[i..j] + argv[j..j + d] + argv[j + d..];
  }

  lemma Unrotated(argv: seq<string>, i: nat, j: nat)
    requires i <= j <= |argv|
    ensures Rotate(argv, i, j, 0) == argv
  {
  }

  lemma Unmoved(argv: seq<string>, i: nat, d: nat)
    requires i + d <= |argv|
    ensures Rotate(argv, i, i, d) == argv
  {
  }

  // An option where the call starts: nothing is skipped.
  lemma AtFront(p: Parser, permute: bool, st: State)
    requires st.optind < |st.argv| && IsOption(p, st.argv[st.optind]) && !IsDashDash(st.argv[st.optind])
    ensures var base := OptionBase(p, st.argv[st.optind], Next(st.argv, st.optind), st.subopt);
            Step(p, permute, st) == (Some(base.event), State(st.argv, st.optind + base.took, base.subopt))
  {
    hide OptionBase;
    TookFits(p, st, st.optind);
    Unmoved(st.argv, st.optind, At(p, st, st.optind).1);
  }

  // An option that consumes no argument moves on to its next letter.
  lemma BaseAdvances(p: Parser, a: string, next: Option<string>, subopt: nat)
    requires IsOption(p, a) && OptionBase(p, a, next, subopt).took == 0
    ensures OptionBase(p, a, next, subopt).subopt == subopt + 1 && subopt + 2 < |a|
  {
  }

  /** Calls terminate: one that returns an option either consumes an argument or advances
      inside the group it stopped at, even though optind may stay where it was. */
  lemma StepProgress(p: Parser, permute: bool, st: State)
    requires st.optind <= |st.argv| && Step(p, permute, st).0.Some?
    ensures var st' := Step(p, permute, st).1;
            || st'.optind > st.optind
            || (st'.argv == st.argv && st'.optind == st.optind && Pending(p, st') < Pending(p, st))
  {
    hide OptionBase, Rotate;
    var j := Front(p, st.argv, st.optind);
    assert permute || j == st.optind;
    if At(p, st, j).1 == 0 {
      BaseAdvances(p, st.argv[j], Next(st.argv, j), st.subopt);
      Unrotated(st.argv, st.optind, j);
    }
  }

  // Characters of the next option not yet looked at.
  function Pending(p: Parser, st: State): nat
    requires st.optind <= |st.argv|
  {
    var j := Front(p, st.argv, st.optind);
    if j < |st.argv| && st.subopt < |st.argv[j]| then |st.argv[j]| - st.subopt else 0
  }
}
