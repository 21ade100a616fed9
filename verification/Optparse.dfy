/**
 The option parser in place: a recursive parser that rotates argv as its calls return,
 its long-option variant, and the client loop around them.
 */
module Optparse {
  import opened Wrappers
  import opened OptparseSpec
  import opened OptparseScan
  import opened OptparseDoc

  // ----- error messages -----

  const ERRMSG_SIZE: nat := 64
  const SEPARATOR := " -- '"

  // What fits of the data, leaving room for the quote and the terminator.
  function Shortened(m: Message): string
    requires |m.text| + |SEPARATOR| <= ERRMSG_SIZE - 2
  {
    var room := ERRMSG_SIZE - 2 - |m.text| - |SEPARATOR|;
    if |m.data| > room then m.data[..room] else m.data
  }

  function ErrorText(m: Message): string
    requires |m.text| + |SEPARATOR| <= ERRMSG_SIZE - 2
  {
    m.text + SEPARATOR + Shortened(m) + "'"
  }

  /** A message is the text, two dashes, and the data in quotes, cut to what leaves 63 characters. */
  lemma ErrorRule(m: Message)
    requires |m.text| <= 57
    ensures |m.data| <= 57 - |m.text| ==> ErrorText(m) == m.text + " -- '" + m.data + "'"
    ensures |m.data| > 57 - |m.text| ==>
              ErrorText(m) == m.text + " -- '" + m.data[..57 - |m.text|] + "'" && |ErrorText(m)| == 63
  {
  }

  /** The buffer holds the message as a terminated string, or the empty string. */
  ghost predicate Shows(errmsg: seq<char>, message: Option<Message>)
  {
    match message
    case None => |errmsg| > 0 && errmsg[0] == '\0'
    case Some(m) =>
      && |m.text| + |SEPARATOR| <= ERRMSG_SIZE - 2
      && |ErrorText(m)| < |errmsg|
      && errmsg[..|ErrorText(m)| + 1] == ErrorText(m) + ['\0']
  }

  // ----- scans -----

  method ArgTypeScan(optstring: string, c: char) returns (count: ArgType)
    ensures count == ArgTypeOf(optstring, c)
  {
    count := OPTPARSE_NONE;
    if c == ':' {
      return -1;
    }
    var i := 0;
    while i < |optstring| && optstring[i] != '\0' && c != optstring[i]
      invariant 0 <= i <= |optstring|
      invariant ArgTypeOf(optstring, c) == ArgTypeOf(optstring[i..], c)
    {
      assert optstring[i..][1..] == optstring[i + 1..];
      i := i + 1;
    }
    if i == |optstring| || optstring[i] == '\0' {
      return -1;
    }
    assert optstring[i..][1..] == optstring[i + 1..];
    if i + 1 < |optstring| && optstring[i + 1] == ':' {
      count := count + if i + 2 < |optstring| && optstring[i + 2] == ':' then 2 else 1;
    }
  }

  // Whether a table name is the option's name, which ends at '='.
  method LongMatch(longname: Option<string>, option: string) returns (found: bool)
    ensures found <==> longname == Some(NamePart(option))
  {
    if longname.None? {
      return false;
    }
    var name := longname.value;
    var a := 0;
    while a < |option| && a < |name| && option[a] != '='
      invariant 0 <= a <= |option| && a <= |name|
      invariant NamePart(option) == option[..a] + NamePart(option[a..])
      invariant name[..a] == option[..a]
    {
      if option[a] != name[a] {
        assert NamePart(option)[a] == option[a];
        return false;
      }
      assert option[a..][1..] == option[a + 1..];
      assert option[..a] + [option[a]] == option[..a + 1];
      a := a + 1;
    }
    found := a == |name| && (a == |option| || option[a] == '=');
    assert |NamePart(option)| == a + |NamePart(option[a..])|;
    assert name == name[..a] + name[a..];
  }

  method LongArg(option: string) returns (arg: Option<string>)
    ensures arg == ValuePart(option)
  {
    var i := 0;
    while i < |option| && option[i] != '='
      invariant 0 <= i <= |option|
      invariant ValuePart(option) == ValuePart(option[i..])
    {
      assert option[i..][1..] == option[i + 1..];
      i := i + 1;
    }
    if i < |option| {
      assert option[i..][1..] == option[i + 1..];
      arg := Some(option[i + 1..]);
    } else {
      arg := None;
    }
  }

  // The option string of a table, as a terminated string in a buffer.
  method FromLongInto(table: seq<Entry>, buffer: array<char>) returns (length: nat)
    requires |FromLong(table)| < buffer.Length
    modifies buffer
    ensures length == |FromLong(table)|
    ensures buffer[..length + 1] == FromLong(table) + ['\0']
  {
    hide EntryText;
    length := 0;
    for i := 0 to |table|
      invariant length + |FromLong(table[i..])| == |FromLong(table)|
      invariant buffer[..length] + FromLong(table[i..]) == FromLong(table)
    {
      assert table[i..][1..] == table[i + 1..];
      ghost var before, e, rest := buffer[..length], table[i], FromLong(table[i + 1..]);
      assert before + (EntryText(e) + rest) == before + EntryText(e) + rest;
      if table[i].shortname != 0 {
        length := PutEntry(buffer, length, table[i]);
      } else {
        NoEntry(e);
      }
    }
    buffer[length] := '\0';
  }

  lemma NoEntry(e: LongOpt)
    requires e.shortname == 0
    ensures EntryText(e) == ""
  {
  }

  method PutEntry(buffer: array<char>, at: nat, e: LongOpt) returns (length: nat)
    requires e.shortname != 0 && at + |EntryText(e)| < buffer.Length
    modifies buffer
    ensures length == at + |EntryText(e)|
    ensures buffer[..length] == old(buffer[..at]) + EntryText(e)
  {
    ghost var before := buffer[..at];
    RepeatSnoc(':', e.argtype);
    buffer[at] := ToChar(e.shortname);
    length := at + 1;
    for a := 0 to e.argtype
      invariant length == at + 1 + a
      invariant buffer[..length] == before + ([ToChar(e.shortname)] + Repeat(':', a))
    {
      RepeatSnoc(':', a);
      buffer[length] := ':';
      length := length + 1;
    }
  }

  lemma {:induction false} RepeatSnoc(c: char, n: nat)
    ensures Repeat(c, n + 1) == Repeat(c, n) + [c]
    ensures |Repeat(c, n)| == n
  {
    if n > 0 {
      RepeatSnoc(c, n - 1);
    }
  }

  // ----- the parser -----

  // argv with the element at `index` moved behind the arguments before `to`.
  function Permuted(argv: seq<string>, index: nat, to: nat): seq<string>
    requires index < to <= |argv|
  {
    argv[..index] + argv[index + 1..to] + [argv[index]] + argv[to..]
  }

  class Options {
    const argv: array<string>
    const errmsg: array<char>
    var permute: bool
    var optind: nat
    var optopt: int
    var optarg: Option<string>
    var subopt: nat

    ghost predicate Valid()
      reads this
    {
      optind <= argv.Length && errmsg.Length == ERRMSG_SIZE
    }

    ghost function Position(): State
      reads this, argv
    {
      State(argv[..], optind, subopt)
    }

    /** The fields and the returned values are those of the event; None stands for -1. */
    ghost predicate Reports(r: int, longindex: Option<int>, event: Option<Event>)
      reads this, errmsg
    {
      match event
      case None => r == -1
      case Some(e) =>
        && r == e.result && optopt == e.optopt && optarg == e.optarg && longindex == e.longindex
        && Shows(errmsg[..], e.message)
    }

    constructor (argv: array<string>)
      requires argv.Length > 0
      ensures Valid() && this.argv == argv && fresh(errmsg) && permute
      ensures Position() == State(argv[..], 1, 0)
      ensures Shows(errmsg[..], None)
    {
      this.argv := argv;
      permute, optind, subopt, optarg, optopt := true, 1, 0, None, 0;
      errmsg := new char[ERRMSG_SIZE](_ => '\0');
    }

    method Error(m: Message) returns (r: int)
      requires errmsg.Length == ERRMSG_SIZE && |m.text| + |SEPARATOR| <= ERRMSG_SIZE - 2
      modifies errmsg
      ensures r == '?' as int && Shows(errmsg[..], Some(m))
    {
      var p := Append(0, m.text);
      p := Append(p, SEPARATOR);
      p := AppendUpTo(p, m.data, ERRMSG_SIZE - 2);
      p := Append(p, "'");
      p := Append(p, ['\0']);
      r := '?' as int;
    }

    // Copies a string to the end of the p characters already in the buffer.
    method Append(p: nat, s: string) returns (end: nat)
      requires p + |s| <= errmsg.Length
      modifies errmsg
      ensures end == p + |s| && errmsg[..end] == old(errmsg[..p]) + s
    {
      ghost var before := errmsg[..p];
      end := p;
      for i := 0 to |s|
        invariant end == p + i && errmsg[..end] == before + s[..i]
      {
        errmsg[end] := s[i];
        end := end + 1;
      }
    }

    // The same, as far as the characters before `limit` go.
    method AppendUpTo(p: nat, s: string, limit: nat) returns (end: nat)
      requires p <= limit <= errmsg.Length
      modifies errmsg
      ensures end == p + if |s| > limit - p then limit - p else |s|
      ensures errmsg[..end] == old(errmsg[..p]) + s[..end - p]
    {
      ghost var before := errmsg[..p];
      end := p;
      var i := 0;
      while end < limit && i < |s|
        invariant 0 <= i <= |s| && end == p + i <= limit && errmsg[..end] == before + s[..i]
      {
        errmsg[end] := s[i];
        end, i := end + 1, i + 1;
      }
    }

    // Moves the non-option at `index` behind everything parsed since.
    method Permute(index: nat)
      requires index < optind <= argv.Length
      modifies argv
      ensures argv[..] == Permuted(old(argv[..]), index, optind)
    {
      var nonoption := argv[index];
      ghost var before := argv[..];
      for i := index to optind - 1
        invariant forall k :: index <= k < i ==> argv[k] == before[k + 1]
        invariant forall k :: 0 <= k < argv.Length && !(index <= k < i) ==> argv[k] == before[k]
      {
        argv[i] := argv[i + 1];
      }
      argv[optind - 1] := nonoption;
      assert argv[index..optind - 1] == before[index + 1..optind];
    }

    /** One call of the short parser. */
    method Optparse(optstring: string) returns (r: int)
      requires Valid() && Ready(Short(optstring), permute, Position())
      modifies this, argv, errmsg
      ensures Valid() && permute == old(permute)
      ensures Position() == Step(Short(optstring), old(permute), old(Position())).1
      ensures Reports(r, None, Step(Short(optstring), old(permute), old(Position())).0)
      ensures r == -1 ==> optopt == 0 && optarg == None && Shows(errmsg[..], None)
      decreases argv.Length - optind
    {
      hide ShortBase, Rotate, Permuted;
      ghost var p, st := Short(optstring), Position();
      errmsg[0] := '\0';
      optopt, optarg := 0, None;
      if optind == argv.Length {
        Unmoved(st.argv, optind, 0);
        return -1;
      }
      var option := argv[optind];
      if IsDashDash(option) {
        Unmoved(st.argv, optind, 1);
        optind := optind + 1;
        return -1;
      }
      if !IsShortOpt(option) {
        if permute {
          var index := optind;
          optind := optind + 1;
          SkipStep(p, st);
          r := Optparse(optstring);
          Permute(index);
          optind := optind - 1;
          return;
        }
        Unmoved(st.argv, optind, 0);
        return -1;
      }
      AtFront(p, permute, st);
      r := ShortOption(optstring, option, st);
    }

    /** The switch over the kinds of option: the group `option` is at argv[optind]. */
    method ShortOption(optstring: string, option: string, ghost st: State) returns (r: int)
      requires Valid() && st == Position() && optind < argv.Length && option == argv[optind]
      requires IsShortOpt(option) && subopt + 1 <= |option|
      requires optarg == None && Shows(errmsg[..], None)
      modifies this, errmsg
      ensures Valid() && permute == old(permute)
      ensures var base := ShortBase(optstring, option, Next(st.argv, st.optind), st.subopt, None);
              Position() == State(st.argv, st.optind + base.took, base.subopt) && Reports(r, None, Some(base.event))
      ensures r != -1
    {
      hide Shows, ArgTypeOf;
      var c := if subopt + 1 < |option| then option[subopt + 1] else '\0';
      var rest := if subopt + 2 <= |option| then option[subopt + 2..] else "";
      optopt := c as int;
      var kind := ArgTypeScan(optstring, c);
      var next := if optind + 1 < argv.Length then Some(argv[optind + 1]) else None;
      if kind == -1 {
        optind := optind + 1;
        r := Error(Message(INVALID, LetterText(c)));
      } else if kind == OPTPARSE_NONE {
        if rest != "" {
          subopt := subopt + 1;
        } else {
          subopt := 0;
          optind := optind + 1;
        }
        r := c as int;
      } else if kind == OPTPARSE_REQUIRED {
        subopt := 0;
        optind := optind + 1;
        if rest != "" {
          optarg := Some(rest);
        } else if next.Some? {
          optarg := next;
          optind := optind + 1;
        } else {
          optarg := None;
          r := Error(Message(MISSING, LetterText(c)));
          return;
        }
        r := c as int;
      } else {
        subopt := 0;
        optind := optind + 1;
        optarg := if rest != "" then Some(rest) else None;
        r := c as int;
      }
    }

    /** One call of the long parser. `longindex` is None when the call does not set it. */
    method OptparseLong(table: seq<Entry>) returns (r: int, longindex: Option<int>)
      requires Valid() && Ready(Long(table), permute, Position()) && |FromLong(table)| < OPTSTRING_SIZE
      modifies this, argv, errmsg
      ensures Valid() && permute == old(permute)
      ensures Position() == Step(Long(table), old(permute), old(Position())).1
      ensures Reports(r, longindex, Step(Long(table), old(permute), old(Position())).0)
      ensures Step(Long(table), old(permute), old(Position())).0.None? ==>
                optopt == old(optopt) && optarg == old(optarg) && errmsg[..] == old(errmsg[..]) && longindex == None
      decreases argv.Length - optind
    {
      hide ShortBase, Rotate, Permuted, LongEvent, FromLong, Shows;
      ghost var p, st := Long(table), Position();
      longindex := None;
      if optind == argv.Length {
        Unmoved(st.argv, optind, 0);
        return -1, None;
      }
      var option := argv[optind];
      if IsDashDash(option) {
        Unmoved(st.argv, optind, 1);
        optind := optind + 1;
        return -1, None;
      }
      if IsShortOpt(option) {
        AtFront(p, permute, st);
        r, longindex := ShortFallback(table);
        return;
      }
      if !IsLongOpt(option) {
        if permute {
          var index := optind;
          optind := optind + 1;
          SkipStep(p, st);
          r, longindex := OptparseLong(table);
          Permute(index);
          optind := optind - 1;
          return;
        }
        Unmoved(st.argv, optind, 0);
        return -1, None;
      }
      AtFront(p, permute, st);
      r, longindex := ParseLong(table);
    }

    /** A long option at argv[optind]. */
    method ParseLong(table: seq<Entry>) returns (r: int, longindex: Option<int>)
      requires Valid() && optind < argv.Length && IsLongOpt(argv[optind]) && !IsShortOpt(argv[optind])
      modifies this, errmsg
      ensures Valid() && permute == old(permute)
      ensures var st := old(Position());
              var base := OptionBase(Long(table), st.argv[st.optind], Next(st.argv, st.optind), st.subopt);
              Position() == State(st.argv, st.optind + base.took, base.subopt) && Reports(r, longindex, Some(base.event))
    {
      hide LongEvent, Shows;
      var option := argv[optind];
      errmsg[0] := '\0';
      optopt, optarg := 0, None;
      optind := optind + 1;
      Cleared(errmsg[..]);
      r, longindex := LongOption(table, option[2..]);
    }

    /** A short option met by the long parser: compiled to an option string and handed over. */
    method ShortFallback(table: seq<Entry>) returns (r: int, longindex: Option<int>)
      requires Valid() && optind < argv.Length && IsShortOpt(argv[optind]) && subopt + 1 <= |argv[optind]|
      requires |FromLong(table)| < OPTSTRING_SIZE
      modifies this, argv, errmsg
      ensures Valid() && permute == old(permute)
      ensures var st := old(Position());
              var base := OptionBase(Long(table), st.argv[st.optind], Next(st.argv, st.optind), st.subopt);
              Position() == State(st.argv, st.optind + base.took, base.subopt) && Reports(r, longindex, Some(base.event))
    {
      hide Step, ShortBase, FromLong, LastShort, Shows;
      ghost var st := Position();
      var buffer := new char[OPTSTRING_SIZE];
      var length := FromLongInto(table, buffer);
      assert buffer[..length] == buffer[..length + 1][..length] == FromLong(table);
      AtFront(Short(FromLong(table)), permute, st);
      SameReady(Short(FromLong(table)), permute, st);
      FallbackBase(table, argv[optind], Next(st.argv, st.optind), subopt);
      r := Optparse(buffer[..length]);
      var last := LastShortScan(table, optopt);
      longindex := Some(last);
    }

    method LastShortScan(table: seq<Entry>, shortname: int) returns (last: int)
      ensures last == LastShort(table, shortname)
    {
      last := -1;
      for i := 0 to |table|
        invariant last == LastShort(table[..i], shortname)
      {
        assert table[..i + 1][..i] == table[..i];
        if table[i].shortname == shortname {
          last := i;
        }
      }
      assert table[..|table|] == table;
    }

    /** The table search for a long option, `option` being what follows the two dashes; the
        argument itself is already consumed. */
    method LongOption(table: seq<Entry>, option: string) returns (r: int, longindex: Option<int>)
      requires Valid() && optarg == None && optopt == 0 && Shows(errmsg[..], None)
      modifies this, errmsg
      ensures Valid() && permute == old(permute) && subopt == old(subopt)
      ensures var next := if old(optind) < argv.Length then Some(argv[old(optind)]) else None;
              var (event, took) := LongEvent(table, option, next);
              optind + 1 == old(optind) + took && Reports(r, longindex, Some(event))
    {
      longindex := None;
      for i := 0 to |table|
        invariant FindLong(table, NamePart(option)) == i + FindLong(table[i..], NamePart(option))
        invariant optind == old(optind) && subopt == old(subopt) && permute == old(permute)
        invariant optarg == None && optopt == 0 && Shows(errmsg[..], None) && longindex == None
      {
        assert table[i..][1..] == table[i + 1..];
        var found := LongMatch(table[i].longname, option);
        if found {
          longindex := Some(i);
          r := FoundLong(table, option, i);
          return;
        }
      }
      r := Error(Message(INVALID, option));
    }

    method FoundLong(table: seq<Entry>, option: string, i: nat) returns (r: int)
      requires Valid() && optarg == None && Shows(errmsg[..], None)
      requires i < |table| && i == FindLong(table, NamePart(option)) && table[i].longname == Some(NamePart(option))
      modifies this, errmsg
      ensures Valid() && permute == old(permute) && subopt == old(subopt)
      ensures var next := if old(optind) < argv.Length then Some(argv[old(optind)]) else None;
              var (event, took) := LongEvent(table, option, next);
              optind + 1 == old(optind) + took && Reports(r, Some(i), Some(event))
    {
      optopt := table[i].shortname;
      var arg := LongArg(option);
      if table[i].argtype == OPTPARSE_NONE && arg.Some? {
        r := Error(Message(TOOMANY, table[i].longname.value));
        return;
      }
      if arg.Some? {
        optarg := arg;
      } else if table[i].argtype == OPTPARSE_REQUIRED {
        optarg := if optind < argv.Length then Some(argv[optind]) else None;
        if optarg == None {
          r := Error(Message(MISSING, table[i].longname.value));
          return;
        }
        optind := optind + 1;
      }
      r := optopt;
    }

    /** Steps over the next argument, whatever it is. */
    method NextArgument() returns (option: Option<string>)
      requires Valid()
      modifies this
      ensures Valid() && subopt == 0 && permute == old(permute)
      ensures old(optind) < argv.Length ==> option == Some(argv[old(optind)]) && optind == old(optind) + 1
      ensures old(optind) == argv.Length ==> option == None && optind == old(optind)
    {
      option := if optind < argv.Length then Some(argv[optind]) else None;
      subopt := 0;
      if option != None {
        optind := optind + 1;
      }
    }

    // ----- the client's loop -----

    method Call(p: Parser) returns (r: int)
      requires Valid() && Ready(p, permute, Position()) && Fits(p)
      modifies this, argv, errmsg
      ensures Valid() && permute == old(permute)
      ensures Position() == Step(p, old(permute), old(Position())).1
      ensures match Step(p, old(permute), old(Position())).0
              case None => r == -1
              case Some(e) => r == e.result && optarg == e.optarg
    {
      match p
      case Short(optstring) => r := Optparse(optstring);
      case Long(table) =>
        var longindex;
        r, longindex := OptparseLong(table);
    }

    /** Parses everything: the documented loop, collecting each option and its argument.
        What is left to the client from optind on are the non-options. */
    method ParseAll(p: Parser) returns (options: seq<(int, Option<string>)>)
      requires Valid() && permute && Fits(p) && NoMinusOne(p)
      requires Run(p, Position()).Some?
      modifies this, argv, errmsg
      ensures Valid()
      ensures options == Visible(Run(p, old(Position())).value.events)
      ensures Position() == Run(p, old(Position())).value.final
    {
      hide Step, Ready, Run, Pending, Shows;
      options := [];
      ghost var all := Run(p, Position()).value;
      while true
        invariant Valid() && permute && Run(p, Position()).Some?
        invariant Visible(all.events) == options + Visible(Run(p, Position()).value.events)
        invariant all.final == Run(p, Position()).value.final
        decreases argv.Length - optind, Pending(p, Position())
      {
        ghost var st := Position();
        RunUnfolds(p, st);
        StepResult(p, st);
        var r := Call(p);
        if r == -1 {
          return;
        }
        StepProgress(p, true, st);
        options := options + [(r, optarg)];
      }
    }

    /** The documented command line, parsed in place. */
    method ParseDocumented(p: Parser) returns (options: seq<(int, Option<string>)>)
      requires Valid() && permute && Fits(p) && NoMinusOne(p)
      requires argv.Length > 0 && optind == 1 && subopt == 0
      requires TableFaithful(p) && Safe(p, argv[1..], false)
      modifies this, argv, errmsg
      ensures Valid()
      ensures var d := Doc(p, old(argv[1..]));
              && options == Visible(d.events)
              && argv[..optind] == old(argv[..1]) + d.consumed
              && argv[optind..] == d.skipped + d.rest
    {
      hide Run, Doc, Safe, TableFaithful, Visible, Fits, NoMinusOne;
      ghost var before, d := argv[..], Doc(p, argv[1..]);
      assert before[1..] == argv[1..];
      FullRunIsDocumented(p, before);
      options := ParseAll(p);
      assert argv[..] == before[..1] + d.consumed + (d.skipped + d.rest);
    }
  }

  const OPTSTRING_SIZE: nat := 96 * 3 + 1

  // The compiled option string fits the parser's buffer.
  predicate Fits(p: Parser)
  {
    p.Long? ==> |FromLong(p.table)| < OPTSTRING_SIZE
  }

  // No entry's short name is the value that means the parse is over.
  predicate NoMinusOne(p: Parser)
  {
    p.Long? ==> forall e :: e in p.table ==> e.shortname != -1
  }

  // What the client's loop sees of an event.
  function Visible(events: seq<Event>): (v: seq<(int, Option<string>)>)
    ensures |v| == |events|
    ensures forall i :: 0 <= i < |events| ==> v[i] == (events[i].result, events[i].optarg)
  {
    if events == [] then [] else [(events[0].result, events[0].optarg)] + Visible(events[1..])
  }

  lemma Cleared(errmsg: seq<char>)
    requires |errmsg| > 0 && errmsg[0] == '\0'
    ensures Shows(errmsg, None)
  {
  }

  lemma StepResult(p: Parser, st: State)
    requires st.optind <= |st.argv| && NoMinusOne(p)
    ensures var event := Step(p, true, st).0;
            event.Some? ==> event.value.result != -1
  {
    hide FromLong, ArgTypeOf, LastShort, ValuePart;
    var j := Front(p, st.argv, st.optind);
    if j < |st.argv| && p.Long? && IsLongOpt(st.argv[j]) {
      FindLongBound(p.table, NamePart(st.argv[j][2..]));
    }
  }

  lemma RunUnfolds(p: Parser, st: State)
    requires st.optind <= |st.argv| && Run(p, st).Some?
    ensures Ready(p, true, st)
    ensures var (event, st') := Step(p, true, st);
            && (event.None? ==> Run(p, st).value == Outcome([], st'))
            && (event.Some? ==>
                  && Run(p, st').Some? && Run(p, st).value.final == Run(p, st').value.final
                  && Visible(Run(p, st).value.events)
                  == [(event.value.result, event.value.optarg)] + Visible(Run(p, st').value.events))
  {
  }

  // The fallback reports what the short parser does, with the table index filled in.
  lemma FallbackBase(table: seq<Entry>, a: string, next: Option<string>, subopt: nat)
    requires IsShortOpt(a)
    ensures var short := ShortBase(FromLong(table), a, next, subopt, None);
            OptionBase(Long(table), a, next, subopt)
            == short.(event := short.event.(longindex := Some(LastShort(table, short.event.optopt))))
  {
  }

  lemma SameReady(p: Parser, permute: bool, st: State)
    requires st.optind < |st.argv| && IsShortOpt(st.argv[st.optind]) && st.subopt + 1 <= |st.argv[st.optind]|
    ensures Ready(p, permute, st)
  {
  }

  // ----- how a call that meets a non-option relates to the one after it -----

  // A non-option where the call starts: the recursive call, then one rotation.
  lemma SkipStep(p: Parser, st: State)
    requires st.optind < |st.argv| && !IsOption(p, st.argv[st.optind]) && !IsDashDash(st.argv[st.optind])
    ensures var inner := Step(p, true, st.(optind := st.optind + 1));
            && Step(p, true, st).0 == inner.0
            && st.optind + 1 <= inner.1.optind
            && Step(p, true, st).1
            == State(Permuted(inner.1.argv, st.optind, inner.1.optind), inner.1.optind - 1, inner.1.subopt)
    ensures Ready(p, true, st) == Ready(p, true, st.(optind := st.optind + 1))
  {
    hide At, Rotate, Permuted;
    var i, j := st.optind, Front(p, st.argv, st.optind);
    TookFits(p, st, j);
    SameAt(p, st, st.(optind := i + 1), j);
    RotateOneMore(st.argv, i, j, At(p, st, j).1);
  }

  lemma SameAt(p: Parser, st: State, st': State, j: nat)
    requires j <= |st.argv| && st'.argv == st.argv && st'.subopt == st.subopt
    ensures At(p, st, j) == At(p, st', j)
  {
  }

  lemma RotateOneMore(argv: seq<string>, i: nat, j: nat, d: nat)
    requires i < j && j + d <= |argv|
    ensures Rotate(argv, i, j, d) == Permuted(Rotate(argv, i + 1, j, d), i, i + 1 + d)
  {
  }
}
