/**
 Compiling a table of long options into a short option string: what a letter looked up in the
 string means, for every table, and exactly when that is what the table says.
 */
module OptparseTable {
  import opened Wrappers
  import opened OptparseSpec
  import opened OptparseDoc

  // ----- what the compiled string says -----

  // An entry that adds to the string, and the byte its short name is truncated to.
  predicate Named(e: Entry)
  {
    e.shortname != 0
  }

  function Low(e: Entry): (c: char)
    ensures c as int < 256
  {
    ToChar(e.shortname)
  }

  /** How many colons the compiled string begins with: a name truncated to a colon joins the
      colons of the entry before it. */
  function Lead(table: seq<Entry>): nat
  {
    if table == [] then 0
    else if !Named(table[0]) then Lead(table[1..])
    else if Low(table[0]) == ':' then 1 + table[0].argtype + Lead(table[1..])
    else 0
  }

  function AtMostTwo(n: nat): ArgType
  {
    if n > 2 then 2 else n
  }

  /** The kind of the first entry whose name is truncated to the letter, stray colons behind it
      included. A name truncated to NUL ends the string. */
  function FirstLow(table: seq<Entry>, c: char): ArgType
  {
    if table == [] || c == ':' || c == '\0' then -1
    else if !Named(table[0]) then FirstLow(table[1..], c)
    else if Low(table[0]) == '\0' then -1
    else if Low(table[0]) == c then AtMostTwo(table[0].argtype + Lead(table[1..]))
    else FirstLow(table[1..], c)
  }

  // The number of colons at the front of a string.
  function LeadingColons(s: string): nat
  {
    if s == "" || s[0] != ':' then 0 else 1 + LeadingColons(s[1..])
  }

  lemma {:induction false} RepeatColons(n: nat, rest: string)
    ensures LeadingColons(Repeat(':', n) + rest) == n + LeadingColons(rest)
  {
    var s := Repeat(':', n) + rest;
    if n == 0 {
      assert s == rest;
    } else {
      RepeatColons(n - 1, rest);
      assert s[1..] == Repeat(':', n - 1) + rest;
    }
  }

  lemma ColonsCounted(s: string)
    ensures Colons(s) == AtMostTwo(LeadingColons(s))
  {
    if s != "" && s[0] == ':' {
      assert LeadingColons(s) == 1 + LeadingColons(s[1..]);
    }
  }

  lemma {:induction false} SkipColons(n: nat, rest: string, c: char)
    requires c != ':'
    ensures ArgTypeOf(Repeat(':', n) + rest, c) == ArgTypeOf(rest, c)
  {
    var s := Repeat(':', n) + rest;
    if n == 0 {
      assert s == rest;
    } else {
      SkipColons(n - 1, rest, c);
      assert s[1..] == Repeat(':', n - 1) + rest;
    }
  }

  lemma LookupHead(h: char, w: string, c: char)
    requires c != ':' && c != '\0'
    ensures ArgTypeOf([h] + w, c) == if h == '\0' then -1 else if h == c then Colons(w) else ArgTypeOf(w, c)
    ensures LeadingColons([h] + w) == if h == ':' then 1 + LeadingColons(w) else 0
  {
    assert ([h] + w)[1..] == w;
  }

  lemma FromLongHead(table: seq<Entry>)
    requires table != []
    ensures FromLong(table)
         == if Named(table[0]) then [Low(table[0])] + (Repeat(':', table[0].argtype) + FromLong(table[1..]))
            else FromLong(table[1..])
  {
  }

  lemma {:induction false} LeadIsColons(table: seq<Entry>)
    ensures Lead(table) == LeadingColons(FromLong(table))
  {
    if table != [] {
      hide FromLong, Low, Repeat;
      var w := Repeat(':', table[0].argtype) + FromLong(table[1..]);
      FromLongHead(table);
      LeadIsColons(table[1..]);
      RepeatColons(table[0].argtype, FromLong(table[1..]));
      LookupHead(Low(table[0]), w, 'a');
    } else {
      assert FromLong(table) == "";
    }
  }

  /** For every table and every character: looking it up in the compiled string gives the kind of
      the first entry whose short name is truncated to it. */
  lemma {:induction false} CompiledLookup(table: seq<Entry>, c: char)
    ensures ArgTypeOf(FromLong(table), c) == FirstLow(table, c)
  {
    if table != [] && c != ':' && c != '\0' {
      hide FromLong, Low, Repeat, Colons, Lead, ArgTypeOf;
      var e, rest := table[0], FromLong(table[1..]);
      FromLongHead(table);
      CompiledLookup(table[1..], c);
      if Named(e) {
        var w := Repeat(':', e.argtype) + rest;
        LookupHead(Low(e), w, c);
        ColonsCounted(w);
        RepeatColons(e.argtype, rest);
        LeadIsColons(table[1..]);
        SkipColons(e.argtype, rest, c);
      }
    }
  }

  // ----- when that is what the table says -----

  /** No short name is a colon, and every letter that some short name is truncated to means in the
      string what the table declares it to be: nothing else of that low byte comes first, no name
      cut to NUL comes before it, and no stray colons follow it. */
  predicate SaysTheSame(table: seq<Entry>)
  {
    && FirstShort(table, ':') == -1
    && forall e :: e in table && Named(e) && Low(e) != ':' && Low(e) != '\0' ==>
         FirstLow(table, Low(e)) == FirstShort(table, Low(e))
  }

  // A character that no name is truncated to is neither in the string nor in the table.
  lemma {:induction false} Unnamed(table: seq<Entry>, c: char)
    requires c == '\0' || forall e :: e in table && Named(e) ==> Low(e) != c
    ensures FirstLow(table, c) == -1 && FirstShort(table, c) == -1
  {
    if table != [] {
      assert forall e :: e in table[1..] ==> e in table;
      Unnamed(table[1..], c);
      assert table[0] in table;
    }
  }

  /** The compiled string means what the table says exactly when the table meets that condition. */
  lemma CompilationFaithful(table: seq<Entry>)
    ensures TableFaithful(Long(table)) <==> SaysTheSame(table)
  {
    hide FromLong, ArgTypeOf, FirstLow, FirstShort, Low;
    forall c: char
      ensures ArgTypeOf(FromLong(table), c) == FirstLow(table, c)
    {
      CompiledLookup(table, c);
    }
    ColonUnknown(table);
    if SaysTheSame(table) {
      forall c: char
        ensures FirstLow(table, c) == FirstShort(table, c)
      {
        if c == '\0' || forall e :: e in table && Named(e) ==> Low(e) != c {
          Unnamed(table, c);
        }
      }
    }
  }

  lemma ColonUnknown(table: seq<Entry>)
    ensures FirstLow(table, ':') == -1
  {
  }

  /** Characters beyond a byte make no difference: neither the string nor the table has them. */
  lemma BytesDecide(table: seq<Entry>)
    ensures TableFaithful(Long(table)) <==> forall c: char :: c as int < 256 ==> SameKind(table, c)
  {
    hide FromLong, ArgTypeOf, FirstLow, FirstShort;
    forall c: char | c as int > 255
      ensures SameKind(table, c)
    {
      CompiledLookup(table, c);
      Unnamed(table, c);
    }
    if TableFaithful(Long(table)) {
      forall c: char
        ensures SameKind(table, c)
      {
        assert ArgTypeOf(FromLong(table), c) == FirstShort(table, c);
      }
    } else {
      var c: char :| ArgTypeOf(FromLong(table), c) != FirstShort(table, c);
      assert !SameKind(table, c);
    }
  }

  predicate SameKind(table: seq<Entry>, c: char)
  {
    ArgTypeOf(FromLong(table), c) == FirstShort(table, c)
  }

  // ----- plain tables, and what can go wrong with others -----

  /** Short names that survive the trip through a getopt string as they are: one byte each, no
      colon. */
  predicate PlainShortNames(table: seq<Entry>)
  {
    forall e :: e in table ==> 0 <= e.shortname < 256 && e.shortname != ':' as int
  }

  lemma {:induction false} PlainLow(table: seq<Entry>, c: char)
    requires PlainShortNames(table)
    ensures Lead(table) == 0 && FirstLow(table, c) == FirstShort(table, c)
  {
    if table != [] {
      assert table[0] in table;
      PlainLow(table[1..], c);
    }
  }

  /** They are enough. */
  lemma PlainIsFaithful(table: seq<Entry>)
    requires PlainShortNames(table)
    ensures SaysTheSame(table) && TableFaithful(Long(table))
  {
    hide Lead, FirstLow, FirstShort;
    forall c: char
      ensures FirstLow(table, c) == FirstShort(table, c)
    {
      PlainLow(table, c);
    }
    ColonUnknown(table);
    CompilationFaithful(table);
  }

  /** They are not needed: a name cut to one already there, of the same kind, does no harm. */
  lemma MaskedAlias(alias: int)
    requires alias != 'a' as int && alias % 256 == 'a' as int
    ensures var table := [LongOpt(None, 'a' as int, OPTPARSE_NONE), LongOpt(None, alias, OPTPARSE_NONE)];
            TableFaithful(Long(table)) && !PlainShortNames(table)
  {
    var first, second: Entry := LongOpt(None, 'a' as int, OPTPARSE_NONE), LongOpt(None, alias, OPTPARSE_NONE);
    var table := [first, second];
    assert table[1..] == [second] && Low(first) == 'a' && Low(second) == 'a';
    assert second in table;
    assert FirstLow(table, 'a') == OPTPARSE_NONE by {
      assert Lead([second]) == 0;
    }
    assert FirstShort(table, ':') == -1 by {
      assert FirstShort([second], ':') == FirstShort([second][1..], ':') == -1;
    }
    CompilationFaithful(table);
  }

  /** A colon as a short name turns the flag before it into an option with an argument. */
  lemma ColonShortName()
    ensures var table := [LongOpt(None, 'a' as int, OPTPARSE_NONE), LongOpt(None, ':' as int, OPTPARSE_NONE)];
            ArgTypeOf(FromLong(table), 'a') == OPTPARSE_REQUIRED && FirstShort(table, 'a') == OPTPARSE_NONE
  {
    var colon := LongOpt(None, ':' as int, OPTPARSE_NONE);
    var table := [LongOpt(None, 'a' as int, OPTPARSE_NONE), colon];
    assert Repeat(':', 0) == "";
    assert table[1..] == [colon] && FromLong([colon][1..]) == "";
    assert FromLong([colon]) == ":";
    assert FromLong(table) == "a:";
  }

  /** A short name beyond one char aliases the char it is truncated to. */
  lemma WideShortName()
    ensures var table := [LongOpt(None, 256 + 'a' as int, OPTPARSE_NONE)];
            ArgTypeOf(FromLong(table), 'a') == OPTPARSE_NONE && FirstShort(table, 'a') == -1
  {
  }
}
