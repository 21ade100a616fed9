/**
 From keyed energies to text: the decision automaton followed by the parser.
 */
module MorseLink {
  import opened MorseCode
  import opened MorseText
  import opened MorseDecision

  // ----- the receiver as a whole -----

  lemma {:induction false} TokensHaveNoFinish(t: Thresholds, runs: seq<Run>)
    ensures FINISH !in AllTokens(t, runs)
  {
    if runs != [] {
      TokensHaveNoFinish(t, runs[..|runs| - 1]);
    }
  }

  /** Energies in, text out: the decision loop and then the parser. */
  method Receive(en: seq<int>, t: Thresholds, code: array<char>)
    requires code.Length == TEXT_SIZE && |Decided(t, en)| < JUDGED_SIZE
    requires GroupsFit(Decided(t, en)) && |Parse(Decided(t, en))| <= TEXT_SIZE
    modifies code
    ensures code[..] == Filled(Parse(Decided(t, en)))
  {
    hide Decided, Parse, GroupsFit, Message;
    var jud := new int[JUDGED_SIZE];
    Decide(en, t, jud);
    DecidedHasNoFinish(t, en);
    assert forall i :: 0 <= i < |Decided(t, en)| ==> jud[..][i] == Decided(t, en)[i];
    MessageOf(jud[..], |Decided(t, en)|);
    assert Message(jud[..]) == Decided(t, en);
    InverseTranslate(jud[..], code);
  }

  lemma DecidedHasNoFinish(t: Thresholds, en: seq<int>)
    ensures FINISH !in Decided(t, en)
  {
    TokensHaveNoFinish(t, Completed(RunsOf(HighLow(en, t.level))));
  }

  // ----- keying -----

  /** A mark and the gap after it, in frames. */
  datatype Stroke = Stroke(mark: nat, gap: nat)

  // A mark length inside the range of the token.
  predicate MarkFits(t: Thresholds, token: int, length: nat)
  {
    length > 0 &&
    if token == DOT then t.dotMin <= length < t.dashMin else token == DASH && t.dashMin <= length < t.dashEnd
  }

  // The strokes are the marks of one character, with symbol gaps between them.
  predicate KeysGroup(t: Thresholds, g: seq<int>, strokes: seq<Stroke>)
  {
    && |strokes| == |g| > 0
    && (forall i :: 0 <= i < |g| ==> MarkFits(t, g[i], strokes[i].mark))
    && (forall i :: 0 <= i < |g| - 1 ==> 0 < strokes[i].gap <= t.letterGap)
  }

  /** The strokes key the text: words of sendable characters with single spaces between the
      words. Symbol, letter and word gaps are anything in their ranges; the last gap is any
      low frames after the last mark. */
  predicate Keys(t: Thresholds, text: string, strokes: seq<Stroke>)
    decreases |text|
  {
    text != "" && text[0] != ' ' &&
    var g := Group(text[0]);
    && 0 < |g| <= |strokes| && KeysGroup(t, g, strokes[..|g|])
    && var gap := strokes[|g| - 1].gap;
       if |text| == 1 then gap > 0 && |strokes| == |g|
       else if text[1] == ' ' then gap > t.wordGap && Keys(t, text[2..], strokes[|g|..])
       else t.letterGap < gap <= t.wordGap && Keys(t, text[1..], strokes[|g|..])
  }

  function RunList(strokes: seq<Stroke>): seq<Run>
  {
    if strokes == [] then []
    else [Run(true, strokes[0].mark), Run(false, strokes[0].gap)] + RunList(strokes[1..])
  }

  // ----- the tokens of keyed text -----

  lemma {:induction false} RunListAppend(a: seq<Stroke>, b: seq<Stroke>)
    ensures RunList(a + b) == RunList(a) + RunList(b)
  {
    if a == [] {
      assert a + b == b;
    } else {
      RunListAppend(a[1..], b);
      assert (a + b)[1..] == a[1..] + b;
      var first := [Run(true, a[0].mark), Run(false, a[0].gap)];
      assert first + (RunList(a[1..]) + RunList(b)) == first + RunList(a[1..]) + RunList(b);
    }
  }

  // The runs of strokes end with the last gap.
  lemma RunListEnds(strokes: seq<Stroke>)
    requires strokes != []
    ensures RunList(strokes) != []
    ensures RunList(strokes) == Completed(RunList(strokes)) + [Run(false, strokes[|strokes| - 1].gap)]
    decreases |strokes|
  {
  }

  // The marks of one character, up to its last gap, give the character's group.
  lemma {:induction false} EmittedGroup(t: Thresholds, g: seq<int>, strokes: seq<Stroke>)
    requires Ordered(t) && KeysGroup(t, g, strokes)
    ensures RunList(strokes) != [] && Emitted(t, Completed(RunList(strokes))) == g
    decreases |g|
  {
    var mark := Run(true, strokes[0].mark);
    assert RunTokens(t, mark, true) == [g[0]];
    EmittedOne(t, mark);
    RunListEnds(strokes);
    if |g| == 1 {
      assert RunList(strokes[1..]) == [];
      assert Completed(RunList(strokes)) == [mark];
    } else {
      var gap := Run(false, strokes[0].gap);
      assert RunTokens(t, gap, true) == [];
      EmittedOne(t, gap);
      assert g[1..] != [] && KeysGroup(t, g[1..], strokes[1..]);
      EmittedGroup(t, g[1..], strokes[1..]);
      assert Completed(RunList(strokes)) == [mark] + ([gap] + Completed(RunList(strokes[1..])));
      EmittedAppend(t, [mark], [gap] + Completed(RunList(strokes[1..])));
      EmittedAppend(t, [gap], Completed(RunList(strokes[1..])));
      assert g == [g[0]] + g[1..];
    }
  }

  function Groups(text: string): (groups: seq<seq<int>>)
    ensures |groups| == |text| && forall i :: 0 <= i < |text| ==> groups[i] == Group(text[i])
  {
    seq(|text|, i requires 0 <= i < |text| => Group(text[i]))
  }

  // The runs of a character and of what follows it.
  lemma SplitRuns(strokes: seq<Stroke>, n: nat)
    requires 0 < n < |strokes|
    ensures RunList(strokes[..n]) != [] && RunList(strokes[n..]) != []
    ensures Completed(RunList(strokes))
         == Completed(RunList(strokes[..n])) + ([Run(false, strokes[n - 1].gap)] + Completed(RunList(strokes[n..])))
  {
    assert strokes == strokes[..n] + strokes[n..];
    RunListAppend(strokes[..n], strokes[n..]);
    RunListEnds(strokes[..n]);
    RunListEnds(strokes[n..]);
    hide RunList;
    CompletedAppend(Completed(RunList(strokes[..n])), Run(false, strokes[n - 1].gap), RunList(strokes[n..]));
  }

  lemma CompletedAppend(a: seq<Run>, r: Run, b: seq<Run>)
    requires b != []
    ensures Completed(a + [r] + b) == a + ([r] + Completed(b))
  {
  }

  lemma {:induction false} EmittedText(t: Thresholds, text: string, strokes: seq<Stroke>)
    requires Ordered(t) && Keys(t, text, strokes)
    ensures Emitted(t, Completed(RunList(strokes))) == Separated(Groups(text))
    decreases |text|
  {
    hide Group, Emitted, RunTokens, KeysGroup;
    var g := Group(text[0]);
    var n := |g|;
    EmittedGroup(t, g, strokes[..n]);
    if |text| == 1 {
      assert strokes[..n] == strokes;
      assert Groups(text) == [g];
    } else {
      var gap := Run(false, strokes[n - 1].gap);
      KeysMore(t, text, strokes);
      SplitRuns(strokes, n);
      var more := Completed(RunList(strokes[n..]));
      EmittedAppend(t, Completed(RunList(strokes[..n])), [gap] + more);
      EmittedAppend(t, [gap], more);
      EmittedOne(t, gap);
      assert RunTokens(t, gap, true) == GapTokens(t, gap.length) by {
        GapRun(t, gap.length);
      }
      if text[1] == ' ' {
        EmittedText(t, text[2..], strokes[n..]);
        SpaceGroup();
        assert Groups(text)[1..][0] == [WORD_GAP];
        assert Groups(text)[1..][1..] == Groups(text[2..]);
        SpacedGroups(g, Groups(text[2..]));
        assert Groups(text) == [g, [WORD_GAP]] + Groups(text[2..]);
      } else {
        EmittedText(t, text[1..], strokes[n..]);
        assert Groups(text)[1..] == Groups(text[1..]);
      }
    }
  }

  lemma SpaceGroup()
    ensures Group(' ') == [WORD_GAP]
  {
  }

  lemma GapRun(t: Thresholds, length: nat)
    ensures RunTokens(t, Run(false, length), true) == GapTokens(t, length)
  {
  }

  lemma SpacedGroups(g: seq<int>, rest: seq<seq<int>>)
    requires rest != []
    ensures Separated([g, [WORD_GAP]] + rest) == g + ([LETTER_GAP, WORD_GAP, LETTER_GAP] + Separated(rest))
  {
  }

  lemma KeysMore(t: Thresholds, text: string, strokes: seq<Stroke>)
    requires Keys(t, text, strokes) && |text| > 1
    ensures |Group(text[0])| < |strokes|
    ensures text[1] == ' ' ==> |text| > 2
  {
  }

  // ----- energies of keyed strokes -----

  /** The frames after `lead` quiet ones are high and low as the shape says: strictly above or
      below the level where a run begins, possibly at the level inside a run. */
  predicate KeyedAs(en: seq<int>, level: int, lead: nat, shape: seq<bool>)
  {
    && |en| == lead + |shape|
    && (forall i :: 0 <= i < lead ==> en[i] <= level)
    && (forall j :: 0 <= j < |shape| ==> if shape[j] then en[lead + j] >= level else en[lead + j] <= level)
    && (forall j :: 0 <= j < |shape| && Begins(shape, j) ==> en[lead + j] != level)
  }

  // A run begins at frame j.
  predicate Begins(shape: seq<bool>, j: nat)
    requires j < |shape|
  {
    j == 0 || shape[j] != shape[j - 1]
  }

  lemma {:induction false} KeyedLevels(en: seq<int>, level: int, lead: nat, shape: seq<bool>)
    requires KeyedAs(en, level, lead, shape) && (shape != [] ==> shape[0])
    ensures HighLow(en, level) == shape
    decreases |en|
  {
    if shape != [] {
      var k, init := |shape| - 1, en[..|en| - 1];
      forall j | 0 <= j < k
        ensures if shape[..k][j] then init[lead + j] >= level else init[lead + j] <= level
        ensures Begins(shape[..k], j) ==> init[lead + j] != level
      {
        assert init[lead + j] == en[lead + j] && shape[..k][j] == shape[j];
        assert Begins(shape, j) == Begins(shape[..k], j);
      }
      KeyedLevels(init, level, lead, shape[..k]);
      assert Begins(shape, k) == (k == 0 || shape[k] != shape[k - 1]);
      assert en[|en| - 1] == en[lead + k] && shape == shape[..k] + [shape[k]];
    } else if en != [] {
      assert KeyedAs(en[..|en| - 1], level, lead - 1, []);
      KeyedLevels(en[..|en| - 1], level, lead - 1, []);
    }
  }

  lemma {:induction false} KeyedRunsMaximal(t: Thresholds, text: string, strokes: seq<Stroke>)
    requires Ordered(t) && Keys(t, text, strokes)
    ensures forall i :: 0 <= i < |strokes| ==> strokes[i].mark > 0 && strokes[i].gap > 0
    decreases |text|
  {
    hide Group;
    var n := |Group(text[0])|;
    if |text| == 1 {
      assert strokes[..n] == strokes;
    } else {
      KeyedRunsMaximal(t, if text[1] == ' ' then text[2..] else text[1..], strokes[n..]);
      forall i | 0 <= i < |strokes|
        ensures strokes[i].mark > 0 && strokes[i].gap > 0
      {
        if i < n {
          assert strokes[i] == strokes[..n][i];
        } else {
          assert strokes[i] == strokes[n..][i - n];
        }
      }
    }
  }

  lemma {:induction false} RunListMaximal(strokes: seq<Stroke>)
    requires forall i :: 0 <= i < |strokes| ==> strokes[i].mark > 0 && strokes[i].gap > 0
    ensures Maximal(RunList(strokes)) && (strokes != [] ==> RunList(strokes) != [] && RunList(strokes)[0].high)
  {
    if strokes != [] {
      RunListMaximal(strokes[1..]);
    }
  }

  // What the strokes sound like, frame by frame.
  function Sound(strokes: seq<Stroke>): seq<bool>
  {
    Expand(RunList(strokes))
  }

  lemma {:induction false} ExpandStartsHigh(runs: seq<Run>)
    requires Maximal(runs) && runs != [] && runs[0].high
    ensures Expand(runs) != [] && Expand(runs)[0]
  {
    if |runs| > 1 {
      ExpandStartsHigh(runs[..|runs| - 1]);
    } else {
      assert runs[..0] == [] && Expand(runs[..0]) == [];
    }
  }

  /** The automaton's decision on keyed text: START and the characters' groups. */
  lemma DecidedText(t: Thresholds, text: string, strokes: seq<Stroke>, en: seq<int>, lead: nat)
    requires Ordered(t) && Keys(t, text, strokes) && KeyedAs(en, t.level, lead, Sound(strokes))
    ensures Decided(t, en) == [START] + Separated(Groups(text))
  {
    hide Keys, Group, AllTokens, Emitted, Separated, RunsOf, HighLow, Maximal, RunList, KeyedAs, MarkTokens, Expand;
    var runs := RunList(strokes);
    KeyedRunsMaximal(t, text, strokes);
    RunListMaximal(strokes);
    KeysStart(t, text, strokes);
    ExpandStartsHigh(runs);
    KeyedLevels(en, t.level, lead, Sound(strokes));
    RunsAreUnique(runs);
    assert Completed(runs)[0] == runs[0];
    StartsAtOnce(t, Completed(runs));
    EmittedText(t, text, strokes);
  }

  // A message that begins with a classified mark: START, then the tokens of its runs.
  lemma StartsAtOnce(t: Thresholds, runs: seq<Run>)
    requires runs != [] && runs[0].high && MarkTokens(t, runs[0].length) != []
    ensures AllTokens(t, runs) == [START] + Emitted(t, runs)
  {
    StartPlace(t, runs);
    assert runs[..0] == [] && runs[0..] == runs && Emitted(t, []) == [];
  }

  lemma KeysStart(t: Thresholds, text: string, strokes: seq<Stroke>)
    requires Ordered(t) && Keys(t, text, strokes)
    ensures strokes != [] && |RunList(strokes)| >= 2
    ensures RunList(strokes)[0] == Run(true, strokes[0].mark) && MarkTokens(t, strokes[0].mark) != []
  {
  }

  /** End to end: however a text is keyed within the thresholds' ranges, the automaton followed
      by the parser prints it character by character; and it prints exactly the text if and
      only if every character is in the round-trip alphabet. */
  lemma EndToEnd(t: Thresholds, text: string, strokes: seq<Stroke>, en: seq<int>, lead: nat)
    requires Ordered(t) && Keys(t, text, strokes) && KeyedAs(en, t.level, lead, Sound(strokes))
    ensures GroupsFit(Decided(t, en)) && Parse(Decided(t, en)) == PrintedText(text)
    ensures Parse(Decided(t, en)) == text <==> forall i :: 0 <= i < |text| ==> RoundTrips(text[i])
  {
    DecidedText(t, text, strokes, en, lead);
    hide Decided, Group, Parse, Separated, Keys, KeyedAs, GroupsFit, Lookup, Stable;
    var groups := Groups(text);
    forall i | 0 <= i < |groups|
      ensures GapFree(groups[i]) && |groups[i]| <= 7
    {
      GroupShape(text[i]);
    }
    KeysSendable(t, text, strokes);
    ParseDistributes(START, groups);
    LookupText(text);
    PrintedIsText(text);
    StableAlphabet(text);
  }

  lemma {:induction false} KeysSendable(t: Thresholds, text: string, strokes: seq<Stroke>)
    requires Keys(t, text, strokes)
    ensures text != "" && forall i :: 0 <= i < |text| ==> Group(text[i]) != []
    decreases |text|
  {
    hide Group, KeysGroup;
    if |text| > 1 {
      var n := |Group(text[0])|;
      SpaceGroup();
      if text[1] == ' ' {
        KeysSendable(t, text[2..], strokes[n..]);
        assert forall i :: 2 <= i < |text| ==> text[i] == text[2..][i - 2];
      } else {
        KeysSendable(t, text[1..], strokes[n..]);
        assert forall i :: 1 <= i < |text| ==> text[i] == text[1..][i - 1];
      }
    }
  }

  lemma {:induction false} LookupText(text: string)
    ensures LookupAll(Groups(text)) == PrintedText(text)
  {
    hide Lookup, Group, Printed;
    if text != "" {
      LookupGroup(text[0]);
      LookupText(text[1..]);
      assert Groups(text)[1..] == Groups(text[1..]);
    }
  }

  /** The same for the receiver in place: the text buffer holds the keyed text. */
  method ReceiveKeyed(en: seq<int>, t: Thresholds, code: array<char>, ghost text: string, ghost strokes: seq<Stroke>,
                      ghost lead: nat)
    requires Ordered(t) && Keys(t, text, strokes) && KeyedAs(en, t.level, lead, Sound(strokes))
    requires forall i :: 0 <= i < |text| ==> RoundTrips(text[i])
    requires 1 + |Separated(Groups(text))| < JUDGED_SIZE && |text| <= TEXT_SIZE && code.Length == TEXT_SIZE
    modifies code
    ensures code[..] == Filled(text)
  {
    EndToEnd(t, text, strokes, en, lead);
    DecidedText(t, text, strokes, en, lead);
    Receive(en, t, code);
  }
}
