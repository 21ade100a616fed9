/**
 What is decided, mark by mark and gap by gap: how often each token occurs, and what a single
 mark comes to, in and out of the ranges.
 */
module MorseCounts {
  import opened MorseCode
  import opened MorseDecision
  import opened MorseLink

  // How many runs pass a test.
  ghost function Number(runs: seq<Run>, test: Run -> bool): nat
  {
    if runs == [] then 0 else Number(runs[..|runs| - 1], test) + if test(runs[|runs| - 1]) then 1 else 0
  }

  // High runs of at least `from` and less than `below` frames.
  function Marks(from: int, below: int): Run -> bool
  {
    (r: Run) => r.high && from <= r.length < below
  }

  // Low runs of more than `over` and at most `upTo` frames.
  function Gaps(over: int, upTo: int): Run -> bool
  {
    (r: Run) => !r.high && over < r.length <= upTo
  }

  function LongGaps(over: int): Run -> bool
  {
    (r: Run) => !r.high && r.length > over
  }

  function Nothing(): Run -> bool
  {
    (r: Run) => false
  }

  lemma {:induction false} TokenNumber(t: Thresholds, runs: seq<Run>, token: int, once: Run -> bool, twice: Run -> bool)
    requires forall r: Run, started: bool ::
               multiset(RunTokens(t, r, started))[token] == (if once(r) then 1 else 0) + if twice(r) then 2 else 0
    ensures multiset(AllTokens(t, runs))[token] == Number(runs, once) + 2 * Number(runs, twice)
  {
    hide RunTokens, Started;
    if runs != [] {
      TokenNumber(t, runs[..|runs| - 1], token, once, twice);
    }
  }

  /** For every energy sequence and all thresholds: there is a dot for every completed high run of
      at least dotMin and less than dashMin frames, a dash for every one of at least dashMin and
      less than dashEnd, a letter gap for every low run longer than letterGap, two if it is longer
      than wordGap, with a word gap for each of those; and nothing else but START, at most once. */
  lemma TokenCounts(t: Thresholds, en: seq<int>)
    requires Ordered(t)
    ensures var runs, tokens := Completed(RunsOf(HighLow(en, t.level))), Decided(t, en);
            && multiset(tokens)[100] == Number(runs, Marks(t.dotMin, t.dashMin))
            && multiset(tokens)[300] == Number(runs, Marks(t.dashMin, t.dashEnd))
            && multiset(tokens)[3000] == Number(runs, Gaps(t.letterGap, t.wordGap))
                                         + 2 * Number(runs, LongGaps(t.wordGap))
            && multiset(tokens)[7000] == Number(runs, LongGaps(t.wordGap))
            && multiset(tokens)[1] <= 1
            && forall x :: x in tokens ==> x == 100 || x == 300 || x == 3000 || x == 7000 || x == 1
  {
    hide RunTokens, RunsOf, HighLow, Completed, Marks, Gaps, LongGaps, AllTokens;
    var runs := Completed(RunsOf(HighLow(en, t.level)));
    Dots(t, runs);
    Dashes(t, runs);
    LetterGaps(t, runs);
    WordGaps(t, runs);
    OneStart(t, runs);
    OnlyTokens(t, runs);
  }

  lemma Dots(t: Thresholds, runs: seq<Run>)
    requires Ordered(t)
    ensures multiset(AllTokens(t, runs))[100] == Number(runs, Marks(t.dotMin, t.dashMin))
  {
    NoneOfNone(runs);
    TokenNumber(t, runs, 100, Marks(t.dotMin, t.dashMin), Nothing());
  }

  lemma Dashes(t: Thresholds, runs: seq<Run>)
    requires Ordered(t)
    ensures multiset(AllTokens(t, runs))[300] == Number(runs, Marks(t.dashMin, t.dashEnd))
  {
    NoneOfNone(runs);
    TokenNumber(t, runs, 300, Marks(t.dashMin, t.dashEnd), Nothing());
  }

  lemma LetterGaps(t: Thresholds, runs: seq<Run>)
    requires Ordered(t)
    ensures multiset(AllTokens(t, runs))[3000]
         == Number(runs, Gaps(t.letterGap, t.wordGap)) + 2 * Number(runs, LongGaps(t.wordGap))
  {
    TokenNumber(t, runs, 3000, Gaps(t.letterGap, t.wordGap), LongGaps(t.wordGap));
  }

  lemma WordGaps(t: Thresholds, runs: seq<Run>)
    requires Ordered(t)
    ensures multiset(AllTokens(t, runs))[7000] == Number(runs, LongGaps(t.wordGap))
  {
    NoneOfNone(runs);
    TokenNumber(t, runs, 7000, LongGaps(t.wordGap), Nothing());
  }

  lemma OneStart(t: Thresholds, runs: seq<Run>)
    ensures multiset(AllTokens(t, runs))[1] <= 1
  {
    hide Emitted, AllTokens, FirstMark;
    StartPlace(t, runs);
    var i := FirstMark(t, runs);
    var front, mid, back := Emitted(t, runs[..i]), if i < |runs| then [START] else [], Emitted(t, runs[i..]);
    assert multiset(front + mid + back) == multiset(front) + multiset(mid) + multiset(back);
    assert multiset(front)[1] == 0 && multiset(back)[1] == 0;
  }

  lemma {:induction false} NoneOfNone(runs: seq<Run>)
    ensures Number(runs, Nothing()) == 0
  {
    if runs != [] {
      NoneOfNone(runs[..|runs| - 1]);
    }
  }

  lemma {:induction false} OnlyTokens(t: Thresholds, runs: seq<Run>)
    ensures forall x :: x in AllTokens(t, runs) ==> x == 100 || x == 300 || x == 3000 || x == 7000 || x == 1
  {
    if runs != [] {
      OnlyTokens(t, runs[..|runs| - 1]);
    }
  }

  /** A single mark: after any frames not above the level, n frames of which the first is above it
      and none below, and one below. It is decided as START and a dot or a dash if n is in the range,
      and otherwise dropped. */
  lemma MarkAlone(t: Thresholds, en: seq<int>, lead: nat, n: nat)
    requires n > 0 && |en| == lead + n + 1 && forall i :: 0 <= i < lead ==> en[i] <= t.level
    requires en[lead] > t.level && en[lead + n] < t.level && forall i :: lead <= i < lead + n ==> en[i] >= t.level
    ensures Decided(t, en)
         == if t.dotMin <= n < t.dashMin then [1, 100] else if t.dashMin <= n < t.dashEnd then [1, 300] else []
    ensures Decided(t, en[..lead + n]) == []
  {
    hide HighLow, RunsOf, Expand, AllTokens;
    var runs := [Run(true, n), Run(false, 1)];
    MarkShape(n);
    assert KeyedAs(en, t.level, lead, Steady(true, n) + [false]);
    KeyedLevels(en, t.level, lead, Steady(true, n) + [false]);
    RunsAreUnique(runs);
    assert Completed(runs) == [Run(true, n)];
    OneMarkTokens(t, n);
    Unfinished(t, en, lead, n);
  }

  lemma MarkShape(n: nat)
    ensures Expand([Run(true, n), Run(false, 1)]) == Steady(true, n) + [false]
  {
    hide Expand;
    NoRuns();
    var first: seq<Run> := [];
    ExpandSnoc(first, true, n);
    ExpandSnoc(first + [Run(true, n)], false, 1);
    assert (first + [Run(true, n)]) + [Run(false, 1)] == [Run(true, n), Run(false, 1)];
  }

  lemma OneMarkTokens(t: Thresholds, n: nat)
    ensures AllTokens(t, [Run(true, n)])
         == if t.dotMin <= n < t.dashMin then [1, 100] else if t.dashMin <= n < t.dashEnd then [1, 300] else []
  {
    assert [Run(true, n)][..0] == [] && AllTokens(t, []) == [];
  }

  lemma Unfinished(t: Thresholds, en: seq<int>, lead: nat, n: nat)
    requires n > 0 && lead + n <= |en| && forall i :: 0 <= i < lead ==> en[i] <= t.level
    requires en[lead] > t.level && forall i :: lead <= i < lead + n ==> en[i] >= t.level
    ensures Decided(t, en[..lead + n]) == []
  {
    var runs, mark := [Run(true, n)], en[..lead + n];
    var shape := Expand(runs);
    var first: seq<Run> := [];
    assert runs == first + [Run(true, n)] && Expand(first) == [];
    ExpandSnoc(first, true, n);
    assert shape == Steady(true, n);
    assert KeyedAs(mark, t.level, lead, shape);
    KeyedLevels(mark, t.level, lead, shape);
    RunsAreUnique(runs);
    assert AllTokens(t, []) == [];
    hide HighLow, RunsOf;
  }

  // ----- two marks and the gap between them -----

  // The frames of two marks with a gap between them, and one low frame behind.
  predicate TwoMarks(en: seq<int>, level: int, n: nat, gap: nat, m: nat)
  {
    && n > 0 && gap > 0 && m > 0 && |en| == n + gap + m + 1
    && (forall i :: 0 <= i < n ==> en[i] > level) && (forall i :: n <= i < n + gap ==> en[i] < level)
    && (forall i :: n + gap <= i < n + gap + m ==> en[i] > level) && en[n + gap + m] < level
  }

  /** Between two classified marks a gap is nothing, a letter gap, or a word gap between two letter
      gaps, by its length. */
  lemma GapBetween(t: Thresholds, en: seq<int>, n: nat, gap: nat, m: nat)
    requires Ordered(t) && TwoMarks(en, t.level, n, gap, m)
    requires t.dotMin <= n < t.dashEnd && t.dotMin <= m < t.dashEnd
    ensures Decided(t, en)
         == [1, if n < t.dashMin then 100 else 300]
            + (if gap <= t.letterGap then [] else if gap <= t.wordGap then [3000] else [3000, 7000, 3000])
            + [if m < t.dashMin then 100 else 300]
  {
    hide HighLow, RunsOf, Expand, AllTokens, RunTokens, Emitted;
    var runs := [Run(true, n), Run(false, gap), Run(true, m), Run(false, 1)];
    var shape := Steady(true, n) + Steady(false, gap) + Steady(true, m) + [false];
    TwoMarksShape(n, gap, m);
    assert KeyedAs(en, t.level, 0, shape);
    KeyedLevels(en, t.level, 0, shape);
    RunsAreUnique(runs);
    assert Completed(runs) == [Run(true, n), Run(false, gap), Run(true, m)];
    TwoMarksTokens(t, n, gap, m);
  }

  lemma TwoMarksShape(n: nat, gap: nat, m: nat)
    ensures Expand([Run(true, n), Run(false, gap), Run(true, m), Run(false, 1)])
         == Steady(true, n) + Steady(false, gap) + Steady(true, m) + [false]
  {
    hide Expand;
    NoRuns();
    var first: seq<Run> := [];
    ExpandSnoc(first, true, n);
    ExpandSnoc([Run(true, n)], false, gap);
    ExpandSnoc([Run(true, n), Run(false, gap)], true, m);
    ExpandSnoc([Run(true, n), Run(false, gap), Run(true, m)], false, 1);
    assert first + [Run(true, n)] == [Run(true, n)];
    assert [Run(true, n)] + [Run(false, gap)] == [Run(true, n), Run(false, gap)];
    assert [Run(true, n), Run(false, gap)] + [Run(true, m)] == [Run(true, n), Run(false, gap), Run(true, m)];
    assert [Run(true, n), Run(false, gap), Run(true, m)] + [Run(false, 1)]
        == [Run(true, n), Run(false, gap), Run(true, m), Run(false, 1)];
    assert Steady(false, 1) == [false];
  }

  lemma TwoMarksTokens(t: Thresholds, n: nat, gap: nat, m: nat)
    requires Ordered(t) && t.dotMin <= n < t.dashEnd && t.dotMin <= m < t.dashEnd
    ensures AllTokens(t, [Run(true, n), Run(false, gap), Run(true, m)])
         == [1, if n < t.dashMin then 100 else 300]
            + (if gap <= t.letterGap then [] else if gap <= t.wordGap then [3000] else [3000, 7000, 3000])
            + [if m < t.dashMin then 100 else 300]
  {
    hide AllTokens, Emitted;
    StartsAtOnce(t, [Run(true, n), Run(false, gap), Run(true, m)]);
    assert [Run(true, n), Run(false, gap), Run(true, m)] == [Run(true, n)] + ([Run(false, gap)] + [Run(true, m)]);
    EmittedAppend(t, [Run(true, n)], [Run(false, gap)] + [Run(true, m)]);
    EmittedAppend(t, [Run(false, gap)], [Run(true, m)]);
    EmittedOne(t, Run(true, n));
    EmittedOne(t, Run(false, gap));
    EmittedOne(t, Run(true, m));
  }

  /** The ranges of the two threads, in frames, above and below an energy of a million. */
  lemma ThreadRanges(en: seq<int>, n: nat, gap: nat, m: nat)
    requires TwoMarks(en, 1000000, n, gap, m)
    ensures 10 <= n < 50 && 10 <= m < 50 ==>
              Decided(ONCE, en)
              == [1, if n < 35 then 100 else 300]
                 + (if gap <= 6 then [] else if gap <= 15 then [3000] else [3000, 7000, 3000])
                 + [if m < 35 then 100 else 300]
    ensures 3 <= n < 20 && 3 <= m < 20 ==>
              Decided(TEST, en)
              == [1, if n < 10 then 100 else 300]
                 + (if gap <= 8 then [] else if gap <= 60 then [3000] else [3000, 7000, 3000])
                 + [if m < 10 then 100 else 300]
  {
    hide Decided;
    if 10 <= n < 50 && 10 <= m < 50 {
      GapBetween(ONCE, en, n, gap, m);
    }
    if 3 <= n < 20 && 3 <= m < 20 {
      GapBetween(TEST, en, n, gap, m);
    }
  }

  /** Marks outside those ranges are dropped by either thread: a click is no dot. */
  lemma ThreadsDrop(en: seq<int>, n: nat)
    requires n > 0 && |en| == n + 1 && en[n] < 1000000 && forall i :: 0 <= i < n ==> en[i] > 1000000
    ensures Decided(ONCE, en) == [] <==> n < 10 || n >= 50
    ensures Decided(TEST, en) == [] <==> n < 3 || n >= 20
  {
    hide Decided;
    MarkAlone(ONCE, en, 0, n);
    MarkAlone(TEST, en, 0, n);
  }
}
