/**
 The receiver's decision automaton: from frame energies to tokens, by the lengths of the
 runs of high and low frames.
 */
module MorseDecision {
  import opened MorseCode

  /** Energy level and run-length limits. A mark of length H is a dot when dotMin <= H <
      dashMin and a dash when dashMin <= H < dashEnd; a gap of length L separates letters when
      letterGap < L <= wordGap and words when L > wordGap. */
  datatype Thresholds = Thresholds(level: int, dotMin: int, dashMin: int, dashEnd: int, letterGap: int, wordGap: int)

  const ONCE := Thresholds(1000000, 10, 35, 50, 6, 15)
  const TEST := Thresholds(1000000, 3, 10, 20, 8, 60)

  predicate Ordered(t: Thresholds)
  {
    0 <= t.dotMin <= t.dashMin <= t.dashEnd && 0 <= t.letterGap <= t.wordGap
  }

  // The thresholds of both threads are.
  lemma ThreadsAreOrdered()
    ensures Ordered(ONCE) && Ordered(TEST)
  {
  }

  // ----- frames as high or low -----

  /** The signal from its first high frame on: a frame above the level is high, one below it
      is low, and one at the level is like the frame before. */
  function HighLow(en: seq<int>, level: int): (hl: seq<bool>)
    ensures |hl| <= |en|
  {
    if en == [] then []
    else
      var before, e := HighLow(en[..|en| - 1], level), en[|en| - 1];
      if e > level then before + [true]
      else if before == [] then []
      else if e < level then before + [false]
      else before + [before[|before| - 1]]
  }

  // ----- maximal runs -----

  datatype Run = Run(high: bool, length: nat)

  // The last run, one frame longer.
  function Extended(runs: seq<Run>): seq<Run>
    requires runs != []
  {
    var last := runs[|runs| - 1];
    runs[..|runs| - 1] + [Run(last.high, last.length + 1)]
  }

  // One more frame: it extends the last run or begins another.
  function Grow(runs: seq<Run>, b: bool): seq<Run>
  {
    if runs != [] && runs[|runs| - 1].high == b then Extended(runs) else runs + [Run(b, 1)]
  }

  function RunsOf(hl: seq<bool>): seq<Run>
  {
    if hl == [] then [] else Grow(RunsOf(hl[..|hl| - 1]), hl[|hl| - 1])
  }

  // n copies of b.
  function Steady(b: bool, n: nat): (s: seq<bool>)
    ensures |s| == n && forall i :: 0 <= i < n ==> s[i] == b
  {
    seq(n, _ => b)
  }

  function Expand(runs: seq<Run>): seq<bool>
  {
    if runs == [] then []
    else Expand(runs[..|runs| - 1]) + Steady(runs[|runs| - 1].high, runs[|runs| - 1].length)
  }

  // Non-empty runs that alternate.
  predicate Maximal(runs: seq<Run>)
  {
    && (forall i :: 0 <= i < |runs| ==> runs[i].length > 0)
    && (forall i, j :: 0 <= i && j == i + 1 < |runs| ==> runs[i].high != runs[j].high)
  }

  lemma RunsOfSnoc(hl: seq<bool>, b: bool)
    ensures RunsOf(hl + [b]) == Grow(RunsOf(hl), b)
  {
  }

  lemma ExpandSnoc(init: seq<Run>, b: bool, n: nat)
    ensures Expand(init + [Run(b, n)]) == Expand(init) + Steady(b, n)
  {
  }

  // Taking the last frame off the last run.
  lemma ExpandShorter(init: seq<Run>, b: bool, n: nat)
    ensures Expand(init + [Run(b, 1)]) == Expand(init) + [b]
    ensures Expand(init + [Run(b, n + 1)]) == Expand(init + [Run(b, n)]) + [b]
  {
    hide Expand;
    ExpandSnoc(init, b, 1);
    ExpandSnoc(init, b, n);
    ExpandSnoc(init, b, n + 1);
    assert Steady(b, 1) == [b];
    assert Steady(b, n + 1) == Steady(b, n) + [b];
  }

  // One more frame keeps the runs maximal ...
  lemma GrowMaximal(runs: seq<Run>, b: bool)
    requires Maximal(runs)
    ensures Maximal(Grow(runs, b))
  {
  }

  // ... and adds that frame to what they stand for.
  lemma GrowExpand(runs: seq<Run>, b: bool)
    ensures Expand(Grow(runs, b)) == Expand(runs) + [b]
  {
  }

  /** RunsOf is the decomposition into maximal runs... */
  lemma {:induction false} RunsAreMaximal(hl: seq<bool>)
    ensures Maximal(RunsOf(hl)) && Expand(RunsOf(hl)) == hl
  {
    hide Grow, Maximal;
    if hl == [] {
      NoRuns();
    } else {
      var init, b := hl[..|hl| - 1], hl[|hl| - 1];
      RunsAreMaximal(init);
      GrowMaximal(RunsOf(init), b);
      GrowExpand(RunsOf(init), b);
      assert hl == init + [b];
    }
  }

  /** ... and the only one. */
  lemma {:induction false} RunsAreUnique(runs: seq<Run>)
    requires Maximal(runs)
    ensures RunsOf(Expand(runs)) == runs
    decreases |Expand(runs)|
  {
    hide RunsOf, Expand;
    if runs == [] {
      NoRuns();
    } else {
      var last, init := runs[|runs| - 1], runs[..|runs| - 1];
      assert runs == init + [last];
      ExpandShorter(init, last.high, last.length - 1);
      if last.length == 1 {
        RunsAreUnique(init);
        RunsOfSnoc(Expand(init), last.high);
      } else {
        var shorter := init + [Run(last.high, last.length - 1)];
        RunsAreUnique(shorter);
        RunsOfSnoc(Expand(shorter), last.high);
        assert shorter[..|shorter| - 1] == init;
      }
    }
  }

  lemma NoRuns()
    ensures Expand([]) == [] && RunsOf([]) == [] && Maximal([])
  {
  }

  // ----- classification -----

  function MarkTokens(t: Thresholds, length: nat): seq<int>
  {
    if t.dotMin <= length < t.dashMin then [DOT] else if t.dashMin <= length < t.dashEnd then [DASH] else []
  }

  function GapTokens(t: Thresholds, length: nat): seq<int>
  {
    if t.letterGap < length <= t.wordGap then [LETTER_GAP]
    else if length > t.wordGap then [LETTER_GAP, WORD_GAP, LETTER_GAP]
    else []
  }

  // Some run among these is a classified mark.
  predicate Started(t: Thresholds, runs: seq<Run>)
  {
    exists i :: 0 <= i < |runs| && runs[i].high && MarkTokens(t, runs[i].length) != []
  }

  // The tokens of one completed run; START goes before the first classified mark.
  function RunTokens(t: Thresholds, r: Run, started: bool): seq<int>
  {
    if !r.high then GapTokens(t, r.length)
    else if started || MarkTokens(t, r.length) == [] then MarkTokens(t, r.length)
    else [START] + MarkTokens(t, r.length)
  }

  function AllTokens(t: Thresholds, runs: seq<Run>): seq<int>
  {
    if runs == [] then []
    else
      var init := runs[..|runs| - 1];
      AllTokens(t, init) + RunTokens(t, runs[|runs| - 1], Started(t, init))
  }

  function Completed(runs: seq<Run>): seq<Run>
  {
    if runs == [] then [] else runs[..|runs| - 1]
  }

  /** What the automaton decides: the tokens of every run that has ended. */
  function Decided(t: Thresholds, en: seq<int>): seq<int>
  {
    AllTokens(t, Completed(RunsOf(HighLow(en, t.level))))
  }

  // ----- where START goes -----

  // The tokens of some runs, START aside.
  function Emitted(t: Thresholds, runs: seq<Run>): seq<int>
  {
    if runs == [] then [] else RunTokens(t, runs[0], true) + Emitted(t, runs[1..])
  }

  predicate ClassifiedMark(t: Thresholds, r: Run)
  {
    r.high && MarkTokens(t, r.length) != []
  }

  // The first classified mark, or the number of runs.
  function FirstMark(t: Thresholds, runs: seq<Run>): (i: nat)
    ensures i <= |runs| && (forall k :: 0 <= k < i ==> !ClassifiedMark(t, runs[k]))
    ensures i < |runs| ==> ClassifiedMark(t, runs[i])
  {
    if runs == [] || ClassifiedMark(t, runs[0]) then 0 else 1 + FirstMark(t, runs[1..])
  }

  lemma {:induction false} EmittedAppend(t: Thresholds, a: seq<Run>, b: seq<Run>)
    ensures Emitted(t, a + b) == Emitted(t, a) + Emitted(t, b)
  {
    hide RunTokens;
    if a == [] {
      assert a + b == b;
    } else {
      EmittedAppend(t, a[1..], b);
      assert (a + b)[1..] == a[1..] + b;
    }
  }

  lemma EmittedOne(t: Thresholds, r: Run)
    ensures Emitted(t, [r]) == RunTokens(t, r, true)
  {
  }

  // START aside, the tokens of a run do not depend on what came before.
  lemma TokensOnceStarted(t: Thresholds, r: Run, started: bool)
    ensures RunTokens(t, r, started)
         == (if !started && ClassifiedMark(t, r) then [START] else []) + RunTokens(t, r, true)
  {
  }

  lemma {:induction false} NoStart(t: Thresholds, runs: seq<Run>)
    ensures START !in Emitted(t, runs)
  {
    if runs != [] {
      NoStart(t, runs[1..]);
    }
  }

  lemma FirstMarkStable(t: Thresholds, runs: seq<Run>, r: Run)
    ensures FirstMark(t, runs + [r])
         == if FirstMark(t, runs) < |runs| || ClassifiedMark(t, r) then FirstMark(t, runs) else |runs| + 1
  {
    hide ClassifiedMark;
    var i, j := FirstMark(t, runs), FirstMark(t, runs + [r]);
    if i < |runs| {
      assert (runs + [r])[i] == runs[i];
    } else {
      assert (runs + [r])[|runs|] == r;
    }
    if j < |runs| {
      assert (runs + [r])[j] == runs[j];
    }
  }

  lemma StartedAtMark(t: Thresholds, runs: seq<Run>)
    ensures Started(t, runs) <==> FirstMark(t, runs) < |runs|
  {
  }

  /** The tokens are those of every run in order, with one START, just before the first
      classified mark; without such a mark there is no START. */
  lemma {:induction false} StartPlace(t: Thresholds, runs: seq<Run>)
    ensures var i := FirstMark(t, runs);
            && AllTokens(t, runs) == Emitted(t, runs[..i]) + (if i < |runs| then [START] else []) + Emitted(t, runs[i..])
            && START !in Emitted(t, runs[..i]) && START !in Emitted(t, runs[i..])
  {
    hide RunTokens, Emitted, FirstMark, Started, ClassifiedMark;
    var i := FirstMark(t, runs);
    NoStart(t, runs[..i]);
    NoStart(t, runs[i..]);
    if runs == [] {
      NothingEmitted(t);
    } else {
      var init, last := runs[..|runs| - 1], runs[|runs| - 1];
      var i' := FirstMark(t, init);
      assert runs == init + [last];
      StartPlace(t, init);
      StartedAtMark(t, init);
      FirstMarkStable(t, init, last);
      TokensOnceStarted(t, last, Started(t, init));
      EmittedOne(t, last);
      if i' < |init| {
        assert runs[..i] == init[..i'] && runs[i..] == init[i'..] + [last];
        EmittedAppend(t, init[i'..], [last]);
      } else {
        assert init[..i'] == init && init[i'..] == [];
        NothingEmitted(t);
        if ClassifiedMark(t, last) {
          assert runs[..i] == init && runs[i..] == [last];
        } else {
          assert runs[..i] == init + [last] && runs[i..] == [];
          EmittedAppend(t, init, [last]);
        }
      }
    }
  }

  lemma NothingEmitted(t: Thresholds)
    ensures Emitted(t, []) == []
  {
  }

  // ----- one more frame -----

  // The runs after a frame of energy e.
  function NextRuns(runs: seq<Run>, e: int, level: int): seq<Run>
  {
    if e > level && (runs == [] || !runs[|runs| - 1].high) then runs + [Run(true, 1)]
    else if runs == [] then []
    else if e < level && runs[|runs| - 1].high then runs + [Run(false, 1)]
    else Extended(runs)
  }

  lemma LastRun(hl: seq<bool>)
    requires hl != []
    ensures RunsOf(hl) != [] && RunsOf(hl)[|RunsOf(hl)| - 1].high == hl[|hl| - 1]
  {
  }

  // The signal after one more frame: longer by a high, a low or a repeated frame, or not yet begun.
  lemma NextLevel(en: seq<int>, i: nat, level: int)
    requires i < |en|
    ensures var hl := HighLow(en[..i], level);
            HighLow(en[..i + 1], level)
            == if en[i] > level then hl + [true]
               else if hl == [] then []
               else hl + [if en[i] < level then false else hl[|hl| - 1]]
  {
    assert en[..i + 1][..i] == en[..i];
  }

  lemma NextFrame(en: seq<int>, i: nat, level: int)
    requires i < |en|
    ensures RunsOf(HighLow(en[..i + 1], level)) == NextRuns(RunsOf(HighLow(en[..i], level)), en[i], level)
  {
    hide HighLow, RunsOf, Extended;
    var hl := HighLow(en[..i], level);
    NextLevel(en, i, level);
    NoRuns();
    RunsOfSnoc(hl, true);
    RunsOfSnoc(hl, false);
    if hl != [] {
      LastRun(hl);
    }
  }

  lemma AppendedRun(t: Thresholds, runs: seq<Run>, r: Run)
    requires runs != []
    ensures Completed(runs + [r]) == runs
    ensures AllTokens(t, runs)
         == AllTokens(t, Completed(runs)) + RunTokens(t, runs[|runs| - 1], Started(t, Completed(runs)))
    ensures var last := runs[|runs| - 1];
            Started(t, runs) <==> Started(t, Completed(runs)) || (last.high && MarkTokens(t, last.length) != [])
  {
    hide RunTokens, MarkTokens;
    var last := runs[|runs| - 1];
    if last.high && MarkTokens(t, last.length) != [] {
      assert runs[|runs| - 1].high && MarkTokens(t, runs[|runs| - 1].length) != [];
    }
    if Started(t, Completed(runs)) {
      var i :| 0 <= i < |Completed(runs)| && Completed(runs)[i].high && MarkTokens(t, Completed(runs)[i].length) != [];
      assert runs[i].high && MarkTokens(t, runs[i].length) != [];
    }
    if Started(t, runs) {
      var i :| 0 <= i < |runs| && runs[i].high && MarkTokens(t, runs[i].length) != [];
      if i < |runs| - 1 {
        assert Completed(runs)[i].high;
      }
    }
  }

  lemma ExtendedRun(runs: seq<Run>)
    requires runs != []
    ensures Completed(Extended(runs)) == Completed(runs)
  {
  }

  lemma {:induction false} DecidedGrows(t: Thresholds, en: seq<int>, i: nat)
    requires i <= |en|
    ensures |Decided(t, en[..i])| <= |Decided(t, en)|
    decreases |en| - i
  {
    hide AllTokens, Completed, HighLow, RunsOf, Started, RunTokens;
    if i == |en| {
      assert en[..i] == en;
    } else {
      DecidedGrows(t, en, i + 1);
      DecidedStep(t, en, i);
    }
  }

  // What a frame adds to the decision: nothing, or the tokens of the run it ends.
  lemma DecidedStep(t: Thresholds, en: seq<int>, i: nat)
    requires i < |en|
    ensures var runs := RunsOf(HighLow(en[..i], t.level));
            var runs' := NextRuns(runs, en[i], t.level);
            && RunsOf(HighLow(en[..i + 1], t.level)) == runs'
            && (if runs != [] && |runs'| > |runs| then
                  && Decided(t, en[..i + 1])
                  == Decided(t, en[..i]) + RunTokens(t, runs[|runs| - 1], Started(t, Completed(runs)))
                  && (Started(t, Completed(runs'))
                      <==> Started(t, Completed(runs))
                           || (runs[|runs| - 1].high && MarkTokens(t, runs[|runs| - 1].length) != []))
                else
                  Decided(t, en[..i + 1]) == Decided(t, en[..i])
                  && (Started(t, Completed(runs')) <==> Started(t, Completed(runs))))
  {
    hide RunTokens, MarkTokens, HighLow, RunsOf, Started;
    var runs := RunsOf(HighLow(en[..i], t.level));
    NextFrame(en, i, t.level);
    if runs != [] {
      AppendedRun(t, runs, Run(true, 1));
      AppendedRun(t, runs, Run(false, 1));
      ExtendedRun(runs);
    }
  }

  // ----- the automaton -----

  const JUDGED_SIZE: nat := 200

  // How the automaton's variables stand for the runs of the first i frames.
  ghost predicate Tracks(runs: seq<Run>, i: nat, sta: int, m: nat, n: nat)
  {
    && (sta == 0 ==> runs == [])
    && (sta == 1 ==> m < i && runs != [] && runs[|runs| - 1] == Run(true, i - m))
    && (sta == 2 ==> n < i && runs != [] && runs[|runs| - 1] == Run(false, i - n))
    && 0 <= sta <= 2
  }

  // The array holds these tokens and is zero behind them.
  ghost predicate Holds(jud: seq<int>, tokens: seq<int>)
  {
    && |tokens| <= |jud| && jud[..|tokens|] == tokens
    && forall x :: |tokens| <= x < |jud| ==> jud[x] == 0
  }

  /** The decision loop, generic in its thresholds. */
  method Decide(en: seq<int>, t: Thresholds, jud: array<int>)
    requires jud.Length == JUDGED_SIZE && |Decided(t, en)| <= JUDGED_SIZE
    modifies jud
    ensures Holds(jud[..], Decided(t, en))
  {
    hide Decided, RunTokens, MarkTokens, GapTokens, Started, RunsOf, HighLow, Completed;
    for q := 0 to JUDGED_SIZE
      invariant forall x :: 0 <= x < q ==> jud[x] == 0
    {
      jud[q] := 0;
    }
    var sta, started := 0, false;
    var m, n, k: nat := 0, 0, 0;
    NoFrames(t, en);
    for i := 0 to |en|
      invariant Tracks(RunsOf(HighLow(en[..i], t.level)), i, sta, m, n)
      invariant started <==> Started(t, Completed(RunsOf(HighLow(en[..i], t.level))))
      invariant k == |Decided(t, en[..i])| && Holds(jud[..], Decided(t, en[..i]))
    {
      DecidedStep(t, en, i);
      DecidedGrows(t, en, i + 1);
      if sta == 0 {
        if en[i] > t.level {
          m := i;
          sta := 1;
        }
      }
      if sta == 1 {
        if en[i] < t.level {
          n := i;
          k, started := PutMark(t, n - m, started, jud, k);
          sta := 2;
        }
      }
      if sta == 2 {
        if en[i] > t.level {
          m := i;
          k := PutGap(t, m - n, started, jud, k);
          sta := 1;
        }
      }
    }
    assert en[..|en|] == en;
  }

  lemma NoFrames(t: Thresholds, en: seq<int>)
    ensures en[..0] == [] && HighLow([], t.level) == [] && RunsOf([]) == [] && Decided(t, []) == []
    ensures !Started(t, Completed([]))
  {
  }

  // A run of high frames has ended.
  method PutMark(t: Thresholds, length: nat, st: bool, jud: array<int>, k: nat) returns (k': nat, st': bool)
    requires k + |RunTokens(t, Run(true, length), st)| <= jud.Length
    requires forall x :: k <= x < jud.Length ==> jud[x] == 0
    modifies jud
    ensures k' == k + |RunTokens(t, Run(true, length), st)|
    ensures Holds(jud[..], old(jud[..k]) + RunTokens(t, Run(true, length), st))
    ensures st' <==> st || MarkTokens(t, length) != []
  {
    k', st' := k, st;
    if t.dotMin <= length < t.dashMin {
      if !st {
        jud[k'] := START;
        k', st' := k' + 1, true;
      }
      jud[k'] := DOT;
      k' := k' + 1;
    } else if t.dashMin <= length < t.dashEnd {
      if !st {
        jud[k'] := START;
        k', st' := k' + 1, true;
      }
      jud[k'] := DASH;
      k' := k' + 1;
    }
  }

  // A run of low frames has ended.
  method PutGap(t: Thresholds, length: nat, ghost st: bool, jud: array<int>, k: nat) returns (k': nat)
    requires k + |RunTokens(t, Run(false, length), st)| <= jud.Length
    requires forall x :: k <= x < jud.Length ==> jud[x] == 0
    modifies jud
    ensures k' == k + |RunTokens(t, Run(false, length), st)|
    ensures Holds(jud[..], old(jud[..k]) + RunTokens(t, Run(false, length), st))
  {
    k' := k;
    if t.letterGap < length <= t.wordGap {
      jud[k'] := LETTER_GAP;
      k' := k' + 1;
    } else if length > t.wordGap {
      jud[k'] := LETTER_GAP;
      jud[k' + 1] := WORD_GAP;
      jud[k' + 2] := LETTER_GAP;
      k' := k' + 3;
    }
  }
}
