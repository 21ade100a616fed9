/**
 Text to tokens and back: the sender's translation, the receiver's separator-driven
 parser, and what survives the round trip.
 */
module MorseText {
  import opened MorseCode

  // ----- the sender -----

  const SENDER_SIZE: nat := 200

  // The tokens a text is sent as: every known character's group and a letter gap.
  function Sent(text: string): seq<int>
  {
    if text == "" then [] else SentChar(text[0]) + Sent(text[1..])
  }

  function SentChar(ch: char): seq<int>
  {
    if Group(ch) == [] then [] else Group(ch) + [LETTER_GAP]
  }

  lemma {:induction false} SentSnoc(text: string, ch: char)
    ensures Sent(text + [ch]) == Sent(text) + SentChar(ch)
  {
    hide SentChar;
    if text == "" {
      assert text + [ch] == [ch] && [ch][1..] == "";
    } else {
      SentSnoc(text[1..], ch);
      assert (text + [ch])[1..] == text[1..] + [ch];
    }
  }

  lemma {:induction false} SentGrows(text: string, k: nat)
    requires k <= |text|
    ensures |Sent(text[..k])| <= |Sent(text)|
    decreases |text| - k
  {
    hide SentChar, Sent;
    if k < |text| {
      SentGrows(text, k + 1);
      SentSnoc(text[..k], text[k]);
      assert text[..k + 1] == text[..k] + [text[k]];
    } else {
      assert text[..k] == text;
    }
  }

  function Zeros(n: nat): (z: seq<int>)
    ensures |z| == n && forall i :: 0 <= i < n ==> z[i] == 0
  {
    seq(n, _ => 0)
  }

  /** Translates a text buffer into the global token array, the rest of which is zero. */
  method Translate(text: string, morseCode: array<int>)
    requires morseCode.Length == SENDER_SIZE && |Sent(text)| <= SENDER_SIZE
    modifies morseCode
    ensures morseCode[..] == Sent(text) + Zeros(SENDER_SIZE - |Sent(text)|)
  {
    hide Group, SentChar;
    for q := 0 to SENDER_SIZE
      invariant forall x :: 0 <= x < q ==> morseCode[x] == 0
    {
      morseCode[q] := 0;
    }
    var j: nat := 0;
    for i := 0 to |text|
      invariant j == |Sent(text[..i])| && j <= SENDER_SIZE
      invariant morseCode[..j] == Sent(text[..i])
      invariant forall x :: j <= x < SENDER_SIZE ==> morseCode[x] == 0
    {
      assert text[..i + 1] == text[..i] + [text[i]];
      SentSnoc(text[..i], text[i]);
      SentGrows(text, i + 1);
      j := CopyTable(SentChar(text[i]), morseCode, j);
    }
    assert text[..|text|] == text;
  }

  // Copies one character's table to the tokens at j.
  method CopyTable(table: seq<int>, morseCode: array<int>, j: nat) returns (end: nat)
    requires j + |table| <= morseCode.Length
    modifies morseCode
    ensures end == j + |table| && morseCode[..end] == old(morseCode[..j]) + table
    ensures morseCode[end..] == old(morseCode[end..])
  {
    ghost var before := morseCode[..j];
    end := j;
    for k := 0 to |table|
      invariant end == j + k && morseCode[..end] == before + table[..k]
      invariant morseCode[end..] == old(morseCode[end..])
    {
      morseCode[end] := table[k];
      end := end + 1;
    }
  }

  // ----- the receiver -----

  const RECEIVER_SIZE: nat := 200
  const TEXT_SIZE: nat := 31

  // The tokens before the next letter gap.
  function FirstGroup(ts: seq<int>): (g: seq<int>)
    ensures |g| <= |ts| && g == ts[..|g|] && LETTER_GAP !in g
    ensures |g| < |ts| ==> ts[|g|] == LETTER_GAP
  {
    if ts == [] || ts[0] == LETTER_GAP then [] else [ts[0]] + FirstGroup(ts[1..])
  }

  /** What a message prints: every START or letter gap opens a group that runs up to the next
      letter gap; tokens before the first of them are skipped. */
  function Parse(ts: seq<int>): string
    decreases |ts|
  {
    if ts == [] then ""
    else if ts[0] == START || ts[0] == LETTER_GAP then
      var g := FirstGroup(ts[1..]);
      Lookup(g) + Parse(ts[1 + |g|..])
    else Parse(ts[1..])
  }

  // Every group fits the parser's seven-token buffer.
  predicate GroupsFit(ts: seq<int>)
    decreases |ts|
  {
    if ts == [] then true
    else if ts[0] == START || ts[0] == LETTER_GAP then
      var g := FirstGroup(ts[1..]);
      |g| <= 7 && GroupsFit(ts[1 + |g|..])
    else GroupsFit(ts[1..])
  }

  // The tokens before the first FINISH.
  function Message(a: seq<int>): (m: seq<int>)
    requires FINISH in a
    ensures |m| < |a| && m == a[..|m|] && a[|m|] == FINISH && FINISH !in m
  {
    if a[0] == FINISH then [] else [a[0]] + Message(a[1..])
  }

  function Filled(text: string): (s: string)
    requires |text| <= TEXT_SIZE
    ensures |s| == TEXT_SIZE == 31
    ensures forall i :: 0 <= i < 31 ==> s[i] == if i < |text| then text[i] else '~'
  {
    text + seq(TEXT_SIZE - |text|, _ => '~')
  }

  /** The receiver's parser. Its loop index jumps from separator to separator. */
  method InverseTranslate(a: seq<int>, code: array<char>)
    requires |a| == RECEIVER_SIZE && FINISH in a && code.Length == TEXT_SIZE
    requires GroupsFit(Message(a)) && |Parse(Message(a))| <= TEXT_SIZE
    modifies code
    ensures code[..] == Filled(Parse(Message(a)))
  {
    hide Lookup, Message, FirstGroup, Parse, GroupsFit;
    for q := 0 to TEXT_SIZE
      invariant forall x :: 0 <= x < q ==> code[x] == '~'
    {
      code[q] := '~';
    }
    ghost var m, text := Message(a), Parse(Message(a));
    var i, j: nat := 0, 0;
    while i < RECEIVER_SIZE
      invariant 0 <= i && (i <= |m| || i == RECEIVER_SIZE + 1)
      invariant j <= TEXT_SIZE && forall x :: j <= x < TEXT_SIZE ==> code[x] == '~'
      invariant i <= |m| ==> GroupsFit(m[i..]) && text == code[..j] + Parse(m[i..])
      invariant i > |m| ==> text == code[..j]
      decreases RECEIVER_SIZE + 1 - i
    {
      if a[i] == START || a[i] == LETTER_GAP {
        ParseGroup(m, i);
        var c, k := CollectGroup(a, i);
        j := Emit(code, j, Lookup(c));
        i := i + k - 1;
      } else if a[i] == FINISH {
        ParseEnd(m, i);
        i := 200;
      } else {
        ParseSkip(m, i);
      }
      i := i + 1;
    }
    assert code[..] == code[..j] + code[j..];
  }

  lemma ParseGroup(m: seq<int>, i: nat)
    requires i < |m| && (m[i] == START || m[i] == LETTER_GAP)
    ensures var g := FirstGroup(m[i + 1..]);
            && Parse(m[i..]) == Lookup(g) + Parse(m[i + 1 + |g|..])
            && (GroupsFit(m[i..]) <==> |g| <= 7 && GroupsFit(m[i + 1 + |g|..]))
  {
    hide Lookup, FirstGroup;
    assert m[i..][1..] == m[i + 1..];
    var g := FirstGroup(m[i + 1..]);
    assert m[i..][1 + |g|..] == m[i + 1 + |g|..];
  }

  lemma ParseSkip(m: seq<int>, i: nat)
    requires i < |m| && m[i] != START && m[i] != LETTER_GAP
    ensures Parse(m[i..]) == Parse(m[i + 1..]) && GroupsFit(m[i..]) == GroupsFit(m[i + 1..])
  {
  }

  lemma ParseEnd(m: seq<int>, i: nat)
    requires i == |m|
    ensures Parse(m[i..]) == ""
  {
  }

  // The group after the separator at i, and the distance to the next separator.
  method CollectGroup(a: seq<int>, i: nat) returns (c: seq<int>, k: nat)
    requires |a| == RECEIVER_SIZE && FINISH in a && i < |Message(a)|
    requires |FirstGroup(Message(a)[i + 1..])| <= 7
    ensures c == FirstGroup(Message(a)[i + 1..]) && k == |c| + 1
  {
    hide Message, FirstGroup;
    ghost var m := Message(a);
    ghost var tail := m[i + 1..];
    var buffer := new int[7];
    k := 1;
    while a[i + k] != LETTER_GAP && a[i + k] != FINISH
      invariant 1 <= k <= |FirstGroup(tail)| + 1
      invariant buffer[..k - 1] == FirstGroup(tail)[..k - 1]
      decreases |m| + 1 - k
    {
      assert i + k < |m| ==> tail[k - 1] == m[i + k];
      buffer[k - 1] := a[i + k];
      k := k + 1;
    }
    c := buffer[..k - 1];
  }

  // Appends to the printed text.
  method Emit(code: array<char>, j: nat, s: string) returns (end: nat)
    requires j + |s| <= code.Length
    modifies code
    ensures end == j + |s| && code[..end] == old(code[..j]) + s
    ensures code[end..] == old(code[end..])
  {
    ghost var before := code[..j];
    end := j;
    for k := 0 to |s|
      invariant end == j + k && code[..end] == before + s[..k]
      invariant code[end..] == old(code[end..])
    {
      code[end] := s[k];
      end := end + 1;
    }
  }

  // ----- decoding distributes over groups -----

  // Some groups with a letter gap between neighbours.
  function Separated(groups: seq<seq<int>>): seq<int>
  {
    if groups == [] then []
    else if |groups| == 1 then groups[0]
    else groups[0] + ([LETTER_GAP] + Separated(groups[1..]))
  }

  function LookupAll(groups: seq<seq<int>>): string
  {
    if groups == [] then "" else Lookup(groups[0]) + LookupAll(groups[1..])
  }

  ghost predicate GapFree(g: seq<int>)
  {
    LETTER_GAP !in g
  }

  lemma {:induction false} FirstGroupOf(g: seq<int>, rest: seq<int>)
    requires GapFree(g) && (rest == [] || rest[0] == LETTER_GAP)
    ensures FirstGroup(g + rest) == g
  {
    if g == [] {
      assert g + rest == rest;
    } else {
      assert (g + rest)[1..] == g[1..] + rest;
      FirstGroupOf(g[1..], rest);
    }
  }

  // A separator, a group, and what follows it.
  lemma ParseOne(separator: int, g: seq<int>, rest: seq<int>)
    requires separator == START || separator == LETTER_GAP
    requires GapFree(g) && (rest == [] || rest[0] == LETTER_GAP)
    ensures Parse([separator] + (g + rest)) == Lookup(g) + Parse(rest)
    ensures GroupsFit([separator] + (g + rest)) <==> |g| <= 7 && GroupsFit(rest)
  {
    hide Lookup, FirstGroup, Parse, GroupsFit;
    var ts := [separator] + (g + rest);
    assert ts[0..] == ts && ts[1..] == g + rest;
    FirstGroupOf(g, rest);
    ParseGroup(ts, 0);
    assert ts[1 + |g|..] == rest;
  }

  /** Each group is read on its own, once: what the parser prints for groups joined by letter
      gaps is what it prints for each, in order. */
  lemma {:induction false} ParseDistributes(separator: int, groups: seq<seq<int>>)
    requires separator == START || separator == LETTER_GAP
    requires groups != [] && forall i :: 0 <= i < |groups| ==> GapFree(groups[i])
    ensures Parse([separator] + Separated(groups)) == LookupAll(groups)
    ensures GroupsFit([separator] + Separated(groups)) <==> forall i :: 0 <= i < |groups| ==> |groups[i]| <= 7
    decreases |groups|
  {
    hide Lookup, Parse, GroupsFit;
    if |groups| == 1 {
      NothingMore();
      ParseOne(separator, groups[0], []);
      assert groups[0] + [] == groups[0];
      assert LookupAll(groups[1..]) == "";
      assert Lookup(groups[0]) + "" == Lookup(groups[0]);
    } else {
      ParseDistributes(LETTER_GAP, groups[1..]);
      ParseOne(separator, groups[0], [LETTER_GAP] + Separated(groups[1..]));
      assert forall i :: 1 <= i < |groups| ==> groups[i] == groups[1..][i - 1];
    }
  }

  /** What comes before the first separator is skipped. */
  lemma {:induction false} ParseSkips(before: seq<int>, ts: seq<int>)
    requires START !in before && LETTER_GAP !in before
    ensures Parse(before + ts) == Parse(ts) && GroupsFit(before + ts) == GroupsFit(ts)
    decreases |before|
  {
    hide Parse, GroupsFit;
    var all := before + ts;
    if before == [] {
      assert all == ts;
    } else {
      assert all[0..] == all && all[1..] == before[1..] + ts;
      ParseSkip(all, 0);
      ParseSkips(before[1..], ts);
    }
  }

  lemma NothingMore()
    ensures Parse([]) == "" && GroupsFit([])
  {
  }

  // ----- the round trip of a text -----

  function PrintedText(text: string): string
  {
    if text == "" then "" else Printed(text[0]) + PrintedText(text[1..])
  }

  lemma GroupShape(ch: char)
    ensures GapFree(Group(ch)) && |Group(ch)| <= 7 && FINISH !in Group(ch)
  {
  }

  /** What the receiver prints for a translated text, character by character: unknown
      characters are dropped, '&' comes back as 'H', six-mark symbols gain a '~'. */
  lemma {:induction false} ParseSent(separator: int, text: string)
    requires separator == START || separator == LETTER_GAP
    ensures Parse([separator] + Sent(text)) == PrintedText(text)
    ensures GroupsFit([separator] + Sent(text))
    decreases |text|
  {
    hide Lookup, Group, Parse, GroupsFit, Printed;
    NothingMore();
    if text == "" {
      EmptyGroup();
      ParseOne(separator, [], []);
      assert [separator] + ([] + []) == [separator] + Sent(text);
    } else {
      var g, rest := Group(text[0]), Sent(text[1..]);
      LookupGroup(text[0]);
      GroupShape(text[0]);
      if g == [] {
        EmptyGroup();
        ParseSent(separator, text[1..]);
        assert SentChar(text[0]) + rest == rest;
        assert "" + PrintedText(text[1..]) == PrintedText(text[1..]);
      } else {
        ParseSent(LETTER_GAP, text[1..]);
        ParseOne(separator, g, [LETTER_GAP] + rest);
        assert g + ([LETTER_GAP] + rest) == SentChar(text[0]) + rest;
      }
    }
  }

  lemma EmptyGroup()
    ensures Lookup([]) == ""
  {
  }

  /** The texts that are printed as they were sent: round-trip characters, and six-mark symbols
      whose '~' is already there. */
  predicate Stable(text: string)
    decreases |text|
  {
    if text == "" then true
    else if RoundTrips(text[0]) then Stable(text[1..])
    else SixMarks(text[0]) && |text| > 1 && text[1] == '~' && Stable(text[2..])
  }

  // What each kind of character adds to the print.
  lemma PrintedKinds(ch: char)
    ensures Group(ch) == [] ==> !RoundTrips(ch) && !SixMarks(ch) && Printed(ch) == ""
    ensures RoundTrips(ch) ==> !SixMarks(ch) && Printed(ch) == [ch]
    ensures SixMarks(ch) ==> Printed(ch) == [ch, '~']
    ensures Group(ch) != [] && !RoundTrips(ch) && !SixMarks(ch) ==> ch == '&' && Printed(ch) == "H"
    ensures Group('~') == [] && Group('H') != []
  {
  }

  // A print begins with a character that has a code.
  lemma {:induction false} PrintBegins(text: string)
    ensures PrintedText(text) != "" ==> Group(PrintedText(text)[0]) != []
  {
    hide Group, RoundTrips, SixMarks, Printed;
    if text != "" {
      PrintedKinds(text[0]);
      PrintBegins(text[1..]);
      if Printed(text[0]) == "" {
        assert PrintedText(text) == PrintedText(text[1..]);
      }
    }
  }

  /** For every text, with and without unknown characters: it is printed unchanged if and only
      if it is stable. */
  lemma {:induction false} PrintedIsText(text: string)
    ensures PrintedText(text) == text <==> Stable(text)
    decreases |text|
  {
    hide Group, RoundTrips, SixMarks, Printed;
    if text != "" {
      var c, rest := text[0], text[1..];
      assert text == [c] + rest;
      PrintedKinds(c);
      var printed := Printed(c) + PrintedText(rest);
      if RoundTrips(c) {
        PrintedIsText(rest);
        assert printed[1..] == PrintedText(rest);
      } else if SixMarks(c) {
        assert printed[2..] == PrintedText(rest) && printed[1] == '~';
        if |text| > 1 && text[1] == '~' {
          assert rest[1..] == text[2..] && text == [c, '~'] + text[2..];
          PrintedKinds('~');
          assert PrintedText(rest) == "" + PrintedText(text[2..]) == PrintedText(text[2..]);
          PrintedIsText(text[2..]);
        }
      } else if Group(c) == [] {
        PrintBegins(rest);
        assert printed == PrintedText(rest);
      } else {
        assert printed[0] == 'H';
      }
    }
  }

  /** Text round trip, for every text. */
  lemma TextRoundTrip(text: string)
    ensures Parse([START] + Sent(text)) == text <==> Stable(text)
  {
    hide Group, Parse, Stable;
    ParseSent(START, text);
    PrintedIsText(text);
  }

  // Among texts whose characters all have a code: exactly those over the round-trip alphabet.
  lemma {:induction false} StableAlphabet(text: string)
    requires forall i :: 0 <= i < |text| ==> Group(text[i]) != []
    ensures Stable(text) <==> forall i :: 0 <= i < |text| ==> RoundTrips(text[i])
  {
    hide Group, RoundTrips, SixMarks, Printed;
    if text != "" {
      PrintedKinds(text[0]);
      StableAlphabet(text[1..]);
      assert forall i :: 1 <= i < |text| ==> text[i] == text[1..][i - 1];
    }
  }

  /** The same through the arrays: what the sender leaves, behind START, is read by the receiver;
      a stable text is in the receiver's array again. */
  method SendAndReceive(text: string, morseCode: array<int>, code: array<char>)
    requires morseCode.Length == SENDER_SIZE && code.Length == TEXT_SIZE
    requires 1 + |Sent(text)| < RECEIVER_SIZE && |PrintedText(text)| <= TEXT_SIZE
    modifies morseCode, code
    ensures code[..] == Filled(PrintedText(text))
    ensures Stable(text) ==> |text| <= TEXT_SIZE && code[..] == Filled(text)
  {
    hide Group, Parse, Stable, Sent, PrintedText, Filled, GroupsFit, Message;
    Translate(text, morseCode);
    var a := [START] + morseCode[..RECEIVER_SIZE - 1];
    ParseSent(START, text);
    PrintedIsText(text);
    SentHasNoFinish(text);
    var m := [START] + Sent(text);
    assert a[|m|] == FINISH && a[..|m|] == m;
    assert forall i :: 0 <= i < |m| ==> a[i] == m[i];
    MessageOf(a, |m|);
    InverseTranslate(a, code);
  }

  lemma {:induction false} SentHasNoFinish(text: string)
    ensures FINISH !in Sent(text)
  {
    hide Group;
    if text != "" {
      GroupShape(text[0]);
      SentHasNoFinish(text[1..]);
    }
  }

  lemma {:induction false} MessageOf(a: seq<int>, k: nat)
    requires k < |a| && a[k] == FINISH && forall i :: 0 <= i < k ==> a[i] != FINISH
    ensures FINISH in a && Message(a) == a[..k]
  {
  }
}
