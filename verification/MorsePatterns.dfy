/**
 The patterns of dots and dashes the sender prints while it translates, against the tokens it
 sends and the groups the receiver knows.
 */
module MorsePatterns {
  import opened MorseCode

  /** What is printed for a character, without the space behind it. */
  function Shown(ch: char): string
  {
    match ch
    case 'A' => ".-"
    case 'B' => "-..."
    case 'C' => "-.-."
    case 'D' => "-.."
    case 'E' => "."
    case 'F' => "..-."
    case 'G' => "--."
    case 'H' => "...."
    case 'I' => ".."
    case 'J' => ".---"
    case 'K' => "-.-"
    case 'L' => ".-.."
    case 'M' => "--"
    case 'N' => "-."
    case 'O' => "---"
    case 'P' => ".--."
    case 'Q' => "--.-"
    case 'R' => ".-."
    case 'S' => "..."
    case 'T' => "-"
    case 'U' => "..-"
    case 'V' => "...-"
    case 'W' => ".--"
    case 'X' => "-..-"
    case 'Y' => "-.--"
    case 'Z' => "--.."
    case '0' => "-----"
    case '1' => ".----"
    case '2' => "..---"
    case '3' => "...--"
    case '4' => "....-"
    case '5' => "....."
    case '6' => "-...."
    case '7' => "--..."
    case '8' => "---.."
    case '9' => "----."
    case '.' => ".-.-.-"
    case ':' => "---..."
    case ',' => "--..--"
    case ';' => "-.-.-."
    case '?' => "..--.."
    case '=' => "-...-"
    case '\'' => ".----."
    case '/' => "-..-."
    case '!' => "-.-.--"
    case '-' => "-....-"
    case '_' => "..--.-"
    case '\"' => ".-..-."
    case '(' => "-.--."
    case ')' => "-.--.-"
    case '$' => "...-..-"
    case '&' => "...-"
    case '@' => ".--.-."
    case _ => ""
  }

  function Tokens(pattern: string): seq<int>
  {
    if pattern == "" then [] else [if pattern[0] == '.' then DOT else DASH] + Tokens(pattern[1..])
  }

  // The tokens of a pattern, place by place.
  lemma {:induction false} TokenAt(pattern: string, i: nat)
    requires i < |pattern|
    ensures |Tokens(pattern)| == |pattern|
    ensures Tokens(pattern)[i] == if pattern[i] == '.' then DOT else DASH
    decreases |pattern|
  {
    if |pattern| > 1 {
      TokenAt(pattern[1..], if i == 0 then 0 else i - 1);
    }
  }

  // A group and a pattern that agree place by place.
  predicate Spells(group: seq<int>, pattern: string)
  {
    |group| == |pattern| && forall i :: 0 <= i < |group| ==> group[i] == if pattern[i] == '.' then DOT else DASH
  }

  lemma SpellsTokens(group: seq<int>, pattern: string)
    requires Spells(group, pattern)
    ensures group == Tokens(pattern)
  {
    if pattern == "" {
      assert Tokens(pattern) == [];
    } else {
      TokenAt(pattern, 0);
      forall i | 0 <= i < |pattern|
        ensures group[i] == Tokens(pattern)[i]
      {
        TokenAt(pattern, i);
      }
    }
  }

  lemma LettersSpelled(ch: char)
    requires 'A' <= ch <= 'Z'
    ensures Spells(Group(ch), Shown(ch))
  {
  }

  lemma DigitsSpelled(ch: char)
    requires '0' <= ch <= '9'
    ensures Spells(Group(ch), Shown(ch))
  {
  }

  lemma FiveSpelled(ch: char)
    requires FiveMarks(ch)
    ensures Spells(Group(ch), Shown(ch))
  {
    if '0' <= ch <= '9' {
      DigitsSpelled(ch);
    }
  }

  lemma SixSpelled(ch: char)
    requires SixMarks(ch)
    ensures Spells(Group(ch), Shown(ch))
  {
    hide Group, Shown;
    if ch == '.' || ch == ':' || ch == ',' || ch == ';' {
      StopsSpelled(ch);
    } else if ch == '?' || ch == '\'' || ch == '!' || ch == '-' {
      MarksSpelled(ch);
    } else {
      QuotesSpelled(ch);
    }
  }

  lemma StopsSpelled(ch: char)
    requires ch == '.' || ch == ':' || ch == ',' || ch == ';'
    ensures Spells(Group(ch), Shown(ch))
  {
  }

  lemma MarksSpelled(ch: char)
    requires ch == '?' || ch == '\'' || ch == '!' || ch == '-'
    ensures Spells(Group(ch), Shown(ch))
  {
  }

  lemma QuotesSpelled(ch: char)
    requires ch == '_' || ch == '\"' || ch == ')'
    ensures Spells(Group(ch), Shown(ch))
  {
  }

  lemma OthersSpelled(ch: char)
    requires !('A' <= ch <= 'Z') && !FiveMarks(ch) && !SixMarks(ch) && ch != '&' && ch != ' '
    ensures Spells(Group(ch), Shown(ch))
  {
  }

  lemma Spelled(ch: char)
    requires ch != '&' && ch != ' '
    ensures Spells(Group(ch), Shown(ch))
  {
    hide Group, Shown, Spells;
    if 'A' <= ch <= 'Z' {
      LettersSpelled(ch);
    } else if FiveMarks(ch) {
      FiveSpelled(ch);
    } else if SixMarks(ch) {
      SixSpelled(ch);
    } else {
      OthersSpelled(ch);
    }
  }

  /** Every character is sent as it is shown, except '&': it is shown as a V and sent as an H. */
  lemma SentAsShown(ch: char)
    ensures ch != '&' && ch != ' ' ==> Group(ch) == Tokens(Shown(ch))
    ensures Group('&') == Tokens("....") && Shown('&') == "...-" == Shown('V')
    ensures Group(' ') == [7000]
    ensures Group(ch) != [] <==> Shown(ch) != "" || ch == ' '
  {
    OddOnes();
    hide Group, Shown, Tokens;
    if ch != '&' && ch != ' ' {
      Spelled(ch);
      SpellsTokens(Group(ch), Shown(ch));
    }
    SpellsTokens(Group('&'), "....");
  }

  lemma OddOnes()
    ensures Spells(Group('&'), "....") && Shown('&') == "...-" == Shown('V')
    ensures Group(' ') == [7000]
  {
  }

  // ----- patterns without a character -----

  lemma CodesOfOne()
    ensures Group('E') == [DOT]
    ensures Group('T') == [DASH]
    ensures Group(' ') == [WORD_GAP]
  {
  }

  lemma UnknownOne(c: seq<int>)
    requires |c| == 1 && forall ch :: Group(ch) != c
    ensures Lookup(c) == "~"
  {
    CodesOfOne();
    hide Group;
    assert c == [c[0]];
  }

  lemma CodesOfTwo()
    ensures Group('A') == [DOT, DASH]
    ensures Group('I') == [DOT, DOT]
    ensures Group('M') == [DASH, DASH]
    ensures Group('N') == [DASH, DOT]
  {
  }

  lemma UnknownTwo(c: seq<int>)
    requires |c| == 2 && forall ch :: Group(ch) != c
    ensures Lookup(c) == "~"
  {
    CodesOfTwo();
    hide Group;
    assert c == [c[0], c[1]];
  }

  lemma CodesOfThree()
    ensures Group('D') == [DASH, DOT, DOT]
    ensures Group('G') == [DASH, DASH, DOT]
    ensures Group('K') == [DASH, DOT, DASH]
    ensures Group('O') == [DASH, DASH, DASH]
    ensures Group('R') == [DOT, DASH, DOT]
    ensures Group('S') == [DOT, DOT, DOT]
    ensures Group('U') == [DOT, DOT, DASH]
  {
  }

  lemma CodesOfThreeToo()
    ensures Group('W') == [DOT, DASH, DASH]
  {
  }

  lemma UnknownThree(c: seq<int>)
    requires |c| == 3 && forall ch :: Group(ch) != c
    ensures Lookup(c) == "~"
  {
    CodesOfThree();
    CodesOfThreeToo();
    hide Group;
    assert c == [c[0], c[1], c[2]];
  }

  lemma CodesOfFour()
    ensures Group('B') == [DASH, DOT, DOT, DOT]
    ensures Group('C') == [DASH, DOT, DASH, DOT]
    ensures Group('F') == [DOT, DOT, DASH, DOT]
    ensures Group('H') == [DOT, DOT, DOT, DOT]
    ensures Group('J') == [DOT, DASH, DASH, DASH]
    ensures Group('L') == [DOT, DASH, DOT, DOT]
    ensures Group('P') == [DOT, DASH, DASH, DOT]
  {
  }

  lemma CodesOfFourToo()
    ensures Group('Q') == [DASH, DASH, DOT, DASH]
    ensures Group('V') == [DOT, DOT, DOT, DASH]
    ensures Group('X') == [DASH, DOT, DOT, DASH]
    ensures Group('Y') == [DASH, DOT, DASH, DASH]
    ensures Group('Z') == [DASH, DASH, DOT, DOT]
  {
  }

  lemma UnknownFour(c: seq<int>)
    requires |c| == 4 && forall ch :: Group(ch) != c
    ensures Lookup(c) == "~"
  {
    CodesOfFour();
    CodesOfFourToo();
    hide Group;
    assert c == [c[0], c[1], c[2], c[3]];
  }

  lemma CodesOfFive()
    ensures Group('0') == [DASH, DASH, DASH, DASH, DASH]
    ensures Group('1') == [DOT, DASH, DASH, DASH, DASH]
    ensures Group('2') == [DOT, DOT, DASH, DASH, DASH]
    ensures Group('3') == [DOT, DOT, DOT, DASH, DASH]
    ensures Group('4') == [DOT, DOT, DOT, DOT, DASH]
    ensures Group('5') == [DOT, DOT, DOT, DOT, DOT]
    ensures Group('6') == [DASH, DOT, DOT, DOT, DOT]
  {
  }

  lemma CodesOfFiveToo()
    ensures Group('7') == [DASH, DASH, DOT, DOT, DOT]
    ensures Group('8') == [DASH, DASH, DASH, DOT, DOT]
    ensures Group('9') == [DASH, DASH, DASH, DASH, DOT]
    ensures Group('=') == [DASH, DOT, DOT, DOT, DASH]
    ensures Group('/') == [DASH, DOT, DOT, DASH, DOT]
    ensures Group('(') == [DASH, DOT, DASH, DASH, DOT]
  {
  }

  lemma UnknownFive(c: seq<int>)
    requires |c| == 5 && forall ch :: Group(ch) != c
    ensures Lookup(c) == "~"
  {
    CodesOfFive();
    CodesOfFiveToo();
    hide Group;
    assert c == [c[0], c[1], c[2], c[3], c[4]];
  }

  lemma CodesOfSix()
    ensures Group('.') == [DOT, DASH, DOT, DASH, DOT, DASH]
    ensures Group(':') == [DASH, DASH, DASH, DOT, DOT, DOT]
    ensures Group(',') == [DASH, DASH, DOT, DOT, DASH, DASH]
    ensures Group(';') == [DASH, DOT, DASH, DOT, DASH, DOT]
    ensures Group('?') == [DOT, DOT, DASH, DASH, DOT, DOT]
    ensures Group('\'') == [DOT, DASH, DASH, DASH, DASH, DOT]
    ensures Group('!') == [DASH, DOT, DASH, DOT, DASH, DASH]
  {
  }

  lemma CodesOfSixToo()
    ensures Group('-') == [DASH, DOT, DOT, DOT, DOT, DASH]
    ensures Group('_') == [DOT, DOT, DASH, DASH, DOT, DASH]
    ensures Group('\"') == [DOT, DASH, DOT, DOT, DASH, DOT]
    ensures Group(')') == [DASH, DOT, DASH, DASH, DOT, DASH]
    ensures Group('@') == [DOT, DASH, DASH, DOT, DASH, DOT]
  {
  }

  lemma UnknownSix(c: seq<int>)
    requires |c| == 6 && forall ch :: Group(ch) != c
    ensures Lookup(c) == "~"
  {
    CodesOfSix();
    CodesOfSixToo();
    hide Group;
    assert c == [c[0], c[1], c[2], c[3], c[4], c[5]];
  }

  lemma CodesOfSeven()
    ensures Group('$') == [DOT, DOT, DOT, DASH, DOT, DOT, DASH]
  {
  }

  lemma UnknownSeven(c: seq<int>)
    requires |c| == 7 && forall ch :: Group(ch) != c
    ensures Lookup(c) == "~"
  {
    CodesOfSeven();
    hide Group;
    assert c == [c[0], c[1], c[2], c[3], c[4], c[5], c[6]];
  }

  /** A group of tokens that no character is sent as is printed as '~', whatever its length. */
  lemma UnknownPattern(c: seq<int>)
    requires c != [] && forall ch :: Group(ch) != c
    ensures Lookup(c) == "~"
  {
    hide Group, Lookup;
    match |c|
    case 1 => UnknownOne(c);
    case 2 => UnknownTwo(c);
    case 3 => UnknownThree(c);
    case 4 => UnknownFour(c);
    case 5 => UnknownFive(c);
    case 6 => UnknownSix(c);
    case 7 => UnknownSeven(c);
    case _ => TooLong(c);
  }

  lemma TooLong(c: seq<int>)
    requires |c| > 7
    ensures Lookup(c) == "~"
  {
  }
}
