/**
 The code book: the tokens of a character, and what a group of tokens is read as.
 */
module MorseCode {

  // Token values: the length of a mark or gap, and the two values that frame a message.
  const DOT := 100
  const DASH := 300
  const LETTER_GAP := 3000
  const WORD_GAP := 7000
  const FINISH := 0
  const START := 1

  // ----- encoding -----

  // The group of tokens a character is sent as; [] for a character that is skipped.
  function Group(ch: char): seq<int>
  {
    match ch
    case ' ' => [WORD_GAP]
    case 'A' => [DOT, DASH]
    case 'B' => [DASH, DOT, DOT, DOT]
    case 'C' => [DASH, DOT, DASH, DOT]
    case 'D' => [DASH, DOT, DOT]
    case 'E' => [DOT]
    case 'F' => [DOT, DOT, DASH, DOT]
    case 'G' => [DASH, DASH, DOT]
    case 'H' => [DOT, DOT, DOT, DOT]
    case 'I' => [DOT, DOT]
    case 'J' => [DOT, DASH, DASH, DASH]
    case 'K' => [DASH, DOT, DASH]
    case 'L' => [DOT, DASH, DOT, DOT]
    case 'M' => [DASH, DASH]
    case 'N' => [DASH, DOT]
    case 'O' => [DASH, DASH, DASH]
    case 'P' => [DOT, DASH, DASH, DOT]
    case 'Q' => [DASH, DASH, DOT, DASH]
    case 'R' => [DOT, DASH, DOT]
    case 'S' => [DOT, DOT, DOT]
    case 'T' => [DASH]
    case 'U' => [DOT, DOT, DASH]
    case 'V' => [DOT, DOT, DOT, DASH]
    case 'W' => [DOT, DASH, DASH]
    case 'X' => [DASH, DOT, DOT, DASH]
    case 'Y' => [DASH, DOT, DASH, DASH]
    case 'Z' => [DASH, DASH, DOT, DOT]
    case '0' => [DASH, DASH, DASH, DASH, DASH]
    case '1' => [DOT, DASH, DASH, DASH, DASH]
    case '2' => [DOT, DOT, DASH, DASH, DASH]
    case '3' => [DOT, DOT, DOT, DASH, DASH]
    case '4' => [DOT, DOT, DOT, DOT, DASH]
    case '5' => [DOT, DOT, DOT, DOT, DOT]
    case '6' => [DASH, DOT, DOT, DOT, DOT]
    case '7' => [DASH, DASH, DOT, DOT, DOT]
    case '8' => [DASH, DASH, DASH, DOT, DOT]
    case '9' => [DASH, DASH, DASH, DASH, DOT]
    case '.' => [DOT, DASH, DOT, DASH, DOT, DASH]
    case ':' => [DASH, DASH, DASH, DOT, DOT, DOT]
    case ',' => [DASH, DASH, DOT, DOT, DASH, DASH]
    case ';' => [DASH, DOT, DASH, DOT, DASH, DOT]
    case '?' => [DOT, DOT, DASH, DASH, DOT, DOT]
    case '=' => [DASH, DOT, DOT, DOT, DASH]
    case '\'' => [DOT, DASH, DASH, DASH, DASH, DOT]
    case '/' => [DASH, DOT, DOT, DASH, DOT]
    case '!' => [DASH, DOT, DASH, DOT, DASH, DASH]
    case '-' => [DASH, DOT, DOT, DOT, DOT, DASH]
    case '_' => [DOT, DOT, DASH, DASH, DOT, DASH]
    case '\"' => [DOT, DASH, DOT, DOT, DASH, DOT]
    case '(' => [DASH, DOT, DASH, DASH, DOT]
    case ')' => [DASH, DOT, DASH, DASH, DOT, DASH]
    case '$' => [DOT, DOT, DOT, DASH, DOT, DOT, DASH]
    case '&' => [DOT, DOT, DOT, DOT]
    case '@' => [DOT, DASH, DASH, DOT, DASH, DOT]
    case _ => []
  }

  // ----- decoding -----

  /** What is printed for a group of tokens. */
  function Lookup(c: seq<int>): string
  {
    match |c|
    case 0 => ""
    case 1 => One(c)
    case 2 => Two(c)
    case 3 => Three(c)
    case 4 => Four(c)
    case 5 => Five(c)
    case 6 => SixSymbols(c) + SixEnd(c)
    case 7 => Seven(c)
    case _ => "~"
  }

  function One(c: seq<int>): string
    requires |c| == 1
  {
    if c[0] == WORD_GAP then " "
    else if c[0] == DOT then "E"
    else if c[0] == DASH then "T"
    else "~"
  }

  function Two(c: seq<int>): string
    requires |c| == 2
  {
    if c[0] == DOT && c[1] == DASH then "A"
    else if c[0] == DOT && c[1] == DOT then "I"
    else if c[0] == DASH && c[1] == DASH then "M"
    else if c[0] == DASH && c[1] == DOT then "N"
    else "~"
  }

  function Three(c: seq<int>): string
    requires |c| == 3
  {
    if c[0] == DASH && c[1] == DOT && c[2] == DOT then "D"
    else if c[0] == DASH && c[1] == DASH && c[2] == DOT then "G"
    else if c[0] == DASH && c[1] == DOT && c[2] == DASH then "K"
    else if c[0] == DASH && c[1] == DASH && c[2] == DASH then "O"
    else if c[0] == DOT && c[1] == DASH && c[2] == DOT then "R"
    else if c[0] == DOT && c[1] == DOT && c[2] == DOT then "S"
    else if c[0] == DOT && c[1] == DOT && c[2] == DASH then "U"
    else if c[0] == DOT && c[1] == DASH && c[2] == DASH then "W"
    else "~"
  }

  function Four(c: seq<int>): string
    requires |c| == 4
  {
    if c[0] == DASH && c[1] == DOT && c[2] == DOT && c[3] == DOT then "B"
    else if c[0] == DASH && c[1] == DOT && c[2] == DASH && c[3] == DOT then "C"
    else if c[0] == DOT && c[1] == DOT && c[2] == DASH && c[3] == DOT then "F"
    else if c[0] == DOT && c[1] == DOT && c[2] == DOT && c[3] == DOT then "H"
    else if c[0] == DOT && c[1] == DASH && c[2] == DASH && c[3] == DASH then "J"
    else if c[0] == DOT && c[1] == DASH && c[2] == DOT && c[3] == DOT then "L"
    else if c[0] == DOT && c[1] == DASH && c[2] == DASH && c[3] == DOT then "P"
    else if c[0] == DASH && c[1] == DASH && c[2] == DOT && c[3] == DASH then "Q"
    else if c[0] == DOT && c[1] == DOT && c[2] == DOT && c[3] == DASH then "V"
    else if c[0] == DASH && c[1] == DOT && c[2] == DOT && c[3] == DASH then "X"
    else if c[0] == DASH && c[1] == DOT && c[2] == DASH && c[3] == DASH then "Y"
    else if c[0] == DASH && c[1] == DASH && c[2] == DOT && c[3] == DOT then "Z"
    else if c[0] == DOT && c[1] == DOT && c[2] == DOT && c[3] == DOT then "&"
    else "~"
  }

  function Five(c: seq<int>): string
    requires |c| == 5
  {
    if c[0] == DASH && c[1] == DASH && c[2] == DASH && c[3] == DASH && c[4] == DASH then "0"
    else if c[0] == DOT && c[1] == DASH && c[2] == DASH && c[3] == DASH && c[4] == DASH then "1"
    else if c[0] == DOT && c[1] == DOT && c[2] == DASH && c[3] == DASH && c[4] == DASH then "2"
    else if c[0] == DOT && c[1] == DOT && c[2] == DOT && c[3] == DASH && c[4] == DASH then "3"
    else if c[0] == DOT && c[1] == DOT && c[2] == DOT && c[3] == DOT && c[4] == DASH then "4"
    else if c[0] == DOT && c[1] == DOT && c[2] == DOT && c[3] == DOT && c[4] == DOT then "5"
    else if c[0] == DASH && c[1] == DOT && c[2] == DOT && c[3] == DOT && c[4] == DOT then "6"
    else if c[0] == DASH && c[1] == DASH && c[2] == DOT && c[3] == DOT && c[4] == DOT then "7"
    else if c[0] == DASH && c[1] == DASH && c[2] == DASH && c[3] == DOT && c[4] == DOT then "8"
    else if c[0] == DASH && c[1] == DASH && c[2] == DASH && c[3] == DASH && c[4] == DOT then "9"
    else if c[0] == DASH && c[1] == DOT && c[2] == DOT && c[3] == DOT && c[4] == DASH then "="
    else if c[0] == DASH && c[1] == DOT && c[2] == DOT && c[3] == DASH && c[4] == DOT then "/"
    else if c[0] == DASH && c[1] == DOT && c[2] == DASH && c[3] == DASH && c[4] == DOT then "("
    else "~"
  }

  // Every test of this branch is made, and only the last one, for '@', has an else: the
  // other patterns are printed with a '~' behind them.
  function SixSymbols(c: seq<int>): string
    requires |c| == 6
  {
    if c[0] == DOT && c[1] == DASH && c[2] == DOT && c[3] == DASH && c[4] == DOT && c[5] == DASH then "."
    else if c[0] == DASH && c[1] == DASH && c[2] == DASH && c[3] == DOT && c[4] == DOT && c[5] == DOT then ":"
    else if c[0] == DASH && c[1] == DASH && c[2] == DOT && c[3] == DOT && c[4] == DASH && c[5] == DASH then ","
    else if c[0] == DASH && c[1] == DOT && c[2] == DASH && c[3] == DOT && c[4] == DASH && c[5] == DOT then ";"
    else if c[0] == DOT && c[1] == DOT && c[2] == DASH && c[3] == DASH && c[4] == DOT && c[5] == DOT then "?"
    else if c[0] == DOT && c[1] == DASH && c[2] == DASH && c[3] == DASH && c[4] == DASH && c[5] == DOT then "\'"
    else if c[0] == DASH && c[1] == DOT && c[2] == DASH && c[3] == DOT && c[4] == DASH && c[5] == DASH then "!"
    else if c[0] == DASH && c[1] == DOT && c[2] == DOT && c[3] == DOT && c[4] == DOT && c[5] == DASH then "-"
    else if c[0] == DOT && c[1] == DOT && c[2] == DASH && c[3] == DASH && c[4] == DOT && c[5] == DASH then "_"
    else if c[0] == DOT && c[1] == DASH && c[2] == DOT && c[3] == DOT && c[4] == DASH && c[5] == DOT then "\""
    else if c[0] == DASH && c[1] == DOT && c[2] == DASH && c[3] == DASH && c[4] == DOT && c[5] == DASH then ")"
    else ""
  }

  function SixEnd(c: seq<int>): string
    requires |c| == 6
  {
    if c[0] == DOT && c[1] == DASH && c[2] == DASH && c[3] == DOT && c[4] == DASH && c[5] == DOT then "@" else "~"
  }

  function Seven(c: seq<int>): string
    requires |c| == 7
  {
    if c[0] == DOT && c[1] == DOT && c[2] == DOT && c[3] == DASH && c[4] == DOT && c[5] == DOT && c[6] == DASH then "$" else "~"
  }

  // ----- the two agree -----

  /** The characters that survive the round trip. */
  predicate RoundTrips(ch: char)
  {
    'A' <= ch <= 'Z' || '0' <= ch <= '9' || ch == ' ' || ch == '=' || ch == '/' || ch == '(' || ch == '@' || ch == '$'
  }

  /** What each character is printed as after the round trip. */
  function Printed(ch: char): string
  {
    if RoundTrips(ch) then [ch]
    else if ch == '&' then "H"
    else if Group(ch) != [] then [ch, '~']
    else ""
  }

  lemma LookupLetter(ch: char)
    requires 'A' <= ch <= 'Z'
    ensures Group(ch) != [] && Lookup(Group(ch)) == [ch]
  {
    match ch
    case 'A' => assert Lookup([DOT, DASH]) == "A";
    case 'B' => assert Lookup([DASH, DOT, DOT, DOT]) == "B";
    case 'C' => assert Lookup([DASH, DOT, DASH, DOT]) == "C";
    case 'D' => assert Lookup([DASH, DOT, DOT]) == "D";
    case 'E' => assert Lookup([DOT]) == "E";
    case 'F' => assert Lookup([DOT, DOT, DASH, DOT]) == "F";
    case 'G' => assert Lookup([DASH, DASH, DOT]) == "G";
    case 'H' => assert Lookup([DOT, DOT, DOT, DOT]) == "H";
    case 'I' => assert Lookup([DOT, DOT]) == "I";
    case 'J' => assert Lookup([DOT, DASH, DASH, DASH]) == "J";
    case 'K' => assert Lookup([DASH, DOT, DASH]) == "K";
    case 'L' => assert Lookup([DOT, DASH, DOT, DOT]) == "L";
    case 'M' => assert Lookup([DASH, DASH]) == "M";
    case 'N' => assert Lookup([DASH, DOT]) == "N";
    case 'O' => assert Lookup([DASH, DASH, DASH]) == "O";
    case 'P' => assert Lookup([DOT, DASH, DASH, DOT]) == "P";
    case 'Q' => assert Lookup([DASH, DASH, DOT, DASH]) == "Q";
    case 'R' => assert Lookup([DOT, DASH, DOT]) == "R";
    case 'S' => assert Lookup([DOT, DOT, DOT]) == "S";
    case 'T' => assert Lookup([DASH]) == "T";
    case 'U' => assert Lookup([DOT, DOT, DASH]) == "U";
    case 'V' => assert Lookup([DOT, DOT, DOT, DASH]) == "V";
    case 'W' => assert Lookup([DOT, DASH, DASH]) == "W";
    case 'X' => assert Lookup([DASH, DOT, DOT, DASH]) == "X";
    case 'Y' => assert Lookup([DASH, DOT, DASH, DASH]) == "Y";
    case 'Z' => assert Lookup([DASH, DASH, DOT, DOT]) == "Z";
  }

  predicate FiveMarks(ch: char)
  {
    '0' <= ch <= '9' || ch == '=' || ch == '/' || ch == '('
  }

  lemma LookupFiveMarks(ch: char)
    requires FiveMarks(ch)
    ensures |Group(ch)| == 5 && Five(Group(ch)) == [ch]
  {
    match ch
    case '0' => assert Five([DASH, DASH, DASH, DASH, DASH]) == "0";
    case '1' => assert Five([DOT, DASH, DASH, DASH, DASH]) == "1";
    case '2' => assert Five([DOT, DOT, DASH, DASH, DASH]) == "2";
    case '3' => assert Five([DOT, DOT, DOT, DASH, DASH]) == "3";
    case '4' => assert Five([DOT, DOT, DOT, DOT, DASH]) == "4";
    case '5' => assert Five([DOT, DOT, DOT, DOT, DOT]) == "5";
    case '6' => assert Five([DASH, DOT, DOT, DOT, DOT]) == "6";
    case '7' => assert Five([DASH, DASH, DOT, DOT, DOT]) == "7";
    case '8' => assert Five([DASH, DASH, DASH, DOT, DOT]) == "8";
    case '9' => assert Five([DASH, DASH, DASH, DASH, DOT]) == "9";
    case '=' => assert Five([DASH, DOT, DOT, DOT, DASH]) == "=";
    case '/' => assert Five([DASH, DOT, DOT, DASH, DOT]) == "/";
    case '(' => assert Five([DASH, DOT, DASH, DASH, DOT]) == "(";
  }

  predicate SixMarks(ch: char)
  {
    ch == '.' || ch == ':' || ch == ',' || ch == ';' || ch == '?' || ch == '\'' || ch == '!' || ch == '-' || ch == '_'
    || ch == '\"' || ch == ')'
  }

  lemma LookupSixMarks(ch: char)
    requires SixMarks(ch)
    ensures |Group(ch)| == 6 && SixSymbols(Group(ch)) == [ch] && SixEnd(Group(ch)) == "~"
  {
    match ch
    case '.' => assert SixSymbols([DOT, DASH, DOT, DASH, DOT, DASH]) == ".";
    case ':' => assert SixSymbols([DASH, DASH, DASH, DOT, DOT, DOT]) == ":";
    case ',' => assert SixSymbols([DASH, DASH, DOT, DOT, DASH, DASH]) == ",";
    case ';' => assert SixSymbols([DASH, DOT, DASH, DOT, DASH, DOT]) == ";";
    case '?' => assert SixSymbols([DOT, DOT, DASH, DASH, DOT, DOT]) == "?";
    case '\'' => assert SixSymbols([DOT, DASH, DASH, DASH, DASH, DOT]) == "\'";
    case '!' => assert SixSymbols([DASH, DOT, DASH, DOT, DASH, DASH]) == "!";
    case '-' => assert SixSymbols([DASH, DOT, DOT, DOT, DOT, DASH]) == "-";
    case '_' => assert SixSymbols([DOT, DOT, DASH, DASH, DOT, DASH]) == "_";
    case '\"' => assert SixSymbols([DOT, DASH, DOT, DOT, DASH, DOT]) == "\"";
    case ')' => assert SixSymbols([DASH, DOT, DASH, DASH, DOT, DASH]) == ")";
  }

  /** Looking up a character's own group prints the character, except that '&' is read as
      the letter with the same code and the other six-mark symbols gain a '~'. */
  lemma LookupGroup(ch: char)
    ensures Lookup(Group(ch)) == Printed(ch)
  {
    if 'A' <= ch <= 'Z' {
      LookupLetter(ch);
    } else if FiveMarks(ch) {
      LookupFiveMarks(ch);
    } else if SixMarks(ch) {
      LookupSixMarks(ch);
    } else if ch == ' ' || ch == '&' || ch == '@' || ch == '$' {
      LookupRest(ch);
    } else {
      NoCode(ch);
    }
  }

  lemma LookupRest(ch: char)
    requires ch == ' ' || ch == '&' || ch == '@' || ch == '$'
    ensures Lookup(Group(ch)) == Printed(ch)
  {
    hide Two, Three, Five;
    match ch
    case ' ' => assert Lookup([WORD_GAP]) == " ";
    case '&' => assert Lookup([DOT, DOT, DOT, DOT]) == "H";
    case '@' => assert Lookup([DOT, DASH, DASH, DOT, DASH, DOT]) == "@";
    case '$' => assert Lookup([DOT, DOT, DOT, DASH, DOT, DOT, DASH]) == "$";
  }

  // Every other character has no code.
  lemma NoCode(ch: char)
    requires !('A' <= ch <= 'Z') && !FiveMarks(ch) && !SixMarks(ch) && ch != ' ' && ch != '&' && ch != '@' && ch != '$'
    ensures Group(ch) == [] && Printed(ch) == ""
  {
  }
}
