/** The straddling checkerboard of VICOperations.java: the two escape digits
    (numberSpaces) and the table of letter codes (straddlingCheckerboard). The
    board has four rows of eleven cells; column 0 holds the row keys and row 0
    the permutation digits that head the columns. */
module Checkerboard {
  import opened Lists
  import opened VICOperations

  // ------------------------------------------------------------ constants

  /** The digits the permutation must be drawn from and the anagram must avoid. */
  function InputNums(): seq<char> { "1234567890" }

  /** The upper-case letters A .. Z, in the order the board is scanned. */
  function Alphabet(): seq<char> {
    seq(26, i requires 0 <= i < 26 => ('A' as int + i) as char)
  }

  lemma InputNumsAreDigits(c: char)
    ensures c in InputNums() <==> IsDigit(c)
  {
    if IsDigit(c) {
      assert c == InputNums()[(c as int - '0' as int + 9) % 10];
    }
  }

  lemma AlphabetLetters()
    ensures Distinct(Alphabet())
    ensures forall c :: c in Alphabet() <==> 'A' <= c <= 'Z'
  {
    forall c | 'A' <= c <= 'Z' ensures c in Alphabet() {
      assert Alphabet()[c as int - 'A' as int] == c;
    }
  }

  // ------------------------------------------------------------ escape digits

  /** Every space among the first n anagram characters has a permutation
      character above it (otherwise numberSpaces would index past perm). */
  predicate SpacesCovered(perm: seq<char>, anagram: seq<char>, n: nat) {
    n <= |anagram| && forall i :: 0 <= i < n && anagram[i] == ' ' ==> i < |perm|
  }

  /** numberSpaces after its first n steps: a space fills slot 0 while slot 0
      still holds '$', and otherwise overwrites slot 1. */
  function SpaceKeys(perm: seq<char>, anagram: seq<char>, n: nat): (e: seq<char>)
    requires SpacesCovered(perm, anagram, n)
    ensures |e| == 2
  {
    if n == 0 then ['$', '$']
    else
      var e := SpaceKeys(perm, anagram, n - 1);
      if anagram[n - 1] != ' ' then e
      else if e[0] == '$' then [perm[n - 1], e[1]]
      else [e[0], perm[n - 1]]
  }

  /** numberSpaces: the digits that key rows 2 and 3 of the board. */
  method NumberSpaces(perm: seq<char>, anagram: seq<char>) returns (numSpace: seq<char>)
    requires SpacesCovered(perm, anagram, 10)
    ensures numSpace == SpaceKeys(perm, anagram, 10)
    ensures (forall i :: 0 <= i < 10 && anagram[i] == ' ' ==> perm[i] != '$') ==>
      numSpace == [FirstSpaceKey(perm, anagram[..10]), LastSpaceKey(perm, anagram[..10])]
  {
    var a := new char[2];
    a[0], a[1] := '$', '$';
    var i := 0;
    while i < 10
      invariant 0 <= i <= 10
      invariant a[..] == SpaceKeys(perm, anagram, i)
    {
      if anagram[i] == ' ' {
        if a[0] == '$' {
          a[0] := perm[i];
        } else {
          a[1] := perm[i];
        }
      }
      i := i + 1;
    }
    numSpace := a[..];
    if forall i :: 0 <= i < 10 && anagram[i] == ' ' ==> perm[i] != '$' {
      SpaceKeysMeaning(perm, anagram, 10);
    }
  }

  /** The permutation character above the first space, or '$' if there is none. */
  function FirstSpaceKey(perm: seq<char>, s: seq<char>): char
    requires SpacesCovered(perm, s, |s|)
  {
    var p := IndexOf(s, ' ');
    if p < 0 then '$' else perm[p]
  }

  /** The permutation character above the last space, when there are at least
      two spaces, or '$' otherwise. */
  function LastSpaceKey(perm: seq<char>, s: seq<char>): char
    requires SpacesCovered(perm, s, |s|)
  {
    var q := LastIndexOf(s, ' ');
    OccurrencesBound(s, ' ');
    if Occurrences(s, ' ') < 2 then '$' else perm[q]
  }

  /** When no space sits below a '$' of the permutation, numberSpaces returns
      the digit above the first space and the digit above the last one. */
  lemma {:induction false} SpaceKeysMeaning(perm: seq<char>, anagram: seq<char>, n: nat)
    requires SpacesCovered(perm, anagram, n)
    requires forall i :: 0 <= i < n && anagram[i] == ' ' ==> perm[i] != '$'
    ensures SpaceKeys(perm, anagram, n) == [FirstSpaceKey(perm, anagram[..n]), LastSpaceKey(perm, anagram[..n])]
  {
    if n > 0 {
      var s', a := anagram[..n - 1], anagram[n - 1];
      var s := anagram[..n];
      assert s == s' + [a];
      assert s[..n - 1] == s';
      SpaceKeysMeaning(perm, anagram, n - 1);
      IndexOfSnoc(s', a, ' ');
      OccurrencesSnoc(s', a, ' ');
      OccurrencesBound(s', ' ');
    }
  }

  // ------------------------------------------------------------ the board

  /** The input checks of straddlingCheckerboard: both strings ten long, every
      permutation character a digit, no anagram character a digit, and exactly
      two spaces in the anagram. */
  predicate CheckerboardAccepts(perm: seq<char>, anagram: seq<char>) {
    |perm| == 10 && |anagram| == 10 &&
    (forall i :: 0 <= i < 10 ==> perm[i] in InputNums() && anagram[i] !in InputNums()) &&
    Occurrences(anagram, ' ') == 2
  }

  /** The four rows as straddlingCheckerboard fills them: the permutation, the
      anagram, the first ten leftover letters keyed by the first escape digit,
      and the next eight keyed by the second, padded with '$'. */
  function BoardRows(perm: seq<char>, anagram: seq<char>, keys: seq<char>, letters: seq<char>): (b: seq<seq<char>>)
    requires |perm| == 10 && |anagram| == 10 && |keys| == 2 && |letters| >= 18
    ensures WellShaped(b)
  {
    [['$'] + perm, ['$'] + anagram, [keys[0]] + letters[..10], [keys[1]] + letters[10..18] + ['$', '$']]
  }

  predicate WellShaped(b: seq<seq<char>>) {
    |b| == 4 && forall r :: 0 <= r < 4 ==> |b[r]| == 11
  }

  /** The code of a cell: its row key followed by its column digit, the key
      dropped when it is '$'. */
  function CellCode(b: seq<seq<char>>, row: nat, col: nat): (code: seq<char>)
    requires WellShaped(b) && 1 <= row < 4 && col < 11
  {
    if b[row][0] == '$' then [b[0][col]] else [b[row][0], b[0][col]]
  }

  /** The codes of the cells in columns 1 .. col - 1 of a row that hold c. */
  function RowCodes(b: seq<seq<char>>, c: char, row: nat, col: nat): seq<seq<char>>
    requires WellShaped(b) && 1 <= row < 4 && 1 <= col <= 11
  {
    if col == 1 then []
    else RowCodes(b, c, row, col - 1) + (if b[row][col - 1] == c then [CellCode(b, row, col - 1)] else [])
  }

  /** The codes of the cells in rows 1 .. row - 1 that hold c. */
  function LetterCodes(b: seq<seq<char>>, c: char, row: nat): seq<seq<char>>
    requires WellShaped(b) && 1 <= row <= 4
  {
    if row == 1 then [] else LetterCodes(b, c, row - 1) + RowCodes(b, c, row - 1, 11)
  }

  /** The codes of the first k letters of the alphabet, letter after letter. */
  function BoardCodes(b: seq<seq<char>>, k: nat): seq<seq<char>>
    requires WellShaped(b) && k <= 26
  {
    if k == 0 then [] else BoardCodes(b, k - 1) + LetterCodes(b, Alphabet()[k - 1], 4)
  }

  /** An anagram of ten characters with two spaces holds eight other
      characters, so at least eighteen letters are left for the board. */
  lemma LeftoverAtLeast18(anagram: seq<char>)
    requires |anagram| == 10 && Occurrences(anagram, ' ') == 2
    ensures |Leftover(Alphabet(), anagram)| >= 18
  {
    LeftoverCount(anagram, 10);
    assert anagram[..10] == anagram;
  }

  lemma {:induction false} LeftoverCount(anagram: seq<char>, n: nat)
    requires n <= |anagram|
    ensures |Leftover(Alphabet(), anagram[..n])| + n >= 26 + Occurrences(anagram[..n], ' ')
  {
    AlphabetLetters();
    if n == 0 {
      LeftoverNone(Alphabet());
    } else {
      LeftoverCount(anagram, n - 1);
      assert anagram[..n] == anagram[..n - 1] + [anagram[n - 1]];
      LeftoverRemove(Alphabet(), anagram[..n - 1], anagram[n - 1]);
      OccurrencesSnoc(anagram[..n - 1], anagram[n - 1], ' ');
    }
  }

  /** The escape digits of an accepted pair are the permutation digits above the
      two spaces of the anagram. */
  lemma AcceptedKeys(perm: seq<char>, anagram: seq<char>)
    requires CheckerboardAccepts(perm, anagram)
    ensures AllDigits(perm) && SpacesCovered(perm, anagram, 10)
    ensures 0 <= IndexOf(anagram, ' ') < LastIndexOf(anagram, ' ') < 10
    ensures SpaceKeys(perm, anagram, 10) == [perm[IndexOf(anagram, ' ')], perm[LastIndexOf(anagram, ' ')]]
  {
    forall i | 0 <= i < 10 ensures IsDigit(perm[i]) {
      InputNumsAreDigits(perm[i]);
    }
    assert anagram[..10] == anagram;
    OccurrencesBound(anagram, ' ');
    SpaceKeysMeaning(perm, anagram, 10);
    SpacesApart(anagram);
  }

  /** With two spaces or more, the first space comes before the last. */
  lemma SpacesApart(s: seq<char>)
    requires Occurrences(s, ' ') >= 2
    ensures 0 <= IndexOf(s, ' ') < LastIndexOf(s, ' ')
  {
    OccurrencesBound(s, ' ');
    var p := IndexOf(s, ' ');
    if p == LastIndexOf(s, ' ') {
      assert s == s[..p] + [' '] + s[p + 1..];
      OccurrencesAppend(s[..p] + [' '], s[p + 1..], ' ');
      OccurrencesSnoc(s[..p], ' ', ' ');
      OccurrencesBound(s[..p], ' ');
      assert false;
    }
  }

  /** The whole table of an accepted pair: the codes the scan collects. */
  function CheckerboardOf(perm: seq<char>, anagram: seq<char>): seq<seq<char>>
    requires CheckerboardAccepts(perm, anagram)
  {
    AcceptedKeys(perm, anagram);
    LeftoverAtLeast18(anagram);
    BoardCodes(BoardRows(perm, anagram, SpaceKeys(perm, anagram, 10), Leftover(Alphabet(), anagram)), 26)
  }

  // ------------------------------------------------------------ the methods

  /** The letter list of straddlingCheckerboard: A .. Z, then every anagram
      character removed in turn. The guard compares a position with the code
      of an escape character ('$' or a digit, all above 9), so it never fails. */
  method LetterList(anagram: seq<char>, spaces: seq<char>) returns (letter: seq<char>)
    requires |anagram| == 10 && |spaces| == 2
    requires forall k :: 0 <= k < 2 ==> spaces[k] == '$' || IsDigit(spaces[k])
    ensures letter == Leftover(Alphabet(), anagram)
  {
    letter := [];
    var j := 'A';
    while j <= 'Z'
      invariant 'A' <= j <= '['
      invariant letter == Alphabet()[..j as int - 'A' as int]
    {
      letter := letter + [j];
      j := (j as int + 1) as char;
    }
    assert letter == Alphabet();
    AlphabetLetters();
    LeftoverNone(Alphabet());
    assert anagram[..0] == [];
    var index := 0;
    while index < 10
      invariant 0 <= index <= 10
      invariant letter == Leftover(Alphabet(), anagram[..index])
    {
      if index != spaces[0] as int && index != spaces[1] as int {
        assert anagram[..index + 1] == anagram[..index] + [anagram[index]];
        LeftoverRemove(Alphabet(), anagram[..index], anagram[index]);
        letter := RemoveFirst(letter, anagram[index]);
      }
      index := index + 1;
    }
    assert anagram[..10] == anagram;
  }

  /** The filling of characterBoard: column 0 first, then columns 1 .. 10. */
  method FillBoard(perm: seq<char>, anagram: seq<char>, spaces: seq<char>, letter: seq<char>)
    returns (board: array2<char>)
    requires |perm| == 10 && |anagram| == 10 && |spaces| == 2 && |letter| >= 18
    ensures fresh(board) && board.Length0 == 4 && board.Length1 == 11
    ensures forall r, c :: 0 <= r < 4 && 0 <= c < 11 ==> board[r, c] == BoardRows(perm, anagram, spaces, letter)[r][c]
  {
    ghost var b := BoardRows(perm, anagram, spaces, letter);
    board := new char[4, 11];
    board[0, 0] := '$';
    board[1, 0] := '$';
    board[2, 0] := spaces[0];
    board[3, 0] := spaces[1];
    var index := 1;
    while index < 11
      invariant 1 <= index <= 11
      invariant forall r, c :: 0 <= r < 4 && 0 <= c < index ==> board[r, c] == b[r][c]
    {
      board[0, index] := perm[index - 1];
      board[1, index] := anagram[index - 1];
      board[2, index] := letter[index - 1];
      if index < 9 {
        board[3, index] := letter[index + 9];
      } else {
        board[3, index] := '$';
      }
      index := index + 1;
    }
  }

  /** The scan of straddlingCheckerboard: for each letter A .. Z, rows 1 .. 3
      and columns 1 .. 10, the code of every cell holding the letter. */
  method ReadCodes(board: array2<char>, ghost b: seq<seq<char>>) returns (finalResult: seq<seq<char>>)
    requires board.Length0 == 4 && board.Length1 == 11 && WellShaped(b)
    requires forall r, c :: 0 <= r < 4 && 0 <= c < 11 ==> board[r, c] == b[r][c]
    ensures finalResult == BoardCodes(b, 26)
  {
    finalResult := [];
    var currChar := 'A';
    while currChar <= 'Z'
      invariant 'A' <= currChar <= '['
      invariant finalResult == BoardCodes(b, currChar as int - 'A' as int)
    {
      ghost var k := currChar as int - 'A' as int;
      assert Alphabet()[k] == currChar;
      var index := 1;
      while index < 4
        invariant 1 <= index <= 4
        invariant finalResult == BoardCodes(b, k) + LetterCodes(b, currChar, index)
      {
        var rowCodes := ScanRow(board, b, currChar, index);
        ghost var done := LetterCodes(b, currChar, index);
        assert LetterCodes(b, currChar, index + 1) == done + rowCodes;
        assert (BoardCodes(b, k) + done) + rowCodes == BoardCodes(b, k) + (done + rowCodes);
        finalResult := finalResult + rowCodes;
        index := index + 1;
      }
      currChar := (currChar as int + 1) as char;
    }
  }

  /** The innermost loop of the scan: the codes of the cells of one row that
      hold currChar, left to right. */
  method ScanRow(board: array2<char>, ghost b: seq<seq<char>>, currChar: char, index: nat) returns (codes: seq<seq<char>>)
    requires board.Length0 == 4 && board.Length1 == 11 && WellShaped(b) && 1 <= index < 4
    requires forall r, c :: 0 <= r < 4 && 0 <= c < 11 ==> board[r, c] == b[r][c]
    ensures codes == RowCodes(b, currChar, index, 11)
  {
    codes := [];
    var jIndex := 1;
    while jIndex < 11
      invariant 1 <= jIndex <= 11
      invariant codes == RowCodes(b, currChar, index, jIndex)
    {
      if board[index, jIndex] == currChar {
        var currString := [board[index, 0], board[0, jIndex]];
        if currString[0] == '$' {
          currString := [currString[1]];
        }
        codes := codes + [currString];
      }
      jIndex := jIndex + 1;
    }
  }

  /** The validity check at the head of straddlingCheckerboard: both strings of
      length 10, the permutation all digits, the anagram free of digits, and
      exactly two spaces in the anagram. */
  method CheckInputs(permutation: seq<char>, anagram: seq<char>) returns (ok: bool)
    ensures ok <==> CheckerboardAccepts(permutation, anagram)
  {
    if |permutation| != 10 || |anagram| != 10 {
      return false;
    }
    var inputNums := InputNums();
    var count := 0;
    var index := 0;
    while index < |permutation|
      invariant 0 <= index <= 10
      invariant count == Occurrences(anagram[..index], ' ')
      invariant forall i :: 0 <= i < index ==> permutation[i] in inputNums && anagram[i] !in inputNums
    {
      if permutation[index] !in inputNums || anagram[index] in inputNums {
        return false;
      }
      if anagram[index] == ' ' {
        count := count + 1;
      }
      OccurrencesPrefixStep(anagram, index, ' ');
      index := index + 1;
    }
    assert anagram[..10] == anagram;
    return count == 2;
  }

  /** straddlingCheckerboard: None (null) on invalid input, otherwise the code of
      every letter, in alphabetical order, read from the 4 x 11 board. */
  method StraddlingCheckerboard(permutation: seq<char>, anagram: seq<char>) returns (r: Option<seq<seq<char>>>)
    ensures r.None? <==> !CheckerboardAccepts(permutation, anagram)
    ensures r.Some? ==> r.value == CheckerboardOf(permutation, anagram)
  {
    var ok := CheckInputs(permutation, anagram);
    if !ok {
      return None;
    }
    AcceptedKeys(permutation, anagram);
    LeftoverAtLeast18(anagram);
    var spaces := NumberSpaces(permutation, anagram);
    var letter := LetterList(anagram, spaces);
    var characterBoard := FillBoard(permutation, anagram, spaces, letter);
    var finalResult := ReadCodes(characterBoard, BoardRows(permutation, anagram, spaces, letter));
    return Some(finalResult);
  }

  // ------------------------------------------------------------ size of the table

  /** Distinct letters occur in s at most |s| times altogether. */
  lemma {:induction false} SumOccurrencesAtMost(s: seq<char>, letters: seq<char>)
    requires Distinct(letters)
    ensures SumOccurrences(s, letters) <= |s|
  {
    if s == [] {
      SumOccurrencesNone(letters);
    } else {
      var t := s[..|s| - 1];
      assert s == t + [s[|s| - 1]];
      SumOccurrencesAtMost(t, letters);
      SumOccurrencesSnoc(t, s[|s| - 1], letters);
    }
  }

  lemma {:induction false} RowCodesCount(b: seq<seq<char>>, c: char, row: nat, col: nat)
    requires WellShaped(b) && 1 <= row < 4 && 1 <= col <= 11
    ensures |RowCodes(b, c, row, col)| == Occurrences(b[row][1..col], c)
  {
    if col > 1 {
      RowCodesCount(b, c, row, col - 1);
      assert b[row][1..col] == b[row][1..col - 1] + [b[row][col - 1]];
      OccurrencesSnoc(b[row][1..col - 1], b[row][col - 1], c);
    } else {
      assert b[row][1..col] == [];
    }
  }

  lemma LetterCodesRows(b: seq<seq<char>>, c: char)
    requires WellShaped(b)
    ensures LetterCodes(b, c, 4) == RowCodes(b, c, 1, 11) + RowCodes(b, c, 2, 11) + RowCodes(b, c, 3, 11)
  {
    assert LetterCodes(b, c, 2) == RowCodes(b, c, 1, 11);
  }

  lemma {:induction false} BoardCodesCount(b: seq<seq<char>>, k: nat)
    requires WellShaped(b) && k <= 26
    ensures |BoardCodes(b, k)| ==
      SumOccurrences(b[1][1..], Alphabet()[..k]) + SumOccurrences(b[2][1..], Alphabet()[..k]) + SumOccurrences(b[3][1..], Alphabet()[..k])
  {
    if k > 0 {
      BoardCodesCount(b, k - 1);
      var c := Alphabet()[k - 1];
      assert Alphabet()[..k][..k - 1] == Alphabet()[..k - 1];
      LetterCodesRows(b, c);
      RowCodesCount(b, c, 1, 11);
      RowCodesCount(b, c, 2, 11);
      RowCodesCount(b, c, 3, 11);
      assert b[1][1..11] == b[1][1..] && b[2][1..11] == b[2][1..] && b[3][1..11] == b[3][1..];
    }
  }

  /** Each of the thirty scanned cells holds at most one letter, so the table
      has at most thirty codes, whatever the anagram. */
  lemma BoardCodesAtMost30(b: seq<seq<char>>)
    requires WellShaped(b)
    ensures |BoardCodes(b, 26)| <= 30
  {
    AlphabetLetters();
    assert Alphabet()[..26] == Alphabet();
    BoardCodesCount(b, 26);
    SumOccurrencesAtMost(b[1][1..], Alphabet());
    SumOccurrencesAtMost(b[2][1..], Alphabet());
    SumOccurrencesAtMost(b[3][1..], Alphabet());
  }

  lemma CheckerboardAtMost30(perm: seq<char>, anagram: seq<char>)
    requires CheckerboardAccepts(perm, anagram)
    ensures |CheckerboardOf(perm, anagram)| <= 30
  {
    AcceptedKeys(perm, anagram);
    LeftoverAtLeast18(anagram);
    BoardCodesAtMost30(BoardRows(perm, anagram, SpaceKeys(perm, anagram, 10), Leftover(Alphabet(), anagram)));
  }

  // ------------------------------------------------------------ the codes, letter by letter

  /** The anagram the cipher intends: two spaces and eight distinct upper-case
      letters. */
  predicate WellFormedAnagram(anagram: seq<char>) {
    |anagram| == 10 && Occurrences(anagram, ' ') == 2 &&
    (forall i :: 0 <= i < 10 && anagram[i] != ' ' ==> 'A' <= anagram[i] <= 'Z') &&
    (forall i, j :: 0 <= i < j < 10 && anagram[i] != ' ' ==> anagram[i] != anagram[j])
  }

  lemma {:induction false} LeftoverCountExact(anagram: seq<char>, n: nat)
    requires WellFormedAnagram(anagram) && n <= 10
    ensures |Leftover(Alphabet(), anagram[..n])| + n == 26 + Occurrences(anagram[..n], ' ')
  {
    AlphabetLetters();
    if n == 0 {
      LeftoverNone(Alphabet());
    } else {
      LeftoverCountExact(anagram, n - 1);
      var x := anagram[n - 1];
      assert anagram[..n] == anagram[..n - 1] + [x];
      LeftoverRemove(Alphabet(), anagram[..n - 1], x);
      OccurrencesSnoc(anagram[..n - 1], x, ' ');
      if x != ' ' {
        assert x !in anagram[..n - 1];
        assert x in Leftover(Alphabet(), anagram[..n - 1]);
      }
    }
  }

  /** A well-formed anagram leaves exactly the eighteen letters rows 2 and 3 hold. */
  lemma LeftoverExactly18(anagram: seq<char>)
    requires WellFormedAnagram(anagram)
    ensures |Leftover(Alphabet(), anagram)| == 18
  {
    LeftoverCountExact(anagram, 10);
    assert anagram[..10] == anagram;
  }

  /** The code the board gives letter c: the digit above c when c is in the
      anagram; otherwise, for the t-th leftover letter (from 0), the digit above
      the first space and digit t when t < 10, and the digit above the last space
      and digit t - 10 when t >= 10. */
  function LetterCode(perm: seq<char>, anagram: seq<char>, c: char): (code: seq<char>)
    requires CheckerboardAccepts(perm, anagram) && WellFormedAnagram(anagram) && 'A' <= c <= 'Z'
  {
    AcceptedKeys(perm, anagram);
    LeftoverExactly18(anagram);
    AlphabetLetters();
    var letters := Leftover(Alphabet(), anagram);
    if c in anagram then [perm[IndexOf(anagram, c)]]
    else
      var t := IndexOf(letters, c);
      if t < 10 then [perm[IndexOf(anagram, ' ')], perm[t]]
      else [perm[LastIndexOf(anagram, ' ')], perm[t - 10]]
  }

  /** The codes of a row when exactly column j0 (or none, for j0 = 0) holds c. */
  lemma {:induction false} RowCodesOne(b: seq<seq<char>>, c: char, row: nat, n: nat, j0: nat)
    requires WellShaped(b) && 1 <= row < 4 && 1 <= n <= 11
    requires forall j :: 1 <= j < n ==> (b[row][j] == c <==> j == j0)
    ensures RowCodes(b, c, row, n) == if 1 <= j0 < n then [CellCode(b, row, j0)] else []
  {
    if n > 1 {
      RowCodesOne(b, c, row, n - 1, j0);
    }
  }

  /** The board built from an accepted pair with a well-formed anagram. */
  function TheBoard(perm: seq<char>, anagram: seq<char>): (b: seq<seq<char>>)
    requires CheckerboardAccepts(perm, anagram) && WellFormedAnagram(anagram)
    ensures WellShaped(b)
  {
    AcceptedKeys(perm, anagram);
    LeftoverAtLeast18(anagram);
    BoardRows(perm, anagram, SpaceKeys(perm, anagram, 10), Leftover(Alphabet(), anagram))
  }

  /** A letter that sits in the anagram at i0 only, and in no leftover cell. */
  lemma AnagramLetterRows(perm: seq<char>, anagram: seq<char>, keys: seq<char>, letters: seq<char>, c: char, i0: nat)
    requires |perm| == 10 && |anagram| == 10 && |keys| == 2 && |letters| == 18
    requires i0 < 10 && forall j :: 0 <= j < 10 ==> (anagram[j] == c <==> j == i0)
    requires c !in letters && c != '$'
    ensures LetterCodes(BoardRows(perm, anagram, keys, letters), c, 4) == [[perm[i0]]]
  {
    var b := BoardRows(perm, anagram, keys, letters);
    forall j | 1 <= j < 11 ensures b[1][j] == c <==> j == i0 + 1 {
      assert b[1][j] == anagram[j - 1];
    }
    forall j | 1 <= j < 11 ensures b[2][j] != c && b[3][j] != c {
      assert b[2][j] == letters[j - 1];
      if j < 9 {
        assert b[3][j] == letters[j + 9];
      }
    }
    RowCodesOne(b, c, 1, 11, i0 + 1);
    RowCodesOne(b, c, 2, 11, 0);
    RowCodesOne(b, c, 3, 11, 0);
    LetterCodesRows(b, c);
  }

  /** A letter that is the t-th leftover letter, and not in the anagram. */
  lemma LeftoverLetterRows(perm: seq<char>, anagram: seq<char>, keys: seq<char>, letters: seq<char>, c: char, t: nat)
    requires |perm| == 10 && |anagram| == 10 && |keys| == 2 && |letters| == 18
    requires Distinct(letters) && t < 18 && letters[t] == c
    requires c !in anagram && c != '$' && keys[0] != '$' && keys[1] != '$'
    ensures LetterCodes(BoardRows(perm, anagram, keys, letters), c, 4) ==
      if t < 10 then [[keys[0], perm[t]]] else [[keys[1], perm[t - 10]]]
  {
    var b := BoardRows(perm, anagram, keys, letters);
    forall j | 1 <= j < 11 ensures b[1][j] != c {
      assert b[1][j] == anagram[j - 1];
    }
    forall j | 1 <= j < 11 ensures b[2][j] == c <==> j == t + 1 {
      assert b[2][j] == letters[j - 1];
    }
    forall j | 1 <= j < 11 ensures b[3][j] == c <==> j == t - 9 {
      if j < 9 {
        assert b[3][j] == letters[j + 9];
      }
    }
    RowCodesOne(b, c, 1, 11, 0);
    LetterCodesRows(b, c);
    if t < 10 {
      RowCodesOne(b, c, 2, 11, t + 1);
      RowCodesOne(b, c, 3, 11, 0);
    } else {
      RowCodesOne(b, c, 2, 11, 0);
      RowCodesOne(b, c, 3, 11, t - 9);
    }
  }

  lemma BoardLetterCode(perm: seq<char>, anagram: seq<char>, c: char)
    requires CheckerboardAccepts(perm, anagram) && WellFormedAnagram(anagram) && 'A' <= c <= 'Z'
    ensures LetterCodes(TheBoard(perm, anagram), c, 4) == [LetterCode(perm, anagram, c)]
  {
    AcceptedKeys(perm, anagram);
    LeftoverExactly18(anagram);
    AlphabetLetters();
    LeftoverDistinct(Alphabet(), anagram);
    var keys, letters := SpaceKeys(perm, anagram, 10), Leftover(Alphabet(), anagram);
    if c in anagram {
      var i0 := IndexOf(anagram, c);
      AnagramLetterRows(perm, anagram, keys, letters, c, i0);
    } else {
      LeftoverLetterRows(perm, anagram, keys, letters, c, IndexOf(letters, c));
    }
  }

  /** The table of one code per letter: letter i of the alphabet gets LetterCode. */
  function LetterTable(perm: seq<char>, anagram: seq<char>): (t: seq<seq<char>>)
    requires CheckerboardAccepts(perm, anagram) && WellFormedAnagram(anagram)
    ensures |t| == 26
  {
    seq(26, i requires 0 <= i < 26 => LetterCode(perm, anagram, Alphabet()[i]))
  }

  /** A board on which each letter has exactly one code reads, letter by
      letter, as the table of those codes. */
  lemma {:induction false} BoardCodesByLetter(b: seq<seq<char>>, t: seq<seq<char>>, k: nat)
    requires WellShaped(b) && |t| == 26 && k <= 26
    requires forall i :: 0 <= i < 26 ==> LetterCodes(b, Alphabet()[i], 4) == [t[i]]
    ensures BoardCodes(b, k) == t[..k]
  {
    if k > 0 {
      BoardCodesByLetter(b, t, k - 1);
      assert LetterCodes(b, Alphabet()[k - 1], 4) == [t[k - 1]];
      assert t[..k] == t[..k - 1] + [t[k - 1]];
    }
  }

  /** For a well-formed anagram the table holds one code per letter, A .. Z:
      the scan of the board gives exactly LetterTable. */
  lemma CheckerboardByLetter(perm: seq<char>, anagram: seq<char>)
    requires CheckerboardAccepts(perm, anagram) && WellFormedAnagram(anagram)
    ensures CheckerboardOf(perm, anagram) == LetterTable(perm, anagram)
  {
    var b, t := TheBoard(perm, anagram), LetterTable(perm, anagram);
    AlphabetLetters();
    forall i | 0 <= i < 26 ensures LetterCodes(b, Alphabet()[i], 4) == [t[i]] {
      BoardLetterCode(perm, anagram, Alphabet()[i]);
    }
    BoardCodesByLetter(b, t, 26);
    assert t[..26] == t;
  }

  // ------------------------------------------------------------ decodability

  /** A table a reader can split and decode: all codes differ, and a code is
      either one character that is neither escape digit, or two characters
      headed by one of them. */
  predicate Decodable(codes: seq<seq<char>>, e0: char, e1: char) {
    Distinct(codes) &&
    forall k :: 0 <= k < |codes| ==>
      (|codes[k]| == 1 && codes[k][0] != e0 && codes[k][0] != e1) ||
      (|codes[k]| == 2 && (codes[k][0] == e0 || codes[k][0] == e1))
  }

  lemma LetterCodeShape(perm: seq<char>, anagram: seq<char>, c: char)
    requires CheckerboardAccepts(perm, anagram) && WellFormedAnagram(anagram) && 'A' <= c <= 'Z'
    requires Distinct(perm)
    ensures var code, e := LetterCode(perm, anagram, c), SpaceKeys(perm, anagram, 10);
      (|code| == 1 && code[0] != e[0] && code[0] != e[1]) ||
      (|code| == 2 && (code[0] == e[0] || code[0] == e[1]))
  {
    AcceptedKeys(perm, anagram);
    if c in anagram {
      var i0 := IndexOf(anagram, c);
      assert anagram[i0] != ' ';
    }
  }

  lemma LetterCodesDiffer(perm: seq<char>, anagram: seq<char>, c: char, d: char)
    requires CheckerboardAccepts(perm, anagram) && WellFormedAnagram(anagram)
    requires 'A' <= c <= 'Z' && 'A' <= d <= 'Z' && c != d && Distinct(perm)
    ensures LetterCode(perm, anagram, c) != LetterCode(perm, anagram, d)
  {
    AcceptedKeys(perm, anagram);
    LeftoverExactly18(anagram);
    AlphabetLetters();
    var letters := Leftover(Alphabet(), anagram);
    var p, q := IndexOf(anagram, ' '), LastIndexOf(anagram, ' ');
    if c in anagram && d in anagram {
      var ic, id := IndexOf(anagram, c), IndexOf(anagram, d);
      assert perm[ic] != perm[id];
    } else if c !in anagram && d !in anagram {
      var tc, td := IndexOf(letters, c), IndexOf(letters, d);
      assert tc != td;
      assert perm[p] != perm[q];
      if tc < 10 && td < 10 {
        assert perm[tc] != perm[td];
      } else if tc >= 10 && td >= 10 {
        assert perm[tc - 10] != perm[td - 10];
      }
    }
  }

  /** With a well-formed anagram and a permutation of distinct digits, the
      table can be decoded: the escape digits start exactly the two-digit
      codes, and no two letters share a code. */
  lemma CheckerboardDecodable(perm: seq<char>, anagram: seq<char>)
    requires CheckerboardAccepts(perm, anagram) && WellFormedAnagram(anagram) && Distinct(perm)
    ensures var e := SpaceKeys(perm, anagram, 10); Decodable(CheckerboardOf(perm, anagram), e[0], e[1])
    ensures |CheckerboardOf(perm, anagram)| == 26
  {
    CheckerboardByLetter(perm, anagram);
    var codes := LetterTable(perm, anagram);
    forall i, j | 0 <= i < j < |codes| ensures codes[i] != codes[j] {
      LetterCodesDiffer(perm, anagram, Alphabet()[i], Alphabet()[j]);
    }
    forall k | 0 <= k < |codes|
      ensures var e := SpaceKeys(perm, anagram, 10);
        (|codes[k]| == 1 && codes[k][0] != e[0] && codes[k][0] != e[1]) ||
        (|codes[k]| == 2 && (codes[k][0] == e[0] || codes[k][0] == e[1]))
    {
      LetterCodeShape(perm, anagram, Alphabet()[k]);
    }
  }
}
