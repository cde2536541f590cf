/** The decryption pipeline of DecryptVIC.main: the message key derived from
    the agent ID, the date and the phrase; the five-digit window cut out of the
    message at the position the date's sixth digit names; and the splitting of
    the rest into one- and two-digit codes that the checkerboard turns back into
    letters. */
module DecryptVIC {
  import opened Lists
  import opened VICOperations
  import opened Checkerboard

  /** The fields of the data file the Java reader fills in. */
  datatype VICData = VICData(agentID: seq<char>, date: seq<char>, phrase: seq<char>, anagram: seq<char>, message: seq<char>)

  // ------------------------------------------------------------ the message key

  /** What the key steps demand: an agent ID of two to five digits (chain
      addition needs two, the five-digit date prefix bounds it), date digits
      under it, and a phrase of at least ten characters. */
  predicate KeyInputs(agentID: seq<char>, date: seq<char>, phrase: seq<char>) {
    2 <= |agentID| <= 5 && AllDigits(agentID) && 5 <= |date| && DigitsUpTo(date, |agentID|) && |phrase| >= 10
  }

  /** str5 of the pipeline: the date prefix added to the agent ID, chained to
      ten digits, added to the phrase's permutation, and permuted again. */
  function KeyOf(agentID: seq<char>, date: seq<char>, phrase: seq<char>): (key: seq<char>)
    requires KeyInputs(agentID, date, phrase)
    ensures IsDigitPermutation(key)
  {
    var str1 := NoCarrySum(agentID, date[..5]);
    var str2 := ChainSum(str1, 10);
    var str3 := DigitPermutationOf(phrase);
    var str4 := NoCarrySum(str2, str3);
    DigitPermutationOf(str4)
  }

  /** Lines 18 to 22 of DecryptVIC.main. */
  method DeriveKey(agentID: seq<char>, date: seq<char>, phrase: seq<char>) returns (str5: seq<char>)
    requires KeyInputs(agentID, date, phrase)
    ensures str5 == KeyOf(agentID, date, phrase)
    ensures IsDigitPermutation(str5)
  {
    var str1 := NoCarryAddition(agentID, date[..5]);
    var str2 := ChainAddition(str1, 10);
    var str3 := DigitPermutation(phrase);
    var str4 := NoCarryAddition(str2, str3.value);
    var r := DigitPermutation(str4);
    str5 := r.value;
  }

  // ------------------------------------------------------------ the window

  /** Where the five-digit window starts: at the date digit, pulled back so
      that the window ends inside the message. */
  function WindowStart(message: seq<char>, lastDigit: nat): (start: nat)
    requires |message| >= 5
    ensures start + 5 <= |message|
    ensures start == Min(lastDigit, |message| - 5)
  {
    if |message| - lastDigit < 5 then |message| - 5 else lastDigit
  }

  /** tempString: the message without its window. */
  function RemoveWindow(message: seq<char>, lastDigit: nat): (work: seq<char>)
    requires |message| >= 5
    ensures |work| == |message| - 5
  {
    var start := WindowStart(message, lastDigit);
    message[..start] + message[start + 5..]
  }

  /** Cutting the window out undoes inserting five characters at the date
      digit (or at the end, when the digit lies past it). */
  lemma RemoveWindowInsert(body: seq<char>, pad: seq<char>, lastDigit: nat)
    requires |pad| == 5
    ensures var m := Min(lastDigit, |body|); RemoveWindow(body[..m] + pad + body[m..], lastDigit) == body
  {
    var m := Min(lastDigit, |body|);
    var message := body[..m] + pad + body[m..];
    assert WindowStart(message, lastDigit) == m;
    assert message[..m] == body[..m];
    assert message[m + 5..] == body[m..];
  }

  // ------------------------------------------------------------ tokens

  /** The working string splits into tokens: a character equal to an escape
      digit opens a two-character token, so it must not be the last one. */
  predicate Splittable(s: seq<char>, e0: char, e1: char)
    decreases |s|
  {
    s == [] ||
    if s[0] == e0 || s[0] == e1 then |s| >= 2 && Splittable(s[2..], e0, e1)
    else Splittable(s[1..], e0, e1)
  }

  /** The tokens of a splittable string, in order. */
  function Tokens(s: seq<char>, e0: char, e1: char): seq<seq<char>>
    requires Splittable(s, e0, e1)
    decreases |s|
  {
    if s == [] then []
    else if s[0] == e0 || s[0] == e1 then [s[..2]] + Tokens(s[2..], e0, e1)
    else [s[..1]] + Tokens(s[1..], e0, e1)
  }

  /** All the tokens laid end to end. */
  function Concat(tokens: seq<seq<char>>): seq<char> {
    if tokens == [] then [] else tokens[0] + Concat(tokens[1..])
  }

  /** Splitting loses and adds nothing. */
  lemma {:induction false} TokensConcat(s: seq<char>, e0: char, e1: char)
    requires Splittable(s, e0, e1)
    ensures Concat(Tokens(s, e0, e1)) == s
    decreases |s|
  {
    if s != [] {
      var n := if s[0] == e0 || s[0] == e1 then 2 else 1;
      TokensConcat(s[n..], e0, e1);
      var ts := Tokens(s, e0, e1);
      assert ts == [s[..n]] + Tokens(s[n..], e0, e1);
      assert ts[1..] == Tokens(s[n..], e0, e1);
      assert s == s[..n] + s[n..];
    }
  }

  /** Every token is a single ordinary character or an escape digit with the
      character after it. */
  lemma {:induction false} TokensShape(s: seq<char>, e0: char, e1: char)
    requires Splittable(s, e0, e1)
    ensures forall t :: t in Tokens(s, e0, e1) ==>
      (|t| == 1 && t[0] != e0 && t[0] != e1) || (|t| == 2 && (t[0] == e0 || t[0] == e1))
    decreases |s|
  {
    if s != [] {
      var n := if s[0] == e0 || s[0] == e1 then 2 else 1;
      TokensShape(s[n..], e0, e1);
      assert Tokens(s, e0, e1) == [s[..n]] + Tokens(s[n..], e0, e1);
    }
  }

  /** The character printed for a board index: '@' (index -1) for a token the
      board lacks, 'A' + index otherwise. */
  function IndexLetter(i: int): (c: char)
    requires -1 <= i <= 30
    ensures c as int - 65 == i
  {
    (i + 65) as char
  }

  /** The printed text: each token's board index shifted to a letter. */
  function DecodeAll(tokens: seq<seq<char>>, boardKey: seq<seq<char>>): (out: seq<char>)
    requires |boardKey| <= 30
    ensures |out| == |tokens|
  {
    seq(|tokens|, i requires 0 <= i < |tokens| => IndexLetter(IndexOf(boardKey, tokens[i])))
  }

  /** One step of the token loop: the next token, n characters long, and the
      rest after it. */
  lemma TokensStep(s: seq<char>, index: nat, n: nat, e0: char, e1: char)
    requires index < |s| && Splittable(s[index..], e0, e1)
    requires n == if s[index] == e0 || s[index] == e1 then 2 else 1
    ensures index + n <= |s| && Splittable(s[index + n..], e0, e1)
    ensures Tokens(s[index..], e0, e1) == [s[index..index + n]] + Tokens(s[index + n..], e0, e1)
  {
    var rest := s[index..];
    assert rest[..n] == s[index..index + n] && rest[n..] == s[index + n..];
  }

  lemma AppendStep<T>(all: seq<T>, done: seq<T>, t: T, rest: seq<T>, later: seq<T>)
    requires all == done + rest && rest == [t] + later
    ensures all == (done + [t]) + later
  {
  }

  lemma DecodeAllSnoc(tokens: seq<seq<char>>, t: seq<char>, boardKey: seq<seq<char>>)
    requires |boardKey| <= 30
    ensures DecodeAll(tokens + [t], boardKey) == DecodeAll(tokens, boardKey) + [IndexLetter(IndexOf(boardKey, t))]
  {
  }

  /** Lines 32 to 43 of DecryptVIC.main: the token loop; the board is used only
      when there is a token to look up. */
  method DecodeMessage(tempString: seq<char>, numSpace: seq<char>, boardKey: Option<seq<seq<char>>>)
    returns (output: seq<char>)
    requires |numSpace| == 2 && Splittable(tempString, numSpace[0], numSpace[1])
    requires tempString != [] ==> boardKey.Some? && |boardKey.value| <= 30
    ensures tempString == [] ==> output == []
    ensures tempString != [] ==> output == DecodeAll(Tokens(tempString, numSpace[0], numSpace[1]), boardKey.value)
  {
    ghost var e0, e1 := numSpace[0], numSpace[1];
    output := [];
    ghost var done: seq<seq<char>> := [];
    var index := 0;
    assert tempString[index..] == tempString;
    ghost var all := Tokens(tempString, e0, e1);
    while index < |tempString|
      invariant 0 <= index <= |tempString|
      invariant Splittable(tempString[index..], e0, e1)
      invariant all == done + Tokens(tempString[index..], e0, e1)
      invariant index == 0 ==> done == [] && output == []
      invariant index > 0 ==> output == DecodeAll(done, boardKey.value)
    {
      ghost var rest := Tokens(tempString[index..], e0, e1);
      var currChar;
      if index < |tempString| && (tempString[index] == numSpace[0] || tempString[index] == numSpace[1]) {
        TokensStep(tempString, index, 2, e0, e1);
        currChar := tempString[index..index + 2];
        index := index + 2;
      } else {
        TokensStep(tempString, index, 1, e0, e1);
        currChar := tempString[index..index + 1];
        index := index + 1;
      }
      AppendStep(all, done, currChar, rest, Tokens(tempString[index..], e0, e1));
      DecodeAllSnoc(done, currChar, boardKey.value);
      output := output + [IndexLetter(IndexOf(boardKey.value, currChar))];
      done := done + [currChar];
    }
    assert tempString[index..] == [];
  }

  // ------------------------------------------------------------ the pipeline

  /** What DecryptVIC.main demands of its data to run without an exception:
      the key inputs; a sixth date character that is a digit; an anagram of at
      least ten characters; a message that can lose five; a working string that
      splits; and a board whenever there is a token to look up. */
  predicate DecryptInputs(data: VICData) {
    KeyInputs(data.agentID, data.date, data.phrase) && |data.date| >= 6 && IsDigit(data.date[5]) &&
    |data.anagram| >= 10 && |data.message| >= 5 &&
    var key := KeyOf(data.agentID, data.date, data.phrase);
    var e := SpaceKeys(key, data.anagram, 10);
    var work := RemoveWindow(data.message, DigitValue(data.date[5]));
    Splittable(work, e[0], e[1]) && (work != [] ==> CheckerboardAccepts(key, data.anagram))
  }

  /** The text DecryptVIC.main prints. */
  function DecryptionOf(data: VICData): (plain: seq<char>)
    requires DecryptInputs(data)
    ensures |plain| == |Tokens(RemoveWindow(data.message, DigitValue(data.date[5])),
                              SpaceKeys(KeyOf(data.agentID, data.date, data.phrase), data.anagram, 10)[0],
                              SpaceKeys(KeyOf(data.agentID, data.date, data.phrase), data.anagram, 10)[1])|
  {
    var key := KeyOf(data.agentID, data.date, data.phrase);
    var e := SpaceKeys(key, data.anagram, 10);
    var work := RemoveWindow(data.message, DigitValue(data.date[5]));
    if work == [] then []
    else
      CheckerboardAtMost30(key, data.anagram);
      DecodeAll(Tokens(work, e[0], e[1]), CheckerboardOf(key, data.anagram))
  }

  /** DecryptVIC.main from the fields read onwards, returning what it prints. */
  method Decrypt(data: VICData) returns (output: seq<char>)
    requires DecryptInputs(data)
    ensures output == DecryptionOf(data)
  {
    var str5 := DeriveKey(data.agentID, data.date, data.phrase);
    var boardKey := StraddlingCheckerboard(str5, data.anagram);
    var numSpace := NumberSpaces(str5, data.anagram);
    var lastDigit := DigitValue(data.date[5]);
    if |data.message| - lastDigit < 5 {
      lastDigit := |data.message| - 5;
    }
    var tempString := data.message[..lastDigit];
    tempString := tempString + data.message[lastDigit + 5..];
    assert tempString == RemoveWindow(data.message, DigitValue(data.date[5]));
    if tempString != [] {
      CheckerboardAtMost30(str5, data.anagram);
    }
    output := DecodeMessage(tempString, numSpace, boardKey);
  }

  // ------------------------------------------------------------ round trip

  predicate UpperCase(plain: seq<char>) {
    forall i :: 0 <= i < |plain| ==> 'A' <= plain[i] <= 'Z'
  }

  /** The encryption these steps undo: each letter replaced by its code. */
  function Encode(plain: seq<char>, codes: seq<seq<char>>): seq<char>
    requires |codes| == 26 && UpperCase(plain)
  {
    if plain == [] then [] else codes[plain[0] as int - 'A' as int] + Encode(plain[1..], codes)
  }

  /** The codes of the letters of plain, one per letter. */
  function CodesOf(plain: seq<char>, codes: seq<seq<char>>): (r: seq<seq<char>>)
    requires |codes| == 26 && UpperCase(plain)
    ensures |r| == |plain|
  {
    seq(|plain|, i requires 0 <= i < |plain| => codes[plain[i] as int - 'A' as int])
  }

  /** Splitting an encoded text gives back the letters' codes. */
  lemma {:induction false} TokensOfEncode(plain: seq<char>, codes: seq<seq<char>>, e0: char, e1: char)
    requires |codes| == 26 && Decodable(codes, e0, e1) && UpperCase(plain)
    ensures Splittable(Encode(plain, codes), e0, e1)
    ensures Tokens(Encode(plain, codes), e0, e1) == CodesOf(plain, codes)
  {
    if plain != [] {
      var code := codes[plain[0] as int - 'A' as int];
      var rest := Encode(plain[1..], codes);
      TokensOfEncode(plain[1..], codes, e0, e1);
      var s := code + rest;
      assert s[..|code|] == code && s[|code|..] == rest;
      assert CodesOf(plain, codes) == [code] + CodesOf(plain[1..], codes);
    }
  }

  /** Looking a letter's code up in a table of distinct codes gives the letter. */
  lemma DecodeCodes(plain: seq<char>, codes: seq<seq<char>>)
    requires |codes| == 26 && Distinct(codes) && UpperCase(plain)
    ensures DecodeAll(CodesOf(plain, codes), codes) == plain
  {
    forall i | 0 <= i < |plain| ensures DecodeAll(CodesOf(plain, codes), codes)[i] == plain[i] {
      IndexOfDistinct(codes, plain[i] as int - 'A' as int);
    }
  }

  /** Decrypting a message built the way the cipher builds one (the encoded
      upper-case text, five pad characters inserted at the date digit or at the
      end) gives the text back, when the anagram is well formed. */
  lemma DecryptRoundTrip(data: VICData, plain: seq<char>, pad: seq<char>)
    requires KeyInputs(data.agentID, data.date, data.phrase) && |data.date| >= 6 && IsDigit(data.date[5])
    requires CheckerboardAccepts(KeyOf(data.agentID, data.date, data.phrase), data.anagram)
    requires WellFormedAnagram(data.anagram)
    requires UpperCase(plain) && |pad| == 5
    requires var codes := CheckerboardOf(KeyOf(data.agentID, data.date, data.phrase), data.anagram);
      |codes| == 26 &&
      var body := Encode(plain, codes);
      var m := Min(DigitValue(data.date[5]), |body|);
      data.message == body[..m] + pad + body[m..]
    ensures DecryptInputs(data) && DecryptionOf(data) == plain
  {
    var key := KeyOf(data.agentID, data.date, data.phrase);
    CheckerboardByLetter(key, data.anagram);
    CheckerboardDecodable(key, data.anagram);
    var codes := CheckerboardOf(key, data.anagram);
    var e := SpaceKeys(key, data.anagram, 10);
    var body := Encode(plain, codes);
    RemoveWindowInsert(body, pad, DigitValue(data.date[5]));
    TokensOfEncode(plain, codes, e[0], e[1]);
    DecodeCodes(plain, codes);
  }
}
