/** The VIC cipher's building blocks: no-carry addition, chain addition and the
    digit permutation of a key phrase (the straddling checkerboard is in module
    Checkerboard). Each
    operation is a method that follows the Java loops step by step, proved equal
    to a declarative definition about which the properties are stated. */
module VICOperations {
  import opened Lists

  // ---------------------------------------------------------------- digits

  predicate IsDigit(c: char) {
    '0' <= c <= '9'
  }

  /** The first n characters of s exist and are decimal digits. */
  predicate DigitsUpTo(s: seq<char>, n: nat) {
    n <= |s| && forall i :: 0 <= i < n ==> IsDigit(s[i])
  }

  predicate AllDigits(s: seq<char>) {
    DigitsUpTo(s, |s|)
  }

  /** Character.getNumericValue on a decimal digit. */
  function DigitValue(c: char): (d: nat)
    requires IsDigit(c)
    ensures d < 10
  {
    c as int - '0' as int
  }

  /** The character StringBuilder.append(int) writes for a value 0..9. */
  function DigitChar(d: nat): (c: char)
    requires d < 10
    ensures IsDigit(c) && DigitValue(c) == d
  {
    (d + '0' as int) as char
  }

  lemma DigitValueInjective(c: char, d: char)
    requires IsDigit(c) && IsDigit(d) && DigitValue(c) == DigitValue(d)
    ensures c == d
  {
  }

  // ------------------------------------------------------ no-carry addition

  /** Digit-wise sum modulo 10 of the first |a| digits of a and b. */
  function NoCarrySum(a: seq<char>, b: seq<char>): (r: seq<char>)
    requires AllDigits(a) && DigitsUpTo(b, |a|)
    ensures |r| == |a| && AllDigits(r)
  {
    seq(|a|, i requires 0 <= i < |a| => DigitChar((DigitValue(a[i]) + DigitValue(b[i])) % 10))
  }

  /** noCarryAddition: the result has num1's length, and each position holds the
      last digit of the sum of the two digits at that position. */
  method NoCarryAddition(num1: seq<char>, num2: seq<char>) returns (r: seq<char>)
    requires AllDigits(num1) && DigitsUpTo(num2, |num1|)
    ensures r == NoCarrySum(num1, num2)
    ensures |r| == |num1| && AllDigits(r)
    ensures forall i :: 0 <= i < |r| ==> DigitValue(r[i]) == (DigitValue(num1[i]) + DigitValue(num2[i])) % 10
  {
    r := [];
    var i := 0;
    while i < |num1|
      invariant 0 <= i <= |num1|
      invariant r == NoCarrySum(num1, num2)[..i]
    {
      var digit1 := DigitValue(num1[i]);
      var digit2 := DigitValue(num2[i]);
      var sumDigits := (digit1 + digit2) % 10;
      r := r + [DigitChar(sumDigits)];
      i := i + 1;
    }
  }

  /** No-carry addition does not depend on the order of its operands. */
  lemma NoCarrySumCommutes(a: seq<char>, b: seq<char>)
    requires AllDigits(a) && AllDigits(b) && |a| == |b|
    ensures NoCarrySum(a, b) == NoCarrySum(b, a)
  {
  }

  /** The example of the demo program: 73003 (+) 45050 = 18053. */
  lemma NoCarrySumExample()
    ensures NoCarrySum("73003", "45050") == "18053"
  {
    var r := NoCarrySum("73003", "45050");
    assert r[0] == '1' && r[1] == '8' && r[2] == '0' && r[3] == '5' && r[4] == '3';
  }

  // --------------------------------------------------------- chain addition

  function Min(a: int, b: int): int {
    if a < b then a else b
  }

  /** What chainAddition may be asked: extending needs at least two seed digits. */
  predicate CanChain(s: seq<char>, n: nat) {
    n <= |s| || (|s| >= 2 && AllDigits(s))
  }

  /** Position k of r is the no-carry sum of the digits w and w - 1 places before it. */
  predicate ChainLink(r: seq<char>, w: nat, k: nat) {
    1 <= w <= k < |r| && IsDigit(r[k]) && IsDigit(r[k - w]) && IsDigit(r[k - w + 1]) &&
    DigitValue(r[k]) == (DigitValue(r[k - w]) + DigitValue(r[k - w + 1])) % 10
  }

  /** Chain addition: the first min(|s|, n) characters of s, then each further
      digit is the no-carry sum of the digits |s| and |s| - 1 places before it. */
  function ChainSum(s: seq<char>, n: nat): (r: seq<char>)
    requires CanChain(s, n)
    ensures |r| == n
    ensures n > |s| ==> AllDigits(r)
    decreases n
  {
    if n <= |s| then s[..n]
    else
      var p := ChainSum(s, n - 1);
      assert n - 1 == |s| ==> p == s;
      p + [DigitChar((DigitValue(p[n - 1 - |s|]) + DigitValue(p[n - |s|])) % 10)]
  }

  /** Chain addition keeps the seed as its prefix and every later digit obeys the
      chain rule. */
  lemma {:induction false} ChainSumShape(s: seq<char>, n: nat)
    requires CanChain(s, n)
    ensures ChainSum(s, n)[..Min(|s|, n)] == s[..Min(|s|, n)]
    ensures forall k :: |s| <= k < n ==> ChainLink(ChainSum(s, n), |s|, k)
    decreases n
  {
    if n > |s| {
      var p := ChainSum(s, n - 1);
      var r := ChainSum(s, n);
      ChainSumShape(s, n - 1);
      assert r == p + [r[n - 1]];
      assert r[..|s|] == p[..|s|];
      ChainLinksExtend(p, r, |s|);
      assert ChainLink(r, |s|, n - 1);
    }
  }

  /** Appending to a sequence keeps the chain links it already has. */
  lemma ChainLinksExtend(p: seq<char>, r: seq<char>, w: nat)
    requires |r| == |p| + 1 && r[..|p|] == p
    requires forall k :: w <= k < |p| ==> ChainLink(p, w, k)
    ensures forall k :: w <= k < |p| ==> ChainLink(r, w, k)
  {
    forall k | w <= k < |p| ensures ChainLink(r, w, k) {
      assert ChainLink(p, w, k);
      assert r[k] == p[k] && r[k - w] == p[k - w] && r[k - w + 1] == p[k - w + 1];
    }
  }

  /** chainAddition: copies the seed, then appends the last digit of the no-carry
      sum of the pair of digits at a window sliding from the front. */
  method ChainAddition(numberString: seq<char>, length: nat) returns (r: seq<char>)
    requires CanChain(numberString, length)
    ensures r == ChainSum(numberString, length)
    ensures |r| == length
    ensures r[..Min(|numberString|, length)] == numberString[..Min(|numberString|, length)]
    ensures forall k :: |numberString| <= k < length ==> ChainLink(r, |numberString|, k)
  {
    r := [];
    var i := 0;
    while i < Min(|numberString|, length)
      invariant 0 <= i <= Min(|numberString|, length)
      invariant r == numberString[..i]
    {
      r := r + [numberString[i]];
      i := i + 1;
    }

    var j := 0;
    while |r| < length
      invariant Min(|numberString|, length) <= |r| <= length
      invariant j == |r| - Min(|numberString|, length)
      invariant r == ChainSum(numberString, |r|)
      decreases length - |r|
    {
      ChainSumNext(numberString, |r|);
      var secLastDigit := [r[j]];
      var lastDigit := [r[j + 1]];
      var sumDigits := NoCarryAddition(secLastDigit, lastDigit);
      r := r + [sumDigits[|sumDigits| - 1]];
      j := j + 1;
    }
    ChainSumShape(numberString, length);
  }

  /** One step of chain addition past the seed. */
  lemma ChainSumNext(s: seq<char>, m: nat)
    requires |s| >= 2 && AllDigits(s) && m >= |s|
    ensures AllDigits(ChainSum(s, m))
    ensures ChainSum(s, m + 1) == ChainSum(s, m) + [NoCarrySum([ChainSum(s, m)[m - |s|]], [ChainSum(s, m)[m - |s| + 1]])[0]]
  {
    if m == |s| {
      ChainSumShape(s, m);
      assert ChainSum(s, m) == ChainSum(s, m)[..|s|];
    }
  }

  /** The example of the demo program: chain-extending 18053 to ten digits. */
  lemma ChainSumExample()
    ensures ChainSum("18053", 10) == "1805398582"
  {
    var r := "1805398582";
    assert ChainLink(r, 5, 5) && ChainLink(r, 5, 6) && ChainLink(r, 5, 7);
    assert ChainLink(r, 5, 8) && ChainLink(r, 5, 9);
    ChainSumUnique("18053", 10, r);
  }

  /** The seed prefix and the chain rule determine the result of chain addition. */
  lemma {:induction false} ChainSumUnique(s: seq<char>, n: nat, r: seq<char>)
    requires |s| >= 2 && AllDigits(s) && n >= |s|
    requires |r| == n && r[..|s|] == s
    requires forall k :: |s| <= k < n ==> ChainLink(r, |s|, k)
    ensures ChainSum(s, n) == r
    decreases n
  {
    if n == |s| {
      assert r == r[..|s|];
    } else {
      var q := r[..n - 1];
      ChainLinksPrefix(r, |s|, n - 1);
      assert q[..|s|] == s;
      ChainSumUnique(s, n - 1, q);
      ChainSumLast(s, n, r);
    }
  }

  lemma ChainLinksPrefix(r: seq<char>, w: nat, m: nat)
    requires m <= |r| && forall k :: w <= k < |r| ==> ChainLink(r, w, k)
    ensures forall k :: w <= k < m ==> ChainLink(r[..m], w, k)
  {
    forall k | w <= k < m ensures ChainLink(r[..m], w, k) {
      assert ChainLink(r, w, k);
    }
  }

  lemma ChainSumLast(s: seq<char>, n: nat, r: seq<char>)
    requires |s| >= 2 && AllDigits(s) && n > |s| && |r| == n
    requires ChainSum(s, n - 1) == r[..n - 1] && ChainLink(r, |s|, n - 1)
    ensures ChainSum(s, n) == r
  {
    var w, q := |s|, r[..n - 1];
    var d := DigitChar((DigitValue(q[n - 1 - w]) + DigitValue(q[n - w])) % 10);
    assert ChainSum(s, n) == q + [d];
    DigitValueInjective(d, r[n - 1]);
    assert r == q + [r[n - 1]];
  }

  // ------------------------------------------------------ digit permutation

  /** How many characters of s sort strictly below c. */
  function CountBelow(s: seq<char>, c: char): nat
  {
    if s == [] then 0
    else CountBelow(s[..|s| - 1], c) + (if s[|s| - 1] < c then 1 else 0)
  }

  lemma {:induction false} CountBelowAndEqual(s: seq<char>, c: char)
    ensures CountBelow(s, c) + Occurrences(s, c) <= |s|
  {
    if s != [] {
      CountBelowAndEqual(s[..|s| - 1], c);
    }
  }

  /** Every character equal to a, or below it, is below any b greater than a. */
  lemma {:induction false} CountBelowMonotone(s: seq<char>, a: char, b: char)
    requires a < b
    ensures CountBelow(s, a) + Occurrences(s, a) <= CountBelow(s, b)
  {
    if s != [] {
      CountBelowMonotone(s[..|s| - 1], a, b);
    }
  }

  /** The value position i of a key receives: the number of key characters that
      sort below key[i], plus the number of earlier occurrences of key[i]. */
  function RankValue(key: seq<char>, i: nat): (v: nat)
    requires i < |key|
    ensures v < |key|
  {
    OccurrencesGrow(key, i, |key|);
    assert key[..|key|] == key;
    CountBelowAndEqual(key, key[i]);
    CountBelow(key, key[i]) + Occurrences(key[..i], key[i])
  }

  /** No two positions of a key receive the same value. */
  lemma RankValueInjective(key: seq<char>, i: nat, j: nat)
    requires i < j < |key|
    ensures RankValue(key, i) != RankValue(key, j)
  {
    assert key[..|key|] == key;
    if key[i] == key[j] {
      OccurrencesGrow(key, i, j);
    } else if key[i] < key[j] {
      OccurrencesGrow(key, i, |key|);
      CountBelowMonotone(key, key[i], key[j]);
    } else {
      OccurrencesGrow(key, j, |key|);
      CountBelowMonotone(key, key[j], key[i]);
    }
  }

  const DecimalDigits: seq<char> := "0123456789"

  /** Ten distinct decimal digits. */
  predicate IsDigitPermutation(r: seq<char>) {
    |r| == 10 && AllDigits(r) && Distinct(r)
  }

  /** Ten distinct digits are a rearrangement of 0123456789. */
  lemma DigitPermutationIsRearrangement(r: seq<char>)
    requires IsDigitPermutation(r)
    ensures multiset(r) == multiset(DecimalDigits)
  {
    var d := DecimalDigits;
    assert |d| == 10 && forall i :: 0 <= i < 10 ==> IsDigit(d[i]) && DigitValue(d[i]) == i;
    assert Distinct(d) by {
      forall i, j | 0 <= i < j < 10 ensures d[i] != d[j] {
        assert DigitValue(d[i]) == i && DigitValue(d[j]) == j;
      }
    }
    assert forall i :: 0 <= i < 10 ==> r[i] in d by {
      forall i | 0 <= i < 10 ensures r[i] in d {
        DigitValueInjective(r[i], d[DigitValue(r[i])]);
      }
    }
    DistinctRearrangement(r, d);
  }

  /** The permutation digitPermutation derives from the first ten characters:
      position i gets the rank of s[i] among them, ties broken left to right. */
  function DigitPermutationOf(s: seq<char>): (r: seq<char>)
    requires |s| >= 10
    ensures IsDigitPermutation(r)
  {
    var key := s[..10];
    var r := seq(10, i requires 0 <= i < 10 => DigitChar(RankValue(key, i)));
    forall i, j | 0 <= i < j < 10 ensures r[i] != r[j] {
      RankValueInjective(key, i, j);
    }
    r
  }

  /** Total number of occurrences in s of the characters listed in letters. */
  function SumOccurrences(s: seq<char>, letters: seq<char>): nat
  {
    if letters == [] then 0
    else SumOccurrences(s, letters[..|letters| - 1]) + Occurrences(s, letters[|letters| - 1])
  }

  lemma {:induction false} SumOccurrencesNone(letters: seq<char>)
    ensures SumOccurrences([], letters) == 0
  {
    if letters != [] {
      SumOccurrencesNone(letters[..|letters| - 1]);
    }
  }

  lemma {:induction false} SumOccurrencesSnoc(s: seq<char>, x: char, letters: seq<char>)
    requires Distinct(letters)
    ensures SumOccurrences(s + [x], letters) == SumOccurrences(s, letters) + (if x in letters then 1 else 0)
  {
    if letters != [] {
      var front := letters[..|letters| - 1];
      assert letters == front + [letters[|letters| - 1]];
      SumOccurrencesSnoc(s, x, front);
      OccurrencesSnoc(s, x, letters[|letters| - 1]);
    }
  }

  /** Summing the counts of the sorted distinct letters below position k counts
      exactly the characters below letters[k]: the step that turns the Java
      frequency tables into ranks. */
  lemma {:induction false} SumOccurrencesBelow(s: seq<char>, letters: seq<char>, k: nat)
    requires StrictlySorted(letters) && k < |letters|
    requires forall x :: x in s ==> x in letters
    ensures SumOccurrences(s, letters[..k]) == CountBelow(s, letters[k])
  {
    var front := letters[..k];
    assert Distinct(front);
    if s == [] {
      SumOccurrencesNone(front);
    } else {
      var t, x := s[..|s| - 1], s[|s| - 1];
      assert s == t + [x];
      SumOccurrencesBelow(t, letters, k);
      SumOccurrencesSnoc(t, x, front);
      assert x in s;
      var m :| 0 <= m < |letters| && letters[m] == x;
      assert x in front <==> m < k;
    }
  }

  /** The counting pass of digitPermutation: the distinct characters among the
      first ten of s, each with its count. */
  method CountLetters(s: seq<char>) returns (uniqueLetters: seq<char>, frequency: seq<int>)
    requires |s| >= 10
    ensures |frequency| == |uniqueLetters| && Distinct(uniqueLetters)
    ensures forall c :: c in uniqueLetters <==> c in s[..10]
    ensures forall k :: 0 <= k < |uniqueLetters| ==> frequency[k] == Occurrences(s[..10], uniqueLetters[k])
  {
    uniqueLetters, frequency := [], [];
    var index := 0;
    while index < 10
      invariant 0 <= index <= 10
      invariant |frequency| == |uniqueLetters| && Distinct(uniqueLetters)
      invariant forall c :: c in uniqueLetters <==> c in s[..index]
      invariant forall k :: 0 <= k < |uniqueLetters| ==>
                  frequency[k] == Occurrences(s[..index], uniqueLetters[k])
    {
      var currCharacter := s[index];
      forall x ensures Occurrences(s[..index + 1], x) == Occurrences(s[..index], x) + (if s[index] == x then 1 else 0) {
        OccurrencesPrefixStep(s, index, x);
      }
      assert s[..index + 1] == s[..index] + [s[index]];
      if currCharacter in uniqueLetters {
        var currIndex := IndexOf(uniqueLetters, currCharacter);
        frequency := frequency[currIndex := frequency[currIndex] + 1];
      } else {
        OccurrencesBound(s[..index], currCharacter);
        uniqueLetters := uniqueLetters + [currCharacter];
        frequency := frequency + [1];
      }
      index := index + 1;
    }
  }

  /** The sorting pass of digitPermutation: the distinct characters in increasing
      order, each with its count looked up in the unsorted table. */
  method SortLetters(uniqueLetters: seq<char>, frequency: seq<int>, ghost key: seq<char>)
    returns (sortedLetters: seq<char>, sortedFrequencies: seq<int>)
    requires |frequency| == |uniqueLetters| && Distinct(uniqueLetters)
    requires forall k :: 0 <= k < |uniqueLetters| ==> frequency[k] == Occurrences(key, uniqueLetters[k])
    ensures StrictlySorted(sortedLetters)
    ensures forall c :: c in sortedLetters <==> c in uniqueLetters
    ensures |sortedFrequencies| == |sortedLetters|
    ensures forall k :: 0 <= k < |sortedLetters| ==> sortedFrequencies[k] == Occurrences(key, sortedLetters[k])
  {
    sortedLetters, sortedFrequencies := [], [];
    var j := 0;
    while j < |uniqueLetters|
      invariant 0 <= j <= |uniqueLetters| && sortedLetters == uniqueLetters[..j]
    {
      sortedLetters := sortedLetters + [uniqueLetters[j]];
      j := j + 1;
    }
    assert sortedLetters == uniqueLetters;
    sortedLetters := Sort(sortedLetters);
    assert |sortedLetters| == |multiset(sortedLetters)| == |uniqueLetters|;
    assert forall c :: c in sortedLetters <==> c in uniqueLetters by {
      forall c ensures c in sortedLetters <==> c in uniqueLetters {
        assert c in sortedLetters <==> c in multiset(sortedLetters);
      }
    }

    var index := 0;
    while index < |uniqueLetters|
      invariant 0 <= index <= |uniqueLetters|
      invariant |sortedFrequencies| == index
      invariant forall k :: 0 <= k < index ==> sortedFrequencies[k] == Occurrences(key, sortedLetters[k])
    {
      sortedFrequencies := sortedFrequencies + [frequency[IndexOf(uniqueLetters, sortedLetters[index])]];
      index := index + 1;
    }
  }

  /** digitPermutation: null for inputs shorter than ten characters; otherwise
      each of the first ten positions receives the counts of the smaller
      characters plus the number of times its own character was already used. */
  method DigitPermutation(s: seq<char>) returns (r: Option<seq<char>>)
    ensures |s| < 10 ==> r == None
    ensures |s| >= 10 ==> r == Some(DigitPermutationOf(s))
  {
    if |s| < 10 {
      return None;
    }
    ghost var key := s[..10];
    var uniqueLetters, frequency := CountLetters(s);
    var sortedLetters, sortedFrequencies := SortLetters(uniqueLetters, frequency, key);
    var permutationResults := RankPositions(s, uniqueLetters, frequency, sortedLetters, sortedFrequencies);
    r := Some(permutationResults);
  }

  /** The last loop of digitPermutation: the value of each of the first ten
      positions, from the sorted counts and the counts still unused. */
  method RankPositions(s: seq<char>, uniqueLetters: seq<char>, frequency: seq<int>,
                       sortedLetters: seq<char>, sortedFrequencies: seq<int>)
    returns (permutationResults: seq<char>)
    requires |s| >= 10 && Distinct(uniqueLetters) && |frequency| == |uniqueLetters|
    requires forall k :: 0 <= k < |uniqueLetters| ==> frequency[k] == Occurrences(s[..10], uniqueLetters[k])
    requires forall c :: c in s[..10] ==> c in uniqueLetters && c in sortedLetters
    requires StrictlySorted(sortedLetters) && |sortedFrequencies| == |sortedLetters|
    requires forall k :: 0 <= k < |sortedLetters| ==> sortedFrequencies[k] == Occurrences(s[..10], sortedLetters[k])
    ensures permutationResults == DigitPermutationOf(s)
  {
    ghost var key := s[..10];
    var frequency := frequency;
    assert key[..0] == [];
    permutationResults := [];
    var index := 0;
    while index < 10
      invariant 0 <= index <= 10 && |permutationResults| == index
      invariant |frequency| == |uniqueLetters|
      invariant forall k :: 0 <= k < index ==> permutationResults[k] == DigitChar(RankValue(key, k))
      invariant forall k :: 0 <= k < |uniqueLetters| ==>
                  frequency[k] == Occurrences(key, uniqueLetters[k]) - Occurrences(key[..index], uniqueLetters[k])
    {
      var currentInputCharacter := s[index];
      assert currentInputCharacter in uniqueLetters by {
        assert key[index] == currentInputCharacter;
      }
      var sortedIndex := IndexOf(sortedLetters, currentInputCharacter);
      var permutationValue := SumBefore(sortedFrequencies, sortedIndex, key, sortedLetters);
      var u := IndexOf(uniqueLetters, currentInputCharacter);
      RankStep(key, uniqueLetters, frequency, sortedLetters, sortedFrequencies, index, sortedIndex, u);
      permutationValue := permutationValue + sortedFrequencies[sortedIndex] - frequency[u];
      permutationResults := permutationResults + [DigitChar(permutationValue)];
      frequency := frequency[u := frequency[u] - 1];
      index := index + 1;
    }
    assert key[..10] == key;
  }

  /** The inner loop of digitPermutation: adding up the counts of the letters
      that sort before position sortedIndex. */
  method SumBefore(sortedFrequencies: seq<int>, sortedIndex: nat, ghost key: seq<char>, ghost sortedLetters: seq<char>)
    returns (permutationValue: int)
    requires |sortedFrequencies| == |sortedLetters| && sortedIndex <= |sortedLetters|
    requires forall k :: 0 <= k < |sortedLetters| ==> sortedFrequencies[k] == Occurrences(key, sortedLetters[k])
    ensures permutationValue == SumOccurrences(key, sortedLetters[..sortedIndex])
  {
    permutationValue := 0;
    var j := 0;
    while j < sortedIndex
      invariant 0 <= j <= sortedIndex
      invariant permutationValue == SumOccurrences(key, sortedLetters[..j])
    {
      assert sortedLetters[..j + 1][..j] == sortedLetters[..j];
      permutationValue := permutationValue + sortedFrequencies[j];
      j := j + 1;
    }
  }

  /** One position of digitPermutation: the counts of the smaller letters, plus
      the count of its own letter, minus the uses of that letter still ahead,
      give the rank; and using the letter once more keeps the remaining counts. */
  lemma RankStep(key: seq<char>, uniqueLetters: seq<char>, frequency: seq<int>,
                 sortedLetters: seq<char>, sortedFrequencies: seq<int>, index: nat, sortedIndex: nat, u: nat)
    requires index < |key| && Distinct(uniqueLetters)
    requires |frequency| == |uniqueLetters| && u < |uniqueLetters| && uniqueLetters[u] == key[index]
    requires forall k :: 0 <= k < |uniqueLetters| ==>
               frequency[k] == Occurrences(key, uniqueLetters[k]) - Occurrences(key[..index], uniqueLetters[k])
    requires StrictlySorted(sortedLetters) && sortedIndex < |sortedLetters| && sortedLetters[sortedIndex] == key[index]
    requires |sortedFrequencies| == |sortedLetters|
    requires forall k :: 0 <= k < |sortedLetters| ==> sortedFrequencies[k] == Occurrences(key, sortedLetters[k])
    requires forall x :: x in key ==> x in sortedLetters
    ensures SumOccurrences(key, sortedLetters[..sortedIndex]) + sortedFrequencies[sortedIndex] - frequency[u] == RankValue(key, index)
    ensures forall k :: 0 <= k < |uniqueLetters| ==>
              frequency[u := frequency[u] - 1][k] == Occurrences(key, uniqueLetters[k]) - Occurrences(key[..index + 1], uniqueLetters[k])
  {
    SumOccurrencesBelow(key, sortedLetters, sortedIndex);
    forall k | 0 <= k < |uniqueLetters|
      ensures frequency[u := frequency[u] - 1][k] == Occurrences(key, uniqueLetters[k]) - Occurrences(key[..index + 1], uniqueLetters[k])
    {
      OccurrencesPrefixStep(key, index, uniqueLetters[k]);
      assert k == u <==> uniqueLetters[k] == key[index];
    }
  }

  /** CountBelow and Occurrences of a prefix, walked by index so that Dafny can
      evaluate them on a literal key. */
  function CountBelowUpTo(s: seq<char>, c: char, j: nat): nat
    requires j <= |s|
  {
    if j == 0 then 0 else CountBelowUpTo(s, c, j - 1) + (if s[j - 1] < c then 1 else 0)
  }

  function OccurrencesUpTo(s: seq<char>, c: char, j: nat): nat
    requires j <= |s|
  {
    if j == 0 then 0 else OccurrencesUpTo(s, c, j - 1) + (if s[j - 1] == c then 1 else 0)
  }

  lemma {:induction false} UpToAgrees(s: seq<char>, c: char, j: nat)
    requires j <= |s|
    ensures CountBelow(s[..j], c) == CountBelowUpTo(s, c, j)
    ensures Occurrences(s[..j], c) == OccurrencesUpTo(s, c, j)
  {
    if j > 0 {
      assert s[..j][..j - 1] == s[..j - 1];
      UpToAgrees(s, c, j - 1);
    }
  }

  lemma RankValueByWalk(key: seq<char>, i: nat)
    requires i < |key|
    ensures RankValue(key, i) == CountBelowUpTo(key, key[i], |key|) + OccurrencesUpTo(key, key[i], i)
  {
    UpToAgrees(key, key[i], |key|);
    UpToAgrees(key, key[i], i);
    assert key[..|key|] == key;
  }

  lemma ExampleRanksA()
    ensures RankValue("DONTDODRUG", 0) == 0 && RankValue("DONTDODRUG", 1) == 5
  {
    var key := "DONTDODRUG";
    assert RankValue(key, 0) == 0 by {
      RankValueByWalk(key, 0);
      assert CountBelowUpTo(key, 'D', 10) == 0 && OccurrencesUpTo(key, 'D', 0) == 0;
    }
    assert RankValue(key, 1) == 5 by {
      RankValueByWalk(key, 1);
      assert CountBelowUpTo(key, 'O', 10) == 5 && OccurrencesUpTo(key, 'O', 1) == 0;
    }
  }

  lemma ExampleRanksB()
    ensures RankValue("DONTDODRUG", 2) == 4 && RankValue("DONTDODRUG", 3) == 8
  {
    var key := "DONTDODRUG";
    assert RankValue(key, 2) == 4 by {
      RankValueByWalk(key, 2);
      assert CountBelowUpTo(key, 'N', 10) == 4 && OccurrencesUpTo(key, 'N', 2) == 0;
    }
    assert RankValue(key, 3) == 8 by {
      RankValueByWalk(key, 3);
      assert CountBelowUpTo(key, 'T', 10) == 8 && OccurrencesUpTo(key, 'T', 3) == 0;
    }
  }

  lemma ExampleRanksC()
    ensures RankValue("DONTDODRUG", 4) == 1 && RankValue("DONTDODRUG", 5) == 6
  {
    var key := "DONTDODRUG";
    assert RankValue(key, 4) == 1 by {
      RankValueByWalk(key, 4);
      assert CountBelowUpTo(key, 'D', 10) == 0 && OccurrencesUpTo(key, 'D', 4) == 1;
    }
    assert RankValue(key, 5) == 6 by {
      RankValueByWalk(key, 5);
      assert CountBelowUpTo(key, 'O', 10) == 5 && OccurrencesUpTo(key, 'O', 5) == 1;
    }
  }

  lemma ExampleRanksD()
    ensures RankValue("DONTDODRUG", 6) == 2 && RankValue("DONTDODRUG", 7) == 7
  {
    var key := "DONTDODRUG";
    assert RankValue(key, 6) == 2 by {
      RankValueByWalk(key, 6);
      assert CountBelowUpTo(key, 'D', 10) == 0 && OccurrencesUpTo(key, 'D', 6) == 2;
    }
    assert RankValue(key, 7) == 7 by {
      RankValueByWalk(key, 7);
      assert CountBelowUpTo(key, 'R', 10) == 7 && OccurrencesUpTo(key, 'R', 7) == 0;
    }
  }

  lemma ExampleRanksE()
    ensures RankValue("DONTDODRUG", 8) == 9 && RankValue("DONTDODRUG", 9) == 3
  {
    var key := "DONTDODRUG";
    assert RankValue(key, 8) == 9 by {
      RankValueByWalk(key, 8);
      assert CountBelowUpTo(key, 'U', 10) == 9 && OccurrencesUpTo(key, 'U', 8) == 0;
    }
    assert RankValue(key, 9) == 3 by {
      RankValueByWalk(key, 9);
      assert CountBelowUpTo(key, 'G', 10) == 3 && OccurrencesUpTo(key, 'G', 9) == 0;
    }
  }

  /** The example of the demo program. */
  lemma DigitPermutationExample()
    ensures DigitPermutationOf("DONTDODRUG") == "0548162793"
  {
    var key := "DONTDODRUG";
    var expected := "0548162793";
    assert key[..10] == key;
    ExampleRanksA();
    ExampleRanksB();
    ExampleRanksC();
    ExampleRanksD();
    ExampleRanksE();
    var r := DigitPermutationOf(key);
    forall i | 0 <= i < 10 ensures r[i] == expected[i] {
      DigitValueInjective(r[i], expected[i]);
    }
  }
}
