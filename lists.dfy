/** Sequence counterparts of the library operations the cipher code relies on:
    ArrayList.indexOf / remove(Object), String.contains, Collections.sort on
    characters, and the counting facts the permutation proof needs. */
module Lists {

  /** The Java code signals failure by returning null; the model returns None. */
  datatype Option<T> = None | Some(value: T)

  predicate Distinct<T(==)>(s: seq<T>) {
    forall i, j :: 0 <= i < j < |s| ==> s[i] != s[j]
  }

  /** ArrayList.indexOf / String.indexOf: the first position of x in s, or -1. */
  function IndexOf<T(==)>(s: seq<T>, x: T): (k: int)
    ensures -1 <= k < |s|
    ensures k < 0 <==> x !in s
    ensures 0 <= k ==> s[k] == x && x !in s[..k]
  {
    if s == [] then -1
    else if s[0] == x then 0
    else
      var k := IndexOf(s[1..], x);
      if k < 0 then -1
      else
        assert s[..k + 1] == [s[0]] + s[1..][..k];
        k + 1
  }

  lemma IndexOfDistinct<T>(s: seq<T>, k: nat)
    requires Distinct(s) && k < |s|
    ensures IndexOf(s, s[k]) == k
  {
  }

  /** ArrayList.remove(Object): drops the first occurrence of x, if any. */
  function RemoveFirst<T(==)>(s: seq<T>, x: T): (r: seq<T>)
    ensures x !in s ==> r == s
    ensures x in s ==> |r| == |s| - 1
  {
    var k := IndexOf(s, x);
    if k < 0 then s else s[..k] + s[k + 1..]
  }

  /** ArrayList.remove(Object) takes away exactly one x, when there is one. */
  lemma RemoveFirstMultiset<T>(s: seq<T>, x: T)
    ensures multiset(RemoveFirst(s, x)) == multiset(s) - multiset{x}
  {
    var k := IndexOf(s, x);
    if k >= 0 {
      assert s == s[..k] + [s[k]] + s[k + 1..];
    }
  }

  /** The number of occurrences of x in s (Collections.frequency). */
  function Occurrences<T(==)>(s: seq<T>, x: T): nat
  {
    if s == [] then 0
    else Occurrences(s[..|s| - 1], x) + (if s[|s| - 1] == x then 1 else 0)
  }

  lemma OccurrencesSnoc<T>(s: seq<T>, y: T, x: T)
    ensures Occurrences(s + [y], x) == Occurrences(s, x) + (if y == x then 1 else 0)
  {
    assert (s + [y])[..|s|] == s;
  }

  lemma OccurrencesPrefixStep<T>(s: seq<T>, i: nat, x: T)
    requires i < |s|
    ensures Occurrences(s[..i + 1], x) == Occurrences(s[..i], x) + (if s[i] == x then 1 else 0)
  {
    assert s[..i + 1][..i] == s[..i];
  }

  lemma {:induction false} OccurrencesAppend<T>(s: seq<T>, t: seq<T>, x: T)
    ensures Occurrences(s + t, x) == Occurrences(s, x) + Occurrences(t, x)
    decreases |t|
  {
    if t != [] {
      var u := t[..|t| - 1];
      assert s + t == (s + u) + [t[|t| - 1]];
      assert t == u + [t[|t| - 1]];
      OccurrencesAppend(s, u, x);
      OccurrencesSnoc(s + u, t[|t| - 1], x);
      OccurrencesSnoc(u, t[|t| - 1], x);
    } else {
      assert s + t == s;
    }
  }

  /** An occurrence at position i makes the count of the prefix before i smaller
      than the count of any longer prefix. */
  lemma {:induction false} OccurrencesGrow<T>(s: seq<T>, i: nat, j: nat)
    requires i < j <= |s|
    ensures Occurrences(s[..i], s[i]) < Occurrences(s[..j], s[i])
    decreases j
  {
    OccurrencesPrefixStep(s, j - 1, s[i]);
    if i < j - 1 {
      OccurrencesGrow(s, i, j - 1);
    }
  }

  lemma {:induction false} OccurrencesBound<T>(s: seq<T>, x: T)
    ensures Occurrences(s, x) <= |s|
    ensures x in s <==> Occurrences(s, x) > 0
  {
    if s != [] {
      OccurrencesBound(s[..|s| - 1], x);
      assert s == s[..|s| - 1] + [s[|s| - 1]];
    }
  }

  predicate SortedChars(s: seq<char>) {
    forall i, j :: 0 <= i < j < |s| ==> s[i] <= s[j]
  }

  predicate StrictlySorted(s: seq<char>) {
    forall i, j :: 0 <= i < j < |s| ==> s[i] < s[j]
  }

  /** Prepending a lower bound keeps a sequence sorted (strictly, for a strict bound). */
  lemma SortedCons(c: char, t: seq<char>)
    requires SortedChars(t) && forall y :: y in t ==> c <= y
    ensures SortedChars([c] + t)
    ensures StrictlySorted(t) && (forall y :: y in t ==> c < y) ==> StrictlySorted([c] + t)
  {
    var r := [c] + t;
    forall i, j | 0 < i < j < |r| ensures r[i] == t[i - 1] && r[j] == t[j - 1] { }
    forall j | 0 < j < |r| ensures r[j] in t { assert r[j] == t[j - 1]; }
  }

  /** Inserts x into a sorted sequence, before the first element not below it. */
  function Insert(x: char, s: seq<char>): seq<char>
  {
    if s == [] || x <= s[0] then [x] + s else [s[0]] + Insert(x, s[1..])
  }

  lemma {:induction false} InsertMultiset(x: char, s: seq<char>)
    ensures multiset(Insert(x, s)) == multiset(s) + multiset{x}
  {
    if !(s == [] || x <= s[0]) {
      InsertMultiset(x, s[1..]);
      assert s == [s[0]] + s[1..];
    }
  }

  lemma {:induction false} InsertSorted(x: char, s: seq<char>)
    requires SortedChars(s)
    ensures SortedChars(Insert(x, s))
    ensures StrictlySorted(s) && x !in s ==> StrictlySorted(Insert(x, s))
  {
    if s == [] || x <= s[0] {
      forall y | y in s ensures x <= y && (StrictlySorted(s) && x !in s ==> x < y) {
        var k :| 0 <= k < |s| && s[k] == y;
      }
      SortedCons(x, s);
    } else {
      var t := Insert(x, s[1..]);
      InsertSorted(x, s[1..]);
      TailAbove(s);
      InsertElements(x, s[1..]);
      SortedCons(s[0], t);
    }
  }

  /** Insertion adds x and keeps every element. */
  lemma InsertElements(x: char, s: seq<char>)
    ensures forall y :: y in Insert(x, s) <==> y == x || y in s
  {
    InsertMultiset(x, s);
    forall y ensures y in Insert(x, s) <==> y == x || y in s {
      assert y in Insert(x, s) <==> y in multiset(Insert(x, s));
    }
  }

  /** The head of a sorted sequence bounds its tail. */
  lemma TailAbove(s: seq<char>)
    requires SortedChars(s) && s != []
    ensures forall y :: y in s[1..] ==> s[0] <= y
    ensures StrictlySorted(s) ==> forall y :: y in s[1..] ==> s[0] < y
  {
    forall y | y in s[1..] ensures s[0] <= y && (StrictlySorted(s) ==> s[0] < y) {
      var k :| 0 <= k < |s[1..]| && s[1..][k] == y;
      assert s[k + 1] == y;
    }
  }

  /** Collections.sort on characters, by code point. */
  function Sort(s: seq<char>): (r: seq<char>)
    ensures SortedChars(r) && multiset(r) == multiset(s)
    ensures Distinct(s) ==> StrictlySorted(r)
  {
    if s == [] then []
    else
      var t := Sort(s[1..]);
      DistinctTail(s);
      InsertMultiset(s[0], t);
      InsertSorted(s[0], t);
      Insert(s[0], t)
  }

  /** Splitting off the head of a sequence of distinct elements. */
  lemma DistinctTail<T>(s: seq<T>)
    requires s != []
    ensures s == [s[0]] + s[1..] && multiset(s) == multiset{s[0]} + multiset(s[1..])
    ensures Distinct(s) ==> Distinct(s[1..]) && s[0] !in multiset(s[1..])
  {
    assert s == [s[0]] + s[1..];
    if Distinct(s) {
      forall k | 0 <= k < |s[1..]| ensures s[1..][k] != s[0] {
        assert s[1..][k] == s[k + 1];
      }
    }
  }

  /** A set holding as many elements as its superset is that superset. */
  lemma SubsetSameSize<T>(a: set<T>, b: set<T>)
    requires a <= b && |a| == |b|
    ensures a == b
  {
    assert b == a + (b - a);
    assert |b| == |a| + |b - a|;
  }

  /** The elements of a sequence without repetition are as many as its length. */
  lemma {:induction false} DistinctElements<T>(s: seq<T>)
    requires Distinct(s)
    ensures |set x | x in s| == |s|
  {
    if s != [] {
      var t := s[..|s| - 1];
      DistinctElements(t);
      assert (set x | x in s) == (set x | x in t) + {s[|s| - 1]};
    }
  }

  /** In a sequence without repetition every element occurs once. */
  lemma {:induction false} DistinctMultiset<T>(s: seq<T>, x: T)
    requires Distinct(s)
    ensures multiset(s)[x] == if x in s then 1 else 0
  {
    if s != [] {
      var t := s[..|s| - 1];
      assert s == t + [s[|s| - 1]];
      DistinctMultiset(t, x);
    }
  }

  /** Two sequences without repetition, of the same length, the first drawn
      from the second, are rearrangements of each other. */
  lemma DistinctRearrangement<T>(a: seq<T>, b: seq<T>)
    requires Distinct(a) && Distinct(b) && |a| == |b|
    requires forall i :: 0 <= i < |a| ==> a[i] in b
    ensures multiset(a) == multiset(b)
  {
    var inA, inB := set x | x in a, set x | x in b;
    DistinctElements(a);
    DistinctElements(b);
    SubsetSameSize(inA, inB);
    forall x ensures multiset(a)[x] == multiset(b)[x] {
      assert x in a <==> x in inA;
      assert x in b <==> x in inB;
      DistinctMultiset(a, x);
      DistinctMultiset(b, x);
    }
  }

  /** String.lastIndexOf: the last position of x in s, or -1. */
  function LastIndexOf<T(==)>(s: seq<T>, x: T): (k: int)
    ensures -1 <= k < |s|
    ensures k < 0 <==> x !in s
    ensures 0 <= k ==> s[k] == x && x !in s[k + 1..]
  {
    if s == [] then -1
    else if s[|s| - 1] == x then |s| - 1
    else
      assert s == s[..|s| - 1] + [s[|s| - 1]];
      var k := LastIndexOf(s[..|s| - 1], x);
      assert 0 <= k ==> s[k + 1..] == s[..|s| - 1][k + 1..] + [s[|s| - 1]];
      k
  }

  lemma {:induction false} IndexOfSnoc<T>(a: seq<T>, y: T, x: T)
    ensures IndexOf(a + [y], x) == if x in a then IndexOf(a, x) else if y == x then |a| else -1
  {
    if a != [] && a[0] != x {
      assert (a + [y])[1..] == a[1..] + [y];
      IndexOfSnoc(a[1..], y, x);
    }
  }

  /** Removing from a sequence with one more element at its end. */
  lemma RemoveFirstSnoc<T>(a: seq<T>, y: T, x: T)
    ensures RemoveFirst(a + [y], x) == if x in a then RemoveFirst(a, x) + [y] else if y == x then a else a + [y]
  {
    IndexOfSnoc(a, y, x);
    if x in a {
      RemoveFirstSnocFound(a, y, x);
    } else if y == x {
      assert (a + [y])[..|a|] == a;
    }
  }

  lemma RemoveFirstSnocFound<T>(a: seq<T>, y: T, x: T)
    requires x in a && IndexOf(a + [y], x) == IndexOf(a, x)
    ensures RemoveFirst(a + [y], x) == RemoveFirst(a, x) + [y]
  {
    var k := IndexOf(a, x);
    var b := a + [y];
    var front, back := a[..k], a[k + 1..];
    assert b[..k] == front;
    assert b[k + 1..] == back + [y];
    assert front + (back + [y]) == (front + back) + [y];
  }

  /** The elements of letters that do not occur in removed, in their order. */
  function Leftover(letters: seq<char>, removed: seq<char>): (r: seq<char>)
    ensures forall x :: x in r <==> x in letters && x !in removed
    ensures |r| <= |letters|
  {
    if letters == [] then []
    else
      var front, last := letters[..|letters| - 1], letters[|letters| - 1];
      assert letters == front + [last];
      Leftover(front, removed) + (if last in removed then [] else [last])
  }

  lemma {:induction false} LeftoverNone(letters: seq<char>)
    ensures Leftover(letters, []) == letters
  {
    if letters != [] {
      LeftoverNone(letters[..|letters| - 1]);
      assert letters == letters[..|letters| - 1] + [letters[|letters| - 1]];
    }
  }

  lemma {:induction false} LeftoverDistinct(letters: seq<char>, removed: seq<char>)
    requires Distinct(letters)
    ensures Distinct(Leftover(letters, removed))
  {
    if letters != [] {
      var front := letters[..|letters| - 1];
      LeftoverDistinct(front, removed);
      assert letters[|letters| - 1] !in front;
    }
  }

  /** Removing the next character of removed from the leftover list (the
      ArrayList.remove loop of the checkerboard) extends removed by it. */
  lemma {:induction false} LeftoverRemove(letters: seq<char>, removed: seq<char>, x: char)
    requires Distinct(letters)
    ensures Leftover(letters, removed + [x]) == RemoveFirst(Leftover(letters, removed), x)
  {
    if letters != [] {
      var front, last := letters[..|letters| - 1], letters[|letters| - 1];
      assert Distinct(front);
      LeftoverRemove(front, removed, x);
      var l := Leftover(front, removed);
      assert Leftover(letters, removed + [x]) == RemoveFirst(l, x) + (if last in removed + [x] then [] else [last]);
      if last in removed {
        assert Leftover(letters, removed) == l;
      } else {
        assert Leftover(letters, removed) == l + [last];
        assert last !in front;
        RemoveFirstSnoc(l, last, x);
      }
    }
  }
}
