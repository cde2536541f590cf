# VIC cipher decryption, modelled in Dafny

This project models the decryption side of a VIC-style classical cipher.
The Java program derives a ten-digit message key from an agent ID, a date and a
key phrase. From the key and an anagram it builds a straddling checkerboard, a
table of one- and two-digit codes for the letters A .. Z. It cuts a five-digit
window out of the coded message and decodes the rest, code by code, back into
letters.

The model covers the five operations of `VICOperations` (no-carry addition,
chain addition, digit permutation, the straddling checkerboard and the escape
digits) and the decryption pipeline of `DecryptVIC.main`. Each Java loop is a
Dafny `method` with the same loop and its invariants. Each method is proved
against a function or a set of properties:

- Most methods are proved equal to a function: `NoCarrySum`, `ChainSum`,
  `DigitPermutationOf`, `Leftover`, `BoardCodes`, `KeyOf`, `DecodeAll` or
  `DecryptionOf`.
- `CountLetters` and `SortLetters` state properties of their results instead.
- Several functions follow the Java code step by step rather than being
  declarative: `BoardRows`, `RowCodes`, `LetterCodes`, `BoardCodes`,
  `CheckerboardOf`, `KeyOf` and `DecryptionOf`. For these, the declarative
  side is stated separately:
  - `ChainSumShape` and `ChainSumUnique` characterise chain addition;
  - `RankValue` gives the closed form of each permutation digit;
  - for the checkerboard, `LetterCode` and `LetterTable` define the
    per-letter table, and `CheckerboardByLetter` proves the scanned board
    equal to it.
- Lemmas state what these functions promise.

Files:

- `lists.dfy` (module `Lists`): the `ArrayList`/`String` operations the code
  relies on, as sequence functions with their laws. These are `indexOf`,
  `remove(Object)`, `Collections.sort`, occurrence counts, and `Option` for
  `null`.
- `vic_operations.dfy` (module `VICOperations`): `noCarryAddition`,
  `chainAddition` and `digitPermutation`.
- `checkerboard.dfy` (module `Checkerboard`): `straddlingCheckerboard` and
  `numberSpaces`.
- `decrypt_vic.dfy` (module `DecryptVIC`): the key derivation, the window
  removal and the token-by-token decoding of `DecryptVIC.main`, plus the
  encryption these steps invert.

Modelling conventions:

- A Java `String` is a `seq<char>`. Each `ArrayList` the code grows is a `seq`
  the method reassigns. The `char[4][11]` board is an `array2<char>`.
- A `null` result is `Option.None`.
- Inputs for which the Java code would throw (an index out of range, a `null`
  dereference) are excluded by `requires` clauses that name exactly those
  conditions.
- Character digits become numbers through `DigitValue`. Numbers are written
  back through `DigitChar`.

Where the code departs from the usual VIC layout and from its own Javadoc
(VICOperations.java:189-192), the model follows the code:

- The two overflow rows hold ten and eight letters, not nine and nine.
  `letter.get(index + 9)` for columns 1 .. 8 fills the last row with leftover
  letters 10 .. 17, and columns 9 and 10 hold `$`
  (VICOperations.java:264-268).
- The validity check does not require the anagram's letters to be upper-case
  or distinct. It only checks the lengths, that the permutation has no
  non-digit and the anagram no digit, and that there are exactly two spaces
  (VICOperations.java:207-229). `CheckerboardAccepts` states exactly that.
  - For such an input, `CheckerboardOf` is the table the code returns.
  - The properties a straddling checkerboard is meant to have (26 codes, one
    per letter, all distinct and prefix-free) are proved for the narrower
    `WellFormedAnagram`.
  - With a lower-case anagram, such as the demo's `"a tin shoe"`, no letter is
    removed. Only the first 18 of the 26 letters reach the board, so S .. Z
    get no code.
- The removal guard `index != spaces[0] && index != spaces[1]` compares the
  loop counter (0 .. 9) with the character codes of `$` or a digit (36 and
  48 .. 57), so it is always true (VICOperations.java:247). Every anagram
  character, spaces included, is therefore passed to `letter.remove`.
  `LetterList` keeps this guard literally. The output is unaffected, because a
  space is never in the letter list.
- The escape digits that `numberSpaces` returns are the ones the board uses:
  both come from the same function, `SpaceKeys`.

## Model

| member | source | states |
|---|---|---|
| `VICOperations.NoCarryAddition` | VICOperations.java:50-67 | the result is as long as the first operand and each digit is the sum of the two digits at that position, modulo 10 |
| `VICOperations.NoCarrySumCommutes` | VICOperations.java:50-67 | for operands of equal length, no-carry addition does not depend on their order |
| `VICOperations.NoCarrySumExample` | VICOperations.java:316 | "73003" plus "45050" without carry is "18053" |
| `VICOperations.ChainAddition` | VICOperations.java:76-104 | the result has the requested length; it starts with the seed, cut to that length; every later digit is the no-carry sum of the digits \|seed\| and \|seed\| - 1 places before it |
| `VICOperations.ChainSumShape` | VICOperations.java:79-100 | the chain sum keeps the seed as its prefix and obeys the chain rule at every later position |
| `VICOperations.ChainSumUnique` | VICOperations.java:79-100 | conversely, any sequence that starts with the seed and obeys the chain rule is the chain sum, so the rule determines the result |
| `VICOperations.ChainSumNext` | VICOperations.java:88-100 | one step of the second loop appends the last digit of `noCarryAddition` on the pair of digits at j and j + 1 |
| `VICOperations.ChainSumExample` | VICOperations.java:317 | "18053" chain-extended to ten digits is "1805398582" |
| `VICOperations.CountLetters` | VICOperations.java:127-139 | the distinct characters among the first ten, each paired with its number of occurrences there |
| `VICOperations.SortLetters` | VICOperations.java:142-152 | the letters in strictly increasing order, the same set as before, each paired with its own count |
| `Lists.Sort` | VICOperations.java:145 | `Collections.sort`: the result is sorted and a permutation of the input, and strictly increasing when the input has no repeats |
| `VICOperations.SumBefore` | VICOperations.java:162-164 | the sum of the counts of the letters before `sortedIndex` in sorted order |
| `VICOperations.SumOccurrencesBelow` | VICOperations.java:162-164 | that sum is the number of characters of the key smaller than the letter at `sortedIndex` |
| `VICOperations.RankStep` | VICOperations.java:166-173 | the value of a position is its rank: the smaller characters of the key plus the earlier uses of its own character; decrementing the count keeps the remaining-count invariant |
| `VICOperations.RankPositions` | VICOperations.java:155-176 | the ten values computed are the ranks of the ten positions |
| `VICOperations.RankValueInjective` | VICOperations.java:155-176 | two positions never receive the same rank |
| `VICOperations.DigitPermutationOf` | VICOperations.java:113-179 | the result is ten distinct digits |
| `VICOperations.DigitPermutationIsRearrangement` | VICOperations.java:113-179 | ten distinct digits are a rearrangement of 0 .. 9 |
| `VICOperations.DigitPermutation` | VICOperations.java:113-179 | `null` for fewer than ten characters, otherwise the rank permutation of the first ten |
| `VICOperations.DigitPermutationExample` | VICOperations.java:318 | the permutation of "DONTDODRUG" is "0548162793" |
| `Checkerboard.NumberSpaces` | VICOperations.java:296-313 | the escape digits; when no space sits under a `$`, the first is the permutation digit over the first space (`$` if there is none) and the second the digit over the last space (`$` if there are fewer than two spaces) |
| `Checkerboard.SpaceKeysMeaning` | VICOperations.java:302-311 | the same characterisation for the fold over any prefix of the anagram |
| `Checkerboard.AcceptedKeys` | VICOperations.java:296-313 | for an accepted pair, the two spaces are at distinct positions and the escape digits are the permutation digits above them |
| `Checkerboard.CheckInputs` | VICOperations.java:207-229 | accepts exactly when both strings have length 10, the permutation is all digits, the anagram has no digit and holds exactly two spaces |
| `Lists.IndexOf` | VICOperations.java:159 | `indexOf`: -1 when absent, otherwise a position of the element with no earlier occurrence |
| `Lists.RemoveFirst` | VICOperations.java:248 | `remove(Object)`: unchanged when absent, otherwise exactly one element shorter |
| `Lists.RemoveFirstMultiset` | VICOperations.java:248 | `remove(Object)` takes away exactly one copy of the element |
| `Lists.Leftover` | VICOperations.java:238-251 | the letters left are exactly those not in the anagram, and no more than there were |
| `Lists.LeftoverRemove` | VICOperations.java:245-251 | removing the characters one at a time gives the leftover of the whole prefix |
| `Checkerboard.LetterList` | VICOperations.java:238-251 | the letter list is A .. Z without the anagram's characters, in alphabetical order |
| `Checkerboard.LeftoverAtLeast18` | VICOperations.java:238-251 | an anagram of ten characters with two spaces leaves at least 18 letters, so `letter.get(index + 9)` never fails |
| `Checkerboard.LeftoverExactly18` | VICOperations.java:238-251 | an upper-case anagram with eight distinct letters leaves exactly 18 |
| `Checkerboard.FillBoard` | VICOperations.java:253-271 | the new board holds `$`, the permutation, the anagram, ten leftover letters and eight more with two `$`, keyed by the escape digits |
| `Checkerboard.ScanRow` | VICOperations.java:278-288 | the codes of the cells of one row holding the letter, left to right, with the row key dropped when it is `$` |
| `Checkerboard.ReadCodes` | VICOperations.java:273-293 | the scan lists, letter by letter from A to Z, the codes of every cell holding that letter |
| `Checkerboard.StraddlingCheckerboard` | VICOperations.java:205-294 | `null` exactly when the validity check fails; otherwise the scanned table of the filled board |
| `Checkerboard.CheckerboardAtMost30` | VICOperations.java:273-293 | the table never holds more than 30 codes, since the three scanned rows have 30 cells |
| `Checkerboard.BoardLetterCode` | VICOperations.java:253-293 | for a well-formed anagram, every letter sits in exactly one cell: an anagram letter gets its column digit; a leftover letter gets an escape digit followed by its column digit |
| `Checkerboard.CheckerboardByLetter` | VICOperations.java:205-294 | for a well-formed anagram, the table is one code per letter, A .. Z in order |
| `Checkerboard.LetterCodesDiffer` | VICOperations.java:253-293 | different letters get different codes when the permutation has distinct digits |
| `Checkerboard.LetterCodeShape` | VICOperations.java:253-293 | a one-digit code never starts with an escape digit, and a two-digit code always does |
| `Checkerboard.CheckerboardDecodable` | VICOperations.java:205-294 | for a well-formed anagram and a permutation of distinct digits, the table has 26 distinct codes and is prefix-free with respect to the escape digits |
| `DecryptVIC.KeyOf` | DecryptVIC.java:18-22 | the message key is a permutation of the ten digits |
| `DecryptVIC.DeriveKey` | DecryptVIC.java:18-22 | the five steps compute the message key, a permutation of the ten digits |
| `DecryptVIC.WindowStart` | DecryptVIC.java:25-29 | the window starts at the date digit, pulled back so that it ends inside the message |
| `DecryptVIC.RemoveWindow` | DecryptVIC.java:30-31 | cutting the window removes exactly five characters |
| `DecryptVIC.RemoveWindowInsert` | DecryptVIC.java:25-31 | cutting the window undoes inserting any five characters at the date digit, or at the end when the body is shorter than that |
| `DecryptVIC.TokensStep` | DecryptVIC.java:33-41 | an escape digit starts a two-character token and any other character is a one-character token |
| `DecryptVIC.TokensConcat` | DecryptVIC.java:33-41 | the tokens concatenate back to the working string |
| `DecryptVIC.TokensShape` | DecryptVIC.java:33-41 | every token is one non-escape character or an escape digit followed by one character |
| `DecryptVIC.IndexLetter` | DecryptVIC.java:42 | the printed character is 65 past the table index, so -1 (not found) prints `@` |
| `DecryptVIC.DecodeAll` | DecryptVIC.java:42 | one printed character per token |
| `DecryptVIC.DecodeAllSnoc` | DecryptVIC.java:33-43 | decoding one more token appends the letter of its index in the table |
| `DecryptVIC.DecodeMessage` | DecryptVIC.java:32-43 | the loop prints the letter of each token of the working string, in order |
| `DecryptVIC.DecryptionOf` | DecryptVIC.java:18-43 | one printed character per token of the message without its window |
| `DecryptVIC.Decrypt` | DecryptVIC.java:18-43 | the pipeline prints the decoding of the windowless message with the board of the derived key |
| `DecryptVIC.TokensOfEncode` | DecryptVIC.java:33-41 | splitting a text encoded with a decodable table gives back the codes of its letters |
| `DecryptVIC.DecodeCodes` | DecryptVIC.java:42 | looking up the codes of an upper-case text in a table of distinct codes gives back the text |
| `DecryptVIC.DecryptRoundTrip` | DecryptVIC.java:18-43 | for a well-formed anagram, decrypting a message formed by encoding an upper-case text and inserting any five-character window at the date digit returns that text |

## Left out

- Reading the data file (`EncryptVIC.readVICData`) and printing: `Decrypt` takes the five fields as a `VICData` value and returns the printed text as a sequence. `EncryptVIC` is not part of this model.
- The demo `VICOperations.main` (VICOperations.java:315-320) prints four calls. Three of them are stated as the lemmas `NoCarrySumExample`, `ChainSumExample` and `DigitPermutationExample`. The fourth uses the lower-case anagram discussed above, and its table is not stated literally.
- NoCarryAddition: `Character.getNumericValue` on a non-digit (a letter gives 10 .. 35, other characters -1) is excluded by requiring digits. The model therefore does not cover the odd output the Java code would produce there, such as a negative remainder printed as "-1".
- ChainAddition: the seed must be all digits (`CanChain`) whenever it is extended. Java's `getNumericValue` would also accept letters there.
- DecryptVIC.KeyInputs: the agent ID and the first five date characters it is added to must be digits, for the same reason.
- DecryptVIC.Decrypt: a sixth date character that is not a digit is excluded in the same way.
- Runtime exceptions are not modelled as results. Each becomes the `requires` that rules it out:
  - an agent ID longer than the five-digit date prefix;
  - a date shorter than five characters (`date.substring(0, 5)`, DecryptVIC.java:18) or than six (`date.charAt(5)`, DecryptVIC.java:25);
  - a seed shorter than two digits in chain addition;
  - a phrase shorter than ten characters, whose `null` permutation would be dereferenced;
  - an anagram shorter than ten characters in `numberSpaces`;
  - a message shorter than five characters;
  - an escape digit as the last character of the working string;
  - a `null` board when there is a token to decode.
- ChainAddition: the length is a `nat`. A negative length returns the empty string in Java, and is not modelled.
- DecryptVIC.IndexLetter: the `(char)` cast is modelled only for indices -1 .. 30. `CheckerboardAtMost30` shows that no other index occurs.
- Java `char` is a UTF-16 code unit. Dafny's `char` excludes surrogate code points, so inputs holding lone surrogates are not modelled.
- In-place mutation of the `ArrayList`s, `StringBuilder`s and the `char[]` of `numberSpaces` is modelled as reassignment of sequences (the board as a fresh `array2`). Aliasing between them does not arise in the source.
