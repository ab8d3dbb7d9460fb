# Adversarial Hangman engine in Dafny

This project models `HangmanManager`, the engine of an "evil" Hangman game.
The engine does not fix a secret word. It keeps every dictionary word of the
requested length that is still consistent with the game so far. On each guess
it gives every candidate a *family key*: the pattern the guesser would see if
that word were the secret. It groups the candidates by key and keeps the
largest group. Ties go to the key that a sorted map visits first.

The engine's state is four fields, kept as the fields of the Dafny class
`Hangman.HangmanManager`:

- `current`: the candidate words.
- `game`: the revealed pattern, with `-` for every blank.
- `guessed`: the letters guessed so far.
- `max`: the wrong guesses left.

Modules:

- `Lex` (Lex.dfy): the order of string keys in a sorted map. Characters are
  compared by char code, and a proper prefix sorts first. It also proves that
  this is a strict total order and that every nonempty finite set of keys has
  a first key (`MinKey`).
- `Families` (Families.dfy): the pure part of a guess. It holds the family key
  of a word, the family and the key set of a candidate set, and the "best key"
  predicate: a largest family, and among the largest the first in key order.
  It also holds the occurrence count and the lemmas that connect these.
- `Hangman` (HangmanManager.dfy): the class itself. Its constructor loops,
  `pattern`, and `record` are imperative methods. The key loop, the grouping
  loop, the selection scan and the counting loop of `record` are methods
  proved against the `Families` functions. `Valid()` is the engine's
  invariant. The patterns contain only blanks and guessed letters, the
  guesses are lowercase, the budget is never negative, and every candidate
  agrees with the pattern and shows every guessed letter it contains.
- `Scenario` (Scenario.dfy): a game worked through the engine's operations.
  The dictionary is dog, cat, cow, ant, the length is 3 and the budget is 2.
  The guesses are `o` (a tie that the blank-first key `---` wins) and `a`
  (a tie that `-a-` wins over `a--`, because `-` sorts before `a`).

The Java exceptions are modelled as `Result` values.
`IllegalArgumentException` is `Err(IllegalArgument)` and
`IllegalStateException` is `Err(IllegalState)`. The Java constructor can throw.
It is modelled by the static method `Create`, which returns an error or a
fresh engine. The constructor proper holds the two initialisation loops.

Three facts about the code that the model keeps:

- `pattern()` on an empty candidate set throws `IllegalArgumentException`
  (HangmanManager.java:55-56).
- Guessing `a` on {ant, cat} keeps {cat} with the pattern `- a -`, because
  "-a-" sorts before "a--" (HangmanManager.java:100-108).
- `record` returns at most the word length, not at most the number of
  candidates left (HangmanManager.java:109-113). For example, "aaa" alone
  with the guess `a` returns 3.

## Model

| member | source | states |
|---|---|---|
| `Lex.LexLessIrreflexive` | HangmanManager.java:84 | no key sorts before itself in the sorted map's key order |
| `Lex.LexLessTransitive` | HangmanManager.java:84 | the key order is transitive |
| `Lex.LexLessTotal` | HangmanManager.java:84 | any two distinct keys are ordered one way or the other |
| `Lex.LexLessAsymmetric` | HangmanManager.java:84 | two keys are never ordered both ways |
| `Lex.MinKey` | HangmanManager.java:100-101 | every nonempty set of keys has a first key, which sorts before every other key; this is the key the sorted map visits next |
| `Families.FamilyKey` | HangmanManager.java:86-93 | a word's family key has the pattern's length |
| `Families.Occurrences` | HangmanManager.java:109-113 | the count of a character in a string is at most the string's length, and it is 0 exactly when the character occurs nowhere |
| `Families.OccurrencesAgree` | HangmanManager.java:66 | two strings that hold a character at the same positions hold it equally often |
| `Families.KeysAdd` | HangmanManager.java:94-96 | adding a word to the candidates adds exactly that word's key to the key set |
| `Families.FamilyAdd` | HangmanManager.java:97-98 | adding a word puts it into its own key's family and changes no other family |
| `Families.FamiliesPartition` | HangmanManager.java:85-99 | every candidate of the pattern's length is in exactly one family, its own key's, and that key is one of the keys |
| `Families.BestFamily` | HangmanManager.java:100-108 | the kept family is nonempty, lies within the candidates, and all its words have the kept key |
| `Families.BestKeyUnique` | HangmanManager.java:100-108 | at most one key is the largest family with the first key among equals, so the choice is deterministic |
| `Families.ScanFindsBest` | HangmanManager.java:100-108 | a scan that saw every family and kept a largest one, first in key order among equals, found the best key |
| `Families.KeyExtendsPattern` | HangmanManager.java:86-93 | for a fresh non-blank guess, a consistent word's key keeps every revealed letter, differs from the old pattern only where it shows the guess, shows the guess exactly where the word has it, has as many guesses as the word, and the word stays consistent with the key and the grown guess set |
| `Families.BestFamilyExtends` | HangmanManager.java:85-105 | keeping the best family preserves the invariant: its key extends the old pattern and covers only guessed letters, and every kept word is consistent with the new pattern and has the guess exactly as often as the pattern shows it |
| `Hangman.BuildKey` | HangmanManager.java:86-93 | the character loop builds exactly the word's family key |
| `Hangman.Partition` | HangmanManager.java:84-99 | the grouping loop yields a map whose keys are exactly the candidates' family keys and whose value for each key is that key's nonempty family, so every candidate lies in its own key's family |
| `Hangman.LargestFamily` | HangmanManager.java:100-108 | the scan in key order with a strict `>` returns a family of maximal size, and among families of that size the one whose key sorts first |
| `Hangman.CountOccurrences` | HangmanManager.java:109-113 | the counting loop returns the number of positions holding the guess |
| `Hangman.KeepBestFamily` | HangmanManager.java:84-108 | grouping and then scanning yields the best key and its family, a nonempty subset of the candidates whose words all have that key; the key extends the pattern and every kept word stays consistent |
| `Hangman.HangmanManager.Create` | HangmanManager.java:18-21 | an illegal-argument error exactly when the length is below 1 or the budget is negative; otherwise a fresh valid engine in the constructor's initial state |
| `Hangman.HangmanManager.constructor` | HangmanManager.java:22-33 | the candidates are exactly the dictionary words of the requested length, with duplicates collapsed; the pattern is that many blanks; no guesses; the full budget |
| `Hangman.HangmanManager.Words` | HangmanManager.java:37-39 | returns the candidate set, every word of which agrees with the pattern and the guesses |
| `Hangman.HangmanManager.GuessesLeft` | HangmanManager.java:42-44 | returns the budget, which is never negative |
| `Hangman.HangmanManager.Guesses` | HangmanManager.java:47-49 | returns the guessed letters, all lowercase |
| `Hangman.HangmanManager.Pattern` | HangmanManager.java:54-63 | an illegal-argument error when no candidate is left; otherwise a string of length 2n-1 holding pattern character i at position 2i and a space at every odd position; no state changes |
| `Hangman.HangmanManager.Record` | HangmanManager.java:74-118 | an illegal-state error when the budget is below 1 or no candidate is left, checked first, then an illegal-argument error for a repeated guess, neither changing any field; otherwise the guess joins the guesses, the pattern becomes the best key, the candidates become its family (a nonempty subset, each word having that key), revealed letters stay, changed positions show the guess, the result is the guess's count in the new pattern and in every kept word, at most the length, and the budget drops by one exactly when that count is 0 |
| `Scenario.FirstGuess` | HangmanManager.java:85-108 | guessing `o` on dog, cat, cow, ant gives two families of two, and the tie goes to `---` |
| `Scenario.SecondGuess` | HangmanManager.java:85-108 | guessing `a` on ant and cat gives two families of one, and the tie goes to `-a-` over `a--` |
| `Scenario.ShownThree` | HangmanManager.java:58-62 | `pattern()` of a three-character pattern is its characters separated by single spaces |
| `Scenario.Start` | HangmanManager.java:18-33 | a new game over the four words has all of them as candidates, the pattern `- - -`, no guesses and a budget of 2 |
| `Scenario.GuessO` | HangmanManager.java:74-118 | guessing `o` returns 0, keeps ant and cat and leaves one wrong guess |
| `Scenario.GuessA` | HangmanManager.java:74-118 | guessing `a` next returns 1 and keeps cat alone, with the budget unchanged |
| `Scenario.DogCatCowAnt` | HangmanManager.java:54-118 | the whole game as a caller sees it: `- - -`, then 0 with {ant, cat} and 1 guess left, then 1 with {cat} and `- a -` |

## Left out

- Aliasing: `words()` and `guesses()` return the engine's live sets in the
  code. `Words` and `Guesses` return value snapshots, so callers mutating the
  returned sets is not modelled.
- Non-lowercase guesses: the code only assumes that a guess is a lowercase
  letter. `Record` requires it (`IsLower`), so a guess of `-` or of an
  uppercase letter is not modelled.
- The dictionary source and the front end are outside this class. The
  dictionary is a `seq<string>`: any `Collection` iteration order gives the
  same candidate set.
- Iteration order over the candidates while grouping: `Partition` takes the
  candidates in an arbitrary order rather than the `TreeSet` order. The
  resulting map does not depend on the order.
- `Hangman.LargestFamily` keeps the best key and family in locals. `Record`
  stores them in `game` and `current` after the scan, while the code assigns
  those fields inside the scan. The final state is the same, because the map
  is never empty when the scan runs. No caller can observe the states in
  between.
- Java `String.compareTo` compares UTF-16 code units, and the model compares
  Dafny chars by code point. The two orders agree on strings without
  supplementary-plane characters, which includes every key made of `-` and
  lowercase letters.
- 32-bit integers: lengths, counts and the budget are unbounded integers. The
  code never overflows them. The budget only drops from a value of at least
  1, and the count is bounded by the word length.
- `substring(1)` in `pattern()` would throw on an empty pattern. That cannot
  happen, because the length is at least 1 (part of `Valid()`), so the model
  has no error case for it.
- `Hangman.BuildKey` and `Hangman.Partition`: require every word to have the
  pattern's length. `Valid()` guarantees this for the candidates, so the
  out-of-bounds exception that `charAt` would throw for a longer word cannot
  happen and is not modelled.
- `Hangman.HangmanManager.constructor`: counts word length in code points
  (Dafny chars), while `word.length()` counts UTF-16 code units, so a word
  with a supplementary-plane character is filtered differently (Java keeps
  "a𝕒" for length 3, the model for length 2). Java strings with unpaired
  surrogates cannot be represented at all.
- `Hangman.HangmanManager.constructor`: requires a length of at least 1 and
  a nonnegative budget. The argument check and its error belong to `Create`,
  which is the only caller.
- String-building cost and `TreeSet`/`TreeMap` internals: only the resulting
  values are modelled.
