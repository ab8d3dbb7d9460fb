/**
  Word families: the pure part of a guess. Every candidate word gets a family
  key (the pattern the guesser would see if that word were the secret); the
  candidates are grouped by key, and the engine keeps the largest group,
  breaking ties by the sort order of the keys.
 */
module Families {
  import opened Lex

  /** The blank marker of a pattern. */
  const Blank: char := '-'

  /**
    The family key of `word` for `guess` over the revealed pattern `game`:
    position i shows the guess where the word has it, and the old pattern
    character everywhere else.
   */
  function FamilyKey(word: string, game: string, guess: char): (key: string)
    requires |word| == |game|
    ensures |key| == |game|
  {
    seq(|word|, i requires 0 <= i < |word| => if word[i] == guess then guess else game[i])
  }

  /** The words of `words` that belong to the family with key `key`. */
  function Family(words: set<string>, game: string, guess: char, key: string): set<string>
  {
    set w | w in words && |w| == |game| && FamilyKey(w, game, guess) == key
  }

  /** The keys of all nonempty families of `words`. */
  function Keys(words: set<string>, game: string, guess: char): set<string>
  {
    set w | w in words && |w| == |game| :: FamilyKey(w, game, guess)
  }

  /**
    `key` is the family the engine keeps: a family of maximal size, and among
    the families of that size the one whose key sorts first.
   */
  ghost predicate IsBestKey(words: set<string>, game: string, guess: char, key: string)
  {
    && key in Keys(words, game, guess)
    && (forall k :: k in Keys(words, game, guess) ==>
          |Family(words, game, guess, k)| <= |Family(words, game, guess, key)|)
    && (forall k ::
          (k in Keys(words, game, guess) && k != key &&
           |Family(words, game, guess, k)| == |Family(words, game, guess, key)|) ==>
          LexLess(key, k))
  }

  /** Number of positions of `s` that hold `c`. */
  function Occurrences(s: string, c: char): (n: nat)
    ensures n <= |s|
    ensures n == 0 <==> forall i :: 0 <= i < |s| ==> s[i] != c
  {
    if |s| == 0 then 0
    else Occurrences(s[..|s| - 1], c) + (if s[|s| - 1] == c then 1 else 0)
  }

  /** Every revealed letter of the pattern `game` has been guessed. */
  ghost predicate PatternOver(game: string, guessed: set<char>)
  {
    forall i :: 0 <= i < |game| ==> game[i] == Blank || game[i] in guessed
  }

  /**
    `word` is still possible after the guesses `guessed` that produced `game`:
    it has the pattern's length, agrees with every revealed letter, and shows
    every guessed letter it contains.
   */
  ghost predicate Consistent(word: string, game: string, guessed: set<char>)
  {
    && |word| == |game|
    && (forall i :: 0 <= i < |word| ==> game[i] != Blank ==> word[i] == game[i])
    && (forall i :: 0 <= i < |word| ==> word[i] in guessed ==> game[i] == word[i])
  }

  /** Adding one word to the candidates adds its key to the keys. */
  lemma KeysAdd(words: set<string>, word: string, game: string, guess: char)
    requires |word| == |game|
    ensures Keys(words + {word}, game, guess) == Keys(words, game, guess) + {FamilyKey(word, game, guess)}
  {
  }

  /** Adding one word to the candidates adds it to its own family and to no other. */
  lemma FamilyAdd(words: set<string>, word: string, game: string, guess: char, key: string)
    requires |word| == |game|
    ensures Family(words + {word}, game, guess, key) ==
            if key == FamilyKey(word, game, guess) then Family(words, game, guess, key) + {word}
            else Family(words, game, guess, key)
  {
  }

  /** Every word of the right length lies in exactly one family: its own key's. */
  lemma FamiliesPartition(words: set<string>, game: string, guess: char, w: string, k: string)
    requires w in words && |w| == |game|
    ensures FamilyKey(w, game, guess) in Keys(words, game, guess)
    ensures w in Family(words, game, guess, k) <==> k == FamilyKey(w, game, guess)
  {
  }

  /** The kept family is a nonempty part of the candidates, all with that key. */
  lemma BestFamily(words: set<string>, game: string, guess: char, key: string)
    requires IsBestKey(words, game, guess, key)
    ensures Family(words, game, guess, key) != {}
    ensures Family(words, game, guess, key) <= words
    ensures forall w :: w in Family(words, game, guess, key) ==>
              |w| == |game| && FamilyKey(w, game, guess) == key
  {
    var w :| w in words && |w| == |game| && FamilyKey(w, game, guess) == key;
    assert w in Family(words, game, guess, key);
  }

  /** The choice is deterministic: at most one key is the best one. */
  lemma BestKeyUnique(words: set<string>, game: string, guess: char, k1: string, k2: string)
    requires IsBestKey(words, game, guess, k1)
    requires IsBestKey(words, game, guess, k2)
    ensures k1 == k2
  {
    if k1 != k2 {
      LexLessAsymmetric(k1, k2);
    }
  }

  /** Two strings that have `c` at the same positions have as many of it. */
  lemma {:induction false} OccurrencesAgree(s: string, t: string, c: char)
    requires |s| == |t|
    requires forall i :: 0 <= i < |s| ==> (s[i] == c <==> t[i] == c)
    ensures Occurrences(s, c) == Occurrences(t, c)
  {
    if |s| > 0 {
      OccurrencesAgree(s[..|s| - 1], t[..|t| - 1], c);
    }
  }

  /**
    What a fresh lowercase guess does to a consistent word's key: the key
    keeps every revealed letter, differs from the old pattern only where it
    now shows the guess, shows the guess exactly where the word has it, and
    the word stays consistent with the key and the grown guess set.
   */
  lemma KeyExtendsPattern(word: string, game: string, guessed: set<char>, guess: char)
    requires Consistent(word, game, guessed) && PatternOver(game, guessed)
    requires guess != Blank && guess !in guessed
    ensures var key := FamilyKey(word, game, guess);
      && |key| == |game|
      && (forall i :: 0 <= i < |game| && game[i] != Blank ==> key[i] == game[i])
      && (forall i :: 0 <= i < |game| && key[i] != game[i] ==> key[i] == guess)
      && (forall i :: 0 <= i < |game| ==> (key[i] == guess <==> word[i] == guess))
      && Occurrences(key, guess) == Occurrences(word, guess)
      && PatternOver(key, guessed + {guess})
      && Consistent(word, key, guessed + {guess})
  {
    var key := FamilyKey(word, game, guess);
    OccurrencesAgree(key, word, guess);
  }

  /**
    A scan that has seen every family and kept a largest one, the first of
    that size in key order, has found the best key.
   */
  lemma ScanFindsBest(words: set<string>, game: string, guess: char,
                      families: map<string, set<string>>, key: string)
    requires families.Keys == Keys(words, game, guess)
    requires forall k :: k in families ==> families[k] == Family(words, game, guess, k)
    requires key in families
    requires forall k :: k in families ==> |families[k]| <= |families[key]|
    requires forall k :: (k in families && k != key && |families[k]| == |families[key]|) ==>
               LexLess(key, k)
    ensures IsBestKey(words, game, guess, key)
  {
  }

  /**
    Keeping the best family for a fresh guess preserves the engine's
    invariant: the new pattern extends the old one, every kept word is
    consistent with it and the grown guess set, and every kept word has the
    guess exactly as often as the new pattern shows it.
   */
  lemma BestFamilyExtends(words: set<string>, game: string, guessed: set<char>,
                          guess: char, key: string)
    requires IsBestKey(words, game, guess, key)
    requires forall w :: w in words ==> Consistent(w, game, guessed)
    requires PatternOver(game, guessed)
    requires guess != Blank && guess !in guessed
    ensures |key| == |game|
    ensures forall i :: 0 <= i < |game| && game[i] != Blank ==> key[i] == game[i]
    ensures forall i :: 0 <= i < |game| && key[i] != game[i] ==> key[i] == guess
    ensures PatternOver(key, guessed + {guess})
    ensures forall w :: w in Family(words, game, guess, key) ==>
              Consistent(w, key, guessed + {guess}) && Occurrences(w, guess) == Occurrences(key, guess)
  {
    BestFamily(words, game, guess, key);
    var w0 :| w0 in Family(words, game, guess, key);
    KeyExtendsPattern(w0, game, guessed, guess);
    forall w | w in Family(words, game, guess, key)
      ensures Consistent(w, key, guessed + {guess}) && Occurrences(w, guess) == Occurrences(key, guess)
    {
      KeyExtendsPattern(w, game, guessed, guess);
    }
  }
}
