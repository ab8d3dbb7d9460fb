/**
  The adversarial Hangman engine. It keeps the words that are still possible,
  the pattern shown to the guesser, the letters guessed so far and the number
  of wrong guesses left; on every guess it splits the candidates into word
  families and keeps the largest one, so that it never commits to a secret.
 */
module Hangman {
  import opened Lex
  import opened Families

  /** The two exceptions the engine throws. */
  datatype Error = IllegalArgument | IllegalState

  datatype Result<T> = Ok(value: T) | Err(error: Error)

  predicate IsLower(c: char)
  {
    'a' <= c <= 'z'
  }

  /** The key loop of `record`: builds a word's family key one character at a time. */
  method BuildKey(word: string, game: string, guess: char) returns (key: string)
    requires |word| == |game|
    ensures key == FamilyKey(word, game, guess)
  {
    key := "";
    for i := 0 to |word|
      invariant |key| == i
      invariant forall j :: 0 <= j < i ==> key[j] == (if word[j] == guess then guess else game[j])
    {
      if guess == word[i] {
        key := key + [word[i]];
      } else {
        key := key + [game[i]];
      }
    }
  }

  /**
    The grouping loop of `record`: maps every key to its family, and has a
    key exactly for the families that are nonempty.
   */
  method Partition(words: set<string>, game: string, guess: char)
    returns (families: map<string, set<string>>)
    requires forall w :: w in words ==> |w| == |game|
    ensures families.Keys == Keys(words, game, guess)
    ensures forall k :: k in families ==>
              families[k] == Family(words, game, guess, k) && families[k] != {}
    ensures forall w :: w in words ==>
              FamilyKey(w, game, guess) in families && w in families[FamilyKey(w, game, guess)]
  {
    families := map[];
    var rest := words;
    while rest != {}
      invariant rest <= words
      invariant families.Keys == Keys(words - rest, game, guess)
      invariant forall k :: k in families ==>
                  families[k] == Family(words - rest, game, guess, k) && families[k] != {}
      decreases rest
    {
      var word :| word in rest;
      var key := BuildKey(word, game, guess);
      ghost var done := words - rest;
      if key !in families {
        families := families[key := {}];
      }
      families := families[key := families[key] + {word}];
      rest := rest - {word};
      assert words - rest == done + {word};
      KeysAdd(done, word, game, guess);
      forall k | k in families
        ensures families[k] == Family(words - rest, game, guess, k)
      {
        FamilyAdd(done, word, game, guess, k);
      }
    }
    forall w | w in words
      ensures FamilyKey(w, game, guess) in families && w in families[FamilyKey(w, game, guess)]
    {
      FamiliesPartition(words, game, guess, w, FamilyKey(w, game, guess));
    }
  }

  /**
    The selection loop of `record`: visits the keys in sorted order and keeps
    the first family that is strictly larger than every family before it, so
    the result is a largest family and, among the largest, the one whose key
    sorts first.
   */
  method LargestFamily(families: map<string, set<string>>) returns (key: string, family: set<string>)
    requires families != map[]
    requires forall k :: k in families ==> families[k] != {}
    ensures key in families && family == families[key]
    ensures forall k :: k in families ==> |families[k]| <= |family|
    ensures forall k :: (k in families && k != key && |families[k]| == |family|) ==> LexLess(key, k)
  {
    var setMax := 0;
    var remaining := families.Keys;
    key, family := "", {};
    while remaining != {}
      invariant remaining <= families.Keys
      invariant forall s, k :: s in families.Keys - remaining && k in remaining ==> LexLess(s, k)
      invariant setMax == 0 ==> families.Keys - remaining == {}
      invariant setMax > 0 ==>
                  key in families.Keys - remaining && family == families[key] && setMax == |family|
      invariant forall k :: k in families.Keys - remaining ==> |families[k]| <= setMax
      invariant forall k :: (k in families.Keys - remaining && k != key && |families[k]| == setMax) ==>
                  LexLess(key, k)
      decreases remaining
    {
      // MinKey is the witness that makes the choice of the next key possible.
      assert MinKey(remaining) in remaining;
      var next :| next in remaining && forall k :: k in remaining && k != next ==> LexLess(next, k);
      var size := |families[next]|;
      if size > setMax {
        key := next;
        family := families[next];
        setMax := size;
      }
      remaining := remaining - {next};
    }
  }

  /** The counting loop of `record`: how many positions of `s` hold `c`. */
  method CountOccurrences(s: string, c: char) returns (n: nat)
    ensures n == Occurrences(s, c)
  {
    n := 0;
    for i := 0 to |s|
      invariant n == Occurrences(s[..i], c)
    {
      assert s[..i + 1][..i] == s[..i];
      if c == s[i] {
        n := n + 1;
      }
    }
    assert s[..|s|] == s;
  }

  /**
    Steps 2 to 4 of `record` for a fresh guess: group the candidates by
    family key and keep the best family. The kept family is a nonempty part
    of the candidates, its key extends the pattern, and every kept word stays
    consistent with the new pattern and the guesses.
   */
  method KeepBestFamily(words: set<string>, game: string, ghost guessed: set<char>, guess: char)
    returns (key: string, family: set<string>)
    requires words != {}
    requires forall w :: w in words ==> Consistent(w, game, guessed)
    requires PatternOver(game, guessed)
    requires guess != Blank && guess !in guessed
    ensures IsBestKey(words, game, guess, key)
    ensures family == Family(words, game, guess, key)
    ensures family != {} && family <= words
    ensures forall w :: w in family ==> |w| == |game| && FamilyKey(w, game, guess) == key
    ensures |key| == |game|
    ensures forall i :: 0 <= i < |game| && game[i] != Blank ==> key[i] == game[i]
    ensures forall i :: 0 <= i < |game| && key[i] != game[i] ==> key[i] == guess
    ensures PatternOver(key, guessed + {guess})
    ensures forall w :: w in family ==>
              Consistent(w, key, guessed + {guess}) && Occurrences(w, guess) == Occurrences(key, guess)
  {
    var families := Partition(words, game, guess);
    ghost var w :| w in words;
    assert FamilyKey(w, game, guess) in families;
    key, family := LargestFamily(families);
    ScanFindsBest(words, game, guess, families, key);
    BestFamilyExtends(words, game, guessed, guess, key);
    BestFamily(words, game, guess, key);
  }

  class HangmanManager {
    /** The candidate words. */
    var current: set<string>
    /** Wrong guesses left. */
    var max: int
    /** The letters guessed so far. */
    var guessed: set<char>
    /** The revealed pattern, with `Blank` for every unrevealed position. */
    var game: string

    /**
      The engine's invariant: a nonempty pattern over the guessed letters, a
      nonnegative budget, lowercase guesses, and candidates that all agree
      with the pattern and the guesses.
     */
    ghost predicate Valid()
      reads this
    {
      && |game| >= 1
      && max >= 0
      && (forall c :: c in guessed ==> IsLower(c))
      && PatternOver(game, guessed)
      && (forall w :: w in current ==> Consistent(w, game, guessed))
    }

    /**
      Creating a game: an argument error for a length below 1 or a negative
      budget; otherwise every dictionary word of the requested length, an
      all-blank pattern of that length, no guesses and the full budget.
     */
    static method Create(dictionary: seq<string>, length: int, max: int)
      returns (r: Result<HangmanManager>)
      ensures r.Err? <==> length < 1 || max < 0
      ensures r.Err? ==> r.error == IllegalArgument
      ensures r.Ok? ==>
        && fresh(r.value)
        && r.value.Valid()
        && r.value.current == (set w | w in dictionary && |w| == length)
        && r.value.game == seq(length, _ => Blank)
        && r.value.guessed == {}
        && r.value.max == max
    {
      if length < 1 || max < 0 {
        return Err(IllegalArgument);
      }
      var m := new HangmanManager(dictionary, length, max);
      return Ok(m);
    }

    constructor (dictionary: seq<string>, length: nat, max: nat)
      requires length >= 1
      ensures Valid()
      ensures current == (set w | w in dictionary && |w| == length)
      ensures game == seq(length, _ => Blank)
      ensures guessed == {}
      ensures this.max == max
    {
      var words: set<string> := {};
      for i := 0 to |dictionary|
        invariant words == set w | w in dictionary[..i] && |w| == length
      {
        assert dictionary[..i + 1] == dictionary[..i] + [dictionary[i]];
        if |dictionary[i]| == length {
          words := words + {dictionary[i]};
        }
      }
      assert dictionary[..|dictionary|] == dictionary;
      var pattern := "";
      for i := 0 to length
        invariant pattern == seq(i, _ => Blank)
      {
        pattern := pattern + [Blank];
      }
      current := words;
      this.max := max;
      guessed := {};
      game := pattern;
    }

    /** A snapshot of the candidate words. */
    method Words() returns (words: set<string>)
      requires Valid()
      ensures words == current
      ensures forall w :: w in words ==> Consistent(w, game, guessed)
    {
      words := current;
    }

    /** The number of wrong guesses left, never negative. */
    method GuessesLeft() returns (n: int)
      requires Valid()
      ensures n == max && n >= 0
    {
      n := max;
    }

    /** A snapshot of the guessed letters, all lowercase. */
    method Guesses() returns (letters: set<char>)
      requires Valid()
      ensures letters == guessed
      ensures forall c :: c in letters ==> IsLower(c)
    {
      letters := guessed;
    }

    /**
      The pattern as shown to the guesser: an argument error when no word is
      left; otherwise the pattern characters separated by single spaces.
     */
    method Pattern() returns (r: Result<string>)
      requires Valid()
      ensures current == {} ==> r == Err(IllegalArgument)
      ensures current != {} ==> r.Ok? && |r.value| == 2 * |game| - 1
      ensures current != {} ==> forall k :: 0 <= k < |r.value| ==>
                r.value[k] == (if k % 2 == 0 then game[k / 2] else ' ')
    {
      if current == {} {
        return Err(IllegalArgument);
      }
      var s := "";
      for i := 0 to |game|
        invariant |s| == 2 * i
        invariant forall k :: 0 <= k < |s| ==> s[k] == (if k % 2 == 0 then ' ' else game[k / 2])
      {
        s := s + [' ', game[i]];
      }
      return Ok(s[1..]);
    }

    /**
      One guess. A state error when no wrong guess is left or no word is
      left, checked first; an argument error for a letter already guessed;
      neither changes anything. Otherwise the guess is recorded, the pattern
      becomes the best family key and the candidates that family, the result
      is the number of times the guess now shows, and a guess that shows
      nowhere costs one wrong guess.
     */
    method Record(guess: char) returns (r: Result<nat>)
      requires Valid()
      requires IsLower(guess)
      modifies this
      ensures Valid()
      ensures (old(max) < 1 || old(current) == {}) ==>
                r == Err(IllegalState) && unchanged(this)
      ensures (old(max) >= 1 && old(current) != {} && guess in old(guessed)) ==>
                r == Err(IllegalArgument) && unchanged(this)
      ensures (old(max) >= 1 && old(current) != {} && guess !in old(guessed)) ==>
                && r.Ok?
                && guessed == old(guessed) + {guess}
                && IsBestKey(old(current), old(game), guess, game)
                && current == Family(old(current), old(game), guess, game)
                && r.value == Occurrences(game, guess)
                && max == (if r.value == 0 then old(max) - 1 else old(max))
      ensures r.Ok? ==>
                && current != {} && current <= old(current)
                && (forall w :: w in current ==> |w| == |game| && FamilyKey(w, old(game), guess) == game)
                && |game| == |old(game)|
                && (forall i :: 0 <= i < |game| && old(game)[i] != Blank ==> game[i] == old(game)[i])
                && (forall i :: 0 <= i < |game| && game[i] != old(game)[i] ==> game[i] == guess)
                && r.value <= |game|
                && (forall w :: w in current ==> Occurrences(w, guess) == r.value)
    {
      if max < 1 || current == {} {
        return Err(IllegalState);
      } else if guess in guessed {
        return Err(IllegalArgument);
      }
      ghost var before := guessed;
      guessed := guessed + {guess};
      var key, family := KeepBestFamily(current, game, before, guess);
      game, current := key, family;
      var right := CountOccurrences(game, guess);
      if right == 0 {
        max := max - 1;
      }
      r := Ok(right);
    }
  }
}
