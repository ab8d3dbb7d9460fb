/**
  A worked game: the dictionary dog, cat, cow, ant, words of length 3 and a
  budget of 2 wrong guesses; the guesser tries 'o' and then 'a'. Both guesses
  end in a tie between two families of equal size, so both are decided by
  the key order, in which the blank '-' sorts before every letter.
 */
module Scenario {
  import opened Lex
  import opened Families
  import opened Hangman

  /** The guess 'o' on all four words: families {dog, cow} and {ant, cat} tie; "---" wins. */
  lemma FirstGuess()
    ensures Keys({"dog", "cat", "cow", "ant"}, "---", 'o') == {"-o-", "---"}
    ensures Family({"dog", "cat", "cow", "ant"}, "---", 'o', "-o-") == {"dog", "cow"}
    ensures Family({"dog", "cat", "cow", "ant"}, "---", 'o', "---") == {"ant", "cat"}
    ensures IsBestKey({"dog", "cat", "cow", "ant"}, "---", 'o', "---")
  {
    assert FamilyKey("dog", "---", 'o') == "-o-";
    assert FamilyKey("cow", "---", 'o') == "-o-";
    assert FamilyKey("cat", "---", 'o') == "---";
    assert FamilyKey("ant", "---", 'o') == "---";
    assert LexLess("---", "-o-");
  }

  /** The guess 'a' on ant and cat: families {cat} and {ant} tie; "-a-" wins over "a--". */
  lemma SecondGuess()
    ensures Keys({"ant", "cat"}, "---", 'a') == {"-a-", "a--"}
    ensures Family({"ant", "cat"}, "---", 'a', "-a-") == {"cat"}
    ensures Family({"ant", "cat"}, "---", 'a', "a--") == {"ant"}
    ensures IsBestKey({"ant", "cat"}, "---", 'a', "-a-")
  {
    assert FamilyKey("cat", "---", 'a') == "-a-";
    assert FamilyKey("ant", "---", 'a') == "a--";
    assert LexLess("-a-", "a--");
  }

  /** A three-letter pattern as the engine shows it. */
  lemma ShownThree(shown: string, game: string)
    requires |game| == 3 && |shown| == 2 * |game| - 1
    requires forall k :: 0 <= k < |shown| ==>
               shown[k] == (if k % 2 == 0 then game[k / 2] else ' ')
    ensures shown == [game[0], ' ', game[1], ' ', game[2]]
  {
    assert shown[0] == game[0] && shown[1] == ' ' && shown[2] == game[1];
    assert shown[3] == ' ' && shown[4] == game[2];
  }

  /** A new game over the four words: all of them are candidates, nothing is revealed. */
  method Start() returns (m: HangmanManager, start: Result<string>)
    ensures fresh(m) && m.Valid()
    ensures m.current == {"dog", "cat", "cow", "ant"} && m.game == "---"
    ensures m.guessed == {} && m.max == 2
    ensures start == Ok("- - -")
  {
    var created := HangmanManager.Create(["dog", "cat", "cow", "ant"], 3, 2);
    m := created.value;
    assert m.current == {"dog", "cat", "cow", "ant"} && m.game == "---";
    start := m.Pattern();
    ShownThree(start.value, m.game);
  }

  /** 'o' is a wrong guess: the engine keeps ant and cat and charges one guess. */
  method GuessO(m: HangmanManager) returns (first: Result<nat>, afterFirst: set<string>, left: int)
    requires m.Valid()
    requires m.current == {"dog", "cat", "cow", "ant"} && m.game == "---"
    requires m.guessed == {} && m.max == 2
    modifies m
    ensures m.Valid()
    ensures m.current == {"ant", "cat"} && m.game == "---" && m.guessed == {'o'} && m.max == 1
    ensures first == Ok(0) && afterFirst == {"ant", "cat"} && left == 1
  {
    first := m.Record('o');
    FirstGuess();
    BestKeyUnique({"dog", "cat", "cow", "ant"}, "---", 'o', m.game, "---");
    afterFirst := m.Words();
    left := m.GuessesLeft();
  }

  /** 'a' shows once: the engine keeps cat, whose key "-a-" sorts before ant's "a--". */
  method GuessA(m: HangmanManager) returns (second: Result<nat>, afterSecond: set<string>)
    requires m.Valid()
    requires m.current == {"ant", "cat"} && m.game == "---" && m.guessed == {'o'} && m.max == 1
    modifies m
    ensures m.Valid()
    ensures m.current == {"cat"} && m.game == "-a-" && m.guessed == {'o', 'a'} && m.max == 1
    ensures second == Ok(1) && afterSecond == {"cat"}
  {
    second := m.Record('a');
    SecondGuess();
    BestKeyUnique({"ant", "cat"}, "---", 'a', m.game, "-a-");
    afterSecond := m.Words();
  }

  /** The whole game, as a caller sees it. */
  method DogCatCowAnt()
    returns (start: Result<string>, first: Result<nat>, afterFirst: set<string>, left: int,
             second: Result<nat>, afterSecond: set<string>, shown: Result<string>)
    ensures start == Ok("- - -")
    ensures first == Ok(0) && afterFirst == {"ant", "cat"} && left == 1
    ensures second == Ok(1) && afterSecond == {"cat"} && shown == Ok("- a -")
  {
    var m;
    m, start := Start();
    first, afterFirst, left := GuessO(m);
    second, afterSecond := GuessA(m);
    shown := m.Pattern();
    ShownThree(shown.value, m.game);
  }
}
