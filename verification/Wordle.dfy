/** The evaluation of word guesses: two passes over the guess, taking letters from what is left of the
    answer, against what each mark means. */
module Wordle {

  const WORD_LENGTH := 5
  const MAX_TRIES := 6

  datatype TileState = Empty | Correct | Wrong | Present

  datatype Tile = Tile(letter: char, state: TileState)

  datatype Evaluation = Evaluated(word: seq<Tile>) | BadGuess | BadAnswer

  datatype GamePhase = Solved | InPlay | Waiting | FailedGame

  // ---------- what the marks mean ----------

  predicate Hit(guess: string, answer: string, i: nat)
    requires |guess| == |answer| && i < |guess|
  {
    guess[i] == answer[i]
  }

  /** How often `c` is among the first `k` letters of `s`. */
  function Count(s: string, c: char, k: nat): nat
    requires k <= |s|
  {
    if k == 0 then 0 else Count(s, c, k - 1) + if s[k - 1] == c then 1 else 0
  }

  /** How many of the first `k` places hold `c` in both words. */
  function Hits(guess: string, answer: string, c: char, k: nat): nat
    requires |guess| == |answer| && k <= |guess|
  {
    if k == 0 then 0
    else Hits(guess, answer, c, k - 1) + if Hit(guess, answer, k - 1) && guess[k - 1] == c then 1 else 0
  }

  /** How many of the first `k` places hold `c` in `s`, one of the two words, and not in the other. */
  function Missed(s: string, other: string, c: char, k: nat): nat
    requires |s| == |other| && k <= |s|
  {
    if k == 0 then 0 else Missed(s, other, c, k - 1) + if s[k - 1] != other[k - 1] && s[k - 1] == c then 1 else 0
  }

  /** Correct where the words agree; else present as long as the answer has occurrences of the letter, not
      matched in place, for this occurrence and those before it; else wrong. */
  function Mark(guess: string, answer: string, i: nat): TileState
    requires |guess| == |answer| && i < |guess|
  {
    if Hit(guess, answer, i) then Correct
    else if Missed(guess, answer, guess[i], i) < Missed(answer, guess, guess[i], |answer|) then Present
    else Wrong
  }

  function Marks(guess: string, answer: string): seq<Tile>
    requires |guess| == |answer|
  {
    seq(|guess|, i requires 0 <= i < |guess| => Tile(guess[i], Mark(guess, answer, i)))
  }

  /** The places before `k` where `s` has the letter and the other word another one. */
  function MissedPlaces(s: string, other: string, c: char, k: nat): set<nat>
    requires |s| == |other| && k <= |s|
  {
    set j: nat | j < k && s[j] == c && other[j] != c
  }

  lemma {:induction false} MissedIsPlaces(s: string, other: string, c: char, k: nat)
    requires |s| == |other| && k <= |s|
    ensures Missed(s, other, c, k) == |MissedPlaces(s, other, c, k)|
  {
    if k == 0 {
      assert MissedPlaces(s, other, c, 0) == {};
    } else {
      MissedIsPlaces(s, other, c, k - 1);
      var before := MissedPlaces(s, other, c, k - 1);
      assert MissedPlaces(s, other, c, k) == if s[k - 1] == c && other[k - 1] != c then before + {k - 1} else before;
    }
  }

  /** Every tile keeps its letter.  It is correct exactly where the words agree; present where they do not and
      fewer places before it miss the letter than places of the answer do; and wrong everywhere else. */
  lemma MarksMean(guess: string, answer: string, i: nat)
    requires |guess| == |answer| && i < |guess|
    ensures |Marks(guess, answer)| == |guess| && Marks(guess, answer)[i].letter == guess[i]
    ensures Marks(guess, answer)[i].state == Correct <==> guess[i] == answer[i]
    ensures Marks(guess, answer)[i].state == Present <==>
              && guess[i] != answer[i]
              && |MissedPlaces(guess, answer, guess[i], i)| < |MissedPlaces(answer, guess, guess[i], |answer|)|
    ensures Marks(guess, answer)[i].state in {Correct, Present, Wrong}
  {
    MissedIsPlaces(guess, answer, guess[i], i);
    MissedIsPlaces(answer, guess, guess[i], |answer|);
  }

  // ---------- the two passes ----------

  function IndexOf(s: seq<char>, c: char, k: nat): nat
    requires k <= |s|
    decreases |s| - k
  {
    if k == |s| || s[k] == c then k else IndexOf(s, c, k + 1)
  }

  lemma {:induction false} IndexOfExact(s: seq<char>, c: char, k: nat)
    requires k <= |s|
    ensures k <= IndexOf(s, c, k) <= |s| && (IndexOf(s, c, k) < |s| ==> s[IndexOf(s, c, k)] == c)
    ensures IndexOf(s, c, k) == |s| <==> c !in s[k..]
    decreases |s| - k
  {
    if k < |s| && s[k] != c {
      IndexOfExact(s, c, k + 1);
      assert s[k..] == [s[k]] + s[k + 1..];
    }
  }

  /** What is left when one letter is spliced out. */
  function Splice(s: seq<char>, i: nat): seq<char>
    requires i < |s|
  {
    s[..i] + s[i + 1..]
  }

  lemma SpliceTakesOne(s: seq<char>, i: nat)
    requires i < |s|
    ensures multiset(Splice(s, i)) == multiset(s) - multiset{s[i]}
  {
    assert s == s[..i] + [s[i]] + s[i + 1..];
  }

  /** What is left of the answer holds each letter as often as given. */
  ghost predicate Left(remaining: seq<char>, guess: string, answer: string, matched: nat, marked: nat)
    requires |guess| == |answer| && matched <= |guess| && marked <= |guess|
  {
    forall c :: multiset(remaining)[c] ==
                Count(answer, c, |answer|) - Hits(guess, answer, c, matched) - Presents(guess, answer, c, marked)
  }

  /** How many of the first `k` places are marked as present for letter `c`. */
  function Presents(guess: string, answer: string, c: char, k: nat): nat
    requires |guess| == |answer| && k <= |guess|
  {
    if k == 0 then 0
    else Presents(guess, answer, c, k - 1) + if guess[k - 1] == c && Mark(guess, answer, k - 1) == Present then 1 else 0
  }

  lemma {:induction false} CountIsMultiset(s: string, c: char, k: nat)
    requires k <= |s|
    ensures Count(s, c, k) == multiset(s[..k])[c]
  {
    if k > 0 {
      CountIsMultiset(s, c, k - 1);
      assert s[..k] == s[..k - 1] + [s[k - 1]];
    }
  }

  /** An occurrence in a word is matched in place or missed. */
  lemma {:induction false} HitOrMissed(s: string, other: string, c: char, k: nat)
    requires |s| == |other| && k <= |s|
    ensures Count(s, c, k) == Hits(s, other, c, k) + Missed(s, other, c, k)
  {
    if k > 0 {
      HitOrMissed(s, other, c, k - 1);
    }
  }

  lemma {:induction false} HitsAreShared(guess: string, answer: string, c: char, k: nat)
    requires |guess| == |answer| && k <= |guess|
    ensures Hits(guess, answer, c, k) == Hits(answer, guess, c, k)
  {
    if k > 0 {
      HitsAreShared(guess, answer, c, k - 1);
    }
  }

  lemma {:induction false} HitsGrow(guess: string, answer: string, c: char, j: nat, k: nat)
    requires |guess| == |answer| && j <= k <= |guess|
    ensures Hits(guess, answer, c, j) <= Hits(guess, answer, c, k)
  {
    if j < k {
      HitsGrow(guess, answer, c, j, k - 1);
    }
  }

  function Min(a: int, b: int): int {
    if a < b then a else b
  }

  /** The present marks go to the first missed occurrences, as many as the answer has for them. */
  lemma {:induction false} PresentsAreFirst(guess: string, answer: string, c: char, k: nat)
    requires |guess| == |answer| && k <= |guess|
    ensures Presents(guess, answer, c, k) == Min(Missed(guess, answer, c, k), Missed(answer, guess, c, |answer|))
  {
    if k > 0 {
      PresentsAreFirst(guess, answer, c, k - 1);
    }
  }

  /** For each letter, the correct and present marks together are as many as both words have. */
  lemma MarksPerLetter(guess: string, answer: string, c: char)
    requires |guess| == |answer|
    ensures var n := |guess|;
            Hits(guess, answer, c, n) + Presents(guess, answer, c, n) == Min(Count(guess, c, n), Count(answer, c, n))
  {
    var n := |guess|;
    PresentsAreFirst(guess, answer, c, n);
    HitOrMissed(guess, answer, c, n);
    HitOrMissed(answer, guess, c, n);
    HitsAreShared(guess, answer, c, n);
  }

  /** A letter that is still needed in the first pass is still there. */
  lemma HitIsLeft(remaining: seq<char>, guess: string, answer: string, i: nat)
    requires |guess| == |answer| && i < |guess| && Hit(guess, answer, i)
    requires Left(remaining, guess, answer, i, 0)
    ensures answer[i] in remaining
  {
    var c := answer[i];
    HitsGrow(guess, answer, c, i + 1, |guess|);
    HitOrMissed(answer, guess, c, |answer|);
    HitsAreShared(guess, answer, c, |answer|);
    assert multiset(remaining)[c] > 0;
  }

  /** In the second pass, the letter is left exactly when the mark is present. */
  lemma PresentIsLeft(remaining: seq<char>, guess: string, answer: string, i: nat)
    requires |guess| == |answer| && i < |guess| && !Hit(guess, answer, i)
    requires Left(remaining, guess, answer, |guess|, i)
    ensures guess[i] in remaining <==> Mark(guess, answer, i) == Present
  {
    var c := guess[i];
    PresentsAreFirst(guess, answer, c, i);
    HitOrMissed(answer, guess, c, |answer|);
    HitsAreShared(guess, answer, c, |answer|);
    assert c in remaining <==> multiset(remaining)[c] > 0;
  }

  /** Taking the letter of a present mark, and nothing otherwise, keeps track of what is left. */
  lemma LeftNext(remaining: seq<char>, rest: seq<char>, guess: string, answer: string, i: nat)
    requires |guess| == |answer| && i < |guess|
    requires Left(remaining, guess, answer, |guess|, i)
    requires multiset(rest) == if Mark(guess, answer, i) == Present then multiset(remaining) - multiset{guess[i]}
                               else multiset(remaining)
    requires Mark(guess, answer, i) == Present ==> guess[i] in remaining
    ensures Left(rest, guess, answer, |guess|, i + 1)
  {
  }

  /** The tiles once the first `i` have their marks. */
  function Merged(marks: seq<Tile>, correct: seq<Tile>, i: nat): seq<Tile>
    requires |marks| == |correct| && i <= |marks|
  {
    marks[..i] + correct[i..]
  }

  lemma MergedNext(marks: seq<Tile>, correct: seq<Tile>, i: nat, tiles: seq<Tile>)
    requires |marks| == |correct| && i < |marks|
    requires tiles == Merged(marks, correct, i)
    ensures tiles[i] == correct[i] && tiles[i := marks[i]] == Merged(marks, correct, i + 1)
  {
  }

  /** Splices the first occurrence of `c` out, if there is one. */
  method TakeLetter(remaining: seq<char>, c: char) returns (found: bool, rest: seq<char>)
    ensures found <==> c in remaining
    ensures multiset(rest) == multiset(remaining) - multiset{c}
  {
    var at := IndexOf(remaining, c, 0);
    IndexOfExact(remaining, c, 0);
    assert remaining[0..] == remaining;
    if at == |remaining| {
      return false, remaining;
    }
    SpliceTakesOne(remaining, at);
    return true, Splice(remaining, at);
  }

  /** So does taking the letter of a hit, and nothing otherwise, in the first pass. */
  lemma LeftNextHit(remaining: seq<char>, rest: seq<char>, guess: string, answer: string, i: nat)
    requires |guess| == |answer| && i < |guess|
    requires Left(remaining, guess, answer, i, 0)
    requires multiset(rest)
          == if Hit(guess, answer, i) then multiset(remaining) - multiset{guess[i]} else multiset(remaining)
    requires Hit(guess, answer, i) ==> guess[i] in remaining
    ensures Left(rest, guess, answer, i + 1, 0)
  {
  }

  lemma NothingTaken(guess: string, answer: string)
    requires |guess| == |answer|
    ensures Left(answer, guess, answer, 0, 0)
  {
    forall c ensures multiset(answer)[c] == Count(answer, c, |answer|) {
      CountIsMultiset(answer, c, |answer|);
      assert answer[..|answer|] == answer;
    }
  }

  /** The tile of a letter after the first pass. */
  method FirstMark(guess: string, answer: string, i: nat, remaining: seq<char>) returns (tile: Tile, rest: seq<char>)
    requires |guess| == |answer| && i < |guess| && Left(remaining, guess, answer, i, 0)
    ensures tile == Tile(guess[i], if Hit(guess, answer, i) then Correct else Empty)
    ensures Left(rest, guess, answer, i + 1, 0)
  {
    if guess[i] == answer[i] {
      tile := Tile(guess[i], Correct);
      HitIsLeft(remaining, guess, answer, i);
      var found;
      found, rest := TakeLetter(remaining, answer[i]);
    } else {
      tile, rest := Tile(guess[i], Empty), remaining;
    }
    LeftNextHit(remaining, rest, guess, answer, i);
  }

  /** The first pass marks the hits and takes their letters from the answer. */
  method MarkCorrect(guess: string, answer: string) returns (tiles: seq<Tile>, remaining: seq<char>)
    requires |guess| == |answer|
    ensures |tiles| == |guess|
    ensures forall i :: 0 <= i < |guess| ==>
                tiles[i] == Tile(guess[i], if Hit(guess, answer, i) then Correct else Empty)
    ensures Left(remaining, guess, answer, |guess|, 0)
  {
    tiles, remaining := [], answer;
    NothingTaken(guess, answer);
    var i := 0;
    while i < |guess|
      invariant 0 <= i <= |guess| && |tiles| == i
      invariant forall j :: 0 <= j < i ==> tiles[j] == Tile(guess[j], if Hit(guess, answer, j) then Correct else Empty)
      invariant Left(remaining, guess, answer, i, 0)
    {
      var tile, rest := FirstMark(guess, answer, i, remaining);
      tiles, remaining := tiles + [tile], rest;
      i := i + 1;
    }
  }

  /** The mark of one tile in the second pass, and what it leaves of the answer. */
  method MarkTile(guess: string, answer: string, i: nat, tile: Tile, remaining: seq<char>)
    returns (marked: Tile, rest: seq<char>)
    requires |guess| == |answer| && i < |guess|
    requires tile == Tile(guess[i], if Hit(guess, answer, i) then Correct else Empty)
    requires Left(remaining, guess, answer, |guess|, i)
    ensures marked == Tile(guess[i], Mark(guess, answer, i))
    ensures Left(rest, guess, answer, |guess|, i + 1)
  {
    if tile.state == Correct {
      LeftNext(remaining, remaining, guess, answer, i);
      return tile, remaining;
    }
    PresentIsLeft(remaining, guess, answer, i);
    var found;
    found, rest := TakeLetter(remaining, tile.letter);
    LeftNext(remaining, rest, guess, answer, i);
    marked := Tile(tile.letter, if found then Present else Wrong);
  }

  /** The second pass marks the rest from left to right, taking letters while there are any. */
  method MarkPresent(guess: string, answer: string, correct: seq<Tile>, left: seq<char>) returns (tiles: seq<Tile>)
    requires |guess| == |answer| == |correct|
    requires forall i :: 0 <= i < |guess| ==>
                correct[i] == Tile(guess[i], if Hit(guess, answer, i) then Correct else Empty)
    requires Left(left, guess, answer, |guess|, 0)
    ensures tiles == Marks(guess, answer)
  {
    tiles := correct;
    var remaining := left;
    ghost var marks := Marks(guess, answer);
    var i := 0;
    while i < |guess|
      invariant 0 <= i <= |guess|
      invariant tiles == Merged(marks, correct, i)
      invariant Left(remaining, guess, answer, |guess|, i)
    {
      MergedNext(marks, correct, i, tiles);
      var marked, rest := MarkTile(guess, answer, i, tiles[i], remaining);
      assert marked == marks[i];
      tiles, remaining := tiles[i := marked], rest;
      i := i + 1;
    }
  }

  /** Words of another length are refused; any other guess gets its marks. */
  method EvaluateGuess(guess: string, answer: string) returns (e: Evaluation)
    ensures |guess| != WORD_LENGTH ==> e == BadGuess
    ensures |guess| == WORD_LENGTH && |answer| != WORD_LENGTH ==> e == BadAnswer
    ensures |guess| == |answer| == WORD_LENGTH ==> e == Evaluated(Marks(guess, answer))
  {
    if |guess| != WORD_LENGTH {
      return BadGuess;
    }
    if |answer| != WORD_LENGTH {
      return BadAnswer;
    }
    var correct, remaining := MarkCorrect(guess, answer);
    var tiles := MarkPresent(guess, answer, correct, remaining);
    e := Evaluated(tiles);
  }

  // ---------- the game ----------

  /** The letters of a guess. */
  function Letters(word: seq<Tile>): string {
    seq(|word|, i requires 0 <= i < |word| => word[i].letter)
  }

  /** Waiting before the first guess, solved once some guess was the answer, failed after the last try. */
  method GetGameState(guesses: seq<seq<Tile>>, answer: string) returns (phase: GamePhase)
    ensures phase == Waiting <==> guesses == []
    ensures phase == Solved <==> exists g :: g in guesses && Letters(g) == answer
    ensures phase == FailedGame <==> |guesses| >= MAX_TRIES && forall g :: g in guesses ==> Letters(g) != answer
  {
    if |guesses| == 0 {
      return Waiting;
    }
    if exists i :: 0 <= i < |guesses| && Letters(guesses[i]) == answer {
      return Solved;
    }
    return if |guesses| >= MAX_TRIES then FailedGame else InPlay;
  }

  predicate AllCorrect(word: seq<Tile>) {
    forall i :: 0 <= i < |word| ==> word[i].state == Correct
  }

  /** The evaluation of a guess is all correct exactly when the guess is the answer. */
  lemma AllCorrectIsTheAnswer(guess: string, answer: string)
    requires |guess| == |answer|
    ensures Letters(Marks(guess, answer)) == guess
    ensures AllCorrect(Marks(guess, answer)) <==> guess == answer
  {
    if AllCorrect(Marks(guess, answer)) {
      forall i | 0 <= i < |guess| ensures guess[i] == answer[i] {
        assert Marks(guess, answer)[i].state == Correct;
      }
    }
  }

  /** A game of evaluated guesses is solved exactly when some guess came back all correct. */
  lemma SolvedIffSomeAllCorrect(words: seq<string>, guesses: seq<seq<Tile>>, answer: string)
    requires |words| == |guesses| && forall k :: 0 <= k < |words| ==> |words[k]| == |answer|
    requires forall k :: 0 <= k < |words| ==> guesses[k] == Marks(words[k], answer)
    ensures (exists g :: g in guesses && Letters(g) == answer) <==> exists g :: g in guesses && AllCorrect(g)
  {
    forall k | 0 <= k < |words| ensures Letters(guesses[k]) == answer <==> AllCorrect(guesses[k]) {
      AllCorrectIsTheAnswer(words[k], answer);
    }
  }
}
