/**
 * One play-through of a category (src/components/game-screen.tsx): a shuffled
 * copy of the category's words, a cursor, the two tallies and the end flag,
 * the handlers that update them and the choice of what the screen shows.
 */
module GameScreen {
  import opened Wrappers
  import opened Records

  datatype Outcome = Correct | Wrong

  // ---------------------------------------------------------------------
  // The shuffle. `[...words].sort(() => Math.random() - 0.5)` sorts a copy
  // with a random comparator; the random numbers are the parameter `draws`.
  // Each draw picks which of the remaining words comes next.
  // ---------------------------------------------------------------------

  function RemoveAt(s: seq<string>, k: nat): (r: seq<string>)
    requires k < |s|
    ensures |r| == |s| - 1
    ensures multiset(s) == multiset(r) + multiset{s[k]}
  {
    assert s == s[..k] + [s[k]] + s[k + 1..];
    s[..k] + s[k + 1..]
  }

  /** The order the draws produce: always a rearrangement of `pool`, with
      every word kept as often as it occurs. `pool` itself is a value and
      is left as it was. */
  function PickOrder(pool: seq<string>, draws: seq<nat>): (r: seq<string>)
    ensures |r| == |pool|
    ensures multiset(r) == multiset(pool)
    decreases |pool|
  {
    if |pool| == 0 then []
    else
      var k := (if draws == [] then 0 else draws[0]) % |pool|;
      [pool[k]] + PickOrder(RemoveAt(pool, k), if draws == [] then [] else draws[1..])
  }

  function IndexOf(s: seq<string>, x: string): (k: nat)
    requires x in s
    ensures k < |s| && s[k] == x
  {
    if s[0] == x then 0 else 1 + IndexOf(s[1..], x)
  }

  /** Taking a word that occurs in `p` out of both sides keeps two
      rearrangements of each other rearrangements of each other. */
  lemma RemoveFirst(pool: seq<string>, p: seq<string>)
    requires |p| > 0 && multiset(p) == multiset(pool)
    ensures p[0] in pool
    ensures multiset(p[1..]) == multiset(RemoveAt(pool, IndexOf(pool, p[0])))
  {
    assert p == [p[0]] + p[1..];
    assert p[0] in multiset(pool);
    var k := IndexOf(pool, p[0]);
    assert multiset(p[1..]) == multiset(p) - multiset{p[0]};
    assert multiset(RemoveAt(pool, k)) == multiset(pool) - multiset{pool[k]};
  }

  /** The draws that make PickOrder yield the rearrangement `p`. */
  function DrawsFor(pool: seq<string>, p: seq<string>): (d: seq<nat>)
    requires multiset(p) == multiset(pool)
    ensures |d| == |p|
    decreases |pool|
  {
    if |p| == 0 then []
    else
      RemoveFirst(pool, p);
      var k := IndexOf(pool, p[0]);
      [k] + DrawsFor(RemoveAt(pool, k), p[1..])
  }

  lemma SmallMod(k: nat, n: nat)
    requires k < n
    ensures k % n == k
  {
  }

  /** Every rearrangement of the words can come out of the shuffle, so the
      model covers whatever order the random comparator happens to give. */
  lemma {:induction false} PickOrderReaches(pool: seq<string>, p: seq<string>)
    requires multiset(p) == multiset(pool)
    ensures PickOrder(pool, DrawsFor(pool, p)) == p
    decreases |pool|
  {
    if |p| > 0 {
      RemoveFirst(pool, p);
      var k := IndexOf(pool, p[0]);
      var rest := DrawsFor(RemoveAt(pool, k), p[1..]);
      var d := DrawsFor(pool, p);
      assert d == [k] + rest;
      assert d[0] == k && d[1..] == rest;
      SmallMod(k, |pool|);
      PickOrderReaches(RemoveAt(pool, k), p[1..]);
      assert PickOrder(pool, d) == [pool[k]] + PickOrder(RemoveAt(pool, k), rest);
    }
  }

  lemma ShuffleIsAnyPermutation(pool: seq<string>, p: seq<string>)
    ensures (exists draws :: PickOrder(pool, draws) == p) <==> multiset(p) == multiset(pool)
  {
    if multiset(p) == multiset(pool) {
      PickOrderReaches(pool, p);
    }
  }

  // ---------------------------------------------------------------------
  // The session as a value, and the rules that change it.
  // ---------------------------------------------------------------------

  datatype Session = Session(
    shuffledWords: seq<string>,
    currentIndex: nat,
    correct: nat,
    wrong: nat,
    gameEnded: bool)

  /** The `useState` initial values: no words until the mount effect runs. */
  const Initial := Session([], 0, 0, 0, false)

  /** `nextWord`: the cursor only moves while a word is left after it. */
  function Next(s: Session): Session {
    if s.currentIndex + 1 >= |s.shuffledWords| then s.(gameEnded := true)
    else s.(currentIndex := s.currentIndex + 1)
  }

  /** `handleCorrect` / `handleWrong`: bump one tally, then `nextWord`. */
  function Judged(s: Session, o: Outcome): Session {
    match o
    case Correct => Next(s.(correct := s.correct + 1))
    case Wrong => Next(s.(wrong := s.wrong + 1))
  }

  /** The mount effect: the words become a shuffled copy of the source. */
  function Mounted(s: Session, source: seq<string>, draws: seq<nat>): Session {
    s.(shuffledWords := PickOrder(source, draws))
  }

  /** `restartGame`: a new shuffle and every counter back to its start. */
  function Restarted(source: seq<string>, draws: seq<nat>): Session {
    Session(PickOrder(source, draws), 0, 0, 0, false)
  }

  /** Applies the judgments one after the other. */
  function Run(s: Session, os: seq<Outcome>): Session
    decreases |os|
  {
    if os == [] then s else Run(Judged(s, os[0]), os[1..])
  }

  /** What the game screen renders. `word` is `shuffledWords[currentIndex]`,
      which JavaScript reads as `undefined` when out of range. */
  datatype Screen =
    | Loading
    | Summary(correct: nat, wrong: nat, total: nat)
    | Playing(word: Option<string>, position: nat, total: nat, correct: nat, wrong: nat)

  function ScreenOf(s: Session): Screen {
    if |s.shuffledWords| == 0 then Loading
    else if s.gameEnded then Summary(s.correct, s.wrong, |s.shuffledWords|)
    else
      Playing(
        if s.currentIndex < |s.shuffledWords| then Some(s.shuffledWords[s.currentIndex]) else None,
        s.currentIndex + 1, |s.shuffledWords|, s.correct, s.wrong)
  }

  /** What holds of every session reachable through the screen: before the
      shuffle nothing has happened; after it the words are a rearrangement
      of the source, the cursor is on a word, and every judged word is
      counted exactly once. On the last word the cursor stays where it is
      and only the end flag records that word. */
  predicate Inv(s: Session, source: seq<string>) {
    if s.shuffledWords == [] then
      s.currentIndex == 0 && s.correct == 0 && s.wrong == 0 && !s.gameEnded
    else
      multiset(s.shuffledWords) == multiset(source) &&
      s.currentIndex < |s.shuffledWords| &&
      s.correct + s.wrong == s.currentIndex + (if s.gameEnded then 1 else 0)
  }

  // ---------------------------------------------------------------------
  // Properties of the rules.
  // ---------------------------------------------------------------------

  /** The shuffle on mount leaves a valid session; the screen stays on
      "Loading" exactly when the category has no words. */
  lemma MountedValid(source: seq<string>, draws: seq<nat>)
    ensures Inv(Mounted(Initial, source, draws), source)
    ensures ScreenOf(Mounted(Initial, source, draws)).Loading? <==> source == []
    ensures source != [] ==> ScreenOf(Mounted(Initial, source, draws)).Playing?
  {
  }

  /** One judgment from the playing screen: the matching tally goes up by
      one and the other stays; the cursor moves on unless this was the last
      word, in which case the game ends with the cursor where it was. The
      invariant is kept. */
  lemma JudgedStep(s: Session, source: seq<string>, o: Outcome)
    requires Inv(s, source) && ScreenOf(s).Playing?
    ensures var t := Judged(s, o);
      Inv(t, source) &&
      t.shuffledWords == s.shuffledWords &&
      (o == Correct ==> t.correct == s.correct + 1 && t.wrong == s.wrong) &&
      (o == Wrong ==> t.wrong == s.wrong + 1 && t.correct == s.correct) &&
      (if s.currentIndex + 1 >= |s.shuffledWords|
       then t.gameEnded && t.currentIndex == s.currentIndex
       else !t.gameEnded && t.currentIndex == s.currentIndex + 1)
  {
  }

  /** While playing, the word shown is the one under the cursor, and the
      progress "position / total" never passes the total. */
  lemma PlayingShowsCurrentWord(s: Session, source: seq<string>)
    requires Inv(s, source) && ScreenOf(s).Playing?
    ensures ScreenOf(s).word == Some(s.shuffledWords[s.currentIndex])
    ensures 1 <= ScreenOf(s).position == s.currentIndex + 1 <= ScreenOf(s).total == |s.shuffledWords|
  {
  }

  /** Fewer judgments than words are left: the game is still playing, the
      cursor has moved by one per judgment, and the tallies count them. */
  lemma {:induction false} RunPlaying(s: Session, source: seq<string>, os: seq<Outcome>)
    requires Inv(s, source) && ScreenOf(s).Playing?
    requires |os| < |s.shuffledWords| - s.currentIndex
    ensures var t := Run(s, os);
      Inv(t, source) && ScreenOf(t).Playing? &&
      t.shuffledWords == s.shuffledWords &&
      t.currentIndex == s.currentIndex + |os| &&
      t.correct == s.correct + multiset(os)[Correct] &&
      t.wrong == s.wrong + multiset(os)[Wrong]
    decreases |os|
  {
    if os != [] {
      assert os == [os[0]] + os[1..];
      JudgedStep(s, source, os[0]);
      RunPlaying(Judged(s, os[0]), source, os[1..]);
    }
  }

  /** Exactly as many judgments as words are left: the game has ended on
      the last word and the tallies count every judgment. */
  lemma {:induction false} RunToEnd(s: Session, source: seq<string>, os: seq<Outcome>)
    requires Inv(s, source) && ScreenOf(s).Playing?
    requires |os| == |s.shuffledWords| - s.currentIndex
    ensures var t := Run(s, os);
      Inv(t, source) && t.gameEnded &&
      t.shuffledWords == s.shuffledWords &&
      t.currentIndex == |s.shuffledWords| - 1 &&
      t.correct == s.correct + multiset(os)[Correct] &&
      t.wrong == s.wrong + multiset(os)[Wrong]
    decreases |os|
  {
    assert os == [os[0]] + os[1..];
    JudgedStep(s, source, os[0]);
    if |os| > 1 {
      RunToEnd(Judged(s, os[0]), source, os[1..]);
    }
  }

  /** A whole game on n >= 1 words: every one of the first n judgments is
      made from the playing screen, and after the n-th the summary shows
      tallies that add up to n, the number of shuffled words. */
  lemma PlayThrough(source: seq<string>, draws: seq<nat>, os: seq<Outcome>)
    requires |source| >= 1 && |os| == |source|
    ensures forall k :: 0 <= k < |os| ==>
      ScreenOf(Run(Mounted(Initial, source, draws), os[..k])).Playing?
    ensures var t := Run(Mounted(Initial, source, draws), os);
      t.gameEnded && t.correct + t.wrong == |source| == |t.shuffledWords| &&
      ScreenOf(t) == Summary(multiset(os)[Correct], multiset(os)[Wrong], |source|)
  {
    var s := Mounted(Initial, source, draws);
    forall k | 0 <= k < |os|
      ensures ScreenOf(Run(s, os[..k])).Playing?
    {
      RunPlaying(s, source, os[..k]);
    }
    RunToEnd(s, source, os);
    assert os == os[..|os|];
    assert multiset(os)[Correct] + multiset(os)[Wrong] == |os| by {
      OutcomeCount(os);
    }
  }

  lemma {:induction false} OutcomeCount(os: seq<Outcome>)
    ensures multiset(os)[Correct] + multiset(os)[Wrong] == |os|
  {
    if os != [] {
      assert os == [os[0]] + os[1..];
      assert multiset(os) == multiset{os[0]} + multiset(os[1..]);
      OutcomeCount(os[1..]);
      if os[0] == Correct {
        assert multiset(os)[Correct] == multiset(os[1..])[Correct] + 1;
      } else {
        assert multiset(os)[Wrong] == multiset(os[1..])[Wrong] + 1;
      }
    }
  }

  /** Which screen is rendered: "Loading" for an empty word list, the
      summary once the game has ended, the playing screen otherwise. */
  lemma ScreenChoice(s: Session)
    ensures ScreenOf(s).Loading? <==> |s.shuffledWords| == 0
    ensures ScreenOf(s).Summary? <==> |s.shuffledWords| > 0 && s.gameEnded
    ensures ScreenOf(s).Playing? <==> |s.shuffledWords| > 0 && !s.gameEnded
    ensures ScreenOf(s).Summary? ==>
      ScreenOf(s) == Summary(s.correct, s.wrong, |s.shuffledWords|)
  {
  }

  /** Restart from any state: the counters are back at zero, the game is
      not over, and the words are a fresh rearrangement of the source. */
  lemma RestartedValid(source: seq<string>, draws: seq<nat>)
    ensures var t := Restarted(source, draws);
      Inv(t, source) &&
      t.currentIndex == 0 && t.correct == 0 && t.wrong == 0 && !t.gameEnded &&
      multiset(t.shuffledWords) == multiset(source) &&
      (source != [] ==> ScreenOf(t).Playing?)
  {
  }

  // ---------------------------------------------------------------------
  // The component itself: five state cells updated by the handlers.
  // ---------------------------------------------------------------------

  class Game {
    const category: Category
    var shuffledWords: seq<string>
    var currentIndex: nat
    var correct: nat
    var wrong: nat
    var gameEnded: bool

    function State(): Session
      reads this
    {
      Session(shuffledWords, currentIndex, correct, wrong, gameEnded)
    }

    predicate Valid()
      reads this
    {
      Inv(State(), category.words)
    }

    /** The screen the component renders. */
    function Screen(): Screen
      reads this
    {
      ScreenOf(State())
    }

    constructor (category: Category)
      ensures this.category == category
      ensures State() == Initial && Valid()
      ensures Screen() == Loading
    {
      this.category := category;
      shuffledWords, currentIndex, correct, wrong, gameEnded := [], 0, 0, 0, false;
    }

    /** The mount effect: installs a shuffled copy of the category's words. */
    method ShuffleOnMount(draws: seq<nat>)
      requires Valid() && Screen() == Loading
      modifies this
      ensures State() == Mounted(old(State()), category.words, draws)
      ensures Valid()
      ensures multiset(shuffledWords) == multiset(category.words)
      ensures Screen().Loading? <==> category.words == []
    {
      shuffledWords := PickOrder(category.words, draws);
    }

    /** `nextWord`. */
    method NextWord()
      modifies this
      ensures State() == Next(old(State()))
      ensures if old(currentIndex) + 1 >= |shuffledWords|
              then gameEnded && currentIndex == old(currentIndex)
              else currentIndex == old(currentIndex) + 1 && gameEnded == old(gameEnded)
      ensures shuffledWords == old(shuffledWords) && correct == old(correct) && wrong == old(wrong)
    {
      if currentIndex + 1 >= |shuffledWords| {
        gameEnded := true;
      } else {
        currentIndex := currentIndex + 1;
      }
    }

    /** `handleCorrect`: only reachable through the button on the playing
        screen. */
    method HandleCorrect()
      requires Valid() && Screen().Playing?
      modifies this
      ensures State() == Judged(old(State()), Correct)
      ensures Valid()
      ensures correct == old(correct) + 1 && wrong == old(wrong)
      ensures shuffledWords == old(shuffledWords)
    {
      correct := correct + 1;
      NextWord();
      JudgedStep(old(State()), category.words, Correct);
    }

    /** `handleWrong`: only reachable through the button on the playing
        screen. */
    method HandleWrong()
      requires Valid() && Screen().Playing?
      modifies this
      ensures State() == Judged(old(State()), Wrong)
      ensures Valid()
      ensures wrong == old(wrong) + 1 && correct == old(correct)
      ensures shuffledWords == old(shuffledWords)
    {
      wrong := wrong + 1;
      NextWord();
      JudgedStep(old(State()), category.words, Wrong);
    }

    /** `restartGame`. */
    method RestartGame(draws: seq<nat>)
      modifies this
      ensures State() == Restarted(category.words, draws)
      ensures Valid()
      ensures currentIndex == 0 && correct == 0 && wrong == 0 && !gameEnded
      ensures multiset(shuffledWords) == multiset(category.words)
    {
      shuffledWords := PickOrder(category.words, draws);
      currentIndex := 0;
      correct := 0;
      wrong := 0;
      gameEnded := false;
    }
  }

  /** A category of three words judged correct one after the other, then a
      restart and one wrong judgment. */
  method ThreeWordGame(category: Category, draws: seq<nat>, redraws: seq<nat>)
    requires |category.words| == 3
  {
    var game := new Game(category);
    game.ShuffleOnMount(draws);
    assert |game.shuffledWords| == 3 && game.Screen().Playing?;
    game.HandleCorrect();
    assert game.currentIndex == 1 && !game.gameEnded;
    game.HandleCorrect();
    assert game.currentIndex == 2 && !game.gameEnded;
    game.HandleCorrect();
    assert game.correct == 3 && game.wrong == 0 && game.gameEnded;
    assert game.Screen() == Summary(3, 0, 3);
    game.RestartGame(redraws);
    assert |game.shuffledWords| == 3 && game.Screen().Playing?;
    game.HandleWrong();
    assert game.correct == 0 && game.wrong == 1 && game.currentIndex == 1 && !game.gameEnded;
  }
}
