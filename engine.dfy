/** The round/session engine: the state the game panel (GamePanel.java) and
    the window's score counter and difficulty selection (GameWindow.java)
    update in place, with one method per event handler. Swing delivers timer
    firings and clicks one at a time on its event thread, so each is a plain
    method call here; the random values a round needs come in as a RoundDraw. */
module Engine {
  import opened Geometry
  import opened Rules

  class Game {
    // GamePanel's state
    var gameRunning: bool
    var timeLeft: int
    var misses: int
    var totalAttempts: int
    var recentlyClicked: bool
    var circles: seq<Circle>
    // the two Swing timers: whether each is started, and the round timer's period
    var gameTimerRunning: bool
    var roundTimerRunning: bool
    var roundTimerDelay: int
    // GameWindow's state
    var score: int
    var selectedDifficulty: string

    /** The engine invariant: counters are never negative, both timers run
        exactly while a game runs, a running game has time left and a full
        round on screen, an ended game shows nothing, and the difficulty is
        one of the three button values. */
    ghost predicate Valid()
      reads this
    {
      0 <= score && 0 <= misses && 0 <= totalAttempts &&
      0 <= timeLeft <= SessionSeconds &&
      gameTimerRunning == gameRunning && roundTimerRunning == gameRunning &&
      (gameRunning ==> 0 < timeLeft && IsRound(circles) && roundTimerDelay in {1000, 1500, 2500}) &&
      (!gameRunning ==> circles == []) &&
      IsDifficulty(selectedDifficulty)
    }

    /** Every attempt is either a scoring hit or a miss. */
    predicate Balanced()
      reads this
    {
      score + misses == totalAttempts
    }

    /** The state right after the window and its panel are built: no game, no
        timers, no circles, all counters zero and Medium selected. */
    constructor ()
      ensures Valid() && Balanced()
      ensures !gameRunning && !gameTimerRunning && !roundTimerRunning
      ensures timeLeft == SessionSeconds && misses == 0 && totalAttempts == 0 && score == 0
      ensures !recentlyClicked && circles == []
      ensures selectedDifficulty == "Medium"
    {
      gameRunning, timeLeft, misses, totalAttempts := false, SessionSeconds, 0, 0;
      recentlyClicked, circles := false, [];
      gameTimerRunning, roundTimerRunning, roundTimerDelay := false, false, 0;
      score, selectedDifficulty := 0, "Medium";
    }

    /** One point more for a target hit. */
    method UpdateScore()
      modifies this`score
      ensures score == old(score) + 1
    {
      score := score + 1;
    }

    /** Back to zero before a new game. */
    method ResetScore()
      modifies this`score
      ensures score == 0
    {
      score := 0;
    }

    method GetScore() returns (s: int)
      ensures s == score
    {
      s := score;
    }

    /** The three difficulty buttons. */
    method SelectEasy()
      modifies this`selectedDifficulty
      ensures selectedDifficulty == "Easy"
    {
      selectedDifficulty := "Easy";
    }

    method SelectMedium()
      modifies this`selectedDifficulty
      ensures selectedDifficulty == "Medium"
    {
      selectedDifficulty := "Medium";
    }

    method SelectHard()
      modifies this`selectedDifficulty
      ensures selectedDifficulty == "Hard"
    {
      selectedDifficulty := "Hard";
    }

    method GetSelectedDifficulty() returns (d: string)
      ensures d == selectedDifficulty
    {
      d := selectedDifficulty;
    }

    /** The accuracy the stats label shows; between 0 and 100 whenever the
        counters are consistent. */
    method UpdateStats() returns (accuracy: int)
      ensures accuracy == Accuracy(score, totalAttempts)
      ensures 0 <= score <= totalAttempts ==> 0 <= accuracy <= 100
      ensures totalAttempts == 0 ==> accuracy == 100
    {
      var s := GetScore();
      accuracy := Accuracy(s, totalAttempts);
    }

    /** Replaces the round: clears the list, then appends `NumCircles`
        circles in draw order, the one at the drawn index being the target. */
    method SpawnCircles(d: RoundDraw)
      requires ValidDraw(d)
      modifies this`circles
      ensures circles == SpawnedRound(d)
      ensures IsRound(circles)
    {
      circles := [];
      var targetIndex := d.targetIndex;
      for i := 0 to NumCircles
        invariant circles == SpawnedRound(d)[..i]
      {
        var isTarget := i == targetIndex;
        circles := circles + [NewCircle(d.xs[i], d.ys[i], CircleSize, isTarget)];
      }
    }

    /** Stops the game: both timers stop and the circles are cleared. */
    method EndGame()
      modifies this`gameRunning, this`gameTimerRunning, this`roundTimerRunning, this`circles
      ensures !gameRunning && !gameTimerRunning && !roundTimerRunning
      ensures circles == []
    {
      gameRunning := false;
      roundTimerRunning := false;
      gameTimerRunning := false;
      circles := [];
    }

    /** Starts (or restarts) a game: stops any running timers, resets the
        panel's counters, starts the round timer at the selected difficulty's
        period and the session timer, and spawns the first round. The score
        and the recently-clicked flag are left as they are. */
    method StartGame(d: RoundDraw)
      requires Valid() && ValidDraw(d)
      modifies this
      ensures Valid()
      ensures gameRunning && timeLeft == SessionSeconds && misses == 0 && totalAttempts == 0
      ensures circles == SpawnedRound(d)
      ensures gameTimerRunning && roundTimerRunning
      ensures roundTimerDelay == RoundDelay(selectedDifficulty)
      ensures score == old(score) && recentlyClicked == old(recentlyClicked)
      ensures selectedDifficulty == old(selectedDifficulty)
    {
      roundTimerRunning := false;
      gameTimerRunning := false;
      gameRunning := true;
      timeLeft := SessionSeconds;
      misses := 0;
      totalAttempts := 0;
      var difficulty := GetSelectedDifficulty();
      roundTimerDelay := RoundDelay(difficulty);
      roundTimerRunning := true;
      gameTimerRunning := true;
      SpawnCircles(d);
    }

    /** The start button: the score is reset first, then the game starts, so
        every new game begins balanced at zero. */
    method StartButton(d: RoundDraw)
      requires Valid() && ValidDraw(d)
      modifies this
      ensures Valid() && Balanced()
      ensures gameRunning && timeLeft == SessionSeconds
      ensures score == 0 && misses == 0 && totalAttempts == 0
      ensures circles == SpawnedRound(d)
      ensures roundTimerDelay == RoundDelay(selectedDifficulty)
      ensures recentlyClicked == old(recentlyClicked)
      ensures selectedDifficulty == old(selectedDifficulty)
    {
      ResetScore();
      StartGame(d);
    }

    /** A firing of the round timer, which only fires while it runs. If the
        round was not cleared by a target hit since the last firing, it counts
        as a miss and a new round is spawned; either way the flag is cleared,
        so a hit suppresses exactly one timeout miss. */
    method RoundTimerTick(d: RoundDraw)
      requires Valid() && roundTimerRunning && ValidDraw(d)
      modifies this`misses, this`totalAttempts, this`circles, this`recentlyClicked
      ensures Valid()
      ensures old(!recentlyClicked && gameRunning) ==>
        misses == old(misses) + 1 && totalAttempts == old(totalAttempts) + 1 &&
        circles == SpawnedRound(d)
      ensures old(recentlyClicked || !gameRunning) ==>
        misses == old(misses) && totalAttempts == old(totalAttempts) && circles == old(circles)
      ensures !recentlyClicked
      ensures old(Balanced()) ==> Balanced()
    {
      if !recentlyClicked && gameRunning {
        misses := misses + 1;
        totalAttempts := totalAttempts + 1;
        SpawnCircles(d);
      }
      recentlyClicked := false;
    }

    /** A firing of the once-a-second session timer, which only fires while it
        runs: one second less, and the game ends when none is left. */
    method SessionTimerTick()
      requires Valid() && gameTimerRunning
      modifies this`timeLeft, this`gameRunning, this`gameTimerRunning, this`roundTimerRunning, this`circles
      ensures Valid()
      ensures timeLeft == old(timeLeft) - 1
      ensures gameRunning <==> timeLeft > 0
      ensures timeLeft <= 0 ==> !gameTimerRunning && !roundTimerRunning && circles == []
      ensures timeLeft > 0 ==> gameTimerRunning && roundTimerRunning && circles == old(circles)
    {
      timeLeft := timeLeft - 1;
      if timeLeft <= 0 {
        EndGame();
      }
    }

    /** A mouse click at (px, py). Ignored unless a game runs. Otherwise it is
        one attempt, decided by the first circle in list order that contains
        the point: the target scores, sets the flag and brings a new round; a
        decoy or empty space is a miss and leaves the round as it is. */
    method MouseClicked(px: int, py: int, d: RoundDraw)
      requires Valid() && ValidDraw(d)
      modifies this`score, this`misses, this`totalAttempts, this`recentlyClicked, this`circles
      ensures Valid()
      ensures !old(gameRunning) ==> unchanged(this)
      ensures old(gameRunning) ==> totalAttempts == old(totalAttempts) + 1
      ensures old(gameRunning) && TargetHit(old(circles), px, py) ==>
        score == old(score) + 1 && misses == old(misses) &&
        recentlyClicked && circles == SpawnedRound(d)
      ensures old(gameRunning) && !TargetHit(old(circles), px, py) ==>
        score == old(score) && misses == old(misses) + 1 &&
        recentlyClicked == old(recentlyClicked) && circles == old(circles)
      ensures old(Balanced()) ==> Balanced()
    {
      if !gameRunning {
        return;
      }
      var hit := false;
      var cs := circles;
      var i := 0;
      while i < |cs|
        invariant 0 <= i <= |cs|
        invariant forall j :: 0 <= j < i ==> !cs[j].ContainsPoint(px, py)
        invariant !hit && unchanged(this)
      {
        if cs[i].ContainsPoint(px, py) {
          assert FirstHit(cs, px, py) == i;
          hit := true;
          totalAttempts := totalAttempts + 1;
          if cs[i].IsTarget() {
            UpdateScore();
            recentlyClicked := true;
            SpawnCircles(d);
          } else {
            misses := misses + 1;
          }
          break;
        }
        i := i + 1;
      }
      if !hit {
        assert FirstHit(cs, px, py) == -1;
        misses := misses + 1;
        totalAttempts := totalAttempts + 1;
      }
    }
  }
}
