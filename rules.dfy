/** The value-level rules of the game panel (GamePanel.java): its constants,
    how a round is generated from the random draws, which circle a click
    lands on, the accuracy formula and the round-timer delay. */
module Rules {
  import opened JavaInt
  import opened Geometry

  const PanelWidth := 600
  const PanelHeight := 400
  const CircleSize := 50
  const NumCircles := 5
  const SessionSeconds := 20
  const SessionTickMillis := 1000

  /** The three values the difficulty buttons store. */
  predicate IsDifficulty(s: string)
  {
    s == "Easy" || s == "Medium" || s == "Hard"
  }

  /** Round-timer period in milliseconds for a difficulty name: Easy is the
      slowest, Hard the fastest, and every other string falls back to the
      Medium period. */
  function RoundDelay(difficulty: string): (delay: int)
    ensures delay == 2500 <==> difficulty == "Easy"
    ensures delay == 1000 <==> difficulty == "Hard"
    ensures delay == 1500 <==> difficulty != "Easy" && difficulty != "Hard"
  {
    if difficulty == "Easy" then 2500
    else if difficulty == "Hard" then 1000
    else 1500
  }

  /** Accuracy in percent: 100 before any attempt, otherwise the share of
      attempts that scored, rounded down. */
  function Accuracy(score: int, totalAttempts: int): (pct: int)
    ensures totalAttempts <= 0 ==> pct == 100
    ensures totalAttempts > 0 && score >= 0 ==>
      pct * totalAttempts <= score * 100 < (pct + 1) * totalAttempts
    ensures 0 <= score <= totalAttempts ==> 0 <= pct <= 100
  {
    if totalAttempts > 0 then
      var pct := Div(score * 100, totalAttempts);
      assert 0 <= score <= totalAttempts ==> 0 <= pct <= 100 by {
        if 0 <= score <= totalAttempts {
          QuotientBounds(score * 100, totalAttempts, pct, 100);
        }
      }
      pct
    else
      100
  }

  /** A floor quotient of a numerator between 0 and m * d lies between 0 and m. */
  lemma QuotientBounds(n: int, d: int, q: int, m: int)
    requires d > 0 && 0 <= n - d * q < d
    requires 0 <= n <= m * d
    ensures 0 <= q <= m
  {
    assert d * (q + 1) == d * q + d > 0;
    assert d * (m - q) == m * d - d * q >= 0;
  }

  /** The values `java.util.Random` supplies to one call of spawnCircles: the
      target index, then one x and one y per circle. */
  datatype RoundDraw = RoundDraw(targetIndex: int, xs: seq<int>, ys: seq<int>)

  /** The ranges of `nextInt(numCircles)`, `nextInt(WIDTH - CIRCLE_SIZE)` and
      `nextInt(HEIGHT - CIRCLE_SIZE)`: the upper bounds are exclusive. */
  predicate ValidDraw(d: RoundDraw)
  {
    0 <= d.targetIndex < NumCircles &&
    |d.xs| == NumCircles && |d.ys| == NumCircles &&
    forall i :: 0 <= i < NumCircles ==>
      0 <= d.xs[i] < PanelWidth - CircleSize && 0 <= d.ys[i] < PanelHeight - CircleSize
  }

  /** A circle lies strictly inside the panel, its far edge included. */
  predicate InPanel(c: Circle)
  {
    0 <= c.x && c.x + c.size < PanelWidth && 0 <= c.y && c.y + c.size < PanelHeight
  }

  /** Number of circles flagged as the target. */
  function TargetCount(cs: seq<Circle>): nat
  {
    if cs == [] then 0 else (if cs[0].IsTarget() then 1 else 0) + TargetCount(cs[1..])
  }

  /** What a round always looks like: `NumCircles` red-or-gray circles of
      diameter `CircleSize`, all inside the panel, exactly one of them the target. */
  predicate IsRound(cs: seq<Circle>)
  {
    |cs| == NumCircles && TargetCount(cs) == 1 &&
    forall i :: 0 <= i < |cs| ==> cs[i].size == CircleSize && cs[i].WellColored() && InPanel(cs[i])
  }

  /** The round spawnCircles builds from a draw. The circles come in draw
      order; exactly the one at `targetIndex` is the target. */
  function SpawnedRound(d: RoundDraw): (round: seq<Circle>)
    requires ValidDraw(d)
    ensures IsRound(round)
    ensures forall i :: 0 <= i < |round| ==>
      round[i].x == d.xs[i] && round[i].y == d.ys[i] && (round[i].IsTarget() <==> i == d.targetIndex)
  {
    var round := seq(NumCircles, i requires 0 <= i < NumCircles =>
      NewCircle(d.xs[i], d.ys[i], CircleSize, i == d.targetIndex));
    TargetCountOfPattern(round, d.targetIndex);
    round
  }

  /** A sequence whose only target sits at position `t` has one target when
      `t` is a valid position and none otherwise. */
  lemma {:induction false} TargetCountOfPattern(cs: seq<Circle>, t: int)
    requires forall i :: 0 <= i < |cs| ==> (cs[i].IsTarget() <==> i == t)
    ensures TargetCount(cs) == if 0 <= t < |cs| then 1 else 0
  {
    if cs != [] {
      TargetCountOfPattern(cs[1..], t - 1);
    }
  }

  /** In a round no two different circles are both the target. */
  lemma {:induction false} TargetIsUnique(cs: seq<Circle>, i: int, j: int)
    requires TargetCount(cs) <= 1
    requires 0 <= i < |cs| && 0 <= j < |cs|
    requires cs[i].IsTarget() && cs[j].IsTarget()
    ensures i == j
  {
    if i != 0 && j != 0 {
      TargetIsUnique(cs[1..], i - 1, j - 1);
    } else if i != j {
      var k := if i == 0 then j else i;
      TargetAtPositionCounts(cs[1..], k - 1);
    }
  }

  /** A target anywhere in a sequence makes its target count positive. */
  lemma {:induction false} TargetAtPositionCounts(cs: seq<Circle>, k: int)
    requires 0 <= k < |cs| && cs[k].IsTarget()
    ensures TargetCount(cs) >= 1
  {
    if k > 0 {
      TargetAtPositionCounts(cs[1..], k - 1);
    }
  }

  /** The click loop's search: the index of the first circle, in list order,
      that contains the point, or -1 when none does. */
  function FirstHit(cs: seq<Circle>, px: int, py: int): (k: int)
    ensures -1 <= k < |cs|
    ensures 0 <= k ==> cs[k].ContainsPoint(px, py)
    ensures 0 <= k ==> forall j :: 0 <= j < k ==> !cs[j].ContainsPoint(px, py)
    ensures k < 0 ==> forall j :: 0 <= j < |cs| ==> !cs[j].ContainsPoint(px, py)
  {
    if cs == [] then -1
    else if cs[0].ContainsPoint(px, py) then 0
    else
      var k := FirstHit(cs[1..], px, py);
      assert forall j :: 1 <= j < |cs| ==> cs[j] == cs[1..][j - 1];
      if k < 0 then -1 else k + 1
  }

  /** Whether a click at (px, py) scores: the first circle under the point
      exists and is the target. */
  predicate TargetHit(cs: seq<Circle>, px: int, py: int)
  {
    var k := FirstHit(cs, px, py);
    0 <= k && cs[k].IsTarget()
  }

  /** Overlaps are resolved by list order: when the target is the only target
      (as in every round, see TargetIsUnique), a decoy listed before it and
      also under the point takes the click, so the click does not score. */
  lemma DecoyShadowsTarget(cs: seq<Circle>, i: int, j: int, px: int, py: int)
    requires 0 <= i < j < |cs|
    requires forall k :: 0 <= k < |cs| && cs[k].IsTarget() ==> k == j
    requires cs[i].ContainsPoint(px, py)
    ensures !TargetHit(cs, px, py)
  {
    var k := FirstHit(cs, px, py);
    assert 0 <= k <= i;
  }

  /** A click scores exactly when it lands on a target and on no circle
      listed before it. This holds for every list of circles, not only for
      rounds. */
  lemma TargetHitIff(cs: seq<Circle>, px: int, py: int)
    ensures TargetHit(cs, px, py) <==>
      exists t :: 0 <= t < |cs| && cs[t].IsTarget() && cs[t].ContainsPoint(px, py) &&
        forall j :: 0 <= j < t ==> !cs[j].ContainsPoint(px, py)
  {
    var k := FirstHit(cs, px, py);
    if TargetHit(cs, px, py) {
      assert cs[k].IsTarget() && cs[k].ContainsPoint(px, py);
    }
  }

  /** Every point that hits a circle lying inside the panel (every circle of
      a round does) is itself inside the panel, so a click outside the panel
      can never hit. */
  lemma HitLiesInPanel(c: Circle, px: int, py: int)
    requires InPanel(c) && c.size >= 0
    requires c.ContainsPoint(px, py)
    ensures 0 <= px < PanelWidth && 0 <= py < PanelHeight
  {
    HitWithinFootprint(c, px, py);
  }

  /** For a circle inside the panel and a click whose coordinates are within
      30000 of the origin, the squared distance and squared radius computed
      by the hit test stay below 2^31, so Java's 32-bit arithmetic cannot wrap. */
  lemma NoOverflowInHitTest(c: Circle, px: int, py: int)
    requires InPanel(c) && c.size >= 0
    requires Abs(px) <= 30000 && Abs(py) <= 30000
    ensures 0 <= c.DistSq(px, py) < 0x8000_0000
    ensures 0 <= c.RadiusSq() < 0x8000_0000
  {
    var dx, dy := Abs(px - c.CenterX()), Abs(py - c.CenterY());
    assert dx <= 30600 && dy <= 30600;
    SquareMonotone(dx, 30600);
    SquareMonotone(dy, 30600);
    assert c.DistSq(px, py) == dx * dx + dy * dy;
    SquareMonotone(c.Radius(), 300);
  }
}
