# Reflex Rush: the round/session engine, modelled in Dafny

The game shows five circles on a 600×400 panel. One circle is red: that is the target. The player must click it before the
round timer fires. Each round-timer firing without a target hit counts as a miss and brings a
new round. A once-a-second session timer counts 20 seconds down and then ends
the game. A click on the target scores and brings a new round at once. A click on a gray decoy, or on empty
space, is a miss. The panel shows the misses and the accuracy. The window holds the score
and the selected difficulty, which sets the round timer's period.

The model has four modules:

- `JavaInt` (`java_int.dfy`): Java's integer division. It truncates toward zero, which
  matters for odd and negative diameters.
- `Geometry` (`geometry.dfy`): `Circle.java`. A circle is an immutable datatype
  with its corner, diameter, colour and target flag. It has the integer
  point-in-circle test and the lemmas about that test.
- `Rules` (`rules.dfy`): the value-level rules of `GamePanel.java`:
  - the panel constants;
  - the round built from the random draws (`SpawnedRound`);
  - the first circle under a click (`FirstHit`);
  - the accuracy formula;
  - the difficulty-to-delay mapping.
- `Engine` (`engine.dfy`): one class `Game` holding every counter of the panel and of the window. Each
  event handler is a method that changes the fields in place:
  - the start button and `startGame`;
  - the round-timer and session-timer firings;
  - the click handler;
  - `spawnCircles` and `endGame`;
  - the score methods and the difficulty buttons.

  `Valid()` is the class invariant and `Balanced()` states
  `score + misses == totalAttempts`.

Swing delivers timer firings and clicks one at a time on its event thread, so each
event is one method call. The values `java.util.Random` would supply come in as a
`RoundDraw`: the target index, then one x and one y per circle. `ValidDraw` states
the ranges that `nextInt` guarantees. A Swing timer is modelled by a boolean that
says whether it is started. A timer that is stopped delivers no firings, so each
tick method requires its timer to be running. `Valid()` proves that both timers
run exactly while `gameRunning` holds.

The model keeps these details of the code:
- A circle of diameter 0 contains its own corner (`TinyCircleHoldsOnlyCorner`).
- The upper bounds for circle coordinates are exclusive, `x < 600 - 50`.
- The game ends when `timeLeft <= 0`.
- No session epoch is kept. Stale timer firings are ruled out because `startGame`
  and `endGame` stop both timers.
- `startGame` does not reset `recentlyClicked`. A game that ended just after a
  target hit therefore does not count the new game's first timeout as a miss.

## Model

| member | source | states |
|---|---|---|
| `JavaInt.Div` | Circle.java:43-47 | Java's int division by a positive divisor: the remainder has the numerator's sign and is smaller than the divisor (truncation toward zero) |
| `Geometry.NewCircle` | Circle.java:18-30 | the constructor keeps corner, diameter and flag as given, so `isTarget()` returns the flag; the colour is RED exactly when the flag is set, else GRAY |
| `Geometry.Circle.ContainsPoint` | Circle.java:39-57 | a point is inside exactly when dx·dx + dy·dy ≤ radius·radius, with centre and radius from Java's truncating `size / 2`, so the boundary is inclusive; a contained point is never farther than the radius from the centre on either axis; the computed centre is always contained, for every diameter including 0 and 1 |
| `Geometry.ReflectionSymmetric` | Circle.java:50-56 | reflecting the point through the centre (dx to -dx, dy to -dy) never changes the answer |
| `Geometry.BoundaryInclusive` | Circle.java:43-56 | the points exactly one radius from the centre along either axis are inside, the points one pixel farther out are not |
| `Geometry.TinyCircleHoldsOnlyCorner` | Circle.java:43-56 | a circle of diameter -1, 0 or 1 contains exactly its own corner and no other point |
| `Geometry.HitWithinFootprint` | Circle.java:43-56 | every point a circle of non-negative diameter contains lies between its corner and corner plus diameter on both axes |
| `Rules.RoundDelay` | GamePanel.java:77-86 | the period is 2500 ms exactly for "Easy", 1000 ms exactly for "Hard", and 1500 ms exactly for every other string |
| `Rules.Accuracy` | GamePanel.java:112-122 | 100 when there is no attempt; otherwise the largest percentage p with p·total ≤ score·100; between 0 and 100 whenever 0 ≤ score ≤ total |
| `Rules.SpawnedRound` | GamePanel.java:150-165 | a round is exactly 5 circles of diameter 50 in draw order with the drawn coordinates, each inside the 600×400 panel, correctly coloured, and exactly one target, the one at the drawn index |
| `Rules.TargetCountOfPattern` | GamePanel.java:154-163 | marking only index `targetIndex` gives one target when the index is in range and none otherwise |
| `Rules.TargetIsUnique` | GamePanel.java:162 | in a list with at most one target, two target circles are the same circle |
| `Rules.FirstHit` | GamePanel.java:223-237 | the click loop stops at the first circle in list order that contains the point; -1 means no circle contains it |
| `Rules.DecoyShadowsTarget` | GamePanel.java:223-237 | overlaps are resolved by list order: when a circle listed before the only target also contains the point, it takes the click, so the click does not score even if the target contains the point too |
| `Rules.TargetHitIff` | GamePanel.java:223-237 | for every list of circles, a click scores if and only if some target contains the point and no circle listed before that target does |
| `Rules.HitLiesInPanel` | GamePanel.java:159-160 | a point that hits a circle lying inside the panel, as every circle of a round does, lies inside the 600×400 panel itself |
| `Rules.NoOverflowInHitTest` | Circle.java:56 | for a circle inside the panel and click coordinates within ±30000, the squared distance and squared radius stay below 2^31, so the Java int arithmetic cannot wrap |
| `Engine.Game.constructor` | GamePanel.java:17-34 | initial state from the panel's field initialisers: no game and no timers, no circles, time 20, misses and attempts 0, flag clear; with the window's initialisers (GameWindow.java lines 23 and 30): score 0, difficulty "Medium" |
| `Engine.Game.UpdateScore` | GameWindow.java:135-138 | the score goes up by exactly 1 and nothing else changes |
| `Engine.Game.ResetScore` | GameWindow.java:142-145 | the score becomes 0 and nothing else changes |
| `Engine.Game.GetScore` | GameWindow.java:148-150 | returns the score and changes nothing |
| `Engine.Game.SelectEasy` | GameWindow.java:98-103 | the Easy button sets the difficulty to "Easy" and nothing else |
| `Engine.Game.SelectMedium` | GameWindow.java:106-111 | the Medium button sets the difficulty to "Medium" and nothing else |
| `Engine.Game.SelectHard` | GameWindow.java:114-119 | the Hard button sets the difficulty to "Hard" and nothing else |
| `Engine.Game.GetSelectedDifficulty` | GameWindow.java:165-167 | returns the selected difficulty and changes nothing |
| `Engine.Game.UpdateStats` | GamePanel.java:112-122 | the shown accuracy is the accuracy formula applied to the current score and attempts: 100 with no attempts, and between 0 and 100 whenever the counters are consistent |
| `Engine.Game.SpawnCircles` | GamePanel.java:150-165 | the circle list is replaced by exactly the round built from the draw, so it holds 5 circles with one target, at the drawn index, all inside the panel |
| `Engine.Game.EndGame` | GamePanel.java:128-146 | the game stops, both timers stop and the list of circles is cleared; counters, time and score are kept |
| `Engine.Game.StartGame` | GamePanel.java:51-106 | running, time 20, misses and attempts 0, both timers started, round-timer period from the selected difficulty, a fresh round; the score and `recentlyClicked` are not touched; the invariant is kept |
| `Engine.Game.StartButton` | GameWindow.java:156-162 | the score is reset before the game starts, so a new game starts with score, misses and attempts all 0 and with score + misses == totalAttempts |
| `Engine.Game.RoundTimerTick` | GamePanel.java:180-191 | if no target was hit since the last firing and the game runs, misses and attempts each go up by 1 and a new round is spawned; otherwise counters and round are unchanged; the flag is clear afterwards; score + misses == totalAttempts is kept |
| `Engine.Game.SessionTimerTick` | GamePanel.java:195-203 | one second is taken off; the game keeps running exactly while time is left; when time runs out both timers stop and the round is cleared |
| `Engine.Game.MouseClicked` | GamePanel.java:208-244 | ignored when no game runs; otherwise attempts go up by exactly 1. A target hit, decided by the first circle containing the point, adds 1 to the score, sets the flag and spawns a new round. Any other click adds 1 to misses and leaves the flag and the round unchanged. score + misses == totalAttempts is kept |

## Left out

- Rendering: `paintComponent`, `Circle.draw`, `repaint`, every label text, the end-of-game `JOptionPane` summary, and the window's frame, card layout, buttons and `updateDifficultyButtonStyles`. None of these change engine state.
- `Engine.Game.UpdateStats`: the handlers call it only to refresh the labels, which is not modelled. The method is the read-only accuracy query.
- `WelcomePanel.java` is not part of this model. It is an instructions screen with one navigation button.
- `javax.swing.Timer` scheduling. Each firing is an explicit method call, allowed only while that timer is started. The model does not capture an event queued just before `stop()` and delivered after it.
- `java.util.Random`: its values are parameters (`RoundDraw`), restricted to the ranges `nextInt` returns. The distribution is not modelled.
- `Rules.Accuracy`: the source divides in `float` (`score * 100.0f / totalAttempts`) and then casts to int. The model uses exact integer division. For the non-negative counts a 20-second game can reach, the two give the same integer.
- `Geometry.Circle.ContainsPoint`: it computes with unbounded integers rather than 32-bit `int`. `Rules.NoOverflowInHitTest` shows that no wrap-around happens for circles in the panel and clicks within ±30000.
