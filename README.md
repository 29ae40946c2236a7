# AngryBirds: a verified model of the game logic

This project models the game logic of AngryBirds, a 2-D slingshot game. The
player fires up to five projectiles per level at six enemies ("pigs")
sheltered by 41 blocks and up to ten platforms. Each projectile has an
ability, triggered by SPACE in flight:

- projectile 0: a wind breath;
- projectile 1: a dropped bomb;
- projectile 2: a speed boost;
- projectile 3: two scatter shots;
- projectile 4: no ability.

A level ends when all six enemies are hit. After the third level, or once the
last projectile is spent, the score goes into a top-ten table, and a place in
it lets the player enter three initials.

The model has seven modules:

- `Vector2`: the `vector2` value type. Floats become reals.
- `Constants`: array sizes, screens and menu entries.
- `Scoring`: the points and x-velocity damping tables of the contact rules,
  plus counting helpers over visibility flags.
- `HighScores`: the top-ten table and the pure specification of
  `updateHighScores`.
- `Menu`: the wrap-around arithmetic of the menu cursor and the initials entry.
- `Contacts`: the bounding-box contact rules as pure functions over visibility
  flags. Each rule is a pass over targets: it removes a target when its guard
  holds, scores the removal, and (for the bomb) hides the bomb on its first
  contact.
- `Game`: the `AngryBirdsGame` object as the class `Game.Game`.
  - Visibility flags and velocities are arrays.
  - Screen, menu, score and level counters are fields.
  - Each method is proved against the `Contacts`, `Scoring` and `HighScores`
    functions.
  - Every method that can run during play keeps the invariant `Valid()`:
    - the cursor, the initials and the indices stay in range;
    - hit enemies plus visible enemies is six while a level is played;
    - `projectiles_left` counts the visible projectiles, and the current
      projectile is visible.

Bounding boxes are not computed here. A frame's rects come in as a
`Contacts.Scene`, and `rect::isInside` is a parameter of the scene (see Left
out).

Three behaviours of the code are modelled as written and stated by contracts:

- **Guard grouping.** Every destructive-contact guard of `windBreath` and
  `bombCollision` is written `a.isInside(b) || b.isInside(a) && flag`. C++
  precedence groups it as `a || (b && flag)`, and the model does the same.
  As a result, a bomb that has already touched something still removes
  targets it lies inside (`Contacts.BombBlastNeedsVisibility`).
- **Wind guard.** The wind breath's block guard reads the bomb's visibility
  (Source/Game.cpp:2916), not the block's (`Contacts.WindReach`).
- **End-of-game bonuses.** On the last level both the 200-per-projectile
  level bonus and the 500-per-projectile end bonus are added
  (`Game.Game.CompleteLevel`).

Some of the code's arithmetic and control flow is easy to misread, so the
model states it outright:

- **Block points.** The code adds 5 for every block hit plus a tier extra of
  0, 5, 10 or 50, so the four tiers score 5, 10, 15 and 55 in total
  (`Scoring.ImpactPoints`).
- **Explosion rect.** The code offsets the explosion's y by the bomb's length,
  not its height, so the explosion is centred vertically only on a square bomb
  (`Contacts.BlastRectAroundBomb`).
- **Bomb ground test.** The test compares the bomb's bottom edge with the top
  edge of the play area, so it holds for every bomb inside the area; see
  Findings.
- **ENTER on the game-over screen.** The code calls `updateHighScores` again
  (Source/Game.cpp:809-819), with the score already reset to zero
  (`Game.Game.KeyEnterReleased`).
- **Boost flag across levels.** `newGame` resets the bomb and the scatter shots
  but not `boost_active`; only `resetProjectiles` clears it. A level completed
  while projectile 0 or 2 flies with its ability used starts the next level
  with the flag still set (`Game.Game.CompleteLevel`). Projectile 0's wind
  breath then cannot fire in that level, because SPACE on a used ability
  changes nothing (`Game.Game.KeySpacePressed`).

`Contacts.EnemyStruck` (an enemy touched by the projectile or by a visible
scatter shot) and `Contacts.PlatformsFor` (the first n platforms shown, the
rest hidden) are definitions the contracts use; what is proved about them is
in `Contacts.EnemyHitsExactly` and `Contacts.PlatformsForCount`.

## Model

| member | source | states |
|---|---|---|
| Vector2.SubtractThenAdd | Source/Vector2.cpp:109-126 | `add` and `subtract` by the same vector undo each other, in both orders |
| Vector2.SubtractIsAddNegated | Source/Vector2.cpp:122-126 | subtracting `a` is adding `a` scaled by −1 |
| Vector2.ScaleIsMultiply | Source/Vector2.cpp:73-79 | `operator*` and `multiply` give the same vector for every input |
| Vector2.MultiplyIdentity | Source/Vector2.cpp:157-161 | scaling by 1 is the identity, and scaling by 0 gives the zero vector |
| Vector2.MultiplyComposes | Source/Vector2.cpp:157-161 | scaling by s, then by t, is scaling by s·t |
| Vector2.ScalarSymmetric | Source/Vector2.cpp:168-171 | `getScalar` is symmetric in its two vectors |
| Vector2.ScalarIsNotDot | Source/Vector2.cpp:168-171 | `getScalar` is the dot product with the second vector mirrored in the x axis; (0,1)·(0,1) gives −1 |
| Vector2.MagnitudeSign | Source/Vector2.cpp:145-148 | `getMagnitude` is never negative, is zero at the origin, is positive when x ≠ 0, and is zero only when x = 0 and y² = 0 |
| Vector2.MagnitudeIsNotNorm | Source/Vector2.cpp:145-148 | `getMagnitude` is not the Euclidean norm: (0,2) gives 4 and (−3,0) gives 3 |
| Vector2.NormaliseKeepsSigns | Source/Vector2.cpp:50-66 | `normalise` maps zero to zero and a vector of non-zero magnitude to a non-zero vector; it keeps each component's sign and the direction |
| Vector2.NormaliseOnXAxis | Source/Vector2.cpp:50-66 | on the x axis, `normalise` gives the unit vector (±1, 0) |
| Vector2.DistanceSquaredProperties | Source/Vector2.cpp:133-138 | the squared distance is symmetric and non-negative, zero between equal points, and zero only when both coordinate differences square to zero |
| Vector2.DistanceSymmetric | Source/Vector2.cpp:133-138 | `getDistance` is symmetric for any square root, and a point is at distance 0 from itself when the root of 0 is 0 |
| Scoring.ImpactPoints | Source/Game.cpp:2346-2406 | a projectile hitting a block scores 5, 10, 15 or 55 by the block's tier |
| Scoring.DampingRate | Source/Game.cpp:2346-2406 | the x-velocity damping rate of a block hit lies in [0, 1), and is zero exactly on block 40 |
| Scoring.BlastMatchesImpact | Source/Game.cpp:2671-2694 | a blast scores like an impact on blocks 0–39; block 40 scores 55 on impact and 0 from a blast |
| Scoring.DampScales | Source/Game.cpp:2346-2406 | one hit multiplies vx by 1 − rate; it keeps vx's sign, never increases its size, and leaves it unchanged exactly at rest or on block 40 |
| Scoring.DampedXShrinks | Source/Game.cpp:2336-2411 | any run of block hits keeps vx's sign and never increases its size; with no hits vx is unchanged |
| Scoring.EnemyGain | Source/Game.cpp:2465-2482 | removing enemies scores exactly 150 per enemy removed |
| Scoring.ImpactGainBounds | Source/Game.cpp:2336-2411 | a projectile's block hits score between 5 and 55 points per block, and score 0 only when nothing was hit |
| Scoring.BlastGainBounds | Source/Game.cpp:2671-2694 | a blast scores at most 15 per block, and nothing when block 40 is the only one hit |
| Scoring.FirstVisible | Source/Game.cpp:2851-2877 | the result is the lowest index of a visible projectile, or the length when none is visible |
| Scoring.FirstVisibleIffAny | Source/Game.cpp:2851-2877 | a visible projectile is found exactly when some projectile is visible |
| HighScores.FirstBelow | Source/Game.cpp:1304-1311 | the result is a place in the table, or the size when the score beats no entry; the score beats the entry at that place |
| HighScores.FirstBelowIsFirst | Source/Game.cpp:1304-1311 | the scan from the bottom up leaves the first entry the score beats: every entry above that place is at least the score |
| HighScores.Inserted | Source/Game.cpp:1312-1320 | entries above the place are kept; the place gets the new score with its old initials; entries below shift down one; the size is kept |
| HighScores.BeatsIffSomeEntryLower | Source/Game.cpp:1304-1311 | the score earns a place exactly when some entry is lower, and the place is the only index that is lower with no lower entry above it |
| HighScores.SortedBeatsIffBeatsLast | Source/Game.cpp:1299-1324 | on an ordered table, the score earns a place exactly when it beats the last entry |
| HighScores.InsertedKeepsOrder | Source/Game.cpp:1299-1324 | updating an ordered table keeps it ordered |
| HighScores.InsertedDropsOnlyLast | Source/Game.cpp:1312-1320 | an update keeps the table's size and puts the score at its place; the only entry lost is the old last one (stated as a multiset) |
| HighScores.NoPlaceNoChange | Source/Game.cpp:1299-1324 | a score with no place leaves the table unchanged, and every entry is at least that score |
| Menu.MenuStaysInRange | Source/Game.cpp:746-787 | UP and DOWN keep the menu cursor on an entry, undo each other and always move it |
| Menu.MenuCycles | Source/Game.cpp:746-787 | three UPs, or three DOWNs, bring the cursor back to where it started |
| Menu.LetterStaysInRange | Source/Game.cpp:757-786 | UP and DOWN keep the letter in 'A'..'Z', undo each other and always change it |
| Menu.SlotStaysInRange | Source/Game.cpp:839-860 | LEFT and RIGHT keep the initials slot in 0..2 and undo each other |
| Menu.UpThenDownRestoresInitials | Source/Game.cpp:757-786 | UP then DOWN on a slot restores both the letter and the whole initials string |
| Contacts.LeavesAreaIffNotWithin | Source/Game.cpp:2307-2310 | the boundary test holds exactly when the projectile does not lie within the play area |
| Contacts.BlastRectAroundBomb | Source/Game.cpp:2657-2670 | the explosion is centred on the bomb horizontally, and vertically only when the bomb is square; a square bomb lies within it |
| Contacts.WindRectAhead | Source/Game.cpp:2888-2892 | the wind area starts at the projectile's front edge, reaches 4 lengths beyond it, and is vertically centred on the projectile |
| Contacts.GroundTestAsWritten | Source/Game.cpp:2653-2656 | every bomb with height > 0 lying within the play area passes the ground test as written, although it is above the floor |
| Contacts.BombPassAsWritten | Source/Game.cpp:2653-2694 | with the ground test as written, a bomb inside the area is hidden after one frame, and its explosion removes exactly the remaining targets it lies inside; with the corrected test a visible bomb that touched and removed nothing stays visible |
| Contacts.RemovedExactly | Source/Game.cpp:2592-2609 | a pass removes a visible target when its first guard half holds, or when the second holds and the flag is set; if the first removal clears the flag, the second half counts only before any removal |
| Contacts.RemovedSound | Source/Game.cpp:2592-2609 | a pass removes only visible targets one guard half holds for, removes every visible target the first half holds for, and without the flag removes exactly those |
| Contacts.CountCleared | Source/Game.cpp:2592-2609 | a pass conserves "removed plus still visible" |
| Contacts.LevelHits | Source/Game.cpp:2336-2411 | `levelCollision` removes exactly the visible blocks the projectile lies inside |
| Contacts.PlatformsShown | Source/Game.cpp:1815-2116 | each level and map shows between 5 and 8 platforms |
| Contacts.WindReach | Source/Game.cpp:2893-2933 | the wind removes exactly the visible enemies it touches; it removes a visible block it lies inside, and a block lying inside it only while the bomb is visible |
| Contacts.EnemyHitsExactly | Source/Game.cpp:2465-2482 | `enemyCollision` removes exactly the visible enemies the projectile or a visible scatter shot touches |
| Contacts.BombVisibility | Source/Game.cpp:2584-2695 | the bomb stays visible exactly when it was visible, touched nothing directly, is not grounded and the explosion removed nothing; the explosion is the blast rect exactly when the bomb touched something (corrected ground test) |
| Contacts.BombBlastNeedsVisibility | Source/Game.cpp:2584-2695 | an invisible bomb removes only the targets it lies inside; once the bomb touched anything, the explosion removes exactly the remaining targets it lies inside |
| Contacts.BombRemovesOnce | Source/Game.cpp:2584-2695 | no target is removed by both the direct passes and the explosion |
| Contacts.BlastPassSound | Source/Game.cpp:2657-2694 | the explosion removes only targets still visible after the direct passes, and exactly those it lies inside once the bomb is hidden |
| Contacts.PlatformsForCount | Source/Game.cpp:1815-2116 | showing the first n platforms shows n platforms |
| Contacts.LeftoverPlatformsStayVisible | Source/Game.cpp:1815-2116 | as written, level 1 on map 0 after level 0 on map 2 still shows platforms 6 and 7, which it should not |
| Game.Game.constructor | Source/Game.cpp:38-88 | after `init` every object is hidden, the fields have their declared defaults, the table is as loaded, and the invariant holds |
| Game.Game.UpdateHighScores | Source/Game.cpp:1299-1324 | it returns whether the final score (score + 500 per projectile left) earns a place; the table becomes the updated table; the index is the place or 0; the score is reset |
| Game.Game.FindPlace | Source/Game.cpp:1304-1311 | the upward scan finds whether the score earns a place, and the first place it beats |
| Game.Game.ShiftDown | Source/Game.cpp:1312-1320 | entries up to the place are kept and entries below it take the entry above them |
| Game.Game.KeyUpReleased | Source/Game.cpp:746-766 | on the main screen the cursor moves up; while entering initials the letter advances and is written into the current slot; otherwise nothing changes; the invariant holds |
| Game.Game.KeyDownReleased | Source/Game.cpp:767-787 | the mirror of UP: the cursor moves down, or the letter goes back |
| Game.Game.KeyLeftPressed | Source/Game.cpp:839-849 | while entering initials, the slot moves left and the current letter becomes that slot's; otherwise nothing changes |
| Game.Game.KeyRightPressed | Source/Game.cpp:850-860 | the mirror of LEFT |
| Game.Game.KeyEnterReleased | Source/Game.cpp:789-837 | for each screen, the whole new state: start a game or show scores from the menu; on game over the table is updated and the place index is the entry `SaveInitials` then writes; save the initials and reset the entry; or go back to the menu; every field a branch does not touch keeps its value |
| Game.Game.LeaveGameOver | Source/Game.cpp:809-819 | ENTER on game over: the table is updated with the score, the place index is set, and the initials entry or the main screen follows |
| Game.Game.SaveInitials | Source/Game.cpp:820-831 | the entered initials go into the chosen table entry and the entry state is reset |
| Game.Game.ReleaseBomb | Source/Game.cpp:2496-2505 | the bomb becomes visible and falls at (0, 1) |
| Game.Game.ResetBomb | Source/Game.cpp:2514-2525 | the bomb is inactive, hidden and at rest |
| Game.Game.ReleaseProjectileScatter | Source/Game.cpp:2534-2555 | both scatter shots become visible, at the projectile's velocity ±4 in y, so their velocities add up to twice the projectile's |
| Game.Game.ResetProjectileScatter | Source/Game.cpp:2563-2576 | scatter is inactive and both shots are hidden and at rest |
| Game.Game.BoostProjectile | Source/Game.cpp:2703-2707 | only the current projectile's velocity changes, and it doubles |
| Game.Game.ResetProjectiles | Source/Game.cpp:2833-2878 | active abilities are reset and others are left alone; the current projectile becomes the first visible one, or stays as it was if none is visible |
| Game.Game.SelectProjectile | Source/Game.cpp:2851-2877 | the current projectile becomes the first visible one, or stays as it was if none is visible |
| Game.Game.Sweep | Source/Game.cpp:2592-2609 | one guarded pass over a target array: it removes the pass's targets, keeps "removed plus visible" constant, and adds the pass's points and enemy count |
| Game.Game.LevelCollision | Source/Game.cpp:2336-2411 | the blocks the projectile lies inside are hidden and scored by tier; the projectile's x-velocity is damped once per hit; the invariant holds |
| Game.Game.DampProjectile | Source/Game.cpp:2346-2406 | only the current projectile's x-velocity changes, by one damping step |
| Game.Game.EnemyCollision | Source/Game.cpp:2465-2482 | the enemies struck are hidden, counted as hit and scored 150 each; the invariant holds |
| Game.Game.WindBreath | Source/Game.cpp:2886-2934 | the enemies and blocks the wind reaches are hidden; enemies score 150 each and blocks their blast points; the invariant holds |
| Game.Game.BombPlatformContacts | Source/Game.cpp:2638-2652 | the platforms the bomb touches, and its visibility after them |
| Game.Game.BombDirect | Source/Game.cpp:2592-2652 | the direct passes hide what they remove, score it, set the bomb's visibility and place the explosion |
| Game.Game.BombBlast | Source/Game.cpp:2653-2694 | the ground test (corrected ground test) hides the bomb; the explosion passes then hide and score what they remove |
| Game.Game.BombCollision | Source/Game.cpp:2584-2695 | the enemies and blocks hidden, the bomb's visibility, the hit count and the score are those of `BombPass` (corrected ground test); the invariant holds |
| Game.Game.KeySpacePressed | Source/Game.cpp:702-744 | in flight, each projectile's ability fires once with its whole effect: the wind hides and scores what it reaches, the bomb falls at (0, 1), the boost doubles the velocity, the scatter shots leave at the velocity ±4 in y; a used ability and projectile 4 change nothing; off flight nothing changes; the score never decreases |
| Game.Game.Breathe | Source/Game.cpp:708-714 | the wind breath marks the boost used, hides what the wind reaches and scores it |
| Game.Game.DropBomb | Source/Game.cpp:715-722 | the bomb becomes active, visible and falling |
| Game.Game.Boost | Source/Game.cpp:723-729 | the boost becomes active and the current projectile's velocity doubles |
| Game.Game.Scatter | Source/Game.cpp:730-738 | scatter becomes active and both shots are visible, at the projectile's velocity ±4 in y |
| Game.Game.ProjectileBoundary | Source/Game.cpp:2307-2326 | inside the area nothing changes; a projectile leaving it is hidden, one fewer is left, the first visible one becomes current, every ability flag is cleared and an active bomb or scatter is hidden and stopped; spending the last one sends the score through the table, with the exact place index and next screen; otherwise screen, table and score stay |
| Game.Game.LeaveArea | Source/Game.cpp:2311-2325 | a spent projectile: the state after `SpendProjectile`, then the end of the game when none is left |
| Game.Game.LastShot | Source/Game.cpp:2315-2325 | with no projectile left, the score goes through the table, the place index and the next screen follow from it |
| Game.Game.SpendProjectile | Source/Game.cpp:2312-2315 | the current projectile is hidden, one fewer is left, the next visible one is selected, the ability flags are cleared, an active bomb or scatter is hidden and stopped, and an inactive one is left alone |
| Game.Game.EndGame | Source/Game.cpp:2316-2325 | the table is updated with the final score, the place index is the entry the initials will go into, the score is reset, and the screen goes to new-high-score or game-over |
| Game.Game.SetupLevel | Source/Game.cpp:1417-1433 | all blocks, enemies and projectiles are shown, and exactly the level's platforms (corrected platform set-up) |
| Game.Game.NewGame | Source/Game.cpp:1395-1409 | the level is set up (corrected platform set-up); the bomb and scatter shots are reset and at rest; the boost flag carries over; score zero, five projectiles left, projectile 0 current, no enemy hit; the invariant holds and a started game is being played |
| Game.Game.ResetForLevel | Source/Game.cpp:1395-1409 | the bomb and scatter shots are reset and at rest, the boost flag carries over; score zero, five projectiles left, projectile 0 current, no enemy hit |
| Game.Game.CompleteLevel | Source/Game.cpp:1052-1075 | with six enemies hit (then none is visible): before the last level, the next one starts with the score plus 200 per projectile left, every block and projectile shown, bomb and scatter reset, projectile 0 current and the boost flag carried over; after the last level, the table, place index and screen come from the final score and nothing else changes; with fewer hits nothing changes |
| Game.Game.NextLevel | Source/Game.cpp:1054-1062 | the next level starts with the score plus 200 per projectile left, everything shown and every ability but the boost reset |
| Game.Game.LastLevel | Source/Game.cpp:1054-1074 | after the last level, level and hit count start over and the score plus 200 and 500 per projectile left goes through the table |
| Game.Game.Conclude | Source/Game.cpp:1065-1072 | the score with the points added and its end bonus goes through the table; the place index and the next screen follow, and play stops |

## Left out

- Rendering, sprites, sound, the splash screen, mouse input and aiming (`clickHandler`, the cursor position in `update`), Alt+ENTER full screen and `signalExit`. The ESC key and the EXIT menu entry leave the state unchanged in the model.
- Positions, motion, gravity, bouncing, enemy resting (`isBetween`) and `projectileScatterCollision`. These are float kinematics over sprite coordinates. The rects they produce are inputs (`Contacts.Scene`). The velocity writes of `update` (including Source/Game.cpp:1029, which writes the scatter velocity into the projectile) are not modelled.
- `rect::isInside` is defined in `Rect.h`, which is not part of this model. It is the `inside` parameter of a scene. `getDistance`'s square root is likewise a parameter.
- `loadLevelMap`, the level grids and block placement: block positions live in the scene.
- The map layout drawn by `rand() % 3` in `setupLevel` is the `layout` parameter.
- `saveHighScores` and `loadHighScores` (file I/O). The constructor takes the loaded table.
- `float` is modelled as `real`, so rounding is not modelled. `int` and `long` are modelled as unbounded integers; no counter here comes near a 32-bit limit.
- The `new_game` trigger in `update` (Source/Game.cpp:951-956) is the caller's call of `Game.Game.NewGame`.
- `wind_active` is never set true by the code. The model keeps it and clears it as `resetProjectiles` does.
- Vector2.MagnitudeSign: does not state "zero exactly at the zero vector", only "zero implies x = 0 and y² = 0". Nonlinear real facts of that shape are beyond the solver.
- Vector2.DistanceSquaredProperties: does not state "zero exactly between equal points", for the same reason.
- Game.Game.EnemyCollision: the source checks the projectile and then each scatter shot in separate guards. The model merges them into one test per enemy (`Contacts.EnemyStruck`). The outcome is the same, because a hidden enemy fails every later guard.
- The class models the corrected ground test and the corrected platform set-up (see Findings). The as-written behaviour is stated by `Contacts.GroundTestAsWritten`, `Contacts.BombPassAsWritten` and `Contacts.LeftoverPlatformsStayVisible`.
- Game.Game.BombDirect: the explosion rect is set once after the direct passes, not inside each pass. The rect is the same whichever pass first touches something.

## Findings

| source | as written | input that shows it | evidently intended | confidence | as-written member | corrected member |
|---|---|---|---|---|---|---|
| Source/Game.cpp:2653-2656 | the bomb counts as grounded when its bottom edge is below the TOP edge of the play area | any bomb with height > 0 lying within the play area, e.g. just released from a projectile in flight | grounded only when the bottom edge is below the BOTTOM edge of the play area | not executed; high | Contacts.GroundTestAsWritten | Game.Game.BombBlast |
| Source/Game.cpp:1815-2116 | `setupPlatforms` only shows platforms and never hides any, so platforms of an earlier level stay visible | level 0 on map 2 (8 platforms), then level 1 on map 0 (6 platforms): platforms 6 and 7 stay visible | each level shows exactly its own platforms | not executed; medium | Contacts.LeftoverPlatformsStayVisible | Game.Game.SetupLevel |
