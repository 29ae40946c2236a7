/**
  `AngryBirdsGame`: the game state the key handler, the collision rules and
  the level logic update in place.

  Every GameObject the rules touch is reduced to what they read and write:
  its visibility flag and, for projectiles, scatter shots and the bomb, its
  velocity. Sprite positions and sizes are not state here; the bounding boxes
  a frame works on come in as a `Scene`.
*/
module Game {
  import opened Constants
  import opened Vector2
  import opened Scoring
  import opened Menu
  import opened HighScores
  import opened Contacts

  /** A fresh array of `n` hidden objects. */
  method Hidden(n: nat) returns (a: array<bool>)
    ensures fresh(a) && a.Length == n
    ensures forall i :: 0 <= i < n ==> !a[i]
  {
    a := new bool[n](_ => false);
  }

  /** A fresh array of `n` velocities at rest. */
  method AtRest(n: nat) returns (a: array<Vec2>)
    ensures fresh(a) && a.Length == n
    ensures forall i :: 0 <= i < n ==> a[i] == ZERO
  {
    a := new Vec2[n](_ => ZERO);
  }

  class Game {
    const blockVisible: array<bool>
    const enemyVisible: array<bool>
    const platformVisible: array<bool>
    const projectileVisible: array<bool>
    const scatterVisible: array<bool>
    const projectileVel: array<Vec2>
    const scatterVel: array<Vec2>
    const highScores: array<Score>

    var bombVisible: bool
    var bombVel: Vec2

    var gameState: Screen
    var menuOption: int
    var initial: int
    var newInitial: char
    var newInitials: string
    var highScoreIdxToUpdate: int

    var newGame: bool
    var level: int
    var projectile: int
    var currentScore: int
    var noEnemiesHit: int
    var projectilesLeft: int
    var flying: bool
    var bombActive: bool
    var scatterActive: bool
    var boostActive: bool
    var windActive: bool

    /** The arrays have their sizes and are distinct. */
    ghost predicate Shape()
    {
      blockVisible.Length == NUM_BLOCKS && enemyVisible.Length == NUM_ENEMIES
      && platformVisible.Length == NUM_PLATFORMS && projectileVisible.Length == NUM_PROJECTILES
      && scatterVisible.Length == NUM_PROJECTILES_SCATTER
      && projectileVel.Length == NUM_PROJECTILES && scatterVel.Length == NUM_PROJECTILES_SCATTER
      && highScores.Length == NUM_HIGH_SCORES
      && blockVisible != enemyVisible && blockVisible != platformVisible
      && blockVisible != projectileVisible && blockVisible != scatterVisible
      && enemyVisible != platformVisible && enemyVisible != projectileVisible
      && enemyVisible != scatterVisible && platformVisible != projectileVisible
      && platformVisible != scatterVisible && projectileVisible != scatterVisible
      && projectileVel != scatterVel
    }

    /** A level is being played: the game screen is up and its set-up is done. */
    predicate Playing()
      reads this`gameState, this`newGame
    {
      gameState == InGame && !newGame
    }

    /** The menu cursor, the initials being entered and the indices stay in
        range, and the current letter is the one in the current slot. */
    ghost predicate Settings()
      reads this`menuOption, this`initial, this`newInitial, this`newInitials
      reads this`highScoreIdxToUpdate, this`level, this`projectile
    {
      IsOption(menuOption) && IsSlot(initial)
      && |newInitials| == 3 && (forall j :: 0 <= j < 3 ==> IsLetter(newInitials[j]))
      && newInitials[initial] == newInitial
      && 0 <= highScoreIdxToUpdate < NUM_HIGH_SCORES
      && 0 <= level < NUM_LEVELS && 0 <= projectile < NUM_PROJECTILES
    }

    /** Every enemy hit was visible before, so the hit count reaches six only
        when no enemy is left; while a level is played, every enemy is either
        hit or visible. */
    ghost predicate EnemyTally()
      reads this`gameState, this`newGame, this`noEnemiesHit, enemyVisible
    {
      0 <= noEnemiesHit && noEnemiesHit + Count(enemyVisible[..]) <= NUM_ENEMIES
      && (Playing() ==> noEnemiesHit + Count(enemyVisible[..]) == NUM_ENEMIES)
    }

    /** While a level is played, `projectilesLeft` counts the visible
        projectiles, at least one is left, and the current one is one of them. */
    ghost predicate ProjectileTally()
      reads this`gameState, this`newGame, this`projectilesLeft, this`projectile, projectileVisible
    {
      Playing() ==>
        0 < projectilesLeft == Count(projectileVisible[..])
        && 0 <= projectile < projectileVisible.Length && projectileVisible[projectile]
    }

    /** The state invariant of the game. */
    ghost predicate Valid()
      reads this, enemyVisible, projectileVisible
    {
      Shape() && Settings() && EnemyTally() && ProjectileTally()
    }

    /** The state after construction and `init`: every object hidden, the
        fields at their declared defaults, and the high-score table as loaded. */
    constructor(scores: seq<Score>)
      requires |scores| == NUM_HIGH_SCORES
      ensures Valid()
      ensures highScores[..] == scores
      ensures forall i :: 0 <= i < NUM_BLOCKS ==> !blockVisible[i]
      ensures forall i :: 0 <= i < NUM_ENEMIES ==> !enemyVisible[i]
      ensures forall i :: 0 <= i < NUM_PLATFORMS ==> !platformVisible[i]
      ensures forall i :: 0 <= i < NUM_PROJECTILES ==> !projectileVisible[i]
      ensures forall i :: 0 <= i < NUM_PROJECTILES_SCATTER ==> !scatterVisible[i]
      ensures !bombVisible && gameState == SplashScreen && menuOption == ONE_PLAYER
      ensures initial == 0 && newInitial == 'A' && newInitials == "AAA" && highScoreIdxToUpdate == 0
      ensures newGame && level == 0 && projectile == 0 && currentScore == 0 && noEnemiesHit == 0
      ensures projectilesLeft == 0 && flying
      ensures !bombActive && !scatterActive && !boostActive && !windActive
    {
      var bv := Hidden(NUM_BLOCKS);
      var ev := Hidden(NUM_ENEMIES);
      var plv := Hidden(NUM_PLATFORMS);
      var pv := Hidden(NUM_PROJECTILES);
      var sv := Hidden(NUM_PROJECTILES_SCATTER);
      var pvel := AtRest(NUM_PROJECTILES);
      var svel := AtRest(NUM_PROJECTILES_SCATTER);
      blockVisible := bv;
      enemyVisible := ev;
      platformVisible := plv;
      projectileVisible := pv;
      scatterVisible := sv;
      projectileVel := pvel;
      scatterVel := svel;
      highScores := new Score[NUM_HIGH_SCORES](i requires 0 <= i < NUM_HIGH_SCORES => scores[i]);
      bombVisible := false;
      bombVel := ZERO;
      gameState := SplashScreen;
      menuOption := ONE_PLAYER;
      initial := 0;
      newInitial := 'A';
      newInitials := "AAA";
      highScoreIdxToUpdate := 0;
      newGame := true;
      level := 0;
      projectile := 0;
      currentScore := 0;
      noEnemiesHit := 0;
      projectilesLeft := 0;
      flying := true;
      bombActive := false;
      scatterActive := false;
      boostActive := false;
      windActive := false;
    }

    // -------------------------------------------------------------------
    // High scores

    /**
      Adds the bonus for the projectiles left, places the score in the table
      when it beats an entry (at the first entry it beats), records that
      index, and clears the score. Reports whether the table changed.
    */
    method UpdateHighScores() returns (updated: bool)
      requires Shape()
      modifies highScores, this`currentScore, this`highScoreIdxToUpdate
      ensures var s := old(currentScore) + old(projectilesLeft) * 500;
              updated == Beats(old(highScores[..]), s)
              && highScores[..] == UpdatedTable(old(highScores[..]), s)
              && highScoreIdxToUpdate == (if updated then FirstBelow(old(highScores[..]), s) else 0)
      ensures 0 <= highScoreIdxToUpdate < NUM_HIGH_SCORES
      ensures currentScore == 0
    {
      ghost var t := highScores[..];
      currentScore := currentScore + projectilesLeft * 500;
      var k;
      updated, k := FindPlace(currentScore);
      highScoreIdxToUpdate := k;
      if updated {
        ShiftDown(k);
        highScores[k] := highScores[k].(score := currentScore);
        assert highScores[..] == Inserted(t, k, currentScore) by {
          forall j | 0 <= j < NUM_HIGH_SCORES
            ensures highScores[j] == Inserted(t, k, currentScore)[j]
          {
          }
        }
      }
      currentScore := 0;
    }

    /** The scan of `updateHighScores` from the bottom entry up: whether `s`
        beats an entry, and the first entry it beats (0 when none). */
    method FindPlace(s: int) returns (found: bool, k: int)
      requires Shape()
      ensures found == Beats(highScores[..], s)
      ensures k == if found then FirstBelow(highScores[..], s) else 0
    {
      ghost var t := highScores[..];
      found := false;
      k := 0;
      var i := NUM_HIGH_SCORES as int - 1;
      while i > -1
        invariant -1 <= i < NUM_HIGH_SCORES
        invariant found == (FirstBelow(t[i + 1..], s) < NUM_HIGH_SCORES - 1 - i)
        invariant found ==> k == i + 1 + FirstBelow(t[i + 1..], s)
        invariant !found ==> k == 0
      {
        assert t[i..][1..] == t[i + 1..];
        if s > highScores[i].score {
          k := i;
          found := true;
        }
        i := i - 1;
      }
      assert t[0..] == t;
    }

    /** Moves every entry from `k` on down one place, the last one dropping
        off; entry `k` keeps its contents. */
    method ShiftDown(k: int)
      requires Shape() && 0 <= k < NUM_HIGH_SCORES
      modifies highScores
      ensures forall m :: 0 <= m <= k ==> highScores[m] == old(highScores[m])
      ensures forall m :: k < m < NUM_HIGH_SCORES ==> highScores[m] == old(highScores[m - 1])
    {
      var j := NUM_HIGH_SCORES as int - 1;
      while j > k
        invariant k <= j < NUM_HIGH_SCORES
        invariant forall m :: 0 <= m <= j ==> highScores[m] == old(highScores[m])
        invariant forall m :: j < m < NUM_HIGH_SCORES ==> highScores[m] == old(highScores[m - 1])
      {
        highScores[j] := highScores[j].(score := highScores[j - 1].score);
        highScores[j] := highScores[j].(initials := highScores[j - 1].initials);
        j := j - 1;
      }
    }

    // -------------------------------------------------------------------
    // Menu and initials keys

    /** UP released: on the main screen the menu cursor moves up, wrapping to
        the last entry; while entering initials the current letter moves on,
        wrapping from 'Z' to 'A', and is written into the initials. */
    method KeyUpReleased()
      requires Valid()
      modifies this`menuOption, this`newInitial, this`newInitials
      ensures Valid()
      ensures old(gameState) == MainScreen ==>
                menuOption == MenuUp(old(menuOption)) && newInitial == old(newInitial) && newInitials == old(newInitials)
      ensures old(gameState) == NewHighScore ==>
                menuOption == old(menuOption) && newInitial == NextLetter(old(newInitial))
                && newInitials == old(newInitials)[initial := newInitial]
      ensures old(gameState) != MainScreen && old(gameState) != NewHighScore ==> unchanged(this)
    {
      if gameState == MainScreen {
        menuOption := menuOption - 1;
        if menuOption < ONE_PLAYER {
          menuOption := EXIT_GAME;
        }
      } else if gameState == NewHighScore {
        newInitial := (newInitial as int + 1) as char;
        if newInitial > 'Z' {
          newInitial := 'A';
        }
        newInitials := newInitials[initial := newInitial];
      }
    }

    /** DOWN released: the mirror image of UP. */
    method KeyDownReleased()
      requires Valid()
      modifies this`menuOption, this`newInitial, this`newInitials
      ensures Valid()
      ensures old(gameState) == MainScreen ==>
                menuOption == MenuDown(old(menuOption)) && newInitial == old(newInitial) && newInitials == old(newInitials)
      ensures old(gameState) == NewHighScore ==>
                menuOption == old(menuOption) && newInitial == PrevLetter(old(newInitial))
                && newInitials == old(newInitials)[initial := newInitial]
      ensures old(gameState) != MainScreen && old(gameState) != NewHighScore ==> unchanged(this)
    {
      if gameState == MainScreen {
        menuOption := menuOption + 1;
        if menuOption > EXIT_GAME {
          menuOption := ONE_PLAYER;
        }
      } else if gameState == NewHighScore {
        newInitial := (newInitial as int - 1) as char;
        if newInitial < 'A' {
          newInitial := 'Z';
        }
        newInitials := newInitials[initial := newInitial];
      }
    }

    /** LEFT pressed while entering initials: the previous slot, wrapping from
        the first to the third, and its letter becomes the current one. */
    method KeyLeftPressed()
      requires Valid()
      modifies this`initial, this`newInitial
      ensures Valid()
      ensures old(gameState) == NewHighScore ==> initial == SlotLeft(old(initial)) && newInitial == newInitials[initial]
      ensures old(gameState) != NewHighScore ==> unchanged(this)
    {
      if gameState == NewHighScore {
        initial := initial - 1;
        if initial < 0 {
          initial := 2;
        }
        newInitial := newInitials[initial];
      }
    }

    /** RIGHT pressed while entering initials: the next slot, wrapping from the
        third to the first, and its letter becomes the current one. */
    method KeyRightPressed()
      requires Valid()
      modifies this`initial, this`newInitial
      ensures Valid()
      ensures old(gameState) == NewHighScore ==> initial == SlotRight(old(initial)) && newInitial == newInitials[initial]
      ensures old(gameState) != NewHighScore ==> unchanged(this)
    {
      if gameState == NewHighScore {
        initial := initial + 1;
        if initial > 2 {
          initial := 0;
        }
        newInitial := newInitials[initial];
      }
    }

    /**
      ENTER released. Main screen: "one player" starts a game (set up on the
      next update), "high scores" shows the table; "exit" asks the framework
      to quit, which is not state here. Game-over screen: the table is updated
      and the initials entry follows when the score placed. Initials entry:
      the initials go into the placed entry and the entry state is reset.
      High-score screen: back to the main screen.
    */
    method KeyEnterReleased()
      requires Valid()
      modifies this`gameState, this`newGame, this`currentScore, this`highScoreIdxToUpdate
      modifies this`initial, this`newInitial, this`newInitials, highScores
      ensures Valid()
      ensures old(gameState) == MainScreen ==>
                gameState == (if old(menuOption) == ONE_PLAYER then InGame
                              else if old(menuOption) == HIGH_SCORES then HighScoresScreen
                              else MainScreen)
                && newGame == (old(menuOption) == ONE_PLAYER || old(newGame))
                && highScores[..] == old(highScores[..])
      ensures old(gameState) == GameOverScreen ==>
                var s := old(currentScore) + old(projectilesLeft) * 500;
                highScores[..] == UpdatedTable(old(highScores[..]), s) && currentScore == 0
                && highScoreIdxToUpdate == (if Beats(old(highScores[..]), s) then FirstBelow(old(highScores[..]), s) else 0)
                && gameState == (if Beats(old(highScores[..]), s) then NewHighScore else MainScreen)
      ensures old(gameState) == NewHighScore ==>
                highScores[..] == old(highScores[..])[old(highScoreIdxToUpdate) := old(highScores[highScoreIdxToUpdate]).(initials := old(newInitials))]
                && initial == 0 && newInitial == 'A' && newInitials == "AAA" && highScoreIdxToUpdate == 0
                && gameState == MainScreen
      ensures old(gameState) == HighScoresScreen ==> gameState == MainScreen && highScores[..] == old(highScores[..])
      ensures old(gameState) == SplashScreen || old(gameState) == InGame ==>
                gameState == old(gameState) && highScores[..] == old(highScores[..])
      ensures old(gameState) != MainScreen ==> newGame == old(newGame)
      ensures old(gameState) != GameOverScreen ==> currentScore == old(currentScore)
      ensures old(gameState) != GameOverScreen && old(gameState) != NewHighScore ==>
                highScoreIdxToUpdate == old(highScoreIdxToUpdate)
      ensures old(gameState) != NewHighScore ==>
                initial == old(initial) && newInitial == old(newInitial) && newInitials == old(newInitials)
    {
      if gameState == MainScreen {
        if menuOption == ONE_PLAYER {
          gameState := InGame;
          newGame := true;
        }
        if menuOption == HIGH_SCORES {
          gameState := HighScoresScreen;
        }
      } else if gameState == GameOverScreen {
        LeaveGameOver();
      } else if gameState == NewHighScore {
        SaveInitials();
      } else if gameState == HighScoresScreen {
        gameState := MainScreen;
      }
    }

    /** ENTER on the game-over screen: the score goes through the high-score
        table once more, then the initials entry or the main screen follows. */
    method LeaveGameOver()
      requires Valid() && gameState == GameOverScreen
      modifies this`gameState, this`currentScore, this`highScoreIdxToUpdate, highScores
      ensures Valid()
      ensures var s := old(currentScore) + old(projectilesLeft) * 500;
              highScores[..] == UpdatedTable(old(highScores[..]), s) && currentScore == 0
              && highScoreIdxToUpdate == (if Beats(old(highScores[..]), s) then FirstBelow(old(highScores[..]), s) else 0)
              && gameState == (if Beats(old(highScores[..]), s) then NewHighScore else MainScreen)
    {
      var updated := UpdateHighScores();
      if updated {
        gameState := NewHighScore;
      } else {
        gameState := MainScreen;
      }
    }

    /** ENTER on the initials entry: the initials go into the placed entry,
        the entry state is reset and the main screen follows. */
    method SaveInitials()
      requires Valid() && gameState == NewHighScore
      modifies this`gameState, this`highScoreIdxToUpdate, this`initial, this`newInitial, this`newInitials, highScores
      ensures Valid()
      ensures highScores[..] == old(highScores[..])[old(highScoreIdxToUpdate) := old(highScores[highScoreIdxToUpdate]).(initials := old(newInitials))]
      ensures initial == 0 && newInitial == 'A' && newInitials == "AAA" && highScoreIdxToUpdate == 0
      ensures gameState == MainScreen
    {
      highScores[highScoreIdxToUpdate] := highScores[highScoreIdxToUpdate].(initials := newInitials);
      initial := 0;
      newInitial := 'A';
      newInitials := "AAA";
      highScoreIdxToUpdate := 0;
      gameState := MainScreen;
    }

    // -------------------------------------------------------------------
    // Abilities: bomb, scatter shot and boost

    /** The bomb is released falling straight down. */
    method ReleaseBomb()
      modifies this`bombVel, this`bombVisible
      ensures bombVisible && bombVel == Vec2(0.0, 1.0)
    {
      bombVel := Vec2(0.0, 1.0);
      bombVisible := true;
    }

    /** The bomb is put away: inactive, hidden and at rest. */
    method ResetBomb()
      modifies this`bombActive, this`bombVel, this`bombVisible
      ensures !bombActive && !bombVisible && bombVel == ZERO
    {
      bombActive := false;
      bombVisible := false;
      bombVel := ZERO;
    }

    /** Both scatter shots appear with the projectile's velocity, shot 1 turned
        4 units up and shot 0 4 units down, so that they fan out symmetrically
        about the projectile's course. */
    method ReleaseProjectileScatter(velocity: Vec2)
      requires Shape()
      modifies scatterVisible, scatterVel
      ensures forall i :: 0 <= i < NUM_PROJECTILES_SCATTER ==> scatterVisible[i]
      ensures scatterVel[1] == Vec2(velocity.x, velocity.y - 4.0)
      ensures scatterVel[0] == Vec2(velocity.x, velocity.y + 4.0)
      ensures Add(scatterVel[0], scatterVel[1]) == Scale(velocity, 2.0)
    {
      for i := 0 to NUM_PROJECTILES_SCATTER
        invariant forall j :: 0 <= j < i ==> scatterVisible[j]
        invariant i > 0 ==> scatterVel[0] == Vec2(velocity.x, velocity.y + 4.0)
        invariant i > 1 ==> scatterVel[1] == Vec2(velocity.x, velocity.y - 4.0)
      {
        scatterVisible[i] := true;
        if i == 1 {
          scatterVel[i] := Vec2(velocity.x, velocity.y - 4.0);
        } else {
          scatterVel[i] := Vec2(velocity.x, velocity.y + 4.0);
        }
      }
    }

    /** Both scatter shots are put away: inactive, hidden and at rest. */
    method ResetProjectileScatter()
      requires Shape()
      modifies this`scatterActive, scatterVisible, scatterVel
      ensures !scatterActive
      ensures forall i :: 0 <= i < NUM_PROJECTILES_SCATTER ==> !scatterVisible[i] && scatterVel[i] == ZERO
    {
      for i := 0 to NUM_PROJECTILES_SCATTER
        invariant forall j :: 0 <= j < i ==> !scatterVisible[j] && scatterVel[j] == ZERO
        invariant i > 0 ==> !scatterActive
      {
        scatterActive := false;
        scatterVisible[i] := false;
        scatterVel[i] := ZERO;
      }
    }

    /** The current projectile's velocity doubles. */
    method BoostProjectile()
      requires Shape() && 0 <= projectile < NUM_PROJECTILES
      modifies projectileVel
      ensures projectileVel[..] == old(projectileVel[..])[projectile := Scale(old(projectileVel[projectile]), 2.0)]
    {
      var v := projectileVel[projectile];
      projectileVel[projectile] := Vec2(v.x * 2.0, v.y * 2.0);
    }

    /**
      After a shot: the bomb and the scatter shots are put away if they were
      used, the boost and wind flags are cleared, and the lowest visible
      projectile becomes the current one (the current one stays when none is
      visible).
    */
    method ResetProjectiles()
      requires Shape() && 0 <= projectile < NUM_PROJECTILES
      modifies this`bombActive, this`bombVel, this`bombVisible, this`scatterActive, scatterVisible, scatterVel
      modifies this`boostActive, this`windActive, this`projectile
      ensures 0 <= projectile < NUM_PROJECTILES
      ensures var k := FirstVisible(projectileVisible[..]);
              projectile == if k < NUM_PROJECTILES then k else old(projectile)
      ensures old(bombActive) ==> !bombActive && !bombVisible && bombVel == ZERO
      ensures !old(bombActive) ==> bombActive == old(bombActive) && bombVisible == old(bombVisible) && bombVel == old(bombVel)
      ensures old(scatterActive) ==> !scatterActive && forall i :: 0 <= i < NUM_PROJECTILES_SCATTER ==> !scatterVisible[i] && scatterVel[i] == ZERO
      ensures !old(scatterActive) ==> !scatterActive && unchanged(scatterVisible, scatterVel)
      ensures !boostActive && !windActive
    {
      if bombActive {
        ResetBomb();
      }
      if scatterActive {
        ResetProjectileScatter();
      }
      if boostActive {
        boostActive := false;
      }
      if windActive {
        windActive := false;
      }
      SelectProjectile();
    }

    /** The lowest visible projectile becomes the current one; the current one
        stays when none is visible. */
    method SelectProjectile()
      requires Shape() && 0 <= projectile < NUM_PROJECTILES
      modifies this`projectile
      ensures 0 <= projectile < NUM_PROJECTILES
      ensures var k := FirstVisible(projectileVisible[..]);
              projectile == if k < NUM_PROJECTILES then k else old(projectile)
    {
      ghost var pv := projectileVisible[..];
      var firstVisible := false;
      var i := 0;
      while i < NUM_PROJECTILES
        modifies this`projectile
        invariant 0 <= i <= NUM_PROJECTILES && 0 <= projectile < NUM_PROJECTILES
        invariant firstVisible == (FirstVisible(pv) < i)
        invariant firstVisible ==> projectile == FirstVisible(pv)
        invariant !firstVisible ==> projectile == old(projectile)
      {
        if projectileVisible[i] {
          if !firstVisible {
            firstVisible := true;
            projectile := i;
          }
        }
        i := i + 1;
      }
    }

    // -------------------------------------------------------------------
    // Collision passes

    /**
      One pass of a collision rule over visible targets, in index order: a
      visible target is removed when `a[i] || (b[i] && flag)`, scoring by the
      tariff and counting enemy hits; with `clears`, the first removal clears
      the flag (the bomb turns invisible on contact).
    */
    method Sweep(vis: array<bool>, a: seq<bool>, b: seq<bool>, flag: bool, clears: bool, t: Tariff)
      returns (removed: seq<bool>, flagOut: bool)
      requires |a| == vis.Length && |b| == vis.Length
      requires t != Enemy ==> vis.Length <= NUM_BLOCKS
      modifies vis, this`currentScore, this`noEnemiesHit
      ensures removed == Removed(old(vis[..]), a, b, flag, clears)
      ensures vis[..] == Cleared(old(vis[..]), removed)
      ensures Count(vis[..]) + Count(removed) == Count(old(vis[..]))
      ensures flagOut == FlagAfter(flag, removed, clears)
      ensures currentScore == old(currentScore) + Gain(removed, t, 0)
      ensures noEnemiesHit == old(noEnemiesHit) + (if t == Enemy then Count(removed) else 0)
    {
      ghost var v0 := vis[..];
      ghost var all := Removed(v0, a, b, flag, clears);
      removed := [];
      flagOut := flag;
      var i := 0;
      while i < vis.Length
        invariant 0 <= i <= vis.Length
        invariant removed == all[..i]
        invariant flagOut == FlagAfter(flag, removed, clears)
        invariant forall j :: 0 <= j < vis.Length ==> vis[j] == (if j < i then v0[j] && !removed[j] else v0[j])
        invariant currentScore == old(currentScore) + Gain(removed, t, 0)
        invariant noEnemiesHit == old(noEnemiesHit) + (if t == Enemy then Count(removed) else 0)
      {
        var hit := vis[i] && (a[i] || (b[i] && flagOut));
        SweepStep(v0, a, b, flag, clears, t, i);
        if hit {
          currentScore := currentScore + Points(t, i);
          vis[i] := false;
          if t == Enemy {
            noEnemiesHit := noEnemiesHit + 1;
          }
          if clears {
            flagOut := false;
          }
        }
        removed := removed + [hit];
        i := i + 1;
      }
      assert removed == all;
      assert vis[..] == Cleared(v0, removed);
      RemovedSound(v0, a, b, flag, clears);
      CountCleared(v0, removed);
    }

    /**
      `levelCollision`: every visible block the projectile lies inside is
      removed, scores by its tier and slows the projectile along x by the rate
      its tier and the projectile's kind give.
    */
    method LevelCollision(sc: Scene)
      requires Valid() && sc.Valid()
      modifies blockVisible, projectileVel, this`currentScore
      ensures Valid()
      ensures var r := LevelHits(sc, old(blockVisible[..]));
              var v := old(projectileVel[projectile]);
              blockVisible[..] == Cleared(old(blockVisible[..]), r)
              && currentScore == old(currentScore) + Gain(r, Impact, 0)
              && projectileVel[..] == old(projectileVel[..])[projectile := Vec2(DampedX(v.x, projectile, r, 0), v.y)]
    {
      ghost var v0 := blockVisible[..];
      ghost var vel0 := projectileVel[projectile];
      ghost var all := LevelHits(sc, v0);
      ghost var removed: seq<bool> := [];
      var projectileRect := sc.projectile;
      for i := 0 to NUM_BLOCKS
        invariant removed == all[..i]
        invariant forall j :: 0 <= j < NUM_BLOCKS ==> blockVisible[j] == (if j < i then v0[j] && !removed[j] else v0[j])
        invariant currentScore == old(currentScore) + Gain(removed, Impact, 0)
        invariant projectileVel[..] == old(projectileVel[..])[projectile := Vec2(DampedX(vel0.x, projectile, removed, 0), vel0.y)]
      {
        ghost var hit := blockVisible[i] && sc.inside(projectileRect, sc.blocks[i]);
        LevelStep(sc, v0, i, vel0.x, projectile);
        if blockVisible[i] {
          if sc.inside(projectileRect, sc.blocks[i]) {
            currentScore := currentScore + 5;
            blockVisible[i] := false;
            if i < 10 {
            } else if i < 30 {
              currentScore := currentScore + 5;
            } else if i < 40 {
              currentScore := currentScore + 10;
            } else {
              currentScore := currentScore + 50;
            }
            DampProjectile(i);
          }
        }
        removed := removed + [hit];
      }
      assert removed == all;
      assert blockVisible[..] == Cleared(v0, removed);
    }

    /** The damping a block hit applies to the current projectile: its
        x-velocity loses the fraction its tier and kind give; y is kept. */
    method DampProjectile(i: nat)
      requires Shape() && 0 <= projectile < NUM_PROJECTILES && i < NUM_BLOCKS
      modifies projectileVel
      ensures var v := old(projectileVel[projectile]);
              projectileVel[..] == old(projectileVel[..])[projectile := Vec2(Damp(v.x, projectile, i), v.y)]
    {
      var vel := projectileVel[projectile];
      if i < 10 {
        if projectile == 3 {
          projectileVel[projectile] := Vec2(vel.x - vel.x * 0.05, vel.y);
        } else {
          projectileVel[projectile] := Vec2(vel.x - vel.x * 0.10, vel.y);
        }
      } else if i < 30 {
        if projectile == 4 {
          projectileVel[projectile] := Vec2(vel.x - vel.x * 0.10, vel.y);
        } else if projectile == 2 {
          projectileVel[projectile] := Vec2(vel.x - vel.x * 0.05, vel.y);
        } else {
          projectileVel[projectile] := Vec2(vel.x - vel.x * 0.15, vel.y);
        }
      } else if i < 40 {
        if projectile < 4 {
          projectileVel[projectile] := Vec2(vel.x - vel.x * 0.25, vel.y);
        } else {
          projectileVel[projectile] := Vec2(vel.x - vel.x * 0.10, vel.y);
        }
      }
    }

    /** `enemyCollision`, hit part: every visible enemy that the projectile or a
        visible scatter shot touches is removed and scores `ENEMY_POINTS`. */
    method EnemyCollision(sc: Scene)
      requires Valid() && sc.Valid()
      modifies enemyVisible, this`currentScore, this`noEnemiesHit
      ensures Valid()
      ensures var r := EnemyHits(sc, old(enemyVisible[..]), scatterVisible[..]);
              enemyVisible[..] == Cleared(old(enemyVisible[..]), r)
              && noEnemiesHit == old(noEnemiesHit) + Count(r)
              && currentScore == old(currentScore) + ENEMY_POINTS * Count(r)
    {
      var struck := EnemyStruck(sc.inside, sc.projectile, sc.scatter, scatterVisible[..], sc.enemies);
      var r, _ := Sweep(enemyVisible, struck, NoneOf(NUM_ENEMIES), false, false, Enemy);
      EnemyGain(r, 0);
    }

    /** `windBreath`: the wind area in front of the projectile removes the
        enemies it touches and, as written, the blocks it touches under the
        bomb's visibility; nothing is cleared by a contact. */
    method WindBreath(sc: Scene)
      requires Valid() && sc.Valid()
      modifies enemyVisible, blockVisible, this`currentScore, this`noEnemiesHit
      ensures Valid()
      ensures var e := WindEnemies(sc, old(enemyVisible[..]));
              var b := WindBlocks(sc, old(blockVisible[..]), bombVisible);
              enemyVisible[..] == Cleared(old(enemyVisible[..]), e)
              && blockVisible[..] == Cleared(old(blockVisible[..]), b)
              && noEnemiesHit == old(noEnemiesHit) + Count(e)
              && currentScore == old(currentScore) + ENEMY_POINTS * Count(e) + Gain(b, Blast, 0)
    {
      var wind := WindRect(sc.projectile);
      var e, _ := Sweep(enemyVisible, Outward(sc.inside, wind, sc.enemies), Inward(sc.inside, wind, sc.enemies),
                        true, false, Enemy);
      var b, _ := Sweep(blockVisible, Outward(sc.inside, wind, sc.blocks), Inward(sc.inside, wind, sc.blocks),
                        bombVisible, false, Blast);
      EnemyGain(e, 0);
    }

    /** The platform pass of `bombCollision`: which visible platforms the bomb
        touches; platforms are not removed, but a contact hides the bomb. */
    method BombPlatformContacts(sc: Scene, visible: bool) returns (touched: seq<bool>, visibleOut: bool)
      requires Shape() && sc.Valid()
      ensures touched == Removed(platformVisible[..], Outward(sc.inside, sc.bomb, sc.platforms),
                                 Inward(sc.inside, sc.bomb, sc.platforms), visible, true)
      ensures visibleOut == FlagAfter(visible, touched, true)
    {
      ghost var pv := platformVisible[..];
      ghost var a := Outward(sc.inside, sc.bomb, sc.platforms);
      ghost var b := Inward(sc.inside, sc.bomb, sc.platforms);
      ghost var all := Removed(pv, a, b, visible, true);
      touched := [];
      visibleOut := visible;
      var bombRect := sc.bomb;
      for i := 0 to NUM_PLATFORMS
        invariant touched == all[..i]
        invariant visibleOut == FlagAfter(visible, touched, true)
      {
        var hit := platformVisible[i]
                   && (sc.inside(bombRect, sc.platforms[i]) || (sc.inside(sc.platforms[i], bombRect) && visibleOut));
        SweepStep(pv, a, b, visible, true, Enemy, i);
        if hit {
          visibleOut := false;
        }
        touched := touched + [hit];
      }
      assert touched == all;
    }

    /**
      `bombCollision`: the bomb against enemies, blocks and platforms; the
      ground test; then the explosion against enemies and blocks. The ground
      test is the intended one (the bomb's bottom edge below the play area's
      bottom edge).
    */
    method BombCollision(sc: Scene)
      requires Valid() && sc.Valid()
      modifies enemyVisible, blockVisible, this`currentScore, this`noEnemiesHit, this`bombVisible
      ensures Valid()
      ensures var o := BombPass(sc, old(enemyVisible[..]), old(blockVisible[..]), platformVisible[..], old(bombVisible));
              enemyVisible[..] == Cleared(Cleared(old(enemyVisible[..]), o.enemies1), o.enemies2)
              && blockVisible[..] == Cleared(Cleared(old(blockVisible[..]), o.blocks1), o.blocks2)
              && bombVisible == o.bombVisible
              && noEnemiesHit == old(noEnemiesHit) + Count(o.enemies1) + Count(o.enemies2)
              && currentScore == old(currentScore) + ENEMY_POINTS * (Count(o.enemies1) + Count(o.enemies2))
                                 + Gain(o.blocks1, Blast, 0) + Gain(o.blocks2, Blast, 0)
    {
      ghost var tally := noEnemiesHit + Count(enemyVisible[..]);
      var d := BombDirect(sc);
      assert noEnemiesHit + Count(enemyVisible[..]) == tally;
      var x := BombBlast(sc, d.explosion);
      assert noEnemiesHit + Count(enemyVisible[..]) == tally;
    }

    /** The direct passes of `bombCollision`: enemies, blocks, then platforms
        against the bomb rect. */
    method BombDirect(sc: Scene) returns (d: Direct)
      requires Shape() && sc.Valid()
      modifies enemyVisible, blockVisible, this`currentScore, this`noEnemiesHit, this`bombVisible
      ensures d == BombDirectPass(sc, old(enemyVisible[..]), old(blockVisible[..]), platformVisible[..], old(bombVisible))
      ensures enemyVisible[..] == Cleared(old(enemyVisible[..]), d.enemies)
      ensures blockVisible[..] == Cleared(old(blockVisible[..]), d.blocks)
      ensures bombVisible == d.visible
      ensures noEnemiesHit == old(noEnemiesHit) + Count(d.enemies)
      ensures Count(enemyVisible[..]) + Count(d.enemies) == Count(old(enemyVisible[..]))
      ensures currentScore == old(currentScore) + ENEMY_POINTS * Count(d.enemies) + Gain(d.blocks, Blast, 0)
    {
      var bombRect := sc.bomb;
      var explosion := NO_EXPLOSION;
      var visible;
      var e1, b1, p;
      e1, visible := Sweep(enemyVisible, Outward(sc.inside, bombRect, sc.enemies), Inward(sc.inside, bombRect, sc.enemies),
                           bombVisible, true, Enemy);
      bombVisible := visible;
      if Count(e1) > 0 {
        explosion := BlastRect(bombRect);
      }
      ghost var ev1, s1 := enemyVisible[..], currentScore;
      b1, visible := Sweep(blockVisible, Outward(sc.inside, bombRect, sc.blocks), Inward(sc.inside, bombRect, sc.blocks),
                           bombVisible, true, Blast);
      assert enemyVisible[..] == ev1 && currentScore == s1 + Gain(b1, Blast, 0);
      bombVisible := visible;
      if Count(b1) > 0 {
        explosion := BlastRect(bombRect);
      }
      p, visible := BombPlatformContacts(sc, bombVisible);
      bombVisible := visible;
      if Count(p) > 0 {
        explosion := BlastRect(bombRect);
      }
      EnemyGain(e1, 0);
      d := Direct(e1, b1, p, bombVisible, explosion);
    }

    /** The rest of `bombCollision`: the ground test, which hides the bomb,
        then enemies and blocks against the explosion rect under the bomb's
        visibility. */
    method BombBlast(sc: Scene, explosion: Rect) returns (x: Aftermath)
      requires Shape() && sc.Valid()
      modifies enemyVisible, blockVisible, this`currentScore, this`noEnemiesHit, this`bombVisible
      ensures x == BombBlastPass(sc, explosion, old(enemyVisible[..]), old(blockVisible[..]),
                                 old(bombVisible) && !Grounded(sc.bomb, sc.area))
      ensures enemyVisible[..] == Cleared(old(enemyVisible[..]), x.enemies)
      ensures blockVisible[..] == Cleared(old(blockVisible[..]), x.blocks)
      ensures bombVisible == x.visible
      ensures noEnemiesHit == old(noEnemiesHit) + Count(x.enemies)
      ensures Count(enemyVisible[..]) + Count(x.enemies) == Count(old(enemyVisible[..]))
      ensures currentScore == old(currentScore) + ENEMY_POINTS * Count(x.enemies) + Gain(x.blocks, Blast, 0)
    {
      var bombRect := sc.bomb;
      if bombRect.y + bombRect.height > sc.area.y + sc.area.height {
        bombVisible := false;
      }
      var visible;
      var e2, b2;
      e2, visible := Sweep(enemyVisible, Outward(sc.inside, explosion, sc.enemies), Inward(sc.inside, explosion, sc.enemies),
                           bombVisible, true, Enemy);
      bombVisible := visible;
      b2, visible := Sweep(blockVisible, Outward(sc.inside, explosion, sc.blocks), Inward(sc.inside, explosion, sc.blocks),
                           bombVisible, true, Blast);
      bombVisible := visible;
      EnemyGain(e2, 0);
      x := Aftermath(e2, b2, bombVisible);
    }

    // -------------------------------------------------------------------
    // Abilities key

    /**
      SPACE pressed in flight: the current projectile's ability, once per
      shot. Projectile 0 breathes wind, 1 drops the bomb, 2 doubles its
      speed, 3 splits into the scatter shots; 4 has none.
    */
    method KeySpacePressed(sc: Scene)
      requires Valid() && sc.Valid()
      modifies this`boostActive, this`bombActive, this`scatterActive, this`bombVel, this`bombVisible
      modifies this`currentScore, this`noEnemiesHit, enemyVisible, blockVisible, projectileVel
      modifies scatterVisible, scatterVel
      ensures Valid()
      ensures currentScore >= old(currentScore)
      ensures !(old(gameState) == InGame && old(flying)) ==>
                unchanged(this, enemyVisible, blockVisible, projectileVel, scatterVisible, scatterVel)
      ensures old(gameState) == InGame && old(flying)
              && (projectile == 4 || ((projectile == 0 || projectile == 2) && old(boostActive))
                  || (projectile == 1 && old(bombActive)) || (projectile == 3 && old(scatterActive))) ==>
                unchanged(this, enemyVisible, blockVisible, projectileVel, scatterVisible, scatterVel)
      ensures old(gameState) == InGame && old(flying) && projectile == 0 && !old(boostActive) ==>
                var e := WindEnemies(sc, old(enemyVisible[..]));
                var b := WindBlocks(sc, old(blockVisible[..]), bombVisible);
                boostActive
                && enemyVisible[..] == Cleared(old(enemyVisible[..]), e)
                && blockVisible[..] == Cleared(old(blockVisible[..]), b)
                && noEnemiesHit == old(noEnemiesHit) + Count(e)
                && currentScore == old(currentScore) + ENEMY_POINTS * Count(e) + Gain(b, Blast, 0)
                && bombActive == old(bombActive) && bombVisible == old(bombVisible) && bombVel == old(bombVel)
                && scatterActive == old(scatterActive) && unchanged(projectileVel, scatterVisible, scatterVel)
      ensures old(gameState) == InGame && old(flying) && projectile == 1 && !old(bombActive) ==>
                bombActive && bombVisible && bombVel == Vec2(0.0, 1.0)
                && boostActive == old(boostActive) && scatterActive == old(scatterActive)
                && currentScore == old(currentScore) && noEnemiesHit == old(noEnemiesHit)
                && unchanged(enemyVisible, blockVisible, projectileVel, scatterVisible, scatterVel)
      ensures old(gameState) == InGame && old(flying) && projectile == 2 && !old(boostActive) ==>
                boostActive
                && projectileVel[..] == old(projectileVel[..])[2 := Scale(old(projectileVel[2]), 2.0)]
                && bombActive == old(bombActive) && bombVisible == old(bombVisible) && bombVel == old(bombVel)
                && scatterActive == old(scatterActive)
                && currentScore == old(currentScore) && noEnemiesHit == old(noEnemiesHit)
                && unchanged(enemyVisible, blockVisible, scatterVisible, scatterVel)
      ensures old(gameState) == InGame && old(flying) && projectile == 3 && !old(scatterActive) ==>
                var v := projectileVel[3];
                scatterActive
                && (forall i :: 0 <= i < NUM_PROJECTILES_SCATTER ==> scatterVisible[i])
                && scatterVel[0] == Vec2(v.x, v.y + 4.0) && scatterVel[1] == Vec2(v.x, v.y - 4.0)
                && boostActive == old(boostActive)
                && bombActive == old(bombActive) && bombVisible == old(bombVisible) && bombVel == old(bombVel)
                && currentScore == old(currentScore) && noEnemiesHit == old(noEnemiesHit)
                && unchanged(enemyVisible, blockVisible, projectileVel)
    {
      if gameState == InGame && flying {
        if projectile == 0 {
          if !boostActive {
            Breathe(sc);
          }
        } else if projectile == 1 {
          if !bombActive {
            DropBomb();
          }
        } else if projectile == 2 {
          if !boostActive {
            Boost();
          }
        } else if projectile == 3 {
          if !scatterActive {
            Scatter();
          }
        }
      }
    }

    /** The wind ability: marked used (through the boost flag), and the wind
        breath blows. */
    method Breathe(sc: Scene)
      requires Valid() && sc.Valid()
      modifies this`boostActive, enemyVisible, blockVisible, this`currentScore, this`noEnemiesHit
      ensures Valid()
      ensures var e := WindEnemies(sc, old(enemyVisible[..]));
              var b := WindBlocks(sc, old(blockVisible[..]), bombVisible);
              boostActive
              && enemyVisible[..] == Cleared(old(enemyVisible[..]), e)
              && blockVisible[..] == Cleared(old(blockVisible[..]), b)
              && noEnemiesHit == old(noEnemiesHit) + Count(e)
              && currentScore == old(currentScore) + ENEMY_POINTS * Count(e) + Gain(b, Blast, 0)
    {
      boostActive := true;
      WindBreath(sc);
    }

    /** The bomb ability: marked used and released. */
    method DropBomb()
      requires Valid()
      modifies this`bombActive, this`bombVel, this`bombVisible
      ensures Valid()
      ensures bombActive && bombVisible && bombVel == Vec2(0.0, 1.0)
    {
      bombActive := true;
      ReleaseBomb();
    }

    /** The boost ability: marked used, and the current projectile doubles its speed. */
    method Boost()
      requires Valid()
      modifies this`boostActive, projectileVel
      ensures Valid()
      ensures boostActive
      ensures projectileVel[..] == old(projectileVel[..])[projectile := Scale(old(projectileVel[projectile]), 2.0)]
    {
      boostActive := true;
      BoostProjectile();
    }

    /** The scatter ability: marked used, and both scatter shots appear around
        the current projectile's velocity. */
    method Scatter()
      requires Valid()
      modifies this`scatterActive, scatterVisible, scatterVel
      ensures Valid()
      ensures scatterActive && forall i :: 0 <= i < NUM_PROJECTILES_SCATTER ==> scatterVisible[i]
      ensures var v := projectileVel[projectile];
              scatterVel[0] == Vec2(v.x, v.y + 4.0) && scatterVel[1] == Vec2(v.x, v.y - 4.0)
      ensures Add(scatterVel[0], scatterVel[1]) == Scale(projectileVel[projectile], 2.0)
    {
      scatterActive := true;
      ReleaseProjectileScatter(projectileVel[projectile]);
    }

    // -------------------------------------------------------------------
    // Shots and levels

    /**
      The boundary test of `projectileCollision`: a projectile that leaves the
      play area is spent. It is hidden, one fewer is left, the next visible
      one is made current and the flight ends; when none is left, the table
      is updated and the initials entry or the game-over screen follows.
    */
    method ProjectileBoundary(sc: Scene)
      requires Valid() && sc.Valid()
      modifies projectileVisible, this`projectilesLeft, this`flying, this`gameState
      modifies this`bombActive, this`bombVel, this`bombVisible, this`scatterActive, scatterVisible, scatterVel
      modifies this`boostActive, this`windActive, this`projectile
      modifies highScores, this`currentScore, this`highScoreIdxToUpdate
      ensures Valid()
      ensures !LeavesArea(sc.projectile, sc.area) ==>
                unchanged(this, projectileVisible, scatterVisible, scatterVel, highScores)
      ensures LeavesArea(sc.projectile, sc.area) ==>
                projectileVisible[..] == old(projectileVisible[..])[old(projectile) := false]
                && projectilesLeft == old(projectilesLeft) - 1 && !flying
                && projectile == (var k := FirstVisible(projectileVisible[..]);
                                  if k < NUM_PROJECTILES then k else old(projectile))
                && !bombActive && !scatterActive && !boostActive && !windActive
      ensures LeavesArea(sc.projectile, sc.area) && old(bombActive) ==> !bombVisible && bombVel == ZERO
      ensures LeavesArea(sc.projectile, sc.area) && !old(bombActive) ==>
                bombVisible == old(bombVisible) && bombVel == old(bombVel)
      ensures LeavesArea(sc.projectile, sc.area) && old(scatterActive) ==>
                forall i :: 0 <= i < NUM_PROJECTILES_SCATTER ==> !scatterVisible[i] && scatterVel[i] == ZERO
      ensures LeavesArea(sc.projectile, sc.area) && !old(scatterActive) ==> unchanged(scatterVisible, scatterVel)
      ensures LeavesArea(sc.projectile, sc.area) && projectilesLeft != 0 ==>
                gameState == old(gameState) && highScores[..] == old(highScores[..])
                && currentScore == old(currentScore) && highScoreIdxToUpdate == old(highScoreIdxToUpdate)
      ensures LeavesArea(sc.projectile, sc.area) && projectilesLeft == 0 ==>
                highScores[..] == UpdatedTable(old(highScores[..]), old(currentScore)) && currentScore == 0
                && highScoreIdxToUpdate == (if Beats(old(highScores[..]), old(currentScore))
                                            then FirstBelow(old(highScores[..]), old(currentScore)) else 0)
                && gameState == (if Beats(old(highScores[..]), old(currentScore)) then NewHighScore else GameOverScreen)
    {
      if LeavesArea(sc.projectile, sc.area) {
        LeaveArea();
      }
    }

    /** A projectile that left the play area: it is spent, and when it was the
        last one the game ends. */
    method LeaveArea()
      requires Valid()
      modifies projectileVisible, this`projectilesLeft, this`flying, this`gameState
      modifies this`bombActive, this`bombVel, this`bombVisible, this`scatterActive, scatterVisible, scatterVel
      modifies this`boostActive, this`windActive, this`projectile
      modifies highScores, this`currentScore, this`highScoreIdxToUpdate
      ensures Valid()
      ensures projectileVisible[..] == old(projectileVisible[..])[old(projectile) := false]
                && projectilesLeft == old(projectilesLeft) - 1 && !flying
                && projectile == (var k := FirstVisible(projectileVisible[..]);
                                  if k < NUM_PROJECTILES then k else old(projectile))
                && !bombActive && !scatterActive && !boostActive && !windActive
      ensures old(bombActive) ==> !bombVisible && bombVel == ZERO
      ensures !old(bombActive) ==>
                bombVisible == old(bombVisible) && bombVel == old(bombVel)
      ensures old(scatterActive) ==>
                forall i :: 0 <= i < NUM_PROJECTILES_SCATTER ==> !scatterVisible[i] && scatterVel[i] == ZERO
      ensures !old(scatterActive) ==> unchanged(scatterVisible, scatterVel)
      ensures projectilesLeft != 0 ==>
                gameState == old(gameState) && highScores[..] == old(highScores[..])
                && currentScore == old(currentScore) && highScoreIdxToUpdate == old(highScoreIdxToUpdate)
      ensures projectilesLeft == 0 ==>
                highScores[..] == UpdatedTable(old(highScores[..]), old(currentScore)) && currentScore == 0
                && highScoreIdxToUpdate == (if Beats(old(highScores[..]), old(currentScore))
                                            then FirstBelow(old(highScores[..]), old(currentScore)) else 0)
                && gameState == (if Beats(old(highScores[..]), old(currentScore)) then NewHighScore else GameOverScreen)
    {
      SpendProjectile();
      assert Shape() && Settings() && EnemyTally();
      if projectilesLeft == 0 {
        LastShot();
      } else {
        assert ProjectileTally();
      }
    }

    /** The last projectile is spent: the game ends, and no level is being
        played any more. */
    method LastShot()
      requires Shape() && Settings() && EnemyTally() && projectilesLeft == 0
      modifies highScores, this`currentScore, this`highScoreIdxToUpdate, this`gameState
      ensures Valid()
      ensures highScores[..] == UpdatedTable(old(highScores[..]), old(currentScore)) && currentScore == 0
      ensures highScoreIdxToUpdate == (if Beats(old(highScores[..]), old(currentScore))
                                       then FirstBelow(old(highScores[..]), old(currentScore)) else 0)
      ensures gameState == (if Beats(old(highScores[..]), old(currentScore)) then NewHighScore else GameOverScreen)
    {
      EndGame();
      assert !Playing();
    }

    /** A spent projectile: hidden, one fewer left, the next visible one made
        current, and the flight over. */
    method SpendProjectile()
      requires Shape() && 0 <= projectile < NUM_PROJECTILES
      modifies projectileVisible, this`projectilesLeft, this`flying
      modifies this`bombActive, this`bombVel, this`bombVisible, this`scatterActive, scatterVisible, scatterVel
      modifies this`boostActive, this`windActive, this`projectile
      ensures projectileVisible[..] == old(projectileVisible[..])[old(projectile) := false]
      ensures old(projectileVisible[projectile]) ==> Count(projectileVisible[..]) == Count(old(projectileVisible[..])) - 1
      ensures projectilesLeft == old(projectilesLeft) - 1 && !flying && !boostActive && !windActive
      ensures old(bombActive) ==> !bombActive && !bombVisible && bombVel == ZERO
      ensures !old(bombActive) ==> !bombActive && bombVisible == old(bombVisible) && bombVel == old(bombVel)
      ensures old(scatterActive) ==> !scatterActive && forall i :: 0 <= i < NUM_PROJECTILES_SCATTER ==> !scatterVisible[i] && scatterVel[i] == ZERO
      ensures !old(scatterActive) ==> !scatterActive && unchanged(scatterVisible, scatterVel)
      ensures 0 <= projectile < NUM_PROJECTILES
      ensures projectile == (var k := FirstVisible(projectileVisible[..]);
                             if k < NUM_PROJECTILES then k else old(projectile))
      ensures Count(projectileVisible[..]) > 0 ==> projectileVisible[projectile]
    {
      ghost var pv := projectileVisible[..];
      projectileVisible[projectile] := false;
      assert projectileVisible[..] == pv[projectile := false];
      if pv[projectile] {
        CountClear(pv, projectile);
      }
      projectilesLeft := projectilesLeft - 1;
      ResetProjectiles();
      FirstVisibleIffAny(projectileVisible[..]);
      flying := false;
    }

    /** The end of a game, when the last projectile is spent or the last
        level is complete: the table is updated, then the initials entry
        follows when the score placed, and the game-over screen otherwise. */
    method EndGame()
      requires Shape()
      modifies highScores, this`currentScore, this`highScoreIdxToUpdate, this`gameState
      ensures var s := old(currentScore) + old(projectilesLeft) * 500;
              highScores[..] == UpdatedTable(old(highScores[..]), s)
              && highScoreIdxToUpdate == (if Beats(old(highScores[..]), s) then FirstBelow(old(highScores[..]), s) else 0)
              && gameState == (if Beats(old(highScores[..]), s) then NewHighScore else GameOverScreen)
      ensures currentScore == 0 && 0 <= highScoreIdxToUpdate < NUM_HIGH_SCORES
    {
      var updated := UpdateHighScores();
      if updated {
        gameState := NewHighScore;
      } else {
        gameState := GameOverScreen;
      }
    }

    /**
      `setupLevel` with the map layout drawn for it: every block, enemy and
      projectile is shown, and the platforms of this level and layout and no
      others (the corrected platform set-up).
    */
    method SetupLevel(layout: int)
      requires Shape() && 0 <= level < NUM_LEVELS && 0 <= layout < 3
      modifies blockVisible, enemyVisible, platformVisible, projectileVisible
      ensures forall i :: 0 <= i < NUM_BLOCKS ==> blockVisible[i]
      ensures forall i :: 0 <= i < NUM_ENEMIES ==> enemyVisible[i]
      ensures forall i :: 0 <= i < NUM_PROJECTILES ==> projectileVisible[i]
      ensures platformVisible[..] == PlatformsFor(PlatformsShown(level, layout))
      ensures Count(enemyVisible[..]) == NUM_ENEMIES && Count(projectileVisible[..]) == NUM_PROJECTILES
      ensures Count(platformVisible[..]) == PlatformsShown(level, layout)
    {
      forall i | 0 <= i < NUM_ENEMIES {
        enemyVisible[i] := true;
      }
      var n := PlatformsShown(level, layout);
      forall i | 0 <= i < NUM_PLATFORMS {
        platformVisible[i] := i < n;
      }
      for i := 0 to NUM_PROJECTILES
        modifies projectileVisible
        invariant forall j :: 0 <= j < i ==> projectileVisible[j]
      {
        projectileVisible[i] := true;
      }
      for i := 0 to NUM_BLOCKS
        modifies blockVisible
        invariant forall j :: 0 <= j < i ==> blockVisible[j]
      {
        blockVisible[i] := true;
      }
      CountAllSet(enemyVisible[..]);
      CountAllSet(projectileVisible[..]);
      PlatformsForCount(n);
    }

    /**
      `newGame`: the level is set up, the bomb and the scatter shots are put
      away, and the counters start over with five projectiles, the first one
      current. On the game screen a level is then being played.
    */
    method NewGame(layout: int)
      requires Valid() && 0 <= layout < 3
      modifies blockVisible, enemyVisible, platformVisible, projectileVisible
      modifies this`bombActive, this`bombVel, this`bombVisible, this`scatterActive, scatterVisible, scatterVel
      modifies this`currentScore, this`newGame, this`flying, this`projectile, this`projectilesLeft, this`noEnemiesHit
      ensures Valid()
      ensures gameState == InGame ==> Playing()
      ensures forall i :: 0 <= i < NUM_BLOCKS ==> blockVisible[i]
      ensures forall i :: 0 <= i < NUM_ENEMIES ==> enemyVisible[i]
      ensures forall i :: 0 <= i < NUM_PROJECTILES ==> projectileVisible[i]
      ensures platformVisible[..] == PlatformsFor(PlatformsShown(level, layout))
      ensures !bombActive && !bombVisible && !scatterActive
      ensures forall i :: 0 <= i < NUM_PROJECTILES_SCATTER ==> !scatterVisible[i]
      ensures bombVel == ZERO && forall i :: 0 <= i < NUM_PROJECTILES_SCATTER ==> scatterVel[i] == ZERO
      ensures currentScore == 0 && !newGame && !flying && projectile == 0
      ensures projectilesLeft == NUM_PROJECTILES && noEnemiesHit == 0
    {
      SetupLevel(layout);
      ResetForLevel();
    }

    /** The rest of `newGame` after the level set-up: the bomb and the scatter
        shots are put away and the game variables start over. */
    method ResetForLevel()
      requires Shape()
      modifies this`bombActive, this`bombVel, this`bombVisible, this`scatterActive, scatterVisible, scatterVel
      modifies this`currentScore, this`newGame, this`flying, this`projectile, this`projectilesLeft, this`noEnemiesHit
      ensures !bombActive && !bombVisible && bombVel == ZERO && !scatterActive
      ensures forall i :: 0 <= i < NUM_PROJECTILES_SCATTER ==> !scatterVisible[i] && scatterVel[i] == ZERO
      ensures currentScore == 0 && !newGame && !flying && projectile == 0
      ensures projectilesLeft == NUM_PROJECTILES && noEnemiesHit == 0
    {
      ResetBomb();
      ResetProjectileScatter();
      currentScore := 0;
      newGame := false;
      flying := false;
      projectile := 0;
      projectilesLeft := NUM_PROJECTILES;
      noEnemiesHit := 0;
    }

    /**
      The level-completion block of `update`: once all six enemies are hit,
      every projectile left earns 200 points and the next level starts with
      the score carried over; after the third level the table is updated
      (where every projectile left earns another 500) and the initials entry
      or the game-over screen follows.
    */
    method CompleteLevel(layout: int)
      requires Valid() && 0 <= layout < 3
      modifies blockVisible, enemyVisible, platformVisible, projectileVisible
      modifies this`bombActive, this`bombVel, this`bombVisible, this`scatterActive, scatterVisible, scatterVel
      modifies this`currentScore, this`newGame, this`flying, this`projectile, this`projectilesLeft, this`noEnemiesHit
      modifies this`level, this`gameState, highScores, this`highScoreIdxToUpdate
      ensures Valid()
      ensures old(noEnemiesHit) != NUM_ENEMIES ==>
                unchanged(this, blockVisible, enemyVisible, platformVisible, projectileVisible, scatterVisible, scatterVel, highScores)
      ensures old(noEnemiesHit) == NUM_ENEMIES ==>
                (forall i :: 0 <= i < NUM_ENEMIES ==> !old(enemyVisible[i])) && noEnemiesHit == 0
      ensures old(noEnemiesHit) == NUM_ENEMIES && old(level) < NUM_LEVELS - 1 ==>
                level == old(level) + 1
                && currentScore == old(currentScore) + old(projectilesLeft) * 200
                && projectilesLeft == NUM_PROJECTILES && !newGame && gameState == old(gameState)
                && (forall i :: 0 <= i < NUM_ENEMIES ==> enemyVisible[i])
                && platformVisible[..] == PlatformsFor(PlatformsShown(level, layout))
                && highScores[..] == old(highScores[..]) && highScoreIdxToUpdate == old(highScoreIdxToUpdate)
      ensures old(noEnemiesHit) == NUM_ENEMIES && old(level) < NUM_LEVELS - 1 ==>
                (forall i :: 0 <= i < NUM_BLOCKS ==> blockVisible[i])
                && (forall i :: 0 <= i < NUM_PROJECTILES ==> projectileVisible[i])
                && !bombActive && !bombVisible && bombVel == ZERO && !scatterActive
                && (forall i :: 0 <= i < NUM_PROJECTILES_SCATTER ==> !scatterVisible[i] && scatterVel[i] == ZERO)
                && !flying && projectile == 0 && boostActive == old(boostActive)
      ensures old(noEnemiesHit) == NUM_ENEMIES && old(level) == NUM_LEVELS - 1 ==>
                var s := old(currentScore) + old(projectilesLeft) * 200 + old(projectilesLeft) * 500;
                level == 0 && currentScore == 0
                && highScores[..] == UpdatedTable(old(highScores[..]), s)
                && highScoreIdxToUpdate == (if Beats(old(highScores[..]), s) then FirstBelow(old(highScores[..]), s) else 0)
                && gameState == (if Beats(old(highScores[..]), s) then NewHighScore else GameOverScreen)
      ensures old(noEnemiesHit) == NUM_ENEMIES && old(level) == NUM_LEVELS - 1 ==>
                unchanged(blockVisible, enemyVisible, platformVisible, projectileVisible, scatterVisible, scatterVel)
                && projectilesLeft == old(projectilesLeft) && projectile == old(projectile)
                && flying == old(flying) && newGame == old(newGame)
                && bombActive == old(bombActive) && bombVisible == old(bombVisible) && bombVel == old(bombVel)
                && scatterActive == old(scatterActive)
    {
      if noEnemiesHit == NUM_ENEMIES {
        CountZero(enemyVisible[..]);
        if level + 1 < NUM_LEVELS {
          NextLevel(layout);
        } else {
          LastLevel();
        }
      }
    }

    /** A level other than the last is complete: 200 points per projectile
        left, then the next level starts with the score carried over. */
    method NextLevel(layout: int)
      requires Valid() && level + 1 < NUM_LEVELS && 0 <= layout < 3
      modifies blockVisible, enemyVisible, platformVisible, projectileVisible
      modifies this`bombActive, this`bombVel, this`bombVisible, this`scatterActive, scatterVisible, scatterVel
      modifies this`currentScore, this`newGame, this`flying, this`projectile, this`projectilesLeft, this`noEnemiesHit
      modifies this`level
      ensures Valid()
      ensures level == old(level) + 1 && currentScore == old(currentScore) + old(projectilesLeft) * 200
      ensures forall i :: 0 <= i < NUM_BLOCKS ==> blockVisible[i]
      ensures forall i :: 0 <= i < NUM_ENEMIES ==> enemyVisible[i]
      ensures forall i :: 0 <= i < NUM_PROJECTILES ==> projectileVisible[i]
      ensures platformVisible[..] == PlatformsFor(PlatformsShown(level, layout))
      ensures !bombActive && !bombVisible && bombVel == ZERO && !scatterActive
      ensures forall i :: 0 <= i < NUM_PROJECTILES_SCATTER ==> !scatterVisible[i] && scatterVel[i] == ZERO
      ensures !newGame && !flying && projectile == 0
      ensures projectilesLeft == NUM_PROJECTILES && noEnemiesHit == 0
    {
      var temp := currentScore + projectilesLeft * 200;
      level := level + 1;
      NewGame(layout);
      currentScore := temp;
    }

    /** The last level is complete: 200 points per projectile left, the level
        count starts over, and the game ends through the high-score table. */
    method LastLevel()
      requires Shape() && Settings() && level + 1 == NUM_LEVELS
      requires noEnemiesHit == NUM_ENEMIES && Count(enemyVisible[..]) == 0
      modifies this`currentScore, this`level, this`gameState, highScores, this`highScoreIdxToUpdate, this`noEnemiesHit
      ensures Valid()
      ensures var s := old(currentScore) + old(projectilesLeft) * 200 + old(projectilesLeft) * 500;
              level == 0 && currentScore == 0 && noEnemiesHit == 0
              && highScores[..] == UpdatedTable(old(highScores[..]), s)
              && highScoreIdxToUpdate == (if Beats(old(highScores[..]), s) then FirstBelow(old(highScores[..]), s) else 0)
              && gameState == (if Beats(old(highScores[..]), s) then NewHighScore else GameOverScreen)
    {
      Conclude(projectilesLeft * 200);
      level := 0;
      noEnemiesHit := 0;
      assert Settings() && EnemyTally();
    }

    /** The game ends with `points` more to the score: the score with its
        bonus goes through the high-score table. */
    method Conclude(points: int)
      requires Shape()
      modifies highScores, this`currentScore, this`highScoreIdxToUpdate, this`gameState
      ensures 0 <= highScoreIdxToUpdate < NUM_HIGH_SCORES && !Playing()
      ensures var s := old(currentScore) + points + old(projectilesLeft) * 500;
              highScores[..] == UpdatedTable(old(highScores[..]), s)
              && highScoreIdxToUpdate == (if Beats(old(highScores[..]), s) then FirstBelow(old(highScores[..]), s) else 0)
              && gameState == (if Beats(old(highScores[..]), s) then NewHighScore else GameOverScreen)
      ensures currentScore == 0
    {
      ghost var t := highScores[..];
      currentScore := currentScore + points;
      assert highScores[..] == t;
      EndGame();
      assert !Playing();
    }
  }
}
