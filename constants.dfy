/**
  Array sizes, screens and menu entries shared by the game's modules.
*/
module Constants {

  const NUM_PROJECTILES_SCATTER: nat := 2
  const NUM_PROJECTILES: nat := 5
  const NUM_ENEMIES: nat := 6
  const NUM_BLOCKS: nat := 41
  const NUM_LEVELS: nat := 3
  const NUM_PLATFORMS: nat := 10
  const NUM_HIGH_SCORES: nat := 10

  /** The screen the game is showing (`game_state`). */
  datatype Screen =
    | SplashScreen
    | MainScreen
    | HighScoresScreen
    | GameOverScreen
    | NewHighScore
    | InGame

  /** Main menu entries (`menu_option`). */
  const ONE_PLAYER: int := 0
  const HIGH_SCORES: int := 1
  const EXIT_GAME: int := 2

  /** Points for every enemy removed, whatever removed it. */
  const ENEMY_POINTS: nat := 150
}
