/**
 The game's phase and kill counter. The process-wide singleton is an explicit value
 that the rules take and return.
 */
module GameState {
  import opened Wrappers

  const Playing := "playing"
  const GameOver := "gameover"

  datatype GameState = GameState(state: string, killCount: nat)

  /** The first `getInstance`: playing, no kills. Later calls return the same value. */
  function Initial(): (g: GameState)
    ensures g.state == Playing && g.killCount == 0
  {
    GameState(Playing, 0)
  }

  /** `getInstance`: the existing instance when there is one, else a fresh initial one. */
  function GetInstance(instance: Option<GameState>): (g: GameState)
    ensures instance.Some? ==> g == instance.value
    ensures instance.None? ==> g == Initial()
  {
    if instance.Some? then instance.value else Initial()
  }

  function SetState(g: GameState, s: string): (r: GameState)
    ensures r.state == s && r.killCount == g.killCount
  {
    if g.state != s then g.(state := s) else g
  }

  predicate IsPlaying(g: GameState) {
    g.state == Playing
  }

  predicate IsGameOver(g: GameState) {
    g.state == GameOver
  }

  function IncrementKills(g: GameState): (r: GameState)
    ensures r.killCount == g.killCount + 1 && r.state == g.state
  {
    g.(killCount := g.killCount + 1)
  }

  function Reset(g: GameState): (r: GameState)
    ensures r == Initial()
  {
    GameState(Playing, 0)
  }

  /** Playing and game over exclude each other; setting a state decides both tests. */
  lemma StateTests(g: GameState, s: string)
    ensures !(IsPlaying(g) && IsGameOver(g))
    ensures IsPlaying(SetState(g, s)) <==> s == Playing
    ensures IsGameOver(SetState(g, s)) <==> s == GameOver
  {
  }
}
