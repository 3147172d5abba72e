/**
 * The two demo scenes of main.py: the menu and the game scene's input rules,
 * and the game scene's movement with its bounds clamp.  Drawing is not modelled.
 */
module DemoScenes {
  import opened Wrappers
  import opened Scenes

  /** MainMenuScene.handle_events: SPACE pressed anywhere in the batch starts the game. */
  method MainMenuHandleEvents(events: seq<Event>) returns (r: Option<string>)
    ensures r == Some("GameScene") <==> KeyDown(KSpace) in events
    ensures r == None <==> KeyDown(KSpace) !in events
  {
    for i := 0 to |events|
      invariant forall j :: 0 <= j < i ==> events[j] != KeyDown(KSpace)
    {
      if events[i].KeyDown? && events[i].key == KSpace {
        return Some("GameScene");
      }
    }
    return None;
  }

  /** GameScene.handle_events: ESCAPE pressed anywhere in the batch returns to the menu. */
  method GameSceneHandleEvents(events: seq<Event>) returns (r: Option<string>)
    ensures r == Some("MainMenu") <==> KeyDown(KEscape) in events
    ensures r == None <==> KeyDown(KEscape) !in events
  {
    for i := 0 to |events|
      invariant forall j :: 0 <= j < i ==> events[j] != KeyDown(KEscape)
    {
      if events[i].KeyDown? && events[i].key == KEscape {
        return Some("MainMenu");
      }
    }
    return None;
  }

  /** The screen size the game scene assumes, and the player's radius. */
  const ScreenWidth: real := 800.0
  const ScreenHeight: real := 600.0
  const PlayerRadius: real := 25.0

  /** `max(lo, min(hi, v))`: the value pulled into [lo, hi]. */
  function Clamp(lo: real, hi: real, v: real): (r: real)
    ensures lo <= hi ==> lo <= r <= hi
    ensures lo <= v <= hi ==> r == v
    ensures lo <= hi && v < lo ==> r == lo
    ensures lo <= hi && hi < v ==> r == hi
  {
    var inner := if v < hi then v else hi;
    if lo < inner then inner else lo
  }

  /** The arrow keys held down during one update. */
  datatype Keys = Keys(left: bool, right: bool, up: bool, down: bool)

  /** The distance one held key moves the player in `dt` seconds. */
  function Step(held: bool, speed: real, dt: real): real
  {
    if held then speed * dt else 0.0
  }

  /** The player is inside the screen, a full radius away from every edge. */
  predicate OnScreen(pos: seq<real>)
  {
    |pos| == 2
    && PlayerRadius <= pos[0] <= ScreenWidth - PlayerRadius
    && PlayerRadius <= pos[1] <= ScreenHeight - PlayerRadius
  }

  /** GameScene: the player's position, moved by the arrow keys. */
  class GameScene {
    const name: string
    var playerPos: seq<real>
    const playerSpeed: real

    ghost predicate Valid()
      reads this
    {
      |playerPos| == 2
    }

    constructor ()
      ensures Valid() && name == "GameScene"
      ensures playerPos == [400.0, 300.0] && playerSpeed == 300.0
    {
      name := "GameScene";
      playerPos := [400.0, 300.0];
      playerSpeed := 300.0;
    }

    /** GameScene.update with the pressed keys given: move, then clamp to the screen. */
    method Update(dt: real, keys: Keys)
      requires Valid()
      modifies this
      ensures Valid()
      ensures playerPos ==
        [Clamp(PlayerRadius, ScreenWidth - PlayerRadius,
               old(playerPos[0]) - Step(keys.left, playerSpeed, dt) + Step(keys.right, playerSpeed, dt)),
         Clamp(PlayerRadius, ScreenHeight - PlayerRadius,
               old(playerPos[1]) - Step(keys.up, playerSpeed, dt) + Step(keys.down, playerSpeed, dt))]
      ensures OnScreen(playerPos)
    {
      if keys.left {
        playerPos := playerPos[0 := playerPos[0] - playerSpeed * dt];
      }
      if keys.right {
        playerPos := playerPos[0 := playerPos[0] + playerSpeed * dt];
      }
      if keys.up {
        playerPos := playerPos[1 := playerPos[1] - playerSpeed * dt];
      }
      if keys.down {
        playerPos := playerPos[1 := playerPos[1] + playerSpeed * dt];
      }
      playerPos := playerPos[0 := Clamp(PlayerRadius, ScreenWidth - PlayerRadius, playerPos[0])];
      playerPos := playerPos[1 := Clamp(PlayerRadius, ScreenHeight - PlayerRadius, playerPos[1])];
    }
  }
}
