/**
 * The configuration main.py builds, driven through one menu-to-game switch:
 * only the manager's and the scenes' specifications are used to follow it.
 */
module DemoSession {
  import opened Wrappers
  import opened Scenes
  import opened Transitions
  import opened Fade
  import opened DemoScenes
  import opened SceneManagement

  /** main: register the two scenes and their fades, then start on the menu. */
  method Configure() returns (m: SceneManager, menu: Scene, game: Scene)
    ensures fresh(m) && m.Valid()
    ensures m.scenes == map["MainMenu" := menu, "GameScene" := game]
    ensures menu.name == "MainMenu" && game.name == "GameScene" && menu != game
    ensures m.transitionMap == map[("MainMenu", "GameScene") := FadeFactory(1.0),
                                   ("GameScene", "MainMenu") := FadeFactory(0.8)]
    ensures m.defaultTransition == None
    ensures m.currentScene == Some(menu) && !m.inTransition && m.running
    ensures m.trace == [OnEnter(menu)]
  {
    m := new SceneManager();
    menu, game := Scene(0, "MainMenu"), Scene(1, "GameScene");
    m.AddScene("MainMenu", menu);
    m.AddScene("GameScene", game);
    m.RegisterTransition("MainMenu", "GameScene", FadeFactory(1.0));
    m.RegisterTransition("GameScene", "MainMenu", FadeFactory(0.8));
    var outcome := m.SwitchScene("MainMenu");
    assert outcome == Pass;
  }

  /**
   * SPACE on the menu starts a one-second fade; after half a second the game
   * is not yet current, after a second it is, the menu was exited once and the
   * game entered once.
   */
  method MenuToGame()
  {
    var m, menu, game := Configure();
    var events := [KeyDown(KSpace)];
    var reply := MainMenuHandleEvents(events);
    assert reply == Some("GameScene");

    var outcome := m.Tick(0.016, events, reply);
    assert outcome == Pass && m.inTransition && m.currentScene == Some(menu);
    assert m.transition.State() == Start(1.0);
    assert m.trace == [OnEnter(menu), HandleEvents(menu), RenderScene(menu, OldBuffer),
                       OnEnter(game), UpdateScene(game, 0.0), RenderScene(game, NewBuffer), Flip];
    ghost var started := m.trace;

    outcome := m.Tick(0.5, [], None);
    FadeEndpoints();
    assert outcome == Pass && m.inTransition && m.currentScene == Some(menu);
    assert m.trace == started + [Composite(Shot(game), 255), Flip];
    ghost var halfway := m.trace;

    outcome := m.Tick(0.5, [], None);
    assert outcome == Pass && !m.inTransition && m.transition == null;
    assert m.currentScene == Some(game);
    assert m.trace == halfway + [Composite(Shot(game), 0), OnExit(menu), Flip];
  }

  /** run("MainMenu") with no tick input: the menu is entered and becomes current, without error. */
  method RunWithoutInput()
  {
    var m := new SceneManager();
    var menu := Scene(0, "MainMenu");
    m.AddScene("MainMenu", menu);
    var outcome, ticks := m.Run("MainMenu", []);
    assert outcome == Pass && ticks == 0;
    assert m.currentScene == Some(menu) && m.trace == [OnEnter(menu)];
  }
}
