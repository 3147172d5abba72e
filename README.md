# Scene manager and transitions, modelled in Dafny

This project models the core of a small pygame scene framework. `SceneManager` keeps a registry of named scenes and a registry of transition factories keyed by the ordered pair (from-scene name, to-scene name), with an optional default factory. It also holds the current scene and, while a switch is animated, the transition in flight and the name of the pending target. Each iteration of the main loop either advances the transition and composites its frame (committing the switch when the transition completes), or asks the idle current scene whether it wants to switch, and otherwise updates and renders it.

The transition base class is a timer: `update(dt)` adds `dt` to the elapsed time and latches `is_complete` once the elapsed time reaches the duration. The one concrete transition, a fade, shows the old scene under a darkening black overlay for the first half. For the second half it shows the new scene under a lightening overlay. The two demo scenes switch on SPACE and ESCAPE, and the game scene keeps its player inside the 800×600 screen.

Modules, one per source file or component:

- `Wrappers` (wrappers.dfy): `Option` and `Outcome`. A raised exception is a `Fail` outcome.
- `Scenes` (scenes.dfy): the abstract scene of scene.py. A `Scene` value has an identity and its own `name` attribute. That attribute is kept apart from the registry key the scene is stored under, because the transition lookup uses the attribute. The module also defines input events and the `Call` entries of the manager's ghost trace: `OnEnter`, `OnExit`, `HandleEvents`, `UpdateScene`, `RenderScene`, `Composite` and `Flip`.
- `Transitions` (transition.dfy): the timer as a datatype `Timer` with the specification functions `Advance` and `AdvanceAll`, the class `Transition` whose methods are proved against them, and lemmas about sequences of updates.
- `Fade` (fade.dfy): the arithmetic of `FadeTransition.render`: the capped progress, which buffer is shown and the overlay alpha. Python's `int()` is modelled as truncation toward zero.
- `DemoScenes` (demo_scenes.dfy): the two `handle_events` loops, and the game scene as a class whose `Update` moves and clamps `playerPos`.
- `SceneManagement` (scene_manager.dfy): the class `SceneManager`, its registration and switching methods, `Tick` (one loop iteration) and `Run` (the loop).
- `DemoSession` (demo_session.dfy): the configuration `main` builds, and the menu-to-game switch driven tick by tick through the specifications only.

Modelling choices:

- Time and positions are exact `real` numbers, not IEEE floats.
- Each `Tick` receives its frame time `dt` and the polled events as parameters.
- `reply` is whatever the current scene's `handle_events` returns for those events. The manager consults it only in an idle tick, and the trace records that consultation as `HandleEvents`.
- A transition factory is `FadeFactory(duration)`, because a fade is the only transition the code defines.
- Pixel buffers are `Snapshot`s that record which scene was rendered into them.
- A key event carries only pygame's integer key code. `KSpace` is 32 and `KEscape` is 27, so there is one way to write each key press.
- `Valid()` states the manager's invariant:
  - a transition object is held exactly while `inTransition` is set;
  - the pending target is a registered name;
  - the held transition is not yet complete.

  The invariant is why the commit's lookup `scenes[next_scene_name]` cannot fail. Every method keeps the invariant, except when a tick (or `Run` through it) raises on a zero duration.

Points where the model follows the code's exact behaviour:

- The only transition the code defines is the fade (main.py:9-34). No other transition variant is modelled.
- `switch_scene_with_transition` allocates a fresh old buffer (scene_manage.py:92) before it renders the current scene into it, and only if there is one (scene_manage.py:93-94). With no current scene the model's old buffer is therefore `Blank`.
- Nothing checks that a duration is positive (transition.py:7-8). With a duration of zero the fade's `elapsed / duration` (main.py:21) raises `ZeroDivisionError`. That tick fails with `DivisionByZero` after the timer has advanced.
- `next_scene_name` is not cleared when a switch commits (scene_manage.py:69-71). The commit looks the target up again at that moment, so it uses whatever scene is registered under that name then.
- `if next_scene:` (scene_manage.py:75) uses Python truthiness, so a scene answering `""` asks for nothing (`Requests`).

## Model

| member | source | states |
|---|---|---|
| `SceneManagement.SceneManager.constructor` | scene_manage.py:9-22 | empty registries, no default factory, no current scene, running, idle, no pending name, blank buffers, empty trace; the invariant holds |
| `SceneManagement.SceneManager.AddScene` | scene_manage.py:24-31 | the registry becomes `old(scenes)[name := scene]` (last write wins, no lifecycle call); every other field and the trace are unchanged |
| `SceneManagement.SceneManager.RegisterTransition` | scene_manage.py:106-108 | the pair map becomes `old[(from, to) := factory]`; every other field is unchanged |
| `SceneManagement.SceneManager.RegisterDefaultTransition` | scene_manage.py:110-112 | only the default factory changes, to the given one |
| `SceneManagement.FactoryFor` | scene_manage.py:76-77 | a factory is found exactly when the ordered pair is registered or a default exists; the pair's own factory wins, and the default is used only when the pair is absent |
| `SceneManagement.RegisterLastWriteWins` | scene_manage.py:108 | after re-registering a pair, lookups for it give the newest factory; lookups for other pairs are unaffected |
| `SceneManagement.SceneManager.SwitchScene` | scene_manage.py:33-49 | an unregistered name fails with `UnknownScene` and changes no field and no trace entry; otherwise the old current scene (if any) gets `on_exit` before the target gets `on_enter`, and the target becomes current; the transition state is untouched |
| `SceneManagement.SceneManager.SwitchSceneWithTransition` | scene_manage.py:88-104 | an unregistered name fails before touching any state; otherwise the current scene stays current and is not exited, the current scene (if any) is rendered into the old buffer, then the target gets `on_enter`, `update(0)` and a render into the new buffer, in that order, the buffers hold the two snapshots, and a fresh transition with elapsed 0 and not complete is in flight towards the name |
| `SceneManagement.SceneManager.Tick` | scene_manage.py:56-86 | a QUIT clears `running` but the rest of the tick runs; in flight, input is ignored, the transition advances by `dt`, one composite frame is drawn, and only if it is now complete the old current scene gets one `on_exit`, `scenes[next_scene_name]` becomes current and the transition is cleared, with no second `on_enter`; idle with a request, the factory is looked up by the current scene's `name` attribute and the target, falling back to the default, and a transitioned or immediate switch happens with update and render skipped; idle without a request, one `update(dt)` then one render; every completed tick ends with a flip |
| `SceneManagement.FadeComposite` | main.py:20-34 | the frame a fade composites: for non-negative elapsed time and positive duration it shows the old buffer while less than half the duration has elapsed and the new buffer from then on, with overlay alpha in [0,255]; once the duration is reached it is the new buffer with alpha 0 |
| `SceneManagement.SceneManager.Run` | scene_manage.py:51-55 | an unregistered initial scene fails before any tick and changes nothing; otherwise the call starts with `switch_scene(initial)`: the old current scene (if any) is exited and the initial scene entered, and that prefix stays in the trace; if not running or given no input, the call succeeds with that scene current and no tick; otherwise at least one tick runs; the invariant holds unless a tick divided by zero; when the loop stops early and no error occurred, the last tick's events held a QUIT |
| `Transitions.Transition.constructor` | transition.py:7-10 | a new transition has the given duration, elapsed time 0 and is not complete |
| `Transitions.Transition.Update` | transition.py:13-21 | the timer becomes `Advance(old timer, dt)`: elapsed grows by exactly `dt`, and completion latches once elapsed reaches the duration |
| `Transitions.Advance` | transition.py:19-21 | elapsed increases by exactly `dt`, the duration is kept, completion is never reset, and it holds once elapsed ≥ duration and not otherwise unless it already held |
| `Transitions.AdvanceAllElapsed` | transition.py:19 | after any sequence of updates, elapsed has grown by exactly the sum of the steps |
| `Transitions.CompletionLatches` | transition.py:20-21 | a complete timer stays complete under any further updates |
| `Transitions.CompletionMonotone` | transition.py:20-21 | completion reached after some updates is kept after any longer sequence |
| `Transitions.CompletionExact` | transition.py:19-21 | with non-negative steps, the timer is complete afterwards exactly when it already was, or when at least one update happened and elapsed plus the steps reach the duration |
| `Transitions.FreshCompletion` | transition.py:7-21 | a fresh transition under non-negative steps is complete exactly when updated at least once with the steps summing to at least its duration; after an update, complete exactly when elapsed ≥ duration |
| `Fade.Trunc` | main.py:25 | `int()` truncates toward zero: within one of its argument on the side of zero |
| `Fade.Progress` | main.py:21 | progress is never above 1 or above elapsed/duration, and is one of the two |
| `Fade.ProgressRange` | main.py:21 | for non-negative elapsed time and positive duration, progress is in [0,1], 0 at the start, exactly 1 from the duration on, and below 1 before it |
| `Fade.HalfwayPoint` | main.py:21-24 | progress is below one half exactly while less than half of a positive duration has elapsed |
| `Fade.FadeFrame` | main.py:24-34 | the old buffer is shown exactly when progress < 0.5, so 0.5 takes the second branch; for progress in [0,1] the alpha lies in [0,255] |
| `Fade.FadeEndpoints` | main.py:24-34 | alpha 0 on the old scene at progress 0, 255 on the new scene at exactly 0.5, 0 on the new scene at 1 |
| `Fade.FadeOutRises` | main.py:24-28 | in the first half the overlay alpha rises with progress and stays below 255 |
| `Fade.FadeInFalls` | main.py:29-34 | in the second half the overlay alpha falls as progress grows |
| `Fade.FadeAtCompletion` | main.py:21-34 | once elapsed reaches a positive duration, the fade shows the new scene with overlay alpha 0 |
| `DemoScenes.MainMenuHandleEvents` | main.py:43-47 | returns "GameScene" if and only if some event is a KEYDOWN of SPACE, and None otherwise |
| `DemoScenes.GameSceneHandleEvents` | main.py:63-67 | returns "MainMenu" if and only if some event is a KEYDOWN of ESCAPE, and None otherwise |
| `DemoScenes.Clamp` | main.py:81-82 | `max(lo, min(hi, v))` lies in [lo, hi], is `v` when `v` is already there, and is the nearer bound otherwise |
| `DemoScenes.GameScene.constructor` | main.py:57-61 | the player starts at (400, 300) with speed 300 |
| `DemoScenes.GameScene.Update` | main.py:69-82 | each held arrow key moves the player by speed·dt on its axis, then both coordinates are clamped, so the player is in [25,775]×[25,575] whatever keys were held |
| `DemoSession.Configure` | main.py:95-102 | the demo's two scenes, its two fades (1.0 s menu→game, 0.8 s game→menu), no default, and the menu current after one `on_enter` |

## Left out

- Everything drawn through pygame is left out: surfaces, `blit`, `fill`, `set_alpha`, `draw.circle`, fonts and `display.flip`. Renders, composites and flips are trace entries only, and the fade's black overlay surface is not modelled.
- `pygame.time.Clock.tick` and `pygame.event.get` are left out. Frame time and events are parameters of `Tick`, and the 60 Hz cap is not modelled.
- The keyboard state read by `pygame.key.get_pressed` is the `keys` parameter of `GameScene.Update`.
- Process start-up and shut-down in `main()` are left out: `pygame.init`, `set_mode`, `set_caption`, `pygame.quit` and `sys.exit`.
- scene.py is not modelled beyond its shape. It is an abstract interface with empty hooks, and what a scene does inside its hooks is not modelled.
- The menu scene's `update` and both scenes' `render` are empty or pure drawing, so they are not modelled.
- Floating-point rounding is left out. All arithmetic is exact over `real`.
- SceneManagement.SceneManager.Run: the contract does not restate what each tick does. That is `Tick`'s contract, and `Run` only sequences the ticks.
- SceneManagement.SceneManager.Run: the loop runs for at most as many ticks as inputs are given. The source loops until a QUIT event.
- SceneManagement.SceneManager.Run: an exception leaves the manager in whatever state it reached. The model stops and returns the error, which is the exception propagating out of `run`.
- The ValueError message text is not modelled. `UnknownScene` carries only the name.
