/**
 * The scene manager of scene_manage.py: the scene and transition registries,
 * the current scene, the in-flight transition, and one iteration of the main
 * loop as `Tick`.  The manager's calls of scene hooks, the transition's
 * composited frames and the display flips are recorded in the ghost `trace`.
 */
module SceneManagement {
  import opened Wrappers
  import opened Scenes
  import opened Transitions
  import opened Fade

  /** A registered transition factory; each call builds a fresh fade of this duration. */
  datatype Factory = FadeFactory(duration: real)

  /** What the manager can raise. */
  datatype SceneError =
    | UnknownScene(name: string)  // the ValueError for a scene name that is not registered
    | DivisionByZero              // a fade of duration zero computing its progress

  /** The inputs of one loop iteration; `reply` is what the current scene's handle_events returns. */
  datatype TickInput = TickInput(dt: real, events: seq<Event>, reply: Option<string>)

  /** The factory for a switch: the exact ordered pair first, the default otherwise. */
  function FactoryFor(transitionMap: map<(string, string), Factory>, fallback: Option<Factory>,
                      from: string, to: string): (r: Option<Factory>)
    ensures r.Some? <==> (from, to) in transitionMap || fallback.Some?
    ensures (from, to) in transitionMap ==> r == Some(transitionMap[(from, to)])
    ensures (from, to) !in transitionMap ==> r == fallback
  {
    if (from, to) in transitionMap then Some(transitionMap[(from, to)]) else fallback
  }

  /** Re-registering a pair replaces its factory; other pairs and the default are untouched. */
  lemma RegisterLastWriteWins(transitionMap: map<(string, string), Factory>, fallback: Option<Factory>,
                              from: string, to: string, first: Factory, second: Factory,
                              a: string, b: string)
    ensures FactoryFor(transitionMap[(from, to) := first][(from, to) := second], fallback, from, to) == Some(second)
    ensures (a, b) != (from, to) ==>
              FactoryFor(transitionMap[(from, to) := second], fallback, a, b) == FactoryFor(transitionMap, fallback, a, b)
  {
  }

  /** A scene's answer asks for a switch when it is a non-empty name (Python truthiness). */
  predicate Requests(reply: Option<string>)
  {
    reply.Some? && reply.value != ""
  }

  /** The `on_exit` call made on the outgoing scene, if there is one. */
  function ExitCall(current: Option<Scene>): seq<Call>
  {
    if current.Some? then [OnExit(current.value)] else []
  }

  /** What a freshly allocated old buffer holds once the current scene, if any, is rendered into it. */
  function SnapshotOf(current: Option<Scene>): Snapshot
  {
    if current.Some? then Shot(current.value) else Blank
  }

  /** The calls that set up a transitioned switch from `current` to `target`. */
  function TransitionStartCalls(current: Option<Scene>, target: Scene): seq<Call>
  {
    (if current.Some? then [RenderScene(current.value, OldBuffer)] else [])
    + [OnEnter(target), UpdateScene(target, 0.0), RenderScene(target, NewBuffer)]
  }

  /** The fade frame a transition in state `t` composites from the two buffers. */
  function FadeComposite(t: Timer, oldSurface: Snapshot, newSurface: Snapshot): (c: Call)
    requires t.duration != 0.0
    ensures c.Composite?
    ensures 0.0 <= t.elapsed && 0.0 < t.duration ==> 0 <= c.alpha <= 255
    ensures 0.0 <= t.elapsed && 0.0 < t.duration ==>
              (c.shown == oldSurface || c.shown == newSurface)
              && (t.elapsed < t.duration / 2.0 ==> c.shown == oldSurface)
              && (t.duration / 2.0 <= t.elapsed ==> c.shown == newSurface)
    ensures 0.0 < t.duration <= t.elapsed ==> c == Composite(newSurface, 0)
  {
    var frame := FadeFrame(Progress(t.elapsed, t.duration));
    var c := Composite(if frame.layer == OldLayer then oldSurface else newSurface, frame.alpha);
    if 0.0 <= t.elapsed && 0.0 < t.duration then
      ProgressRange(t.elapsed, t.duration);
      HalfwayPoint(t.elapsed, t.duration);
      if t.duration <= t.elapsed then FadeAtCompletion(t.elapsed, t.duration); c else c
    else
      c
  }

  class SceneManager {
    var scenes: map<string, Scene>
    var transitionMap: map<(string, string), Factory>
    var defaultTransition: Option<Factory>
    var currentScene: Option<Scene>
    var running: bool
    var inTransition: bool
    var transition: Transition?
    var nextSceneName: Option<string>
    var oldSurface: Snapshot
    var newSurface: Snapshot
    ghost var trace: seq<Call>

    /**
     * A transition is held exactly while one is in flight, its target is a
     * registered name, and it is not yet complete (the tick that completes it
     * also commits the switch).
     */
    ghost predicate Valid()
      reads this, transition
    {
      && (inTransition <==> transition != null)
      && (inTransition ==> nextSceneName.Some? && nextSceneName.value in scenes)
      && (transition != null ==> !transition.isComplete)
    }

    /** The configuration: scenes, pair factories and the default factory. */
    ghost function Registries(): (map<string, Scene>, map<(string, string), Factory>, Option<Factory>)
      reads this
    {
      (scenes, transitionMap, defaultTransition)
    }

    /** The switching state: current scene, transition, pending target and buffers. */
    ghost function Flow(): (Option<Scene>, bool, Transition?, Option<string>, Snapshot, Snapshot)
      reads this
    {
      (currentScene, inTransition, transition, nextSceneName, oldSurface, newSurface)
    }

    constructor ()
      ensures Valid()
      ensures scenes == map[] && transitionMap == map[] && defaultTransition == None
      ensures currentScene == None && running && !inTransition && transition == null
      ensures nextSceneName == None && oldSurface == Blank && newSurface == Blank
      ensures trace == []
    {
      scenes := map[];
      transitionMap := map[];
      defaultTransition := None;
      currentScene := None;
      running := true;
      inTransition := false;
      transition := null;
      nextSceneName := None;
      oldSurface := Blank;
      newSurface := Blank;
      trace := [];
    }

    /** add_scene: register `scene` under `name`, replacing any scene already there. */
    method AddScene(name: string, scene: Scene)
      requires Valid()
      modifies this
      ensures Valid()
      ensures scenes == old(scenes)[name := scene]
      ensures transitionMap == old(transitionMap) && defaultTransition == old(defaultTransition)
      ensures Flow() == old(Flow()) && running == old(running) && trace == old(trace)
    {
      scenes := scenes[name := scene];
    }

    /** register_transition: the factory for switching from `from` to `to`; last write wins. */
    method RegisterTransition(from: string, to: string, factory: Factory)
      requires Valid()
      modifies this
      ensures Valid()
      ensures transitionMap == old(transitionMap)[(from, to) := factory]
      ensures scenes == old(scenes) && defaultTransition == old(defaultTransition)
      ensures Flow() == old(Flow()) && running == old(running) && trace == old(trace)
    {
      transitionMap := transitionMap[(from, to) := factory];
    }

    /** register_default_transition: the factory used for pairs without one of their own. */
    method RegisterDefaultTransition(factory: Factory)
      requires Valid()
      modifies this
      ensures Valid()
      ensures defaultTransition == Some(factory)
      ensures scenes == old(scenes) && transitionMap == old(transitionMap)
      ensures Flow() == old(Flow()) && running == old(running) && trace == old(trace)
    {
      defaultTransition := Some(factory);
    }

    /** switch_scene: exit the current scene, make the named one current and enter it. */
    method SwitchScene(name: string) returns (outcome: Outcome<SceneError>)
      requires Valid()
      modifies this
      ensures Valid()
      ensures Registries() == old(Registries()) && running == old(running)
      ensures inTransition == old(inTransition) && transition == old(transition)
      ensures nextSceneName == old(nextSceneName)
      ensures oldSurface == old(oldSurface) && newSurface == old(newSurface)
      ensures name !in old(scenes) ==>
                outcome == Fail(UnknownScene(name)) && currentScene == old(currentScene) && trace == old(trace)
      ensures name in old(scenes) ==>
                && outcome == Pass
                && currentScene == Some(old(scenes)[name])
                && trace == old(trace) + ExitCall(old(currentScene)) + [OnEnter(old(scenes)[name])]
    {
      if name !in scenes {
        return Fail(UnknownScene(name));
      }
      if currentScene.Some? {
        trace := trace + [OnExit(currentScene.value)];
      }
      currentScene := Some(scenes[name]);
      trace := trace + [OnEnter(currentScene.value)];
      return Pass;
    }

    /**
     * switch_scene_with_transition: snapshot the current scene, enter and settle
     * the target, snapshot it, and start a fresh transition towards it.  The
     * current scene stays current and is not exited yet.
     */
    method SwitchSceneWithTransition(name: string, factory: Factory) returns (outcome: Outcome<SceneError>)
      requires Valid()
      modifies this
      ensures Valid()
      ensures Registries() == old(Registries()) && running == old(running)
      ensures currentScene == old(currentScene)
      ensures name !in old(scenes) ==>
                outcome == Fail(UnknownScene(name)) && Flow() == old(Flow()) && trace == old(trace)
      ensures name in old(scenes) ==>
                && outcome == Pass
                && inTransition && transition != null && fresh(transition)
                && transition.State() == Start(factory.duration)
                && nextSceneName == Some(name)
                && oldSurface == SnapshotOf(old(currentScene))
                && newSurface == Shot(old(scenes)[name])
                && trace == old(trace) + TransitionStartCalls(old(currentScene), old(scenes)[name])
    {
      if name !in scenes {
        return Fail(UnknownScene(name));
      }
      oldSurface := Blank;
      if currentScene.Some? {
        trace := trace + [RenderScene(currentScene.value, OldBuffer)];
        oldSurface := Shot(currentScene.value);
      }
      var next := scenes[name];
      trace := trace + [OnEnter(next), UpdateScene(next, 0.0)];
      newSurface := Blank;
      trace := trace + [RenderScene(next, NewBuffer)];
      newSurface := Shot(next);
      transition := new Transition(factory.duration);
      inTransition := true;
      nextSceneName := Some(name);
      return Pass;
    }

    /**
     * One iteration of run's loop, given the frame time, the polled events and
     * the current scene's answer to them.  A quit event stops the loop after
     * this iteration; then either the transition in flight advances (and on
     * completion the switch commits), or the idle current scene is asked for a
     * switch, or it is updated and rendered.
     */
    method Tick(dt: real, events: seq<Event>, reply: Option<string>) returns (outcome: Outcome<SceneError>)
      requires Valid()
      modifies this, transition
      ensures outcome != Fail(DivisionByZero) ==> Valid()
      ensures running == (old(running) && Quit !in events)
      ensures Registries() == old(Registries())
      ensures transition != null ==> transition == old(transition) || fresh(transition)
      // A transition is in flight: the scene's input is ignored and the transition advances.
      ensures old(inTransition) ==>
        var t := old(transition);
        && t.State() == Advance(old(t.State()), dt)
        && nextSceneName == old(nextSceneName)
        && oldSurface == old(oldSurface) && newSurface == old(newSurface)
        && (t.duration == 0.0 ==>
              && outcome == Fail(DivisionByZero)
              && currentScene == old(currentScene) && inTransition && transition == t
              && trace == old(trace))
        && (t.duration != 0.0 && !t.isComplete ==>
              && outcome == Pass
              && currentScene == old(currentScene) && inTransition && transition == t
              && trace == old(trace) + [FadeComposite(t.State(), oldSurface, newSurface), Flip])
        && (t.duration != 0.0 && t.isComplete ==>
              && outcome == Pass
              && currentScene == Some(scenes[nextSceneName.value])
              && !inTransition && transition == null
              && trace == old(trace) + [FadeComposite(t.State(), oldSurface, newSurface)]
                                     + ExitCall(old(currentScene)) + [Flip])
      // Idle with no current scene: only the frame is presented.
      ensures !old(inTransition) && old(currentScene).None? ==>
        outcome == Pass && Flow() == old(Flow()) && trace == old(trace) + [Flip]
      // Idle, and the current scene asks for nothing: it is updated, then rendered.
      ensures !old(inTransition) && old(currentScene).Some? && !Requests(reply) ==>
        var current := old(currentScene).value;
        && outcome == Pass && Flow() == old(Flow())
        && trace == old(trace) + [HandleEvents(current), UpdateScene(current, dt), RenderScene(current, Screen), Flip]
      // Idle, and the current scene asks for an unregistered scene.
      ensures !old(inTransition) && old(currentScene).Some? && Requests(reply) && reply.value !in scenes ==>
        var current := old(currentScene).value;
        && outcome == Fail(UnknownScene(reply.value)) && Flow() == old(Flow())
        && trace == old(trace) + [HandleEvents(current)]
      // Idle, a registered target, and a factory for (the current scene's own name, target).
      ensures !old(inTransition) && old(currentScene).Some? && Requests(reply) && reply.value in scenes
              && FactoryFor(transitionMap, defaultTransition, old(currentScene).value.name, reply.value).Some? ==>
        var current := old(currentScene).value;
        var factory := FactoryFor(transitionMap, defaultTransition, current.name, reply.value).value;
        && outcome == Pass
        && currentScene == old(currentScene)
        && inTransition && transition != null && fresh(transition)
        && transition.State() == Start(factory.duration)
        && nextSceneName == Some(reply.value)
        && oldSurface == Shot(current) && newSurface == Shot(scenes[reply.value])
        && trace == old(trace) + [HandleEvents(current)]
                               + TransitionStartCalls(old(currentScene), scenes[reply.value]) + [Flip]
      // Idle, a registered target, and no factory at all: an immediate switch.
      ensures !old(inTransition) && old(currentScene).Some? && Requests(reply) && reply.value in scenes
              && FactoryFor(transitionMap, defaultTransition, old(currentScene).value.name, reply.value).None? ==>
        var current := old(currentScene).value;
        && outcome == Pass
        && currentScene == Some(scenes[reply.value])
        && inTransition == old(inTransition) && transition == old(transition)
        && nextSceneName == old(nextSceneName)
        && oldSurface == old(oldSurface) && newSurface == old(newSurface)
        && trace == old(trace) + [HandleEvents(current), OnExit(current), OnEnter(scenes[reply.value]), Flip]
    {
      var quit := false;
      for i := 0 to |events|
        invariant quit <==> Quit in events[..i]
      {
        if events[i] == Quit {
          quit := true;
        }
        assert events[..i + 1] == events[..i] + [events[i]];
      }
      assert events[..|events|] == events;
      if quit {
        running := false;
      }

      if inTransition && transition != null {
        transition.Update(dt);
        if transition.duration == 0.0 {
          return Fail(DivisionByZero);
        }
        trace := trace + [FadeComposite(transition.State(), oldSurface, newSurface)];
        if transition.isComplete {
          if currentScene.Some? {
            trace := trace + [OnExit(currentScene.value)];
          }
          currentScene := Some(scenes[nextSceneName.value]);
          inTransition := false;
          transition := null;
        }
      } else if currentScene.Some? {
        var current := currentScene.value;
        trace := trace + [HandleEvents(current)];
        if Requests(reply) {
          var factory := FactoryFor(transitionMap, defaultTransition, current.name, reply.value);
          if factory.Some? {
            outcome := SwitchSceneWithTransition(reply.value, factory.value);
          } else {
            outcome := SwitchScene(reply.value);
          }
          if outcome.Fail? {
            return;
          }
        } else {
          trace := trace + [UpdateScene(current, dt), RenderScene(current, Screen)];
        }
      }
      trace := trace + [Flip];
      return Pass;
    }
    /**
     * run: activate the initial scene, then iterate while running.  The loop
     * is driven by a finite list of tick inputs and also ends when they run out.
     * It stops at the first error, which propagates to the caller.
     */
    method Run(initial: string, inputs: seq<TickInput>) returns (outcome: Outcome<SceneError>, ticks: nat)
      requires Valid()
      modifies this, transition
      ensures ticks <= |inputs|
      ensures Registries() == old(Registries())
      ensures initial !in old(scenes) ==>
                outcome == Fail(UnknownScene(initial)) && ticks == 0
                && Flow() == old(Flow()) && running == old(running) && trace == old(trace)
      ensures initial in old(scenes) ==>
                old(trace) + ExitCall(old(currentScene)) + [OnEnter(old(scenes)[initial])] <= trace
      ensures initial in old(scenes) && (!old(running) || |inputs| == 0) ==>
                && outcome == Pass && ticks == 0
                && currentScene == Some(old(scenes)[initial])
                && trace == old(trace) + ExitCall(old(currentScene)) + [OnEnter(old(scenes)[initial])]
      ensures initial in old(scenes) && old(running) && |inputs| > 0 ==> ticks > 0
      ensures outcome != Fail(DivisionByZero) ==> Valid()
      ensures outcome.Pass? ==> ticks == |inputs| || !running
      ensures outcome.Pass? && 0 < ticks < |inputs| ==> Quit in inputs[ticks - 1].events
    {
      ticks := 0;
      outcome := SwitchScene(initial);
      if outcome.Fail? {
        return;
      }
      ghost var entered := trace;
      while running && ticks < |inputs|
        invariant 0 <= ticks <= |inputs|
        invariant outcome == Pass
        invariant Valid() && Registries() == old(Registries())
        invariant entered <= trace
        invariant ticks == 0 ==> trace == entered && currentScene == Some(old(scenes)[initial])
        invariant transition != null ==> transition == old(transition) || fresh(transition)
        invariant 0 < ticks < |inputs| && !running ==> Quit in inputs[ticks - 1].events
        invariant ticks == 0 ==> running == old(running)
        invariant ticks > 0 ==> old(running) && |inputs| > 0
        decreases |inputs| - ticks
      {
        var input := inputs[ticks];
        outcome := Tick(input.dt, input.events, input.reply);
        ticks := ticks + 1;
        if outcome.Fail? {
          return;
        }
      }
    }
  }
}
