/**
 * The abstract scene contract of scene.py, seen from the manager.
 *
 * A scene is modelled by its identity and its own `name` attribute; the
 * registry key it is stored under is kept apart from that attribute.  What a
 * scene does inside its hooks is not modelled: the manager's calls of the
 * hooks are recorded, in order, as `Call`s in a ghost trace.
 */
module Scenes {

  /** pygame's key codes for the two keys the demo scenes react to. */
  const KSpace: int := 32
  const KEscape: int := 27

  /** Input events delivered to a tick; a key is identified by its key code only. */
  datatype Event = Quit | KeyDown(key: int) | KeyUp(key: int) | OtherEvent(kind: int)

  /** A scene instance: `id` tells instances apart, `name` is its `name` attribute. */
  datatype Scene = Scene(id: nat, name: string)

  /** The surfaces a scene can be rendered into. */
  datatype Target = Screen | OldBuffer | NewBuffer

  /** What an offscreen buffer holds: nothing yet, or one rendered scene. */
  datatype Snapshot = Blank | Shot(scene: Scene)

  /** One call made by the manager, as recorded in its trace. */
  datatype Call =
    | OnEnter(scene: Scene)
    | OnExit(scene: Scene)
    | HandleEvents(scene: Scene)
    | UpdateScene(scene: Scene, dt: real)
    | RenderScene(scene: Scene, target: Target)
    | Composite(shown: Snapshot, alpha: int)  // the transition blits `shown`, overlaid at `alpha`
    | Flip                                     // the frame is presented
}
