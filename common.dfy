// Shared vocabulary of the framework model: optional values, promise outcomes,
// asset and node handles, and the errors the core can raise or reject with.
module Common {

  datatype Option<+T> = None | Some(value: T)

  /** The errors a call of the core throws or rejects its promise with. */
  datatype Error =
    | InvalidArgument          // a required argument is missing or empty
    | TransportFailure(cause: nat)  // the engine's loader reported an error
    | AnimationBusy            // an animation component is already playing
    | NotInitialized           // the layer manager has no UI root yet
    | LayerNotFound(layer: int) // no layer node for this layer value
    | NoAnimation(name: string) // neither the named animation nor 'fade' is registered
    | TypeError                // a call through null/undefined in the source
    | NullPrefab               // a null prefab handed to the object pool

  /** How a promise settles. */
  datatype Outcome<+T> = Resolved(value: T) | Rejected(error: Error)

  /**
   * What an asynchronous entry point hands back: a promise that is already
   * settled when the call returns, or a pending task identified by its id.
   */
  datatype Handle<+T> = Settled(outcome: Outcome<T>) | Pending(task: nat)

  /** An engine asset (prefab, sprite frame, audio clip) by identity. */
  datatype Asset = Asset(id: nat)

  /** The asset types a load may ask for. */
  datatype AssetKind = PrefabKind | SpriteFrameKind | AudioClipKind | OtherKind(name: string)

  /** The value a Promise<void> resolves with. */
  datatype Unit = Unit

  type NodeId = nat
  type TaskId = nat

  /**
   * The properties every plain object inherits from Object.prototype: looking
   * one of these names up in an object used as a table (`{}`) finds a value
   * even when nothing was stored under it.
   */
  const PrototypeNames: set<string> := {
    "constructor", "hasOwnProperty", "isPrototypeOf", "propertyIsEnumerable", "toLocaleString", "toString",
    "valueOf", "__proto__", "__defineGetter__", "__defineSetter__", "__lookupGetter__", "__lookupSetter__"}
}
