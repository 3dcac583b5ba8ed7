/**
 Opaque handles for the objects that GameKit and the UI framework own. The
 library never looks inside them; it only stores them and passes them on, so
 each is modelled by an identity and nothing else.
 */
module Platform {

  /** An `NSError` delivered by a GameKit completion handler. */
  datatype PlatformError = PlatformError(domain: string, code: int)

  /** A `UIImage`/`NSImage` loaded for an achievement description. */
  datatype Image = Image(handle: nat)

  /** The view controller GameKit hands back when the player must sign in. */
  datatype ViewController = ViewController(handle: nat)

  /** The `GKLocalPlayer` object. */
  datatype Player = Player(handle: nat)
}
