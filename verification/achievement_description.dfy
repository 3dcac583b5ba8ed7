/**
 The `AchievementDescription` wrapper: read-only metadata forwarded to
 GameKit, a memo of the achievement's image, and a lookup of the described
 achievement in the achievements manager's cache.
 */
module AchievementDescriptions {
  import opened Wrappers
  import opened Platform
  import opened Achievements
  import AchievementsManager

  /** The identifier of the underlying `GKAchievementDescription`, and the image memo. */
  datatype AchievementDescription = AchievementDescription(identifier: Option<string>, image: Option<Image>)

  /** `init(achievementDescription:)`: nothing has been loaded yet. */
  function New(identifier: Option<string>): (d: AchievementDescription)
    ensures d.identifier == identifier
    ensures d.image.None?
  {
    AchievementDescription(identifier, None)
  }

  /**
   The start step of `loadImageWithCompletionHandler`: either the memo
   answers at once, or GameKit is asked.
   */
  datatype ImageRequest = Served(image: Image) | Issued

  function LoadImageStart(d: AchievementDescription): (r: ImageRequest)
    ensures r.Served? <==> d.image.Some?
    ensures r.Served? ==> r.image == d.image.value
  {
    match d.image
    case Some(image) => Served(image)
    case None => Issued
  }

  /** The arguments of the completion handler: an image and an error, either possibly nil. */
  datatype ImageCallback = ImageCallback(image: Option<Image>, error: Option<PlatformError>)

  /** The handler's arguments when the memo answers: the cached image and no error. */
  function ServedCallback(r: ImageRequest): (c: ImageCallback)
    requires r.Served?
    ensures c.image == Some(r.image) && c.error.None?
  {
    ImageCallback(Some(r.image), None)
  }

  datatype ImageLoaded = ImageLoaded(description: AchievementDescription, callback: ImageCallback)

  /**
   The completion step of an issued image load: whatever GameKit returned,
   nil included, becomes the memo, and the handler receives exactly what
   GameKit returned.
   */
  function LoadImageComplete(d: AchievementDescription, image: Option<Image>, error: Option<PlatformError>): (r: ImageLoaded)
    ensures r.description.identifier == d.identifier
    ensures r.description.image == image
    ensures r.callback == ImageCallback(image, error)
  {
    ImageLoaded(d.(image := image), ImageCallback(image, error))
  }

  /** Once an image has been loaded, later requests are answered from the memo. */
  lemma LoadedImageIsServed(d: AchievementDescription, image: Image, error: Option<PlatformError>)
    requires LoadImageStart(d).Issued?
    ensures var after := LoadImageComplete(d, Some(image), error).description;
      LoadImageStart(after) == Served(image)
      && ServedCallback(LoadImageStart(after)) == ImageCallback(Some(image), None)
  {
  }

  /** A load that returns no image leaves the memo empty, so the next request asks GameKit again. */
  lemma NilImageIsReloaded(d: AchievementDescription, error: Option<PlatformError>)
    ensures LoadImageStart(LoadImageComplete(d, None, error).description) == Issued
  {
  }

  /**
   The memo is only consulted at the start: two requests made before the
   first load completes both go to GameKit, and the later completion wins.
   */
  lemma ConcurrentRequestsBothLoad(d: AchievementDescription, first: Image, second: Option<Image>)
    requires d.image.None?
    ensures LoadImageStart(d) == Issued
    ensures var afterFirst := LoadImageComplete(d, Some(first), None).description;
      LoadImageComplete(afterFirst, second, None).description.image == second
  {
  }

  /**
   The `achievement` property: nil without an identifier, otherwise whatever
   the achievements manager's cache holds under it.
   */
  function AchievementOf(d: AchievementDescription, manager: AchievementsManager.State): (r: Option<Achievement>)
    ensures d.identifier.None? ==> r.None?
    ensures d.identifier.Some? ==> r == AchievementsManager.Subscript(manager, d.identifier.value)
  {
    match d.identifier
    case None => None
    case Some(identifier) => AchievementsManager.Subscript(manager, identifier)
  }

  /** A description finds its achievement exactly when the cache holds its identifier. */
  lemma AchievementFoundIffCached(d: AchievementDescription, manager: AchievementsManager.State)
    ensures AchievementOf(d, manager).Some? <==> d.identifier.Some? && d.identifier.value in manager.cache
    ensures AchievementOf(d, manager).Some? ==> AchievementOf(d, manager).value == manager.cache[d.identifier.value]
  {
  }
}
