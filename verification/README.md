# SwiftyGameCenter bookkeeping, modelled in Dafny

SwiftyGameCenter is a thin Swift wrapper around GameKit's achievements and
local-player authentication. Almost everything forwards to GameKit. What the
library adds is bookkeeping around GameKit's asynchronous calls. This project
models that bookkeeping as pure state-transition functions. Every
asynchronous call is split into a *start* step and a *completion* step. The
completion step takes GameKit's answer as arguments.

- `Achievements` (`achievement.dfy`): the `Achievement` wrapper and its report
  status (`NotPending`, `PendingReport`, `Reporting`). Covers a progress write,
  the start of `report`, and `reportCompleteWithError`. It also defines
  histories of these events, and proves a characterisation of the status a
  history leaves. No write made while a report is in flight is lost.
- `AchievementsManager` (`achievements_manager.dfy`): the identifier-keyed
  cache, the `loadingAchievements` busy flag, `loadAchievements` (start and
  completion), `reportAllAchievements` (selection, start and completion), and
  the lookup by identifier and by subscript.
- `AchievementDescriptions` (`achievement_description.dfy`): the image memo
  of `loadImageWithCompletionHandler` and the `achievement` property.
- `Manager` (`manager.dfy`): the `authenticatingPlayer` guard of
  `authenticateLocalPlayer`, and the decision logic of the authentication
  handler. On success the handler may start an achievements load.
- `Wrappers` and `Platform`: `Option`, plus opaque handles for GameKit's
  errors, images, view controllers and players.

Object identity is handled with a generation counter. `reportAllAchievements`
keeps references to the objects it selected. A load that runs in the meantime
replaces every cached object, so those references become detached. The
manager's state therefore counts accepted loads. A report's completion only
touches the cache when no load has started since the report began. Otherwise
it updates objects that the cache no longer holds.

Some behaviours of the code differ from what a reader might expect. The model
follows the code:

- `loadingAchievements` is set when a load starts
  (SwiftyGameCenter/AchievementsManager.swift:43). Its doc comment says it
  marks a load "currently" in progress, but nothing in the manager ever lowers
  it. So after the first accepted load, every later `loadAchievements` is
  rejected with `AlreadyLoading` (`AchievementsManager.OnlyFirstLoadIsAccepted`).
  A re-authentication therefore never refreshes the cache
  (`Manager.ReauthenticationDoesNotReload`).
- The image memo is filled only when a load completes, and a nil result is
  stored too. Two requests made before the first load completes therefore
  both go to GameKit (`AchievementDescriptions.ConcurrentRequestsBothLoad`).
  After a nil result, the next request asks GameKit again
  (`AchievementDescriptions.NilImageIsReloaded`).
- `reportAllAchievements` issues its GameKit call even when nothing is
  selected. `AchievementsManager.ReportAllStart` models that call as always
  issued.

## Model

| member | source | states |
|---|---|---|
| Achievements.Wrap | SwiftyGameCenter/Achievement.swift:95-97 | a wrapped platform record starts with status `NotPending` and keeps the record |
| Achievements.New | SwiftyGameCenter/Achievement.swift:100-106 | a newly constructed achievement is `NotPending` and carries the given identifier |
| Achievements.SetIdentifier | SwiftyGameCenter/Achievement.swift:24-31 | reading the identifier after setting it returns the value set; the report status is unaffected |
| Achievements.WritePercentComplete | SwiftyGameCenter/Achievement.swift:44-47 | a progress write moves any status to `PendingReport` |
| Achievements.ReportStart | SwiftyGameCenter/Achievement.swift:112-115 | `report` makes the status `Reporting` before the external call, whatever the prior status |
| Achievements.ReportComplete | SwiftyGameCenter/Achievement.swift:126-135 | never yields `Reporting`; an error gives `PendingReport`; a success gives `PendingReport` exactly when the status already was `PendingReport`, and `NotPending` otherwise |
| Achievements.ReportFinish | SwiftyGameCenter/Achievement.swift:115-121 | the report completion applies the completion rule and passes the external error to the caller unchanged |
| Achievements.RunMatchesExpected | SwiftyGameCenter/Achievement.swift:126-135 | for any history of writes, report starts and completions on a clean achievement, the final status is `Reporting` right after a start, `PendingReport` if some write or failed report has no later start, and `NotPending` otherwise |
| Achievements.SuccessfulReportKeepsLaterWrites | SwiftyGameCenter/Achievement.swift:129-134 | after a report start, a successful completion ends `PendingReport` if a write or failure happened in the window, and `NotPending` if not |
| Achievements.WindowStatus | SwiftyGameCenter/Achievement.swift:112-135 | during a report window the achievement is `PendingReport` exactly when the window holds a write or failed report |
| AchievementsManager.Init | SwiftyGameCenter/AchievementsManager.swift:17-21 | the manager starts not loading, with an empty cache |
| AchievementsManager.LoadStart | SwiftyGameCenter/AchievementsManager.swift:36-44 | while loading, the call is rejected with `AlreadyLoading` and a nil list, and the state is unchanged; otherwise the flag is raised and the cache emptied |
| AchievementsManager.Rebuild | SwiftyGameCenter/AchievementsManager.swift:49-55 | the rebuilt cache has the old keys plus every non-nil identifier returned; each returned identifier maps to a fresh wrapper of the last record carrying it; other entries are kept |
| AchievementsManager.LoadComplete | SwiftyGameCenter/AchievementsManager.swift:46-68 | completion leaves the busy flag as it is and hands over the cache's values even on error; an external error is wrapped as `GameCenterError` and a nil error stays nil; a nil record list leaves the cache alone |
| AchievementsManager.LoadReplacesCache | SwiftyGameCenter/AchievementsManager.swift:43-55 | an accepted load and its completion replace the cache wholesale: exactly the returned non-nil identifiers are cached, each entry `NotPending` and keyed by its own identifier; the flag stays up |
| AchievementsManager.LoadedEntryIsLastRecord | SwiftyGameCenter/AchievementsManager.swift:49-55 | after a load, the entry for a returned identifier wraps the last record carrying that identifier |
| AchievementsManager.Selection | SwiftyGameCenter/AchievementsManager.swift:80-90 | pending-only selects exactly the cached achievements with status `PendingReport`; otherwise every cached achievement is selected |
| AchievementsManager.ReportAllStart | SwiftyGameCenter/AchievementsManager.swift:80-98 | each selected achievement becomes `Reporting`; the others and the set of keys are unchanged |
| AchievementsManager.ReportAllComplete | SwiftyGameCenter/AchievementsManager.swift:98-104 | each selected achievement gets the single-report completion rule with the same error; the caller receives the error unchanged; unselected ones are untouched |
| AchievementsManager.FailedReportIsRetried | SwiftyGameCenter/AchievementsManager.swift:92-104 | after a failed bulk report, every achievement it sent is selected again by a pending-only report |
| AchievementsManager.SuccessfulReportCleansPending | SwiftyGameCenter/AchievementsManager.swift:79-104 | a successful pending-only bulk report makes every pending achievement `NotPending` and leaves the rest untouched |
| AchievementsManager.AchievementWithIdentifier | SwiftyGameCenter/AchievementsManager.swift:107-109 | returns the cached achievement for a known identifier and nil for an unknown one |
| AchievementsManager.Subscript | SwiftyGameCenter/AchievementsManager.swift:111-113 | the subscript agrees with `achievementWithIdentifier` |
| AchievementsManager.LookupMissesDuringLoad | SwiftyGameCenter/AchievementsManager.swift:43-44 | from the start of a load until it completes, whatever reports, progress writes and rejected loads happen in between, the cache stays empty and every lookup returns nil |
| AchievementsManager.WriteCachedProgress | SwiftyGameCenter/Achievement.swift:40-48 | a progress write on a cached achievement makes it `PendingReport` in the cache and changes no other entry |
| AchievementsManager.LoadingIsSticky | SwiftyGameCenter/AchievementsManager.swift:36-68 | once the busy flag is up, no sequence of manager operations lowers it |
| AchievementsManager.OnlyFirstLoadIsAccepted | SwiftyGameCenter/AchievementsManager.swift:37-43 | after one accepted load, whatever happens next, a later load is rejected with `AlreadyLoading` and changes nothing |
| AchievementDescriptions.New | SwiftyGameCenter/AchievementDescription.swift:120-124 | a new description has no image |
| AchievementDescriptions.LoadImageStart | SwiftyGameCenter/AchievementDescription.swift:133-137 | the memo answers exactly when it holds an image, and it answers with that image; otherwise GameKit is asked |
| AchievementDescriptions.ServedCallback | SwiftyGameCenter/AchievementDescription.swift:134-135 | an answer from the memo passes the cached image and a nil error |
| AchievementDescriptions.LoadImageComplete | SwiftyGameCenter/AchievementDescription.swift:139-145 | the loaded image, nil included, becomes the memo; the handler receives exactly the loaded image and error |
| AchievementDescriptions.LoadedImageIsServed | SwiftyGameCenter/AchievementDescription.swift:133-145 | after a load returns an image, the next request is served from the memo without a GameKit call |
| AchievementDescriptions.NilImageIsReloaded | SwiftyGameCenter/AchievementDescription.swift:139-142 | after a load returns nil, the next request goes to GameKit again |
| AchievementDescriptions.ConcurrentRequestsBothLoad | SwiftyGameCenter/AchievementDescription.swift:133-145 | a request made before the first load completes is issued to GameKit too, and the later completion decides the memo |
| AchievementDescriptions.AchievementOf | SwiftyGameCenter/AchievementDescription.swift:108-114 | nil without an identifier; otherwise the manager's lookup for that identifier |
| AchievementDescriptions.AchievementFoundIffCached | SwiftyGameCenter/AchievementDescription.swift:108-114 | a description finds an achievement exactly when its identifier is cached, and finds the cached one |
| Manager.Init | SwiftyGameCenter/Manager.swift:18-35 | the manager starts with auto-loading on, not authenticating, and with no player or view controller |
| Manager.AuthenticateStart | SwiftyGameCenter/Manager.swift:43-53 | while authenticating, the caller gets `AlreadyAuthenticating` and nothing changes; otherwise the busy flag is raised and a handler capturing the local player object is installed |
| Manager.AuthenticationHandler | SwiftyGameCenter/Manager.swift:53-75 | every invocation clears the busy flag and stores the view controller, nil included; the result follows the priority error, then view controller, then authenticated, then `UnknownError`; only on success is the player captured at the call recorded; a load starts only on success with auto-loading on |
| Manager.SecondCallIsRejected | SwiftyGameCenter/Manager.swift:44-50 | a second call during authentication is rejected and does not change how the first call's handler resolves |
| Manager.CallAcceptedAfterHandler | SwiftyGameCenter/Manager.swift:44-57 | once the handler has run, a new call is accepted |
| Manager.ReauthenticationDoesNotReload | SwiftyGameCenter/Manager.swift:64-71 | the first successful authentication records the captured player and starts a load; a later successful invocation records the same player again, but its load is rejected and the cache is left as it is |

## Left out

- GameKit itself: loading, reporting, authentication and image fetching. Their results only appear as arguments of the completion steps.
- The value of `percentComplete` (a `Double`). A write is modelled as an event that marks the achievement pending. The platform record is modelled by its identifier and its object identity only, so a write leaves it unchanged in the model.
- `completed`, `lastReportedDate`, `showsCompletionBanner`, `player`, and the description metadata getters (`groupIdentifier`, `title`, the two descriptions, `maximumPoints`, `hidden`, `replayable`). These forward to GameKit with no logic of their own.
- The `[weak self]` captures. The manager and achievement-manager singletons live for the whole process, so their completions always run. A completion on an achievement or description that has been deallocated is simply not applied. The model has no such step.
- `sharedInstance` and the private initializers. The singletons are explicit state values instead.
- SwiftyGameCenter/CrossPlatform.swift: compile-time type aliases only.
- The placeholder images (SwiftyGameCenter/AchievementDescription.swift:18-29). They forward to GameKit.
- Threads and real concurrency. Interleavings are modelled only as the order of start and completion steps.
- AchievementsManager.LoadComplete: the order of the array handed to the completion handler is a dictionary's value order, which Swift leaves unspecified. It is modelled as the set of cached values.
- Changes a caller makes to objects it holds outside the cache. These include setting the identifier of a cached achievement, or reporting a cached achievement on its own, and they are not manager operations in the model. Only a progress write on a cached achievement is modelled (`AchievementsManager.WriteCachedProgress`).
