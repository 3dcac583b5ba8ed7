/**
 The `Manager`: authentication of the local player. A call installs an
 authentication handler with GameKit; GameKit may invoke that handler any
 number of times, each time with a view controller and an error, either
 possibly nil, and with the player's current authenticated flag.
 */
module Manager {
  import opened Wrappers
  import opened Platform
  import AchievementsManager

  /**
   The manager's state. `handlerPlayer` is the local player captured by the
   handler an accepted call handed to GameKit; before such a call, GameKit has
   no handler to invoke.
   */
  datatype State = State(
    autoLoadAchievements: bool,
    authenticatingPlayer: bool,
    localPlayer: Option<Player>,
    authenticationViewController: Option<ViewController>,
    handlerPlayer: Option<Player>)

  /** The shared instance as first created: achievements are loaded after authentication by default. */
  function Init(): (s: State)
    ensures s.autoLoadAchievements && !s.authenticatingPlayer && s.handlerPlayer.None?
    ensures s.localPlayer.None? && s.authenticationViewController.None?
  {
    State(true, false, None, None, None)
  }

  /** `AuthenticationError`. */
  datatype AuthenticationError =
    | AlreadyAuthenticating
    | NotAuthenticated(viewController: ViewController)
    | GameCenterError(underlyingError: PlatformError)
    | UnknownError

  /** The outcome of a call: the new state, and the handler's immediate rejection if there was one. */
  datatype AuthenticationStarted = AuthenticationStarted(state: State, rejection: Option<AuthenticationError>)

  /**
   The start step of `authenticateLocalPlayer`: rejected while an
   authentication is in flight, otherwise the busy flag is raised and a
   handler capturing `player` (GameKit's local player object) is installed.
   */
  function AuthenticateStart(s: State, player: Player): (r: AuthenticationStarted)
    ensures s.authenticatingPlayer <==> r.rejection == Some(AlreadyAuthenticating)
    ensures s.authenticatingPlayer ==> r.state == s
    ensures !s.authenticatingPlayer ==> r.rejection.None?
    ensures !s.authenticatingPlayer ==>
              r.state == s.(authenticatingPlayer := true, handlerPlayer := Some(player))
  {
    if s.authenticatingPlayer then AuthenticationStarted(s, Some(AlreadyAuthenticating))
    else AuthenticationStarted(s.(authenticatingPlayer := true, handlerPlayer := Some(player)), None)
  }

  /**
   What one invocation of the handler produces: the manager's new state, the
   achievements manager's new state (a load may have been started), and the
   argument passed to the completion handler, nil meaning success.
   */
  datatype HandlerOutcome = HandlerOutcome(
    state: State,
    achievements: AchievementsManager.State,
    result: Option<AuthenticationError>)

  /**
   One invocation of the authentication handler. It always lowers the busy
   flag and stores the view controller it was given, nil included. Then the
   first that applies of: an error, a view controller, an authenticated
   player, and otherwise an unknown error. Only an authenticated player is
   recorded (the one the handler captured), and only then is an achievements load started (with no completion
   handler, so a rejected load goes unnoticed), when auto-loading is enabled.
   */
  function AuthenticationHandler(
    s: State,
    achievements: AchievementsManager.State,
    authenticated: bool,
    viewController: Option<ViewController>,
    error: Option<PlatformError>): (r: HandlerOutcome)
    requires s.handlerPlayer.Some?
    ensures !r.state.authenticatingPlayer
    ensures r.state.authenticationViewController == viewController
    ensures r.state.autoLoadAchievements == s.autoLoadAchievements && r.state.handlerPlayer == s.handlerPlayer
    ensures error.Some? ==> r.result == Some(GameCenterError(error.value))
    ensures error.None? && viewController.Some? ==> r.result == Some(NotAuthenticated(viewController.value))
    ensures error.None? && viewController.None? && authenticated ==> r.result.None?
    ensures error.None? && viewController.None? && !authenticated ==> r.result == Some(UnknownError)
    ensures r.result.None? ==> r.state.localPlayer == s.handlerPlayer
    ensures r.result.Some? ==> r.state.localPlayer == s.localPlayer
    ensures r.result.None? && s.autoLoadAchievements ==>
              r.achievements == AchievementsManager.LoadStart(achievements).state
    ensures r.result.Some? || !s.autoLoadAchievements ==> r.achievements == achievements
  {
    var cleared := s.(authenticatingPlayer := false, authenticationViewController := viewController);
    if error.Some? then
      HandlerOutcome(cleared, achievements, Some(GameCenterError(error.value)))
    else if viewController.Some? then
      HandlerOutcome(cleared, achievements, Some(NotAuthenticated(viewController.value)))
    else if authenticated then
      var loaded := if s.autoLoadAchievements then AchievementsManager.LoadStart(achievements).state else achievements;
      HandlerOutcome(cleared.(localPlayer := s.handlerPlayer), loaded, None)
    else
      HandlerOutcome(cleared, achievements, Some(UnknownError))
  }

  /**
   A second call while the first is in flight is rejected at once and
   changes nothing, so the first call's handler resolves exactly as it would
   have without it.
   */
  lemma SecondCallIsRejected(
    s: State,
    achievements: AchievementsManager.State,
    player: Player,
    otherPlayer: Player,
    authenticated: bool,
    viewController: Option<ViewController>,
    error: Option<PlatformError>)
    requires !s.authenticatingPlayer
    ensures var first := AuthenticateStart(s, player).state;
      var second := AuthenticateStart(first, otherPlayer);
      && second.rejection == Some(AlreadyAuthenticating)
      && AuthenticationHandler(second.state, achievements, authenticated, viewController, error) ==
         AuthenticationHandler(first, achievements, authenticated, viewController, error)
  {
  }

  /** After the handler has run, a new call is accepted again. */
  lemma CallAcceptedAfterHandler(
    s: State,
    achievements: AchievementsManager.State,
    player: Player,
    authenticated: bool,
    viewController: Option<ViewController>,
    error: Option<PlatformError>)
    requires s.handlerPlayer.Some?
    ensures var after := AuthenticationHandler(s, achievements, authenticated, viewController, error).state;
      AuthenticateStart(after, player).rejection.None?
  {
  }

  /**
   The handler fires again on every later change of authentication state,
   and records the player it captured each time. Because the achievements
   manager never lowers its busy flag, the load a second successful
   authentication starts is rejected, and the cache the first one built is kept.
   */
  lemma {:induction false} ReauthenticationDoesNotReload(
    s: State,
    achievements: AchievementsManager.State,
    player: Player,
    history: seq<AchievementsManager.Event>)
    requires !s.authenticatingPlayer && s.autoLoadAchievements
    requires !achievements.loadingAchievements
    ensures var installed := AuthenticateStart(s, player).state;
      var first := AuthenticationHandler(installed, achievements, true, None, None);
      var meanwhile := AchievementsManager.RunEvents(first.achievements, history);
      var second := AuthenticationHandler(first.state, meanwhile, true, None, None);
      && first.state.localPlayer == Some(player)
      && first.achievements.loadingAchievements
      && second.result.None?
      && second.state.localPlayer == Some(player)
      && second.achievements == meanwhile
  {
    var installed := AuthenticateStart(s, player).state;
    var first := AuthenticationHandler(installed, achievements, true, None, None);
    AchievementsManager.LoadingIsSticky(first.achievements, history);
  }
}
