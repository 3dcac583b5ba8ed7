/**
 The achievements manager: a cache of achievements keyed by identifier,
 rebuilt by a bulk load from Game Center, plus a bulk report of the cached
 achievements. Each GameKit call is split into a start step and a completion
 step that receives GameKit's answer as arguments.
 */
module AchievementsManager {
  import opened Wrappers
  import opened Platform
  import opened Achievements

  /**
   The manager's state. `generation` counts accepted loads: a load replaces
   every cached object, so a report begun in an earlier generation updates
   objects the cache no longer holds.
   */
  datatype State = State(loadingAchievements: bool, cache: map<string, Achievement>, generation: nat)

  /** The shared instance as first created: not loading, empty cache. */
  function Init(): (s: State)
    ensures !s.loadingAchievements && s.cache == map[]
  {
    State(false, map[], 0)
  }

  /** `LoadAchievementsError`. */
  datatype LoadError = AlreadyLoading | GameCenterError(underlyingError: PlatformError)

  /** The arguments the load's completion handler is called with. */
  datatype LoadCallback = LoadCallback(achievements: Option<set<Achievement>>, error: Option<LoadError>)

  /**
   The outcome of starting a load: the new state, and either the handler's
   immediate rejection or `None` when the GameKit load was issued.
   */
  datatype LoadStarted = LoadStarted(state: State, rejection: Option<LoadCallback>)

  /**
   The start step of `loadAchievements`: rejected while the busy flag is set,
   otherwise the flag is raised and the cache emptied before GameKit is asked.
   */
  function LoadStart(s: State): (r: LoadStarted)
    ensures s.loadingAchievements ==> r.state == s
    ensures s.loadingAchievements <==> r.rejection == Some(LoadCallback(None, Some(AlreadyLoading)))
    ensures !s.loadingAchievements ==> r.rejection.None?
    ensures !s.loadingAchievements ==>
              r.state.loadingAchievements && r.state.cache == map[] && r.state.generation == s.generation + 1
  {
    if s.loadingAchievements then LoadStarted(s, Some(LoadCallback(None, Some(AlreadyLoading))))
    else LoadStarted(State(true, map[], s.generation + 1), None)
  }

  /** The identifiers carried by the records that have one. */
  function Identifiers(records: seq<PlatformAchievement>): set<string>
  {
    set i | 0 <= i < |records| && records[i].identifier.Some? :: records[i].identifier.value
  }

  /** No record after position `i` carries the same identifier as record `i`. */
  predicate LastWithIdentifier(records: seq<PlatformAchievement>, i: nat)
    requires i < |records|
  {
    forall j :: i < j < |records| ==> records[j].identifier != records[i].identifier
  }

  /**
   The loop of the load's completion handler: each record with an identifier
   is wrapped and stored under it, in order, so a later record with the same
   identifier replaces an earlier one; records without one are skipped.
   */
  function Rebuild(cache: map<string, Achievement>, records: seq<PlatformAchievement>): (c: map<string, Achievement>)
    ensures c.Keys == cache.Keys + Identifiers(records)
    ensures forall k :: k in cache && k !in Identifiers(records) ==> c[k] == cache[k]
    ensures forall i :: 0 <= i < |records| && records[i].identifier.Some? && LastWithIdentifier(records, i) ==>
              c[records[i].identifier.value] == Wrap(records[i])
    ensures forall k :: k in c && k !in cache ==> c[k].reportStatus == NotPending && Identifier(c[k]) == Some(k)
  {
    if |records| == 0 then cache
    else
      var n := |records| - 1;
      var before := Rebuild(cache, records[..n]);
      IdentifiersOfExtension(records);
      LastSurvivesPrefix(records);
      match records[n].identifier
      case None => before
      case Some(id) => before[id := Wrap(records[n])]
  }

  /** The identifiers of a list are those of all but its last record, plus the last record's own. */
  lemma IdentifiersOfExtension(records: seq<PlatformAchievement>)
    requires |records| > 0
    ensures var n := |records| - 1;
      Identifiers(records) ==
        Identifiers(records[..n]) + (if records[n].identifier.Some? then {records[n].identifier.value} else {})
  {
    var n := |records| - 1;
    var prefix := records[..n];
    assert forall i :: 0 <= i < n ==> prefix[i] == records[i];
  }

  /**
   A record that is the last with its identifier in a list is also the last in
   the list without its final record, and the final record carries another identifier.
   */
  lemma LastSurvivesPrefix(records: seq<PlatformAchievement>)
    requires |records| > 0
    ensures var n := |records| - 1;
      forall i :: 0 <= i < n && LastWithIdentifier(records, i) ==>
        && records[..n][i] == records[i]
        && LastWithIdentifier(records[..n], i)
        && records[n].identifier != records[i].identifier
  {
  }

  /** What the load's completion step produces. */
  datatype LoadCompleted = LoadCompleted(state: State, callback: LoadCallback)

  /**
   The completion step of `loadAchievements`: rebuild the cache from the
   records GameKit returned (none when it returned nil) and hand the cache's
   contents to the caller together with the wrapped error, if any. The busy
   flag is left as it is: nothing in the manager ever lowers it.
   */
  function LoadComplete(s: State, records: Option<seq<PlatformAchievement>>, error: Option<PlatformError>): (r: LoadCompleted)
    ensures r.state.loadingAchievements == s.loadingAchievements
    ensures r.state.generation == s.generation
    ensures records.None? ==> r.state.cache == s.cache
    ensures records.Some? ==> r.state.cache.Keys == s.cache.Keys + Identifiers(records.value)
    ensures r.callback.achievements == Some(r.state.cache.Values)
    ensures error.None? ==> r.callback.error.None?
    ensures error.Some? ==> r.callback.error == Some(GameCenterError(error.value))
  {
    var cache := if records.Some? then Rebuild(s.cache, records.value) else s.cache;
    var wrapped := if error.Some? then Some(GameCenterError(error.value)) else None;
    LoadCompleted(s.(cache := cache), LoadCallback(Some(cache.Values), wrapped))
  }

  /**
   An accepted load followed by its completion replaces the cache wholesale:
   exactly the identifiers GameKit returned are cached, each holding a fresh
   wrapper of the last record with that identifier, and the busy flag stays up.
   */
  lemma LoadReplacesCache(s: State, records: seq<PlatformAchievement>, error: Option<PlatformError>)
    requires !s.loadingAchievements
    ensures var r := LoadComplete(LoadStart(s).state, Some(records), error).state;
      && r.cache.Keys == Identifiers(records)
      && r.loadingAchievements
      && (forall k :: k in r.cache ==> r.cache[k].reportStatus == NotPending && Identifier(r.cache[k]) == Some(k))
  {
  }

  /**
   The last position holding the identifier of record `i`: every returned
   identifier has one, so the rebuilt entry for it is fully determined.
   */
  function LastIndexOf(records: seq<PlatformAchievement>, i: nat): (last: nat)
    requires i < |records|
    ensures i <= last < |records|
    ensures records[last].identifier == records[i].identifier
    ensures LastWithIdentifier(records, last)
  {
    LastMatchUpTo(records, i, |records| - 1)
  }

  /** Scanning back from position `k`, the first position that carries the identifier of record `i`. */
  function LastMatchUpTo(records: seq<PlatformAchievement>, i: nat, k: nat): (last: nat)
    requires i <= k < |records|
    ensures i <= last <= k
    ensures records[last].identifier == records[i].identifier
    ensures forall j :: last < j <= k ==> records[j].identifier != records[i].identifier
    decreases k
  {
    if records[k].identifier == records[i].identifier then k
    else LastMatchUpTo(records, i, k - 1)
  }

  /** After a load, each cached entry is a fresh wrapper of the last record carrying its identifier. */
  lemma LoadedEntryIsLastRecord(s: State, records: seq<PlatformAchievement>, error: Option<PlatformError>, i: nat)
    requires !s.loadingAchievements
    requires i < |records| && records[i].identifier.Some?
    ensures LoadComplete(LoadStart(s).state, Some(records), error).state.cache[records[i].identifier.value] ==
              Wrap(records[LastIndexOf(records, i)])
  {
  }

  /*
   Reporting every cached achievement.
   */

  /**
   The achievements `reportAllAchievements` sends: those pending a report,
   or every cached one.
   */
  function Selection(cache: map<string, Achievement>, onlyIncludePending: bool): (selected: set<string>)
    ensures selected <= cache.Keys
    ensures !onlyIncludePending ==> selected == cache.Keys
    ensures onlyIncludePending ==>
              forall k :: k in cache ==> (k in selected <==> cache[k].reportStatus == PendingReport)
  {
    if onlyIncludePending then set k | k in cache && cache[k].reportStatus == PendingReport
    else cache.Keys
  }

  /** What the completion handler of a bulk report holds on to: which achievements, and of which load. */
  datatype ReportTicket = ReportTicket(selected: set<string>, generation: nat)

  datatype ReportStarted = ReportStarted(state: State, ticket: ReportTicket)

  /**
   The start step of `reportAllAchievements`: every selected achievement is
   marked as being reported before the single GameKit call, which is issued
   even when nothing is selected.
   */
  function ReportAllStart(s: State, onlyIncludePending: bool): (r: ReportStarted)
    ensures r.ticket == ReportTicket(Selection(s.cache, onlyIncludePending), s.generation)
    ensures r.state.loadingAchievements == s.loadingAchievements && r.state.generation == s.generation
    ensures r.state.cache.Keys == s.cache.Keys
    ensures forall k :: k in s.cache && k in r.ticket.selected ==> r.state.cache[k] == ReportStart(s.cache[k])
    ensures forall k :: k in s.cache && k !in r.ticket.selected ==> r.state.cache[k] == s.cache[k]
  {
    var selected := Selection(s.cache, onlyIncludePending);
    var cache := map k | k in s.cache :: if k in selected then ReportStart(s.cache[k]) else s.cache[k];
    ReportStarted(s.(cache := cache), ReportTicket(selected, s.generation))
  }

  datatype ReportCompleted = ReportCompleted(state: State, callbackError: Option<PlatformError>)

  /**
   The completion step of `reportAllAchievements`: the completion rule of a
   single report is applied to every selected achievement with the one error
   GameKit returned, and the caller receives that error unchanged. When a load
   has run since the report started, the selected objects are no longer the
   cached ones, so the cache is left as it is.
   */
  function ReportAllComplete(s: State, ticket: ReportTicket, error: Option<PlatformError>): (r: ReportCompleted)
    ensures r.callbackError == error
    ensures r.state.loadingAchievements == s.loadingAchievements && r.state.generation == s.generation
    ensures r.state.cache.Keys == s.cache.Keys
    ensures ticket.generation != s.generation ==> r.state == s
    ensures ticket.generation == s.generation ==>
              forall k :: k in s.cache ==>
                r.state.cache[k] == (if k in ticket.selected then ReportComplete(s.cache[k], error) else s.cache[k])
  {
    if ticket.generation != s.generation then ReportCompleted(s, error)
    else
      var cache := map k | k in s.cache :: if k in ticket.selected then ReportComplete(s.cache[k], error) else s.cache[k];
      ReportCompleted(s.(cache := cache), error)
  }

  /**
   A failed bulk report leaves every achievement it sent pending, so the next
   `reportAllAchievements` with its default of only pending ones sends them again.
   */
  lemma FailedReportIsRetried(s: State, onlyIncludePending: bool, error: PlatformError)
    ensures var started := ReportAllStart(s, onlyIncludePending);
      var done := ReportAllComplete(started.state, started.ticket, Some(error));
      && done.callbackError == Some(error)
      && started.ticket.selected <= Selection(done.state.cache, true)
  {
  }

  /**
   A successful bulk report of the pending achievements cleans exactly those;
   achievements that were not pending are left untouched.
   */
  lemma SuccessfulReportCleansPending(s: State)
    ensures var started := ReportAllStart(s, true);
      var done := ReportAllComplete(started.state, started.ticket, None);
      && Selection(done.state.cache, true) == {}
      && forall k :: k in s.cache ==>
           (s.cache[k].reportStatus == PendingReport ==> done.state.cache[k].reportStatus == NotPending)
           && (s.cache[k].reportStatus != PendingReport ==> done.state.cache[k] == s.cache[k])
  {
  }

  /*
   Lookup by identifier.
   */

  /** `achievementWithIdentifier(_:)`: a plain read of the cache. */
  function AchievementWithIdentifier(s: State, identifier: string): (r: Option<Achievement>)
    ensures r.Some? <==> identifier in s.cache
    ensures r.Some? ==> r.value == s.cache[identifier]
  {
    if identifier in s.cache then Some(s.cache[identifier]) else None
  }

  /** The subscript: the same read as `achievementWithIdentifier(_:)`. */
  function Subscript(s: State, identifier: string): (r: Option<Achievement>)
    ensures r == AchievementWithIdentifier(s, identifier)
  {
    if identifier in s.cache then Some(s.cache[identifier]) else None
  }

  /**
   A caller writing `percentComplete` on the cached achievement returned by a
   lookup: the object is shared with the cache, so the cache sees the write.
   */
  function WriteCachedProgress(s: State, identifier: string): (r: State)
    ensures r.loadingAchievements == s.loadingAchievements && r.generation == s.generation
    ensures r.cache.Keys == s.cache.Keys
    ensures identifier in s.cache ==> r.cache[identifier].reportStatus == PendingReport
    ensures forall k :: k in s.cache && k != identifier ==> r.cache[k] == s.cache[k]
  {
    if identifier in s.cache then s.(cache := s.cache[identifier := WritePercentComplete(s.cache[identifier])])
    else s
  }

  /*
   Histories of manager operations, to state what holds after any sequence.
   */

  datatype Event =
    | Load
    | LoadDone(records: Option<seq<PlatformAchievement>>, error: Option<PlatformError>)
    | ReportAll(onlyIncludePending: bool)
    | ReportDone(ticket: ReportTicket, error: Option<PlatformError>)
    | WriteProgress(identifier: string)

  function Step(s: State, e: Event): State
  {
    match e
    case Load => LoadStart(s).state
    case LoadDone(records, error) => LoadComplete(s, records, error).state
    case ReportAll(onlyIncludePending) => ReportAllStart(s, onlyIncludePending).state
    case ReportDone(ticket, error) => ReportAllComplete(s, ticket, error).state
    case WriteProgress(identifier) => WriteCachedProgress(s, identifier)
  }

  function RunEvents(s: State, history: seq<Event>): State
  {
    if |history| == 0 then s
    else Step(RunEvents(s, history[..|history| - 1]), history[|history| - 1])
  }

  /** No operation lowers the busy flag. */
  lemma {:induction false} LoadingIsSticky(s: State, history: seq<Event>)
    requires s.loadingAchievements
    ensures RunEvents(s, history).loadingAchievements
    ensures RunEvents(s, history).generation == s.generation
  {
    if |history| > 0 {
      LoadingIsSticky(s, history[..|history| - 1]);
    }
  }

  /**
   While a load is in flight the cache stays empty, so every lookup misses:
   nothing but the load's completion puts an entry into it.
   */
  lemma {:induction false} LookupMissesDuringLoad(s: State, history: seq<Event>, identifier: string)
    requires !s.loadingAchievements
    requires forall i :: 0 <= i < |history| ==> !history[i].LoadDone?
    ensures RunEvents(LoadStart(s).state, history).cache == map[]
    ensures Subscript(RunEvents(LoadStart(s).state, history), identifier) == None
  {
    CacheStaysEmpty(LoadStart(s).state, history);
  }

  /** From an empty cache, no event other than a load's completion adds an entry. */
  lemma {:induction false} CacheStaysEmpty(s: State, history: seq<Event>)
    requires s.cache == map[]
    requires forall i :: 0 <= i < |history| ==> !history[i].LoadDone?
    ensures RunEvents(s, history).cache == map[]
  {
    if |history| > 0 {
      var n := |history| - 1;
      assert forall i :: 0 <= i < n ==> history[..n][i] == history[i];
      CacheStaysEmpty(s, history[..n]);
      assert !history[n].LoadDone?;
      assert Step(RunEvents(s, history[..n]), history[n]).cache.Keys == {};
    }
  }

  /**
   Once one load has been accepted, every later `loadAchievements` is
   rejected with `AlreadyLoading` and changes nothing, whatever happened in
   between, including the first load's completion.
   */
  lemma {:induction false} OnlyFirstLoadIsAccepted(s: State, history: seq<Event>)
    requires !s.loadingAchievements
    ensures var later := RunEvents(LoadStart(s).state, history);
      LoadStart(later) == LoadStarted(later, Some(LoadCallback(None, Some(AlreadyLoading))))
  {
    LoadingIsSticky(LoadStart(s).state, history);
  }
}
