/**
 The `Achievement` wrapper around a GameKit achievement record, and the
 report-status state machine it adds: a progress write marks the achievement
 as needing a report, a report marks it as in flight, and the completion of a
 report decides whether it is clean again.
 */
module Achievements {
  import opened Wrappers
  import opened Platform

  /** Whether local progress still has to be sent to Game Center. */
  datatype ReportStatus = NotPending | PendingReport | Reporting

  /**
   The underlying `GKAchievement`. Only its identifier is read by the
   library. `handle` is the identity of the wrapped object, which the wrapper
   holds for its whole life; the object's other contents (percentage, dates,
   owning player) are not modelled, so a progress write leaves the record as is.
   */
  datatype PlatformAchievement = PlatformAchievement(identifier: Option<string>, handle: nat)

  /** The wrapper: a platform record plus the library's own report status. */
  datatype Achievement = Achievement(underlying: PlatformAchievement, reportStatus: ReportStatus)

  /** The internal initializer used when wrapping records loaded from Game Center. */
  function Wrap(record: PlatformAchievement): (a: Achievement)
    ensures a.underlying == record
    ensures a.reportStatus == NotPending
  {
    Achievement(record, NotPending)
  }

  /**
   The public initializer: GameKit creates a fresh record for the identifier
   (with or without a player, which lives in the opaque part).
   */
  function New(identifier: Option<string>, handle: nat): (a: Achievement)
    ensures Identifier(a) == identifier
    ensures a.reportStatus == NotPending
  {
    Wrap(PlatformAchievement(identifier, handle))
  }

  /** The `identifier` getter: forwarded to the platform record. */
  function Identifier(a: Achievement): Option<string>
  {
    a.underlying.identifier
  }

  /** The `identifier` setter: forwarded to the platform record, no status effect. */
  function SetIdentifier(a: Achievement, identifier: Option<string>): (r: Achievement)
    ensures Identifier(r) == identifier
    ensures r.underlying.handle == a.underlying.handle
    ensures r.reportStatus == a.reportStatus
  {
    a.(underlying := a.underlying.(identifier := identifier))
  }

  /** Writing `percentComplete`: from any status the achievement now needs a report. */
  function WritePercentComplete(a: Achievement): (r: Achievement)
    ensures r.underlying == a.underlying
    ensures r.reportStatus == PendingReport
  {
    a.(reportStatus := PendingReport)
  }

  /** The start step of `report`: the status becomes `Reporting` before GameKit is called. */
  function ReportStart(a: Achievement): (r: Achievement)
    ensures r.underlying == a.underlying
    ensures r.reportStatus == Reporting
  {
    a.(reportStatus := Reporting)
  }

  /**
   `reportCompleteWithError`: a failure leaves the achievement pending so a
   later report retries it; a success makes it clean unless a write arrived
   while the report was in flight (the status is then already `PendingReport`
   and stays so).
   */
  function ReportComplete(a: Achievement, error: Option<PlatformError>): (r: Achievement)
    ensures r.underlying == a.underlying
    ensures r.reportStatus != Reporting
    ensures error.Some? ==> r.reportStatus == PendingReport
    ensures error.None? ==> (r.reportStatus == PendingReport <==> a.reportStatus == PendingReport)
  {
    if error.Some? then a.(reportStatus := PendingReport)
    else if a.reportStatus != PendingReport then a.(reportStatus := NotPending)
    else a
  }

  /** What the completion step of `report` produces: the updated achievement and the handler's argument. */
  datatype ReportFinished = ReportFinished(achievement: Achievement, callbackError: Option<PlatformError>)

  /** The completion step of `report`: apply the completion rule, then hand the error on unchanged. */
  function ReportFinish(a: Achievement, error: Option<PlatformError>): (r: ReportFinished)
    ensures r.callbackError == error
    ensures r.achievement == ReportComplete(a, error)
  {
    ReportFinished(ReportComplete(a, error), error)
  }

  /*
   Histories. The status of one achievement is driven by three kinds of
   events; a history lists them in the order they happen on the main thread.
   */

  datatype Event = Write | Start | Complete(error: Option<PlatformError>)

  function Apply(a: Achievement, e: Event): Achievement
  {
    match e
    case Write => WritePercentComplete(a)
    case Start => ReportStart(a)
    case Complete(error) => ReportComplete(a, error)
  }

  /** The achievement after the events of `history`, oldest first. */
  function Run(a: Achievement, history: seq<Event>): Achievement
  {
    if |history| == 0 then a
    else Apply(Run(a, history[..|history| - 1]), history[|history| - 1])
  }

  /** An event after which the achievement's progress is known not to be on the server. */
  predicate Dirties(e: Event)
  {
    e.Write? || (e.Complete? && e.error.Some?)
  }

  /** No report was started after position `i` of the history. */
  predicate NoStartAfter(history: seq<Event>, i: nat)
  {
    forall j :: i < j < |history| ==> !history[j].Start?
  }

  /**
   Some write (or failed report) has not been followed by any report start:
   the change it stands for has not been sent.
   */
  predicate Unreported(history: seq<Event>)
  {
    exists i :: 0 <= i < |history| && Dirties(history[i]) && NoStartAfter(history, i)
  }

  /**
   The status a history should leave a clean achievement in, stated without
   replaying it: in flight right after a start, pending while some change has
   not been covered by a later start, clean otherwise.
   */
  function ExpectedStatus(history: seq<Event>): ReportStatus
  {
    if |history| > 0 && history[|history| - 1].Start? then Reporting
    else if Unreported(history) then PendingReport
    else NotPending
  }

  /**
   Replaying any history on a clean achievement gives the status the history
   calls for: no write is ever lost by a report that was already in flight
   when the write was made.
   */
  lemma {:induction false} RunMatchesExpected(a: Achievement, history: seq<Event>)
    requires a.reportStatus == NotPending
    ensures Run(a, history).reportStatus == ExpectedStatus(history)
    ensures Run(a, history).underlying == a.underlying
  {
    if |history| == 0 {
      assert !Unreported(history);
    } else {
      var n := |history| - 1;
      var prefix := history[..n];
      RunMatchesExpected(a, prefix);
      assert history == prefix + [history[n]];
      ExpectedAfter(prefix, history[n], Run(a, prefix));
    }
  }

  /** One more event moves the expected status exactly as applying the event moves the achievement. */
  lemma ExpectedAfter(prefix: seq<Event>, e: Event, before: Achievement)
    requires before.reportStatus == ExpectedStatus(prefix)
    ensures Apply(before, e).reportStatus == ExpectedStatus(prefix + [e])
  {
    var t := prefix + [e];
    var n := |prefix|;
    if Dirties(e) {
      assert Dirties(t[n]) && NoStartAfter(t, n);
    } else if e.Complete? {
      UnreportedExtend(prefix, e);
      if n > 0 && prefix[n - 1].Start? {
        StartCoversEverything(prefix);
      }
    }
  }

  /** Right after a report start, every earlier change is covered by that start. */
  lemma StartCoversEverything(history: seq<Event>)
    requires |history| > 0 && history[|history| - 1].Start?
    ensures !Unreported(history)
  {
    forall i | 0 <= i < |history| && Dirties(history[i])
      ensures !NoStartAfter(history, i)
    {
      assert i < |history| - 1;
      assert history[|history| - 1].Start?;
    }
  }

  /** Appending an event that neither dirties nor starts a report does not change `Unreported`. */
  lemma UnreportedExtend(history: seq<Event>, e: Event)
    requires !Dirties(e) && !e.Start?
    ensures Unreported(history + [e]) <==> Unreported(history)
  {
    var t := history + [e];
    if Unreported(history) {
      var i :| 0 <= i < |history| && Dirties(history[i]) && NoStartAfter(history, i);
      assert t[i] == history[i];
      assert NoStartAfter(t, i);
    }
    if Unreported(t) {
      var i :| 0 <= i < |t| && Dirties(t[i]) && NoStartAfter(t, i);
      assert i < |history|;
      assert t[i] == history[i];
      forall j | i < j < |history|
        ensures !history[j].Start?
      {
        assert t[j] == history[j];
      }
    }
  }

  /**
   The report window: once a report has started, a successful completion
   leaves the achievement pending exactly when a write (or a failed report of
   its own) happened in between, whatever its status was before the start.
   */
  lemma {:induction false} SuccessfulReportKeepsLaterWrites(a: Achievement, window: seq<Event>)
    requires forall k :: 0 <= k < |window| ==> !window[k].Start?
    ensures Run(ReportStart(a), window + [Complete(None)]).reportStatus ==
              if exists k :: 0 <= k < |window| && Dirties(window[k]) then PendingReport else NotPending
  {
    WindowStatus(a, window);
    assert Run(ReportStart(a), window).reportStatus != Reporting ==> |window| > 0;
    var t := window + [Complete(None)];
    assert t[..|t| - 1] == window;
  }

  /** Within a report window the achievement is pending exactly when the window holds a change. */
  lemma {:induction false} WindowStatus(a: Achievement, window: seq<Event>)
    requires forall k :: 0 <= k < |window| ==> !window[k].Start?
    ensures Run(ReportStart(a), window).reportStatus == PendingReport <==>
              exists k :: 0 <= k < |window| && Dirties(window[k])
  {
    if |window| > 0 {
      var n := |window| - 1;
      var prefix := window[..n];
      assert forall k :: 0 <= k < |prefix| ==> prefix[k] == window[k];
      WindowStatus(a, prefix);
      if exists k :: 0 <= k < |prefix| && Dirties(prefix[k]) {
        var k :| 0 <= k < |prefix| && Dirties(prefix[k]);
        assert Dirties(window[k]);
      }
      if !Dirties(window[n]) && exists k :: 0 <= k < |window| && Dirties(window[k]) {
        var k :| 0 <= k < |window| && Dirties(window[k]);
        assert k < n && Dirties(prefix[k]);
      }
    }
  }
}
