/** What holds of a tab under any order of events. */
module NavigationSafety {
  import opened NavigationState
  import opened NavigationSteps

  predicate NoRepeats(chain: seq<string>) {
    forall i :: 0 <= i < |chain| - 1 ==> chain[i] != chain[i + 1]
  }

  /** While the failure timer runs, a failure of the current navigation is pending that nothing has
      superseded; the watchdog only runs while loading; the redirect chain is short and without
      immediate repeats. */
  predicate Inv(t: Tab) {
    && (t.failureTimer ==>
          && t.failedGeneration == t.generation && t.failure.url != "" && !t.internalContent
          && !t.suppressDownloadFailure && !t.possibleDownload)
    && (t.watchdog ==> t.loading)
    && |t.chain| <= CHAIN_LIMIT && NoRepeats(t.chain)
  }

  lemma FollowKeepsChain(u: Urls, chain: seq<string>, url: string)
    requires |chain| <= CHAIN_LIMIT && NoRepeats(chain)
    ensures |Follow(u, chain, url)| <= CHAIN_LIMIT && NoRepeats(Follow(u, chain, url))
  {
  }

  lemma CallKeepsInv(u: Urls, t: Tab, c: Call)
    requires Inv(t)
    ensures Inv(AfterCall(u, t, c))
  {
  }

  lemma {:induction false} CallsKeepInv(u: Urls, t: Tab, calls: seq<Call>)
    requires Inv(t)
    ensures Inv(AfterCalls(u, t, calls))
  {
    if calls != [] {
      CallsKeepInv(u, t, calls[..|calls| - 1]);
      CallKeepsInv(u, AfterCalls(u, t, calls[..|calls| - 1]), calls[|calls| - 1]);
    }
  }

  lemma EndKeepsInv(u: Urls, t: Tab, url: string, title: string)
    requires Inv(t)
    ensures Inv(EndWithSuccess(u, t, url, title)) && Inv(EndWithHttpError(u, t, url, title))
    ensures Inv(EndWithFailure(u, t, url))
  {
  }

  lemma FinishedKeepsInv(u: Urls, t: Tab, ok: bool, viewUrl: string, viewTitle: string, reaction: seq<Call>)
    requires Inv(t)
    ensures Inv(AfterFinished(u, t, ok, viewUrl, viewTitle, reaction))
  {
    var s := t.(loading := false, watchdog := false);
    CallsKeepInv(u, s, reaction);
    EndKeepsInv(u, s, viewUrl, viewTitle);
    EndKeepsInv(u, AfterCalls(u, s, reaction), if s.requested != "" then s.requested else viewUrl, "");
  }

  lemma InfoKeepsInv(u: Urls, t: Tab, info: Info)
    requires Inv(t)
    ensures Inv(AfterInfo(u, t, info))
  {
  }

  lemma TimeoutKeepsInv(u: Urls, t: Tab, viewUrl: string)
    requires Inv(t)
    ensures Inv(AfterFailureTimeout(u, t, viewUrl)) && Inv(AfterDownloadTimeout(t)) && Inv(AfterWatchdog(u, t))
  {
  }

  lemma TerminatedKeepsInv(u: Urls, t: Tab, normal: bool)
    requires Inv(t)
    ensures Inv(AfterTerminated(u, t, normal))
  {
  }

  lemma StepKeepsInv(u: Urls, t: Tab, e: Event)
    requires Inv(t) && Enabled(t, e)
    ensures Inv(Next(u, t, e))
  {
    match e
    case Called(call) => CallKeepsInv(u, t, call);
    case UrlChanged(url) => FollowKeepsChain(u, t.chain, url);
    case LoadFinished(ok, viewUrl, viewTitle, reaction) => FinishedKeepsInv(u, t, ok, viewUrl, viewTitle, reaction);
    case LoadingInfo(info) => InfoKeepsInv(u, t, info);
    case FailureTimeout(viewUrl) => TimeoutKeepsInv(u, t, viewUrl);
    case DownloadTimeout => TimeoutKeepsInv(u, t, "");
    case WatchdogTimeout => TimeoutKeepsInv(u, t, "");
    case Terminated(normal) => TerminatedKeepsInv(u, t, normal);
  }

  lemma {:induction false} RunKeepsInv(u: Urls, trace: seq<Tab>, events: seq<Event>, i: nat)
    requires IsRun(u, trace, events) && i < |trace|
    ensures Inv(trace[i])
  {
    if i > 0 {
      RunKeepsInv(u, trace, events, i - 1);
      StepKeepsInv(u, trace[i - 1], events[i - 1]);
      assert trace[i - 1 + 1] == Next(u, trace[i - 1], events[i - 1]);
    }
  }

  // ----- The guards of the failure timer ------------------------------------------------------

  /** Of the callback's guards only `loading` can stop it: in every reachable state it shows the error
      page exactly when nothing is loading and the view has not moved to another address. */
  lemma OnlyLoadingStopsTheErrorPage(u: Urls, trace: seq<Tab>, events: seq<Event>, i: nat, viewUrl: string)
    requires IsRun(u, trace, events) && i < |trace| && trace[i].failureTimer
    ensures var t := trace[i];
            var after := Next(u, t, FailureTimeout(viewUrl));
            && (after.shown != t.shown <==> !t.loading && (viewUrl == "" || viewUrl == t.failure.url))
            && (after.shown != t.shown ==>
                  after.shown == t.shown + [Shown(t.failure.url, t.generation)] && after.internalContent)
  {
    RunKeepsInv(u, trace, events, i);
  }

  /** And that guard is needed: a failure can be announced while the load still runs. */
  lemma LoadingCanStopIt(u: Urls, url: string) returns (trace: seq<Tab>, events: seq<Event>)
    requires url != "" && !u.likelyDownload(url)
    ensures IsRun(u, trace, events) && |events| == 3
    ensures trace[3].failureTimer && trace[3].loading
    ensures Next(u, trace[3], FailureTimeout(url)).shown == []
  {
    events := [Called(LoadUrl(url, true)), Called(LoadStarted),
                   LoadingInfo(Info(Failed, false, false, url, "", ""))];
    var a := Next(u, FRESH, events[0]);
    var b := Next(u, a, events[1]);
    var c := Next(u, b, events[2]);
    trace := [FRESH, a, b, c];
  }

  // ----- What an error page is about ----------------------------------------------------------

  /** The event records a failure at `url` in the current navigation. */
  ghost predicate Records(u: Urls, t: Tab, e: Event) {
    Enabled(t, e) && Next(u, t, e).failureTimer
    && (e.LoadingInfo? || e.LoadFinished?) && (e.LoadFinished? ==> !e.ok)
  }

  ghost predicate SamePending(t: Tab, v: Tab) {
    t.failureTimer && v.failureTimer && t.failure == v.failure && t.generation == v.generation
  }

  lemma PendingOrRecorded(u: Urls, t: Tab, e: Event)
    requires Inv(t) && Enabled(t, e) && Next(u, t, e).failureTimer
    ensures SamePending(t, Next(u, t, e)) || Records(u, t, e)
  {
  }

  /** A running timer goes back to one recording, since when it ran without interruption, in one
      navigation, for one address. */
  lemma {:induction false} PendingSince(u: Urls, trace: seq<Tab>, events: seq<Event>, k: nat) returns (j: nat)
    requires IsRun(u, trace, events) && k < |trace| && trace[k].failureTimer
    ensures j < k && Records(u, trace[j], events[j])
    ensures forall l :: j < l <= k ==> SamePending(trace[l], trace[k])
    ensures forall l :: j < l <= k ==> !trace[l].internalContent && !trace[l].possibleDownload
  {
    RunKeepsInv(u, trace, events, k);
    assert k > 0;
    var t, e := trace[k - 1], events[k - 1];
    assert trace[k - 1 + 1] == Next(u, t, e);
    RunKeepsInv(u, trace, events, k - 1);
    PendingOrRecorded(u, t, e);
    if Records(u, t, e) {
      j := k - 1;
    } else {
      j := PendingSince(u, trace, events, k - 1);
    }
  }

  /** No other event shows an error page of the timer. */
  lemma OnlyTheTimerShows(u: Urls, t: Tab, e: Event)
    requires Enabled(t, e) && !e.FailureTimeout?
    ensures Next(u, t, e).shown == t.shown
  {
    EventChanges(u, t, e);
  }

  /** Every error page the timer put up was for a failure recorded in the navigation that was current
      when it appeared: between the recording and the page no other navigation started, no internal
      page was shown, no download began and the failure was not withdrawn. */
  lemma ErrorPageIsCurrent(u: Urls, trace: seq<Tab>, events: seq<Event>, k: nat) returns (j: nat)
    requires IsRun(u, trace, events) && k < |events| && trace[k + 1].shown != trace[k].shown
    ensures j < k && events[k].FailureTimeout? && Records(u, trace[j], events[j])
    ensures trace[k + 1].shown == trace[k].shown + [Shown(trace[j + 1].failure.url, trace[j + 1].generation)]
    ensures forall l :: j < l <= k ==> SamePending(trace[l], trace[k]) && !trace[l].internalContent
  {
    assert trace[k + 1] == Next(u, trace[k], events[k]);
    if !events[k].FailureTimeout? { OnlyTheTimerShows(u, trace[k], events[k]); }
    RunKeepsInv(u, trace, events, k);
    j := PendingSince(u, trace, events, k);
  }

  /** Once the page is up everything is settled: no failure is pending, nothing loads, no timer of this
      navigation runs, and the failed address is the one displayed and kept as stable. */
  lemma ShownTabIsSettled(u: Urls, t: Tab, viewUrl: string)
    requires Inv(t) && t.failureTimer && !t.loading && (viewUrl == "" || viewUrl == t.failure.url)
    ensures var v := Next(u, t, FailureTimeout(viewUrl));
            && !v.failureTimer && v.failure == NO_FAILURE && !v.watchdog && !v.loading
            && v.internalContent && v.display == v.stableDisplay == OrElse(u, "", t.failure.url)
  {
  }
}
