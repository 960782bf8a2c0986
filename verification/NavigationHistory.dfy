/** What the history of a tab says about its state: since when something is pending, shown, suppressed
    or loading, and what the redirect chain records. */
module NavigationHistory {
  import opened NavigationState
  import opened NavigationSteps
  import opened NavigationSafety

  /** A run seen through what its events change. */
  ghost predicate Linked(trace: seq<Tab>, events: seq<Event>) {
    && |trace| == |events| + 1
    && forall l :: 0 <= l < |events| ==> Changes(trace[l], events[l], trace[l + 1])
  }

  ghost predicate LinkedWith(u: Urls, trace: seq<Tab>, events: seq<Event>) {
    Linked(trace, events) && forall l :: 0 <= l < |events| ==> Leaves(u, trace[l], events[l], trace[l + 1])
  }

  lemma RunIsLinked(u: Urls, trace: seq<Tab>, events: seq<Event>)
    requires IsRun(u, trace, events)
    ensures LinkedWith(u, trace, events)
  {
    forall l | 0 <= l < |events|
      ensures Changes(trace[l], events[l], trace[l + 1]) && Leaves(u, trace[l], events[l], trace[l + 1])
    {
      EventChanges(u, trace[l], events[l]);
    }
  }

  // ----- Navigations --------------------------------------------------------------------------

  /** Two moments belong to one navigation exactly when no load started between them. */
  lemma {:induction false} SameNavigationIff(trace: seq<Tab>, events: seq<Event>, j: nat, k: nat)
    requires Linked(trace, events) && j <= k <= |events|
    ensures trace[j].generation <= trace[k].generation
    ensures trace[j].generation == trace[k].generation <==>
              forall l :: j <= l < k ==> !Starts(trace[l], events[l])
  {
    if j < k {
      SameNavigationIff(trace, events, j, k - 1);
      assert Changes(trace[k - 1], events[k - 1], trace[k - 1 + 1]);
    }
  }

  // ----- The download timer -------------------------------------------------------------------

  lemma {:induction false} AwaitedSince(u: Urls, trace: seq<Tab>, events: seq<Event>, k: nat) returns (j: nat)
    requires LinkedWith(u, trace, events) && !trace[0].downloadTimer && k < |trace| && trace[k].downloadTimer
    ensures j < k && AwaitsDownload(u, trace[j], events[j])
    ensures forall l :: j < l <= k ==> SameDownload(trace[l], trace[k])
  {
    assert k > 0;
    assert Leaves(u, trace[k - 1], events[k - 1], trace[k - 1 + 1]);
    if AwaitsDownload(u, trace[k - 1], events[k - 1]) {
      j := k - 1;
    } else {
      j := AwaitedSince(u, trace, events, k - 1);
    }
  }

  /** A running download timer goes back to one failed load, for whose address it ran without
      interruption ever since; and it belongs to the current navigation exactly when no load has
      started after that. */
  lemma DownloadAwaitedSince(u: Urls, trace: seq<Tab>, events: seq<Event>, k: nat) returns (j: nat)
    requires IsRun(u, trace, events) && k < |trace| && trace[k].downloadTimer
    ensures j < k && AwaitsDownload(u, trace[j], events[j])
    ensures forall l :: j < l <= k ==> trace[l].downloadTimer
                                       && trace[l].pendingDownload == FailedUrl(trace[j], events[j])
    ensures trace[j + 1].generation == trace[k].generation <==>
              forall l :: j < l < k ==> !Starts(trace[l], events[l])
  {
    RunIsLinked(u, trace, events);
    j := AwaitedSince(u, trace, events, k);
    assert Leaves(u, trace[j], events[j], trace[j + 1]) && SameDownload(trace[j + 1], trace[k]);
    SameNavigationIff(trace, events, j + 1, k);
  }

  /** So a report need not belong to the navigation it appears in: the next load may have started, and
      been marked as a download of its own, and then loses that mark. */
  lemma DownloadTimerOutlivesNavigation(u: Urls, url: string) returns (trace: seq<Tab>, events: seq<Event>)
    requires url != "" && u.likelyDownload(url)
    ensures IsRun(u, trace, events) && |events| == 6
    ensures events[2].LoadFinished? && trace[3].downloadTimer && trace[3].pendingDownload == url
    ensures events[3] == Called(LoadStarted) && trace[4].generation == trace[3].generation + 1
    ensures events[4].LoadingInfo? && events[4].info.isDownload && trace[5].possibleDownload
    ensures trace[5].downloadTimer && trace[5].pendingDownload == url && trace[5].generation == trace[4].generation
    ensures events[5] == DownloadTimeout && !trace[6].possibleDownload
  {
    events := [Called(LoadUrl(url, true)), Called(LoadStarted), LoadFinished(false, url, "", []),
               Called(LoadStarted), LoadingInfo(Info(Started, false, true, url, "", "")), DownloadTimeout];
    var a := Next(u, FRESH, events[0]);
    var b := Next(u, a, events[1]);
    assert AfterCalls(u, b.(loading := false, watchdog := false), []) == b.(loading := false, watchdog := false);
    var c := Next(u, b, events[2]);
    var d := Next(u, c, events[3]);
    var e := Next(u, d, events[4]);
    var f := Next(u, e, events[5]);
    trace := [FRESH, a, b, c, d, e, f];
  }

  // ----- Internal pages -----------------------------------------------------------------------

  lemma {:induction false} PageStaysIff(trace: seq<Tab>, events: seq<Event>, i: nat, k: nat)
    requires Linked(trace, events) && i <= k <= |events| && trace[i].internalContent
    ensures (forall l :: i <= l <= k ==> trace[l].internalContent)
            <==> forall l :: i <= l < k ==> !Requests(trace[l], events[l])
    ensures (forall l :: i <= l < k ==> !Requests(trace[l], events[l])) ==> trace[k].shown == trace[i].shown
  {
    if i < k {
      PageStaysIff(trace, events, i, k - 1);
      assert Changes(trace[k - 1], events[k - 1], trace[k - 1 + 1]);
    }
  }

  /** An internal page stays, with no error page over it and none on the way, exactly until the next
      request. */
  lemma InternalPageStays(u: Urls, trace: seq<Tab>, events: seq<Event>, i: nat, k: nat)
    requires IsRun(u, trace, events) && i <= k <= |events| && trace[i].internalContent
    ensures (forall l :: i <= l <= k ==> trace[l].internalContent)
            <==> forall l :: i <= l < k ==> !Requests(trace[l], events[l])
    ensures (forall l :: i <= l < k ==> !Requests(trace[l], events[l])) ==>
              trace[k].shown == trace[i].shown && !trace[k].failureTimer
  {
    RunIsLinked(u, trace, events);
    PageStaysIff(trace, events, i, k);
    RunKeepsInv(u, trace, events, k);
  }

  // ----- Loading ------------------------------------------------------------------------------

  lemma {:induction false} StartedBefore(trace: seq<Tab>, events: seq<Event>, k: nat) returns (j: nat)
    requires Linked(trace, events) && !trace[0].watchdog && k < |trace| && trace[k].watchdog
    ensures j < k && Starts(trace[j], events[j])
    ensures forall l :: j < l <= k ==> trace[l].watchdog
    ensures forall l :: j < l < k ==> !Starts(trace[l], events[l])
  {
    assert k > 0;
    assert Changes(trace[k - 1], events[k - 1], trace[k - 1 + 1]);
    if Starts(trace[k - 1], events[k - 1]) {
      j := k - 1;
    } else {
      j := StartedBefore(trace, events, k - 1);
    }
  }

  /** A running watchdog goes back to the start of the current navigation, and all that time the load
      was going on. */
  lemma WatchedSince(u: Urls, trace: seq<Tab>, events: seq<Event>, k: nat) returns (j: nat)
    requires IsRun(u, trace, events) && k < |trace| && trace[k].watchdog
    ensures j < k && Starts(trace[j], events[j])
    ensures forall l :: j < l <= k ==> trace[l].watchdog && trace[l].loading && trace[l].generation == trace[k].generation
  {
    RunIsLinked(u, trace, events);
    j := StartedBefore(trace, events, k);
    forall l | j < l <= k ensures trace[l].loading && trace[l].generation == trace[k].generation {
      RunKeepsInv(u, trace, events, l);
      SameNavigationIff(trace, events, l, k);
    }
  }

  /** Of the watchdog's two guards only the internal page can stop it: otherwise the stalled load gives
      way to a page that is displayed, stable and no longer loading. */
  lemma OnlyAPageStopsTheWatchdog(u: Urls, trace: seq<Tab>, events: seq<Event>, k: nat)
    requires IsRun(u, trace, events) && k < |trace| && trace[k].watchdog
    ensures var t := trace[k];
            var v := Next(u, t, WatchdogTimeout);
            && v.internalContent && !v.watchdog && !v.failureTimer
            && (v.loading <==> t.internalContent)
            && (!t.internalContent ==> v.title == v.stableTitle == UNAVAILABLE && v.display == v.stableDisplay)
  {
    RunKeepsInv(u, trace, events, k);
  }

  // ----- Downloads that began -----------------------------------------------------------------

  lemma {:induction false} StableSince(trace: seq<Tab>, events: seq<Event>, j: nat, k: nat)
    requires Linked(trace, events) && j <= k <= |events|
    requires forall l :: j <= l < k ==> LeavesStable(trace[l], events[l])
    ensures SameStable(trace[j], trace[k])
  {
    if j < k {
      StableSince(trace, events, j, k - 1);
      assert Changes(trace[k - 1], events[k - 1], trace[k - 1 + 1]);
    }
  }

  /** The event ends with a page: a load that succeeded, or the server's own error page. */
  predicate Reaches(t: Tab, e: Event) {
    e.LoadFinished? && !t.internalContent && (e.ok || t.httpError)
  }

  lemma ReachedIsStable(u: Urls, t: Tab, e: Event)
    requires Reaches(t, e)
    ensures var v := Next(u, t, e); v.stableDisplay == v.display && v.stableTitle == v.title
  {
  }

  lemma StableComesBack(u: Urls, t: Tab)
    ensures var v := DownloadStarted(u, t);
            && v.display == OrElse(u, t.stableDisplay, "about:granger")
            && v.title == OrElse(u, t.stableTitle, "Granger Browser")
            && !v.loading && !v.watchdog && !v.failureTimer && !v.downloadTimer
  {
  }

  /** When a download begins the tab shows again the page it last reached, whatever was requested,
      started, redirected or failed in between, and nothing is pending any more. */
  lemma DownloadShowsLastPage(u: Urls, trace: seq<Tab>, events: seq<Event>, j: nat, k: nat)
    requires IsRun(u, trace, events) && j < k < |events| && events[k] == Called(MarkDownloadStarted)
    requires Reaches(trace[j], events[j])
    requires forall l :: j < l < k ==> LeavesStable(trace[l], events[l])
    ensures var v := trace[k + 1];
            && v.display == OrElse(u, trace[j + 1].display, "about:granger")
            && v.title == OrElse(u, trace[j + 1].title, "Granger Browser")
            && !v.loading && !v.watchdog && !v.failureTimer && !v.downloadTimer
  {
    RunIsLinked(u, trace, events);
    StableSince(trace, events, j + 1, k);
    ReachedIsStable(u, trace[j], events[j]);
    StableComesBack(u, trace[k]);
    assert trace[j + 1] == Next(u, trace[j], events[j]) && trace[k + 1] == Next(u, trace[k], events[k]);
  }

  lemma {:induction false} SuppressedSince(trace: seq<Tab>, events: seq<Event>, j: nat, k: nat)
    requires Linked(trace, events) && j <= k <= |events| && trace[j].suppressDownloadFailure
    requires forall l :: j <= l < k ==> !Requests(trace[l], events[l]) && !Reacts(trace[l], events[l])
    ensures forall l :: j <= l <= k ==> trace[l].suppressDownloadFailure
  {
    if j < k {
      SuppressedSince(trace, events, j, k - 1);
      assert Changes(trace[k - 1], events[k - 1], trace[k - 1 + 1]);
    }
  }

  /** Behind the start of a download no failure is announced, until a new request or the end of one
      failed load. */
  lemma DownloadSilencesFailures(u: Urls, trace: seq<Tab>, events: seq<Event>, j: nat, k: nat)
    requires IsRun(u, trace, events) && j < k <= |events| && events[j] == Called(MarkDownloadStarted)
    requires forall l :: j < l < k ==> !Requests(trace[l], events[l]) && !Reacts(trace[l], events[l])
    ensures trace[k].suppressDownloadFailure && !trace[k].failureTimer
  {
    RunIsLinked(u, trace, events);
    assert trace[j + 1] == Next(u, trace[j], events[j]);
    SuppressedSince(trace, events, j + 1, k);
    RunKeepsInv(u, trace, events, k);
  }

  // ----- Failed loads -------------------------------------------------------------------------

  /** A failed load that is no download ends, when its timer fires with nothing in between, in an error
      page for the failure first announced - exactly if the view has not moved elsewhere. */
  lemma FailedLoadEndsInErrorPage(u: Urls, t: Tab, e: Event, later: string)
    requires Inv(t) && Reacts(t, e) && e.reaction == [] && !t.suppressDownloadFailure && !t.possibleDownload
    requires FailedUrl(t, e) != "" && !u.likelyDownload(FailedUrl(t, e))
    ensures var v := Next(u, t, e);
            && v.failureTimer && !v.loading
            && v.failure.url == (if t.failureTimer then t.failure.url else FailedUrl(t, e))
            && (later == "" || later == v.failure.url <==>
                  Next(u, v, FailureTimeout(later)).shown == t.shown + [Shown(v.failure.url, t.generation)])
  {
  }

  lemma {:induction false} ServerErrorSince(trace: seq<Tab>, events: seq<Event>, j: nat, k: nat)
    requires Linked(trace, events) && j <= k <= |events| && trace[j].httpError
    requires forall l :: j <= l < k ==> !Requests(trace[l], events[l]) && !Starts(trace[l], events[l])
    ensures trace[k].httpError
  {
    if j < k {
      ServerErrorSince(trace, events, j, k - 1);
      assert Changes(trace[k - 1], events[k - 1], trace[k - 1 + 1]);
    }
  }

  /** The server answers with an error of its own. */
  predicate ServerError(t: Tab, e: Event) {
    e.LoadingInfo? && !t.internalContent && e.info.status.Failed? && e.info.httpDomain && !e.info.isDownload
  }

  /** After that the end of the load is an ordinary one: whatever else was announced meanwhile, the
      server's page is the one displayed and stable, and no failure is pending. */
  lemma ServerPageIsKept(u: Urls, trace: seq<Tab>, events: seq<Event>, j: nat, k: nat)
    requires IsRun(u, trace, events) && j < k < |events| && ServerError(trace[j], events[j])
    requires forall l :: j < l < k ==> !Requests(trace[l], events[l]) && !Starts(trace[l], events[l])
    requires events[k].LoadFinished? && !events[k].ok && !trace[k].internalContent
    ensures var v := trace[k + 1];
            && !v.failureTimer && !v.loading && !v.internalContent && v.shown == trace[k].shown
            && v.display == v.stableDisplay == u.display(events[k].viewUrl)
  {
    RunIsLinked(u, trace, events);
    assert trace[j + 1] == Next(u, trace[j], events[j]) && trace[k + 1] == Next(u, trace[k], events[k]);
    ServerErrorSince(trace, events, j + 1, k);
  }

  // ----- The redirect chain -------------------------------------------------------------------

  /** The address that joins a list of those visited, if it is new there. */
  function Joined(u: Urls, list: seq<string>, e: Event): seq<string> {
    if e.UrlChanged? && u.isWeb(e.url) && e.url != "" && (list == [] || list[|list| - 1] != e.url)
    then list + [e.url] else list
  }

  /** All web addresses the view took since the list began, without immediate repeats. */
  function Visited(u: Urls, list: seq<string>, events: seq<Event>): seq<string> {
    if events == [] then list
    else Joined(u, Visited(u, list, events[..|events| - 1]), events[|events| - 1])
  }

  lemma NewestJoined(u: Urls, full: seq<string>, e: Event)
    ensures NextChain(u, Latest(full), e) == Latest(Joined(u, full, e))
  {
  }

  lemma {:induction false} ChainSince(u: Urls, chains: seq<seq<string>>, events: seq<Event>)
    requires |chains| == |events| + 1 && |chains[0]| <= CHAIN_LIMIT
    requires forall l :: 0 <= l < |events| ==> chains[l + 1] == NextChain(u, chains[l], events[l])
    ensures chains[|events|] == Latest(Visited(u, chains[0], events))
  {
    if events != [] {
      var n := |events| - 1;
      ChainSince(u, chains[..n + 1], events[..n]);
      NewestJoined(u, Visited(u, chains[0], events[..n]), events[n]);
      assert chains[n + 1] == NextChain(u, chains[n], events[n]);
    }
  }

  /** The chain holds the newest twenty-four addresses of everything visited since the request. */
  lemma ChainIsNewestVisited(u: Urls, trace: seq<Tab>, events: seq<Event>, j: nat, k: nat)
    requires IsRun(u, trace, events) && j < k <= |events|
    requires events[j].Called? && events[j].call.LoadUrl?
    requires forall l :: j < l < k ==> !Requests(trace[l], events[l])
    ensures var url := events[j].call.url;
            trace[k].chain == Latest(Visited(u, if url == "" then [] else [url], events[j + 1..k]))
  {
    RunIsLinked(u, trace, events);
    assert trace[j + 1] == Next(u, trace[j], events[j]);
    var chains := seq(k - j, l requires 0 <= l < k - j => trace[j + 1 + l].chain);
    forall l | 0 <= l < k - j - 1 ensures chains[l + 1] == NextChain(u, chains[l], events[j + 1..k][l]) {
      assert Leaves(u, trace[j + 1 + l], events[j + 1 + l], trace[j + 1 + l + 1]);
    }
    ChainSince(u, chains, events[j + 1..k]);
  }
}
