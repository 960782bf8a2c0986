/** The tab as code: an object whose handlers change one field of its state after the other, and the
    event loop that calls them. */
module NavigationTab {
  import opened NavigationState
  import opened NavigationSteps
  import opened NavigationSafety

  class BrowserTab {
    const urls: Urls
    var s: Tab

    constructor (urls: Urls)
      ensures s == FRESH && this.urls == urls
    {
      this.urls, s := urls, FRESH;
    }

    method CancelPendingNavigationFailure()
      modifies this
      ensures s == CancelFailure(old(s))
    {
      if s.failureTimer { s := s.(failureTimer := false); }
      s := s.(failure := NO_FAILURE);
    }

    method CancelPendingDownloadFailure()
      modifies this
      ensures s == CancelDownload(old(s))
    {
      if s.downloadTimer { s := s.(downloadTimer := false); }
      s := s.(pendingDownload := "");
    }

    method ScheduleNavigationFailure(url: string, category: string, reason: string)
      modifies this
      ensures s == ScheduleFailure(old(s), Failure(url, category, reason))
    {
      if url == "" || s.internalContent || s.suppressDownloadFailure || s.possibleDownload { return; }
      s := s.(failure := Failure(url, category, reason));
      s := s.(failedGeneration := s.generation);
      s := s.(failureTimer := true);
    }

    method RestoreStableDisplay()
      modifies this
      ensures s == RestoreStable(urls, old(s))
    {
      var address := OrElse(urls, s.stableDisplay, "about:granger");
      var title := OrElse(urls, s.stableTitle, "Granger Browser");
      if s.display != address { s := s.(display := address); }
      if s.title != title { s := s.(title := title); }
    }

    method SetInternal(address: string, title: string, display: string)
      modifies this
      ensures s == ShowInternal(urls, old(s), address, title, display)
    {
      s := s.(internalContent := true);
      s := s.(watchdog := false);
      CancelPendingNavigationFailure();
      s := s.(loading := false);
      s := s.(display := OrElse(urls, display, address));
      s := s.(title := title);
      s := s.(stableDisplay := s.display);
      s := s.(stableTitle := s.title);
    }

    method OpenUrl(url: string, update: bool)
      modifies this
      ensures s == Load(urls, old(s), url, update)
    {
      s := s.(internalContent := false, suppressDownloadFailure := false, pendingDownload := "");
      s := s.(possibleDownload := urls.likelyDownload(url));
      s := s.(httpError := false);
      CancelPendingDownloadFailure();
      CancelPendingNavigationFailure();
      s := s.(requested := url, chain := if url == "" then [] else [url]);
      if update { s := s.(display := urls.display(url)); }
    }

    method OnDownloadStarted()
      modifies this
      ensures s == DownloadStarted(urls, old(s))
    {
      CancelPendingDownloadFailure();
      CancelPendingNavigationFailure();
      s := s.(suppressDownloadFailure := true, possibleDownload := false);
      s := s.(loading := false);
      s := s.(watchdog := false);
      RestoreStableDisplay();
    }

    method OnLoadStarted()
      modifies this
      ensures s == Start(old(s))
    {
      s := s.(generation := s.generation + 1);
      CancelPendingNavigationFailure();
      s := s.(httpError := false);
      s := s.(loading := true);
      s := s.(watchdog := true);
    }

    /** The list is shortened from the front, one entry at a time. */
    method Shorten(longer: seq<string>) returns (list: seq<string>)
      ensures list == Latest(longer)
    {
      list := longer;
      while |list| > CHAIN_LIMIT
        invariant |list| <= |longer| && list == longer[|longer| - |list|..]
        invariant if |longer| >= CHAIN_LIMIT then |list| >= CHAIN_LIMIT else |list| == |longer|
      {
        list := list[1..];
      }
    }

    method FollowRedirect(url: string)
      modifies this
      ensures s == old(s).(chain := Follow(urls, old(s).chain, url))
    {
      if urls.isWeb(url) && url != "" && (s.chain == [] || s.chain[|s.chain| - 1] != url) {
        var list := Shorten(s.chain + [url]);
        s := s.(chain := list);
      }
    }

    method OnUrlChanged(url: string)
      modifies this
      ensures s == AfterUrl(urls, old(s), url)
    {
      if s.failure.url != "" && url != s.failure.url { CancelPendingNavigationFailure(); }
      if !s.internalContent && !s.loading { s := s.(display := urls.display(url)); }
      FollowRedirect(url);
    }

    method Perform(c: Call)
      modifies this
      ensures s == AfterCall(urls, old(s), c)
    {
      match c
      case LoadUrl(url, update) => OpenUrl(url, update);
      case SetInternalHtml(address, title, display) => SetInternal(address, title, display);
      case MarkDownloadStarted => OnDownloadStarted();
      case LoadStarted => OnLoadStarted();
    }

    /** What the listeners of externalLoadFailed call before the handler goes on. */
    method React(calls: seq<Call>)
      modifies this
      ensures s == AfterCalls(urls, old(s), calls)
    {
      for k := 0 to |calls|
        invariant s == AfterCalls(urls, old(s), calls[..k])
      {
        assert calls[..k + 1][..k] == calls[..k];
        Perform(calls[k]);
      }
      assert calls[..|calls|] == calls;
    }

    /** The end of a failed load, once the listeners have reacted. */
    method FailLoad(failedUrl: string)
      modifies this
      ensures s == EndWithFailure(urls, old(s), failedUrl)
    {
      if s.internalContent { return; }
      if s.suppressDownloadFailure {
        s := s.(suppressDownloadFailure := false);
        s := s.(possibleDownload := false);
        RestoreStableDisplay();
        return;
      }
      if s.possibleDownload || urls.likelyDownload(failedUrl) {
        s := s.(pendingDownload := failedUrl);
        s := s.(downloadTimer := true);
        RestoreStableDisplay();
        return;
      }
      if !s.failureTimer {
        ScheduleNavigationFailure(failedUrl, "navigation", "final load");
      }
    }

    method ShowServerError(viewUrl: string, viewTitle: string)
      modifies this
      ensures s == EndWithHttpError(urls, old(s), viewUrl, viewTitle)
    {
      CancelPendingNavigationFailure();
      s := s.(display := urls.display(viewUrl));
      if urls.trim(viewTitle) != "" { s := s.(title := urls.trim(viewTitle)); }
      s := s.(stableDisplay := s.display);
      s := s.(stableTitle := s.title);
      s := s.(possibleDownload := false);
    }

    method Settle(viewUrl: string, viewTitle: string)
      modifies this
      ensures s == Settled(urls, old(s), viewUrl, viewTitle)
    {
      var display, title := s.display, s.title;
      if urls.display(viewUrl) != "" { display := urls.display(viewUrl); }
      if urls.trim(viewTitle) != "" { title := urls.trim(viewTitle); }
      s := s.(display := display, title := title);
      s := s.(stableDisplay := display, stableTitle := title, possibleDownload := false);
    }

    method SucceedLoad(viewUrl: string, viewTitle: string)
      modifies this
      ensures s == EndWithSuccess(urls, old(s), viewUrl, viewTitle)
    {
      CancelPendingNavigationFailure();
      if !s.internalContent { Settle(viewUrl, viewTitle); }
    }

    method HandleLoadFinished(ok: bool, viewUrl: string, viewTitle: string, reaction: seq<Call>)
      modifies this
      ensures s == AfterFinished(urls, old(s), ok, viewUrl, viewTitle, reaction)
    {
      s := s.(loading := false);
      s := s.(watchdog := false);
      if !ok && !s.internalContent {
        if s.httpError {
          ShowServerError(viewUrl, viewTitle);
          return;
        }
        var failedUrl := if s.requested != "" then s.requested else viewUrl;
        React(reaction);
        FailLoad(failedUrl);
        return;
      }
      SucceedLoad(viewUrl, viewTitle);
    }

    method HandleLoadingInfo(info: Info)
      modifies this
      ensures s == AfterInfo(urls, old(s), info)
    {
      if info.status.Succeeded? {
        CancelPendingNavigationFailure();
        return;
      }
      if info.status.Stopped? {
        CancelPendingNavigationFailure();
        return;
      }
      if info.isDownload {
        s := s.(possibleDownload := true);
        CancelPendingNavigationFailure();
        return;
      }
      if info.status.Failed? && !s.internalContent {
        if info.httpDomain {
          s := s.(httpError := true);
          CancelPendingNavigationFailure();
          return;
        }
        ScheduleNavigationFailure(if info.url == "" then s.requested else info.url, info.category, urls.trim(info.reason));
      }
    }

    method OnFailureTimeout(viewUrl: string)
      requires s.failureTimer
      modifies this
      ensures s == AfterFailureTimeout(urls, old(s), viewUrl)
    {
      s := s.(failureTimer := false);
      if s.failedGeneration != s.generation || s.internalContent || s.loading || s.suppressDownloadFailure
         || s.possibleDownload || s.failure.url == "" { return; }
      if viewUrl != "" && viewUrl != s.failure.url {
        CancelPendingNavigationFailure();
        return;
      }
      var failedAddress := s.failure.url;
      CancelPendingNavigationFailure();
      s := s.(shown := s.shown + [Shown(failedAddress, s.generation)]);
      SetInternal(failedAddress, UNAVAILABLE, "");
    }

    method OnDownloadTimeout()
      requires s.downloadTimer
      modifies this
      ensures s == AfterDownloadTimeout(old(s))
    {
      s := s.(downloadTimer := false);
      s := s.(pendingDownload := "");
      s := s.(possibleDownload := false);
    }

    method OnWatchdog()
      requires s.watchdog
      modifies this
      ensures s == AfterWatchdog(urls, old(s))
    {
      s := s.(watchdog := false);
      if !s.loading || s.internalContent { return; }
      var stalled := if s.display == "" then s.requested else s.display;
      s := s.(loading := false);
      SetInternal(stalled, UNAVAILABLE, "");
    }

    method HandleTerminated(normal: bool)
      modifies this
      ensures s == AfterTerminated(urls, old(s), normal)
    {
      if normal { return; }
      s := s.(loading := false);
      SetInternal(if s.requested != "" then s.requested else s.display, "tab crashed", "");
    }

    method Handle(e: Event)
      requires Enabled(s, e)
      modifies this
      ensures s == Next(urls, old(s), e)
    {
      match e
      case Called(call) => Perform(call);
      case UrlChanged(url) => OnUrlChanged(url);
      case LoadFinished(ok, viewUrl, viewTitle, reaction) => HandleLoadFinished(ok, viewUrl, viewTitle, reaction);
      case LoadingInfo(info) => HandleLoadingInfo(info);
      case FailureTimeout(viewUrl) => OnFailureTimeout(viewUrl);
      case DownloadTimeout => OnDownloadTimeout();
      case WatchdogTimeout => OnWatchdog();
      case Terminated(normal) => HandleTerminated(normal);
    }
  }

  /** Delivers events to a tab.  `trace` and `events` record its whole life. */
  class EventLoop {
    const tab: BrowserTab
    ghost var trace: seq<Tab>
    ghost var events: seq<Event>

    ghost predicate Valid()
      reads this, tab
    {
      IsRun(tab.urls, trace, events) && trace[|events|] == tab.s
    }

    constructor (urls: Urls)
      ensures Valid() && fresh(tab) && tab.urls == urls && events == []
    {
      tab := new BrowserTab(urls);
      trace, events := [FRESH], [];
    }

    /** One event.  The tab's life goes on as a run, so its state is always one the guards allow; and if
        an error page came up, it is for a failure recorded before in this very navigation. */
    method Deliver(e: Event)
      requires Valid() && Enabled(tab.s, e)
      modifies this, tab
      ensures Valid() && Inv(tab.s)
      ensures events == old(events) + [e] && trace == old(trace) + [tab.s]
      ensures tab.s.shown != old(tab.s.shown) ==>
                exists j :: 0 <= j < |old(events)| && Records(tab.urls, trace[j], events[j])
                            && tab.s.shown == old(tab.s.shown) + [Shown(trace[j + 1].failure.url, tab.s.generation)]
                            && trace[j + 1].generation == tab.s.generation
    {
      tab.Handle(e);
      trace, events := trace + [tab.s], events + [e];
      RunKeepsInv(tab.urls, trace, events, |events|);
      if tab.s.shown != old(tab.s.shown) {
        var k := |events| - 1;
        var j := ErrorPageIsCurrent(tab.urls, trace, events, k);
        EventChanges(tab.urls, trace[k], e);
        assert SamePending(trace[j + 1], trace[k]);
      }
    }
  }
}
