/** The navigation-failure state of a browser tab and what each event does to it. */
module NavigationState {
  /** What the tab asks of Qt's string and URL classes. */
  datatype Urls = Urls(trim: string -> string, likelyDownload: string -> bool, display: string -> string, isWeb: string -> bool)

  datatype Failure = Failure(url: string, category: string, reason: string)

  const NO_FAILURE := Failure("", "", "")

  /** An error page that the failure timer put up: for which address, in which navigation. */
  datatype Shown = Shown(url: string, generation: nat)

  /** `shown` is history only. */
  datatype Tab = Tab(internalContent: bool, loading: bool, suppressDownloadFailure: bool,
                     possibleDownload: bool, httpError: bool, generation: nat, failedGeneration: nat,
                     failure: Failure, failureTimer: bool, downloadTimer: bool, pendingDownload: string,
                     watchdog: bool, requested: string, chain: seq<string>, display: string, title: string,
                     stableDisplay: string, stableTitle: string, shown: seq<Shown>)

  const CHAIN_LIMIT: nat := 24

  datatype LoadStatus = Started | Stopped | Succeeded | Failed

  datatype Info = Info(status: LoadStatus, httpDomain: bool, isDownload: bool, url: string,
                       category: string, reason: string)

  /** Calls from outside; `loadFinished` lets its listeners make some before it goes on. */
  datatype Call =
    | LoadUrl(url: string, update: bool)
    | SetInternalHtml(address: string, title: string, display: string)
    | MarkDownloadStarted
    | LoadStarted

  datatype Event =
    | Called(call: Call)
    | UrlChanged(url: string)
    | LoadFinished(ok: bool, viewUrl: string, viewTitle: string, reaction: seq<Call>)
    | LoadingInfo(info: Info)
    | FailureTimeout(viewUrl: string)
    | DownloadTimeout
    | WatchdogTimeout
    | Terminated(normal: bool)

  // ----- Helpers ------------------------------------------------------------------------------

  function CancelFailure(t: Tab): Tab {
    t.(failureTimer := false, failure := NO_FAILURE)
  }

  function CancelDownload(t: Tab): Tab {
    t.(downloadTimer := false, pendingDownload := "")
  }

  function ScheduleFailure(t: Tab, f: Failure): Tab {
    if f.url == "" || t.internalContent || t.suppressDownloadFailure || t.possibleDownload then t
    else t.(failure := f, failedGeneration := t.generation, failureTimer := true)
  }

  function ScheduleDownload(t: Tab, url: string): Tab {
    t.(pendingDownload := url, downloadTimer := true)
  }

  function OrElse(u: Urls, s: string, other: string): string {
    if u.trim(s) == "" then other else u.trim(s)
  }

  function RestoreStable(u: Urls, t: Tab): Tab {
    t.(display := OrElse(u, t.stableDisplay, "about:granger"), title := OrElse(u, t.stableTitle, "Granger Browser"))
  }

  function ShowInternal(u: Urls, t: Tab, address: string, title: string, display: string): Tab {
    var shownAt := OrElse(u, display, address);
    CancelFailure(t).(internalContent := true, watchdog := false, loading := false, display := shownAt,
                      title := title, stableDisplay := shownAt, stableTitle := title)
  }

  /** The newest entries, at most the limit. */
  function Latest(chain: seq<string>): seq<string> {
    if |chain| > CHAIN_LIMIT then chain[|chain| - CHAIN_LIMIT..] else chain
  }

  function Follow(u: Urls, chain: seq<string>, url: string): seq<string> {
    if u.isWeb(url) && url != "" && (chain == [] || chain[|chain| - 1] != url) then Latest(chain + [url])
    else chain
  }

  // ----- Calls --------------------------------------------------------------------------------

  function Load(u: Urls, t: Tab, url: string, update: bool): Tab {
    CancelFailure(CancelDownload(t)).(
      internalContent := false, suppressDownloadFailure := false, possibleDownload := u.likelyDownload(url),
      httpError := false, requested := url, chain := if url == "" then [] else [url],
      display := if update then u.display(url) else t.display)
  }

  function DownloadStarted(u: Urls, t: Tab): Tab {
    RestoreStable(u, CancelFailure(CancelDownload(t)).(
      suppressDownloadFailure := true, possibleDownload := false, loading := false, watchdog := false))
  }

  function Start(t: Tab): Tab {
    CancelFailure(t).(generation := t.generation + 1, httpError := false, loading := true, watchdog := true)
  }

  function AfterCall(u: Urls, t: Tab, c: Call): Tab {
    match c
    case LoadUrl(url, update) => Load(u, t, url, update)
    case SetInternalHtml(address, title, display) => ShowInternal(u, t, address, title, display)
    case MarkDownloadStarted => DownloadStarted(u, t)
    case LoadStarted => Start(t)
  }

  function AfterCalls(u: Urls, t: Tab, calls: seq<Call>): Tab {
    if calls == [] then t
    else AfterCall(u, AfterCalls(u, t, calls[..|calls| - 1]), calls[|calls| - 1])
  }

  // ----- Events -------------------------------------------------------------------------------

  function AfterUrl(u: Urls, t: Tab, url: string): Tab {
    var s := if t.failure.url != "" && url != t.failure.url then CancelFailure(t) else t;
    s.(display := if !s.internalContent && !s.loading then u.display(url) else s.display,
       chain := Follow(u, s.chain, url))
  }

  /** loadFinished while an HTTP error page of the server is shown: an ordinary end. */
  function EndWithHttpError(u: Urls, t: Tab, viewUrl: string, viewTitle: string): Tab {
    var title := if u.trim(viewTitle) != "" then u.trim(viewTitle) else t.title;
    CancelFailure(t).(display := u.display(viewUrl), title := title, stableDisplay := u.display(viewUrl),
                      stableTitle := title, possibleDownload := false)
  }

  /** loadFinished after a failure, once the listeners have reacted. */
  function EndWithFailure(u: Urls, t: Tab, failedUrl: string): Tab {
    if t.internalContent then t
    else if t.suppressDownloadFailure then
      RestoreStable(u, t.(suppressDownloadFailure := false, possibleDownload := false))
    else if t.possibleDownload || u.likelyDownload(failedUrl) then
      RestoreStable(u, ScheduleDownload(t, failedUrl))
    else if !t.failureTimer then ScheduleFailure(t, Failure(failedUrl, "navigation", "final load"))
    else t
  }

  /** The page that was reached becomes the stable one. */
  function Settled(u: Urls, t: Tab, viewUrl: string, viewTitle: string): Tab {
    var display := if u.display(viewUrl) != "" then u.display(viewUrl) else t.display;
    var title := if u.trim(viewTitle) != "" then u.trim(viewTitle) else t.title;
    t.(display := display, title := title, stableDisplay := display, stableTitle := title,
       possibleDownload := false)
  }

  function EndWithSuccess(u: Urls, t: Tab, viewUrl: string, viewTitle: string): Tab {
    if t.internalContent then CancelFailure(t) else Settled(u, CancelFailure(t), viewUrl, viewTitle)
  }

  function AfterFinished(u: Urls, t: Tab, ok: bool, viewUrl: string, viewTitle: string, reaction: seq<Call>): Tab {
    var s := t.(loading := false, watchdog := false);
    if ok || s.internalContent then EndWithSuccess(u, s, viewUrl, viewTitle)
    else if s.httpError then EndWithHttpError(u, s, viewUrl, viewTitle)
    else EndWithFailure(u, AfterCalls(u, s, reaction), if s.requested != "" then s.requested else viewUrl)
  }

  function AfterInfo(u: Urls, t: Tab, info: Info): Tab {
    var url := if info.url == "" then t.requested else info.url;
    if info.status.Succeeded? || info.status.Stopped? then CancelFailure(t)
    else if info.isDownload then CancelFailure(t).(possibleDownload := true)
    else if info.status.Failed? && !t.internalContent then
      if info.httpDomain then CancelFailure(t).(httpError := true)
      else ScheduleFailure(t, Failure(url, info.category, u.trim(info.reason)))
    else t
  }

  const UNAVAILABLE := "page unavailable"

  /** The failure timer's callback, with all its guards. */
  function AfterFailureTimeout(u: Urls, t: Tab, viewUrl: string): Tab {
    var s := t.(failureTimer := false);
    if s.failedGeneration != s.generation || s.internalContent || s.loading || s.suppressDownloadFailure
       || s.possibleDownload || s.failure.url == "" then s
    else if viewUrl != "" && viewUrl != s.failure.url then CancelFailure(s)
    else ShowInternal(u, s, s.failure.url, UNAVAILABLE, "").(
           shown := s.shown + [Shown(s.failure.url, s.generation)])
  }

  function AfterDownloadTimeout(t: Tab): Tab {
    t.(downloadTimer := false, pendingDownload := "", possibleDownload := false)
  }

  function AfterWatchdog(u: Urls, t: Tab): Tab {
    var s := t.(watchdog := false);
    if !s.loading || s.internalContent then s
    else ShowInternal(u, s, if s.display == "" then s.requested else s.display, UNAVAILABLE, "")
  }

  function AfterTerminated(u: Urls, t: Tab, normal: bool): Tab {
    if normal then t
    else ShowInternal(u, t.(loading := false), if t.requested != "" then t.requested else t.display,
                      "tab crashed", "")
  }

  /** Timers only fire while they run. */
  predicate Enabled(t: Tab, e: Event) {
    && (e.FailureTimeout? ==> t.failureTimer)
    && (e.DownloadTimeout? ==> t.downloadTimer)
    && (e.WatchdogTimeout? ==> t.watchdog)
  }

  function Next(u: Urls, t: Tab, e: Event): Tab
    requires Enabled(t, e)
  {
    match e
    case Called(call) => AfterCall(u, t, call)
    case UrlChanged(url) => AfterUrl(u, t, url)
    case LoadFinished(ok, viewUrl, viewTitle, reaction) => AfterFinished(u, t, ok, viewUrl, viewTitle, reaction)
    case LoadingInfo(info) => AfterInfo(u, t, info)
    case FailureTimeout(viewUrl) => AfterFailureTimeout(u, t, viewUrl)
    case DownloadTimeout => AfterDownloadTimeout(t)
    case WatchdogTimeout => AfterWatchdog(u, t)
    case Terminated(normal) => AfterTerminated(u, t, normal)
  }

  const FRESH := Tab(false, false, false, false, false, 0, 0, NO_FAILURE, false, false, "", false, "", [],
                     "", "", "", "", [])

  /** The states a tab goes through under a sequence of events. */
  ghost predicate IsRun(u: Urls, trace: seq<Tab>, events: seq<Event>) {
    && |trace| == |events| + 1 && trace[0] == FRESH
    && forall i :: 0 <= i < |events| ==> Enabled(trace[i], events[i]) && trace[i + 1] == Next(u, trace[i], events[i])
  }
}
