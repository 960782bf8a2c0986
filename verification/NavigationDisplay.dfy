/** What the address bar and the title of a tab show after each event, and what a new tab holds. */
module NavigationDisplay {
  import opened NavigationState

  /** A text, or another one where it is blank. */
  predicate TextOr(u: Urls, s: string, other: string, shown: string) {
    (u.trim(s) != "" ==> shown == u.trim(s)) && (u.trim(s) == "" ==> shown == other)
  }

  /** Nothing fails, and nothing is waited for on that account. */
  predicate NothingFailed(t: Tab) {
    !t.failureTimer && t.failure.url == "" && t.failure.category == "" && t.failure.reason == ""
  }

  /** A page of the browser's own, which later also comes back when a download is started. */
  predicate OwnPage(u: Urls, t: Tab, address: string, display: string, title: string) {
    && t.internalContent && !t.loading && !t.watchdog && NothingFailed(t)
    && TextOr(u, display, address, t.display) && t.stableDisplay == t.display
    && t.title == title && t.stableTitle == title
  }

  /** A page that was reached; `url` and `title` are the view's. */
  predicate Reached(u: Urls, t: Tab, before: Tab, url: string, title: string) {
    && (if u.display(url) == "" then t.display == before.display else t.display == u.display(url))
    && TextOr(u, title, before.title, t.title)
    && t.stableDisplay == t.display && t.stableTitle == t.title && !t.possibleDownload && NothingFailed(t)
  }

  /** The page last reached, or the start page of the browser. */
  predicate LastPage(u: Urls, t: Tab, before: Tab) {
    TextOr(u, before.stableDisplay, "about:granger", t.display) && TextOr(u, before.stableTitle, "Granger Browser", t.title)
  }

  predicate SameShown(t: Tab, v: Tab) {
    v.display == t.display && v.title == t.title
  }

  predicate SamePlace(t: Tab, v: Tab) {
    SameShown(t, v) && v.stableDisplay == t.stableDisplay && v.stableTitle == t.stableTitle
  }

  lemma NewTab()
    ensures FRESH.chain == [] && FRESH.shown == [] && FRESH.generation == 0 && FRESH.failedGeneration == 0
    ensures NothingFailed(FRESH) && !FRESH.downloadTimer && FRESH.pendingDownload == "" && !FRESH.watchdog
    ensures !FRESH.internalContent && !FRESH.loading && !FRESH.suppressDownloadFailure && !FRESH.possibleDownload
    ensures !FRESH.httpError && FRESH.requested == "" && FRESH.display == "" && FRESH.title == ""
    ensures FRESH.stableDisplay == "" && FRESH.stableTitle == ""
  {
  }

  /** A request shows its address at once only if it is to, and starts a chain of addresses anew. */
  lemma RequestShows(u: Urls, t: Tab, url: string, update: bool)
    ensures var v := AfterCall(u, t, LoadUrl(url, update));
            && v.display == (if update then u.display(url) else t.display) && v.title == t.title
            && v.stableDisplay == t.stableDisplay && v.stableTitle == t.stableTitle
            && v.requested == url && v.chain == (if url == "" then [] else [url]) && !v.internalContent
            && v.possibleDownload == u.likelyDownload(url) && !v.suppressDownloadFailure && !v.httpError
            && NothingFailed(v) && !v.downloadTimer && v.pendingDownload == ""
  {
  }

  lemma OwnPageShows(u: Urls, t: Tab, address: string, title: string, display: string)
    ensures OwnPage(u, AfterCall(u, t, SetInternalHtml(address, title, display)), address, display, title)
  {
  }

  lemma DownloadShows(u: Urls, t: Tab)
    ensures var v := AfterCall(u, t, MarkDownloadStarted);
            && LastPage(u, v, t) && v.stableDisplay == t.stableDisplay && v.stableTitle == t.stableTitle
            && v.suppressDownloadFailure && !v.possibleDownload && !v.loading && !v.watchdog
            && NothingFailed(v) && !v.downloadTimer && v.pendingDownload == ""
  {
  }

  lemma StartShows(u: Urls, t: Tab)
    ensures var v := AfterCall(u, t, LoadStarted);
            SamePlace(t, v) && v.loading && v.watchdog && !v.httpError && NothingFailed(v) && v.generation == t.generation + 1
  {
  }

  /** A new address shows unless a page of the browser's own stands there or a load is under way. */
  lemma AddressShows(u: Urls, t: Tab, url: string)
    ensures var v := AfterUrl(u, t, url);
            && v.display == (if t.internalContent || t.loading then t.display else u.display(url)) && v.title == t.title
            && v.stableDisplay == t.stableDisplay && v.stableTitle == t.stableTitle
  {
  }

  /** It withdraws a failure at another address. */
  lemma AddressWithdraws(u: Urls, t: Tab, url: string)
    ensures var v := AfterUrl(u, t, url);
            && (t.failure.url != "" && t.failure.url != url ==> NothingFailed(v))
            && (t.failure.url == "" || t.failure.url == url ==> v.failure == t.failure && v.failureTimer == t.failureTimer)
  {
  }

  /** A load that ends well, or while a page of the browser's own stands there. */
  lemma EndShows(u: Urls, t: Tab, ok: bool, url: string, title: string, reaction: seq<Call>)
    requires ok || t.internalContent
    ensures var v := Next(u, t, LoadFinished(ok, url, title, reaction));
            && !v.loading && !v.watchdog && NothingFailed(v)
            && if t.internalContent then SamePlace(t, v) && v.possibleDownload == t.possibleDownload
               else Reached(u, v, t, url, title)
  {
  }

  /** The page that a server sent with its error stays. */
  lemma ServerErrorShows(u: Urls, t: Tab, url: string, title: string, reaction: seq<Call>)
    requires t.httpError && !t.internalContent
    ensures var v := Next(u, t, LoadFinished(false, url, title, reaction));
            && !v.loading && !v.watchdog && NothingFailed(v) && v.display == u.display(url)
            && TextOr(u, title, t.title, v.title) && v.stableDisplay == v.display && v.stableTitle == v.title
            && !v.possibleDownload
  {
  }

  /** Any other end of a load, nobody reacting to it: a download goes on behind the page last reached, and a
      failure that is not recorded yet is. */
  lemma FailureShows(u: Urls, t: Tab, url: string, title: string)
    requires !t.httpError && !t.internalContent
    ensures var v := Next(u, t, LoadFinished(false, url, title, []));
            var failed := if t.requested == "" then url else t.requested;
            && !v.loading && !v.watchdog
            && if t.suppressDownloadFailure then
                 LastPage(u, v, t) && !v.suppressDownloadFailure && !v.possibleDownload && !v.downloadTimer == !t.downloadTimer
               else if t.possibleDownload || u.likelyDownload(failed) then
                 LastPage(u, v, t) && v.downloadTimer && v.pendingDownload == failed
               else
                 SamePlace(t, v) && (!t.failureTimer && failed != "" ==>
                   v.failureTimer && v.failure == Failure(failed, "navigation", "final load") && v.failedGeneration == t.generation)
  {
  }

  /** What the engine says about a load never shows by itself.  Success, a stop and a download withdraw a
      failure. */
  lemma InfoWithdraws(u: Urls, t: Tab, info: Info)
    requires info.status.Succeeded? || info.status.Stopped? || info.status.Started? || info.isDownload
    ensures var v := AfterInfo(u, t, info);
            if info.status.Succeeded? || info.status.Stopped? then NothingFailed(v) && SamePlace(t, v)
            else if info.isDownload then v.possibleDownload && NothingFailed(v) && SamePlace(t, v)
            else v == t
  {
  }

  /** A failed load that is no download: the server's own page, or a failure to be reported. */
  lemma InfoFails(u: Urls, t: Tab, info: Info)
    requires info.status.Failed? && !info.isDownload
    ensures var v := AfterInfo(u, t, info);
            var url := if info.url == "" then t.requested else info.url;
            if t.internalContent then v == t
            else if info.httpDomain then v.httpError && NothingFailed(v) && SamePlace(t, v)
            else if url == "" || t.suppressDownloadFailure || t.possibleDownload then v == t
            else v == t.(failure := Failure(url, info.category, u.trim(info.reason)), failureTimer := true,
                         failedGeneration := t.generation)
  {
  }

  /** The page for a failure, if it is still the tab's: nothing else shows when that timer ends. */
  lemma FailureTimerShows(u: Urls, t: Tab, url: string)
    requires t.failureTimer
    ensures var v := Next(u, t, FailureTimeout(url));
            var stands := t.failedGeneration == t.generation && !t.internalContent && !t.loading
                          && !t.suppressDownloadFailure && !t.possibleDownload && t.failure.url != "";
            if stands && (url == "" || url == t.failure.url)
            then OwnPage(u, v, t.failure.url, "", "page unavailable") && v.shown == t.shown + [Shown(t.failure.url, t.generation)]
            else SamePlace(t, v) && v.shown == t.shown && !v.failureTimer && (stands ==> NothingFailed(v))
  {
  }

  lemma DownloadTimerShows(u: Urls, t: Tab)
    requires t.downloadTimer
    ensures var v := Next(u, t, DownloadTimeout);
            SamePlace(t, v) && !v.downloadTimer && v.pendingDownload == "" && !v.possibleDownload
  {
  }

  lemma WatchdogShows(u: Urls, t: Tab)
    requires t.watchdog
    ensures var v := Next(u, t, WatchdogTimeout);
            if t.loading && !t.internalContent
            then OwnPage(u, v, if t.display == "" then t.requested else t.display, "", "page unavailable")
            else SamePlace(t, v) && !v.watchdog
  {
  }

  /** A crash of the page's process shows a page, whatever the tab is doing. */
  lemma CrashShows(u: Urls, t: Tab, normal: bool)
    ensures var v := Next(u, t, Terminated(normal));
            if normal then v == t
            else OwnPage(u, v, if t.requested == "" then t.display else t.requested, "", "tab crashed")
  {
  }

  /** An address that continues the chain: web, and not the one it ends with. */
  lemma ChainGrows(u: Urls, chain: seq<string>, url: string)
    requires |chain| <= 24
    ensures var longer := if u.isWeb(url) && url != "" && (chain == [] || chain[|chain| - 1] != url) then chain + [url] else chain;
            Follow(u, chain, url) == if |longer| == 25 then longer[1..] else longer
  {
  }
}
