/** What one event changes in a tab, told by the calls made while it is handled. */
module NavigationSteps {
  import opened NavigationState

  // ----- Calls made during an event -----------------------------------------------------------

  /** The event lets the listeners of a failed load make their calls. */
  predicate Reacts(t: Tab, e: Event) {
    e.LoadFinished? && !e.ok && !t.internalContent && !t.httpError
  }

  function CallsOf(t: Tab, e: Event): seq<Call> {
    if e.Called? then [e.call] else if Reacts(t, e) then e.reaction else []
  }

  predicate AnyRequest(calls: seq<Call>) {
    calls != [] && (calls[|calls| - 1].LoadUrl? || AnyRequest(calls[..|calls| - 1]))
  }

  predicate AnyStart(calls: seq<Call>) {
    calls != [] && (calls[|calls| - 1].LoadStarted? || AnyStart(calls[..|calls| - 1]))
  }

  predicate AnyPage(calls: seq<Call>) {
    calls != [] && (calls[|calls| - 1].SetInternalHtml? || AnyPage(calls[..|calls| - 1]))
  }

  /** A new address is requested, a load starts, an internal page is put up. */
  predicate Requests(t: Tab, e: Event) { AnyRequest(CallsOf(t, e)) }
  predicate Starts(t: Tab, e: Event) { AnyStart(CallsOf(t, e)) }
  predicate PutsUp(t: Tab, e: Event) { AnyPage(CallsOf(t, e)) }

  // ----- What one event changes ---------------------------------------------------------------

  predicate SameDownload(t: Tab, v: Tab) {
    t.downloadTimer && v.downloadTimer && t.pendingDownload == v.pendingDownload
  }

  predicate SameStable(t: Tab, v: Tab) {
    t.stableDisplay == v.stableDisplay && t.stableTitle == v.stableTitle
  }

  predicate CallsChange(t: Tab, calls: seq<Call>, v: Tab) {
    && v.generation >= t.generation && (v.generation > t.generation <==> AnyStart(calls))
    && v.shown == t.shown
    && (v.downloadTimer ==> SameDownload(t, v))
    && (v.watchdog && !AnyStart(calls) ==> t.watchdog)
    && (!AnyPage(calls) ==> SameStable(t, v))
    && (t.httpError && !AnyRequest(calls) && !AnyStart(calls) ==> v.httpError)
    && (!AnyRequest(calls) ==> v.chain == t.chain)
  }

  lemma CallChanges(u: Urls, t: Tab, c: Call)
    ensures CallsChange(t, [c], AfterCall(u, t, c))
  {
    assert [c][..0] == [];
  }

  lemma CallsChain(t: Tab, calls: seq<Call>, s: Tab, c: Call, v: Tab)
    requires CallsChange(t, calls, s) && CallsChange(s, [c], v)
    ensures CallsChange(t, calls + [c], v)
  {
    OneMoreCall(calls, c);
    OneMoreCall([], c);
    assert [] + [c] == [c];
  }

  lemma OneMoreCall(calls: seq<Call>, c: Call)
    ensures AnyRequest(calls + [c]) <==> AnyRequest(calls) || c.LoadUrl?
    ensures AnyStart(calls + [c]) <==> AnyStart(calls) || c.LoadStarted?
    ensures AnyPage(calls + [c]) <==> AnyPage(calls) || c.SetInternalHtml?
  {
    assert (calls + [c])[..|calls|] == calls;
  }

  lemma {:induction false} ReactionChanges(u: Urls, t: Tab, calls: seq<Call>)
    ensures CallsChange(t, calls, AfterCalls(u, t, calls))
  {
    if calls != [] {
      var init, last := calls[..|calls| - 1], calls[|calls| - 1];
      ReactionChanges(u, t, init);
      CallChanges(u, AfterCalls(u, t, init), last);
      CallsChain(t, init, AfterCalls(u, t, init), last, AfterCalls(u, t, calls));
      assert calls == init + [last];
    }
  }

  /** The event does not decide which page is the stable one. */
  predicate LeavesStable(t: Tab, e: Event) {
    match e
    case Called(call) => !call.SetInternalHtml?
    case LoadFinished(_, _, _, _) => Reacts(t, e) && !PutsUp(t, e)
    case FailureTimeout(_) => false
    case WatchdogTimeout => false
    case Terminated(normal) => normal
    case _ => true
  }

  /** The address a failed load is reported for. */
  function FailedUrl(t: Tab, e: Event): string
    requires e.LoadFinished?
  {
    if t.requested != "" then t.requested else e.viewUrl
  }

  /** The end of a failed load that is taken for a download which has yet to begin. */
  predicate AwaitsDownload(u: Urls, t: Tab, e: Event) {
    && Reacts(t, e)
    && TakenForDownload(u, AfterCalls(u, t.(loading := false, watchdog := false), e.reaction), FailedUrl(t, e))
  }

  predicate TakenForDownload(u: Urls, s: Tab, url: string) {
    !s.internalContent && !s.suppressDownloadFailure && (s.possibleDownload || u.likelyDownload(url))
  }

  predicate Changes(t: Tab, e: Event, v: Tab) {
    && v.generation >= t.generation && (v.generation > t.generation <==> Starts(t, e))
    && (!e.FailureTimeout? ==> v.shown == t.shown)
    && (t.internalContent ==> v.shown == t.shown && (v.internalContent <==> !Requests(t, e)))
    && (v.watchdog && !Starts(t, e) ==> t.watchdog)
    && (LeavesStable(t, e) ==> SameStable(t, v))
    && (t.suppressDownloadFailure && !Reacts(t, e) ==> (v.suppressDownloadFailure <==> !Requests(t, e)))
    && (t.httpError && !Requests(t, e) && !Starts(t, e) ==> v.httpError)
  }

  function NextChain(u: Urls, chain: seq<string>, e: Event): seq<string> {
    if e.UrlChanged? then Follow(u, chain, e.url) else chain
  }

  predicate Leaves(u: Urls, t: Tab, e: Event, v: Tab) {
    && (v.downloadTimer ==> SameDownload(t, v) || AwaitsDownload(u, t, e))
    && (AwaitsDownload(u, t, e) ==> v.downloadTimer && v.pendingDownload == FailedUrl(t, e))
    && (!Requests(t, e) ==> v.chain == NextChain(u, t.chain, e))
  }

  lemma CalledChanges(u: Urls, t: Tab, c: Call)
    ensures Changes(t, Called(c), AfterCall(u, t, c)) && Leaves(u, t, Called(c), AfterCall(u, t, c))
  {
    OneMoreCall([], c);
    assert [] + [c] == [c];
    CallChanges(u, t, c);
  }

  /** What an event without calls keeps. */
  predicate Keeps(t: Tab, v: Tab) {
    && v.generation == t.generation && v.suppressDownloadFailure == t.suppressDownloadFailure
    && (t.internalContent ==> v.internalContent && v.shown == t.shown)
    && (v.watchdog ==> t.watchdog) && (t.httpError ==> v.httpError)
    && (v.downloadTimer ==> SameDownload(t, v))
  }

  predicate Quiet(t: Tab, v: Tab) {
    Keeps(t, v) && v.shown == t.shown && SameStable(t, v)
  }

  lemma KeptChanges(u: Urls, t: Tab, e: Event, v: Tab)
    requires !e.Called? && !Reacts(t, e) && Keeps(t, v)
    requires !e.FailureTimeout? ==> v.shown == t.shown
    requires LeavesStable(t, e) ==> SameStable(t, v)
    requires v.chain == NextChain(u, t.chain, e)
    ensures Changes(t, e, v) && Leaves(u, t, e, v)
  {
  }

  lemma UrlIsQuiet(u: Urls, t: Tab, url: string)
    ensures Quiet(t, AfterUrl(u, t, url)) && AfterUrl(u, t, url).chain == Follow(u, t.chain, url)
  {
    var s := if t.failure.url != "" && url != t.failure.url then CancelFailure(t) else t;
    assert Quiet(t, s) && s.chain == t.chain;
  }

  lemma InfoIsQuiet(u: Urls, t: Tab, info: Info)
    ensures Quiet(t, AfterInfo(u, t, info)) && AfterInfo(u, t, info).chain == t.chain
  {
    var f := Failure(if info.url == "" then t.requested else info.url, info.category, u.trim(info.reason));
    assert Quiet(t, CancelFailure(t)) && CancelFailure(t).chain == t.chain;
    assert Quiet(t, ScheduleFailure(t, f)) && ScheduleFailure(t, f).chain == t.chain;
  }

  lemma PageIsKept(u: Urls, t: Tab, address: string, title: string)
    ensures var v := ShowInternal(u, t, address, title, "");
            Keeps(t, v) && v.shown == t.shown && v.chain == t.chain
  {
  }

  lemma TimersKeep(u: Urls, t: Tab, viewUrl: string)
    ensures Keeps(t, AfterFailureTimeout(u, t, viewUrl)) && AfterFailureTimeout(u, t, viewUrl).chain == t.chain
    ensures Quiet(t, AfterDownloadTimeout(t)) && AfterDownloadTimeout(t).chain == t.chain
  {
    PageIsKept(u, t.(failureTimer := false), t.failure.url, UNAVAILABLE);
  }

  lemma WatchdogKeeps(u: Urls, t: Tab)
    ensures var v := AfterWatchdog(u, t); Keeps(t, v) && v.shown == t.shown && v.chain == t.chain
  {
    PageIsKept(u, t.(watchdog := false), if t.display == "" then t.requested else t.display, UNAVAILABLE);
  }

  lemma TerminationKeeps(u: Urls, t: Tab, normal: bool)
    ensures var v := AfterTerminated(u, t, normal);
            Keeps(t, v) && v.shown == t.shown && v.chain == t.chain && (normal ==> v == t)
  {
  }

  lemma EndKeeps(u: Urls, t: Tab, viewUrl: string, viewTitle: string)
    ensures var v := EndWithSuccess(u, t, viewUrl, viewTitle);
            Keeps(t, v) && v.shown == t.shown && v.chain == t.chain
    ensures var v := EndWithHttpError(u, t, viewUrl, viewTitle);
            Keeps(t, v) && v.shown == t.shown && v.chain == t.chain
  {
  }

  predicate FailureKeeps(s: Tab, v: Tab) {
    && v.generation == s.generation && v.shown == s.shown && SameStable(s, v)
    && v.watchdog == s.watchdog && v.httpError == s.httpError && v.chain == s.chain
  }

  predicate FailureAwaits(u: Urls, s: Tab, url: string, v: Tab) {
    if TakenForDownload(u, s, url) then v.downloadTimer && v.pendingDownload == url
    else v.downloadTimer == s.downloadTimer && v.pendingDownload == s.pendingDownload
  }

  lemma FailureChanges(u: Urls, s: Tab, url: string)
    ensures FailureKeeps(s, EndWithFailure(u, s, url))
  {
  }

  lemma FailureLeaves(u: Urls, s: Tab, url: string)
    ensures FailureAwaits(u, s, url, EndWithFailure(u, s, url))
  {
  }

  lemma FailedEndChanges(u: Urls, t: Tab, e: Event)
    requires Reacts(t, e)
    ensures Changes(t, e, Next(u, t, e)) && Leaves(u, t, e, Next(u, t, e))
  {
    var s := AfterCalls(u, t.(loading := false, watchdog := false), e.reaction);
    ReactionChanges(u, t.(loading := false, watchdog := false), e.reaction);
    FailureChanges(u, s, FailedUrl(t, e));
    FailureLeaves(u, s, FailedUrl(t, e));
    assert Next(u, t, e) == EndWithFailure(u, s, FailedUrl(t, e));
  }

  lemma EventChanges(u: Urls, t: Tab, e: Event)
    requires Enabled(t, e)
    ensures Changes(t, e, Next(u, t, e)) && Leaves(u, t, e, Next(u, t, e))
  {
    match e
    case Called(call) => CalledChanges(u, t, call);
    case LoadFinished(_, viewUrl, viewTitle, _) =>
      if Reacts(t, e) {
        FailedEndChanges(u, t, e);
      } else {
        EndKeeps(u, t.(loading := false, watchdog := false), viewUrl, viewTitle);
        KeptChanges(u, t, e, Next(u, t, e));
      }
    case _ =>
      OthersKeep(u, t, e);
      KeptChanges(u, t, e, Next(u, t, e));
  }

  lemma OthersKeep(u: Urls, t: Tab, e: Event)
    requires Enabled(t, e) && !e.Called? && !e.LoadFinished?
    ensures var v := Next(u, t, e);
            && Keeps(t, v) && (!e.FailureTimeout? ==> v.shown == t.shown)
            && (LeavesStable(t, e) ==> SameStable(t, v))
            && v.chain == NextChain(u, t.chain, e)
  {
    match e
    case UrlChanged(url) => UrlIsQuiet(u, t, url);
    case LoadingInfo(info) => InfoIsQuiet(u, t, info);
    case FailureTimeout(viewUrl) => TimersKeep(u, t, viewUrl);
    case DownloadTimeout => TimersKeep(u, t, "");
    case WatchdogTimeout => WatchdogKeeps(u, t);
    case Terminated(normal) => TerminationKeeps(u, t, normal);
  }
}
