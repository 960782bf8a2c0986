/** What `prepare` and `verify_pending` check, as ordered lists of conditions: the first that fails is the
    answer, and nothing else stands in the way. */
module UpdateRules {
  import opened Wrappers
  import opened Checklist
  import opened Chunks
  import opened Octets
  import opened ProductVersion
  import opened ManifestText
  import opened ReleaseManifest
  import opened ReleaseRules
  import opened UpdateStore
  import opened UpdateSafety
  import opened UpdateTheorems
  import opened UpdatePreparation

  /** Consent and trust come before anything is read. */
  function StartChecks(w: World, job: Job): seq<(bool, Error)> {
    [(job.approved || w.store.policy.mode == Auto, ConsentRequired), (w.trust != None, TrustNotConfigured)]
  }

  /** The high-water mark that a manifest may not fall behind, nor repeat with another manifest. */
  predicate NotBehind(high: HighWater, m: Manifest) {
    && high.sequence <= m.sequence && Number(high.productVersion) <= Number(m.productVersion)
    && (high.sequence == m.sequence ==> high.digest == ManifestSha(Canonical(CanonicalText(m), m.digest, m.signer)))
  }

  function LockChecks(w: World, m: Manifest): seq<(bool, Error)> {
    var name := Name(m.sequence, ManifestSha(Canonical(CanonicalText(m), m.digest, m.signer)));
    [(w.prepareLock == None, UpdateBusy),
     (name in w.store.artifacts || |w.store.artifacts| <= 1, LimitReached),
     (w.store.high.Some? ==> NotBehind(w.store.high.value, m), RollbackOrEquivocation)]
  }

  function CandidateChecks(job: Job): seq<(bool, Error)> {
    var bytes, m := Concat(job.chunks), job.file.manifest;
    [(|bytes| <= m.size, SizeMismatch),
     (|bytes| == m.size && FileSha(bytes) == m.digest, HashMismatch),
     (job.windowsTrusts, WindowsTrustFailed)]
  }

  /** Nobody else acts, so consent and trust are still what they were. */
  ghost function LastChecks(w: World, trust: Trust, job: Job): seq<(bool, Error)> {
    [(w.policyLock == None, UpdateBusy)] + FileChecks(job.again, trust, job.current, job.later)
    + [(job.again.manifest == job.file.manifest, ManifestChanged)]
  }

  /** All that an undisturbed `prepare` asks, in this order. */
  ghost function PrepareChecks(w: World, job: Job): seq<(bool, Error)> {
    StartChecks(w, job)
    + if w.trust == None then []
      else FileChecks(job.file, w.trust.value, job.current, job.now) + LockChecks(w, job.file.manifest)
           + CandidateChecks(job) + LastChecks(w, w.trust.value, job)
  }

  /** Nothing keeps the trust file from being replaced at any moment. */
  lemma TrustMayChange(w: World, trust: Option<Trust>)
    ensures Enabled(w, ChangeTrust(trust)) && Next(w, ChangeTrust(trust)) == w.(trust := trust)
  {
  }

  lemma LockFault(w: World, m: Manifest)
    requires Passed(m) && (w.store.high.Some? ==> Number(w.store.high.value.productVersion) >= 0)
    ensures LockRefusal(w, m) == FirstFault(LockChecks(w, m))
  {
    if w.store.high.Some? { VersionsIff(m.productVersion, w.store.high.value.productVersion); }
    ThreeChecks(LockChecks(w, m));
  }

  lemma CandidateFault(job: Job)
    ensures CandidateRefusal(job) == FirstFault(CandidateChecks(job))
  {
    ThreeChecks(CandidateChecks(job));
  }

  lemma LastFault(w: World, trust: Trust, job: Job)
    requires w.trust == Some(trust)
    ensures ConsentRefusal(w, w.store.policy, trust, job) == FirstFault(LastChecks(w, trust, job))
  {
    var busy := [(w.policyLock == None, UpdateBusy)];
    var files := FileChecks(job.again, trust, job.current, job.later);
    var same := [(job.again.manifest == job.file.manifest, ManifestChanged)];
    VerdictIsFirstFault(job.again, trust, job.current, job.later);
    FirstFaultOfSum(busy + files, same);
    FirstFaultOfSum(busy, files);
    Behind(busy);
    Behind(same);
  }

  /** The refusal of an undisturbed preparation is the first of its checks that fails. */
  lemma RefusalIsFirstFault(w: World, job: Job)
    requires w.store.high.Some? ==> Number(w.store.high.value.productVersion) >= 0
    ensures Refusal(w, job) == FirstFault(PrepareChecks(w, job))
  {
    var start := StartChecks(w, job);
    TwoChecks(start);
    if w.trust == None {
      assert PrepareChecks(w, job) == start;
    } else {
      var files := FileChecks(job.file, w.trust.value, job.current, job.now);
      var locks, last := LockChecks(w, job.file.manifest), LastChecks(w, w.trust.value, job);
      FirstFaultOfSum(start, files + locks + CandidateChecks(job) + last);
      FirstFaultOfSum(files + locks + CandidateChecks(job), last);
      FirstFaultOfSum(files + locks, CandidateChecks(job));
      FirstFaultOfSum(files, locks);
      VerdictIsFirstFault(job.file, w.trust.value, job.current, job.now);
      CandidateFault(job);
      LastFault(w, w.trust.value, job);
      if BeginRefusal(w, job) == None {
        AcceptedHasPassed(job.file, w.trust.value, job.current, job.now);
        LockFault(w, job.file.manifest);
      }
    }
  }

  /** In every reachable state the high-water version is one. */
  lemma HighIsVersion(w: World)
    requires HistoryInv(w)
    ensures w.store.high.Some? ==> Number(w.store.high.value.productVersion) >= 0
  {
    if w.store.high.Some? { VersionsIff(w.store.high.value.productVersion, ""); }
  }

  // ----- verify_pending -----------------------------------------------------------------------

  /** The artifact, and what may have changed while it was read. */
  function ArtifactChecks(s: Store, bytes: Bytes, m: Manifest, r: Reading): seq<(bool, Error)> {
    [(|bytes| <= m.size, SizeMismatch),
     (|bytes| == m.size && FileSha(bytes) == m.digest, HashMismatch),
     (r.windowsTrusts, WindowsTrustFailed),
     (r.laterPolicy == s.policy && r.laterTrust == r.trust, ConsentOrTrustChanged)]
  }

  /** Pending and high-water mark are both those of the manifest that the sidecar holds. */
  predicate SameState(s: Store, pending: Pending, m: Manifest) {
    && pending.high == HighWater(m.sequence, ManifestSha(Canonical(CanonicalText(m), m.digest, m.signer)), m.productVersion)
    && pending.artifactDigest == m.digest && s.high == Some(pending.high)
  }

  function StateChecks(s: Store, pending: Pending, m: Manifest, r: Reading): seq<(bool, Error)> {
    [(SameState(s, pending, m), StateMismatch), (pending.artifact in s.artifacts, InvalidMetadata)]
    + if pending.artifact !in s.artifacts then [] else ArtifactChecks(s, s.artifacts[pending.artifact], m, r)
  }

  ghost function StoredChecks(s: Store, pending: Pending, trust: Trust, r: Reading): seq<(bool, Error)> {
    var n := pending.artifact;
    [(n in s.sidecars, InvalidMetadata)]
    + if n !in s.sidecars then []
      else FileChecks(s.sidecars[n], trust, r.current, r.now) + StateChecks(s, pending, s.sidecars[n].manifest, r)
  }

  ghost function PendingChecks(s: Store, approved: bool, r: Reading): seq<(bool, Error)> {
    [(approved, ConsentRequired), (r.trust != None, TrustNotConfigured), (s.pending != None, InvalidMetadata)]
    + if r.trust == None || s.pending == None then [] else StoredChecks(s, s.pending.value, r.trust.value, r)
  }

  /** The answer behind the checks. */
  function Answer(fault: Option<Error>, name: Name): Result<Name, Error> {
    match fault
    case None => Ok(name)
    case Some(e) => Err(e)
  }

  lemma StoredFault(s: Store, pending: Pending, trust: Trust, r: Reading)
    requires s.pending == Some(pending) && r.trust == Some(trust)
    ensures VerifyPending(s, true, r) == Answer(FirstFault(StoredChecks(s, pending, trust, r)), pending.artifact)
  {
    var n := pending.artifact;
    var there := [(n in s.sidecars, InvalidMetadata)];
    Behind(there);
    if n !in s.sidecars {
      assert StoredChecks(s, pending, trust, r) == there;
    } else {
      var f := s.sidecars[n];
      var files, rest := FileChecks(f, trust, r.current, r.now), StateChecks(s, pending, f.manifest, r);
      assert StoredChecks(s, pending, trust, r) == there + (files + rest);
      FirstFaultOfSum(there, files + rest);
      FirstFaultOfSum(files, rest);
      VerdictIsFirstFault(f, trust, r.current, r.now);
      StateFault(s, pending, f.manifest, r);
    }
  }

  lemma StateFault(s: Store, pending: Pending, m: Manifest, r: Reading)
    ensures FirstFault(StateChecks(s, pending, m, r))
            == if pending != PendingOf(m).(artifact := pending.artifact) || s.high != Some(HighOf(m)) then Some(StateMismatch)
               else if pending.artifact !in s.artifacts then Some(InvalidMetadata)
               else FirstFault(ArtifactChecks(s, s.artifacts[pending.artifact], m, r))
    ensures pending.artifact in s.artifacts ==>
              FirstFault(ArtifactChecks(s, s.artifacts[pending.artifact], m, r))
              == if |s.artifacts[pending.artifact]| > m.size then Some(SizeMismatch)
                 else if !Carries(s.artifacts[pending.artifact], m) then Some(HashMismatch)
                 else if !r.windowsTrusts then Some(WindowsTrustFailed)
                 else if r.laterPolicy != s.policy || r.laterTrust != r.trust then Some(ConsentOrTrustChanged)
                 else None
  {
    var n := pending.artifact;
    var state := [(SameState(s, pending, m), StateMismatch), (n in s.artifacts, InvalidMetadata)];
    var rest := if n !in s.artifacts then [] else ArtifactChecks(s, s.artifacts[n], m, r);
    FirstFaultOfSum(state, rest);
    TwoChecks(state);
    if n in s.artifacts { FourChecks(rest); }
  }

  /** What `verify_pending` answers is decided by the first of its checks that fails. */
  lemma PendingVerdict(s: Store, approved: bool, r: Reading)
    ensures match FirstFault(PendingChecks(s, approved, r))
            case Some(e) => VerifyPending(s, approved, r) == Err(e)
            case None => s.pending.Some? && VerifyPending(s, approved, r) == Ok(s.pending.value.artifact)
  {
    var first := [(approved, ConsentRequired), (r.trust != None, TrustNotConfigured), (s.pending != None, InvalidMetadata)];
    ThreeChecks(first);
    if r.trust == None || s.pending == None {
      assert PendingChecks(s, approved, r) == first;
    } else {
      FirstFaultOfSum(first, StoredChecks(s, s.pending.value, r.trust.value, r));
      StoredFault(s, s.pending.value, r.trust.value, r);
      assert approved ==> VerifyPending(s, approved, r) == VerifyPending(s, true, r);
    }
  }

  /** What the four writes leave: artifact and sidecar under one name, and both records. */
  lemma FourFiles(s: Store, m: Manifest, content: Bytes)
    ensures var digest := ManifestSha(Canonical(CanonicalText(m), m.digest, m.signer));
            var high, name := HighWater(m.sequence, digest, m.productVersion), Name(m.sequence, digest);
            AfterWrites(s, m, content, 4)
            == Store(s.policy, Some(high), Some(Pending(high, name, m.digest)), s.artifacts[name := content],
                     s.sidecars[name := ManifestFile(|CanonicalText(m)|, AsRead(m))])
  {
  }
}
