/** The limit of `read_json` on a prepared manifest: an update that is prepared without complaint and never
    returned, and when that cannot happen. */
module UpdateLimit {
  import opened Wrappers
  import opened Chunks
  import CanonicalJson
  import opened ManifestText
  import opened ReleaseManifest
  import opened ManifestSize
  import opened UpdateStore
  import opened UpdateSafety
  import opened UpdateTheorems
  import opened UpdatePreparation
  import MarkerScan

  /** As long as the high-water manifest's sidecar is too large, verify_pending returns nothing, in any
      reachable state and whatever else it finds. */
  lemma BlockedWhileTooLarge(w: World, m: Manifest, approved: bool, r: Reading)
    requires Inv(w) && w.store.high == Some(HighOf(m)) && SidecarOf(m).size > MAX_MANIFEST
    ensures VerifyPending(w.store, approved, r).Err?
  {
    VerifyPendingExactly(w, approved, r);
    SameDigestIff(m, w.accepted[|w.accepted| - 1]);
  }

  /** A prepared update is returned in the circumstances in which it was prepared exactly when its canonical
      text is within the limit, as it is with at most 2648 characters above U+FFFF in its notes. */
  lemma PreparedReturnedIff(w: World, id: nat, job: Job, r: Reading) returns (trace: seq<World>)
    requires Inv(w) && id !in w.runs && Refusal(w, job) == None
    requires r == Reading(w.store.policy, w.trust, w.trust, job.current, job.now, true)
    ensures IsRun(trace) && trace[0] == w
    ensures var m, result := job.file.manifest, VerifyPending(trace[|trace| - 1].store, true, r);
            && (result == Ok(NameOf(m)) <==> TextSize(m, |CanonicalJson.EscapeAll(m.notes)|) <= MAX_MANIFEST)
            && (result.Ok? <==> result == Ok(NameOf(m)))
            && (WideCount(m.notes) <= 2648 ==> result.Ok?)
  {
    var m := job.file.manifest;
    trace := PrepareAlone(w, id, job);
    AcceptedHasPassed(job.file, w.trust.value, job.current, job.now);
    SizeIsTextSize(m);
    if WideCount(m.notes) <= 2648 { SidecarFits(m, w.trust.value, job.current, job.now); }
    NewReturned(w.store, m, Concat(job.chunks), true, r);
  }

  /** `job` with other notes, its manifest file being `text` in UTF-8. */
  function WithNotes(job: Job, notes: CanonicalJson.Codes, text: CanonicalJson.Codes): Job {
    var file := ManifestFile(|MarkerScan.Utf8(text)|, job.file.manifest.(notes := notes));
    job.(file := file, again := file)
  }

  /** Any update beyond the high-water mark that nothing refuses can be given notes with which it is
      prepared all the same, from a readable manifest file, and never returned afterwards. */
  lemma PreparedButNeverReturned(w: World, id: nat, job: Job) returns (text: CanonicalJson.Codes, wide: Job, trace: seq<World>)
    requires Inv(w) && id !in w.runs && Refusal(w, job) == None && |w.store.artifacts| < 2
    requires w.store.high.Some? ==> w.store.high.value.sequence < job.file.manifest.sequence
    ensures wide == WithNotes(job, WideNotes(), text)
    ensures CanonicalJson.ReadText(text) == Some(ManifestDoc(wide.file.manifest))
    ensures Refusal(w, wide) == None
    ensures IsRun(trace) && trace[0] == w && trace[|trace| - 1] == Done(w, wide)
    ensures forall v, approved, r :: Inv(v) && v.store.high == Done(w, wide).store.high ==>
              VerifyPending(v.store, approved, r).Err?
  {
    text := WideUpdate(w, job);
    wide := WithNotes(job, WideNotes(), text);
    trace := PrepareAlone(w, id, wide);
    NeverReturned(w, wide);
  }

  lemma BothLooks(w: World, job: Job)
    requires Refusal(w, job) == None
    ensures w.trust.Some? && job.again.manifest == job.file.manifest
    ensures CheckManifest(job.file.manifest, w.trust.value, job.current, job.now) == None
    ensures CheckManifest(job.file.manifest, w.trust.value, job.current, job.later) == None
  {
  }

  lemma WideUpdate(w: World, job: Job) returns (text: CanonicalJson.Codes)
    requires Refusal(w, job) == None && |w.store.artifacts| < 2
    requires w.store.high.Some? ==> w.store.high.value.sequence < job.file.manifest.sequence
    ensures var wide := WithNotes(job, WideNotes(), text);
            && CanonicalJson.ReadText(text) == Some(ManifestDoc(wide.file.manifest))
            && Refusal(w, wide) == None && SidecarOf(wide.file.manifest).size > MAX_MANIFEST
  {
    BothLooks(w, job);
    text := WideNotesDoNotFit(job.file.manifest, w.trust.value, job.current, job.now);
    OtherNotesPass(job.file.manifest, w.trust.value, job.current, job.later, WideNotes());
    WideNotRefused(w, job, text);
  }

  lemma NeverReturned(w: World, job: Job)
    requires SidecarOf(job.file.manifest).size > MAX_MANIFEST
    ensures forall v, approved, r :: Inv(v) && v.store.high == Done(w, job).store.high ==>
              VerifyPending(v.store, approved, r).Err?
  {
    forall v, approved, r | Inv(v) && v.store.high == Done(w, job).store.high
      ensures VerifyPending(v.store, approved, r).Err?
    {
      BlockedWhileTooLarge(v, job.file.manifest, approved, r);
    }
  }

  lemma WideNotRefused(w: World, job: Job, text: CanonicalJson.Codes)
    requires Refusal(w, job) == None && |w.store.artifacts| < 2
    requires w.store.high.Some? ==> w.store.high.value.sequence < job.file.manifest.sequence
    requires |MarkerScan.Utf8(text)| <= MAX_MANIFEST
    requires CheckManifest(job.file.manifest.(notes := WideNotes()), w.trust.value, job.current, job.now) == None
    requires CheckManifest(job.file.manifest.(notes := WideNotes()), w.trust.value, job.current, job.later) == None
    ensures Refusal(w, WithNotes(job, WideNotes(), text)) == None
  {
    var wide := WithNotes(job, WideNotes(), text);
    assert BeginRefusal(w, wide) == None;
    assert LockRefusal(w, wide.file.manifest) == None;
    assert CandidateRefusal(wide) == None && StillThere(w, wide);
  }

  /** There is such an update from the first state on, under any trust. */
  lemma SomePreparable(w: World) returns (job: Job)
    requires Initial(w) && w.trust.Some?
    ensures Refusal(w, job) == None && |w.store.artifacts| < 2 && w.store.high == None
  {
    var m := SomeManifest(w.trust.value);
    SidecarFits(m, w.trust.value, "0.0.0", 1);
    job := JobOf(m, SidecarOf(m).size);
    assert Concat(job.chunks) == [0] + Concat(job.chunks[1..]) == [0];
    NothingRefusesFirst(w, job);
  }

  function JobOf(m: Manifest, size: nat): Job {
    Job(true, ManifestFile(size, m), 1, ManifestFile(size, m), 1, [[0]], "0.0.0", true)
  }

  lemma NothingRefusesFirst(w: World, job: Job)
    requires Initial(w) && w.trust.Some? && job.approved && job.windowsTrusts && StillThere(w, job)
    requires CheckFile(job.file, w.trust.value, job.current, job.now) == None
    requires Carries(Concat(job.chunks), job.file.manifest)
    ensures Refusal(w, job) == None
  {
    assert LockRefusal(w, job.file.manifest) == None;
  }

  /** So, starting from an empty directory, an update can be prepared that verify_pending never returns. */
  lemma OversizedUpdate(w: World, id: nat) returns (text: CanonicalJson.Codes, job: Job, trace: seq<World>)
    requires Initial(w) && w.trust.Some?
    ensures CanonicalJson.ReadText(text) == Some(ManifestDoc(job.file.manifest))
    ensures job.file.size == |MarkerScan.Utf8(text)| && Refusal(w, job) == None
    ensures IsRun(trace) && trace[0] == w && trace[|trace| - 1] == Done(w, job)
    ensures forall v, approved, r :: Inv(v) && v.store.high == Done(w, job).store.high ==>
              VerifyPending(v.store, approved, r).Err?
  {
    InitialHasInv(w);
    var plain := SomePreparable(w);
    text, job, trace := PreparedButNeverReturned(w, id, plain);
  }
}
