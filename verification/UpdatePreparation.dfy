/** What a `prepare` is given and why it is refused, and the run it is when nobody interferes, first or
    repeated after a death. */
module UpdatePreparation {
  import opened Wrappers
  import opened Chunks
  import opened Octets
  import opened ManifestText
  import opened ReleaseManifest
  import opened UpdateStore
  import opened UpdateSafety
  import opened UpdateTheorems

  /** What one `prepare` is given, and what it finds when it looks: manifest file and clock now, and both
      again under the policy lock, the artifact as it is read, and the verdict on its OS signature. */
  datatype Job = Job(approved: bool, file: ManifestFile, now: int, again: ManifestFile, later: int,
                     chunks: seq<Bytes>, current: string, windowsTrusts: bool)

  // ----- Why a preparation is refused, in the order of the checks -------------------------------

  function BeginRefusal(w: World, job: Job): Option<Error> {
    if !MayBegin(w.store.policy, job.approved) then Some(ConsentRequired)
    else if w.trust == None then Some(TrustNotConfigured)
    else CheckFile(job.file, w.trust.value, job.current, job.now)
  }

  function LockRefusal(w: World, m: Manifest): Option<Error> {
    if w.prepareLock.Some? then Some(UpdateBusy)
    else if !WithinLimit(w.store, m) then Some(LimitReached)
    else if !NoRollback(w.store.high, m) then Some(RollbackOrEquivocation)
    else None
  }

  function CandidateRefusal(job: Job): Option<Error> {
    if |Concat(job.chunks)| > job.file.manifest.size then Some(SizeMismatch)
    else if !Carries(Concat(job.chunks), job.file.manifest) then Some(HashMismatch)
    else if !job.windowsTrusts then Some(WindowsTrustFailed)
    else None
  }

  function ConsentRefusal(w: World, policy: Policy, trust: Trust, job: Job): Option<Error> {
    if w.policyLock.Some? then Some(UpdateBusy)
    else if w.store.policy != policy || w.trust != Some(trust) then Some(ConsentOrTrustChanged)
    else
      var bad := CheckFile(job.again, trust, job.current, job.later);
      if bad.Some? then bad
      else if job.again.manifest != job.file.manifest then Some(ManifestChanged) else None
  }

  function OrElse(first: Option<Error>, second: Option<Error>): Option<Error> {
    if first.Some? then first else second
  }

  /** The answer in a directory nobody else touches; nothing else stands in a preparation's way. */
  function Refusal(w: World, job: Job): Option<Error> {
    if BeginRefusal(w, job).Some? then BeginRefusal(w, job)
    else
      OrElse(LockRefusal(w, job.file.manifest),
        OrElse(CandidateRefusal(job), ConsentRefusal(w, w.store.policy, w.trust.value, job)))
  }

  // ----- The run it is when nobody interferes ---------------------------------------------------

  /** The second look at the manifest finds what the first one found. */
  predicate StillThere(w: World, job: Job) {
    && job.again.manifest == job.file.manifest && w.trust.Some?
    && CheckFile(job.again, w.trust.value, job.current, job.later) == None
  }

  lemma OneMore(trace: seq<World>, a: Action) returns (longer: seq<World>)
    requires IsRun(trace) && Enabled(trace[|trace| - 1], a)
    ensures IsRun(longer) && longer == trace + [Next(trace[|trace| - 1], a)]
  {
    longer := trace + [Next(trace[|trace| - 1], a)];
    forall i | 0 <= i < |longer| - 1 ensures Step(longer[i], longer[i + 1]) {
      if i + 1 < |trace| { assert Step(trace[i], trace[i + 1]); }
    }
  }

  /** The first `k` of the four writes. */
  lemma {:induction false} WriteAlone(w: World, id: nat, k: nat) returns (trace: seq<World>)
    requires InPhase(w, id, Consenting) && k <= 4
    ensures IsRun(trace) && trace[0] == w && trace[|trace| - 1] == Written(w, id, k)
  {
    if k == 0 {
      trace := [w];
    } else {
      trace := WriteAlone(w, id, k - 1);
      CommitFollowsWrites(w, id, k - 1);
      trace := OneMore(trace, WriteAction(id, k - 1));
    }
  }

  function Candidate(w: World, id: nat, job: Job): Prepare
    requires w.trust.Some?
  {
    Running(w.store.policy, job.approved, w.trust.value, job.file.manifest, Concat(job.chunks), Consenting)
  }

  /** The world behind the decision to commit. */
  function Decided(w: World, id: nat, job: Job): World
    requires w.trust.Some?
  {
    w.(runs := w.runs[id := Candidate(w, id, job)], prepareLock := Some(id), policyLock := Some(id))
  }

  lemma VerifyAlone(w: World, id: nat, job: Job) returns (trace: seq<World>)
    requires id !in w.runs && BeginRefusal(w, job) == None
    ensures IsRun(trace) && trace[0] == w
    ensures trace[|trace| - 1]
            == w.(runs := w.runs[id := Candidate(w, id, job).(content := [], phase := Checked)])
  {
    trace := OneMore([w], Begin(id, job.approved));
    trace := OneMore(trace, Verify(id, job.file, job.current, job.now));
  }

  /** A verified preparation, up to the decision to commit. */
  lemma SettleAlone(w: World, id: nat, job: Job) returns (trace: seq<World>)
    requires InPhase(w, id, Checked) && w.runs[id].value == job.file.manifest
    requires w.store.policy == w.runs[id].initial && w.trust == Some(w.runs[id].trust) && w.policyLock == None
    requires LockRefusal(w, job.file.manifest) == None && CandidateRefusal(job) == None
    ensures IsRun(trace) && trace[0] == w
    ensures trace[|trace| - 1]
            == w.(runs := w.runs[id := w.runs[id].(content := Concat(job.chunks), phase := Consenting)],
                  prepareLock := Some(id), policyLock := Some(id))
  {
    trace := OneMore([w], Lock(id));
    trace := OneMore(trace, Copy(id, Concat(job.chunks)));
    trace := OneMore(trace, Consent(id));
  }

  lemma DecideAlone(w: World, id: nat, job: Job) returns (trace: seq<World>)
    requires id !in w.runs && Refusal(w, job) == None
    ensures IsRun(trace) && trace[0] == w && trace[|trace| - 1] == Decided(w, id, job)
  {
    var first := VerifyAlone(w, id, job);
    var second := SettleAlone(first[|first| - 1], id, job);
    Joined(first, second);
    trace := first + second[1..];
  }

  lemma Joined(a: seq<World>, b: seq<World>)
    requires IsRun(a) && IsRun(b) && a[|a| - 1] == b[0]
    ensures IsRun(a + b[1..]) && (a + b[1..])[0] == a[0] && (a + b[1..])[|a + b[1..]| - 1] == b[|b| - 1]
  {
    var c := a + b[1..];
    forall i | 0 <= i < |c| - 1 ensures Step(c[i], c[i + 1]) {
      if i + 1 < |a| {
        assert Step(a[i], a[i + 1]);
      } else {
        assert Step(b[i + 1 - |a|], b[i + 1 - |a| + 1]);
      }
    }
  }

  /** The world behind an undisturbed preparation. */
  function Done(w: World, job: Job): World {
    w.(store := AfterWrites(w.store, job.file.manifest, Concat(job.chunks), 4),
       accepted := w.accepted + [job.file.manifest])
  }

  /** A preparation that nothing refuses is a run to that world. */
  lemma PrepareAlone(w: World, id: nat, job: Job) returns (trace: seq<World>)
    requires id !in w.runs && Refusal(w, job) == None
    ensures IsRun(trace) && trace[0] == w && trace[|trace| - 1] == Done(w, job)
  {
    var first := DecideAlone(w, id, job);
    var v := Decided(w, id, job);
    assert InPhase(v, id, Consenting);
    var second := WriteAlone(v, id, 4);
    Joined(first, second);
    trace := first + second[1..];
    assert v.runs - {id} == w.runs;
  }

  // ----- Repeated after a death ----------------------------------------------------------------

  /** The world behind a death after the first `k` writes. */
  function Died(w: World, id: nat, k: nat): World
    requires InPhase(w, id, Consenting) && k <= 4
  {
    Leave(Written(w, id, k), id)
  }

  lemma DieAlone(w: World, id: nat, k: nat) returns (trace: seq<World>)
    requires InPhase(w, id, Consenting) && k <= 4
    ensures IsRun(trace) && trace[0] == w && trace[|trace| - 1] == Died(w, id, k)
  {
    trace := WriteAlone(w, id, k);
    if k < 4 {
      trace := OneMore(trace, Die(id));
    } else {
      assert Written(w, id, 4).runs - {id} == Written(w, id, 4).runs;
    }
  }

  lemma CommitHoldsLocks(w: World, id: nat)
    requires RunInv(w, id) && InPhase(w, id, Consenting)
    ensures w.prepareLock == Some(id) && w.policyLock == Some(id)
    ensures WithinLimit(w.store, w.runs[id].value) && NoRollback(w.store.high, w.runs[id].value)
  {
  }

  lemma WritesKeepPolicy(s: Store, m: Manifest, content: Bytes, k: nat)
    requires k <= 4
    ensures AfterWrites(s, m, content, k).policy == s.policy
  {
  }

  lemma DeathFreesLocks(w: World, id: nat, k: nat)
    requires InPhase(w, id, Consenting) && k <= 4
    requires w.prepareLock == Some(id) && w.policyLock == Some(id)
    ensures var v := Died(w, id, k);
            && v.prepareLock == None && v.policyLock == None && v.trust == w.trust && v.runs == w.runs - {id}
            && v.store == AfterWrites(w.store, w.runs[id].value, w.runs[id].content, k)
  {
    var v := Died(w, id, k);
    assert v.runs == w.runs - {id};
  }

  /** Nothing of what is checked was changed by the writes that were done. */
  lemma NotRefusedAgain(w: World, v: World, k: nat, job: Job)
    requires k <= 4 && v.prepareLock == None && v.policyLock == None && v.trust == w.trust
    requires v.store == AfterWrites(w.store, job.file.manifest, Concat(job.chunks), k)
    requires WithinLimit(w.store, job.file.manifest) && NoRollback(w.store.high, job.file.manifest)
    requires BeginRefusal(w, job) == None && CandidateRefusal(job) == None && StillThere(w, job)
    ensures Refusal(v, job) == None
    ensures AfterWrites(v.store, job.file.manifest, Concat(job.chunks), 4)
            == AfterWrites(w.store, job.file.manifest, Concat(job.chunks), 4)
  {
    WritesKeepPolicy(w.store, job.file.manifest, Concat(job.chunks), k);
    RerunConverges(w.store, job.file.manifest, Concat(job.chunks), k);
    assert LockRefusal(v, job.file.manifest) == None;
  }

  /** Where the commit died - or ended - behind any of its writes, the same preparation, started anew and
      left alone, is refused by none of the checks it passed before, and ends in the directory that the
      commit would have left. */
  lemma RerunAfterDeath(w: World, id: nat, k: nat, job: Job, again: nat) returns (trace: seq<World>, death: nat)
    requires Inv(w) && InPhase(w, id, Consenting) && k <= 4 && again !in w.runs
    requires w.runs[id].value == job.file.manifest && w.runs[id].content == Concat(job.chunks)
    requires BeginRefusal(w, job) == None && CandidateRefusal(job) == None && StillThere(w, job)
    ensures IsRun(trace) && trace[0] == w && death < |trace|
    ensures trace[death] == Died(w, id, k) && Refusal(trace[death], job) == None
    ensures trace[|trace| - 1].store == AfterWrites(w.store, job.file.manifest, Concat(job.chunks), 4)
    ensures id !in trace[|trace| - 1].runs && again !in trace[|trace| - 1].runs
  {
    assert RunInv(w, id);
    CommitHoldsLocks(w, id);
    DeathFreesLocks(w, id, k);
    NotRefusedAgain(w, Died(w, id, k), k, job);
    var first := DieAlone(w, id, k);
    var second := PrepareAlone(Died(w, id, k), again, job);
    Joined(first, second);
    trace, death := first + second[1..], |first| - 1;
  }
}
