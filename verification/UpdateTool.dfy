/** `set_policy`, `prepare` and `verify_pending` as code over the shared state directory.

    Each write or locked check is one action of UpdateStore; between two of them other processes may
    act.  `trace` records every state, so a death after any write is a prefix of it. */
module UpdateTool {
  import opened Wrappers
  import opened Checklist
  import opened Chunks
  import opened Octets
  import opened ManifestText
  import opened ReleaseManifest
  import opened UpdateStore
  import opened UpdateSafety
  import opened UpdateTheorems
  import opened UpdatePreparation
  import opened ProductVersion
  import opened ReleaseRules
  import opened UpdateRules

  /** The copy loop of `prepare`, also the hashing loop of `verify_pending`: the bytes are taken
      exactly when they are the manifest's, and a surplus is noticed before a wrong digest. */
  method TakeChunks(chunks: seq<Bytes>, m: Manifest) returns (r: Result<Bytes, Error>)
    requires 1 <= m.size
    ensures r.Ok? <==> Carries(Concat(chunks), m)
    ensures r.Ok? ==> r.value == Concat(chunks)
    ensures r == Err(SizeMismatch) <==> |Concat(chunks)| > m.size
    ensures r.Err? ==> r.error in {SizeMismatch, HashMismatch}
  {
    var taken: Bytes, total := [], 0;
    for k := 0 to |chunks|
      invariant taken == Concat(chunks[..k]) && total == |taken|
      invariant total <= m.size
    {
      ConcatAppend(chunks, k);
      ConcatPrefix(chunks, k + 1);
      total := total + |chunks[k]|;
      if total > m.size { return Err(SizeMismatch); }
      taken := taken + chunks[k];
    }
    assert chunks[..|chunks|] == chunks;
    if total != m.size || FileSha(taken) != m.digest {
      return Err(HashMismatch);
    }
    return Ok(taken);
  }

  /** The action is another process's. */
  predicate Foreign(a: Action, id: nat) {
    a.SetPolicy? || a.ChangeTrust? || a.id != id
  }

  /** What others cannot change behind the back of a run that holds the locks of its phase. */
  ghost predicate Undisturbed(w: World, v: World, id: nat) {
    && (id in w.runs <==> id in v.runs)
    && (id in w.runs ==>
        && v.runs[id] == w.runs[id]
        && (w.runs[id].Running? && PastLock(w.runs[id].phase) ==>
              v.store == w.store.(policy := v.store.policy))
        && (w.runs[id].Running? && PastConsent(w.runs[id].phase) ==>
              v.store.policy == w.store.policy))
  }

  /** The two locks really exclude: no foreign action writes what a lock holder relies on. */
  lemma LocksExclude(w: World, a: Action, id: nat)
    requires Inv(w) && Enabled(w, a) && Foreign(a, id)
    ensures Undisturbed(w, Next(w, a), id)
  {
    assert RunInv(w, id);
    if !a.SetPolicy? && !a.ChangeTrust? { assert RunInv(w, a.id); }
  }

  class Tool {
    var world: World
    var script: seq<seq<Action>>
    ghost var trace: seq<World>

    ghost predicate Valid()
      reads this
    {
      IsRun(trace) && trace[|trace| - 1] == world && Initial(trace[0])
    }

    constructor (start: World, script: seq<seq<Action>>)
      requires Initial(start)
      ensures Valid() && world == start && trace == [start] && this.script == script
    {
      world, this.script, trace := start, script, [start];
    }

    method Do(a: Action)
      requires Valid() && Enabled(world, a)
      modifies this`world, this`trace
      ensures Valid() && world == Next(old(world), a) && trace == old(trace) + [world]
    {
      assert Step(world, Next(world, a));
      world := Next(world, a);
      trace := trace + [world];
    }

    lemma Sound()
      requires Valid()
      ensures Inv(world)
    {
      InitialHasInv(trace[0]);
      RunKeepsInv(trace, |trace| - 1);
    }

    /** Other processes act; run `id` is left alone. */
    method Surroundings(id: nat)
      requires Valid()
      modifies this`world, this`trace, this`script
      ensures Valid() && old(trace) <= trace
      ensures Undisturbed(old(world), world, id)
      ensures old(script) == [] ==> script == [] && world == old(world) && trace == old(trace)
    {
      if script == [] { return; }
      var others := script[0];
      script := script[1..];
      for k := 0 to |others|
        invariant Valid() && old(trace) <= trace && Undisturbed(old(world), world, id)
      {
        var a := others[k];
        if Foreign(a, id) && Enabled(world, a) {
          Sound();
          LocksExclude(world, a, id);
          Do(a);
        }
      }
    }

    /** set_policy: automatic preparation needs explicit consent, and every change is a new revision. */
    method ChoosePolicy(mode: Mode, consent: bool) returns (r: Result<Policy, Error>)
      requires Valid()
      modifies this`world, this`trace
      ensures Valid() && old(trace) <= trace
      ensures r.Ok? ==> world.store == old(world).store.(policy := r.value)
                        && r.value == Policy(mode, old(world).store.policy.revision + 1)
                        && (mode == Auto ==> consent)
      ensures r.Err? ==> world == old(world)
      ensures (if r.Err? then Some(r.error) else None)
              == FirstFault([(mode == Ask || consent, ConsentRequired), (old(world).policyLock == None, UpdateBusy),
                             (old(world).store.policy.revision <= 9223372036854775806, RevisionExhausted)])
    {
      ThreeChecks([(mode == Ask || consent, ConsentRequired), (world.policyLock == None, UpdateBusy),
                   (world.store.policy.revision <= 9223372036854775806, RevisionExhausted)]);
      if mode == Auto && !consent { return Err(ConsentRequired); }
      if world.policyLock.Some? { return Err(UpdateBusy); }
      if world.store.policy.revision + 1 >= TWO63 { return Err(RevisionExhausted); }
      Do(SetPolicy(mode, consent));
      return Ok(world.store.policy);
    }

    /** The checks before the preparation lock: consent, trust and manifest. */
    method Examine(id: nat, job: Job) returns (bad: Option<Error>)
      requires Valid() && id !in world.runs
      modifies this`world, this`trace, this`script
      ensures Valid() && old(trace) <= trace
      ensures bad == None ==> InPhase(world, id, Checked) && world.runs[id].value == job.file.manifest
                              && 1 <= job.file.manifest.size
                              && 0 <= Number(job.current) < Number(job.file.manifest.productVersion)
      ensures bad.Some? ==> id !in world.runs
      ensures old(script) == [] ==>
                && script == [] && world.trust == old(world).trust && world.store == old(world).store
                && bad == BeginRefusal(old(world), job)
                && (bad == None ==>
                      && world.prepareLock == old(world).prepareLock
                      && world.policyLock == old(world).policyLock
                      && world.runs[id].initial == world.store.policy
                      && Some(world.runs[id].trust) == world.trust)
    {
      if !MayBegin(world.store.policy, job.approved) { return Some(ConsentRequired); }
      Do(Begin(id, job.approved));
      Surroundings(id);
      bad := VerifyFile(id, job);
    }

    /** load_trust and verify_manifest. */
    method VerifyFile(id: nat, job: Job) returns (bad: Option<Error>)
      requires Valid() && id in world.runs && world.runs[id].Begun?
      modifies this`world, this`trace
      ensures Valid() && old(trace) <= trace
      ensures world.trust == old(world).trust && world.store == old(world).store
      ensures bad == if world.trust == None then Some(TrustNotConfigured)
                     else CheckFile(job.file, world.trust.value, job.current, job.now)
      ensures bad.Some? ==> id !in world.runs
      ensures bad == None ==>
                && InPhase(world, id, Checked) && world.runs[id].value == job.file.manifest
                && 1 <= job.file.manifest.size
                && 0 <= Number(job.current) < Number(job.file.manifest.productVersion)
                && world.prepareLock == old(world).prepareLock && world.policyLock == old(world).policyLock
                && world.runs[id].initial == old(world).runs[id].initial
                && Some(world.runs[id].trust) == world.trust
    {
      if world.trust == None {
        bad := Some(TrustNotConfigured);
      } else {
        bad := CheckFile(job.file, world.trust.value, job.current, job.now);
      }
      if bad.Some? {
        Do(Die(id));
      } else {
        AcceptedHasPassed(job.file, world.trust.value, job.current, job.now);
        AcceptedIsNewer(job.file.manifest, world.trust.value, job.current, job.now);
        VersionsIff(job.current, job.file.manifest.productVersion);
        Do(Verify(id, job.file, job.current, job.now));
      }
    }

    /** The preparation lock and the two checks it guards. */
    method TakeLock(id: nat) returns (bad: Option<Error>)
      requires Valid() && InPhase(world, id, Checked)
      modifies this`world, this`trace
      ensures Valid() && old(trace) <= trace && world.store == old(world).store
      ensures world.trust == old(world).trust
      ensures bad == None ==>
                && InPhase(world, id, Holding)
                && world.runs[id] == old(world).runs[id].(phase := Holding)
                && world.policyLock == old(world).policyLock
      ensures bad.Some? ==> id !in world.runs
      ensures bad == LockRefusal(old(world), old(world).runs[id].value)
    {
      var m := world.runs[id].value;
      if world.prepareLock.Some? {
        bad := Some(UpdateBusy);
      } else if !WithinLimit(world.store, m) {
        bad := Some(LimitReached);
      } else if !NoRollback(world.store.high, m) {
        bad := Some(RollbackOrEquivocation);
      } else {
        Do(Lock(id));
        return None;
      }
      Do(Die(id));
    }

    /** The candidate: copied, measured, and judged by the operating system. */
    method TakeCandidate(id: nat, job: Job) returns (bad: Option<Error>)
      requires Valid() && InPhase(world, id, Holding) && world.runs[id].value == job.file.manifest
      requires 1 <= job.file.manifest.size
      modifies this`world, this`trace
      ensures Valid() && old(trace) <= trace && world.store == old(world).store
      ensures world.trust == old(world).trust
      ensures bad == None ==>
                && InPhase(world, id, Copied)
                && world.runs[id] == old(world).runs[id].(phase := Copied, content := Concat(job.chunks))
                && world.policyLock == old(world).policyLock
      ensures bad.Some? ==> id !in world.runs
      ensures bad == CandidateRefusal(job)
    {
      var candidate := TakeChunks(job.chunks, job.file.manifest);
      if candidate.Err? {
        bad := Some(candidate.error);
      } else if !job.windowsTrusts {
        bad := Some(WindowsTrustFailed);
      } else {
        Do(Copy(id, candidate.value));
        return None;
      }
      Do(Die(id));
    }

    /** The policy lock, and under it consent, trust and manifest once more. */
    method Reconsider(id: nat, job: Job) returns (bad: Option<Error>)
      requires Valid() && InPhase(world, id, Copied) && world.runs[id].value == job.file.manifest
      modifies this`world, this`trace
      ensures Valid() && old(trace) <= trace && world.store == old(world).store
      ensures bad == None ==>
                && InPhase(world, id, Consenting)
                && world.runs[id] == old(world).runs[id].(phase := Consenting)
      ensures bad.Some? ==> id !in world.runs
      ensures bad == ConsentRefusal(old(world), old(world).runs[id].initial, old(world).runs[id].trust, job)
    {
      var run := world.runs[id];
      if world.policyLock.Some? {
        bad := Some(UpdateBusy);
      } else if world.store.policy != run.initial || world.trust != Some(run.trust) {
        bad := Some(ConsentOrTrustChanged);
      } else {
        bad := CheckFile(job.again, run.trust, job.current, job.later);
        if bad == None && job.again.manifest != job.file.manifest { bad := Some(ManifestChanged); }
      }
      if bad.Some? { Do(Die(id)); } else { Do(Consent(id)); }
    }

    /** One write of the commit, after which others may act. */
    method Write(id: nat, a: Action)
      requires Valid() && Enabled(world, a) && (a == Move(id) || a == Note(id) || a == Raise(id))
      modifies this`world, this`trace, this`script
      ensures Valid() && old(trace) <= trace && id in world.runs
      ensures world.store == Next(old(world), a).store
      ensures world.runs[id] == Next(old(world), a).runs[id]
    {
      Do(a);
      Surroundings(id);
    }

    /** The four writes, with others acting - in vain - between them. */
    method Commit(id: nat)
      requires Valid() && InPhase(world, id, Consenting)
      modifies this`world, this`trace, this`script
      ensures Valid() && old(trace) <= trace && id !in world.runs
      ensures world.store == AfterWrites(old(world).store, old(world).runs[id].value, old(world).runs[id].content, 4)
    {
      Write(id, Move(id));
      Write(id, Note(id));
      Write(id, Raise(id));
      Do(Finish(id));
    }

    /** From the preparation lock to the decision to commit. */
    method Settle(id: nat, job: Job) returns (bad: Option<Error>)
      requires Valid() && InPhase(world, id, Checked) && world.runs[id].value == job.file.manifest
      requires 1 <= job.file.manifest.size
      modifies this`world, this`trace, this`script
      ensures Valid() && old(trace) <= trace
      ensures bad.Some? ==> id !in world.runs
      ensures bad == None ==>
                && InPhase(world, id, Consenting) && world.runs[id].value == job.file.manifest
                && world.runs[id].content == Concat(job.chunks) && Carries(Concat(job.chunks), job.file.manifest)
      ensures old(script) == [] ==>
                && world.store == old(world).store && script == []
                && bad == OrElse(LockRefusal(old(world), job.file.manifest), OrElse(CandidateRefusal(job),
                     ConsentRefusal(old(world), old(world).runs[id].initial, old(world).runs[id].trust, job)))
    {
      bad := TakeLock(id);
      if bad.Some? { return; }
      bad := TakeCandidate(id, job);
      if bad.Some? { return; }
      Surroundings(id);
      bad := Reconsider(id, job);
    }

    lemma Verdict(job: Job)
      requires Valid()
      ensures Refusal(world, job) == FirstFault(PrepareChecks(world, job))
    {
      Sound();
      HighIsVersion(world);
      RefusalIsFirstFault(world, job);
    }

    /** prepare.  Whatever others do meanwhile, every state on the way is one of the protocol's, its
        locks are free when it returns, and success means exactly its own manifest and bytes are the
        high-water, pending and prepared ones.  Left alone, it is refused exactly for the first check
        that fails, and writes the four files or nothing. */
    method Prepare(id: nat, job: Job) returns (r: Result<Pending, Error>)
      requires Valid() && id !in world.runs
      modifies this`world, this`trace, this`script
      ensures Valid() && old(trace) <= trace && id !in world.runs
      ensures r.Ok? ==>
                var m := job.file.manifest;
                var digest := ManifestSha(Canonical(CanonicalText(m), m.digest, m.signer));
                && r.value == Pending(HighWater(m.sequence, digest, m.productVersion), Name(m.sequence, digest), m.digest)
                && 0 <= Number(job.current) < Number(m.productVersion)
                && world.store.pending == Some(r.value) && world.store.high == Some(r.value.high)
                && r.value.artifact in world.store.artifacts
                && world.store.artifacts[r.value.artifact] == Concat(job.chunks)
                && Carries(Concat(job.chunks), m)
      ensures old(script) == [] ==>
                && (if r.Err? then Some(r.error) else None) == FirstFault(PrepareChecks(old(world), job))
                && world.store == (if r.Err? then old(world).store
                                   else AfterWrites(old(world).store, job.file.manifest, Concat(job.chunks), 4))
    {
      Verdict(job);
      r := PrepareSteps(id, job);
    }

    /** Check, settle, commit. */
    method PrepareSteps(id: nat, job: Job) returns (r: Result<Pending, Error>)
      requires Valid() && id !in world.runs
      modifies this`world, this`trace, this`script
      ensures Valid() && old(trace) <= trace && id !in world.runs
      ensures r.Ok? ==>
                && r.value == PendingOf(job.file.manifest)
                && 0 <= Number(job.current) < Number(job.file.manifest.productVersion)
                && world.store.pending == Some(r.value) && world.store.high == Some(r.value.high)
                && NameOf(job.file.manifest) in world.store.artifacts
                && world.store.artifacts[NameOf(job.file.manifest)] == Concat(job.chunks)
                && Carries(Concat(job.chunks), job.file.manifest)
      ensures old(script) == [] ==>
                && Refusal(old(world), job) == (if r.Err? then Some(r.error) else None)
                && world.store == (if r.Err? then old(world).store
                                   else AfterWrites(old(world).store, job.file.manifest, Concat(job.chunks), 4))
    {
      var bad := Examine(id, job);
      if bad.Some? { return Err(bad.value); }
      Surroundings(id);
      bad := Settle(id, job);
      if bad.Some? { return Err(bad.value); }
      Commit(id);
      return Ok(PendingOf(job.file.manifest));
    }

    /** verify_pending, reading the artifact chunk by chunk.  In a directory only this tool writes,
        success means the high-water manifest's own artifact, unaltered and newer than `current`. */
    method CheckPending(approved: bool, r: Reading, chunks: seq<Bytes>) returns (result: Result<Name, Error>)
      requires Valid()
      requires world.store.pending.Some? && world.store.pending.value.artifact in world.store.artifacts ==>
                 Concat(chunks) == world.store.artifacts[world.store.pending.value.artifact]
      ensures match FirstFault(PendingChecks(world.store, approved, r))
              case Some(e) => result == Err(e)
              case None => world.store.pending.Some? && result == Ok(world.store.pending.value.artifact)
      ensures result.Ok? ==>
                && world.accepted != []
                && var m := world.accepted[|world.accepted| - 1];
                && result.value == NameOf(m) && world.store.high == Some(HighOf(m))
                && Carries(Concat(chunks), m) && SidecarOf(m).size <= MAX_MANIFEST
                && 0 <= Number(r.current) < Number(m.productVersion)
    {
      result := ReadPending(approved, r, chunks);
      PendingVerdict(world.store, approved, r);
      if result.Ok? {
        Sound();
        VerifyPendingExactly(world, approved, r);
      }
    }

    /** The checks, in their order. */
    method ReadPending(approved: bool, r: Reading, chunks: seq<Bytes>) returns (result: Result<Name, Error>)
      requires world.store.pending.Some? && world.store.pending.value.artifact in world.store.artifacts ==>
                 Concat(chunks) == world.store.artifacts[world.store.pending.value.artifact]
      ensures result == VerifyPending(world.store, approved, r)
    {
      var s := world.store;
      if !approved { return Err(ConsentRequired); }
      if r.trust == None { return Err(TrustNotConfigured); }
      if s.pending == None { return Err(InvalidMetadata); }
      var pending := s.pending.value;
      if pending.artifact !in s.sidecars { return Err(InvalidMetadata); }
      var file := s.sidecars[pending.artifact];
      var bad := CheckFile(file, r.trust.value, r.current, r.now);
      if bad.Some? { return Err(bad.value); }
      AcceptedHasPassed(file, r.trust.value, r.current, r.now);
      var value := file.manifest;
      var expected := PendingOf(value).(artifact := pending.artifact);
      if pending != expected || s.high != Some(HighOf(value)) { return Err(StateMismatch); }
      if pending.artifact !in s.artifacts { return Err(InvalidMetadata); }
      var content := TakeChunks(chunks, value);
      if content.Err? { return Err(content.error); }
      if !r.windowsTrusts { return Err(WindowsTrustFailed); }
      if r.laterPolicy != s.policy || r.laterTrust != r.trust { return Err(ConsentOrTrustChanged); }
      return Ok(pending.artifact);
    }
  }
}
