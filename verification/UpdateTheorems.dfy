/** What holds over whole histories of the update store, and after a death inside the commit. */
module UpdateTheorems {
  import opened Wrappers
  import opened Octets
  import opened CanonicalRoundTrip
  import opened ProductVersion
  import opened ManifestText
  import opened ReleaseManifest
  import opened ReleaseRules
  import opened UpdateStore
  import opened UpdateSafety

  // ----- Histories ----------------------------------------------------------------------------

  ghost predicate Extends(w: World, v: World) {
    && w.accepted <= v.accepted
    && (forall n :: n in w.store.artifacts ==>
          n in v.store.artifacts && v.store.artifacts[n] == w.store.artifacts[n])
    && w.store.policy.revision <= v.store.policy.revision
    && (w.store.policy.revision == v.store.policy.revision ==> w.store.policy == v.store.policy)
  }

  lemma StepExtends(w: World, v: World)
    requires Inv(w) && Step(w, v)
    ensures Extends(w, v)
  {
    var a :| Enabled(w, a) && v == Next(w, a);
    if a.Move? { MoveExtends(w, a.id); } else { OtherStepExtends(w, a); }
  }

  lemma OtherStepExtends(w: World, a: Action)
    requires Enabled(w, a) && !a.Move?
    ensures Extends(w, Next(w, a))
  {
  }

  lemma MoveExtends(w: World, id: nat)
    requires Inv(w) && Enabled(w, Move(id))
    ensures Extends(w, Next(w, Move(id)))
  {
    MoveKeepsArtifacts(w, id);
  }

  lemma ExtendsTransitive(u: World, w: World, v: World)
    requires Extends(u, w) && Extends(w, v)
    ensures Extends(u, v)
  {
  }

  lemma NextExtends(trace: seq<World>, j: nat)
    requires IsRun(trace) && Inv(trace[0]) && j + 1 < |trace|
    ensures Extends(trace[j], trace[j + 1])
  {
    RunKeepsInv(trace, j);
    assert Step(trace[j], trace[j + 1]);
    StepExtends(trace[j], trace[j + 1]);
  }

  lemma {:induction false} ChainExtends(trace: seq<World>, i: nat, j: nat)
    requires forall k :: 0 <= k < |trace| - 1 ==> Extends(trace[k], trace[k + 1])
    requires i <= j < |trace|
    ensures Extends(trace[i], trace[j])
  {
    if i < j {
      ChainExtends(trace, i, j - 1);
      assert Extends(trace[j - 1], trace[j - 1 + 1]);
      ExtendsTransitive(trace[i], trace[j - 1], trace[j]);
    }
  }

  lemma RunExtends(trace: seq<World>, i: nat, j: nat)
    requires IsRun(trace) && Inv(trace[0]) && i <= j < |trace|
    ensures Extends(trace[i], trace[j])
  {
    forall k | 0 <= k < |trace| - 1 ensures Extends(trace[k], trace[k + 1]) {
      NextExtends(trace, k);
    }
    ChainExtends(trace, i, j);
  }

  /** The high-water record, once written, is never lost and falls neither in sequence nor in version, and
      a sequence number keeps its manifest. */
  lemma HighWaterNeverFalls(trace: seq<World>, i: nat, j: nat)
    requires IsRun(trace) && Initial(trace[0]) && i <= j < |trace|
    requires trace[i].store.high.Some?
    ensures trace[j].store.high.Some?
    ensures var g, h := trace[i].store.high.value, trace[j].store.high.value;
            && g.sequence <= h.sequence && 0 <= Number(g.productVersion) <= Number(h.productVersion)
            && (g.sequence == h.sequence ==> g.digest == h.digest)
  {
    InitialHasInv(trace[0]);
    RunKeepsInv(trace, i);
    RunKeepsInv(trace, j);
    RunExtends(trace, i, j);
    var k := |trace[i].accepted| - 1;
    assert trace[j].accepted[k] == trace[i].accepted[k];
    FollowsInNumbers(trace[i].accepted[k], trace[j].accepted[|trace[j].accepted| - 1]);
  }

  lemma FollowsInNumbers(m: Manifest, n: Manifest)
    requires Passed(m) && Passed(n) && MayFollow(HighOf(m), HighOf(n))
    ensures m.sequence <= n.sequence && 0 <= Number(m.productVersion) <= Number(n.productVersion)
    ensures m.sequence == n.sequence ==> DigestOf(m) == DigestOf(n)
  {
    VersionsIff(n.productVersion, m.productVersion);
    VersionsIff(m.productVersion, n.productVersion);
  }

  /** One sequence number is never accepted for two manifests, at any two moments of a history: they
      are read back as the same, and are the same where their notes pair no surrogates. */
  lemma OneManifestPerSequence(trace: seq<World>, i: nat, j: nat, g: Manifest, h: Manifest)
    requires IsRun(trace) && Initial(trace[0]) && i < |trace| && j < |trace|
    requires g in trace[i].accepted && h in trace[j].accepted && g.sequence == h.sequence
    ensures DigestOf(g) == DigestOf(h) && AsRead(g) == AsRead(h)
    ensures WellPaired(g.notes) && WellPaired(h.notes) ==> g == h
  {
    InitialHasInv(trace[0]);
    var last := if i <= j then j else i;
    RunExtends(trace, i, last);
    RunExtends(trace, j, last);
    RunKeepsInv(trace, last);
    SameSequence(trace[last], g, h);
    SameDigestIff(g, h);
    if WellPaired(g.notes) && WellPaired(h.notes) { DigestBinds(g, h); }
  }

  lemma SameSequence(w: World, g: Manifest, h: Manifest)
    requires HistoryInv(w) && g in w.accepted && h in w.accepted && g.sequence == h.sequence
    ensures DigestOf(g) == DigestOf(h)
  {
    var x :| 0 <= x < |w.accepted| && w.accepted[x] == g;
    var y :| 0 <= y < |w.accepted| && w.accepted[y] == h;
    assert if x <= y then MayFollow(HighOf(w.accepted[x]), HighOf(w.accepted[y]))
           else MayFollow(HighOf(w.accepted[y]), HighOf(w.accepted[x]));
  }

  /** No history ever holds a third prepared artifact. */
  lemma AtMostTwoArtifacts(trace: seq<World>, i: nat)
    requires IsRun(trace) && Initial(trace[0]) && i < |trace|
    ensures |trace[i].store.artifacts| <= 2
  {
    InitialHasInv(trace[0]);
    RunKeepsInv(trace, i);
  }

  /** Once an artifact is in place the limit never stops its own manifest again. */
  lemma LimitNeverStopsRerun(trace: seq<World>, i: nat, j: nat, m: Manifest)
    requires IsRun(trace) && Initial(trace[0]) && i <= j < |trace|
    requires NameOf(m) in trace[i].store.artifacts
    ensures WithinLimit(trace[j].store, m)
  {
    InitialHasInv(trace[0]);
    RunExtends(trace, i, j);
  }

  // ----- Consent ------------------------------------------------------------------------------

  /** A policy change always raises the revision, so equal policies at two moments mean that no
      change was committed in between, not even there and back. */
  lemma EqualPoliciesMeanNoChange(trace: seq<World>, i: nat, j: nat, k: nat)
    requires IsRun(trace) && Inv(trace[0]) && i <= k <= j < |trace|
    requires trace[i].store.policy == trace[j].store.policy
    ensures trace[k].store.policy == trace[i].store.policy
  {
    RunExtends(trace, i, k);
    RunExtends(trace, k, j);
  }

  /** Every prepare in flight once read its initial policy, at or before now. */
  lemma {:induction false} BegunUnder(trace: seq<World>, j: nat, id: nat) returns (i: nat)
    requires IsRun(trace) && Initial(trace[0]) && j < |trace| && id in trace[j].runs
    ensures i <= j && trace[i].store.policy == trace[j].runs[id].initial
  {
    assert j > 0;
    assert Step(trace[j - 1], trace[j - 1 + 1]);
    var w := trace[j - 1];
    var a :| Enabled(w, a) && trace[j] == Next(w, a);
    if a.Begin? && a.id == id {
      i := j - 1;
    } else {
      assert id in w.runs && w.runs[id].initial == trace[j].runs[id].initial;
      i := BegunUnder(trace, j - 1, id);
    }
  }

  /** An activation - the write of pending.json - happens only under a policy that allowed it and
      that stood unchanged from the prepare's first read of it to that write. */
  lemma ActivationUnderConsent(trace: seq<World>, j: nat, id: nat) returns (i: nat)
    requires IsRun(trace) && Initial(trace[0]) && j < |trace| && Enabled(trace[j], Finish(id))
    ensures i <= j && (trace[j].runs[id].approved || trace[i].store.policy.mode == Auto)
    ensures forall k :: i <= k <= j ==> trace[k].store.policy == trace[i].store.policy
    ensures Next(trace[j], Finish(id)).store.policy == trace[i].store.policy
  {
    InitialHasInv(trace[0]);
    RunKeepsInv(trace, j);
    assert RunInv(trace[j], id);
    i := BegunUnder(trace, j, id);
    forall k | i <= k <= j ensures trace[k].store.policy == trace[i].store.policy {
      EqualPoliciesMeanNoChange(trace, i, j, k);
    }
  }

  // ----- What verify_pending can return -------------------------------------------------------

  /** What an update needs from outside the state directory, and the size that its canonical text may
      have to be read again. */
  predicate Favourable(m: Manifest, policy: Policy, r: Reading) {
    && SidecarOf(m).size <= MAX_MANIFEST
    && r.trust.Some? && CheckManifest(m, r.trust.value, r.current, r.now) == None
    && r.windowsTrusts && r.laterPolicy == policy && r.laterTrust == r.trust
  }

  /** In every reachable state, verify_pending returns exactly the artifact of the manifest accepted last,
      and exactly when pending names the high-water record in favourable circumstances. */
  lemma VerifyPendingExactly(w: World, approved: bool, r: Reading)
    requires Inv(w)
    ensures VerifyPending(w.store, approved, r).Ok? <==>
              && approved && w.store.pending.Some? && w.store.high == Some(w.store.pending.value.high)
              && Favourable(w.accepted[|w.accepted| - 1], w.store.policy, r)
    ensures VerifyPending(w.store, approved, r).Ok? ==>
              var m := w.accepted[|w.accepted| - 1];
              && VerifyPending(w.store, approved, r).value == NameOf(m)
              && w.store.high == Some(HighOf(m))
              && NameOf(m) in w.store.artifacts && Carries(w.store.artifacts[NameOf(m)], m)
              && 0 <= Number(r.current) < Number(m.productVersion)
  {
    if w.store.pending.Some? {
      var m := PendingPrepared(w);
      ReadsSidecar(w.store, m, approved, r);
      if w.store.high == Some(HighOf(m)) {
        LastIsPending(w, m, r);
        if Favourable(m, w.store.policy, r) { FavourableIsNewer(m, w.store.policy, r); }
      }
    }
  }

  lemma FavourableIsNewer(m: Manifest, policy: Policy, r: Reading)
    requires Passed(m) && Favourable(m, policy, r)
    ensures 0 <= Number(r.current) < Number(m.productVersion)
  {
    AcceptedIsNewer(m, r.trust.value, r.current, r.now);
    VersionsIff(r.current, m.productVersion);
  }

  /** The high-water manifest and the pending one may differ in surrogate pairs only. */
  lemma LastIsPending(w: World, m: Manifest, r: Reading)
    requires Inv(w) && w.store.high == Some(HighOf(m)) && Passed(m) && Prepared(w.store, m)
    ensures w.accepted != []
    ensures var last := w.accepted[|w.accepted| - 1];
            && HighOf(last) == HighOf(m) && NameOf(last) == NameOf(m) && Prepared(w.store, last)
            && (Favourable(m, w.store.policy, r) <==> Favourable(last, w.store.policy, r))
  {
    var last := |w.accepted| - 1;
    assert Prepared(w.store, w.accepted[last]);
    SameFavour(m, w.accepted[last], w.store.policy, r);
  }

  /** The manifest that pending stands for. */
  lemma PendingPrepared(w: World) returns (m: Manifest)
    requires Inv(w) && w.store.pending.Some?
    ensures m in w.accepted && Passed(m) && w.store.pending == Some(PendingOf(m)) && Prepared(w.store, m)
  {
    var i :| 0 <= i < |w.accepted| && w.store.pending.value == PendingOf(w.accepted[i]);
    m := w.accepted[i];
  }

  /** What verify_pending asks where pending and the artifact agree with the sidecar. */
  lemma AsksOfSidecar(s: Store, approved: bool, r: Reading)
    requires s.pending.Some? && s.pending.value.artifact in s.sidecars && s.pending.value.artifact in s.artifacts
    requires var n := s.pending.value.artifact;
             var value := s.sidecars[n].manifest;
             s.pending.value == PendingOf(value) && Carries(s.artifacts[n], value)
    ensures var f := s.sidecars[s.pending.value.artifact];
            VerifyPending(s, approved, r).Ok? <==>
              && approved && r.trust.Some? && CheckFile(f, r.trust.value, r.current, r.now) == None
              && s.high == Some(s.pending.value.high) && r.windowsTrusts
              && r.laterPolicy == s.policy && r.laterTrust == r.trust
    ensures VerifyPending(s, approved, r).Ok? ==> VerifyPending(s, approved, r).value == s.pending.value.artifact
  {
  }

  /** What verify_pending finds where pending stands for a prepared manifest. */
  lemma ReadsSidecar(s: Store, m: Manifest, approved: bool, r: Reading)
    requires Passed(m) && s.pending == Some(PendingOf(m)) && Prepared(s, m)
    ensures VerifyPending(s, approved, r).Ok? <==> approved && s.high == Some(HighOf(m)) && Favourable(m, s.policy, r)
    ensures VerifyPending(s, approved, r).Ok? ==> VerifyPending(s, approved, r).value == NameOf(m)
  {
    SidecarNamedAlike(m);
    AsksOfSidecar(s, approved, r);
    if r.trust.Some? { SidecarChecked(m, r.trust.value, r.current, r.now); }
  }

  lemma SameFavour(m: Manifest, n: Manifest, policy: Policy, r: Reading)
    requires Passed(m) && Passed(n) && DigestOf(m) == DigestOf(n)
    ensures Favourable(m, policy, r) <==> Favourable(n, policy, r)
  {
    SameDigestIff(m, n);
    if r.trust.Some? {
      JudgedAlike(m, r.trust.value, r.current, r.now);
      JudgedAlike(n, r.trust.value, r.current, r.now);
    }
  }

  // ----- Death inside the commit --------------------------------------------------------------

  /** The store after the first `k` of the four writes. */
  function AfterWrites(s: Store, m: Manifest, content: Bytes, k: nat): Store
    requires k <= 4
  {
    if k == 0 then s
    else if k == 1 then MoveArtifact(s, m, content)
    else if k == 2 then WriteSidecar(MoveArtifact(s, m, content), m)
    else if k == 3 then RaiseHigh(WriteSidecar(MoveArtifact(s, m, content), m), m)
    else WritePending(RaiseHigh(WriteSidecar(MoveArtifact(s, m, content), m), m), m)
  }

  /** The world behind the first `k` writes of run `id`, nobody else acting. */
  function Written(w: World, id: nat, k: nat): World
    requires InPhase(w, id, Consenting) && k <= 4
  {
    var run := w.runs[id];
    var v := if k == 0 then w
             else if k == 1 then To(w, id, Moved)
             else if k == 2 then To(w, id, Noted)
             else if k == 3 then To(w, id, Raised)
             else Leave(w, id);
    v.(store := AfterWrites(w.store, run.value, run.content, k),
       accepted := if k < 3 then w.accepted else w.accepted + [run.value])
  }

  function WriteAction(id: nat, k: nat): Action
    requires k < 4
  {
    if k == 0 then Move(id) else if k == 1 then Note(id) else if k == 2 then Raise(id) else Finish(id)
  }

  /** The worlds a commit leads through are these, in this order. */
  lemma CommitFollowsWrites(w: World, id: nat, k: nat)
    requires InPhase(w, id, Consenting) && k < 4
    ensures var v := Written(w, id, k);
            Enabled(v, WriteAction(id, k)) && Next(v, WriteAction(id, k)) == Written(w, id, k + 1)
  {
    var v := Written(w, id, k);
    assert InPhase(v, id, if k == 0 then Consenting else if k == 1 then Moved else if k == 2 then Noted else Raised);
    assert v.runs - {id} == w.runs - {id};
    var next := Next(v, WriteAction(id, k));
    assert next.runs == Written(w, id, k + 1).runs;
  }

  /** Repeating the commit after a death at any write ends in the directory an undisturbed run
      leaves, and neither the limit nor the rollback check stands in its way. */
  lemma RerunConverges(s: Store, m: Manifest, content: Bytes, k: nat)
    requires k <= 4 && WithinLimit(s, m) && NoRollback(s.high, m)
    ensures var left := AfterWrites(s, m, content, k);
            && WithinLimit(left, m) && NoRollback(left.high, m)
            && AfterWrites(left, m, content, 4) == AfterWrites(s, m, content, 4)
  {
    WritesAgain(s, AfterWrites(s, m, content, k), m, content);
  }

  /** The four writes overwrite whatever a part of them left. */
  lemma WritesAgain(s: Store, left: Store, m: Manifest, content: Bytes)
    requires left.policy == s.policy
    requires left.artifacts == s.artifacts || left.artifacts == s.artifacts[NameOf(m) := content]
    requires left.sidecars == s.sidecars || left.sidecars == s.sidecars[NameOf(m) := SidecarOf(m)]
    ensures AfterWrites(left, m, content, 4) == AfterWrites(s, m, content, 4)
  {
    assert left.artifacts[NameOf(m) := content] == s.artifacts[NameOf(m) := content];
    assert left.sidecars[NameOf(m) := SidecarOf(m)] == s.sidecars[NameOf(m) := SidecarOf(m)];
  }

  /** What verify_pending says after a death behind write `k`: with one or two writes the old update
      is intact; between the high-water and the pending write everything but a repetition of the
      pending update is blocked; with all four the new update is what it returns, unless its sidecar is
      too large to be read. */
  lemma DeathOutcome(w: World, id: nat, k: nat, approved: bool, r: Reading)
    requires Inv(w) && InPhase(w, id, Consenting) && k <= 4
    ensures var m, content := w.runs[id].value, w.runs[id].content;
            var s := AfterWrites(w.store, m, content, k);
            && (k <= 2 ==> VerifyPending(s, approved, r) == VerifyPending(w.store, approved, r))
            && (k == 3 && w.store.pending != Some(PendingOf(m)) ==> VerifyPending(s, approved, r).Err?)
            && (k >= 3 && VerifyPending(s, approved, r).Ok? ==>
                  VerifyPending(s, approved, r) == Ok(NameOf(m)))
            && (k == 4 ==> (VerifyPending(s, approved, r).Ok? <==>
                              approved && Favourable(m, w.store.policy, r)))
  {
    assert RunInv(w, id);
    var m, content := w.runs[id].value, w.runs[id].content;
    if k <= 2 {
      OldSurvives(w, m, content, k, approved, r);
    } else if k == 3 {
      BlockedBetween(w, m, content, approved, r);
    } else {
      NewReturned(w.store, m, content, approved, r);
    }
  }

  /** One or two writes leave what verify_pending reads as it was. */
  lemma OldSurvives(w: World, m: Manifest, content: Bytes, k: nat, approved: bool, r: Reading)
    requires Inv(w) && Carries(content, m) && k <= 2
    ensures VerifyPending(AfterWrites(w.store, m, content, k), approved, r)
            == VerifyPending(w.store, approved, r)
  {
    if w.store.pending.Some? {
      var before := PendingPrepared(w);
      var n := NameOf(before);
      if n == NameOf(m) {
        SameBytes(w.store.artifacts[n], content);
        SameDigestIff(m, before);
      }
      SameReads(w.store, AfterWrites(w.store, m, content, k), approved, r);
    }
  }

  /** verify_pending reads policy, high-water, pending, and the two files pending names. */
  lemma SameReads(s: Store, t: Store, approved: bool, r: Reading)
    requires s.policy == t.policy && s.high == t.high && s.pending == t.pending
    requires s.pending.Some? ==>
               var n := s.pending.value.artifact;
               && n in s.artifacts && n in t.artifacts && s.artifacts[n] == t.artifacts[n]
               && n in s.sidecars && n in t.sidecars && s.sidecars[n] == t.sidecars[n]
    ensures VerifyPending(s, approved, r) == VerifyPending(t, approved, r)
  {
  }

  lemma BlockedBetween(w: World, m: Manifest, content: Bytes, approved: bool, r: Reading)
    requires Inv(w)
    ensures var result := VerifyPending(AfterWrites(w.store, m, content, 3), approved, r);
            && (w.store.pending != Some(PendingOf(m)) ==> result.Err?)
            && (result.Ok? ==> result.value == NameOf(m))
  {
    if w.store.pending.Some? {
      var before := PendingPrepared(w);
    }
  }

  lemma NewReturned(s: Store, m: Manifest, content: Bytes, approved: bool, r: Reading)
    requires Passed(m) && Carries(content, m)
    ensures var result := VerifyPending(AfterWrites(s, m, content, 4), approved, r);
            && (result.Ok? ==> result.value == NameOf(m))
            && (result.Ok? <==> approved && Favourable(m, s.policy, r))
  {
    ReadsSidecar(AfterWrites(s, m, content, 4), m, approved, r);
  }
}
