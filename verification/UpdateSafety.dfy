/** Safety of the update store over every run. */
module UpdateSafety {
  import opened Wrappers
  import opened Octets
  import opened ManifestText
  import opened ReleaseManifest
  import opened UpdateStore

  predicate PastLock(p: Phase) { p != Checked }
  predicate PastCopy(p: Phase) { PastLock(p) && p != Holding }
  predicate PastConsent(p: Phase) { PastCopy(p) && p != Copied }
  predicate PastMove(p: Phase) { PastConsent(p) && p != Consenting }
  predicate PastNote(p: Phase) { PastMove(p) && p != Moved }

  /** A later high-water record may follow an earlier one. */
  predicate MayFollow(a: HighWater, b: HighWater) {
    && a.sequence <= b.sequence
    && !VersionLess(b.productVersion, a.productVersion)
    && (a.sequence == b.sequence ==> a.digest == b.digest)
  }

  ghost predicate Follows(accepted: seq<Manifest>) {
    && (forall i :: 0 <= i < |accepted| ==> Passed(accepted[i]))
    && (forall i, j :: 0 <= i <= j < |accepted| ==> MayFollow(HighOf(accepted[i]), HighOf(accepted[j])))
  }

  ghost predicate HistoryInv(w: World) {
    && Follows(w.accepted)
    && (w.store.high == if w.accepted == [] then None else Some(HighOf(w.accepted[|w.accepted| - 1])))
  }

  /** An accepted manifest's artifact and sidecar are in place, complete and unaltered. */
  ghost predicate Prepared(s: Store, m: Manifest) {
    && NameOf(m) in s.artifacts && Carries(s.artifacts[NameOf(m)], m)
    && NameOf(m) in s.sidecars && s.sidecars[NameOf(m)] == SidecarOf(m)
  }

  /** Pending stands for an accepted manifest. */
  ghost predicate PendingAccepted(w: World) {
    w.store.pending.Some? ==>
      exists i :: 0 <= i < |w.accepted| && w.store.pending.value == PendingOf(w.accepted[i])
  }

  ghost predicate StoreInv(w: World) {
    var s := w.store;
    && |s.artifacts| <= 2
    && (forall n :: n in s.artifacts ==> FileSha(s.artifacts[n]) == n.digest.content.file)
    && (forall i :: 0 <= i < |w.accepted| ==> Prepared(s, w.accepted[i]))
    && PendingAccepted(w)
  }

  ghost predicate RunInv(w: World, id: nat) {
    id in w.runs ==>
      var r := w.runs[id];
      && MayBegin(r.initial, r.approved)
      && r.initial.revision <= w.store.policy.revision
      && (r.initial.revision == w.store.policy.revision ==> r.initial == w.store.policy)
      && ((r.Running? && PastLock(r.phase)) <==> w.prepareLock == Some(id))
      && ((r.Running? && PastConsent(r.phase)) <==> w.policyLock == Some(id))
      && (r.Running? ==>
          && Passed(r.value)
          && (PastLock(r.phase) ==> NoRollback(w.store.high, r.value) && WithinLimit(w.store, r.value))
          && (PastCopy(r.phase) ==> Carries(r.content, r.value))
          && (PastConsent(r.phase) ==> w.store.policy == r.initial)
          && (PastMove(r.phase) ==> NameOf(r.value) in w.store.artifacts
                                    && w.store.artifacts[NameOf(r.value)] == r.content)
          && (PastNote(r.phase) ==> NameOf(r.value) in w.store.sidecars
                                    && w.store.sidecars[NameOf(r.value)] == SidecarOf(r.value))
          && (r.phase == Raised ==> w.store.high == Some(HighOf(r.value))))
  }

  ghost predicate Inv(w: World) {
    && HistoryInv(w) && StoreInv(w)
    && (w.prepareLock.Some? ==> w.prepareLock.value in w.runs)
    && (w.policyLock.Some? ==> w.policyLock.value in w.runs)
    && forall id :: RunInv(w, id)
  }

  lemma InitialHasInv(w: World)
    requires Initial(w)
    ensures Inv(w)
  {
  }

  lemma FollowsTransitive(a: Manifest, b: Manifest, c: Manifest)
    requires Passed(a) && Passed(b) && Passed(c)
    requires MayFollow(HighOf(a), HighOf(b)) && MayFollow(HighOf(b), HighOf(c))
    ensures MayFollow(HighOf(a), HighOf(c))
  {
  }

  lemma OneMoreFollows(accepted: seq<Manifest>, m: Manifest)
    requires Follows(accepted) && Passed(m)
    requires accepted != [] ==> MayFollow(HighOf(accepted[|accepted| - 1]), HighOf(m))
    ensures Follows(accepted + [m])
  {
    var all := accepted + [m];
    forall i, j | 0 <= i <= j < |all| ensures MayFollow(HighOf(all[i]), HighOf(all[j])) {
      if i < |accepted| && j == |accepted| { FollowsTransitive(all[i], accepted[|accepted| - 1], m); }
    }
  }

  /** The high-water write appends a manifest that may follow every earlier one. */
  lemma RaiseKeepsHistory(w: World, id: nat)
    requires Inv(w) && Enabled(w, Raise(id))
    ensures HistoryInv(Next(w, Raise(id)))
  {
    assert RunInv(w, id);
    OneMoreFollows(w.accepted, w.runs[id].value);
  }

  lemma HistoryUntouched(w: World, a: Action)
    requires HistoryInv(w) && Enabled(w, a) && !a.Raise?
    ensures HistoryInv(Next(w, a))
  {
    var v := Next(w, a);
    assert v.accepted == w.accepted && v.store.high == w.store.high;
  }

  predicate Concerns(a: Action, id: nat) {
    !a.SetPolicy? && !a.ChangeTrust? && a.id == id
  }

  /** A run keeps its invariant over another run's action. */
  lemma OthersKeepRunInv(w: World, a: Action, id: nat)
    requires Enabled(w, a) && RunInv(w, id) && !Concerns(a, id)
    requires !a.SetPolicy? && !a.ChangeTrust? ==> RunInv(w, a.id)
    ensures RunInv(Next(w, a), id)
  {
  }

  /** A run keeps its invariant over its own action. */
  lemma SelfKeepsRunInv(w: World, a: Action, id: nat)
    requires Enabled(w, a) && RunInv(w, id) && Concerns(a, id)
    requires w.prepareLock.Some? ==> w.prepareLock.value in w.runs
    requires w.policyLock.Some? ==> w.policyLock.value in w.runs
    ensures RunInv(Next(w, a), id)
  {
    match a
    case Move(_) => MoveKeepsRunInv(w, id);
    case Note(_) => NoteKeepsRunInv(w, id);
    case Raise(_) => RaiseKeepsRunInv(w, id);
    case Verify(_, file, current, now) => VerifyKeepsRunInv(w, id, file, current, now);
    case Finish(_) =>
    case Die(_) =>
    case _ => ChecksKeepRunInv(w, a, id);
  }

  lemma MoveKeepsRunInv(w: World, id: nat)
    requires Enabled(w, Move(id)) && RunInv(w, id)
    ensures RunInv(Next(w, Move(id)), id)
  {
  }

  lemma NoteKeepsRunInv(w: World, id: nat)
    requires Enabled(w, Note(id)) && RunInv(w, id)
    ensures RunInv(Next(w, Note(id)), id)
  {
  }

  lemma RaiseKeepsRunInv(w: World, id: nat)
    requires Enabled(w, Raise(id)) && RunInv(w, id)
    ensures RunInv(Next(w, Raise(id)), id)
  {
  }

  lemma VerifyKeepsRunInv(w: World, id: nat, file: ManifestFile, current: string, now: int)
    requires Enabled(w, Verify(id, file, current, now)) && RunInv(w, id)
    ensures RunInv(Next(w, Verify(id, file, current, now)), id)
  {
    AcceptedHasPassed(file, w.trust.value, current, now);
  }

  lemma ChecksKeepRunInv(w: World, a: Action, id: nat)
    requires Enabled(w, a) && RunInv(w, id) && Concerns(a, id)
    requires a.Begin? || a.Lock? || a.Copy? || a.Consent?
    requires w.prepareLock.Some? ==> w.prepareLock.value in w.runs
    requires w.policyLock.Some? ==> w.policyLock.value in w.runs
    ensures RunInv(Next(w, a), id)
  {
  }

  lemma RunsKeepInv(w: World, a: Action)
    requires Inv(w) && Enabled(w, a)
    ensures forall id :: RunInv(Next(w, a), id)
  {
    forall id ensures RunInv(Next(w, a), id) {
      assert RunInv(w, id);
      if Concerns(a, id) {
        SelfKeepsRunInv(w, a, id);
      } else {
        if !a.SetPolicy? && !a.ChangeTrust? { assert RunInv(w, a.id); }
        OthersKeepRunInv(w, a, id);
      }
    }
  }

  /** Bytes of one digest are the same bytes. */
  lemma SameBytes(a: Bytes, b: Bytes)
    requires FileSha(a) == FileSha(b)
    ensures a == b
  {
  }

  /** A candidate replaces an artifact of the same name by the same bytes. */
  lemma MoveKeepsArtifacts(w: World, id: nat)
    requires Inv(w) && Enabled(w, Move(id))
    ensures var v := Next(w, Move(id)).store;
            && v == w.store.(artifacts := v.artifacts)
            && |v.artifacts| <= 2
            && (forall n :: n in w.store.artifacts ==> n in v.artifacts && v.artifacts[n] == w.store.artifacts[n])
            && (forall n :: n in v.artifacts ==> FileSha(v.artifacts[n]) == n.digest.content.file)
  {
    assert RunInv(w, id);
    var v := Next(w, Move(id));
    var n := NameOf(w.runs[id].value);
    assert v.store.artifacts.Keys == w.store.artifacts.Keys + {n};
    if n in w.store.artifacts { SameBytes(w.store.artifacts[n], w.runs[id].content); }
  }

  lemma MoveKeepsStore(w: World, id: nat)
    requires Inv(w) && Enabled(w, Move(id))
    ensures StoreInv(Next(w, Move(id)))
  {
    MoveKeepsArtifacts(w, id);
    var v := Next(w, Move(id));
    forall i | 0 <= i < |v.accepted| ensures Prepared(v.store, v.accepted[i]) {
      assert Prepared(w.store, w.accepted[i]);
    }
  }

  /** A sidecar replaces one of the same name by the same file. */
  lemma NoteKeepsStore(w: World, id: nat)
    requires Inv(w) && Enabled(w, Note(id))
    ensures StoreInv(Next(w, Note(id)))
  {
    var v := Next(w, Note(id));
    var m := w.runs[id].value;
    forall i | 0 <= i < |v.accepted| ensures Prepared(v.store, v.accepted[i]) {
      assert Prepared(w.store, w.accepted[i]);
      SameDigestIff(m, w.accepted[i]);
    }
  }

  /** What is accepted is in place by then. */
  lemma RaiseKeepsStore(w: World, id: nat)
    requires Inv(w) && Enabled(w, Raise(id))
    ensures StoreInv(Next(w, Raise(id)))
  {
    var v := Next(w, Raise(id));
    assert RunInv(w, id);
    forall i | 0 <= i < |v.accepted| ensures Prepared(v.store, v.accepted[i]) {
      if i < |w.accepted| { assert Prepared(w.store, w.accepted[i]); }
    }
    PendingStays(w, v);
  }

  lemma PendingStays(w: World, v: World)
    requires PendingAccepted(w) && v.store.pending == w.store.pending && w.accepted <= v.accepted
    ensures PendingAccepted(v)
  {
    if w.store.pending.Some? {
      var i :| 0 <= i < |w.accepted| && w.store.pending.value == PendingOf(w.accepted[i]);
      assert v.accepted[i] == w.accepted[i];
    }
  }

  /** What becomes pending was accepted last, or is called the same. */
  lemma FinishKeepsStore(w: World, id: nat)
    requires Inv(w) && Enabled(w, Finish(id))
    ensures StoreInv(Next(w, Finish(id)))
  {
    var v := Next(w, Finish(id));
    assert RunInv(w, id);
    var last := |w.accepted| - 1;
    assert HighOf(w.accepted[last]) == HighOf(w.runs[id].value);
    assert v.store.pending.value == PendingOf(v.accepted[last]);
    forall i | 0 <= i < |v.accepted| ensures Prepared(v.store, v.accepted[i]) {
      assert Prepared(w.store, w.accepted[i]);
    }
  }

  lemma FilesUntouched(w: World, a: Action)
    requires StoreInv(w) && Enabled(w, a) && !a.Move? && !a.Note? && !a.Raise? && !a.Finish?
    ensures StoreInv(Next(w, a))
  {
    var v := Next(w, a);
    assert v.store == w.store.(policy := v.store.policy) && v.accepted == w.accepted;
    forall i | 0 <= i < |v.accepted| ensures Prepared(v.store, v.accepted[i]) {
      assert Prepared(w.store, w.accepted[i]);
    }
  }

  lemma StepKeepsInv(w: World, a: Action)
    requires Inv(w) && Enabled(w, a)
    ensures Inv(Next(w, a))
  {
    RunsKeepInv(w, a);
    HoldersStayAlive(w, a);
    WritesKeepInv(w, a);
  }

  lemma HoldersStayAlive(w: World, a: Action)
    requires Inv(w) && Enabled(w, a)
    ensures var v := Next(w, a);
            && (v.prepareLock.Some? ==> v.prepareLock.value in v.runs)
            && (v.policyLock.Some? ==> v.policyLock.value in v.runs)
  {
  }

  lemma WritesKeepInv(w: World, a: Action)
    requires Inv(w) && Enabled(w, a)
    ensures HistoryInv(Next(w, a)) && StoreInv(Next(w, a))
  {
    match a
    case Raise(id) => RaiseKeepsStore(w, id); RaiseKeepsHistory(w, id);
    case _ => HistoryUntouched(w, a); OtherWritesKeepStore(w, a);
  }

  lemma OtherWritesKeepStore(w: World, a: Action)
    requires Inv(w) && Enabled(w, a) && !a.Raise?
    ensures StoreInv(Next(w, a))
  {
    match a
    case Move(id) => MoveKeepsStore(w, id);
    case Note(id) => NoteKeepsStore(w, id);
    case Finish(id) => FinishKeepsStore(w, id);
    case _ => FilesUntouched(w, a);
  }

  lemma AnyStepKeepsInv(w: World, v: World)
    requires Inv(w) && Step(w, v)
    ensures Inv(v)
  {
    var a :| Enabled(w, a) && v == Next(w, a);
    StepKeepsInv(w, a);
  }

  lemma {:induction false} RunKeepsInv(trace: seq<World>, i: nat)
    requires IsRun(trace) && Inv(trace[0]) && i < |trace|
    ensures Inv(trace[i])
  {
    if i > 0 {
      RunKeepsInv(trace, i - 1);
      assert Step(trace[i - 1], trace[i - 1 + 1]);
      AnyStepKeepsInv(trace[i - 1], trace[i]);
    }
  }
}
