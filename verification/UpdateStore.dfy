/** The verified update store: concurrent `set_policy`, `prepare` and trust changes, each atomic file
    write one action, with a death possible after any of them. */
module UpdateStore {
  import opened Wrappers
  import opened Octets
  import opened ManifestText
  import opened ReleaseManifest

  datatype Mode = Ask | Auto

  /** Revision 0 stands for the absent policy file. */
  datatype Policy = Policy(mode: Mode, revision: nat)

  /** The files of the state directory that outlive a run. */
  datatype Store = Store(policy: Policy, high: Option<HighWater>, pending: Option<Pending>,
                         artifacts: map<Name, Bytes>, sidecars: map<Name, ManifestFile>)

  /** How far a `prepare` has got: lock, candidate, consent, then the four writes. */
  datatype Phase = Checked | Holding | Copied | Consenting | Moved | Noted | Raised

  datatype Prepare =
    | Begun(initial: Policy, approved: bool)
    | Running(initial: Policy, approved: bool, trust: Trust, value: Manifest, content: Bytes, phase: Phase)

  /** `accepted` is history: every manifest whose high-water record was written, in order. */
  datatype World = World(store: Store, trust: Option<Trust>, runs: map<nat, Prepare>,
                         prepareLock: Option<nat>, policyLock: Option<nat>, accepted: seq<Manifest>)

  datatype Action =
    | SetPolicy(mode: Mode, consent: bool)
    | ChangeTrust(trust: Option<Trust>)
    | Begin(id: nat, approved: bool)
    | Verify(id: nat, file: ManifestFile, current: string, now: int)
    | Lock(id: nat)
    | Copy(id: nat, content: Bytes)
    | Consent(id: nat)
    | Move(id: nat)
    | Note(id: nat)
    | Raise(id: nat)
    | Finish(id: nat)
    | Die(id: nat)

  predicate MayBegin(p: Policy, approved: bool) {
    approved || p.mode == Auto
  }

  /** At most two prepared artifacts, unless this very one is already there. */
  predicate WithinLimit(s: Store, m: Manifest) {
    |s.artifacts| < 2 || NameOf(m) in s.artifacts
  }

  /** Neither the sequence nor the version goes back, and a sequence keeps its manifest. */
  predicate NoRollback(high: Option<HighWater>, m: Manifest) {
    high.Some? ==>
      && m.sequence >= high.value.sequence
      && !VersionLess(m.productVersion, high.value.productVersion)
      && (m.sequence == high.value.sequence ==> DigestOf(m) == high.value.digest)
  }

  predicate InPhase(w: World, id: nat, p: Phase) {
    id in w.runs && w.runs[id].Running? && w.runs[id].phase == p
  }

  predicate Enabled(w: World, a: Action) {
    match a
    case SetPolicy(mode, consent) =>
      w.policyLock == None && (mode == Auto ==> consent) && w.store.policy.revision + 1 < TWO63
    case ChangeTrust(_) => true
    case Begin(id, approved) => id !in w.runs && MayBegin(w.store.policy, approved)
    case Verify(id, file, current, now) =>
      && id in w.runs && w.runs[id].Begun? && w.trust.Some?
      && CheckFile(file, w.trust.value, current, now) == None
    case Lock(id) =>
      && InPhase(w, id, Checked) && w.prepareLock == None
      && WithinLimit(w.store, w.runs[id].value) && NoRollback(w.store.high, w.runs[id].value)
    case Copy(id, content) => InPhase(w, id, Holding) && Carries(content, w.runs[id].value)
    case Consent(id) =>
      && InPhase(w, id, Copied) && w.policyLock == None
      && w.store.policy == w.runs[id].initial && w.trust == Some(w.runs[id].trust)
    case Move(id) => InPhase(w, id, Consenting)
    case Note(id) => InPhase(w, id, Moved)
    case Raise(id) => InPhase(w, id, Noted)
    case Finish(id) => InPhase(w, id, Raised)
    case Die(id) => id in w.runs
  }

  function To(w: World, id: nat, p: Phase): World
    requires id in w.runs && w.runs[id].Running?
  {
    w.(runs := w.runs[id := w.runs[id].(phase := p)])
  }

  /** The run ends, normally or not, and the locks it held are released. */
  function Leave(w: World, id: nat): World {
    w.(runs := w.runs - {id},
       prepareLock := if w.prepareLock == Some(id) then None else w.prepareLock,
       policyLock := if w.policyLock == Some(id) then None else w.policyLock)
  }

  // The four writes of the commit, in order.
  function MoveArtifact(s: Store, m: Manifest, content: Bytes): Store {
    s.(artifacts := s.artifacts[NameOf(m) := content])
  }
  function WriteSidecar(s: Store, m: Manifest): Store { s.(sidecars := s.sidecars[NameOf(m) := SidecarOf(m)]) }
  function RaiseHigh(s: Store, m: Manifest): Store { s.(high := Some(HighOf(m))) }
  function WritePending(s: Store, m: Manifest): Store { s.(pending := Some(PendingOf(m))) }

  function Next(w: World, a: Action): World
    requires Enabled(w, a)
  {
    match a
    case SetPolicy(mode, _) =>
      w.(store := w.store.(policy := Policy(mode, w.store.policy.revision + 1)))
    case ChangeTrust(t) => w.(trust := t)
    case Begin(id, approved) => w.(runs := w.runs[id := Begun(w.store.policy, approved)])
    case Verify(id, file, _, _) =>
      var r := w.runs[id];
      w.(runs := w.runs[id := Running(r.initial, r.approved, w.trust.value, file.manifest, [], Checked)])
    case Lock(id) => To(w, id, Holding).(prepareLock := Some(id))
    case Copy(id, content) =>
      w.(runs := w.runs[id := w.runs[id].(content := content, phase := Copied)])
    case Consent(id) => To(w, id, Consenting).(policyLock := Some(id))
    case Move(id) =>
      To(w, id, Moved).(store := MoveArtifact(w.store, w.runs[id].value, w.runs[id].content))
    case Note(id) => To(w, id, Noted).(store := WriteSidecar(w.store, w.runs[id].value))
    case Raise(id) =>
      To(w, id, Raised).(store := RaiseHigh(w.store, w.runs[id].value),
                         accepted := w.accepted + [w.runs[id].value])
    case Finish(id) => Leave(w, id).(store := WritePending(w.store, w.runs[id].value))
    case Die(id) => Leave(w, id)
  }

  ghost predicate Step(w: World, v: World) {
    exists a :: Enabled(w, a) && v == Next(w, a)
  }

  ghost predicate IsRun(trace: seq<World>) {
    |trace| > 0 && forall i :: 0 <= i < |trace| - 1 ==> Step(trace[i], trace[i + 1])
  }

  ghost predicate Initial(w: World) {
    && w.store == Store(Policy(Ask, 0), None, None, map[], map[])
    && w.runs == map[] && w.prepareLock == None && w.policyLock == None && w.accepted == []
  }

  // ----- verify_pending -----------------------------------------------------------------------

  /** What `verify_pending` reads: the policy and the trust file twice, the clock, and the verdict of
      the operating system on the artifact's own signature. */
  datatype Reading = Reading(laterPolicy: Policy, trust: Option<Trust>, laterTrust: Option<Trust>,
                             current: string, now: int, windowsTrusts: bool)

  function VerifyPending(s: Store, approved: bool, r: Reading): Result<Name, Error> {
    if !approved then Err(ConsentRequired)
    else if r.trust == None then Err(TrustNotConfigured)
    else if s.pending == None then Err(InvalidMetadata)
    else
      var pending := s.pending.value;
      if pending.artifact !in s.sidecars then Err(InvalidMetadata)
      else
        var value := s.sidecars[pending.artifact].manifest;
        var bad := CheckFile(s.sidecars[pending.artifact], r.trust.value, r.current, r.now);
        if bad.Some? then Err(bad.value)
        else if pending != PendingOf(value).(artifact := pending.artifact)
                || s.high != Some(HighOf(value)) then Err(StateMismatch)
        else if pending.artifact !in s.artifacts then Err(InvalidMetadata)
        else if |s.artifacts[pending.artifact]| > value.size then Err(SizeMismatch)
        else if !Carries(s.artifacts[pending.artifact], value) then Err(HashMismatch)
        else if !r.windowsTrusts then Err(WindowsTrustFailed)
        else if r.laterPolicy != s.policy || r.laterTrust != r.trust then Err(ConsentOrTrustChanged)
        else Ok(pending.artifact)
  }
}
