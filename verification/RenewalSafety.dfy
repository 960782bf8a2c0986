/** Safety of the renewal protocol over every run. */
module RenewalSafety {
  import opened Fleet
  import opened Renewal
  import Publication

  /** The newest generation in the store: the journal's, or the one signed but not yet adopted. */
  function Top(s: System): int {
    if CurrentGeneration(s) + 1 in s.store then CurrentGeneration(s) + 1 else CurrentGeneration(s)
  }

  ghost predicate StoreInv(s: System) {
    var cur := CurrentGeneration(s);
    && 1 <= s.initial.generation <= cur
    && (forall g :: g in s.store <==> s.initial.generation <= g <= Top(s))
    && (forall g :: g in s.store ==> s.store[g].generation == g && SameFleet(s.store[g], s.initial))
    && s.store[s.initial.generation] == s.initial
  }

  ghost predicate JournalInv(s: System) {
    s.journal.Some? ==>
      var j := s.journal.value;
      && j.currentGeneration in s.store
      && j.currentSha == Sha256(s.store[j.currentGeneration])
      && (forall i :: i in j.fleet ==> i < FLEET_SIZE)
  }

  /** A request in flight carries a stored bundle no newer than the adopted one. */
  predicate FromStore(s: System, r: Request) {
    && r.generation in s.store
    && r.generation <= CurrentGeneration(s)
    && r.files == s.store[r.generation]
  }

  ghost predicate NodeOk(s: System, n: Publication.Node) {
    && Publication.Inv(n)
    && n.installed.generation in s.store
    && n.installed == s.store[n.installed.generation]
    && s.floor <= n.installed.generation <= CurrentGeneration(s)
    && (forall id :: id in n.handlers ==> FromStore(s, n.handlers[id].request))
  }

  ghost predicate NodeInv(s: System, i: nat)
    requires i < |s.nodes|
  {
    NodeOk(s, s.nodes[i])
  }

  ghost predicate MarksInv(s: System, fleet: map<nat, Mark>) {
    forall i :: i in fleet ==>
      i < |s.nodes| && s.nodes[i].installed.generation == CurrentGeneration(s)
  }

  ghost predicate MemoryInv(s: System) {
    s.memory.Active? ==>
      var m := s.memory;
      && m.now <= s.clock
      && m.tip.generation == CurrentGeneration(s)
      && m.tip.generation in s.store && m.tip == s.store[m.tip.generation]
      && m.journal.currentGeneration == m.tip.generation
      && m.journal.currentSha == Sha256(m.tip)
      && (m.journal.complete ==> s.floor == CurrentGeneration(s))
      && MarksInv(s, m.journal.fleet)
      && match m.phase
         case Loaded => true
         case Collected(_) => true
         case Reviewed(_) => Top(s) == CurrentGeneration(s)
         case Signed(c) => c.generation == CurrentGeneration(s) + 1
                           && c.generation in s.store && c == s.store[c.generation]
         case Sending(i) => i <= FLEET_SIZE
         case Awaiting(i) => i < FLEET_SIZE
         case Checking(i) => i <= FLEET_SIZE && forall k :: 0 <= k < i ==>
           k < |s.nodes| && s.nodes[k].installed.generation == CurrentGeneration(s)
         case Finished => true
  }

  ghost predicate SpreadInv(s: System) {
    && s.initial.generation <= s.floor <= CurrentGeneration(s)
    && (CompleteOnDisk(s) ==> s.floor == CurrentGeneration(s))
    && Top(s) - s.floor <= 1 + s.lapses
  }

  ghost predicate Inv(s: System) {
    && |s.nodes| == FLEET_SIZE
    && StoreInv(s) && JournalInv(s) && MemoryInv(s) && SpreadInv(s)
    && (s.journal.Some? ==> MarksInv(s, s.journal.value.fleet))
    && (forall i :: 0 <= i < |s.nodes| ==> NodeInv(s, i))
  }

  lemma InitialHasInv(s: System)
    requires Initial(s)
    ensures Inv(s)
  {
  }

  /** The coordinator's own journal and bundle checks never reject a reachable state. */
  lemma AlwaysLoadable(s: System)
    requires Inv(s)
    ensures Loadable(s)
  {
  }

  /** What is loaded is the bundle that the journal names, of the first bundle's fleet and not older. */
  lemma LoadChecks(s: System)
    requires Loadable(s)
    ensures var g := if s.journal.Some? then s.journal.value.currentGeneration else s.initial.generation;
            && g in s.store && s.store[g].generation == g >= s.initial.generation
            && s.store[g].peers == s.initial.peers && s.store[g].policy == s.initial.policy
            && (s.journal.Some? ==> s.journal.value.currentSha == Sha256(s.store[g]))
  {
  }

  /** A node may change to anything in order that is no older. */
  lemma NodeReplaced(s: System, i: nat, n: Publication.Node)
    requires Inv(s) && i < |s.nodes| && NodeOk(s, n)
    requires s.nodes[i].installed.generation <= n.installed.generation
    ensures Inv(s.(nodes := s.nodes[i := n]))
  {
    var t := s.(nodes := s.nodes[i := n]);
    assert Top(t) == Top(s);
    forall k | 0 <= k < |t.nodes| ensures NodeInv(t, k) { assert NodeInv(s, k) && NodeOk(s, n); }
  }

  lemma NodeActionKeepsInv(s: System, i: nat, act: Publication.Action)
    requires Inv(s) && Enabled(s, AtNode(i, act))
    ensures Inv(Next(s, AtNode(i, act)))
  {
    var n := s.nodes[i];
    assert NodeInv(s, i);
    Publication.StepKeepsInv(n, act);
    Publication.StepAdvances(n, act);
    assert FromStore(s, n.handlers[act.id].request);
    NodeReplaced(s, i, Publication.Next(n, act));
  }

  lemma SendKeepsInv(s: System, id: nat)
    requires Inv(s) && Enabled(s, Send(id))
    ensures Inv(Next(s, Send(id)))
  {
    var t := Next(s, Send(id));
    var i := s.memory.phase.next;
    assert NodeInv(s, i);
    Publication.StepKeepsInv(s.nodes[i], Publication.Arrive(id, DeployRequest(s.memory.tip)));
    forall k | 0 <= k < |t.nodes| ensures NodeInv(t, k) { assert NodeInv(s, k); }
  }

  /** Actions that touch neither disk nor nodes. */
  predicate MemoryOnly(a: Action) {
    a.Tick? || a.Load? || a.Wait? || a.Collect? || a.KeepTip? || a.Proceed? || a.Release? || a.Crash?
  }

  lemma MemoryActionKeepsInv(s: System, a: Action)
    requires Inv(s) && Enabled(s, a) && MemoryOnly(a)
    ensures Inv(Next(s, a))
  {
    var t := Next(s, a);
    assert Top(t) == Top(s) && CurrentGeneration(t) == CurrentGeneration(s);
    forall k | 0 <= k < |t.nodes| ensures NodeInv(t, k) { assert NodeInv(s, k); }
  }

  lemma SignKeepsInv(s: System, nonce: seq<int>)
    requires Inv(s) && Enabled(s, Sign(nonce))
    ensures Inv(Next(s, Sign(nonce)))
  {
    var t := Next(s, Sign(nonce));
    assert Top(s) == CurrentGeneration(s) && Top(t) == CurrentGeneration(t) + 1;
    forall k | 0 <= k < |t.nodes| ensures NodeInv(t, k) { assert NodeInv(s, k); }
  }

  /** Adoption moves the journal to the one stored successor. */
  lemma AdoptionKeepsInv(s: System, a: Action)
    requires Inv(s) && Enabled(s, a) && (a.AdoptExisting? || a.AdoptSigned?)
    ensures Inv(Next(s, a))
  {
    var t := Next(s, a);
    assert Top(s) == CurrentGeneration(s) + 1;
    assert CurrentGeneration(t) == CurrentGeneration(s) + 1 && Top(t) == Top(s);
    forall k | 0 <= k < |t.nodes| ensures NodeInv(t, k) { assert NodeInv(s, k); }
  }

  lemma JournalActionKeepsInv(s: System, a: Action)
    requires Inv(s) && Enabled(s, a)
    requires a.NotDue? || a.Fail? || a.Acknowledge? || a.Check?
    ensures Inv(Next(s, a))
  {
    var t := Next(s, a);
    assert CurrentGeneration(t) == CurrentGeneration(s) && Top(t) == Top(s);
    if a.Acknowledge? || a.Check? {
      assert NodeInv(s, s.memory.phase.next);
    }
    forall k | 0 <= k < |t.nodes| ensures NodeInv(t, k) { assert NodeInv(s, k); }
  }

  /** All four nodes were seen at the tip and none can have moved: the floor may rise to it. */
  lemma CompleteKeepsInv(s: System)
    requires Inv(s) && Enabled(s, Complete)
    ensures Inv(Next(s, Complete))
  {
    var t := Next(s, Complete);
    assert CurrentGeneration(t) == CurrentGeneration(s) && Top(t) == Top(s);
    forall k | 0 <= k < |t.nodes| ensures NodeInv(t, k) { assert NodeInv(s, k); }
  }

  lemma StepKeepsInv(s: System, a: Action)
    requires Inv(s) && Enabled(s, a)
    ensures Inv(Next(s, a))
  {
    match a
    case AtNode(i, act) => NodeActionKeepsInv(s, i, act);
    case Send(id) => SendKeepsInv(s, id);
    case Sign(nonce) => SignKeepsInv(s, nonce);
    case AdoptExisting => AdoptionKeepsInv(s, a);
    case AdoptSigned => AdoptionKeepsInv(s, a);
    case Complete => CompleteKeepsInv(s);
    case _ =>
      if MemoryOnly(a) { MemoryActionKeepsInv(s, a); } else { JournalActionKeepsInv(s, a); }
  }

  lemma {:induction false} RunKeepsInv(trace: seq<System>, i: nat)
    requires IsRun(trace) && Inv(trace[0]) && i < |trace|
    ensures Inv(trace[i])
  {
    if i > 0 {
      RunKeepsInv(trace, i - 1);
      assert Step(trace[i - 1], trace[i - 1 + 1]);
      var a :| Enabled(trace[i - 1], a) && trace[i] == Next(trace[i - 1], a);
      StepKeepsInv(trace[i - 1], a);
    }
  }

  // ----- What any two states of a run agree on ------------------------------------------------

  ghost predicate Extends(s: System, t: System) {
    && t.initial == s.initial && s.clock <= t.clock
    && CurrentGeneration(s) <= CurrentGeneration(t)
    && s.floor <= t.floor
    && (forall g :: g in s.store ==> g in t.store && t.store[g] == s.store[g])
    && |s.nodes| == |t.nodes|
    && (forall i :: 0 <= i < |s.nodes| ==>
          s.nodes[i].installed.generation <= t.nodes[i].installed.generation)
  }

  lemma StepExtends(s: System, a: Action)
    requires Inv(s) && Enabled(s, a)
    ensures Extends(s, Next(s, a))
  {
    if a.AtNode? {
      assert NodeInv(s, a.node);
      Publication.StepAdvances(s.nodes[a.node], a.act);
    }
  }

  lemma ExtendsTransitive(s: System, t: System, u: System)
    requires Extends(s, t) && Extends(t, u)
    ensures Extends(s, u)
  {
  }

  lemma AnyStepExtends(s: System, t: System)
    requires Inv(s) && Step(s, t)
    ensures Extends(s, t)
  {
    var a :| Enabled(s, a) && t == Next(s, a);
    StepExtends(s, a);
  }

  lemma {:induction false} ChainExtends(trace: seq<System>, i: nat, j: nat)
    requires forall k :: 0 <= k < |trace| - 1 ==> Extends(trace[k], trace[k + 1])
    requires i <= j < |trace|
    ensures Extends(trace[i], trace[j])
  {
    if i < j {
      ChainExtends(trace, i, j - 1);
      assert Extends(trace[j - 1], trace[j - 1 + 1]);
      ExtendsTransitive(trace[i], trace[j - 1], trace[j]);
    }
  }

  /** The store only grows, and the journal, every node and the completed floor never go back. */
  lemma RunExtends(trace: seq<System>, i: nat, j: nat)
    requires IsRun(trace) && Inv(trace[0]) && i <= j < |trace|
    ensures Extends(trace[i], trace[j])
  {
    forall k | 0 <= k < |trace| - 1 ensures Extends(trace[k], trace[k + 1]) {
      RunKeepsInv(trace, k);
      assert Step(trace[k], trace[k + 1]);
      AnyStepExtends(trace[k], trace[k + 1]);
    }
    ChainExtends(trace, i, j);
  }

  /** Some party holds, remembers or is sending content with digest `d` as generation `g`. */
  ghost predicate Binds(s: System, g: int, d: Digest) {
    || (g in s.store && d == Sha256(s.store[g]))
    || (s.journal.Some? && s.journal.value.currentGeneration == g && s.journal.value.currentSha == d)
    || (s.memory.Active? && s.memory.tip.generation == g && d == Sha256(s.memory.tip))
    || (exists i :: 0 <= i < |s.nodes| && s.nodes[i].installed.generation == g
                    && d == Sha256(s.nodes[i].installed))
    || (exists i, id :: 0 <= i < |s.nodes| && id in s.nodes[i].handlers
                        && s.nodes[i].handlers[id].request.generation == g
                        && d == s.nodes[i].handlers[id].request.digest)
  }

  /** Requests in flight name the digest of what they carry. */
  ghost predicate RequestsSealed(s: System) {
    forall i, id :: 0 <= i < |s.nodes| && id in s.nodes[i].handlers ==>
      s.nodes[i].handlers[id].request.digest == Sha256(s.nodes[i].handlers[id].request.files)
  }

  lemma StepKeepsSealed(s: System, a: Action)
    requires Inv(s) && Enabled(s, a) && RequestsSealed(s)
    ensures RequestsSealed(Next(s, a))
  {
  }

  lemma {:induction false} RunKeepsSealed(trace: seq<System>, i: nat)
    requires IsRun(trace) && Inv(trace[0]) && RequestsSealed(trace[0]) && i < |trace|
    ensures RequestsSealed(trace[i])
  {
    if i > 0 {
      RunKeepsSealed(trace, i - 1);
      RunKeepsInv(trace, i - 1);
      assert Step(trace[i - 1], trace[i - 1 + 1]);
      AnyStepKeepsSealed(trace[i - 1], trace[i]);
    }
  }

  lemma AnyStepKeepsSealed(s: System, t: System)
    requires Inv(s) && Step(s, t) && RequestsSealed(s)
    ensures RequestsSealed(t)
  {
    var a :| Enabled(s, a) && t == Next(s, a);
    StepKeepsSealed(s, a);
  }

  lemma BindingIsStored(s: System, g: int, d: Digest)
    requires Inv(s) && RequestsSealed(s) && Binds(s, g, d)
    ensures g in s.store && d == Sha256(s.store[g])
  {
    if exists i :: 0 <= i < |s.nodes| && s.nodes[i].installed.generation == g
                   && d == Sha256(s.nodes[i].installed) {
      var i :| 0 <= i < |s.nodes| && s.nodes[i].installed.generation == g
               && d == Sha256(s.nodes[i].installed);
      assert NodeInv(s, i);
    } else if exists i, id :: 0 <= i < |s.nodes| && id in s.nodes[i].handlers
                              && s.nodes[i].handlers[id].request.generation == g
                              && d == s.nodes[i].handlers[id].request.digest {
      var i, id :| 0 <= i < |s.nodes| && id in s.nodes[i].handlers
                   && s.nodes[i].handlers[id].request.generation == g
                   && d == s.nodes[i].handlers[id].request.digest;
      assert NodeInv(s, i);
      assert FromStore(s, s.nodes[i].handlers[id].request);
    }
  }

  /** No equivocation: over a whole run with crashes anywhere, at any two moments and for any two
      parties - store, journal, memory, node, request in flight - one number means one content. */
  lemma NoEquivocation(trace: seq<System>, i: nat, j: nat, g: int, d: Digest, e: Digest)
    requires IsRun(trace) && Initial(trace[0]) && i < |trace| && j < |trace|
    requires Binds(trace[i], g, d) && Binds(trace[j], g, e)
    ensures d == e
  {
    InitialHasInv(trace[0]);
    RunKeepsInv(trace, i);
    RunKeepsInv(trace, j);
    RunKeepsSealed(trace, i);
    RunKeepsSealed(trace, j);
    BindingIsStored(trace[i], g, d);
    BindingIsStored(trace[j], g, e);
    if i <= j { RunExtends(trace, i, j); } else { RunExtends(trace, j, i); }
  }

  // ----- Signing, completion and spread -------------------------------------------------------

  /** A generation is signed only when its predecessor is installed on every node or has expired,
      and never over an existing number. */
  lemma SignedOnlyAfterPredecessor(s: System, nonce: seq<int>)
    requires Inv(s) && Enabled(s, Sign(nonce))
    ensures s.memory.tip == s.store[CurrentGeneration(s)]
    ensures s.memory.tip.expiresAt <= s.clock
            || forall i :: 0 <= i < FLEET_SIZE ==> s.nodes[i].installed == s.memory.tip
    ensures Renewed(s.memory, s.clock, nonce).generation !in s.store
  {
    if s.memory.tip.expiresAt > s.clock {
      forall i | 0 <= i < FLEET_SIZE ensures s.nodes[i].installed == s.memory.tip {
        assert NodeInv(s, i);
      }
    }
  }

  /** `complete`, on disk or in memory, means every node runs exactly the journalled bundle. */
  lemma CompleteMeansDeployed(s: System, i: nat)
    requires Inv(s) && i < FLEET_SIZE
    requires CompleteOnDisk(s) || (s.memory.Active? && s.memory.journal.complete)
    ensures s.nodes[i].installed == s.store[CurrentGeneration(s)]
  {
    assert NodeInv(s, i);
  }

  /** A VERIFIED or DEPLOYED mark in the journal is true of the node it names. */
  lemma MarksAreTrue(s: System, i: nat)
    requires Inv(s) && s.journal.Some? && i in s.journal.value.fleet
    ensures i < FLEET_SIZE && s.nodes[i].installed == s.store[CurrentGeneration(s)]
  {
    assert NodeInv(s, i);
  }

  /** The checks `collect` makes on every report accept every reachable fleet. */
  lemma CollectAccepts(s: System, i: nat)
    requires Inv(s) && s.memory.Active? && i < FLEET_SIZE
    ensures var report := s.nodes[i].installed;
            && report.generation <= s.memory.tip.generation + 1
            && report.generation in s.store
            && Sha256(s.store[report.generation]) == Sha256(report)
  {
    assert NodeInv(s, i);
  }

  /** An invocation is looking at an incomplete bundle that has already expired. */
  predicate Lapsed(s: System) {
    && s.memory.Active? && !s.memory.journal.complete
    && s.memory.tip.expiresAt <= s.memory.now
  }

  lemma OnlyLapsesCount(s: System, t: System)
    requires Step(s, t) && !Lapsed(s)
    ensures t.lapses <= s.lapses
  {
  }

  lemma {:induction false} NoLapseMeansNone(trace: seq<System>, i: nat)
    requires IsRun(trace) && Initial(trace[0]) && i < |trace|
    requires forall k :: 0 <= k < i ==> !Lapsed(trace[k])
    ensures trace[i].lapses == 0
  {

    if i > 0 {
      NoLapseMeansNone(trace, i - 1);
      assert Step(trace[i - 1], trace[i - 1 + 1]) && !Lapsed(trace[i - 1]);
      OnlyLapsesCount(trace[i - 1], trace[i]);
    }
  }

  /** Any two nodes differ by at most one generation more than the number of lapses since the last
      completed generation. */
  lemma SpreadBound(trace: seq<System>, k: nat, i: nat, j: nat)
    requires IsRun(trace) && Initial(trace[0]) && k < |trace| && i < FLEET_SIZE && j < FLEET_SIZE
    ensures |trace[k].nodes| == FLEET_SIZE
    ensures trace[k].nodes[i].installed.generation - trace[k].nodes[j].installed.generation
            <= 1 + trace[k].lapses
  {
    InitialHasInv(trace[0]);
    RunKeepsInv(trace, k);
    assert NodeInv(trace[k], i) && NodeInv(trace[k], j);
  }

  /** While no bundle expires before it completes, the rollout never spans three generations. */
  lemma RolloutSpansTwoGenerations(trace: seq<System>, k: nat, i: nat, j: nat)
    requires IsRun(trace) && Initial(trace[0]) && k < |trace| && i < FLEET_SIZE && j < FLEET_SIZE
    requires forall l :: 0 <= l < k ==> !Lapsed(trace[l])
    ensures |trace[k].nodes| == FLEET_SIZE
    ensures -1 <= trace[k].nodes[i].installed.generation
                  - trace[k].nodes[j].installed.generation <= 1
  {
    NoLapseMeansNone(trace, k);
    SpreadBound(trace, k, i, j);
    SpreadBound(trace, k, j, i);
  }

  /** Identities and policy on every node are the initial bundle's, forever. */
  lemma FleetNeverChanges(trace: seq<System>, k: nat, i: nat)
    requires IsRun(trace) && Initial(trace[0]) && k < |trace| && i < FLEET_SIZE
    ensures |trace[k].nodes| == FLEET_SIZE
    ensures SameFleet(trace[k].nodes[i].installed, trace[0].initial)
  {
    InitialHasInv(trace[0]);
    RunKeepsInv(trace, k);
    RunExtends(trace, 0, k);
    assert NodeInv(trace[k], i);
  }
}
