/** The renewal protocol as a transition system: the coordinator's memory and journal, its store of
    signed bundles, the four nodes with their in-flight deploy handlers, and the clock.  Every
    action is one atomic write, one observation, one node action, or a crash. */
module Renewal {
  import opened Wrappers
  import opened Fleet
  import Publication

  const FLEET_SIZE: nat := 4

  datatype Mark = Deployed | Verified

  /** renewal-state.json, without its report-only fields. */
  datatype Journal = Journal(currentGeneration: int, currentSha: Digest, complete: bool,
                             fleet: map<nat, Mark>, failures: nat, nextRetry: int,
                             jitter: nat, windowStart: int)

  /** How far one invocation has got.  `Sending(i)` and `Checking(i)` are the two loops over nodes;
      `Awaiting(i)` is the deploy loop between handing the request to node i and its answer. */
  datatype Phase =
    | Loaded | Collected(shortest: int) | Reviewed(shortest: int) | Signed(signed: Config)
    | Sending(next: nat) | Awaiting(next: nat) | Checking(next: nat) | Finished

  datatype Memory = Idle | Active(tip: Config, journal: Journal, phase: Phase, now: int)

  /** `floor` and `lapses` are history only: the newest generation seen complete, and how many
      generations were signed since then because an incomplete one had expired. */
  datatype System = System(clock: int, initial: Config, journal: Option<Journal>,
                           store: map<int, Config>, nodes: seq<Publication.Node>, memory: Memory,
                           floor: int, lapses: nat)

  datatype Action =
    | Tick(seconds: nat)
    | Load(jitter: nat)
    | Wait
    | NotDue
    | Collect(shortest: int)
    | AdoptExisting
    | KeepTip
    | Sign(nonce: seq<int>)
    | AdoptSigned
    | Proceed
    | Send(id: nat)
    | Acknowledge
    | Check
    | Complete
    | Release
    | Fail(spread: nat)
    | Crash
    | AtNode(node: nat, act: Publication.Action)

  function Min(a: int, b: int): int { if a < b then a else b }
  function Max(a: int, b: int): int { if a < b then b else a }

  /** Seconds before expiry at which renewal begins; the source's `//` has positive operands. */
  function Window(c: Config): int {
    Min(21600, Max(600, (c.expiresAt - c.issuedAt) / 3))
  }

  function WindowStart(c: Config, jitter: nat): int {
    c.expiresAt - Window(c) - jitter
  }

  function CurrentGeneration(s: System): int {
    if s.journal.Some? then s.journal.value.currentGeneration else s.initial.generation
  }

  predicate CompleteOnDisk(s: System) {
    s.journal.Some? ==> s.journal.value.complete
  }

  /** The checks `load_state` makes on the journal and the bundle it names. */
  predicate Loadable(s: System) {
    && CurrentGeneration(s) in s.store
    && s.initial.generation <= CurrentGeneration(s)
    && s.store[CurrentGeneration(s)].generation == CurrentGeneration(s)
    && SameFleet(s.store[CurrentGeneration(s)], s.initial)
    && (s.journal.Some? ==> s.journal.value.currentSha == Sha256(s.store[CurrentGeneration(s)]))
  }

  function LoadedJournal(s: System, jitter: nat): Journal
    requires Loadable(s)
  {
    var tip := s.store[CurrentGeneration(s)];
    match s.journal
    case Some(j) => j.(windowStart := WindowStart(tip, j.jitter))
    case None => Journal(tip.generation, Sha256(tip), true, map[], 0, 0, jitter, WindowStart(tip, jitter))
  }

  function Adopted(j: Journal, c: Config): Journal {
    j.(currentGeneration := c.generation, currentSha := Sha256(c), complete := false, fleet := map[])
  }

  function Completed(j: Journal, tip: Config): Journal {
    var start := WindowStart(tip, j.jitter);
    j.(complete := true, failures := 0, windowStart := start, nextRetry := start)
  }

  function Pow2(n: nat): (p: nat)
    ensures p >= 1
  {
    if n == 0 then 1 else 2 * Pow2(n - 1)
  }

  function NextFailures(j: Journal): nat { if j.failures + 1 < 8 then j.failures + 1 else 8 }

  function Delay(failures: nat): int
    requires failures > 0
  {
    Min(1800, 30 * Pow2(failures - 1))
  }

  /** `spread` is the random part, drawn below max(1, delay // 5). */
  function Failed(j: Journal, now: int, spread: nat): Journal {
    var f := NextFailures(j);
    j.(failures := f, nextRetry := now + Delay(f) + spread)
  }

  /** A new bundle may be signed: the last one completed and is due, or it has expired. */
  predicate MaySign(m: Memory)
    requires m.Active?
  {
    (m.journal.complete && m.now >= m.journal.windowStart) || m.tip.expiresAt <= m.now
  }

  function Lifetime(m: Memory): int
    requires m.Active? && m.phase.Reviewed?
  {
    Min(24 * 3600, m.phase.shortest - m.now - 30)
  }

  /** What renew_bundle signs: next number, same identities and policy, issued now. */
  function Renewed(m: Memory, clock: int, nonce: seq<int>): Config
    requires m.Active? && m.phase.Reviewed?
  {
    Config(m.tip.generation + 1, clock, clock + Lifetime(m), m.tip.peers, m.tip.policy, nonce)
  }

  predicate Enabled(s: System, a: Action) {
    match a
    case Tick(_) => true
    case Load(jitter) => s.memory.Idle? && Loadable(s) && jitter < 301
    case Wait => s.memory.Active? && s.memory.phase.Loaded? && s.memory.now < s.memory.journal.nextRetry
    case NotDue =>
      var m := s.memory;
      && m.Active? && m.phase.Loaded? && m.now < m.journal.windowStart
      && m.journal.complete && m.tip.generation + 1 !in s.store
    case Collect(_) => s.memory.Active? && s.memory.phase.Loaded?
    case AdoptExisting =>
      && s.memory.Active? && s.memory.phase.Collected?
      && s.memory.tip.generation + 1 in s.store
    case KeepTip =>
      && s.memory.Active? && s.memory.phase.Collected?
      && s.memory.tip.generation + 1 !in s.store
    case Sign(_) =>
      && s.memory.Active? && s.memory.phase.Reviewed? && MaySign(s.memory)
      && 6 * 3600 <= Lifetime(s.memory)
      && s.clock + Lifetime(s.memory) <= s.memory.phase.shortest
      && s.memory.tip.generation + 1 !in s.store
    case AdoptSigned => s.memory.Active? && s.memory.phase.Signed?
    case Proceed =>
      && s.memory.Active? && s.memory.phase.Reviewed? && !MaySign(s.memory)
      && CurrentlyValid(s.memory.tip, s.clock)
    case Send(id) =>
      && s.memory.Active? && s.memory.phase.Sending? && s.memory.phase.next < FLEET_SIZE
      && |s.nodes| == FLEET_SIZE && id !in s.nodes[s.memory.phase.next].handlers
    case Acknowledge =>
      && s.memory.Active? && s.memory.phase.Awaiting? && s.memory.phase.next < |s.nodes|
      && s.nodes[s.memory.phase.next].installed.generation >= s.memory.tip.generation
    case Check =>
      && s.memory.Active? && s.memory.phase.Checking? && s.memory.phase.next < FLEET_SIZE
      && s.memory.phase.next < |s.nodes|
      && s.nodes[s.memory.phase.next].installed.generation == s.memory.tip.generation
      && Sha256(s.nodes[s.memory.phase.next].installed) == Sha256(s.memory.tip)
    case Complete =>
      s.memory.Active? && s.memory.phase.Checking? && s.memory.phase.next == FLEET_SIZE
    case Release => s.memory.Active? && s.memory.phase.Finished?
    case Fail(spread) =>
      && s.memory.Active?
      && spread < Max(1, Delay(NextFailures(s.memory.journal)) / 5)
    case Crash => true
    case AtNode(i, act) => i < |s.nodes| && !act.Arrive? && Publication.Enabled(s.nodes[i], act)
  }

  /** Memory after a step of the deploy or verify loop. */
  function Moved(m: Memory, p: Phase): Memory
    requires m.Active?
  {
    m.(phase := p)
  }

  function Marked(s: System, i: nat, mark: Mark, p: Phase): System
    requires s.memory.Active?
  {
    var j := s.memory.journal.(fleet := s.memory.journal.fleet[i := mark]);
    s.(journal := Some(j), memory := Active(s.memory.tip, j, p, s.memory.now))
  }

  function AfterAdopting(s: System, c: Config, p: Phase): System
    requires s.memory.Active?
  {
    var j := Adopted(s.memory.journal, c);
    s.(journal := Some(j), memory := Active(c, j, p, s.memory.now))
  }

  function Next(s: System, a: Action): System
    requires Enabled(s, a)
  {
    var m := s.memory;
    match a
    case Tick(seconds) => s.(clock := s.clock + seconds)
    case Load(jitter) =>
      s.(memory := Active(s.store[CurrentGeneration(s)], LoadedJournal(s, jitter), Loaded, s.clock))
    case Wait => s.(memory := Idle)
    case NotDue => s.(journal := Some(m.journal.(nextRetry := m.journal.windowStart)), memory := Idle)
    case Collect(shortest) => s.(memory := Moved(m, Collected(shortest)))
    case AdoptExisting => AfterAdopting(s, s.store[m.tip.generation + 1], Reviewed(m.phase.shortest))
    case KeepTip => s.(memory := Moved(m, Reviewed(m.phase.shortest)))
    case Sign(nonce) =>
      var c := Renewed(m, s.clock, nonce);
      s.(store := s.store[c.generation := c], memory := Moved(m, Signed(c)),
         lapses := if m.journal.complete then s.lapses else s.lapses + 1)
    case AdoptSigned => AfterAdopting(s, m.phase.signed, Sending(0))
    case Proceed => s.(memory := Moved(m, Sending(0)))
    case Send(id) =>
      var i := m.phase.next;
      s.(nodes := s.nodes[i := Publication.Next(s.nodes[i], Publication.Arrive(id, DeployRequest(m.tip)))],
         memory := Moved(m, Awaiting(i)))
    case Acknowledge =>
      var i := m.phase.next;
      Marked(s, i, Deployed, if i + 1 == FLEET_SIZE then Checking(0) else Sending(i + 1))
    case Check => Marked(s, m.phase.next, Verified, Checking(m.phase.next + 1))
    case Complete =>
      var j := Completed(m.journal, m.tip);
      s.(journal := Some(j), memory := Active(m.tip, j, Finished, m.now),
         floor := m.tip.generation, lapses := 0)
    case Release => s.(memory := Idle)
    case Fail(spread) => s.(journal := Some(Failed(m.journal, m.now, spread)), memory := Idle)
    case Crash => s.(memory := Idle)
    case AtNode(i, act) => s.(nodes := s.nodes[i := Publication.Next(s.nodes[i], act)])
  }

  ghost predicate Step(s: System, t: System) {
    exists a :: Enabled(s, a) && t == Next(s, a)
  }

  /** A uniform start: no journal, one stored bundle, installed on four idle nodes. */
  ghost predicate Initial(s: System) {
    && s.initial.generation >= 1
    && s.journal == None && s.memory == Idle
    && s.store == map[s.initial.generation := s.initial]
    && s.nodes == seq(FLEET_SIZE, i => Publication.Node(s.initial, None, map[]))
    && s.floor == s.initial.generation && s.lapses == 0
  }

  ghost predicate IsRun(trace: seq<System>) {
    |trace| > 0 && forall i :: 0 <= i < |trace| - 1 ==> Step(trace[i], trace[i + 1])
  }
}
