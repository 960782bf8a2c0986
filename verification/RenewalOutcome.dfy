/** What one invocation of the coordinator comes to when nothing disturbs it, told from the state it
    finds: the bundle it works towards, and whether that bundle can reach the whole fleet. */
module RenewalOutcome {
  import opened Wrappers
  import opened Fleet
  import opened Renewal
  import opened RenewalSafety
  import Publication

  /** What a node's report says beside its generation and digest. */
  datatype Health = Health(running: bool, authenticatedPeers: nat, dhtReady: bool, connected: bool)

  predicate Ready(h: Health) {
    h.running && h.authenticatedPeers >= 4 && h.dhtReady && h.connected
  }

  predicate SomeReady(polls: seq<Health>) {
    exists k :: 0 <= k < |polls| && Ready(polls[k])
  }

  /** Draws and reports of one invocation that come from outside; `polls(i)` is what node `i` says of
      itself, poll by poll, until the time for its verification is up. */
  datatype Inputs = Inputs(jitter: nat, spread: nat, shortest: int, nonce: seq<int>, polls: nat -> seq<Health>)

  // ----- Beginning ----------------------------------------------------------------------------

  function PriorFailures(s: System): nat {
    if s.journal.Some? then s.journal.value.failures else 0
  }

  /** Drawn once, with the first journal. */
  function Jitter(s: System, drawn: nat): nat {
    if s.journal.Some? then s.journal.value.jitter else drawn
  }

  predicate RetryIsAhead(s: System) {
    s.clock < if s.journal.Some? then s.journal.value.nextRetry else 0
  }

  predicate NothingIsDue(s: System, jitter: nat)
    requires Loadable(s)
  {
    && s.clock < LoadedJournal(s, jitter).windowStart && CompleteOnDisk(s)
    && CurrentGeneration(s) + 1 !in s.store
  }

  // ----- The bundle aimed at ------------------------------------------------------------------

  /** The tip, or the successor that an earlier invocation signed but did not journal. */
  function TakenUp(s: System): Config
    requires s.memory.Active?
  {
    var g := s.memory.tip.generation + 1;
    if g in s.store then s.store[g] else s.memory.tip
  }

  predicate SigningDue(s: System)
    requires s.memory.Active?
  {
    || (s.memory.tip.generation + 1 !in s.store && s.memory.journal.complete
        && s.memory.now >= s.memory.journal.windowStart)
    || TakenUp(s).expiresAt <= s.memory.now
  }

  function FreshLifetime(s: System, shortest: int): int
    requires s.memory.Active?
  {
    Min(24 * 3600, shortest - s.memory.now - 30)
  }

  function Target(s: System, inputs: Inputs): Config
    requires s.memory.Active?
  {
    var c := TakenUp(s);
    if SigningDue(s)
    then Config(c.generation + 1, s.clock, s.clock + FreshLifetime(s, inputs.shortest), c.peers, c.policy, inputs.nonce)
    else c
  }

  predicate TargetFits(s: System, inputs: Inputs)
    requires s.memory.Active?
  {
    var lifetime := FreshLifetime(s, inputs.shortest);
    if SigningDue(s) then 6 * 3600 <= lifetime && s.clock + lifetime <= inputs.shortest
    else CurrentlyValid(TakenUp(s), s.clock)
  }

  // ----- A node and one request ---------------------------------------------------------------

  /** The node runs the bundle or, its lock being free, would install it now. */
  predicate Takes(n: Publication.Node, c: Config, now: int) {
    var r := DeployRequest(c);
    || n.installed == c
    || (n.holder == None && Publication.Advances(r, n.installed)
        && Publication.Acceptable(r, n.installed, n.installed, now))
  }

  function Acted(n: Publication.Node, a: Publication.Action): Publication.Node {
    if Publication.Enabled(n, a) then Publication.Next(n, a) else n
  }

  /** A handler from its first look at the installed bundle to its end. */
  function Handled(n: Publication.Node, id: nat, now: int): Publication.Node {
    Acted(Acted(Acted(Acted(n, Publication.Compare(id)), Publication.Acquire(id)), Publication.Validate(id, now)),
          Publication.Publish(id))
  }

  lemma HandledInstalls(n: Publication.Node, id: nat, r: Request, now: int)
    requires id in n.handlers && n.handlers[id] == Publication.Arrived(r)
    ensures Handled(n, id, now).installed
            == if n.holder == None && r.intact && r.digest == Sha256(r.files)
                  && n.installed.generation < r.generation == r.files.generation
                  && r.files.peers == n.installed.peers && r.files.policy == n.installed.policy
                  && r.files.issuedAt <= now + 120 && now + 60 <= r.files.expiresAt
               then r.files else n.installed
  {
  }

  /** No node is ahead of the tip, and one with the tip's number runs the tip. */
  lemma AtTip(s: System, i: nat)
    requires Inv(s) && s.memory.Active? && i < FLEET_SIZE
    ensures s.nodes[i].installed.generation <= s.memory.tip.generation
    ensures s.nodes[i].installed.generation == s.memory.tip.generation <==> s.nodes[i].installed == s.memory.tip
  {
    assert NodeInv(s, i);
  }

  // ----- The whole invocation -----------------------------------------------------------------

  predicate FleetTakes(s: System, c: Config) {
    |s.nodes| == FLEET_SIZE && forall i :: 0 <= i < FLEET_SIZE ==> Takes(s.nodes[i], c, s.clock)
  }

  predicate FleetReady(polls: nat -> seq<Health>) {
    forall i :: 0 <= i < FLEET_SIZE ==> SomeReady(polls(i))
  }

  predicate Clear(s: System, inputs: Inputs)
    requires s.memory.Active?
  {
    TargetFits(s, inputs) && FleetTakes(s, Target(s, inputs)) && FleetReady(inputs.polls)
  }

  /** What it takes for a node to accept the target: nothing if it runs it already; otherwise a free
      lock and a minute of remaining validity. */
  lemma ClearMeans(s: System, inputs: Inputs)
    requires Inv(s) && s.memory.Active? && TargetFits(s, inputs)
    ensures var c := Target(s, inputs);
            forall i :: 0 <= i < FLEET_SIZE ==>
              (Takes(s.nodes[i], c, s.clock) <==>
                 s.nodes[i].installed == c || (s.nodes[i].holder == None && c.expiresAt - s.clock >= 60))
  {
    var c := Target(s, inputs);
    forall i | 0 <= i < FLEET_SIZE
      ensures Takes(s.nodes[i], c, s.clock) <==>
                s.nodes[i].installed == c || (s.nodes[i].holder == None && c.expiresAt - s.clock >= 60)
    {
      assert NodeInv(s, i);
      assert SameFleet(s.nodes[i].installed, s.initial) && SameFleet(TakenUp(s), s.initial);
      assert s.nodes[i].installed.generation < c.generation || s.nodes[i].installed == c;
    }
  }

  // ----- The same without the protocol's own functions ----------------------------------------

  /** Six hours at least, a day at most, and not beyond half a minute before the first descriptor ends. */
  function NewLife(s: System, shortest: int): int
    requires s.memory.Active?
  {
    var life := shortest - 30 - s.memory.now;
    if life > 86400 then 86400 else life
  }

  /** A stored successor is taken up first; a new bundle is called for when what is complete is due, or when
      what would be deployed has expired. */
  lemma TargetIs(s: System, inputs: Inputs)
    requires s.memory.Active?
    ensures var m, next := s.memory, s.memory.tip.generation + 1;
            var c := if next in s.store then s.store[next] else m.tip;
            var due := next !in s.store && m.journal.complete && m.journal.windowStart <= m.now;
            Target(s, inputs)
            == if due || c.expiresAt <= m.now
               then Config(c.generation + 1, s.clock, s.clock + NewLife(s, inputs.shortest), c.peers, c.policy, inputs.nonce)
               else c
  {
  }

  /** Nothing else is needed: six hours of life for a new bundle and descriptors that outlive it, or validity
      of the old one; a free lock and a minute left wherever it is not installed; and a healthy report from
      each node. */
  lemma ClearIff(s: System, inputs: Inputs)
    requires Inv(s) && s.memory.Active?
    ensures Clear(s, inputs) <==>
              var c := Target(s, inputs);
              && (if c.generation != TakenUp(s).generation
                  then NewLife(s, inputs.shortest) >= 21600 && c.expiresAt <= inputs.shortest
                  else c.issuedAt <= s.clock + 120 && s.clock < c.expiresAt)
              && (forall i :: 0 <= i < 4 ==>
                    s.nodes[i].installed == c || (s.nodes[i].holder == None && s.clock + 60 <= c.expiresAt))
              && (forall i :: 0 <= i < 4 ==> ReportsWell(inputs.polls(i)))
  {
    if TargetFits(s, inputs) { ClearMeans(s, inputs); }
    forall i | 0 <= i < 4 ensures SomeReady(inputs.polls(i)) <==> ReportsWell(inputs.polls(i)) {
      ReadyIff(inputs.polls(i));
    }
    assert FleetReady(inputs.polls) <==> forall i :: 0 <= i < 4 ==> ReportsWell(inputs.polls(i));
  }

  /** Some report says running, at least four authenticated peers, ready and connected. */
  predicate ReportsWell(polls: seq<Health>) {
    exists k :: 0 <= k < |polls| && Healthy(polls[k])
  }

  predicate Healthy(h: Health) {
    h.running && 4 <= h.authenticatedPeers && h.dhtReady && h.connected
  }

  lemma ReadyIff(polls: seq<Health>)
    ensures SomeReady(polls) <==> ReportsWell(polls)
  {
    forall k | 0 <= k < |polls| ensures Ready(polls[k]) <==> Healthy(polls[k]) {}
  }
}
