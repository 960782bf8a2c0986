/** `Coordinator.run_once` and the watch loop around it, as code over the shared world.

    `world` is what disk, lock, fleet and clock hold.  Each write or observation the coordinator
    makes is one action of the renewal protocol; between two of them its surroundings may act.
    `trace` records every state the world went through, so a crash after any write is a prefix. */
module Coordinator {
  import opened Wrappers
  import opened Fleet
  import opened Renewal
  import opened RenewalSafety
  import opened RenewalOutcome
  import opened RenewalPlan
  import Publication

  /** Something other than the coordinator: time passing, or a handler acting on a node. */
  datatype Other = Passing(seconds: nat) | Acting(node: nat, act: Publication.Action)

  /** What happens before one coordinator action; `fault` makes that action raise. */
  datatype Moment = Moment(others: seq<Other>, fault: bool)

  datatype Outcome = Busy | Waiting | NotYetDue | Passed | Faulted

  /** A crash may cut a run after any of its states, and what is left is again a run. */
  lemma CrashAnywhere(trace: seq<System>, k: nat)
    requires IsRun(trace) && k < |trace|
    ensures IsRun(trace[..k + 1] + [Next(trace[k], Crash)])
  {
  }

  class Runner {
    var world: System
    var ticket: nat
    var script: seq<Moment>
    ghost var trace: seq<System>

    ghost predicate Valid()
      reads this
    {
      && IsRun(trace) && trace[|trace| - 1] == world && Initial(trace[0]) && |world.nodes| == FLEET_SIZE
      && (forall i, id :: 0 <= i < |world.nodes| && id in world.nodes[i].handlers ==> id < ticket)
    }

    constructor (start: System, script: seq<Moment>)
      requires Initial(start)
      ensures Valid() && world == start && trace == [start]
    {
      world, ticket, this.script, trace := start, 0, script, [start];
    }

    /** One atomic action on the world. */
    method Do(a: Action)
      requires Valid() && Enabled(world, a) && (a.Send? ==> a.id == ticket)
      modifies this`world, this`trace, this`ticket
      ensures Valid() && world == Next(old(world), a) && trace == old(trace) + [world]
      ensures ticket == if a.Send? then old(ticket) + 1 else old(ticket)
    {
      assert Step(world, Next(world, a));
      world := Next(world, a);
      trace := trace + [world];
      if a.Send? { ticket := ticket + 1; }
    }

    lemma Sound()
      requires Valid()
      ensures Inv(world)
    {
      InitialHasInv(trace[0]);
      RunKeepsInv(trace, |trace| - 1);
    }

    /** Others act; the coordinator's memory, journal and store stay as they are. */
    method Surroundings() returns (fault: bool)
      requires Valid()
      modifies this`world, this`trace, this`script, this`ticket
      ensures Valid() && old(trace) <= trace
      ensures world == old(world).(clock := world.clock, nodes := world.nodes)
      ensures old(script) == [] ==> !fault && script == [] && world == old(world)
    {
      if script == [] { return false; }
      var moment := script[0];
      script := script[1..];
      for k := 0 to |moment.others|
        invariant Valid() && old(trace) <= trace
        invariant world == old(world).(clock := world.clock, nodes := world.nodes)
      {
        var a := match moment.others[k]
          case Passing(seconds) => Tick(seconds)
          case Acting(i, act) => AtNode(i, act);
        if Enabled(world, a) {
          Do(a);
        }
      }
      return moment.fault;
    }

    /** What an attempt never changes. */
    ghost predicate Continues(w: System)
      reads this
    {
      && Valid() && world.memory.Active? && w.memory.Active? && world.memory.now == w.memory.now
      && world.memory.journal.failures == w.memory.journal.failures
      && world.memory.journal.jitter == w.memory.journal.jitter
    }

    /** One action of node `i`'s handler, if it is still there to take it. */
    method NodeStep(i: nat, a: Publication.Action) returns (fault: bool)
      requires Valid() && i < FLEET_SIZE && !a.Arrive?
      modifies this`world, this`trace, this`script, this`ticket
      ensures Valid() && old(trace) <= trace
      ensures world == old(world).(clock := world.clock, nodes := world.nodes)
      ensures old(script) == [] ==>
                && !fault && script == []
                && world == old(world).(nodes := old(world).nodes[i := Acted(old(world).nodes[i], a)])
    {
      if Enabled(world, AtNode(i, a)) { Do(AtNode(i, a)); }
      fault := Surroundings();
    }

    /** The handler that a request has woken on node `i`, with others acting between its actions. */
    method Handle(i: nat, id: nat) returns (fault: bool)
      requires Valid() && i < FLEET_SIZE
      modifies this`world, this`trace, this`script, this`ticket
      ensures Valid() && old(trace) <= trace
      ensures world == old(world).(clock := world.clock, nodes := world.nodes)
      ensures old(script) == [] ==>
                && !fault && script == []
                && world == old(world).(nodes := old(world).nodes[i := Handled(old(world).nodes[i], id, old(world).clock)])
    {
      fault := NodeStep(i, Publication.Compare(id));
      if fault { return; }
      fault := NodeStep(i, Publication.Acquire(id));
      if fault { return; }
      fault := NodeStep(i, Publication.Validate(id, world.clock));
      if fault { return; }
      fault := NodeStep(i, Publication.Publish(id));
    }

    /** Hands node `i` the tip; the handler it wakes there does what it can. */
    method Request(i: nat) returns (fault: bool)
      requires Valid() && i < FLEET_SIZE && world.memory.Active? && world.memory.phase == Sending(i)
      modifies this`world, this`trace, this`script, this`ticket
      ensures Valid() && old(trace) <= trace
      ensures world == old(world).(clock := world.clock, nodes := world.nodes, memory := world.memory)
      ensures world.memory == old(world).memory.(phase := Awaiting(i))
      ensures old(script) == [] ==>
                && !fault && script == [] && world.clock == old(world).clock
                && (forall k :: 0 <= k < FLEET_SIZE && k != i ==> world.nodes[k] == old(world).nodes[k])
                && world.nodes[i].installed == if Takes(old(world).nodes[i], world.memory.tip, world.clock)
                     then world.memory.tip else old(world).nodes[i].installed
    {
      var id := ticket;
      Do(Send(id));
      HandledInstalls(world.nodes[i], id, DeployRequest(world.memory.tip), world.clock);
      fault := Handle(i, id);
    }

    /** It answers once the node runs the tip. */
    method Deploy(i: nat) returns (ok: bool)
      requires Valid() && i < FLEET_SIZE && world.memory.Active? && world.memory.phase == Sending(i)
      modifies this`world, this`trace, this`script, this`ticket
      ensures Continues(old(world)) && old(trace) <= trace && world.memory.tip == old(world).memory.tip
      ensures ok ==> world.memory.phase == if i + 1 == FLEET_SIZE then Checking(0) else Sending(i + 1)
      ensures ok ==> world.nodes[i].installed == world.memory.tip
                     && world.journal.Some? && i in world.journal.value.fleet
      ensures old(script) == [] ==>
                && script == [] && world.clock == old(world).clock
                && (forall k :: 0 <= k < FLEET_SIZE && k != i ==> world.nodes[k] == old(world).nodes[k])
                && (ok <==> Takes(old(world).nodes[i], world.memory.tip, world.clock))
    {
      var fault := Request(i);
      Sound();
      AtTip(world, i);
      if fault || world.nodes[i].installed.generation < world.memory.tip.generation { return false; }
      Do(Acknowledge);
      return true;
    }

    method DeployAll() returns (ok: bool)
      requires Valid() && world.memory.Active? && world.memory.phase == Sending(0)
      modifies this`world, this`trace, this`script, this`ticket
      ensures Continues(old(world)) && old(trace) <= trace && world.memory.tip == old(world).memory.tip
      ensures ok ==> world.memory.phase == Checking(0)
      ensures old(script) == [] ==>
                && script == []
                && (ok <==> FleetTakes(old(world), old(world).memory.tip))
                && (ok ==> forall k :: 0 <= k < FLEET_SIZE ==> world.nodes[k].installed == world.memory.tip)
    {
      for i := 0 to FLEET_SIZE
        invariant Continues(old(world)) && old(trace) <= trace && world.memory.tip == old(world).memory.tip
        invariant world.memory.phase == if i == FLEET_SIZE then Checking(0) else Sending(i)
        invariant old(script) == [] ==>
                    && script == [] && world.clock == old(world).clock
                    && (forall k :: i <= k < FLEET_SIZE ==> world.nodes[k] == old(world).nodes[k])
                    && (forall k :: 0 <= k < i ==>
                          && world.nodes[k].installed == world.memory.tip
                          && Takes(old(world).nodes[k], old(world).memory.tip, old(world).clock))
      {
        ok := Deploy(i);
        if !ok { return; }
      }
      return true;
    }

    /** Polls node `i` until it is ready and reports exactly the tip, or the time is up. */
    method Verify(i: nat, polls: seq<Health>) returns (ok: bool)
      requires Valid() && i < FLEET_SIZE && world.memory.Active? && world.memory.phase == Checking(i)
      modifies this`world, this`trace, this`script, this`ticket
      ensures Continues(old(world)) && old(trace) <= trace && world.memory.tip == old(world).memory.tip
      ensures ok ==> world.memory.phase == Checking(i + 1)
      ensures ok ==> world.nodes[i].installed == world.memory.tip && SomeReady(polls)
      ensures old(script) == [] ==>
                && script == [] && world.nodes == old(world).nodes
                && (ok <==> world.nodes[i].installed == world.memory.tip && SomeReady(polls))
    {
      for k := 0 to |polls|
        invariant Valid() && old(trace) <= trace && world.memory == old(world).memory
        invariant old(script) == [] ==>
                    && script == [] && world == old(world)
                    && forall l :: 0 <= l < k ==> !(world.nodes[i].installed == world.memory.tip && Ready(polls[l]))
      {
        var fault := Surroundings();
        if fault { return false; }
        var report := world.nodes[i].installed;
        if Ready(polls[k]) && report.generation == world.memory.tip.generation
           && Sha256(report) == Sha256(world.memory.tip) {
          Do(Check);
          return true;
        }
      }
      return false;
    }

    method VerifyAll(polls: nat -> seq<Health>) returns (ok: bool)
      requires Valid() && world.memory.Active? && world.memory.phase == Checking(0)
      modifies this`world, this`trace, this`script, this`ticket
      ensures Continues(old(world)) && old(trace) <= trace && world.memory.tip == old(world).memory.tip
      ensures ok ==> world.memory.phase == Checking(FLEET_SIZE)
      ensures ok ==> FleetReady(polls)
      ensures old(script) == []
              && (forall k :: 0 <= k < FLEET_SIZE ==> old(world).nodes[k].installed == world.memory.tip) ==>
                script == [] && (ok <==> FleetReady(polls))
    {
      for i := 0 to FLEET_SIZE
        invariant Continues(old(world)) && old(trace) <= trace && world.memory.tip == old(world).memory.tip
        invariant world.memory.phase == Checking(i)
        invariant forall k :: 0 <= k < i ==> SomeReady(polls(k))
        invariant old(script) == [] ==> script == [] && world.nodes == old(world).nodes
      {
        ok := Verify(i, polls(i));
        if !ok { return; }
      }
      return true;
    }

    /** Collects the fleet's reports and takes up a successor that was signed but not journalled. */
    method CollectAndAdopt(shortest: int) returns (ok: bool)
      requires Valid() && world.memory.Active? && world.memory.phase.Loaded?
      modifies this`world, this`trace, this`script, this`ticket
      ensures Valid() && old(trace) <= trace && world.memory.Active?
      ensures world.memory.now == old(world).memory.now && world.store == old(world).store
      ensures world.memory.journal.failures == old(world).memory.journal.failures
      ensures world.memory.journal.jitter == old(world).memory.journal.jitter
      ensures ok ==> world.memory.phase == Reviewed(shortest)
      ensures old(script) == [] ==>
                && ok && script == [] && world.clock == old(world).clock && world.nodes == old(world).nodes
                && world.memory.tip == TakenUp(old(world))
                && (MaySign(world.memory) <==> SigningDue(old(world)))
    {
      Do(Collect(shortest));
      var fault := Surroundings();
      if fault { return false; }
      if world.memory.tip.generation + 1 in world.store {
        Do(AdoptExisting);
      } else {
        Do(KeepTip);
      }
      return true;
    }

    /** Signs and journals a successor when one is called for; otherwise keeps a valid tip. */
    method SignIfCalledFor(nonce: seq<int>) returns (ok: bool)
      requires Valid() && world.memory.Active? && world.memory.phase.Reviewed?
      modifies this`world, this`trace, this`script, this`ticket
      ensures Valid() && old(trace) <= trace && world.memory.Active?
      ensures world.memory.now == old(world).memory.now
      ensures world.memory.journal.failures == old(world).memory.journal.failures
      ensures world.memory.journal.jitter == old(world).memory.journal.jitter
      ensures ok ==> world.memory.phase == Sending(0)
      ensures old(script) == [] ==>
                && script == [] && world.clock == old(world).clock && world.nodes == old(world).nodes
                && (ok ==> world.memory.tip == if MaySign(old(world).memory)
                             then Renewed(old(world).memory, world.clock, nonce) else old(world).memory.tip)
                && (ok <==> if MaySign(old(world).memory)
                     then 6 * 3600 <= Lifetime(old(world).memory)
                          && world.clock + Lifetime(old(world).memory) <= old(world).memory.phase.shortest
                     else CurrentlyValid(old(world).memory.tip, world.clock))
    {
      Sound();
      if MaySign(world.memory) {
        var lifetime := Lifetime(world.memory);
        if lifetime < 6 * 3600 || world.clock + lifetime > world.memory.phase.shortest { return false; }
        if world.memory.tip.generation + 1 in world.store { return false; }
        Do(Sign(nonce));
        var fault := Surroundings();
        if fault { return false; }
        Do(AdoptSigned);
      } else {
        if !CurrentlyValid(world.memory.tip, world.clock) { return false; }
        Do(Proceed);
      }
      return true;
    }

    /** From the reports to the bundle that is to be deployed. */
    method Aim(inputs: Inputs) returns (ok: bool)
      requires Valid() && world.memory.Active? && world.memory.phase.Loaded?
      modifies this`world, this`trace, this`script, this`ticket
      ensures Continues(old(world)) && old(trace) <= trace
      ensures ok ==> world.memory.phase == Sending(0)
      ensures old(script) == [] ==>
                && script == [] && world.clock == old(world).clock && world.nodes == old(world).nodes
                && (ok <==> TargetFits(old(world), inputs))
                && (ok ==> world.memory.tip == Target(old(world), inputs))
    {
      ok := CollectAndAdopt(inputs.shortest);
      if !ok { return; }
      var fault := Surroundings();
      if fault { return false; }
      ok := SignIfCalledFor(inputs.nonce);
    }

    /** The body of the source's try block.  Undisturbed it succeeds exactly when it is clear. */
    method Attempt(inputs: Inputs) returns (ok: bool)
      requires Valid() && world.memory.Active? && world.memory.phase.Loaded?
      modifies this`world, this`trace, this`script, this`ticket
      ensures Valid() && old(trace) <= trace && world.memory.Active?
      ensures world.memory.now == old(world).memory.now
      ensures !ok ==> world.memory.journal.failures == old(world).memory.journal.failures
      ensures world.memory.journal.jitter == old(world).memory.journal.jitter
      ensures ok ==> world.memory.phase == Finished && world.lapses == 0
                     && world.journal == Some(world.memory.journal)
                     && world.memory.journal.complete && world.memory.journal.failures == 0
                     && world.memory.journal.nextRetry == world.memory.journal.windowStart
      ensures ok ==> OpensAt(world.memory.tip, world.memory.journal.jitter, world.memory.journal.nextRetry)
      ensures ok ==> FleetReady(inputs.polls)
      ensures old(script) == [] ==>
                && (ok <==> Clear(old(world), inputs))
                && (ok ==> world.memory.tip == Target(old(world), inputs))
    {
      ok := Aim(inputs);
      if !ok { return; }
      ok := DeployAll();
      if !ok { return; }
      ok := VerifyAll(inputs.polls);
      if !ok { return; }
      Do(Complete);
      WindowIs(world.memory.tip, world.memory.journal.jitter, world.memory.journal.nextRetry);
      return true;
    }

    /** load_state, and the two reasons for having nothing to do. */
    method Begin(jitter: nat) returns (idle: Option<Outcome>)
      requires Valid() && jitter < 301 && world.memory.Idle?
      modifies this`world, this`trace, this`ticket
      ensures Valid() && old(trace) <= trace && world.store == old(world).store
      ensures idle.Some? ==> world.memory.Idle? && idle.value in {Waiting, NotYetDue}
      ensures idle == None ==> world.memory.Active? && world.memory.phase.Loaded?
                               && world.memory.now == old(world).clock
                               && world.memory.journal.failures == PriorFailures(old(world))
                               && world.memory.journal.jitter == Jitter(old(world), jitter)
      ensures idle == Some(Waiting) ==> world.journal == old(world).journal
      ensures idle == Some(NotYetDue) ==>
                && CompleteOnDisk(world) && world.journal.Some?
                && world.journal.value.jitter == Jitter(old(world), jitter)
                && old(world).clock < world.journal.value.windowStart == world.journal.value.nextRetry
      ensures Loadable(old(world))
      ensures idle == Some(Waiting) <==> RetryIsAhead(old(world))
      ensures idle == Some(NotYetDue) <==> !RetryIsAhead(old(world)) && NothingIsDue(old(world), jitter)
      ensures idle == None ==> world == Next(old(world), Load(jitter))
    {
      Sound();
      AlwaysLoadable(world);
      Do(Load(jitter));
      var m := world.memory;
      if m.now < m.journal.nextRetry {
        Do(Wait);
        return Some(Waiting);
      }
      if m.now < m.journal.windowStart && m.journal.complete && m.tip.generation + 1 !in world.store {
        Do(NotDue);
        return Some(NotYetDue);
      }
      return None;
    }

    /** The except block. */
    method GiveUp(spread: nat)
      requires Valid() && world.memory.Active?
      modifies this`world, this`trace, this`ticket
      ensures Valid() && old(trace) <= trace && world.memory.Idle? && world.journal.Some?
      ensures Retries(old(world).memory.journal.failures, old(world).memory.now, world.journal.value)
      ensures RetriesAt(old(world).memory.now, spread, world.journal.value)
      ensures world.journal.value.jitter == old(world).memory.journal.jitter
    {
      var limit := Max(1, Delay(NextFailures(world.memory.journal)) / 5);
      DrawnRetries(world.memory.journal, world.memory.now, spread, limit);
      Do(Fail(spread % limit));
    }

    /** One invocation.  Whatever the surroundings do and wherever it fails, every state it leads
        through is a state of the protocol, and the lock is free again when it returns.  PASS is
        returned only with a complete journal and the journalled bundle on every node; left alone, an
        invocation that has something to do passes exactly when its bundle can reach every node. */
    method RunOnce(inputs: Inputs) returns (outcome: Outcome)
      requires Valid() && inputs.jitter < 301
      modifies this`world, this`trace, this`script, this`ticket
      ensures Valid() && old(trace) <= trace
      ensures outcome.Busy? <==> old(world).memory.Active?
      ensures outcome.Busy? ==> world == old(world)
      ensures !outcome.Busy? ==> world.memory.Idle?
      ensures outcome.Waiting? ==> world.store == old(world).store && world.journal == old(world).journal
      ensures outcome.NotYetDue? ==>
                && world.store == old(world).store && CompleteOnDisk(world) && world.journal.Some?
                && old(world).clock < world.journal.value.windowStart == world.journal.value.nextRetry
      ensures outcome.Passed? ==>
                && world.journal.Some? && world.journal.value.complete
                && CurrentGeneration(world) in world.store
                && world.journal.value.nextRetry == world.journal.value.windowStart
                && forall i :: 0 <= i < |world.nodes| ==>
                     world.nodes[i].installed == world.store[CurrentGeneration(world)]
      ensures outcome.Passed? ==> FleetReady(inputs.polls)
      ensures outcome.Faulted? ==>
                && world.journal.Some? && world.journal.value.jitter == Jitter(old(world), inputs.jitter)
                && Retries(PriorFailures(old(world)), old(world).clock, world.journal.value)
                && RetriesAt(old(world).clock, inputs.spread, world.journal.value)
      ensures outcome.Passed? || outcome.NotYetDue? ==>
                && Loadable(world) && PlannedAgain(world)
                && world.journal.value.jitter == Jitter(old(world), inputs.jitter) <= 300
                && var c := world.store[CurrentGeneration(world)];
                && OpensAt(c, world.journal.value.jitter, world.journal.value.nextRetry)
                && (c.expiresAt - c.issuedAt >= 6 * 3600 ==>
                      c.issuedAt < world.journal.value.nextRetry <= c.expiresAt - 2 * 3600)
      ensures !outcome.Busy? ==>
                && Loadable(old(world))
                && (outcome.Waiting? <==> RetryIsAhead(old(world)))
                && (outcome.NotYetDue? <==> !RetryIsAhead(old(world)) && NothingIsDue(old(world), inputs.jitter))
      ensures old(script) == [] && (outcome.Passed? || outcome.Faulted?) ==>
                var start := Next(old(world), Load(inputs.jitter));
                && (outcome.Passed? <==> Clear(start, inputs))
                && (outcome.Passed? ==> forall i :: 0 <= i < |world.nodes| ==>
                      world.nodes[i].installed == Target(start, inputs))
    {
      if world.memory.Active? { return Busy; }
      var idle := Begin(inputs.jitter);
      if idle.Some? {
        if idle.value == NotYetDue { PlanStands(); }
        return idle.value;
      }
      var ok := Attempt(inputs);
      if ok {
        Sound();
        Do(Release);
        FinishedMeansDeployed();
        PlanStands();
        return Passed;
      }
      GiveUp(inputs.spread);
      return Faulted;
    }

    /** What is planned is what any later invocation computes for the same bundle. */
    lemma PlanStands()
      requires Valid() && world.journal.Some? && world.journal.value.complete
      requires world.journal.value.nextRetry == world.journal.value.windowStart
      ensures Loadable(world) && PlannedAgain(world) && world.journal.value.jitter <= 300
      ensures var c := world.store[CurrentGeneration(world)];
              && OpensAt(c, world.journal.value.jitter, world.journal.value.nextRetry)
              && (c.expiresAt - c.issuedAt >= 6 * 3600 ==>
                    c.issuedAt < world.journal.value.nextRetry <= c.expiresAt - 2 * 3600)
    {
      Sound();
      AlwaysLoadable(world);
      RunKeepsPlan(trace, |trace| - 1);
      var c, j := world.store[CurrentGeneration(world)], world.journal.value;
      WindowIs(c, j.jitter, j.windowStart);
      if c.expiresAt - c.issuedAt >= 6 * 3600 { OpensInTime(c, j.jitter, j.nextRetry); }
    }

    lemma FinishedMeansDeployed()
      requires Valid() && world.journal.Some? && world.journal.value.complete
      ensures CurrentGeneration(world) in world.store
      ensures world.journal.value.currentGeneration == CurrentGeneration(world)
      ensures forall i :: 0 <= i < |world.nodes| ==>
                world.nodes[i].installed == world.store[CurrentGeneration(world)]
    {
      Sound();
      forall i | 0 <= i < |world.nodes|
        ensures world.nodes[i].installed == world.store[CurrentGeneration(world)]
      {
        CompleteMeansDeployed(world, i);
      }
    }
  }
}
