/** What the renewal protocol can always do: from every reachable state some continuation completes
    a new generation on all four nodes; and lapses really can stretch the rollout without bound. */
module RenewalProgress {
  import opened Wrappers
  import opened Collections
  import opened Fleet
  import opened Renewal
  import opened RenewalSafety
  import Publication

  ghost predicate Reaches(s: System, t: System) {
    exists trace :: IsRun(trace) && trace[0] == s && trace[|trace| - 1] == t
  }

  lemma ReachesTransitive(s: System, t: System, u: System)
    requires Reaches(s, t) && Reaches(t, u)
    ensures Reaches(s, u)
  {
    var a :| IsRun(a) && a[0] == s && a[|a| - 1] == t;
    var b :| IsRun(b) && b[0] == t && b[|b| - 1] == u;
    var c := a + b[1..];
    forall i | 0 <= i < |c| - 1 ensures Step(c[i], c[i + 1]) {
      if i < |a| - 1 {
        assert Step(a[i], a[i + 1]);
      } else {
        var k := i - (|a| - 1);
        assert Step(b[k], b[k + 1]) && c[i] == b[k];
      }
    }
    assert IsRun(c);
  }

  lemma ReachesSelf(s: System)
    ensures Reaches(s, s)
  {
    assert IsRun([s]);
  }

  /** One more action at the end of a run. */
  lemma Extend(s: System, t: System, a: Action)
    requires Reaches(s, t) && Enabled(t, a)
    ensures Reaches(s, Next(t, a))
  {
    var u := Next(t, a);
    assert Step(t, u);
    var trace := [t, u];
    assert IsRun(trace) && trace[0] == t && trace[|trace| - 1] == u;
    ReachesTransitive(s, t, u);
  }

  lemma ReachesKeepsInv(s: System, t: System)
    requires Inv(s) && Reaches(s, t)
    ensures Inv(t) && Extends(s, t)
  {
    var trace :| IsRun(trace) && trace[0] == s && trace[|trace| - 1] == t;
    RunKeepsInv(trace, |trace| - 1);
    RunExtends(trace, 0, |trace| - 1);
  }

  /** The next generation, signed and adopted, with a day to live. */
  ghost predicate JustAdopted(s: System, t: System) {
    && Inv(t)
    && t.memory.Active? && t.memory.phase == Sending(0)
    && t.memory.tip.issuedAt == t.clock && t.memory.tip.expiresAt == t.clock + 86400
    && CurrentGeneration(t) == Top(t) >= CurrentGeneration(s) + 1
    && t.nodes == s.nodes && !t.memory.journal.complete
  }

  /** After a crash, waiting until every stored bundle and the retry delay have run out. */
  lemma CrashAndWait(s: System) returns (t: System)
    requires Inv(s)
    ensures Reaches(s, t) && t == s.(memory := Idle, clock := t.clock)
    ensures t.clock >= s.clock && t.clock >= s.store[Top(s)].expiresAt
  {
    ReachesSelf(s);
    Extend(s, s, Crash);
    var wait := Max(0, s.store[Top(s)].expiresAt - s.clock);
    t := Next(Next(s, Crash), Tick(wait));
    Extend(s, Next(s, Crash), Tick(wait));
  }

  /** A new invocation takes up whatever successor a crash left in the store. */
  lemma LoadAndReview(s: System) returns (t: System)
    requires Inv(s) && s.memory.Idle?
    ensures Reaches(s, t) && t.memory.Active?
    ensures t.store == s.store && t.nodes == s.nodes && t.clock == s.clock && t.initial == s.initial
    ensures t.memory.phase == Reviewed(s.clock + 86430) && t.memory.now == s.clock
    ensures t.memory.tip == s.store[Top(s)] && CurrentGeneration(t) == Top(s)
    ensures t.lapses == s.lapses && t.floor == s.floor
    ensures Top(s) > CurrentGeneration(s) ==> !t.memory.journal.complete
    ensures Top(s) == CurrentGeneration(s) ==> t.memory.journal.complete == CompleteOnDisk(s)
  {
    AlwaysLoadable(s);
    ReachesSelf(s);
    Extend(s, s, Load(0));
    var s1 := Next(s, Load(0));
    Extend(s, s1, Collect(s.clock + 86430));
    var s2 := Next(s1, Collect(s.clock + 86430));
    var a := if s2.memory.tip.generation + 1 in s2.store then AdoptExisting else KeepTip;
    Extend(s, s2, a);
    t := Next(s2, a);
  }

  lemma SignAndAdopt(s: System) returns (t: System)
    requires Inv(s) && s.memory.Active? && s.memory.phase == Reviewed(s.clock + 86430)
    requires s.memory.now == s.clock && MaySign(s.memory)
    ensures Reaches(s, t) && JustAdopted(s, t)
    ensures CurrentGeneration(t) == CurrentGeneration(s) + 1
    ensures t.floor == s.floor
    ensures t.lapses == if s.memory.journal.complete then s.lapses else s.lapses + 1
  {
    ReachesSelf(s);
    Extend(s, s, Sign([]));
    var s1 := Next(s, Sign([]));
    Extend(s, s1, AdoptSigned);
    t := Next(s1, AdoptSigned);
    ReachesKeepsInv(s, t);
  }

  /** Whatever state a crash left behind, outwaiting the stored bundles allows a new signature. */
  lemma ExpireAndSign(s: System) returns (t: System)
    requires Inv(s)
    ensures Reaches(s, t) && JustAdopted(s, t) && CurrentGeneration(t) == Top(s) + 1
    ensures t.lapses == if CompleteOnDisk(s) && Top(s) == CurrentGeneration(s) then s.lapses else s.lapses + 1
  {
    var a := CrashAndWait(s);
    ReachesKeepsInv(s, a);
    var b := LoadAndReview(a);
    ReachesKeepsInv(a, b);
    t := SignAndAdopt(b);
    ReachesTransitive(s, a, b);
    ReachesTransitive(s, b, t);
  }

  /** The loop position after node `i` has answered. */
  function AfterNode(i: nat): Phase {
    if i + 1 == FLEET_SIZE then Checking(0) else Sending(i + 1)
  }

  /** Node `i` now runs the tip and answered; nothing else moved. */
  ghost predicate DeployedOne(s: System, t: System, i: nat)
    requires s.memory.Active? && |s.nodes| == FLEET_SIZE && i < FLEET_SIZE
  {
    && Inv(t)
    && t.clock == s.clock && t.store == s.store && t.floor == s.floor && t.lapses == s.lapses
    && CurrentGeneration(t) == CurrentGeneration(s)
    && t.memory.Active? && t.memory.tip == s.memory.tip && t.memory.phase == AfterNode(i)
    && t.nodes[i].installed == s.memory.tip
    && (!s.memory.journal.complete ==> !CompleteOnDisk(t))
    && forall k :: 0 <= k < FLEET_SIZE && k != i ==> t.nodes[k] == s.nodes[k]
  }

  /** Whoever holds the lock of node `i` dies. */
  lemma FreeLock(s: System, i: nat) returns (t: System)
    requires Inv(s) && i < FLEET_SIZE
    ensures |t.nodes| == |s.nodes|
    ensures Reaches(s, t) && t == s.(nodes := s.nodes[i := t.nodes[i]])
    ensures t.nodes[i].holder == None && t.nodes[i].installed == s.nodes[i].installed
  {
    assert NodeInv(s, i) && Publication.Inv(s.nodes[i]);
    ReachesSelf(s);
    t := s;
    if s.nodes[i].holder.Some? {
      var a := AtNode(i, Publication.Abort(s.nodes[i].holder.value));
      Extend(s, s, a);
      t := Next(s, a);
    }
  }

  /** On a node whose lock is free, a handler with an acceptable newer bundle installs it in four
      actions of its own. */
  lemma HandlerAlone(n: Publication.Node, id: nat, r: Request, now: int)
      returns (steps: seq<Publication.Node>)
    requires n.holder == None && id in n.handlers && n.handlers[id] == Publication.Arrived(r)
    requires Publication.Advances(r, n.installed)
    requires Publication.Acceptable(r, n.installed, n.installed, now)
    ensures |steps| == 5 && steps[0] == n
    ensures forall k :: 0 <= k < 4 ==> NodeStepOf(steps[k], steps[k + 1])
    ensures steps[4].installed == r.files
  {
    var a := Publication.Next(n, Publication.Compare(id));
    var b := Publication.Next(a, Publication.Acquire(id));
    var c := Publication.Next(b, Publication.Validate(id, now));
    var d := Publication.Next(c, Publication.Publish(id));
    steps := [n, a, b, c, d];
    NodeStepBy(n, Publication.Compare(id));
    NodeStepBy(a, Publication.Acquire(id));
    NodeStepBy(b, Publication.Validate(id, now));
    NodeStepBy(c, Publication.Publish(id));
  }

  ghost predicate NodeStepOf(n: Publication.Node, m: Publication.Node) {
    exists a: Publication.Action :: !a.Arrive? && Publication.Enabled(n, a) && m == Publication.Next(n, a)
  }

  lemma NodeStepBy(n: Publication.Node, a: Publication.Action)
    requires !a.Arrive? && Publication.Enabled(n, a)
    ensures NodeStepOf(n, Publication.Next(n, a))
  {
  }

  /** Node actions lift to the whole system. */
  lemma LiftNodeStep(s: System, t: System, i: nat, m: Publication.Node)
    requires Reaches(s, t) && i < |t.nodes| && NodeStepOf(t.nodes[i], m)
    ensures Reaches(s, t.(nodes := t.nodes[i := m]))
  {
    var a: Publication.Action :| !a.Arrive? && Publication.Enabled(t.nodes[i], a) && m == Publication.Next(t.nodes[i], a);
    Extend(s, t, AtNode(i, a));
  }

  lemma LiftNodeSteps(s: System, i: nat, steps: seq<Publication.Node>, k: nat)
    requires i < |s.nodes| && k < |steps| && steps[0] == s.nodes[i]
    requires forall l :: 0 <= l < |steps| - 1 ==> NodeStepOf(steps[l], steps[l + 1])
    ensures Reaches(s, s.(nodes := s.nodes[i := steps[k]]))
  {
    if k == 0 {
      ReachesSelf(s);
      assert s == s.(nodes := s.nodes[i := steps[0]]);
    } else {
      LiftNodeSteps(s, i, steps, k - 1);
      var t := s.(nodes := s.nodes[i := steps[k - 1]]);
      assert NodeStepOf(steps[k - 1], steps[k - 1 + 1]);
      LiftNodeStep(s, t, i, steps[k]);
      assert t.(nodes := t.nodes[i := steps[k]]) == s.(nodes := s.nodes[i := steps[k]]);
    }
  }

  /** The new request, handled alone, installs the tip on node `i`. */
  lemma DeployOne(s: System, i: nat) returns (t: System)
    requires Inv(s) && s.memory.Active? && i < FLEET_SIZE && s.memory.phase == Sending(i)
    requires s.memory.tip.issuedAt <= s.clock && s.memory.tip.expiresAt >= s.clock + 60
    requires s.nodes[i].installed.generation < s.memory.tip.generation
    ensures Reaches(s, t) && DeployedOne(s, t, i)
  {
    assert NodeInv(s, i);
    var s1 := FreeLock(s, i);
    var id := NumberAbove(s1.nodes[i].handlers.Keys);
    Extend(s, s1, Send(id));
    var s2 := Next(s1, Send(id));
    var steps := HandlerAlone(s2.nodes[i], id, DeployRequest(s.memory.tip), s.clock);
    LiftNodeSteps(s2, i, steps, 4);
    var s3 := s2.(nodes := s2.nodes[i := steps[4]]);
    ReachesTransitive(s, s2, s3);
    t := DeployAnswered(s, s3, i);
  }

  lemma DeployAnswered(s: System, s3: System, i: nat) returns (t: System)
    requires Inv(s) && s.memory.Active? && i < FLEET_SIZE && Reaches(s, s3)
    requires s3.memory == s.memory.(phase := Awaiting(i)) && |s3.nodes| == FLEET_SIZE
    requires s3 == s.(memory := s3.memory, nodes := s.nodes[i := s3.nodes[i]])
    requires s3.nodes[i].installed == s.memory.tip
    ensures Reaches(s, t) && DeployedOne(s, t, i)
  {
    Extend(s, s3, Acknowledge);
    t := Next(s3, Acknowledge);
    ReachesKeepsInv(s, t);
  }

  /** All nodes from `i` on are deployed to in turn. */
  lemma DeployRest(s: System, i: nat) returns (t: System)
    requires Inv(s) && s.memory.Active? && i < FLEET_SIZE && s.memory.phase == Sending(i)
    requires s.memory.tip.issuedAt <= s.clock && s.memory.tip.expiresAt >= s.clock + 60
    requires forall k :: i <= k < FLEET_SIZE ==>
               s.nodes[k].installed.generation < s.memory.tip.generation
    requires forall k :: 0 <= k < i ==> s.nodes[k].installed == s.memory.tip
    ensures Reaches(s, t) && Inv(t) && CurrentGeneration(t) == CurrentGeneration(s)
    ensures t.memory.Active? && t.memory.phase == Checking(0) && t.memory.tip == s.memory.tip
    ensures forall k :: 0 <= k < FLEET_SIZE ==> t.nodes[k].installed == s.memory.tip
    decreases FLEET_SIZE - i
  {
    t := DeployOne(s, i);
    if i + 1 < FLEET_SIZE {
      var u := DeployRest(t, i + 1);
      ReachesTransitive(s, t, u);
      t := u;
    }
  }

  /** The verify loop over a fleet that runs the tip. */
  lemma CheckRest(s: System, i: nat) returns (t: System)
    requires Inv(s) && s.memory.Active? && i <= FLEET_SIZE && s.memory.phase == Checking(i)
    requires forall k :: 0 <= k < FLEET_SIZE ==> s.nodes[k].installed == s.memory.tip
    ensures Reaches(s, t) && Inv(t) && t.nodes == s.nodes
    ensures CurrentGeneration(t) == CurrentGeneration(s)
    ensures t.journal.Some? && t.journal.value.complete && t.memory.Idle?
    decreases FLEET_SIZE - i
  {
    ReachesSelf(s);
    if i < FLEET_SIZE {
      Extend(s, s, Check);
      var u := Next(s, Check);
      ReachesKeepsInv(s, u);
      t := CheckRest(u, i + 1);
      ReachesTransitive(s, u, t);
    } else {
      Extend(s, s, Complete);
      var u := Next(s, Complete);
      Extend(s, u, Release);
      t := Next(u, Release);
      ReachesKeepsInv(s, t);
    }
  }

  /** No reachable state is a dead end: some continuation completes a newer generation everywhere. */
  lemma CanAlwaysComplete(s: System) returns (t: System)
    requires Inv(s)
    ensures Reaches(s, t) && CurrentGeneration(t) > CurrentGeneration(s)
    ensures t.journal.Some? && t.journal.value.complete && t.memory.Idle? && |t.nodes| == FLEET_SIZE
    ensures forall i :: 0 <= i < FLEET_SIZE ==>
              t.nodes[i].installed.generation == CurrentGeneration(t)
  {
    var a := ExpireAndSign(s);
    forall k | 0 <= k < FLEET_SIZE
      ensures a.nodes[k].installed.generation < a.memory.tip.generation
    {
      assert NodeInv(s, k);
    }
    var b := DeployRest(a, 0);
    t := CheckRest(b, 0);
    ReachesTransitive(s, a, b);
    ReachesTransitive(s, b, t);
  }

  /** One lapse: the newest bundle expires, a successor is signed, and only node 0 receives it. */
  lemma LapseOnce(s: System) returns (t: System)
    requires Inv(s) && s.memory.Idle?
    ensures Reaches(s, t) && Inv(t) && t.memory.Idle?
    ensures t.nodes[0].installed.generation == CurrentGeneration(t) == Top(s) + 1 == Top(t)
    ensures t.nodes[1] == s.nodes[1] && !CompleteOnDisk(t)
    ensures t.lapses == if CompleteOnDisk(s) && Top(s) == CurrentGeneration(s) then s.lapses else s.lapses + 1
  {
    var c := ExpireAndSign(s);
    assert NodeInv(s, 0);
    var d := DeployOne(c, 0);
    ReachesTransitive(s, c, d);
    Extend(s, d, Crash);
    t := Next(d, Crash);
    ReachesKeepsInv(s, t);
  }

  /** The bound is exact and grows without end: for every number of lapses a spread of one more than
      that can be reached from a uniform start. */
  lemma {:induction false} SpreadIsUnbounded(s: System, n: nat) returns (t: System)
    requires Initial(s)
    ensures Reaches(s, t) && Inv(t) && t.memory.Idle? && t.nodes[1] == s.nodes[1]
    ensures t.nodes[0].installed.generation - t.nodes[1].installed.generation == n
    ensures t.nodes[0].installed.generation == CurrentGeneration(t) == Top(t)
    ensures if n == 0 then t == s else t.lapses == n - 1 && !CompleteOnDisk(t)
  {
    InitialHasInv(s);
    if n == 0 {
      ReachesSelf(s);
      t := s;
    } else {
      var u := SpreadIsUnbounded(s, n - 1);
      t := LapseOnce(u);
      ReachesTransitive(s, u, t);
    }
  }
}
