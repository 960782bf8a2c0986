/** The node-side publication handler, one action per atomic access to the node's disk.

    Several handlers may be in flight on one node: the installed bundle is read before the lock is
    taken and read again under it, and any handler may die at any point. */
module Publication {
  import opened Wrappers
  import opened Fleet

  /** How far a deploy handler has got. */
  datatype Handler =
    | Arrived(request: Request)
    | Compared(request: Request, seen: Config)
    | Locked(request: Request, seen: Config)
    | Validated(request: Request, seen: Config)

  datatype Node = Node(installed: Config, holder: Option<nat>, handlers: map<nat, Handler>)

  datatype Action =
    | Arrive(id: nat, request: Request)
    | Compare(id: nat)
    | Acquire(id: nat)
    | Validate(id: nat, now: int)
    | Publish(id: nat)
    | Abort(id: nat)

  predicate Enabled(n: Node, a: Action) {
    match a
    case Arrive(id, _) => id !in n.handlers
    case Compare(id) => id in n.handlers && n.handlers[id].Arrived?
    case Acquire(id) => id in n.handlers && n.handlers[id].Compared?
    case Validate(id, _) => id in n.handlers && n.handlers[id].Locked?
    case Publish(id) => id in n.handlers && n.handlers[id].Validated?
    case Abort(id) => id in n.handlers
  }

  /** The handler returns or dies; its lock, if it held it, is released with it. */
  function Finish(n: Node, id: nat): Node {
    n.(handlers := n.handlers - {id}, holder := if n.holder == Some(id) then None else n.holder)
  }

  /** The checks a request passes before the lock: no rollback, not a repeat, intact, right digest. */
  predicate Advances(r: Request, seen: Config) {
    r.generation > seen.generation && r.intact && Sha256(r.files) == r.digest
  }

  /** The checks under the lock; `current` is the directory the previous peers are read from. */
  predicate Acceptable(r: Request, seen: Config, current: Config, now: int) {
    && CurrentlyValid(r.files, now)
    && r.files.peers == current.peers
    && r.files.generation == r.generation
    && Sha256(r.files) == r.digest
    && r.files.expiresAt - now >= 60
    && r.files.policy == seen.policy
  }

  function Next(n: Node, a: Action): Node
    requires Enabled(n, a)
  {
    match a
    case Arrive(id, r) => n.(handlers := n.handlers[id := Arrived(r)])
    case Compare(id) =>
      var r := n.handlers[id].request;
      if Advances(r, n.installed)
      then n.(handlers := n.handlers[id := Compared(r, n.installed)])
      else Finish(n, id)
    case Acquire(id) =>
      var h := n.handlers[id];
      if n.holder == None
      then n.(holder := Some(id), handlers := n.handlers[id := Locked(h.request, h.seen)])
      else Finish(n, id)
    case Validate(id, now) =>
      var h := n.handlers[id];
      if Acceptable(h.request, h.seen, n.installed, now)
      then n.(handlers := n.handlers[id := Validated(h.request, h.seen)])
      else Finish(n, id)
    case Publish(id) =>
      var h := n.handlers[id];
      if n.installed.generation == h.seen.generation && Sha256(n.installed) == Sha256(h.seen)
      then Finish(n.(installed := h.request.files), id)
      else Finish(n, id)
    case Abort(id) => Finish(n, id)
  }

  ghost predicate Step(n: Node, m: Node) {
    exists a :: Enabled(n, a) && m == Next(n, a)
  }

  ghost predicate IsRun(trace: seq<Node>) {
    |trace| > 0 && forall i :: 0 <= i < |trace| - 1 ==> Step(trace[i], trace[i + 1])
  }

  /** Only the lock holder is past `Acquire`; what a handler has checked stays true. */
  ghost predicate HandlerInv(n: Node, id: nat) {
    id in n.handlers ==>
      var h := n.handlers[id];
      && ((h.Locked? || h.Validated?) <==> n.holder == Some(id))
      && (!h.Arrived? ==> Advances(h.request, h.seen))
      && (h.Validated? ==> h.request.files.peers == n.installed.peers
                           && h.request.files.policy == h.seen.policy
                           && h.request.files.generation == h.request.generation)
  }

  ghost predicate Inv(n: Node) {
    && (n.holder.Some? ==> n.holder.value in n.handlers)
    && forall id :: HandlerInv(n, id)
  }

  lemma StepKeepsInv(n: Node, a: Action)
    requires Inv(n) && Enabled(n, a)
    ensures Inv(Next(n, a))
  {
    var m := Next(n, a);
    forall id ensures HandlerInv(m, id) {
      assert HandlerInv(n, id) && HandlerInv(n, a.id);
    }
  }

  /** One action either leaves the installed bundle alone or replaces it by a strictly newer one of
      the same fleet, and then it is the lock holder's. */
  lemma StepAdvances(n: Node, a: Action)
    requires Inv(n) && Enabled(n, a)
    ensures var m := Next(n, a);
            m.installed != n.installed ==>
              && n.holder == Some(a.id)
              && m.installed == n.handlers[a.id].request.files
              && n.installed.generation < m.installed.generation
              && m.installed.generation == n.handlers[a.id].request.generation
              && SameFleet(n.installed, m.installed)
  {
    assert HandlerInv(n, a.id);
  }

  lemma {:induction false} RunKeepsInv(trace: seq<Node>, i: nat)
    requires IsRun(trace) && Inv(trace[0]) && i < |trace|
    ensures Inv(trace[i])
  {
    if i > 0 {
      RunKeepsInv(trace, i - 1);
      assert Step(trace[i - 1], trace[i - 1 + 1]);
      var a :| Enabled(trace[i - 1], a) && trace[i] == Next(trace[i - 1], a);
      StepKeepsInv(trace[i - 1], a);
    }
  }

  /** Under every interleaving of handlers, deaths included: generations never fall, equal
      generations mean equal bundles, and identities and policy are those of the first bundle. */
  lemma {:induction false} RunIsMonotone(trace: seq<Node>, i: nat, j: nat)
    requires IsRun(trace) && Inv(trace[0]) && i <= j < |trace|
    ensures trace[i].installed.generation <= trace[j].installed.generation
    ensures trace[i].installed.generation == trace[j].installed.generation
            <==> trace[i].installed == trace[j].installed
    ensures SameFleet(trace[i].installed, trace[j].installed)
  {
    if i < j {
      RunIsMonotone(trace, i, j - 1);
      RunKeepsInv(trace, j - 1);
      assert Step(trace[j - 1], trace[j - 1 + 1]);
      var a :| Enabled(trace[j - 1], a) && trace[j] == Next(trace[j - 1], a);
      StepAdvances(trace[j - 1], a);
    }
  }
}
