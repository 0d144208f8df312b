/** The supervisor's resident worker: activation of an artifact in a new child, with roll-back, and the
    children it must not lose track of.  What a child answers, and whether it dies, are parameters. */
module WorkerSwitch {
  import opened Text

  /** A compile key. */
  type Key = nat

  const RESULT_BYTES := 480

  /** What comes of one request to a child. */
  datatype Exchange = TimedOut | Broken | Replied(kind: string, code: string, size: nat)

  datatype Outcome = Done | Failed(code: string)

  /** The code an INFER fails with after this exchange with a live child; none if the answer counts. */
  function FailureOf(e: Exchange): Option<string> {
    match e
    case TimedOut => Some("TIMEOUT")
    case Broken => Some("WORKER_IO")
    case Replied(kind, code, size) =>
      if code != "" then Some(code)
      else if kind != "RESULT" then Some("INFER_REFUSED")
      else if size != RESULT_BYTES then Some("INFER_SHORT")
      else None
  }

  /** The failures after which a worker is not used again. */
  const FATAL := {"DEVICE_FAULT", "WORKER_DEAD", "WORKER_IO", "INFER_SHORT", "WORKER_SPAWN"}

  class NativeWorker {
    var generation: nat
    var loaded: bool
    var alive: bool
    var requests: nat
    /** The artifact the child confirmed loading. */
    var artifact: Option<Key>

    constructor ()
      ensures generation == 0 && !loaded && alive && requests == 1 && artifact.None?
    {
      generation, loaded, alive, requests, artifact := 0, false, true, 1, None;
    }

    /** One numbered request and its reply, or the code of the failure. */
    method Ask(exchange: Exchange) returns (reply: Exchange, failure: Option<string>)
      modifies `requests
      ensures failure == if !alive then Some("WORKER_DEAD") else if exchange.TimedOut? then Some("TIMEOUT")
                         else if exchange.Broken? then Some("WORKER_IO") else None
      ensures failure.None? ==> reply == exchange && reply.Replied?
      ensures requests == old(requests) + 1
    {
      reply := exchange;
      requests := requests + 1;
      if !alive { return reply, Some("WORKER_DEAD"); }
      match exchange
      case TimedOut => return reply, Some("TIMEOUT");
      case Broken => return reply, Some("WORKER_IO");
      case Replied(_, _, _) => return reply, None;
    }

    method Load(key: Key, generation: nat, classCount: int, exchange: Exchange) returns (r: Outcome)
      modifies this
      ensures alive == old(alive)
      ensures r.Done? <==>
                classCount > 0 && old(alive) && exchange.Replied? && exchange.kind == "STATUS" && exchange.code == ""
      ensures r.Done? ==> loaded && this.generation == generation && artifact == Some(key)
      ensures r.Failed? ==>
                loaded == old(loaded) && this.generation == old(this.generation) && artifact == old(artifact)
    {
      if classCount <= 0 { return Failed("INVALID_ARGS"); }
      var reply, failure := Ask(exchange);
      if failure.Some? { return Failed(failure.value); }
      if reply.kind != "STATUS" || reply.code != "" {
        return Failed(if reply.code != "" then reply.code else "LOAD_REFUSED");
      }
      this.generation, loaded, artifact := generation, true, Some(key);
      return Done;
    }

    method Infer(exchange: Exchange) returns (r: Outcome)
      modifies `requests
      ensures requests == old(requests) + 1
      ensures r == if !alive then Failed("WORKER_DEAD")
                   else if FailureOf(exchange).Some? then Failed(FailureOf(exchange).value) else Done
    {
      var reply, failure := Ask(exchange);
      if failure.Some? { return Failed(failure.value); }
      if reply.kind != "RESULT" || reply.code != "" {
        return Failed(if reply.code != "" then reply.code else "INFER_REFUSED");
      }
      if reply.size != RESULT_BYTES { return Failed("INFER_SHORT"); }
      return Done;
    }

    /** Shuts the child down; it may outlive the attempt. */
    method Retire(exits: bool)
      modifies this
      ensures alive == (old(alive) && !exits)
      ensures generation == old(generation) && artifact == old(artifact)
    {
      if alive { requests := requests + 1; }
      if exits {
        alive, loaded := false, false;
      }
    }
  }

  /** What inspecting an artifact before its activation yields. */
  datatype Inspection = Unusable(code: string) | Usable(digest: string, classCount: int)

  /** How one activation goes: the inspection, the spawn, the answer to LOAD, the write of the active
      state, and whether a child that is shut down exits and is seen to. */
  datatype Attempt = Attempt(inspection: Inspection, spawns: bool, load: Exchange, stateWritten: bool, exits: bool,
                             seen: bool)

  datatype Status = Answered | NoWorker | Refused | Late

  class Supervisor {
    var worker: NativeWorker?
    var generation: nat
    var key: Option<Key>
    var digest: Option<string>
    var orphans: seq<NativeWorker>
    var inhibited: bool
    ghost var spawned: set<NativeWorker>

    /** The worker is loaded with the supervisor's own key at its own generation, and every live child
        is the worker or an orphan. */
    ghost predicate Valid()
      reads this, spawned
    {
      Known(spawned)
    }

    ghost predicate Known(children: set<NativeWorker>)
      reads this, children
    {
      && (worker == null ==> key.None? && digest.None?)
      && (worker != null ==> worker in children && worker.loaded && worker.generation == generation
                             && key.Some? && worker.artifact == key)
      && (forall i | 0 <= i < |orphans| :: orphans[i] in children && orphans[i] != worker)
      && (forall w | w in children && w.alive :: w == worker || w in orphans)
    }

    lemma {:induction false} WhatValidSays()
      requires Valid()
      ensures forall w | w in spawned && w.alive :: w == worker || w in orphans
      ensures worker == null ==> key.None?
      ensures worker != null ==> worker.loaded && worker.generation == generation && key.Some? && worker.artifact == key
    {
    }

    constructor ()
      ensures Valid() && worker == null && generation == 0 && orphans == [] && spawned == {} && !inhibited
    {
      worker, generation, key, digest, orphans, inhibited, spawned := null, 0, None, None, [], false, {};
    }

    /** Retires a discarded child and keeps hold of it unless its death is confirmed. */
    method RetireOrTrack(w: NativeWorker, exits: bool, seen: bool)
      requires w in spawned
      modifies w, `orphans
      ensures w.alive == (old(w.alive) && !exits)
      ensures orphans == if seen && !w.alive then old(orphans) else old(orphans) + [w]
    {
      w.Retire(exits);
      var confirmed := seen && !w.alive;
      if !confirmed { orphans := orphans + [w]; }
    }

    /** Swaps the resident worker: the new child loads before the old one retires, and a failure leaves
        worker, generation, key and digest exactly as they were. */
    method ActivateWorker(target: Key, a: Attempt) returns (ok: bool)
      requires Valid()
      modifies this, spawned
      ensures Valid() && fresh(spawned - old(spawned))
      ensures ok ==> worker != null && fresh(worker) && generation == old(generation) + 1 && key == Some(target)
      ensures ok ==> a.inspection.Usable? && digest == Some(a.inspection.digest)
      ensures !ok ==> worker == old(worker) && generation == old(generation) && key == old(key) && digest == old(digest)
      ensures !ok && worker != null ==> worker.alive == old(worker.alive) && worker.requests == old(worker.requests)
      ensures ok && old(worker) != null ==> old(worker).alive == (old(worker.alive) && !a.exits)
      ensures ok <==> Succeeds(a)
      ensures ok <==> && a.inspection.Usable? && a.inspection.classCount > 0 && a.spawns
                      && a.load.Replied? && a.load.kind == "STATUS" && a.load.code == "" && a.stateWritten
      ensures inhibited == (old(inhibited) || (!ok && !(a.inspection.Unusable? && a.inspection.code == "NOT_PREPARED")))
    {
      if a.inspection.Unusable? {
        if a.inspection.code != "NOT_PREPARED" { inhibited := true; }
        return false;
      }
      var next := generation + 1;
      if !a.spawns {
        inhibited := true;
        return false;
      }
      var child := new NativeWorker();
      spawned := spawned + {child};
      var loaded := child.Load(target, next, a.inspection.classCount, a.load);
      if loaded.Failed? {
        RetireOrTrack(child, a.exits, a.seen);
        inhibited := true;
        return false;
      }
      ok := Swap(child, next, target, a);
    }

    /** Makes a loaded child the worker, or takes the swap back if the active state cannot be written. */
    method Swap(child: NativeWorker, next: nat, target: Key, a: Attempt) returns (ok: bool)
      requires child in spawned && child != worker && child !in orphans && child.loaded
      requires child.generation == next && child.artifact == Some(target) && a.inspection.Usable?
      requires Known(spawned - {child})
      modifies this, spawned
      ensures Valid() && spawned == old(spawned)
      ensures ok == a.stateWritten
      ensures ok ==> worker == child && generation == next && key == Some(target) && digest == Some(a.inspection.digest)
      ensures !ok ==> worker == old(worker) && generation == old(generation) && key == old(key) && digest == old(digest)
      ensures !ok && worker != null ==> worker.alive == old(worker.alive) && worker.requests == old(worker.requests)
      ensures ok && old(worker) != null ==> old(worker).alive == (old(worker.alive) && !a.exits)
      ensures inhibited == (old(inhibited) || !ok)
    {
      var previous, oldKey, oldGeneration, oldDigest := worker, key, generation, digest;
      worker, generation, key, digest := child, next, Some(target), Some(a.inspection.digest);
      if !a.stateWritten {
        RetireOrTrack(child, a.exits, a.seen);
        worker, generation, key, digest := previous, oldGeneration, oldKey, oldDigest;
        inhibited := true;
        return false;
      }
      if previous != null { RetireOrTrack(previous, a.exits, a.seen); }
      return true;
    }

    /** Retires and forgets the worker. */
    method DropWorker(exits: bool, seen: bool)
      requires Valid()
      modifies this, spawned
      ensures Valid() && spawned == old(spawned)
      ensures worker == null && generation == old(generation) && inhibited
      ensures old(worker) != null ==> old(worker).alive == (old(worker.alive) && !exits)
      ensures orphans == if old(worker) == null || (seen && !old(worker).alive) then old(orphans)
                         else old(orphans) + [old(worker)]
    {
      var w := worker;
      worker, key, digest := null, None, None;
      if w != null { RetireOrTrack(w, exits, seen); }
      inhibited := true;
    }

    /** The worker is there and answers. */
    predicate Lives(died: bool)
      reads this, worker
    {
      worker != null && worker.alive && !died
    }

    /** Forwards one request to the resident worker, which may have died meanwhile; `reached` is the key
        of the worker the request was sent to.  The worker is dropped exactly if it is dead or fails
        fatally: a late answer costs only the request. */
    method WorkerInfer(died: bool, exchange: Exchange, exits: bool, seen: bool)
        returns (s: Status, reached: Option<Key>)
      requires Valid()
      modifies this, spawned
      ensures Valid() && spawned == old(spawned) && generation == old(generation)
      ensures var failure := FailureOf(exchange);
              && s == (if old(worker) == null then NoWorker
                       else if !old(Lives(died)) then Refused
                       else if failure.None? then Answered
                       else if failure.value == "TIMEOUT" then Late else Refused)
              && reached == (if old(Lives(died)) then old(key) else None)
              && var dropped := old(worker) != null && (!old(Lives(died)) || (failure.Some? && failure.value in FATAL));
                 && worker == (if dropped then null else old(worker))
                 && key == (if dropped then None else old(key)) && digest == (if dropped then None else old(digest))
                 && inhibited == (old(inhibited) || dropped)
      ensures var live := old(worker) != null && old(worker.alive) && !died;
              && (s.NoWorker? <==> old(worker) == null)
              && (s.Answered? <==> live && exchange.Replied? && exchange.kind == "RESULT" && exchange.code == ""
                                   && exchange.size == 480)
              && (s.Late? <==> live && (exchange.TimedOut? || (exchange.Replied? && exchange.code == "TIMEOUT")))
              && (old(worker) != null ==>
                    (worker == old(worker) <==>
                       && live && !exchange.Broken?
                       && (exchange.Replied? ==>
                             && exchange.code !in {"DEVICE_FAULT", "WORKER_DEAD", "WORKER_IO", "INFER_SHORT",
                                                   "WORKER_SPAWN"}
                             && (exchange.code == "" && exchange.kind == "RESULT" ==> exchange.size == 480))))
    {
      reached := None;
      if worker == null || !worker.loaded { return NoWorker, None; }
      if died { worker.alive := false; }
      if !worker.alive {
        DropWorker(exits, seen);
        return Refused, None;
      }
      reached := worker.artifact;
      var r := worker.Infer(exchange);
      match r
      case Done => return Answered, reached;
      case Failed(code) =>
        if code in FATAL { DropWorker(exits, seen); }
        return if code == "TIMEOUT" then Late else Refused, reached;
    }
  }

  /** When an activation succeeds: a usable artifact, a child that confirms loading it, and a state that
      can be written. */
  predicate Succeeds(a: Attempt) {
    && a.inspection.Usable? && a.inspection.classCount > 0 && a.spawns && a.stateWritten
    && a.load.Replied? && a.load.kind == "STATUS" && a.load.code == ""
  }

  // ================= all runs =================

  datatype Call =
    | Activating(target: Key, attempt: Attempt)
    | Inferring(died: bool, exchange: Exchange, exits: bool, seen: bool)
    | Dropping(exits: bool, seen: bool)

  /** The targets of the activations that succeed, in order. */
  function Activated(calls: seq<Call>): seq<Key> {
    if calls == [] then []
    else
      var last := calls[|calls| - 1];
      Activated(calls[..|calls| - 1]) + if last.Activating? && Succeeds(last.attempt) then [last.target] else []
  }

  /** What the supervisor may be serving: the last successful target, or what it served before. */
  function LastTarget(calls: seq<Call>, key: Option<Key>): Option<Key> {
    var targets := Activated(calls);
    if targets == [] then key else Some(targets[|targets| - 1])
  }

  /** Over any sequence of activations, requests and drops, however the children behave, no live child is
      ever lost, the generation counts exactly the activations that succeed, and the worker, if there is
      one, is loaded with the last successful target at that generation. */
  method Run(sup: Supervisor, calls: seq<Call>) returns (activations: nat)
    requires sup.Valid()
    modifies sup, sup.spawned
    ensures sup.Valid() && activations == |Activated(calls)| && sup.generation == old(sup.generation) + activations
    ensures forall w | w in sup.spawned && w.alive :: w == sup.worker || w in sup.orphans
    ensures sup.worker != null ==>
              && sup.worker.loaded && sup.worker.generation == sup.generation && sup.key.Some?
              && sup.worker.artifact == sup.key == LastTarget(calls, old(sup.key))
  {
    hide Supervisor.Valid, Supervisor.Known, Succeeds;
    activations := 0;
    for i := 0 to |calls|
      invariant sup.Valid() && fresh(sup.spawned - old(sup.spawned))
      invariant activations == |Activated(calls[..i])| && sup.generation == old(sup.generation) + activations
      invariant sup.worker != null ==> sup.key == LastTarget(calls[..i], old(sup.key))
    {
      assert calls[..i + 1][..i] == calls[..i];
      match calls[i] {
        case Activating(target, attempt) =>
          var ok := sup.ActivateWorker(target, attempt);
          if ok { activations := activations + 1; }
        case Inferring(died, exchange, exits, seen) =>
          var _, _ := sup.WorkerInfer(died, exchange, exits, seen);
        case Dropping(exits, seen) => sup.DropWorker(exits, seen);
      }
    }
    assert calls[..|calls|] == calls;
    sup.WhatValidSays();
  }
}
