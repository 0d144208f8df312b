/** The registry's tables and the job manager that updates them step by step. */
module JobManager {
  import opened Text
  import opened RetryPolicy
  import opened Jobs

  /** The tables of the registry. */
  class Registry {
    var jobs: seq<Row>
    var aliases: set<(nat, string)>
    var artifacts: map<Key, Digest>
    var refs: map<string, Digest>
    var sources: set<Digest>
    var inhibited: bool

    constructor ()
      ensures jobs == [] && aliases == {} && artifacts == map[] && refs == map[] && sources == {} && !inhibited
    {
      jobs, aliases, artifacts, refs, sources, inhibited := [], {}, map[], map[], {}, false;
    }

    method CreateJob(row: Row) returns (u: nat)
      modifies `jobs
      ensures u == |old(jobs)| && jobs == old(jobs) + [row]
    {
      u := |jobs|;
      jobs := jobs + [row];
    }

    /** Removes the row created last, and what was joined to it. */
    method RollBack()
      requires jobs != []
      modifies `jobs, `aliases
      ensures jobs == old(jobs)[..|old(jobs)| - 1]
      ensures aliases == set a | a in old(aliases) && a.0 != |old(jobs)| - 1
    {
      var u := |jobs| - 1;
      jobs := jobs[..u];
      aliases := set a | a in aliases && a.0 != u;
    }

    method SetJob(u: nat, stage: Stage)
      requires u < |jobs|
      modifies `jobs
      ensures jobs == old(jobs)[u := old(jobs)[u].(stage := stage)]
    {
      jobs := jobs[u := jobs[u].(stage := stage)];
    }

    method SetFailure(u: nat, record: Record)
      requires u < |jobs|
      modifies `jobs
      ensures jobs == old(jobs)[u := old(jobs)[u].(failure := Some(record))]
    {
      jobs := jobs[u := jobs[u].(failure := Some(record))];
    }

    method AddAlias(u: nat, ref: string)
      modifies `aliases
      ensures aliases == old(aliases) + {(u, ref)}
    {
      aliases := aliases + {(u, ref)};
    }

    /** The newest row of a ref and key. */
    method FindJob(ref: string, key: Option<Key>) returns (r: Option<nat>)
      ensures r == Jobs.FindJob(jobs, ref, key)
    {
      var i := |jobs|;
      assert jobs[..i] == jobs;
      while i > 0
        invariant 0 <= i <= |jobs| && Jobs.FindJob(jobs, ref, key) == Jobs.FindJob(jobs[..i], ref, key)
      {
        i := i - 1;
        assert jobs[..i + 1][..i] == jobs[..i];
        if jobs[i].ref == ref && jobs[i].key == key { return Some(i); }
      }
      return None;
    }

    /** The oldest live row of a key. */
    method LiveJobForKey(key: Option<Key>) returns (r: Option<nat>)
      ensures r == LiveFor(jobs, key)
    {
      if key.None? { return None; }
      for i := 0 to |jobs|
        invariant LiveFor(jobs[..i], key).None?
      {
        assert jobs[..i + 1][..i] == jobs[..i];
        if jobs[i].key == key && Live(jobs[i]) {
          FirstLive(jobs, key, i + 1);
          return Some(i);
        }
      }
      assert jobs[..|jobs|] == jobs;
      return None;
    }

    /** The refs joined to a row. */
    method RefsForJob(u: nat) returns (refs: set<string>)
      requires u < |jobs|
      ensures refs == {jobs[u].ref} + AliasesOf(aliases, u)
    {
      refs := {jobs[u].ref} + set a | a in aliases && a.0 == u :: a.1;
    }
  }

  /** The first live row of a prefix is the first of the whole. */
  lemma {:induction false} FirstLive(jobs: seq<Row>, key: Option<Key>, n: nat)
    requires n <= |jobs| && LiveFor(jobs[..n], key).Some?
    ensures LiveFor(jobs, key) == LiveFor(jobs[..n], key)
    decreases |jobs| - n
  {
    if n < |jobs| {
      assert jobs[..n + 1][..n] == jobs[..n];
      FirstLive(jobs, key, n + 1);
    } else {
      assert jobs[..n] == jobs;
    }
  }

  /** Whether the backend of a retry of row `u` can be built. */
  predicate Spawns(db: Db, u: nat, source: Option<Digest>, env: Env)
    requires u < |db.jobs|
  {
    if source.Some? then env.spawn else Resolved(db, db.jobs[u], env).spawn
  }

  class Manager {
    const registry: Registry
    const boot: Option<string>
    var backends: map<nat, Backend>

    constructor (registry: Registry, boot: Option<string>)
      ensures this.registry == registry && this.boot == boot && backends == map[]
    {
      this.registry, this.boot, this.backends := registry, boot, map[];
    }

    /** The tables this manager works on; the parts of the state it does not own are left empty. */
    function State(): Db
      reads this, registry
    {
      Db(registry.jobs, registry.aliases, registry.artifacts, map[], registry.inhibited, registry.refs,
         registry.sources, backends, None, 0)
    }

    /** Every backend belongs to a row. */
    predicate Valid()
      reads this, registry
    {
      (forall u | u in backends :: u < |registry.jobs|) && forall a | a in registry.aliases :: a.0 < |registry.jobs|
    }

    method CarryAliases(v: nat, ref: string, prev: nat)
      requires prev < |registry.jobs| && registry.jobs[prev].ref == ref
      modifies registry`aliases
      ensures registry.aliases == old(registry.aliases) + Carried(old(registry.aliases), prev, v, ref)
    {
      var refs := registry.RefsForJob(prev);
      ghost var before, done := registry.aliases, {};
      while refs != {}
        invariant done !! refs && done + refs == {ref} + AliasesOf(before, prev)
        invariant registry.aliases == before + set x | x in done && x != ref :: (v, x)
        decreases refs
      {
        var alias :| alias in refs;
        refs, done := refs - {alias}, done + {alias};
        if alias != ref { registry.AddAlias(v, alias); }
      }
      assert forall x :: x in done && x != ref <==> x in AliasesOf(before, prev) && x != ref;
      assert forall x :: x in AliasesOf(before, prev) <==> (prev, x) in before;
    }

    /** Opens attempt `attempts + 1` after row `prev`, whose failure it does not touch unless the
        backend is refused. */
    method NewAttempt(ref: string, key: Option<Key>, attempts: nat, history: seq<Event>, prev: nat,
                      source: Option<Digest>, env: Env) returns (successor: Option<nat>)
      requires Valid() && prev < |registry.jobs| && registry.jobs[prev].ref == ref && registry.jobs[prev].key == key
      requires env.boot == boot
      modifies this, registry
      ensures successor == if env.spawn then Some(|old(registry.jobs)|) else None
      ensures State() == if env.spawn then Jobs.Attempt(old(State()), prev, attempts, history, source, env)
                         else Jobs.Open(old(State()), prev, attempts, history, source, env)
      ensures Valid()
    {
      var row := Row(ref, key, Queued, attempts + 1, env.now, boot, None, source, Some(prev));
      var u := registry.CreateJob(row);
      registry.SetFailure(u, ResumeNote(history));
      CarryAliases(u, ref, prev);
      if env.spawn {
        backends := backends[u := Backend(Queued, key, if source.Some? then source.value else "")];
        return Some(u);
      }
      registry.RollBack();
      var prior := registry.jobs[prev];
      registry.SetFailure(prev, Failure(prior).(resumeRefused := true));
      return None;
    }

    /** Whether the backend finds the bytes of the source it is to compile. */
    method SourcePath(row: Row, env: Env) returns (found: bool)
      ensures found == Resolves(State(), row, env)
    {
      if !env.compiler || row.key.None? { return true; }
      return row.source.Some? && row.source.value in registry.sources;
    }

    /** A new attempt after row `u`, which is marked as consumed by it. */
    method Consume(u: nat, attempts: nat, history: seq<Event>, source: Option<Digest>, env: Env)
        returns (successor: Option<nat>)
      requires Valid() && u < |registry.jobs| && env.boot == boot
      modifies this, registry
      ensures State() == Jobs.Open(old(State()), u, attempts, history, source, env)
      ensures successor == if env.spawn then Some(|old(registry.jobs)|) else None
      ensures |registry.jobs| == |old(registry.jobs)| + (if successor.Some? then 1 else 0)
      ensures Valid()
    {
      var row := registry.jobs[u];
      successor := NewAttempt(row.ref, row.key, attempts, history, u, source, env);
      if successor.None? { return; }
      registry.SetFailure(u, Failure(row).(resumedTo := successor));
    }

    /** Opens a bounded attempt after an eligible terminal row. */
    method MaybeResume(u: nat, source: Option<Digest>, env: Env) returns (successor: Option<nat>)
      requires Valid() && u < |registry.jobs| && env.boot == boot
      modifies this, registry
      ensures State() == Jobs.MaybeResume(old(State()), u, source, env)
      ensures successor == if Resumable(old(State()), u, env) && Spawns(old(State()), u, source, env)
                           then Some(|old(registry.jobs)|) else None
      ensures |registry.jobs| == |old(registry.jobs)| + (if successor.Some? then 1 else 0)
      ensures Valid()
    {
      hide AutoEligible, LiveFor, Resolves, Jobs.Open;
      var row := registry.jobs[u];
      var live := registry.LiveJobForKey(row.key);
      if live.Some? { return None; }
      if registry.inhibited { return None; }
      if row.failure.None? { return None; }
      var record := row.failure.value;
      if !AutoEligible(record, env.now, env.memlock) { return None; }
      if source.Some? {
        successor := Consume(u, record.attempts, record.history, source, env);
      } else {
        var found := SourcePath(row, env);
        successor := Consume(u, record.attempts, record.history, row.source, env.(spawn := env.spawn && found));
      }
    }

    method Create(ref: string, key: Option<Key>, source: Option<Digest>, env: Env)
      requires Valid() && env.boot == boot
      modifies this, registry
      ensures State() == Jobs.Create(old(State()), ref, key, source, env)
      ensures Valid()
    {
      var u := registry.CreateJob(Row(ref, key, Queued, 1, env.now, boot, None, source, None));
      if env.spawn {
        backends := backends[u := Backend(Queued, key, if source.Some? then source.value else "")];
      } else {
        // The exception leaves the transaction, which rolls the row back.
        registry.RollBack();
      }
    }

    /** Submits or joins a preparation job. */
    method Submit(ref: string, key: Option<Key>, source: Option<Digest>, env: Env)
      requires Valid() && env.boot == boot
      modifies this, registry
      ensures State() == Jobs.Submit(old(State()), ref, key, source, env)
      ensures Valid()
    {
      hide AutoEligible, LiveFor, Jobs.FindJob, Jobs.MaybeResume;
      var existing := registry.FindJob(ref, key);
      if existing.Some? {
        var stage := registry.jobs[existing.value].stage;
        if !IsTerminal(stage) {
          registry.AddAlias(existing.value, ref);
          return;
        }
        if IsError(stage) {
          var _ := MaybeResume(existing.value, source, env);
          return;
        }
        if stage.Prepared? && key.Some? && key.value in registry.artifacts { return; }
      }
      if key.Some? {
        var live := registry.LiveJobForKey(key);
        if live.Some? {
          registry.AddAlias(live.value, ref);
          return;
        }
      }
      Create(ref, key, source, env);
    }

    /** Looks at every failed row once; `envs(u)` is the time and luck of row `u`. */
    method RetryDue(envs: nat -> Env) returns (count: nat)
      requires Valid() && forall u :: envs(u).boot == boot
      modifies this, registry
      ensures State() == RetryAll(old(State()), |old(registry.jobs)|, envs)
      ensures |registry.jobs| == |old(registry.jobs)| + count
      ensures Valid()
    {
      hide AutoEligible, LiveFor, Jobs.Open;
      count := 0;
      ghost var before := State();
      var n := |registry.jobs|;
      for u := 0 to n
        invariant Valid() && State() == RetryAll(before, u, envs) && |registry.jobs| == n + count
      {
        if IsError(registry.jobs[u].stage) && registry.jobs[u].failure.Some? {
          var one := MaybeResume(u, None, envs(u));
          if one.Some? { count := count + 1; }
        }
      }
    }

    /** The explicit operator's retry, which resets the attempts. */
    method Requeue(ref: string, key: Option<Key>, env: Env) returns (successor: Option<nat>)
      requires Valid() && env.boot == boot
      modifies this, registry
      ensures State() == Jobs.Requeue(old(State()), ref, key, env)
      ensures var target := RequeueTarget(old(State()), ref, key);
              successor == if target.Some? && Resolved(old(State()), old(State()).jobs[target.value], env).spawn
                           then Some(|old(registry.jobs)|) else None
      ensures Valid()
    {
      hide LiveFor, Jobs.FindJob, Resolves, Jobs.Open;
      var existing := registry.FindJob(ref, key);
      if existing.None? || !IsError(registry.jobs[existing.value].stage) { return None; }
      if registry.inhibited { return None; }
      var full := registry.jobs[existing.value];
      var history := RequeueBase(full);
      if history.None? { return None; }
      var live := registry.LiveJobForKey(key);
      if live.Some? { return None; }
      var found := SourcePath(full, env);
      successor := Consume(existing.value, 0, history.value, full.source, env.(spawn := env.spawn && found));
    }

    method RecordTerminal(u: nat, stage: Stage, code: string, evidence: Evidence, memlock: bool, now: nat)
      requires u < |registry.jobs| && stage == registry.jobs[u].stage
      modifies registry`jobs
      ensures registry.jobs == old(registry.jobs)[u := Recorded(old(registry.jobs)[u], code, evidence, memlock, now)]
    {
      var job := registry.jobs[u];
      registry.SetFailure(u, NewRecord(stage, code, evidence, memlock, job.attempt, now, Failure(job).history));
    }

    /** Polls one backend, mirrors it, and deals with a failure it has not recorded yet. */
    method Pump(u: nat, outcome: Stage, evidence: Evidence, recorded: Env, env: Env)
      requires Valid() && u < |registry.jobs| && env.boot == boot
      modifies this, registry
      ensures u !in old(backends) ==> State() == old(State())
      ensures u in old(backends) ==>
                var mirrored := Mirror(old(State()), u, outcome);
                State() == if mirrored.pending.Some? && IsError(mirrored.jobs[u].stage)
                           then Jobs.RetryDue(Finish(mirrored, u, evidence, recorded), u, env)
                           else mirrored.(pending := None)
      ensures Valid()
    {
      hide Jobs.MaybeResume, NewRecord, Resumable;
      if u !in backends { return; }
      var prev := registry.jobs[u].stage;
      var stage := Polled(backends[u], outcome);
      backends := backends[u := backends[u].(state := stage)];
      registry.SetJob(u, stage);
      if IsError(stage) && !(prev == stage && registry.jobs[u].failure.Some?) {
        RecordTerminal(u, stage, StageName(stage), evidence, recorded.memlock, recorded.now);
        var _ := MaybeResume(u, None, env);
      }
    }
  }
  /** The supervisor's own writes to the rows: cache hits, failed commits, and what a new process does to
      the rows the last one left behind. */
  class Reconciler {
    const registry: Registry

    constructor (registry: Registry)
      ensures this.registry == registry
    {
      this.registry := registry;
    }

    /** A cache hit leaves a row that traces the prepared ref; other threads may run between the writes. */
    method RecordHit(ref: string, key: Key, env: Env) returns (u: nat)
      modifies registry`jobs
      ensures u == |old(registry.jobs)|
      ensures registry.jobs == old(registry.jobs)
                               + [Row(ref, Some(key), Prepared, 1, env.now, env.boot, None, Some(key.source), None)]
    {
      u := registry.CreateJob(Row(ref, Some(key), Queued, 1, env.now, env.boot, None, Some(key.source), None));
      registry.SetJob(u, Prepared);
    }

    /** The store's recovery marks the rows whose scratch directory it moves, without a record. */
    method Sweep(directories: seq<nat>)
      modifies registry`jobs
      ensures |registry.jobs| == |old(registry.jobs)|
      ensures forall i | 0 <= i < |registry.jobs| :: registry.jobs[i] == Swept(old(registry.jobs)[i], i in directories)
    {
      for d := 0 to |directories|
        invariant |registry.jobs| == |old(registry.jobs)|
        invariant forall i | 0 <= i < |registry.jobs| ::
                  registry.jobs[i] == Swept(old(registry.jobs)[i], i in directories[..d])
      {
        var u := directories[d];
        assert directories[..d + 1] == directories[..d] + [u];
        if u < |registry.jobs| && Live(registry.jobs[u]) { registry.SetJob(u, Interrupted); }
      }
      assert directories[..|directories|] == directories;
    }

    /** Interrupts the stranded rows, then records the interrupted rows that have no record. */
    method ReconcileJobs(env: Env)
      modifies registry`jobs
      ensures |registry.jobs| == |old(registry.jobs)|
      ensures forall i | 0 <= i < |registry.jobs| ::
                registry.jobs[i] == Interrupt(old(registry.jobs)[i], false, registry.inhibited, env)
    {
      for u := 0 to |registry.jobs|
        invariant |registry.jobs| == |old(registry.jobs)|
        invariant forall i | 0 <= i < u :: registry.jobs[i] == if Live(old(registry.jobs)[i])
            then Interrupt(old(registry.jobs)[i], false, registry.inhibited, env) else old(registry.jobs)[i]
        invariant forall i | u <= i < |registry.jobs| :: registry.jobs[i] == old(registry.jobs)[i]
      {
        var row := registry.jobs[u];
        if Live(row) {
          registry.SetJob(u, Interrupted);
          registry.SetFailure(u, InterruptRecord(row, registry.inhibited, env));
        }
      }
      for u := 0 to |registry.jobs|
        invariant |registry.jobs| == |old(registry.jobs)|
        invariant forall i | 0 <= i < u ::
                  registry.jobs[i] == Interrupt(old(registry.jobs)[i], false, registry.inhibited, env)
        invariant forall i | u <= i < |registry.jobs| :: registry.jobs[i] == if Live(old(registry.jobs)[i])
            then Interrupt(old(registry.jobs)[i], false, registry.inhibited, env) else old(registry.jobs)[i]
      {
        var row := registry.jobs[u];
        if row.stage.Interrupted? && row.failure.None? {
          registry.SetFailure(u, InterruptRecord(row, registry.inhibited, env));
        }
      }
    }

    /** Both together are the restart of the job table. */
    method Restart(directories: seq<nat>, env: Env)
      modifies registry`jobs
      ensures |registry.jobs| == |old(registry.jobs)|
      ensures forall i | 0 <= i < |registry.jobs| ::
                registry.jobs[i] == Interrupt(old(registry.jobs)[i], i in directories, registry.inhibited, env)
    {
      hide NewRecord;
      Sweep(directories);
      ReconcileJobs(env);
    }
  }

  function Swept(row: Row, moved: bool): Row {
    if moved && Live(row) then row.(stage := Interrupted) else row
  }
}
