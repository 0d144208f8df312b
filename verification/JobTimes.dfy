/** When retries open: the calls of a run between which an automatic retry waits. */
module JobTimes {
  import opened Text
  import opened RetryPolicy
  import opened Jobs
  import opened JobLineage

  /** The row's failure is recorded as one that time may heal. */
  predicate MayHeal(r: Row) {
    r.failure.Some? && r.failure.value.phase.Some? && r.failure.value.kind.Transient?
  }

  /** The call records a failure of row `u`. */
  predicate Records(a: Action, u: nat) {
    (a.Finishing? || a.Recording?) && a.u == u
  }

  /** The call adds row `v`. */
  predicate Opens(db: Db, db': Db, v: nat) {
    |db.jobs| <= v < |db'.jobs|
  }

  // ================= one call =================

  /** A row keeps its time, its predecessor, and what it is recorded to have failed of. */
  predicate Keeps(r: Row, r': Row) {
    && r'.created == r.created && r'.parent == r.parent
    && (MayHeal(r') ==> MayHeal(r) && r'.failure.value.history == r.failure.value.history)
  }

  predicate IsNew(r: Row, now: nat) {
    r.created == now && !MayHeal(r)
  }

  /** Rows are kept, and new ones are of this time. */
  predicate Goes(jobs: seq<Row>, jobs': seq<Row>, now: nat) {
    && |jobs| <= |jobs'|
    && (forall u | 0 <= u < |jobs| :: Keeps(jobs[u], jobs'[u]))
    && forall u | |jobs| <= u < |jobs'| :: IsNew(jobs'[u], now)
  }

  lemma {:induction false} NothingGoes(jobs: seq<Row>, now: nat)
    ensures Goes(jobs, jobs, now)
  {
  }

  lemma {:induction false} OneGoes(jobs: seq<Row>, u: nat, row: Row, now: nat)
    requires u < |jobs| && Keeps(jobs[u], row)
    ensures Goes(jobs, jobs[u := row], now)
  {
  }

  lemma {:induction false} OpenGoes(db: Db, u: nat, attempts: nat, history: seq<Event>, source: Option<Digest>,
                                    env: Env)
    requires u < |db.jobs|
    ensures Goes(db.jobs, Open(db, u, attempts, history, source, env).jobs, env.now)
  {
  }

  lemma {:induction false} ResumeGoes(db: Db, u: nat, source: Option<Digest>, env: Env)
    requires u < |db.jobs|
    ensures Goes(db.jobs, MaybeResume(db, u, source, env).jobs, env.now)
  {
    hide Goes, Open, Resolves, LiveFor, AutoEligible;
    NothingGoes(db.jobs, env.now);
    if Resumable(db, u, env) {
      var record, row := db.jobs[u].failure.value, db.jobs[u];
      OpenGoes(db, u, record.attempts, record.history, source, env);
      OpenGoes(db, u, record.attempts, record.history, row.source, Resolved(db, row, env));
    }
  }

  lemma {:induction false} SubmitGoes(db: Db, ref: string, key: Option<Key>, source: Option<Digest>, env: Env)
    ensures Goes(db.jobs, Submit(db, ref, key, source, env).jobs, env.now)
  {
    hide Goes, MaybeResume, LiveFor, FindJob;
    NothingGoes(db.jobs, env.now);
    var found := FindJob(db.jobs, ref, key);
    if found.Some? {
      ResumeGoes(db, found.value, source, env);
    }
    CreateGoes(db, ref, key, source, env);
  }

  lemma {:induction false} CreateGoes(db: Db, ref: string, key: Option<Key>, source: Option<Digest>, env: Env)
    ensures Goes(db.jobs, Create(db, ref, key, source, env).jobs, env.now)
  {
  }

  lemma {:induction false} RequeueGoes(db: Db, ref: string, key: Option<Key>, env: Env)
    ensures Goes(db.jobs, Requeue(db, ref, key, env).jobs, env.now)
  {
    hide Goes, Open, Resolves;
    NothingGoes(db.jobs, env.now);
    var target := RequeueTarget(db, ref, key);
    if target.Some? {
      var row := db.jobs[target.value];
      OpenGoes(db, target.value, 0, RequeueBase(row).value, row.source, Resolved(db, row, env));
    }
  }

  lemma {:induction false} RestartGoes(db: Db, swept: set<nat>, adopted: set<Key>, env: Env)
    ensures Goes(db.jobs, Restart(db, swept, adopted, env).jobs, env.now)
  {
    forall u | 0 <= u < |db.jobs|
      ensures Keeps(db.jobs[u], Interrupt(db.jobs[u], u in swept, db.inhibited, env))
    {
    }
  }

  lemma {:induction false} RestageGoes(db: Db, u: nat, stage: Stage, now: nat)
    requires u < |db.jobs|
    ensures Goes(db.jobs, db.jobs[u := db.jobs[u].(stage := stage)], now)
  {
    OneGoes(db.jobs, u, db.jobs[u].(stage := stage), now);
  }

  lemma {:induction false} HitGoes(db: Db, ref: string, key: Key, env: Env)
    ensures Goes(db.jobs, Hit(db, ref, key, env).jobs, env.now)
  {
  }

  /** Every call but those that record a failure. */
  lemma {:induction false} StepGoes(db: Db, a: Action)
    requires Enabled(db, a) && !a.Finishing? && !a.Recording?
    ensures Goes(db.jobs, Next(db, a).jobs, a.env.now)
  {
    hide Goes, MaybeResume, Submit, Requeue, Restart, Hit;
    NothingGoes(db.jobs, a.env.now);
    match a {
      case Submitting(ref, key, source, env) => SubmitGoes(db, ref, key, source, env);
      case Retrying(u, env) => ResumeGoes(db, u, None, env);
      case Requeueing(ref, key, env) => RequeueGoes(db, ref, key, env);
      case Mirroring(u, outcome, env) => RestageGoes(db, u, Polled(db.backends[u], outcome), env.now);
      case PublishFailing(u, _, env) => RestageGoes(db, u, CompileFailed, env.now);
      case Settling(u, env) => RestageGoes(db, u, Prepared, env.now);
      case Hitting(ref, key, env) => HitGoes(db, ref, key, env);
      case Restarting(swept, adopted, env) => RestartGoes(db, swept, adopted, env);
      case _ =>
    }
  }

  /** A call that records a failure of row `u` does so at its own time, and changes nothing else. */
  lemma {:induction false} RecordGoes(db: Db, a: Action)
    requires Enabled(db, a) && (a.Finishing? || a.Recording?)
    ensures var jobs := Next(db, a).jobs;
            && a.u < |jobs| == |db.jobs|
            && jobs[a.u].created == db.jobs[a.u].created && jobs[a.u].parent == db.jobs[a.u].parent
            && jobs[a.u].failure.Some? && jobs[a.u].failure.value.history != []
            && var history := jobs[a.u].failure.value.history; history[|history| - 1].at == a.env.now
    ensures forall u | 0 <= u < |db.jobs| && u != a.u :: Next(db, a).jobs[u] == db.jobs[u]
  {
    hide Classify, Backoff, Polled;
  }

  // ================= runs =================

  /** The last failure recorded of a row was recorded by a call, at its time. */
  lemma {:induction false} RecordsHaveTimes(trace: seq<Db>, acts: seq<Action>, k: nat, u: nat) returns (i: nat)
    requires IsRun(trace, acts) && k < |trace| && u < |trace[k].jobs| && MayHeal(trace[k].jobs[u])
    ensures i < k && Records(acts[i], u) && trace[k].jobs[u].failure.value.history != []
    ensures var history := trace[k].jobs[u].failure.value.history;
            acts[i].env.now == history[|history| - 1].at
  {
    hide Enabled, Next, Keeps;
    var db, a := trace[k - 1], acts[k - 1];
    assert Enabled(db, a) && trace[k - 1 + 1] == Next(db, a);
    if Records(a, u) {
      RecordGoes(db, a);
      i := k - 1;
    } else {
      RowBefore(db, a, u);
      i := RecordsHaveTimes(trace, acts, k - 1, u);
    }
  }

  lemma {:induction false} RowBefore(db: Db, a: Action, u: nat)
    requires Enabled(db, a) && u < |Next(db, a).jobs| && !Records(a, u) && MayHeal(Next(db, a).jobs[u])
    ensures u < |db.jobs| && MayHeal(db.jobs[u])
            && Next(db, a).jobs[u].failure.value.history == db.jobs[u].failure.value.history
  {
    hide Enabled, Next, MayHeal;
    if a.Finishing? || a.Recording? {
      RecordGoes(db, a);
    } else {
      StepGoes(db, a);
      assert u < |db.jobs| ==> Keeps(db.jobs[u], Next(db, a).jobs[u]);
      assert u >= |db.jobs| ==> IsNew(Next(db, a).jobs[u], a.env.now);
    }
  }

  lemma {:induction false} CreatedBefore(db: Db, a: Action, u: nat)
    requires Enabled(db, a) && u < |Next(db, a).jobs|
    ensures if u < |db.jobs| then Next(db, a).jobs[u].created == db.jobs[u].created
            else Next(db, a).jobs[u].created == a.env.now
  {
    hide Enabled, Next, MayHeal;
    if a.Finishing? || a.Recording? {
      RecordGoes(db, a);
    } else {
      StepGoes(db, a);
      assert u < |db.jobs| ==> Keeps(db.jobs[u], Next(db, a).jobs[u]);
      assert u >= |db.jobs| ==> IsNew(Next(db, a).jobs[u], a.env.now);
    }
  }

  /** A row's time is that of the call that added it. */
  lemma {:induction false} RowsHaveTimes(trace: seq<Db>, acts: seq<Action>, k: nat, v: nat) returns (j: nat)
    requires IsRun(trace, acts) && k < |trace| && v < |trace[k].jobs|
    ensures j < k && Opens(trace[j], trace[j + 1], v) && acts[j].env.now == trace[k].jobs[v].created
  {
    hide Enabled, Next;
    var db, a := trace[k - 1], acts[k - 1];
    assert Enabled(db, a) && trace[k - 1 + 1] == Next(db, a);
    CreatedBefore(db, a, v);
    if v < |db.jobs| {
      j := RowsHaveTimes(trace, acts, k - 1, v);
    } else {
      j := k - 1;
    }
  }

  lemma {:induction false} ClockGrows(trace: seq<Db>, acts: seq<Action>, i: nat, j: nat)
    requires IsRun(trace, acts) && i <= j < |acts|
    ensures acts[i].env.now <= acts[j].env.now
    decreases j
  {
    if i < j {
      ClockGrows(trace, acts, i, j - 1);
      ClockTicks(trace[j - 1], acts[j - 1]);
      assert Enabled(trace[j - 1], acts[j - 1]) && trace[j - 1 + 1] == Next(trace[j - 1], acts[j - 1]);
      assert Enabled(trace[j], acts[j]);
    }
  }

  lemma {:induction false} ClockTicks(db: Db, a: Action)
    requires Enabled(db, a)
    ensures Next(db, a).clock == a.env.now > db.clock
  {
    hide Effect;
  }

  /** Between the call that records a transient failure and the call that opens the automatic attempt after
      it lie at least 30 s if that is the second attempt, and at least 60 s if it is the third. */
  lemma {:induction false} RetriesWait(trace: seq<Db>, acts: seq<Action>, k: nat, v: nat)
    requires IsRun(trace, acts) && k < |trace| && (forall i | 0 <= i < k :: !Torn(trace[i], acts[i]))
    requires v < |trace[k].jobs| && trace[k].jobs[v].parent.Some? && trace[k].jobs[v].attempt > 1
    requires var p := trace[k].jobs[v].parent.value; p < |trace[k].jobs| && MayHeal(trace[k].jobs[p])
    ensures var p := trace[k].jobs[v].parent.value;
            exists i: nat, j: nat | i < j < k ::
              && Records(acts[i], p) && Opens(trace[j], trace[j + 1], v)
              && acts[j].env.now >= acts[i].env.now + if trace[k].jobs[v].attempt == 2 then 30 else 60
  {
    hide IsRun, Torn;
    var p := trace[k].jobs[v].parent.value;
    RetriesWaitAndCarry(trace, acts, k, v);
    RunLengths(trace, acts);
    var i := RecordsHaveTimes(trace, acts, k, p);
    var j := RowsHaveTimes(trace, acts, k, v);
    if j <= i {
      ClockGrows(trace, acts, j, i);
    }
    assert Records(acts[i], p) && Opens(trace[j], trace[j + 1], v);
  }

  lemma {:induction false} RunLengths(trace: seq<Db>, acts: seq<Action>)
    requires IsRun(trace, acts)
    ensures |trace| == |acts| + 1
  {
  }
}
