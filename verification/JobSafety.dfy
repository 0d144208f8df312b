/** What every run of the job table keeps, whatever the interleaving: at most one compile per key at work,
    at most one live row per key unless a cache hit collides, and every key bound to the one source digest
    it was derived from. */
module JobSafety {
  import opened Text
  import opened RetryPolicy
  import opened Jobs

  // ================= one live row per key =================

  /** No two live rows share a key, among all rows or among those with a backend. */
  predicate OneLive(db: Db, all: bool) {
    forall i, j | 0 <= i < j < |db.jobs| && db.jobs[i].key.Some? && db.jobs[i].key == db.jobs[j].key
                  && (all || (i in db.backends && j in db.backends)) ::
      !(Live(db.jobs[i]) && Live(db.jobs[j]))
  }

  /** A row that is done has no backend at work. */
  predicate Settled(db: Db) {
    forall u | u in db.backends :: u < |db.jobs| && (!Live(db.jobs[u]) ==> IsTerminal(db.backends[u].state))
  }

  predicate Safe(db: Db, all: bool) {
    OneLive(db, all) && Settled(db)
  }

  lemma {:induction false} InsertKeepsSafe(db: Db, row: Row, all: bool)
    requires Safe(db, all) && LiveFor(db.jobs, row.key).None? && Live(row)
    ensures Safe(Insert(db, row), all)
  {
  }

  lemma {:induction false} AmendKeepsSafe(db: Db, u: nat, row: Row, all: bool)
    requires Safe(db, all) && u < |db.jobs| && row.key == db.jobs[u].key && Live(row) == Live(db.jobs[u])
    ensures Safe(Amend(db, u, row), all)
  {
  }

  lemma {:induction false} OpenKeepsSafe(db: Db, u: nat, attempts: nat, history: seq<Event>, source: Option<Digest>,
                                         env: Env, all: bool)
    requires Safe(db, all) && u < |db.jobs| && LiveFor(db.jobs, db.jobs[u].key).None?
    ensures Safe(Open(db, u, attempts, history, source, env), all)
  {
    hide Safe;
    var row := db.jobs[u];
    if env.spawn {
      var next := Row(row.ref, row.key, Queued, attempts + 1, env.now, env.boot, Some(ResumeNote(history)), source,
                      Some(u));
      var attempt := Attempt(db, u, attempts, history, source, env);
      InsertKeepsSafe(db, next, all);
      SameSafe(Insert(db, next), attempt, all);
      AmendKeepsSafe(attempt, u, row.(failure := Some(Failure(row).(resumedTo := Some(|db.jobs|)))), all);
    } else {
      AmendKeepsSafe(db, u, row.(failure := Some(Failure(row).(resumeRefused := true))), all);
    }
  }

  lemma {:induction false} ResumeKeepsSafe(db: Db, u: nat, source: Option<Digest>, env: Env, all: bool)
    requires Safe(db, all) && u < |db.jobs|
    ensures Safe(MaybeResume(db, u, source, env), all)
  {
    hide Safe, AutoEligible, Open, Resolves;
    if Resumable(db, u, env) {
      var record, row := db.jobs[u].failure.value, db.jobs[u];
      OpenKeepsSafe(db, u, record.attempts, record.history, source, env, all);
      OpenKeepsSafe(db, u, record.attempts, record.history, row.source, Resolved(db, row, env), all);
    }
  }

  lemma {:induction false} MirrorKeepsSafe(db: Db, u: nat, outcome: Stage, all: bool)
    requires Safe(db, all) && u < |db.jobs| && u in db.backends
    ensures Safe(Mirror(db, u, outcome), all)
  {
    var after := Mirror(db, u, outcome);
    assert forall i | 0 <= i < |db.jobs| ::
        after.jobs[i].key == db.jobs[i].key && (Live(after.jobs[i]) ==> Live(db.jobs[i]));
  }

  lemma {:induction false} SubmitKeepsSafe(db: Db, ref: string, key: Option<Key>, source: Option<Digest>, env: Env,
                                           all: bool)
    requires Safe(db, all)
    ensures Safe(Submit(db, ref, key, source, env), all)
  {
    hide Safe, MaybeResume;
    var found, live := FindJob(db.jobs, ref, key), LiveFor(db.jobs, key);
    if found.Some? {
      ResumeKeepsSafe(db, found.value, source, env, all);
      SameSafe(db, Join(db, found.value, ref), all);
    }
    if live.Some? {
      SameSafe(db, Join(db, live.value, ref), all);
    } else {
      InsertKeepsSafe(db, Row(ref, key, Queued, 1, env.now, env.boot, None, source, None), all);
    }
  }

  lemma {:induction false} RestartKeepsSafe(db: Db, swept: set<nat>, adopted: set<Key>, env: Env, all: bool)
    requires Safe(db, all)
    ensures Safe(Restart(db, swept, adopted, env), all)
  {
  }

  lemma {:induction false} SameSafe(db: Db, db': Db, all: bool)
    requires Safe(db, all) && db'.jobs == db.jobs && db'.backends == db.backends
    ensures Safe(db', all)
  {
  }

  lemma {:induction false} RequeueKeepsSafe(db: Db, ref: string, key: Option<Key>, env: Env, all: bool)
    requires Safe(db, all)
    ensures Safe(Requeue(db, ref, key, env), all)
  {
    hide Safe, Open, Resolves;
    var target := RequeueTarget(db, ref, key);
    if target.Some? {
      var row := db.jobs[target.value];
      OpenKeepsSafe(db, target.value, 0, RequeueBase(row).value, row.source, Resolved(db, row, env), all);
    }
  }

  lemma {:induction false} FinishKeepsSafe(db: Db, u: nat, evidence: Evidence, env: Env, all: bool)
    requires Safe(db, all) && u < |db.jobs|
    ensures Safe(Finish(db, u, evidence, env), all)
  {
    hide Safe, NewRecord;
    var row := Recorded(db.jobs[u], StageName(db.jobs[u].stage), evidence, env.memlock, env.now);
    AmendKeepsSafe(db, u, row, all);
    SameSafe(Amend(db, u, row), Finish(db, u, evidence, env), all);
  }

  lemma {:induction false} PublishFailureKeepsSafe(db: Db, u: nat, recording: bool, all: bool)
    requires Safe(db, all) && u < |db.jobs| && IsTerminal(db.jobs[u].stage)
    ensures Safe(PublishFailed(db, u, recording), all)
  {
    hide Safe;
    var row := db.jobs[u].(stage := CompileFailed);
    AmendKeepsSafe(db, u, row, all);
    SameSafe(Amend(db, u, row), PublishFailed(db, u, recording), all);
  }

  lemma {:induction false} RecordKeepsSafe(db: Db, u: nat, code: string, evidence: Evidence, env: Env, all: bool)
    requires Safe(db, all) && u < |db.jobs|
    ensures Safe(RecordPublish(db, u, code, evidence, env), all)
  {
    hide Safe, NewRecord;
    var row := Recorded(db.jobs[u], code, evidence, env.memlock, env.now);
    AmendKeepsSafe(db, u, row, all);
    SameSafe(Amend(db, u, row), RecordPublish(db, u, code, evidence, env), all);
  }

  /** A row that stops being live and has no backend. */
  lemma {:induction false} SettleKeepsSafe(db: Db, u: nat, all: bool)
    requires Safe(db, all) && u < |db.jobs| && Live(db.jobs[u]) && u !in db.backends
    ensures Safe(SettleHit(db, u), all)
  {
  }

  /** The row of a cache hit is inserted while another row of its key is live. */
  predicate Collides(db: Db, a: Action) {
    a.Hitting? && LiveFor(db.jobs, Some(a.hit)).Some?
  }

  lemma {:induction false} HitKeepsSafe(db: Db, ref: string, key: Key, env: Env, all: bool)
    requires Safe(db, all)
    ensures Safe(Hit(db, ref, key, env), all) <==> !(all && LiveFor(db.jobs, Some(key)).Some?)
  {
    var after, live := Hit(db, ref, key, env), LiveFor(db.jobs, Some(key));
    if live.Some? {
      assert Live(after.jobs[|db.jobs|]) && after.jobs[|db.jobs|].key == after.jobs[live.value].key;
    }
  }

  /** A call keeps at most one live row per key exactly when it is no colliding hit; with backends on both
      rows counted only, every call does. */
  lemma {:induction false} StepKeepsSafe(db: Db, a: Action, all: bool)
    requires Safe(db, all) && Enabled(db, a)
    ensures Safe(Next(db, a), all) <==> !(all && Collides(db, a))
  {
    hide Safe, MaybeResume, Mirror, Submit, Requeue, Finish, PublishFailed, RecordPublish, Restart, Hit, SettleHit;
    match a {
      case Submitting(ref, key, source, env) => SubmitKeepsSafe(db, ref, key, source, env, all);
      case Retrying(u, env) => ResumeKeepsSafe(db, u, None, env, all);
      case Requeueing(ref, key, env) => RequeueKeepsSafe(db, ref, key, env, all);
      case Mirroring(u, outcome, _) => MirrorKeepsSafe(db, u, outcome, all);
      case Finishing(u, evidence, env) => FinishKeepsSafe(db, u, evidence, env, all);
      case PublishFailing(u, recording, _) => PublishFailureKeepsSafe(db, u, recording, all);
      case Recording(u, code, evidence, env) => RecordKeepsSafe(db, u, code, evidence, env, all);
      case Hitting(ref, key, env) => HitKeepsSafe(db, ref, key, env, all);
      case Settling(u, _) => SettleKeepsSafe(db, u, all);
      case Restarting(swept, adopted, env) => RestartKeepsSafe(db, swept, adopted, env, all);
      case _ => SameSafe(db, Effect(db, a), all);
    }
    SameSafeBack(Effect(db, a), Next(db, a), all);
  }

  lemma {:induction false} SameSafeBack(db: Db, db': Db, all: bool)
    requires db'.jobs == db.jobs && db'.backends == db.backends
    ensures Safe(db, all) <==> Safe(db', all)
  {
  }

  lemma {:induction false} RunKeepsSafe(trace: seq<Db>, acts: seq<Action>, k: nat, all: bool)
    requires IsRun(trace, acts) && k < |trace|
    requires all ==> forall i | 0 <= i < k :: !Collides(trace[i], acts[i])
    ensures Safe(trace[k], all)
  {
    hide Safe, Next, Enabled, Collides;
    if k == 0 {
      EmptyIsSafe(all);
    } else {
      RunKeepsSafe(trace, acts, k - 1, all);
      assert Enabled(trace[k - 1], acts[k - 1]) && trace[k - 1 + 1] == Next(trace[k - 1], acts[k - 1]);
      StepKeepsSafe(trace[k - 1], acts[k - 1], all);
    }
  }

  lemma {:induction false} EmptyIsSafe(all: bool)
    ensures Safe(EMPTY, all)
  {
  }

  /** In every state of every run without a colliding hit, at most one row of a compile key is live. */
  lemma {:induction false} RunsAreSafe(trace: seq<Db>, acts: seq<Action>, k: nat, i: nat, j: nat)
    requires IsRun(trace, acts) && k < |trace| && forall n | 0 <= n < k :: !Collides(trace[n], acts[n])
    requires i < j < |trace[k].jobs| && trace[k].jobs[i].key.Some? && trace[k].jobs[i].key == trace[k].jobs[j].key
    ensures !Live(trace[k].jobs[i]) || !Live(trace[k].jobs[j])
  {
    hide IsRun, Collides;
    RunKeepsSafe(trace, acts, k, true);
  }

  /** In every state of every run, at most one live row of a compile key has a backend, and no backend works
      behind a row that is done: a key is never compiled twice at once. */
  lemma {:induction false} RunsNeverCompileTwice(trace: seq<Db>, acts: seq<Action>, k: nat, i: nat, j: nat)
    requires IsRun(trace, acts) && k < |trace| && i in trace[k].backends && j in trace[k].backends && i != j
    ensures i < |trace[k].jobs| && j < |trace[k].jobs|
    ensures trace[k].jobs[i].key.Some? && trace[k].jobs[i].key == trace[k].jobs[j].key ==>
              IsTerminal(trace[k].backends[i].state) || IsTerminal(trace[k].backends[j].state)
  {
    hide IsRun;
    RunKeepsSafe(trace, acts, k, false);
    assert !Live(trace[k].jobs[i]) ==> IsTerminal(trace[k].backends[i].state);
    assert !Live(trace[k].jobs[j]) ==> IsTerminal(trace[k].backends[j].state);
    assert i < j || j < i;
  }

  /** Row `u` is live, of the key, and advances the ref. */
  predicate Serves(db: Db, u: nat, ref: string, key: Option<Key>) {
    u < |db.jobs| && Live(db.jobs[u]) && db.jobs[u].key == key && ref in RefsFor(db, u)
  }

  lemma {:induction false} JoinServes(db: Db, u: nat, ref: string, key: Option<Key>)
    requires u < |db.jobs| && Live(db.jobs[u]) && db.jobs[u].key == key
    ensures Serves(Join(db, u, ref), u, ref, key) && |Join(db, u, ref).jobs| == |db.jobs|
  {
    assert (u, ref) in Join(db, u, ref).aliases;
  }

  lemma {:induction false} CreateServes(db: Db, ref: string, key: Option<Key>, source: Option<Digest>, env: Env)
    ensures env.spawn ==> Serves(Create(db, ref, key, source, env), |db.jobs|, ref, key)
  {
  }

  lemma {:induction false} ResumeServes(db: Db, u: nat, source: Option<Digest>, env: Env)
    requires u < |db.jobs|
    ensures !Resumable(db, u, env) ==> MaybeResume(db, u, source, env) == db
    ensures Resumable(db, u, env) ==> LiveFor(db.jobs, db.jobs[u].key).None?
    ensures Resumable(db, u, env) && env.spawn && (source.Some? || db.jobs[u].key.None?)
            && IsError(db.jobs[u].stage) ==>
              Serves(MaybeResume(db, u, source, env), |db.jobs|, db.jobs[u].ref, db.jobs[u].key)
  {
    hide AutoEligible, LiveFor, AliasesOf;
  }

  /** A submission never duplicates a live row of its key.  When a backend can be built, it ends with a
      live row of the key that advances the ref, unless nothing is to be done: the newest row failed and may
      not be retried now, or it is prepared and its artifact is there. */
  lemma {:induction false} SubmitServes(db: Db, ref: string, key: Option<Key>, source: Option<Digest>, env: Env)
    requires key.Some? ==> source.Some?
    ensures var after, found := Submit(db, ref, key, source, env), FindJob(db.jobs, ref, key);
            && (LiveFor(db.jobs, key).Some? ==> |after.jobs| == |db.jobs|)
            && (env.spawn ==>
                  || (exists u: nat :: Serves(after, u, ref, key))
                  || (after == db && found.Some? && IsError(db.jobs[found.value].stage)
                      && !Resumable(db, found.value, env))
                  || (after == db && found.Some? && db.jobs[found.value].stage.Prepared?
                      && key.Some? && key.value in db.artifacts))
  {
    hide Serves, Join, Create, MaybeResume, Resumable;
    var found, live := FindJob(db.jobs, ref, key), LiveFor(db.jobs, key);
    if found.Some? && Live(db.jobs[found.value]) {
      JoinServes(db, found.value, ref, key);
    } else if found.Some? && IsError(db.jobs[found.value].stage) {
      ResumeServes(db, found.value, source, env);
    } else if live.Some? {
      JoinServes(db, live.value, ref, key);
    } else {
      CreateServes(db, ref, key, source, env);
    }
  }

  /** A retry whose source bytes are gone opens nothing: the row is stamped instead, so that the pump never
      takes it up again, and nothing else changes. */
  lemma {:induction false} LostSourceRefuses(db: Db, u: nat, env: Env, later: Env)
    requires u < |db.jobs| && IsError(db.jobs[u].stage) && Resumable(db, u, env)
    requires env.compiler && db.jobs[u].key.Some? && (db.jobs[u].source.None? || db.jobs[u].source.value !in db.sources)
    ensures var after := RetryDue(db, u, env);
            && after == Amend(db, u, db.jobs[u].(failure := Some(db.jobs[u].failure.value.(resumeRefused := true))))
            && !Resumable(after, u, later)
  {
    hide LiveFor;
  }

  /** The same of an operator's retry, which reports the refusal. */
  lemma {:induction false} LostSourceRefusesOperator(db: Db, ref: string, key: Option<Key>, env: Env)
    requires RequeueTarget(db, ref, key).Some? && env.compiler
    requires var row := db.jobs[RequeueTarget(db, ref, key).value];
             row.key.Some? && (row.source.None? || row.source.value !in db.sources)
    ensures var u, after := RequeueTarget(db, ref, key).value, Requeue(db, ref, key, env);
            && after == Amend(db, u, db.jobs[u].(failure := Some(Failure(db.jobs[u]).(resumeRefused := true))))
            && |after.jobs| == |db.jobs| && after.backends == db.backends
  {
    hide RequeueTarget, RequeueBase;
  }

  /** A row that ended quarantined, failed validation or has an unsupported contract is never opened again,
      by the pump or by an operator, with the record the pump writes or with none. */
  lemma {:induction false} SafetyAndPermanentStayClosed(row: Row, evidence: Evidence, memlock: bool, now: nat,
                                                        history: seq<Event>, env: Env)
    requires row.stage.Quarantined? || row.stage.ValidationFailed? || row.stage.UnsupportedContract?
    requires row.failure.None? ||
             row.failure.value ==
             NewRecord(row.stage, StageName(row.stage), evidence, memlock, row.attempt, now, history)
    ensures RequeueBase(row).None?
    ensures row.failure.Some? ==> !AutoEligible(row.failure.value, env.now, env.memlock)
  {
    StageCodes();
  }

  lemma {:induction false} StageCodes()
    ensures StageName(Quarantined) in SAFETY_CODES
    ensures StageName(ValidationFailed) !in SAFETY_CODES && StageName(UnsupportedContract) !in SAFETY_CODES
    ensures StageName(ValidationFailed) != "RESOURCE_EXCEEDED" && StageName(UnsupportedContract) != "RESOURCE_EXCEEDED"
  {
    assert "VALIDATION_FAILED"[0] == 'V' && "UNSUPPORTED_CONTRACT"[0] == 'U';
  }

  /** A commit cut between directory and row is completed by adoption: the row is the one the whole commit
      would have inserted.  A committed key's row never changes. */
  lemma {:induction false} LatePublishIsAdopted(db: Db, u: nat, swept: set<nat>, adopted: set<Key>, env: Env)
    requires u < |db.jobs| && db.jobs[u].key.Some?
    ensures var key := db.jobs[u].key.value;
            var whole, cut := Publish(db, u, true), Restart(Publish(db, u, false), swept, adopted, env);
            && key in whole.artifacts
            && (key in db.artifacts ==> whole.artifacts == db.artifacts == Publish(db, u, false).artifacts)
            && (key !in db.artifacts ==> key in whole.manifests && whole.artifacts[key] == whole.manifests[key])
            && (key in cut.artifacts <==> key in db.artifacts || key in adopted)
            && (key in cut.artifacts ==> cut.artifacts[key] == whole.artifacts[key])
  {
    hide Interrupt, SourceOf;
  }

  /** The retry a pump makes right after its own record checks for a live row and opens an attempt without
      a transaction.  It opens nothing when it follows the record by less than the shortest backoff, unless
      the backend reported an interruption: nothing else is eligible that soon. */
  lemma {:induction false} FinishOpensNothing(db: Db, u: nat, evidence: Evidence, env: Env, later: Env)
    requires u < |db.jobs| && IsError(db.jobs[u].stage) && !db.jobs[u].stage.Interrupted?
    requires later.now < env.now + BACKOFF_BASE_S && later.memlock == env.memlock
    ensures RetryDue(Finish(db, u, evidence, env), u, later) == Finish(db, u, evidence, env)
  {
    hide AutoEligible, Open;
    var row := db.jobs[u];
    FreshRecordWaits(row.stage, StageName(row.stage), evidence, env.memlock, row.attempt, env.now, Failure(row).history,
                     later.now);
  }

  // ================= one source per key =================

  predicate BoundRow(r: Row) {
    r.key.Some? ==> r.source == Some(r.key.value.source)
  }

  predicate BoundBackend(b: Backend) {
    b.key.Some? ==> b.source == b.key.value.source
  }

  predicate BoundMap(m: map<Key, Digest>) {
    forall k | k in m :: m[k] == k.source
  }

  /** Rows, compiles, published directories and artifact rows all name the digest of their key. */
  predicate Bound(db: Db) {
    && (forall i | 0 <= i < |db.jobs| :: BoundRow(db.jobs[i]))
    && (forall u | u in db.backends ::
          u < |db.jobs| && db.backends[u].key == db.jobs[u].key && BoundBackend(db.backends[u]))
    && BoundMap(db.artifacts) && BoundMap(db.manifests)
  }

  lemma {:induction false} InsertKeepsBound(db: Db, row: Row)
    requires Bound(db) && BoundRow(row)
    ensures Bound(Insert(db, row))
  {
  }

  lemma {:induction false} AmendKeepsBound(db: Db, u: nat, row: Row)
    requires Bound(db) && u < |db.jobs| && BoundRow(row) && row.key == db.jobs[u].key
    ensures Bound(Amend(db, u, row))
  {
  }

  lemma {:induction false} OpenKeepsBound(db: Db, u: nat, attempts: nat, history: seq<Event>, source: Option<Digest>,
                                          env: Env)
    requires Bound(db) && u < |db.jobs| && (db.jobs[u].key.Some? ==> source == Some(db.jobs[u].key.value.source))
    ensures Bound(Open(db, u, attempts, history, source, env))
  {
    hide BoundMap;
    var row := db.jobs[u];
    if env.spawn {
      var next := Row(row.ref, row.key, Queued, attempts + 1, env.now, env.boot, Some(ResumeNote(history)), source,
                      Some(u));
      InsertKeepsBound(db, next);
      AmendKeepsBound(Insert(db, next), u, row.(failure := Some(Failure(row).(resumedTo := Some(|db.jobs|)))));
    } else {
      AmendKeepsBound(db, u, row.(failure := Some(Failure(row).(resumeRefused := true))));
    }
  }

  lemma {:induction false} ResumeKeepsBound(db: Db, u: nat, source: Option<Digest>, env: Env)
    requires Bound(db) && u < |db.jobs|
             && (source.Some? && db.jobs[u].key.Some? ==> source == Some(db.jobs[u].key.value.source))
    ensures Bound(MaybeResume(db, u, source, env))
  {
    hide BoundMap, Open, AutoEligible, Resolves;
    if Resumable(db, u, env) {
      var record, row := db.jobs[u].failure.value, db.jobs[u];
      assert BoundRow(row);
      if source.Some? {
        OpenKeepsBound(db, u, record.attempts, record.history, source, env);
      } else {
        OpenKeepsBound(db, u, record.attempts, record.history, row.source, Resolved(db, row, env));
      }
    }
  }

  lemma {:induction false} SubmitKeepsBound(db: Db, ref: string, key: Option<Key>, source: Option<Digest>, env: Env)
    requires Bound(db) && (key.Some? ==> source == Some(key.value.source))
    ensures Bound(Submit(db, ref, key, source, env))
  {
    hide Bound, AutoEligible, MaybeResume;
    var found := FindJob(db.jobs, ref, key);
    if found.Some? {
      ResumeKeepsBound(db, found.value, source, env);
    }
    InsertKeepsBound(db, Row(ref, key, Queued, 1, env.now, env.boot, None, source, None));
    JoinKeepsBound(db, found, LiveFor(db.jobs, key), ref);
  }

  lemma {:induction false} JoinKeepsBound(db: Db, u: Option<nat>, v: Option<nat>, ref: string)
    requires Bound(db)
    ensures u.Some? ==> Bound(Join(db, u.value, ref))
    ensures v.Some? ==> Bound(Join(db, v.value, ref))
  {
  }

  lemma {:induction false} MirrorKeepsBound(db: Db, u: nat, outcome: Stage)
    requires Bound(db) && u < |db.jobs| && u in db.backends
    ensures Bound(Mirror(db, u, outcome))
  {
  }

  lemma {:induction false} PublishKeepsBound(db: Db, u: nat, committed: bool)
    requires Bound(db) && u < |db.jobs| && db.jobs[u].key.Some?
    ensures Bound(Publish(db, u, committed))
  {
    assert BoundRow(db.jobs[u]);
  }

  lemma {:induction false} HitKeepsBound(db: Db, ref: string, key: Key, env: Env)
    requires Bound(db)
    ensures Bound(Hit(db, ref, key, env))
  {
  }

  lemma {:induction false} InvalidationKeepsBound(db: Db, key: Key)
    requires Bound(db)
    ensures Bound(db.(artifacts := db.artifacts - {key}, manifests := db.manifests - {key}))
  {
  }

  lemma {:induction false} RestartKeepsBound(db: Db, swept: set<nat>, adopted: set<Key>, env: Env)
    requires Bound(db)
    ensures Bound(Restart(db, swept, adopted, env))
  {
    hide NewRecord;
    forall i | 0 <= i < |db.jobs|
      ensures BoundRow(Restart(db, swept, adopted, env).jobs[i])
    {
      assert BoundRow(db.jobs[i]);
    }
  }

  lemma {:induction false} SameBound(db: Db, db': Db)
    requires Bound(db) && db'.jobs == db.jobs && db'.backends == db.backends
    requires db'.artifacts == db.artifacts && db'.manifests == db.manifests
    ensures Bound(db')
  {
  }

  lemma {:induction false} RequeueKeepsBound(db: Db, ref: string, key: Option<Key>, env: Env)
    requires Bound(db)
    ensures Bound(Requeue(db, ref, key, env))
  {
    hide Bound, Open;
    var target := RequeueTarget(db, ref, key);
    if target.Some? {
      var row := db.jobs[target.value];
      RowIsBound(db, target.value);
      OpenKeepsBound(db, target.value, 0, RequeueBase(row).value, row.source, Resolved(db, row, env));
    }
  }

  lemma {:induction false} FinishKeepsBound(db: Db, u: nat, evidence: Evidence, env: Env)
    requires Bound(db) && u < |db.jobs|
    ensures Bound(Finish(db, u, evidence, env))
  {
    hide Bound, NewRecord;
    var row := Recorded(db.jobs[u], StageName(db.jobs[u].stage), evidence, env.memlock, env.now);
    RowIsBound(db, u);
    AmendKeepsBound(db, u, row);
    SameBound(Amend(db, u, row), Finish(db, u, evidence, env));
  }

  /** A row that changes in stage and failure only. */
  lemma {:induction false} RowChangeKeepsBound(db: Db, u: nat, row: Row, db': Db)
    requires Bound(db) && u < |db.jobs| && row.(stage := db.jobs[u].stage, failure := db.jobs[u].failure) == db.jobs[u]
    requires db' == Amend(db, u, row).(pending := db'.pending)
    ensures Bound(db')
  {
    hide Bound;
    RowIsBound(db, u);
    AmendKeepsBound(db, u, row);
    SameBound(Amend(db, u, row), db');
  }

  lemma {:induction false} StepKeepsBound(db: Db, a: Action)
    requires Bound(db) && Enabled(db, a)
    ensures Bound(Next(db, a))
  {
    hide Bound, MaybeResume, Submit, Requeue, Mirror, Finish, Publish, Hit, Restart, NewRecord;
    match a {
      case Submitting(ref, key, source, env) => SubmitKeepsBound(db, ref, key, source, env);
      case Retrying(u, env) => ResumeKeepsBound(db, u, None, env);
      case Requeueing(ref, key, env) => RequeueKeepsBound(db, ref, key, env);
      case Mirroring(u, outcome, _) => MirrorKeepsBound(db, u, outcome);
      case Finishing(u, evidence, env) => FinishKeepsBound(db, u, evidence, env);
      case Publishing(u, committed, _) => PublishKeepsBound(db, u, committed);
      case PublishFailing(u, _, _) => RowChangeKeepsBound(db, u, db.jobs[u].(stage := CompileFailed), Effect(db, a));
      case Recording(u, code, evidence, env) =>
        RowChangeKeepsBound(db, u, Recorded(db.jobs[u], code, evidence, env.memlock, env.now), Effect(db, a));
      case Settling(u, _) => RowChangeKeepsBound(db, u, db.jobs[u].(stage := Prepared), Effect(db, a));
      case Hitting(ref, key, env) => HitKeepsBound(db, ref, key, env);
      case Invalidating(key, _) => InvalidationKeepsBound(db, key);
      case Restarting(swept, adopted, env) => RestartKeepsBound(db, swept, adopted, env);
      case _ => SameBound(db, Effect(db, a));
    }
    SameBound(Effect(db, a), Next(db, a));
  }

  lemma {:induction false} RowIsBound(db: Db, u: nat)
    requires Bound(db) && u < |db.jobs|
    ensures BoundRow(db.jobs[u])
  {
  }

  /** Over every run, with source revisions, late publishes, retries, crashes and adoption, whatever
      names a compile key names the source digest the key was derived from. */
  lemma {:induction false} RunsAreBound(trace: seq<Db>, acts: seq<Action>, k: nat)
    requires IsRun(trace, acts) && k < |trace|
    ensures Bound(trace[k])
  {
    hide Bound, Next, Enabled;
    if k == 0 {
      EmptyIsBound();
    } else {
      RunsAreBound(trace, acts, k - 1);
      assert Enabled(trace[k - 1], acts[k - 1]) && trace[k - 1 + 1] == Next(trace[k - 1], acts[k - 1]);
      StepKeepsBound(trace[k - 1], acts[k - 1]);
    }
  }

  lemma {:induction false} EmptyIsBound()
    ensures Bound(EMPTY)
  {
  }

  // ================= two hits at once =================

  const HIT_KEY := Key("digest", "recipe")

  function HitAt(t: nat): Env {
    Env(t, Some("boot"), true, true, true)
  }

  function HitRow(ref: string, stage: Stage, t: nat): Row {
    Row(ref, Some(HIT_KEY), stage, 1, t, Some("boot"), None, Some("digest"), None)
  }

  function HitState(jobs: seq<Row>, stage: Stage, published: bool, pending: Option<nat>, t: nat): Db {
    var m := if published then map[HIT_KEY := "digest"] else map[];
    Db(jobs, {}, m, m, false, map[], {}, map[0 := Backend(stage, Some(HIT_KEY), "digest")], pending, t)
  }

  const HIT1 := HitState([HitRow("a", Queued, 1)], Queued, false, None, 1)
  const HIT2 := HitState([HitRow("a", Prepared, 1)], Prepared, false, Some(0), 2)
  const HIT3 := HitState([HitRow("a", Prepared, 1)], Prepared, true, None, 3)
  const HIT4 := HitState([HitRow("a", Prepared, 1), HitRow("b", Queued, 4)], Prepared, true, None, 4)
  const HIT5 := HitState([HitRow("a", Prepared, 1), HitRow("b", Queued, 4), HitRow("c", Queued, 5)], Prepared, true,
                         None, 5)

  const HITS := [Submitting("a", Some(HIT_KEY), Some("digest"), HitAt(1)),
                 Mirroring(0, Prepared, HitAt(2)),
                 Publishing(0, true, HitAt(3)),
                 Hitting("b", HIT_KEY, HitAt(4)),
                 Hitting("c", HIT_KEY, HitAt(5))]

  predicate Leads(db: Db, a: Action, db': Db) {
    Enabled(db, a) && Next(db, a) == db'
  }

  lemma {:induction false} FirstCompile()
    ensures Leads(EMPTY, HITS[0], HIT1)
  {
  }

  lemma {:induction false} FirstPrepared()
    ensures Leads(HIT1, HITS[1], HIT2)
  {
  }

  lemma {:induction false} FirstPublished()
    ensures Leads(HIT2, HITS[2], HIT3)
  {
  }

  lemma {:induction false} SecondHitCollides()
    ensures Leads(HIT3, HITS[3], HIT4) && Leads(HIT4, HITS[4], HIT5)
    ensures Collides(HIT4, HITS[4]) && Live(HIT5.jobs[1]) && Live(HIT5.jobs[2])
  {
    hide LiveFor;
    assert Live(HIT4.jobs[1]);
  }

  /** Two cached prepares of one committed key at once: between their writes the key has two live rows. */
  lemma {:induction false} TwoHitsAreBothLive() returns (trace: seq<Db>)
    ensures IsRun(trace, HITS)
    ensures |trace[5].jobs| == 3 && trace[5].jobs[1].key == trace[5].jobs[2].key == Some(HIT_KEY)
    ensures Live(trace[5].jobs[1]) && Live(trace[5].jobs[2])
  {
    hide Enabled, Next, HitState;
    FirstCompile();
    FirstPrepared();
    FirstPublished();
    SecondHitCollides();
    trace := [EMPTY, HIT1, HIT2, HIT3, HIT4, HIT5];
    HitRows();
  }

  lemma {:induction false} HitRows()
    ensures HIT5.jobs == [HitRow("a", Prepared, 1), HitRow("b", Queued, 4), HitRow("c", Queued, 5)]
  {
  }
}
