/** When the calls of the job manager open an attempt, and what it is: in terms of the rows alone. */
module JobCalls {
  import opened Text
  import opened RetryPolicy
  import opened Jobs

  /** The new row after `u`, live and with a backend, that `u` is marked with and whose refs it takes over. */
  ghost predicate Opened(db: Db, after: Db, u: nat, attempt: nat, history: seq<Event>, source: Option<Digest>,
                         env: Env) {
    var n := |db.jobs|;
    && u < n && |after.jobs| == n + 1
    && after.jobs[n].ref == db.jobs[u].ref && after.jobs[n].key == db.jobs[u].key
    && after.jobs[n].stage == Queued && after.jobs[n].attempt == attempt
    && after.jobs[n].created == env.now && after.jobs[n].boot == env.boot
    && after.jobs[n].source == source && after.jobs[n].parent == Some(u)
    && after.jobs[n].failure.Some? && after.jobs[n].failure.value.phase.None?
    && after.jobs[n].failure.value.resumedTo.None? && !after.jobs[n].failure.value.resumeRefused
    && after.jobs[n].failure.value.history == history
    && n in after.backends && after.backends[n].state == Queued && after.backends[n].key == db.jobs[u].key
    && after.backends[n].source == (if source.Some? then source.value else "")
    && (forall v | v != n :: (v in after.backends <==> v in db.backends)
                             && (v in db.backends ==> after.backends[v] == db.backends[v]))
    && (forall v | 0 <= v < n && v != u :: after.jobs[v] == db.jobs[v])
    && after.jobs[u].failure.Some? && after.jobs[u].failure.value.resumedTo == Some(n)
    && after.jobs[u] == db.jobs[u].(failure := after.jobs[u].failure)
    && (forall r :: (n, r) in after.aliases <==>
                      (n, r) in db.aliases || ((u, r) in db.aliases && r != db.jobs[u].ref))
    && (forall v, r | v != n :: (v, r) in after.aliases <==> (v, r) in db.aliases)
    && after.artifacts == db.artifacts && after.manifests == db.manifests && after.pending == db.pending
  }

  /** Nothing but the stamp that the row is not to be retried again. */
  predicate Stamped(db: Db, after: Db, u: nat) {
    && u < |db.jobs| == |after.jobs|
    && (forall v | 0 <= v < |db.jobs| && v != u :: after.jobs[v] == db.jobs[v])
    && after.jobs[u].failure.Some? && after.jobs[u].failure.value.resumeRefused
    && after.jobs[u] == db.jobs[u].(failure := after.jobs[u].failure)
    && after == db.(jobs := after.jobs)
  }

  lemma {:induction false} OpenOpens(db: Db, u: nat, attempts: nat, history: seq<Event>, source: Option<Digest>,
                                     env: Env)
    requires u < |db.jobs|
    ensures var after := Open(db, u, attempts, history, source, env);
            if env.spawn then Opened(db, after, u, attempts + 1, history, source, env) else Stamped(db, after, u)
  {
    if env.spawn {
      var n := |db.jobs|;
      var carried := Carried(db.aliases, u, n, db.jobs[u].ref);
      forall r
        ensures (n, r) in carried <==> (u, r) in db.aliases && r != db.jobs[u].ref
      {
        assert (u, r) in db.aliases && r != db.jobs[u].ref ==> (n, r) in carried;
      }
      assert forall v, r | v != n :: (v, r) !in carried;
    }
  }

  /** No live row has the key. */
  predicate Idle(jobs: seq<Row>, key: Option<Key>) {
    key.Some? ==> forall v | 0 <= v < |jobs| && jobs[v].key == key :: IsTerminal(jobs[v].stage)
  }

  lemma {:induction false} IdleMeans(jobs: seq<Row>, key: Option<Key>)
    ensures LiveFor(jobs, key).None? <==> Idle(jobs, key)
  {
  }

  /** The bytes to compile from are there, or none are needed. */
  predicate Sourced(db: Db, row: Row, env: Env) {
    env.compiler && row.key.Some? ==> row.source.Some? && row.source.value in db.sources
  }

  /** A failure that may be retried without an operator: recorded, not retried or refused yet, of one of the first
      two attempts, and an interruption, a transient failure whose time has come, or one blamed on a
      locked-memory limit that is now high enough. */
  predicate MayRetry(row: Row, env: Env) {
    && row.failure.Some?
    && var r := row.failure.value;
       && r.phase.Some? && r.resumedTo.None? && !r.resumeRefused && r.attempts < 3
       && (r.kind == InterruptedSafe || (r.kind == Transient && env.now >= r.notBefore)
           || (r.kind == ConfigBlocked && env.memlock))
  }

  /** The pump opens the next attempt after a failed row exactly if it may be retried, nothing is inhibited, no live
      row has its key, and its source and backend are there; without these it stamps the row, and otherwise
      it changes nothing. */
  lemma {:induction false} RetryOpens(db: Db, u: nat, env: Env)
    requires u < |db.jobs| && IsError(db.jobs[u].stage)
    ensures var row, after := db.jobs[u], RetryDue(db, u, env);
            if !MayRetry(row, env) || db.inhibited || !Idle(db.jobs, row.key) then after == db
            else if !env.spawn || !Sourced(db, row, env) then Stamped(db, after, u)
            else Opened(db, after, u, row.failure.value.attempts + 1, row.failure.value.history, row.source, env)
  {
    hide Opened, Stamped, Open, LiveFor, Idle;
    var row := db.jobs[u];
    IdleMeans(db.jobs, row.key);
    if row.failure.Some? {
      OpenOpens(db, u, row.failure.value.attempts, row.failure.value.history, row.source, Resolved(db, row, env));
      SameTimes(db, row, env);
      OpenedAnyhow(db, RetryDue(db, u, env), u, row, env, row.failure.value.attempts, row.failure.value.history);
    }
  }

  lemma {:induction false} SameTimes(db: Db, row: Row, env: Env)
    ensures Resolved(db, row, env).now == env.now && Resolved(db, row, env).boot == env.boot
    ensures Resolved(db, row, env).spawn <==> env.spawn && Sourced(db, row, env)
  {
  }

  lemma {:induction false} OpenedAnyhow(db: Db, after: Db, u: nat, row: Row, env: Env, attempts: nat,
                                        history: seq<Event>)
    ensures Opened(db, after, u, attempts + 1, history, row.source, Resolved(db, row, env)) <==>
            Opened(db, after, u, attempts + 1, history, row.source, env)
  {
    hide Resolves;
  }

  /** An operator may retry a failure that endangers nothing and is not permanent, and one without a record unless
      its stage says that it is. */
  predicate MayRequeue(row: Row) {
    if row.failure.Some? then
      row.failure.value.kind != Safety && row.failure.value.kind != Permanent && row.failure.value.retryable
    else row.stage != Quarantined && row.stage != ValidationFailed && row.stage != UnsupportedContract
  }

  /** An operator's retry opens a first attempt with the row's history after the newest row of the ref and key exactly
      if that failed and may be requeued, nothing is inhibited, no live row has the key, and its source and
      backend are there; without these it stamps the row, and otherwise it changes nothing. */
  lemma {:induction false} RequeueOpens(db: Db, ref: string, key: Option<Key>, env: Env)
    ensures var found, after := FindJob(db.jobs, ref, key), Requeue(db, ref, key, env);
            if found.None? || !IsError(db.jobs[found.value].stage) || !MayRequeue(db.jobs[found.value]) || db.inhibited
               || !Idle(db.jobs, key)
            then after == db
            else
              var u, row := found.value, db.jobs[found.value];
              var history := if row.failure.Some? then row.failure.value.history else [];
              if !env.spawn || !Sourced(db, row, env) then Stamped(db, after, u)
              else Opened(db, after, u, 1, history, row.source, env)
  {
    hide Opened, Stamped, Open, LiveFor, Idle, FindJob;
    IdleMeans(db.jobs, key);
    var found := FindJob(db.jobs, ref, key);
    if found.Some? {
      var u, row := found.value, db.jobs[found.value];
      var history := if row.failure.Some? then row.failure.value.history else [];
      OpenOpens(db, u, 0, history, row.source, Resolved(db, row, env));
      SameTimes(db, row, env);
      OpenedAnyhow(db, Requeue(db, ref, key, env), u, row, env, 0, history);
    }
  }

  /** A submission joins its newest row if that is live, retries it with the submitted source if it failed and may
      be retried, leaves it if its artifact is there, and else joins a live row of the key or adds a first
      attempt. */
  lemma {:induction false} SubmitOpens(db: Db, ref: string, key: Option<Key>, source: Option<Digest>, env: Env)
    requires key.Some? ==> source.Some?
    ensures var found, after := FindJob(db.jobs, ref, key), Submit(db, ref, key, source, env);
            && (found.Some? && !IsTerminal(db.jobs[found.value].stage) ==>
                  after == db.(aliases := db.aliases + {(found.value, ref)}))
            && (found.Some? && IsError(db.jobs[found.value].stage) && source.Some? ==>
                  var row := db.jobs[found.value];
                  if !MayRetry(row, env) || db.inhibited || !Idle(db.jobs, key) then after == db
                  else if !env.spawn then Stamped(db, after, found.value)
                  else Opened(db, after, found.value, row.failure.value.attempts + 1, row.failure.value.history, source,
                              env))
            && (found.None? || db.jobs[found.value].stage == Prepared ==>
                  if found.Some? && key.Some? && key.value in db.artifacts then after == db
                  else if !Idle(db.jobs, key) then
                    exists v: nat | v < |db.jobs| ::
                      db.jobs[v].key == key && !IsTerminal(db.jobs[v].stage)
                      && after == db.(aliases := db.aliases + {(v, ref)})
                  else if !env.spawn then after == db
                  else
                    && after.jobs == db.jobs + [Row(ref, key, Queued, 1, env.now, env.boot, None, source, None)]
                    && after.aliases == db.aliases && |db.jobs| in after.backends
                    && after.backends[|db.jobs|].state == Queued && after.backends[|db.jobs|].key == key)
  {
    hide Opened, Stamped, Open, LiveFor, Idle, FindJob, MayRetry;
    IdleMeans(db.jobs, key);
    var found := FindJob(db.jobs, ref, key);
    if found.Some? && IsError(db.jobs[found.value].stage) && source.Some? {
      ResubmitOpens(db, found.value, source, env);
    }
  }

  lemma {:induction false} ResubmitOpens(db: Db, u: nat, source: Option<Digest>, env: Env)
    requires u < |db.jobs| && source.Some?
    ensures var row, after := db.jobs[u], MaybeResume(db, u, source, env);
            if !MayRetry(row, env) || db.inhibited || !Idle(db.jobs, row.key) then after == db
            else if !env.spawn then Stamped(db, after, u)
            else Opened(db, after, u, row.failure.value.attempts + 1, row.failure.value.history, source, env)
  {
    hide Opened, Stamped, Open, LiveFor, Idle;
    var row := db.jobs[u];
    IdleMeans(db.jobs, row.key);
    if row.failure.Some? {
      OpenOpens(db, u, row.failure.value.attempts, row.failure.value.history, source, env);
    }
  }

  /** A failure is recorded with the stage and number of its attempt, on top of what is known of the attempts before;
      only a transient one waits, for 30 s after the first attempt and 60 s after the second. */
  lemma {:induction false} RecordSays(row: Row, code: string, evidence: Evidence, memlock: bool, now: nat)
    requires 1 <= row.attempt <= 2
    ensures var after := Recorded(row, code, evidence, memlock, now);
            && after == row.(failure := after.failure) && after.failure.Some?
            && var r, c := after.failure.value, Classify(row.stage, code, evidence, memlock);
               && r.phase == Some(row.stage) && r.attempts == row.attempt && r.kind == c.kind
               && r.retryable == c.retryable && r.resumedTo.None? && !r.resumeRefused
               && r.notBefore == now + (if c.kind != Transient then 0 else if row.attempt == 1 then 30 else 60)
               && r.history == (if row.failure.Some? then row.failure.value.history else [])
                               + [Event(row.attempt, row.stage, now)]
  {
    hide Backoff;
    BackoffDoubles(row.attempt);
    AutoTransient(row.stage, code, evidence, memlock);
  }

  lemma {:induction false} AutoTransient(stage: Stage, code: string, evidence: Evidence, memlock: bool)
    ensures Classify(stage, code, evidence, memlock).kind.Transient? ==> Classify(stage, code, evidence, memlock).auto
  {
  }

  /** Polling leaves the row with the state its backend has come to, a finished backend where it is, and every other
      row alone; what is new to the row is left for the pump to deal with. */
  lemma {:induction false} PollSays(db: Db, u: nat, outcome: Stage)
    requires u < |db.jobs| && u in db.backends && db.pending.None?
    ensures var row, after := db.jobs[u], Mirror(db, u, outcome);
            && |after.jobs| == |db.jobs| && after.jobs[u] == row.(stage := after.backends[u].state)
            && (forall v | 0 <= v < |db.jobs| && v != u :: after.jobs[v] == db.jobs[v])
            && after.backends == db.backends[u := db.backends[u].(state := after.jobs[u].stage)]
            && (after.jobs[u].stage == outcome || after.jobs[u].stage == db.backends[u].state)
            && (after.jobs[u].stage == db.backends[u].state <==>
                  db.backends[u].state == outcome || IsTerminal(db.backends[u].state))
            && after == db.(jobs := after.jobs, backends := after.backends, pending := after.pending)
            && (after.pending == Some(u) <==>
                  || (IsError(after.jobs[u].stage) && (row.stage != after.jobs[u].stage || row.failure.None?))
                  || (after.jobs[u].stage == Prepared && !IsTerminal(row.stage) && row.key.Some?))
            && (after.pending.None? || after.pending == Some(u))
  {
  }

  /** A commit leaves an artifact that is there as it is, and otherwise puts a directory of the row's source under its
      key, with a row that names the same source unless it is cut short; no other key changes. */
  lemma {:induction false} CommitSays(db: Db, u: nat, committed: bool)
    requires u < |db.jobs| && db.jobs[u].key.Some?
    ensures var key, after := db.jobs[u].key.value, Publish(db, u, committed);
            && after == db.(artifacts := after.artifacts, manifests := after.manifests, pending := after.pending)
            && after.pending == (if db.pending == Some(u) then None else db.pending)
            && (key in db.artifacts ==> after.artifacts == db.artifacts && after.manifests == db.manifests)
            && (key !in db.artifacts ==>
                  && key in after.manifests && (key in after.artifacts <==> committed)
                  && (committed ==> after.artifacts[key] == after.manifests[key])
                  && (db.jobs[u].source.Some? ==> after.manifests[key] == db.jobs[u].source.value)
                  && (db.jobs[u].source.None? ==>
                        after.manifests[key] == if db.jobs[u].ref in db.refs then db.refs[db.jobs[u].ref] else ""))
            && forall k | k != key ::
                 && (k in after.artifacts <==> k in db.artifacts) && (k in after.manifests <==> k in db.manifests)
                 && (k in db.artifacts ==> after.artifacts[k] == db.artifacts[k])
                 && (k in db.manifests ==> after.manifests[k] == db.manifests[k])
  {
  }

  /** A failed commit fails its row alone and leaves it to the pump if that recorded the failure. */
  lemma {:induction false} CommitFailureSays(db: Db, u: nat, recording: bool)
    requires u < |db.jobs|
    ensures var after := PublishFailed(db, u, recording);
            && |after.jobs| == |db.jobs| && after.jobs[u] == db.jobs[u].(stage := CompileFailed)
            && (forall v | 0 <= v < |db.jobs| && v != u :: after.jobs[v] == db.jobs[v])
            && after == db.(jobs := after.jobs, pending := after.pending)
            && after.pending == (if !recording && db.pending == Some(u) then None else db.pending)
  {
  }

  /** The two writes of a cache hit add one prepared first attempt of the key, with its source and without a
      backend. */
  lemma {:induction false} HitSays(db: Db, ref: string, key: Key, env: Env)
    ensures var n, after := |db.jobs|, SettleHit(Hit(db, ref, key, env), |db.jobs|);
            && |after.jobs| == n + 1 && after.jobs[..n] == db.jobs && !IsTerminal(Hit(db, ref, key, env).jobs[n].stage)
            && after.jobs[n].ref == ref && after.jobs[n].key == Some(key) && after.jobs[n].source == Some(key.source)
            && after.jobs[n].stage == Prepared && after.jobs[n].attempt == 1 && after.jobs[n].created == env.now
            && after.jobs[n].boot == env.boot && after.jobs[n].failure.None? && after.jobs[n].parent.None?
            && after == db.(jobs := after.jobs)
  {
  }

  /** A restart interrupts the live rows and leaves the finished ones, forgets the backends, and keeps of the
      directories without a row those it adopts.  A row it interrupts may be retried without an operator exactly
      if nothing is inhibited and its boot is proven to be this one. */
  lemma {:induction false} RestartSays(db: Db, swept: set<nat>, adopted: set<Key>, env: Env, u: nat)
    requires u < |db.jobs|
    ensures var row, after := db.jobs[u], Restart(db, swept, adopted, env);
            && |after.jobs| == |db.jobs| && after.backends == map[] && after.pending.None?
            && after.aliases == db.aliases && after.sources == db.sources && after.refs == db.refs
            && after.inhibited == db.inhibited
            && (IsTerminal(row.stage) && (row.stage != Interrupted || row.failure.Some?) ==> after.jobs[u] == row)
            && (!IsTerminal(row.stage) && u in swept && row.failure.Some? ==>
                  after.jobs[u] == row.(stage := Interrupted))
            && ((row.failure.None? && (!IsTerminal(row.stage) || row.stage == Interrupted))
                || (!IsTerminal(row.stage) && u !in swept) ==>
                  && after.jobs[u] == row.(stage := Interrupted, failure := after.jobs[u].failure)
                  && after.jobs[u].failure.Some? && var r := after.jobs[u].failure.value;
                     && r.phase == Some(Interrupted) && r.attempts == row.attempt && r.resumedTo.None?
                     && !r.resumeRefused && r.retryable && r.notBefore == env.now
                     && r.kind == (if !db.inhibited && row.boot.Some? && row.boot == env.boot then InterruptedSafe
                                   else Unknown))
    ensures var after := Restart(db, swept, adopted, env); forall k ::
              && (k in after.artifacts <==> k in db.artifacts || (k in db.manifests && k in adopted))
              && (k in db.artifacts ==> after.artifacts[k] == db.artifacts[k])
              && (k in after.artifacts && k !in db.artifacts ==> after.artifacts[k] == db.manifests[k])
              && (k in after.manifests <==> k in db.manifests && (k in db.artifacts || k in adopted))
              && (k in after.manifests ==> after.manifests[k] == db.manifests[k])
  {
  }

  /** What the surroundings change is one thing at a time, and nothing of the rows. */
  lemma {:induction false} SurroundingsSay(db: Db, a: Action)
    requires Enabled(db, a)
    requires a.Invalidating? || a.Inhibiting? || a.Revising? || a.Storing? || a.Losing?
    ensures var after := Next(db, a);
            && after.jobs == db.jobs && after.aliases == db.aliases && after.backends == db.backends
            && after.pending == db.pending && db.clock < after.clock == a.env.now
            && after.inhibited == (if a.Inhibiting? then a.on else db.inhibited)
            && (forall k :: (k in after.artifacts <==> k in db.artifacts && !(a.Invalidating? && k == a.stale))
                            && (k in after.manifests <==> k in db.manifests && !(a.Invalidating? && k == a.stale)))
            && (forall k | k in after.artifacts :: after.artifacts[k] == db.artifacts[k])
            && (forall k | k in after.manifests :: after.manifests[k] == db.manifests[k])
            && (forall d | (a.Storing? || a.Losing? ==> d != a.digest) :: d in after.sources <==> d in db.sources)
            && (a.Storing? ==> a.digest in after.sources) && (a.Losing? ==> a.digest !in after.sources)
            && (a.Revising? ==> a.ref in after.refs && after.refs[a.ref] == a.digest)
            && (forall r | !(a.Revising? && r == a.ref) ::
                  (r in after.refs <==> r in db.refs) && (r in db.refs ==> after.refs[r] == db.refs[r]))
  {
  }
}
