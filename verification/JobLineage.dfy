/** Retry lineages: every row is retried at most once, the attempts of a lineage are bounded, its aliases
    follow it, and its retries wait for the backoff. */
module JobLineage {
  import opened Text
  import opened RetryPolicy
  import opened Jobs

  /** The row has a failure record, or has been retried. */
  predicate Judged(r: Row) {
    r.failure.Some? && (r.failure.value.phase.Some? || r.failure.value.resumedTo.Some?)
  }

  predicate RecordOk(r: Record, attempt: nat) {
    r.phase.Some? ==>
      && r.attempts == attempt
      && (r.kind.Transient? ==> r.history != [] && r.notBefore == r.history[|r.history| - 1].at + Backoff(attempt))
  }

  predicate RowOk(r: Row) {
    && 1 <= r.attempt <= MAX_ATTEMPTS
    && (Live(r) ==> !Judged(r))
    && (r.failure.Some? ==> RecordOk(r.failure.value, r.attempt))
  }

  /** Row `v` is the one successor of row `p`: a first attempt of an operator's retry, or the next
      attempt after a failure that may be retried automatically, opened no earlier than its backoff. */
  predicate Succeeds(p: Row, r: Row, v: nat) {
    && r.ref == p.ref && r.key == p.key
    && !Live(p) && p.failure.Some? && p.failure.value.resumedTo == Some(v)
    && (r.attempt == 1 || (r.attempt == p.attempt + 1 && p.failure.value.phase.Some?
                           && (p.failure.value.kind.Transient? ==> r.created >= p.failure.value.notBefore)))
  }

  predicate LinkOk(jobs: seq<Row>, v: nat)
    requires v < |jobs|
  {
    jobs[v].parent.Some? ==> jobs[v].parent.value < v && Succeeds(jobs[jobs[v].parent.value], jobs[v], v)
  }

  predicate Chained(jobs: seq<Row>) {
    (forall i | 0 <= i < |jobs| :: RowOk(jobs[i])) && forall v | 0 <= v < |jobs| :: LinkOk(jobs, v)
  }

  predicate AliasesFollow(jobs: seq<Row>, aliases: set<(nat, string)>) {
    && (forall a | a in aliases :: a.0 < |jobs|)
    && forall v | 0 <= v < |jobs| && jobs[v].parent.Some? && jobs[v].parent.value < v ::
         AliasesOf(aliases, jobs[v].parent.value) <= AliasesOf(aliases, v) + {jobs[v].ref}
  }

  /** A row that is done agrees with its backend, unless its commit failed. */
  predicate BackendsAgree(jobs: seq<Row>, backends: map<nat, Backend>) {
    forall u | u in backends ::
      && u < |jobs|
      && (!Live(jobs[u]) ==>
            backends[u].state == jobs[u].stage || (backends[u].state.Prepared? && jobs[u].stage.CompileFailed?))
  }

  predicate PendingOk(jobs: seq<Row>, pending: Option<nat>) {
    pending.Some? ==> pending.value < |jobs| && !Live(jobs[pending.value]) && !Judged(jobs[pending.value])
  }

  predicate Ok(db: Db) {
    && Chained(db.jobs) && AliasesFollow(db.jobs, db.aliases)
    && BackendsAgree(db.jobs, db.backends) && PendingOk(db.jobs, db.pending)
  }

  predicate Childless(jobs: seq<Row>, u: nat) {
    forall v | 0 <= v < |jobs| :: jobs[v].parent != Some(u)
  }

  // ================= consequences of the chain =================

  function Depth(jobs: seq<Row>, u: nat): nat
    requires u < |jobs|
  {
    if jobs[u].parent.Some? && jobs[u].parent.value < u then Depth(jobs, jobs[u].parent.value) + 1 else 1
  }

  /** How many rows of the lineage that ends in `u` an operator opened. */
  function Recovers(jobs: seq<Row>, u: nat): nat
    requires u < |jobs|
  {
    if jobs[u].parent.Some? && jobs[u].parent.value < u
    then Recovers(jobs, jobs[u].parent.value) + (if jobs[u].attempt == 1 then 1 else 0)
    else 0
  }

  lemma {:induction false} DepthBounded(jobs: seq<Row>, u: nat)
    requires Chained(jobs) && u < |jobs|
    ensures Depth(jobs, u)
            <= MAX_ATTEMPTS * Recovers(jobs, u) + jobs[u].attempt
            <= MAX_ATTEMPTS * (1 + Recovers(jobs, u))
  {
    assert RowOk(jobs[u]) && LinkOk(jobs, u);
    if jobs[u].parent.Some? {
      DepthBounded(jobs, jobs[u].parent.value);
      assert RowOk(jobs[jobs[u].parent.value]);
    }
  }

  lemma {:induction false} OneSuccessor(jobs: seq<Row>, v: nat, w: nat)
    requires Chained(jobs) && v < |jobs| && w < |jobs| && jobs[v].parent.Some? && jobs[v].parent == jobs[w].parent
    ensures v == w
  {
    assert LinkOk(jobs, v) && LinkOk(jobs, w);
  }

  lemma {:induction false} UnmarkedIsChildless(jobs: seq<Row>, u: nat)
    requires Chained(jobs) && u < |jobs| && (jobs[u].failure.None? || jobs[u].failure.value.resumedTo.None?)
    ensures Childless(jobs, u)
  {
    forall v | 0 <= v < |jobs|
      ensures jobs[v].parent != Some(u)
    {
      assert LinkOk(jobs, v);
    }
  }

  /** The newest row of a ref and key has not been retried. */
  lemma {:induction false} NewestIsChildless(jobs: seq<Row>, ref: string, key: Option<Key>)
    requires Chained(jobs) && FindJob(jobs, ref, key).Some?
    ensures Childless(jobs, FindJob(jobs, ref, key).value)
  {
    var u := FindJob(jobs, ref, key).value;
    forall v | 0 <= v < |jobs|
      ensures jobs[v].parent != Some(u)
    {
      assert LinkOk(jobs, v);
    }
  }

  // ================= changing one row =================

  /** A row without successors may change as long as its identity stays. */
  lemma {:induction false} AmendKeepsChained(jobs: seq<Row>, u: nat, row: Row)
    requires Chained(jobs) && u < |jobs| && Childless(jobs, u) && RowOk(row)
    requires row.(stage := jobs[u].stage, failure := jobs[u].failure) == jobs[u]
    ensures Chained(jobs[u := row])
  {
    hide RowOk;
    var after := jobs[u := row];
    forall v | 0 <= v < |after|
      ensures LinkOk(after, v)
    {
      assert LinkOk(jobs, v);
    }
  }

  /** A row that has been retried may change its stage within the terminal ones. */
  lemma {:induction false} RestageKeepsChained(jobs: seq<Row>, u: nat, stage: Stage)
    requires Chained(jobs) && u < |jobs| && !Live(jobs[u]) && IsTerminal(stage)
    ensures Chained(jobs[u := jobs[u].(stage := stage)])
  {
    var after := jobs[u := jobs[u].(stage := stage)];
    assert RowOk(jobs[u]);
    forall v | 0 <= v < |after|
      ensures LinkOk(after, v)
    {
      assert LinkOk(jobs, v);
    }
  }

  lemma {:induction false} SucceedKeepsChained(jobs: seq<Row>, u: nat, row: Row, next: Row)
    requires Chained(jobs) && u < |jobs| && Childless(jobs, u) && RowOk(row) && RowOk(next) && next.parent == Some(u)
    requires row.(failure := jobs[u].failure) == jobs[u] && Succeeds(row, next, |jobs|)
    ensures Chained(jobs[u := row] + [next])
  {
    AmendKeepsChained(jobs, u, row);
    var mid, after := jobs[u := row], jobs[u := row] + [next];
    forall v | 0 <= v < |after|
      ensures LinkOk(after, v)
    {
      assert v < |mid| ==> LinkOk(mid, v);
    }
  }

  // ================= each call =================

  /** The first attempt of an operator's retry, or the attempt after an eligible record. */
  predicate Base(row: Row, attempts: nat, env: Env) {
    || attempts == 0
    || (row.failure.Some? && AutoEligible(row.failure.value, env.now, env.memlock)
        && attempts == row.failure.value.attempts)
  }

  lemma {:induction false} OpenedRows(db: Db, u: nat, attempts: nat, history: seq<Event>, source: Option<Digest>,
                                      env: Env)
    requires Chained(db.jobs) && u < |db.jobs| && !Live(db.jobs[u]) && Childless(db.jobs, u)
             && Base(db.jobs[u], attempts, env)
    ensures Chained(Open(db, u, attempts, history, source, env).jobs)
  {
    hide Backoff;
    var row := db.jobs[u];
    assert RowOk(row);
    if env.spawn {
      var next := Row(row.ref, row.key, Queued, attempts + 1, env.now, env.boot, Some(ResumeNote(history)), source,
                      Some(u));
      var marked := row.(failure := Some(Failure(row).(resumedTo := Some(|db.jobs|))));
      SucceedKeepsChained(db.jobs, u, marked, next);
      assert (db.jobs + [next])[u := marked] == db.jobs[u := marked] + [next];
    } else {
      AmendKeepsChained(db.jobs, u, row.(failure := Some(Failure(row).(resumeRefused := true))));
    }
  }

  lemma {:induction false} OpenedAliases(db: Db, u: nat, attempts: nat, history: seq<Event>, source: Option<Digest>,
                                         env: Env)
    requires AliasesFollow(db.jobs, db.aliases) && u < |db.jobs|
    ensures var after := Open(db, u, attempts, history, source, env); AliasesFollow(after.jobs, after.aliases)
    ensures env.spawn ==> RefsFor(Open(db, u, attempts, history, source, env), |db.jobs|) == RefsFor(db, u)
  {
    var row, after := db.jobs[u], Open(db, u, attempts, history, source, env);
    if env.spawn {
      var n := |db.jobs|;
      forall v | 0 <= v < n
        ensures AliasesOf(after.aliases, v) == AliasesOf(db.aliases, v)
      {
        assert forall a | a in Carried(db.aliases, u, n, row.ref) :: a.0 == n;
      }
      forall x
        ensures x in AliasesOf(after.aliases, n) <==> x in AliasesOf(db.aliases, u) && x != row.ref
      {
        assert (u, x) in db.aliases && x != row.ref ==> (n, x) in after.aliases;
      }
    }
  }

  /** Opening an attempt keeps everything unless it is the pump's pending row that is marked. */
  lemma {:induction false} OpenKeepsOk(db: Db, u: nat, attempts: nat, history: seq<Event>, source: Option<Digest>,
                                       env: Env)
    requires Ok(db) && u < |db.jobs| && IsError(db.jobs[u].stage) && Childless(db.jobs, u)
             && Base(db.jobs[u], attempts, env)
    ensures Ok(Open(db, u, attempts, history, source, env)) <==> db.pending != Some(u) || !env.spawn
  {
    hide Chained, AliasesFollow, AutoEligible, Childless;
    OpenedRows(db, u, attempts, history, source, env);
    OpenedAliases(db, u, attempts, history, source, env);
  }

  lemma {:induction false} ResumeKeepsOk(db: Db, u: nat, source: Option<Digest>, env: Env)
    requires Ok(db) && u < |db.jobs| && IsError(db.jobs[u].stage)
    ensures Ok(MaybeResume(db, u, source, env))
  {
    hide Chained, AliasesFollow, BackendsAgree, Open, Resolves;
    if Resumable(db, u, env) {
      var record, row := db.jobs[u].failure.value, db.jobs[u];
      UnmarkedIsChildless(db.jobs, u);
      OpenKeepsOk(db, u, record.attempts, record.history, source, env);
      OpenKeepsOk(db, u, record.attempts, record.history, row.source, Resolved(db, row, env));
    }
  }

  lemma {:induction false} JoinKeepsOk(db: Db, u: nat, ref: string)
    requires Ok(db) && u < |db.jobs| && Live(db.jobs[u])
    ensures Ok(Join(db, u, ref))
  {
    hide Backoff, AutoEligible;
    UnmarkedIsChildless(db.jobs, u);
    forall v | 0 <= v < |db.jobs|
      ensures AliasesOf(db.aliases, v) <= AliasesOf(Join(db, u, ref).aliases, v)
      ensures v != u ==> AliasesOf(Join(db, u, ref).aliases, v) == AliasesOf(db.aliases, v)
    {
    }
  }

  /** A row that follows no other. */
  lemma {:induction false} AppendKeepsOk(db: Db, row: Row, backend: bool)
    requires Ok(db) && RowOk(row) && row.parent.None? && (backend ==> Live(row))
    ensures Ok(if backend then Insert(db, row) else db.(jobs := db.jobs + [row]))
  {
    hide RowOk, Succeeds;
    var after := db.jobs + [row];
    forall v | 0 <= v < |after|
      ensures LinkOk(after, v)
    {
      assert v < |db.jobs| ==> LinkOk(db.jobs, v);
    }
  }

  lemma {:induction false} SubmitKeepsOk(db: Db, ref: string, key: Option<Key>, source: Option<Digest>, env: Env)
    requires Ok(db)
    ensures Ok(Submit(db, ref, key, source, env))
  {
    hide Ok, MaybeResume, Join, Insert;
    var found, live := FindJob(db.jobs, ref, key), LiveFor(db.jobs, key);
    if found.Some? && IsError(db.jobs[found.value].stage) {
      ResumeKeepsOk(db, found.value, source, env);
    }
    if found.Some? && Live(db.jobs[found.value]) {
      JoinKeepsOk(db, found.value, ref);
    }
    if live.Some? {
      JoinKeepsOk(db, live.value, ref);
    }
    AppendKeepsOk(db, Row(ref, key, Queued, 1, env.now, env.boot, None, source, None), true);
  }

  /** An operator's retry that opens an attempt after the pump's pending row is the one call that breaks
      the chain's promise. */
  predicate Torn(db: Db, a: Action) {
    && a.Requeueing? && RequeueTarget(db, a.ref, a.key).Some? && RequeueTarget(db, a.ref, a.key) == db.pending
    && Resolved(db, db.jobs[RequeueTarget(db, a.ref, a.key).value], a.env).spawn
  }

  lemma {:induction false} RequeueKeepsOk(db: Db, ref: string, key: Option<Key>, env: Env)
    requires Ok(db)
    ensures Ok(Requeue(db, ref, key, env)) <==> !Torn(db, Requeueing(ref, key, env))
  {
    hide Chained, AliasesFollow, BackendsAgree, PendingOk, Open, Resolves;
    var target := RequeueTarget(db, ref, key);
    if target.Some? {
      var row := db.jobs[target.value];
      NewestIsChildless(db.jobs, ref, key);
      OpenKeepsOk(db, target.value, 0, RequeueBase(row).value, row.source, Resolved(db, row, env));
    }
  }

  lemma {:induction false} AmendKeepsAliases(jobs: seq<Row>, aliases: set<(nat, string)>, u: nat, row: Row)
    requires AliasesFollow(jobs, aliases) && u < |jobs|
             && row.(stage := jobs[u].stage, failure := jobs[u].failure) == jobs[u]
    ensures AliasesFollow(jobs[u := row], aliases)
  {
    hide AliasesOf;
  }

  lemma {:induction false} MirrorKeepsBackends(db: Db, u: nat, outcome: Stage)
    requires BackendsAgree(db.jobs, db.backends) && u < |db.jobs| && u in db.backends
    ensures BackendsAgree(Mirror(db, u, outcome).jobs, Mirror(db, u, outcome).backends)
  {
  }

  lemma {:induction false} MirrorKeepsPending(db: Db, u: nat, outcome: Stage)
    requires u < |db.jobs| && u in db.backends && RowOk(db.jobs[u]) && BackendsAgree(db.jobs, db.backends)
             && db.pending.None?
    ensures PendingOk(Mirror(db, u, outcome).jobs, Mirror(db, u, outcome).pending)
  {
    hide RecordOk;
  }

  lemma {:induction false} MirrorKeepsChained(db: Db, u: nat, outcome: Stage)
    requires Chained(db.jobs) && BackendsAgree(db.jobs, db.backends) && u < |db.jobs| && u in db.backends
    ensures Chained(Mirror(db, u, outcome).jobs)
  {
    hide Chained, RecordOk;
    var row, stage := db.jobs[u], Polled(db.backends[u], outcome);
    RowIsOk(db.jobs, u);
    if Live(row) {
      UnmarkedIsChildless(db.jobs, u);
      AmendKeepsChained(db.jobs, u, row.(stage := stage));
    } else {
      RestageKeepsChained(db.jobs, u, stage);
    }
  }

  lemma {:induction false} MirrorKeepsOk(db: Db, u: nat, outcome: Stage)
    requires Ok(db) && u < |db.jobs| && u in db.backends && db.pending.None?
    ensures Ok(Mirror(db, u, outcome))
  {
    hide Chained, AliasesFollow, BackendsAgree, PendingOk, RowOk, Polled;
    RowIsOk(db.jobs, u);
    MirrorKeepsChained(db, u, outcome);
    MirrorKeepsBackends(db, u, outcome);
    MirrorKeepsPending(db, u, outcome);
    AmendKeepsAliases(db.jobs, db.aliases, u, db.jobs[u].(stage := Polled(db.backends[u], outcome)));
  }

  lemma {:induction false} RowIsOk(jobs: seq<Row>, u: nat)
    requires Chained(jobs) && u < |jobs|
    ensures RowOk(jobs[u])
  {
  }

  lemma {:induction false} RecordedIsOk(row: Row, code: string, evidence: Evidence, memlock: bool, now: nat)
    requires RowOk(row) && !Live(row)
    ensures RowOk(Recorded(row, code, evidence, memlock, now))
  {
    hide Backoff;
  }

  /** Writing the record of the pending row. */
  lemma {:induction false} RecordKeepsOk(db: Db, u: nat, code: string, evidence: Evidence, env: Env, now: nat)
    requires Ok(db) && db.pending == Some(u) && u < |db.jobs|
    ensures Ok(Amend(db, u, Recorded(db.jobs[u], code, evidence, env.memlock, now)).(pending := None))
  {
    hide Chained, AliasesFollow, BackendsAgree, RowOk, Recorded;
    var row := Recorded(db.jobs[u], code, evidence, env.memlock, now);
    SameIdentity(db.jobs[u], code, evidence, env.memlock, now);
    RowIsOk(db.jobs, u);
    UnmarkedIsChildless(db.jobs, u);
    RecordedIsOk(db.jobs[u], code, evidence, env.memlock, now);
    RecordedAgrees(db.jobs, db.backends, u, row);
    AmendKeepsChained(db.jobs, u, row);
    AmendKeepsAliases(db.jobs, db.aliases, u, row);
  }

  lemma {:induction false} SameIdentity(row: Row, code: string, evidence: Evidence, memlock: bool, now: nat)
    ensures var after := Recorded(row, code, evidence, memlock, now);
            after.stage == row.stage && after.(stage := row.stage, failure := row.failure) == row
  {
    hide NewRecord;
  }

  lemma {:induction false} RecordedAgrees(jobs: seq<Row>, backends: map<nat, Backend>, u: nat, row: Row)
    requires BackendsAgree(jobs, backends) && u < |jobs| && row.stage == jobs[u].stage
    ensures BackendsAgree(jobs[u := row], backends)
  {
  }

  lemma {:induction false} FinishKeepsOk(db: Db, u: nat, evidence: Evidence, env: Env)
    requires Ok(db) && db.pending == Some(u) && u < |db.jobs| && IsError(db.jobs[u].stage)
    ensures Ok(Finish(db, u, evidence, env))
  {
    hide Ok, NewRecord;
    RecordKeepsOk(db, u, StageName(db.jobs[u].stage), evidence, env, env.now);
  }

  /** The first write of a failed commit; the row stays pending until the second. */
  lemma {:induction false} PublishFailureKeepsOk(db: Db, u: nat, recording: bool)
    requires Ok(db) && u < |db.jobs| && db.jobs[u].stage.Prepared?
    ensures Ok(PublishFailed(db, u, recording))
  {
    hide Chained, AliasesFollow;
    RestageKeepsChained(db.jobs, u, CompileFailed);
    AmendKeepsAliases(db.jobs, db.aliases, u, db.jobs[u].(stage := CompileFailed));
  }

  lemma {:induction false} SettleKeepsOk(db: Db, u: nat)
    requires Ok(db) && u < |db.jobs| && Live(db.jobs[u]) && u !in db.backends
    ensures Ok(SettleHit(db, u))
  {
    hide Chained, AliasesFollow, RecordOk;
    RowIsOk(db.jobs, u);
    UnmarkedIsChildless(db.jobs, u);
    AmendKeepsChained(db.jobs, u, db.jobs[u].(stage := Prepared));
    AmendKeepsAliases(db.jobs, db.aliases, u, db.jobs[u].(stage := Prepared));
  }

  lemma {:induction false} NoticeKeepsOk(db: Db, u: nat)
    requires Ok(db) && u < |db.jobs| && db.jobs[u].stage.Prepared? && Untouched(db.jobs[u])
    ensures Ok(db.(pending := Some(u)))
  {
    hide Chained, AliasesFollow, BackendsAgree;
  }

  lemma {:induction false} InterruptedIsOk(row: Row, swept: bool, inhibited: bool, env: Env)
    requires RowOk(row)
    ensures RowOk(Interrupt(row, swept, inhibited, env))
    ensures !Live(row) && Judged(row) ==> Interrupt(row, swept, inhibited, env) == row
    ensures var after := Interrupt(row, swept, inhibited, env);
            after.(stage := row.stage, failure := row.failure) == row && !Live(after)
  {
    hide Backoff;
  }

  lemma {:induction false} RestartedRows(db: Db, swept: set<nat>, adopted: set<Key>, env: Env)
    requires Chained(db.jobs)
    ensures var after := Restart(db, swept, adopted, env).jobs;
            |after| == |db.jobs| && forall i | 0 <= i < |after| :: RestartedRow(db.jobs[i], after[i])
  {
    hide RowOk, Interrupt, Succeeds, LinkOk;
    var after := Restart(db, swept, adopted, env).jobs;
    forall i | 0 <= i < |after|
      ensures RestartedRow(db.jobs[i], after[i])
    {
      InterruptedIsOk(db.jobs[i], i in swept, db.inhibited, env);
    }
  }

  /** What a restart keeps of a row. */
  predicate RestartedRow(row: Row, after: Row) {
    && RowOk(after) && (!Live(row) && Judged(row) ==> after == row)
    && after.(stage := row.stage, failure := row.failure) == row
  }

  lemma {:induction false} RestartedLink(jobs: seq<Row>, after: seq<Row>, v: nat)
    requires |after| == |jobs| && v < |jobs| && LinkOk(jobs, v)
    requires forall i | 0 <= i < |after| :: RestartedRow(jobs[i], after[i])
    ensures LinkOk(after, v)
  {
    hide RowOk;
    if jobs[v].parent.Some? {
      assert RestartedRow(jobs[jobs[v].parent.value], after[jobs[v].parent.value]);
    }
    assert RestartedRow(jobs[v], after[v]);
  }

  lemma {:induction false} RestartedAliases(jobs: seq<Row>, after: seq<Row>, aliases: set<(nat, string)>)
    requires |after| == |jobs| && AliasesFollow(jobs, aliases)
    requires forall i | 0 <= i < |after| :: RestartedRow(jobs[i], after[i])
    ensures AliasesFollow(after, aliases)
  {
    hide RowOk, AliasesOf;
    assert forall i | 0 <= i < |after| :: after[i].parent == jobs[i].parent && after[i].ref == jobs[i].ref;
  }

  lemma {:induction false} RestartKeepsOk(db: Db, swept: set<nat>, adopted: set<Key>, env: Env)
    requires Ok(db)
    ensures Ok(Restart(db, swept, adopted, env))
  {
    hide RowOk, LinkOk, AliasesFollow, Interrupt;
    var after := Restart(db, swept, adopted, env);
    RestartedRows(db, swept, adopted, env);
    RestartedAliases(db.jobs, after.jobs, db.aliases);
    forall v | 0 <= v < |after.jobs|
      ensures LinkOk(after.jobs, v)
    {
      RestartedLink(db.jobs, after.jobs, v);
    }
    assert forall i | 0 <= i < |after.jobs| :: RestartedRow(db.jobs[i], after.jobs[i]);
  }

  lemma {:induction false} SameOk(db: Db, db': Db)
    requires Ok(db) && db'.jobs == db.jobs && db'.backends == db.backends && db'.aliases == db.aliases
    requires db'.pending == db.pending || db'.pending.None?
    ensures Ok(db')
  {
  }

  lemma {:induction false} SameOkBack(db: Db, db': Db)
    requires db'.jobs == db.jobs && db'.backends == db.backends && db'.aliases == db.aliases
             && db'.pending == db.pending
    ensures Ok(db) <==> Ok(db')
  {
  }

  /** A call keeps the lineages in order exactly when it does not retry, for an operator, the row whose
      failure the pump has written as a stage but not yet recorded. */
  lemma {:induction false} StepKeepsOk(db: Db, a: Action)
    requires Ok(db) && Enabled(db, a)
    ensures Ok(Next(db, a)) <==> !Torn(db, a)
  {
    hide Ok, MaybeResume, Submit, Requeue, Mirror, Finish, PublishFailed, RecordPublish, Hit, SettleHit, Restart,
         RequeueTarget, Resolved;
    match a {
      case Submitting(ref, key, source, env) => SubmitKeepsOk(db, ref, key, source, env);
      case Retrying(u, env) =>
        if IsError(db.jobs[u].stage) {
          ResumeKeepsOk(db, u, None, env);
        }
      case Requeueing(ref, key, env) => RequeueKeepsOk(db, ref, key, env);
      case Mirroring(u, outcome, _) => MirrorKeepsOk(db, u, outcome);
      case Finishing(u, evidence, env) => FinishKeepsOk(db, u, evidence, env);
      case Noticing(u, _) => NoticeKeepsOk(db, u);
      case PublishFailing(u, recording, _) => PublishFailureKeepsOk(db, u, recording);
      case Recording(u, code, evidence, env) => RecordPublishKeepsOk(db, u, code, evidence, env);
      case Settling(u, _) => SettleKeepsOk(db, u);
      case Hitting(ref, key, env) => HitKeepsOk(db, ref, key, env);
      case Restarting(swept, adopted, env) => RestartKeepsOk(db, swept, adopted, env);
      case _ => SameOk(db, Effect(db, a));
    }
    SameOkBack(Effect(db, a), Next(db, a));
  }

  lemma {:induction false} RecordPublishKeepsOk(db: Db, u: nat, code: string, evidence: Evidence, env: Env)
    requires Ok(db) && db.pending == Some(u) && u < |db.jobs|
    ensures Ok(RecordPublish(db, u, code, evidence, env))
  {
    hide Ok, Recorded;
    RecordKeepsOk(db, u, code, evidence, env, env.now);
  }

  lemma {:induction false} HitKeepsOk(db: Db, ref: string, key: Key, env: Env)
    requires Ok(db)
    ensures Ok(Hit(db, ref, key, env))
  {
    hide Ok;
    AppendKeepsOk(db, Row(ref, Some(key), Queued, 1, env.now, env.boot, None, Some(key.source), None), false);
  }

  // ================= all runs =================

  lemma {:induction false} RunsKeepLineage(trace: seq<Db>, acts: seq<Action>, k: nat)
    requires IsRun(trace, acts) && k < |trace| && forall i | 0 <= i < k :: !Torn(trace[i], acts[i])
    ensures Ok(trace[k])
  {
    hide Ok, Next, Enabled, Torn;
    if k == 0 {
      EmptyIsOk();
    } else {
      RunsKeepLineage(trace, acts, k - 1);
      assert Enabled(trace[k - 1], acts[k - 1]) && trace[k - 1 + 1] == Next(trace[k - 1], acts[k - 1]);
      StepKeepsOk(trace[k - 1], acts[k - 1]);
    }
  }

  lemma {:induction false} EmptyIsOk()
    ensures Ok(EMPTY)
  {
  }

  /** Every row has at most one successor, attempts never pass the limit, and a lineage with `r`
      operator's retries has at most 3 (1 + r) rows. */
  lemma {:induction false} RetriesAreBounded(trace: seq<Db>, acts: seq<Action>, k: nat, v: nat)
    requires IsRun(trace, acts) && k < |trace| && (forall i | 0 <= i < k :: !Torn(trace[i], acts[i]))
             && v < |trace[k].jobs|
    ensures 1 <= trace[k].jobs[v].attempt <= 3
    ensures Depth(trace[k].jobs, v) <= 3 * (1 + Recovers(trace[k].jobs, v))
    ensures trace[k].jobs[v].parent.Some? ==>
              forall w | 0 <= w < |trace[k].jobs| && w != v :: trace[k].jobs[w].parent != trace[k].jobs[v].parent
  {
    hide IsRun, Torn;
    RunsKeepLineage(trace, acts, k);
    DepthBounded(trace[k].jobs, v);
    RowIsOk(trace[k].jobs, v);
    if trace[k].jobs[v].parent.Some? {
      forall w | 0 <= w < |trace[k].jobs| && w != v
        ensures trace[k].jobs[w].parent != trace[k].jobs[v].parent
      {
        if trace[k].jobs[w].parent == trace[k].jobs[v].parent {
          OneSuccessor(trace[k].jobs, v, w);
        }
      }
    }
  }

  /** An automatic attempt after a transient failure opens at least 30 s after that failure was recorded, at
      least 60 s if it was the second, and every ref of the failed row follows it. */
  lemma {:induction false} RetriesWaitAndCarry(trace: seq<Db>, acts: seq<Action>, k: nat, v: nat)
    requires IsRun(trace, acts) && k < |trace| && (forall i | 0 <= i < k :: !Torn(trace[i], acts[i]))
    requires v < |trace[k].jobs| && trace[k].jobs[v].parent.Some?
    ensures var p := trace[k].jobs[v].parent.value;
            && p < v && trace[k].jobs[p].failure.Some?
            && RefsFor(trace[k], p) <= RefsFor(trace[k], v)
            && var record := trace[k].jobs[p].failure.value;
               record.kind.Transient? && trace[k].jobs[v].attempt > 1 ==>
                 && trace[k].jobs[v].attempt == trace[k].jobs[p].attempt + 1 && record.history != []
                 && trace[k].jobs[v].created >= record.history[|record.history| - 1].at
                    + (if trace[k].jobs[v].attempt == 2 then 30 else 60)
  {
    hide IsRun, Torn, Backoff, AliasesOf;
    RunsKeepLineage(trace, acts, k);
    BackoffDoubles(1);
    var db := trace[k];
    assert LinkOk(db.jobs, v);
    RowIsOk(db.jobs, db.jobs[v].parent.value);
  }

  /** What opening an attempt promises at the moment it happens: no inhibition, no live row of the key,
      the predecessor's ref, key and refs. */
  predicate OpensWell(db: Db, next: Db) {
    var n := |db.jobs|;
    |next.jobs| > n && next.jobs[n].parent.Some? ==>
      var p := next.jobs[n].parent.value;
      && p < n && !db.inhibited && next.jobs[n].ref == db.jobs[p].ref && next.jobs[n].key == db.jobs[p].key
      && LiveFor(db.jobs, db.jobs[p].key).None? && RefsFor(next, n) == RefsFor(db, p)
  }

  lemma {:induction false} OpenOpensWell(db: Db, u: nat, attempts: nat, history: seq<Event>, source: Option<Digest>,
                                         env: Env)
    requires Ok(db) && u < |db.jobs| && !db.inhibited && LiveFor(db.jobs, db.jobs[u].key).None?
    ensures OpensWell(db, Open(db, u, attempts, history, source, env))
  {
    hide Ok, AliasesOf, LiveFor;
    OkAliases(db);
    OpenedAliases(db, u, attempts, history, source, env);
  }

  lemma {:induction false} OkAliases(db: Db)
    requires Ok(db)
    ensures AliasesFollow(db.jobs, db.aliases)
  {
  }

  lemma {:induction false} ResumeOpensWell(db: Db, u: nat, source: Option<Digest>, env: Env)
    requires Ok(db) && u < |db.jobs|
    ensures OpensWell(db, MaybeResume(db, u, source, env))
  {
    hide Ok, Open, LiveFor, AutoEligible, Resolves;
    if Resumable(db, u, env) {
      var record, row := db.jobs[u].failure.value, db.jobs[u];
      OpenOpensWell(db, u, record.attempts, record.history, source, env);
      OpenOpensWell(db, u, record.attempts, record.history, row.source, Resolved(db, row, env));
    }
  }

  /** Attempts open only with nothing inhibited and no live row of their key, and take over exactly the
      refs of the row they follow. */
  lemma {:induction false} StepOpensWell(db: Db, a: Action)
    requires Ok(db) && Enabled(db, a)
    ensures OpensWell(db, Next(db, a))
  {
    hide Ok, OpensWell, MaybeResume, Submit, Requeue, Finish, Restart, Mirror, Publish, PublishFailed, RecordPublish,
         Hit;
    match a {
      case Submitting(ref, key, source, env) => SubmitOpensWell(db, ref, key, source, env);
      case Retrying(u, env) =>
        ResumeOpensWell(db, u, None, env);
        NothingOpens(db, db);
      case Requeueing(ref, key, env) => RequeueOpensWell(db, ref, key, env);
      case _ => OthersOpenNothing(db, a);
    }
    SameOpening(db, Effect(db, a), Next(db, a));
  }

  lemma {:induction false} NothingOpens(db: Db, next: Db)
    requires |next.jobs| == |db.jobs|
    ensures OpensWell(db, next)
  {
  }

  lemma {:induction false} SameOpening(db: Db, next: Db, next': Db)
    requires OpensWell(db, next) && next'.jobs == next.jobs && next'.aliases == next.aliases
    ensures OpensWell(db, next')
  {
  }

  lemma {:induction false} OthersOpenNothing(db: Db, a: Action)
    requires Enabled(db, a) && !a.Submitting? && !a.Retrying? && !a.Requeueing?
    ensures OpensWell(db, Effect(db, a))
  {
    hide Polled, Recorded, Interrupt, SourceOf, PendingWithout, RefsFor, LiveFor;
  }

  lemma {:induction false} SubmitOpensWell(db: Db, ref: string, key: Option<Key>, source: Option<Digest>, env: Env)
    requires Ok(db)
    ensures OpensWell(db, Submit(db, ref, key, source, env))
  {
    hide Ok, MaybeResume, LiveFor, AliasesOf;
    var found := FindJob(db.jobs, ref, key);
    if found.Some? {
      ResumeOpensWell(db, found.value, source, env);
    }
  }

  lemma {:induction false} RequeueOpensWell(db: Db, ref: string, key: Option<Key>, env: Env)
    requires Ok(db)
    ensures OpensWell(db, Requeue(db, ref, key, env))
  {
    hide Ok, Open, LiveFor, RequeueBase, AliasesOf, Resolves;
    var target := RequeueTarget(db, ref, key);
    if target.Some? {
      var row := db.jobs[target.value];
      OpenOpensWell(db, target.value, 0, RequeueBase(row).value, row.source, Resolved(db, row, env));
    }
  }

  // ================= the one way to fork a lineage =================

  const FORK_KEY := Some(Key("digest", "recipe"))

  function At(t: nat): Env {
    Env(t, Some("boot"), true, false, true)
  }

  function FirstTry(stage: Stage, created: nat, failure: Option<Record>, parent: Option<nat>): Row {
    Row("ref", FORK_KEY, stage, 1, created, Some("boot"), failure, Some("digest"), parent)
  }

  function Failed(timeout: bool, now: nat): Record {
    NewRecord(CompileFailed, "COMPILE_FAILED", Evidence(false, false, timeout), true, 1, now, [])
  }

  function Working(s: Stage): Backend {
    Backend(s, FORK_KEY, "digest")
  }

  function Table(jobs: seq<Row>, backends: map<nat, Backend>, pending: Option<nat>, clock: nat): Db {
    Db(jobs, {}, map[], map[], false, map[], {}, backends, pending, clock)
  }

  // The states of the fork: a job, its failure mirrored, retried by an operator before that failure is
  // recorded, the record written, the retry's own failure mirrored and recorded.
  const FORK1 := Table([FirstTry(Queued, 1, None, None)], map[0 := Working(Queued)], None, 1)
  const FORK2 := Table([FirstTry(CompileFailed, 1, None, None)], map[0 := Working(CompileFailed)], Some(0), 2)
  const FORK3 := Table([FirstTry(CompileFailed, 1, Some(ResumeNote([]).(resumedTo := Some(1))), None),
                      FirstTry(Queued, 3, Some(ResumeNote([])), Some(0))],
                     map[0 := Working(CompileFailed), 1 := Working(Queued)], Some(0), 3)
  const FORK4 := Table([FirstTry(CompileFailed, 1, Some(Failed(true, 4)), None),
                        FirstTry(Queued, 3, Some(ResumeNote([])), Some(0))],
                     map[0 := Working(CompileFailed), 1 := Working(Queued)], None, 4)
  const FORK5 := Table([FirstTry(CompileFailed, 1, Some(Failed(true, 4)), None),
                        FirstTry(CompileFailed, 3, Some(ResumeNote([])), Some(0))],
                     map[0 := Working(CompileFailed), 1 := Working(CompileFailed)], Some(1), 5)
  const FORK6 := Table([FirstTry(CompileFailed, 1, Some(Failed(true, 4)), None),
                        FirstTry(CompileFailed, 3, Some(Failed(false, 6)), Some(0))],
                     map[0 := Working(CompileFailed), 1 := Working(CompileFailed)], None, 6)

  const FORK := [Submitting("ref", FORK_KEY, Some("digest"), At(1)),
                 Mirroring(0, CompileFailed, At(2)),
                 Requeueing("ref", FORK_KEY, At(3)),
                 Finishing(0, Evidence(false, false, true), At(4)),
                 Mirroring(1, CompileFailed, At(5)),
                 Finishing(1, Evidence(false, false, false), At(6)),
                 Retrying(0, At(60))]

  predicate Leads(db: Db, a: Action, db': Db) {
    Enabled(db, a) && Next(db, a) == db'
  }

  lemma {:induction false} TwoRows(r0: Row, r1: Row)
    requires r0.key == r1.key == FORK_KEY && r0.ref == r1.ref == "ref"
    ensures FindJob([], "ref", FORK_KEY).None? && LiveFor([], FORK_KEY).None?
    ensures FindJob([r0], "ref", FORK_KEY) == Some(0) && LiveFor([r0], FORK_KEY) == (if Live(r0) then Some(0) else None)
    ensures LiveFor([r0, r1], FORK_KEY) == (if Live(r0) then Some(0) else if Live(r1) then Some(1) else None)
  {
    assert [r0, r1][..1] == [r0] && [r0][..0] == [];
  }

  lemma {:induction false} FailedRecord(timeout: bool, now: nat)
    ensures Failed(timeout, now).kind == (if timeout then Transient else Unknown)
            && Failed(timeout, now).resumedTo.None?
    ensures Failed(timeout, now).phase.Some? && Failed(timeout, now).attempts == 1
            && !Failed(timeout, now).resumeRefused
    ensures Failed(timeout, now).notBefore <= now + 30
  {
  }

  lemma {:induction false} ForkBegins()
    ensures Leads(EMPTY, FORK[0], FORK1)
  {
    hide FindJob, LiveFor;
    TwoRows(FORK1.jobs[0], FORK1.jobs[0]);
  }

  lemma {:induction false} ForkFails()
    ensures Leads(FORK1, FORK[1], FORK2)
  {
    hide FindJob, LiveFor;
  }

  lemma {:induction false} ForkIsTorn()
    ensures Torn(FORK2, FORK[2]) && Leads(FORK2, FORK[2], FORK3)
  {
    TwoRows(FORK2.jobs[0], FORK2.jobs[0]);
  }

  lemma {:induction false} ForkLosesItsMark()
    ensures Leads(FORK3, FORK[3], FORK4)
  {
    hide FindJob, LiveFor, Requeue, Submit, Mirror, Restart, RecordPublish;
    TwoRows(FORK4.jobs[0], FORK4.jobs[1]);
  }

  lemma {:induction false} ForkFailsAgain()
    ensures Leads(FORK4, FORK[4], FORK5)
  {
    hide FindJob, LiveFor, NewRecord;
  }

  lemma {:induction false} ForkIsRecordedAgain()
    ensures Leads(FORK5, FORK[5], FORK6)
  {
    hide FindJob, LiveFor, NewRecord;
    FailedRecord(false, 6);
  }

  lemma {:induction false} ForkReopens()
    ensures Enabled(FORK6, FORK[6])
    ensures var jobs := Next(FORK6, FORK[6]).jobs; |jobs| == 3 && jobs[1].parent == Some(0) && jobs[2].parent == Some(0)
  {
    hide FindJob, LiveFor, NewRecord;
    FailedRecord(true, 4);
    TwoRows(FORK6.jobs[0], FORK6.jobs[1]);
  }

  /** Without the guard a run can give a row two successors: the record written after the operator's
      retry erases the mark that retry had left. */
  lemma {:induction false} ARowCanForkUnguarded() returns (trace: seq<Db>)
    ensures IsRun(trace, FORK)
    ensures |trace[7].jobs| == 3 && trace[7].jobs[1].parent == Some(0) && trace[7].jobs[2].parent == Some(0)
  {
    hide Enabled, Next, Table;
    ForkBegins();
    ForkFails();
    ForkIsTorn();
    ForkLosesItsMark();
    ForkFailsAgain();
    ForkIsRecordedAgain();
    ForkReopens();
    trace := [EMPTY, FORK1, FORK2, FORK3, FORK4, FORK5, FORK6, Next(FORK6, FORK[6])];
  }
}
