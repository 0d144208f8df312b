/** What a restart makes of the rows it interrupts, and the retry that it leaves stuck. */
module JobRestarts {
  import opened Text
  import opened RetryPolicy
  import opened Jobs
  import JobSafety

  /** What a retry leaves on the row it opens: no record of a failure, and nothing an operator may retry. */
  predicate IsNote(r: Record) {
    r.phase.None? && !r.retryable
  }

  // ================= rows carry notes until they fail =================

  predicate NoteAt(r: Row) {
    && (Live(r) && r.failure.Some? ==> r.failure.value.phase.None?)
    && (r.failure.Some? && r.failure.value.phase.None? ==> !r.failure.value.retryable)
  }

  predicate Noted(db: Db) {
    forall u | 0 <= u < |db.jobs| :: NoteAt(db.jobs[u])
  }

  lemma {:induction false} AmendKeepsNotes(db: Db, u: nat, row: Row)
    requires Noted(db) && u < |db.jobs| && NoteAt(row)
    ensures Noted(Amend(db, u, row))
  {
    hide NoteAt;
  }

  lemma {:induction false} OpenKeepsNotes(db: Db, u: nat, attempts: nat, history: seq<Event>, source: Option<Digest>,
                                          env: Env)
    requires Noted(db) && u < |db.jobs|
    ensures Noted(Open(db, u, attempts, history, source, env))
  {
    assert NoteAt(db.jobs[u]);
  }

  lemma {:induction false} ResumeKeepsNotes(db: Db, u: nat, source: Option<Digest>, env: Env)
    requires Noted(db) && u < |db.jobs|
    ensures Noted(MaybeResume(db, u, source, env))
  {
    hide Noted, Open, Resumable, Resolves;
    if Resumable(db, u, env) {
      ResumableHasRecord(db, u, env);
      var record, row := db.jobs[u].failure.value, db.jobs[u];
      OpenKeepsNotes(db, u, record.attempts, record.history, source, env);
      OpenKeepsNotes(db, u, record.attempts, record.history, row.source, Resolved(db, row, env));
    }
  }

  lemma {:induction false} ResumableHasRecord(db: Db, u: nat, env: Env)
    requires u < |db.jobs| && Resumable(db, u, env)
    ensures db.jobs[u].failure.Some?
  {
  }

  lemma {:induction false} SubmitKeepsNotes(db: Db, ref: string, key: Option<Key>, source: Option<Digest>, env: Env)
    requires Noted(db)
    ensures Noted(Submit(db, ref, key, source, env))
  {
    hide MaybeResume;
    var found := FindJob(db.jobs, ref, key);
    if found.Some? {
      ResumeKeepsNotes(db, found.value, source, env);
    }
  }

  lemma {:induction false} RequeueKeepsNotes(db: Db, ref: string, key: Option<Key>, env: Env)
    requires Noted(db)
    ensures Noted(Requeue(db, ref, key, env))
  {
    hide Noted, Open, Resolves;
    var target := RequeueTarget(db, ref, key);
    if target.Some? {
      var row := db.jobs[target.value];
      OpenKeepsNotes(db, target.value, 0, RequeueBase(row).value, row.source, Resolved(db, row, env));
    }
  }

  lemma {:induction false} MirrorKeepsNotes(db: Db, u: nat, outcome: Stage)
    requires Noted(db) && u < |db.jobs| && u in db.backends
    requires !Live(db.jobs[u]) ==> IsTerminal(db.backends[u].state)
    ensures Noted(Mirror(db, u, outcome))
  {
    hide Noted;
    NoteOf(db, u);
    AmendKeepsNotes(db, u, db.jobs[u].(stage := Polled(db.backends[u], outcome)));
    SameNotes(Amend(db, u, db.jobs[u].(stage := Polled(db.backends[u], outcome))), Mirror(db, u, outcome));
  }

  lemma {:induction false} NoteOf(db: Db, u: nat)
    requires Noted(db) && u < |db.jobs|
    ensures NoteAt(db.jobs[u])
  {
  }

  lemma {:induction false} SameNotes(db: Db, db': Db)
    requires Noted(db) && db'.jobs == db.jobs
    ensures Noted(db')
  {
  }

  lemma {:induction false} RestartKeepsNotes(db: Db, swept: set<nat>, adopted: set<Key>, env: Env)
    requires Noted(db)
    ensures Noted(Restart(db, swept, adopted, env))
  {
    forall u | 0 <= u < |db.jobs|
      ensures NoteAt(Interrupt(db.jobs[u], u in swept, db.inhibited, env))
    {
      assert NoteAt(db.jobs[u]);
    }
  }

  lemma {:induction false} RecordKeepsNotes(db: Db, u: nat, code: string, evidence: Evidence, memlock: bool, now: nat)
    requires Noted(db) && u < |db.jobs| && !Live(db.jobs[u])
    ensures Noted(Amend(db, u, Recorded(db.jobs[u], code, evidence, memlock, now)))
  {
    AmendKeepsNotes(db, u, Recorded(db.jobs[u], code, evidence, memlock, now));
  }

  lemma {:induction false} StageKeepsNotes(db: Db, u: nat, stage: Stage)
    requires Noted(db) && u < |db.jobs| && IsTerminal(stage)
    ensures Noted(Amend(db, u, db.jobs[u].(stage := stage)))
  {
    NoteOf(db, u);
    AmendKeepsNotes(db, u, db.jobs[u].(stage := stage));
  }

  lemma {:induction false} HitKeepsNotes(db: Db, ref: string, key: Key, env: Env)
    requires Noted(db)
    ensures Noted(Hit(db, ref, key, env))
  {
  }

  lemma {:induction false} StepKeepsNotes(db: Db, a: Action)
    requires Noted(db) && JobSafety.Safe(db, false) && Enabled(db, a)
    ensures Noted(Next(db, a))
  {
    hide Noted, MaybeResume, Submit, Requeue, Mirror, Restart, Hit, Recorded;
    match a {
      case Submitting(ref, key, source, env) => SubmitKeepsNotes(db, ref, key, source, env);
      case Retrying(u, env) => ResumeKeepsNotes(db, u, None, env);
      case Requeueing(ref, key, env) => RequeueKeepsNotes(db, ref, key, env);
      case Mirroring(u, outcome, _) => MirrorKeepsNotes(db, u, outcome);
      case Finishing(u, evidence, env) =>
        var code := StageName(db.jobs[u].stage);
        RecordKeepsNotes(db, u, code, evidence, env.memlock, env.now);
        SameNotes(Amend(db, u, Recorded(db.jobs[u], code, evidence, env.memlock, env.now)), Effect(db, a));
      case Recording(u, code, evidence, env) =>
        RecordKeepsNotes(db, u, code, evidence, env.memlock, env.now);
        SameNotes(Amend(db, u, Recorded(db.jobs[u], code, evidence, env.memlock, env.now)), Effect(db, a));
      case PublishFailing(u, recording, _) =>
        StageKeepsNotes(db, u, CompileFailed);
        SameNotes(Amend(db, u, db.jobs[u].(stage := CompileFailed)), Effect(db, a));
      case Settling(u, _) => StageKeepsNotes(db, u, Prepared);
      case Hitting(ref, key, env) => HitKeepsNotes(db, ref, key, env);
      case Restarting(swept, adopted, env) => RestartKeepsNotes(db, swept, adopted, env);
      case _ => SameNotes(db, Effect(db, a));
    }
    SameNotes(Effect(db, a), Next(db, a));
  }

  lemma {:induction false} RunsAreNoted(trace: seq<Db>, acts: seq<Action>, k: nat)
    requires IsRun(trace, acts) && k < |trace|
    ensures Noted(trace[k])
  {
    hide Noted, Next, Enabled;
    if k == 0 {
      NothingNoted();
    } else {
      RunsAreNoted(trace, acts, k - 1);
      JobSafety.RunKeepsSafe(trace, acts, k - 1, false);
      assert Enabled(trace[k - 1], acts[k - 1]) && trace[k - 1 + 1] == Next(trace[k - 1], acts[k - 1]);
      StepKeepsNotes(trace[k - 1], acts[k - 1]);
    }
  }

  lemma {:induction false} NothingNoted()
    ensures Noted(EMPTY)
  {
  }

  // ================= interrupted rows =================

  /** A row that a restart interrupts gets a record unless it is a retry whose scratch directory was swept:
      that keeps its note. */
  predicate GetsRecord(row: Row, swept: bool) {
    !(Live(row) && swept && row.failure.Some?)
  }

  /** After a restart of a run, an interrupted row is retried without an operator exactly if it got a record,
      both boots are known and the same, nothing was inhibited, and it has attempts left; an operator may
      retry it exactly if it got a record. */
  lemma {:induction false} UnprovenInterruptsWait(trace: seq<Db>, acts: seq<Action>, k: nat, u: nat, swept: set<nat>,
                                                  adopted: set<Key>, env: Env, later: nat, memlock: bool)
    requires IsRun(trace, acts) && k < |trace| && u < |trace[k].jobs|
    requires var row := trace[k].jobs[u]; Live(row) || (row.stage.Interrupted? && row.failure.None?)
    ensures var row, after := trace[k].jobs[u], Restart(trace[k], swept, adopted, env).jobs[u];
            && after.stage.Interrupted? && after.failure.Some?
            && (AutoEligible(after.failure.value, later, memlock) <==>
                  && GetsRecord(row, u in swept) && !trace[k].inhibited
                  && env.boot.Some? && row.boot == env.boot && row.attempt < MAX_ATTEMPTS)
            && (RequeueBase(after).Some? <==> GetsRecord(row, u in swept))
            && after.failure.value.history ==
               if GetsRecord(row, u in swept) then [Event(row.attempt, Interrupted, env.now)]
               else row.failure.value.history
  {
    hide IsRun, Noted;
    RunsAreNoted(trace, acts, k);
    NoteOf(trace[k], u);
    var row, after := trace[k].jobs[u], Restart(trace[k], swept, adopted, env).jobs[u];
    if !GetsRecord(row, u in swept) {
      NotesRefuse(after, later, memlock);
    }
  }

  lemma {:induction false} NotesRefuse(row: Row, now: nat, memlock: bool)
    requires row.failure.Some? && IsNote(row.failure.value)
    ensures !AutoEligible(row.failure.value, now, memlock) && RequeueBase(row).None?
  {
  }

  // ================= a retry that is stuck =================

  /** An interrupted row that has nothing but a note. */
  predicate Stuck(db: Db, u: nat) {
    && u < |db.jobs| && db.jobs[u].stage.Interrupted? && db.jobs[u].failure.Some? && IsNote(db.jobs[u].failure.value)
    && u !in db.backends && db.pending != Some(u)
  }

  /** A restart that interrupts a retry whose scratch directory was swept leaves it stuck. */
  lemma {:induction false} SweptRetryIsStuck(trace: seq<Db>, acts: seq<Action>, k: nat, u: nat, swept: set<nat>,
                                             adopted: set<Key>, env: Env)
    requires IsRun(trace, acts) && k < |trace| && u < |trace[k].jobs|
    requires Live(trace[k].jobs[u]) && trace[k].jobs[u].failure.Some? && u in swept
    ensures Stuck(Restart(trace[k], swept, adopted, env), u)
  {
    hide IsRun, Noted;
    RunsAreNoted(trace, acts, k);
    NoteOf(trace[k], u);
  }

  /** Rows are only added, none follows another than before, row `u` and its surroundings stay, and no new
      row follows it. */
  predicate LeavesAlone(db: Db, db': Db, u: nat)
    requires u < |db.jobs|
  {
    && |db'.jobs| >= |db.jobs| && db'.jobs[u] == db.jobs[u] && u !in db'.backends && db'.pending != Some(u)
    && (forall v | 0 <= v < |db.jobs| :: db'.jobs[v].parent == db.jobs[v].parent)
    && forall v | |db.jobs| <= v < |db'.jobs| :: db'.jobs[v].parent != Some(u)
  }

  lemma {:induction false} AloneAtOnce(db: Db, u: nat)
    requires Stuck(db, u)
    ensures LeavesAlone(db, db, u)
  {
  }

  lemma {:induction false} OpenLeavesAlone(db: Db, w: nat, attempts: nat, history: seq<Event>, source: Option<Digest>,
                                           env: Env, u: nat)
    requires Stuck(db, u) && w < |db.jobs| && w != u
    ensures LeavesAlone(db, Open(db, w, attempts, history, source, env), u)
  {
    hide Carried;
  }

  lemma {:induction false} ResumeLeavesAlone(db: Db, w: nat, source: Option<Digest>, env: Env, u: nat)
    requires Stuck(db, u) && w < |db.jobs|
    ensures LeavesAlone(db, MaybeResume(db, w, source, env), u)
  {
    hide LiveFor, AutoEligible, Resolves, Open;
    NotesRefuse(db.jobs[u], env.now, env.memlock);
    if Resumable(db, w, env) {
      var record, row := db.jobs[w].failure.value, db.jobs[w];
      OpenLeavesAlone(db, w, record.attempts, record.history, source, env, u);
      OpenLeavesAlone(db, w, record.attempts, record.history, row.source, Resolved(db, row, env), u);
    }
  }

  lemma {:induction false} JoinLeavesAlone(db: Db, w: nat, ref: string, u: nat)
    requires Stuck(db, u)
    ensures LeavesAlone(db, Join(db, w, ref), u)
  {
  }

  lemma {:induction false} CreateLeavesAlone(db: Db, ref: string, key: Option<Key>, source: Option<Digest>, env: Env,
                                             u: nat)
    requires Stuck(db, u)
    ensures LeavesAlone(db, Create(db, ref, key, source, env), u)
  {
  }

  lemma {:induction false} SubmitLeavesAlone(db: Db, ref: string, key: Option<Key>, source: Option<Digest>, env: Env,
                                             u: nat)
    requires Stuck(db, u)
    ensures LeavesAlone(db, Submit(db, ref, key, source, env), u)
  {
    hide MaybeResume, LiveFor, FindJob, LeavesAlone, Join, Create, Stuck;
    var found, live := FindJob(db.jobs, ref, key), LiveFor(db.jobs, key);
    AloneAtOnce(db, u);
    CreateLeavesAlone(db, ref, key, source, env, u);
    if found.Some? {
      ResumeLeavesAlone(db, found.value, source, env, u);
      JoinLeavesAlone(db, found.value, ref, u);
    }
    if live.Some? {
      JoinLeavesAlone(db, live.value, ref, u);
    }
  }

  lemma {:induction false} RequeueLeavesAlone(db: Db, ref: string, key: Option<Key>, env: Env, u: nat)
    requires Stuck(db, u)
    ensures LeavesAlone(db, Requeue(db, ref, key, env), u)
  {
    hide LiveFor, Resolves, Open;
    NotesRefuse(db.jobs[u], env.now, env.memlock);
    var target := RequeueTarget(db, ref, key);
    if target.Some? {
      var row := db.jobs[target.value];
      OpenLeavesAlone(db, target.value, 0, RequeueBase(row).value, row.source, Resolved(db, row, env), u);
    }
  }

  lemma {:induction false} RestartLeavesAlone(db: Db, swept: set<nat>, adopted: set<Key>, env: Env, u: nat)
    requires Stuck(db, u)
    ensures LeavesAlone(db, Restart(db, swept, adopted, env), u)
  {
    hide InterruptRecord;
  }

  lemma {:induction false} AmendLeavesAlone(db: Db, w: nat, row: Row, db': Db, u: nat)
    requires Stuck(db, u) && w < |db.jobs| && w != u && row.parent == db.jobs[w].parent
    requires db'.jobs == db.jobs[w := row] && db'.backends.Keys == db.backends.Keys
    requires db'.pending == db.pending || db'.pending == None || db'.pending == Some(w)
    ensures LeavesAlone(db, db', u)
  {
  }

  /** No call changes a stuck row or opens an attempt after it. */
  lemma {:induction false} StuckStays(db: Db, a: Action, u: nat)
    requires Stuck(db, u) && Enabled(db, a)
    ensures Stuck(Next(db, a), u) && LeavesAlone(db, Next(db, a), u)
  {
    hide MaybeResume, Submit, Requeue, Restart, Recorded, SourceOf, IsNote;
    match a {
      case Submitting(ref, key, source, env) => SubmitLeavesAlone(db, ref, key, source, env, u);
      case Retrying(w, env) => ResumeLeavesAlone(db, w, None, env, u);
      case Requeueing(ref, key, env) => RequeueLeavesAlone(db, ref, key, env, u);
      case Mirroring(w, outcome, _) =>
        AmendLeavesAlone(db, w, db.jobs[w].(stage := Polled(db.backends[w], outcome)), Effect(db, a), u);
      case Finishing(w, evidence, env) =>
        RecordedFollows(db.jobs[w], StageName(db.jobs[w].stage), evidence, env.memlock, env.now);
        AmendLeavesAlone(db, w, Effect(db, a).jobs[w], Effect(db, a), u);
      case Recording(w, code, evidence, env) =>
        RecordedFollows(db.jobs[w], code, evidence, env.memlock, env.now);
        AmendLeavesAlone(db, w, Effect(db, a).jobs[w], Effect(db, a), u);
      case Restarting(swept, adopted, env) => RestartLeavesAlone(db, swept, adopted, env, u);
      case _ => OthersLeaveAlone(db, a, u);
    }
    assert LeavesAlone(db, Effect(db, a), u);
  }

  lemma {:induction false} RecordedFollows(row: Row, code: string, evidence: Evidence, memlock: bool, now: nat)
    ensures Recorded(row, code, evidence, memlock, now).parent == row.parent
  {
  }

  lemma {:induction false} OthersLeaveAlone(db: Db, a: Action, u: nat)
    requires Stuck(db, u) && Enabled(db, a)
    requires !a.Submitting? && !a.Retrying? && !a.Requeueing? && !a.Mirroring? && !a.Finishing? && !a.Recording?
    requires !a.Restarting?
    ensures LeavesAlone(db, Effect(db, a), u)
  {
    hide SourceOf, IsNote;
  }

  /** While it is the newest of its ref and key, neither submitting nor an operator's retry does anything. */
  lemma {:induction false} StuckRefuses(db: Db, u: nat, source: Option<Digest>, env: Env)
    requires Stuck(db, u) && FindJob(db.jobs, db.jobs[u].ref, db.jobs[u].key) == Some(u)
    ensures Submit(db, db.jobs[u].ref, db.jobs[u].key, source, env) == db
    ensures Requeue(db, db.jobs[u].ref, db.jobs[u].key, env) == db
  {
    hide LiveFor, FindJob;
    NotesRefuse(db.jobs[u], env.now, env.memlock);
  }

  /** A stuck row stays as it is for the rest of the run, and nothing ever follows it. */
  lemma {:induction false} StuckForGood(trace: seq<Db>, acts: seq<Action>, k: nat, n: nat, u: nat)
    requires IsRun(trace, acts) && k <= n < |trace| && Stuck(trace[k], u)
    ensures Stuck(trace[n], u) && LeavesAlone(trace[k], trace[n], u)
    decreases n
  {
    hide IsNote, Next, Enabled, LeavesAlone;
    if n > k {
      StuckForGood(trace, acts, k, n - 1, u);
      assert Enabled(trace[n - 1], acts[n - 1]) && trace[n - 1 + 1] == Next(trace[n - 1], acts[n - 1]);
      StuckStays(trace[n - 1], acts[n - 1], u);
      AloneTwice(trace[k], trace[n - 1], trace[n], u);
    } else {
      AloneAtOnce(trace[k], u);
    }
  }

  lemma {:induction false} AloneTwice(a: Db, b: Db, c: Db, u: nat)
    requires u < |a.jobs| && LeavesAlone(a, b, u) && LeavesAlone(b, c, u)
    ensures LeavesAlone(a, c, u)
  {
    assert forall v | |a.jobs| <= v < |b.jobs| :: c.jobs[v].parent == b.jobs[v].parent;
  }

  // ================= such a run =================

  const TRY_KEY := Some(Key("digest", "recipe"))

  function At(t: nat): Env {
    Env(t, Some("boot"), true, true, true)
  }

  const TRIES := [Storing("digest", At(1)),
                  Submitting("ref", TRY_KEY, Some("digest"), At(2)),
                  Mirroring(0, CompileFailed, At(3)),
                  Finishing(0, Evidence(false, false, true), At(4)),
                  Retrying(0, At(40)),
                  Restarting({1}, {}, At(41))]

  const TIMED_OUT := NewRecord(CompileFailed, "COMPILE_FAILED", Evidence(false, false, true), true, 1, 4, [])

  function Try(stage: Stage, attempt: nat, created: nat, failure: Option<Record>, parent: Option<nat>): Row {
    Row("ref", TRY_KEY, stage, attempt, created, Some("boot"), failure, Some("digest"), parent)
  }

  function Table(jobs: seq<Row>, backends: map<nat, Backend>, pending: Option<nat>, clock: nat): Db {
    Db(jobs, {}, map[], map[], false, map[], {"digest"}, backends, pending, clock)
  }

  function Working(s: Stage): Backend {
    Backend(s, TRY_KEY, "digest")
  }

  // The source is stored, the job submitted, its failure mirrored and recorded, and the job retried.
  const TRY1 := Table([], map[], None, 1)
  const TRY2 := Table([Try(Queued, 1, 2, None, None)], map[0 := Working(Queued)], None, 2)
  const TRY3 := Table([Try(CompileFailed, 1, 2, None, None)], map[0 := Working(CompileFailed)], Some(0), 3)
  const TRY4 := Table([Try(CompileFailed, 1, 2, Some(TIMED_OUT), None)], map[0 := Working(CompileFailed)], None, 4)
  const TRY5 := Table([Try(CompileFailed, 1, 2, Some(TIMED_OUT.(resumedTo := Some(1))), None),
                       Try(Queued, 2, 40, Some(ResumeNote(TIMED_OUT.history)), Some(0))],
                      map[0 := Working(CompileFailed), 1 := Working(Queued)], None, 40)

  predicate Leads(db: Db, a: Action, db': Db) {
    Enabled(db, a) && Next(db, a) == db'
  }

  lemma {:induction false} SourceIsStored()
    ensures Leads(EMPTY, TRIES[0], TRY1)
  {
    assert EMPTY.sources + {"digest"} == {"digest"};
  }

  lemma {:induction false} FirstTry()
    ensures Leads(TRY1, TRIES[1], TRY2)
  {
    assert FindJob([], "ref", TRY_KEY).None? && LiveFor([], TRY_KEY).None?;
  }

  lemma {:induction false} FirstFails()
    ensures Leads(TRY2, TRIES[2], TRY3)
  {
    hide FindJob, LiveFor;
  }

  lemma {:induction false} FailureIsRecorded()
    ensures Leads(TRY3, TRIES[3], TRY4)
  {
    hide MaybeResume, Submit, Requeue, Mirror, Restart, RecordPublish, Classify;
  }

  lemma {:induction false} TimedOutIsTransient()
    ensures TIMED_OUT.kind.Transient? && TIMED_OUT.notBefore == 34 && TIMED_OUT.phase.Some? && TIMED_OUT.attempts == 1
    ensures TIMED_OUT.resumedTo.None? && !TIMED_OUT.resumeRefused
  {
    assert Pow2(0) == 1;
  }

  lemma {:induction false} NothingLive()
    ensures LiveFor(TRY4.jobs, TRY_KEY).None?
  {
    assert TRY4.jobs[..0] == [];
  }

  lemma {:induction false} SecondTry()
    ensures Leads(TRY4, TRIES[4], TRY5)
  {
    hide NewRecord, Submit, Requeue, Mirror, Restart, LiveFor;
    TimedOutIsTransient();
    NothingLive();
  }

  lemma {:induction false} LastRestart()
    ensures Enabled(TRY5, TRIES[5]) && Stuck(Next(TRY5, TRIES[5]), 1)
  {
    hide NewRecord;
  }

  /** A first attempt times out, is retried after its backoff, and the process dies with the retry's scratch
      directory in place: the retry is stuck. */
  lemma {:induction false} ARetryCanGetStuck() returns (trace: seq<Db>)
    ensures IsRun(trace, TRIES) && Stuck(trace[6], 1)
  {
    hide Enabled, Next, Table, Stuck;
    SourceIsStored();
    FirstTry();
    FirstFails();
    FailureIsRecorded();
    SecondTry();
    LastRestart();
    trace := [EMPTY, TRY1, TRY2, TRY3, TRY4, TRY5, Next(TRY5, TRIES[5])];
  }
}
