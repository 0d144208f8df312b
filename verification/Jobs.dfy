/** The preparation job table, as values: what each transaction or public call of the job manager,
    the supervisor and a restart makes of the tables.  A row's identifier is its place in creation
    order. */
module Jobs {
  import opened Text
  import opened RetryPolicy

  type Digest = string

  /** A compile key is an injective function of the source digest and the rest of the recipe. */
  datatype Key = Key(source: Digest, rest: string)

  /** `parent` is the row an attempt was opened from. */
  datatype Row = Row(ref: string, key: Option<Key>, stage: Stage, attempt: nat, created: nat, boot: Option<string>,
                     failure: Option<Record>, source: Option<Digest>, parent: Option<nat>)

  datatype Backend = Backend(state: Stage, key: Option<Key>, source: Digest)

  /** `manifests` are the published directories, `artifacts` the rows, each with the source digest it
      names; `sources` are the digests whose bytes are there; `pending` is the row whose outcome the pump
      has seen but not yet dealt with. */
  datatype Db = Db(
    jobs: seq<Row>, aliases: set<(nat, string)>, artifacts: map<Key, Digest>, manifests: map<Key, Digest>,
    inhibited: bool, refs: map<string, Digest>, sources: set<Digest>, backends: map<nat, Backend>,
    pending: Option<nat>, clock: nat)

  /** What the surroundings contribute to one call: the time, the boot token of this process, whether
      the locked-memory limit suffices, whether the real compiler is configured, and whether the
      construction of a backend succeeds once its source is found. */
  datatype Env = Env(now: nat, boot: Option<string>, memlock: bool, compiler: bool, spawn: bool)

  const EMPTY := Db([], {}, map[], map[], false, map[], {}, map[], None, 0)

  // ================= queries =================

  predicate Live(r: Row) {
    !IsTerminal(r.stage)
  }

  /** The newest row of a ref and key. */
  function FindJob(jobs: seq<Row>, ref: string, key: Option<Key>): (r: Option<nat>)
    ensures r.Some? ==> r.value < |jobs| && jobs[r.value].ref == ref && jobs[r.value].key == key
    ensures forall i | (r.Some? ==> r.value < i) && 0 <= i < |jobs| :: jobs[i].ref != ref || jobs[i].key != key
  {
    if jobs == [] then None
    else if jobs[|jobs| - 1].ref == ref && jobs[|jobs| - 1].key == key then Some(|jobs| - 1)
    else FindJob(jobs[..|jobs| - 1], ref, key)
  }

  /** The oldest live row of a key; a row without a key never counts. */
  function LiveFor(jobs: seq<Row>, key: Option<Key>): (r: Option<nat>)
    ensures r.Some? ==> key.Some? && r.value < |jobs| && jobs[r.value].key == key && Live(jobs[r.value])
    ensures r.None? && key.Some? ==> forall i | 0 <= i < |jobs| :: jobs[i].key != key || !Live(jobs[i])
  {
    if key.None? || jobs == [] then None
    else
      var earlier := LiveFor(jobs[..|jobs| - 1], key);
      if earlier.Some? then earlier
      else if jobs[|jobs| - 1].key == key && Live(jobs[|jobs| - 1]) then Some(|jobs| - 1)
      else None
  }

  function AliasesOf(aliases: set<(nat, string)>, u: nat): set<string> {
    set a | a in aliases && a.0 == u :: a.1
  }

  /** The refs that advance with a row. */
  function RefsFor(db: Db, u: nat): set<string>
    requires u < |db.jobs|
  {
    {db.jobs[u].ref} + AliasesOf(db.aliases, u)
  }

  // ================= opening attempts =================

  function Failure(r: Row): Record {
    if r.failure.Some? then r.failure.value else ResumeNote([])
  }

  /** A new row, live and with a backend. */
  function Insert(db: Db, row: Row): Db {
    var digest := if row.source.Some? then row.source.value else "";
    db.(jobs := db.jobs + [row], backends := db.backends[|db.jobs| := Backend(Queued, row.key, digest)])
  }

  function Amend(db: Db, u: nat, row: Row): Db
    requires u < |db.jobs|
  {
    db.(jobs := db.jobs[u := row])
  }

  /** The aliases of `u` other than `ref`, joined to `v`. */
  function Carried(aliases: set<(nat, string)>, u: nat, v: nat, ref: string): set<(nat, string)> {
    set a | a in aliases && a.0 == u && a.1 != ref :: (v, a.1)
  }

  /** A new attempt after row `u`, joined by the refs of `u`. */
  function Attempt(db: Db, u: nat, attempts: nat, history: seq<Event>, source: Option<Digest>, env: Env): Db
    requires u < |db.jobs|
  {
    var row := db.jobs[u];
    Insert(db, Row(row.ref, row.key, Queued, attempts + 1, env.now, env.boot, Some(ResumeNote(history)), source,
                   Some(u)))
    .(aliases := db.aliases + Carried(db.aliases, u, |db.jobs|, row.ref))
  }

  /** Opens an attempt after row `u` and marks `u` as consumed by it; a backend that cannot be built
      leaves only a stamp on `u`. */
  function Open(db: Db, u: nat, attempts: nat, history: seq<Event>, source: Option<Digest>, env: Env): Db
    requires u < |db.jobs|
  {
    var row := db.jobs[u];
    if !env.spawn then
      Amend(db, u, row.(failure := Some(Failure(row).(resumeRefused := true))))
    else
      Amend(Attempt(db, u, attempts, history, source, env), u,
            row.(failure := Some(Failure(row).(resumedTo := Some(|db.jobs|)))))
  }

  /** Whether row `u` may be retried without an operator. */
  predicate Resumable(db: Db, u: nat, env: Env)
    requires u < |db.jobs|
  {
    && LiveFor(db.jobs, db.jobs[u].key).None?
    && !db.inhibited
    && db.jobs[u].failure.Some?
    && AutoEligible(db.jobs[u].failure.value, env.now, env.memlock)
  }

  /** A retry without a path of its own looks its source bytes up under the row's digest; the fake backend
      and rows without a key need none. */
  predicate Resolves(db: Db, row: Row, env: Env) {
    env.compiler && row.key.Some? ==> row.source.Some? && row.source.value in db.sources
  }

  function Resolved(db: Db, row: Row, env: Env): Env {
    env.(spawn := env.spawn && Resolves(db, row, env))
  }

  /** A submission supplies the source it was given; other retries bind the row's. */
  function MaybeResume(db: Db, u: nat, source: Option<Digest>, env: Env): Db
    requires u < |db.jobs|
  {
    if Resumable(db, u, env) then
      var record, row := db.jobs[u].failure.value, db.jobs[u];
      if source.Some? then Open(db, u, record.attempts, record.history, source, env)
      else Open(db, u, record.attempts, record.history, row.source, Resolved(db, row, env))
    else db
  }

  function Join(db: Db, u: nat, ref: string): Db {
    db.(aliases := db.aliases + {(u, ref)})
  }

  function Create(db: Db, ref: string, key: Option<Key>, source: Option<Digest>, env: Env): Db {
    if env.spawn then Insert(db, Row(ref, key, Queued, 1, env.now, env.boot, None, source, None)) else db
  }

  function Submit(db: Db, ref: string, key: Option<Key>, source: Option<Digest>, env: Env): Db {
    var found := FindJob(db.jobs, ref, key);
    if found.Some? && Live(db.jobs[found.value]) then Join(db, found.value, ref)
    else if found.Some? && IsError(db.jobs[found.value].stage) then MaybeResume(db, found.value, source, env)
    else if found.Some? && key.Some? && key.value in db.artifacts then db
    else
      var live := LiveFor(db.jobs, key);
      if live.Some? then Join(db, live.value, ref) else Create(db, ref, key, source, env)
  }

  /** One row of the pump's look at the terminal rows. */
  function RetryDue(db: Db, u: nat, env: Env): Db
    requires u < |db.jobs|
  {
    if IsError(db.jobs[u].stage) then MaybeResume(db, u, None, env) else db
  }

  /** The pump's look at the first `n` rows, each with its own time and luck. */
  function RetryAll(db: Db, n: nat, envs: nat -> Env): (r: Db)
    requires n <= |db.jobs|
    ensures |r.jobs| >= |db.jobs|
  {
    if n == 0 then db else RetryDue(RetryAll(db, n - 1, envs), n - 1, envs(n - 1))
  }

  /** The history an operator's retry starts from; none when the class refuses. */
  function RequeueBase(row: Row): Option<seq<Event>> {
    if row.failure.None? then
      if row.stage.Quarantined? || row.stage.ValidationFailed? || row.stage.UnsupportedContract? then None else Some([])
    else if row.failure.value.kind.Safety? || row.failure.value.kind.Permanent? then None
    else if !row.failure.value.retryable then None
    else Some(row.failure.value.history)
  }

  /** The row an operator's retry would act on. */
  function RequeueTarget(db: Db, ref: string, key: Option<Key>): (r: Option<nat>)
    ensures r.Some? ==> r.value < |db.jobs| && IsError(db.jobs[r.value].stage)
  {
    var found := FindJob(db.jobs, ref, key);
    if || found.None? || !IsError(db.jobs[found.value].stage) || db.inhibited || RequeueBase(db.jobs[found.value]).None?
       || LiveFor(db.jobs, key).Some?
    then None else found
  }

  function Requeue(db: Db, ref: string, key: Option<Key>, env: Env): Db {
    var target := RequeueTarget(db, ref, key);
    if target.None? then db
    else
      var row := db.jobs[target.value];
      Open(db, target.value, 0, RequeueBase(row).value, row.source, Resolved(db, row, env))
  }

  // ================= pumping =================

  /** A terminal backend stays where it is; any other reports what its work has come to. */
  function Polled(b: Backend, outcome: Stage): Stage {
    if IsTerminal(b.state) then b.state else outcome
  }

  /** The pump's first half: poll the backend and mirror its state. */
  function Mirror(db: Db, u: nat, outcome: Stage): Db
    requires u < |db.jobs| && u in db.backends
  {
    var row, stage := db.jobs[u], Polled(db.backends[u], outcome);
    var news := if IsError(stage) then !(row.stage == stage && row.failure.Some?)
                else stage.Prepared? && Live(row) && row.key.Some?;
    Amend(db, u, row.(stage := stage)).(
      backends := db.backends[u := db.backends[u].(state := stage)],
      pending := if news then Some(u) else db.pending)
  }

  function Recorded(row: Row, code: string, evidence: Evidence, memlock: bool, now: nat): Row {
    row.(failure := Some(NewRecord(row.stage, code, evidence, memlock, row.attempt, now, Failure(row).history)))
  }

  /** The pump's second half: record the failure.  A retry that is due at once follows as a call of its
      own. */
  function Finish(db: Db, u: nat, evidence: Evidence, env: Env): Db
    requires u < |db.jobs|
  {
    var row := db.jobs[u];
    Amend(db, u, Recorded(row, StageName(row.stage), evidence, env.memlock, env.now)).(pending := None)
  }

  function SourceOf(db: Db, row: Row): Digest {
    if row.source.Some? then row.source.value else if row.ref in db.refs then db.refs[row.ref] else ""
  }

  /** The pump is done with row `u`. */
  function PendingWithout(db: Db, u: nat): Option<nat> {
    if db.pending == Some(u) then None else db.pending
  }

  /** Commits a prepared row's result: the directory, then its row unless the process dies in between. */
  function Publish(db: Db, u: nat, committed: bool): Db
    requires u < |db.jobs| && db.jobs[u].key.Some?
  {
    var key, source := db.jobs[u].key.value, SourceOf(db, db.jobs[u]);
    if key in db.artifacts then db.(pending := PendingWithout(db, u))
    else db.(manifests := db.manifests[key := source],
             artifacts := if committed then db.artifacts[key := source] else db.artifacts,
             pending := PendingWithout(db, u))
  }

  /** The first write after a failed commit: the stage.  The pump records the failure next, a waiting
      caller does not. */
  function PublishFailed(db: Db, u: nat, recording: bool): Db
    requires u < |db.jobs|
  {
    Amend(db, u, db.jobs[u].(stage := CompileFailed))
    .(pending := if recording then db.pending else PendingWithout(db, u))
  }

  /** The second write: the record. */
  function RecordPublish(db: Db, u: nat, code: string, evidence: Evidence, env: Env): Db
    requires u < |db.jobs|
  {
    Amend(db, u, Recorded(db.jobs[u], code, evidence, env.memlock, env.now)).(pending := None)
  }

  // ================= the rest of the supervisor =================

  /** The first write of a cache hit: a row like any new one, but without a backend. */
  function Hit(db: Db, ref: string, key: Key, env: Env): Db {
    db.(jobs := db.jobs + [Row(ref, Some(key), Queued, 1, env.now, env.boot, None, Some(key.source), None)])
  }

  /** The second write: the row is prepared. */
  function SettleHit(db: Db, u: nat): Db
    requires u < |db.jobs|
  {
    Amend(db, u, db.jobs[u].(stage := Prepared))
  }

  /** A row interrupted by a restart; automatic only when the same boot and a clean state are proven. */
  function InterruptRecord(row: Row, inhibited: bool, env: Env): Record {
    var base := NewRecord(Interrupted, "INTERRUPTED", Evidence(false, false, false), env.memlock, row.attempt,
                          env.now, []);
    if inhibited || env.boot.None? || row.boot.None? || row.boot != env.boot
    then base.(kind := Unknown, retryable := true) else base
  }

  /** `swept` are the rows whose scratch directory the store's own recovery marked first. */
  function Interrupt(row: Row, swept: bool, inhibited: bool, env: Env): Row {
    if (Live(row) && !(swept && row.failure.Some?)) || (row.stage.Interrupted? && row.failure.None?) then
      row.(stage := Interrupted, failure := Some(InterruptRecord(row, inhibited, env)))
    else if Live(row) then row.(stage := Interrupted)
    else row
  }

  /** A new process: no backends, live rows interrupted, orphaned directories adopted or moved away. */
  function Restart(db: Db, swept: set<nat>, adopted: set<Key>, env: Env): Db {
    db.(jobs := seq(|db.jobs|, i requires 0 <= i < |db.jobs| => Interrupt(db.jobs[i], i in swept, db.inhibited, env)),
        artifacts := map k | k in db.artifacts.Keys + (db.manifests.Keys * adopted) ::
                       if k in db.artifacts then db.artifacts[k] else db.manifests[k],
        manifests := map k | k in db.manifests && (k in db.artifacts || k in adopted) :: db.manifests[k],
        backends := map[], pending := None)
  }

  // ================= runs =================

  datatype Action =
    | Submitting(ref: string, key: Option<Key>, source: Option<Digest>, env: Env)
    | Retrying(u: nat, env: Env)
    | Requeueing(ref: string, key: Option<Key>, env: Env)
    | Mirroring(u: nat, outcome: Stage, env: Env)
    | Finishing(u: nat, evidence: Evidence, env: Env)
    | Noticing(u: nat, env: Env)
    | Publishing(u: nat, committed: bool, env: Env)
    | PublishFailing(u: nat, recording: bool, env: Env)
    | Recording(u: nat, code: string, evidence: Evidence, env: Env)
    | Hitting(ref: string, hit: Key, env: Env)
    | Settling(u: nat, env: Env)
    | Invalidating(stale: Key, env: Env)
    | Inhibiting(on: bool, env: Env)
    | Revising(ref: string, digest: Digest, env: Env)
    | Storing(digest: Digest, env: Env)
    | Losing(digest: Digest, env: Env)
    | Restarting(swept: set<nat>, adopted: set<Key>, env: Env)

  /** A row that has neither been recorded as failed nor retried. */
  predicate Untouched(r: Row) {
    r.failure.Some? ==> r.failure.value.phase.None? && r.failure.value.resumedTo.None?
  }

  /** When a call can happen.  One thread pumps, so it takes up a row only when nothing is pending.  The
      writes of a pump, of a failed commit and of a cache hit are calls of their own; they and everything
      the other threads do interleave freely. */
  predicate Enabled(db: Db, a: Action) {
    && a.env.now > db.clock
    && match a
       case Submitting(_, key, source, _) => key.Some? ==> source == Some(key.value.source)
       case Retrying(u, _) => u < |db.jobs|
       case Mirroring(u, _, _) => u < |db.jobs| && u in db.backends && db.pending.None?
       case Finishing(u, _, _) =>
         && u < |db.jobs| && db.pending == Some(u) && IsError(db.jobs[u].stage)
         && u in db.backends && db.backends[u].state == db.jobs[u].stage
       // a hit settled since the pump listed the live rows
       case Noticing(u, _) =>
         && u < |db.jobs| && u !in db.backends && db.pending.None?
         && db.jobs[u].stage.Prepared? && db.jobs[u].key.Some? && Untouched(db.jobs[u])
       case Publishing(u, _, _) =>
         && u < |db.jobs| && db.jobs[u].stage.Prepared? && db.jobs[u].key.Some?
         && (u in db.backends || db.jobs[u].key.value in db.artifacts)
       case PublishFailing(u, recording, _) =>
         && u < |db.jobs| && db.jobs[u].stage.Prepared?
         && (db.pending == Some(u) || (!recording && u in db.backends))
       case Recording(u, _, _, _) =>
         && u < |db.jobs| && db.pending == Some(u) && db.jobs[u].stage.CompileFailed?
         && (u in db.backends ==> db.backends[u].state.Prepared?)
       case Settling(u, _) => u < |db.jobs| && Live(db.jobs[u]) && u !in db.backends
       case _ => true
  }

  function Effect(db: Db, a: Action): Db
    requires Enabled(db, a)
  {
    match a
    case Submitting(ref, key, source, env) => Submit(db, ref, key, source, env)
    case Retrying(u, env) => RetryDue(db, u, env)
    case Requeueing(ref, key, env) => Requeue(db, ref, key, env)
    case Mirroring(u, outcome, _) => Mirror(db, u, outcome)
    case Finishing(u, evidence, env) => Finish(db, u, evidence, env)
    case Noticing(u, _) => db.(pending := Some(u))
    case Publishing(u, committed, _) => Publish(db, u, committed)
    case PublishFailing(u, recording, _) => PublishFailed(db, u, recording)
    case Recording(u, code, evidence, env) => RecordPublish(db, u, code, evidence, env)
    case Hitting(ref, key, env) => Hit(db, ref, key, env)
    case Settling(u, _) => SettleHit(db, u)
    case Invalidating(key, _) => db.(artifacts := db.artifacts - {key}, manifests := db.manifests - {key})
    case Inhibiting(on, _) => db.(inhibited := on)
    case Revising(ref, digest, _) => db.(refs := db.refs[ref := digest])
    case Storing(digest, _) => db.(sources := db.sources + {digest})
    case Losing(digest, _) => db.(sources := db.sources - {digest})
    case Restarting(swept, adopted, env) => Restart(db, swept, adopted, env)
  }

  function Next(db: Db, a: Action): Db
    requires Enabled(db, a)
  {
    Effect(db, a).(clock := a.env.now)
  }

  /** `trace` is a run: each state follows from the one before by an enabled call. */
  predicate IsRun(trace: seq<Db>, acts: seq<Action>) {
    && |trace| == |acts| + 1
    && trace[0] == EMPTY
    && forall i | 0 <= i < |acts| :: Enabled(trace[i], acts[i]) && trace[i + 1] == Next(trace[i], acts[i])
  }
}
