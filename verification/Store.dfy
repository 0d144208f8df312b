/** The content-addressed artifact store: publication in ordered file-system steps, any of which may be
    the last before a crash, and the recovery a new process starts with. */
module Store {
  import opened RetryPolicy

  /** Compile keys and job identifiers are hexadecimal digests, here the numbers they spell. */
  type Key = nat
  type Uuid = nat

  /** A file's bytes: the JSON text of a manifest, or anything else. */
  datatype Bytes = Raw(text: string) | Rendered(manifest: Manifest)

  /** SHA-256, taken to be injective. */
  datatype Sha = Sha(of: Bytes)

  datatype Manifest = Manifest(key: Key, source: string, artifact: Sha, recipe: string, target: string)

  datatype Artifact = Artifact(source: string, sha: Sha, recipe: string, target: string)

  datatype File = Rai | Json | Temp(file: File, serial: nat)

  type Dir = map<File, Bytes>

  datatype WorkName = Scratch(uuid: Uuid) | Staging(uuid: Uuid)

  datatype FailureName =
    | Stranded(uuid: Uuid)
    | Orphan(name: WorkName)
    | Colliding(key: Key, at: nat)
    | Stale(key: Key, at: nat)

  /** The directories under the data directory, and the registry's artifact and job rows. */
  datatype Disk = Disk(work: map<WorkName, Dir>, artifacts: map<Key, Dir>, failures: map<FailureName, Dir>,
                       quarantine: map<Key, Dir>, rows: map<Key, Artifact>, jobs: Jobs)

  const EMPTY := Disk(map[], map[], map[], map[], map[], map[])

  // ================= publication =================

  /** One commit; `torn` is what a write leaves behind when it is cut short. */
  datatype Commit = Commit(key: Key, uuid: Uuid, source: string, rai: Bytes, recipe: string, target: string,
                           at: nat, serial: nat, torn: Bytes)

  const WRITE_STEPS := 3
  const STEPS := 10

  function ManifestOf(c: Commit): Manifest {
    Manifest(c.key, c.source, Sha(c.rai), c.recipe, c.target)
  }

  function RowOf(c: Commit): Artifact {
    Artifact(c.source, Sha(c.rai), c.recipe, c.target)
  }

  /** A directory after the first `n` steps of an atomic write: a torn and then a complete temporary
      file, which a rename puts in place. */
  function Written(dir: Dir, file: File, data: Bytes, torn: Bytes, serial: nat, n: nat): Dir {
    if n == 0 then dir
    else if n == 1 then dir[Temp(file, serial) := torn]
    else if n == 2 then dir[Temp(file, serial) := data]
    else dir[file := data] - {Temp(file, serial)}
  }

  /** The staging directory after `n` steps of the two writes. */
  function Staged(dir: Dir, c: Commit, n: nat): Dir {
    if n <= WRITE_STEPS then Written(dir, Rai, c.rai, c.torn, c.serial, n)
    else Written(Staged(dir, c, WRITE_STEPS), Json, Rendered(ManifestOf(c)), c.torn, c.serial, n - WRITE_STEPS)
  }

  function StagingDir(d: Disk, c: Commit): Dir {
    if Staging(c.uuid) in d.work then d.work[Staging(c.uuid)] else map[]
  }

  /** The disk after the first `n` steps of a commit: a directory in the way is moved aside, the staging
      directory is made and filled, renamed into place, and its row is inserted. */
  function After(d: Disk, c: Commit, n: nat): Disk {
    if n == 0 then d
    else
      var aside := if c.key in d.artifacts
                   then d.(artifacts := d.artifacts - {c.key},
                           failures := d.failures[Colliding(c.key, c.at) := d.artifacts[c.key]])
                   else d;
      if n == 1 then aside
      else if n <= 8 then aside.(work := d.work[Staging(c.uuid) := Staged(StagingDir(d, c), c, n - 2)])
      else
        var moved := aside.(work := d.work - {Staging(c.uuid)},
                            artifacts := aside.artifacts[c.key := Staged(StagingDir(d, c), c, 6)]);
        if n == 9 then moved else moved.(rows := d.rows[c.key := RowOf(c)])
  }

  // ================= recovery =================

  /** A directory whose manifest is valid and describes its artifact. */
  predicate Adoptable(key: Key, dir: Dir) {
    && Json in dir && dir[Json].Rendered? && Rai in dir
    && var m := dir[Json].manifest;
       m.key == key && Sha(dir[Rai]) == m.artifact && m.source != "" && m.recipe != ""
  }

  function Described(dir: Dir): Artifact
    requires Json in dir && dir[Json].Rendered?
  {
    var m := dir[Json].manifest;
    Artifact(m.source, m.artifact, m.recipe, m.target)
  }

  type Jobs = map<Uuid, Stage>

  /** Scratch of a finished job stays where it is. */
  predicate Stays(jobs: Jobs, n: WorkName) {
    n.Scratch? && n.uuid in jobs && IsTerminal(jobs[n.uuid])
  }

  function Destination(jobs: Jobs, n: WorkName): FailureName {
    if n.Scratch? && n.uuid in jobs then Stranded(n.uuid) else Orphan(n)
  }

  function Origin(f: FailureName): WorkName
    requires f.Stranded? || f.Orphan?
  {
    if f.Stranded? then Scratch(f.uuid) else f.name
  }

  // The tables after the work entries `names` have been looked at, in any order.

  function SweptWork(work: map<WorkName, Dir>, jobs: Jobs, names: set<WorkName>): map<WorkName, Dir> {
    map n | n in work && (n in names ==> Stays(jobs, n)) :: work[n]
  }

  function Moved(work: map<WorkName, Dir>, jobs: Jobs, names: set<WorkName>): (r: set<FailureName>)
    ensures forall f | f in r :: (f.Stranded? || f.Orphan?) && Origin(f) in work
  {
    set n | n in work && n in names && !Stays(jobs, n) :: Destination(jobs, n)
  }

  function SweptFailures(failures: map<FailureName, Dir>, work: map<WorkName, Dir>, jobs: Jobs,
                         names: set<WorkName>): map<FailureName, Dir> {
    failures + map f | f in Moved(work, jobs, names) :: work[Origin(f)]
  }

  function SweptJobs(work: map<WorkName, Dir>, jobs: Jobs, names: set<WorkName>): Jobs {
    map u | u in jobs ::
      if Scratch(u) in work && Scratch(u) in names && !IsTerminal(jobs[u]) then Interrupted else jobs[u]
  }

  function Swept(d: Disk, names: set<WorkName>): Disk {
    d.(work := SweptWork(d.work, d.jobs, names), failures := SweptFailures(d.failures, d.work, d.jobs, names),
       jobs := SweptJobs(d.work, d.jobs, names))
  }

  // The tables after the artifact directories `keys` have been looked at.

  type Dirs = map<Key, Dir>
  type Rows = map<Key, Artifact>

  function JudgedArtifacts(artifacts: Dirs, rows: Rows, keys: set<Key>): Dirs {
    map k | k in artifacts && (k in keys && k !in rows ==> Adoptable(k, artifacts[k])) :: artifacts[k]
  }

  function JudgedQuarantine(quarantine: Dirs, artifacts: Dirs, rows: Rows, keys: set<Key>): Dirs {
    quarantine + map k | k in artifacts && k in keys && k !in rows && !Adoptable(k, artifacts[k]) :: artifacts[k]
  }

  function JudgedRows(artifacts: Dirs, rows: Rows, keys: set<Key>): Rows {
    rows + map k | k in artifacts && k in keys && k !in rows && Adoptable(k, artifacts[k]) :: Described(artifacts[k])
  }

  function Judged(d: Disk, keys: set<Key>): Disk {
    d.(artifacts := JudgedArtifacts(d.artifacts, d.rows, keys),
       quarantine := JudgedQuarantine(d.quarantine, d.artifacts, d.rows, keys),
       rows := JudgedRows(d.artifacts, d.rows, keys))
  }

  function Recover(d: Disk): Disk {
    var swept := Swept(d, d.work.Keys);
    Judged(swept, swept.artifacts.Keys)
  }

  /** Recovery finishes what an interrupted recovery began, and so does nothing the second time. */
  lemma {:induction false} RecoveryConverges(d: Disk, names: set<WorkName>, keys: set<Key>)
    ensures Recover(Swept(d, names)) == Recover(d)
    ensures Recover(Judged(Swept(d, d.work.Keys), keys)) == Recover(d)
    ensures Recover(Recover(d)) == Recover(d)
  {
    hide SweptWork, SweptFailures, SweptJobs, JudgedArtifacts, JudgedQuarantine, JudgedRows;
    SweepConverges(d.work, d.failures, d.jobs, names);
    var swept := Swept(d, d.work.Keys);
    SweepIsDone(d.work, d.failures, d.jobs, swept.failures);
    JudgementConverges(swept.artifacts, swept.quarantine, swept.rows, keys);
    JudgementConverges(swept.artifacts, swept.quarantine, swept.rows, swept.artifacts.Keys);
  }

  lemma {:induction false} SweepConverges(work: map<WorkName, Dir>, failures: map<FailureName, Dir>, jobs: Jobs,
                                          names: set<WorkName>)
    ensures var work', jobs' := SweptWork(work, jobs, names), SweptJobs(work, jobs, names);
            var failures' := SweptFailures(failures, work, jobs, names);
            && SweptWork(work', jobs', work'.Keys) == SweptWork(work, jobs, work.Keys)
            && SweptJobs(work', jobs', work'.Keys) == SweptJobs(work, jobs, work.Keys)
            && SweptFailures(failures', work', jobs', work'.Keys) == SweptFailures(failures, work, jobs, work.Keys)
  {
    hide SweptWork, SweptJobs, SweptFailures;
    WorkConverges(work, jobs, names);
    JobsConverge(work, jobs, names);
    FailuresConverge(work, failures, jobs, names);
  }

  lemma {:induction false} WorkConverges(work: map<WorkName, Dir>, jobs: Jobs, names: set<WorkName>)
    ensures var work', jobs' := SweptWork(work, jobs, names), SweptJobs(work, jobs, names);
            SweptWork(work', jobs', work'.Keys) == SweptWork(work, jobs, work.Keys)
  {
    hide Stays, SweptJobs;
    StaysSame(work, jobs, names);
  }

  lemma {:induction false} JobsConverge(work: map<WorkName, Dir>, jobs: Jobs, names: set<WorkName>)
    ensures var work', jobs' := SweptWork(work, jobs, names), SweptJobs(work, jobs, names);
            SweptJobs(work', jobs', work'.Keys) == SweptJobs(work, jobs, work.Keys)
  {
    var work', jobs' := SweptWork(work, jobs, names), SweptJobs(work, jobs, names);
    forall u | u in jobs
      ensures SweptJobs(work', jobs', work'.Keys)[u] == SweptJobs(work, jobs, work.Keys)[u]
    {
      assert Scratch(u) in work && Scratch(u) !in work' ==> !IsTerminal(jobs[u]) && Scratch(u) in names;
    }
  }

  lemma {:induction false} FailuresConverge(work: map<WorkName, Dir>, failures: map<FailureName, Dir>, jobs: Jobs,
                                            names: set<WorkName>)
    ensures var work', jobs' := SweptWork(work, jobs, names), SweptJobs(work, jobs, names);
            var failures' := SweptFailures(failures, work, jobs, names);
            SweptFailures(failures', work', jobs', work'.Keys) == SweptFailures(failures, work, jobs, work.Keys)
  {
    hide Moved, SweptWork, SweptJobs, SweptFailures;
    MovedTwice(work, jobs, names);
    var work', jobs' := SweptWork(work, jobs, names), SweptJobs(work, jobs, names);
    var failures' := SweptFailures(failures, work, jobs, names);
    forall f
      ensures Same(SweptFailures(failures', work', jobs', work'.Keys),
                   SweptFailures(failures, work, jobs, work.Keys), f)
    {
      MovedAt(work, failures, jobs, names, f);
      MovedAt(work', failures', jobs', work'.Keys, f);
      MovedAt(work, failures, jobs, work.Keys, f);
      WorkStays(work, jobs, names);
    }
    SameEverywhere(SweptFailures(failures', work', jobs', work'.Keys), SweptFailures(failures, work, jobs, work.Keys));
  }

  lemma {:induction false} WorkStays(work: map<WorkName, Dir>, jobs: Jobs, names: set<WorkName>)
    ensures forall n | n in SweptWork(work, jobs, names) :: n in work && SweptWork(work, jobs, names)[n] == work[n]
  {
  }

  lemma {:induction false} MovedAt(work: map<WorkName, Dir>, failures: map<FailureName, Dir>, jobs: Jobs,
                                   names: set<WorkName>, f: FailureName)
    ensures var failures' := SweptFailures(failures, work, jobs, names);
            && (f in failures' <==> f in failures || f in Moved(work, jobs, names))
            && (f in failures' ==>
                  failures'[f] == if f in Moved(work, jobs, names) then work[Origin(f)] else failures[f])
  {
    hide Moved;
  }

  lemma {:induction false} StaysSame(work: map<WorkName, Dir>, jobs: Jobs, names: set<WorkName>)
    ensures var work', jobs' := SweptWork(work, jobs, names), SweptJobs(work, jobs, names);
            forall n | n in work' ::
              (Stays(jobs', n) <==> Stays(jobs, n)) && Destination(jobs', n) == Destination(jobs, n)
  {
  }

  lemma {:induction false} MovedTwice(work: map<WorkName, Dir>, jobs: Jobs, names: set<WorkName>)
    ensures var work', jobs' := SweptWork(work, jobs, names), SweptJobs(work, jobs, names);
            Moved(work, jobs, work.Keys) == Moved(work, jobs, names) + Moved(work', jobs', work'.Keys)
  {
    hide SweptJobs;
    var work', jobs' := SweptWork(work, jobs, names), SweptJobs(work, jobs, names);
    StaysSame(work, jobs, names);
    forall n | n in work && !Stays(jobs, n)
      ensures Destination(jobs, n) in Moved(work, jobs, names) + Moved(work', jobs', work'.Keys)
    {
      assert n in names || (n in work' && !Stays(jobs', n));
    }
  }

  lemma {:induction false} SweepIsDone(work: map<WorkName, Dir>, failures: map<FailureName, Dir>, jobs: Jobs,
                                       any: map<FailureName, Dir>)
    ensures var work', jobs' := SweptWork(work, jobs, work.Keys), SweptJobs(work, jobs, work.Keys);
            SweptWork(work', jobs', work'.Keys) == work' && SweptJobs(work', jobs', work'.Keys) == jobs'
            && SweptFailures(any, work', jobs', work'.Keys) == any
  {
    hide SweptJobs, SweptFailures;
    var work', jobs' := SweptWork(work, jobs, work.Keys), SweptJobs(work, jobs, work.Keys);
    StaysSame(work, jobs, work.Keys);
    assert forall n | n in work' :: Stays(jobs', n);
    NothingLeft(work', jobs', any);
  }

  lemma {:induction false} NothingLeft(work: map<WorkName, Dir>, jobs: Jobs, failures: map<FailureName, Dir>)
    requires forall n | n in work :: Stays(jobs, n)
    ensures SweptWork(work, jobs, work.Keys) == work && SweptJobs(work, jobs, work.Keys) == jobs
    ensures SweptFailures(failures, work, jobs, work.Keys) == failures
  {
  }

  /** What becomes of one artifact directory. */
  lemma {:induction false} JudgedAt(artifacts: Dirs, quarantine: Dirs, rows: Rows, keys: set<Key>, k: Key)
    ensures var looked := k in artifacts && k in keys && k !in rows;
            var artifacts', rows' := JudgedArtifacts(artifacts, rows, keys), JudgedRows(artifacts, rows, keys);
            var quarantine' := JudgedQuarantine(quarantine, artifacts, rows, keys);
            && (k in artifacts' <==> k in artifacts && (looked ==> Adoptable(k, artifacts[k])))
            && (k in artifacts' ==> artifacts'[k] == artifacts[k])
            && (k in rows' <==> k in rows || (looked && Adoptable(k, artifacts[k])))
            && (k in rows' ==> rows'[k] == if k in rows then rows[k] else Described(artifacts[k]))
            && (k in quarantine' <==> k in quarantine || (looked && !Adoptable(k, artifacts[k])))
            && (k in quarantine' ==>
                  quarantine'[k] == if looked && !Adoptable(k, artifacts[k]) then artifacts[k] else quarantine[k])
  {
    hide Adoptable, Described;
  }

  lemma {:induction false} ConvergesAt(artifacts: Dirs, quarantine: Dirs, rows: Rows, keys: set<Key>, k: Key)
    ensures var artifacts', rows' := JudgedArtifacts(artifacts, rows, keys), JudgedRows(artifacts, rows, keys);
            var quarantine' := JudgedQuarantine(quarantine, artifacts, rows, keys);
            var all, all' := artifacts.Keys, artifacts'.Keys;
            && Same(JudgedArtifacts(artifacts', rows', all'), JudgedArtifacts(artifacts, rows, all), k)
            && Same(JudgedRows(artifacts', rows', all'), JudgedRows(artifacts, rows, all), k)
            && Same(JudgedQuarantine(quarantine', artifacts', rows', all'),
                    JudgedQuarantine(quarantine, artifacts, rows, all), k)
  {
    hide Adoptable, Described, JudgedArtifacts, JudgedRows, JudgedQuarantine;
    var artifacts', rows' := JudgedArtifacts(artifacts, rows, keys), JudgedRows(artifacts, rows, keys);
    var quarantine' := JudgedQuarantine(quarantine, artifacts, rows, keys);
    JudgedAt(artifacts, quarantine, rows, keys, k);
    JudgedAt(artifacts', quarantine', rows', artifacts'.Keys, k);
    JudgedAt(artifacts, quarantine, rows, artifacts.Keys, k);
  }

  predicate Same<K, V(==)>(m: map<K, V>, m': map<K, V>, k: K) {
    (k in m <==> k in m') && (k in m && k in m' ==> m[k] == m'[k])
  }

  lemma {:induction false} SameEverywhere<K(!new), V>(m: map<K, V>, m': map<K, V>)
    requires forall k :: Same(m, m', k)
    ensures m == m'
  {
    assert forall k :: k in m <==> k in m' by {
      forall k
        ensures k in m <==> k in m'
      {
        assert Same(m, m', k);
      }
    }
    forall k | k in m
      ensures m[k] == m'[k]
    {
      assert Same(m, m', k);
    }
  }

  lemma {:induction false} JudgementConverges(artifacts: Dirs, quarantine: Dirs, rows: Rows, keys: set<Key>)
    ensures var artifacts', rows' := JudgedArtifacts(artifacts, rows, keys), JudgedRows(artifacts, rows, keys);
            var quarantine' := JudgedQuarantine(quarantine, artifacts, rows, keys);
            var all, all' := artifacts.Keys, artifacts'.Keys;
            && JudgedArtifacts(artifacts', rows', all') == JudgedArtifacts(artifacts, rows, all)
            && JudgedRows(artifacts', rows', all') == JudgedRows(artifacts, rows, all)
            && JudgedQuarantine(quarantine', artifacts', rows', all')
               == JudgedQuarantine(quarantine, artifacts, rows, all)
  {
    hide Same, JudgedArtifacts, JudgedRows, JudgedQuarantine;
    var artifacts', rows' := JudgedArtifacts(artifacts, rows, keys), JudgedRows(artifacts, rows, keys);
    var quarantine' := JudgedQuarantine(quarantine, artifacts, rows, keys);
    var all, all' := artifacts.Keys, artifacts'.Keys;
    forall k
      ensures Same(JudgedArtifacts(artifacts', rows', all'), JudgedArtifacts(artifacts, rows, all), k)
      ensures Same(JudgedRows(artifacts', rows', all'), JudgedRows(artifacts, rows, all), k)
      ensures Same(JudgedQuarantine(quarantine', artifacts', rows', all'),
                   JudgedQuarantine(quarantine, artifacts, rows, all), k)
    {
      ConvergesAt(artifacts, quarantine, rows, keys, k);
    }
    SameEverywhere(JudgedArtifacts(artifacts', rows', all'), JudgedArtifacts(artifacts, rows, all));
    SameEverywhere(JudgedRows(artifacts', rows', all'), JudgedRows(artifacts, rows, all));
    SameEverywhere(JudgedQuarantine(quarantine', artifacts', rows', all'),
                   JudgedQuarantine(quarantine, artifacts, rows, all));
  }

  // ================= crash consistency =================

  /** The artifact directory and its row agree. */
  predicate Matches(d: Disk, key: Key)
    requires key in d.artifacts && key in d.rows
  {
    Rai in d.artifacts[key] && Sha(d.artifacts[key][Rai]) == d.rows[key].sha
  }

  predicate AbsentOrMatching(d: Disk, key: Key) {
    (key in d.artifacts <==> key in d.rows) && (key in d.artifacts ==> Matches(d, key))
  }

  lemma {:induction false} StagedIsWhole(dir: Dir, c: Commit)
    ensures var whole := Staged(dir, c, 6);
            Rai in whole && whole[Rai] == c.rai && Json in whole && whole[Json] == Rendered(ManifestOf(c))
  {
  }

  /** What recovery does to one key. */
  lemma {:induction false} RecoveredKey(d: Disk, key: Key)
    ensures key in Recover(d).artifacts <==> key in d.artifacts && (key in d.rows || Adoptable(key, d.artifacts[key]))
    ensures key in Recover(d).artifacts ==> Recover(d).artifacts[key] == d.artifacts[key]
    ensures key in Recover(d).rows <==> key in d.rows || (key in d.artifacts && Adoptable(key, d.artifacts[key]))
    ensures key in d.rows ==> Recover(d).rows[key] == d.rows[key]
    ensures key !in d.rows && key in Recover(d).rows ==> Recover(d).rows[key] == Described(d.artifacts[key])
  {
    hide Adoptable, Described, JudgedArtifacts, JudgedRows, JudgedQuarantine, SweptWork, SweptFailures, SweptJobs;
    var swept := Swept(d, d.work.Keys);
    JudgedAt(swept.artifacts, swept.quarantine, swept.rows, swept.artifacts.Keys, key);
  }

  /** However far a commit gets before a crash, after recovery its key is either absent from both the
      directory and the table or present in both with matching content.  Once the directory is in place
      it is adopted, with the very row the commit would have inserted, exactly when its source digest
      and recipe are named; before that nothing of it remains. */
  lemma {:induction false} CrashConsistent(d: Disk, c: Commit, n: nat)
    requires c.key !in d.rows && n <= STEPS
    ensures AbsentOrMatching(Recover(After(d, c, n)), c.key)
    ensures 1 <= n <= 8 ==> c.key !in Recover(After(d, c, n)).artifacts
    ensures n == 9 ==> (c.key in Recover(After(d, c, n)).artifacts <==> c.source != "" && c.recipe != "")
    ensures n >= 9 && c.key in Recover(After(d, c, n)).artifacts ==>
              && Recover(After(d, c, n)).rows[c.key] == RowOf(c)
              && Recover(After(d, c, n)).artifacts[c.key] == Staged(StagingDir(d, c), c, 6)
    ensures n == STEPS ==> c.key in Recover(After(d, c, n)).artifacts
  {
    hide Recover, Staged;
    RecoveredKey(After(d, c, n), c.key);
    StagedIsWhole(StagingDir(d, c), c);
  }

  lemma {:induction false} Tables(d: Disk, c: Commit, n: nat)
    ensures After(d, c, n).rows == if n < STEPS then d.rows else d.rows[c.key := RowOf(c)]
    ensures After(d, c, n).artifacts ==
            if n == 0 then d.artifacts
            else if n <= 8 then d.artifacts - {c.key}
            else (d.artifacts - {c.key})[c.key := Staged(StagingDir(d, c), c, 6)]
  {
    hide Staged, StagingDir, RowOf;
    if n <= 8 {
    } else {
    }
  }

  lemma {:induction false} Elsewhere(d: Disk, c: Commit, n: nat, key: Key)
    requires key != c.key
    ensures key in After(d, c, n).rows <==> key in d.rows
    ensures key in After(d, c, n).artifacts <==> key in d.artifacts
    ensures key in d.rows ==> After(d, c, n).rows[key] == d.rows[key]
    ensures key in d.artifacts ==> After(d, c, n).artifacts[key] == d.artifacts[key]
  {
    hide After, Staged, StagingDir, RowOf;
    Tables(d, c, n);
  }

  /** Neither a commit nor recovery touches the directory or the row of another committed key. */
  lemma {:induction false} OthersUntouched(d: Disk, c: Commit, n: nat, key: Key)
    requires key != c.key && n <= STEPS
    ensures key in After(d, c, n).rows <==> key in d.rows
    ensures key in After(d, c, n).artifacts <==> key in d.artifacts
    ensures key in d.rows ==> Recover(After(d, c, n)).rows[key] == d.rows[key]
    ensures key in d.rows && key in d.artifacts ==>
              key in Recover(After(d, c, n)).artifacts && Recover(After(d, c, n)).artifacts[key] == d.artifacts[key]
    ensures AbsentOrMatching(Recover(d), key) ==> AbsentOrMatching(Recover(After(d, c, n)), key)
  {
    hide Recover, After, Adoptable, Described;
    Elsewhere(d, c, n, key);
    RecoveredKey(After(d, c, n), key);
    RecoveredKey(d, key);
  }

  // ================= invalidation =================

  /** The disk after `n` of the two steps that drop a stale artifact. */
  function Dropped(d: Disk, key: Key, at: nat, n: nat): Disk {
    var moved := if n >= 1 && key in d.artifacts
                 then d.(artifacts := d.artifacts - {key}, failures := d.failures[Stale(key, at) := d.artifacts[key]])
                 else d;
    if n >= 2 then moved.(rows := d.rows - {key}) else moved
  }

  datatype Op = Publishing(c: Commit, n: nat) | Invalidating(key: Key, at: nat, n: nat)

  /** A complete operation, or one cut short by a crash that a new process recovers from. */
  function Done(d: Disk, op: Op): Disk {
    match op
    case Publishing(c, n) =>
      if c.key in d.rows then d else if n >= STEPS then After(d, c, STEPS) else Recover(After(d, c, n))
    case Invalidating(key, at, n) => if n >= 2 then Dropped(d, key, at, 2) else Recover(Dropped(d, key, at, n))
  }

  /** The keys whose invalidation was cut between its two steps and not repeated since. */
  function Dangling(d: Disk, dangling: set<Key>, op: Op): set<Key> {
    match op
    case Publishing(_, _) => dangling
    case Invalidating(key, _, n) =>
      if n >= 2 then dangling - {key} else if n == 1 && key in d.rows then dangling + {key} else dangling
  }

  function Run(ops: seq<Op>): (Disk, set<Key>) {
    if ops == [] then (EMPTY, {})
    else
      var (d, dangling) := Run(ops[..|ops| - 1]);
      (Done(d, ops[|ops| - 1]), Dangling(d, dangling, ops[|ops| - 1]))
  }

  /** A directory has a row its content hashes to; a row has its directory unless it dangles. */
  predicate ConsistentAt(d: Disk, dangling: set<Key>, k: Key) {
    && (k in d.artifacts ==> k in d.rows && Matches(d, k))
    && (k in d.rows ==> (k in d.artifacts <==> k !in dangling))
    && (k in dangling ==> k in d.rows)
  }

  ghost predicate Consistent(d: Disk, dangling: set<Key>) {
    forall k :: ConsistentAt(d, dangling, k)
  }

  lemma {:induction false} RecoverConsistent(d: Disk, dangling: set<Key>)
    requires Consistent(d, dangling)
    ensures Consistent(Recover(d), dangling)
  {
    hide Recover, ConsistentAt;
    forall key
      ensures ConsistentAt(Recover(d), dangling, key)
    {
      RecoverConsistentAt(d, dangling, key);
    }
  }

  lemma {:induction false} RecoverConsistentAt(d: Disk, dangling: set<Key>, key: Key)
    requires ConsistentAt(d, dangling, key)
    ensures ConsistentAt(Recover(d), dangling, key)
  {
    hide Recover, Adoptable, Described;
    RecoveredKey(d, key);
  }

  lemma {:induction false} PublishConsistent(d: Disk, dangling: set<Key>, c: Commit, n: nat)
    requires Consistent(d, dangling) && c.key !in d.rows && n <= STEPS
    ensures Consistent(Recover(After(d, c, n)), dangling)
    ensures Consistent(After(d, c, STEPS), dangling)
  {
    hide Recover, After, ConsistentAt;
    forall key
      ensures ConsistentAt(Recover(After(d, c, n)), dangling, key)
      ensures ConsistentAt(After(d, c, STEPS), dangling, key)
    {
      if key == c.key {
        OwnConsistentAt(d, dangling, c, n);
      } else {
        ElsewhereConsistentAt(d, dangling, c, n, key);
        ElsewhereConsistentAt(d, dangling, c, STEPS, key);
        RecoverConsistentAt(After(d, c, n), dangling, key);
      }
    }
  }

  lemma {:induction false} OwnConsistentAt(d: Disk, dangling: set<Key>, c: Commit, n: nat)
    requires ConsistentAt(d, dangling, c.key) && c.key !in d.rows && n <= STEPS
    ensures ConsistentAt(Recover(After(d, c, n)), dangling, c.key) && ConsistentAt(After(d, c, STEPS), dangling, c.key)
  {
    hide Recover, After;
    CrashConsistent(d, c, n);
    Committed(d, c);
  }

  lemma {:induction false} ElsewhereConsistentAt(d: Disk, dangling: set<Key>, c: Commit, n: nat, key: Key)
    requires ConsistentAt(d, dangling, key) && key != c.key
    ensures ConsistentAt(After(d, c, n), dangling, key)
  {
    hide After;
    Elsewhere(d, c, n, key);
  }

  lemma {:induction false} Committed(d: Disk, c: Commit)
    ensures AbsentOrMatching(After(d, c, STEPS), c.key) && c.key in After(d, c, STEPS).rows
  {
    hide Staged;
    StagedIsWhole(StagingDir(d, c), c);
  }

  /** After any sequence of commits and invalidations, each possibly cut short by a crash at any step
      and recovered from, every artifact directory has a row its content hashes to, and every row has its
      directory except those whose invalidation was cut between moving the directory and dropping the
      row: recovery leaves these, and repeating the invalidation repairs them. */
  lemma {:induction false} RunsStayConsistent(ops: seq<Op>)
    ensures Consistent(Run(ops).0, Run(ops).1)
  {
    hide Recover, After, Consistent;
    if ops == [] {
      EmptyIsConsistent();
    } else {
      var (d, dangling) := Run(ops[..|ops| - 1]);
      RunsStayConsistent(ops[..|ops| - 1]);
      match ops[|ops| - 1]
      case Publishing(c, n) =>
        if c.key !in d.rows {
          PublishConsistent(d, dangling, c, if n <= STEPS then n else STEPS);
        }
      case Invalidating(key, at, n) =>
        InvalidateConsistent(d, dangling, key, at, n);
    }
  }

  lemma {:induction false} EmptyIsConsistent()
    ensures Consistent(EMPTY, {})
  {
  }

  lemma {:induction false} InvalidateConsistent(d: Disk, dangling: set<Key>, key: Key, at: nat, n: nat)
    requires Consistent(d, dangling)
    ensures Consistent(Done(d, Invalidating(key, at, n)), Dangling(d, dangling, Invalidating(key, at, n)))
  {
    hide Recover, ConsistentAt, Dropped, Dangling;
    var after := Dangling(d, dangling, Invalidating(key, at, n));
    var dropped := Dropped(d, key, at, if n >= 2 then 2 else n);
    forall k
      ensures ConsistentAt(dropped, after, k)
    {
      DroppedConsistentAt(d, dangling, key, at, n, k);
    }
    if n < 2 {
      RecoverConsistent(dropped, after);
    }
  }

  lemma {:induction false} DroppedConsistentAt(d: Disk, dangling: set<Key>, key: Key, at: nat, n: nat, k: Key)
    requires ConsistentAt(d, dangling, k)
    ensures ConsistentAt(Dropped(d, key, at, if n >= 2 then 2 else n),
                         Dangling(d, dangling, Invalidating(key, at, n)), k)
  {
  }
}
