/** The data directory and the store's operations on it, step by step.  A call does its first `steps`
    steps; fewer than all of them is a crash. */
module DataDirectory {
  import opened Text
  import opened RetryPolicy
  import opened Store

  function Least(a: nat, b: nat): (m: nat)
    ensures m <= a && m <= b && (m == a || m == b)
  {
    if a < b then a else b
  }

  class DataDir {
    var work: map<WorkName, Dir>
    var artifacts: map<Key, Dir>
    var failures: map<FailureName, Dir>
    var quarantine: map<Key, Dir>
    var rows: map<Key, Artifact>
    var jobs: Jobs
    var sources: map<Sha, Bytes>

    constructor ()
      ensures State() == EMPTY && sources == map[]
    {
      work, artifacts, failures, quarantine, rows, jobs, sources := map[], map[], map[], map[], map[], map[], map[];
    }

    function State(): Disk
      reads this
    {
      Disk(work, artifacts, failures, quarantine, rows, jobs)
    }

    /** A temporary file in the same directory, torn and then complete, and a rename. */
    method AtomicWrite(n: WorkName, file: File, data: Bytes, torn: Bytes, serial: nat, steps: nat)
      requires n in work
      modifies `work
      ensures work == old(work)[n := Written(old(work)[n], file, data, torn, serial, steps)]
    {
      ghost var dir := work[n];
      if steps == 0 {
        assert work == work[n := work[n]];
        return;
      }
      work := work[n := work[n][Temp(file, serial) := torn]];
      if steps == 1 { return; }
      work := work[n := work[n][Temp(file, serial) := data]];
      assert dir[Temp(file, serial) := torn][Temp(file, serial) := data] == dir[Temp(file, serial) := data];
      if steps == 2 { return; }
      work := work[n := work[n][file := work[n][Temp(file, serial)]] - {Temp(file, serial)}];
      assert dir[Temp(file, serial) := data][file := data] - {Temp(file, serial)}
             == dir[file := data] - {Temp(file, serial)};
    }

    /** Makes the staging directory and writes both files into it. */
    method StageFiles(c: Commit, steps: nat)
      requires steps <= 2 * WRITE_STEPS
      modifies `work
      ensures work == old(work)[Staging(c.uuid) := Staged(StagingDir(old(State()), c), c, steps)]
    {
      hide Written;
      var staging := Staging(c.uuid);
      ghost var before, dir := work, StagingDir(State(), c);
      if staging !in work { work := work[staging := map[]]; }
      assert work == before[staging := dir];
      AtomicWrite(staging, Rai, c.rai, c.torn, c.serial, Least(steps, WRITE_STEPS));
      assert work == before[staging := Staged(dir, c, Least(steps, WRITE_STEPS))];
      if steps <= WRITE_STEPS { return; }
      AtomicWrite(staging, Json, Rendered(ManifestOf(c)), c.torn, c.serial, steps - WRITE_STEPS);
    }

    /** Commits a result under its compile key; a committed key is left alone. */
    method PublishResult(c: Commit, steps: nat)
      modifies `work, `artifacts, `failures, `rows
      ensures State() == if c.key in old(rows) then old(State()) else After(old(State()), c, Least(steps, STEPS))
    {
      hide Staged;
      if c.key in rows || steps == 0 { return; }
      ghost var before := State();
      if c.key in artifacts {
        failures, artifacts := failures[Colliding(c.key, c.at) := artifacts[c.key]], artifacts - {c.key};
      }
      if steps == 1 { return; }
      assert StagingDir(State(), c) == StagingDir(before, c);
      StageFiles(c, Least(steps - 2, 6));
      if steps <= 8 { return; }
      artifacts, work := artifacts[c.key := work[Staging(c.uuid)]], work - {Staging(c.uuid)};
      assert work == before.work - {Staging(c.uuid)};
      if steps == 9 { return; }
      rows := rows[c.key := Artifact(c.source, Sha(c.rai), c.recipe, c.target)];
    }

    /** Moves a stale artifact aside and drops its row. */
    method InvalidateArtifact(key: Key, at: nat, steps: nat)
      modifies `artifacts, `failures, `rows
      ensures State() == Dropped(old(State()), key, at, steps)
    {
      if steps == 0 { return; }
      if key in artifacts {
        failures, artifacts := failures[Stale(key, at) := artifacts[key]], artifacts - {key};
      }
      if steps == 1 { return; }
      rows := rows - {key};
    }

    /** Looks at every scratch directory, then at every artifact directory without a row. */
    method RecoverAll()
      modifies `work, `artifacts, `failures, `quarantine, `rows, `jobs
      ensures State() == Recover(old(State()))
    {
      hide Swept, Judged, Adoptable;
      ghost var before := State();
      SweptNothing(before);
      var names := work.Keys;
      ghost var swept: set<WorkName> := {};
      while names != {}
        invariant swept !! names && swept + names == before.work.Keys && State() == Swept(before, swept)
        decreases names
      {
        var n :| n in names;
        SweptOne(before, swept, n);
        SweepOne(n, SWEEP_STEPS);
        names, swept := names - {n}, swept + {n};
      }
      assert swept == before.work.Keys;
      ghost var mid := State();
      JudgedNothing(mid);
      var keys := artifacts.Keys;
      ghost var judged: set<Key> := {};
      while keys != {}
        invariant judged !! keys && judged + keys == mid.artifacts.Keys && State() == Judged(mid, judged)
        decreases keys
      {
        var k :| k in keys;
        JudgedOne(mid, judged, k);
        JudgeOne(k, JUDGE_STEPS);
        keys, judged := keys - {k}, judged + {k};
      }
      assert judged == mid.artifacts.Keys;
    }

    /** A live job is marked, what is in the way is removed, and the scratch is moved. */
    method SweepOne(n: WorkName, steps: nat)
      requires n in work
      modifies `work, `failures, `jobs
      ensures State() == SweepCut(old(State()), n, steps)
    {
      if steps == 0 { return; }
      if n.Scratch? && n.uuid in jobs {
        if IsTerminal(jobs[n.uuid]) { return; }
        jobs := jobs[n.uuid := Interrupted];
      }
      if steps == 1 { return; }
      var dest := if n.Scratch? && n.uuid in jobs then Stranded(n.uuid) else Orphan(n);
      failures := failures - {dest};
      if steps == 2 { return; }
      failures, work := failures[dest := work[n]], work - {n};
    }

    /** A directory with a valid manifest is adopted, any other replaces what is quarantined. */
    method JudgeOne(k: Key, steps: nat)
      requires k in artifacts
      modifies `artifacts, `quarantine, `rows
      ensures State() == JudgeCut(old(State()), k, steps)
    {
      if k in rows || steps == 0 { return; }
      var dir := artifacts[k];
      var adopted := false;
      if Json in dir && dir[Json].Rendered? {
        var m := dir[Json].manifest;
        if m.key == k && Rai in dir && Sha(dir[Rai]) == m.artifact && m.source != "" && m.recipe != "" {
          rows := rows[k := Artifact(m.source, m.artifact, m.recipe, m.target)];
          adopted := true;
        }
      }
      if adopted { return; }
      quarantine := quarantine - {k};
      if steps == 1 { return; }
      quarantine, artifacts := quarantine[k := dir], artifacts - {k};
    }

    /** Every stored source hashes to its name. */
    predicate SourcesMatch()
      reads this
    {
      forall sha | sha in sources :: Sha(sources[sha]) == sha
    }

    /** Stores bytes under their digest; the same bytes are never rewritten. */
    method IngestBytes(data: Bytes, crash: bool) returns (r: Option<Sha>)
      modifies `sources
      ensures sources == if Sha(data) in old(sources) || crash then old(sources) else old(sources)[Sha(data) := data]
      ensures r.None? <==>
                || (Sha(data) in old(sources) && Sha(old(sources)[Sha(data)]) != Sha(data))
                || (crash && Sha(data) !in old(sources))
      ensures old(SourcesMatch()) ==> SourcesMatch() && (!crash ==> r == Some(Sha(data)) && sources[Sha(data)] == data)
    {
      var digest := Sha(data);
      if digest in sources {
        if Sha(sources[digest]) != digest { return None; }
        return Some(digest);
      }
      if crash { return None; }
      sources := sources[digest := data];
      return Some(digest);
    }
  }

  // ================= one entry at a time =================

  const SWEEP_STEPS := 3
  const JUDGE_STEPS := 2

  /** Scratch of a live job. */
  predicate IsStranded(jobs: Jobs, n: WorkName) {
    n.Scratch? && n.uuid in jobs && !IsTerminal(jobs[n.uuid])
  }

  /** The disk after the first `cut` steps of looking at one scratch directory. */
  function SweepCut(d: Disk, n: WorkName, cut: nat): Disk
    requires n in d.work
  {
    if Stays(d.jobs, n) || cut == 0 then d
    else
      var marked := d.(jobs := if IsStranded(d.jobs, n) then d.jobs[n.uuid := Interrupted] else d.jobs);
      var dest := Destination(d.jobs, n);
      if cut == 1 then marked
      else if cut == 2 then marked.(failures := d.failures - {dest})
      else marked.(work := d.work - {n}, failures := d.failures[dest := d.work[n]])
  }

  /** The disk after the first `cut` steps of looking at one artifact directory. */
  function JudgeCut(d: Disk, k: Key, cut: nat): Disk
    requires k in d.artifacts
  {
    if k in d.rows || cut == 0 then d
    else if Adoptable(k, d.artifacts[k]) then d.(rows := d.rows[k := Described(d.artifacts[k])])
    else if cut == 1 then d.(quarantine := d.quarantine - {k})
    else d.(artifacts := d.artifacts - {k}, quarantine := d.quarantine[k := d.artifacts[k]])
  }

  lemma {:induction false} SweptNothing(d: Disk)
    ensures Swept(d, {}) == d
  {
    assert Moved(d.work, d.jobs, {}) == {};
    assert SweptFailures(d.failures, d.work, d.jobs, {}) == d.failures by {
      hide Moved;
    }
    assert SweptWork(d.work, d.jobs, {}) == d.work;
    assert SweptJobs(d.work, d.jobs, {}) == d.jobs;
  }

  lemma {:induction false} JudgedNothing(d: Disk)
    ensures Judged(d, {}) == d
  {
    assert Judged(d, {}).artifacts == d.artifacts && Judged(d, {}).quarantine == d.quarantine
           && Judged(d, {}).rows == d.rows;
  }

  lemma {:induction false} SweptOne(d: Disk, names: set<WorkName>, n: WorkName)
    requires n in d.work && n !in names
    ensures n in Swept(d, names).work && Swept(d, names + {n}) == SweepCut(Swept(d, names), n, SWEEP_STEPS)
  {
    hide SweptFailures;
    SweptWorkOne(d.work, d.jobs, names, n);
    SweptJobsOne(d.work, d.jobs, names, n);
    SweptFailuresOne(d.failures, d.work, d.jobs, names, n);
  }

  lemma {:induction false} SweptWorkOne(work: map<WorkName, Dir>, jobs: Jobs, names: set<WorkName>, n: WorkName)
    requires n in work && n !in names
    ensures var work' := SweptWork(work, jobs, names);
            && n in work' && work'[n] == work[n]
            && SweptWork(work, jobs, names + {n}) == if Stays(jobs, n) then work' else work' - {n}
  {
    hide Stays;
  }

  lemma {:induction false} SweptJobsOne(work: map<WorkName, Dir>, jobs: Jobs, names: set<WorkName>, n: WorkName)
    requires n in work && n !in names
    ensures var jobs' := SweptJobs(work, jobs, names);
            && (Stays(jobs', n) <==> Stays(jobs, n)) && Destination(jobs', n) == Destination(jobs, n)
            && SweptJobs(work, jobs, names + {n})
               == if !Stays(jobs, n) && n.Scratch? && n.uuid in jobs then jobs'[n.uuid := Interrupted] else jobs'
  {
  }

  lemma {:induction false} MovedOne(work: map<WorkName, Dir>, jobs: Jobs, names: set<WorkName>, n: WorkName)
    requires n in work && n !in names
    ensures Moved(work, jobs, names + {n}) ==
            Moved(work, jobs, names) + if Stays(jobs, n) then {} else {Destination(jobs, n)}
    ensures Origin(Destination(jobs, n)) == n
  {
    hide Stays;
  }

  lemma {:induction false} SweptFailuresOne(failures: map<FailureName, Dir>, work: map<WorkName, Dir>, jobs: Jobs,
                                            names: set<WorkName>, n: WorkName)
    requires n in work && n !in names
    ensures var failures' := SweptFailures(failures, work, jobs, names);
            SweptFailures(failures, work, jobs, names + {n})
            == if Stays(jobs, n) then failures' else failures'[Destination(jobs, n) := work[n]]
  {
    hide SweptFailures, Moved, Destination, Origin, Stays;
    MovedOne(work, jobs, names, n);
    var after := SweptFailures(failures, work, jobs, names);
    var expected := if Stays(jobs, n) then after else after[Destination(jobs, n) := work[n]];
    forall f
      ensures Same(SweptFailures(failures, work, jobs, names + {n}), expected, f)
    {
      MovedAt(work, failures, jobs, names, f);
      MovedAt(work, failures, jobs, names + {n}, f);
    }
    SameEverywhere(SweptFailures(failures, work, jobs, names + {n}), expected);
  }

  lemma {:induction false} JudgedOne(d: Disk, keys: set<Key>, k: Key)
    requires k in d.artifacts && k !in keys
    ensures k in Judged(d, keys).artifacts && Judged(d, keys + {k}) == JudgeCut(Judged(d, keys), k, JUDGE_STEPS)
  {
    hide JudgedArtifacts, JudgedQuarantine, JudgedRows, Adoptable, Described, JudgeCut, Same;
    var a, q, r := d.artifacts, d.quarantine, d.rows;
    JudgedAt(a, q, r, keys, k);
    var step := JudgeCut(Judged(d, keys), k, JUDGE_STEPS);
    forall x
      ensures Same(JudgedArtifacts(a, r, keys + {k}), step.artifacts, x)
      ensures Same(JudgedRows(a, r, keys + {k}), step.rows, x)
      ensures Same(JudgedQuarantine(q, a, r, keys + {k}), step.quarantine, x)
    {
      JudgedOneAt(d, keys, k, x);
    }
    SameEverywhere(JudgedArtifacts(a, r, keys + {k}), step.artifacts);
    SameEverywhere(JudgedRows(a, r, keys + {k}), step.rows);
    SameEverywhere(JudgedQuarantine(q, a, r, keys + {k}), step.quarantine);
    JudgeCutRest(Judged(d, keys), k, JUDGE_STEPS);
  }

  lemma {:induction false} JudgeCutRest(d: Disk, k: Key, cut: nat)
    requires k in d.artifacts
    ensures var c := JudgeCut(d, k, cut);
            c.work == d.work && c.failures == d.failures && c.jobs == d.jobs
  {
    hide Adoptable, Described;
  }

  lemma {:induction false} JudgedOneAt(d: Disk, keys: set<Key>, k: Key, x: Key)
    requires k in Judged(d, keys).artifacts && k in d.artifacts && k !in keys
    ensures var step := JudgeCut(Judged(d, keys), k, JUDGE_STEPS);
            && Same(JudgedArtifacts(d.artifacts, d.rows, keys + {k}), step.artifacts, x)
            && Same(JudgedRows(d.artifacts, d.rows, keys + {k}), step.rows, x)
            && Same(JudgedQuarantine(d.quarantine, d.artifacts, d.rows, keys + {k}), step.quarantine, x)
  {
    hide JudgedArtifacts, JudgedQuarantine, JudgedRows, Adoptable, Described;
    var a, q, r := d.artifacts, d.quarantine, d.rows;
    JudgedAt(a, q, r, keys, k);
    JudgedAt(a, q, r, keys, x);
    JudgedAt(a, q, r, keys + {k}, x);
  }

  // ================= crashes inside recovery =================

  /** After the directories `names`, recovery is cut short while it looks at one more: running it again
      ends as if it had never been cut, exactly unless the cut comes between marking a live job and
      moving its scratch.  Then that scratch stays where it is for good. */
  lemma {:induction false} CutSweepConverges(d: Disk, names: set<WorkName>, n: WorkName, cut: nat)
    requires n in d.work && n !in names
    ensures n in Swept(d, names).work
    ensures var left, lost := SweepCut(Swept(d, names), n, cut), IsStranded(d.jobs, n) && 1 <= cut <= 2;
            && (Recover(left) == Recover(d) <==> !lost)
            && (lost ==> n in Recover(left).work && n !in Recover(d).work)
  {
    hide Recover, Swept, SweepCut;
    SweptOne(d, names, n);
    var before := Swept(d, names);
    RecoveryConverges(d, names, {});
    JobsBefore(d, names, n);
    if cut >= SWEEP_STEPS {
      AllSteps(before, n, cut);
      RecoveryConverges(d, names + {n}, {});
    } else if cut == 0 || Stays(d.jobs, n) {
      NoSteps(before, n, cut);
    } else if IsStranded(d.jobs, n) {
      MarkedStays(before, n, cut);
      StrandedGoes(d, n);
    } else {
      OrphanCut(before, n, cut);
    }
  }

  lemma {:induction false} JobsBefore(d: Disk, names: set<WorkName>, n: WorkName)
    requires n in d.work && n !in names
    ensures var before := Swept(d, names);
            (IsStranded(before.jobs, n) <==> IsStranded(d.jobs, n)) && (Stays(before.jobs, n) <==> Stays(d.jobs, n))
  {
  }

  lemma {:induction false} AllSteps(d: Disk, n: WorkName, cut: nat)
    requires n in d.work && cut >= SWEEP_STEPS
    ensures SweepCut(d, n, cut) == SweepCut(d, n, SWEEP_STEPS)
  {
  }

  lemma {:induction false} NoSteps(d: Disk, n: WorkName, cut: nat)
    requires n in d.work && (cut == 0 || Stays(d.jobs, n))
    ensures SweepCut(d, n, cut) == d
  {
  }

  lemma {:induction false} MarkedStays(d: Disk, n: WorkName, cut: nat)
    requires n in d.work && IsStranded(d.jobs, n) && 1 <= cut <= 2
    ensures n in Recover(SweepCut(d, n, cut)).work
  {
    hide SweptFailures, Judged;
    WorkAfter(SweepCut(d, n, cut));
  }

  lemma {:induction false} StrandedGoes(d: Disk, n: WorkName)
    requires n in d.work && IsStranded(d.jobs, n)
    ensures n !in Recover(d).work
  {
    WorkAfter(d);
  }

  lemma {:induction false} WorkAfter(d: Disk)
    ensures Recover(d).work == SweptWork(d.work, d.jobs, d.work.Keys)
  {
    hide SweptWork, SweptFailures, SweptJobs, JudgedArtifacts, JudgedQuarantine, JudgedRows;
  }

  /** What is removed to make way for an orphan is overwritten by it in any case. */
  lemma {:induction false} OrphanCut(d: Disk, n: WorkName, cut: nat)
    requires n in d.work && !IsStranded(d.jobs, n) && !Stays(d.jobs, n) && 1 <= cut <= 2
    ensures Recover(SweepCut(d, n, cut)) == Recover(d)
  {
    hide SweptWork, SweptFailures, SweptJobs, JudgedArtifacts, JudgedQuarantine, JudgedRows, Moved;
    DestinationMoved(d.work, d.jobs, n);
    RemovedIsRestored(d.work, d.failures, d.jobs, Destination(d.jobs, n));
  }

  lemma {:induction false} DestinationMoved(work: map<WorkName, Dir>, jobs: Jobs, n: WorkName)
    requires n in work && !Stays(jobs, n)
    ensures Destination(jobs, n) in Moved(work, jobs, work.Keys)
  {
  }

  lemma {:induction false} RemovedIsRestored(work: map<WorkName, Dir>, failures: map<FailureName, Dir>, jobs: Jobs,
                                             f: FailureName)
    requires f in Moved(work, jobs, work.Keys)
    ensures SweptFailures(failures - {f}, work, jobs, work.Keys) == SweptFailures(failures, work, jobs, work.Keys)
  {
    hide SweptFailures, Moved;
    var a, b := SweptFailures(failures - {f}, work, jobs, work.Keys), SweptFailures(failures, work, jobs, work.Keys);
    forall g
      ensures Same(a, b, g)
    {
      MovedAt(work, failures - {f}, jobs, work.Keys, g);
      MovedAt(work, failures, jobs, work.Keys, g);
    }
    SameEverywhere(a, b);
  }

  /** Cut short while it looks at an artifact directory, recovery converges wherever the cut comes. */
  lemma {:induction false} CutJudgementConverges(d: Disk, keys: set<Key>, k: Key, cut: nat)
    requires k in Swept(d, d.work.Keys).artifacts && k !in keys
    ensures k in Judged(Swept(d, d.work.Keys), keys).artifacts
    ensures Recover(JudgeCut(Judged(Swept(d, d.work.Keys), keys), k, cut)) == Recover(d)
  {
    hide Recover, Swept, Judged, Adoptable, Described;
    var swept := Swept(d, d.work.Keys);
    var before := Judged(swept, keys);
    JudgedOne(swept, keys, k);
    RecoveryConverges(d, d.work.Keys, keys);
    RecoveryConverges(d, d.work.Keys, keys + {k});
    if cut == 1 && k !in before.rows && !Adoptable(k, before.artifacts[k]) {
      QuarantineCut(before, k);
    }
  }

  lemma {:induction false} QuarantineCut(d: Disk, k: Key)
    requires k in d.artifacts && k !in d.rows && !Adoptable(k, d.artifacts[k])
    ensures Recover(d.(quarantine := d.quarantine - {k})) == Recover(d)
  {
    hide SweptWork, SweptFailures, SweptJobs, JudgedArtifacts, JudgedQuarantine, JudgedRows, Adoptable;
    var a, q, r := d.artifacts, d.quarantine, d.rows;
    var x, y := JudgedQuarantine(q - {k}, a, r, a.Keys), JudgedQuarantine(q, a, r, a.Keys);
    forall j
      ensures Same(x, y, j)
    {
      JudgedAt(a, q - {k}, r, a.Keys, j);
      JudgedAt(a, q, r, a.Keys, j);
    }
    SameEverywhere(x, y);
  }
}
