/** What the store never throws away: whatever a commit, an invalidation or a recovery moves is found where it
    was moved to, and nothing else changes. */
module StoreEvidence {
  import opened RetryPolicy
  import opened Store
  import opened DataDirectory

  // ================= writing a file =================

  /** Until the rename a file is as it was, then it has the new bytes; only the temporary file is ever torn. */
  lemma {:induction false} WriteIsAtomic(dir: Dir, file: File, data: Bytes, torn: Bytes, serial: nat, n: nat)
    requires !file.Temp?
    ensures var after := Written(dir, file, data, torn, serial, n);
            && (n < 3 ==> (file in after <==> file in dir) && (file in dir ==> after[file] == dir[file]))
            && (n >= 3 ==> file in after && after[file] == data && Temp(file, serial) !in after)
            && (n == 1 ==> Temp(file, serial) in after && after[Temp(file, serial)] == torn)
            && (n == 2 ==> Temp(file, serial) in after && after[Temp(file, serial)] == data)
            && (n == 0 ==> after == dir)
            && forall f | f != file && f != Temp(file, serial) ::
                 (f in after <==> f in dir) && (f in dir ==> after[f] == dir[f])
  {
  }

  /** The staging directory: the artifact is written first, the manifest after it, and what was there before
      stays. */
  lemma {:induction false} StagedInOrder(dir: Dir, c: Commit, n: nat)
    ensures var after := Staged(dir, c, n);
            && (n < 3 ==> (Rai in after <==> Rai in dir) && (Rai in dir ==> after[Rai] == dir[Rai]))
            && (n >= 3 ==> Rai in after && after[Rai] == c.rai)
            && (n < 6 ==> (Json in after <==> Json in dir) && (Json in dir ==> after[Json] == dir[Json]))
            && (n >= 6 ==>
                  && Json in after
                  && after[Json] == Rendered(Manifest(c.key, c.source, Sha(c.rai), c.recipe, c.target))
                  && Temp(Rai, c.serial) !in after && Temp(Json, c.serial) !in after)
            && forall f | f != Rai && f != Json && f != Temp(Rai, c.serial) && f != Temp(Json, c.serial) ::
                 (f in after <==> f in dir) && (f in dir ==> after[f] == dir[f])
  {
    hide Written;
    WriteIsAtomic(dir, Rai, c.rai, c.torn, c.serial, if n <= 3 then n else 3);
    if n > 3 {
      WriteIsAtomic(Staged(dir, c, 3), Json, Rendered(ManifestOf(c)), c.torn, c.serial, n - 3);
    }
  }

  // ================= commits and invalidations =================

  /** A directory in the way of a commit is found under the failures, with its content. */
  lemma {:induction false} CollisionIsKept(d: Disk, c: Commit, n: nat)
    ensures n >= 1 && c.key in d.artifacts ==>
              After(d, c, n).failures == d.failures[Colliding(c.key, c.at) := d.artifacts[c.key]]
    ensures n == 0 || c.key !in d.artifacts ==> After(d, c, n).failures == d.failures
    ensures After(d, c, n).quarantine == d.quarantine && After(d, c, n).jobs == d.jobs
  {
    hide After;
    FailuresOfCommit(d, c, n);
    OthersOfCommit(d, c, n);
  }

  lemma {:induction false} FailuresOfCommit(d: Disk, c: Commit, n: nat)
    ensures After(d, c, n).failures == if n >= 1 && c.key in d.artifacts then
                                         d.failures[Colliding(c.key, c.at) := d.artifacts[c.key]]
                                       else d.failures
  {
    hide Staged, StagingDir, RowOf;
    if n == 0 {
    } else if n == 1 {
    } else if n <= 8 {
    } else {
    }
  }

  lemma {:induction false} OthersOfCommit(d: Disk, c: Commit, n: nat)
    ensures After(d, c, n).quarantine == d.quarantine && After(d, c, n).jobs == d.jobs
  {
    hide Staged, StagingDir, RowOf;
    if n == 0 {
    } else if n == 1 {
    } else if n <= 8 {
    } else {
    }
  }

  /** The staging directory is there from the second step to the eighth, the artifact from the ninth and its row from
      the tenth on. */
  lemma {:induction false} CommitGoesOn(d: Disk, c: Commit, n: nat)
    ensures var after := After(d, c, n);
            && (n < 2 ==> after.work == d.work) && (2 <= n <= 8 ==> Staging(c.uuid) in after.work)
            && (n >= 9 ==> Staging(c.uuid) !in after.work && c.key in after.artifacts)
            && (1 <= n <= 8 ==> c.key !in after.artifacts)
            && after.rows == (if n >= 10 then d.rows[c.key := Artifact(c.source, Sha(c.rai), c.recipe, c.target)]
                              else d.rows)
            && forall other | other != Staging(c.uuid) ::
                 (other in after.work <==> other in d.work)
                 && (other in d.work ==> after.work[other] == d.work[other])
  {
    hide Staged, StagingDir, After;
    Tables(d, c, n);
    WorkOfCommit(d, c, n);
  }

  lemma {:induction false} WorkOfCommit(d: Disk, c: Commit, n: nat)
    ensures After(d, c, n).work == if n < 2 then d.work
                                   else if n <= 8 then d.work[Staging(c.uuid) := Staged(StagingDir(d, c), c, n - 2)]
                                   else d.work - {Staging(c.uuid)}
  {
    hide Staged, StagingDir;
  }

  /** The directory that is put in place is the staging directory with both files in it. */
  lemma {:induction false} CommittedIsStaged(d: Disk, c: Commit, n: nat)
    requires n >= 2
    ensures var dir := if Staging(c.uuid) in d.work then d.work[Staging(c.uuid)] else map[];
            && (n <= 8 ==> After(d, c, n).work[Staging(c.uuid)] == Staged(dir, c, n - 2))
            && (n >= 9 ==> After(d, c, n).artifacts[c.key] == Staged(dir, c, 6))
  {
    hide Staged;
  }

  /** A stale artifact is found under the failures before its row is dropped. */
  lemma {:induction false} DropKeeps(d: Disk, key: Key, at: nat, n: nat)
    ensures n == 0 ==> Dropped(d, key, at, n) == d
    ensures n >= 1 && key in d.artifacts ==>
              && Dropped(d, key, at, n).failures == d.failures[Stale(key, at) := d.artifacts[key]]
              && Dropped(d, key, at, n).artifacts == d.artifacts - {key}
    ensures n >= 1 ==> key !in Dropped(d, key, at, n).artifacts
    ensures n == 1 ==> Dropped(d, key, at, n).rows == d.rows
    ensures n >= 2 ==> Dropped(d, key, at, n).rows == d.rows - {key}
    ensures key !in d.artifacts ==>
              Dropped(d, key, at, n).failures == d.failures && Dropped(d, key, at, n).artifacts == d.artifacts
  {
  }

  // ================= recovery =================

  /** Where recovery puts a scratch or staging directory: the scratch of a finished job stays, that of any other
      job the registry knows is stranded, and the rest are orphans; each with its content. */
  lemma {:induction false} WorkIsKept(d: Disk, n: WorkName)
    requires n in d.work
    ensures var known := n.Scratch? && n.uuid in d.jobs;
            var after := Recover(d);
            if known && IsTerminal(d.jobs[n.uuid]) then n in after.work && after.work[n] == d.work[n]
            else
              var place := if known then Stranded(n.uuid) else Orphan(n);
              n !in after.work && place in after.failures && after.failures[place] == d.work[n]
  {
    hide JudgedArtifacts, JudgedRows, JudgedQuarantine, SweptJobs, SweptFailures;
    var place := Destination(d.jobs, n);
    MovedAt(d.work, d.failures, d.jobs, d.work.Keys, place);
    assert !Stays(d.jobs, n) ==> place in Moved(d.work, d.jobs, d.work.Keys);
  }

  /** What was under the failures before stays there unless a directory of the same name replaces it. */
  lemma {:induction false} FailuresAreKept(d: Disk, f: FailureName)
    requires f in d.failures
    ensures f in Recover(d).failures
    ensures Recover(d).failures[f] == d.failures[f]
            || ((f.Stranded? || f.Orphan?) && Origin(f) in d.work && Recover(d).failures[f] == d.work[Origin(f)])
  {
    hide JudgedArtifacts, JudgedRows, JudgedQuarantine, SweptJobs, SweptWork, SweptFailures;
    MovedAt(d.work, d.failures, d.jobs, d.work.Keys, f);
  }

  /** A job is marked interrupted exactly if it was live and its scratch was there. */
  lemma {:induction false} JobsAreMarked(d: Disk, u: Uuid)
    requires u in d.jobs
    ensures u in Recover(d).jobs
    ensures Recover(d).jobs[u] == if Scratch(u) in d.work && !IsTerminal(d.jobs[u]) then Interrupted else d.jobs[u]
  {
    hide JudgedArtifacts, JudgedRows, JudgedQuarantine, SweptWork, SweptFailures;
  }

  /** An artifact directory stays exactly if it has a row, or holds the manifest of its own key, a named source
      and recipe, and the artifact that manifest describes, and then it gets that row; any other is in
      quarantine, with its content. */
  lemma {:induction false} ArtifactsAreKept(d: Disk, key: Key)
    requires key in d.artifacts
    ensures var dir, after := d.artifacts[key], Recover(d);
            var genuine := Json in dir && dir[Json].Rendered? && dir[Json].manifest.key == key && Rai in dir
                           && Sha(dir[Rai]) == dir[Json].manifest.artifact
                           && dir[Json].manifest.source != "" && dir[Json].manifest.recipe != "";
            && (key in after.artifacts <==> key in d.rows || genuine)
            && (key in after.artifacts ==> after.artifacts[key] == dir)
            && (key !in d.rows && genuine ==>
                  && key in after.rows
                  && after.rows[key] == Artifact(dir[Json].manifest.source, Sha(dir[Rai]), dir[Json].manifest.recipe,
                                                 dir[Json].manifest.target))
            && (key !in after.artifacts ==>
                  key in after.quarantine && after.quarantine[key] == dir && key !in after.rows)
  {
    hide JudgedArtifacts, JudgedRows, JudgedQuarantine, SweptWork, SweptFailures, SweptJobs;
    var swept := Swept(d, d.work.Keys);
    JudgedAt(swept.artifacts, swept.quarantine, swept.rows, swept.artifacts.Keys, key);
  }

  /** How recovery deals with the scratch of a live job: it is marked first, what is in its way goes next, and the
      directory is moved last. */
  lemma {:induction false} SweepGoesOn(d: Disk, u: Uuid, cut: nat)
    requires Scratch(u) in d.work && u in d.jobs && !IsTerminal(d.jobs[u])
    ensures cut == 0 ==> SweepCut(d, Scratch(u), cut) == d
    ensures cut == 1 ==> SweepCut(d, Scratch(u), cut) == d.(jobs := d.jobs[u := Interrupted])
    ensures cut == 2 ==>
              SweepCut(d, Scratch(u), cut) ==
              d.(jobs := d.jobs[u := Interrupted], failures := d.failures - {Stranded(u)})
    ensures cut >= 3 ==>
              SweepCut(d, Scratch(u), cut) ==
              d.(jobs := d.jobs[u := Interrupted], work := d.work - {Scratch(u)},
                 failures := d.failures[Stranded(u) := d.work[Scratch(u)]])
  {
  }

  /** And with an artifact directory that is not adopted: what is in quarantine under its key goes first. */
  lemma {:induction false} JudgementGoesOn(d: Disk, k: Key, cut: nat)
    requires k in d.artifacts && k !in d.rows && !Adoptable(k, d.artifacts[k])
    ensures var after := JudgeCut(d, k, cut);
            && (cut == 0 ==> after == d)
            && (cut == 1 ==> after == d.(quarantine := d.quarantine - {k}))
            && (cut >= 2 ==> k !in after.artifacts && k in after.quarantine && after.quarantine[k] == d.artifacts[k])
  {
    hide Adoptable;
  }

  // ================= all runs =================

  /** Some invalidation of the key was cut between its two steps, and none was completed since. */
  ghost predicate CutShort(ops: seq<Op>, key: Key) {
    exists i | 0 <= i < |ops| ::
      && ops[i].Invalidating? && ops[i].key == key && ops[i].n == 1
      && forall j | i < j < |ops| :: !(ops[j].Invalidating? && ops[j].key == key && ops[j].n >= 2)
  }

  lemma {:induction false} DanglingWasCut(ops: seq<Op>, key: Key)
    requires key in Run(ops).1
    ensures CutShort(ops, key)
  {
    hide Done;
    var init, op := ops[..|ops| - 1], ops[|ops| - 1];
    assert Run(ops).1 == Dangling(Run(init).0, Run(init).1, op);
    if op.Invalidating? && op.key == key && op.n == 1 {
      assert ops[|ops| - 1].Invalidating?;
    } else {
      DanglingWasCut(init, key);
      var i :| 0 <= i < |init| && init[i].Invalidating? && init[i].key == key && init[i].n == 1
               && forall j | i < j < |init| :: !(init[j].Invalidating? && init[j].key == key && init[j].n >= 2);
      assert ops[i] == init[i] && forall j | i < j < |init| :: ops[j] == init[j];
    }
  }

  /** After any run every artifact directory has a row that names its digest, and every row has its directory
      unless an invalidation of its key was cut between its two steps and not completed since. */
  lemma {:induction false} RunsSay(ops: seq<Op>, key: Key)
    ensures var d := Run(ops).0;
            && (key in d.artifacts ==>
                  key in d.rows && Rai in d.artifacts[key] && Sha(d.artifacts[key][Rai]) == d.rows[key].sha)
            && (key in d.rows && key !in d.artifacts ==> CutShort(ops, key))
  {
    hide Run, CutShort;
    RunsStayConsistent(ops);
    assert ConsistentAt(Run(ops).0, Run(ops).1, key);
    if key in Run(ops).1 {
      DanglingWasCut(ops, key);
    }
  }
}
