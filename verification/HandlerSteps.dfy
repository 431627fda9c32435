/** What the worker's handler does to the repository, step by step, in terms of the step machine and in terms
    of the rows it leaves. */
module HandlerSteps {
  import opened Events
  import opened SequenceValidator
  import opened Store
  import opened Frames
  import opened ReplayProtocol
  import opened NoLineSkipped
  import opened Cancellation

  /** The repository holds what the step machine says about job `id`. */
  ghost predicate Mirrors(r: Repo, id: string, s: System) {
    && id in r.jobs && r.jobs[id] == s.job && s.job.id == id
    && At(r.metrics, id) == s.metrics && At(r.errors, id) == s.errors
    && s.job.eventFileID in r.files && r.files[s.job.eventFileID].rows == s.fileRows
  }

  /** The context is done, with this cause, before row `row` is read. */
  datatype Interrupt = Interrupt(row: nat, cause: Cause)

  /** Steps and faults of attempt `i` and nothing else. */
  predicate Own(acts: seq<Action>, i: nat) {
    forall k {:trigger IsOwn(acts[k], i)} :: 0 <= k < |acts| ==> IsOwn(acts[k], i)
  }

  predicate IsOwn(act: Action, i: nat) {
    (act.Work? || act.Fault?) && act.i == i
  }

  /** Two runs of attempt `i` in a row. */
  lemma OwnThen(cfg: Config, s: System, a: seq<Action>, b: seq<Action>, i: nat)
    requires Own(a, i) && Own(b, i)
    ensures Own(a + b, i) && Run(cfg, s, a + b) == Run(cfg, Run(cfg, s, a), b)
  {
    RunAppend(cfg, s, a, b);
    forall k | 0 <= k < |a + b| ensures IsOwn((a + b)[k], i) {
      assert k < |a| ==> IsOwn(a[k], i);
      assert k >= |a| ==> IsOwn(b[k - |a|], i);
    }
  }

  lemma RunSnoc(cfg: Config, s: System, acts: seq<Action>, a: Action)
    ensures Run(cfg, s, acts + [a]) == Step(cfg, Run(cfg, s, acts), a)
  {
    RunAppend(cfg, s, acts, [a]);
    assert [a][1..] == [];
  }

  /** Attempt `i` is inside the file with validator state `v` after `pos` rows. */
  ghost predicate Inside(cfg: Config, s: System, i: nat, pos: nat, resume: int, v: View) {
    && i < |s.attempts| && pos <= |cfg.file|
    && s.attempts[i].pos == pos && s.attempts[i].resume == resume && s.attempts[i].seen == v
  }

  /** Rewriting the job row in the store and in the step machine agree. */
  lemma RewriteMirrors(r: Repo, id: string, s: System, t: System, job: Job)
    requires Mirrors(r, id, s) && t.job == job && job.id == id && job.eventFileID == s.job.eventFileID
    requires t.metrics == s.metrics && t.errors == s.errors && t.fileRows == s.fileRows
    ensures Mirrors(r.(jobs := r.jobs[id := job]), id, t)
  {
  }

  lemma CheckpointSteps(cfg: Config, s: System, i: nat, mid: System, t: System)
    requires cfg.every > 0 && i < |s.attempts| && 0 < s.attempts[i].pos <= |cfg.file| && s.attempts[i].pc.Checkpointing?
    requires mid == Step(cfg, s, Work(i, 0)) && t == Step(cfg, mid, Work(i, 0))
    ensures mid.job == WithCheckpoint(s.job, cfg.file[s.attempts[i].pos - 1].line)
    ensures mid.metrics == s.metrics && mid.errors == s.errors && mid.fileRows == s.fileRows
    ensures t.job == mid.job && t.metrics == s.metrics && t.errors == s.errors && t.fileRows == s.fileRows
    ensures |t.attempts| == |s.attempts|
    ensures t.attempts[i]
            == s.attempts[i].(pc := if mid.job.status == Canceled then Failing(ContextCanceled) else Scanning)
    ensures Run(cfg, s, [Work(i, 0), Work(i, 0)]) == t
  {
    RunOne(cfg, s, Work(i, 0));
    RunSnoc(cfg, s, [Work(i, 0)], Work(i, 0));
    assert [Work(i, 0)] + [Work(i, 0)] == [Work(i, 0), Work(i, 0)];
  }

  /** Between `was` and `r` only the checkpoint of job `id` moved, if at all to a boundary line of the file. */
  ghost predicate OnlyCheckpointed(was: Repo, r: Repo, id: string, cfg: Config) {
    && id in was.jobs && id in r.jobs && cfg.every > 0
    && r.jobs[id] == was.jobs[id].(checkpointLine := r.jobs[id].checkpointLine)
    && r.jobs[id].checkpointLine >= was.jobs[id].checkpointLine
    && (r.jobs[id].checkpointLine != was.jobs[id].checkpointLine ==> Boundary(cfg, r.jobs[id].checkpointLine))
    && r == was.(jobs := r.jobs)
  }

  /** A line of the file at which checkpoints are written. */
  predicate Boundary(cfg: Config, line: int)
    requires cfg.every > 0
  {
    line % cfg.every == 0 && line <= LastLine(cfg)
  }

  lemma CheckpointedOnly(was: Repo, r: Repo, id: string, cfg: Config, line: int)
    requires id in was.jobs && id in r.jobs && cfg.every > 0 && r == was.(jobs := r.jobs) && Boundary(cfg, line)
    requires CheckpointWritten(r.jobs[id], was.jobs[id], line)
    ensures OnlyCheckpointed(was, r, id, cfg)
  {
  }

  lemma OnlyCheckpointedTrans(r: Repo, s: Repo, t: Repo, id: string, cfg: Config)
    requires OnlyCheckpointed(r, s, id, cfg) && OnlyCheckpointed(s, t, id, cfg)
    ensures OnlyCheckpointed(r, t, id, cfg)
  {
  }

  lemma RowInFile(cfg: Config, n: nat)
    requires ValidConfig(cfg) && n < |cfg.file|
    ensures cfg.file[n].line <= LastLine(cfg)
  {
  }

  /** Reading row `n` in the step machine. */
  lemma ReadStep(cfg: Config, r: Repo, id: string, s: System, i: nat, n: nat, resume: int, v: View) returns (t: System)
    requires cfg.every > 0 && Mirrors(r, id, s) && Inside(cfg, s, i, n, resume, v) && n < |cfg.file|
    requires s.attempts[i].pc.Scanning?
    ensures t == Run(cfg, s, [Work(i, 0)]) && Mirrors(r, id, t)
    ensures Inside(cfg, t, i, n + 1, resume, ScanRow(cfg, resume, v, cfg.file[n]))
    ensures t.attempts[i].pc
            == if cfg.file[n].line > resume && cfg.file[n].line % cfg.every == 0 then Checkpointing else Scanning
  {
    RunOne(cfg, s, Work(i, 0));
    t := Step(cfg, s, Work(i, 0));
  }

  datatype FileOutcome = EndOfFile | Broken(cause: Cause)

  /** An error while scanning sends the attempt to `Failing`; the store stays as it is. */
  lemma FaultWhileScanning(cfg: Config, r: Repo, id: string, s: System, acts: seq<Action>, i: nat, cause: Cause)
    requires var t := Run(cfg, s, acts); i < |t.attempts| && t.attempts[i].pc.Scanning? && Mirrors(r, id, t)
    ensures Own(acts, i) ==> Own(acts + [Fault(i, cause)], i)
    ensures var t := Run(cfg, s, acts + [Fault(i, cause)]);
            && i < |t.attempts| && t.attempts[i] == Run(cfg, s, acts).attempts[i].(pc := Failing(cause))
              && Mirrors(r, id, t)
  {
    RunSnoc(cfg, s, acts, Fault(i, cause));
    OwnSnoc(acts, Fault(i, cause), i);
  }

  /** At the end of the file the attempt moves on to the final checkpoint. */
  lemma EndWhileScanning(cfg: Config, r: Repo, id: string, s: System, acts: seq<Action>, i: nat)
    requires cfg.every > 0
    requires var t := Run(cfg, s, acts);
             i < |t.attempts| && t.attempts[i].pc.Scanning? && t.attempts[i].pos == |cfg.file| && Mirrors(r, id, t)
    ensures Own(acts, i) ==> Own(acts + [Work(i, 0)], i)
    ensures var t := Run(cfg, s, acts + [Work(i, 0)]);
            && i < |t.attempts| && t.attempts[i] == Run(cfg, s, acts).attempts[i].(pc := FinalCheckpointing)
              && Mirrors(r, id, t)
  {
    RunSnoc(cfg, s, acts, Work(i, 0));
    OwnSnoc(acts, Work(i, 0), i);
  }

  lemma OwnSnoc(acts: seq<Action>, act: Action, i: nat)
    requires IsOwn(act, i)
    ensures Own(acts, i) ==> Own(acts + [act], i)
  {
    if Own(acts, i) {
      forall k | 0 <= k < |acts + [act]| ensures IsOwn((acts + [act])[k], i) {
        assert k < |acts| ==> IsOwn(acts[k], i);
      }
    }
  }

  /** Attempt `i` has read `n` rows by `acts`, and the store differs from `was` only as that explains. */
  ghost predicate Midway(cfg: Config, was: Repo, r: Repo, id: string, s: System, acts: seq<Action>, i: nat, n: nat,
                         resume: int, v: View) {
    && Mirrors(r, id, Run(cfg, s, acts)) && Own(acts, i) && Framed(was, r, id)
    && Inside(cfg, Run(cfg, s, acts), i, n, resume, v) && Run(cfg, s, acts).attempts[i].pc.Scanning?
    && v == Scan(cfg, resume, n) && v.rows <= n
  }

  /** The context is done while scanning: the attempt fails, the store stays as it is. */
  lemma FaultMidway(cfg: Config, was: Repo, r: Repo, id: string, s: System, acts: seq<Action>, i: nat, n: nat,
                    resume: int, v: View, cause: Cause)
    requires Midway(cfg, was, r, id, s, acts, i, n, resume, v)
    ensures Stopped(cfg, was, r, id, s, acts + [Fault(i, cause)], i, cause)
  {
    FaultWhileScanning(cfg, r, id, s, acts, i, cause);
  }

  /** Attempt `i` has left the file by `acts` and is about to record `cause`. */
  ghost predicate Stopped(cfg: Config, was: Repo, r: Repo, id: string, s: System, acts: seq<Action>, i: nat,
                          cause: Cause) {
    var t := Run(cfg, s, acts);
    && Mirrors(r, id, t) && Own(acts, i) && Framed(was, r, id)
    && i < |t.attempts| && t.attempts[i].pc == Failing(cause) && t.attempts[i].pos <= |cfg.file|
  }

  /** Attempt `i` goes on scanning after `n` rows, or is about to record why it stopped; either way the store
      differs from `was` only in the job's checkpoint. */
  ghost predicate InScan(stopped: Option<Cause>, cfg: Config, was: Repo, r: Repo, id: string, s: System,
                         acts: seq<Action>, i: nat, n: nat, resume: int, v: View) {
    match stopped
    case None => Midway(cfg, was, r, id, s, acts, i, n, resume, v) && OnlyCheckpointed(was, r, id, cfg)
    case Some(cause) => Stopped(cfg, was, r, id, s, acts, i, cause) && OnlyCheckpointed(was, r, id, cfg)
  }

  lemma ScanStarts(cfg: Config, r: Repo, id: string, s: System, i: nat, resume: int)
    requires Mirrors(r, id, s) && Inside(cfg, s, i, 0, resume, FRESH) && s.attempts[i].pc.Scanning? && cfg.every > 0
    ensures InScan(None, cfg, r, r, id, s, [], i, 0, resume, FRESH)
  {
    FramedRefl(r, id);
  }

  /** One more row, read by `more`. */
  lemma RowScanned(canceled: bool, cfg: Config, was: Repo, before: Repo, r: Repo, id: string, s: System,
                   acts: seq<Action>, more: seq<Action>, i: nat, n: nat, resume: int, v: View)
    requires InScan(None, cfg, was, before, id, s, acts, i, n, resume, v) && n < |cfg.file|
    requires Mirrors(r, id, Run(cfg, Run(cfg, s, acts), more)) && Own(more, i) && Framed(before, r, id)
    requires OnlyCheckpointed(before, r, id, cfg)
    requires var t := Run(cfg, Run(cfg, s, acts), more);
             && Inside(cfg, t, i, n + 1, resume, ScanRow(cfg, resume, v, cfg.file[n]))
             && t.attempts[i].pc == if canceled then Failing(ContextCanceled) else Scanning
    ensures InScan(if canceled then Some(ContextCanceled) else None, cfg, was, r, id, s, acts + more, i, n + 1, resume,
                ScanRow(cfg, resume, v, cfg.file[n]))
  {
    OwnThen(cfg, s, acts, more, i);
    FramedTrans(was, before, r, id);
    OnlyCheckpointedTrans(was, before, r, id, cfg);
    ScanNext(cfg, resume, n);
    ScanRowRows(cfg, resume, v, cfg.file[n]);
  }

  lemma ScanInterrupted(cfg: Config, was: Repo, r: Repo, id: string, s: System, acts: seq<Action>, i: nat, n: nat,
                        resume: int, v: View, cause: Cause)
    requires InScan(None, cfg, was, r, id, s, acts, i, n, resume, v)
    ensures InScan(Some(cause), cfg, was, r, id, s, acts + [Fault(i, cause)], i, n, resume, v)
  {
    FaultMidway(cfg, was, r, id, s, acts, i, n, resume, v, cause);
  }

  /** The cause of an interruption that comes no later than the end of the file. */
  function Interrupted(interrupt: Option<Interrupt>, cfg: Config): Option<Cause> {
    if interrupt.Some? && interrupt.value.row <= |cfg.file| then Some(interrupt.value.cause) else None
  }

  predicate DoneBefore(interrupt: Option<Interrupt>, n: nat) {
    interrupt.Some? && interrupt.value.row == n
  }

  // ----- After the scan -----

  /** The four writes after the scan, in the store and in the step machine. */
  lemma CheckpointMirrors(r: Repo, id: string, cfg: Config, s: System, i: nat)
    requires Mirrors(r, id, s) && i < |s.attempts| && s.attempts[i].pos <= |cfg.file| && cfg.every > 0
    requires s.attempts[i].pc.FinalCheckpointing?
    ensures var a, t := s.attempts[i], Step(cfg, s, Work(i, 0));
            && |t.attempts| == |s.attempts| && t.attempts[i] == a.(pc := SavingStats)
            && t.job.eventFileID == s.job.eventFileID
            && Mirrors(Apply(r, UpdateCheckpoint(id, RowsOf(cfg, a))), id, t)
  {
  }

  lemma StatsMirrors(r: Repo, id: string, cfg: Config, s: System, i: nat, sha256: string, bytes: int)
    requires Mirrors(r, id, s) && i < |s.attempts| && s.attempts[i].pos <= |cfg.file| && cfg.every > 0
    requires s.attempts[i].pc.SavingStats? && RowsOf(cfg, s.attempts[i]) >= 0
    ensures var a, t := s.attempts[i], Step(cfg, s, Work(i, 0));
            && |t.attempts| == |s.attempts| && t.attempts[i] == a.(pc := SavingManifest)
            && t.job.eventFileID == s.job.eventFileID
            && Mirrors(Apply(r, UpdateFileStats(s.job.eventFileID, sha256, RowsOf(cfg, a), bytes)), id, t)
  {
  }

  lemma ManifestMirrors(r: Repo, id: string, cfg: Config, s: System, i: nat)
    requires Mirrors(r, id, s) && i < |s.attempts| && s.attempts[i].pos <= |cfg.file| && cfg.every > 0
    requires s.attempts[i].pc.SavingManifest?
    ensures var a, t := s.attempts[i], Step(cfg, s, Work(i, 0));
            && |t.attempts| == |s.attempts| && t.attempts[i] == a.(pc := Completing)
            && t.job.eventFileID == s.job.eventFileID
            && Mirrors(Apply(r, UpdateManifest(id, ManifestOf(RowsOf(cfg, a), a.resume, a.seen))), id, t)
  {
  }

  lemma CompleteMirrors(r: Repo, id: string, cfg: Config, s: System, i: nat, now: nat)
    requires Mirrors(r, id, s) && i < |s.attempts| && s.attempts[i].pos <= |cfg.file| && cfg.every > 0
    requires s.attempts[i].pc.Completing?
    ensures var a, t := s.attempts[i], Step(cfg, s, Work(i, now));
            && |t.attempts| == |s.attempts| && t.attempts[i].pc == Ended(Finished)
            && Mirrors(Apply(r, CompleteJob(id, MetricOf(RowsOf(cfg, a), a.seen), ToErrors(id, a.seen.failures), now)),
              id, t)
  {
  }

  lemma RowsUnmoved(cfg: Config, a: Attempt, pc: Pc)
    requires a.pos <= |cfg.file|
    ensures RowsOf(cfg, a.(pc := pc)) == RowsOf(cfg, a)
  {
  }

  /** The manifest of a scan from `resume` that ended at line `rows` with validator state `v`. */
  predicate Described(m: Manifest, rows: int, resume: int, v: View) {
    m == Manifest(inputRows := rows, checkpointLine := rows, resumeFromLine := resume, errorCount := |v.failures|,
        malformedEvents := CountKind(Malformed, v.failures), sequenceGaps := CountKind(SequenceGap, v.failures))
  }

  /** The metric of such a scan. */
  predicate Measured(m: Metric, rows: int, v: View) {
    m == Metric(rows := rows, events := v.events, malformedEvents := CountKind(Malformed, v.failures),
        sequenceGaps := CountKind(SequenceGap, v.failures))
  }

  /** `after` is `before` and one error for each failure in `fs`. */
  ghost predicate AddsFailures(before: seq<ValidationError>, after: seq<ValidationError>, fs: seq<Failure>, id: string,
                               now: nat) {
    |before| <= |after| && after[..|before|] == before && StoresFailures(after[|before|..], fs, id, now)
  }

  lemma StampedFailures(before: seq<ValidationError>, after: seq<ValidationError>, es: seq<ValidationError>,
                        fs: seq<Failure>, id: string, now: nat)
    requires AddsStamped(before, after, es, id, now) && StoresFailures(es, fs, id, 0)
    ensures AddsFailures(before, after, fs, id, now)
  {
    forall k | 0 <= k < |fs| ensures StoresFailure(after[|before|..][k], fs[k], id, now) {
      assert StoresFailure(es[k], fs[k], id, 0);
      assert Stamped(after[|before| + k], es[k], id, now);
    }
  }

  /** Between `was` and `r` job `id` was completed with the metric and the errors of `v`. */
  ghost predicate CompletedWith(was: Repo, r: Repo, id: string, rows: int, v: View, now: nat) {
    && id in was.jobs && id in r.jobs && r.files == was.files
    && r.jobs[id] == was.jobs[id].(status := Completed)
    && AddsMetric(At(was.metrics, id), At(r.metrics, id), rows, v)
    && AddsFailures(At(was.errors, id), At(r.errors, id), v.failures, id, now)
  }

  predicate AddsMetric(before: seq<Metric>, after: seq<Metric>, rows: int, v: View) {
    |after| == |before| + 1 && after[..|before|] == before && Measured(after[|before|], rows, v)
  }

  lemma CompletingCompletes(was: Repo, id: string, metric: Metric, es: seq<ValidationError>, rows: int, v: View,
                            now: nat)
    requires id in was.jobs && Measured(metric, rows, v) && StoresFailures(es, v.failures, id, 0)
    ensures CompletedWith(was, Apply(was, CompleteJob(id, metric, es, now)), id, rows, v, now)
  {
    var before := At(was.errors, id);
    StampAdds(before, es, id, now);
    StampedFailures(before, before + Stamp(id, now, es), es, v.failures, id, now);
    assert AddsMetric(At(was.metrics, id), At(was.metrics, id) + [metric], rows, v);
  }

  lemma CompleteEffect(was: Repo, id: string, cfg: Config, s: System, i: nat, metric: Metric,
                       es: seq<ValidationError>, now: nat)
    requires Mirrors(was, id, s) && i < |s.attempts| && s.attempts[i].pos <= |cfg.file| && cfg.every > 0
    requires s.attempts[i].pc.Completing?
    requires metric == MetricOf(RowsOf(cfg, s.attempts[i]), s.attempts[i].seen)
    requires es == ToErrors(id, s.attempts[i].seen.failures) && StoresFailures(es, s.attempts[i].seen.failures, id, 0)
    ensures var a, r, t := s.attempts[i], Apply(was, CompleteJob(id, metric, es, now)), Step(cfg, s, Work(i, now));
            && |t.attempts| == |s.attempts| && t.attempts[i].pc == Ended(Finished) && Mirrors(r, id, t)
            && Framed(was, r, id) && CompletedWith(was, r, id, RowsOf(cfg, a), a.seen, now)
  {
    CompleteMirrors(was, id, cfg, s, i, now);
    ApplyFrames(was, CompleteJob(id, metric, es, now), id);
    CompletingCompletes(was, id, metric, es, RowsOf(cfg, s.attempts[i]), s.attempts[i].seen, now);
  }

  /** Hash and size of the file as read. */
  datatype FileStats = FileStats(sha256: string, bytes: int)

  /** Between `was` and `r` the file was given this row count and these statistics. */
  predicate FileCounted(was: Repo, r: Repo, fileID: string, rows: int, stats: FileStats) {
    && fileID in was.files && fileID in r.files
    && StatsWritten(r.files[fileID], was.files[fileID], stats.sha256, rows, stats.bytes)
  }

  /** Between `was` and `r` job `id` was checkpointed at line `rows` and its file was given that row count. */
  ghost predicate ProgressSaved(was: Repo, r: Repo, id: string, rows: int, stats: FileStats) {
    && id in was.jobs && id in r.jobs && CheckpointWritten(r.jobs[id], was.jobs[id], rows)
    && FileCounted(was, r, was.jobs[id].eventFileID, rows, stats)
    && r.metrics == was.metrics && r.errors == was.errors
  }

  /** Between `was` and `r` job `id` was given its manifest and completed. */
  ghost predicate ResultsSaved(was: Repo, r: Repo, id: string, rows: int, resume: int, v: View, now: nat) {
    && id in was.jobs && id in r.jobs && r.files == was.files
    && r.jobs[id] == was.jobs[id].(status := Completed, manifest := r.jobs[id].manifest)
    && Described(r.jobs[id].manifest, rows, resume, v)
    && AddsMetric(At(was.metrics, id), At(r.metrics, id), rows, v)
    && AddsFailures(At(was.errors, id), At(r.errors, id), v.failures, id, now)
  }

  /** Between `was` and `r` job `id` was completed by a scan of the whole file from line `resume` that left the
      validator at `v`: the checkpoint, the manifest, the metric and the file's row count give the last line. */
  ghost predicate ReplayFinished(start: Job, was: Repo, r: Repo, id: string, cfg: Config, stats: FileStats,
                                 resume: int, v: View, now: nat) {
    && id in r.jobs
    && r.jobs[id] == start.(status := Completed, checkpointLine := Later(start.checkpointLine, LastLine(cfg)),
        manifest := r.jobs[id].manifest)
    && Described(r.jobs[id].manifest, LastLine(cfg), resume, v)
    && FileCounted(was, r, start.eventFileID, LastLine(cfg), stats)
    && AddsMetric(At(was.metrics, id), At(r.metrics, id), LastLine(cfg), v)
    && AddsFailures(At(was.errors, id), At(r.errors, id), v.failures, id, now)
  }

  function Later(a: int, b: int): int {
    if a > b then a else b
  }

  lemma SavedFinishes(was: Repo, mid: Repo, r: Repo, id: string, cfg: Config, stats: FileStats, resume: int, v: View,
                      now: nat)
    requires ProgressSaved(was, mid, id, LastLine(cfg), stats)
    requires ResultsSaved(mid, r, id, LastLine(cfg), resume, v, now)
    ensures ReplayFinished(was.jobs[id], was, r, id, cfg, stats, resume, v, now)
  {
  }

  /** Checkpoints on the way do not change what a finished replay leaves. */
  lemma CheckpointedFinishes(was: Repo, mid: Repo, r: Repo, id: string, cfg: Config, stats: FileStats, resume: int,
                             v: View, now: nat)
    requires OnlyCheckpointed(was, mid, id, cfg)
    requires ReplayFinished(mid.jobs[id], mid, r, id, cfg, stats, resume, v, now)
    ensures ReplayFinished(was.jobs[id], was, r, id, cfg, stats, resume, v, now)
  {
  }

  function FinalSteps(i: nat, now: nat): seq<Action> {
    [Work(i, 0), Work(i, 0), Work(i, 0), Work(i, now)]
  }

  lemma FinalStepsOwn(i: nat, now: nat)
    ensures Own(FinalSteps(i, now), i)
  {
  }

  lemma FourSteps(cfg: Config, s: System, acts: seq<Action>)
    requires |acts| == 4
    ensures Run(cfg, s, acts) == Step(cfg, Step(cfg, Step(cfg, Step(cfg, s, acts[0]), acts[1]), acts[2]), acts[3])
  {
    RunOne(cfg, s, acts[0]);
    RunSnoc(cfg, s, acts[..1], acts[1]);
    RunSnoc(cfg, s, acts[..2], acts[2]);
    RunSnoc(cfg, s, acts[..3], acts[3]);
    assert acts[..1] == [acts[0]] && acts[..1] + [acts[1]] == acts[..2] && acts[..2] + [acts[2]] == acts[..3]
      && acts[..3] + [acts[3]] == acts;
  }

  /** The failure of a delivery with retry count `retried` has been written over the job `was`; only a failure
      below the limit that is not a canceled context is retried. */
  predicate FailureRecorded(outcome: Outcome, job: Job, was: Job, cause: Cause, retried: nat, maxRetry: nat) {
    && job.status == (if retried >= maxRetry then DeadLetter else Failed)
    && job.lastError == (if cause == ContextCanceled then "context canceled" else cause.message)
    && job.attempts == was.attempts + 1 && SameOrigin(job, was)
    && job.checkpointLine == was.checkpointLine && job.manifest == was.manifest
    && outcome == FailureWritten(cause, job.status, retried < maxRetry && cause != ContextCanceled)
  }

  // ----- One delivery -----

  /** Between `was` and `r` the whole file was replayed for the job `start` from its checkpoint. */
  ghost predicate Replayed(start: Job, was: Repo, r: Repo, id: string, cfg: Config, stats: FileStats, now: nat) {
    ReplayFinished(start, was, r, id, cfg, stats, start.checkpointLine, Scan(cfg, start.checkpointLine, |cfg.file|),
        now)
  }

  /** What running job `id` left in the store: a completed replay, or only checkpoints if it ended in an error. */
  ghost predicate RunEnded(error: Option<Cause>, was: Repo, r: Repo, id: string, cfg: Config, stats: FileStats,
                           now: nat) {
    match error
    case None => id in was.jobs && Replayed(was.jobs[id], was, r, id, cfg, stats, now)
    case Some(_) => OnlyCheckpointed(was, r, id, cfg)
  }

  /** What a delivery of job `id` with retry count `retried` leaves in the store, by its outcome. A settled job
      stays as it is. Otherwise the job is replayed from its checkpoint to the end of the file, unless an
      interruption comes first; then nothing but the job's status, error, attempts and checkpoint changes, and
      only a failure below the retry limit that is not a canceled context is retried. */
  ghost predicate Delivered(outcome: Outcome, was: Repo, r: Repo, id: string, cfg: Config, stats: FileStats,
                            retried: nat, interrupt: Option<Interrupt>, now: nat) {
    match outcome
    case NothingToDo => id in was.jobs && SettledStatus(was.jobs[id].status) && r == was
    case Finished =>
      && id in was.jobs && !SettledStatus(was.jobs[id].status) && Interrupted(interrupt, cfg) == None
      && Replayed(was.jobs[id].(attempts := was.jobs[id].attempts + 1, lastError := ""), was, r, id, cfg, stats, now)
    case FailureWritten(cause, status, retry) =>
      && id in was.jobs && !SettledStatus(was.jobs[id].status) && Interrupted(interrupt, cfg) == Some(cause)
      && status == (if retried >= cfg.maxRetry then DeadLetter else Failed)
      && retry == (retried < cfg.maxRetry && cause != ContextCanceled)
      && FailedOver(was, r, id, cfg, status, if cause == ContextCanceled then "context canceled" else cause.message)
    case Dropped => id !in was.jobs && r == was
    case Aborted => false
    case Crashed => false
  }

  /** The failed attempt has touched nothing but status, error, attempts and checkpoint of its job. */
  ghost predicate FailedOver(was: Repo, r: Repo, id: string, cfg: Config, status: Status, text: string) {
    && id in was.jobs && id in r.jobs && cfg.every > 0 && r == was.(jobs := r.jobs)
    && SameOrigin(r.jobs[id], was.jobs[id]) && r.jobs[id].manifest == was.jobs[id].manifest
    && r.jobs[id].status == status && r.jobs[id].lastError == text
    && r.jobs[id].attempts == was.jobs[id].attempts + 2
    && r.jobs[id].checkpointLine >= was.jobs[id].checkpointLine
    && (r.jobs[id].checkpointLine != was.jobs[id].checkpointLine ==> Boundary(cfg, r.jobs[id].checkpointLine))
  }

  /** `running` is the store `was` once the job has been marked running. */
  ghost predicate MarkedRunning(was: Repo, running: Repo, id: string) {
    && id in was.jobs && id in running.jobs && running == was.(jobs := running.jobs)
    && StatusWritten(running.jobs[id], was.jobs[id], Running, "")
  }

  lemma FinishedDelivery(was: Repo, running: Repo, r: Repo, id: string, cfg: Config, stats: FileStats, retried: nat,
                         interrupt: Option<Interrupt>, now: nat)
    requires MarkedRunning(was, running, id) && !SettledStatus(was.jobs[id].status)
    requires Interrupted(interrupt, cfg) == None && RunEnded(None, running, r, id, cfg, stats, now)
    ensures Delivered(Finished, was, r, id, cfg, stats, retried, interrupt, now)
  {
  }

  /** A finished delivery has counted the header line and every row. */
  lemma FinishedRows(outcome: Outcome, was: Repo, r: Repo, id: string, cfg: Config, stats: FileStats, retried: nat,
                     interrupt: Option<Interrupt>, now: nat)
    requires ValidConfig(cfg) && Delivered(outcome, was, r, id, cfg, stats, retried, interrupt, now)
    ensures outcome == Finished ==>
              && id in r.jobs && r.jobs[id].eventFileID in r.files
              && r.files[r.jobs[id].eventFileID].rows == (if cfg.file == [] then 0 else cfg.header + |cfg.file|)
  {
  }

  lemma FailedDelivery(was: Repo, running: Repo, ran: Repo, r: Repo, id: string, cfg: Config, stats: FileStats,
                       retried: nat, interrupt: Option<Interrupt>, now: nat, cause: Cause, outcome: Outcome)
    requires MarkedRunning(was, running, id) && !SettledStatus(was.jobs[id].status)
    requires Interrupted(interrupt, cfg) == Some(cause) && RunEnded(Some(cause), running, ran, id, cfg, stats, now)
    requires id in ran.jobs && id in r.jobs && r == ran.(jobs := r.jobs)
    requires FailureRecorded(outcome, r.jobs[id], ran.jobs[id], cause, retried, cfg.maxRetry)
    ensures Delivered(outcome, was, r, id, cfg, stats, retried, interrupt, now)
  {
    var status := if retried >= cfg.maxRetry then DeadLetter else Failed;
    assert FailedOver(was, r, id, cfg, status, if cause == ContextCanceled then "context canceled" else cause.message);
  }

  /** The second read of the job. */
  lemma ReloadStep(cfg: Config, r: Repo, id: string, s: System, i: nat) returns (t: System)
    requires Mirrors(r, id, s) && i < |s.attempts| && s.attempts[i].pc.Reloading? && s.attempts[i].pos == 0
    requires cfg.every > 0
    ensures t == Run(cfg, s, [Work(i, 0)]) && Mirrors(r, id, t) && i < |t.attempts|
    ensures s.job.status == Canceled ==> t.attempts[i].pc == Ended(NothingToDo)
    ensures s.job.status != Canceled ==>
            t.attempts[i].pc.Scanning? && Inside(cfg, t, i, 0, s.job.checkpointLine, FRESH)
    ensures t.job == s.job
  {
    RunOne(cfg, s, Work(i, 0));
    t := Step(cfg, s, Work(i, 0));
  }

  lemma {:induction false} FileKept(cfg: Config, s: System, acts: seq<Action>)
    ensures Run(cfg, s, acts).job.eventFileID == s.job.eventFileID
    decreases |acts|
  {
    if acts != [] {
      FileKept(cfg, Step(cfg, s, acts[0]), acts[1..]);
    }
  }

  /** A delivery, its first step and what follows. */
  lemma DeliverThen(cfg: Config, s: System, retried: nat, acts: seq<Action>)
    requires Own(acts, |s.attempts|)
    ensures var i := |s.attempts|;
            && Own([Work(i, 0)] + acts, i)
            && Run(cfg, s, [Deliver(retried)] + ([Work(i, 0)] + acts))
            == Run(cfg, Step(cfg, Step(cfg, s, Deliver(retried)), Work(i, 0)), acts)
  {
    var i := |s.attempts|;
    var s0 := Step(cfg, s, Deliver(retried));
    OwnThen(cfg, s0, [Work(i, 0)], acts, i);
    RunOne(cfg, s0, Work(i, 0));
    assert ([Deliver(retried)] + ([Work(i, 0)] + acts))[1..] == [Work(i, 0)] + acts;
  }

  lemma RunningMirrors(r: Repo, id: string, cfg: Config, s: System, i: nat)
    requires Mirrors(r, id, s) && cfg.every > 0
    requires i < |s.attempts| && s.attempts[i].pc.MarkingRunning? && s.attempts[i].pos == 0
    ensures var t := Step(cfg, s, Work(i, 0));
            && Mirrors(Apply(r, UpdateStatus(id, Running, "")), id, t) && t.job.status == Running
            && |t.attempts| == |s.attempts| && t.attempts[i] == s.attempts[i].(pc := Reloading)
              && Run(cfg, s, [Work(i, 0)]) == t
  {
    RunOne(cfg, s, Work(i, 0));
  }

  lemma {:induction false} RetriedKept(cfg: Config, s: System, acts: seq<Action>, i: nat)
    requires i < |s.attempts|
    ensures var t := Run(cfg, s, acts); i < |t.attempts| && t.attempts[i].retried == s.attempts[i].retried
    decreases |acts|
  {
    if acts != [] {
      RetriedKept(cfg, Step(cfg, s, acts[0]), acts[1..], i);
    }
  }
}
