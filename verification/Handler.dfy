/** The worker's handler as the sequential code it is, and the proof that everything it does to the
    repository is a run of the step machine. */
module Handler {
  import opened Events
  import opened SequenceValidator
  import opened Store
  import opened Frames
  import opened ReplayProtocol
  import opened NoLineSkipped
  import opened Cancellation
  import opened HandlerSteps

  /** Write a checkpoint, then look whether the job has been canceled. */
  method CheckpointAndCheck(repo: MemoryRepository, id: string, line: int, cfg: Config, ghost s: System, ghost i: nat)
      returns (canceled: bool, ghost t: System)
    requires repo.Valid() && Mirrors(repo.State(), id, s) && cfg.every > 0
    requires i < |s.attempts| && 0 < s.attempts[i].pos <= |cfg.file| && s.attempts[i].pc.Checkpointing?
    requires cfg.file[s.attempts[i].pos - 1].line == line
    modifies repo
    ensures repo.Valid() && Mirrors(repo.State(), id, t) && Framed(old(repo.State()), repo.State(), id)
    ensures t == Run(cfg, s, [Work(i, 0), Work(i, 0)])
    ensures Inside(cfg, t, i, s.attempts[i].pos, s.attempts[i].resume, s.attempts[i].seen)
    ensures t.attempts[i].pc == if canceled then Failing(ContextCanceled) else Scanning
    ensures CheckpointWritten(repo.jobs[id], old(repo.jobs)[id], line)
    ensures canceled <==> repo.jobs[id].status == Canceled
    ensures repo.State() == old(repo.State()).(jobs := repo.jobs)
  {
    ghost var mid := Step(cfg, s, Work(i, 0));
    t := Step(cfg, mid, Work(i, 0));
    CheckpointSteps(cfg, s, i, mid, t);
    RewriteMirrors(repo.State(), id, s, t, WithCheckpoint(s.job, line));
    ApplyFrames(repo.State(), UpdateCheckpoint(id, line), id);
    ApplyLeaves(repo.State(), UpdateCheckpoint(id, line));
    var _ := repo.UpdateReplayCheckpoint(id, line);
    var reply := repo.GetReplayJob(id);
    canceled := reply.value.status == Canceled;
  }

  /** Read row `n`: prime it at or below the resume line, otherwise process it and checkpoint at a boundary. */
  method ProcessRow(repo: MemoryRepository, job: Job, cfg: Config, v: Validator, n: nat, ghost s: System, ghost i: nat)
      returns (canceled: bool, ghost t: System, ghost acts: seq<Action>)
    requires ValidConfig(cfg) && repo.Valid() && Mirrors(repo.State(), job.id, s)
    requires v.Valid() && v.filter == cfg.filter && n < |cfg.file|
    requires Inside(cfg, s, i, n, job.checkpointLine, v.Seen()) && s.attempts[i].pc.Scanning?
    modifies repo, v
    ensures repo.Valid() && Mirrors(repo.State(), job.id, t) && t == Run(cfg, s, acts) && Own(acts, i)
    ensures Framed(old(repo.State()), repo.State(), job.id)
    ensures v.Valid() && v.Seen() == ScanRow(cfg, job.checkpointLine, old(v.Seen()), cfg.file[n])
    ensures Inside(cfg, t, i, n + 1, job.checkpointLine, v.Seen())
    ensures t.attempts[i].pc == if canceled then Failing(ContextCanceled) else Scanning
    ensures OnlyCheckpointed(old(repo.State()), repo.State(), job.id, cfg)
    ensures canceled ==> repo.jobs[job.id].status == Canceled
  {
    hide Run;
    RowInFile(cfg, n);
    var rec := cfg.file[n];
    canceled := false;
    acts := [Work(i, 0)];
    t := ReadStep(cfg, repo.State(), job.id, s, i, n, job.checkpointLine, v.Seen());
    FramedRefl(repo.State(), job.id);
    if rec.line <= job.checkpointLine {
      v.Prime(rec);
      return;
    }
    v.Process(rec);
    if rec.line % cfg.every == 0 {
      ghost var u := t;
      canceled, t := CheckpointAndCheck(repo, job.id, rec.line, cfg, u, i);
      CheckpointedOnly(old(repo.State()), repo.State(), job.id, cfg, rec.line);
      OwnThen(cfg, s, acts, [Work(i, 0), Work(i, 0)], i);
      acts := acts + [Work(i, 0), Work(i, 0)];
    }
  }

  /** The next row of the scan. */
  method ScanOne(repo: MemoryRepository, job: Job, cfg: Config, v: Validator, n: nat,
                 ghost was: Repo, ghost s: System, ghost acts: seq<Action>, ghost i: nat)
      returns (canceled: bool, ghost more: seq<Action>)
    requires ValidConfig(cfg) && repo.Valid() && v.Valid() && v.filter == cfg.filter && n < |cfg.file|
    requires InScan(None, cfg, was, repo.State(), job.id, s, acts, i, n, job.checkpointLine, v.Seen())
    modifies repo, v
    ensures repo.Valid() && v.Valid() && job.id in repo.jobs
    ensures InScan(if canceled then Some(ContextCanceled) else None, cfg, was, repo.State(), job.id, s, more, i, n + 1,
                job.checkpointLine, v.Seen())
    ensures canceled ==> repo.jobs[job.id].status == Canceled
  {
    hide Run;
    ghost var t, before, seen := Run(cfg, s, acts), repo.State(), v.Seen();
    canceled, t, more := ProcessRow(repo, job, cfg, v, n, t, i);
    RowScanned(canceled, cfg, was, before, repo.State(), job.id, s, acts, more, i, n, job.checkpointLine, seen);
    more := acts + more;
  }

  /** The scan loop: read rows until the file ends, the context is done or a cancel is seen. */
  method ScanRows(repo: MemoryRepository, job: Job, cfg: Config, v: Validator, interrupt: Option<Interrupt>,
                  ghost s: System, ghost i: nat)
      returns (stopped: Option<Cause>, lastLine: int, ghost acts: seq<Action>)
    requires ValidConfig(cfg) && repo.Valid() && Mirrors(repo.State(), job.id, s)
    requires v.Valid() && v.filter == cfg.filter && v.Seen() == FRESH
    requires Inside(cfg, s, i, 0, job.checkpointLine, FRESH) && s.attempts[i].pc.Scanning?
    modifies repo, v
    ensures repo.Valid() && v.Valid() && job.id in repo.jobs
    ensures InScan(stopped, cfg, old(repo.State()), repo.State(), job.id, s, acts, i, |cfg.file|, job.checkpointLine,
                v.Seen())
    ensures repo.jobs[job.id].status != Canceled ==> stopped == Interrupted(interrupt, cfg)
    ensures stopped.None? ==> lastLine == LastLine(cfg)
  {
    hide Run;
    lastLine, acts, stopped := 0, [], None;
    ghost var was, resume := repo.State(), job.checkpointLine;
    ScanStarts(cfg, was, job.id, s, i, resume);
    var n := 0;
    while n < |cfg.file| && !DoneBefore(interrupt, n)
      invariant n <= |cfg.file| && lastLine == LineAt(cfg, n)
      invariant v.Valid() && repo.Valid() && job.id in repo.jobs
      invariant InScan(None, cfg, was, repo.State(), job.id, s, acts, i, n, resume, v.Seen())
      invariant interrupt.Some? ==> interrupt.value.row >= n
    {
      var canceled;
      canceled, acts := ScanOne(repo, job, cfg, v, n, was, s, acts, i);
      lastLine := cfg.file[n].line;
      n := n + 1;
      if canceled {
        return Some(ContextCanceled), lastLine, acts;
      }
    }
    if DoneBefore(interrupt, n) {
      ScanInterrupted(cfg, was, repo.State(), job.id, s, acts, i, n, resume, v.Seen(), interrupt.value.cause);
      acts := acts + [Fault(i, interrupt.value.cause)];
      stopped := Some(interrupt.value.cause);
    }
  }

  /** Scan the file from the resume line of `job`, checkpointing every `cfg.every` lines. */
  method ProcessFile(repo: MemoryRepository, job: Job, cfg: Config, interrupt: Option<Interrupt>, ghost s: System,
                     ghost i: nat)
      returns (outcome: FileOutcome, v: Validator, lastLine: int, ghost acts: seq<Action>)
    requires ValidConfig(cfg) && repo.Valid() && Mirrors(repo.State(), job.id, s)
    requires Inside(cfg, s, i, 0, job.checkpointLine, FRESH) && s.attempts[i].pc.Scanning?
    modifies repo
    ensures repo.Valid() && v.Valid() && fresh(v) && Mirrors(repo.State(), job.id, Run(cfg, s, acts)) && Own(acts, i)
    ensures Framed(old(repo.State()), repo.State(), job.id)
    ensures OnlyCheckpointed(old(repo.State()), repo.State(), job.id, cfg)
    ensures outcome.EndOfFile? ==> lastLine == LastLine(cfg) && v.Seen() == Scan(cfg, job.checkpointLine, |cfg.file|)
    ensures outcome.EndOfFile? ==> v.rows <= |cfg.file|
    ensures repo.jobs[job.id].status != Canceled ==>
            outcome == match Interrupted(interrupt, cfg) case Some(cause) => Broken(cause) case None => EndOfFile
    ensures outcome.EndOfFile? ==> Inside(cfg, Run(cfg, s, acts), i, |cfg.file|, job.checkpointLine, v.Seen())
                                   && Run(cfg, s, acts).attempts[i].pc.FinalCheckpointing?
    ensures outcome.Broken? ==> var t := Run(cfg, s, acts);
            i < |t.attempts| && t.attempts[i].pc == Failing(outcome.cause) && t.attempts[i].pos <= |cfg.file|
  {
    v := new Validator(cfg.filter);
    var stopped;
    stopped, lastLine, acts := ScanRows(repo, job, cfg, v, interrupt, s, i);
    if stopped.Some? {
      outcome := Broken(stopped.value);
    } else {
      EndWhileScanning(cfg, repo.State(), job.id, s, acts, i);
      acts := acts + [Work(i, 0)];
      outcome := EndOfFile;
    }
  }

  // ----- After the scan -----

  method ToValidationErrors(jobID: string, fs: seq<Failure>) returns (es: seq<ValidationError>)
    ensures es == ToErrors(jobID, fs) && StoresFailures(es, fs, jobID, 0)
  {
    es := [];
    for k := 0 to |fs|
      invariant es == ToErrors(jobID, fs)[..k]
    {
      es := es + [ValidationError(jobID, fs[k].line, fs[k].symbol, KindName(fs[k].kind), fs[k].message, 0)];
    }
  }

  method SaveCheckpoint(repo: MemoryRepository, job: Job, cfg: Config, rows: int, ghost s: System, ghost i: nat)
      returns (ghost t: System)
    requires repo.Valid() && Mirrors(repo.State(), job.id, s) && i < |s.attempts| && s.attempts[i].pos <= |cfg.file|
    requires cfg.every > 0
    requires s.attempts[i].pc.FinalCheckpointing? && rows == RowsOf(cfg, s.attempts[i])
    modifies repo
    ensures Framed(old(repo.State()), repo.State(), job.id)
    ensures repo.Valid() && Mirrors(repo.State(), job.id, t) && t == Step(cfg, s, Work(i, 0))
    ensures |t.attempts| == |s.attempts| && t.attempts[i] == s.attempts[i].(pc := SavingStats)
    ensures t.job.eventFileID == s.job.eventFileID
    ensures CheckpointWritten(repo.jobs[job.id], old(repo.jobs)[job.id], rows)
    ensures repo.State() == old(repo.State()).(jobs := repo.jobs)
  {
    t := Step(cfg, s, Work(i, 0));
    CheckpointMirrors(repo.State(), job.id, cfg, s, i);
    ApplyFrames(repo.State(), UpdateCheckpoint(job.id, rows), job.id);
    ApplyLeaves(repo.State(), UpdateCheckpoint(job.id, rows));
    var _ := repo.UpdateReplayCheckpoint(job.id, rows);
  }

  method SaveStats(repo: MemoryRepository, job: Job, cfg: Config, rows: int, sha256: string, bytes: int,
                   ghost s: System, ghost i: nat)
      returns (ghost t: System)
    requires repo.Valid() && Mirrors(repo.State(), job.id, s) && i < |s.attempts| && s.attempts[i].pos <= |cfg.file|
    requires cfg.every > 0
    requires s.attempts[i].pc.SavingStats? && rows == RowsOf(cfg, s.attempts[i]) && rows >= 0
    requires job.eventFileID == s.job.eventFileID
    modifies repo
    ensures Framed(old(repo.State()), repo.State(), job.id)
    ensures repo.Valid() && Mirrors(repo.State(), job.id, t) && t == Step(cfg, s, Work(i, 0))
    ensures |t.attempts| == |s.attempts| && t.attempts[i] == s.attempts[i].(pc := SavingManifest)
    ensures t.job.eventFileID == s.job.eventFileID
    ensures FileCounted(old(repo.State()), repo.State(), job.eventFileID, rows, FileStats(sha256, bytes))
    ensures repo.State() == old(repo.State()).(files := repo.eventFiles)
  {
    t := Step(cfg, s, Work(i, 0));
    StatsMirrors(repo.State(), job.id, cfg, s, i, sha256, bytes);
    ApplyFrames(repo.State(), UpdateFileStats(job.eventFileID, sha256, rows, bytes), job.id);
    ApplyLeaves(repo.State(), UpdateFileStats(job.eventFileID, sha256, rows, bytes));
    var _ := repo.UpdateEventFileStats(job.eventFileID, sha256, rows, bytes);
  }

  method SaveManifest(repo: MemoryRepository, job: Job, cfg: Config, rows: int, v: Validator, ghost s: System,
                      ghost i: nat)
      returns (ghost t: System)
    requires repo.Valid() && Mirrors(repo.State(), job.id, s) && i < |s.attempts| && s.attempts[i].pos <= |cfg.file|
    requires cfg.every > 0
    requires s.attempts[i].pc.SavingManifest? && rows == RowsOf(cfg, s.attempts[i]) && v.Valid()
    requires s.attempts[i].seen == v.Seen() && s.attempts[i].resume == job.checkpointLine
    modifies repo
    ensures Framed(old(repo.State()), repo.State(), job.id)
    ensures repo.Valid() && Mirrors(repo.State(), job.id, t) && t == Step(cfg, s, Work(i, 0))
    ensures |t.attempts| == |s.attempts| && t.attempts[i] == s.attempts[i].(pc := Completing)
    ensures t.job.eventFileID == s.job.eventFileID
    ensures Described(repo.jobs[job.id].manifest, rows, job.checkpointLine, v.Seen())
    ensures repo.jobs[job.id] == old(repo.jobs)[job.id].(manifest := repo.jobs[job.id].manifest)
    ensures repo.State() == old(repo.State()).(jobs := repo.jobs)
  {
    var manifest := Manifest(rows, rows, job.checkpointLine, |v.failures|, v.malformedEvents, v.sequenceGaps);
    t := Step(cfg, s, Work(i, 0));
    ManifestMirrors(repo.State(), job.id, cfg, s, i);
    ApplyFrames(repo.State(), UpdateManifest(job.id, manifest), job.id);
    ApplyLeaves(repo.State(), UpdateManifest(job.id, manifest));
    var _ := repo.UpdateReplayManifest(job.id, manifest);
  }

  method Complete(repo: MemoryRepository, job: Job, cfg: Config, rows: int, v: Validator, now: nat, ghost s: System,
                  ghost i: nat)
      returns (ghost t: System)
    requires repo.Valid() && Mirrors(repo.State(), job.id, s) && i < |s.attempts| && s.attempts[i].pos <= |cfg.file|
    requires cfg.every > 0
    requires s.attempts[i].pc.Completing? && rows == RowsOf(cfg, s.attempts[i]) && v.Valid()
    requires s.attempts[i].seen == v.Seen()
    modifies repo
    ensures Framed(old(repo.State()), repo.State(), job.id)
    ensures repo.Valid() && Mirrors(repo.State(), job.id, t) && t == Step(cfg, s, Work(i, now))
    ensures |t.attempts| == |s.attempts| && t.attempts[i].pc == Ended(Finished)
    ensures CompletedWith(old(repo.State()), repo.State(), job.id, rows, v.Seen(), now)
  {
    hide Step;
    var errs := ToValidationErrors(job.id, v.failures);
    var metric := Metric(rows, v.events, v.malformedEvents, v.sequenceGaps);
    ghost var was := repo.State();
    t := Step(cfg, s, Work(i, now));
    CompleteEffect(was, job.id, cfg, s, i, metric, errs, now);
    var _ := repo.CompleteReplayJob(job.id, metric, errs, now);
  }

  method SaveProgress(repo: MemoryRepository, job: Job, cfg: Config, rows: int, sha256: string, bytes: int,
                      ghost s: System, ghost i: nat)
      returns (ghost t: System)
    requires repo.Valid() && Mirrors(repo.State(), job.id, s) && i < |s.attempts| && s.attempts[i].pos <= |cfg.file|
    requires cfg.every > 0
    requires s.attempts[i].pc.FinalCheckpointing? && rows == RowsOf(cfg, s.attempts[i]) && rows >= 0
    requires job.eventFileID == s.job.eventFileID
    modifies repo
    ensures Framed(old(repo.State()), repo.State(), job.id)
    ensures repo.Valid() && Mirrors(repo.State(), job.id, t) && t == Step(cfg, Step(cfg, s, Work(i, 0)), Work(i, 0))
    ensures |t.attempts| == |s.attempts| && t.attempts[i] == s.attempts[i].(pc := SavingManifest)
    ensures ProgressSaved(old(repo.State()), repo.State(), job.id, rows, FileStats(sha256, bytes))
  {
    ghost var was := repo.State();
    ghost var mid := SaveCheckpoint(repo, job, cfg, rows, s, i);
    RowsUnmoved(cfg, s.attempts[i], SavingStats);
    ghost var saved := repo.State();
    t := SaveStats(repo, job, cfg, rows, sha256, bytes, mid, i);
    FramedTrans(was, saved, repo.State(), job.id);
  }

  method SaveResults(repo: MemoryRepository, job: Job, cfg: Config, rows: int, v: Validator, now: nat, ghost s: System,
                     ghost i: nat)
      returns (ghost t: System)
    requires repo.Valid() && Mirrors(repo.State(), job.id, s) && i < |s.attempts| && s.attempts[i].pos <= |cfg.file|
    requires cfg.every > 0
    requires s.attempts[i].pc.SavingManifest? && rows == RowsOf(cfg, s.attempts[i]) && v.Valid()
    requires s.attempts[i].seen == v.Seen() && s.attempts[i].resume == job.checkpointLine
    modifies repo
    ensures Framed(old(repo.State()), repo.State(), job.id)
    ensures repo.Valid() && Mirrors(repo.State(), job.id, t) && t == Step(cfg, Step(cfg, s, Work(i, 0)), Work(i, now))
    ensures |t.attempts| == |s.attempts| && t.attempts[i].pc == Ended(Finished)
    ensures ResultsSaved(old(repo.State()), repo.State(), job.id, rows, job.checkpointLine, v.Seen(), now)
  {
    ghost var seen, was := v.Seen(), repo.State();
    ghost var mid := SaveManifest(repo, job, cfg, rows, v, s, i);
    assert v.Valid() && v.Seen() == seen;
    RowsUnmoved(cfg, s.attempts[i], Completing);
    ghost var saved := repo.State();
    t := Complete(repo, job, cfg, rows, v, now, mid, i);
    FramedTrans(was, saved, repo.State(), job.id);
  }

  /** The four repository writes that follow a finished scan. */
  method Finish(repo: MemoryRepository, job: Job, cfg: Config, v: Validator, lastLine: int, sha256: string, bytes: int,
                now: nat, ghost s: System, ghost i: nat)
      returns (ghost acts: seq<Action>)
    requires ValidConfig(cfg) && repo.Valid() && v.Valid() && Mirrors(repo.State(), job.id, s)
    requires Inside(cfg, s, i, |cfg.file|, job.checkpointLine, v.Seen()) && s.attempts[i].pc.FinalCheckpointing?
    requires lastLine == LastLine(cfg) && job.eventFileID == s.job.eventFileID && v.rows <= |cfg.file|
    modifies repo
    ensures repo.Valid() && Mirrors(repo.State(), job.id, Run(cfg, s, acts))
    ensures acts == FinalSteps(i, now) && Framed(old(repo.State()), repo.State(), job.id)
    ensures i < |Run(cfg, s, acts).attempts| && Run(cfg, s, acts).attempts[i].pc == Ended(Finished)
    ensures ReplayFinished(old(repo.jobs)[job.id], old(repo.State()), repo.State(), job.id, cfg,
                FileStats(sha256, bytes), job.checkpointLine, v.Seen(), now)
  {
    LinesInFile(cfg);
    var rows := v.rows as int;
    if lastLine > rows {
      rows := lastLine;
    }
    RowsAreLastLine(cfg, s.attempts[i]);
    assert rows == RowsOf(cfg, s.attempts[i]);
    ghost var was := repo.State();
    ghost var mid := SaveProgress(repo, job, cfg, rows, sha256, bytes, s, i);
    ghost var saved := repo.State();
    ghost var t := SaveResults(repo, job, cfg, rows, v, now, mid, i);
    FramedTrans(was, saved, repo.State(), job.id);
    SavedFinishes(was, saved, repo.State(), job.id, cfg, FileStats(sha256, bytes), job.checkpointLine, v.Seen(), now);
    acts := FinalSteps(i, now);
    FourSteps(cfg, s, acts);
  }

  /** Record a failure: "dlq" on the last permitted delivery, "failed" before it. */
  method FailJob(repo: MemoryRepository, id: string, cfg: Config, retried: nat, cause: Cause, ghost s: System,
                 ghost i: nat)
      returns (outcome: Outcome)
    requires repo.Valid() && Mirrors(repo.State(), id, s) && i < |s.attempts| && s.attempts[i].pos <= |cfg.file|
    requires cfg.every > 0
    requires s.attempts[i].pc == Failing(cause) && s.attempts[i].retried == retried
    modifies repo
    ensures repo.Valid() && Mirrors(repo.State(), id, WorkStep(cfg, s, i, 0))
    ensures WorkStep(cfg, s, i, 0).attempts[i].pc == Ended(outcome) && Framed(old(repo.State()), repo.State(), id)
    ensures repo.State() == old(repo.State()).(jobs := repo.jobs)
    ensures FailureRecorded(outcome, repo.jobs[id], old(repo.jobs)[id], cause, retried, cfg.maxRetry)
  {
    var status := Failed;
    if retried >= cfg.maxRetry {
      status := DeadLetter;
    }
    ApplyFrames(repo.State(), UpdateStatus(id, status, CauseText(cause)), id);
    ApplyLeaves(repo.State(), UpdateStatus(id, status, CauseText(cause)));
    var _ := repo.UpdateReplayJobStatus(id, status, CauseText(cause));
    if status == DeadLetter {
      return FailureWritten(cause, DeadLetter, false);
    }
    outcome := FailureWritten(cause, Failed, cause != ContextCanceled);
  }

  // ----- One delivery -----

  /** The attempt reads the job once more and, unless it has been canceled, replays the file. */
  method RunJob(repo: MemoryRepository, id: string, cfg: Config, interrupt: Option<Interrupt>, sha256: string,
                bytes: int, now: nat, ghost s: System, ghost i: nat)
      returns (error: Option<Cause>, ghost acts: seq<Action>)
    requires ValidConfig(cfg) && repo.Valid() && Mirrors(repo.State(), id, s)
    requires i < |s.attempts| && s.attempts[i].pc.Reloading? && s.attempts[i].pos == 0
    modifies repo
    ensures repo.Valid() && Mirrors(repo.State(), id, Run(cfg, s, acts)) && i < |Run(cfg, s, acts).attempts|
    ensures Own(acts, i) && Framed(old(repo.State()), repo.State(), id)
    ensures error.None? ==>
            Run(cfg, s, acts).attempts[i].pc
                == Ended(if old(repo.jobs[id]).status == Canceled then NothingToDo else Finished)
    ensures error.Some? ==>
            Run(cfg, s, acts).attempts[i].pc == Failing(error.value) && Run(cfg, s, acts).attempts[i].pos <= |cfg.file|
    ensures old(repo.jobs)[id].status == Canceled ==> error == None && repo.State() == old(repo.State())
    ensures old(repo.jobs)[id].status != Canceled ==>
            && error == Interrupted(interrupt, cfg)
            && RunEnded(error, old(repo.State()), repo.State(), id, cfg, FileStats(sha256, bytes), now)
  {
    hide Run, RunEnded, Framed;
    var reply := repo.GetReplayJob(id);
    var latest := reply.value;
    ghost var t := ReloadStep(cfg, repo.State(), id, s, i);
    acts := [Work(i, 0)];
    FramedRefl(repo.State(), id);
    if latest.status == Canceled {
      return None, acts;
    }
    ghost var more: seq<Action>;
    error, more := ReplayFile(repo, latest, cfg, interrupt, sha256, bytes, now, t, i);
    OwnThen(cfg, s, acts, more, i);
    acts := acts + more;
  }

  /** Scan the file and, unless that is broken off, save the results. */
  method ReplayFile(repo: MemoryRepository, job: Job, cfg: Config, interrupt: Option<Interrupt>, sha256: string,
                    bytes: int, now: nat, ghost s: System, ghost i: nat)
      returns (error: Option<Cause>, ghost acts: seq<Action>)
    requires ValidConfig(cfg) && repo.Valid() && Mirrors(repo.State(), job.id, s)
    requires repo.jobs[job.id] == job && job.status != Canceled
    requires Inside(cfg, s, i, 0, job.checkpointLine, FRESH) && s.attempts[i].pc.Scanning?
    modifies repo
    ensures repo.Valid() && Mirrors(repo.State(), job.id, Run(cfg, s, acts)) && i < |Run(cfg, s, acts).attempts|
    ensures Own(acts, i) && Framed(old(repo.State()), repo.State(), job.id)
    ensures error == Interrupted(interrupt, cfg)
    ensures error.None? ==> Run(cfg, s, acts).attempts[i].pc == Ended(Finished)
    ensures RunEnded(error, old(repo.State()), repo.State(), job.id, cfg, FileStats(sha256, bytes), now)
    ensures error.Some? ==>
            Run(cfg, s, acts).attempts[i].pc == Failing(error.value) && Run(cfg, s, acts).attempts[i].pos <= |cfg.file|
  {
    hide Run;
    var outcome, v, lastLine;
    outcome, v, lastLine, acts := ProcessFile(repo, job, cfg, interrupt, s, i);
    if outcome.Broken? {
      return Some(outcome.cause), acts;
    }
    FileKept(cfg, s, acts);
    ghost var scanned := repo.State();
    ghost var rest := Finish(repo, job, cfg, v, lastLine, sha256, bytes, now, Run(cfg, s, acts), i);
    CheckpointedFinishes(old(repo.State()), scanned, repo.State(), job.id, cfg, FileStats(sha256, bytes),
        job.checkpointLine, v.Seen(), now);
    FramedTrans(old(repo.State()), scanned, repo.State(), job.id);
    FinalStepsOwn(i, now);
    OwnThen(cfg, s, acts, rest, i);
    acts := acts + rest;
    error := None;
  }

  /** One delivery: skip settled jobs, otherwise mark the job running, replay it, and record a
      failure if the replay ends with an error. */
  method ProcessTask(repo: MemoryRepository, id: string, retried: nat, cfg: Config, interrupt: Option<Interrupt>,
                     sha256: string, bytes: int, now: nat, ghost s: System)
      returns (outcome: Outcome, ghost acts: seq<Action>)
    requires ValidConfig(cfg) && repo.Valid() && (id in repo.jobs ==> Mirrors(repo.State(), id, s))
    modifies repo
    ensures repo.Valid() && Own(acts, |s.attempts|)
    ensures id !in old(repo.jobs) ==> outcome == Dropped && repo.State() == old(repo.State())
    ensures id in old(repo.jobs) ==>
              var t := Run(cfg, s, [Deliver(retried)] + acts);
              && Mirrors(repo.State(), id, t) && Framed(old(repo.State()), repo.State(), id)
              && |t.attempts| > |s.attempts| && t.attempts[|s.attempts|].pc == Ended(outcome)
    ensures Delivered(outcome, old(repo.State()), repo.State(), id, cfg, FileStats(sha256, bytes), retried, interrupt,
                now)
    ensures outcome == Finished ==>
              && id in repo.jobs && repo.jobs[id].eventFileID in repo.eventFiles
              && repo.eventFiles[repo.jobs[id].eventFileID].rows
                == (if cfg.file == [] then 0 else cfg.header + |cfg.file|)
  {
    ghost var was := repo.State();
    var reply := repo.GetReplayJob(id);
    acts := [];
    if reply.Refused? {
      return Dropped, acts;
    }
    ghost var i := |s.attempts|;
    ghost var s1 := Step(cfg, Step(cfg, s, Deliver(retried)), Work(i, 0));
    var status := reply.value.status;
    var settled := status == Canceled || status == Completed || status == DeadLetter;
    FramedRefl(repo.State(), id);
    DeliverThen(cfg, s, retried, []);
    if settled {
      return NothingToDo, [Work(i, 0)] + [];
    }
    outcome, acts := Attempted(repo, id, retried, cfg, interrupt, sha256, bytes, now, s1, i);
    FinishedRows(outcome, was, repo.State(), id, cfg, FileStats(sha256, bytes), retried, interrupt, now);
    DeliverThen(cfg, s, retried, acts);
    acts := [Work(i, 0)] + acts;
  }

  method MarkRunning(repo: MemoryRepository, id: string, cfg: Config, ghost s: System, ghost i: nat)
      returns (ghost t: System)
    requires repo.Valid() && Mirrors(repo.State(), id, s) && cfg.every > 0
    requires i < |s.attempts| && s.attempts[i].pc.MarkingRunning? && s.attempts[i].pos == 0
    modifies repo
    ensures repo.Valid() && Mirrors(repo.State(), id, t) && t == Run(cfg, s, [Work(i, 0)])
    ensures |t.attempts| == |s.attempts| && t.attempts[i] == s.attempts[i].(pc := Reloading)
    ensures Framed(old(repo.State()), repo.State(), id) && MarkedRunning(old(repo.State()), repo.State(), id)
  {
    t := Step(cfg, s, Work(i, 0));
    RunningMirrors(repo.State(), id, cfg, s, i);
    ApplyFrames(repo.State(), UpdateStatus(id, Running, ""), id);
    ApplyLeaves(repo.State(), UpdateStatus(id, Running, ""));
    var _ := repo.UpdateReplayJobStatus(id, Running, "");
  }

  method Attempted(repo: MemoryRepository, id: string, retried: nat, cfg: Config, interrupt: Option<Interrupt>,
                   sha256: string, bytes: int, now: nat, ghost s: System, ghost i: nat)
      returns (outcome: Outcome, ghost acts: seq<Action>)
    requires ValidConfig(cfg) && repo.Valid() && Mirrors(repo.State(), id, s)
    requires i < |s.attempts| && s.attempts[i].pc.MarkingRunning? && s.attempts[i].pos == 0
    requires s.attempts[i].retried == retried && !SettledStatus(repo.jobs[id].status)
    modifies repo
    ensures repo.Valid() && Mirrors(repo.State(), id, Run(cfg, s, acts)) && Own(acts, i)
    ensures i < |Run(cfg, s, acts).attempts| && Run(cfg, s, acts).attempts[i].pc == Ended(outcome)
    ensures Framed(old(repo.State()), repo.State(), id)
    ensures Delivered(outcome, old(repo.State()), repo.State(), id, cfg, FileStats(sha256, bytes), retried, interrupt,
                now)
  {
    hide Run, Delivered, RunEnded, Framed;
    ghost var was := repo.State();
    ghost var t := MarkRunning(repo, id, cfg, s, i);
    ghost var running := repo.State();
    var error;
    ghost var more: seq<Action>;
    error, more := RunJob(repo, id, cfg, interrupt, sha256, bytes, now, t, i);
    acts := [Work(i, 0)] + more;
    OwnThen(cfg, s, [Work(i, 0)], more, i);
    ghost var ran := repo.State();
    FramedTrans(was, running, ran, id);
    if error.None? {
      FinishedDelivery(was, running, ran, id, cfg, FileStats(sha256, bytes), retried, interrupt, now);
      return Finished, acts;
    }
    RetriedKept(cfg, s, acts, i);
    OwnSnoc(acts, Work(i, 0), i);
    outcome := RecordError(repo, id, cfg, retried, error.value, s, acts, i);
    FramedTrans(was, ran, repo.State(), id);
    FailedDelivery(was, running, ran, repo.State(), id, cfg, FileStats(sha256, bytes), retried, interrupt, now,
        error.value, outcome);
    acts := acts + [Work(i, 0)];
  }

  /** Record the error of a delivery that has performed `acts`. */
  method RecordError(repo: MemoryRepository, id: string, cfg: Config, retried: nat, cause: Cause, ghost s: System,
                     ghost acts: seq<Action>, ghost i: nat)
      returns (outcome: Outcome)
    requires repo.Valid() && Mirrors(repo.State(), id, Run(cfg, s, acts)) && cfg.every > 0
    requires var t := Run(cfg, s, acts);
             i < |t.attempts| && t.attempts[i].pos <= |cfg.file| && t.attempts[i].pc == Failing(cause)
                 && t.attempts[i].retried == retried
    modifies repo
    ensures repo.Valid() && Mirrors(repo.State(), id, Run(cfg, s, acts + [Work(i, 0)]))
    ensures var t := Run(cfg, s, acts + [Work(i, 0)]); i < |t.attempts| && t.attempts[i].pc == Ended(outcome)
    ensures Framed(old(repo.State()), repo.State(), id)
    ensures repo.State() == old(repo.State()).(jobs := repo.jobs)
    ensures FailureRecorded(outcome, repo.jobs[id], old(repo.jobs)[id], cause, retried, cfg.maxRetry)
  {
    RunSnoc(cfg, s, acts, Work(i, 0));
    outcome := FailJob(repo, id, cfg, retried, cause, Run(cfg, s, acts), i);
  }
}
