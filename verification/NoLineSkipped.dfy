/** Safety of the replay protocol over every interleaving. */
module NoLineSkipped {
  import opened Events
  import opened SequenceValidator
  import opened Store
  import opened ReplayProtocol

  /** Every file line up to `c` has been processed by some attempt. */
  ghost predicate Covered(cfg: Config, processed: set<int>, c: int) {
    forall k :: 0 <= k < |cfg.file| && cfg.file[k].line <= c ==> cfg.file[k].line in processed
  }

  predicate InFile(pc: Pc) {
    pc.Scanning? || pc.Checkpointing? || pc.CheckingCancel? || AtEnd(pc)
  }

  predicate AtEnd(pc: Pc) {
    pc.FinalCheckpointing? || pc.SavingStats? || pc.SavingManifest? || pc.Completing?
  }

  function LineAt(cfg: Config, pos: nat): int
    requires pos <= |cfg.file|
  {
    if pos == 0 then 0 else cfg.file[pos - 1].line
  }

  /** Everything a worker inside the file has passed is processed by someone; past the final checkpoint the
      stored checkpoint is the last line. */
  ghost predicate AttemptOk(cfg: Config, processed: set<int>, checkpoint: int, a: Attempt) {
    && a.pos <= |cfg.file|
    && (InFile(a.pc) ==>
          && 0 <= a.resume <= checkpoint && a.seen.rows <= a.pos
          && Covered(cfg, processed, LineAt(cfg, a.pos)))
    && (AtEnd(a.pc) ==> a.pos == |cfg.file|)
    && (AtEnd(a.pc) && !a.pc.FinalCheckpointing? ==> checkpoint == LastLine(cfg))
  }

  ghost predicate AttemptsOk(cfg: Config, s: System) {
    forall i :: 0 <= i < |s.attempts| ==> AttemptOk(cfg, s.processed, s.job.checkpointLine, s.attempts[i])
  }

  ghost predicate SystemOk(cfg: Config, s: System) {
    && 0 <= s.job.checkpointLine <= LastLine(cfg)
    && Covered(cfg, s.processed, s.job.checkpointLine)
    && AttemptsOk(cfg, s)
    && |s.metrics| == |s.completions|
    && (s.job.status == Completed ==> s.completions != [])
    && (s.completions != [] ==> s.job.checkpointLine == LastLine(cfg))
  }

  lemma LinesInFile(cfg: Config)
    requires ValidConfig(cfg)
    ensures forall pos :: 0 <= pos <= |cfg.file| ==> 0 <= LineAt(cfg, pos) <= LastLine(cfg)
    ensures LineAt(cfg, |cfg.file|) == LastLine(cfg)
  {
  }

  /** At the end of the file the reported row count is the last line number, whatever was resumed. */
  lemma RowsAreLastLine(cfg: Config, a: Attempt)
    requires ValidConfig(cfg) && a.pos == |cfg.file| && a.seen.rows <= a.pos
    ensures RowsOf(cfg, a) == LastLine(cfg)
  {
  }

  lemma CoveredGrows(cfg: Config, p: set<int>, q: set<int>, c: int)
    requires p <= q && Covered(cfg, p, c)
    ensures Covered(cfg, q, c)
  {
  }

  /** Processing the next row extends coverage by exactly that line. */
  lemma CoveredStep(cfg: Config, p: set<int>, pos: nat)
    requires ValidConfig(cfg) && pos < |cfg.file| && Covered(cfg, p, LineAt(cfg, pos))
    ensures Covered(cfg, p + {cfg.file[pos].line}, LineAt(cfg, pos + 1))
  {
    forall k | 0 <= k < |cfg.file| && cfg.file[k].line <= cfg.file[pos].line
      ensures cfg.file[k].line in p + {cfg.file[pos].line}
    {
      if k < pos {
        assert cfg.file[k].line <= cfg.file[pos - 1].line;
      }
    }
  }

  /** Replacing one attempt while the store only moves forward keeps all the others in order. */
  lemma OthersKept(cfg: Config, s: System, t: System, i: nat)
    requires AttemptsOk(cfg, s) && i < |s.attempts| == |t.attempts|
    requires s.job.checkpointLine <= t.job.checkpointLine <= LastLine(cfg) && s.processed <= t.processed
    requires forall j :: 0 <= j < |s.attempts| && j != i ==> t.attempts[j] == s.attempts[j]
    requires AttemptOk(cfg, t.processed, t.job.checkpointLine, t.attempts[i])
    ensures AttemptsOk(cfg, t)
  {
    forall j | 0 <= j < |t.attempts|
      ensures AttemptOk(cfg, t.processed, t.job.checkpointLine, t.attempts[j])
    {
      if j != i {
        assert AttemptOk(cfg, s.processed, s.job.checkpointLine, s.attempts[j]);
        if InFile(s.attempts[j].pc) {
          CoveredGrows(cfg, s.processed, t.processed, LineAt(cfg, s.attempts[j].pos));
        }
      }
    }
  }

  /** Steps that store no completion. */
  lemma PlainKeepsOk(cfg: Config, s: System, t: System, i: nat)
    requires SystemOk(cfg, s) && i < |s.attempts| == |t.attempts|
    requires s.processed <= t.processed && t.completions == s.completions && t.metrics == s.metrics
    requires s.job.checkpointLine <= t.job.checkpointLine <= LastLine(cfg)
    requires Covered(cfg, t.processed, t.job.checkpointLine)
    requires t.job.status == s.job.status || t.job.status != Completed
    requires forall j :: 0 <= j < |s.attempts| && j != i ==> t.attempts[j] == s.attempts[j]
    requires AttemptOk(cfg, t.processed, t.job.checkpointLine, t.attempts[i])
    ensures SystemOk(cfg, t)
  {
    OthersKept(cfg, s, t, i);
  }

  lemma ReadRowKeepsAttempt(cfg: Config, s: System, i: nat)
    requires ValidConfig(cfg) && i < |s.attempts| && s.attempts[i].pc.Scanning? && s.attempts[i].pos < |cfg.file|
    requires Covered(cfg, s.processed, s.job.checkpointLine)
    requires AttemptOk(cfg, s.processed, s.job.checkpointLine, s.attempts[i])
    ensures var t := ReadRow(cfg, s, i); AttemptOk(cfg, t.processed, s.job.checkpointLine, t.attempts[i])
  {
    var a, t := s.attempts[i], ReadRow(cfg, s, i);
    var rec := cfg.file[a.pos];
    ScanRowRows(cfg, a.resume, a.seen, rec);
    if rec.line > a.resume {
      CoveredStep(cfg, s.processed, a.pos);
    }
    assert t.attempts[i].pos == a.pos + 1 && t.attempts[i].resume == a.resume;
    assert Covered(cfg, t.processed, LineAt(cfg, a.pos + 1));
  }

  lemma ScanRowRows(cfg: Config, resume: int, v: View, rec: Record)
    ensures ScanRow(cfg, resume, v, rec).rows <= v.rows + 1
  {
  }

  lemma ReadRowKeepsOk(cfg: Config, s: System, i: nat)
    requires ValidConfig(cfg) && SystemOk(cfg, s)
    requires i < |s.attempts| && s.attempts[i].pc.Scanning? && s.attempts[i].pos < |cfg.file|
    ensures SystemOk(cfg, ReadRow(cfg, s, i))
  {
    var t := ReadRow(cfg, s, i);
    ReadRowKeepsAttempt(cfg, s, i);
    CoveredGrows(cfg, s.processed, t.processed, s.job.checkpointLine);
    PlainKeepsOk(cfg, s, t, i);
  }

  lemma CompleteKeepsOk(cfg: Config, s: System, i: nat, now: nat)
    requires ValidConfig(cfg) && SystemOk(cfg, s)
    requires i < |s.attempts| && s.attempts[i].pc.Completing?
    ensures s.attempts[i].pos <= |cfg.file| && SystemOk(cfg, WorkStep(cfg, s, i, now))
  {
    assert AttemptOk(cfg, s.processed, s.job.checkpointLine, s.attempts[i]);
    var t := WorkStep(cfg, s, i, now);
    OthersKept(cfg, s, t, i);
  }

  lemma StartKeepsOk(cfg: Config, s: System, i: nat, now: nat)
    requires ValidConfig(cfg) && SystemOk(cfg, s) && i < |s.attempts|
    requires s.attempts[i].pc.Loading? || s.attempts[i].pc.MarkingRunning? || s.attempts[i].pc.Reloading?
    ensures s.attempts[i].pos <= |cfg.file| && SystemOk(cfg, WorkStep(cfg, s, i, now))
  {
    assert AttemptOk(cfg, s.processed, s.job.checkpointLine, s.attempts[i]);
    var t := WorkStep(cfg, s, i, now);
    assert Covered(cfg, t.processed, 0);
    assert AttemptOk(cfg, t.processed, t.job.checkpointLine, t.attempts[i]);
    PlainKeepsOk(cfg, s, t, i);
  }

  lemma CheckpointKeepsOk(cfg: Config, s: System, i: nat, now: nat)
    requires ValidConfig(cfg) && SystemOk(cfg, s) && i < |s.attempts| && s.attempts[i].pc.Checkpointing?
    ensures s.attempts[i].pos <= |cfg.file| && SystemOk(cfg, WorkStep(cfg, s, i, now))
  {
    var a := s.attempts[i];
    assert AttemptOk(cfg, s.processed, s.job.checkpointLine, a);
    var t := WorkStep(cfg, s, i, now);
    LinesInFile(cfg);
    assert t.job.checkpointLine == s.job.checkpointLine || t.job.checkpointLine == LineAt(cfg, a.pos);
    PlainKeepsOk(cfg, s, t, i);
  }

  lemma CheckOrFailKeepsOk(cfg: Config, s: System, i: nat, now: nat)
    requires SystemOk(cfg, s) && i < |s.attempts| && cfg.every > 0
    requires (s.attempts[i].pc.CheckingCancel? || s.attempts[i].pc.Failing?)
    ensures s.attempts[i].pos <= |cfg.file| && SystemOk(cfg, WorkStep(cfg, s, i, now))
  {
    assert AttemptOk(cfg, s.processed, s.job.checkpointLine, s.attempts[i]);
    PlainKeepsOk(cfg, s, WorkStep(cfg, s, i, now), i);
  }

  lemma FinalCheckpointKeepsOk(cfg: Config, s: System, i: nat, now: nat)
    requires ValidConfig(cfg) && SystemOk(cfg, s) && i < |s.attempts| && s.attempts[i].pc.FinalCheckpointing?
    ensures s.attempts[i].pos <= |cfg.file| && SystemOk(cfg, WorkStep(cfg, s, i, now))
  {
    var a := s.attempts[i];
    assert AttemptOk(cfg, s.processed, s.job.checkpointLine, a);
    var t := WorkStep(cfg, s, i, now);
    RowsAreLastLine(cfg, a);
    LinesInFile(cfg);
    assert t.job.checkpointLine == LastLine(cfg) && t.processed == s.processed;
    PlainKeepsOk(cfg, s, t, i);
  }

  lemma SavingKeepsOk(cfg: Config, s: System, i: nat, now: nat)
    requires SystemOk(cfg, s) && i < |s.attempts| && cfg.every > 0
    requires (s.attempts[i].pc.SavingStats? || s.attempts[i].pc.SavingManifest?)
    ensures s.attempts[i].pos <= |cfg.file| && SystemOk(cfg, WorkStep(cfg, s, i, now))
  {
    assert AttemptOk(cfg, s.processed, s.job.checkpointLine, s.attempts[i]);
    PlainKeepsOk(cfg, s, WorkStep(cfg, s, i, now), i);
  }

  lemma WorkKeepsOk(cfg: Config, s: System, i: nat, now: nat)
    requires ValidConfig(cfg) && SystemOk(cfg, s) && i < |s.attempts|
    ensures s.attempts[i].pos <= |cfg.file| && SystemOk(cfg, WorkStep(cfg, s, i, now))
  {
    var a := s.attempts[i];
    assert AttemptOk(cfg, s.processed, s.job.checkpointLine, a);
    match a.pc {
      case Scanning =>
        if a.pos < |cfg.file| {
          ReadRowKeepsOk(cfg, s, i);
        } else {
          PlainKeepsOk(cfg, s, WorkStep(cfg, s, i, now), i);
        }
      case Loading => StartKeepsOk(cfg, s, i, now);
      case MarkingRunning => StartKeepsOk(cfg, s, i, now);
      case Reloading => StartKeepsOk(cfg, s, i, now);
      case Checkpointing => CheckpointKeepsOk(cfg, s, i, now);
      case CheckingCancel => CheckOrFailKeepsOk(cfg, s, i, now);
      case Failing(_) => CheckOrFailKeepsOk(cfg, s, i, now);
      case FinalCheckpointing => FinalCheckpointKeepsOk(cfg, s, i, now);
      case SavingStats => SavingKeepsOk(cfg, s, i, now);
      case SavingManifest => SavingKeepsOk(cfg, s, i, now);
      case Completing => CompleteKeepsOk(cfg, s, i, now);
      case Ended(_) =>
    }
  }

  lemma StopKeepsOk(cfg: Config, s: System, i: nat, a: Attempt)
    requires SystemOk(cfg, s) && i < |s.attempts|
    requires a.pos == s.attempts[i].pos && !InFile(a.pc)
    ensures SystemOk(cfg, Put(s, i, a))
  {
    assert AttemptOk(cfg, s.processed, s.job.checkpointLine, s.attempts[i]);
    PlainKeepsOk(cfg, s, Put(s, i, a), i);
  }

  lemma FaultKeepsOk(cfg: Config, s: System, i: nat, cause: Cause)
    requires SystemOk(cfg, s) && i < |s.attempts|
    ensures SystemOk(cfg, FaultStep(s, i, cause))
  {
    var t := FaultStep(s, i, cause);
    StopKeepsOk(cfg, s, i, t.attempts[i]);
    assert t == Put(s, i, t.attempts[i]);
  }

  lemma DeliverKeepsOk(cfg: Config, s: System, retried: nat)
    requires SystemOk(cfg, s)
    ensures SystemOk(cfg, Step(cfg, s, Deliver(retried)))
  {
    var t := Step(cfg, s, Deliver(retried));
    assert AttemptsOk(cfg, t);
  }

  lemma CancelKeepsOk(cfg: Config, s: System)
    requires SystemOk(cfg, s)
    ensures SystemOk(cfg, Step(cfg, s, Cancel))
  {
    var t := Step(cfg, s, Cancel);
    assert AttemptsOk(cfg, t);
  }

  /** Every action of every attempt, and of the environment, keeps the protocol invariant. */
  lemma StepKeepsOk(cfg: Config, s: System, act: Action)
    requires ValidConfig(cfg) && SystemOk(cfg, s)
    ensures SystemOk(cfg, Step(cfg, s, act))
  {
    match act
    case Work(i, now) => if i < |s.attempts| { WorkKeepsOk(cfg, s, i, now); }
    case Fault(i, cause) => if i < |s.attempts| { FaultKeepsOk(cfg, s, i, cause); }
    case Crash(i) =>
      if i < |s.attempts| && !s.attempts[i].pc.Ended? {
        StopKeepsOk(cfg, s, i, s.attempts[i].(pc := Ended(Crashed)));
      }
    case Deliver(retried) => DeliverKeepsOk(cfg, s, retried);
    case Cancel => CancelKeepsOk(cfg, s);
  }

  lemma {:induction false} RunKeepsOk(cfg: Config, s: System, acts: seq<Action>)
    requires ValidConfig(cfg) && SystemOk(cfg, s)
    ensures SystemOk(cfg, Run(cfg, s, acts))
    decreases |acts|
  {
    if acts != [] {
      StepKeepsOk(cfg, s, acts[0]);
      RunKeepsOk(cfg, Step(cfg, s, acts[0]), acts[1..]);
    }
  }

  lemma SubmittedOk(cfg: Config, id: string, p: JobParams, rows: int)
    requires ValidConfig(cfg)
    ensures SystemOk(cfg, Submitted(id, p, rows))
  {
    LinesInFile(cfg);
  }

  /** The stored checkpoint never decreases, and a processed line stays processed. */
  lemma {:induction false} RunMovesForward(cfg: Config, s: System, acts: seq<Action>)
    ensures Run(cfg, s, acts).job.checkpointLine >= s.job.checkpointLine
    ensures s.processed <= Run(cfg, s, acts).processed
    decreases |acts|
  {
    if acts != [] {
      StepMovesForward(cfg, s, acts[0]);
      RunMovesForward(cfg, Step(cfg, s, acts[0]), acts[1..]);
    }
  }

  lemma StepMovesForward(cfg: Config, s: System, act: Action)
    ensures Step(cfg, s, act).job.checkpointLine >= s.job.checkpointLine
    ensures s.processed <= Step(cfg, s, act).processed
  {
  }

  /** A line counts as processed only when the validator of some attempt processes its row. */
  lemma ProcessedByReading(cfg: Config, s: System, act: Action)
    ensures var t := Step(cfg, s, act);
            || t.processed == s.processed
            || (&& act.Work? && act.i < |s.attempts| && act.i < |t.attempts| && s.attempts[act.i].pos < |cfg.file|
                && var rec := cfg.file[s.attempts[act.i].pos];
                   && t.processed == s.processed + {rec.line}
                   && t.attempts[act.i].seen == Processed(cfg.filter, s.attempts[act.i].seen, rec))
  {
  }

  /** NO LINE IS SKIPPED. From submission, over every interleaving of any number of attempts with faults,
      crashes and cancels anywhere: all lines at or below the stored checkpoint have been processed by some
      attempt, and once the job is completed, or a metric is stored, every line of the file has been. */
  lemma NoLineIsSkipped(cfg: Config, id: string, p: JobParams, rows: int, acts: seq<Action>)
    requires ValidConfig(cfg)
    ensures var s := Run(cfg, Submitted(id, p, rows), acts);
            && 0 <= s.job.checkpointLine <= LastLine(cfg)
            && (forall k :: 0 <= k < |cfg.file| && cfg.file[k].line <= s.job.checkpointLine ==>
              cfg.file[k].line in s.processed)
            && (s.job.status == Completed || s.metrics != [] ==>
                  && s.job.checkpointLine == LastLine(cfg)
                  && forall k :: 0 <= k < |cfg.file| ==> cfg.file[k].line in s.processed)
  {
    SubmittedOk(cfg, id, p, rows);
    RunKeepsOk(cfg, Submitted(id, p, rows), acts);
  }
}
