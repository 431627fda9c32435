/** The replay job protocol: any number of worker attempts, possibly overlapping, on one job, with
    cancels, faults and crashes between any two repository calls. Each mutex-protected repository
    call is one atomic step; an attempt is a program counter over those steps. */
module ReplayProtocol {
  import opened Events
  import opened SequenceValidator
  import opened Store

  /** `file` is the unchanged input; `header` is 1 for CSV and 0 for JSONL. */
  datatype Config = Config(file: seq<Record>, header: nat, filter: string, every: nat, maxRetry: nat)

  ghost predicate ValidConfig(cfg: Config) {
    cfg.every > 0 && Numbered(cfg.file, cfg.header)
  }

  /** The number of the last line, or 0 when the file has no rows. */
  function LastLine(cfg: Config): int {
    if cfg.file == [] then 0 else Last(cfg.file).line
  }

  datatype Cause = ContextCanceled | OtherError(message: string)

  /** How a delivery ended, and whether the queue sees an error it may retry. */
  datatype Outcome =
    | NothingToDo
    | Finished
    | FailureWritten(cause: Cause, status: Status, retry: bool)
    | Dropped
    | Aborted
    | Crashed

  datatype Pc =
    | Loading
    | MarkingRunning
    | Reloading
    | Scanning
    | Checkpointing
    | CheckingCancel
    | FinalCheckpointing
    | SavingStats
    | SavingManifest
    | Completing
    | Failing(cause: Cause)
    | Ended(outcome: Outcome)

  /** A worker's local state: the resume line it read, rows read so far, and its validator. */
  datatype Attempt = Attempt(retried: nat, pc: Pc, resume: int, pos: nat, seen: View)

  /** History of one successful completion. */
  datatype Completion = Completion(resume: int, now: nat, metric: Metric, manifest: Manifest,
      errors: seq<ValidationError>)

  /** The job's rows in the store, the attempts, and two history variables: the lines that have been
      through `Process` in some attempt, and the completions so far. */
  datatype System = System(
    job: Job,
    fileRows: int,
    metrics: seq<Metric>,
    errors: seq<ValidationError>,
    attempts: seq<Attempt>,
    processed: set<int>,
    completions: seq<Completion>)

  datatype Action =
    | Deliver(retried: nat)
    | Work(i: nat, now: nat)
    | Fault(i: nat, cause: Cause)
    | Crash(i: nat)
    | Cancel

  // ----- Steps of one attempt -----

  function ScanRow(cfg: Config, resume: int, v: View, rec: Record): View {
    if rec.line <= resume then Primed(cfg.filter, v, rec) else Processed(cfg.filter, v, rec)
  }

  /** The validator after the first `n` rows of an attempt that resumes at line `resume`. */
  function Scan(cfg: Config, resume: int, n: nat): View
    requires n <= |cfg.file|
  {
    if n == 0 then FRESH else ScanRow(cfg, resume, Scan(cfg, resume, n - 1), cfg.file[n - 1])
  }

  lemma ScanNext(cfg: Config, resume: int, n: nat)
    requires n < |cfg.file|
    ensures Scan(cfg, resume, n + 1) == ScanRow(cfg, resume, Scan(cfg, resume, n), cfg.file[n])
  {
  }

  function KindName(kind: FailureKind): string {
    match kind
    case Malformed => "malformed"
    case SequenceGap => "sequence_gap"
    case Ordering => "ordering"
  }

  function ToErrors(jobID: string, fs: seq<Failure>): seq<ValidationError> {
    seq(|fs|, i requires 0 <= i < |fs| => ValidationError(jobID, fs[i].line, fs[i].symbol, KindName(fs[i].kind),
        fs[i].message, 0))
  }

  /** `e` is the stored form of the failure `f`. */
  predicate StoresFailure(e: ValidationError, f: Failure, jobID: string, now: nat) {
    && e.jobID == jobID && e.createdAt == now
    && e.line == f.line && e.symbol == f.symbol && e.message == f.message
    && (f.kind == Malformed ==> e.kind == "malformed")
    && (f.kind == SequenceGap ==> e.kind == "sequence_gap")
    && (f.kind == Ordering ==> e.kind == "ordering")
  }

  /** One stored error per failure, in order. */
  predicate StoresFailures(es: seq<ValidationError>, fs: seq<Failure>, jobID: string, now: nat) {
    |es| == |fs| && forall i :: 0 <= i < |fs| ==> StoresFailure(es[i], fs[i], jobID, now)
  }

  lemma StoredIffStamped(es: seq<ValidationError>, fs: seq<Failure>, jobID: string, now: nat)
    ensures StoresFailures(es, fs, jobID, now) <==> es == Stamp(jobID, now, ToErrors(jobID, fs))
  {
    var stored := Stamp(jobID, now, ToErrors(jobID, fs));
    if StoresFailures(es, fs, jobID, now) {
      forall i | 0 <= i < |fs| ensures es[i] == stored[i] {
        assert StoresFailure(es[i], fs[i], jobID, now);
      }
    }
  }

  /** How many errors have this type. */
  function CountType(name: string, es: seq<ValidationError>): nat {
    if es == [] then 0 else CountType(name, Front(es)) + (if Last(es).kind == name then 1 else 0)
  }

  /** The stored types count the failures by kind. */
  lemma {:induction false} TypesCountKinds(es: seq<ValidationError>, fs: seq<Failure>, jobID: string, now: nat)
    requires StoresFailures(es, fs, jobID, now)
    ensures CountType("malformed", es) == CountKind(Malformed, fs)
    ensures CountType("sequence_gap", es) == CountKind(SequenceGap, fs)
    ensures CountType("ordering", es) == CountKind(Ordering, fs)
  {
    if fs != [] {
      assert StoresFailure(Last(es), Last(fs), jobID, now);
      assert StoresFailures(Front(es), Front(fs), jobID, now);
      TypesCountKinds(Front(es), Front(fs), jobID, now);
    }
  }

  /** Rows reported at the end of the file: the validator's count, or the last line when that is larger. */
  function RowsOf(cfg: Config, a: Attempt): int
    requires a.pos <= |cfg.file|
  {
    var lastLine := if a.pos == 0 then 0 else cfg.file[a.pos - 1].line;
    if lastLine > a.seen.rows then lastLine else a.seen.rows
  }

  function MetricOf(rows: int, v: View): Metric {
    Metric(rows, v.events, CountKind(Malformed, v.failures), CountKind(SequenceGap, v.failures))
  }

  function ManifestOf(rows: int, resume: int, v: View): Manifest {
    Manifest(rows, rows, resume, |v.failures|, CountKind(Malformed, v.failures), CountKind(SequenceGap, v.failures))
  }

  function Put(s: System, i: nat, a: Attempt): System
    requires i < |s.attempts|
  {
    s.(attempts := s.attempts[i := a])
  }

  function FailStatus(cfg: Config, a: Attempt): Status {
    if a.retried >= cfg.maxRetry then DeadLetter else Failed
  }

  function CauseText(cause: Cause): string {
    match cause case ContextCanceled => "context canceled" case OtherError(m) => m
  }

  /** Read one row: prime it at or below the resume line, otherwise process it. */
  function ReadRow(cfg: Config, s: System, i: nat): System
    requires i < |s.attempts| && s.attempts[i].pos < |cfg.file| && cfg.every > 0
  {
    var a := s.attempts[i];
    var rec := cfg.file[a.pos];
    var next := a.(pos := a.pos + 1, seen := ScanRow(cfg, a.resume, a.seen, rec));
    if rec.line <= a.resume then Put(s, i, next)
    else
      Put(s, i, if rec.line % cfg.every == 0 then next.(pc := Checkpointing) else next)
        .(processed := s.processed + {rec.line})
  }

  /** The next atomic step of attempt `i` when nothing goes wrong. */
  function WorkStep(cfg: Config, s: System, i: nat, now: nat): System
    requires i < |s.attempts| && s.attempts[i].pos <= |cfg.file| && cfg.every > 0
  {
    var a := s.attempts[i];
    match a.pc
    case Loading =>
      if s.job.status == Canceled || s.job.status == Completed || s.job.status == DeadLetter
      then Put(s, i, a.(pc := Ended(NothingToDo)))
      else Put(s, i, a.(pc := MarkingRunning))
    case MarkingRunning =>
      Put(s, i, a.(pc := Reloading)).(job := WithStatus(s.job, Running, ""))
    case Reloading =>
      if s.job.status == Canceled
      then Put(s, i, a.(pc := Ended(NothingToDo)))
      else Put(s, i, a.(pc := Scanning, resume := s.job.checkpointLine, pos := 0, seen := FRESH))
    case Scanning =>
      if a.pos < |cfg.file| then ReadRow(cfg, s, i)
      else Put(s, i, a.(pc := FinalCheckpointing))
    case Checkpointing =>
      Put(s, i, a.(pc := CheckingCancel))
        .(job := if a.pos == 0 then s.job else WithCheckpoint(s.job, cfg.file[a.pos - 1].line))
    case CheckingCancel =>
      Put(s, i, a.(pc := if s.job.status == Canceled then Failing(ContextCanceled) else Scanning))
    case FinalCheckpointing =>
      Put(s, i, a.(pc := SavingStats)).(job := WithCheckpoint(s.job, RowsOf(cfg, a)))
    case SavingStats =>
      Put(s, i, a.(pc := SavingManifest)).(fileRows := RowsOf(cfg, a))
    case SavingManifest =>
      Put(s, i, a.(pc := Completing)).(job := WithManifest(s.job, ManifestOf(RowsOf(cfg, a), a.resume, a.seen)))
    case Completing =>
      var metric := MetricOf(RowsOf(cfg, a), a.seen);
      var errors := Stamp(s.job.id, now, ToErrors(s.job.id, a.seen.failures));
      Put(s, i, a.(pc := Ended(Finished)))
        .(job := AsCompleted(s.job),
          metrics := s.metrics + [metric],
          errors := s.errors + errors,
          completions := s.completions
              + [Completion(a.resume, now, metric, ManifestOf(RowsOf(cfg, a), a.resume, a.seen), errors)])
    case Failing(cause) =>
      var status := FailStatus(cfg, a);
      Put(s, i, a.(pc := Ended(FailureWritten(cause, status, status == Failed && cause != ContextCanceled))))
        .(job := WithStatus(s.job, status, CauseText(cause)))
    case Ended(_) => s
  }

  /** An error instead of the next step: a failed call, an unreadable file or a done context. */
  function FaultStep(s: System, i: nat, cause: Cause): System
    requires i < |s.attempts|
  {
    var a := s.attempts[i];
    Put(s, i, a.(pc :=
      match a.pc
      case Loading => Ended(Dropped)
      case MarkingRunning => Ended(Aborted)
      case Failing(_) => Ended(Aborted)
      case Ended(o) => Ended(o)
      case _ => Failing(cause)))
  }

  /** The effect of any action; an action on an attempt that does not exist changes nothing. */
  function Step(cfg: Config, s: System, act: Action): System {
    match act
    case Deliver(retried) => s.(attempts := s.attempts + [Attempt(retried, Loading, 0, 0, FRESH)])
    case Cancel => s.(job := WithStatus(s.job, Canceled, ""))
    case Work(i, now) =>
      if i < |s.attempts| && s.attempts[i].pos <= |cfg.file| && cfg.every > 0 then WorkStep(cfg, s, i, now) else s
    case Fault(i, cause) => if i < |s.attempts| then FaultStep(s, i, cause) else s
    case Crash(i) =>
      if i < |s.attempts| && !s.attempts[i].pc.Ended? then Put(s, i, s.attempts[i].(pc := Ended(Crashed))) else s
  }

  function Run(cfg: Config, s: System, acts: seq<Action>): System
    decreases |acts|
  {
    if acts == [] then s else Run(cfg, Step(cfg, s, acts[0]), acts[1..])
  }

  /** A job that has just been created and has no attempts; its file may have been counted before. */
  function Submitted(id: string, p: JobParams, rows: int): System {
    System(NewJob(id, p), rows, [], [], [], {}, [])
  }

  lemma {:induction false} RunAppend(cfg: Config, s: System, a: seq<Action>, b: seq<Action>)
    ensures Run(cfg, s, a + b) == Run(cfg, Run(cfg, s, a), b)
    decreases |a|
  {
    if a == [] {
      assert a + b == b;
    } else {
      RunAppend(cfg, Step(cfg, s, a[0]), a[1..], b);
      assert (a + b)[1..] == a[1..] + b;
    }
  }
}
