/** Non-overlapping deliveries, and what a cancel can and cannot stop. */
module Cancellation {
  import opened Events
  import opened SequenceValidator
  import opened Store
  import opened ReplayProtocol
  import opened NoLineSkipped
  import opened Arithmetic

  predicate Live(a: Attempt) {
    !a.pc.Ended?
  }

  predicate Quiet(s: System) {
    forall i :: 0 <= i < |s.attempts| ==> !Live(s.attempts[i])
  }

  // ----- At-most-once completion -----

  /** The queue does not deliver while an earlier attempt is still running. */
  function SerialStep(cfg: Config, s: System, act: Action): System {
    if act.Deliver? && !Quiet(s) then s else Step(cfg, s, act)
  }

  function SerialRun(cfg: Config, s: System, acts: seq<Action>): System
    decreases |acts|
  {
    if acts == [] then s else SerialRun(cfg, SerialStep(cfg, s, acts[0]), acts[1..])
  }

  predicate OneLive(s: System) {
    forall i :: 0 <= i < |s.attempts| - 1 ==> !Live(s.attempts[i])
  }

  predicate Settled(s: System) {
    s.job.status == Completed || s.job.status == Canceled
  }

  /** At most one attempt is live; after a completion nothing but the first check is ever reached. */
  predicate Once(s: System) {
    && OneLive(s)
    && |s.metrics| <= 1
    && (s.metrics != [] ==> Settled(s) && forall i :: 0 <= i < |s.attempts| ==>
      s.attempts[i].pc.Loading? || !Live(s.attempts[i]))
  }

  lemma WorkKeepsOnce(cfg: Config, s: System, i: nat, now: nat)
    requires Once(s) && i < |s.attempts| && s.attempts[i].pos <= |cfg.file| && cfg.every > 0
    ensures Once(WorkStep(cfg, s, i, now))
  {
    var t := WorkStep(cfg, s, i, now);
    WorkTouchesOne(cfg, s, i, now);
    if s.attempts[i].pc.Completing? {
      assert s.metrics == [];
    }
  }

  /** A step of one attempt leaves the others alone, and only `Completing` stores a metric. */
  lemma WorkTouchesOne(cfg: Config, s: System, i: nat, now: nat)
    requires i < |s.attempts| && s.attempts[i].pos <= |cfg.file| && cfg.every > 0
    ensures var t := WorkStep(cfg, s, i, now);
            && |t.attempts| == |s.attempts|
            && (forall j :: 0 <= j < |s.attempts| && j != i ==> t.attempts[j] == s.attempts[j])
            && (s.attempts[i].pc.Ended? ==> t == s)
            && (!s.attempts[i].pc.Completing? ==> t.metrics == s.metrics && t.errors == s.errors)
            && (s.attempts[i].pc.Loading? ==> t.job == s.job && t.processed == s.processed)
            && (s.attempts[i].pc.Loading? && Settled(s) ==> t.attempts[i].pc == Ended(NothingToDo))
            && (s.attempts[i].pc.Completing? ==>
              t.job.status == Completed && !Live(t.attempts[i]) && |t.metrics| == |s.metrics| + 1)
  {
  }

  lemma SerialStepKeepsOnce(cfg: Config, s: System, act: Action)
    requires Once(s)
    ensures Once(SerialStep(cfg, s, act))
  {
    match act
    case Work(i, now) =>
      if i < |s.attempts| && s.attempts[i].pos <= |cfg.file| && cfg.every > 0 {
        WorkKeepsOnce(cfg, s, i, now);
      }
    case _ =>
  }

  lemma {:induction false} SerialRunKeepsOnce(cfg: Config, s: System, acts: seq<Action>)
    requires Once(s)
    ensures Once(SerialRun(cfg, s, acts))
    decreases |acts|
  {
    if acts != [] {
      SerialStepKeepsOnce(cfg, s, acts[0]);
      SerialRunKeepsOnce(cfg, SerialStep(cfg, s, acts[0]), acts[1..]);
    }
  }

  /** AT MOST ONCE. When deliveries do not overlap, with crashes, faults and cancels at any step, at most one
      metric is ever stored, and once it is stored the job stays completed or canceled. */
  lemma AtMostOneCompletion(cfg: Config, id: string, p: JobParams, rows: int, acts: seq<Action>)
    ensures var s := SerialRun(cfg, Submitted(id, p, rows), acts);
            |s.metrics| <= 1 && (s.metrics != [] ==> s.job.status == Completed || s.job.status == Canceled)
  {
    SerialRunKeepsOnce(cfg, Submitted(id, p, rows), acts);
  }

  /** Attempt `i` working alone for `n` steps. */
  function WorkAlone(i: nat, n: nat): seq<Action> {
    seq(n, _ => Work(i, 1))
  }

  lemma WorkOnce(cfg: Config, s: System, i: nat, n: nat)
    requires n > 0
    ensures Run(cfg, s, WorkAlone(i, n)) == Run(cfg, Step(cfg, s, Work(i, 1)), WorkAlone(i, n - 1))
  {
    assert WorkAlone(i, n)[1..] == WorkAlone(i, n - 1);
  }

  // ----- When a cancel sticks -----

  /** An attempt that has not made its first check yet, or has ended. */
  predicate Idle(a: Attempt) {
    a.pc.Loading? || a.pc.Ended?
  }

  predicate AllIdle(s: System) {
    forall i :: 0 <= i < |s.attempts| ==> Idle(s.attempts[i])
  }

  /** The job is canceled and no attempt has passed the first check since. */
  predicate Frozen(s: System) {
    s.job.status == Canceled && AllIdle(s)
  }

  predicate SameResults(s: System, t: System) {
    && t.job.status == s.job.status && t.job.checkpointLine == s.job.checkpointLine
    && t.job.manifest == s.job.manifest && t.fileRows == s.fileRows
    && t.metrics == s.metrics && t.errors == s.errors && t.processed == s.processed
  }

  lemma FrozenStep(cfg: Config, s: System, act: Action)
    requires Frozen(s)
    ensures Frozen(Step(cfg, s, act)) && SameResults(s, Step(cfg, s, act))
  {
  }

  lemma {:induction false} FrozenRun(cfg: Config, s: System, acts: seq<Action>)
    requires Frozen(s)
    ensures Frozen(Run(cfg, s, acts)) && SameResults(s, Run(cfg, s, acts))
    decreases |acts|
  {
    if acts != [] {
      FrozenStep(cfg, s, acts[0]);
      FrozenRun(cfg, Step(cfg, s, acts[0]), acts[1..]);
    }
  }

  /** A cancel that lands while every attempt is idle freezes checkpoint, manifest, metrics, errors and file
      statistics against every later action, overlapping deliveries included. */
  lemma IdleCancelFreezes(cfg: Config, s: System, acts: seq<Action>)
    requires AllIdle(s)
    ensures var t := Run(cfg, Step(cfg, s, Cancel), acts);
            && t.job.status == Canceled && t.job.checkpointLine == s.job.checkpointLine
            && t.job.manifest == s.job.manifest && t.fileRows == s.fileRows
            && t.metrics == s.metrics && t.errors == s.errors && t.processed == s.processed
  {
    assert Frozen(Step(cfg, s, Cancel));
    FrozenRun(cfg, Step(cfg, s, Cancel), acts);
  }

  /** What attempt `i` can write over the status at once: "running" if that is its next step, otherwise
      the status of a failure. */
  function Overwrite(cfg: Config, a: Attempt): Status {
    if a.pc.MarkingRunning? then Running else FailStatus(cfg, a)
  }

  lemma Overwrites(cfg: Config, s: System, i: nat) returns (acts: seq<Action>)
    requires cfg.every > 0 && i < |s.attempts| && s.attempts[i].pos <= |cfg.file| && !Idle(s.attempts[i])
    ensures var t := Run(cfg, s, acts);
            && t.job.status == Overwrite(cfg, s.attempts[i]) && t.metrics == s.metrics && |t.attempts| == |s.attempts|
            && forall j :: 0 <= j < |s.attempts| && j != i ==> t.attempts[j] == s.attempts[j]
  {
    if s.attempts[i].pc.MarkingRunning? || s.attempts[i].pc.Failing? {
      acts := [Work(i, 0)];
      RunOne(cfg, s, Work(i, 0));
    } else {
      acts := [Fault(i, OtherError("")), Work(i, 0)];
      RunTwo(cfg, s, acts);
      assert acts[2..] == [];
    }
  }

  /** EXACT CONDITION. A cancel is never overwritten, whatever happens next, if and only if it lands while
      every attempt is idle: any other attempt can still write "running", "failed" or "dlq" over it. */
  lemma CancelSticksIff(cfg: Config, s: System)
    requires ValidConfig(cfg) && SystemOk(cfg, s)
    ensures (forall acts :: Run(cfg, Step(cfg, s, Cancel), acts).job.status == Canceled) <==> AllIdle(s)
  {
    var c := Step(cfg, s, Cancel);
    if AllIdle(s) {
      forall acts ensures Run(cfg, c, acts).job.status == Canceled {
        IdleCancelFreezes(cfg, s, acts);
      }
    } else {
      var i :| 0 <= i < |s.attempts| && !Idle(s.attempts[i]);
      assert AttemptOk(cfg, s.processed, s.job.checkpointLine, s.attempts[i]);
      var acts := Overwrites(cfg, c, i);
    }
  }

  /** An attempt that sees the cancel at a checkpoint ends by writing "failed" or "dlq" over it, never
      "canceled", and its failure is not retried. */
  lemma SeenCancelIsOverwritten(cfg: Config, s: System, i: nat)
    requires cfg.every > 0 && i < |s.attempts| && s.attempts[i].pos <= |cfg.file|
    requires s.attempts[i].pc.CheckingCancel? && s.job.status == Canceled
    ensures var t := Run(cfg, s, [Work(i, 0), Work(i, 0)]);
            && t.job.status == FailStatus(cfg, s.attempts[i]) && (t.job.status == Failed || t.job.status == DeadLetter)
            && i < |t.attempts| && t.attempts[i].pc == Ended(FailureWritten(ContextCanceled, t.job.status, false))
  {
    RunTwo(cfg, s, [Work(i, 0), Work(i, 0)]);
    assert [Work(i, 0), Work(i, 0)][2..] == [];
    assert Step(cfg, s, Work(i, 0)).attempts[i].pc == Failing(ContextCanceled);
  }

  // ----- How far an attempt goes after a cancel -----

  predicate OthersIdle(s: System, i: nat) {
    forall j :: 0 <= j < |s.attempts| && j != i ==> Idle(s.attempts[j])
  }

  function Max(a: int, b: int): int {
    if a >= b then a else b
  }

  /** Rows an in-flight attempt may still process before it looks at the status again. */
  function Budget(cfg: Config, a: Attempt): int
    requires cfg.every > 0 && a.pos <= |cfg.file|
  {
    if a.pc.Scanning? then cfg.every - Max(cfg.header + a.pos, a.resume) % cfg.every else 0
  }

  /** A worker that has written "running" is past the first two steps. */
  predicate Started(pc: Pc) {
    !pc.Loading? && !pc.MarkingRunning?
  }

  /** Attempt `i` is over, or the cancel still stands and nobody else can overwrite it. */
  predicate CancelPending(s: System, i: nat)
    requires i < |s.attempts|
  {
    s.attempts[i].pc.Failing? || s.attempts[i].pc.Ended? || (s.job.status == Canceled && OthersIdle(s, i))
  }

  predicate Draining(cfg: Config, s: System, i: nat) {
    && i < |s.attempts| && s.attempts[i].pos <= |cfg.file| && Started(s.attempts[i].pc) && CancelPending(s, i)
    && (InFile(s.attempts[i].pc) ==> s.attempts[i].resume >= 0)
  }

  /** Each processed row uses one unit of the budget; nothing else raises it. */
  lemma DrainRow(cfg: Config, a: Attempt, s: System, i: nat)
    requires ValidConfig(cfg) && i < |s.attempts| && a == s.attempts[i]
    requires a.pc.Scanning? && a.pos < |cfg.file| && a.resume >= 0
    ensures var b := ReadRow(cfg, s, i).attempts[i];
            && b.resume == a.resume && b.pos <= |cfg.file|
            && b.seen.rows + Budget(cfg, b) <= a.seen.rows + Budget(cfg, a)
  {
    var b := ReadRow(cfg, s, i).attempts[i];
    var line := cfg.file[a.pos].line;
    assert line == cfg.header + a.pos + 1;
    if line > a.resume {
      assert b.seen.rows == a.seen.rows + 1;
      if line % cfg.every != 0 {
        NextMod(line - 1, cfg.every);
      }
    }
  }

  ghost predicate NotFurther(cfg: Config, a: Attempt, b: Attempt)
    requires cfg.every > 0 && a.pos <= |cfg.file| && b.pos <= |cfg.file|
  {
    b.seen.rows + Budget(cfg, b) <= a.seen.rows + Budget(cfg, a)
  }

  lemma DrainWork(cfg: Config, s: System, i: nat, now: nat)
    requires ValidConfig(cfg) && Draining(cfg, s, i)
    ensures var t := WorkStep(cfg, s, i, now); Draining(cfg, t, i) && NotFurther(cfg, s.attempts[i], t.attempts[i])
  {
    WorkTouchesOne(cfg, s, i, now);
    if s.attempts[i].pc.Scanning? && s.attempts[i].pos < |cfg.file| {
      DrainRow(cfg, s.attempts[i], s, i);
    }
  }

  /** While the cancel stands, an idle attempt leaves the store alone and stays idle. */
  lemma IdleWork(cfg: Config, s: System, j: nat, now: nat)
    requires j < |s.attempts| && s.attempts[j].pos <= |cfg.file| && cfg.every > 0
    requires Idle(s.attempts[j]) && s.job.status == Canceled
    ensures var t := WorkStep(cfg, s, j, now); t.job == s.job && t.metrics == s.metrics && t.attempts[j].pc.Ended?
  {
  }

  lemma DrainStep(cfg: Config, s: System, i: nat, act: Action)
    requires ValidConfig(cfg) && Draining(cfg, s, i)
    ensures var t := Step(cfg, s, act); Draining(cfg, t, i) && NotFurther(cfg, s.attempts[i], t.attempts[i])
  {
    if act.Work? && act.i < |s.attempts| && s.attempts[act.i].pos <= |cfg.file| {
      if act.i == i {
        DrainWork(cfg, s, i, act.now);
      } else {
        WorkTouchesOne(cfg, s, act.i, act.now);
        if s.job.status == Canceled && Idle(s.attempts[act.i]) {
          IdleWork(cfg, s, act.i, act.now);
        }
      }
    }
  }

  lemma {:induction false} DrainRun(cfg: Config, s: System, i: nat, acts: seq<Action>)
    requires ValidConfig(cfg) && Draining(cfg, s, i)
    ensures var t := Run(cfg, s, acts); Draining(cfg, t, i) && NotFurther(cfg, s.attempts[i], t.attempts[i])
    decreases |acts|
  {
    if acts != [] {
      DrainStep(cfg, s, i, acts[0]);
      DrainRun(cfg, Step(cfg, s, acts[0]), i, acts[1..]);
    }
  }

  /** A cancel that lands after the running write, with nobody else past its first check, lets that attempt
      process at most `every` more rows, whatever happens next. */
  lemma CancelBoundsRows(cfg: Config, s: System, i: nat, acts: seq<Action>)
    requires ValidConfig(cfg) && SystemOk(cfg, s)
    requires i < |s.attempts| && Started(s.attempts[i].pc) && OthersIdle(s, i)
    ensures var t := Run(cfg, Step(cfg, s, Cancel), acts);
            i < |t.attempts| && t.attempts[i].seen.rows <= s.attempts[i].seen.rows + cfg.every
  {
    assert AttemptOk(cfg, s.processed, s.job.checkpointLine, s.attempts[i]);
    var c := Step(cfg, s, Cancel);
    assert c.attempts == s.attempts && c.job.status == Canceled;
    DrainRun(cfg, c, i, acts);
  }

  // ----- Exactly when a cancel stops an attempt -----

  /** Some row the attempt has still to process ends on a checkpoint line. */
  predicate BoundaryAhead(cfg: Config, a: Attempt)
    requires cfg.every > 0
  {
    exists k :: a.pos <= k < |cfg.file| && cfg.file[k].line > a.resume && cfg.file[k].line % cfg.every == 0
  }

  /** The attempt has ended or failed, or reads the status once more before it writes "running" or results:
      at its first check, at its second, or at a checkpoint line. */
  predicate LooksAgain(cfg: Config, a: Attempt)
    requires cfg.every > 0
  {
    match a.pc
    case Scanning => BoundaryAhead(cfg, a)
    case MarkingRunning => false
    case FinalCheckpointing => false
    case SavingStats => false
    case SavingManifest => false
    case Completing => false
    case _ => true
  }

  predicate Over(a: Attempt) {
    a.pc.Failing? || a.pc.Ended?
  }

  /** Past its running write and without a retry left, an attempt can only write "completed" or "dlq". */
  predicate Spent(cfg: Config, a: Attempt) {
    !a.pc.MarkingRunning? && a.retried >= cfg.maxRetry
  }

  predicate OthersSpent(cfg: Config, s: System, i: nat) {
    forall j :: 0 <= j < |s.attempts| && j != i ==> Idle(s.attempts[j]) || Spent(cfg, s.attempts[j])
  }

  /** Attempt `i` is over, or has a status check ahead and nobody can make it read anything that lets it go
      on: the first check stops at every settled status, the later ones at "canceled" only. */
  predicate MustStop(cfg: Config, s: System, i: nat)
    requires cfg.every > 0 && i < |s.attempts|
  {
    || Over(s.attempts[i])
    || (LooksAgain(cfg, s.attempts[i]) && OthersIdle(s, i))
    || (s.attempts[i].pc.Loading? && OthersSpent(cfg, s, i))
  }

  predicate SettledStatus(status: Status) {
    status == Canceled || status == Completed || status == DeadLetter
  }

  predicate HasFinished(s: System, i: nat) {
    i < |s.attempts| && s.attempts[i].pc == Ended(Finished)
  }

  ghost predicate NeverFinishes(cfg: Config, s: System, i: nat) {
    forall acts :: !HasFinished(Run(cfg, s, acts), i)
  }

  /** What holds from the cancel on. */
  predicate Stopping(cfg: Config, s: System, i: nat)
    requires cfg.every > 0
  {
    && i < |s.attempts| && !HasFinished(s, i)
    && (|| Over(s.attempts[i])
        || (s.job.status == Canceled && LooksAgain(cfg, s.attempts[i]) && OthersIdle(s, i))
        || (SettledStatus(s.job.status) && s.attempts[i].pc.Loading? && OthersSpent(cfg, s, i)))
  }

  /** The attempt's own steps: it reads "canceled" before it can store anything. */
  lemma StoppingWork(cfg: Config, s: System, i: nat, now: nat)
    requires ValidConfig(cfg) && Stopping(cfg, s, i) && s.attempts[i].pos <= |cfg.file|
    ensures Stopping(cfg, WorkStep(cfg, s, i, now), i)
  {
    var a, t := s.attempts[i], WorkStep(cfg, s, i, now);
    WorkTouchesOne(cfg, s, i, now);
    if a.pc.Scanning? {
      var k :| a.pos <= k < |cfg.file| && cfg.file[k].line > a.resume && cfg.file[k].line % cfg.every == 0;
      if t.attempts[i].pc.Scanning? {
        assert k != a.pos;
        assert BoundaryAhead(cfg, t.attempts[i]);
      }
    }
  }

  /** A spent attempt stays spent and leaves the status settled. */
  lemma SpentWork(cfg: Config, s: System, j: nat, now: nat)
    requires j < |s.attempts| && s.attempts[j].pos <= |cfg.file| && cfg.every > 0 && SettledStatus(s.job.status)
    requires Idle(s.attempts[j]) || Spent(cfg, s.attempts[j])
    ensures var t := WorkStep(cfg, s, j, now);
            SettledStatus(t.job.status) && (Idle(t.attempts[j]) || Spent(cfg, t.attempts[j]))
  {
  }

  lemma StoppingStep(cfg: Config, s: System, i: nat, act: Action)
    requires ValidConfig(cfg) && Stopping(cfg, s, i)
    ensures Stopping(cfg, Step(cfg, s, act), i)
  {
    if act.Work? && act.i < |s.attempts| && s.attempts[act.i].pos <= |cfg.file| {
      if act.i == i {
        StoppingWork(cfg, s, i, act.now);
      } else {
        WorkTouchesOne(cfg, s, act.i, act.now);
        if s.job.status == Canceled && Idle(s.attempts[act.i]) {
          IdleWork(cfg, s, act.i, act.now);
        } else if SettledStatus(s.job.status) && Spent(cfg, s.attempts[act.i]) {
          SpentWork(cfg, s, act.i, act.now);
        }
      }
    }
  }

  /** An attempt that must stop never finishes, deliveries and overlapping attempts included. */
  lemma {:induction false} StoppingRun(cfg: Config, s: System, i: nat, acts: seq<Action>)
    requires ValidConfig(cfg) && Stopping(cfg, s, i)
    ensures Stopping(cfg, Run(cfg, s, acts), i)
    decreases |acts|
  {
    if acts != [] {
      StoppingStep(cfg, s, i, acts[0]);
      StoppingRun(cfg, Step(cfg, s, acts[0]), i, acts[1..]);
    }
  }

  /** Attempt `i`, left alone, will not see a cancel. */
  predicate Unstoppable(cfg: Config, s: System, i: nat)
    requires cfg.every > 0
  {
    && i < |s.attempts| && !Over(s.attempts[i]) && s.attempts[i].pos <= |cfg.file|
    && (LooksAgain(cfg, s.attempts[i]) ==> s.job.status != Canceled && !s.attempts[i].pc.Loading?)
  }

  function Stage(pc: Pc): nat {
    match pc
    case MarkingRunning => 6
    case Reloading => 5
    case FinalCheckpointing => 3
    case SavingStats => 2
    case SavingManifest => 1
    case Completing => 0
    case _ => 4
  }

  function Substage(pc: Pc): nat {
    if pc.Checkpointing? then 2 else if pc.CheckingCancel? then 1 else 0
  }

  lemma UnstoppableStep(cfg: Config, s: System, i: nat)
    requires cfg.every > 0 && Unstoppable(cfg, s, i) && !s.attempts[i].pc.Completing?
    ensures var t := Step(cfg, s, Work(i, 1));
            var a, b := s.attempts[i], t.attempts[i];
            && Unstoppable(cfg, t, i) && t.metrics == s.metrics
            && (|| Stage(b.pc) < Stage(a.pc)
                || (Stage(b.pc) == Stage(a.pc) && b.pos > a.pos)
                || (Stage(b.pc) == Stage(a.pc) && b.pos == a.pos && Substage(b.pc) < Substage(a.pc)))
  {
    var a, b := s.attempts[i], Step(cfg, s, Work(i, 1)).attempts[i];
    if a.pc.Scanning? && b.pc.Scanning? && BoundaryAhead(cfg, b) {
      var k :| b.pos <= k < |cfg.file| && cfg.file[k].line > b.resume && cfg.file[k].line % cfg.every == 0;
      assert BoundaryAhead(cfg, a);
    }
  }

  /** Left alone, such an attempt runs to the end and completes the job. */
  lemma {:induction false} RunsToCompletion(cfg: Config, s: System, i: nat) returns (n: nat)
    requires cfg.every > 0 && Unstoppable(cfg, s, i)
    ensures var t := Run(cfg, s, WorkAlone(i, n));
            t.job.status == Completed && |t.metrics| == |s.metrics| + 1 && HasFinished(t, i)
    decreases Stage(s.attempts[i].pc), |cfg.file| - s.attempts[i].pos, Substage(s.attempts[i].pc)
  {
    var t := Step(cfg, s, Work(i, 1));
    if s.attempts[i].pc.Completing? {
      n := 1;
      assert Run(cfg, t, WorkAlone(i, 0)) == t;
    } else {
      UnstoppableStep(cfg, s, i);
      var m := RunsToCompletion(cfg, t, i);
      n := m + 1;
    }
    WorkOnce(cfg, s, i, n);
  }

  /** Otherwise someone overwrites the cancel, if need be, and the attempt finishes. */
  lemma CanFinish(cfg: Config, c: System, i: nat) returns (acts: seq<Action>)
    requires ValidConfig(cfg) && SystemOk(cfg, c) && c.job.status == Canceled
    requires i < |c.attempts| && !MustStop(cfg, c, i)
    ensures HasFinished(Run(cfg, c, acts), i)
  {
    assert AttemptOk(cfg, c.processed, c.job.checkpointLine, c.attempts[i]);
    var a, first := c.attempts[i], [];
    if LooksAgain(cfg, a) {
      var j :| 0 <= j < |c.attempts| && j != i && !Idle(c.attempts[j])
               && (a.pc.Loading? ==> !Spent(cfg, c.attempts[j]));
      assert AttemptOk(cfg, c.processed, c.job.checkpointLine, c.attempts[j]);
      first := Overwrites(cfg, c, j);
      var d := Run(cfg, c, first);
      assert d.attempts[i] == a && d.job.status != Canceled;
      if a.pc.Loading? {
        RunAppend(cfg, c, first, [Work(i, 1)]);
        RunOne(cfg, d, Work(i, 1));
        first := first + [Work(i, 1)];
      }
    }
    var n := RunsToCompletion(cfg, Run(cfg, c, first), i);
    RunAppend(cfg, c, first, WorkAlone(i, n));
    acts := first + WorkAlone(i, n);
  }

  /** EXACT CONDITION. After a cancel attempt `i` never finishes, whatever happens next, if and only if it must
      stop: it is over already, or it has a status check ahead that nobody can spoil. */
  lemma CancelStopsAttemptIff(cfg: Config, s: System, i: nat)
    requires ValidConfig(cfg) && SystemOk(cfg, s) && i < |s.attempts| && !HasFinished(s, i)
    ensures NeverFinishes(cfg, Step(cfg, s, Cancel), i) <==> MustStop(cfg, s, i)
  {
    var c := Step(cfg, s, Cancel);
    assert c.attempts == s.attempts && c.job.status == Canceled;
    if MustStop(cfg, s, i) {
      forall acts ensures !HasFinished(Run(cfg, c, acts), i) {
        StoppingRun(cfg, c, i, acts);
      }
    } else {
      CancelKeepsOk(cfg, s);
      assert !MustStop(cfg, c, i);
      var acts := CanFinish(cfg, c, i);
      assert HasFinished(Run(cfg, c, acts), i);
    }
  }

  // ----- Short runs -----

  lemma RunOne(cfg: Config, s: System, act: Action)
    ensures Run(cfg, s, [act]) == Step(cfg, s, act)
  {
    assert [act][1..] == [];
  }

  lemma RunTwo(cfg: Config, s: System, acts: seq<Action>)
    requires |acts| >= 2
    ensures Run(cfg, s, acts) == Run(cfg, Step(cfg, Step(cfg, s, acts[0]), acts[1]), acts[2..])
  {
    assert acts[1..][1..] == acts[2..];
  }
}
