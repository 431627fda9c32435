/** Which failures a completed job can lack. */
module Losses {
  import opened Events
  import opened SequenceValidator
  import opened Projections
  import opened Resume
  import opened Store
  import opened ReplayProtocol
  import opened NoLineSkipped
  import opened Completions
  import opened Cancellation
  import opened Retry
  import opened CanceledRetries

  // ----- A retry that stores nothing -----

  /** A step that neither completes nor fails stores nothing and settles nothing. */
  lemma WorkStoresNothing(cfg: Config, s: System, i: nat)
    requires cfg.every > 0 && Unstoppable(cfg, s, i) && !s.attempts[i].pc.Completing?
    ensures var t := Step(cfg, s, Work(i, 1));
            && t.completions == s.completions && |t.attempts| == |s.attempts|
            && (!SettledStatus(s.job.status) ==> !SettledStatus(t.job.status))
            && (s.attempts[i].pc.FinalCheckpointing? ==> t.attempts[i].pc.SavingStats?)
            && (Stage(s.attempts[i].pc) >= 4 ==> Stage(t.attempts[i].pc) >= 3)
            && (InFile(t.attempts[i].pc) ==>
                  t.attempts[i].resume == if s.attempts[i].pc.Reloading? then s.job.checkpointLine
                      else s.attempts[i].resume)
  {
    WorkTouchesOne(cfg, s, i, 1);
  }

  /** Left alone, an attempt that will not be stopped gets past its final checkpoint. */
  lemma {:induction false} ReachesSaving(cfg: Config, s: System, i: nat) returns (n: nat)
    requires cfg.every > 0 && Unstoppable(cfg, s, i) && Stage(s.attempts[i].pc) >= 3 && !SettledStatus(s.job.status)
    ensures var t := Run(cfg, s, WorkAlone(i, n));
            && |t.attempts| == |s.attempts| && t.attempts[i].pc.SavingStats?
            && t.completions == s.completions && !SettledStatus(t.job.status)
    decreases Stage(s.attempts[i].pc), |cfg.file| - s.attempts[i].pos, Substage(s.attempts[i].pc)
  {
    var t := Step(cfg, s, Work(i, 1));
    WorkStoresNothing(cfg, s, i);
    if s.attempts[i].pc.FinalCheckpointing? {
      n := 1;
      assert Run(cfg, t, WorkAlone(i, 0)) == t;
    } else {
      UnstoppableStep(cfg, s, i);
      var m := ReachesSaving(cfg, t, i);
      n := m + 1;
    }
    WorkOnce(cfg, s, i, n);
  }

  /** Once the checkpoint is the last line, attempt `i` resumes there if it is not past its second read. */
  ghost predicate AtLastLine(cfg: Config, s: System, i: nat) {
    && i < |s.attempts| && s.job.checkpointLine == LastLine(cfg)
    && (InFile(s.attempts[i].pc) ==> s.attempts[i].resume == LastLine(cfg))
  }

  lemma LastLineStays(cfg: Config, s: System, i: nat)
    requires ValidConfig(cfg) && SystemOk(cfg, s) && AtLastLine(cfg, s, i)
    requires Unstoppable(cfg, s, i) && !s.attempts[i].pc.Completing?
    ensures SystemOk(cfg, Step(cfg, s, Work(i, 1))) && AtLastLine(cfg, Step(cfg, s, Work(i, 1)), i)
  {
    StepKeepsOk(cfg, s, Work(i, 1));
    StepMovesForward(cfg, s, Work(i, 1));
    WorkStoresNothing(cfg, s, i);
    UnstoppableStep(cfg, s, i);
  }

  lemma {:induction false} CompletesAtEnd(cfg: Config, s: System, i: nat) returns (n: nat)
    requires ValidConfig(cfg) && SystemOk(cfg, s) && AtLastLine(cfg, s, i) && Unstoppable(cfg, s, i)
    requires s.completions == []
    ensures var t := Run(cfg, s, WorkAlone(i, n)); |t.completions| == 1 && t.completions[0].resume == LastLine(cfg)
    decreases Stage(s.attempts[i].pc), |cfg.file| - s.attempts[i].pos, Substage(s.attempts[i].pc)
  {
    var t := Step(cfg, s, Work(i, 1));
    if s.attempts[i].pc.Completing? {
      n := 1;
      assert Run(cfg, t, WorkAlone(i, 0)) == t;
    } else {
      LastLineStays(cfg, s, i);
      UnstoppableStep(cfg, s, i);
      WorkStoresNothing(cfg, s, i);
      var m := CompletesAtEnd(cfg, t, i);
      n := m + 1;
    }
    WorkOnce(cfg, s, i, n);
  }

  /** A scan that resumes at the last line reports nothing. */
  lemma NothingPastEnd(cfg: Config)
    requires ValidConfig(cfg)
    ensures 0 <= LastLine(cfg) && Scan(cfg, LastLine(cfg), |cfg.file|).failures == []
  {
    LinesInFile(cfg);
    ScanTail(cfg, LastLine(cfg));
    assert RowsUpTo(cfg, LastLine(cfg)) == |cfg.file|;
    assert cfg.file[|cfg.file|..] == [];
  }

  /** The first delivery up to the final checkpoint, and its crash there. */
  lemma CrashAtEnd(cfg: Config, id: string, p: JobParams, rows: int) returns (acts: seq<Action>)
    requires ValidConfig(cfg)
    ensures var s := Run(cfg, Submitted(id, p, rows), acts);
            && |s.attempts| == 1 && s.attempts[0].pc == Ended(Crashed) && s.completions == []
            && s.job.checkpointLine == LastLine(cfg) && !SettledStatus(s.job.status)
  {
    var s := Submitted(id, p, rows);
    var opening := [Deliver(0), Work(0, 1)];
    RunTwo(cfg, s, opening);
    assert opening[2..] == [];
    var t := Run(cfg, s, opening);
    var n := ReachesSaving(cfg, t, 0);
    RunAppend(cfg, s, opening, WorkAlone(0, n));
    var u := Run(cfg, s, opening + WorkAlone(0, n));
    SubmittedOk(cfg, id, p, rows);
    RunKeepsOk(cfg, s, opening + WorkAlone(0, n));
    assert AttemptOk(cfg, u.processed, u.job.checkpointLine, u.attempts[0]);
    RunAppend(cfg, s, opening + WorkAlone(0, n), [Crash(0)]);
    RunOne(cfg, u, Crash(0));
    acts := opening + WorkAlone(0, n) + [Crash(0)];
  }

  /** COUNTEREXAMPLE, for every file. A crash after the final checkpoint and before the results are stored: the
      retry resumes at the last line and completes the job with no error, whatever the file contains. */
  lemma LostAll(cfg: Config, id: string, p: JobParams, rows: int) returns (acts: seq<Action>)
    requires ValidConfig(cfg)
    ensures var s := Run(cfg, Submitted(id, p, rows), acts);
            |s.completions| == 1 && s.completions[0].resume == LastLine(cfg) && s.errors == []
                && s.completions[0].errors == []
  {
    var first := CrashAtEnd(cfg, id, p, rows);
    var s := Run(cfg, Submitted(id, p, rows), first);
    var again := [Deliver(0), Work(1, 1)];
    RunTwo(cfg, s, again);
    assert again[2..] == [];
    var t := Run(cfg, s, again);
    SubmittedOk(cfg, id, p, rows);
    RunKeepsOk(cfg, Submitted(id, p, rows), first);
    RunKeepsOk(cfg, s, again);
    assert t.attempts[1].pc == MarkingRunning && t.job.checkpointLine == LastLine(cfg) && t.completions == [];
    var n := CompletesAtEnd(cfg, t, 1);
    RunAppend(cfg, s, again, WorkAlone(1, n));
    RunAppend(cfg, Submitted(id, p, rows), first, again + WorkAlone(1, n));
    acts := first + (again + WorkAlone(1, n));
    LostErrors(cfg, id, p, rows, acts);
  }

  lemma LostErrors(cfg: Config, id: string, p: JobParams, rows: int, acts: seq<Action>)
    requires ValidConfig(cfg)
    requires var s := Run(cfg, Submitted(id, p, rows), acts);
             |s.completions| == 1 && s.completions[0].resume == LastLine(cfg)
    ensures var s := Run(cfg, Submitted(id, p, rows), acts); s.errors == [] && s.completions[0].errors == []
  {
    var s := Run(cfg, Submitted(id, p, rows), acts);
    CompletionStored(cfg, id, p, rows, acts, 0);
    CompletionIsExact(cfg, id, p, rows, acts, 0);
    NothingPastEnd(cfg);
    assert Front(s.completions) == [] && AllErrors([]) == [];
  }

  // ----- Files on which nothing can be lost -----

  predicate SubmapOf(m: map<string, int>, n: map<string, int>) {
    forall s :: s in m ==> s in n && m[s] == n[s]
  }

  predicate Within(u: Trackers, t: Trackers) {
    SubmapOf(u.depth, t.depth) && SubmapOf(u.trade, t.trade) && SubmapOf(u.time, t.time)
  }

  /** Where the larger trackers find no fault with a row, the smaller ones find none, and stay within. */
  lemma SilentRow(filter: string, t: Trackers, u: Trackers, rec: Record)
    requires Within(u, t) && Emit(filter, t, rec) == []
    ensures Emit(filter, u, rec) == [] && Within(Advance(filter, u, rec), Advance(filter, t, rec))
  {
    if Selected(filter, rec) {
      SilentEvent(t, u, rec.event);
    }
  }

  lemma SilentEvent(t: Trackers, u: Trackers, ev: MarketEvent)
    requires Within(u, t) && TimeFailures(t, ev) + SequenceFailures(t, ev) == []
    ensures TimeFailures(u, ev) == [] && SequenceFailures(u, ev) == []
    ensures SubmapOf(Raise(u.time, ev.symbol, ev.TimeMillis()), Raise(t.time, ev.symbol, ev.TimeMillis()))
    ensures ev.kind.Depth? ==>
            SubmapOf(Raise(u.depth, ev.symbol, ev.finalUpdateID), Raise(t.depth, ev.symbol, ev.finalUpdateID))
    ensures ev.kind.AggTrade? ==> SubmapOf(Raise(u.trade, ev.symbol, ev.tradeID), Raise(t.trade, ev.symbol, ev.tradeID))
  {
    assert TimeFailures(t, ev) == [] && SequenceFailures(t, ev) == [];
  }

  lemma {:induction false} SilentStream(filter: string, t: Trackers, u: Trackers, rs: seq<Record>)
    requires Within(u, t) && EmitAll(filter, t, rs) == []
    ensures EmitAll(filter, u, rs) == [] && Within(AdvanceAll(filter, u, rs), AdvanceAll(filter, t, rs))
  {
    if rs != [] {
      EmitAllLast(filter, t, rs);
      EmitAllLast(filter, u, rs);
      SilentStream(filter, t, u, Front(rs));
      SilentRow(filter, AdvanceAll(filter, t, Front(rs)), AdvanceAll(filter, u, Front(rs)), Last(rs));
    }
  }

  /** If the full run finds nothing, neither does any resumed one, primable prefix or not. */
  lemma CleanStaysClean(cfg: Config, resume: int)
    requires ValidConfig(cfg) && 0 <= resume <= LastLine(cfg) && FullRun(cfg) == []
    ensures Scan(cfg, resume, |cfg.file|).failures == []
  {
    var k := RowsUpTo(cfg, resume);
    var prefix, suffix := cfg.file[..k], cfg.file[k..];
    assert prefix + suffix == cfg.file;
    EmitAppend(cfg.filter, NO_TRACKERS, prefix, suffix);
    PrimeIsPositivePart(cfg.filter, prefix);
    var t := AdvanceAll(cfg.filter, NO_TRACKERS, prefix);
    assert Within(PositivePart(t), t);
    SilentStream(cfg.filter, t, PositivePart(t), suffix);
    ScanTail(cfg, resume);
  }

  /** Completion `k` of the run holds the full run's report. */
  ghost predicate WholeAt(cfg: Config, id: string, p: JobParams, rows: int, acts: seq<Action>, k: nat) {
    var s := Run(cfg, Submitted(id, p, rows), acts);
    k < |s.completions| ==> StoresFailures(s.completions[k].errors, FullRun(cfg), id, s.completions[k].now)
  }

  /** EXACT CONDITION. Every completion of every run holds the full run's report if and only if that report is
      empty: as soon as the file has one failure, some run completes without it. */
  lemma NothingEverLostIff(cfg: Config, id: string, p: JobParams, rows: int)
    requires ValidConfig(cfg)
    ensures (forall acts, k: nat :: WholeAt(cfg, id, p, rows, acts, k)) <==> FullRun(cfg) == []
  {
    if FullRun(cfg) == [] {
      forall acts, k: nat ensures WholeAt(cfg, id, p, rows, acts, k) {
        if k < |Run(cfg, Submitted(id, p, rows), acts).completions| {
          CompletionStored(cfg, id, p, rows, acts, k);
          CleanStaysClean(cfg, Run(cfg, Submitted(id, p, rows), acts).completions[k].resume);
        }
      }
    } else {
      var acts := LostAll(cfg, id, p, rows);
      assert !WholeAt(cfg, id, p, rows, acts, 0);
    }
  }

  // ----- The same under the queue's redelivery rule -----

  /** With a single attempt, everything starts from line 0. */
  ghost predicate FromTop(q: Queue) {
    && |q.sys.attempts| <= 1
    && (q.sys.attempts == [] ==> q.sys.job.checkpointLine == 0)
    && (forall i :: 0 <= i < |q.sys.attempts| ==>
          && (Stage(q.sys.attempts[i].pc) >= 5 || q.sys.attempts[i].pc.Loading? ==> q.sys.job.checkpointLine == 0)
          && (InFile(q.sys.attempts[i].pc) ==> q.sys.attempts[i].resume == 0))
    && (forall k :: 0 <= k < |q.sys.completions| ==> q.sys.completions[k].resume == 0)
  }

  lemma StepFromTop(cfg: Config, q: Queue, qa: QueueAction)
    requires FromTop(q) && Counted(cfg, q) && cfg.maxRetry == 0
    ensures FromTop(QueueStep(cfg, q, qa))
  {
    if qa.Happens? && qa.act.Work? && qa.act.i < |q.sys.attempts| && q.sys.attempts[qa.act.i].pos <= |cfg.file|
       && cfg.every > 0 {
      WorkFromTop(cfg, q.sys, qa.act.now);
    }
  }

  lemma WorkFromTop(cfg: Config, s: System, now: nat)
    requires |s.attempts| == 1 && s.attempts[0].pos <= |cfg.file| && cfg.every > 0
    ensures var a, t := s.attempts[0], WorkStep(cfg, s, 0, now);
            && |t.attempts| == 1 && !t.attempts[0].pc.Loading?
            && (Stage(t.attempts[0].pc) >= 5 ==>
                  t.job.checkpointLine == s.job.checkpointLine && (Stage(a.pc) >= 5 || a.pc.Loading?))
            && (InFile(t.attempts[0].pc) ==>
                  && (a.pc.Reloading? || InFile(a.pc))
                  && t.attempts[0].resume == if a.pc.Reloading? then s.job.checkpointLine else a.resume)
    ensures var a, t := s.attempts[0], WorkStep(cfg, s, 0, now);
            t.completions == s.completions || (InFile(a.pc) && CompletedFrom(s, t, a.resume))
  {
    if s.attempts[0].pc.Completing? {
      assert CompletedFrom(s, WorkStep(cfg, s, 0, now), s.attempts[0].resume);
    }
  }

  /** One more completion, of an attempt that resumed at `resume`. */
  predicate CompletedFrom(s: System, t: System, resume: int) {
    && |t.completions| == |s.completions| + 1 && t.completions[..|s.completions|] == s.completions
    && t.completions[|s.completions|].resume == resume
  }

  lemma {:induction false} RunFromTop(cfg: Config, q: Queue, qas: seq<QueueAction>)
    requires FromTop(q) && Counted(cfg, q) && cfg.maxRetry == 0
    ensures FromTop(QueueRun(cfg, q, qas))
    decreases |qas|
  {
    if qas != [] {
      StepFromTop(cfg, q, qas[0]);
      QueueStepKeepsCounted(cfg, q, qas[0]);
      RunFromTop(cfg, QueueStep(cfg, q, qas[0]), qas[1..]);
    }
  }

  lemma TopIsWhole(cfg: Config)
    requires ValidConfig(cfg)
    ensures 0 <= LastLine(cfg) && Scan(cfg, 0, |cfg.file|).failures == FullRun(cfg)
  {
    LinesInFile(cfg);
    ScanTail(cfg, 0);
    assert RowsUpTo(cfg, 0) == 0 && cfg.file[..0] == [] && cfg.file[0..] == cfg.file;
  }

  ghost predicate WholeInQueue(cfg: Config, id: string, p: JobParams, rows: int, qas: seq<QueueAction>, k: nat) {
    var s := QueueRun(cfg, Enqueued(id, p, rows), qas).sys;
    k < |s.completions| ==> StoresFailures(s.completions[k].errors, FullRun(cfg), id, s.completions[k].now)
  }

  lemma QueueCompletion(cfg: Config, id: string, p: JobParams, rows: int, qas: seq<QueueAction>, k: nat)
    requires ValidConfig(cfg) && k < |QueueRun(cfg, Enqueued(id, p, rows), qas).sys.completions|
    ensures var c := QueueRun(cfg, Enqueued(id, p, rows), qas).sys.completions[k];
            && 0 <= c.resume <= LastLine(cfg)
            && StoresFailures(c.errors, Scan(cfg, c.resume, |cfg.file|).failures, id, c.now)
  {
    var acts := QueueIsRun(cfg, Enqueued(id, p, rows), qas);
    CompletionStored(cfg, id, p, rows, acts, k);
  }

  /** The crash at the end and its retry, as the queue delivers them. */
  lemma QueueLosesAll(cfg: Config, id: string, p: JobParams, rows: int) returns (qas: seq<QueueAction>)
    requires ValidConfig(cfg) && cfg.maxRetry > 0
    ensures var s := QueueRun(cfg, Enqueued(id, p, rows), qas).sys;
            |s.completions| == 1 && s.completions[0].errors == []
  {
    var start := Enqueued(id, p, rows);
    var w0, w1 := Happens(Work(0, 1)), Happens(Work(1, 1));
    SubmittedOk(cfg, id, p, rows);
    // up to the final checkpoint
    var q := QueueStep(cfg, QueueStep(cfg, start, Take), w0);
    assert |q.sys.attempts| == 1 && q.sys.attempts[0].pc == MarkingRunning && q.next.None?;
    var n := ReachesSaving(cfg, q.sys, 0);
    QueueWorks(cfg, q, 0, n);
    var saving := QueueRun(cfg, q, Happening(0, n));
    PathOk(cfg, start, [Take, w0], q, Happening(0, n));
    assert AttemptOk(cfg, saving.sys.processed, saving.sys.job.checkpointLine, saving.sys.attempts[0]);
    // the crash and the retry up to its second read
    QueueRunKeepsCounted(cfg, start, [Take, w0] + Happening(0, n));
    assert AttemptCounted(cfg, saving.sys.attempts[0], 0);
    var r := QueueStep(cfg, QueueStep(cfg, QueueStep(cfg, saving, Happens(Crash(0))), Take), w1);
    CrashRetries(cfg, saving);
    QueueThree(cfg, saving, Happens(Crash(0)), Take, w1, []);
    assert [Happens(Crash(0)), Take, w1] + [] == [Happens(Crash(0)), Take, w1];
    assert QueueRun(cfg, r, []) == r;
    PathOk(cfg, start, [Take, w0] + Happening(0, n), saving, [Happens(Crash(0)), Take, w1]);
    // the retry completes
    var m := CompletesAtEnd(cfg, r.sys, 1);
    QueueWorks(cfg, r, 1, m);
    var done := [Take, w0] + Happening(0, n) + [Happens(Crash(0)), Take, w1];
    QueueAppend(cfg, start, done, Happening(1, m));
    qas := done + Happening(1, m);
    QueueCompletion(cfg, id, p, rows, qas, 0);
    NothingPastEnd(cfg);
  }

  /** Extending a path of the queue keeps the protocol invariant. */
  lemma PathOk(cfg: Config, start: Queue, a: seq<QueueAction>, mid: Queue, b: seq<QueueAction>)
    requires ValidConfig(cfg) && SystemOk(cfg, start.sys)
    requires mid == QueueRun(cfg, start, a) || (|a| == 2 && mid == QueueStep(cfg, QueueStep(cfg, start, a[0]), a[1]))
    ensures mid == QueueRun(cfg, start, a)
    ensures QueueRun(cfg, start, a + b) == QueueRun(cfg, mid, b) && SystemOk(cfg, QueueRun(cfg, mid, b).sys)
  {
    if |a| == 2 {
      assert a[1..][1..] == [];
      assert QueueRun(cfg, start, a) == QueueRun(cfg, QueueStep(cfg, start, a[0]), a[1..]);
    }
    QueueAppend(cfg, start, a, b);
    QueueRunKeepsOk(cfg, start, a + b);
  }

  lemma CrashRetries(cfg: Config, q: Queue)
    requires cfg.every > 0 && cfg.maxRetry > 0 && |q.sys.attempts| == 1 && q.sys.attempts[0].pc.SavingStats?
    requires q.sys.attempts[0].retried == 0 && !SettledStatus(q.sys.job.status) && q.sys.completions == []
    requires q.sys.job.checkpointLine == LastLine(cfg)
    ensures var r := QueueStep(cfg, QueueStep(cfg, QueueStep(cfg, q, Happens(Crash(0))), Take), Happens(Work(1, 1)));
            && Unstoppable(cfg, r.sys, 1) && AtLastLine(cfg, r.sys, 1) && r.sys.completions == []
  {
    var crashed := QueueStep(cfg, q, Happens(Crash(0)));
    var taken := QueueStep(cfg, crashed, Take);
    assert crashed.next == Some(1) && |taken.sys.attempts| == 2 && taken.sys.attempts[1].pc == Loading;
  }

  /** EXACT CONDITION under redelivery: nothing is ever lost if and only if there is nothing to lose or a task is
      never retried. */
  lemma QueueLosesIff(cfg: Config, id: string, p: JobParams, rows: int)
    requires ValidConfig(cfg)
    ensures (forall qas, k: nat :: WholeInQueue(cfg, id, p, rows, qas, k)) <==> FullRun(cfg) == [] || cfg.maxRetry == 0
  {
    if FullRun(cfg) == [] || cfg.maxRetry == 0 {
      forall qas, k: nat ensures WholeInQueue(cfg, id, p, rows, qas, k) {
        if k < |QueueRun(cfg, Enqueued(id, p, rows), qas).sys.completions| {
          QueueCompletion(cfg, id, p, rows, qas, k);
          if FullRun(cfg) == [] {
            CleanStaysClean(cfg, QueueRun(cfg, Enqueued(id, p, rows), qas).sys.completions[k].resume);
          } else {
            RunFromTop(cfg, Enqueued(id, p, rows), qas);
            TopIsWhole(cfg);
          }
        }
      }
    } else {
      var qas := QueueLosesAll(cfg, id, p, rows);
      assert !WholeInQueue(cfg, id, p, rows, qas, 0);
    }
  }
}
