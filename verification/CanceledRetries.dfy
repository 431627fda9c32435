/** Cancels and redelivery together: when a canceled job can still be completed by a retry. */
module CanceledRetries {
  import opened Events
  import opened Store
  import opened ReplayProtocol
  import opened NoLineSkipped
  import opened Cancellation
  import opened Retry

  function LastAttempt(q: Queue): Attempt
    requires q.sys.attempts != []
  {
    q.sys.attempts[|q.sys.attempts| - 1]
  }

  /** The last attempt lets a cancel stand: it is idle, or it has a status check ahead and whatever failure it
      records will not be retried. */
  predicate LetsStand(cfg: Config, a: Attempt)
    requires cfg.every > 0
  {
    Idle(a) || (LooksAgain(cfg, a) && (a.retried >= cfg.maxRetry || a.pc == Failing(ContextCanceled)))
  }

  /** No queue action can ever store another metric. */
  ghost predicate NoMoreMetrics(cfg: Config, q: Queue) {
    forall qas :: QueueRun(cfg, q, qas).sys.metrics == q.sys.metrics
  }

  // ----- A cancel that holds -----

  /** What holds from such a cancel on: the job is frozen, or the last attempt is on its way out, or
      everything has ended and nothing is pending. */
  predicate Closing(cfg: Config, q: Queue)
    requires cfg.every > 0
  {
    || Frozen(q.sys)
    || (Quiet(q.sys) && q.next.None?)
    || (&& q.sys.job.status == Canceled && q.next.None? && OneLive(q.sys) && q.sys.attempts != []
        && Live(LastAttempt(q)) && LetsStand(cfg, LastAttempt(q)))
  }

  lemma QuietIsFrozen(s: System)
    requires Quiet(s) && s.job.status == Canceled
    ensures Frozen(s)
  {
    forall i | 0 <= i < |s.attempts| ensures Idle(s.attempts[i]) {
      assert !Live(s.attempts[i]);
    }
  }

  lemma FrozenCloses(cfg: Config, q: Queue, qa: QueueAction)
    requires cfg.every > 0 && Frozen(q.sys)
    ensures var r := QueueStep(cfg, q, qa); Closing(cfg, r) && r.sys.metrics == q.sys.metrics
  {
    match qa
    case Take =>
      if q.next.Some? {
        FrozenStep(cfg, q.sys, Deliver(q.next.value));
      }
    case Happens(act) =>
      FrozenStep(cfg, q.sys, act);
  }

  lemma QuietCloses(cfg: Config, q: Queue, qa: QueueAction)
    requires cfg.every > 0 && Quiet(q.sys) && q.next.None?
    ensures var r := QueueStep(cfg, q, qa); Closing(cfg, r) && r.sys.metrics == q.sys.metrics
  {
    if qa.Happens? && !qa.act.Deliver? {
      if qa.act == Cancel {
        assert Quiet(Step(cfg, q.sys, Cancel));
      } else {
        QuietStays(cfg, q.sys, qa.act);
      }
    }
  }

  /** The last attempt's own step either keeps it on its way out or ends it without a retry or a change
      of the cancel. */
  lemma LastStepStands(cfg: Config, s: System, act: Action)
    requires cfg.every > 0 && s.attempts != [] && s.job.status == Canceled && !act.Deliver?
    requires OneLive(s) && Live(s.attempts[|s.attempts| - 1]) && LetsStand(cfg, s.attempts[|s.attempts| - 1])
    ensures var t := Step(cfg, s, act);
            var b := t.attempts[|t.attempts| - 1];
            && t.metrics == s.metrics && |t.attempts| == |s.attempts| && OneLive(t)
            && (Live(b) ==> t.job.status == Canceled && LetsStand(cfg, b))
            && (!Live(b) ==> t.job.status == Canceled || Requeue(cfg, b).None?)
  {
    var n := |s.attempts| - 1;
    var a := s.attempts[n];
    if act.Work? && act.i < |s.attempts| && s.attempts[act.i].pos <= |cfg.file| {
      WorkTouchesOne(cfg, s, act.i, act.now);
      if act.i == n {
        LastWorks(cfg, s, act.now);
      } else {
        assert !Live(s.attempts[act.i]);
      }
    } else if act.Fault? && act.i < n {
      assert !Live(s.attempts[act.i]);
      assert Step(cfg, s, act).attempts == s.attempts;
    }
  }

  lemma LastWorks(cfg: Config, s: System, now: nat)
    requires cfg.every > 0 && s.attempts != [] && s.job.status == Canceled
    requires var a := s.attempts[|s.attempts| - 1]; Live(a) && LetsStand(cfg, a) && a.pos <= |cfg.file|
    ensures var t := WorkStep(cfg, s, |s.attempts| - 1, now);
            |t.attempts| == |s.attempts| && t.metrics == s.metrics && var b := t.attempts[|t.attempts| - 1];
            && (Live(b) ==> t.job.status == Canceled && LetsStand(cfg, b))
            && (!Live(b) ==> t.job.status == Canceled || Requeue(cfg, b).None?)
  {
    var n := |s.attempts| - 1;
    var a, b := s.attempts[n], WorkStep(cfg, s, n, now).attempts[n];
    if a.pc.Scanning? {
      var k :| a.pos <= k < |cfg.file| && cfg.file[k].line > a.resume && cfg.file[k].line % cfg.every == 0;
      if b.pc.Scanning? {
        assert k != a.pos;
        assert BoundaryAhead(cfg, b);
      }
    }
  }

  lemma ClosingStep(cfg: Config, q: Queue, qa: QueueAction)
    requires cfg.every > 0 && Closing(cfg, q)
    ensures var r := QueueStep(cfg, q, qa); Closing(cfg, r) && r.sys.metrics == q.sys.metrics
  {
    if Frozen(q.sys) {
      FrozenCloses(cfg, q, qa);
    } else if Quiet(q.sys) && q.next.None? {
      QuietCloses(cfg, q, qa);
    } else if qa.Happens? && !qa.act.Deliver? {
      LastStepStands(cfg, q.sys, qa.act);
      var t := Step(cfg, q.sys, qa.act);
      if !Live(t.attempts[|t.attempts| - 1]) {
        assert Quiet(t);
        if t.job.status == Canceled {
          QuietIsFrozen(t);
        }
      }
    }
  }

  lemma {:induction false} ClosingRun(cfg: Config, q: Queue, qas: seq<QueueAction>)
    requires cfg.every > 0 && Closing(cfg, q)
    ensures QueueRun(cfg, q, qas).sys.metrics == q.sys.metrics
    decreases |qas|
  {
    if qas != [] {
      ClosingStep(cfg, q, qas[0]);
      ClosingRun(cfg, QueueStep(cfg, q, qas[0]), qas[1..]);
    }
  }

  // ----- A cancel that does not hold -----

  function Happening(i: nat, n: nat): seq<QueueAction> {
    seq(n, _ => Happens(Work(i, 1)))
  }

  /** In the queue, working on the last attempt is working on it in the system. */
  lemma {:induction false} QueueWorks(cfg: Config, q: Queue, i: nat, n: nat)
    ensures QueueRun(cfg, q, Happening(i, n)).sys == Run(cfg, q.sys, WorkAlone(i, n))
    decreases n
  {
    if n > 0 {
      assert Happening(i, n)[1..] == Happening(i, n - 1);
      WorkOnce(cfg, q.sys, i, n);
      QueueWorks(cfg, QueueStep(cfg, q, Happens(Work(i, 1))), i, n - 1);
    }
  }

  lemma {:induction false} QueueAppend(cfg: Config, q: Queue, a: seq<QueueAction>, b: seq<QueueAction>)
    ensures QueueRun(cfg, q, a + b) == QueueRun(cfg, QueueRun(cfg, q, a), b)
    decreases |a|
  {
    if a == [] {
      assert a + b == b;
    } else {
      QueueAppend(cfg, QueueStep(cfg, q, a[0]), a[1..], b);
      assert (a + b)[1..] == a[1..] + b;
    }
  }

  lemma QueueOne(cfg: Config, q: Queue, qa: QueueAction)
    ensures QueueRun(cfg, q, [qa]) == QueueStep(cfg, q, qa)
  {
    assert [qa][1..] == [];
  }

  lemma Completes(cfg: Config, q: Queue, i: nat) returns (qas: seq<QueueAction>)
    requires cfg.every > 0 && Unstoppable(cfg, q.sys, i)
    ensures QueueRun(cfg, q, qas).sys.job.status == Completed
    ensures |QueueRun(cfg, q, qas).sys.metrics| == |q.sys.metrics| + 1
  {
    var n := RunsToCompletion(cfg, q.sys, i);
    QueueWorks(cfg, q, i, n);
    qas := Happening(i, n);
  }

  /** A live last attempt about to record a failure that will be retried. */
  predicate AboutToRetry(cfg: Config, q: Queue) {
    && q.sys.attempts != [] && LastAttempt(q).pos <= |cfg.file| && LastAttempt(q).retried < cfg.maxRetry
    && LastAttempt(q).pc.Failing? && LastAttempt(q).pc.cause != ContextCanceled
  }

  /** The failure is written over the cancel, the queue delivers again, and the new attempt passes its check. */
  lemma RetryLoads(cfg: Config, q: Queue)
    requires cfg.every > 0 && AboutToRetry(cfg, q)
    ensures var i := |q.sys.attempts| - 1;
            var r := QueueStep(cfg, QueueStep(cfg, QueueStep(cfg, q, Happens(Work(i, 1))), Take),
                Happens(Work(i + 1, 1)));
            Unstoppable(cfg, r.sys, i + 1) && r.sys.metrics == q.sys.metrics
  {
    var i := |q.sys.attempts| - 1;
    var failed := QueueStep(cfg, q, Happens(Work(i, 1)));
    var taken := QueueStep(cfg, failed, Take);
    assert failed.sys.job.status == Failed && failed.next == Some(q.sys.attempts[i].retried + 1);
    assert |taken.sys.attempts| == i + 2 && taken.sys.attempts[i + 1].pc == Loading;
  }

  lemma QueueThree(cfg: Config, q: Queue, a: QueueAction, b: QueueAction, c: QueueAction, rest: seq<QueueAction>)
    ensures QueueRun(cfg, q, [a, b, c] + rest)
            == QueueRun(cfg, QueueStep(cfg, QueueStep(cfg, QueueStep(cfg, q, a), b), c), rest)
  {
    assert ([a, b, c] + rest)[1..] == [b, c] + rest && ([b, c] + rest)[1..] == [c] + rest && ([c] + rest)[1..] == rest;
    var q1 := QueueStep(cfg, q, a);
    var q2 := QueueStep(cfg, q1, b);
    assert QueueRun(cfg, q, [a, b, c] + rest) == QueueRun(cfg, q1, [b, c] + rest);
    assert QueueRun(cfg, q1, [b, c] + rest) == QueueRun(cfg, q2, [c] + rest);
    assert QueueRun(cfg, q2, [c] + rest) == QueueRun(cfg, QueueStep(cfg, q2, c), rest);
  }

  /** For every such state: the retry of the failure completes the job. */
  lemma RetryCompletes(cfg: Config, q: Queue) returns (qas: seq<QueueAction>)
    requires cfg.every > 0 && AboutToRetry(cfg, q)
    ensures QueueRun(cfg, q, qas).sys.job.status == Completed
    ensures |QueueRun(cfg, q, qas).sys.metrics| == |q.sys.metrics| + 1
  {
    var i := |q.sys.attempts| - 1;
    RetryLoads(cfg, q);
    var r := QueueStep(cfg, QueueStep(cfg, QueueStep(cfg, q, Happens(Work(i, 1))), Take), Happens(Work(i + 1, 1)));
    var rest := Completes(cfg, r, i + 1);
    QueueThree(cfg, q, Happens(Work(i, 1)), Take, Happens(Work(i + 1, 1)), rest);
    qas := [Happens(Work(i, 1)), Take, Happens(Work(i + 1, 1))] + rest;
  }

  lemma DoesNotStand(cfg: Config, q: Queue) returns (qas: seq<QueueAction>)
    requires cfg.every > 0 && q.sys.attempts != [] && LastAttempt(q).pos <= |cfg.file|
    requires q.sys.job.status == Canceled && !LetsStand(cfg, LastAttempt(q))
    ensures QueueRun(cfg, q, qas).sys.job.status == Completed
    ensures |QueueRun(cfg, q, qas).sys.metrics| == |q.sys.metrics| + 1
  {
    var i, a := |q.sys.attempts| - 1, LastAttempt(q);
    if !LooksAgain(cfg, a) {
      qas := Completes(cfg, q, i);
    } else if a.pc.Failing? {
      qas := RetryCompletes(cfg, q);
    } else {
      var fault := Happens(Fault(i, OtherError("")));
      var r := QueueStep(cfg, q, fault);
      assert AboutToRetry(cfg, r) && r.sys.metrics == q.sys.metrics;
      var rest := RetryCompletes(cfg, r);
      QueueOne(cfg, q, fault);
      QueueAppend(cfg, q, [fault], rest);
      qas := [fault] + rest;
    }
  }

  /** EXACT CONDITION, redeliveries included. In every state the queue can reach, a cancel keeps the job from
      ever storing another metric if and only if there is no attempt or the last one lets it stand. Otherwise
      the job can still be completed: by that attempt, or by the retry of a failure recorded over the cancel. */
  lemma CancelHoldsIff(cfg: Config, id: string, p: JobParams, rows: int, qas: seq<QueueAction>)
    requires ValidConfig(cfg)
    ensures var q := QueueRun(cfg, Enqueued(id, p, rows), qas);
            var c := QueueStep(cfg, q, Happens(Cancel));
            && (NoMoreMetrics(cfg, c) <==> q.sys.attempts == [] || LetsStand(cfg, LastAttempt(q)))
            && (!NoMoreMetrics(cfg, c) ==> exists more :: QueueRun(cfg, c, more).sys.job.status == Completed)
  {
    QueueRunKeepsCounted(cfg, Enqueued(id, p, rows), qas);
    SubmittedOk(cfg, id, p, rows);
    QueueRunKeepsOk(cfg, Enqueued(id, p, rows), qas);
    CancelHolds(cfg, QueueRun(cfg, Enqueued(id, p, rows), qas));
  }

  lemma CancelHolds(cfg: Config, q: Queue)
    requires ValidConfig(cfg) && Counted(cfg, q) && SystemOk(cfg, q.sys)
    ensures var c := QueueStep(cfg, q, Happens(Cancel));
            && (NoMoreMetrics(cfg, c) <==> q.sys.attempts == [] || LetsStand(cfg, LastAttempt(q)))
            && (!NoMoreMetrics(cfg, c) ==> exists more :: QueueRun(cfg, c, more).sys.job.status == Completed)
  {
    var c := QueueStep(cfg, q, Happens(Cancel));
    assert c.sys.attempts == q.sys.attempts && c.sys.job.status == Canceled && c.next == q.next;
    if q.sys.attempts == [] || LetsStand(cfg, LastAttempt(q)) {
      CancelCloses(cfg, q, c);
      forall more ensures QueueRun(cfg, c, more).sys.metrics == c.sys.metrics {
        ClosingRun(cfg, c, more);
      }
    } else {
      assert AttemptOk(cfg, q.sys.processed, q.sys.job.checkpointLine, LastAttempt(q));
      var more := DoesNotStand(cfg, c);
      assert QueueRun(cfg, c, more).sys.metrics != c.sys.metrics;
    }
  }

  lemma CancelCloses(cfg: Config, q: Queue, c: Queue)
    requires cfg.every > 0 && Counted(cfg, q) && c.sys.attempts == q.sys.attempts && c.next == q.next
    requires c.sys.job.status == Canceled && (q.sys.attempts == [] || LetsStand(cfg, LastAttempt(q)))
    ensures Closing(cfg, c)
  {
    if q.sys.attempts != [] && Live(LastAttempt(q)) {
      assert !Quiet(q.sys);
      if Idle(LastAttempt(q)) {
        assert Frozen(c.sys);
      }
    } else {
      assert Quiet(c.sys);
      QuietIsFrozen(c.sys);
    }
  }

  lemma QueueRunKeepsOk(cfg: Config, q: Queue, qas: seq<QueueAction>)
    requires ValidConfig(cfg) && SystemOk(cfg, q.sys)
    ensures SystemOk(cfg, QueueRun(cfg, q, qas).sys)
  {
    var acts := QueueIsRun(cfg, q, qas);
    RunKeepsOk(cfg, q.sys, acts);
  }

  /** COUNTEREXAMPLE. One malformed row, a checkpoint on every line, one retry: the cancel lands while the
      attempt is about to read the row and has a status check ahead, and the job still ends completed. */
  lemma CanceledThenCompleted(id: string, p: JobParams, rows: int)
    ensures var cfg := Config([Bad(1, "x")], 0, "", 1, 1);
            exists qas, more ::
              var q := QueueRun(cfg, Enqueued(id, p, rows), qas);
              && q.sys.attempts != [] && LastAttempt(q).pc.Scanning? && LooksAgain(cfg, LastAttempt(q))
              && QueueRun(cfg, QueueStep(cfg, q, Happens(Cancel)), more).sys.job.status == Completed
  {
    var cfg := Config([Bad(1, "x")], 0, "", 1, 1);
    var qas := [Take, Happens(Work(0, 1)), Happens(Work(0, 1))] + [Happens(Work(0, 1))];
    var q := QueueRun(cfg, Enqueued(id, p, rows), qas);
    ReachesScanning(cfg, id, p, rows);
    assert cfg.file[0].line > 0 && cfg.file[0].line % cfg.every == 0;
    var c := QueueStep(cfg, q, Happens(Cancel));
    var more := DoesNotStand(cfg, c);
    assert QueueRun(cfg, QueueStep(cfg, q, Happens(Cancel)), more).sys.job.status == Completed;
  }

  lemma ReachesScanning(cfg: Config, id: string, p: JobParams, rows: int)
    requires cfg.every > 0
    ensures var q := QueueRun(cfg, Enqueued(id, p, rows), [Take, Happens(Work(0, 1)), Happens(Work(0, 1))]
            + [Happens(Work(0, 1))]);
            && |q.sys.attempts| == 1 && q.sys.attempts[0].pc.Scanning? && q.sys.attempts[0].pos == 0
            && q.sys.attempts[0].resume == 0 && q.sys.attempts[0].retried == 0
  {
    var w := Happens(Work(0, 1));
    var q := Enqueued(id, p, rows);
    QueueThree(cfg, q, Take, w, w, [w]);
    var r := QueueStep(cfg, QueueStep(cfg, QueueStep(cfg, q, Take), w), w);
    assert r.sys.attempts[0].pc == Reloading && r.sys.job.status == Running && r.sys.job.checkpointLine == 0;
    QueueOne(cfg, r, w);
  }
}
