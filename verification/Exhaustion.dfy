/** What an exhausted task leaves behind: nothing pending, nothing running. */
module Exhaustion {
  import opened Events
  import opened Store
  import opened ReplayProtocol
  import opened Cancellation
  import opened Retry
  import opened CanceledRetries

  predicate Exhausted(q: Queue) {
    q.next.None? && Quiet(q.sys) && q.sys.attempts != []
  }

  /** The status after an attempt that has ended, when nobody cancels. */
  predicate StatusFits(status: Status, o: Outcome) {
    match o
    case Finished => status == Completed
    case FailureWritten(_, written, _) => status == written
    case NothingToDo => false
    case _ => !SettledStatus(status)
  }

  /** Without cancels, a job with an attempt pending or running is not settled, and after the last attempt its
      status is the one that attempt left. */
  predicate Fits(q: Queue) {
    && (q.next.Some? ==> !SettledStatus(q.sys.job.status))
    && (q.sys.attempts != [] ==>
          if Live(LastAttempt(q)) then !SettledStatus(q.sys.job.status)
          else StatusFits(q.sys.job.status, LastAttempt(q).pc.outcome))
  }

  lemma LastStepFits(cfg: Config, s: System, act: Action)
    requires !act.Deliver? && act != Cancel && OneLive(s) && s.attempts != []
    requires Live(s.attempts[|s.attempts| - 1]) && !SettledStatus(s.job.status)
    ensures var t := Step(cfg, s, act);
            && |t.attempts| == |s.attempts|
            && var b := t.attempts[|t.attempts| - 1];
               if Live(b) then !SettledStatus(t.job.status) else StatusFits(t.job.status, b.pc.outcome)
  {
    var n := |s.attempts| - 1;
    if act.Work? && act.i < |s.attempts| && s.attempts[act.i].pos <= |cfg.file| && cfg.every > 0 {
      WorkTouchesOne(cfg, s, act.i, act.now);
      if act.i != n {
        assert !Live(s.attempts[act.i]);
      }
    } else if act.Fault? && act.i < n {
      assert !Live(s.attempts[act.i]);
    }
  }

  lemma QueueStepFits(cfg: Config, q: Queue, qa: QueueAction)
    requires Counted(cfg, q) && Fits(q) && qa != Happens(Cancel)
    ensures Fits(QueueStep(cfg, q, qa))
  {
    if qa.Happens? && !qa.act.Deliver? && q.sys.attempts != [] {
      if Live(LastAttempt(q)) {
        LastStepFits(cfg, q.sys, qa.act);
        assert q.next.None?;
      } else {
        assert Quiet(q.sys);
        QuietStays(cfg, q.sys, qa.act);
      }
    } else if qa.Happens? && !qa.act.Deliver? {
      assert Quiet(q.sys);
      QuietStays(cfg, q.sys, qa.act);
    }
  }

  lemma {:induction false} QueueRunFits(cfg: Config, q: Queue, qas: seq<QueueAction>)
    requires Counted(cfg, q) && Fits(q) && NoCancel(qas)
    ensures Fits(QueueRun(cfg, q, qas))
    decreases |qas|
  {
    if qas != [] {
      QueueStepKeepsCounted(cfg, q, qas[0]);
      QueueStepFits(cfg, q, qas[0]);
      QueueRunFits(cfg, QueueStep(cfg, q, qas[0]), qas[1..]);
    }
  }

  /** EXACT CONDITION. Without cancels, an exhausted task leaves its job settled if and only if its last delivery
      completed it or recorded a failure at the retry limit. A crash or an unrecorded error at the limit, a
      dropped delivery, and a canceled context below the limit leave it unsettled with nothing to come. */
  lemma SettledIff(cfg: Config, id: string, p: JobParams, rows: int, qas: seq<QueueAction>)
    requires NoCancel(qas) && Exhausted(QueueRun(cfg, Enqueued(id, p, rows), qas))
    ensures var q := QueueRun(cfg, Enqueued(id, p, rows), qas);
            var a := LastAttempt(q);
            && a.pc.Ended?
            && (SettledStatus(q.sys.job.status) <==>
                  a.pc.outcome == Finished || (a.pc.outcome.FailureWritten? && a.retried == cfg.maxRetry))
  {
    var q := QueueRun(cfg, Enqueued(id, p, rows), qas);
    QueueRunKeepsCounted(cfg, Enqueued(id, p, rows), qas);
    QueueRunFits(cfg, Enqueued(id, p, rows), qas);
    assert !Live(LastAttempt(q));
    assert AttemptCounted(cfg, q.sys.attempts[q.delivered - 1], q.delivered - 1);
  }

  // ----- A job that stays "running" -----

  /** One delivery that crashes after its running write. */
  lemma CrashOnce(cfg: Config, q: Queue) returns (qas: seq<QueueAction>)
    requires cfg.every > 0 && q.next.Some? && Quiet(q.sys) && !SettledStatus(q.sys.job.status)
    ensures var r := QueueRun(cfg, q, qas);
            && r.sys.job.status == Running && Quiet(r.sys) && r.sys.attempts != []
            && r.next == if q.next.value < cfg.maxRetry then Some(q.next.value + 1) else None
  {
    var n := |q.sys.attempts|;
    var w, crash := Happens(Work(n, 1)), Happens(Crash(n));
    var r := QueueStep(cfg, QueueStep(cfg, QueueStep(cfg, q, Take), w), w);
    CrashOpens(cfg, q);
    QueueThree(cfg, q, Take, w, w, [crash]);
    QueueOne(cfg, r, crash);
    qas := [Take, w, w] + [crash];
  }

  lemma CrashOpens(cfg: Config, q: Queue)
    requires cfg.every > 0 && q.next.Some? && Quiet(q.sys) && !SettledStatus(q.sys.job.status)
    ensures var n := |q.sys.attempts|;
            var r := QueueStep(cfg, QueueStep(cfg, QueueStep(cfg, q, Take), Happens(Work(n, 1))), Happens(Work(n, 1)));
            && |r.sys.attempts| == n + 1 && r.sys.attempts[n].pc == Reloading
              && r.sys.attempts[n].retried == q.next.value
            && (forall j :: 0 <= j < n ==> r.sys.attempts[j] == q.sys.attempts[j])
            && r.sys.job.status == Running && r.next.None?
  {
    var n := |q.sys.attempts|;
    var taken := QueueStep(cfg, q, Take);
    var loaded := QueueStep(cfg, taken, Happens(Work(n, 1)));
    assert taken.sys.attempts[n].pc == Loading && loaded.sys.attempts[n].pc == MarkingRunning;
  }

  lemma {:induction false} CrashAll(cfg: Config, q: Queue) returns (qas: seq<QueueAction>)
    requires cfg.every > 0 && q.next.Some? && q.next.value <= cfg.maxRetry
    requires Quiet(q.sys) && !SettledStatus(q.sys.job.status)
    ensures var r := QueueRun(cfg, q, qas); Exhausted(r) && r.sys.job.status == Running
    decreases cfg.maxRetry - q.next.value
  {
    qas := CrashOnce(cfg, q);
    var r := QueueRun(cfg, q, qas);
    if r.next.Some? {
      var rest := CrashAll(cfg, r);
      QueueAppend(cfg, q, qas, rest);
      qas := qas + rest;
    }
  }

  /** COUNTEREXAMPLE, for every configuration: a job can end "running", with nothing running and nothing pending. */
  lemma StuckRunning(cfg: Config, id: string, p: JobParams, rows: int) returns (qas: seq<QueueAction>)
    requires cfg.every > 0
    ensures var q := QueueRun(cfg, Enqueued(id, p, rows), qas); Exhausted(q) && q.sys.job.status == Running
  {
    qas := CrashAll(cfg, Enqueued(id, p, rows));
  }
}
