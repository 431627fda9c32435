/** Redelivery: the queue hands a failed task out again with its retry count raised by one. */
module Retry {
  import opened Events
  import opened Store
  import opened ReplayProtocol
  import opened Cancellation

  /** `next` is the retry count of the pending delivery, if one is pending. */
  datatype Queue = Queue(sys: System, next: Option<nat>, delivered: nat)

  /** The queue makes a delivery, or something else happens to the job. */
  datatype QueueAction = Take | Happens(act: Action)

  /** A written failure that may be retried always comes back. Errors the handler did not record
      (a failed status write, a lost worker) come back only below the queue's own limit. */
  function Requeue(cfg: Config, a: Attempt): Option<nat> {
    if !a.pc.Ended? then None
    else match a.pc.outcome
      case FailureWritten(_, _, retry) => if retry then Some(a.retried + 1) else None
      case Aborted => if a.retried < cfg.maxRetry then Some(a.retried + 1) else None
      case Crashed => if a.retried < cfg.maxRetry then Some(a.retried + 1) else None
      case _ => None
  }

  function QueueStep(cfg: Config, q: Queue, qa: QueueAction): Queue {
    match qa
    case Take =>
      if q.next.Some? then Queue(Step(cfg, q.sys, Deliver(q.next.value)), None, q.delivered + 1) else q
    case Happens(act) =>
      if act.Deliver? then q else
        var sys := Step(cfg, q.sys, act);
        var n := |q.sys.attempts|;
        if n > 0 && |sys.attempts| == n && Live(q.sys.attempts[n - 1]) && !Live(sys.attempts[n - 1])
        then Queue(sys, Requeue(cfg, sys.attempts[n - 1]), q.delivered)
        else q.(sys := sys)
  }

  function QueueRun(cfg: Config, q: Queue, qas: seq<QueueAction>): Queue
    decreases |qas|
  {
    if qas == [] then q else QueueRun(cfg, QueueStep(cfg, q, qas[0]), qas[1..])
  }

  /** What a queue action does to the job is nothing or one step of the machine. */
  lemma QueueStepIsStep(cfg: Config, q: Queue, qa: QueueAction) returns (act: Option<Action>)
    ensures QueueStep(cfg, q, qa).sys == if act.Some? then Step(cfg, q.sys, act.value) else q.sys
  {
    match qa
    case Take => act := if q.next.Some? then Some(Deliver(q.next.value)) else None;
    case Happens(a) => act := if a.Deliver? then None else Some(a);
  }

  /** Every run of the queue is a run of the machine. */
  lemma {:induction false} QueueIsRun(cfg: Config, q: Queue, qas: seq<QueueAction>) returns (acts: seq<Action>)
    ensures QueueRun(cfg, q, qas).sys == Run(cfg, q.sys, acts)
    decreases |qas|
  {
    acts := [];
    if qas != [] {
      var act := QueueStepIsStep(cfg, q, qas[0]);
      acts := QueueIsRun(cfg, QueueStep(cfg, q, qas[0]), qas[1..]);
      if act.Some? {
        assert ([act.value] + acts)[1..] == acts;
        acts := [act.value] + acts;
      }
    }
  }

  function Enqueued(id: string, p: JobParams, rows: int): Queue {
    Queue(Submitted(id, p, rows), Some(0), 0)
  }

  function ExpectedStatus(cfg: Config, retried: nat): Status {
    if retried >= cfg.maxRetry then DeadLetter else Failed
  }

  /** Attempt `k` carries retry count `k`, and the failure it wrote is "dlq" exactly at the limit. */
  ghost predicate AttemptCounted(cfg: Config, a: Attempt, k: nat) {
    && a.retried == k
    && (a.pc.Ended? && a.pc.outcome.FailureWritten? ==>
          && a.pc.outcome.status == ExpectedStatus(cfg, k)
          && (a.pc.outcome.retry <==> k < cfg.maxRetry && a.pc.outcome.cause != ContextCanceled))
  }

  ghost predicate Counted(cfg: Config, q: Queue) {
    && |q.sys.attempts| == q.delivered <= cfg.maxRetry + 1
    && OneLive(q.sys)
    && (forall k :: 0 <= k < q.delivered ==> AttemptCounted(cfg, q.sys.attempts[k], k))
    && PendingOk(cfg, q)
  }

  /** What a single action does to the attempts and the status, as far as counting goes. */
  lemma StepCounts(cfg: Config, s: System, act: Action, i: nat)
    requires !act.Deliver? && i < |s.attempts|
    ensures var t := Step(cfg, s, act);
            && |t.attempts| == |s.attempts| && t.attempts[i].retried == s.attempts[i].retried
            && (!Live(s.attempts[i]) ==> t.attempts[i] == s.attempts[i])
            && (Live(s.attempts[i]) && !Live(t.attempts[i]) && t.attempts[i].pc.outcome.FailureWritten? ==>
                  && act == Work(i, act.now)
                  && t.attempts[i].pc.outcome.status == ExpectedStatus(cfg, s.attempts[i].retried) == t.job.status
                  && (t.attempts[i].pc.outcome.retry <==>
                        s.attempts[i].retried < cfg.maxRetry && t.attempts[i].pc.outcome.cause != ContextCanceled))
            && (t.job.status == DeadLetter && s.job.status != DeadLetter ==>
                  && act.Work? && act.i < |s.attempts| && Live(s.attempts[act.i]) && !Live(t.attempts[act.i])
                  && s.attempts[act.i].retried >= cfg.maxRetry && t.attempts[act.i].pc.outcome.FailureWritten?
                  && !t.attempts[act.i].pc.outcome.retry)
  {
    hide ScanRow, Stamp, ToErrors, MetricOf, ManifestOf, RowsOf;
  }

  lemma HappensKeepsAttempts(cfg: Config, q: Queue, act: Action)
    requires Counted(cfg, q) && !act.Deliver?
    ensures var t := Step(cfg, q.sys, act);
            && |t.attempts| == |q.sys.attempts| && OneLive(t)
            && (forall k :: 0 <= k < q.delivered ==> AttemptCounted(cfg, t.attempts[k], k))
            && (Quiet(q.sys) ==> Quiet(t))
  {
    var t := Step(cfg, q.sys, act);
    forall k | 0 <= k < |q.sys.attempts|
      ensures |t.attempts| == |q.sys.attempts| && AttemptCounted(cfg, t.attempts[k], k)
      ensures !Live(q.sys.attempts[k]) ==> !Live(t.attempts[k])
    {
      StepCounts(cfg, q.sys, act, k);
      assert AttemptCounted(cfg, q.sys.attempts[k], k);
    }
    assert |t.attempts| == |q.sys.attempts|;
  }

  /** What becomes of the pending delivery and of "dlq", given what becomes of the last attempt. */
  ghost predicate PendingOk(cfg: Config, q: Queue) {
    && (q.next.Some? ==> q.next.value == q.delivered <= cfg.maxRetry && Quiet(q.sys))
    && (q.sys.job.status == DeadLetter ==> q.delivered == cfg.maxRetry + 1 && q.next.None? && Quiet(q.sys))
  }

  lemma LastEnds(s: System)
    requires OneLive(s) && s.attempts != [] && !Live(s.attempts[|s.attempts| - 1])
    ensures Quiet(s)
  {
  }

  lemma QuietKeepsPending(cfg: Config, q: Queue, act: Action)
    requires PendingOk(cfg, q) && !act.Deliver? && Quiet(q.sys)
    ensures PendingOk(cfg, QueueStep(cfg, q, Happens(act)))
  {
    if act != Cancel {
      QuietStays(cfg, q.sys, act);
    }
  }

  /** The last attempt is the only one running. */
  lemma LiveKeepsPending(cfg: Config, q: Queue, act: Action)
    requires PendingOk(cfg, q) && !act.Deliver? && OneLive(q.sys) && |q.sys.attempts| == q.delivered > 0
    requires Live(q.sys.attempts[q.delivered - 1]) && q.sys.attempts[q.delivered - 1].retried == q.delivered - 1
    requires q.delivered <= cfg.maxRetry + 1 && OneLive(Step(cfg, q.sys, act))
    ensures PendingOk(cfg, QueueStep(cfg, q, Happens(act)))
  {
    hide Step;
    var n, t := q.delivered, Step(cfg, q.sys, act);
    StepCounts(cfg, q.sys, act, n - 1);
    if !Live(t.attempts[n - 1]) {
      LastEnds(t);
    }
  }

  lemma HappensKeepsCounted(cfg: Config, q: Queue, act: Action)
    requires Counted(cfg, q) && !act.Deliver?
    ensures Counted(cfg, QueueStep(cfg, q, Happens(act)))
  {
    HappensKeepsAttempts(cfg, q, act);
    if q.delivered > 0 && Live(q.sys.attempts[q.delivered - 1]) {
      assert AttemptCounted(cfg, q.sys.attempts[q.delivered - 1], q.delivered - 1);
      LiveKeepsPending(cfg, q, act);
    } else {
      assert Quiet(q.sys);
      QuietKeepsPending(cfg, q, act);
    }
  }

  lemma QueueStepKeepsCounted(cfg: Config, q: Queue, qa: QueueAction)
    requires Counted(cfg, q)
    ensures Counted(cfg, QueueStep(cfg, q, qa))
  {
    match qa
    case Take =>
      if q.next.Some? {
        var r := QueueStep(cfg, q, qa);
        assert forall k :: 0 <= k < q.delivered ==> r.sys.attempts[k] == q.sys.attempts[k];
        forall k | 0 <= k < r.delivered ensures AttemptCounted(cfg, r.sys.attempts[k], k) {
        }
      }
    case Happens(act) =>
      if !act.Deliver? {
        HappensKeepsCounted(cfg, q, act);
      }
  }

  lemma {:induction false} QueueRunKeepsCounted(cfg: Config, q: Queue, qas: seq<QueueAction>)
    requires Counted(cfg, q)
    ensures Counted(cfg, QueueRun(cfg, q, qas))
    decreases |qas|
  {
    if qas != [] {
      QueueStepKeepsCounted(cfg, q, qas[0]);
      QueueRunKeepsCounted(cfg, QueueStep(cfg, q, qas[0]), qas[1..]);
    }
  }

  /** RETRIES TERMINATE. In every run a task is delivered at most maxRetry + 1 times, delivery `k` carries
      retry count `k`, and the job is in "dlq" only after the delivery whose retry count is maxRetry, with
      nothing left to deliver. */
  lemma RetriesTerminate(cfg: Config, id: string, p: JobParams, rows: int, qas: seq<QueueAction>)
    ensures var q := QueueRun(cfg, Enqueued(id, p, rows), qas);
            && q.delivered <= cfg.maxRetry + 1
            && |q.sys.attempts| == q.delivered
            && (forall k :: 0 <= k < q.delivered ==> q.sys.attempts[k].retried == k)
            && (q.sys.job.status == DeadLetter ==> q.delivered == cfg.maxRetry + 1 && q.next.None?)
  {
    QueueRunKeepsCounted(cfg, Enqueued(id, p, rows), qas);
    var q := QueueRun(cfg, Enqueued(id, p, rows), qas);
    assert forall k :: 0 <= k < q.delivered ==> AttemptCounted(cfg, q.sys.attempts[k], k);
  }

  // ----- Deliveries that all fail -----

  predicate NoCancel(qas: seq<QueueAction>) {
    forall k :: 0 <= k < |qas| ==> qas[k] != Happens(Cancel)
  }

  predicate LastFailed(q: Queue) {
    && q.sys.attempts != []
    && var a := q.sys.attempts[|q.sys.attempts| - 1];
       a.pc.Ended? && a.pc.outcome.FailureWritten?
  }

  /** After a recorded failure the status is the one it wrote, and the next delivery is what it asked for. */
  ghost predicate FailureShows(cfg: Config, q: Queue) {
    LastFailed(q) ==>
      var a := q.sys.attempts[|q.sys.attempts| - 1];
      q.sys.job.status == a.pc.outcome.status && (a.pc.outcome.retry ==> q.next == Some(a.retried + 1))
  }

  /** With no live attempt and no cancel, the store does not move. */
  lemma QuietStays(cfg: Config, s: System, act: Action)
    requires Quiet(s) && !act.Deliver? && act != Cancel
    ensures Step(cfg, s, act) == s
  {
    match act
    case Work(i, now) =>
      if i < |s.attempts| {
        assert !Live(s.attempts[i]);
      }
    case Fault(i, cause) =>
      if i < |s.attempts| {
        assert !Live(s.attempts[i]);
        assert s.attempts[i := s.attempts[i]] == s.attempts;
      }
    case Crash(i) =>
      if i < |s.attempts| {
        assert !Live(s.attempts[i]);
      }
  }

  lemma QueueStepKeepsShown(cfg: Config, q: Queue, qa: QueueAction)
    requires Counted(cfg, q) && FailureShows(cfg, q) && qa != Happens(Cancel)
    ensures FailureShows(cfg, QueueStep(cfg, q, qa))
  {
    if qa.Happens? && !qa.act.Deliver? && q.delivered > 0 {
      var n := q.delivered;
      StepCounts(cfg, q.sys, qa.act, n - 1);
      if !Live(q.sys.attempts[n - 1]) {
        assert Quiet(q.sys);
        QuietStays(cfg, q.sys, qa.act);
      }
    }
  }

  lemma {:induction false} QueueRunKeepsShown(cfg: Config, q: Queue, qas: seq<QueueAction>)
    requires Counted(cfg, q) && FailureShows(cfg, q) && NoCancel(qas)
    ensures FailureShows(cfg, QueueRun(cfg, q, qas))
    decreases |qas|
  {
    if qas != [] {
      QueueStepKeepsCounted(cfg, q, qas[0]);
      QueueStepKeepsShown(cfg, q, qas[0]);
      QueueRunKeepsShown(cfg, QueueStep(cfg, q, qas[0]), qas[1..]);
    }
  }

  /** Without cancels, after a recorded failure of delivery `k` the status is "dlq" if `k` is maxRetry and
      "failed" before that; unless the cause was a canceled context, a delivery below the limit is followed
      by delivery `k + 1`. */
  lemma DeadLetterExactlyAtLimit(cfg: Config, id: string, p: JobParams, rows: int, qas: seq<QueueAction>)
    requires NoCancel(qas) && LastFailed(QueueRun(cfg, Enqueued(id, p, rows), qas))
    ensures var q := QueueRun(cfg, Enqueued(id, p, rows), qas);
            var a := q.sys.attempts[|q.sys.attempts| - 1];
            && a.retried == q.delivered - 1
            && (q.sys.job.status == DeadLetter <==> a.retried == cfg.maxRetry)
            && (q.sys.job.status == Failed <==> a.retried < cfg.maxRetry)
            && (a.retried < cfg.maxRetry && a.pc.outcome.cause != ContextCanceled ==> q.next == Some(q.delivered))
  {
    QueueRunKeepsCounted(cfg, Enqueued(id, p, rows), qas);
    QueueRunKeepsShown(cfg, Enqueued(id, p, rows), qas);
    var q := QueueRun(cfg, Enqueued(id, p, rows), qas);
    assert AttemptCounted(cfg, q.sys.attempts[q.delivered - 1], q.delivered - 1);
  }

  /** The attempt recorded a failure that was not a canceled context. */
  predicate FailedForGood(a: Attempt) {
    a.pc.Ended? && a.pc.outcome.FailureWritten? && a.pc.outcome.cause != ContextCanceled
  }

  /** FAILING ALL THE WAY. If every delivery so far ended in a recorded failure other than a canceled context
      and no delivery is pending, then there have been exactly maxRetry + 1 of them and the job is in "dlq";
      while one is pending, there have been at most maxRetry and the job, once delivered, is "failed". */
  lemma FailingReachesDeadLetter(cfg: Config, id: string, p: JobParams, rows: int, qas: seq<QueueAction>)
    requires NoCancel(qas)
    requires var q := QueueRun(cfg, Enqueued(id, p, rows), qas);
             forall k :: 0 <= k < |q.sys.attempts| ==> FailedForGood(q.sys.attempts[k])
    ensures var q := QueueRun(cfg, Enqueued(id, p, rows), qas);
            && (q.next.None? <==> q.delivered == cfg.maxRetry + 1)
            && (q.next.None? <==> q.sys.job.status == DeadLetter)
            && (q.next.Some? && q.delivered > 0 ==> q.sys.job.status == Failed)
  {
    QueueRunKeepsCounted(cfg, Enqueued(id, p, rows), qas);
    QueueRunKeepsPending(cfg, Enqueued(id, p, rows), qas);
    var q := QueueRun(cfg, Enqueued(id, p, rows), qas);
    if q.delivered > 0 {
      assert FailedForGood(q.sys.attempts[q.delivered - 1]);
      DeadLetterExactlyAtLimit(cfg, id, p, rows, qas);
      assert AttemptCounted(cfg, q.sys.attempts[q.delivered - 1], q.delivered - 1);
    }
  }

  /** Before the first delivery one is pending. */
  lemma {:induction false} QueueRunKeepsPending(cfg: Config, q: Queue, qas: seq<QueueAction>)
    requires |q.sys.attempts| == q.delivered
    requires q.delivered == 0 ==> q.next == Some(0) && q.sys.job.status != DeadLetter
    ensures var r := QueueRun(cfg, q, qas);
            r.delivered == 0 ==> r.next == Some(0) && r.sys.job.status != DeadLetter
    decreases |qas|
  {
    if qas != [] {
      if q.delivered > 0 {
        DeliveredGrows(cfg, q, qas);
      } else {
        QueueRunKeepsPending(cfg, QueueStep(cfg, q, qas[0]), qas[1..]);
      }
    }
  }

  lemma {:induction false} DeliveredGrows(cfg: Config, q: Queue, qas: seq<QueueAction>)
    ensures QueueRun(cfg, q, qas).delivered >= q.delivered
    decreases |qas|
  {
    if qas != [] {
      DeliveredGrows(cfg, QueueStep(cfg, q, qas[0]), qas[1..]);
    }
  }
}
