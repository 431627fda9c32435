/** How many times a job can be completed when deliveries overlap. */
module Overlap {
  import opened Events
  import opened SequenceValidator
  import opened Store
  import opened ReplayProtocol
  import opened NoLineSkipped
  import opened Cancellation

  predicate NoDelivery(acts: seq<Action>) {
    forall k :: 0 <= k < |acts| ==> !acts[k].Deliver?
  }

  /** Attempts that are neither over nor failing: each may still complete the job. */
  function Contenders(attempts: seq<Attempt>): nat {
    if attempts == [] then 0
    else Contenders(Front(attempts)) + (if Over(Last(attempts)) then 0 else 1)
  }

  lemma {:induction false} ContendersUpdate(attempts: seq<Attempt>, i: nat, a: Attempt)
    requires i < |attempts|
    ensures Contenders(attempts[i := a]) + (if Over(attempts[i]) then 0 else 1)
         == Contenders(attempts) + (if Over(a) then 0 else 1)
  {
    var n := |attempts| - 1;
    if i == n {
      assert Front(attempts[i := a]) == Front(attempts);
    } else {
      ContendersUpdate(Front(attempts), i, a);
      assert Front(attempts[i := a]) == Front(attempts)[i := a];
    }
  }

  // ----- The upper bound -----

  lemma WorkSpends(cfg: Config, s: System, i: nat, now: nat)
    requires i < |s.attempts| && s.attempts[i].pos <= |cfg.file| && cfg.every > 0
    ensures var t := WorkStep(cfg, s, i, now);
            |t.metrics| + Contenders(t.attempts) <= |s.metrics| + Contenders(s.attempts)
  {
    var t := WorkStep(cfg, s, i, now);
    WorkTouchesOne(cfg, s, i, now);
    assert t.attempts == s.attempts[i := t.attempts[i]];
    ContendersUpdate(s.attempts, i, t.attempts[i]);
  }

  lemma StepSpends(cfg: Config, s: System, act: Action)
    requires !act.Deliver?
    ensures var t := Step(cfg, s, act);
            |t.metrics| + Contenders(t.attempts) <= |s.metrics| + Contenders(s.attempts)
  {
    match act
    case Work(i, now) =>
      if i < |s.attempts| && s.attempts[i].pos <= |cfg.file| && cfg.every > 0 {
        WorkSpends(cfg, s, i, now);
      }
    case Fault(i, cause) =>
      if i < |s.attempts| {
        ContendersUpdate(s.attempts, i, FaultStep(s, i, cause).attempts[i]);
      }
    case Crash(i) =>
      if i < |s.attempts| {
        ContendersUpdate(s.attempts, i, s.attempts[i].(pc := Ended(Crashed)));
      }
    case Cancel =>
  }

  /** Without a further delivery, each contender stores at most one metric. */
  lemma {:induction false} RunSpends(cfg: Config, s: System, acts: seq<Action>)
    requires NoDelivery(acts)
    ensures |Run(cfg, s, acts).metrics| <= |s.metrics| + Contenders(s.attempts)
    decreases |acts|
  {
    if acts != [] {
      assert !acts[0].Deliver?;
      StepSpends(cfg, s, acts[0]);
      RunSpends(cfg, Step(cfg, s, acts[0]), acts[1..]);
    }
  }

  // ----- The bound is reached -----

  ghost predicate InRange(cfg: Config, attempts: seq<Attempt>) {
    forall j :: 0 <= j < |attempts| ==> attempts[j].pos <= |cfg.file|
  }

  ghost predicate Unchanged(s: System, t: System, i: nat) {
    |t.attempts| == |s.attempts| && forall j :: 0 <= j < |s.attempts| && j != i ==> t.attempts[j] == s.attempts[j]
  }

  lemma {:induction false} AloneKeepsOthers(cfg: Config, s: System, i: nat, n: nat)
    requires i < |s.attempts|
    ensures Unchanged(s, Run(cfg, s, WorkAlone(i, n)), i)
    decreases n
  {
    if n > 0 {
      WorkOnce(cfg, s, i, n);
      var t := Step(cfg, s, Work(i, 1));
      if s.attempts[i].pos <= |cfg.file| && cfg.every > 0 {
        WorkTouchesOne(cfg, s, i, 1);
      }
      AloneKeepsOthers(cfg, t, i, n - 1);
    }
  }

  predicate Passed(a: Attempt, b: Attempt) {
    if a.pc.Loading? then b == a.(pc := MarkingRunning) else b == a
  }

  /** While the job is not settled, the first `n` attempts can all pass their first check. */
  lemma {:induction false} AllPass(cfg: Config, s: System, n: nat) returns (acts: seq<Action>)
    requires cfg.every > 0 && InRange(cfg, s.attempts) && !SettledStatus(s.job.status) && n <= |s.attempts|
    ensures var t := Run(cfg, s, acts);
            && NoDelivery(acts) && t.job == s.job && t.metrics == s.metrics && |t.attempts| == |s.attempts|
            && (forall j :: 0 <= j < n ==> Passed(s.attempts[j], t.attempts[j]))
            && (forall j :: n <= j < |s.attempts| ==> t.attempts[j] == s.attempts[j])
    decreases n
  {
    if n == 0 {
      acts := [];
    } else {
      acts := AllPass(cfg, s, n - 1);
      var t := Run(cfg, s, acts);
      if t.attempts[n - 1].pc.Loading? {
        RunAppend(cfg, s, acts, [Work(n - 1, 1)]);
        RunOne(cfg, t, Work(n - 1, 1));
        acts := acts + [Work(n - 1, 1)];
      }
    }
  }

  lemma {:induction false} SameContenders(a: seq<Attempt>, b: seq<Attempt>)
    requires |a| == |b| && forall j :: 0 <= j < |a| ==> (Over(a[j]) <==> Over(b[j]))
    ensures Contenders(a) == Contenders(b)
  {
    if a != [] {
      SameContenders(Front(a), Front(b));
    }
  }

  /** One after the other, the contenders among the first `n` attempts complete the job. */
  lemma {:induction false} AllFinish(cfg: Config, s: System, n: nat) returns (acts: seq<Action>)
    requires cfg.every > 0 && InRange(cfg, s.attempts) && s.job.status != Canceled && n <= |s.attempts|
    requires forall j :: 0 <= j < |s.attempts| ==> !s.attempts[j].pc.Loading?
    ensures var t := Run(cfg, s, acts);
            && NoDelivery(acts) && t.job.status != Canceled && |t.attempts| == |s.attempts|
            && |t.metrics| == |s.metrics| + Contenders(s.attempts[..n])
            && (forall j :: n <= j < |s.attempts| ==> t.attempts[j] == s.attempts[j])
    decreases n
  {
    if n == 0 {
      acts := [];
    } else {
      acts := AllFinish(cfg, s, n - 1);
      assert Front(s.attempts[..n]) == s.attempts[..n - 1];
      var t := Run(cfg, s, acts);
      assert t.attempts[n - 1] == s.attempts[n - 1];
      if !Over(s.attempts[n - 1]) {
        var m := RunsToCompletion(cfg, t, n - 1);
        AloneKeepsOthers(cfg, t, n - 1, m);
        RunAppend(cfg, s, acts, WorkAlone(n - 1, m));
        acts := acts + WorkAlone(n - 1, m);
      }
    }
  }

  /** Nobody has to be let past the first check by a status that stops there, and nobody can see a cancel. */
  predicate WayIsClear(s: System) {
    && s.job.status != Canceled
    && (SettledStatus(s.job.status) ==> forall j :: 0 <= j < |s.attempts| ==> !s.attempts[j].pc.Loading?)
  }

  /** EXACT COUNT. While the way is clear, in particular while the job is not settled, the attempts in flight can
      store as many more metrics as there are contenders among them, and, without a further delivery, never more. */
  lemma CompletionsPossible(cfg: Config, s: System) returns (acts: seq<Action>)
    requires cfg.every > 0 && InRange(cfg, s.attempts) && WayIsClear(s)
    ensures NoDelivery(acts) && |Run(cfg, s, acts).metrics| == |s.metrics| + Contenders(s.attempts)
    ensures forall others :: NoDelivery(others) ==>
            |Run(cfg, s, others).metrics| <= |s.metrics| + Contenders(s.attempts)
  {
    var n, pass := |s.attempts|, [];
    if !SettledStatus(s.job.status) {
      pass := AllPass(cfg, s, n);
    }
    var t := Run(cfg, s, pass);
    SameContenders(s.attempts, t.attempts);
    var finish := AllFinish(cfg, t, n);
    assert t.attempts[..n] == t.attempts;
    RunAppend(cfg, s, pass, finish);
    acts := pass + finish;
    forall others | NoDelivery(others)
      ensures |Run(cfg, s, others).metrics| <= |s.metrics| + Contenders(s.attempts)
    {
      RunSpends(cfg, s, others);
    }
  }

  ghost predicate AtMostOneMore(cfg: Config, s: System) {
    forall acts :: NoDelivery(acts) ==> |Run(cfg, s, acts).metrics| <= |s.metrics| + 1
  }

  /** EXACT CONDITION. The attempts in flight complete the job at most once more, whatever happens without a
      further delivery, if and only if at most one of them is a contender. */
  lemma AtMostOneMoreIff(cfg: Config, s: System)
    requires cfg.every > 0 && InRange(cfg, s.attempts) && WayIsClear(s)
    ensures AtMostOneMore(cfg, s) <==> Contenders(s.attempts) <= 1
  {
    var acts := CompletionsPossible(cfg, s);
    if Contenders(s.attempts) > 1 {
      assert |Run(cfg, s, acts).metrics| > |s.metrics| + 1;
    }
  }

  lemma TwoContenders(a: Attempt, b: Attempt)
    requires !Over(a) && !Over(b)
    ensures Contenders([a, b]) == 2
  {
    assert Front([a, b]) == [a] && Front([a]) == [];
    assert Contenders([a]) == 1;
  }

  /** COUNTEREXAMPLE, for every file and configuration: two overlapping deliveries of a job complete it twice. */
  lemma OverlapCompletesTwice(cfg: Config, id: string, p: JobParams, rows: int) returns (acts: seq<Action>)
    requires cfg.every > 0
    ensures |Run(cfg, Submitted(id, p, rows), acts).metrics| == 2
  {
    var s, opening := Submitted(id, p, rows), [Deliver(0), Deliver(0)];
    var t := Step(cfg, Step(cfg, s, Deliver(0)), Deliver(0));
    var attempt := Attempt(0, Loading, 0, 0, FRESH);
    RunTwo(cfg, s, opening);
    assert opening[2..] == [] && Run(cfg, s, opening) == t;
    assert t.attempts == [attempt, attempt];
    TwoContenders(attempt, attempt);
    var rest := CompletionsPossible(cfg, t);
    RunAppend(cfg, s, opening, rest);
    acts := opening + rest;
  }
}
