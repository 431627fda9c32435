/** Deliveries of any number of jobs, handled one after another by the code. */
module Deliveries {
  import opened Events
  import opened SequenceValidator
  import opened Store
  import opened Frames
  import opened ReplayProtocol
  import opened NoLineSkipped
  import opened Completions
  import opened Cancellation
  import opened Handler
  import opened HandlerSteps

  // ----- Serial runs -----

  lemma {:induction false} OwnIsSerial(cfg: Config, s: System, acts: seq<Action>, i: nat)
    requires Own(acts, i) && i < |s.attempts|
    ensures SerialRun(cfg, s, acts) == Run(cfg, s, acts)
    ensures var t := Run(cfg, s, acts);
            |t.attempts| == |s.attempts| && forall j :: 0 <= j < |s.attempts| && j != i ==>
                t.attempts[j] == s.attempts[j]
    decreases |acts|
  {
    if acts != [] {
      assert IsOwn(acts[0], i);
      forall k | 0 <= k < |acts[1..]| ensures IsOwn(acts[1..][k], i) {
        assert IsOwn(acts[k + 1], i);
      }
      if acts[0].Work? && s.attempts[i].pos <= |cfg.file| && cfg.every > 0 {
        WorkTouchesOne(cfg, s, i, acts[0].now);
      }
      OwnIsSerial(cfg, Step(cfg, s, acts[0]), acts[1..], i);
    }
  }

  /** One delivery while nothing else runs is a serial run, and leaves nothing running. */
  lemma DeliveryIsSerial(cfg: Config, s: System, retried: nat, acts: seq<Action>)
    requires Quiet(s) && Own(acts, |s.attempts|)
    requires var t := Run(cfg, s, [Deliver(retried)] + acts);
             |t.attempts| > |s.attempts| && !Live(t.attempts[|s.attempts|])
    ensures SerialRun(cfg, s, [Deliver(retried)] + acts) == Run(cfg, s, [Deliver(retried)] + acts)
    ensures Quiet(Run(cfg, s, [Deliver(retried)] + acts))
  {
    var n, all := |s.attempts|, [Deliver(retried)] + acts;
    assert all[1..] == acts;
    OwnIsSerial(cfg, Step(cfg, s, Deliver(retried)), acts, n);
    var t := Run(cfg, s, all);
    forall j | 0 <= j < |t.attempts| ensures !Live(t.attempts[j]) {
      if j < n {
        assert t.attempts[j] == s.attempts[j];
      }
    }
  }

  lemma {:induction false} SerialAppend(cfg: Config, s: System, a: seq<Action>, b: seq<Action>)
    ensures SerialRun(cfg, s, a + b) == SerialRun(cfg, SerialRun(cfg, s, a), b)
    decreases |a|
  {
    if a == [] {
      assert a + b == b;
    } else {
      SerialAppend(cfg, SerialStep(cfg, s, a[0]), a[1..], b);
      assert (a + b)[1..] == a[1..] + b;
    }
  }

  // ----- The rows of a file do not matter to a run -----

  lemma ReadIgnoresRows(cfg: Config, s: System, x: int, i: nat)
    requires i < |s.attempts| && s.attempts[i].pos < |cfg.file| && cfg.every > 0
    ensures ReadRow(cfg, s.(fileRows := x), i) == ReadRow(cfg, s, i).(fileRows := x)
  {
  }

  /** All but the row count comes out the same. */
  predicate SameButRows(s: System, t: System) {
    && s.job == t.job && s.metrics == t.metrics && s.errors == t.errors && s.attempts == t.attempts
    && s.processed == t.processed && s.completions == t.completions
  }

  lemma OpeningIgnoresRows(cfg: Config, s: System, x: int, i: nat, now: nat)
    requires i < |s.attempts| && s.attempts[i].pos <= |cfg.file| && cfg.every > 0
    requires Stage(s.attempts[i].pc) >= 4 && !(s.attempts[i].pc.Scanning? && s.attempts[i].pos < |cfg.file|)
    ensures SameButRows(WorkStep(cfg, s.(fileRows := x), i, now), WorkStep(cfg, s, i, now))
  {
    hide ReadRow, WithStatus, WithCheckpoint, Stamp, ToErrors, MetricOf, ManifestOf;
  }

  lemma ClosingIgnoresRows(cfg: Config, s: System, x: int, i: nat, now: nat)
    requires i < |s.attempts| && s.attempts[i].pos <= |cfg.file| && cfg.every > 0 && Stage(s.attempts[i].pc) < 4
    ensures SameButRows(WorkStep(cfg, s.(fileRows := x), i, now), WorkStep(cfg, s, i, now))
  {
  }

  lemma WorkIgnoresRows(cfg: Config, s: System, x: int, i: nat, now: nat)
    requires i < |s.attempts| && s.attempts[i].pos <= |cfg.file| && cfg.every > 0
    ensures SameButRows(WorkStep(cfg, s.(fileRows := x), i, now), WorkStep(cfg, s, i, now))
  {
    if s.attempts[i].pc.Scanning? && s.attempts[i].pos < |cfg.file| {
      ReadIgnoresRows(cfg, s, x, i);
    } else if Stage(s.attempts[i].pc) >= 4 {
      OpeningIgnoresRows(cfg, s, x, i, now);
    } else {
      ClosingIgnoresRows(cfg, s, x, i, now);
    }
  }

  lemma StepIgnoresRows(cfg: Config, s: System, x: int, act: Action) returns (y: int)
    ensures Step(cfg, s.(fileRows := x), act) == Step(cfg, s, act).(fileRows := y)
  {
    var t, u := Step(cfg, s.(fileRows := x), act), Step(cfg, s, act);
    if act.Work? && act.i < |s.attempts| && s.attempts[act.i].pos <= |cfg.file| && cfg.every > 0 {
      WorkIgnoresRows(cfg, s, x, act.i, act.now);
    }
    assert SameButRows(t, u);
    y := t.fileRows;
  }

  lemma {:induction false} RunIgnoresRows(cfg: Config, s: System, x: int, acts: seq<Action>) returns (y: int)
    ensures Run(cfg, s.(fileRows := x), acts) == Run(cfg, s, acts).(fileRows := y)
    decreases |acts|
  {
    if acts == [] {
      y := x;
    } else {
      var z := StepIgnoresRows(cfg, s, x, acts[0]);
      y := RunIgnoresRows(cfg, Step(cfg, s, acts[0]), z, acts[1..]);
    }
  }

  // ----- One job among others -----

  /** The store holds what `s` says about job `id`, whatever its file's row count. */
  ghost predicate Tracks(r: Repo, id: string, s: System) {
    && id in r.jobs && r.jobs[id] == s.job && s.job.id == id
    && At(r.metrics, id) == s.metrics && At(r.errors, id) == s.errors
  }

  /** Job `id` as the store has it, with no attempt running. */
  function SystemOf(r: Repo, id: string): System
    requires id in r.jobs
  {
    System(r.jobs[id], 0, At(r.metrics, id), At(r.errors, id), [], {}, [])
  }

  lemma TracksMirrors(r: Repo, id: string, s: System)
    requires Consistent(r) && Tracks(r, id, s)
    ensures s.job.eventFileID in r.files && Mirrors(r, id, s.(fileRows := r.files[s.job.eventFileID].rows))
  {
    assert References(r);
  }

  lemma FrameTracks(r: Repo, t: Repo, id: string, other: string, s: System)
    requires Framed(r, t, id) && other != id && Tracks(r, other, s)
    ensures Tracks(t, other, s)
  {
    assert KeptAt(r, t, id, r.jobs[id].eventFileID, other);
  }

  /** A delivery of one job, and whether a cancel of it arrives first. */
  datatype Delivery = Delivery(
    jobID: string, canceledFirst: bool, retried: nat, interrupt: Option<Interrupt>, sha256: string, bytes: int,
        now: nat)

  /** What the delivery left in the store, by its outcome. */
  ghost predicate Handled(outcome: Outcome, was: Repo, r: Repo, cfg: Config, d: Delivery) {
    Delivered(outcome, was, r, d.jobID, cfg, FileStats(d.sha256, d.bytes), d.retried, d.interrupt, d.now)
  }

  /** An unknown job is dropped, a known one is not, and one canceled first is left alone. */
  predicate Answered(outcome: Outcome, d: Delivery, known: set<string>) {
    && (outcome == Dropped <==> d.jobID !in known)
    && (d.jobID in known && d.canceledFirst ==> outcome == NothingToDo)
  }

  predicate AllAnswered(outcomes: seq<Outcome>, ds: seq<Delivery>, known: set<string>) {
    |outcomes| <= |ds| && forall k :: 0 <= k < |outcomes| ==> Answered(outcomes[k], ds[k], known)
  }

  lemma AnsweredSnoc(outcomes: seq<Outcome>, ds: seq<Delivery>, known: set<string>, outcome: Outcome)
    requires AllAnswered(outcomes, ds, known) && |outcomes| < |ds| && Answered(outcome, ds[|outcomes|], known)
    ensures AllAnswered(outcomes + [outcome], ds, known)
  {
  }

  lemma NothingAnswered(ds: seq<Delivery>, known: set<string>)
    ensures AllAnswered([], ds, known)
  {
  }

  /** A cancel, if one arrives, and then a delivery: one serial run that leaves nothing running and touches no
      other job. */
  method DeliverOnce(repo: MemoryRepository, cfg: Config, d: Delivery, ghost s: System)
      returns (outcome: Outcome, ghost acts: seq<Action>)
    requires ValidConfig(cfg) && repo.Valid() && Tracks(repo.State(), d.jobID, s) && Quiet(s)
    modifies repo
    ensures repo.Valid() && Framed(old(repo.State()), repo.State(), d.jobID)
    ensures Tracks(repo.State(), d.jobID, Run(cfg, s, acts)) && Quiet(Run(cfg, s, acts))
    ensures SerialRun(cfg, s, acts) == Run(cfg, s, acts)
    ensures !d.canceledFirst ==> Handled(outcome, old(repo.State()), repo.State(), cfg, d)
    ensures d.canceledFirst ==> outcome == NothingToDo && repo.jobs[d.jobID].status == Canceled
  {
    hide Run;
    ghost var was, t := repo.State(), s;
    ghost var first: seq<Action> := [];
    FramedRefl(was, d.jobID);
    if d.canceledFirst {
      t := Step(cfg, s, Cancel);
      first := [Cancel];
      ApplyFrames(repo.State(), UpdateStatus(d.jobID, Canceled, ""), d.jobID);
      var _ := repo.CancelReplayJob(d.jobID);
    }
    CancelFirst(cfg, s, first, t);
    ghost var mid := repo.State();
    outcome, acts := DeliverNow(repo, cfg, d, t);
    FramedTrans(was, mid, repo.State(), d.jobID);
    RunAppend(cfg, s, first, acts);
    SerialAppend(cfg, s, first, acts);
    acts := first + acts;
  }

  lemma CancelFirst(cfg: Config, s: System, first: seq<Action>, t: System)
    requires (first == [] && t == s) || (first == [Cancel] && t == Step(cfg, s, Cancel))
    ensures t == Run(cfg, s, first) == SerialRun(cfg, s, first) && (Quiet(s) ==> Quiet(t))
  {
    if first != [] {
      assert [Cancel][1..] == [];
    }
  }

  method DeliverNow(repo: MemoryRepository, cfg: Config, d: Delivery, ghost s: System)
      returns (outcome: Outcome, ghost acts: seq<Action>)
    requires ValidConfig(cfg) && repo.Valid() && Tracks(repo.State(), d.jobID, s) && Quiet(s)
    modifies repo
    ensures repo.Valid() && Framed(old(repo.State()), repo.State(), d.jobID)
    ensures Tracks(repo.State(), d.jobID, Run(cfg, s, acts)) && Quiet(Run(cfg, s, acts))
    ensures SerialRun(cfg, s, acts) == Run(cfg, s, acts)
    ensures Handled(outcome, old(repo.State()), repo.State(), cfg, d)
  {
    TracksMirrors(repo.State(), d.jobID, s);
    ghost var x := repo.State().files[s.job.eventFileID].rows;
    outcome, acts := ProcessTask(repo, d.jobID, d.retried, cfg, d.interrupt, d.sha256, d.bytes, d.now,
        s.(fileRows := x));
    acts := [Deliver(d.retried)] + acts;
    ghost var y := RunIgnoresRows(cfg, s, x, acts);
    DeliveryIsSerial(cfg, s, d.retried, acts[1..]);
    assert acts == [Deliver(d.retried)] + acts[1..];
  }

  // ----- Any number of jobs -----

  /** What happened to job `id` between the stores `r` and `t` is the serial run `acts` of the step machine. */
  ghost predicate Followed(r: Repo, t: Repo, cfg: Config, id: string, acts: seq<Action>)
    requires id in r.jobs
  {
    var s := Run(cfg, SystemOf(r, id), acts);
    Tracks(t, id, s) && Quiet(s) && SerialRun(cfg, SystemOf(r, id), acts) == s
  }

  ghost predicate FollowedAt(r: Repo, t: Repo, cfgOf: string -> Config, runs: map<string, seq<Action>>, id: string) {
    id in r.jobs ==> id in runs && Followed(r, t, cfgOf(id), id, runs[id])
  }

  ghost predicate AllFollowed(r: Repo, t: Repo, cfgOf: string -> Config, runs: map<string, seq<Action>>) {
    forall id {:trigger FollowedAt(r, t, cfgOf, runs, id)} :: FollowedAt(r, t, cfgOf, runs, id)
  }

  lemma NothingFollowed(r: Repo, cfgOf: string -> Config, runs: map<string, seq<Action>>)
    requires Consistent(r) && forall id :: id in r.jobs ==> id in runs && runs[id] == []
    ensures AllFollowed(r, r, cfgOf, runs)
  {
    forall id {:trigger FollowedAt(r, r, cfgOf, runs, id)} ensures FollowedAt(r, r, cfgOf, runs, id) {
      if id in r.jobs {
        assert References(r);
      }
    }
  }

  /** One more delivery of job `id` extends its run and leaves the other jobs' runs as they are. */
  lemma FollowOne(r: Repo, t: Repo, u: Repo, cfgOf: string -> Config, runs: map<string, seq<Action>>, id: string,
                  more: seq<Action>)
    requires AllFollowed(r, t, cfgOf, runs) && id in r.jobs && id in runs && Framed(t, u, id)
    requires var s := Run(cfgOf(id), SystemOf(r, id), runs[id]);
             && Tracks(u, id, Run(cfgOf(id), s, more)) && Quiet(Run(cfgOf(id), s, more))
             && SerialRun(cfgOf(id), s, more) == Run(cfgOf(id), s, more)
    ensures AllFollowed(r, u, cfgOf, runs[id := runs[id] + more])
  {
    var next := runs[id := runs[id] + more];
    forall x {:trigger FollowedAt(r, u, cfgOf, next, x)} ensures FollowedAt(r, u, cfgOf, next, x) {
      assert FollowedAt(r, t, cfgOf, runs, x);
      if x == id {
        RunAppend(cfgOf(id), SystemOf(r, id), runs[id], more);
        SerialAppend(cfgOf(id), SystemOf(r, id), runs[id], more);
      } else if x in r.jobs {
        FrameTracks(t, u, id, x, Run(cfgOf(x), SystemOf(r, x), runs[x]));
      }
    }
  }

  /** THE CODE FOLLOWS THE MACHINE. However deliveries of any number of jobs follow one another, with whatever
      retry counts, interruptions and cancels, each job goes through a serial run of the step machine. */
  method ProcessTasks(repo: MemoryRepository, cfgOf: string -> Config, deliveries: seq<Delivery>)
      returns (outcomes: seq<Outcome>, ghost runs: map<string, seq<Action>>)
    requires repo.Valid() && forall id :: ValidConfig(cfgOf(id))
    modifies repo
    ensures repo.Valid() && |outcomes| == |deliveries|
    ensures AllAnswered(outcomes, deliveries, old(repo.jobs).Keys)
    ensures AllFollowed(old(repo.State()), repo.State(), cfgOf, runs)
    ensures AtMostOnce(old(repo.State())) ==> AtMostOnce(repo.State())
  {
    hide AllFollowed, Answered, AllAnswered, AtMostOnce, Consistent;
    outcomes := [];
    ghost var was := repo.State();
    runs := map id | id in was.jobs :: [];
    NothingFollowed(was, cfgOf, runs);
    NothingAnswered(deliveries, was.jobs.Keys);
    for k := 0 to |deliveries|
      invariant repo.Valid() && |outcomes| == k && repo.jobs.Keys == was.jobs.Keys
      invariant AllFollowed(was, repo.State(), cfgOf, runs)
      invariant AllAnswered(outcomes, deliveries, was.jobs.Keys)
    {
      var outcome;
      outcome, runs := ProcessNext(repo, cfgOf, deliveries[k], was, runs);
      AnsweredSnoc(outcomes, deliveries, was.jobs.Keys, outcome);
      outcomes := outcomes + [outcome];
    }
    if AtMostOnce(was) {
      FollowedOnce(was, repo.State(), cfgOf, runs);
    }
  }

  method ProcessNext(repo: MemoryRepository, cfgOf: string -> Config, d: Delivery, ghost was: Repo,
                     ghost runs: map<string, seq<Action>>)
      returns (outcome: Outcome, ghost next: map<string, seq<Action>>)
    requires repo.Valid() && ValidConfig(cfgOf(d.jobID)) && repo.jobs.Keys == was.jobs.Keys
    requires AllFollowed(was, repo.State(), cfgOf, runs)
    modifies repo
    ensures repo.Valid() && repo.jobs.Keys == was.jobs.Keys && AllFollowed(was, repo.State(), cfgOf, next)
    ensures Answered(outcome, d, was.jobs.Keys)
  {
    ghost var id, before := d.jobID, repo.State();
    var known := repo.GetReplayJob(d.jobID);
    if known.Refused? {
      ghost var none: seq<Action>;
      outcome, none := ProcessTask(repo, d.jobID, d.retried, cfgOf(d.jobID), d.interrupt, d.sha256, d.bytes, d.now,
                                   Submitted("", JobParams("", "", "", "", ""), 0));
      return outcome, runs;
    }
    assert FollowedAt(was, before, cfgOf, runs, id);
    ghost var more: seq<Action>;
    outcome, more := DeliverOnce(repo, cfgOf(d.jobID), d, Run(cfgOf(id), SystemOf(was, id), runs[id]));
    FollowOne(was, before, repo.State(), cfgOf, runs, id, more);
    FramedKeys(before, repo.State(), id);
    next := runs[id := runs[id] + more];
  }

  lemma FramedKeys(r: Repo, t: Repo, id: string)
    requires Framed(r, t, id)
    ensures r.jobs.Keys == t.jobs.Keys
  {
    forall x ensures x in r.jobs <==> x in t.jobs {
      assert KeptAt(r, t, id, r.jobs[id].eventFileID, x);
    }
  }

  // ----- What that says about the store -----

  predicate OnceAt(r: Repo, id: string) {
    id in r.jobs ==>
      && |At(r.metrics, id)| <= 1
      && (At(r.metrics, id) != [] ==> r.jobs[id].status == Completed || r.jobs[id].status == Canceled)
  }

  /** Every job has at most one metric, and with one it is completed or canceled. */
  ghost predicate AtMostOnce(r: Repo) {
    forall id {:trigger OnceAt(r, id)} :: OnceAt(r, id)
  }

  /** AT MOST ONCE, of the code. */
  lemma FollowedOnce(r: Repo, t: Repo, cfgOf: string -> Config, runs: map<string, seq<Action>>)
    requires AllFollowed(r, t, cfgOf, runs) && AtMostOnce(r) && r.jobs.Keys == t.jobs.Keys
    ensures AtMostOnce(t)
  {
    forall id {:trigger OnceAt(t, id)} ensures OnceAt(t, id) {
      if id in r.jobs {
        assert FollowedAt(r, t, cfgOf, runs, id) && OnceAt(r, id);
        SerialRunKeepsOnce(cfgOf(id), SystemOf(r, id), runs[id]);
      }
    }
  }

  /** A job as it was just created. */
  predicate Fresh(r: Repo, id: string, p: JobParams) {
    id in r.jobs && r.jobs[id] == NewJob(id, p) && At(r.metrics, id) == [] && At(r.errors, id) == []
  }

  /** EXACT RESULTS, of the code. A fresh job that the deliveries have given a metric has exactly one; its rows and
      the job's checkpoint are the file's last line, metric and errors are those of a scan of the whole file
      resumed at some line of it, and the job's manifest describes such a scan. */
  lemma StoredIsExact(r: Repo, t: Repo, cfg: Config, id: string, p: JobParams, acts: seq<Action>)
    requires ValidConfig(cfg) && Fresh(r, id, p) && Followed(r, t, cfg, id, acts)
    ensures At(t.metrics, id) == [] ==> At(t.errors, id) == []
    ensures At(t.metrics, id) != [] ==>
            && |At(t.metrics, id)| == 1 && t.jobs[id].checkpointLine == LastLine(cfg)
            && DescribesScan(cfg, t.jobs[id].manifest)
            && exists resume: int, now: nat :: StoredFrom(t, cfg, id, resume, now)
  {
    AtMostOneCompletion(cfg, id, p, 0, acts);
    SubmittedOk(cfg, id, p, 0);
    RunKeepsReports(cfg, Submitted(id, p, 0), acts);
    RunKeepsOk(cfg, Submitted(id, p, 0), acts);
    var s := Run(cfg, Submitted(id, p, 0), acts);
    if s.completions == [] {
      assert AllErrors(s.completions) == [];
    } else {
      CompletionStored(cfg, id, p, 0, acts, 0);
      CompletionIsExact(cfg, id, p, 0, acts, 0);
      FinalManifest(cfg, id, p, 0, acts);
      OneCompletion(s.completions);
      assert StoredFrom(t, cfg, id, s.completions[0].resume, s.completions[0].now);
    }
  }

  lemma OneCompletion(cs: seq<Completion>)
    requires |cs| == 1
    ensures AllErrors(cs) == cs[0].errors
  {
    assert Front(cs) == [];
    assert AllErrors([]) == [];
  }

  /** Job `id` has one error for each failure of scanning the file, resumed at `resume`, and its metric counts
      the last line, the events above `resume` and the errors by type. */
  ghost predicate StoredFrom(t: Repo, cfg: Config, id: string, resume: int, now: nat) {
    && 0 <= resume <= LastLine(cfg) && |At(t.metrics, id)| == 1
    && StoresFailures(At(t.errors, id), Scan(cfg, resume, |cfg.file|).failures, id, now)
    && At(t.metrics, id)[0] == Metric(LastLine(cfg), CountSelected(cfg.filter, cfg.file[RowsUpTo(cfg, resume)..]),
        CountType("malformed", At(t.errors, id)), CountType("sequence_gap", At(t.errors, id)))
  }
}
