/** Submitting replay jobs: create the job, then either enqueue its task or return the job that already
    has the key. Submissions and all other store operations interleave freely. */
module Submissions {
  import opened Events
  import opened Store

  /** One call of SubmitReplay between its repository and queue calls; a call that has returned keeps the
      key it was made with. */
  datatype Submission =
    | Creating(params: JobParams)
    | LookingUp(key: string)
    | Enqueueing(params: JobParams, job: Job)
    | Returned(key: string, job: Job)
    | Rejected

  /** What the queue answers: accepted, refused as a duplicate, or an error. */
  datatype QueueReply = Accepted | Duplicate | QueueError

  datatype Intake = Intake(repo: Repo, calls: seq<Submission>, enqueued: seq<string>)

  datatype Event =
    | Call(params: JobParams)
    | Create(i: nat, freshID: string)
    | Lookup(i: nat)
    | Enqueue(i: nat, reply: QueueReply)
    | Other(op: Op)

  /** A call once the store has answered its creation. */
  function Answered(params: JobParams, reply: Reply<Job>): Submission {
    if reply.Stored? then Enqueueing(params, reply.value)
    else if reply.error == AlreadyExists && params.idempotencyKey != "" then LookingUp(params.idempotencyKey)
    else Rejected
  }

  function Next(f: Intake, e: Event): Intake {
    match e
    case Call(params) => f.(calls := f.calls + [Creating(params)])
    case Create(i, freshID) =>
      if i < |f.calls| && f.calls[i].Creating? && freshID !in f.repo.jobs then
        var params := f.calls[i].params;
        var reply := CreateJobReply(f.repo, freshID, params);
        f.(repo := Apply(f.repo, CreateJob(freshID, params)), calls := f.calls[i := Answered(params, reply)])
      else f
    case Lookup(i) =>
      if i < |f.calls| && f.calls[i].LookingUp? then
        var key := f.calls[i].key;
        f.(calls := f.calls[i :=
          if key in f.repo.keys
              && f.repo.keys[key] in f.repo.jobs then Returned(key, f.repo.jobs[f.repo.keys[key]]) else Rejected])
      else f
    case Enqueue(i, reply) =>
      if i < |f.calls| && f.calls[i].Enqueueing? then
        var job, key := f.calls[i].job, f.calls[i].params.idempotencyKey;
        f.(calls := f.calls[i := if reply == QueueError then Rejected else Returned(key, job)],
           enqueued := if reply == Accepted then f.enqueued + [job.id] else f.enqueued)
      else f
    case Other(op) =>
      if Unused(f.repo, op) then f.(repo := Apply(f.repo, op)) else f
  }

  function After(f: Intake, es: seq<Event>): Intake
    decreases |es|
  {
    if es == [] then f else After(Next(f, es[0]), es[1..])
  }

  const START := Intake(EMPTY, [], [])

  ghost predicate CallOk(r: Repo, c: Submission) {
    match c
    case Enqueueing(params, job) =>
      job.id in r.jobs && FromParams(r.jobs[job.id], params) && FromParams(job, params) && Untouched(job)
    case Returned(key, job) => job.id in r.jobs && r.jobs[job.id].idempotencyKey == key
    case LookingUp(key) => key in r.keys
    case _ => true
  }

  /** Each job is enqueued at most once, by the one call that created it. */
  ghost predicate IntakeOk(f: Intake) {
    && Consistent(f.repo)
    && (forall i :: 0 <= i < |f.calls| ==> CallOk(f.repo, f.calls[i]))
    && (forall i :: 0 <= i < |f.enqueued| ==> f.enqueued[i] in f.repo.jobs)
    && (forall i, j :: 0 <= i < j < |f.enqueued| ==> f.enqueued[i] != f.enqueued[j])
    && Pending(f.calls, f.enqueued)
  }

  lemma ApplyKeepsKey(r: Repo, op: Op, k: string)
    requires Unused(r, op) && k in r.keys
    ensures k in Apply(r, op).keys && Apply(r, op).keys[k] == r.keys[k]
  {
  }

  /** Operations never remove a job, change what it was asked for, or drop a key. */
  lemma ApplyKeepsKeys(r: Repo, op: Op)
    requires Unused(r, op)
    ensures var t := Apply(r, op);
            && (forall id :: id in r.jobs ==> id in t.jobs && SameOrigin(t.jobs[id], r.jobs[id]))
            && (forall k :: k in r.keys ==> k in t.keys && t.keys[k] == r.keys[k])
  {
    var t := Apply(r, op);
    forall id | id in r.jobs ensures id in t.jobs && SameOrigin(t.jobs[id], r.jobs[id]) {
      ApplyKeepsOrigin(r, op, id);
    }
    forall k | k in r.keys ensures k in t.keys && t.keys[k] == r.keys[k] {
      ApplyKeepsKey(r, op, k);
    }
  }

  lemma CallsKept(r: Repo, op: Op, calls: seq<Submission>)
    requires Consistent(r) && Unused(r, op)
    requires forall i :: 0 <= i < |calls| ==> CallOk(r, calls[i])
    ensures forall i :: 0 <= i < |calls| ==> CallOk(Apply(r, op), calls[i])
  {
    ApplyKeepsKeys(r, op);
    forall i | 0 <= i < |calls| ensures CallOk(Apply(r, op), calls[i]) {
      assert CallOk(r, calls[i]);
    }
  }

  /** The enqueueing calls name distinct jobs, none of them enqueued already. */
  ghost predicate Pending(calls: seq<Submission>, enqueued: seq<string>) {
    && (forall i, j :: 0 <= i < j < |calls| && calls[i].Enqueueing? && calls[j].Enqueueing? ==>
      calls[i].job.id != calls[j].job.id)
    && (forall i, j :: 0 <= i < |calls| && 0 <= j < |enqueued| && calls[i].Enqueueing? ==>
      calls[i].job.id != enqueued[j])
  }

  lemma CreateKeepsPending(calls: seq<Submission>, enqueued: seq<string>, i: nat, c: Submission)
    requires Pending(calls, enqueued) && i < |calls|
    requires c.Enqueueing? ==> c.job.id !in enqueued && forall j :: 0 <= j < |calls| && calls[j].Enqueueing? ==>
             calls[j].job.id != c.job.id
    ensures Pending(calls[i := c], enqueued)
  {
  }

  lemma CreateKeepsOk(f: Intake, i: nat, freshID: string)
    requires IntakeOk(f) && i < |f.calls| && f.calls[i].Creating? && freshID !in f.repo.jobs
    ensures IntakeOk(Next(f, Create(i, freshID)))
  {
    var op := CreateJob(freshID, f.calls[i].params);
    ApplyKeepsConsistent(f.repo, op);
    ApplyKeepsKeys(f.repo, op);
    CallsKept(f.repo, op, f.calls);
    var g := Next(f, Create(i, freshID));
    AnsweredOk(f.repo, freshID, f.calls[i].params);
    NotEnqueuedYet(f, freshID);
    CreateKeepsPending(f.calls, f.enqueued, i, g.calls[i]);
  }

  lemma AnsweredOk(r: Repo, id: string, p: JobParams)
    requires id !in r.jobs
    ensures var c := Answered(p, CreateJobReply(r, id, p));
            CallOk(Apply(r, CreateJob(id, p)), c) && (c.Enqueueing? ==> c.job.id == id)
  {
  }

  lemma EnqueueKeepsPending(calls: seq<Submission>, enqueued: seq<string>, i: nat, c: Submission)
    requires Pending(calls, enqueued) && i < |calls| && calls[i].Enqueueing? && !c.Enqueueing?
    ensures Pending(calls[i := c], enqueued + [calls[i].job.id]) && Pending(calls[i := c], enqueued)
    ensures calls[i].job.id !in enqueued
  {
    forall j | 0 <= j < |calls| && j != i && calls[j].Enqueueing? ensures calls[j].job.id != calls[i].job.id {
      if j < i {
        assert calls[j].job.id != calls[i].job.id;
      }
    }
  }

  lemma EnqueueKeepsOk(f: Intake, i: nat, reply: QueueReply)
    requires IntakeOk(f) && i < |f.calls| && f.calls[i].Enqueueing?
    ensures IntakeOk(Next(f, Enqueue(i, reply)))
  {
    var g := Next(f, Enqueue(i, reply));
    assert CallOk(f.repo, f.calls[i]);
    assert CallOk(f.repo, g.calls[i]);
    EnqueueKeepsPending(f.calls, f.enqueued, i, g.calls[i]);
  }

  lemma NextKeepsOk(f: Intake, e: Event)
    requires IntakeOk(f)
    ensures IntakeOk(Next(f, e))
  {
    match e
    case Call(_) =>
    case Create(i, freshID) =>
      if i < |f.calls| && f.calls[i].Creating? && freshID !in f.repo.jobs {
        CreateKeepsOk(f, i, freshID);
      }
    case Lookup(i) =>
    case Enqueue(i, reply) =>
      if i < |f.calls| && f.calls[i].Enqueueing? {
        EnqueueKeepsOk(f, i, reply);
      }
    case Other(op) =>
      if Unused(f.repo, op) {
        ApplyKeepsConsistent(f.repo, op);
        ApplyKeepsKeys(f.repo, op);
        CallsKept(f.repo, op, f.calls);
      }
  }

  lemma {:induction false} AfterKeepsOk(f: Intake, es: seq<Event>)
    requires IntakeOk(f)
    ensures IntakeOk(After(f, es))
    decreases |es|
  {
    if es != [] {
      NextKeepsOk(f, es[0]);
      AfterKeepsOk(Next(f, es[0]), es[1..]);
    }
  }

  /** IDEMPOTENT SUBMISSION. Over every interleaving of submissions and other store operations, all
      submissions made with one non-empty key that succeed return the same job, and no job is enqueued twice. */
  lemma SameKeySameJob(es: seq<Event>)
    ensures var f := After(START, es);
            && (forall i, j :: 0 <= i < |f.calls| && 0 <= j < |f.calls| && f.calls[i].Returned? && f.calls[j].Returned?
                  && f.calls[i].key == f.calls[j].key != ""
                  ==> f.calls[i].job.id == f.calls[j].job.id)
            && (forall i, j :: 0 <= i < j < |f.enqueued| ==> f.enqueued[i] != f.enqueued[j])
  {
    AfterKeepsOk(START, es);
    var f := After(START, es);
    assert forall i :: 0 <= i < |f.calls| ==> CallOk(f.repo, f.calls[i]);
  }

  lemma NextKeepsOrigin(f: Intake, e: Event, id: string)
    requires id in f.repo.jobs
    ensures id in Next(f, e).repo.jobs && SameOrigin(Next(f, e).repo.jobs[id], f.repo.jobs[id])
  {
    if e.Other? && Unused(f.repo, e.op) {
      ApplyKeepsOrigin(f.repo, e.op, id);
    } else if e.Create? && Next(f, e) != f {
      ApplyKeepsOrigin(f.repo, CreateJob(e.freshID, f.calls[e.i].params), id);
    }
  }

  lemma {:induction false} AfterKeepsOrigin(f: Intake, es: seq<Event>, id: string)
    requires id in f.repo.jobs
    ensures id in After(f, es).repo.jobs && SameOrigin(After(f, es).repo.jobs[id], f.repo.jobs[id])
    decreases |es|
  {
    if es != [] {
      NextKeepsOrigin(f, es[0], id);
      AfterKeepsOrigin(Next(f, es[0]), es[1..], id);
    }
  }

  /** A SUBMISSION GETS WHAT IT ASKS FOR. In every interleaving, a call that created its job returns it, unless
      the queue fails, with the dataset, file, key, symbol and speed it was called with, queued and untouched;
      and the stored job keeps the five whatever follows. */
  lemma NewJobIsAsSubmitted(es: seq<Event>, i: nat, answer: QueueReply, later: seq<Event>)
    requires i < |After(START, es).calls| && After(START, es).calls[i].Enqueueing?
    ensures var params, job := After(START, es).calls[i].params, After(START, es).calls[i].job;
            var g := Next(After(START, es), Enqueue(i, answer));
            && FromParams(job, params) && Untouched(job)
            && g.calls[i] == (if answer == QueueError then Rejected else Returned(params.idempotencyKey, job))
            && job.id in After(g, later).repo.jobs && FromParams(After(g, later).repo.jobs[job.id], params)
  {
    AfterKeepsOk(START, es);
    var f := After(START, es);
    assert CallOk(f.repo, f.calls[i]);
    AfterKeepsOrigin(Next(f, Enqueue(i, answer)), later, f.calls[i].job.id);
  }

  /** A lookup that follows a refused creation never fails. */
  lemma LookupNeverFails(es: seq<Event>, i: nat)
    requires i < |After(START, es).calls| && After(START, es).calls[i].LookingUp?
    ensures Next(After(START, es), Lookup(i)).calls[i].Returned?
  {
    AfterKeepsOk(START, es);
    var f := After(START, es);
    assert CallOk(f.repo, f.calls[i]);
  }

  // ----- Uninterrupted submissions -----

  /** A submission whose key is taken returns the job that has it and changes nothing else. */
  lemma SubmitRepeated(f: Intake, p: JobParams, id: string)
    requires id !in f.repo.jobs && CreateJobReply(f.repo, id, p) == Refused(AlreadyExists)
    requires f.repo.keys[p.idempotencyKey] in f.repo.jobs
    ensures After(f, [Call(p), Create(|f.calls|, id), Lookup(|f.calls|)])
         == f.(calls := f.calls + [Returned(p.idempotencyKey, f.repo.jobs[f.repo.keys[p.idempotencyKey]])])
  {
    var n, key := |f.calls|, p.idempotencyKey;
    AfterThree(f, Call(p), Create(n, id), Lookup(n));
    CallReplaced(f.calls, Creating(p), LookingUp(key));
    CallReplaced(f.calls, LookingUp(key), Returned(key, f.repo.jobs[f.repo.keys[key]]));
  }

  lemma SubmitRefused(f: Intake, p: JobParams, id: string)
    requires id !in f.repo.jobs && CreateJobReply(f.repo, id, p) == Refused(NotFound)
    ensures After(f, [Call(p), Create(|f.calls|, id)]) == f.(calls := f.calls + [Rejected])
  {
    AfterTwo(f, Call(p), Create(|f.calls|, id));
    CallReplaced(f.calls, Creating(p), Rejected);
  }

  /** A submission that creates its job returns it unless the queue fails. */
  lemma SubmitNew(f: Intake, p: JobParams, id: string, answer: QueueReply)
    requires id !in f.repo.jobs && CreateJobReply(f.repo, id, p).Stored?
    ensures After(f, [Call(p), Create(|f.calls|, id), Enqueue(|f.calls|, answer)])
         == Intake(Apply(f.repo, CreateJob(id, p)),
                  f.calls + [if answer == QueueError then Rejected else Returned(p.idempotencyKey, NewJob(id, p))],
                  if answer == Accepted then f.enqueued + [id] else f.enqueued)
  {
    var n, job := |f.calls|, NewJob(id, p);
    AfterThree(f, Call(p), Create(n, id), Enqueue(n, answer));
    CallReplaced(f.calls, Creating(p), Enqueueing(p, job));
    CallReplaced(f.calls, Enqueueing(p, job), if answer == QueueError then Rejected
        else Returned(p.idempotencyKey, job));
  }

  // ----- When a job has a task -----

  predicate BeingEnqueued(calls: seq<Submission>, id: string) {
    exists i :: 0 <= i < |calls| && calls[i].Enqueueing? && calls[i].job.id == id
  }

  /** Some continuation puts the job's task in the queue. */
  ghost predicate CanHaveTask(f: Intake, id: string) {
    exists es :: id in After(f, es).enqueued
  }

  /** The job exists, has no task, and no call is about to enqueue it. */
  predicate Stranded(f: Intake, id: string) {
    id in f.repo.jobs && id !in f.enqueued && !BeingEnqueued(f.calls, id)
  }

  lemma StrandedStep(f: Intake, e: Event, id: string)
    requires Stranded(f, id)
    ensures Stranded(Next(f, e), id)
  {
    var g := Next(f, e);
    if e.Other? && Unused(f.repo, e.op) {
      ApplyKeepsOrigin(f.repo, e.op, id);
    } else if e.Create? && g != f {
      ApplyKeepsOrigin(f.repo, CreateJob(e.freshID, f.calls[e.i].params), id);
    }
    forall i | 0 <= i < |g.calls| && g.calls[i].Enqueueing? ensures g.calls[i].job.id != id {
      if i < |f.calls| && g.calls[i] == f.calls[i] {
        assert f.calls[i].job.id != id;
      }
    }
  }

  lemma {:induction false} StrandedForever(f: Intake, es: seq<Event>, id: string)
    requires Stranded(f, id)
    ensures Stranded(After(f, es), id)
    decreases |es|
  {
    if es != [] {
      StrandedStep(f, es[0], id);
      StrandedForever(Next(f, es[0]), es[1..], id);
    }
  }

  /** EXACT CONDITION. A stored job has or can still get a task if and only if it has one already or a call is
      about to enqueue it; otherwise it is stranded, whatever is submitted later. */
  lemma HasTaskIff(f: Intake, id: string)
    requires id in f.repo.jobs
    ensures CanHaveTask(f, id) <==> id in f.enqueued || BeingEnqueued(f.calls, id)
  {
    if id in f.enqueued {
      assert After(f, []) == f;
    } else if BeingEnqueued(f.calls, id) {
      var i :| 0 <= i < |f.calls| && f.calls[i].Enqueueing? && f.calls[i].job.id == id;
      var g := Next(f, Enqueue(i, Accepted));
      assert g.enqueued[|f.enqueued|] == id;
      AfterOne(f, Enqueue(i, Accepted));
    } else {
      forall es ensures id !in After(f, es).enqueued {
        StrandedForever(f, es, id);
      }
    }
  }

  /** COUNTEREXAMPLE. After an enqueue error the job is stored and stranded for good, and still every later
      submission with its key succeeds and returns it. */
  lemma JobCanBeStranded(f: Intake, p: JobParams, a: string, es: seq<Event>, b: string)
    requires IntakeOk(f) && p.datasetID in f.repo.datasets && p.eventFileID in f.repo.files
    requires p.idempotencyKey != "" && p.idempotencyKey !in f.repo.keys && a !in f.repo.jobs
    requires var g := After(f, [Call(p), Create(|f.calls|, a), Enqueue(|f.calls|, QueueError)] + es); b !in g.repo.jobs
    ensures var g := After(f, [Call(p), Create(|f.calls|, a), Enqueue(|f.calls|, QueueError)] + es);
            var h := After(g, [Call(p), Create(|g.calls|, b), Lookup(|g.calls|)]);
            && !CanHaveTask(g, a) && |h.calls| == |g.calls| + 1
            && h.calls[|g.calls|].Returned? && h.calls[|g.calls|].job.id == a
  {
    var failed := [Call(p), Create(|f.calls|, a), Enqueue(|f.calls|, QueueError)];
    var mid := After(f, failed);
    SubmitNew(f, p, a, QueueError);
    AfterKeepsOk(f, failed);
    NotEnqueuedYet(f, a);
    AfterAppend(f, failed, es);
    var g := After(mid, es);
    StrandedForever(mid, es, a);
    HasTaskIff(g, a);
    AfterKeepsOk(mid, es);
    AfterKeepsBinding(mid, es, p.idempotencyKey, a);
    SubmitRepeated(g, p, b);
  }

  lemma NotEnqueuedYet(f: Intake, a: string)
    requires IntakeOk(f) && a !in f.repo.jobs
    ensures a !in f.enqueued && !BeingEnqueued(f.calls, a)
  {
    forall i | 0 <= i < |f.calls| && f.calls[i].Enqueueing? ensures f.calls[i].job.id != a {
      assert CallOk(f.repo, f.calls[i]);
    }
  }

  /** A key stays bound to its job, and datasets and files stay. */
  lemma {:induction false} AfterKeepsBinding(f: Intake, es: seq<Event>, key: string, id: string)
    requires key in f.repo.keys && f.repo.keys[key] == id
    ensures var g := After(f, es); key in g.repo.keys && g.repo.keys[key] == id
    ensures f.repo.datasets.Keys <= After(f, es).repo.datasets.Keys && f.repo.files.Keys <= After(f, es).repo.files.Keys
    decreases |es|
  {
    if es != [] {
      BindingStep(f, es[0], key, id);
      AfterKeepsBinding(Next(f, es[0]), es[1..], key, id);
    }
  }

  lemma BindingStep(f: Intake, e: Event, key: string, id: string)
    requires key in f.repo.keys && f.repo.keys[key] == id
    ensures var g := Next(f, e); key in g.repo.keys && g.repo.keys[key] == id
    ensures f.repo.datasets.Keys <= Next(f, e).repo.datasets.Keys && f.repo.files.Keys <= Next(f, e).repo.files.Keys
  {
    if e.Other? && Unused(f.repo, e.op) {
      ApplyKeepsKey(f.repo, e.op, key);
    }
  }

  lemma AfterOne(f: Intake, e: Event)
    ensures After(f, [e]) == Next(f, e)
  {
    assert [e][1..] == [];
  }

  lemma {:induction false} AfterAppend(f: Intake, a: seq<Event>, b: seq<Event>)
    ensures After(f, a + b) == After(After(f, a), b)
    decreases |a|
  {
    if a == [] {
      assert a + b == b;
    } else {
      AfterAppend(Next(f, a[0]), a[1..], b);
      assert (a + b)[1..] == a[1..] + b;
    }
  }

  lemma AfterTwo(f: Intake, a: Event, b: Event)
    ensures After(f, [a, b]) == Next(Next(f, a), b)
  {
    assert [a, b][1..] == [b] && [b][1..] == [];
    assert After(Next(f, a), [b]) == After(Next(Next(f, a), b), []);
  }

  lemma AfterThree(f: Intake, a: Event, b: Event, c: Event)
    ensures After(f, [a, b, c]) == Next(Next(Next(f, a), b), c)
  {
    assert [a, b, c][1..] == [b, c];
    AfterTwo(Next(f, a), b, c);
  }

  lemma CallReplaced(calls: seq<Submission>, a: Submission, b: Submission)
    ensures (calls + [a])[|calls| := b] == calls + [b] && (calls + [a])[|calls|] == a
  {
  }

  // ----- The code -----

  /** The events of one call and nothing else: call, create, then a lookup, an enqueue or nothing. */
  predicate OwnEvents(es: seq<Event>, params: JobParams, freshID: string, i: nat) {
    && 2 <= |es| <= 3 && es[0] == Call(params) && es[1] == Create(i, freshID)
    && (|es| == 3 ==> es[2] == Lookup(i) || (es[2].Enqueue? && es[2].i == i))
  }

  class ReplayEnqueuer {
    const repo: MemoryRepository
    var enqueued: seq<string>

    ghost function State(calls: seq<Submission>): Intake
      reads this, repo
    {
      Intake(repo.State(), calls, enqueued)
    }

    constructor (repo: MemoryRepository)
      ensures this.repo == repo && enqueued == []
    {
      this.repo := repo;
      enqueued := [];
    }

    /** Hand the job's task to the queue, which answers `answer`. */
    method EnqueueReplayJob(job: Job, answer: QueueReply) returns (reply: QueueReply)
      modifies this`enqueued
      ensures reply == answer && enqueued == if answer == Accepted then old(enqueued) + [job.id] else old(enqueued)
    {
      if answer == Accepted {
        enqueued := enqueued + [job.id];
      }
      reply := answer;
    }

    /** One uninterrupted submission is one call of the interleaved model, run to its end. */
    method SubmitReplay(freshID: string, params: JobParams, answer: QueueReply, ghost calls: seq<Submission>)
        returns (job: Option<Job>, ghost es: seq<Event>)
      requires repo.Valid() && freshID !in repo.jobs
      modifies this`enqueued, repo
      ensures repo.Valid() && OwnEvents(es, params, freshID, |calls|)
      ensures State(calls + [if job.Some? then Returned(params.idempotencyKey, job.value) else Rejected])
              == After(old(State(calls)), es)
      ensures freshID in repo.jobs ==> repo.jobs[freshID].id == freshID && FromParams(repo.jobs[freshID], params)
      ensures freshID in repo.jobs <==>
              && params.datasetID in old(repo.datasets) && params.eventFileID in old(repo.eventFiles)
              && (params.idempotencyKey == "" || params.idempotencyKey !in old(repo.idempotencyMap))
      ensures freshID in repo.jobs ==> job == if answer == QueueError then None else Some(repo.jobs[freshID])
      ensures job.Some? ==> job.value.idempotencyKey == params.idempotencyKey
    {
      ghost var n, f := |calls|, State(calls);
      var reply, existing := repo.CreateReplayJob(freshID, params);
      if reply.Refused? && reply.error == AlreadyExists && params.idempotencyKey != "" {
        var found := repo.GetReplayJobByIdempotencyKey(params.idempotencyKey);
        SubmitRepeated(f, params, freshID);
        return Some(found.value), [Call(params), Create(n, freshID), Lookup(n)];
      }
      if reply.Refused? {
        SubmitRefused(f, params, freshID);
        return None, [Call(params), Create(n, freshID)];
      }
      var queued := EnqueueReplayJob(reply.value, answer);
      SubmitNew(f, params, freshID, answer);
      es := [Call(params), Create(n, freshID), Enqueue(n, answer)];
      if queued == QueueError {
        return None, es;
      }
      return Some(reply.value), es;
    }
  }
}
