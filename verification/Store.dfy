/** The metadata store: one value per state of the in-memory repository, its operations, and the
    object whose mutex-protected methods perform them. Fresh identifiers are arguments. */
module Store {
  import opened Events

  datatype Dataset = Dataset(id: string, name: string)

  datatype EventFile = EventFile(
    id: string, datasetID: string, path: string, format: string, symbol: string,
    bytes: int, sha256: string, rows: int)

  datatype Status = Queued | Running | Completed | Failed | Canceled | DeadLetter

  datatype Manifest = Manifest(
    inputRows: int, checkpointLine: int, resumeFromLine: int, errorCount: int,
    malformedEvents: int, sequenceGaps: int)

  const NO_MANIFEST := Manifest(0, 0, 0, 0, 0, 0)

  datatype Job = Job(
    id: string, datasetID: string, eventFileID: string, idempotencyKey: string,
    symbol: string, speed: string, status: Status, attempts: nat, lastError: string,
    checkpointLine: int, manifest: Manifest)

  /** `createdAt` counts from the zero time, which is 0. */
  datatype ValidationError = ValidationError(
    jobID: string, line: int, symbol: string, kind: string, message: string, createdAt: nat)

  datatype Metric = Metric(rows: int, events: int, malformedEvents: int, sequenceGaps: int)

  datatype StoreError = NotFound | AlreadyExists

  datatype Reply<+T> = Stored(value: T) | Refused(error: StoreError)

  datatype JobParams = JobParams(datasetID: string, eventFileID: string, idempotencyKey: string, symbol: string,
      speed: string)

  datatype Repo = Repo(
    datasets: map<string, Dataset>,
    files: map<string, EventFile>,
    jobs: map<string, Job>,
    keys: map<string, string>,
    metrics: map<string, seq<Metric>>,
    errors: map<string, seq<ValidationError>>)

  const EMPTY := Repo(map[], map[], map[], map[], map[], map[])

  // ----- What one update does to a job -----

  function WithStatus(job: Job, status: Status, lastError: string): Job {
    job.(status := status, lastError := lastError, attempts := job.attempts + 1)
  }

  function WithCheckpoint(job: Job, line: int): Job {
    if line > job.checkpointLine then job.(checkpointLine := line) else job
  }

  function WithManifest(job: Job, manifest: Manifest): Job {
    job.(manifest := manifest)
  }

  function AsCompleted(job: Job): Job {
    job.(status := Completed)
  }

  function NewJob(id: string, p: JobParams): Job {
    Job(id, p.datasetID, p.eventFileID, p.idempotencyKey, p.symbol, p.speed, Queued, 0, "", 0, NO_MANIFEST)
  }

  function WithStats(file: EventFile, sha256: string, rows: int, bytes: int): EventFile {
    file.(sha256 := if sha256 != "" then sha256 else file.sha256,
          rows := if rows >= 0 then rows else file.rows,
          bytes := if bytes >= 0 then bytes else file.bytes)
  }

  function At<T>(m: map<string, seq<T>>, k: string): seq<T> {
    if k in m then m[k] else []
  }

  /** Completion stamps every stored error with the job and, where it has none, with the time. */
  function Stamp(jobID: string, now: nat, es: seq<ValidationError>): seq<ValidationError> {
    seq(|es|, i requires 0 <= i < |es| =>
      es[i].(jobID := jobID, createdAt := if es[i].createdAt == 0 then now else es[i].createdAt))
  }

  /** `e` is the error `was` with the job's id, and with the time unless it had one. */
  predicate Stamped(e: ValidationError, was: ValidationError, jobID: string, now: nat) {
    && e.jobID == jobID && e.line == was.line && e.symbol == was.symbol && e.kind == was.kind
    && e.message == was.message && (was.createdAt == 0 ==> e.createdAt == now)
    && (was.createdAt != 0 ==> e.createdAt == was.createdAt)
  }

  /** `after` is `before` followed by the errors `es`, stamped. */
  ghost predicate AddsStamped(before: seq<ValidationError>, after: seq<ValidationError>, es: seq<ValidationError>,
                              jobID: string, now: nat) {
    && |after| == |before| + |es| && before == after[..|before|]
    && forall i :: 0 <= i < |es| ==> Stamped(after[|before| + i], es[i], jobID, now)
  }

  lemma StampAdds(before: seq<ValidationError>, es: seq<ValidationError>, jobID: string, now: nat)
    ensures AddsStamped(before, before + Stamp(jobID, now, es), es, jobID, now)
  {
  }

  /** `file` is the file `was` with the given statistics; an empty hash or a negative number leaves the old one. */
  predicate StatsWritten(file: EventFile, was: EventFile, sha256: string, rows: int, bytes: int) {
    && file.rows == (if rows >= 0 then rows else was.rows) && file.bytes == (if bytes >= 0 then bytes else was.bytes)
    && file.sha256 == (if sha256 == "" then was.sha256 else sha256)
    && file.id == was.id && file.datasetID == was.datasetID && file.path == was.path && file.symbol == was.symbol
    && file.format == was.format
  }

  /** The job is the one these parameters ask for. */
  predicate FromParams(job: Job, p: JobParams) {
    && job.datasetID == p.datasetID && job.eventFileID == p.eventFileID && job.idempotencyKey == p.idempotencyKey
    && job.symbol == p.symbol && job.speed == p.speed
  }

  /** The job has been created and nothing has happened to it. */
  predicate Untouched(job: Job) {
    && job.status == Queued && job.attempts == 0 && job.lastError == "" && job.checkpointLine == 0
    && job.manifest == Manifest(0, 0, 0, 0, 0, 0)
  }

  // ----- Operations on the whole store -----

  datatype Op =
    | CreateDataset(id: string, name: string)
    | CreateEventFile(file: EventFile)
    | UpdateFileStats(id: string, sha256: string, rows: int, bytes: int)
    | CreateJob(id: string, params: JobParams)
    | UpdateStatus(id: string, status: Status, lastError: string)
    | UpdateCheckpoint(id: string, line: int)
    | UpdateManifest(id: string, manifest: Manifest)
    | CompleteJob(id: string, metric: Metric, errors: seq<ValidationError>, now: nat)

  /** Generated identifiers have not been used before. */
  predicate Unused(r: Repo, op: Op) {
    match op
    case CreateDataset(id, _) => id !in r.datasets
    case CreateEventFile(file) => file.id !in r.files
    case CreateJob(id, _) => id !in r.jobs
    case _ => true
  }

  function CreateJobReply(r: Repo, id: string, p: JobParams): Reply<Job> {
    if p.datasetID !in r.datasets || p.eventFileID !in r.files then Refused(NotFound)
    else if p.idempotencyKey != "" && p.idempotencyKey in r.keys then Refused(AlreadyExists)
    else Stored(NewJob(id, p))
  }

  function Apply(r: Repo, op: Op): Repo
    requires Unused(r, op)
  {
    match op
    case CreateDataset(id, name) => r.(datasets := r.datasets[id := Dataset(id, name)])
    case CreateEventFile(file) =>
      if file.datasetID !in r.datasets then r else r.(files := r.files[file.id := file])
    case UpdateFileStats(id, sha256, rows, bytes) =>
      if id !in r.files then r else r.(files := r.files[id := WithStats(r.files[id], sha256, rows, bytes)])
    case CreateJob(id, p) =>
      if CreateJobReply(r, id, p).Refused? then r
      else r.(jobs := r.jobs[id := NewJob(id, p)],
              keys := if p.idempotencyKey != "" then r.keys[p.idempotencyKey := id] else r.keys)
    case UpdateStatus(id, status, lastError) =>
      if id !in r.jobs then r else r.(jobs := r.jobs[id := WithStatus(r.jobs[id], status, lastError)])
    case UpdateCheckpoint(id, line) =>
      if id !in r.jobs then r else r.(jobs := r.jobs[id := WithCheckpoint(r.jobs[id], line)])
    case UpdateManifest(id, manifest) =>
      if id !in r.jobs then r else r.(jobs := r.jobs[id := WithManifest(r.jobs[id], manifest)])
    case CompleteJob(id, metric, errors, now) =>
      if id !in r.jobs then r
      else r.(jobs := r.jobs[id := AsCompleted(r.jobs[id])],
              metrics := r.metrics[id := At(r.metrics, id) + [metric]],
              errors := r.errors[id := At(r.errors, id) + Stamp(id, now, errors)])
  }

  /** The store after a trace of operations; an operation that would reuse an identifier cannot occur. */
  function ApplyAll(r: Repo, ops: seq<Op>): Repo
    decreases |ops|
  {
    if ops == [] then r
    else if Unused(r, ops[0]) then ApplyAll(Apply(r, ops[0]), ops[1..])
    else ApplyAll(r, ops[1..])
  }

  // ----- The store invariant -----

  /** The key index is exactly the inverse of the jobs' non-empty keys. */
  ghost predicate IndexAgrees(r: Repo) {
    && (forall k :: k in r.keys ==> k != "" && r.keys[k] in r.jobs && r.jobs[r.keys[k]].idempotencyKey == k)
    && (forall id :: id in r.jobs && r.jobs[id].idempotencyKey != "" ==>
          r.jobs[id].idempotencyKey in r.keys && r.keys[r.jobs[id].idempotencyKey] == id)
  }

  /** Every reference leads somewhere, and rows are filed under their own id. */
  ghost predicate References(r: Repo) {
    && (forall id :: id in r.files ==> r.files[id].id == id && r.files[id].datasetID in r.datasets)
    && (forall id :: id in r.jobs ==>
      r.jobs[id].id == id && r.jobs[id].datasetID in r.datasets && r.jobs[id].eventFileID in r.files)
    && (forall id :: id in r.metrics ==> id in r.jobs)
    && (forall id :: id in r.errors ==> id in r.jobs)
  }

  ghost predicate Consistent(r: Repo) {
    IndexAgrees(r) && References(r)
  }

  /** Rewriting a job keeps the store consistent as long as its identity and references stay. */
  lemma RewriteKeepsConsistent(r: Repo, id: string, job: Job)
    requires Consistent(r) && id in r.jobs
    requires job.id == r.jobs[id].id && job.idempotencyKey == r.jobs[id].idempotencyKey
    requires job.datasetID == r.jobs[id].datasetID && job.eventFileID == r.jobs[id].eventFileID
    ensures Consistent(r.(jobs := r.jobs[id := job]))
  {
    var after := r.(jobs := r.jobs[id := job]);
    assert forall k :: k in after.jobs <==> k in r.jobs;
    assert IndexAgrees(after);
    assert References(after);
  }

  lemma NewJobKeepsConsistent(r: Repo, id: string, p: JobParams)
    requires Consistent(r) && id !in r.jobs && CreateJobReply(r, id, p).Stored?
    ensures Consistent(Apply(r, CreateJob(id, p)))
  {
    var after := Apply(r, CreateJob(id, p));
    assert IndexAgrees(after);
    assert References(after);
  }

  lemma CompletionKeepsConsistent(r: Repo, id: string, metrics: seq<Metric>, errors: seq<ValidationError>)
    requires Consistent(r) && id in r.jobs
    ensures Consistent(r.(jobs := r.jobs[id := AsCompleted(r.jobs[id])], metrics := r.metrics[id := metrics],
            errors := r.errors[id := errors]))
  {
    RewriteKeepsConsistent(r, id, AsCompleted(r.jobs[id]));
    var after := r.(jobs := r.jobs[id := AsCompleted(r.jobs[id])], metrics := r.metrics[id := metrics],
        errors := r.errors[id := errors]);
    assert IndexAgrees(after);
    assert References(after);
  }

  lemma DatasetKeepsConsistent(r: Repo, id: string, dataset: Dataset)
    requires Consistent(r)
    ensures Consistent(r.(datasets := r.datasets[id := dataset]))
  {
    var after := r.(datasets := r.datasets[id := dataset]);
    assert IndexAgrees(after);
    assert References(after);
  }

  lemma FileKeepsConsistent(r: Repo, file: EventFile)
    requires Consistent(r) && file.datasetID in r.datasets
    ensures Consistent(r.(files := r.files[file.id := file]))
  {
    var after := r.(files := r.files[file.id := file]);
    assert IndexAgrees(after);
    assert References(after);
  }

  /** Datasets and files are only ever added or refreshed in place. */
  lemma FileOpKeepsConsistent(r: Repo, op: Op)
    requires Consistent(r) && Unused(r, op) && (op.CreateDataset? || op.CreateEventFile? || op.UpdateFileStats?)
    ensures Consistent(Apply(r, op))
  {
    match op
    case CreateDataset(id, name) => DatasetKeepsConsistent(r, id, Dataset(id, name));
    case CreateEventFile(file) =>
      if file.datasetID in r.datasets {
        FileKeepsConsistent(r, file);
      }
    case UpdateFileStats(id, sha256, rows, bytes) =>
      if id in r.files {
        assert r.files[id].id == id;
        FileKeepsConsistent(r, WithStats(r.files[id], sha256, rows, bytes));
      }
  }

  lemma JobOpKeepsConsistent(r: Repo, op: Op)
    requires Consistent(r) && (op.UpdateStatus? || op.UpdateCheckpoint? || op.UpdateManifest?)
    ensures Consistent(Apply(r, op))
  {
    if op.id in r.jobs {
      var job := r.jobs[op.id];
      RewriteKeepsConsistent(r, op.id,
        match op
        case UpdateStatus(_, status, lastError) => WithStatus(job, status, lastError)
        case UpdateCheckpoint(_, line) => WithCheckpoint(job, line)
        case UpdateManifest(_, manifest) => WithManifest(job, manifest));
    }
  }

  lemma ApplyKeepsConsistent(r: Repo, op: Op)
    requires Consistent(r) && Unused(r, op)
    ensures Consistent(Apply(r, op))
  {
    if op.CreateJob? {
      if CreateJobReply(r, op.id, op.params).Stored? {
        NewJobKeepsConsistent(r, op.id, op.params);
      }
    } else if op.CompleteJob? {
      if op.id in r.jobs {
        CompletionKeepsConsistent(r, op.id, At(r.metrics, op.id) + [op.metric], At(r.errors, op.id)
            + Stamp(op.id, op.now, op.errors));
      }
    } else if op.CreateDataset? || op.CreateEventFile? || op.UpdateFileStats? {
      FileOpKeepsConsistent(r, op);
    } else {
      JobOpKeepsConsistent(r, op);
    }
  }

  /** Every store state reachable by any trace of operations is consistent. */
  lemma {:induction false} ReachableConsistent(r: Repo, ops: seq<Op>)
    requires Consistent(r)
    ensures Consistent(ApplyAll(r, ops))
    decreases |ops|
  {
    if ops != [] {
      if Unused(r, ops[0]) {
        ApplyKeepsConsistent(r, ops[0]);
        ReachableConsistent(Apply(r, ops[0]), ops[1..]);
      } else {
        ReachableConsistent(r, ops[1..]);
      }
    }
  }

  // ----- What never changes -----

  /** Both jobs have the same id and were asked for with the same parameters. */
  predicate SameOrigin(a: Job, b: Job) {
    && a.id == b.id && a.datasetID == b.datasetID && a.eventFileID == b.eventFileID
    && a.idempotencyKey == b.idempotencyKey && a.symbol == b.symbol && a.speed == b.speed
  }

  /** The job `was` with this status and error, one attempt later, and otherwise as it was. */
  predicate StatusWritten(job: Job, was: Job, status: Status, lastError: string) {
    && job.status == status && job.lastError == lastError && job.attempts == was.attempts + 1
    && SameOrigin(job, was) && job.checkpointLine == was.checkpointLine && job.manifest == was.manifest
  }

  /** The job `was` with the larger of its own and this checkpoint, and otherwise as it was. */
  predicate CheckpointWritten(job: Job, was: Job, line: int) {
    && job.checkpointLine >= was.checkpointLine && job.checkpointLine >= line
    && (job.checkpointLine == was.checkpointLine || job.checkpointLine == line)
    && job.(checkpointLine := was.checkpointLine) == was
  }

  lemma StatusApplied(r: Repo, id: string, status: Status, lastError: string)
    requires id in r.jobs
    ensures var job := r.jobs[id].(status := status, lastError := lastError, attempts := r.jobs[id].attempts + 1);
            && Apply(r, UpdateStatus(id, status, lastError)) == r.(jobs := r.jobs[id := job])
            && StatusWritten(job, r.jobs[id], status, lastError)
  {
  }

  lemma ApplyKeepsOrigin(r: Repo, op: Op, id: string)
    requires Unused(r, op) && id in r.jobs
    ensures id in Apply(r, op).jobs && SameOrigin(Apply(r, op).jobs[id], r.jobs[id])
  {
    if op.UpdateStatus? || op.UpdateCheckpoint? || op.UpdateManifest? {
      JobOpKeepsOrigin(r, op, id);
    }
  }

  lemma JobOpKeepsOrigin(r: Repo, op: Op, id: string)
    requires id in r.jobs && (op.UpdateStatus? || op.UpdateCheckpoint? || op.UpdateManifest?)
    ensures id in Apply(r, op).jobs && SameOrigin(Apply(r, op).jobs[id], r.jobs[id])
  {
    if op.id in r.jobs {
      var job := r.jobs[op.id];
      match op
      case UpdateStatus(_, status, lastError) => assert SameOrigin(WithStatus(job, status, lastError), job);
      case UpdateCheckpoint(_, line) => assert SameOrigin(WithCheckpoint(job, line), job);
      case UpdateManifest(_, manifest) => assert SameOrigin(WithManifest(job, manifest), job);
    }
  }

  lemma {:induction false} OriginIsKept(r: Repo, ops: seq<Op>, id: string)
    requires id in r.jobs
    ensures id in ApplyAll(r, ops).jobs && SameOrigin(ApplyAll(r, ops).jobs[id], r.jobs[id])
    decreases |ops|
  {
    if ops != [] {
      if Unused(r, ops[0]) {
        ApplyKeepsOrigin(r, ops[0], id);
        OriginIsKept(Apply(r, ops[0]), ops[1..], id);
      } else {
        OriginIsKept(r, ops[1..], id);
      }
    }
  }

  /** A NEW JOB KEEPS WHAT IT WAS ASKED FOR. A created job has its parameters' dataset, file, key, symbol and
      speed, is queued with no attempt and checkpoint 0, and over every later trace keeps the five. */
  lemma CreatedJob(r: Repo, id: string, p: JobParams, ops: seq<Op>)
    requires id !in r.jobs && CreateJobReply(r, id, p).Stored?
    ensures var t := Apply(r, CreateJob(id, p));
            && id in t.jobs && t.jobs[id].id == id && FromParams(t.jobs[id], p) && Untouched(t.jobs[id])
            && id in ApplyAll(t, ops).jobs && FromParams(ApplyAll(t, ops).jobs[id], p)
  {
    OriginIsKept(Apply(r, CreateJob(id, p)), ops, id);
  }

  function LookupByKey(r: Repo, key: string): Reply<Job>
    requires key in r.keys ==> r.keys[key] in r.jobs
  {
    if key in r.keys then Stored(r.jobs[r.keys[key]]) else Refused(NotFound)
  }

  /** In every reachable state, looking a key up in the index finds exactly the job that scanning all
      jobs for that key would find, and no two jobs share a key. */
  lemma LookupEqualsScan(ops: seq<Op>, key: string)
    requires key != ""
    ensures var r := ApplyAll(EMPTY, ops);
            && (key in r.keys ==> r.keys[key] in r.jobs)
            && (forall id :: id in r.jobs ==>
              (r.jobs[id].idempotencyKey == key <==> LookupByKey(r, key) == Stored(r.jobs[id])))
            && (LookupByKey(r, key).Refused? <==> forall id :: id in r.jobs ==> r.jobs[id].idempotencyKey != key)
  {
    ReachableConsistent(EMPTY, ops);
    var r := ApplyAll(EMPTY, ops);
    assert IndexAgrees(r);
  }

  lemma NoJobHasKey(r: Repo, key: string)
    requires Consistent(r)
    ensures key != "" && key !in r.keys ==> forall id :: id in r.jobs ==> r.jobs[id].idempotencyKey != key
  {
  }

  // ----- The object -----

  method StampAll(jobID: string, now: nat, es: seq<ValidationError>) returns (stamped: seq<ValidationError>)
    ensures stamped == Stamp(jobID, now, es)
    ensures |stamped| == |es| && forall i :: 0 <= i < |es| ==> Stamped(stamped[i], es[i], jobID, now)
  {
    stamped := [];
    for i := 0 to |es|
      invariant stamped == Stamp(jobID, now, es)[..i]
    {
      var e := es[i].(jobID := jobID);
      if e.createdAt == 0 {
        e := e.(createdAt := now);
      }
      stamped := stamped + [e];
    }
  }

  class MemoryRepository {
    var datasets: map<string, Dataset>
    var eventFiles: map<string, EventFile>
    var jobs: map<string, Job>
    var idempotencyMap: map<string, string>
    var metrics: map<string, seq<Metric>>
    var errors: map<string, seq<ValidationError>>

    ghost function State(): Repo
      reads this
    {
      Repo(datasets, eventFiles, jobs, idempotencyMap, metrics, errors)
    }

    ghost predicate Valid()
      reads this
    {
      Consistent(State())
    }

    constructor ()
      ensures State() == EMPTY && Valid()
    {
      datasets, eventFiles, jobs, idempotencyMap, metrics, errors := map[], map[], map[], map[], map[], map[];
    }

    method CreateDataset(id: string, name: string) returns (dataset: Dataset)
      requires Valid() && id !in datasets
      modifies this
      ensures Valid() && State() == Apply(old(State()), Op.CreateDataset(id, name))
      ensures dataset.id == id && dataset.name == name && datasets == old(datasets)[id := dataset]
    {
      ghost var op, was := Op.CreateDataset(id, name), State();
      ApplyKeepsConsistent(was, op);
      dataset := Dataset(id, name);
      datasets := datasets[id := dataset];
    }

    method CreateEventFile(file: EventFile) returns (reply: Reply<EventFile>)
      requires Valid() && file.id !in eventFiles
      modifies this
      ensures Valid() && State() == Apply(old(State()), Op.CreateEventFile(file))
      ensures reply == if file.datasetID in old(datasets) then Stored(file) else Refused(NotFound)
      ensures eventFiles == if reply.Stored? then old(eventFiles)[file.id := file] else old(eventFiles)
    {
      ghost var op, was := Op.CreateEventFile(file), State();
      ApplyKeepsConsistent(was, op);
      if file.datasetID !in datasets {
        return Refused(NotFound);
      }
      eventFiles := eventFiles[file.id := file];
      return Stored(file);
    }

    method UpdateEventFileStats(id: string, sha256: string, rows: int, bytes: int) returns (reply: Reply<EventFile>)
      requires Valid()
      modifies this
      ensures Valid() && State() == Apply(old(State()), UpdateFileStats(id, sha256, rows, bytes))
      ensures reply == if id in eventFiles then Stored(eventFiles[id]) else Refused(NotFound)
      ensures id in eventFiles ==>
              id in old(eventFiles) && StatsWritten(eventFiles[id], old(eventFiles)[id], sha256, rows, bytes)
    {
      ghost var op, was := UpdateFileStats(id, sha256, rows, bytes), State();
      ApplyKeepsConsistent(was, op);
      if id !in eventFiles {
        return Refused(NotFound);
      }
      var file := eventFiles[id];
      if sha256 != "" { file := file.(sha256 := sha256); }
      if rows >= 0 { file := file.(rows := rows); }
      if bytes >= 0 { file := file.(bytes := bytes); }
      assert file == WithStats(eventFiles[id], sha256, rows, bytes);
      eventFiles := eventFiles[id := file];
      return Stored(file);
    }

    /** On a key that is already taken the stored job comes back with the refusal. */
    method CreateReplayJob(id: string, p: JobParams) returns (reply: Reply<Job>, existing: Option<Job>)
      requires Valid() && id !in jobs
      modifies this
      ensures Valid() && State() == Apply(old(State()), CreateJob(id, p))
      ensures reply == CreateJobReply(old(State()), id, p)
      ensures reply == Refused(AlreadyExists) ==>
                p.idempotencyKey in idempotencyMap && existing == Some(jobs[idempotencyMap[p.idempotencyKey]])
      ensures reply == Refused(NotFound) <==> p.datasetID !in old(datasets) || p.eventFileID !in old(eventFiles)
      ensures reply == Refused(AlreadyExists) ==> p.idempotencyKey != "" && existing.Some?
      ensures reply.Stored? ==> reply.value.id == id && FromParams(reply.value, p) && Untouched(reply.value)
      ensures jobs == if reply.Stored? then old(jobs)[id := reply.value] else old(jobs)
      ensures reply.Stored? && p.idempotencyKey != "" ==>
              forall k :: k in old(jobs) ==> old(jobs)[k].idempotencyKey != p.idempotencyKey
    {
      ghost var op, was := CreateJob(id, p), State();
      ApplyKeepsConsistent(was, op);
      NoJobHasKey(was, p.idempotencyKey);
      if p.datasetID !in datasets {
        return Refused(NotFound), None;
      }
      if p.eventFileID !in eventFiles {
        return Refused(NotFound), None;
      }
      if p.idempotencyKey != "" {
        if p.idempotencyKey in idempotencyMap {
          return Refused(AlreadyExists), Some(jobs[idempotencyMap[p.idempotencyKey]]);
        }
      }
      var job := Job(id, p.datasetID, p.eventFileID, p.idempotencyKey, p.symbol, p.speed, Queued, 0, "", 0,
          NO_MANIFEST);
      jobs := jobs[id := job];
      if p.idempotencyKey != "" {
        idempotencyMap := idempotencyMap[p.idempotencyKey := id];
      }
      assert State() == Apply(was, op);
      return Stored(job), None;
    }

    method GetReplayJob(id: string) returns (reply: Reply<Job>)
      requires Valid()
      ensures reply == if id in jobs then Stored(jobs[id]) else Refused(NotFound)
      ensures reply.Stored? ==> reply.value.id == id && reply.value.eventFileID in eventFiles
    {
      if id !in jobs {
        return Refused(NotFound);
      }
      return Stored(jobs[id]);
    }

    method GetReplayJobByIdempotencyKey(key: string) returns (reply: Reply<Job>)
      requires Valid()
      ensures reply.Refused? ==> reply.error == NotFound
      ensures reply.Refused? <==> key == "" || forall id :: id in jobs ==> jobs[id].idempotencyKey != key
      ensures reply.Stored? ==>
              reply.value.id in jobs && jobs[reply.value.id] == reply.value && reply.value.idempotencyKey == key
    {
      if key !in idempotencyMap {
        return Refused(NotFound);
      }
      return Stored(jobs[idempotencyMap[key]]);
    }

    method UpdateReplayJobStatus(id: string, status: Status, lastError: string) returns (reply: Reply<Job>)
      requires Valid()
      modifies this
      ensures Valid() && State() == Apply(old(State()), UpdateStatus(id, status, lastError))
      ensures reply == if id in jobs then Stored(jobs[id]) else Refused(NotFound)
      ensures id in jobs ==> id in old(jobs) && StatusWritten(jobs[id], old(jobs)[id], status, lastError)
    {
      ghost var op, was := UpdateStatus(id, status, lastError), State();
      ApplyKeepsConsistent(was, op);
      if id !in jobs {
        return Refused(NotFound);
      }
      var job := jobs[id].(status := status, lastError := lastError, attempts := jobs[id].attempts + 1);
      StatusApplied(was, id, status, lastError);
      jobs := jobs[id := job];
      return Stored(job);
    }

    method UpdateReplayCheckpoint(id: string, line: int) returns (reply: Reply<()>)
      requires Valid()
      modifies this
      ensures Valid() && State() == Apply(old(State()), UpdateCheckpoint(id, line))
      ensures reply == if id in jobs then Stored(()) else Refused(NotFound)
      ensures id in jobs ==> id in old(jobs) && CheckpointWritten(jobs[id], old(jobs)[id], line)
    {
      ghost var op, was := UpdateCheckpoint(id, line), State();
      ApplyKeepsConsistent(was, op);
      if id !in jobs {
        return Refused(NotFound);
      }
      if line > jobs[id].checkpointLine {
        jobs := jobs[id := jobs[id].(checkpointLine := line)];
      } else {
        assert was.jobs[id := WithCheckpoint(was.jobs[id], line)] == was.jobs;
      }
      return Stored(());
    }

    method UpdateReplayManifest(id: string, manifest: Manifest) returns (reply: Reply<Job>)
      requires Valid()
      modifies this
      ensures Valid() && State() == Apply(old(State()), UpdateManifest(id, manifest))
      ensures reply == if id in jobs then Stored(jobs[id]) else Refused(NotFound)
      ensures id in jobs ==>
              jobs[id].manifest == manifest && jobs[id].(manifest := old(jobs)[id].manifest) == old(jobs)[id]
    {
      ghost var op, was := UpdateManifest(id, manifest), State();
      ApplyKeepsConsistent(was, op);
      if id !in jobs {
        return Refused(NotFound);
      }
      jobs := jobs[id := jobs[id].(manifest := manifest)];
      assert State() == Apply(was, op);
      return Stored(jobs[id]);
    }

    method CompleteReplayJob(id: string, metric: Metric, errs: seq<ValidationError>, now: nat)
        returns (reply: Reply<Job>)
      requires Valid()
      modifies this
      ensures Valid() && State() == Apply(old(State()), CompleteJob(id, metric, errs, now))
      ensures reply == if id in jobs then Stored(jobs[id]) else Refused(NotFound)
      ensures id in jobs ==>
              && id in old(jobs) && jobs[id].status == Completed
              && jobs[id].(status := old(jobs)[id].status) == old(jobs)[id]
              && At(metrics, id) == At(old(metrics), id) + [metric]
              && AddsStamped(At(old(errors), id), At(errors, id), errs, id, now)
    {
      ghost var op, was := CompleteJob(id, metric, errs, now), State();
      ApplyKeepsConsistent(was, op);
      if id !in jobs {
        return Refused(NotFound);
      }
      jobs := jobs[id := jobs[id].(status := Completed)];
      metrics := metrics[id := At(metrics, id) + [metric]];
      var stamped := StampAll(id, now, errs);
      StampAdds(At(errors, id), errs, id, now);
      errors := errors[id := At(errors, id) + stamped];
      assert State() == Apply(was, op);
      return Stored(jobs[id]);
    }

    method CancelReplayJob(id: string) returns (reply: Reply<Job>)
      requires Valid()
      modifies this
      ensures Valid() && State() == Apply(old(State()), UpdateStatus(id, Canceled, ""))
      ensures reply == if id in jobs then Stored(jobs[id]) else Refused(NotFound)
      ensures reply.Stored? ==> reply.value.status == Canceled && reply.value.lastError == ""
    {
      reply := UpdateReplayJobStatus(id, Canceled, "");
    }
  }
}
