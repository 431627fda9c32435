/** Quality reports, error summaries and dataset lineage over a store state. */
module Reports {
  import opened Events
  import opened Store
  import opened Summaries

  // ----- Errors of one job -----

  /** What the validator and the store guarantee of a stored error. */
  predicate Plain(e: ValidationError) {
    e.line >= 0 && NUL !in e.kind
  }

  predicate AllPlain(es: seq<ValidationError>) {
    forall i :: 0 <= i < |es| ==> Plain(es[i])
  }

  function Tag(e: ValidationError, fileID: string, day: nat -> string): Tagged
    requires Plain(e)
  {
    Tagged(e.line, e.createdAt, Group(e.kind, e.symbol, fileID, day(e.createdAt)))
  }

  function TagAll(es: seq<ValidationError>, fileID: string, day: nat -> string): seq<Tagged>
    requires AllPlain(es)
  {
    if es == [] then [] else TagAll(es[..|es| - 1], fileID, day) + [Tag(es[|es| - 1], fileID, day)]
  }

  /** The row names the dataset and the file. */
  predicate Labelled(s: Summary, dataset: Dataset, file: EventFile) {
    s.datasetID == dataset.id && s.datasetName == dataset.name && s.group.fileID == file.id && s.filePath == file.path
  }

  ghost predicate AllLabelled(m: map<string, Summary>, dataset: Dataset, file: EventFile) {
    forall k :: k in m ==> Labelled(m[k], dataset, file)
  }

  /** Account for one more error of the job. */
  method AddError(m: map<string, Summary>, e: Tagged, dataset: Dataset, file: EventFile, ghost es: seq<Tagged>)
      returns (t: map<string, Summary>)
    requires MapOk(false, file.id, m, es) && AllLabelled(m, dataset, file)
    requires NulFree(e.group) && e.group.fileID == file.id && (e.seen == 0 <==> e.group.day == "")
    ensures MapOk(false, file.id, t, es + [e]) && AllLabelled(t, dataset, file)
  {
    var key := e.group.kind + [NUL] + e.group.symbol + [NUL] + e.group.day;
    var s := if key in m then m[key] else Opened(e, dataset.id, dataset.name, file.path);
    t := m[key := Absorb(s, e)];
    AbsorbIsAdd(m, key, e, dataset, file);
    OpenedDescribes(e, dataset.id, dataset.name, file.path);
    AddedOk(false, file.id, m, es, Absorb(Opened(e, dataset.id, dataset.name, file.path), e), [e]);
  }

  lemma TagAllSnoc(errs: seq<ValidationError>, i: nat, fileID: string, day: nat -> string)
    requires i < |errs| && AllPlain(errs)
    ensures TagAll(errs[..i + 1], fileID, day) == TagAll(errs[..i], fileID, day) + [Tag(errs[i], fileID, day)]
  {
    assert errs[..i + 1][..i] == errs[..i];
  }

  /** Group the errors of one job by type, symbol and day. */
  method Summarize(dataset: Dataset, file: EventFile, errs: seq<ValidationError>, day: nat -> string)
      returns (rows: seq<Summary>)
    requires Calendar(day) && AllPlain(errs) && NUL !in file.id
    ensures Summarizes(rows, TagAll(errs, file.id, day))
    ensures forall i :: 0 <= i < |rows| ==> Labelled(rows[i], dataset, file)
  {
    var m: map<string, Summary> := map[];
    for i := 0 to |errs|
      invariant MapOk(false, file.id, m, TagAll(errs[..i], file.id, day)) && AllLabelled(m, dataset, file)
    {
      var e := Tag(errs[i], file.id, day);
      m := AddError(m, e, dataset, file, TagAll(errs[..i], file.id, day));
      TagAllSnoc(errs, i, file.id, day);
    }
    assert errs[..|errs|] == errs;
    assert forall k :: k in m ==> Filed(false, file.id, m, TagAll(errs, file.id, day), k);
    rows := Values(false, m);
    ValuesSummarize(false, file.id, m, TagAll(errs, file.id, day), rows);
    forall i | 0 <= i < |rows| ensures Labelled(rows[i], dataset, file) {
      assert ListedRow(false, m, {}, rows[i]);
    }
  }

  lemma AbsorbIsAdd(m: map<string, Summary>, key: string, e: Tagged, dataset: Dataset, file: EventFile)
    ensures var open := Opened(e, dataset.id, dataset.name, file.path);
            m[key := Absorb(if key in m then m[key] else open, e)] == Added(m, key, Absorb(open, e))
  {
  }

  // ----- Merging over jobs -----

  /** The errors of the listed jobs, each tagged with its job's file. */
  function Flat(r: Repo, jobs: seq<Job>, day: nat -> string): seq<Tagged>
    requires forall i :: 0 <= i < |jobs| ==> AllPlain(At(r.errors, jobs[i].id))
  {
    if jobs == [] then []
    else Flat(r, jobs[..|jobs| - 1], day) + TagAll(At(r.errors, jobs[|jobs| - 1].id), jobs[|jobs| - 1].eventFileID, day)
  }

  /** The members of the first `n` rows' groups, row by row. */
  ghost function Chunks(es: seq<Tagged>, rows: seq<Summary>, n: nat): seq<Tagged>
    requires n <= |rows|
  {
    if n == 0 then [] else Chunks(es, rows, n - 1) + Members(es, rows[n - 1].group)
  }

  lemma MembersOfMembers(es: seq<Tagged>, g: Group, h: Group)
    ensures Members(Members(es, h), g) == if g == h then Members(es, h) else []
  {
    MembersAre(es, h);
    MembersOfGroup(Members(es, h), g, h);
  }

  lemma HasGroupPrefix(rows: seq<Summary>, n: nat, g: Group)
    requires 0 < n <= |rows| && Distinct(rows)
    ensures HasGroup(rows[..n], g) <==> HasGroup(rows[..n - 1], g) || rows[n - 1].group == g
    ensures !(HasGroup(rows[..n - 1], g) && rows[n - 1].group == g)
  {
    assert rows[..n][..n - 1] == rows[..n - 1];
    HasGroupSnoc(rows[..n], g);
  }

  lemma {:induction false} ChunksMembers(es: seq<Tagged>, rows: seq<Summary>, n: nat, g: Group)
    requires n <= |rows| && Distinct(rows)
    ensures Members(Chunks(es, rows, n), g) == if HasGroup(rows[..n], g) then Members(es, g) else []
    decreases n
  {
    if n > 0 {
      var h := rows[n - 1].group;
      ChunksMembers(es, rows, n - 1, g);
      MembersAppend(Chunks(es, rows, n - 1), Members(es, h), g);
      MembersOfMembers(es, g, h);
      HasGroupPrefix(rows, n, g);
    }
  }

  /** Row by row, the rows of a summary account for every error once. */
  lemma ChunksAreAll(before: seq<Tagged>, es: seq<Tagged>, rows: seq<Summary>)
    requires Summarizes(rows, es)
    ensures SameGroups(before + Chunks(es, rows, |rows|), before + es)
  {
    assert rows[..|rows|] == rows;
    forall g ensures Members(before + Chunks(es, rows, |rows|), g) == Members(before + es, g) {
      MembersAppend(before, Chunks(es, rows, |rows|), g);
      MembersAppend(before, es, g);
      ChunksMembers(es, rows, |rows|, g);
      MembersAre(es, g);
    }
  }

  /** The row's path is the path of its group's file. */
  predicate Located(s: Summary, files: map<string, EventFile>) {
    s.group.fileID in files && s.filePath == files[s.group.fileID].path
  }

  ghost predicate AllLocated(m: map<string, Summary>, files: map<string, EventFile>) {
    forall k :: k in m ==> Located(m[k], files)
  }

  method MergeRow(m: map<string, Summary>, item: Summary, ghost es: seq<Tagged>, ghost chunk: seq<Tagged>,
                  ghost files: map<string, EventFile>)
      returns (t: map<string, Summary>)
    requires MapOk(true, "", m, es) && Describes(item, chunk) && AllLocated(m, files) && Located(item, files)
    ensures MapOk(true, "", t, es + chunk) && AllLocated(t, files)
  {
    var g := item.group;
    var key := g.kind + [NUL] + g.symbol + [NUL] + g.fileID + [NUL] + g.day;
    if key !in m {
      t := m[key := item];
    } else {
      t := m[key := Merge(m[key], item)];
    }
    assert t == Added(m, Join(true, g), item);
    AddedOk(true, "", m, es, item, chunk);
  }

  /** The map after the first `i` rows of a job, on top of the jobs before. */
  ghost predicate Merged(t: map<string, Summary>, rows: seq<Summary>, i: nat, before: seq<Tagged>, es: seq<Tagged>,
                         files: map<string, EventFile>)
    requires i <= |rows|
  {
    MapOk(true, "", t, before + Chunks(es, rows, i)) && AllLocated(t, files)
  }

  ghost predicate RowsLocated(rows: seq<Summary>, files: map<string, EventFile>) {
    forall i :: 0 <= i < |rows| ==> Located(rows[i], files)
  }

  method MergeNext(m: map<string, Summary>, rows: seq<Summary>, i: nat, ghost before: seq<Tagged>,
                   ghost es: seq<Tagged>,
                   ghost files: map<string, EventFile>)
      returns (t: map<string, Summary>)
    requires Summarizes(rows, es) && RowsLocated(rows, files) && i < |rows| && Merged(m, rows, i, before, es, files)
    ensures Merged(t, rows, i + 1, before, es, files)
  {
    t := MergeRow(m, rows[i], before + Chunks(es, rows, i), Members(es, rows[i].group), files);
    ChunkStep(before, es, rows, i);
  }

  lemma ChunkStep(before: seq<Tagged>, es: seq<Tagged>, rows: seq<Summary>, i: nat)
    requires i < |rows|
    ensures before + Chunks(es, rows, i) + Members(es, rows[i].group) == before + Chunks(es, rows, i + 1)
  {
  }

  lemma MergeStarts(m: map<string, Summary>, rows: seq<Summary>, before: seq<Tagged>, es: seq<Tagged>,
                    files: map<string, EventFile>)
    requires MapOk(true, "", m, before) && AllLocated(m, files)
    ensures Merged(m, rows, 0, before, es, files)
  {
    assert before + Chunks(es, rows, 0) == before;
  }

  lemma MergeEnds(t: map<string, Summary>, rows: seq<Summary>, before: seq<Tagged>, es: seq<Tagged>, files: map<string,
                  EventFile>)
    requires Summarizes(rows, es) && Merged(t, rows, |rows|, before, es, files)
    ensures MapOk(true, "", t, before + es) && AllLocated(t, files)
  {
    ChunksAreAll(before, es, rows);
    SameGroupsOk(true, "", t, before + Chunks(es, rows, |rows|), before + es);
  }

  /** Merge the rows of one job into the map of all jobs so far. */
  method MergeRows(m: map<string, Summary>, rows: seq<Summary>, ghost before: seq<Tagged>, ghost es: seq<Tagged>,
                   ghost files: map<string, EventFile>)
      returns (t: map<string, Summary>)
    requires MapOk(true, "", m, before) && Summarizes(rows, es) && AllLocated(m, files) && RowsLocated(rows, files)
    ensures MapOk(true, "", t, before + es) && AllLocated(t, files)
  {
    t := m;
    MergeStarts(t, rows, before, es, files);
    for i := 0 to |rows|
      invariant Merged(t, rows, i, before, es, files)
    {
      t := MergeNext(t, rows, i, before, es, files);
    }
    MergeEnds(t, rows, before, es, files);
  }

  ghost predicate PlainStore(r: Repo) {
    && (forall id :: id in r.files ==> NUL !in r.files[id].id)
    && (forall id :: AllPlain(At(r.errors, id)))
  }

  predicate Resolved(r: Repo, job: Job) {
    job.datasetID in r.datasets && job.eventFileID in r.files && r.files[job.eventFileID].id == job.eventFileID
  }

  /** Summarize one job and merge its rows into the map of the jobs before. */
  method MergeJob(r: Repo, job: Job, day: nat -> string, m: map<string, Summary>, ghost before: seq<Tagged>)
      returns (t: map<string, Summary>)
    requires Calendar(day) && PlainStore(r) && Resolved(r, job)
    requires MapOk(true, "", m, before) && AllLocated(m, r.files)
    ensures AllPlain(At(r.errors, job.id))
    ensures MapOk(true, "", t, before + TagAll(At(r.errors, job.id), job.eventFileID, day)) && AllLocated(t, r.files)
  {
    var errs := At(r.errors, job.id);
    var rows := Summarize(r.datasets[job.datasetID], r.files[job.eventFileID], errs, day);
    t := MergeRows(m, rows, before, TagAll(errs, job.eventFileID, day), r.files);
  }

  /** TWO-LEVEL MERGE EQUALS FLAT GROUPING. The merged summary of all listed jobs is the summary of all their
      errors at once; it is refused only if some job's dataset or file is missing. For a group with an error on
      line 0 the first line is the exception: see `FirstLineOf`. */
  method BuildErrorSummary(r: Repo, jobs: seq<Job>, day: nat -> string) returns (reply: Reply<seq<Summary>>)
    requires Calendar(day) && PlainStore(r) && forall id :: id in r.files ==> r.files[id].id == id
    ensures reply.Refused? <==> exists i :: 0 <= i < |jobs| && !Resolved(r, jobs[i])
    ensures reply.Stored? ==> Summarizes(reply.value, Flat(r, jobs, day))
    ensures reply.Stored? ==> forall i :: 0 <= i < |reply.value| ==> Located(reply.value[i], r.files)
  {
    var m: map<string, Summary> := map[];
    for i := 0 to |jobs|
      invariant forall j :: 0 <= j < i ==> Resolved(r, jobs[j])
      invariant MapOk(true, "", m, Flat(r, jobs[..i], day)) && AllLocated(m, r.files)
    {
      var job := jobs[i];
      if job.datasetID !in r.datasets {
        return Refused(NotFound);
      }
      if job.eventFileID !in r.files {
        return Refused(NotFound);
      }
      m := MergeJob(r, job, day, m, Flat(r, jobs[..i], day));
      assert jobs[..i + 1][..i] == jobs[..i];
    }
    assert jobs[..|jobs|] == jobs;
    assert forall k :: k in m ==> Filed(true, "", m, Flat(r, jobs, day), k);
    var rows := Values(true, m);
    ValuesSummarize(true, "", m, Flat(r, jobs, day), rows);
    forall i | 0 <= i < |rows| ensures Located(rows[i], r.files) {
      assert ListedRow(true, m, {}, rows[i]);
    }
    reply := Stored(rows);
  }

  function StoredErrors(r: Repo, jobs: seq<Job>): nat {
    if jobs == [] then 0 else StoredErrors(r, jobs[..|jobs| - 1]) + |At(r.errors, jobs[|jobs| - 1].id)|
  }

  /** What is grouped is each stored error: under its own type and symbol, its job's file and the day it was
      stored, with its own line and time. */
  lemma {:induction false} TagAllFields(es: seq<ValidationError>, fileID: string, day: nat -> string)
    requires AllPlain(es)
    ensures |TagAll(es, fileID, day)| == |es|
    ensures forall i :: 0 <= i < |es| ==>
            var e, t := es[i], TagAll(es, fileID, day)[i];
            && t.line == e.line && t.seen == e.createdAt
            && t.group.kind == e.kind && t.group.symbol == e.symbol && t.group.fileID == fileID
            && t.group.day == day(e.createdAt)
    decreases |es|
  {
    if es != [] {
      TagAllFields(es[..|es| - 1], fileID, day);
    }
  }

  lemma {:induction false} FlatLength(r: Repo, jobs: seq<Job>, day: nat -> string)
    requires forall i :: 0 <= i < |jobs| ==> AllPlain(At(r.errors, jobs[i].id))
    ensures |Flat(r, jobs, day)| == StoredErrors(r, jobs)
    decreases |jobs|
  {
    if jobs != [] {
      var n := |jobs| - 1;
      FlatLength(r, jobs[..n], day);
      TagAllFields(At(r.errors, jobs[n].id), jobs[n].eventFileID, day);
    }
  }

  /** The counts of the merged summary add up to the errors stored for the listed jobs. */
  lemma NoErrorLost(r: Repo, jobs: seq<Job>, day: nat -> string, rows: seq<Summary>)
    requires forall i :: 0 <= i < |jobs| ==> AllPlain(At(r.errors, jobs[i].id))
    requires Summarizes(rows, Flat(r, jobs, day))
    ensures SumCounts(rows) == StoredErrors(r, jobs)
  {
    CountsAddUp(rows, Flat(r, jobs, day));
    FlatLength(r, jobs, day);
  }

  /** The errors of one job that belong to group `g`. */
  function CountIn(es: seq<ValidationError>, fileID: string, day: nat -> string, g: Group): nat {
    if es == [] then 0
    else
      var e := es[|es| - 1];
      CountIn(es[..|es| - 1], fileID, day, g)
          + (if e.kind == g.kind && e.symbol == g.symbol && fileID == g.fileID && day(e.createdAt) == g.day then 1
             else 0)
  }

  /** The stored errors of type, symbol, file and day `g` over the listed jobs. */
  function CountStored(r: Repo, jobs: seq<Job>, day: nat -> string, g: Group): nat {
    if jobs == [] then 0
    else
      var job := jobs[|jobs| - 1];
      CountStored(r, jobs[..|jobs| - 1], day, g) + CountIn(At(r.errors, job.id), job.eventFileID, day, g)
  }

  lemma {:induction false} TaggedMembers(es: seq<ValidationError>, fileID: string, day: nat -> string, g: Group)
    requires AllPlain(es)
    ensures |Members(TagAll(es, fileID, day), g)| == CountIn(es, fileID, day, g)
    decreases |es|
  {
    if es != [] {
      var n := |es| - 1;
      TaggedMembers(es[..n], fileID, day, g);
      MembersAppend(TagAll(es[..n], fileID, day), [Tag(es[n], fileID, day)], g);
      MembersOne(Tag(es[n], fileID, day), g);
    }
  }

  lemma {:induction false} FlatMembers(r: Repo, jobs: seq<Job>, day: nat -> string, g: Group)
    requires forall i :: 0 <= i < |jobs| ==> AllPlain(At(r.errors, jobs[i].id))
    ensures |Members(Flat(r, jobs, day), g)| == CountStored(r, jobs, day, g)
    decreases |jobs|
  {
    if jobs != [] {
      var n := |jobs| - 1;
      var es := At(r.errors, jobs[n].id);
      FlatMembers(r, jobs[..n], day, g);
      MembersAppend(Flat(r, jobs[..n], day), TagAll(es, jobs[n].eventFileID, day), g);
      TaggedMembers(es, jobs[n].eventFileID, day, g);
    }
  }

  /** Each row of the merged summary counts the stored errors of its own type, symbol, file and day. */
  lemma RowsCountStored(r: Repo, jobs: seq<Job>, day: nat -> string, rows: seq<Summary>, i: nat)
    requires forall k :: 0 <= k < |jobs| ==> AllPlain(At(r.errors, jobs[k].id))
    requires Summarizes(rows, Flat(r, jobs, day)) && i < |rows|
    ensures rows[i].count == CountStored(r, jobs, day, rows[i].group)
  {
    assert Describes(rows[i], Members(Flat(r, jobs, day), rows[i].group));
    FlatMembers(r, jobs, day, rows[i].group);
  }

  /** In every reachable state the listed jobs' datasets and files are found, so the summary is not refused. */
  lemma SummaryIsTotal(ops: seq<Op>, jobs: seq<Job>)
    requires var r := ApplyAll(EMPTY, ops);
             forall i :: 0 <= i < |jobs| ==> jobs[i].id in r.jobs && r.jobs[jobs[i].id] == jobs[i]
    ensures var r := ApplyAll(EMPTY, ops);
            (forall i :: 0 <= i < |jobs| ==> Resolved(r, jobs[i]))
                && (forall id :: id in r.files ==> r.files[id].id == id)
  {
    ReachableConsistent(EMPTY, ops);
    assert References(ApplyAll(EMPTY, ops));
  }

  /** The global summary of a reachable store is never refused, and its counts add up to all stored errors. */
  method BuildGlobalSummary(ghost ops: seq<Op>, r: Repo, jobs: seq<Job>, day: nat -> string)
      returns (reply: Reply<seq<Summary>>)
    requires r == ApplyAll(EMPTY, ops) && ListsJobs(r, jobs) && Calendar(day) && PlainStore(r)
    ensures reply.Stored? && Summarizes(reply.value, Flat(r, jobs, day))
    ensures SumCounts(reply.value) == StoredErrors(r, jobs)
  {
    SummaryIsTotal(ops, jobs);
    reply := BuildErrorSummary(r, jobs, day);
    NoErrorLost(r, jobs, day, reply.value);
  }

  // ----- Quality report -----

  datatype Quality = Quality(dataset: Dataset, file: EventFile, job: Job, metrics: seq<Metric>,
      errors: seq<ValidationError>)

  /** The report and the summary of its errors. */
  method BuildQualityReport(r: Repo, jobID: string, day: nat -> string)
      returns (reply: Reply<Quality>, summary: seq<Summary>)
    requires Calendar(day) && PlainStore(r)
    ensures reply == BuildQuality(r, jobID)
    ensures reply.Stored? ==>
              && jobID in r.jobs && reply.value.job == r.jobs[jobID]
              && reply.value.job.eventFileID in r.files && reply.value.file == r.files[reply.value.job.eventFileID]
              && reply.value.job.datasetID in r.datasets
              && reply.value.dataset == r.datasets[reply.value.job.datasetID]
              && reply.value.metrics == At(r.metrics, reply.value.job.id)
              && reply.value.errors == At(r.errors, reply.value.job.id)
    ensures reply.Stored? ==> Summarizes(summary, TagAll(reply.value.errors, reply.value.file.id, day))
    ensures reply.Stored? ==> forall i :: 0 <= i < |summary| ==>
            Labelled(summary[i], reply.value.dataset, reply.value.file)
  {
    summary := [];
    if jobID !in r.jobs {
      return Refused(NotFound), summary;
    }
    var job := r.jobs[jobID];
    if job.datasetID !in r.datasets {
      return Refused(NotFound), summary;
    }
    if job.eventFileID !in r.files {
      return Refused(NotFound), summary;
    }
    var dataset, file, errors := r.datasets[job.datasetID], r.files[job.eventFileID], At(r.errors, job.id);
    summary := Summarize(dataset, file, errors, day);
    reply := Stored(Quality(dataset, file, job, At(r.metrics, job.id), errors));
  }

  function BuildQuality(r: Repo, jobID: string): Reply<Quality> {
    if jobID !in r.jobs then Refused(NotFound)
    else
      var job := r.jobs[jobID];
      if job.datasetID !in r.datasets then Refused(NotFound)
      else if job.eventFileID !in r.files then Refused(NotFound)
      else Stored(Quality(r.datasets[job.datasetID], r.files[job.eventFileID], job, At(r.metrics, job.id),
          At(r.errors, job.id)))
  }

  /** In every reachable state a quality report exists exactly for the jobs that exist, and it ties the job
      to the dataset and file it names. */
  lemma QualityIsTotal(ops: seq<Op>, jobID: string)
    ensures var r := ApplyAll(EMPTY, ops);
            && (BuildQuality(r, jobID).Stored? <==> jobID in r.jobs)
            && (jobID in r.jobs ==>
                  var q := BuildQuality(r, jobID).value;
                  && q.job == r.jobs[jobID] && q.job.id == jobID && q.file.id == q.job.eventFileID
                  && q.job.eventFileID in r.files && q.file == r.files[q.job.eventFileID]
                  && q.job.datasetID in r.datasets && q.dataset == r.datasets[q.job.datasetID]
                  && q.metrics == At(r.metrics, jobID) && q.errors == At(r.errors, jobID))
  {
    ReachableConsistent(EMPTY, ops);
    assert References(ApplyAll(EMPTY, ops));
  }

  // ----- Lineage -----

  datatype JobLineage = JobLineage(job: Job, metricCount: nat, errorCount: nat, errorTypes: set<string>)

  /** The non-empty error types, each once. */
  function TypesOf(errs: seq<ValidationError>): set<string> {
    set i | 0 <= i < |errs| && errs[i].kind != "" :: errs[i].kind
  }

  method ErrorTypes(errs: seq<ValidationError>) returns (seen: set<string>)
    ensures seen == TypesOf(errs)
    ensures forall t :: t in seen <==> t != "" && exists i :: 0 <= i < |errs| && errs[i].kind == t
  {
    seen := {};
    for i := 0 to |errs|
      invariant seen == TypesOf(errs[..i])
    {
      TypesSnoc(errs, i);
      if errs[i].kind != "" {
        seen := seen + {errs[i].kind};
      }
    }
    assert errs[..|errs|] == errs;
  }

  lemma TypesSnoc(errs: seq<ValidationError>, i: nat)
    requires i < |errs|
    ensures TypesOf(errs[..i + 1])
            == TypesOf(errs[..i]) + (if errs[i].kind == "" then {} else {errs[i].kind})
  {
    assert errs[..i + 1] == errs[..i] + [errs[i]];
    forall k | k in TypesOf(errs[..i]) ensures k in TypesOf(errs[..i + 1]) {
      var j :| 0 <= j < i && errs[..i][j].kind == k;
      assert errs[..i + 1][j].kind == k;
    }
    if errs[i].kind != "" {
      assert errs[..i + 1][i].kind == errs[i].kind;
    }
  }

  function LineageOf(r: Repo, job: Job): JobLineage {
    JobLineage(job, |At(r.metrics, job.id)|, |At(r.errors, job.id)|, TypesOf(At(r.errors, job.id)))
  }

  /** A job with the number of its metrics and errors and the types of its errors. */
  ghost predicate Counted(r: Repo, l: JobLineage) {
    && l.metricCount == |At(r.metrics, l.job.id)| && l.errorCount == |At(r.errors, l.job.id)|
    && forall t :: t in l.errorTypes <==>
         t != "" && exists i :: 0 <= i < |At(r.errors, l.job.id)| && At(r.errors, l.job.id)[i].kind == t
  }

  ghost predicate AllCounted(r: Repo, row: seq<JobLineage>) {
    forall j :: 0 <= j < |row| ==> Counted(r, row[j])
  }

  datatype FileLineage = FileLineage(file: EventFile, jobs: seq<JobLineage>)

  /** The listed jobs of one dataset that read one file, in listing order. */
  function JobsOf(jobs: seq<Job>, datasetID: string, fileID: string): seq<Job> {
    if jobs == [] then []
    else
      var last := jobs[|jobs| - 1];
      JobsOf(jobs[..|jobs| - 1], datasetID, fileID)
          + (if last.datasetID == datasetID && last.eventFileID == fileID then [last] else [])
  }

  function Lineages(r: Repo, jobs: seq<Job>): seq<JobLineage> {
    seq(|jobs|, i requires 0 <= i < |jobs| => LineageOf(r, jobs[i]))
  }

  /** The map files each listed job of the dataset under its file. */
  ghost predicate Grouped(byFile: map<string, seq<Job>>, jobs: seq<Job>, datasetID: string) {
    forall f {:trigger GroupedAt(byFile, jobs, datasetID, f)} :: GroupedAt(byFile, jobs, datasetID, f)
  }

  predicate GroupedAt(byFile: map<string, seq<Job>>, jobs: seq<Job>, datasetID: string, f: string) {
    At(byFile, f) == JobsOf(jobs, datasetID, f)
  }

  lemma GroupOne(byFile: map<string, seq<Job>>, next: map<string, seq<Job>>, jobs: seq<Job>, datasetID: string, i: nat)
    requires i < |jobs| && Grouped(byFile, jobs[..i], datasetID)
    requires var f := jobs[i].eventFileID;
             next == if jobs[i].datasetID == datasetID then byFile[f := At(byFile, f) + [jobs[i]]] else byFile
    ensures Grouped(next, jobs[..i + 1], datasetID)
  {
    assert jobs[..i + 1][..i] == jobs[..i];
    forall f {:trigger GroupedAt(next, jobs[..i + 1], datasetID, f)}
        ensures GroupedAt(next, jobs[..i + 1], datasetID, f) {
      assert GroupedAt(byFile, jobs[..i], datasetID, f);
    }
  }

  method GroupByFile(jobs: seq<Job>, datasetID: string) returns (byFile: map<string, seq<Job>>)
    ensures Grouped(byFile, jobs, datasetID)
  {
    byFile := map[];
    for i := 0 to |jobs|
      invariant Grouped(byFile, jobs[..i], datasetID)
    {
      var job, before := jobs[i], byFile;
      if job.datasetID == datasetID {
        byFile := byFile[job.eventFileID := At(byFile, job.eventFileID) + [job]];
      }
      GroupOne(before, byFile, jobs, datasetID, i);
    }
    assert jobs[..|jobs|] == jobs;
  }

  method LineageOfJobs(r: Repo, listed: seq<Job>) returns (row: seq<JobLineage>)
    ensures row == Lineages(r, listed) && |row| == |listed|
    ensures forall j :: 0 <= j < |listed| ==> row[j].job == listed[j]
    ensures AllCounted(r, row)
  {
    row := [];
    for j := 0 to |listed|
      invariant row == Lineages(r, listed)[..j] && AllCounted(r, row)
    {
      var job := listed[j];
      var types := ErrorTypes(At(r.errors, job.id));
      row := row + [JobLineage(job, |At(r.metrics, job.id)|, |At(r.errors, job.id)|, types)];
    }
  }

  /** Lineage of a dataset from a listing of its files and of all jobs. */
  method BuildLineage(r: Repo, datasetID: string, files: seq<EventFile>, jobs: seq<Job>)
      returns (reply: Reply<seq<FileLineage>>)
    ensures reply.Refused? <==> datasetID !in r.datasets
    ensures reply.Stored? ==> |reply.value| == |files|
    ensures reply.Stored? ==> forall i :: 0 <= i < |files| ==>
            reply.value[i] == FileLineage(files[i], Lineages(r, JobsOf(jobs, datasetID, files[i].id)))
    ensures reply.Stored? ==> forall i :: 0 <= i < |files| ==> reply.value[i].file == files[i]
    ensures reply.Stored? ==> forall i :: 0 <= i < |files| ==> AllCounted(r, reply.value[i].jobs)
  {
    if datasetID !in r.datasets {
      return Refused(NotFound);
    }
    var byFile := GroupByFile(jobs, datasetID);
    var out: seq<FileLineage> := [];
    for i := 0 to |files|
      invariant |out| == i
      invariant forall j :: 0 <= j < i ==>
                out[j] == FileLineage(files[j], Lineages(r, JobsOf(jobs, datasetID, files[j].id)))
      invariant forall j :: 0 <= j < i ==> AllCounted(r, out[j].jobs)
    {
      assert GroupedAt(byFile, jobs, datasetID, files[i].id);
      var row := LineageOfJobs(r, At(byFile, files[i].id));
      out := out + [FileLineage(files[i], row)];
    }
    reply := Stored(out);
  }

  /** `jobs` lists every stored job exactly once, in some order. */
  ghost predicate ListsJobs(r: Repo, jobs: seq<Job>) {
    && (forall i :: 0 <= i < |jobs| ==> jobs[i].id in r.jobs && r.jobs[jobs[i].id] == jobs[i])
    && (forall id :: id in r.jobs ==> r.jobs[id] in jobs)
    && (forall i, j :: 0 <= i < j < |jobs| ==> jobs[i] != jobs[j])
  }

  /** `files` lists every file of the dataset exactly once, in some order. */
  ghost predicate ListsFiles(r: Repo, datasetID: string, files: seq<EventFile>) {
    && (forall i :: 0 <= i < |files| ==>
      files[i].id in r.files && r.files[files[i].id] == files[i] && files[i].datasetID == datasetID)
    && (forall id :: id in r.files && r.files[id].datasetID == datasetID ==> r.files[id] in files)
    && (forall i, j :: 0 <= i < j < |files| ==> files[i] != files[j])
  }

  lemma {:induction false} JobsOfAre(jobs: seq<Job>, datasetID: string, fileID: string, job: Job)
    ensures job in JobsOf(jobs, datasetID, fileID) <==>
            job in jobs && job.datasetID == datasetID && job.eventFileID == fileID
    decreases |jobs|
  {
    if jobs != [] {
      var n := |jobs| - 1;
      JobsOfAre(jobs[..n], datasetID, fileID, job);
      assert jobs == jobs[..n] + [jobs[n]];
    }
  }

  lemma {:induction false} JobsOfDistinct(jobs: seq<Job>, datasetID: string, fileID: string)
    requires forall i, j :: 0 <= i < j < |jobs| ==> jobs[i] != jobs[j]
    ensures forall i, j :: 0 <= i < j < |JobsOf(jobs, datasetID, fileID)| ==>
            JobsOf(jobs, datasetID, fileID)[i] != JobsOf(jobs, datasetID, fileID)[j]
    decreases |jobs|
  {
    if jobs != [] {
      var n := |jobs| - 1;
      JobsOfDistinct(jobs[..n], datasetID, fileID);
      forall i | 0 <= i < |JobsOf(jobs[..n], datasetID, fileID)|
          ensures JobsOf(jobs[..n], datasetID, fileID)[i] != jobs[n] {
        JobsOfAre(jobs[..n], datasetID, fileID, JobsOf(jobs[..n], datasetID, fileID)[i]);
      }
    }
  }

  /** The place of a job in a lineage: under file `i`, position `j`. */
  predicate PlacedAt(files: seq<EventFile>, jobs: seq<Job>, datasetID: string, job: Job, i: nat, j: nat) {
    i < |files| && j < |JobsOf(jobs, datasetID, files[i].id)| && JobsOf(jobs, datasetID, files[i].id)[j] == job
  }

  /** LINEAGE IS EXACT. In every reachable state the lineage of a dataset has exactly one place for each job
      whose dataset and whose file's dataset are both the requested one, and no place for any other job. */
  lemma LineageIsExact(ops: seq<Op>, datasetID: string, files: seq<EventFile>, jobs: seq<Job>, id: string)
    requires var r := ApplyAll(EMPTY, ops); ListsJobs(r, jobs) && ListsFiles(r, datasetID, files) && id in r.jobs
    ensures var r := ApplyAll(EMPTY, ops);
            var job := r.jobs[id];
            && job.eventFileID in r.files
            && ((exists i: nat, j: nat :: PlacedAt(files, jobs, datasetID, job, i, j)) <==>
                  job.datasetID == datasetID && r.files[job.eventFileID].datasetID == datasetID)
            && (forall i: nat, j: nat, k: nat, l: nat ::
                  PlacedAt(files, jobs, datasetID, job, i, j) && PlacedAt(files, jobs, datasetID, job, k, l) ==>
                  i == k && j == l)
  {
    ReachableConsistent(EMPTY, ops);
    var r := ApplyAll(EMPTY, ops);
    assert References(r);
    var job := r.jobs[id];
    var file := r.files[job.eventFileID];
    forall i: nat, j: nat | PlacedAt(files, jobs, datasetID, job, i, j)
      ensures files[i] == file && job.datasetID == datasetID && file.datasetID == datasetID
    {
      JobsOfAre(jobs, datasetID, files[i].id, job);
    }
    if job.datasetID == datasetID && file.datasetID == datasetID {
      assert file in files && job in jobs;
      var i: nat :| i < |files| && files[i] == file;
      JobsOfAre(jobs, datasetID, file.id, job);
      var j: nat :| j < |JobsOf(jobs, datasetID, file.id)| && JobsOf(jobs, datasetID, file.id)[j] == job;
      assert PlacedAt(files, jobs, datasetID, job, i, j);
    }
    JobsOfDistinct(jobs, datasetID, file.id);
  }
}
