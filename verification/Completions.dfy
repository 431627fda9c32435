/** What a completed replay leaves in the store. */
module Completions {
  import opened Events
  import opened SequenceValidator
  import opened Store
  import opened ReplayProtocol
  import opened NoLineSkipped
  import opened Projections
  import opened Resume

  // ----- What attempts and completions have seen -----

  /** A worker inside the file has exactly the validator of its resume line and position. */
  ghost predicate SeenOk(cfg: Config, a: Attempt) {
    InFile(a.pc) ==> a.pos <= |cfg.file| && a.seen == Scan(cfg, a.resume, a.pos)
  }

  ghost predicate CompletionOk(cfg: Config, jobID: string, c: Completion) {
    var v := Scan(cfg, c.resume, |cfg.file|);
    && 0 <= c.resume <= LastLine(cfg)
    && c.metric == MetricOf(LastLine(cfg), v)
    && c.manifest == ManifestOf(LastLine(cfg), c.resume, v)
    && c.errors == Stamp(jobID, c.now, ToErrors(jobID, v.failures))
  }

  function AllErrors(cs: seq<Completion>): seq<ValidationError> {
    if cs == [] then [] else AllErrors(Front(cs)) + Last(cs).errors
  }

  ghost predicate CompletionsOk(cfg: Config, s: System) {
    && (forall k :: 0 <= k < |s.completions| ==> CompletionOk(cfg, s.job.id, s.completions[k]))
    && |s.metrics| == |s.completions|
    && (forall k :: 0 <= k < |s.completions| ==> s.metrics[k] == s.completions[k].metric)
    && s.errors == AllErrors(s.completions)
  }

  ghost predicate AllSeenOk(cfg: Config, s: System) {
    forall i :: 0 <= i < |s.attempts| ==> SeenOk(cfg, s.attempts[i])
  }

  ghost predicate ReportsOk(cfg: Config, s: System) {
    AllSeenOk(cfg, s) && CompletionsOk(cfg, s)
  }

  lemma ReadRowReads(cfg: Config, s: System, i: nat)
    requires cfg.every > 0 && i < |s.attempts| && s.attempts[i].pos < |cfg.file|
    ensures var a, b := s.attempts[i], ReadRow(cfg, s, i).attempts[i];
            b.pos == a.pos + 1 && b.resume == a.resume && b.seen == ScanRow(cfg, a.resume, a.seen, cfg.file[a.pos])
  {
  }

  lemma ReadRowKeepsSeen(cfg: Config, s: System, i: nat)
    requires cfg.every > 0 && i < |s.attempts| && s.attempts[i].pc.Scanning? && s.attempts[i].pos < |cfg.file|
    requires s.attempts[i].seen == Scan(cfg, s.attempts[i].resume, s.attempts[i].pos)
    ensures SeenOk(cfg, ReadRow(cfg, s, i).attempts[i])
  {
    ReadRowReads(cfg, s, i);
    ScanNext(cfg, s.attempts[i].resume, s.attempts[i].pos);
  }

  lemma AllErrorsSnoc(cs: seq<Completion>, c: Completion)
    ensures AllErrors(cs + [c]) == AllErrors(cs) + c.errors
  {
    assert Front(cs + [c]) == cs;
  }

  lemma CompletionAdded(cfg: Config, s: System, t: System, c: Completion)
    requires CompletionsOk(cfg, s) && t.job.id == s.job.id && CompletionOk(cfg, s.job.id, c)
    requires t.completions == s.completions + [c] && t.metrics == s.metrics + [c.metric]
    requires t.errors == s.errors + c.errors
    ensures CompletionsOk(cfg, t)
  {
    AllErrorsSnoc(s.completions, c);
  }

  lemma CompleteKeepsReports(cfg: Config, s: System, i: nat, now: nat)
    requires ValidConfig(cfg) && SystemOk(cfg, s) && ReportsOk(cfg, s) && i < |s.attempts|
    requires s.attempts[i].pc.Completing?
    ensures s.attempts[i].pos <= |cfg.file| && CompletionsOk(cfg, WorkStep(cfg, s, i, now))
  {
    var a := s.attempts[i];
    assert AttemptOk(cfg, s.processed, s.job.checkpointLine, a) && SeenOk(cfg, a);
    RowsAreLastLine(cfg, a);
    var t := WorkStep(cfg, s, i, now);
    CompletionAdded(cfg, s, t, Last(t.completions));
  }

  /** Only reading a row changes what an attempt has seen, and only completing stores anything. */
  lemma WorkFrame(cfg: Config, s: System, i: nat, now: nat)
    requires i < |s.attempts| && s.attempts[i].pos <= |cfg.file| && cfg.every > 0
    ensures var a, t := s.attempts[i], WorkStep(cfg, s, i, now);
            && |t.attempts| == |s.attempts| && t.job.id == s.job.id
            && (forall j :: 0 <= j < |s.attempts| && j != i ==> t.attempts[j] == s.attempts[j])
            && (!a.pc.Completing? ==> t.completions == s.completions && t.metrics == s.metrics && t.errors == s.errors)
            && (InFile(t.attempts[i].pc) && !(a.pc.Scanning? && a.pos < |cfg.file|) ==>
                  || (t.attempts[i].pos == 0 && t.attempts[i].seen == FRESH)
                  || (InFile(a.pc) && t.attempts[i].pos == a.pos && t.attempts[i].resume == a.resume
                      && t.attempts[i].seen == a.seen))
  {
  }

  lemma SeenCarries(cfg: Config, a: Attempt, b: Attempt)
    requires SeenOk(cfg, a)
    requires InFile(b.pc) ==>
               || (b.pos == 0 && b.seen == FRESH)
               || (InFile(a.pc) && b.pos == a.pos && b.resume == a.resume && b.seen == a.seen)
    ensures SeenOk(cfg, b)
  {
  }

  lemma CompletionsCarry(cfg: Config, s: System, t: System)
    requires CompletionsOk(cfg, s) && t.job.id == s.job.id
    requires t.completions == s.completions && t.metrics == s.metrics && t.errors == s.errors
    ensures CompletionsOk(cfg, t)
  {
  }

  lemma WorkKeepsSeen(cfg: Config, s: System, i: nat, now: nat)
    requires ValidConfig(cfg) && AllSeenOk(cfg, s) && i < |s.attempts| && s.attempts[i].pos <= |cfg.file|
    ensures AllSeenOk(cfg, WorkStep(cfg, s, i, now))
  {
    var a, t := s.attempts[i], WorkStep(cfg, s, i, now);
    assert SeenOk(cfg, a);
    WorkFrame(cfg, s, i, now);
    if a.pc.Scanning? && a.pos < |cfg.file| {
      ReadRowKeepsSeen(cfg, s, i);
    } else {
      SeenCarries(cfg, a, t.attempts[i]);
    }
    assert forall j :: 0 <= j < |s.attempts| && j != i ==> SeenOk(cfg, s.attempts[j]);
  }

  lemma WorkKeepsCompletions(cfg: Config, s: System, i: nat, now: nat)
    requires ValidConfig(cfg) && SystemOk(cfg, s) && ReportsOk(cfg, s) && i < |s.attempts|
    ensures s.attempts[i].pos <= |cfg.file| && CompletionsOk(cfg, WorkStep(cfg, s, i, now))
  {
    assert AttemptOk(cfg, s.processed, s.job.checkpointLine, s.attempts[i]);
    if s.attempts[i].pc.Completing? {
      CompleteKeepsReports(cfg, s, i, now);
    } else {
      WorkFrame(cfg, s, i, now);
      CompletionsCarry(cfg, s, WorkStep(cfg, s, i, now));
    }
  }

  /** Environment actions stop attempts or open new ones; they store nothing. */
  lemma OtherFrame(cfg: Config, s: System, act: Action)
    requires !act.Work?
    ensures var t := Step(cfg, s, act);
            && t.completions == s.completions && t.metrics == s.metrics && t.errors == s.errors && t.job.id == s.job.id
            && |s.attempts| <= |t.attempts|
            && (forall j :: 0 <= j < |s.attempts| ==> t.attempts[j] == s.attempts[j] || !InFile(t.attempts[j].pc))
            && (forall j :: |s.attempts| <= j < |t.attempts| ==> !InFile(t.attempts[j].pc))
  {
  }

  lemma StepKeepsReports(cfg: Config, s: System, act: Action)
    requires ValidConfig(cfg) && SystemOk(cfg, s) && ReportsOk(cfg, s)
    ensures ReportsOk(cfg, Step(cfg, s, act))
  {
    if act.Work? {
      if act.i < |s.attempts| {
        WorkKeepsCompletions(cfg, s, act.i, act.now);
        WorkKeepsSeen(cfg, s, act.i, act.now);
      }
    } else {
      var t := Step(cfg, s, act);
      OtherFrame(cfg, s, act);
      CompletionsCarry(cfg, s, t);
      forall j | 0 <= j < |t.attempts| ensures SeenOk(cfg, t.attempts[j]) {
        if j < |s.attempts| {
          assert SeenOk(cfg, s.attempts[j]);
        }
      }
    }
  }

  lemma {:induction false} RunKeepsReports(cfg: Config, s: System, acts: seq<Action>)
    requires ValidConfig(cfg) && SystemOk(cfg, s) && ReportsOk(cfg, s)
    ensures SystemOk(cfg, Run(cfg, s, acts)) && ReportsOk(cfg, Run(cfg, s, acts))
    decreases |acts|
  {
    if acts != [] {
      StepKeepsOk(cfg, s, acts[0]);
      StepKeepsReports(cfg, s, acts[0]);
      RunKeepsReports(cfg, Step(cfg, s, acts[0]), acts[1..]);
    }
  }

  // ----- Resumed scans -----

  /** How many rows of the file lie at or below line `resume`. */
  function RowsUpTo(cfg: Config, resume: int): nat
    requires 0 <= resume <= LastLine(cfg)
  {
    var n := resume - cfg.header;
    if n < 0 then 0 else if n > |cfg.file| then |cfg.file| else n
  }

  lemma RowsUpToSplits(cfg: Config, resume: int)
    requires ValidConfig(cfg) && 0 <= resume <= LastLine(cfg)
    ensures forall k :: 0 <= k < |cfg.file| ==> (cfg.file[k].line <= resume <==> k < RowsUpTo(cfg, resume))
  {
  }

  lemma {:induction false} ScanPrimes(cfg: Config, resume: int, n: nat)
    requires ValidConfig(cfg) && 0 <= resume <= LastLine(cfg) && n <= RowsUpTo(cfg, resume)
    ensures Scan(cfg, resume, n) == View(0, 0, [], PrimeAll(cfg.filter, NO_TRACKERS, cfg.file[..n]))
  {
    if n > 0 {
      ScanPrimes(cfg, resume, n - 1);
      RowsUpToSplits(cfg, resume);
      assert Front(cfg.file[..n]) == cfg.file[..n - 1];
    }
  }

  lemma SliceSnoc<T>(xs: seq<T>, k: nat, n: nat)
    requires k < n <= |xs|
    ensures xs[k..n] != [] && Front(xs[k..n]) == xs[k..n - 1] && Last(xs[k..n]) == xs[n - 1]
  {
  }

  lemma ReportSnoc(filter: string, t: Trackers, rs: seq<Record>, k: nat, n: nat)
    requires k < n <= |rs|
    ensures Report(filter, t, rs[k..n]) == Processed(filter, Report(filter, t, rs[k..n - 1]), rs[n - 1])
  {
    SliceSnoc(rs, k, n);
    ReportLast(filter, t, rs[k..n]);
  }

  lemma EmptyReport(filter: string, t: Trackers, rs: seq<Record>, k: nat)
    requires k <= |rs|
    ensures Report(filter, t, rs[k..k]) == View(0, 0, [], t)
  {
    assert rs[k..k] == [];
  }

  /** `views` processes row `j` between its positions `j` and `j + 1`. */
  ghost predicate ProcessesAt(views: nat -> View, filter: string, rs: seq<Record>, j: nat)
    requires j < |rs|
  {
    views(j + 1) == Processed(filter, views(j), rs[j])
  }

  /** Views that process every row from `k` on are the reports of those rows. */
  lemma {:induction false} ReportFolds(views: nat -> View, filter: string, t: Trackers, rs: seq<Record>, k: nat, n: nat)
    requires k <= n <= |rs| && views(k) == View(0, 0, [], t)
    requires forall j: nat :: k <= j < n ==> ProcessesAt(views, filter, rs, j)
    ensures views(n) == Report(filter, t, rs[k..n])
    decreases n
  {
    if n == k {
      EmptyReport(filter, t, rs, k);
    } else {
      ReportFolds(views, filter, t, rs, k, n - 1);
      assert ProcessesAt(views, filter, rs, n - 1);
      ReportSnoc(filter, t, rs, k, n);
    }
  }

  function ScanTo(cfg: Config, resume: int, n: nat): View {
    if n <= |cfg.file| then Scan(cfg, resume, n) else FRESH
  }

  lemma ScanStep(cfg: Config, resume: int, n: nat)
    requires n < |cfg.file| && cfg.file[n].line > resume
    ensures ScanTo(cfg, resume, n + 1) == Processed(cfg.filter, ScanTo(cfg, resume, n), cfg.file[n])
  {
    ScanNext(cfg, resume, n);
  }

  lemma RowIsAbove(cfg: Config, resume: int, k: nat)
    requires ValidConfig(cfg) && 0 <= resume <= LastLine(cfg) && RowsUpTo(cfg, resume) <= k < |cfg.file|
    ensures cfg.file[k].line > resume
  {
    RowsUpToSplits(cfg, resume);
  }

  /** A resumed scan primes the rows up to the resume line and processes exactly the others. */
  lemma ScanResumes(cfg: Config, resume: int, n: nat)
    requires ValidConfig(cfg) && 0 <= resume <= LastLine(cfg) && RowsUpTo(cfg, resume) <= n <= |cfg.file|
    ensures var k := RowsUpTo(cfg, resume);
            Scan(cfg, resume, n) == Report(cfg.filter, PrimeAll(cfg.filter, NO_TRACKERS, cfg.file[..k]), cfg.file[k..n])
  {
    var k := RowsUpTo(cfg, resume);
    var views := (m: nat) => ScanTo(cfg, resume, m);
    forall j: nat | k <= j < n ensures ProcessesAt(views, cfg.filter, cfg.file, j) {
      RowIsAbove(cfg, resume, j);
      ScanStep(cfg, resume, j);
    }
    ScanPrimes(cfg, resume, k);
    ReportFolds(views, cfg.filter, PrimeAll(cfg.filter, NO_TRACKERS, cfg.file[..k]), cfg.file, k, n);
  }

  // ----- Failures above a line -----

  function Above(fs: seq<Failure>, line: int): seq<Failure> {
    if fs == [] then [] else Above(Front(fs), line) + (if Last(fs).line > line then [Last(fs)] else [])
  }

  lemma {:induction false} AboveAppend(a: seq<Failure>, b: seq<Failure>, line: int)
    ensures Above(a + b, line) == Above(a, line) + Above(b, line)
  {
    if b == [] {
      assert a + b == a;
    } else {
      AboveAppend(a, Front(b), line);
      SnocSplit(a, b);
      Assoc(Above(a, line), Above(Front(b), line), if Last(b).line > line then [Last(b)] else []);
    }
  }

  lemma {:induction false} AboveAll(fs: seq<Failure>, line: int)
    ensures (forall i :: 0 <= i < |fs| ==> fs[i].line > line) <==> Above(fs, line) == fs
    ensures |Above(fs, line)| <= |fs|
  {
    if fs != [] {
      AboveAll(Front(fs), line);
      assert fs == Front(fs) + [Last(fs)];
    }
  }

  lemma {:induction false} AboveNone(fs: seq<Failure>, line: int)
    requires forall i :: 0 <= i < |fs| ==> fs[i].line <= line
    ensures Above(fs, line) == []
  {
    if fs != [] {
      AboveNone(Front(fs), line);
    }
  }

  ghost predicate OwnLines(rs: seq<Record>) {
    forall i :: 0 <= i < |rs| ==> rs[i].Good? ==> rs[i].event.line == rs[i].line
  }

  /** Every failure of a run carries the line of one of its rows. */
  lemma {:induction false} FailureLines(filter: string, t: Trackers, rs: seq<Record>, lo: int, hi: int)
    requires OwnLines(rs) && forall i :: 0 <= i < |rs| ==> lo < rs[i].line <= hi
    ensures forall i :: 0 <= i < |EmitAll(filter, t, rs)| ==> lo < EmitAll(filter, t, rs)[i].line <= hi
  {
    if rs != [] {
      FailureLines(filter, t, Front(rs), lo, hi);
      EmitAllLast(filter, t, rs);
      RowLines(filter, AdvanceAll(filter, t, Front(rs)), Last(rs));
    }
  }

  lemma RowLines(filter: string, t: Trackers, rec: Record)
    requires rec.Good? ==> rec.event.line == rec.line
    ensures forall i :: 0 <= i < |Emit(filter, t, rec)| ==> Emit(filter, t, rec)[i].line == rec.line
  {
  }

  function FullRun(cfg: Config): seq<Failure> {
    EmitAll(cfg.filter, NO_TRACKERS, cfg.file)
  }

  lemma AboveSplit(head: seq<Failure>, tail: seq<Failure>, line: int)
    requires forall i :: 0 <= i < |head| ==> head[i].line <= line
    requires forall i :: 0 <= i < |tail| ==> tail[i].line > line
    ensures Above(head + tail, line) == tail
  {
    AboveAppend(head, tail, line);
    AboveNone(head, line);
    AboveAll(tail, line);
    assert [] + tail == tail;
  }

  lemma ScanTail(cfg: Config, resume: int)
    requires ValidConfig(cfg) && 0 <= resume <= LastLine(cfg)
    ensures var k := RowsUpTo(cfg, resume);
            && Scan(cfg, resume, |cfg.file|).failures
              == EmitAll(cfg.filter, PrimeAll(cfg.filter, NO_TRACKERS, cfg.file[..k]), cfg.file[k..])
            && Scan(cfg, resume, |cfg.file|).events == CountSelected(cfg.filter, cfg.file[k..])
  {
    ScanResumes(cfg, resume, |cfg.file|);
    assert cfg.file[RowsUpTo(cfg, resume)..|cfg.file|] == cfg.file[RowsUpTo(cfg, resume)..];
  }

  ghost predicate LinesBetween(rs: seq<Record>, lo: int, hi: int) {
    OwnLines(rs) && forall i :: 0 <= i < |rs| ==> lo < rs[i].line <= hi
  }

  lemma ResumeByLine(filter: string, prefix: seq<Record>, suffix: seq<Record>, line: int, last: int)
    requires Primable(filter, prefix) && LinesBetween(prefix, -1, line) && LinesBetween(suffix, line, last)
    ensures Above(EmitAll(filter, NO_TRACKERS, prefix + suffix), line)
            == EmitAll(filter, PrimeAll(filter, NO_TRACKERS, prefix), suffix)
  {
    var primed := PrimeAll(filter, NO_TRACKERS, prefix);
    ResumeEquivalence(filter, prefix, suffix);
    FailureLines(filter, NO_TRACKERS, prefix, -1, line);
    FailureLines(filter, primed, suffix, line, last);
    AboveSplit(EmitAll(filter, NO_TRACKERS, prefix), EmitAll(filter, primed, suffix), line);
  }

  /** A resumed scan of the whole file reports the full run's failures above its resume line. */
  lemma FullRunSplits(cfg: Config, resume: int)
    requires ValidConfig(cfg) && 0 <= resume <= LastLine(cfg)
    requires Primable(cfg.filter, cfg.file[..RowsUpTo(cfg, resume)])
    ensures Scan(cfg, resume, |cfg.file|).failures == Above(FullRun(cfg), resume)
  {
    var k := RowsUpTo(cfg, resume);
    assert cfg.file[..k] + cfg.file[k..] == cfg.file;
    ScanTail(cfg, resume);
    HeadLines(cfg, resume, cfg.file[..k]);
    TailLines(cfg, resume, cfg.file[k..]);
    ResumeByLine(cfg.filter, cfg.file[..k], cfg.file[k..], resume, LastLine(cfg));
  }

  /** The metric and the manifest count the stored errors by type: malformed rows, gaps and, as the rest of the
      manifest's error count, ordering failures; each stored error is a failure of the scan from the resume
      line, and the events are those above that line. */
  ghost predicate CountsAgree(cfg: Config, c: Completion)
    requires 0 <= c.resume <= LastLine(cfg)
  {
    var fs := Scan(cfg, c.resume, |cfg.file|).failures;
    && c.metric.malformedEvents == c.manifest.malformedEvents == CountKind(Malformed, fs)
    && c.metric.sequenceGaps == c.manifest.sequenceGaps == CountKind(SequenceGap, fs)
    && c.manifest.errorCount == |c.errors| == c.metric.malformedEvents + c.metric.sequenceGaps + CountKind(Ordering, fs)
    && c.metric.malformedEvents == CountType("malformed", c.errors)
    && c.metric.sequenceGaps == CountType("sequence_gap", c.errors)
    && c.manifest.errorCount
      == c.metric.malformedEvents + c.metric.sequenceGaps + CountType("ordering", c.errors)
    && c.metric.events == CountSelected(cfg.filter, cfg.file[RowsUpTo(cfg, c.resume)..])
  }

  lemma CompletionCounts(cfg: Config, jobID: string, c: Completion)
    requires ValidConfig(cfg) && CompletionOk(cfg, jobID, c)
    ensures CountsAgree(cfg, c)
  {
    var fs := Scan(cfg, c.resume, |cfg.file|).failures;
    KindsAddUp(fs);
    StoredIffStamped(c.errors, fs, jobID, c.now);
    TypesCountKinds(c.errors, fs, jobID, c.now);
    ScanTail(cfg, c.resume);
  }

  /** COMPLETION IS EXACT. In every run, each stored completion reports the file's last line as metric rows,
      manifest rows, manifest checkpoint, final job checkpoint and row count of the file; its manifest counts
      one error per stored error and splits them by type into malformed rows, gaps and ordering failures; every
      stored error has line, symbol and message of its failure; and, when the rows up to its resume line are
      primable, these are exactly the full run's failures above that line. */
  lemma CompletionIsExact(cfg: Config, id: string, p: JobParams, rows: int, acts: seq<Action>, k: nat)
    requires ValidConfig(cfg)
    requires k < |Run(cfg, Submitted(id, p, rows), acts).completions|
    ensures var s := Run(cfg, Submitted(id, p, rows), acts);
            var c := s.completions[k];
            && |s.metrics| == |s.completions| && s.metrics[k] == c.metric && s.errors == AllErrors(s.completions)
            && c.metric.rows == c.manifest.inputRows == c.manifest.checkpointLine == s.job.checkpointLine
              == s.fileRows == LastLine(cfg) == (if cfg.file == [] then 0 else cfg.header + |cfg.file|)
            && c.manifest.resumeFromLine == c.resume && 0 <= c.resume <= LastLine(cfg)
            && CountsAgree(cfg, c)
            && StoresFailures(c.errors, Scan(cfg, c.resume, |cfg.file|).failures, id, c.now)
            && (Primable(cfg.filter, cfg.file[..RowsUpTo(cfg, c.resume)]) ==>
                  StoresFailures(c.errors, Above(FullRun(cfg), c.resume), id, c.now))
  {
    SubmittedOk(cfg, id, p, rows);
    RunKeepsReports(cfg, Submitted(id, p, rows), acts);
    RunKeepsId(cfg, Submitted(id, p, rows), acts);
    RunKeepsFileRows(cfg, Submitted(id, p, rows), acts);
    var s := Run(cfg, Submitted(id, p, rows), acts);
    var c := s.completions[k];
    assert CompletionOk(cfg, s.job.id, c);
    CompletionCounts(cfg, s.job.id, c);
    StoredIffStamped(c.errors, Scan(cfg, c.resume, |cfg.file|).failures, id, c.now);
    if Primable(cfg.filter, cfg.file[..RowsUpTo(cfg, c.resume)]) {
      FullRunSplits(cfg, c.resume);
    }
  }

  lemma {:induction false} RunKeepsId(cfg: Config, s: System, acts: seq<Action>)
    ensures Run(cfg, s, acts).job.id == s.job.id
    decreases |acts|
  {
    if acts != [] {
      RunKeepsId(cfg, Step(cfg, s, acts[0]), acts[1..]);
    }
  }

  /** Which failures a completion lacks. It stores the whole full-run report only if the full run finds nothing
      at or below the line it resumed from, and, when the rows up to that line are primable, if so. Failures
      before a checkpoint are not stored by a later attempt. */
  lemma NothingLostIff(cfg: Config, id: string, p: JobParams, rows: int, acts: seq<Action>, k: nat)
    requires ValidConfig(cfg) && k < |Run(cfg, Submitted(id, p, rows), acts).completions|
    ensures var c := Run(cfg, Submitted(id, p, rows), acts).completions[k];
            var whole := StoresFailures(c.errors, FullRun(cfg), id, c.now);
            var early := exists i :: 0 <= i < |FullRun(cfg)| && FullRun(cfg)[i].line <= c.resume;
            && 0 <= c.resume <= LastLine(cfg)
            && (Primable(cfg.filter, cfg.file[..RowsUpTo(cfg, c.resume)]) ==> (whole <==> !early))
            && (early ==> !whole)
  {
    CompletionStored(cfg, id, p, rows, acts, k);
    var c := Run(cfg, Submitted(id, p, rows), acts).completions[k];
    EarlyIsLost(cfg, c.errors, id, c.now, c.resume);
    if Primable(cfg.filter, cfg.file[..RowsUpTo(cfg, c.resume)]) {
      FullRunSplits(cfg, c.resume);
      AboveAll(FullRun(cfg), c.resume);
    }
  }

  /** Errors of a resumed scan are not those of a full run with a failure at or below the resume line. */
  lemma EarlyIsLost(cfg: Config, es: seq<ValidationError>, id: string, now: nat, resume: int)
    requires ValidConfig(cfg) && 0 <= resume <= LastLine(cfg)
    requires StoresFailures(es, Scan(cfg, resume, |cfg.file|).failures, id, now)
    ensures (exists i :: 0 <= i < |FullRun(cfg)| && FullRun(cfg)[i].line <= resume) ==>
              !StoresFailures(es, FullRun(cfg), id, now)
  {
    ErrorsAbove(cfg, resume);
    if StoresFailures(es, FullRun(cfg), id, now) {
      forall i | 0 <= i < |FullRun(cfg)| ensures FullRun(cfg)[i].line > resume {
        assert StoresFailure(es[i], FullRun(cfg)[i], id, now);
        assert StoresFailure(es[i], Scan(cfg, resume, |cfg.file|).failures[i], id, now);
      }
    }
  }

  lemma CompletionStored(cfg: Config, id: string, p: JobParams, rows: int, acts: seq<Action>, k: nat)
    requires ValidConfig(cfg) && k < |Run(cfg, Submitted(id, p, rows), acts).completions|
    ensures var c := Run(cfg, Submitted(id, p, rows), acts).completions[k];
            && 0 <= c.resume <= LastLine(cfg) && c.metric == MetricOf(LastLine(cfg), Scan(cfg, c.resume, |cfg.file|))
            && StoresFailures(c.errors, Scan(cfg, c.resume, |cfg.file|).failures, id, c.now)
  {
    SubmittedOk(cfg, id, p, rows);
    RunKeepsReports(cfg, Submitted(id, p, rows), acts);
    RunKeepsId(cfg, Submitted(id, p, rows), acts);
    var s := Run(cfg, Submitted(id, p, rows), acts);
    var c := s.completions[k];
    assert CompletionOk(cfg, s.job.id, c);
    StoredIffStamped(c.errors, Scan(cfg, c.resume, |cfg.file|).failures, id, c.now);
  }

  lemma HeadLines(cfg: Config, resume: int, head: seq<Record>)
    requires ValidConfig(cfg) && 0 <= resume <= LastLine(cfg) && head == cfg.file[..RowsUpTo(cfg, resume)]
    ensures OwnLines(head) && forall i :: 0 <= i < |head| ==> -1 < head[i].line <= resume
  {
    RowsUpToSplits(cfg, resume);
    forall i | 0 <= i < |head|
      ensures -1 < head[i].line <= resume && (head[i].Good? ==> head[i].event.line == head[i].line)
    {
      assert head[i] == cfg.file[i];
    }
  }

  lemma TailLines(cfg: Config, resume: int, tail: seq<Record>)
    requires ValidConfig(cfg) && 0 <= resume <= LastLine(cfg) && tail == cfg.file[RowsUpTo(cfg, resume)..]
    ensures OwnLines(tail) && forall i :: 0 <= i < |tail| ==> resume < tail[i].line <= LastLine(cfg)
  {
    RowsUpToSplits(cfg, resume);
    forall i | 0 <= i < |tail|
        ensures resume < tail[i].line <= LastLine(cfg) && (tail[i].Good? ==> tail[i].event.line == tail[i].line) {
      assert tail[i] == cfg.file[RowsUpTo(cfg, resume) + i];
    }
  }

  /** A resumed scan reports nothing at or below its resume line. */
  lemma ErrorsAbove(cfg: Config, resume: int)
    requires ValidConfig(cfg) && 0 <= resume <= LastLine(cfg)
    ensures forall i :: 0 <= i < |Scan(cfg, resume, |cfg.file|).failures| ==>
            Scan(cfg, resume, |cfg.file|).failures[i].line > resume
  {
    var k := RowsUpTo(cfg, resume);
    ScanTail(cfg, resume);
    TailLines(cfg, resume, cfg.file[k..]);
    FailureLines(cfg.filter, PrimeAll(cfg.filter, NO_TRACKERS, cfg.file[..k]), cfg.file[k..], resume, LastLine(cfg));
  }

  // ----- The row count of the file -----

  predicate PastStats(pc: Pc) {
    pc.SavingManifest? || pc.Completing?
  }

  /** Once statistics have been written on the way to a completion, the file's row count is its last line. */
  ghost predicate FileRowsOk(cfg: Config, s: System) {
    s.fileRows == LastLine(cfg)
    || (s.completions == [] && forall i :: 0 <= i < |s.attempts| ==> !PastStats(s.attempts[i].pc))
  }

  /** Only saving the statistics writes the row count, and nobody gets past that otherwise. */
  lemma OnlyStatsWriteRows(cfg: Config, s: System, i: nat, now: nat)
    requires i < |s.attempts| && s.attempts[i].pos <= |cfg.file| && cfg.every > 0
    ensures var t := WorkStep(cfg, s, i, now);
            && |t.attempts| == |s.attempts|
            && t.fileRows == (if s.attempts[i].pc.SavingStats? then RowsOf(cfg, s.attempts[i]) else s.fileRows)
            && (forall j :: 0 <= j < |s.attempts| && PastStats(t.attempts[j].pc) ==>
                  PastStats(s.attempts[j].pc) || (j == i && s.attempts[i].pc.SavingStats?))
            && (t.completions != s.completions ==> PastStats(s.attempts[i].pc))
  {
  }

  lemma StepKeepsFileRows(cfg: Config, s: System, act: Action)
    requires ValidConfig(cfg) && SystemOk(cfg, s) && FileRowsOk(cfg, s)
    ensures FileRowsOk(cfg, Step(cfg, s, act))
  {
    if act.Work? && act.i < |s.attempts| {
      assert AttemptOk(cfg, s.processed, s.job.checkpointLine, s.attempts[act.i]);
      OnlyStatsWriteRows(cfg, s, act.i, act.now);
      if s.attempts[act.i].pc.SavingStats? {
        RowsAreLastLine(cfg, s.attempts[act.i]);
      }
    }
  }

  lemma {:induction false} RunKeepsFileRows(cfg: Config, s: System, acts: seq<Action>)
    requires ValidConfig(cfg) && SystemOk(cfg, s) && FileRowsOk(cfg, s)
    ensures FileRowsOk(cfg, Run(cfg, s, acts))
    decreases |acts|
  {
    if acts != [] {
      StepKeepsOk(cfg, s, acts[0]);
      StepKeepsFileRows(cfg, s, acts[0]);
      RunKeepsFileRows(cfg, Step(cfg, s, acts[0]), acts[1..]);
    }
  }

  // ----- The manifest in the job row -----

  /** `m` describes a scan of the whole file resumed somewhere in it. */
  ghost predicate DescribesScan(cfg: Config, m: Manifest) {
    exists resume :: 0 <= resume <= LastLine(cfg)
        && m == ManifestOf(LastLine(cfg), resume, Scan(cfg, resume, |cfg.file|))
  }

  ghost predicate ManifestOk(cfg: Config, s: System) {
    && (s.completions != [] ==> DescribesScan(cfg, s.job.manifest))
    && (forall i :: 0 <= i < |s.attempts| && s.attempts[i].pc.Completing? ==> DescribesScan(cfg, s.job.manifest))
  }

  lemma OnlySavingChangesManifest(cfg: Config, s: System, i: nat, now: nat)
    requires i < |s.attempts| && s.attempts[i].pos <= |cfg.file| && cfg.every > 0 && !s.attempts[i].pc.SavingManifest?
    ensures var t := WorkStep(cfg, s, i, now);
            && t.job.manifest == s.job.manifest && |t.attempts| == |s.attempts|
            && (forall j :: 0 <= j < |s.attempts| && t.attempts[j].pc.Completing? ==> s.attempts[j].pc.Completing?)
            && (t.completions != s.completions ==> s.attempts[i].pc.Completing?)
  {
  }

  lemma SavedManifest(cfg: Config, a: Attempt)
    requires ValidConfig(cfg) && a.pos == |cfg.file| && a.seen.rows <= a.pos && 0 <= a.resume <= LastLine(cfg)
    requires a.seen == Scan(cfg, a.resume, a.pos)
    ensures DescribesScan(cfg, ManifestOf(RowsOf(cfg, a), a.resume, a.seen))
  {
    RowsAreLastLine(cfg, a);
  }

  lemma SavingWrites(cfg: Config, s: System, i: nat, now: nat)
    requires i < |s.attempts| && s.attempts[i].pos <= |cfg.file| && cfg.every > 0 && s.attempts[i].pc.SavingManifest?
    ensures var a := s.attempts[i];
            WorkStep(cfg, s, i, now).job.manifest == ManifestOf(RowsOf(cfg, a), a.resume, a.seen)
  {
  }

  lemma DescribedIsOk(cfg: Config, s: System)
    requires DescribesScan(cfg, s.job.manifest)
    ensures ManifestOk(cfg, s)
  {
  }

  lemma SavingInFile(cfg: Config, s: System, i: nat)
    requires SystemOk(cfg, s) && ReportsOk(cfg, s) && i < |s.attempts| && s.attempts[i].pc.SavingManifest?
    ensures var a := s.attempts[i];
            && a.pos == |cfg.file| && a.seen.rows <= a.pos && 0 <= a.resume <= LastLine(cfg)
            && a.seen == Scan(cfg, a.resume, a.pos)
  {
    assert AttemptOk(cfg, s.processed, s.job.checkpointLine, s.attempts[i]) && SeenOk(cfg, s.attempts[i]);
  }

  lemma SavingKeepsManifest(cfg: Config, s: System, i: nat, now: nat)
    requires ValidConfig(cfg) && SystemOk(cfg, s) && ReportsOk(cfg, s) && i < |s.attempts|
    requires s.attempts[i].pc.SavingManifest?
    ensures s.attempts[i].pos <= |cfg.file| && ManifestOk(cfg, WorkStep(cfg, s, i, now))
  {
    SavingInFile(cfg, s, i);
    SavedManifest(cfg, s.attempts[i]);
    SavingWrites(cfg, s, i, now);
    DescribedIsOk(cfg, WorkStep(cfg, s, i, now));
  }

  lemma WorkKeepsManifest(cfg: Config, s: System, i: nat, now: nat)
    requires i < |s.attempts| && s.attempts[i].pos <= |cfg.file| && cfg.every > 0 && !s.attempts[i].pc.SavingManifest?
    requires ManifestOk(cfg, s)
    ensures ManifestOk(cfg, WorkStep(cfg, s, i, now))
  {
    OnlySavingChangesManifest(cfg, s, i, now);
  }

  lemma OtherKeepsManifest(cfg: Config, s: System, act: Action)
    requires !act.Work? && ManifestOk(cfg, s)
    ensures ManifestOk(cfg, Step(cfg, s, act))
  {
  }

  lemma StepKeepsManifest(cfg: Config, s: System, act: Action)
    requires ValidConfig(cfg) && SystemOk(cfg, s) && ReportsOk(cfg, s) && ManifestOk(cfg, s)
    ensures ManifestOk(cfg, Step(cfg, s, act))
  {
    if !act.Work? {
      OtherKeepsManifest(cfg, s, act);
    } else if act.i < |s.attempts| {
      assert AttemptOk(cfg, s.processed, s.job.checkpointLine, s.attempts[act.i]);
      if s.attempts[act.i].pc.SavingManifest? {
        SavingKeepsManifest(cfg, s, act.i, act.now);
      } else {
        WorkKeepsManifest(cfg, s, act.i, act.now);
      }
    }
  }

  lemma {:induction false} RunKeepsManifest(cfg: Config, s: System, acts: seq<Action>)
    requires ValidConfig(cfg) && SystemOk(cfg, s) && ReportsOk(cfg, s) && ManifestOk(cfg, s)
    ensures ManifestOk(cfg, Run(cfg, s, acts))
    decreases |acts|
  {
    if acts != [] {
      StepKeepsOk(cfg, s, acts[0]);
      StepKeepsReports(cfg, s, acts[0]);
      StepKeepsManifest(cfg, s, acts[0]);
      RunKeepsManifest(cfg, Step(cfg, s, acts[0]), acts[1..]);
    }
  }

  /** Whatever overlaps, the manifest in the row of a job that has been completed describes a scan of the
      whole file resumed at some line of it. */
  lemma FinalManifest(cfg: Config, id: string, p: JobParams, rows: int, acts: seq<Action>)
    requires ValidConfig(cfg) && Run(cfg, Submitted(id, p, rows), acts).completions != []
    ensures DescribesScan(cfg, Run(cfg, Submitted(id, p, rows), acts).job.manifest)
  {
    SubmittedOk(cfg, id, p, rows);
    RunKeepsManifest(cfg, Submitted(id, p, rows), acts);
  }
}
