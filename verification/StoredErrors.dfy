/** The errors the handler stores are the plain ones that the reports ask for. */
module StoredErrors {
  import opened Events
  import opened SequenceValidator
  import opened Store
  import opened ReplayProtocol
  import opened NoLineSkipped
  import opened Completions
  import Summaries
  import Reports
  import Deliveries

  lemma StoredArePlain(es: seq<ValidationError>, fs: seq<Failure>, id: string, now: nat)
    requires StoresFailures(es, fs, id, now) && forall i :: 0 <= i < |fs| ==> fs[i].line >= 0
    ensures Reports.AllPlain(es)
  {
    forall i | 0 <= i < |es| ensures Reports.Plain(es[i]) {
      assert StoresFailure(es[i], fs[i], id, now);
    }
  }

  /** In every run, the errors of every completion are plain: no NUL in a type, no negative line. */
  lemma CompletionErrorsPlain(cfg: Config, id: string, p: JobParams, rows: int, acts: seq<Action>, k: nat)
    requires ValidConfig(cfg) && k < |Run(cfg, Submitted(id, p, rows), acts).completions|
    ensures Reports.AllPlain(Run(cfg, Submitted(id, p, rows), acts).completions[k].errors)
  {
    CompletionStored(cfg, id, p, rows, acts, k);
    var c := Run(cfg, Submitted(id, p, rows), acts).completions[k];
    ErrorsAbove(cfg, c.resume);
    StoredArePlain(c.errors, Scan(cfg, c.resume, |cfg.file|).failures, id, c.now);
  }

  /** And so are the errors that the code leaves in the store for a job it was given fresh. */
  lemma StoredErrorsPlain(r: Repo, t: Repo, cfg: Config, id: string, p: JobParams, acts: seq<Action>)
    requires ValidConfig(cfg) && Deliveries.Fresh(r, id, p) && Deliveries.Followed(r, t, cfg, id, acts)
    ensures Reports.AllPlain(At(t.errors, id))
  {
    Deliveries.StoredIsExact(r, t, cfg, id, p, acts);
    if At(t.metrics, id) != [] {
      var resume: int, now: nat :| Deliveries.StoredFrom(t, cfg, id, resume, now);
      ErrorsAbove(cfg, resume);
      StoredArePlain(At(t.errors, id), Scan(cfg, resume, |cfg.file|).failures, id, now);
    }
  }
}
