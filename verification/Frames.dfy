/** What handling one job leaves alone in the store. */
module Frames {
  import opened Store

  /** Nothing filed under `x` differs, except the rows of job `id` and the statistics of its file. */
  predicate KeptAt(r: Repo, t: Repo, id: string, fileID: string, x: string) {
    && (x in r.jobs <==> x in t.jobs) && (x in r.files <==> x in t.files)
    && (x != id ==>
          && (x in r.jobs ==> t.jobs[x] == r.jobs[x])
          && At(t.metrics, x) == At(r.metrics, x) && At(t.errors, x) == At(r.errors, x))
    && (x != fileID && x in r.files ==> t.files[x] == r.files[x])
  }

  /** Only job `id`, its metrics and errors, and its file's statistics differ between `r` and `t`. */
  ghost predicate Framed(r: Repo, t: Repo, id: string) {
    && id in r.jobs && id in t.jobs && t.jobs[id].eventFileID == r.jobs[id].eventFileID
    && t.keys == r.keys && t.datasets == r.datasets
    && forall x {:trigger KeptAt(r, t, id, r.jobs[id].eventFileID, x)} :: KeptAt(r, t, id, r.jobs[id].eventFileID, x)
  }

  lemma FramedRefl(r: Repo, id: string)
    requires id in r.jobs
    ensures Framed(r, r, id)
  {
  }

  lemma FramedTrans(r: Repo, s: Repo, t: Repo, id: string)
    requires Framed(r, s, id) && Framed(s, t, id)
    ensures Framed(r, t, id)
  {
    var f := r.jobs[id].eventFileID;
    forall x {:trigger KeptAt(r, t, id, f, x)} ensures KeptAt(r, t, id, f, x) {
      assert KeptAt(r, s, id, f, x) && KeptAt(s, t, id, f, x);
    }
  }

  /** An operation of the handler on job `id`: on its own row, or on the statistics of its file. */
  predicate OwnOp(r: Repo, op: Op, id: string)
    requires id in r.jobs
  {
    match op
    case UpdateStatus(j, _, _) => j == id
    case UpdateCheckpoint(j, _) => j == id
    case UpdateManifest(j, _) => j == id
    case CompleteJob(j, _, _, _) => j == id
    case UpdateFileStats(f, _, _, _) => f == r.jobs[id].eventFileID
    case _ => false
  }

  /** An update of one job changes the jobs alone, statistics the files alone. */
  lemma ApplyLeaves(r: Repo, op: Op)
    requires op.UpdateStatus? || op.UpdateCheckpoint? || op.UpdateManifest? || op.UpdateFileStats?
    ensures op.UpdateFileStats? ==> Apply(r, op) == r.(files := Apply(r, op).files)
    ensures !op.UpdateFileStats? ==> Apply(r, op) == r.(jobs := Apply(r, op).jobs)
  {
  }

  lemma ApplyFrames(r: Repo, op: Op, id: string)
    requires id in r.jobs && OwnOp(r, op, id)
    ensures Framed(r, Apply(r, op), id)
  {
    var t, f := Apply(r, op), r.jobs[id].eventFileID;
    forall x {:trigger KeptAt(r, t, id, f, x)} ensures KeptAt(r, t, id, f, x) {
      ApplyKeepsAt(r, op, id, x);
    }
  }

  lemma ApplyKeepsAt(r: Repo, op: Op, id: string, x: string)
    requires id in r.jobs && OwnOp(r, op, id)
    ensures KeptAt(r, Apply(r, op), id, r.jobs[id].eventFileID, x)
  {
  }
}
