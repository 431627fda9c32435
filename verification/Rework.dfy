/** How much work a crash can undo: an attempt is never more than one checkpoint interval ahead. */
module Rework {
  import opened Events
  import opened SequenceValidator
  import opened Store
  import opened ReplayProtocol
  import opened NoLineSkipped
  import opened Arithmetic

  /** The last line that need not be read again: the checkpoint, or the header before the first one. */
  function Saved(cfg: Config, checkpoint: int): int {
    if checkpoint > cfg.header then checkpoint else cfg.header
  }

  /** The last checkpoint line at or below `line`. */
  function Floor(line: int, every: nat): int
    requires every > 0
  {
    line - line % every
  }

  predicate InScan(pc: Pc) {
    pc.Scanning? || pc.Checkpointing? || pc.CheckingCancel? || pc.FinalCheckpointing?
  }

  /** Every checkpoint line the attempt has passed is saved, except the one it is about to save. */
  ghost predicate Near(cfg: Config, checkpoint: int, a: Attempt)
    requires cfg.every > 0
  {
    InScan(a.pc) ==>
      && a.pos <= |cfg.file| && (a.pc.Checkpointing? ==> a.pos > 0)
      && var line := if a.pc.Checkpointing? then LineAt(cfg, a.pos) - 1 else LineAt(cfg, a.pos);
         Floor(line, cfg.every) <= Saved(cfg, checkpoint)
  }

  ghost predicate AllNear(cfg: Config, s: System)
    requires cfg.every > 0
  {
    forall i :: 0 <= i < |s.attempts| ==> Near(cfg, s.job.checkpointLine, s.attempts[i])
  }

  lemma FloorNext(line: int, every: nat)
    requires every > 0 && line >= 0 && (line + 1) % every != 0
    ensures Floor(line + 1, every) == Floor(line, every)
  {
    NextMod(line, every);
  }

  lemma FloorBelow(line: int, every: nat)
    requires every > 0
    ensures line - every < Floor(line, every) <= line
  {
  }

  lemma NextLine(cfg: Config, pos: nat)
    requires ValidConfig(cfg) && pos < |cfg.file|
    ensures LineAt(cfg, pos + 1) == cfg.file[pos].line == cfg.header + pos + 1
    ensures pos > 0 ==> LineAt(cfg, pos) == cfg.header + pos
  {
  }

  /** Reading the next row keeps the attempt near the checkpoint. */
  lemma ReadStaysNear(cfg: Config, s: System, i: nat)
    requires ValidConfig(cfg) && i < |s.attempts| && s.attempts[i].pc.Scanning? && s.attempts[i].pos < |cfg.file|
    requires Near(cfg, s.job.checkpointLine, s.attempts[i]) && s.attempts[i].resume <= s.job.checkpointLine
    ensures Near(cfg, s.job.checkpointLine, ReadRow(cfg, s, i).attempts[i])
  {
    var a, b := s.attempts[i], ReadRow(cfg, s, i).attempts[i];
    var line := cfg.file[a.pos].line;
    NextLine(cfg, a.pos);
    FloorBelow(line, cfg.every);
    FloorBelow(line - 1, cfg.every);
    assert b.pos == a.pos + 1;
    if line > a.resume && line % cfg.every != 0 {
      FloorNext(line - 1, cfg.every);
    }
  }

  /** The other steps: nobody is moved on, and a checkpoint is written where one is due. */
  lemma WorkStaysNear(cfg: Config, s: System, i: nat, now: nat)
    requires ValidConfig(cfg) && i < |s.attempts| && s.attempts[i].pos <= |cfg.file|
    requires Near(cfg, s.job.checkpointLine, s.attempts[i])
    requires !(s.attempts[i].pc.Scanning? && s.attempts[i].pos < |cfg.file|)
    ensures var t := WorkStep(cfg, s, i, now);
            i < |t.attempts| && Near(cfg, t.job.checkpointLine, t.attempts[i])
  {
    var a := s.attempts[i];
    FloorBelow(LineAt(cfg, a.pos), cfg.every);
  }

  lemma OthersStayNear(cfg: Config, s: System, t: System, i: nat)
    requires cfg.every > 0 && AllNear(cfg, s) && i < |s.attempts| == |t.attempts|
    requires s.job.checkpointLine <= t.job.checkpointLine
    requires forall j :: 0 <= j < |s.attempts| && j != i ==> t.attempts[j] == s.attempts[j]
    requires Near(cfg, t.job.checkpointLine, t.attempts[i])
    ensures AllNear(cfg, t)
  {
    forall j | 0 <= j < |t.attempts| ensures Near(cfg, t.job.checkpointLine, t.attempts[j]) {
      if j != i {
        assert Near(cfg, s.job.checkpointLine, s.attempts[j]);
      }
    }
  }

  lemma WorkLeavesOthers(cfg: Config, s: System, i: nat, now: nat)
    requires i < |s.attempts| && s.attempts[i].pos <= |cfg.file| && cfg.every > 0
    ensures var t := WorkStep(cfg, s, i, now);
            && |t.attempts| == |s.attempts|
            && (forall j :: 0 <= j < |s.attempts| && j != i ==> t.attempts[j] == s.attempts[j])
  {
  }

  lemma OtherActsStayNear(cfg: Config, s: System, act: Action)
    requires ValidConfig(cfg) && AllNear(cfg, s) && !act.Work?
    ensures AllNear(cfg, Step(cfg, s, act))
  {
    var t := Step(cfg, s, act);
    forall j | 0 <= j < |t.attempts| ensures Near(cfg, t.job.checkpointLine, t.attempts[j]) {
      if j < |s.attempts| {
        assert Near(cfg, s.job.checkpointLine, s.attempts[j]);
      }
    }
  }

  lemma StepStaysNear(cfg: Config, s: System, act: Action)
    requires ValidConfig(cfg) && SystemOk(cfg, s) && AllNear(cfg, s)
    ensures AllNear(cfg, Step(cfg, s, act))
  {
    if !act.Work? {
      OtherActsStayNear(cfg, s, act);
    } else if act.i < |s.attempts| {
      var i, a := act.i, s.attempts[act.i];
      assert AttemptOk(cfg, s.processed, s.job.checkpointLine, a) && Near(cfg, s.job.checkpointLine, a);
      WorkLeavesOthers(cfg, s, i, act.now);
      StepMovesForward(cfg, s, act);
      if a.pc.Scanning? && a.pos < |cfg.file| {
        ReadStaysNear(cfg, s, i);
      } else {
        WorkStaysNear(cfg, s, i, act.now);
      }
      OthersStayNear(cfg, s, WorkStep(cfg, s, i, act.now), i);
    }
  }

  lemma {:induction false} RunStaysNear(cfg: Config, s: System, acts: seq<Action>)
    requires ValidConfig(cfg) && SystemOk(cfg, s) && AllNear(cfg, s)
    ensures AllNear(cfg, Run(cfg, s, acts))
    decreases |acts|
  {
    if acts != [] {
      StepKeepsOk(cfg, s, acts[0]);
      StepStaysNear(cfg, s, acts[0]);
      RunStaysNear(cfg, Step(cfg, s, acts[0]), acts[1..]);
    }
  }

  /** BOUNDED REWORK. In every run, an attempt inside the file is fewer than `every` rows past the stored
      checkpoint, or exactly that many when it is about to write the next one: whatever stops it, no more rows
      than that are read again. */
  lemma ReworkIsBounded(cfg: Config, id: string, p: JobParams, rows: int, acts: seq<Action>, i: nat)
    requires ValidConfig(cfg) && i < |Run(cfg, Submitted(id, p, rows), acts).attempts|
    ensures var s := Run(cfg, Submitted(id, p, rows), acts);
            var a := s.attempts[i];
            InScan(a.pc) ==>
              && a.pos <= |cfg.file|
              && LineAt(cfg, a.pos) - Saved(cfg, s.job.checkpointLine) <= cfg.every
              && (!a.pc.Checkpointing? ==> LineAt(cfg, a.pos) - Saved(cfg, s.job.checkpointLine) < cfg.every)
  {
    SubmittedOk(cfg, id, p, rows);
    RunStaysNear(cfg, Submitted(id, p, rows), acts);
    var s := Run(cfg, Submitted(id, p, rows), acts);
    var a := s.attempts[i];
    assert Near(cfg, s.job.checkpointLine, a);
    if InScan(a.pc) {
      FloorBelow(LineAt(cfg, a.pos), cfg.every);
      FloorBelow(LineAt(cfg, a.pos) - 1, cfg.every);
    }
  }
}
