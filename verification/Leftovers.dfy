/** What failed uploads answer and leave in the directory, told by the call that failed. */
module Leftovers {
  import opened Records
  import opened UploadContract
  import opened Interleaving
  import opened InterleavedRuns

  /** The failures after which an upload ends without cleaning up: a fault while creating its files, a
      fault while removing them in an abort, a fault in `finalize` over gRPC, and over REST a body that
      cannot be read on. */
  predicate GivesUp(u: Upload, c: Choice) {
    match u.stage
    case CreateData | CreateMeta | AbortData(_) | AbortMeta(_) => c.fault
    case FinalizeRead | FinalizeOpen(_) | FinalizeRehash(_, _, _) | FinalizeStat(_, _) | FinalizeWrite(_, _, _) =>
      c.fault && u.front.Grpc?
    case AwaitMessage => u.front.Rest? && u.next < |u.messages| && u.messages[u.next].Broken?
    case _ => false
  }

  /** Whether its data file is there when it gives up at this stage. */
  predicate LeavesData(stage: Stage) { !stage.CreateData? && !stage.AbortMeta? }

  predicate LeavesRecord(stage: Stage) { !stage.CreateData? && !stage.CreateMeta? }

  lemma CreateGivesUp(cfg: Config, id: Id, s: Slot, u: Upload, c: Choice)
    requires UploadOk(cfg, id, s, u) && (InCreate(u) || InAbort(u))
    ensures UploadNext(cfg, id, s, u, c).1.litter <==> u.litter || GivesUp(u, c)
  {
  }

  lemma BodyGivesUp(cfg: Config, id: Id, s: Slot, u: Upload, c: Choice)
    requires UploadOk(cfg, id, s, u) && InBody(u)
    ensures UploadNext(cfg, id, s, u, c).1.litter <==> u.litter || GivesUp(u, c)
  {
  }

  lemma FinalizeGivesUp(cfg: Config, id: Id, s: Slot, u: Upload, c: Choice)
    requires UploadOk(cfg, id, s, u) && InFinalize(u)
    ensures UploadNext(cfg, id, s, u, c).1.litter <==> u.litter || GivesUp(u, c)
  {
  }

  /** No other step of an upload makes it leave anything. */
  lemma StepGivesUp(cfg: Config, id: Id, s: Slot, u: Upload, c: Choice)
    requires UploadOk(cfg, id, s, u)
    ensures UploadNext(cfg, id, s, u, c).1.litter <==> u.litter || GivesUp(u, c)
  {
    if InBody(u) {
      BodyGivesUp(cfg, id, s, u, c);
    } else if InFinalize(u) {
      FinalizeGivesUp(cfg, id, s, u, c);
    } else if InCreate(u) || InAbort(u) {
      CreateGivesUp(cfg, id, s, u, c);
    }
  }

  /** The step itself: the upload has failed, and these entries of it are there. */
  lemma GivingUpLeaves(cfg: Config, id: Id, s: Slot, u: Upload, c: Choice)
    requires UploadOk(cfg, id, s, u) && GivesUp(u, c)
    ensures var (s', u') := UploadNext(cfg, id, s, u, c);
            && u'.stage.Finished? && u'.stage.result.Err?
            && s'.linked == LeavesData(u.stage) && s'.meta.Some? == LeavesRecord(u.stage)
  {
  }

  // ----- Over runs -----

  /** In step `j` of the run the upload gave up. */
  predicate GaveUp(h: History, j: nat, id: Id) {
    && j < |h.steps| && j < |h.states|
    && h.steps[j].Act? && h.steps[j].id == id && id in h.states[j].uploads
    && GivesUp(h.states[j].uploads[id], h.steps[j].c)
  }

  ghost predicate GaveUpBefore(h: History, i: nat, id: Id) {
    exists j: nat :: j < i && GaveUp(h, j, id)
  }

  /** Steps of others change neither the upload's mark nor, once it is over, its entries. */
  lemma OthersKeepMark(cfg: Config, w: World, step: Step, id: Id)
    requires !(step.Act? && step.id == id)
    ensures var t := Next(cfg, w, step);
            && (id in w.uploads ==> id in t.uploads && t.uploads[id].litter == w.uploads[id].litter)
            && (id !in w.uploads && id in t.uploads ==> !t.uploads[id].litter)
  {
  }

  lemma OwnStepMarks(cfg: Config, w: World, id: Id, c: Choice)
    requires Inv(cfg, w) && id in w.uploads
    ensures var t := Next(cfg, w, Act(id, c));
            id in t.uploads && (t.uploads[id].litter <==> w.uploads[id].litter || GivesUp(w.uploads[id], c))
  {
    assert CellOk(cfg, w, id);
    StepGivesUp(cfg, id, SlotOf(w, id), w.uploads[id], c);
  }

  /** An upload ends without cleaning up exactly when one of those calls failed. */
  lemma {:induction false} LitterIff(cfg: Config, h: History, i: nat, id: Id)
    requires Happens(cfg, h) && i < |h.states|
    ensures id in h.states[i].uploads ==> (h.states[i].uploads[id].litter <==> GaveUpBefore(h, i, id))
    ensures id !in h.states[i].uploads ==> !GaveUpBefore(h, i, id)
    decreases i
  {
    if i > 0 {
      var w, step := h.states[i - 1], h.steps[i - 1];
      LitterIff(cfg, h, i - 1, id);
      RunKeepsInv(cfg, h, i - 1);
      assert Follows(cfg, h, i - 1);
      assert GaveUpBefore(h, i, id) <==> GaveUpBefore(h, i - 1, id) || GaveUp(h, i - 1, id);
      if step.Act? && step.id == id {
        if id in w.uploads {
          OwnStepMarks(cfg, w, id, step.c);
        }
      } else {
        OthersKeepMark(cfg, w, step, id);
      }
    }
  }

  /** A failed upload, with these entries of it in the directory. */
  predicate Abandoned(w: World, id: Id, data: bool, record: bool) {
    && id in w.uploads && w.uploads[id].stage.Finished? && w.uploads[id].stage.result.Err?
    && (id in w.linked <==> data) && (id in w.metas <==> record)
  }

  lemma AbandonedByAct(cfg: Config, w: World, step: Step, id: Id, data: bool, record: bool)
    requires Abandoned(w, id, data, record) && step.Act? && Enabled(cfg, w, step)
    ensures Abandoned(Next(cfg, w, step), id, data, record)
  {
    var me := step.id;
    var (s, u) := UploadNext(cfg, me, SlotOf(w, me), w.uploads[me], step.c);
    if me == id {
      OverStays(cfg, id, SlotOf(w, id), w.uploads[id], step.c);
    }
    SlotAfterPut(w, me, s, id);
    var t := Next(cfg, w, step);
    assert SlotOf(PutSlot(w, me, s), id).linked == SlotOf(t, id).linked == (id in t.linked);
    assert SlotOf(PutSlot(w, me, s), id).meta.Some? == SlotOf(t, id).meta.Some? == (id in t.metas);
    assert SlotOf(w, id).linked == (id in w.linked) && SlotOf(w, id).meta.Some? == (id in w.metas);
  }

  lemma AbandonedStays(cfg: Config, w: World, step: Step, id: Id, data: bool, record: bool)
    requires Inv(cfg, w) && Abandoned(w, id, data, record)
    ensures Abandoned(Next(cfg, w, step), id, data, record)
  {
    if step.Act? && Enabled(cfg, w, step) {
      AbandonedByAct(cfg, w, step, id, data, record);
    } else if step.ActDelete? && step.k in w.deletes {
      assert DeleteOk(w, step.k) && DisclosedOk(w, w.deletes[step.k].id);
      assert w.deletes[step.k].id != id;
    }
  }

  /** What such an upload has left stays: its data file unless `create` could not make it or the abort
      had already removed it, its record unless `create` had not yet written it. */
  lemma {:induction false} LeftoversStay(cfg: Config, h: History, j: nat, i: nat, id: Id)
    requires Happens(cfg, h) && j < i < |h.states| && GaveUp(h, j, id)
    ensures var stage := h.states[j].uploads[id].stage;
            Abandoned(h.states[i], id, LeavesData(stage), LeavesRecord(stage))
    decreases i
  {
    var w, u := h.states[j], h.states[j].uploads[id];
    assert Follows(cfg, h, i - 1);
    RunKeepsInv(cfg, h, i - 1);
    if i == j + 1 {
      assert CellOk(cfg, w, id);
      GivingUpLeaves(cfg, id, SlotOf(w, id), u, h.steps[j].c);
    } else {
      LeftoversStay(cfg, h, j, i - 1, id);
      AbandonedStays(cfg, h.states[i - 1], h.steps[i - 1], id, LeavesData(u.stage), LeavesRecord(u.stage));
    }
  }

  // ----- What they answer -----

  /** The answer that a fault in the call at this stage leads to. Looking for a record and reading one
      do not tell a fault from a record that is missing. */
  function FaultAnswer(id: Id, stage: Stage): Failure {
    if stage.AppendExists? || stage.FinalizeRead? then Storage(NotFound(id)) else Storage(Io)
  }

  /** The failure an upload is going to answer, or has answered. */
  function Verdict(u: Upload): Option<Failure> {
    match u.stage
    case AbortHasher(why) => Some(why)
    case AbortData(why) => Some(why)
    case AbortMeta(why) => Some(why)
    case Finished(r) => if r.Err? then Some(r.error) else None
    case _ => None
  }

  lemma VerdictStays(cfg: Config, id: Id, s: Slot, u: Upload, c: Choice)
    requires Verdict(u).Some?
    ensures Verdict(UploadNext(cfg, id, s, u, c).1) == Verdict(u)
  {
  }

  lemma AppendFaults(cfg: Config, id: Id, s: Slot, u: Upload, c: Choice)
    requires InBody(u) && !u.faulted && AppendNext(cfg, id, s, u, c).1.faulted
    ensures Verdict(AppendNext(cfg, id, s, u, c).1) == Some(FaultAnswer(id, u.stage))
  {
  }

  lemma FinalizeFaults(cfg: Config, id: Id, s: Slot, u: Upload, c: Choice)
    requires InFinalize(u) && !u.faulted && FinalizeNext(cfg, id, s, u, c).1.faulted
    ensures Verdict(FinalizeNext(cfg, id, s, u, c).1) == Some(FaultAnswer(id, u.stage))
  {
  }

  lemma StepFaults(cfg: Config, id: Id, s: Slot, u: Upload, c: Choice)
    requires !u.faulted && UploadNext(cfg, id, s, u, c).1.faulted
    ensures Verdict(UploadNext(cfg, id, s, u, c).1) == if InAbort(u) then Verdict(u) else Some(FaultAnswer(id, u.stage))
  {
    Dispatch(cfg, id, s, u, c);
    if InBody(u) {
      AppendFaults(cfg, id, s, u, c);
    } else if InFinalize(u) {
      FinalizeFaults(cfg, id, s, u, c);
    }
  }

  /** In step `j` of the run a call of the upload failed, for the first time. */
  predicate FirstFault(h: History, j: nat, id: Id) {
    && j + 1 < |h.states| && j < |h.steps| && h.steps[j].Act? && h.steps[j].id == id
    && id in h.states[j].uploads && !h.states[j].uploads[id].faulted
    && id in h.states[j + 1].uploads && h.states[j + 1].uploads[id].faulted
  }

  predicate Decided(w: World, id: Id, why: Failure) {
    id in w.uploads && (w.uploads[id].stage.Stopped? || Verdict(w.uploads[id]) == Some(why))
  }

  lemma DecidedStays(cfg: Config, w: World, step: Step, id: Id, why: Failure)
    requires Decided(w, id, why)
    ensures Decided(Next(cfg, w, step), id, why)
  {
    if step.Act? && step.id == id {
      if w.uploads[id].stage.Stopped? {
        OverStays(cfg, id, SlotOf(w, id), w.uploads[id], step.c);
      } else {
        VerdictStays(cfg, id, SlotOf(w, id), w.uploads[id], step.c);
      }
    }
  }

  /** The failure of an upload that a fault has hit: if it was already cleaning up, that which its
      messages call for, and otherwise that of the call that failed. */
  function DueAnswer(cfg: Config, id: Id, u: Upload): Failure {
    var due := Outcome(cfg, id, u.messages);
    if InAbort(u) && due.Err? then due.error else FaultAnswer(id, u.stage)
  }

  lemma UploadFaultDecides(cfg: Config, id: Id, s: Slot, u: Upload, c: Choice)
    requires UploadOk(cfg, id, s, u) && !u.faulted && UploadNext(cfg, id, s, u, c).1.faulted
    ensures Verdict(UploadNext(cfg, id, s, u, c).1) == Some(DueAnswer(cfg, id, u))
  {
    StepFaults(cfg, id, s, u, c);
  }

  lemma FaultDecides(cfg: Config, w: World, id: Id, c: Choice)
    requires CellOk(cfg, w, id) && id in w.uploads && !w.uploads[id].faulted
    requires var t := Next(cfg, w, Act(id, c)); id in t.uploads && t.uploads[id].faulted
    ensures Decided(Next(cfg, w, Act(id, c)), id, DueAnswer(cfg, id, w.uploads[id]))
  {
    UploadFaultDecides(cfg, id, SlotOf(w, id), w.uploads[id], c);
  }

  lemma DecidedInRun(cfg: Config, h: History, i: nat, id: Id, why: Failure)
    requires Follows(cfg, h, i) && i < |h.steps| && i + 1 < |h.states| && Decided(h.states[i], id, why)
    ensures Decided(h.states[i + 1], id, why)
  {
    DecidedStays(cfg, h.states[i], h.steps[i], id, why);
  }

  lemma DecidedAtFault(cfg: Config, h: History, j: nat, id: Id)
    requires Follows(cfg, h, j) && FirstFault(h, j, id) && CellOk(cfg, h.states[j], id)
    ensures Decided(h.states[j + 1], id, DueAnswer(cfg, id, h.states[j].uploads[id]))
  {
    FaultDecides(cfg, h.states[j], id, h.steps[j].c);
  }

  lemma {:induction false} StaysDecided(cfg: Config, h: History, j: nat, i: nat, id: Id, why: Failure)
    requires Happens(cfg, h) && j <= i < |h.states| && Decided(h.states[j], id, why)
    ensures Decided(h.states[i], id, why)
    decreases i
  {
    if j < i {
      StaysDecided(cfg, h, j, i - 1, id, why);
      assert Follows(cfg, h, i - 1);
      DecidedInRun(cfg, h, i - 1, id, why);
    }
  }

  lemma FaultStays(cfg: Config, h: History, j: nat, i: nat, id: Id)
    requires Happens(cfg, h) && FirstFault(h, j, id) && j < i < |h.states| && CellOk(cfg, h.states[j], id)
    ensures Decided(h.states[i], id, DueAnswer(cfg, id, h.states[j].uploads[id]))
  {
    assert Follows(cfg, h, j);
    DecidedAtFault(cfg, h, j, id);
    StaysDecided(cfg, h, j + 1, i, id, DueAnswer(cfg, id, h.states[j].uploads[id]));
  }

  lemma DueAnswerSays(cfg: Config, id: Id, s: Slot, u: Upload)
    requires UploadOk(cfg, id, s, u) && !u.faulted
    ensures Err(DueAnswer(cfg, id, u)) ==
              if InAbort(u) then Outcome(cfg, id, u.messages)
              else Err(Storage(if u.stage.AppendExists? || u.stage.FinalizeRead? then NotFound(id) else Io))
  {
  }

  /** The first fault decides the answer, and no later one changes it: before the upload was cleaning
      up, a missing record or an I/O error by the call that failed; after that, what its messages call
      for. */
  lemma FirstFaultDecides(cfg: Config, h: History, j: nat, i: nat, id: Id)
    requires Happens(cfg, h) && FirstFault(h, j, id) && j < i < |h.states|
    requires id in h.states[i].uploads && h.states[i].uploads[id].stage.Finished?
    ensures var u, r := h.states[j].uploads[id], h.states[i].uploads[id].stage.result;
            if InAbort(u) then r == Outcome(cfg, id, u.messages)
            else r == Err(Storage(if u.stage.AppendExists? || u.stage.FinalizeRead? then NotFound(id) else Io))
  {
    RunKeepsInv(cfg, h, j);
    assert CellOk(cfg, h.states[j], id);
    FaultStays(cfg, h, j, i, id);
    DueAnswerSays(cfg, id, SlotOf(h.states[j], id), h.states[j].uploads[id]);
  }
}
