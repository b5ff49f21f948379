/** Every upload that keeps being served is answered, whatever everybody else does. */
module Liveness {
  import opened Records
  import opened UploadContract
  import opened Interleaving
  import opened InterleavedRuns

  /** A schedule that goes on for ever. */
  type Schedule = nat -> Step

  function StateAt(cfg: Config, schedule: Schedule, n: nat): World {
    if n == 0 then START else Next(cfg, StateAt(cfg, schedule, n - 1), schedule(n - 1))
  }

  predicate ActsOn(step: Step, id: Id) { step.Act? && step.id == id }

  predicate ActsLater(schedule: Schedule, id: Id, n: nat, m: nat) { n <= m && ActsOn(schedule(m), id) }

  ghost predicate ActsAgain(schedule: Schedule, id: Id, n: nat) {
    exists m: nat :: ActsLater(schedule, id, n, m)
  }

  /** The upload is served again and again. */
  ghost predicate KeepsActing(schedule: Schedule, id: Id) {
    forall n: nat :: ActsAgain(schedule, id, n)
  }

  /** A step that neither cuts this upload off nor makes one of its calls fail. Evictions of its hasher
      and faults of everybody else are allowed. */
  predicate Spares(step: Step, id: Id) {
    match step
    case Act(j, c) => j == id ==> !c.fault
    case Cancel(j) => j != id
    case Restart => false
    case _ => true
  }

  ghost predicate SparedFrom(schedule: Schedule, id: Id, n: nat) {
    forall m: nat :: n <= m ==> Spares(schedule(m), id)
  }

  lemma {:induction false} StatesKeepInv(cfg: Config, schedule: Schedule, n: nat)
    ensures Inv(cfg, StateAt(cfg, schedule, n))
  {
    if n > 0 {
      StatesKeepInv(cfg, schedule, n - 1);
      StepKeepsInv(cfg, StateAt(cfg, schedule, n - 1), schedule(n - 1));
    }
  }

  /** The upload and the bytes of its file are as they were. */
  predicate Unmoved(w: World, t: World, id: Id) {
    && id in w.uploads && id in t.uploads && t.uploads[id] == w.uploads[id]
    && SlotOf(t, id).bytes == SlotOf(w, id).bytes
  }

  lemma OtherUpload(cfg: Config, w: World, step: Step, id: Id)
    requires id in w.uploads && step.Act? && step.id != id
    ensures Unmoved(w, Next(cfg, w, step), id)
  {
    if Enabled(cfg, w, step) {
      var (s, u) := UploadNext(cfg, step.id, SlotOf(w, step.id), w.uploads[step.id], step.c);
      var t := PutSlot(w, step.id, s).(uploads := w.uploads[step.id := u]);
      SlotAfterPut(w, step.id, s, id);
      assert SlotOf(Next(cfg, w, step), id) == SlotOf(t, id) == SlotOf(PutSlot(w, step.id, s), id);
    }
  }

  lemma SomeDelete(cfg: Config, w: World, step: Step, id: Id)
    requires id in w.uploads && step.ActDelete?
    ensures Unmoved(w, Next(cfg, w, step), id)
  {
    if Enabled(cfg, w, step) {
      var d := w.deletes[step.k];
      var s := DeleteNext(SlotOf(w, d.id), d, step.fault).0;
      SlotAfterPut(w, d.id, s, id);
      assert SlotOf(Next(cfg, w, step), id) == SlotOf(PutSlot(w, d.id, s), id);
    }
  }

  /** Steps of others change neither the upload nor the bytes of its file. */
  lemma OtherStep(cfg: Config, w: World, step: Step, id: Id)
    requires id in w.uploads && Spares(step, id) && !ActsOn(step, id)
    ensures Unmoved(w, Next(cfg, w, step), id)
  {
    if step.Act? {
      OtherUpload(cfg, w, step, id);
    } else if step.ActDelete? {
      SomeDelete(cfg, w, step, id);
    }
  }

  lemma SameWork(s: Slot, t: Slot, u: Upload)
    requires s.bytes == t.bytes
    ensures Work(s, u) == Work(t, u)
  {
  }

  /** On its way to the answer that these messages call for. */
  predicate Going(w: World, id: Id, messages: seq<Message>) {
    && id in w.uploads && w.uploads[id].messages == messages
    && !w.uploads[id].faulted && !w.uploads[id].stage.Stopped?
  }

  predicate Answered(cfg: Config, w: World, id: Id, messages: seq<Message>) {
    id in w.uploads && w.uploads[id].stage == Finished(Outcome(cfg, id, messages))
  }

  lemma OwnStep(cfg: Config, w: World, id: Id, c: Choice, messages: seq<Message>)
    requires Going(w, id, messages) && !Over(w.uploads[id]) && !c.fault
    ensures var t := Next(cfg, w, Act(id, c));
            && Going(t, id, messages)
            && Lower(Work(SlotOf(t, id), t.uploads[id]), Work(SlotOf(w, id), w.uploads[id]))
  {
    var s, u := SlotOf(w, id), w.uploads[id];
    var (s', u') := UploadNext(cfg, id, s, u, c);
    var t := Next(cfg, w, Act(id, c));
    SlotAfterPut(w, id, s', id);
    assert SlotOf(t, id) == s' && t.uploads[id] == u';
    EveryStepIsProgress(cfg, id, s, u, c);
    StepMarks(cfg, id, s, u, c);
  }

  lemma OverIsAnswered(cfg: Config, schedule: Schedule, n: nat, id: Id, messages: seq<Message>)
    requires Going(StateAt(cfg, schedule, n), id, messages) && Over(StateAt(cfg, schedule, n).uploads[id])
    ensures Answered(cfg, StateAt(cfg, schedule, n), id, messages)
  {
    var w := StateAt(cfg, schedule, n);
    StatesKeepInv(cfg, schedule, n);
    assert CellOk(cfg, w, id);
    FinishedFacts(cfg, id, SlotOf(w, id), w.uploads[id]);
  }

  /** The work the upload has left. */
  function Left(cfg: Config, schedule: Schedule, id: Id, n: nat): (nat, nat, nat) {
    var w := StateAt(cfg, schedule, n);
    if id in w.uploads then Work(SlotOf(w, id), w.uploads[id]) else (0, 0, 0)
  }

  lemma TurnLowers(cfg: Config, schedule: Schedule, id: Id, messages: seq<Message>, n: nat)
    requires Spares(schedule(n), id) && ActsOn(schedule(n), id)
    requires Going(StateAt(cfg, schedule, n), id, messages) && !Over(StateAt(cfg, schedule, n).uploads[id])
    ensures Going(StateAt(cfg, schedule, n + 1), id, messages)
    ensures Lower(Left(cfg, schedule, id, n + 1), Left(cfg, schedule, id, n))
  {
    OwnStep(cfg, StateAt(cfg, schedule, n), id, schedule(n).c, messages);
  }

  lemma WaitKeeps(cfg: Config, schedule: Schedule, id: Id, messages: seq<Message>, n: nat)
    requires Spares(schedule(n), id) && !ActsOn(schedule(n), id)
    requires Going(StateAt(cfg, schedule, n), id, messages)
    ensures Going(StateAt(cfg, schedule, n + 1), id, messages)
    ensures Left(cfg, schedule, id, n + 1) == Left(cfg, schedule, id, n)
  {
    var w, t := StateAt(cfg, schedule, n), StateAt(cfg, schedule, n + 1);
    OtherStep(cfg, w, schedule(n), id);
    SameWork(SlotOf(w, id), SlotOf(t, id), w.uploads[id]);
  }

  /** `m` is the next known turn of the upload: every turn lowers the work left, and between turns the
      next one comes closer. */
  lemma {:induction false} ComesToEnd(cfg: Config, schedule: Schedule, id: Id, messages: seq<Message>, n: nat, m: nat)
    returns (last: nat)
    requires KeepsActing(schedule, id) && SparedFrom(schedule, id, n) && ActsLater(schedule, id, n, m)
    requires Going(StateAt(cfg, schedule, n), id, messages)
    ensures Answered(cfg, StateAt(cfg, schedule, last), id, messages)
    decreases Left(cfg, schedule, id, n).0, Left(cfg, schedule, id, n).1, Left(cfg, schedule, id, n).2, m - n
  {
    assert Spares(schedule(n), id);
    if Over(StateAt(cfg, schedule, n).uploads[id]) {
      OverIsAnswered(cfg, schedule, n, id, messages);
      last := n;
    } else if ActsOn(schedule(n), id) {
      TurnLowers(cfg, schedule, id, messages, n);
      assert ActsAgain(schedule, id, n + 1);
      var next: nat :| ActsLater(schedule, id, n + 1, next);
      last := ComesToEnd(cfg, schedule, id, messages, n + 1, next);
    } else {
      WaitKeeps(cfg, schedule, id, messages, n);
      last := ComesToEnd(cfg, schedule, id, messages, n + 1, m);
    }
  }

  /** Among any other uploads, deletes, downloads, sweeps and faults of others: an upload that is served
      again and again, is not cut off and meets no fault itself ends, with the answer its messages call
      for, however short its reads and writes are and whenever its hasher is evicted. */
  lemma UploadsAnswer(cfg: Config, schedule: Schedule, id: Id, front: FrontEnd, messages: seq<Message>, n: nat)
    requires schedule(n) == Begin(id, front, messages) && Enabled(cfg, StateAt(cfg, schedule, n), schedule(n))
    requires KeepsActing(schedule, id) && SparedFrom(schedule, id, n)
    ensures exists last: nat :: Answered(cfg, StateAt(cfg, schedule, last), id, messages)
  {
    assert ActsAgain(schedule, id, n + 1);
    var m: nat :| ActsLater(schedule, id, n + 1, m);
    var last := ComesToEnd(cfg, schedule, id, messages, n + 1, m);
  }
}
