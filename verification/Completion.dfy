/** Deletes and downloads that keep being served come to their end, and what that end is. */
module Completion {
  import opened Records
  import opened FileNames
  import opened UploadContract
  import opened Interleaving
  import opened InterleavedRuns
  import opened Guarantees
  import opened Liveness

  /** The states that a schedule leads through. */
  type Course = nat -> World

  predicate Stepped(cfg: Config, schedule: Schedule, states: Course, n: nat) {
    states(n + 1) == Next(cfg, states(n), schedule(n))
  }

  ghost predicate Runs(cfg: Config, schedule: Schedule, states: Course) {
    states(0) == START && forall n: nat :: Stepped(cfg, schedule, states, n)
  }

  /** Every schedule has such a course. */
  lemma EveryScheduleHasCourse(cfg: Config, schedule: Schedule) returns (states: Course)
    ensures Runs(cfg, schedule, states)
  {
    states := (n: nat) => StateAt(cfg, schedule, n);
    assert forall n: nat :: Stepped(cfg, schedule, states, n);
  }

  lemma {:induction false} CourseKeepsInv(cfg: Config, schedule: Schedule, states: Course, n: nat)
    requires Runs(cfg, schedule, states)
    ensures Inv(cfg, states(n))
    decreases n
  {
    if n > 0 {
      CourseKeepsInv(cfg, schedule, states, n - 1);
      StepKeepsInv(cfg, states(n - 1), schedule(n - 1));
      assert Stepped(cfg, schedule, states, n - 1);
    }
  }

  datatype Actor = Deleter(k: nat) | Downloader(k: nat)

  predicate IsTurn(step: Step, a: Actor) {
    match a
    case Deleter(k) => step.ActDelete? && step.k == k
    case Downloader(k) => step.ActDownload? && step.k == k
  }

  predicate TurnAt(schedule: Schedule, a: Actor, n: nat, m: nat) { n <= m && IsTurn(schedule(m), a) }

  ghost predicate TurnAgain(schedule: Schedule, a: Actor, n: nat) {
    exists m: nat :: TurnAt(schedule, a, n, m)
  }

  /** The actor is served again and again. */
  ghost predicate KeepsTurning(schedule: Schedule, a: Actor) {
    forall n: nat :: TurnAgain(schedule, a, n)
  }

  /** Not a restart, and no fault of this actor; faults of everybody else are allowed. */
  predicate Lets(step: Step, a: Actor) {
    && !step.Restart?
    && (IsTurn(step, a) ==> if a.Deleter? then !step.fault else !step.c.fault)
  }

  ghost predicate LetFrom(schedule: Schedule, a: Actor, n: nat) {
    forall m: nat :: n <= m ==> Lets(schedule(m), a)
  }

  predicate Present(w: World, a: Actor) { if a.Deleter? then a.k in w.deletes else a.k in w.downloads }

  predicate SameActor(w: World, t: World, a: Actor) {
    && Present(w, a) && Present(t, a)
    && (if a.Deleter? then t.deletes[a.k] == w.deletes[a.k] else t.downloads[a.k] == w.downloads[a.k])
  }

  lemma WaitStep(cfg: Config, w: World, step: Step, a: Actor)
    requires Present(w, a) && !IsTurn(step, a) && !step.Restart?
    ensures SameActor(w, Next(cfg, w, step), a)
  {
  }

  lemma WaitInCourse(cfg: Config, schedule: Schedule, states: Course, a: Actor, n: nat)
    requires Runs(cfg, schedule, states) && Present(states(n), a) && !IsTurn(schedule(n), a) && !schedule(n).Restart?
    ensures SameActor(states(n), states(n + 1), a) && Lasting(states(n), states(n + 1))
  {
    assert Stepped(cfg, schedule, states, n);
    WaitStep(cfg, states(n), schedule(n), a);
    StepLasts(cfg, states(n), schedule(n));
  }

  /** The next turn of an actor finds it as it is now; what has been published stays so. */
  lemma {:induction false} NextTurn(cfg: Config, schedule: Schedule, states: Course, a: Actor, n: nat, later: nat)
    returns (m: nat)
    requires Runs(cfg, schedule, states)
    requires TurnAt(schedule, a, n, later) && LetFrom(schedule, a, n) && Present(states(n), a)
    ensures TurnAt(schedule, a, n, m) && Lets(schedule(m), a)
    ensures SameActor(states(n), states(m), a)
    ensures Lasting(states(n), states(m))
    decreases later - n
  {
    assert Lets(schedule(n), a);
    if IsTurn(schedule(n), a) {
      m := n;
    } else {
      WaitInCourse(cfg, schedule, states, a, n);
      m := NextTurn(cfg, schedule, states, a, n + 1, later);
      LastingChain(states(n), states(n + 1), states(m));
    }
  }

  lemma SomeTurn(cfg: Config, schedule: Schedule, states: Course, a: Actor, n: nat) returns (m: nat)
    requires Runs(cfg, schedule, states)
    requires KeepsTurning(schedule, a) && LetFrom(schedule, a, n) && Present(states(n), a)
    ensures TurnAt(schedule, a, n, m) && Lets(schedule(m), a)
    ensures SameActor(states(n), states(m), a)
    ensures Lasting(states(n), states(m))
  {
    assert TurnAgain(schedule, a, n);
    var later: nat :| TurnAt(schedule, a, n, later);
    m := NextTurn(cfg, schedule, states, a, n, later);
  }

  // ----- Deletes -----

  /** One faultless turn: the check goes by the record, the removals follow one another. */
  lemma DeleteTurn(cfg: Config, w: World, k: nat)
    requires k in w.deletes
    ensures var t, d := Next(cfg, w, ActDelete(k, false)), w.deletes[k];
            && k in t.deletes
            && (d.stage == DelExists ==> t.deletes[k] == Delete(d.id, if d.id in w.metas then DelData else DelMissing))
            && (d.stage == DelData ==> t.deletes[k] == Delete(d.id, DelMeta))
            && (d.stage == DelMeta ==> t.deletes[k] == Delete(d.id, DelDone))
  {
  }

  function Turned(d: Delete, found: bool): Delete {
    match d.stage
    case DelExists => d.(stage := if found then DelData else DelMissing)
    case DelData => d.(stage := DelMeta)
    case DelMeta => d.(stage := DelDone)
    case _ => d
  }

  lemma TakeDeleteTurn(cfg: Config, schedule: Schedule, states: Course, k: nat, n: nat) returns (m: nat)
    requires Runs(cfg, schedule, states)
    requires KeepsTurning(schedule, Deleter(k)) && LetFrom(schedule, Deleter(k), n) && k in states(n).deletes
    requires states(n).deletes[k].stage in {DelExists, DelData, DelMeta}
    ensures n <= m && schedule(m) == ActDelete(k, false)
    ensures k in states(m).deletes && states(m).deletes[k] == states(n).deletes[k]
    ensures k in states(m + 1).deletes
    ensures states(m + 1).deletes[k] == Turned(states(m).deletes[k], states(m).deletes[k].id in states(m).metas)
  {
    m := SomeTurn(cfg, schedule, states, Deleter(k), n);
    assert Stepped(cfg, schedule, states, m);
    DeleteTurn(cfg, states(m), k);
  }

  lemma BegunDelete(cfg: Config, schedule: Schedule, states: Course, k: nat, name: Id, n: nat)
    requires Runs(cfg, schedule, states)
    requires schedule(n) == BeginDelete(k, name) && Enabled(cfg, states(n), schedule(n))
    ensures Reach(cfg.layout, name).Some? && k in states(n + 1).deletes
    ensures states(n + 1).deletes[k] == Delete(Reach(cfg.layout, name).value, DelExists)
  {
    assert Stepped(cfg, schedule, states, n);
  }

  /** Once the record has been found, both removals follow. */
  lemma RemovalEnds(cfg: Config, schedule: Schedule, states: Course, k: nat, n: nat) returns (last: nat)
    requires Runs(cfg, schedule, states)
    requires KeepsTurning(schedule, Deleter(k)) && LetFrom(schedule, Deleter(k), n)
    requires k in states(n).deletes && states(n).deletes[k].stage == DelData
    ensures n < last && k in states(last).deletes
    ensures var id, t := states(n).deletes[k].id, states(last);
            t.deletes[k] == Delete(id, DelDone) && id !in t.metas && id !in t.linked
  {
    var m := TakeDeleteTurn(cfg, schedule, states, k, n);
    m := TakeDeleteTurn(cfg, schedule, states, k, m + 1);
    last := m + 1;
    CourseKeepsInv(cfg, schedule, states, last);
    assert DeleteOk(states(last), k);
  }

  /** A delete that is served again and again, without a fault of its own or a restart, looks for the
      record once. If it finds it, it ends with file and record gone; otherwise it answers not-found. */
  lemma DeleteEnds(cfg: Config, schedule: Schedule, states: Course, k: nat, name: Id, n: nat)
    returns (check: nat, last: nat)
    requires Runs(cfg, schedule, states)
    requires schedule(n) == BeginDelete(k, name) && Enabled(cfg, states(n), schedule(n))
    requires KeepsTurning(schedule, Deleter(k)) && LetFrom(schedule, Deleter(k), n)
    ensures Reach(cfg.layout, name).Some? && n < check < last
    ensures schedule(check) == ActDelete(k, false)
    ensures var id, w, t := Reach(cfg.layout, name).value, states(check), states(last);
            && k in w.deletes && w.deletes[k] == Delete(id, DelExists) && k in t.deletes
            && if id in w.metas then t.deletes[k] == Delete(id, DelDone) && id !in t.metas && id !in t.linked
               else t.deletes[k] == Delete(id, DelMissing)
  {
    var id := Reach(cfg.layout, name).value;
    BegunDelete(cfg, schedule, states, k, name, n);
    check := TakeDeleteTurn(cfg, schedule, states, k, n + 1);
    last := check + 1;
    if id in states(check).metas {
      last := RemovalEnds(cfg, schedule, states, k, last);
    }
  }

  lemma DeleteSettled(cfg: Config, w: World, step: Step, k: nat)
    requires k in w.deletes && w.deletes[k].stage != DelExists
    ensures var t := Next(cfg, w, step);
            && k in t.deletes && t.deletes[k].stage != DelExists
            && (t.deletes[k].stage == DelMissing <==> w.deletes[k].stage == DelMissing)
  {
  }

  /** In every run, with faults and restarts anywhere: a delete answers not-found exactly when its look
      for the record failed or the record was gone at that moment. */
  lemma {:induction false} DeleteMissesIff(cfg: Config, h: History, j: nat, i: nat, k: nat)
    requires Happens(cfg, h) && j < i < |h.states|
    requires h.steps[j].ActDelete? && h.steps[j].k == k
    requires k in h.states[j].deletes && h.states[j].deletes[k].stage == DelExists
    ensures k in h.states[i].deletes && h.states[i].deletes[k].stage != DelExists
    ensures h.states[i].deletes[k].stage == DelMissing <==>
              h.steps[j].fault || h.states[j].deletes[k].id !in h.states[j].metas
    decreases i
  {
    assert Follows(cfg, h, i - 1);
    if i > j + 1 {
      DeleteMissesIff(cfg, h, j, i - 1, k);
      DeleteSettled(cfg, h.states[i - 1], h.steps[i - 1], k);
    }
  }

  // ----- Downloads -----

  /** What one faultless turn makes of a download, in the state it finds. */
  predicate DownloadMoves(w: World, d: Download, d': Download) {
    && d'.id == d.id
    && (d.stage == DlMeta ==> d'.stage == if Visible(w, d.id) then DlOpen else DlFailed)
    && (d.stage == DlOpen ==> d'.stage == if d.id in w.linked then DlRead else DlFailed)
    && (d.stage == DlRead ==>
          if |d.got| < |SlotOf(w, d.id).bytes| then d'.stage == DlRead && |d'.got| > |d.got|
          else d'.stage == DlDone)
  }

  lemma DownloadTurn(cfg: Config, w: World, k: nat, c: Choice)
    requires k in w.downloads && !c.fault
    ensures var t := Next(cfg, w, ActDownload(k, c));
            k in t.downloads && t.uploads == w.uploads && DownloadMoves(w, w.downloads[k], t.downloads[k])
  {
    assert SlotOf(w, w.downloads[k].id).meta.Some? <==> w.downloads[k].id in w.metas;
  }

  lemma TakeDownloadTurn(cfg: Config, schedule: Schedule, states: Course, k: nat, n: nat) returns (m: nat)
    requires Runs(cfg, schedule, states)
    requires KeepsTurning(schedule, Downloader(k)) && LetFrom(schedule, Downloader(k), n) && k in states(n).downloads
    ensures n <= m && schedule(m).ActDownload? && schedule(m).k == k
    ensures k in states(m).downloads && states(m).downloads[k] == states(n).downloads[k]
    ensures k in states(m + 1).downloads
    ensures DownloadMoves(states(m), states(m).downloads[k], states(m + 1).downloads[k])
    ensures Lasting(states(n), states(m)) && states(m + 1).uploads == states(m).uploads
  {
    m := SomeTurn(cfg, schedule, states, Downloader(k), n);
    assert Stepped(cfg, schedule, states, m);
    DownloadTurn(cfg, states(m), k, schedule(m).c);
  }

  lemma BegunDownload(cfg: Config, schedule: Schedule, states: Course, k: nat, name: Id, n: nat)
    requires Runs(cfg, schedule, states)
    requires schedule(n) == BeginDownload(k, name) && Enabled(cfg, states(n), schedule(n))
    ensures Reach(cfg.layout, name).Some? && k in states(n + 1).downloads
    ensures states(n + 1).downloads[k].stage == DlMeta && states(n + 1).downloads[k].id == Reach(cfg.layout, name).value
  {
    assert Stepped(cfg, schedule, states, n);
  }

  /** How much of the upload a reading download still has to get. */
  function Unread(w: World, k: nat): nat {
    if k in w.downloads && w.downloads[k].id in w.uploads then
      var all, got := |Payload(w.uploads[w.downloads[k].id].messages)|, |w.downloads[k].got|;
      if got <= all then all - got else 0
    else 0
  }

  lemma ReadingFacts(cfg: Config, w: World, k: nat)
    requires Inv(cfg, w) && k in w.downloads && w.downloads[k].stage in {DlOpen, DlRead, DlDone}
    ensures var d := w.downloads[k];
            && Published(w, d.id) && SlotOf(w, d.id).bytes == Payload(w.uploads[d.id].messages)
            && d.got <= SlotOf(w, d.id).bytes && d.declared == |SlotOf(w, d.id).bytes|
            && (d.stage == DlDone ==> d.got == SlotOf(w, d.id).bytes)
  {
    assert DownloadOk(w, k);
    PublishedBytes(cfg, w, w.downloads[k].id);
  }

  lemma {:induction false} ReadsToEnd(cfg: Config, schedule: Schedule, states: Course, k: nat, n: nat)
    returns (last: nat)
    requires Runs(cfg, schedule, states)
    requires KeepsTurning(schedule, Downloader(k)) && LetFrom(schedule, Downloader(k), n)
    requires k in states(n).downloads && states(n).downloads[k].stage == DlRead
    ensures last >= n && k in states(last).downloads
    ensures states(last).downloads[k].stage == DlDone
    ensures states(last).downloads[k].id == states(n).downloads[k].id
    decreases Unread(states(n), k)
  {
    var m := TakeDownloadTurn(cfg, schedule, states, k, n);
    CourseKeepsInv(cfg, schedule, states, n);
    CourseKeepsInv(cfg, schedule, states, m);
    CourseKeepsInv(cfg, schedule, states, m + 1);
    ReadingFacts(cfg, states(n), k);
    ReadingFacts(cfg, states(m), k);
    ReadingFacts(cfg, states(m + 1), k);
    last := m + 1;
    if states(m + 1).downloads[k].stage == DlRead {
      last := ReadsToEnd(cfg, schedule, states, k, m + 1);
    }
  }

  lemma ReadEndsWhole(cfg: Config, schedule: Schedule, states: Course, k: nat, n: nat) returns (last: nat)
    requires Runs(cfg, schedule, states)
    requires KeepsTurning(schedule, Downloader(k)) && LetFrom(schedule, Downloader(k), n)
    requires k in states(n).downloads && states(n).downloads[k].stage == DlRead
    ensures n <= last && k in states(last).downloads
    ensures var d, t := states(last).downloads[k], states(last);
            && d.stage == DlDone && d.id == states(n).downloads[k].id && Published(t, d.id)
            && d.got == Payload(t.uploads[d.id].messages) && d.declared == |d.got|
  {
    last := ReadsToEnd(cfg, schedule, states, k, n);
    CourseKeepsInv(cfg, schedule, states, last);
    ReadingFacts(cfg, states(last), k);
  }

  /** From a found record on: the file is opened, and then read to its end. */
  lemma OpenEnds(cfg: Config, schedule: Schedule, states: Course, k: nat, n: nat) returns (open: nat, last: nat)
    requires Runs(cfg, schedule, states)
    requires KeepsTurning(schedule, Downloader(k)) && LetFrom(schedule, Downloader(k), n)
    requires k in states(n).downloads && states(n).downloads[k].stage == DlOpen
    ensures n <= open < last && schedule(open).ActDownload? && schedule(open).k == k
    ensures k in states(open).downloads && states(open).downloads[k].stage == DlOpen && k in states(last).downloads
    ensures var id, d, t := states(n).downloads[k].id, states(last).downloads[k], states(last);
            && d.id == id
            && if id in states(open).linked then
                 && d.stage == DlDone && Published(t, id)
                 && d.got == Payload(t.uploads[id].messages) && d.declared == |d.got|
               else d.stage == DlFailed
  {
    open := TakeDownloadTurn(cfg, schedule, states, k, n);
    last := open + 1;
    if states(n).downloads[k].id in states(open).linked {
      last := ReadEndsWhole(cfg, schedule, states, k, open + 1);
    }
  }

  /** A download that is served again and again, without a fault of its own or a restart, looks at the
      record and then opens the file. It ends with all the uploaded bytes exactly when it found a
      finalized record and then the file; otherwise it fails. */
  lemma DownloadEnds(cfg: Config, schedule: Schedule, states: Course, k: nat, name: Id, n: nat)
    returns (check: nat, open: nat, last: nat)
    requires Runs(cfg, schedule, states)
    requires schedule(n) == BeginDownload(k, name) && Enabled(cfg, states(n), schedule(n))
    requires KeepsTurning(schedule, Downloader(k)) && LetFrom(schedule, Downloader(k), n)
    ensures Reach(cfg.layout, name).Some? && n < check <= open < last
    ensures schedule(check).ActDownload? && schedule(check).k == k
    ensures schedule(open).ActDownload? && schedule(open).k == k
    ensures var id := Reach(cfg.layout, name).value;
            var w, x, t := states(check), states(open), states(last);
            && k in w.downloads && w.downloads[k].stage == DlMeta
            && k in t.downloads && t.downloads[k].id == id
            && if Visible(w, id) && id in x.linked then
                 && k in x.downloads && x.downloads[k].stage == DlOpen
                 && t.downloads[k].stage == DlDone && Published(t, id)
                 && t.downloads[k].got == Payload(t.uploads[id].messages)
                 && t.downloads[k].declared == |t.downloads[k].got|
               else t.downloads[k].stage == DlFailed
  {
    var id := Reach(cfg.layout, name).value;
    BegunDownload(cfg, schedule, states, k, name, n);
    check := TakeDownloadTurn(cfg, schedule, states, k, n + 1);
    open, last := check, check + 1;
    if Visible(states(check), id) {
      open, last := OpenEnds(cfg, schedule, states, k, check + 1);
    }
  }
}
