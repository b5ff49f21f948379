/** A listing as it runs among everybody else: it goes through the directory entry by entry and reads
    one record at a time, while uploads and deletes go on between its calls. */
module ListingRuns {
  import opened StreamingHash
  import opened Records
  import opened FileNames
  import opened UploadContract
  import opened Interleaving
  import opened InterleavedRuns
  import opened Guarantees

  /** The listing was handed the entry of this id in one state and read its record in a later one. */
  datatype Visit = Visit(id: Id, seen: nat, read: nat)

  predicate VisitOk(h: History, v: Visit) {
    v.seen <= v.read < |h.states| && v.id in h.states[v.seen].metas
  }

  predicate Before(v: Visit, v': Visit) { v.id != v'.id && v.read <= v'.seen }

  predicate Ordered(visits: seq<Visit>) {
    forall i, j :: 0 <= i < j < |visits| ==> Before(visits[i], visits[j])
  }

  predicate Stays(h: History, first: nat, last: nat, id: Id) {
    forall i :: first <= i <= last && i < |h.states| ==> id in h.states[i].metas
  }

  predicate Visited(visits: seq<Visit>, id: Id) {
    exists i :: 0 <= i < |visits| && visits[i].id == id
  }

  /** A listing that ran from one state to another: entries that are there all the time are handed out,
      others may be. */
  ghost predicate Scans(h: History, first: nat, last: nat, visits: seq<Visit>) {
    && first <= last < |h.states|
    && Ordered(visits)
    && (forall i :: 0 <= i < |visits| ==> VisitOk(h, visits[i]) && first <= visits[i].seen && visits[i].read <= last)
    && (forall id: Id :: Stays(h, first, last, id) ==> Visited(visits, id))
  }

  /** The record is gone by the time it is read; the whole listing then fails. */
  predicate ReadMisses(h: History, v: Visit)
    requires VisitOk(h, v)
  {
    v.id !in h.states[v.read].metas
  }

  /** The listing, before it is sorted: records that are not finalized are passed over. */
  function Shown(h: History, visits: seq<Visit>): seq<MetaRecord>
    requires forall i :: 0 <= i < |visits| ==> VisitOk(h, visits[i])
  {
    if visits == [] then []
    else
      assert VisitOk(h, visits[0]);
      var w, id := h.states[visits[0].read], visits[0].id;
      (if Visible(w, id) then [w.metas[id]] else []) + Shown(h, visits[1..])
  }

  predicate ShowsRecord(h: History, v: Visit, r: MetaRecord) {
    v.read < |h.states| && Visible(h.states[v.read], v.id) && h.states[v.read].metas[v.id] == r
  }

  lemma {:induction false} ShownFrom(h: History, visits: seq<Visit>, r: MetaRecord)
    requires forall i :: 0 <= i < |visits| ==> VisitOk(h, visits[i])
    ensures r in Shown(h, visits) <==>
              exists i :: 0 <= i < |visits| && ShowsRecord(h, visits[i], r)
  {
    if visits != [] {
      ShownFrom(h, visits[1..], r);
      if i :| 0 <= i < |visits| && ShowsRecord(h, visits[i], r) {
        if i > 0 {
          assert ShowsRecord(h, visits[1..][i - 1], r);
        }
      }
      if i :| 0 <= i < |visits[1..]| && ShowsRecord(h, visits[1..][i], r) {
        assert ShowsRecord(h, visits[i + 1], r);
      }
    }
  }

  /** Every record of a listing is the record of a successful upload, and describes all its bytes. */
  lemma ListingIsTrue(cfg: Config, h: History, first: nat, last: nat, visits: seq<Visit>, r: MetaRecord)
    requires Happens(cfg, h) && Scans(h, first, last, visits) && r in Shown(h, visits)
    ensures var w, id := h.states[last], r.fileId;
            && Published(w, id)
            && var u := w.uploads[id];
               r == FinalRecord(cfg.hash, id, FileNameOf(u.messages), ContentTypeOf(u.messages),
                                Payload(u.messages), r.uploadedAt)
  {
    ShownFrom(h, visits, r);
    var i :| 0 <= i < |visits| && ShowsRecord(h, visits[i], r);
    ReportedIsComplete(cfg, h, visits[i].read, visits[i].id);
    PublishedStaysPublished(cfg, h, visits[i].read, last, visits[i].id);
  }

  predicate OneEach(rs: seq<MetaRecord>) {
    forall i, j :: 0 <= i < j < |rs| ==> rs[i].fileId != rs[j].fileId
  }

  lemma OneMore(r: MetaRecord, rs: seq<MetaRecord>)
    requires OneEach(rs) && forall q :: q in rs ==> q.fileId != r.fileId
    ensures OneEach([r] + rs)
  {
  }

  lemma LaterOrdered(visits: seq<Visit>)
    requires visits != [] && Ordered(visits)
    ensures Ordered(visits[1..])
  {
    forall i, j | 0 <= i < j < |visits[1..]| ensures Before(visits[1..][i], visits[1..][j]) {
      assert Before(visits[i + 1], visits[j + 1]);
    }
  }

  lemma ListedLater(cfg: Config, h: History, visits: seq<Visit>, r: MetaRecord)
    requires Happens(cfg, h) && visits != [] && Ordered(visits)
    requires forall i :: 0 <= i < |visits| ==> VisitOk(h, visits[i])
    requires r in Shown(h, visits[1..])
    ensures r.fileId != visits[0].id
  {
    ShownFrom(h, visits[1..], r);
    var i :| 0 <= i < |visits[1..]| && ShowsRecord(h, visits[1..][i], r);
    ReportedIsComplete(cfg, h, visits[1..][i].read, visits[1..][i].id);
    assert Before(visits[0], visits[i + 1]);
  }

  /** No upload is listed twice. */
  lemma {:induction false} ListedOnce(cfg: Config, h: History, visits: seq<Visit>)
    requires Happens(cfg, h) && Ordered(visits)
    requires forall i :: 0 <= i < |visits| ==> VisitOk(h, visits[i])
    ensures OneEach(Shown(h, visits))
  {
    if visits != [] {
      var v, rest := visits[0], Shown(h, visits[1..]);
      LaterOrdered(visits);
      ListedOnce(cfg, h, visits[1..]);
      assert VisitOk(h, v);
      if Visible(h.states[v.read], v.id) {
        ReportedIsComplete(cfg, h, v.read, v.id);
        forall r | r in rest ensures r.fileId != v.id {
          ListedLater(cfg, h, visits, r);
        }
        OneMore(h.states[v.read].metas[v.id], rest);
      } else {
        assert Shown(h, visits) == rest;
      }
    }
  }

  // ----- What a listing does not miss -----

  /** The record of a published upload changes only by being removed, once. */
  predicate RecordLasts(w: World, t: World, id: Id) {
    Published(w, id) && id in t.metas ==> id in w.metas && t.metas[id] == w.metas[id]
  }

  lemma ActKeepsRecord(cfg: Config, w: World, step: Step, id: Id)
    requires step.Act? && Enabled(cfg, w, step)
    ensures RecordLasts(w, Next(cfg, w, step), id)
  {
    var me := step.id;
    var (s, u) := UploadNext(cfg, me, SlotOf(w, me), w.uploads[me], step.c);
    SlotAfterPut(w, me, s, id);
    if Over(w.uploads[me]) {
      OverStays(cfg, me, SlotOf(w, me), w.uploads[me], step.c);
    }
    assert SlotOf(PutSlot(w, me, s), id).meta == SlotOf(Next(cfg, w, step), id).meta;
    assert Published(w, id) ==> SlotOf(Next(cfg, w, step), id).meta == SlotOf(w, id).meta;
  }

  lemma DeleteKeepsRecord(cfg: Config, w: World, step: Step, id: Id)
    requires step.ActDelete? && Enabled(cfg, w, step)
    ensures RecordLasts(w, Next(cfg, w, step), id)
  {
    var d := w.deletes[step.k];
    var s := DeleteNext(SlotOf(w, d.id), d, step.fault).0;
    SlotAfterPut(w, d.id, s, id);
    assert SlotOf(PutSlot(w, d.id, s), id).meta == SlotOf(Next(cfg, w, step), id).meta;
  }

  lemma StepKeepsRecord(cfg: Config, w: World, step: Step, id: Id)
    ensures RecordLasts(w, Next(cfg, w, step), id)
  {
    if Enabled(cfg, w, step) && step.Act? {
      ActKeepsRecord(cfg, w, step, id);
    } else if Enabled(cfg, w, step) && step.ActDelete? {
      DeleteKeepsRecord(cfg, w, step, id);
    }
  }

  lemma RecordChain(w: World, x: World, t: World, id: Id)
    requires Lasting(w, x) && RecordLasts(w, x, id) && RecordLasts(x, t, id)
    ensures RecordLasts(w, t, id)
  {
  }

  lemma RecordStepInRun(cfg: Config, h: History, i: nat, id: Id)
    requires Follows(cfg, h, i) && i < |h.steps| && i + 1 < |h.states|
    ensures RecordLasts(h.states[i], h.states[i + 1], id)
  {
    StepKeepsRecord(cfg, h.states[i], h.steps[i], id);
  }

  lemma {:induction false} RunKeepsRecord(cfg: Config, h: History, i: nat, j: nat, id: Id)
    requires Happens(cfg, h) && i <= j < |h.states|
    ensures RecordLasts(h.states[i], h.states[j], id)
    decreases j
  {
    if i < j {
      var x := h.states[j - 1];
      RunKeepsRecord(cfg, h, i, j - 1, id);
      RunLasts(cfg, h, i, j - 1);
      assert Follows(cfg, h, j - 1);
      RecordStepInRun(cfg, h, j - 1, id);
      RecordChain(h.states[i], x, h.states[j], id);
    }
  }

  /** An upload that was reported before the listing began, and still has its record when it ends, is
      listed with that record. */
  lemma ListingIsComplete(cfg: Config, h: History, first: nat, last: nat, visits: seq<Visit>, id: Id)
    requires Happens(cfg, h) && Scans(h, first, last, visits)
    requires Visible(h.states[first], id) && id in h.states[last].metas
    ensures h.states[first].metas[id] in Shown(h, visits)
  {
    var r := h.states[first].metas[id];
    ReportedIsComplete(cfg, h, first, id);
    forall i | first <= i <= last ensures id in h.states[i].metas && h.states[i].metas[id] == r {
      RunLasts(cfg, h, first, i);
      RunKeepsRecord(cfg, h, i, last, id);
      RunKeepsRecord(cfg, h, first, i, id);
    }
    assert Stays(h, first, last, id);
    var i :| 0 <= i < |visits| && visits[i].id == id;
    assert ShowsRecord(h, visits[i], r);
    ShownFrom(h, visits, r);
  }

  // ----- When a listing fails -----

  predicate CleanedUp(u: Upload) {
    u.stage.Finished? && u.stage.result.Err? && !u.litter
  }

  predicate DoneWith(w: World, k: nat, id: Id) {
    k in w.deletes && w.deletes[k].id == id && w.deletes[k].stage == DelDone
  }

  /** The upload was given up and cleaned up after, or a delete of it is done. */
  ghost predicate Withdrawn(w: World, id: Id) {
    || (id in w.uploads && CleanedUp(w.uploads[id]))
    || exists k :: DoneWith(w, k, id)
  }

  lemma BodyKeepsRecord(cfg: Config, id: Id, s: Slot, u: Upload, c: Choice)
    requires s.meta.Some? && (InCreate(u) || InBody(u) || InFinalize(u))
    ensures UploadNext(cfg, id, s, u, c).0.meta.Some?
  {
  }

  lemma RecordGoesByAbort(cfg: Config, id: Id, s: Slot, u: Upload, c: Choice)
    requires UploadOk(cfg, id, s, u) && s.meta.Some?
    ensures var (s', u') := UploadNext(cfg, id, s, u, c); s'.meta.Some? || CleanedUp(u')
  {
    if InCreate(u) || InBody(u) || InFinalize(u) {
      BodyKeepsRecord(cfg, id, s, u, c);
    }
  }

  lemma WithdrawnStays(cfg: Config, w: World, step: Step, id: Id)
    requires Withdrawn(w, id)
    ensures Withdrawn(Next(cfg, w, step), id)
  {
    var t := Next(cfg, w, step);
    if k :| DoneWith(w, k, id) {
      assert DoneWith(t, k, id);
    } else if step.Act? && step.id == id {
      OverStays(cfg, id, SlotOf(w, id), w.uploads[id], step.c);
    }
  }

  lemma ActRecord(cfg: Config, w: World, step: Step, id: Id)
    requires CellOk(cfg, w, id) && id in w.metas && step.Act? && Enabled(cfg, w, step)
    ensures var t := Next(cfg, w, step); id in t.metas || Withdrawn(t, id)
  {
    var me, t := step.id, Next(cfg, w, step);
    var (s, u) := UploadNext(cfg, me, SlotOf(w, me), w.uploads[me], step.c);
    SlotAfterPut(w, me, s, id);
    assert SlotOf(PutSlot(w, me, s), id).meta == SlotOf(t, id).meta && t.uploads[me] == u;
    if me == id {
      RecordGoesByAbort(cfg, id, SlotOf(w, id), w.uploads[id], step.c);
    }
  }

  lemma RecordStep(cfg: Config, w: World, step: Step, id: Id)
    requires CellOk(cfg, w, id) && id in w.metas
    ensures var t := Next(cfg, w, step); id in t.metas || Withdrawn(t, id)
  {
    var t := Next(cfg, w, step);
    if step.Act? && Enabled(cfg, w, step) {
      ActRecord(cfg, w, step, id);
    } else if step.ActDelete? && step.k in w.deletes && w.deletes[step.k].id == id {
      assert id !in t.metas ==> DoneWith(t, step.k, id);
    }
  }

  ghost predicate ThereOrWithdrawn(w: World, id: Id) { id in w.metas || Withdrawn(w, id) }

  lemma ThereOrWithdrawnStays(cfg: Config, w: World, step: Step, id: Id)
    requires CellOk(cfg, w, id) && ThereOrWithdrawn(w, id)
    ensures ThereOrWithdrawn(Next(cfg, w, step), id)
  {
    if Withdrawn(w, id) {
      WithdrawnStays(cfg, w, step, id);
    } else {
      RecordStep(cfg, w, step, id);
    }
  }

  lemma ThereInRun(cfg: Config, h: History, i: nat, id: Id)
    requires Follows(cfg, h, i) && i < |h.steps| && i + 1 < |h.states|
    requires CellOk(cfg, h.states[i], id) && ThereOrWithdrawn(h.states[i], id)
    ensures ThereOrWithdrawn(h.states[i + 1], id)
  {
    ThereOrWithdrawnStays(cfg, h.states[i], h.steps[i], id);
  }

  lemma {:induction false} RecordOrWithdrawn(cfg: Config, h: History, i: nat, j: nat, id: Id)
    requires Happens(cfg, h) && i <= j < |h.states| && id in h.states[i].metas
    ensures ThereOrWithdrawn(h.states[j], id)
    decreases j
  {
    if i < j {
      RecordOrWithdrawn(cfg, h, i, j - 1, id);
      RunKeepsInv(cfg, h, j - 1);
      assert Follows(cfg, h, j - 1) && CellOk(cfg, h.states[j - 1], id);
      ThereInRun(cfg, h, j - 1, id);
    }
  }

  /** A listing fails for a missing record exactly when an upload it was handed is withdrawn, aborted or
      deleted, before it gets to read the record. */
  lemma ListingFailsIff(cfg: Config, h: History, v: Visit)
    requires Happens(cfg, h) && VisitOk(h, v)
    ensures ReadMisses(h, v) <==> Withdrawn(h.states[v.read], v.id)
  {
    var w := h.states[v.read];
    RecordOrWithdrawn(cfg, h, v.seen, v.read, v.id);
    RunKeepsInv(cfg, h, v.read);
    assert CellOk(cfg, w, v.id);
    if k :| DoneWith(w, k, v.id) {
      assert DeleteOk(w, k);
    } else if Withdrawn(w, v.id) {
      FailedFacts(cfg, v.id, SlotOf(w, v.id), w.uploads[v.id]);
    }
  }

  // ----- Such a listing -----

  /** A header and then a second one, which makes the handler abort. */
  const TWO_HEADERS := [Metadata("a", ""), Metadata("a", "")]

  const CALM := Choice(false, 0, "")

  /** The states of one upload that is served alone. */
  function Served(cfg: Config, id: Id, n: nat): (Slot, Upload) {
    if n == 0 then (Slot([], false, None, None), NewUpload(Grpc, TWO_HEADERS))
    else UploadNext(cfg, id, Served(cfg, id, n - 1).0, Served(cfg, id, n - 1).1, CALM)
  }

  predicate Schedules(steps: seq<Step>, id: Id) {
    && steps != [] && steps[0] == Begin(id, Grpc, TWO_HEADERS)
    && forall i :: 1 <= i < |steps| ==> steps[i] == Act(id, CALM)
  }

  lemma {:induction false} ServedInRun(cfg: Config, h: History, id: Id, n: nat)
    requires Happens(cfg, h) && PlainId(id) && Schedules(h.steps, id) && n < |h.steps|
    ensures var w := h.states[n + 1];
            id in w.uploads && SlotOf(w, id) == Served(cfg, id, n).0 && w.uploads[id] == Served(cfg, id, n).1
    decreases n
  {
    assert Follows(cfg, h, n);
    if n > 0 {
      ServedInRun(cfg, h, id, n - 1);
      SlotAfterPut(h.states[n], id, Served(cfg, id, n).0, id);
      assert SlotOf(h.states[n + 1], id) == SlotOf(PutSlot(h.states[n], id, Served(cfg, id, n).0), id);
    }
  }

  function Reading(stage: Stage): Upload {
    NewUpload(Grpc, TWO_HEADERS).(stage := stage, next := 1)
  }

  function InProgress(id: Id, hasher: Option<Hasher>): Slot {
    Slot([], true, Some(InitialRecord(id, "a", "")), hasher)
  }

  lemma ServedCreate(cfg: Config, id: Id)
    ensures Served(cfg, id, 3) == (InProgress(id, None), Reading(CreateHasher))
  {
    LetterIsSafe();
    assert HeaderFault(TWO_HEADERS).None?;
    assert Served(cfg, id, 1) == (Slot([], false, None, None), Reading(CreateData));
    assert Served(cfg, id, 2) == (Slot([], true, None, None), Reading(CreateMeta));
  }

  lemma ServedRefuse(cfg: Config, id: Id)
    ensures Served(cfg, id, 5) == (InProgress(id, Some(cfg.hash.start)), Reading(AbortHasher(SecondMetadata)))
  {
    ServedCreate(cfg, id);
    assert Served(cfg, id, 4) == (InProgress(id, Some(cfg.hash.start)), Reading(AwaitMessage));
  }

  lemma ServedClear(cfg: Config, id: Id)
    ensures Served(cfg, id, 7) == (InProgress(id, None).(linked := false), Reading(AbortMeta(SecondMetadata)))
  {
    ServedRefuse(cfg, id);
    assert Served(cfg, id, 6) == (InProgress(id, None), Reading(AbortData(SecondMetadata)));
  }

  lemma ServedAbort(cfg: Config, id: Id)
    ensures Served(cfg, id, 8).0.meta.None?
  {
    ServedClear(cfg, id);
  }

  lemma RecordInRun(cfg: Config, h: History, id: Id, n: nat)
    requires Happens(cfg, h) && PlainId(id) && Schedules(h.steps, id) && n < |h.steps|
    ensures id in h.states[n + 1].metas <==> Served(cfg, id, n).0.meta.Some?
  {
    ServedInRun(cfg, h, id, n);
    assert id in h.states[n + 1].metas <==> SlotOf(h.states[n + 1], id).meta.Some?;
  }

  function Schedule(id: Id, n: nat): (steps: seq<Step>)
    ensures |steps| == n + 1 && Schedules(steps, id)
  {
    [Begin(id, Grpc, TWO_HEADERS)] + seq(n, i => Act(id, CALM))
  }

  lemma RecordComes(cfg: Config, h: History, id: Id)
    requires Happens(cfg, h) && PlainId(id) && Schedules(h.steps, id) && |h.steps| == 9
    ensures id in h.states[4].metas
  {
    RecordInRun(cfg, h, id, 3);
    ServedCreate(cfg, id);
  }

  lemma RecordGoes(cfg: Config, h: History, id: Id)
    requires Happens(cfg, h) && PlainId(id) && Schedules(h.steps, id) && |h.steps| == 9
    ensures id !in h.states[9].metas
  {
    RecordInRun(cfg, h, id, 8);
    ServedAbort(cfg, id);
  }

  /** A listing is handed the entry of an upload in progress, which is then refused and aborted before
      its record is read: the listing fails. */
  lemma ListingCanFail(cfg: Config, id: Id) returns (h: History, v: Visit)
    requires PlainId(id)
    ensures Happens(cfg, h) && VisitOk(h, v) && v.id == id && ReadMisses(h, v)
  {
    h := EveryScheduleRuns(cfg, Schedule(id, 8));
    RecordComes(cfg, h, id);
    RecordGoes(cfg, h, id);
    v := Visit(id, 4, 9);
  }
}
