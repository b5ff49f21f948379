/** What clients can rely on, in every state of every run that module InterleavedRuns allows. */
module Guarantees {
  import opened StreamingHash
  import opened Records
  import opened UploadContract
  import opened Interleaving
  import opened InterleavedRuns

  /** An upload that reports success reports exactly the length and digest of its own chunks, in
      order, and its messages were such as to be accepted. */
  lemma SuccessTellsTheTruth(cfg: Config, h: History, i: nat, id: Id)
    requires Happens(cfg, h) && i < |h.states| && Published(h.states[i], id)
    ensures var u := h.states[i].uploads[id];
            && Accepted(cfg, u.messages)
            && u.stage.result.value == Receipt(id, |Payload(u.messages)|, Digest(cfg.hash, Payload(u.messages)))
  {
    RunKeepsInv(cfg, h, i);
    assert CellOk(cfg, h.states[i], id);
    FinishedFacts(cfg, id, SlotOf(h.states[i], id), h.states[i].uploads[id]);
    UploadSucceedsIff(cfg, id, h.states[i].uploads[id].messages);
  }

  /** The same with block-buffered SHA-256 for the digest: the checksum is the standard's. */
  lemma ChecksumIsSha256(cfg: Config, alg: Algorithm, h: History, i: nat, id: Id)
    requires cfg.hash == Sha256Api(alg) && Happens(cfg, h) && i < |h.states| && Published(h.states[i], id)
    ensures var u := h.states[i].uploads[id];
            u.stage.result.value.checksum == Sha256(alg, Payload(u.messages))
  {
    SuccessTellsTheTruth(cfg, h, i, id);
    Sha256Digests(alg, Payload(h.states[i].uploads[id].messages));
  }

  /** A delete of `id` has removed the data and has not (or, after a fault or restart, will not)
      remove the record. */
  predicate Halfway(w: World, k: nat, id: Id) {
    k in w.deletes && w.deletes[k].id == id && (w.deletes[k].stage == DelMeta || w.deletes[k].stage == DelHalf)
  }

  /** Whenever a reader of records sees an id, that upload has succeeded, the record describes the
      full uploaded content, and the file holds it, exactly unless a delete of it is half done. */
  lemma ReportedIsComplete(cfg: Config, h: History, i: nat, id: Id)
    requires Happens(cfg, h) && i < |h.states| && Visible(h.states[i], id)
    ensures var w := h.states[i];
            && Published(w, id)
            && var u := w.uploads[id];
            && u.messages != [] && u.messages[0].Metadata?
            && w.metas[id] == MetaRecord(id, u.messages[0].fileName, u.messages[0].contentType, |Payload(u.messages)|,
                                         Digest(cfg.hash, Payload(u.messages)), w.metas[id].uploadedAt, true)
            && SlotOf(w, id).bytes == Payload(u.messages)
            && (id in w.linked <==> !exists k :: Halfway(w, k, id))
  {
    var w := h.states[i];
    RunKeepsInv(cfg, h, i);
    assert CellOk(cfg, w, id) && PresenceOk(w, id);
    VisibleIsPublished(cfg, w, id);
    FinishedFacts(cfg, id, SlotOf(w, id), w.uploads[id]);
    assert SlotOf(w, id).meta == Some(w.metas[id]);
    SuccessTellsTheTruth(cfg, h, i, id);
    if id !in w.linked {
      var k :| HasRemoved(w, k, id);
      assert DeleteOk(w, k);
      assert Halfway(w, k, id);
    } else {
      forall k ensures !Halfway(w, k, id) {
        assert k >= 0 ==> DeleteOk(w, k);
      }
    }
  }

  /** And the other way round: a successful upload is reported and its file is there, until a delete of
      it has passed the removal of the data. */
  lemma PublishedIsReported(cfg: Config, h: History, i: nat, id: Id)
    requires Happens(cfg, h) && i < |h.states| && Published(h.states[i], id)
    requires forall k :: !HasRemoved(h.states[i], k, id)
    ensures Visible(h.states[i], id) && id in h.states[i].linked
  {
    var w := h.states[i];
    RunKeepsInv(cfg, h, i);
    assert CellOk(cfg, w, id) && PresenceOk(w, id);
    FinishedFacts(cfg, id, SlotOf(w, id), w.uploads[id]);
    assert SlotOf(w, id).meta == Some(w.metas[id]);
  }

  /** An upload that meets no I/O fault ends with the answer its own messages call for, whatever
      everybody else does. */
  lemma OthersDoNotMatter(cfg: Config, h: History, i: nat, id: Id)
    requires Happens(cfg, h) && i < |h.states| && id in h.states[i].uploads
    requires h.states[i].uploads[id].stage.Finished? && !h.states[i].uploads[id].faulted
    ensures h.states[i].uploads[id].stage.result == Outcome(cfg, id, h.states[i].uploads[id].messages)
  {
    RunKeepsInv(cfg, h, i);
    assert CellOk(cfg, h.states[i], id);
    FinishedFacts(cfg, id, SlotOf(h.states[i], id), h.states[i].uploads[id]);
  }

  function WithoutId(r: Result<Receipt, Failure>): Result<Receipt, Failure> {
    if r.Ok? then Ok(r.value.(fileId := "")) else r
  }

  lemma {:induction false} ContinueUpToId(cfg: Config, a: Id, b: Id, sent: Bytes, rest: seq<Message>)
    ensures WithoutId(Continue(cfg, a, sent, rest)) == WithoutId(Continue(cfg, b, sent, rest))
    decreases |rest|
  {
    if rest != [] {
      ContinueUpToId(cfg, a, b, sent, rest[1..]);
      if rest[0].Chunk? {
        ContinueUpToId(cfg, a, b, sent + rest[0].bytes, rest[1..]);
      }
    }
  }

  lemma OutcomeUpToId(cfg: Config, a: Id, b: Id, messages: seq<Message>)
    ensures WithoutId(Outcome(cfg, a, messages)) == WithoutId(Outcome(cfg, b, messages))
  {
    if messages != [] {
      ContinueUpToId(cfg, a, b, [], messages[1..]);
    }
  }

  /** An upload that has ended without meeting an I/O fault. */
  predicate EndedUnharmed(w: World, id: Id) {
    id in w.uploads && w.uploads[id].stage.Finished? && !w.uploads[id].faulted
  }

  /** The same request in two different runs, one of which may be the request alone: the same result
      and, while both are stored, the same record and content, up to id and time. */
  lemma SameAsAlone(cfg: Config, crowd: History, i: nat, a: Id, alone: History, j: nat, b: Id)
    requires Happens(cfg, crowd) && i < |crowd.states| && EndedUnharmed(crowd.states[i], a)
    requires Happens(cfg, alone) && j < |alone.states| && EndedUnharmed(alone.states[j], b)
    requires crowd.states[i].uploads[a].messages == alone.states[j].uploads[b].messages
    ensures var w, v := crowd.states[i], alone.states[j];
            && WithoutId(w.uploads[a].stage.result) == WithoutId(v.uploads[b].stage.result)
            && (Visible(w, a) && Visible(v, b) ==>
                  && w.metas[a].(fileId := "", uploadedAt := "") == v.metas[b].(fileId := "", uploadedAt := "")
                  && SlotOf(w, a).bytes == SlotOf(v, b).bytes)
  {
    OthersDoNotMatter(cfg, crowd, i, a);
    OthersDoNotMatter(cfg, alone, j, b);
    OutcomeUpToId(cfg, a, b, crowd.states[i].uploads[a].messages);
    if Visible(crowd.states[i], a) && Visible(alone.states[j], b) {
      ReportedIsComplete(cfg, crowd, i, a);
      ReportedIsComplete(cfg, alone, j, b);
    }
  }

  /** An upload that has not succeeded is never reported. One that failed and cleaned up has left no
      entry of any kind. One that met no I/O fault has failed to clean up exactly when it is a REST
      request whose body cannot be read to the end; its unfinished entries are then still there. */
  lemma FailureLeavesNothing(cfg: Config, h: History, i: nat, id: Id)
    requires Happens(cfg, h) && i < |h.states| && !Published(h.states[i], id)
    ensures var w := h.states[i];
            && !Visible(w, id) && id !in w.disclosed
            && (id in w.uploads && w.uploads[id].stage.Finished? ==>
                  var u := w.uploads[id];
                  && (!u.litter ==> id !in w.linked && id !in w.metas && id !in w.hashers)
                  && (!u.faulted ==> (u.litter <==> BreaksRestBody(cfg, u.front, u.messages)))
                  && (!u.faulted && u.litter ==> id in w.linked && id in w.metas))
  {
    var w := h.states[i];
    RunKeepsInv(cfg, h, i);
    assert CellOk(cfg, w, id) && DisclosedOk(w, id);
    if Visible(w, id) {
      VisibleIsPublished(cfg, w, id);
    }
    if id in w.uploads && w.uploads[id].stage.Finished? {
      FailedFacts(cfg, id, SlotOf(w, id), w.uploads[id]);
    }
  }

  /** No data file is ever longer than the limit, not even between two writes of one chunk. */
  lemma FilesStayWithinLimit(cfg: Config, h: History, i: nat, id: Id)
    requires Happens(cfg, h) && i < |h.states|
    ensures id in h.states[i].files ==> |h.states[i].files[id]| <= cfg.maxFileSize
  {
    RunKeepsInv(cfg, h, i);
    assert CellOk(cfg, h.states[i], id);
  }

  lemma PublishedBytes(cfg: Config, w: World, id: Id)
    requires Inv(cfg, w) && Published(w, id)
    ensures SlotOf(w, id).bytes == Payload(w.uploads[id].messages)
  {
    assert CellOk(cfg, w, id);
    FinishedFacts(cfg, id, SlotOf(w, id), w.uploads[id]);
  }

  /** A download that completes has delivered exactly the bytes that were uploaded, and as many as its
      record declared, even when the file was deleted meanwhile; one under way has delivered a prefix
      of them. */
  lemma DownloadsAreWhole(cfg: Config, h: History, i: nat, k: nat)
    requires Happens(cfg, h) && i < |h.states| && k in h.states[i].downloads
    ensures var w := h.states[i];
            var d := w.downloads[k];
            && (d.stage.DlDone? ==>
                  Published(w, d.id) && d.got == Payload(w.uploads[d.id].messages) && |d.got| == d.declared)
            && (d.stage.DlRead? ==> Published(w, d.id) && d.got <= Payload(w.uploads[d.id].messages))
  {
    var w := h.states[i];
    RunKeepsInv(cfg, h, i);
    assert DownloadOk(w, k);
    if w.downloads[k].stage.DlDone? || w.downloads[k].stage.DlRead? {
      PublishedBytes(cfg, w, w.downloads[k].id);
    }
  }

  // ----- From a state to any later one -----

  /** What happened stays so: success and its answer, and a delete that is done. */
  ghost predicate Lasting(w: World, t: World) {
    && (forall id :: Published(w, id) ==> Published(t, id) && t.uploads[id] == w.uploads[id])
    && (forall k :: k in w.deletes && w.deletes[k].stage == DelDone ==> k in t.deletes && t.deletes[k] == w.deletes[k])
  }

  lemma ActLasts(cfg: Config, w: World, step: Step)
    requires step.Act? && Enabled(cfg, w, step)
    ensures Lasting(w, Next(cfg, w, step))
  {
    var me, t := step.id, Next(cfg, w, step);
    var u := UploadNext(cfg, me, SlotOf(w, me), w.uploads[me], step.c).1;
    assert t.uploads == w.uploads[me := u] && t.deletes == w.deletes;
    if Over(w.uploads[me]) {
      OverStays(cfg, me, SlotOf(w, me), w.uploads[me], step.c);
    }
  }

  lemma StepLasts(cfg: Config, w: World, step: Step)
    ensures Lasting(w, Next(cfg, w, step))
  {
    if step.Act? && Enabled(cfg, w, step) {
      ActLasts(cfg, w, step);
    }
  }

  lemma LastingChain(w: World, x: World, t: World)
    requires Lasting(w, x) && Lasting(x, t)
    ensures Lasting(w, t)
  {
  }

  lemma {:induction false} RunLasts(cfg: Config, h: History, i: nat, j: nat)
    requires Happens(cfg, h) && i <= j < |h.states|
    ensures Lasting(h.states[i], h.states[j])
    decreases j
  {
    if i < j {
      RunLasts(cfg, h, i, j - 1);
      StepLasts(cfg, h.states[j - 1], h.steps[j - 1]);
      assert Follows(cfg, h, j - 1);
      LastingChain(h.states[i], h.states[j - 1], h.states[j]);
    }
  }

  /** A deleted file never comes back: nothing of it is in the directory or reported again. */
  lemma DeletedStaysDeleted(cfg: Config, h: History, i: nat, j: nat, k: nat)
    requires Happens(cfg, h) && i <= j < |h.states|
    requires k in h.states[i].deletes && h.states[i].deletes[k].stage == DelDone
    ensures var id := h.states[i].deletes[k].id;
            var t := h.states[j];
            id !in t.metas && id !in t.linked && !Visible(t, id)
  {
    RunLasts(cfg, h, i, j);
    RunKeepsInv(cfg, h, j);
    assert DeleteOk(h.states[j], k);
  }

  /** A published file stays published, with the same answer and the same bytes. */
  lemma PublishedStaysPublished(cfg: Config, h: History, i: nat, j: nat, id: Id)
    requires Happens(cfg, h) && i <= j < |h.states| && Published(h.states[i], id)
    ensures var w, t := h.states[i], h.states[j];
            Published(t, id) && t.uploads[id] == w.uploads[id] && SlotOf(t, id).bytes == SlotOf(w, id).bytes
  {
    RunLasts(cfg, h, i, j);
    RunKeepsInv(cfg, h, i);
    RunKeepsInv(cfg, h, j);
    PublishedBytes(cfg, h.states[i], id);
    PublishedBytes(cfg, h.states[j], id);
  }

  lemma OthersDoNotSeal(cfg: Config, id: Id, s: Slot, u: Upload, c: Choice)
    requires !u.stage.FinalizeWrite?
    ensures var s' := UploadNext(cfg, id, s, u, c).0;
            s'.meta == s.meta || s'.meta == None || s'.meta == Some(Initial(id, u))
  {
  }

  /** Only the last call of `finalize` makes a record visible, and it writes its time into it. */
  lemma UploadStamps(cfg: Config, id: Id, s: Slot, u: Upload, c: Choice)
    requires UploadOk(cfg, id, s, u)
    ensures var s' := UploadNext(cfg, id, s, u, c).0;
            s'.meta.Some? && s'.meta.value.finalized ==>
              if s.meta.Some? && s.meta.value.finalized then s'.meta == s.meta else s'.meta.value.uploadedAt == c.stamp
  {
    if !u.stage.FinalizeWrite? {
      OthersDoNotSeal(cfg, id, s, u, c);
    }
  }

  lemma ActStamps(cfg: Config, w: World, step: Step, id: Id)
    requires step.Act? && Enabled(cfg, w, step) && CellOk(cfg, w, id)
    ensures var t := Next(cfg, w, step);
            Visible(t, id) ==>
              if Visible(w, id) then t.metas[id] == w.metas[id]
              else step.id == id && t.metas[id].uploadedAt == step.c.stamp
  {
    var me, t := step.id, Next(cfg, w, step);
    var (s, u) := UploadNext(cfg, me, SlotOf(w, me), w.uploads[me], step.c);
    SlotAfterPut(w, me, s, id);
    assert SlotOf(t, id).meta == SlotOf(PutSlot(w, me, s), id).meta;
    assert SlotOf(t, id).meta == if id in t.metas then Some(t.metas[id]) else None;
    assert SlotOf(w, id).meta == if id in w.metas then Some(w.metas[id]) else None;
    if me == id {
      UploadStamps(cfg, id, SlotOf(w, id), w.uploads[id], step.c);
    }
  }

  lemma VisibleStep(cfg: Config, w: World, step: Step, id: Id)
    requires CellOk(cfg, w, id)
    ensures var t := Next(cfg, w, step);
            Visible(t, id) ==>
              if Visible(w, id) then t.metas[id] == w.metas[id]
              else step.Act? && step.id == id && t.metas[id].uploadedAt == step.c.stamp
  {
    if step.Act? && Enabled(cfg, w, step) {
      ActStamps(cfg, w, step, id);
    }
  }

  lemma VisibleInRun(cfg: Config, h: History, i: nat, id: Id)
    requires Follows(cfg, h, i) && i < |h.steps| && i + 1 < |h.states| && CellOk(cfg, h.states[i], id)
    ensures var w, t, step := h.states[i], h.states[i + 1], h.steps[i];
            Visible(t, id) ==>
              if Visible(w, id) then t.metas[id] == w.metas[id]
              else step.Act? && step.id == id && t.metas[id].uploadedAt == step.c.stamp
  {
    VisibleStep(cfg, h.states[i], h.steps[i], id);
  }

  /** The upload time in a record is the time that the step read which wrote it. */
  lemma {:induction false} StampIsWhenPublished(cfg: Config, h: History, i: nat, id: Id) returns (j: nat)
    requires Happens(cfg, h) && i < |h.states| && Visible(h.states[i], id)
    ensures j < i && !Visible(h.states[j], id) && Visible(h.states[j + 1], id)
    ensures h.steps[j].Act? && h.steps[j].id == id && h.states[i].metas[id].uploadedAt == h.steps[j].c.stamp
    decreases i
  {
    assert i > 0;
    RunKeepsInv(cfg, h, i - 1);
    assert Follows(cfg, h, i - 1) && CellOk(cfg, h.states[i - 1], id);
    VisibleInRun(cfg, h, i - 1, id);
    if Visible(h.states[i - 1], id) {
      j := StampIsWhenPublished(cfg, h, i - 1, id);
    } else {
      j := i - 1;
    }
  }

  predicate ShownIfPublished(w: World, id: Id) { Published(w, id) ==> id in w.disclosed }

  lemma StepDiscloses(cfg: Config, w: World, step: Step, id: Id)
    requires ShownIfPublished(w, id)
    ensures ShownIfPublished(Next(cfg, w, step), id)
  {
  }

  lemma {:induction false} PublishedIsShown(cfg: Config, h: History, i: nat, id: Id)
    requires Happens(cfg, h) && i < |h.states|
    ensures ShownIfPublished(h.states[i], id)
    decreases i
  {
    if i > 0 {
      PublishedIsShown(cfg, h, i - 1, id);
      assert Follows(cfg, h, i - 1);
      StepDiscloses(cfg, h.states[i - 1], h.steps[i - 1], id);
    }
  }

  /** Clients have been shown exactly the uploads that have succeeded. */
  lemma DisclosedIff(cfg: Config, h: History, i: nat, id: Id)
    requires Happens(cfg, h) && i < |h.states|
    ensures id in h.states[i].disclosed <==> Published(h.states[i], id)
  {
    RunKeepsInv(cfg, h, i);
    assert DisclosedOk(h.states[i], id);
    PublishedIsShown(cfg, h, i, id);
  }

  /** A sweep takes hashers and nothing else; a client that goes away stops its own upload. */
  lemma SweepAndCancel(cfg: Config, w: World, ids: set<Id>, id: Id)
    requires id in w.uploads
    ensures Next(cfg, w, Sweep(ids)) == w.(hashers := w.hashers - ids)
    ensures var t := Next(cfg, w, Cancel(id));
            && id in t.uploads && Interleaving.Over(t.uploads[id])
            && (w.uploads[id].stage.Finished? ==> t == w)
            && (forall other: Id :: other != id && other in w.uploads ==>
                  other in t.uploads && t.uploads[other] == w.uploads[other])
  {
    assert w.uploads[id := w.uploads[id]] == w.uploads;
  }

  lemma StepKeepsRequest(cfg: Config, w: World, step: Step, id: Id)
    ensures var t := Next(cfg, w, step);
            id in t.uploads ==>
              if id in w.uploads then
                t.uploads[id].front == w.uploads[id].front && t.uploads[id].messages == w.uploads[id].messages
              else step == Begin(id, t.uploads[id].front, t.uploads[id].messages)
  {
    if step.Act? && step.id == id && id in w.uploads {
      StepMarks(cfg, id, SlotOf(w, id), w.uploads[id], step.c);
    }
  }

  /** Every upload is the request that some client began, over that front end and with those messages. */
  lemma {:induction false} EveryUploadWasBegun(cfg: Config, h: History, i: nat, id: Id) returns (j: nat)
    requires Happens(cfg, h) && i < |h.states| && id in h.states[i].uploads
    ensures j < i && id !in h.states[j].uploads
    ensures h.steps[j] == Begin(id, h.states[i].uploads[id].front, h.states[i].uploads[id].messages)
    decreases i
  {
    assert i > 0 && Follows(cfg, h, i - 1);
    StepKeepsRequest(cfg, h.states[i - 1], h.steps[i - 1], id);
    if id in h.states[i - 1].uploads {
      j := EveryUploadWasBegun(cfg, h, i - 1, id);
    } else {
      j := i - 1;
    }
  }

  /** Whoever reads a finalized record has been shown its id. */
  lemma ReadersAreShown(cfg: Config, w: World, id: Id, k: nat, c: Choice)
    requires Visible(w, id)
    ensures Next(cfg, w, Report(id)) == w.(disclosed := w.disclosed + {id})
    ensures k in w.downloads && w.downloads[k].id == id && w.downloads[k].stage == DlMeta ==>
              id in Next(cfg, w, ActDownload(k, c)).disclosed
  {
  }

  /** A restart ends everything under way and loses every hasher; it leaves the directory alone. */
  lemma RestartEndsAll(cfg: Config, w: World)
    ensures var t := Next(cfg, w, Restart);
            && (forall id :: id in t.uploads ==> Interleaving.Over(t.uploads[id]))
            && (forall k :: k in t.deletes ==> t.deletes[k].stage !in {DelExists, DelData, DelMeta})
            && (forall k :: k in t.downloads ==> t.downloads[k].stage == DlDone || t.downloads[k].stage == DlFailed)
            && t.hashers == map[]
            && t.files == w.files && t.linked == w.linked && t.metas == w.metas
  {
  }

  // ----- Without I/O faults and restarts -----

  predicate Smooth(step: Step) {
    match step
    case Act(_, c) => !c.fault
    case ActDelete(_, fault) => !fault
    case Restart => false
    case _ => true
  }

  ghost predicate Unharmed(w: World) {
    && (forall id :: id in w.uploads ==> !w.uploads[id].faulted)
    && (forall k :: k in w.deletes ==> w.deletes[k].stage != DelHalf)
  }

  lemma SmoothStep(cfg: Config, w: World, step: Step)
    requires Unharmed(w) && Smooth(step)
    ensures Unharmed(Next(cfg, w, step))
  {
    if step.Act? && step.id in w.uploads {
      StepMarks(cfg, step.id, SlotOf(w, step.id), w.uploads[step.id], step.c);
    }
  }

  lemma {:induction false} SmoothRun(cfg: Config, h: History, i: nat)
    requires Happens(cfg, h) && i < |h.states| && forall j :: 0 <= j < i ==> Smooth(h.steps[j])
    ensures Unharmed(h.states[i])
    decreases i
  {
    if i > 0 {
      SmoothRun(cfg, h, i - 1);
      SmoothStep(cfg, h.states[i - 1], h.steps[i - 1]);
      assert Follows(cfg, h, i - 1);
    }
  }

  /** Then every finished upload got the answer its messages call for, and every reported file is
      there in full except between the two removals of a delete in progress. */
  lemma SmoothRunIsExact(cfg: Config, h: History, i: nat, id: Id)
    requires Happens(cfg, h) && i < |h.states| && forall j :: 0 <= j < i ==> Smooth(h.steps[j])
    ensures var w := h.states[i];
            && (id in w.uploads && w.uploads[id].stage.Finished? ==>
                  w.uploads[id].stage.result == Outcome(cfg, id, w.uploads[id].messages))
            && (Visible(w, id) && id !in w.linked ==>
                  exists k :: k in w.deletes && w.deletes[k].id == id && w.deletes[k].stage == DelMeta)
  {
    var w := h.states[i];
    SmoothRun(cfg, h, i);
    if id in w.uploads && w.uploads[id].stage.Finished? {
      OthersDoNotMatter(cfg, h, i, id);
    }
    if Visible(w, id) && id !in w.linked {
      ReportedIsComplete(cfg, h, i, id);
      var k :| Halfway(w, k, id);
      assert w.deletes[k].stage == DelMeta;
    }
  }
}
