/** Runs of the whole server over the steps of module Interleaving: the shared directory and hasher
    map, everybody who acts on them, and what holds in every state that any schedule can reach. */
module InterleavedRuns {
  import opened StreamingHash
  import opened Records
  import opened FileNames
  import opened UploadContract
  import opened Interleaving

  datatype DeleteStage = DelExists | DelData | DelMeta | DelDone | DelMissing | DelFailed | DelHalf
  datatype Delete = Delete(id: Id, stage: DeleteStage)

  datatype DownloadStage = DlMeta | DlOpen | DlRead | DlDone | DlFailed
  /** `declared` is the length in the record, which a REST download announces. */
  datatype Download = Download(id: Id, stage: DownloadStage, declared: nat, got: Bytes)

  /** The shared state. Uploads are named by the id they are given; deletes and downloads are
      numbered. `disclosed` holds the ids that a response or a listing has shown to clients. */
  datatype World = World(
    files: map<Id, Bytes>, linked: set<Id>, metas: map<Id, MetaRecord>, hashers: map<Id, Hasher>,
    uploads: map<Id, Upload>, deletes: map<nat, Delete>, downloads: map<nat, Download>, disclosed: set<Id>)

  const START := World(map[], {}, map[], map[], map[], map[], map[], {})

  function SlotOf(w: World, id: Id): Slot {
    Slot(if id in w.files then w.files[id] else [],
         id in w.linked,
         if id in w.metas then Some(w.metas[id]) else None,
         if id in w.hashers then Some(w.hashers[id]) else None)
  }

  function PutSlot(w: World, id: Id, s: Slot): World {
    w.(files := w.files[id := s.bytes],
       linked := if s.linked then w.linked + {id} else w.linked - {id},
       metas := if s.meta.Some? then w.metas[id := s.meta.value] else w.metas - {id},
       hashers := if s.hasher.Some? then w.hashers[id := s.hasher.value] else w.hashers - {id})
  }

  /** Writing one id's slot is seen by that id alone. */
  lemma SlotAfterPut(w: World, id: Id, s: Slot, other: Id)
    ensures SlotOf(PutSlot(w, id, s), other) == if other == id then s else SlotOf(w, other)
  {
  }

  // ----- Steps -----

  datatype Step =
    | Begin(id: Id, front: FrontEnd, messages: seq<Message>)
    | Act(id: Id, c: Choice)
    | Cancel(id: Id)
    | Sweep(ids: set<Id>)
    | Restart
    | Report(id: Id)
    | BeginDelete(k: nat, name: Id)
    | ActDelete(k: nat, fault: bool)
    | BeginDownload(k: nat, name: Id)
    | ActDownload(k: nat, c: Choice)

  predicate Published(w: World, id: Id) {
    id in w.uploads && IsPublished(w.uploads[id])
  }

  /** The record a reader of `{id}.meta` accepts. */
  predicate Visible(w: World, id: Id) {
    id in w.metas && w.metas[id].finalized
  }

  /** Ids are fresh and plain when given out. Clients may spell ids as they like, but what they delete
      they have been shown; a call whose id leads to no files answers not-found and does nothing. */
  predicate Enabled(cfg: Config, w: World, step: Step) {
    match step
    case Begin(id, _, _) => id !in w.uploads && PlainId(id)
    case Act(id, _) => id in w.uploads
    case Cancel(id) => id in w.uploads
    case BeginDelete(k, name) =>
      var at := Reach(cfg.layout, name);
      k !in w.deletes && at.Some? && at.value in w.disclosed
    case ActDelete(k, _) => k in w.deletes
    case BeginDownload(k, name) => k !in w.downloads && Reach(cfg.layout, name).Some?
    case ActDownload(k, _) => k in w.downloads
    case _ => true
  }

  function Cut(u: Upload): Upload {
    if u.stage.Finished? then u else u.(stage := Stopped)
  }

  function CutDelete(d: Delete): Delete {
    match d.stage
    case DelExists | DelData => d.(stage := DelFailed)
    case DelMeta => d.(stage := DelHalf)
    case _ => d
  }

  function CutDownload(d: Download): Download {
    if d.stage.DlDone? then d else d.(stage := DlFailed)
  }

  function DeleteNext(s: Slot, d: Delete, fault: bool): (Slot, Delete) {
    match d.stage
    case DelExists => if fault || s.meta.None? then (s, d.(stage := DelMissing)) else (s, d.(stage := DelData))
    case DelData => if fault then (s, d.(stage := DelFailed)) else (s.(linked := false), d.(stage := DelMeta))
    case DelMeta => if fault then (s, d.(stage := DelHalf)) else (s.(meta := None), d.(stage := DelDone))
    case _ => (s, d)
  }

  function DownloadNext(s: Slot, d: Download, c: Choice): Download {
    match d.stage
    case DlMeta =>
      if c.fault || s.meta.None? || !s.meta.value.finalized then d.(stage := DlFailed)
      else d.(stage := DlOpen, declared := s.meta.value.sizeBytes)
    case DlOpen => if c.fault || !s.linked then d.(stage := DlFailed) else d.(stage := DlRead)
    case DlRead =>
      if c.fault then d.(stage := DlFailed)
      else if |d.got| >= |s.bytes| then d.(stage := DlDone)
      else d.(got := d.got + s.bytes[|d.got|..|d.got| + Some1(c.amount, |s.bytes| - |d.got|)])
    case _ => d
  }

  /** A download, too, may get any part of what is left with each read. */
  lemma AnyPartIsDownloaded(s: Slot, d: Download, n: nat) returns (c: Choice)
    requires d.stage == DlRead && 0 < n && |d.got| + n <= |s.bytes|
    ensures !c.fault
    ensures DownloadNext(s, d, c) == d.(got := d.got + s.bytes[|d.got|..|d.got| + n])
  {
    c := Choice(false, n, "");
  }

  function Next(cfg: Config, w: World, step: Step): World {
    if !Enabled(cfg, w, step) then w
    else
      match step
      case Begin(id, front, messages) =>
        w.(uploads := w.uploads[id := NewUpload(front, messages)])
      case Act(id, c) =>
        var (s, u) := UploadNext(cfg, id, SlotOf(w, id), w.uploads[id], c);
        var t := PutSlot(w, id, s).(uploads := w.uploads[id := u]);
        if Published(t, id) then t.(disclosed := t.disclosed + {id}) else t
      case Cancel(id) => w.(uploads := w.uploads[id := Cut(w.uploads[id])])
      case Sweep(ids) => w.(hashers := w.hashers - ids)
      case Restart =>
        w.(hashers := map[],
           uploads := map id | id in w.uploads :: Cut(w.uploads[id]),
           deletes := map k | k in w.deletes :: CutDelete(w.deletes[k]),
           downloads := map k | k in w.downloads :: CutDownload(w.downloads[k]))
      case Report(id) => if Visible(w, id) then w.(disclosed := w.disclosed + {id}) else w
      case BeginDelete(k, name) => w.(deletes := w.deletes[k := Delete(Reach(cfg.layout, name).value, DelExists)])
      case ActDelete(k, fault) =>
        var d := w.deletes[k];
        var (s, d') := DeleteNext(SlotOf(w, d.id), d, fault);
        PutSlot(w, d.id, s).(deletes := w.deletes[k := d'])
      case BeginDownload(k, name) =>
        w.(downloads := w.downloads[k := Download(Reach(cfg.layout, name).value, DlMeta, 0, [])])
      case ActDownload(k, c) =>
        var d := w.downloads[k];
        w.(downloads := w.downloads[k := DownloadNext(SlotOf(w, d.id), d, c)],
           disclosed := if d.stage.DlMeta? && Visible(w, d.id) then w.disclosed + {d.id} else w.disclosed)
  }

  /** A run: the steps of a schedule, and the states before, between and after them. */
  datatype History = History(steps: seq<Step>, states: seq<World>)

  predicate Follows(cfg: Config, h: History, i: nat) {
    i < |h.steps| && i + 1 < |h.states| ==> h.states[i + 1] == Next(cfg, h.states[i], h.steps[i])
  }

  ghost predicate Happens(cfg: Config, h: History) {
    && |h.states| == |h.steps| + 1
    && h.states[0] == START
    && forall i: nat :: Follows(cfg, h, i)
  }

  /** Every schedule is the schedule of a run. */
  lemma {:induction false} EveryScheduleRuns(cfg: Config, steps: seq<Step>) returns (h: History)
    ensures Happens(cfg, h) && h.steps == steps
    decreases |steps|
  {
    if steps == [] {
      h := History([], [START]);
    } else {
      var n := |steps| - 1;
      var front := EveryScheduleRuns(cfg, steps[..n]);
      h := History(steps, front.states + [Next(cfg, front.states[n], steps[n])]);
      forall i: nat ensures Follows(cfg, h, i) {
        assert Follows(cfg, front, i);
      }
    }
  }

  // ----- The invariant -----

  predicate CellOk(cfg: Config, w: World, id: Id) {
    if id in w.uploads then UploadOk(cfg, id, SlotOf(w, id), w.uploads[id])
    else Gone(SlotOf(w, id)) && SlotOf(w, id).bytes == []
  }

  predicate Removing(d: Delete) { d.stage in {DelMeta, DelHalf, DelDone} }

  /** A delete of `id` that has passed the removal of the data. */
  predicate HasRemoved(w: World, k: nat, id: Id) {
    k in w.deletes && w.deletes[k].id == id && Removing(w.deletes[k])
  }

  /** A published file is whole until a delete removes it: data first, then the record. */
  ghost predicate PresenceOk(w: World, id: Id) {
    Published(w, id) ==>
      && (id !in w.linked ==> exists k :: HasRemoved(w, k, id))
      && (id !in w.metas ==> id !in w.linked && exists k :: HasRemoved(w, k, id) && w.deletes[k].stage == DelDone)
  }

  predicate DeleteOk(w: World, k: nat) {
    k in w.deletes ==>
      var d := w.deletes[k];
      && d.id in w.disclosed
      && (Removing(d) ==> d.id !in w.linked)
      && (d.stage == DelDone ==> d.id !in w.metas)
  }

  predicate DownloadOk(w: World, k: nat) {
    k in w.downloads ==>
      var d := w.downloads[k];
      var bytes := SlotOf(w, d.id).bytes;
      && (d.stage in {DlMeta, DlOpen} ==> d.got == [])
      && (d.stage in {DlOpen, DlRead, DlDone} ==> Published(w, d.id) && d.declared == |bytes| && d.got <= bytes)
      && (d.stage == DlDone ==> d.got == bytes)
  }

  predicate DisclosedOk(w: World, id: Id) {
    id in w.disclosed ==> Published(w, id)
  }

  ghost predicate Inv(cfg: Config, w: World) {
    && (forall id: Id :: CellOk(cfg, w, id))
    && (forall id: Id :: PresenceOk(w, id))
    && (forall id: Id :: DisclosedOk(w, id))
    && (forall k: nat :: DeleteOk(w, k))
    && (forall k: nat :: DownloadOk(w, k))
  }

  // ----- Every step keeps the invariant -----

  /** Only a finished `finalize` makes a record that readers accept. */
  lemma VisibleIsPublished(cfg: Config, w: World, id: Id)
    requires CellOk(cfg, w, id) && Visible(w, id)
    ensures Published(w, id)
  {
    var s := SlotOf(w, id);
    assert s.meta == Some(w.metas[id]);
  }

  /** A step publishes only by writing the record of a file that is there, and changes nothing of an
      upload that is over. */
  lemma StepFacts(cfg: Config, id: Id, s: Slot, u: Upload, c: Choice)
    requires u.stage.FinalizeWrite? ==> s.linked
    ensures var (s', u') := UploadNext(cfg, id, s, u, c);
            && (IsPublished(u) ==> s' == s && u' == u)
            && (!IsPublished(u) && IsPublished(u') ==> s'.linked && s'.meta.Some?)
  {
  }

  lemma LinkedBeforeRecord(cfg: Config, id: Id, s: Slot, u: Upload)
    requires UploadOk(cfg, id, s, u)
    ensures u.stage.FinalizeWrite? ==> s.linked
  {
  }

  /** From `w` to `t` nothing happened to the files of published uploads. */
  predicate LeavesPublished(w: World, t: World, id: Id) {
    Published(w, id) ==>
      && id in t.uploads && t.uploads[id] == w.uploads[id]
      && SlotOf(t, id).bytes == SlotOf(w, id).bytes
      && (id in t.linked <==> id in w.linked)
      && (id in t.metas <==> id in w.metas)
  }

  /** A step that leaves published files alone keeps every promise about them. */
  lemma QuietStep(cfg: Config, w: World, t: World)
    requires Inv(cfg, w)
    requires forall id: Id :: CellOk(cfg, t, id)
    requires forall id: Id :: LeavesPublished(w, t, id)
    requires forall id: Id :: Published(t, id) && !Published(w, id) ==> id in t.linked && id in t.metas
    requires w.disclosed <= t.disclosed
    requires forall id: Id :: id in t.disclosed && id !in w.disclosed ==> Published(t, id)
    requires t.deletes == w.deletes && t.downloads == w.downloads
    ensures Inv(cfg, t)
  {
    forall id: Id ensures DisclosedOk(t, id) {
      assert DisclosedOk(w, id) && LeavesPublished(w, t, id);
    }
    forall id: Id ensures PresenceOk(t, id) {
      assert PresenceOk(w, id) && LeavesPublished(w, t, id);
      assert forall k :: HasRemoved(w, k, id) ==> HasRemoved(t, k, id);
    }
    forall k: nat ensures DeleteOk(t, k) {
      assert DeleteOk(w, k);
      if k in w.deletes {
        assert DisclosedOk(w, w.deletes[k].id) && LeavesPublished(w, t, w.deletes[k].id);
      }
    }
    forall k: nat ensures DownloadOk(t, k) {
      assert DownloadOk(w, k);
      if k in w.downloads {
        assert LeavesPublished(w, t, w.downloads[k].id);
      }
    }
  }

  lemma BeginKeeps(cfg: Config, w: World, step: Step)
    requires Inv(cfg, w) && step.Begin? && Enabled(cfg, w, step)
    ensures Inv(cfg, Next(cfg, w, step))
  {
    var t := Next(cfg, w, step);
    assert CellOk(cfg, w, step.id);
    forall id: Id ensures CellOk(cfg, t, id) {
      assert CellOk(cfg, w, id);
      assert SlotOf(t, id) == SlotOf(w, id);
      if id == step.id {
        assert id !in w.files ==> SlotOf(w, id).bytes == [];
      }
    }
    forall id: Id ensures LeavesPublished(w, t, id) {
      assert SlotOf(t, id) == SlotOf(w, id);
    }
    QuietStep(cfg, w, t);
  }

  lemma SameCell(cfg: Config, w: World, t: World, id: Id)
    requires CellOk(cfg, w, id) && SlotOf(t, id) == SlotOf(w, id)
    requires (id in t.uploads <==> id in w.uploads) && (id in w.uploads ==> t.uploads[id] == w.uploads[id])
    ensures CellOk(cfg, t, id)
  {
  }

  lemma ActCells(cfg: Config, w: World, t: World, me: Id, c: Choice)
    requires Inv(cfg, w) && me in w.uploads
    requires var (s, u) := UploadNext(cfg, me, SlotOf(w, me), w.uploads[me], c);
             t == PutSlot(w, me, s).(uploads := w.uploads[me := u], disclosed := t.disclosed)
    ensures forall id: Id :: CellOk(cfg, t, id)
  {
    var (s, u) := UploadNext(cfg, me, SlotOf(w, me), w.uploads[me], c);
    assert CellOk(cfg, w, me);
    UploadKeeps(cfg, me, SlotOf(w, me), w.uploads[me], c);
    forall id: Id ensures CellOk(cfg, t, id) {
      SlotAfterPut(w, me, s, id);
      assert SlotOf(t, id) == SlotOf(PutSlot(w, me, s), id);
      if id != me {
        assert CellOk(cfg, w, id);
        SameCell(cfg, w, t, id);
      }
    }
  }

  /** What a step of the upload `me` does to the cell of any id. */
  lemma ActLeavesCell(cfg: Config, w: World, t: World, me: Id, c: Choice, id: Id)
    requires me in w.uploads && (w.uploads[me].stage.FinalizeWrite? ==> me in w.linked)
    requires var (s, u) := UploadNext(cfg, me, SlotOf(w, me), w.uploads[me], c);
             t == PutSlot(w, me, s).(uploads := w.uploads[me := u], disclosed := t.disclosed)
    ensures LeavesPublished(w, t, id)
    ensures Published(t, id) && !Published(w, id) ==> id in t.linked && id in t.metas
  {
    var (s, u) := UploadNext(cfg, me, SlotOf(w, me), w.uploads[me], c);
    StepFacts(cfg, me, SlotOf(w, me), w.uploads[me], c);
    SlotAfterPut(w, me, s, id);
    assert SlotOf(t, id) == SlotOf(PutSlot(w, me, s), id);
    assert SlotOf(t, id).linked == (id in t.linked) && SlotOf(t, id).meta.Some? == (id in t.metas);
    assert SlotOf(w, id).linked == (id in w.linked) && SlotOf(w, id).meta.Some? == (id in w.metas);
  }

  lemma ActLeaves(cfg: Config, w: World, t: World, me: Id, c: Choice)
    requires me in w.uploads && (w.uploads[me].stage.FinalizeWrite? ==> me in w.linked)
    requires var (s, u) := UploadNext(cfg, me, SlotOf(w, me), w.uploads[me], c);
             t == PutSlot(w, me, s).(uploads := w.uploads[me := u], disclosed := t.disclosed)
    ensures forall id: Id :: LeavesPublished(w, t, id)
    ensures forall id: Id :: Published(t, id) && !Published(w, id) ==> id in t.linked && id in t.metas
  {
    forall id: Id
      ensures LeavesPublished(w, t, id)
      ensures Published(t, id) && !Published(w, id) ==> id in t.linked && id in t.metas
    {
      ActLeavesCell(cfg, w, t, me, c, id);
    }
  }

  lemma ActKeeps(cfg: Config, w: World, step: Step)
    requires Inv(cfg, w) && step.Act? && Enabled(cfg, w, step)
    ensures Inv(cfg, Next(cfg, w, step))
  {
    var t, me := Next(cfg, w, step), step.id;
    assert CellOk(cfg, w, me);
    LinkedBeforeRecord(cfg, me, SlotOf(w, me), w.uploads[me]);
    ActCells(cfg, w, t, me, step.c);
    ActLeaves(cfg, w, t, me, step.c);
    QuietStep(cfg, w, t);
  }

  lemma CancelKeeps(cfg: Config, w: World, step: Step)
    requires Inv(cfg, w) && step.Cancel? && Enabled(cfg, w, step)
    ensures Inv(cfg, Next(cfg, w, step))
  {
    var t := Next(cfg, w, step);
    forall id: Id ensures CellOk(cfg, t, id) && LeavesPublished(w, t, id) {
      assert CellOk(cfg, w, id);
      assert SlotOf(t, id) == SlotOf(w, id);
    }
    QuietStep(cfg, w, t);
  }

  lemma SweepKeeps(cfg: Config, w: World, step: Step)
    requires Inv(cfg, w) && step.Sweep?
    ensures Inv(cfg, Next(cfg, w, step))
  {
    var t := Next(cfg, w, step);
    forall id: Id ensures CellOk(cfg, t, id) && LeavesPublished(w, t, id) {
      assert CellOk(cfg, w, id);
      assert SlotOf(t, id) == if id in step.ids then SlotOf(w, id).(hasher := None) else SlotOf(w, id);
      if id in w.uploads {
        EvictionHarmless(cfg, id, SlotOf(w, id), w.uploads[id]);
      }
    }
    QuietStep(cfg, w, t);
  }

  lemma CutHarmless(cfg: Config, id: Id, s: Slot, u: Upload)
    requires UploadOk(cfg, id, s, u)
    ensures UploadOk(cfg, id, s, Cut(u))
  {
  }

  lemma RestartCalm(cfg: Config, w: World, t: World)
    requires Inv(cfg, w)
    requires t == w.(hashers := map[], uploads := map id | id in w.uploads :: Cut(w.uploads[id]))
    ensures Inv(cfg, t)
  {
    forall id: Id ensures CellOk(cfg, t, id) && LeavesPublished(w, t, id) && (Published(t, id) ==> Published(w, id)) {
      assert CellOk(cfg, w, id);
      assert SlotOf(t, id) == SlotOf(w, id).(hasher := None);
      if id in w.uploads {
        EvictionHarmless(cfg, id, SlotOf(w, id), w.uploads[id]);
        CutHarmless(cfg, id, SlotOf(t, id), w.uploads[id]);
      }
    }
    QuietStep(cfg, w, t);
  }

  lemma CutKeeps(cfg: Config, w: World, t: World)
    requires Inv(cfg, w)
    requires t == w.(deletes := map k | k in w.deletes :: CutDelete(w.deletes[k]),
                     downloads := map k | k in w.downloads :: CutDownload(w.downloads[k]))
    ensures Inv(cfg, t)
  {
    forall id: Id ensures CellOk(cfg, t, id) && DisclosedOk(t, id) && PresenceOk(t, id) {
      assert CellOk(cfg, w, id) && DisclosedOk(w, id) && PresenceOk(w, id);
      SameCell(cfg, w, t, id);
      assert forall k :: HasRemoved(w, k, id) ==> HasRemoved(t, k, id);
    }
    forall k: nat ensures DeleteOk(t, k) && DownloadOk(t, k) {
      assert DeleteOk(w, k) && DownloadOk(w, k);
      if k in w.downloads {
        assert SlotOf(w, w.downloads[k].id) == SlotOf(t, w.downloads[k].id);
      }
    }
  }

  /** A restart is a sweep of everything and a cut of every upload; then deletes and downloads are
      cut, which takes back nothing they have done. */
  lemma RestartKeeps(cfg: Config, w: World)
    requires Inv(cfg, w)
    ensures Inv(cfg, Next(cfg, w, Restart))
  {
    var t := Next(cfg, w, Restart);
    var calm := t.(deletes := w.deletes, downloads := w.downloads);
    RestartCalm(cfg, w, calm);
    CutKeeps(cfg, calm, t);
  }

  lemma ReportKeeps(cfg: Config, w: World, step: Step)
    requires Inv(cfg, w) && step.Report?
    ensures Inv(cfg, Next(cfg, w, step))
  {
    var t := Next(cfg, w, step);
    if Visible(w, step.id) {
      assert CellOk(cfg, w, step.id);
      VisibleIsPublished(cfg, w, step.id);
    }
    forall id: Id ensures CellOk(cfg, t, id) && LeavesPublished(w, t, id) {
      assert CellOk(cfg, w, id);
      assert SlotOf(t, id) == SlotOf(w, id);
    }
    QuietStep(cfg, w, t);
  }

  lemma BeginDeleteKeeps(cfg: Config, w: World, step: Step)
    requires Inv(cfg, w) && step.BeginDelete? && Enabled(cfg, w, step)
    ensures Inv(cfg, Next(cfg, w, step))
  {
    var t := Next(cfg, w, step);
    forall id: Id ensures CellOk(cfg, t, id) && PresenceOk(t, id) && DisclosedOk(t, id) {
      assert CellOk(cfg, w, id) && PresenceOk(w, id) && DisclosedOk(w, id);
      assert SlotOf(t, id) == SlotOf(w, id);
      assert forall k :: HasRemoved(w, k, id) ==> HasRemoved(t, k, id);
    }
    forall k: nat ensures DeleteOk(t, k) && DownloadOk(t, k) {
      assert DeleteOk(w, k) && DownloadOk(w, k);
      if k in w.downloads {
        assert SlotOf(t, w.downloads[k].id) == SlotOf(w, w.downloads[k].id);
      }
    }
  }

  /** What a step of a delete can do to the directory entries of its id. */
  predicate DeleteMoves(s: Slot, d: Delete, s': Slot, d': Delete) {
    && d'.id == d.id
    && s'.bytes == s.bytes
    && (Removing(d') ==> !s'.linked)
    && (d'.stage == DelDone ==> s'.meta.None?)
    && (Removing(d) ==> Removing(d'))
    && (d.stage == DelDone ==> d'.stage == DelDone)
    && (s'.linked ==> s.linked) && (s.linked && !s'.linked ==> Removing(d'))
    && (s'.meta.Some? ==> s.meta.Some?) && (s.meta.Some? && s'.meta.None? ==> d'.stage == DelDone)
  }

  lemma DeleteFacts(cfg: Config, id: Id, s: Slot, u: Upload, d: Delete, fault: bool)
    requires UploadOk(cfg, id, s, u) && IsPublished(u)
    requires Removing(d) ==> !s.linked
    requires d.stage == DelDone ==> s.meta.None?
    ensures var (s', d') := DeleteNext(s, d, fault);
            UploadOk(cfg, id, s', u) && DeleteMoves(s, d, s', d')
  {
  }

  lemma DeletedSlot(w: World, t: World, k: nat, me: Id, s: Slot, d: Delete)
    requires t == PutSlot(w, me, s).(deletes := w.deletes[k := d])
    ensures forall id: Id :: SlotOf(t, id) == if id == me then s else SlotOf(w, id)
    ensures forall id: Id :: id in t.linked <==> if id == me then s.linked else id in w.linked
    ensures forall id: Id :: id in t.metas <==> if id == me then s.meta.Some? else id in w.metas
  {
    forall id: Id ensures SlotOf(t, id) == if id == me then s else SlotOf(w, id) {
      SlotAfterPut(w, me, s, id);
      assert SlotOf(t, id) == SlotOf(PutSlot(w, me, s), id);
    }
  }

  lemma DeletePresence(w: World, t: World, k: nat, s: Slot, d: Delete)
    requires k in w.deletes && forall id: Id :: PresenceOk(w, id)
    requires var me := w.deletes[k].id;
             t == PutSlot(w, me, s).(deletes := w.deletes[k := d]) && DeleteMoves(SlotOf(w, me), w.deletes[k], s, d)
    ensures forall id: Id :: PresenceOk(t, id)
  {
    var me := w.deletes[k].id;
    DeletedSlot(w, t, k, me, s, d);
    forall id: Id ensures PresenceOk(t, id) {
      assert PresenceOk(w, id);
      assert forall j :: HasRemoved(w, j, id) ==> HasRemoved(t, j, id);
      assert id == me && Removing(d) ==> HasRemoved(t, k, id);
    }
  }

  lemma DeleteBooks(w: World, t: World, k: nat, s: Slot, d: Delete)
    requires k in w.deletes && forall j: nat :: DeleteOk(w, j) && DownloadOk(w, j)
    requires var me := w.deletes[k].id;
             t == PutSlot(w, me, s).(deletes := w.deletes[k := d]) && DeleteMoves(SlotOf(w, me), w.deletes[k], s, d)
    ensures forall j: nat :: DeleteOk(t, j) && DownloadOk(t, j)
  {
    DeletedSlot(w, t, k, w.deletes[k].id, s, d);
    assert DeleteOk(w, k);
    forall j: nat ensures DeleteOk(t, j) && DownloadOk(t, j) {
      assert DeleteOk(w, j) && DownloadOk(w, j);
    }
  }

  lemma DeleteCells(cfg: Config, w: World, t: World, k: nat, s: Slot, d: Delete)
    requires k in w.deletes && forall id: Id :: CellOk(cfg, w, id)
    requires var me := w.deletes[k].id;
             && t == PutSlot(w, me, s).(deletes := w.deletes[k := d])
             && me in w.uploads && UploadOk(cfg, me, s, w.uploads[me])
    ensures forall id: Id :: CellOk(cfg, t, id)
  {
    var me := w.deletes[k].id;
    DeletedSlot(w, t, k, me, s, d);
    forall id: Id ensures CellOk(cfg, t, id) {
      assert CellOk(cfg, w, id);
      if id != me {
        SameCell(cfg, w, t, id);
      }
    }
  }

  lemma ActDeleteKeeps(cfg: Config, w: World, step: Step)
    requires Inv(cfg, w) && step.ActDelete? && Enabled(cfg, w, step)
    ensures Inv(cfg, Next(cfg, w, step))
  {
    var t, me := Next(cfg, w, step), w.deletes[step.k].id;
    var (s, d) := DeleteNext(SlotOf(w, me), w.deletes[step.k], step.fault);
    assert DeleteOk(w, step.k) && DisclosedOk(w, me) && CellOk(cfg, w, me);
    DeleteFacts(cfg, me, SlotOf(w, me), w.uploads[me], w.deletes[step.k], step.fault);
    DeleteCells(cfg, w, t, step.k, s, d);
    DeletePresence(w, t, step.k, s, d);
    DeleteBooks(w, t, step.k, s, d);
    forall id: Id ensures DisclosedOk(t, id) {
      assert DisclosedOk(w, id);
    }
  }

  /** A step that changes one download, and perhaps discloses a visible id. */
  lemma OnlyDownloads(cfg: Config, w: World, t: World, k: nat)
    requires Inv(cfg, w) && k in t.downloads
    requires t == w.(downloads := w.downloads[k := t.downloads[k]], disclosed := t.disclosed)
    requires w.disclosed <= t.disclosed && forall id :: id in t.disclosed && id !in w.disclosed ==> Visible(w, id)
    requires DownloadOk(t, k)
    ensures Inv(cfg, t)
  {
    forall id: Id ensures CellOk(cfg, t, id) && PresenceOk(t, id) && DisclosedOk(t, id) {
      assert CellOk(cfg, w, id) && PresenceOk(w, id) && DisclosedOk(w, id);
      assert SlotOf(t, id) == SlotOf(w, id);
      assert forall k :: HasRemoved(w, k, id) ==> HasRemoved(t, k, id);
      if id in t.disclosed && id !in w.disclosed {
        VisibleIsPublished(cfg, w, id);
      }
    }
    forall j: nat ensures DeleteOk(t, j) && DownloadOk(t, j) {
      assert DeleteOk(w, j) && DownloadOk(w, j);
      if j in w.downloads && j != k {
        assert SlotOf(t, w.downloads[j].id) == SlotOf(w, w.downloads[j].id);
      }
    }
  }

  lemma BeginDownloadKeeps(cfg: Config, w: World, step: Step)
    requires Inv(cfg, w) && step.BeginDownload? && Enabled(cfg, w, step)
    ensures Inv(cfg, Next(cfg, w, step))
  {
    OnlyDownloads(cfg, w, Next(cfg, w, step), step.k);
  }

  /** One step of a download reads on from where it is. */
  lemma DownloadFacts(s: Slot, d: Download, c: Choice)
    requires d.stage in {DlMeta, DlOpen} ==> d.got == []
    requires d.stage in {DlOpen, DlRead, DlDone} ==> d.got <= s.bytes
    requires d.stage == DlDone ==> d.got == s.bytes
    ensures var d' := DownloadNext(s, d, c);
            && d'.id == d.id
            && (d'.stage in {DlMeta, DlOpen} ==> d'.got == [])
            && (d'.stage in {DlOpen, DlRead, DlDone} ==> d'.got <= s.bytes)
            && (d'.stage == DlDone ==> d'.got == s.bytes)
            && (d.stage.DlMeta? && d'.stage.DlOpen? ==> s.meta.Some? && d'.declared == s.meta.value.sizeBytes)
            && (!d.stage.DlMeta? ==> d'.declared == d.declared)
            && (d'.stage in {DlOpen, DlRead, DlDone} ==>
                  d.stage in {DlOpen, DlRead, DlDone} || (d.stage == DlMeta && s.meta.Some? && s.meta.value.finalized))
  {
  }

  lemma ActDownloadKeeps(cfg: Config, w: World, step: Step)
    requires Inv(cfg, w) && step.ActDownload? && Enabled(cfg, w, step)
    ensures Inv(cfg, Next(cfg, w, step))
  {
    var t, d := Next(cfg, w, step), w.downloads[step.k];
    assert DownloadOk(w, step.k);
    if d.stage.DlMeta? && Visible(w, d.id) {
      assert CellOk(cfg, w, d.id);
      VisibleIsPublished(cfg, w, d.id);
      assert SlotOf(w, d.id).meta == Some(w.metas[d.id]);
    }
    DownloadFacts(SlotOf(w, d.id), d, step.c);
    assert SlotOf(t, d.id) == SlotOf(w, d.id);
    OnlyDownloads(cfg, w, t, step.k);
  }

  lemma StepKeepsInv(cfg: Config, w: World, step: Step)
    requires Inv(cfg, w)
    ensures Inv(cfg, Next(cfg, w, step))
  {
    if Enabled(cfg, w, step) {
      match step
      case Begin(_, _, _) => BeginKeeps(cfg, w, step);
      case Act(_, _) => ActKeeps(cfg, w, step);
      case Cancel(_) => CancelKeeps(cfg, w, step);
      case Sweep(_) => SweepKeeps(cfg, w, step);
      case Restart => RestartKeeps(cfg, w);
      case Report(_) => ReportKeeps(cfg, w, step);
      case BeginDelete(_, _) => BeginDeleteKeeps(cfg, w, step);
      case ActDelete(_, _) => ActDeleteKeeps(cfg, w, step);
      case BeginDownload(_, _) => BeginDownloadKeeps(cfg, w, step);
      case ActDownload(_, _) => ActDownloadKeeps(cfg, w, step);
    }
  }

  lemma {:induction false} RunKeepsInv(cfg: Config, h: History, i: nat)
    requires Happens(cfg, h) && i < |h.states|
    ensures Inv(cfg, h.states[i])
    decreases i
  {
    if i > 0 {
      RunKeepsInv(cfg, h, i - 1);
      StepKeepsInv(cfg, h.states[i - 1], h.steps[i - 1]);
      assert Follows(cfg, h, i - 1);
    }
  }
}
