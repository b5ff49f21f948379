/** The storage API with each operation as one step and no I/O faults: what every operation does to
    the directory and to the map of in-flight hashers, for clients that call anything in any order.
    Files are kept by the id whose entries they are, hashers by the id they were put in under; a call
    acts on the files that its id leads to, and on the hasher of exactly its id. */
module StoreModel {
  import opened StreamingHash
  import opened Records
  import opened FileNames

  /** `used` holds every id ever handed out; a new UUID version 7 is never among them. */
  datatype Store = Store(data: map<Id, Bytes>, records: map<Id, MetaRecord>, hashers: map<Id, InFlight>, used: set<Id>)

  // ----- Operations -----

  function Create(cfg: Config, s: Store, id: Id, name: string, contentType: string, now: nat)
    : (Store, Result<Id, StorageError>)
  {
    var fault := NameVerdict(name);
    if fault.Some? then (s, Err(InvalidFileName(fault.value)))
    else
      (Store(s.data[id := []],
             s.records[id := InitialRecord(id, name, contentType)],
             s.hashers[id := InFlight(cfg.hash.start, now)],
             s.used + {id}),
       Ok(id))
  }

  /** Whether the files that `id` leads to include a record. */
  predicate InRecords(cfg: Config, s: Store, id: Id) {
    Reach(cfg.layout, id).Some? && Reach(cfg.layout, id).value in s.records
  }

  function Absorb(cfg: Config, entry: InFlight, bytes: Bytes): InFlight {
    entry.(hasher := cfg.hash.update(entry.hasher, bytes))
  }

  function Append(cfg: Config, s: Store, id: Id, bytes: Bytes): (Store, Result<(), StorageError>) {
    if !InRecords(cfg, s, id) then (s, Err(NotFound(id)))
    else
      var x := Reach(cfg.layout, id).value;
      if x !in s.data then (s, Err(Io))
      else if |s.data[x]| + |bytes| > cfg.maxFileSize then
        (s, Err(TooLarge(RefusedSize(|s.data[x]|, |bytes|), cfg.maxFileSize)))
      else
        (s.(data := s.data[x := s.data[x] + bytes],
            hashers := if id in s.hashers then s.hashers[id := Absorb(cfg, s.hashers[id], bytes)] else s.hashers),
         Ok(()))
  }

  /** The entry leaves the map before anything that can fail. */
  function Finalize(cfg: Config, s: Store, id: Id, now: string): (Store, Result<FileMetadata, StorageError>) {
    if !InRecords(cfg, s, id) then (s, Err(NotFound(id)))
    else
      var x := Reach(cfg.layout, id).value;
      var taken := s.(hashers := s.hashers - {id});
      if x !in s.data then (taken, Err(Io))
      else
        var checksum := if id in s.hashers then cfg.hash.finish(s.hashers[id].hasher) else Digest(cfg.hash, s.data[x]);
        var m := s.records[x].(sizeBytes := |s.data[x]|, checksum := checksum, uploadedAt := now, finalized := true);
        (taken.(records := s.records[x := m]),
         Ok(FileMetadata(id, m.fileName, m.contentType, m.sizeBytes, m.checksum, m.uploadedAt)))
  }

  /** The ids whose files a call on `id` removes. */
  function Targets(cfg: Config, id: Id): set<Id> {
    if Reach(cfg.layout, id).Some? then {Reach(cfg.layout, id).value} else {}
  }

  function Abort(cfg: Config, s: Store, id: Id): Store {
    s.(data := s.data - Targets(cfg, id), records := s.records - Targets(cfg, id), hashers := s.hashers - {id})
  }

  /** The path of the data file of `id` runs through a file of the storage directory. */
  predicate Blocked(cfg: Config, s: Store, id: Id) {
    var entry := StuckAt(cfg.layout, DataName(id));
    entry.Some? && Occupied(s.data, s.records, entry.value)
  }

  /** Removing what is not there is no error, but looking a name up in a file is. */
  function AbortAnswer(cfg: Config, s: Store, id: Id): Result<(), StorageError> {
    if Blocked(cfg, s, id) then Err(Io) else Ok(())
  }

  function MetadataOf(cfg: Config, s: Store, id: Id): Result<FileMetadata, StorageError> {
    if !InRecords(cfg, s, id) || !s.records[Reach(cfg.layout, id).value].finalized then Err(NotFound(id))
    else Ok(Public(s.records[Reach(cfg.layout, id).value]))
  }

  function Content(cfg: Config, s: Store, id: Id): Result<Bytes, StorageError> {
    var m := MetadataOf(cfg, s, id);
    if m.Err? then Err(m.error)
    else if Reach(cfg.layout, id).value !in s.data then Err(Io)
    else Ok(s.data[Reach(cfg.layout, id).value])
  }

  /** The entry in the map of hashers, if any, stays behind. */
  function Delete(cfg: Config, s: Store, id: Id): (Store, Result<(), StorageError>) {
    if !InRecords(cfg, s, id) then (s, Err(NotFound(id)))
    else (s.(data := s.data - Targets(cfg, id), records := s.records - Targets(cfg, id)), Ok(()))
  }

  function Age(entry: InFlight, now: nat): nat {
    if now >= entry.createdAt then now - entry.createdAt else 0
  }

  function Stale(hashers: map<Id, InFlight>, now: nat, ttl: nat): set<Id> {
    set id | id in hashers && Age(hashers[id], now) > ttl
  }

  function Evict(s: Store, ids: set<Id>): Store {
    s.(hashers := s.hashers - ids)
  }

  /** The process ends and starts again on the same directory. */
  function Restart(s: Store): Store {
    s.(hashers := map[])
  }

  // ----- The invariants -----

  /** What holds of the files of every id, whatever names calls use. */
  predicate Tidy(cfg: Config, s: Store, id: Id) {
    && (id in s.data <==> id in s.records)
    && (id in s.data || id in s.hashers ==> id in s.used)
    && (id in s.used ==> PlainId(id))
    && (id in s.data ==> |s.data[id]| <= cfg.maxFileSize)
    && (id in s.records ==> s.records[id].fileId == id)
    && (id in s.records && s.records[id].finalized ==> s.records[id].sizeBytes <= |s.data[id]|)
  }

  ghost predicate Sound(cfg: Config, s: Store) {
    forall id: Id :: Tidy(cfg, s, id)
  }

  predicate RecordTrue(hash: Hashing, m: MetaRecord, bytes: Bytes) {
    m.sizeBytes <= |bytes| && m.checksum == Digest(hash, bytes[..m.sizeBytes])
  }

  /** What holds as long as appends and finalizes reach the files of an id under that id only. */
  predicate IdOk(cfg: Config, s: Store, id: Id) {
    && Tidy(cfg, s, id)
    && (id in s.data && id in s.hashers ==> s.hashers[id].hasher == Absorbed(cfg.hash, s.data[id]))
    && (id in s.records && s.records[id].finalized ==>
          id !in s.hashers && RecordTrue(cfg.hash, s.records[id], s.data[id]))
  }

  ghost predicate Inv(cfg: Config, s: Store) {
    forall id: Id :: IdOk(cfg, s, id)
  }

  datatype Op =
    | CreateOp(id: Id, name: string, contentType: string, now: nat)
    | AppendOp(id: Id, bytes: Bytes)
    | FinalizeOp(id: Id, stamp: string)
    | AbortOp(id: Id)
    | MetadataOp(id: Id)
    | ContentOp(id: Id)
    | DeleteOp(id: Id)
    | EvictOp(ids: set<Id>)
    | RestartOp

  datatype Answer =
    | Named(Result<Id, StorageError>)
    | Acked(Result<(), StorageError>)
    | Described(description: Result<FileMetadata, StorageError>)
    | Sent(Result<Bytes, StorageError>)

  predicate Housekeeping(op: Op) { op.EvictOp? || op.RestartOp? }

  /** A new id is a UUID: never handed out before, and without a slash. */
  predicate Possible(s: Store, op: Op) { op.CreateOp? ==> op.id !in s.used && PlainId(op.id) }

  function Apply(cfg: Config, s: Store, op: Op): (Store, Answer) {
    match op
    case CreateOp(id, name, contentType, now) => var (t, r) := Create(cfg, s, id, name, contentType, now); (t, Named(r))
    case AppendOp(id, bytes) => var (t, r) := Append(cfg, s, id, bytes); (t, Acked(r))
    case FinalizeOp(id, stamp) => var (t, r) := Finalize(cfg, s, id, stamp); (t, Described(r))
    case AbortOp(id) => (Abort(cfg, s, id), Acked(AbortAnswer(cfg, s, id)))
    case MetadataOp(id) => (s, Described(MetadataOf(cfg, s, id)))
    case ContentOp(id) => (s, Sent(Content(cfg, s, id)))
    case DeleteOp(id) => var (t, r) := Delete(cfg, s, id); (t, Acked(r))
    case EvictOp(ids) => (Evict(s, ids), Acked(Ok(())))
    case RestartOp => (Restart(s), Acked(Ok(())))
  }

  predicate SameEntries(s: Store, t: Store, id: Id) {
    && (id in t.data <==> id in s.data) && (id in s.data ==> t.data[id] == s.data[id])
    && (id in t.records <==> id in s.records) && (id in s.records ==> t.records[id] == s.records[id])
  }

  predicate SameHasher(s: Store, t: Store, id: Id) {
    (id in t.hashers <==> id in s.hashers) && (id in s.hashers ==> t.hashers[id] == s.hashers[id])
  }

  lemma AppendOthers(cfg: Config, s: Store, op: Op, other: Id)
    requires op.AppendOp?
    ensures Reach(cfg.layout, op.id) != Some(other) ==> SameEntries(s, Apply(cfg, s, op).0, other)
    ensures op.id != other ==> SameHasher(s, Apply(cfg, s, op).0, other)
  {
  }

  lemma FinalizeOthers(cfg: Config, s: Store, op: Op, other: Id)
    requires op.FinalizeOp?
    ensures Reach(cfg.layout, op.id) != Some(other) ==> SameEntries(s, Apply(cfg, s, op).0, other)
    ensures op.id != other ==> SameHasher(s, Apply(cfg, s, op).0, other)
  {
  }

  /** `create` answers with the new id, exactly when the name is accepted, and then has made an empty
      file, an unfinished record that names the upload, and a hasher that has absorbed nothing. */
  lemma CreateOutcome(cfg: Config, s: Store, id: Id, name: string, contentType: string, now: nat)
    ensures var (t, a) := Apply(cfg, s, CreateOp(id, name, contentType, now));
            && (SafeName(name) ==>
                  && a == Named(Ok(id))
                  && id in t.data && t.data[id] == []
                  && id in t.records && t.records[id] == MetaRecord(id, name, contentType, 0, "", "", false)
                  && id in t.hashers && t.hashers[id] == InFlight(Absorbed(cfg.hash, []), now))
            && (!SafeName(name) ==>
                  && t == s
                  && a == Named(Err(InvalidFileName(if name == "" then EmptyName else PathTraversal(name)))))
  {
  }

  /** A call touches the files its id leads to and the hasher of its id, and nothing else. */
  lemma OthersUntouched(cfg: Config, s: Store, op: Op, other: Id)
    requires Possible(s, op) && !Housekeeping(op)
    ensures Reach(cfg.layout, op.id) != Some(other) ==> SameEntries(s, Apply(cfg, s, op).0, other)
    ensures op.id != other ==> SameHasher(s, Apply(cfg, s, op).0, other)
  {
    if op.AppendOp? {
      AppendOthers(cfg, s, op, other);
    } else if op.FinalizeOp? {
      FinalizeOthers(cfg, s, op, other);
    }
  }

  /** A delete removes the files of `other` exactly when its id leads to them, however it is spelled;
      so does an abort. */
  lemma RemovesIff(cfg: Config, s: Store, id: Id, other: Id)
    requires Sound(cfg, s) && other in s.data
    ensures other !in Delete(cfg, s, id).0.data <==> Reach(cfg.layout, id) == Some(other)
    ensures other !in Delete(cfg, s, id).0.records <==> Reach(cfg.layout, id) == Some(other)
    ensures other !in Abort(cfg, s, id).data <==> Reach(cfg.layout, id) == Some(other)
    ensures other !in Abort(cfg, s, id).records <==> Reach(cfg.layout, id) == Some(other)
  {
    assert Tidy(cfg, s, other);
  }

  lemma StaysTidy(cfg: Config, s: Store, op: Op, id: Id)
    requires Tidy(cfg, s, id) && Possible(s, op)
    ensures Tidy(cfg, Apply(cfg, s, op).0, id)
  {
  }

  lemma StepKeepsSound(cfg: Config, s: Store, op: Op)
    requires Sound(cfg, s) && Possible(s, op)
    ensures Sound(cfg, Apply(cfg, s, op).0)
  {
    forall id: Id ensures Tidy(cfg, Apply(cfg, s, op).0, id) {
      assert Tidy(cfg, s, id);
      StaysTidy(cfg, s, op, id);
    }
  }

  /** Not an append or finalize that reaches the files of `id` under another name. */
  predicate Straight(cfg: Config, op: Op, id: Id) {
    (op.AppendOp? || op.FinalizeOp?) && Reach(cfg.layout, op.id) == Some(id) ==> op.id == id
  }

  lemma AppendKeepsId(cfg: Config, s: Store, op: Op, id: Id)
    requires IdOk(cfg, s, id) && op.AppendOp? && Straight(cfg, op, id)
    ensures IdOk(cfg, Apply(cfg, s, op).0, id)
  {
    if Reach(cfg.layout, op.id) == Some(id) && id in s.data && s.records[id].finalized {
      assert (s.data[id] + op.bytes)[..s.records[id].sizeBytes] == s.data[id][..s.records[id].sizeBytes];
    }
  }

  lemma FinalizeKeepsId(cfg: Config, s: Store, op: Op, id: Id)
    requires IdOk(cfg, s, id) && op.FinalizeOp? && Straight(cfg, op, id)
    ensures IdOk(cfg, Apply(cfg, s, op).0, id)
  {
    if id in s.data {
      assert s.data[id][..|s.data[id]|] == s.data[id];
    }
  }

  lemma StepKeepsId(cfg: Config, s: Store, op: Op, id: Id)
    requires IdOk(cfg, s, id) && Possible(s, op) && Straight(cfg, op, id)
    ensures IdOk(cfg, Apply(cfg, s, op).0, id)
  {
    if op.AppendOp? {
      AppendKeepsId(cfg, s, op, id);
    } else if op.FinalizeOp? {
      FinalizeKeepsId(cfg, s, op, id);
    }
  }

  /** An append or finalize under an id that the store could have handed out. */
  predicate Direct(op: Op) {
    op.AppendOp? || op.FinalizeOp? ==> PlainId(op.id)
  }

  lemma StepKeepsInv(cfg: Config, s: Store, op: Op)
    requires Inv(cfg, s) && Possible(s, op) && Direct(op)
    ensures Inv(cfg, Apply(cfg, s, op).0)
  {
    forall id: Id ensures IdOk(cfg, Apply(cfg, s, op).0, id) {
      assert IdOk(cfg, s, id);
      StepKeepsId(cfg, s, op, id);
    }
  }

  /** Only a finalize changes a record, and it changes only what it has measured: never the names. */
  lemma OnlyFinalizeWrites(cfg: Config, s: Store, op: Op, id: Id)
    requires Sound(cfg, s) && PlainId(id) && Possible(s, op) && id in s.records && id in Apply(cfg, s, op).0.records
    ensures var m, m' := s.records[id], Apply(cfg, s, op).0.records[id];
            if op.FinalizeOp? && Reach(cfg.layout, op.id) == Some(id) then
              id in s.data && m' == MetaRecord(id, m.fileName, m.contentType, |s.data[id]|, m'.checksum, op.stamp, true)
            else m' == m
  {
    assert Tidy(cfg, s, id);
  }

  // ----- Runs -----

  const EMPTY := Store(map[], map[], map[], {})

  predicate PossibleRun(cfg: Config, s: Store, ops: seq<Op>)
    decreases |ops|
  {
    ops == [] || (Possible(s, ops[0]) && PossibleRun(cfg, Apply(cfg, s, ops[0]).0, ops[1..]))
  }

  function Run(cfg: Config, s: Store, ops: seq<Op>): Store
    decreases |ops|
  {
    if ops == [] then s else Run(cfg, Apply(cfg, s, ops[0]).0, ops[1..])
  }

  /** The answers to the client's calls; evictions and restarts answer nobody. */
  function Answers(cfg: Config, s: Store, ops: seq<Op>): seq<Answer>
    decreases |ops|
  {
    if ops == [] then []
    else
      var (t, a) := Apply(cfg, s, ops[0]);
      (if Housekeeping(ops[0]) then [] else [a]) + Answers(cfg, t, ops[1..])
  }

  lemma {:induction false} RunOn(cfg: Config, s: Store, ops: seq<Op>, more: seq<Op>)
    ensures Run(cfg, s, ops + more) == Run(cfg, Run(cfg, s, ops), more)
    ensures PossibleRun(cfg, s, ops + more) <==> PossibleRun(cfg, s, ops) && PossibleRun(cfg, Run(cfg, s, ops), more)
    decreases |ops|
  {
    if ops == [] {
      assert ops + more == more;
    } else {
      assert (ops + more)[1..] == ops[1..] + more;
      RunOn(cfg, Apply(cfg, s, ops[0]).0, ops[1..], more);
    }
  }

  lemma {:induction false} RunKeepsSound(cfg: Config, s: Store, ops: seq<Op>)
    requires Sound(cfg, s) && PossibleRun(cfg, s, ops)
    ensures Sound(cfg, Run(cfg, s, ops))
    decreases |ops|
  {
    if ops != [] {
      StepKeepsSound(cfg, s, ops[0]);
      RunKeepsSound(cfg, Apply(cfg, s, ops[0]).0, ops[1..]);
    }
  }

  predicate StraightRun(cfg: Config, ops: seq<Op>, id: Id) {
    forall k :: 0 <= k < |ops| ==> Straight(cfg, ops[k], id)
  }

  lemma {:induction false} RunKeepsId(cfg: Config, s: Store, ops: seq<Op>, id: Id)
    requires IdOk(cfg, s, id) && PossibleRun(cfg, s, ops) && StraightRun(cfg, ops, id)
    ensures IdOk(cfg, Run(cfg, s, ops), id)
    decreases |ops|
  {
    if ops != [] {
      StepKeepsId(cfg, s, ops[0], id);
      RunKeepsId(cfg, Apply(cfg, s, ops[0]).0, ops[1..], id);
    }
  }

  // ----- What a run has brought to the files of one id -----

  /** `own` is what was appended under the id itself, `detoured` how many bytes came under other
      names, `late` how many came, under any name, since the last finalize. `of` is what the checksum
      of that finalize was taken of, and `missed` whether it missed bytes that came under other names.
      `held` tells that nothing has dropped the hasher since the id was created. */
  datatype Tally = Tally(own: Bytes, detoured: nat, late: nat, of: Bytes, missed: bool, held: bool)

  const NOTHING := Tally([], 0, 0, [], false, false)
  const CREATED := NOTHING.(held := true)

  /** An append that is accepted and goes to the file of `id`. */
  predicate Lands(cfg: Config, s: Store, op: Op, id: Id) {
    && op.AppendOp? && Reach(cfg.layout, op.id) == Some(id)
    && id in s.records && id in s.data && |s.data[id]| + |op.bytes| <= cfg.maxFileSize
  }

  /** A finalize that writes the record of `id`. */
  predicate Seals(cfg: Config, s: Store, op: Op, id: Id) {
    op.FinalizeOp? && Reach(cfg.layout, op.id) == Some(id) && id in s.records && id in s.data
  }

  /** Calls and housekeeping that take the hasher of `id` out of the map. */
  predicate Drops(op: Op, id: Id) {
    || ((op.FinalizeOp? || op.AbortOp?) && op.id == id)
    || (op.EvictOp? && id in op.ids)
    || op.RestartOp?
  }

  function TallyAfter(cfg: Config, s: Store, op: Op, id: Id, y: Tally): Tally {
    var held := y.held && !Drops(op, id);
    if op.CreateOp? && op.id == id && NameVerdict(op.name).None? then CREATED
    else if Lands(cfg, s, op, id) then
      if op.id == id then y.(own := y.own + op.bytes, late := y.late + |op.bytes|)
      else y.(detoured := y.detoured + |op.bytes|, late := y.late + |op.bytes|)
    else if Seals(cfg, s, op, id) then
      if op.id == id && y.held then y.(late := 0, of := y.own, missed := y.detoured != 0, held := false)
      else y.(late := 0, of := s.data[id], missed := false, held := held)
    else y.(held := held)
  }

  function TallyOf(cfg: Config, s: Store, ops: seq<Op>, id: Id, y: Tally): Tally
    decreases |ops|
  {
    if ops == [] then y
    else TallyOf(cfg, Apply(cfg, s, ops[0]).0, ops[1..], id, TallyAfter(cfg, s, ops[0], id, y))
  }

  /** The tally tells what the file and the hasher of `id` hold. */
  predicate Counts(cfg: Config, s: Store, id: Id, y: Tally) {
    && (id in s.data ==> |s.data[id]| == |y.own| + y.detoured)
    && (id in s.data && y.detoured == 0 ==> s.data[id] == y.own)
    && (id in s.hashers ==> s.hashers[id].hasher == Absorbed(cfg.hash, y.own))
    && (id in s.records ==> (id in s.hashers <==> y.held))
  }

  /** The tally tells what the record of a finalized `id` describes. */
  predicate Describes(cfg: Config, s: Store, id: Id, y: Tally) {
    id in s.data && id in s.records && s.records[id].finalized ==>
      var m := s.records[id];
      && |s.data[id]| == m.sizeBytes + y.late
      && m.checksum == Digest(cfg.hash, y.of)
      && (if y.missed then |y.of| < m.sizeBytes else y.of == s.data[id][..m.sizeBytes])
  }

  predicate Tallies(cfg: Config, s: Store, id: Id, y: Tally) {
    Counts(cfg, s, id, y) && Describes(cfg, s, id, y)
  }

  lemma LandTallies(cfg: Config, s: Store, op: Op, id: Id, y: Tally)
    requires Tidy(cfg, s, id) && PlainId(id) && Tallies(cfg, s, id, y) && Lands(cfg, s, op, id)
    ensures Tallies(cfg, Apply(cfg, s, op).0, id, TallyAfter(cfg, s, op, id, y))
  {
    var t := Apply(cfg, s, op).0;
    assert t.data == s.data[id := s.data[id] + op.bytes] && t.records == s.records;
    if op.bytes == [] {
      assert s.data[id] + op.bytes == s.data[id];
    }
    var size := s.records[id].sizeBytes;
    if s.records[id].finalized {
      assert (s.data[id] + op.bytes)[..size] == s.data[id][..size];
    }
  }

  lemma SealTallies(cfg: Config, s: Store, op: Op, id: Id, y: Tally)
    requires Tidy(cfg, s, id) && PlainId(id) && Tallies(cfg, s, id, y) && Seals(cfg, s, op, id)
    requires Tidy(cfg, s, op.id)
    ensures Tallies(cfg, Apply(cfg, s, op).0, id, TallyAfter(cfg, s, op, id, y))
  {
    assert s.data[id][..|s.data[id]|] == s.data[id];
  }

  lemma OtherTallies(cfg: Config, s: Store, op: Op, id: Id, y: Tally)
    requires Tidy(cfg, s, id) && PlainId(id) && Tallies(cfg, s, id, y) && Possible(s, op)
    requires op.CreateOp? || op.AbortOp? || op.DeleteOp? || Housekeeping(op)
    ensures Tallies(cfg, Apply(cfg, s, op).0, id, TallyAfter(cfg, s, op, id, y))
  {
  }

  lemma MissTallies(cfg: Config, s: Store, op: Op, id: Id, y: Tally)
    requires Tidy(cfg, s, id) && PlainId(id) && Tallies(cfg, s, id, y)
    requires (op.AppendOp? && !Lands(cfg, s, op, id)) || (op.FinalizeOp? && !Seals(cfg, s, op, id))
    ensures Tallies(cfg, Apply(cfg, s, op).0, id, TallyAfter(cfg, s, op, id, y))
  {
    if Reach(cfg.layout, op.id) != Some(id) {
      OthersUntouched(cfg, s, op, id);
    } else {
      assert Apply(cfg, s, op).0 == s;
    }
  }

  lemma StepTallies(cfg: Config, s: Store, op: Op, id: Id, y: Tally)
    requires Tidy(cfg, s, id) && PlainId(id) && Tallies(cfg, s, id, y) && Possible(s, op)
    requires op.FinalizeOp? ==> Tidy(cfg, s, op.id)
    ensures Tallies(cfg, Apply(cfg, s, op).0, id, TallyAfter(cfg, s, op, id, y))
  {
    if Lands(cfg, s, op, id) {
      LandTallies(cfg, s, op, id, y);
    } else if Seals(cfg, s, op, id) {
      SealTallies(cfg, s, op, id, y);
    } else if op.AppendOp? || op.FinalizeOp? {
      MissTallies(cfg, s, op, id, y);
    } else if !op.MetadataOp? && !op.ContentOp? {
      OtherTallies(cfg, s, op, id, y);
    }
  }

  lemma {:induction false} RunTallies(cfg: Config, s: Store, ops: seq<Op>, id: Id, y: Tally)
    requires Sound(cfg, s) && PlainId(id) && Tallies(cfg, s, id, y) && PossibleRun(cfg, s, ops)
    ensures Tallies(cfg, Run(cfg, s, ops), id, TallyOf(cfg, s, ops, id, y))
    decreases |ops|
  {
    if ops != [] {
      assert Tidy(cfg, s, id) && (ops[0].FinalizeOp? ==> Tidy(cfg, s, ops[0].id));
      StepTallies(cfg, s, ops[0], id, y);
      StepKeepsSound(cfg, s, ops[0]);
      RunTallies(cfg, Apply(cfg, s, ops[0]).0, ops[1..], id, TallyAfter(cfg, s, ops[0], id, y));
    }
  }

  // ----- What calls can rely on, after any calls in any order -----

  /** With evictions and restarts anywhere and ids spelled in any way: `finalize` answers for every id
      that leads to files, and reports their true length. Its checksum is that of the file if the
      hasher is gone, and otherwise that of the bytes appended under the id itself; they are the bytes
      of the file exactly when none were brought to it under another name. */
  lemma FinalizeTellsTheTruth(cfg: Config, ops: seq<Op>, id: Id, now: string)
    requires PossibleRun(cfg, EMPTY, ops)
    ensures var s := Run(cfg, EMPTY, ops);
            var a := Apply(cfg, s, FinalizeOp(id, now)).1;
            a.Described? &&
            var r := a.description;
            && (r.Ok? <==> Reach(cfg.layout, id).Some? && Reach(cfg.layout, id).value in s.data)
            && (r.Err? ==> r.error == NotFound(id))
            && (r.Ok? ==>
                  var x := Reach(cfg.layout, id).value;
                  var y := TallyOf(cfg, EMPTY, ops, x, NOTHING);
                  && r.value.fileId == id
                  && r.value.sizeBytes == |s.data[x]|
                  && r.value.checksum == Digest(cfg.hash, if id in s.hashers then y.own else s.data[x])
                  && (y.own == s.data[x] <==> y.detoured == 0))
  {
    var s := Run(cfg, EMPTY, ops);
    RunKeepsSound(cfg, EMPTY, ops);
    assert Tidy(cfg, s, id);
    if Reach(cfg.layout, id).Some? {
      var x := Reach(cfg.layout, id).value;
      assert Tidy(cfg, s, x);
      RunTallies(cfg, EMPTY, ops, x, NOTHING);
    }
  }

  /** Not an append that brings bytes to the file of `id` under another name. */
  predicate OwnName(cfg: Config, op: Op, id: Id) {
    op.AppendOp? && op.bytes != [] && Reach(cfg.layout, op.id) == Some(id) ==> op.id == id
  }

  lemma {:induction false} NoDetours(cfg: Config, s: Store, ops: seq<Op>, id: Id, y: Tally)
    requires (forall k :: 0 <= k < |ops| ==> OwnName(cfg, ops[k], id)) && y.detoured == 0
    ensures TallyOf(cfg, s, ops, id, y).detoured == 0
    decreases |ops|
  {
    if ops != [] {
      assert OwnName(cfg, ops[0], id);
      NoDetours(cfg, Apply(cfg, s, ops[0]).0, ops[1..], id, TallyAfter(cfg, s, ops[0], id, y));
    }
  }

  /** So callers that append under the ids they were given get the digest of the whole file. */
  lemma StraightRunsAreTrue(cfg: Config, ops: seq<Op>, id: Id, now: string)
    requires PossibleRun(cfg, EMPTY, ops) && PlainId(id)
    requires forall k :: 0 <= k < |ops| ==> OwnName(cfg, ops[k], id)
    ensures var s := Run(cfg, EMPTY, ops);
            var r := Finalize(cfg, s, id, now).1;
            r.Ok? ==> r.value.checksum == Digest(cfg.hash, s.data[id])
  {
    FinalizeTellsTheTruth(cfg, ops, id, now);
    NoDetours(cfg, EMPTY, ops, id, NOTHING);
  }

  /** Another spelling of a plain id. */
  function Spelled(x: Id): Id { "./" + x }

  lemma SpelledReaches(cfg: Config, x: Id)
    requires PlainId(x)
    ensures Spelled(x) != x && Reach(cfg.layout, Spelled(x)) == Some(x)
  {
    DotSlashReaches(cfg.layout, x);
    assert |Spelled(x)| == |x| + 2;
  }

  /** The store after one upload has been created. */
  function Fresh(cfg: Config, x: Id): Store {
    Store(map[x := []], map[x := InitialRecord(x, "a", "")], map[x := InFlight(cfg.hash.start, 0)], {x})
  }

  lemma CreateFresh(cfg: Config, x: Id)
    ensures Apply(cfg, EMPTY, CreateOp(x, "a", "", 0)).0 == Fresh(cfg, x)
  {
    LetterIsSafe();
  }

  /** Create `x`, then append one byte to its file under another spelling of `x`. */
  function Detour(x: Id, b: byte): seq<Op> { [CreateOp(x, "a", "", 0), AppendOp(Spelled(x), [b])] }

  /** That detour goes by the hasher. */
  lemma DetourLeaves(cfg: Config, x: Id, b: byte)
    requires PlainId(x) && cfg.maxFileSize >= 1
    ensures PossibleRun(cfg, EMPTY, Detour(x, b))
    ensures Run(cfg, EMPTY, Detour(x, b)) ==
              Fresh(cfg, x).(data := map[x := [b]])
  {
    var first, second := CreateOp(x, "a", "", 0), AppendOp(Spelled(x), [b]);
    CreateFresh(cfg, x);
    SpelledReaches(cfg, x);
    var s := Fresh(cfg, x);
    var t := Apply(cfg, s, second).0;
    assert t.data[x] == [] + [b] == [b];
    assert Detour(x, b)[1..] == [second] && [second][1..] == [];
    assert PossibleRun(cfg, t, []) && PossibleRun(cfg, s, [second]);
    assert Run(cfg, EMPTY, Detour(x, b)) == Run(cfg, s, [second]) == Run(cfg, t, []) == t;
  }

  /** So `finalize` then reports one byte with the digest of none. Had the hasher been evicted, it would
      report the digest of that byte. */
  lemma DetourShows(cfg: Config, x: Id, b: byte, now: string)
    requires PlainId(x) && cfg.maxFileSize >= 1
    ensures PossibleRun(cfg, EMPTY, Detour(x, b))
    ensures var s := Run(cfg, EMPTY, Detour(x, b));
            var kept, lost := Finalize(cfg, s, x, now).1, Finalize(cfg, Evict(s, {x}), x, now).1;
            && kept.Ok? && kept.value.sizeBytes == 1 && kept.value.checksum == Digest(cfg.hash, [])
            && lost.Ok? && lost.value.sizeBytes == 1 && lost.value.checksum == Digest(cfg.hash, [b])
  {
    DetourLeaves(cfg, x, b);
  }

  /** In every reachable state, under any spelling of ids. A hasher has absorbed what was appended under
      the id itself, which is the whole file exactly when nothing came under another spelling. A
      finalized record falls short of its file by the bytes appended since it was written. Its checksum
      is that of `of`, which is the data it declares exactly when the finalize that wrote it missed
      nothing, and the whole file exactly when nothing came later either. And a finalized id still has
      a hasher exactly when, since it was created, no finalize or abort named the id itself and no
      eviction or restart dropped the hasher. */
  lemma RecordTellsIff(cfg: Config, ops: seq<Op>, id: Id)
    requires PossibleRun(cfg, EMPTY, ops) && PlainId(id)
    ensures var s := Run(cfg, EMPTY, ops);
            var y := TallyOf(cfg, EMPTY, ops, id, NOTHING);
            && (id in s.hashers ==> s.hashers[id].hasher == Absorbed(cfg.hash, y.own))
            && (id in s.data ==> (y.own == s.data[id] <==> y.detoured == 0))
            && (MetadataOf(cfg, s, id).Ok? ==>
                  && id in s.data
                  && var m := s.records[id];
                     && |s.data[id]| == m.sizeBytes + y.late
                     && m.checksum == Digest(cfg.hash, y.of)
                     && (y.of == s.data[id][..m.sizeBytes] <==> !y.missed)
                     && (y.of == s.data[id] <==> !y.missed && y.late == 0)
                     && (id in s.hashers <==> y.held))
  {
    RunKeepsSound(cfg, EMPTY, ops);
    var s := Run(cfg, EMPTY, ops);
    assert Tidy(cfg, s, id);
    RunTallies(cfg, EMPTY, ops, id, NOTHING);
    if id in s.data {
      assert s.data[id][..|s.data[id]|] == s.data[id];
    }
  }

  /** In every reachable state no file exceeds the limit, and no record declares more than its file
      holds. If the files of `id` were reached for appends and finalizes under that id only, a hasher
      has absorbed exactly the file's bytes, and a finalized record describes a prefix of its data
      and has no hasher. */
  lemma RecordsDescribeData(cfg: Config, ops: seq<Op>, id: Id)
    requires PossibleRun(cfg, EMPTY, ops) && PlainId(id)
    ensures var s := Run(cfg, EMPTY, ops);
            && (id in s.data ==> |s.data[id]| <= cfg.maxFileSize < WORD64)
            && (MetadataOf(cfg, s, id).Ok? ==> id in s.data && s.records[id].sizeBytes <= |s.data[id]|)
    ensures StraightRun(cfg, ops, id) ==>
              var s := Run(cfg, EMPTY, ops);
              && (id in s.data && id in s.hashers ==> s.hashers[id].hasher == Absorbed(cfg.hash, s.data[id]))
              && (MetadataOf(cfg, s, id).Ok? ==> id !in s.hashers && RecordTrue(cfg.hash, s.records[id], s.data[id]))
  {
    RunKeepsSound(cfg, EMPTY, ops);
    assert Tidy(cfg, Run(cfg, EMPTY, ops), id);
    if StraightRun(cfg, ops, id) {
      RunKeepsId(cfg, EMPTY, ops, id);
    }
  }

  /** A record that declares the whole length of its data. */
  predicate DeclaresAll(cfg: Config, s: Store, id: Id) {
    && MetadataOf(cfg, s, id).Ok?
    && Reach(cfg.layout, id).value in s.data
    && s.records[Reach(cfg.layout, id).value].sizeBytes == |s.data[Reach(cfg.layout, id).value]|
  }

  /** Nothing stops an append to a finalized file, and an append that brings a byte and fits is the
      one call that leaves the declared length behind the data. Finalizing again makes the length
      right; whether the checksum is right then is another matter, see `RecordTellsIff`. */
  lemma LengthGoesStaleIff(cfg: Config, s: Store, op: Op, id: Id)
    requires Sound(cfg, s) && PlainId(id) && Possible(s, op) && DeclaresAll(cfg, s, id)
    ensures var t := Apply(cfg, s, op).0;
            MetadataOf(cfg, t, id).Ok? ==>
              (!DeclaresAll(cfg, t, id) <==>
               && op.AppendOp? && Reach(cfg.layout, op.id) == Some(id)
               && op.bytes != [] && |s.data[id]| + |op.bytes| <= cfg.maxFileSize)
    ensures var t := Finalize(cfg, Apply(cfg, s, op).0, id, "").0;
            id in t.records ==> DeclaresAll(cfg, t, id)
  {
    assert Tidy(cfg, s, id);
    StaysTidy(cfg, s, op, id);
  }

  /** An empty file is finalized, then one byte is appended: the record still declares no bytes. */
  lemma LateAppendShows(cfg: Config, x: Id, b: byte)
    requires PlainId(x) && cfg.maxFileSize >= 1
    ensures var ops := [CreateOp(x, "a", "", 0), FinalizeOp(x, ""), AppendOp(x, [b])];
            && PossibleRun(cfg, EMPTY, ops)
            && var s := Run(cfg, EMPTY, ops);
               MetadataOf(cfg, s, x).Ok? && MetadataOf(cfg, s, x).value.sizeBytes == 0 && Content(cfg, s, x) == Ok([b])
  {
    var create, finalize, append := CreateOp(x, "a", "", 0), FinalizeOp(x, ""), AppendOp(x, [b]);
    CreateFresh(cfg, x);
    var s := Fresh(cfg, x);
    var t := Apply(cfg, s, finalize).0;
    var v := Apply(cfg, t, append).0;
    assert v.data[x] == [] + [b] == [b];
    assert [create, finalize, append][1..] == [finalize, append];
    assert [finalize, append][1..] == [append] && [append][1..] == [];
    assert PossibleRun(cfg, v, []) && PossibleRun(cfg, t, [append]) && PossibleRun(cfg, s, [finalize, append]);
    assert Run(cfg, s, [finalize, append]) == Run(cfg, t, [append]) == Run(cfg, v, []) == v;
  }

  /** A record can go wrong without any append. After create, a detour and a finalize under the other
      spelling, the record describes the whole file and the hasher is still there. Finalizing again,
      under the id itself, keeps the length and puts the checksum of no bytes. */
  lemma RepairSpoils(cfg: Config, x: Id, b: byte)
    requires PlainId(x) && cfg.maxFileSize >= 1
    ensures var ops := Detour(x, b) + [FinalizeOp(Spelled(x), "")];
            && PossibleRun(cfg, EMPTY, ops)
            && var s := Run(cfg, EMPTY, ops);
               var t := Apply(cfg, s, FinalizeOp(x, "")).0;
               && MetadataOf(cfg, s, x).Ok? && Content(cfg, s, x) == Ok([b]) == Content(cfg, t, x) && x in s.hashers
               && s.records[x].sizeBytes == 1 && s.records[x].checksum == Digest(cfg.hash, [b])
               && t.records[x].sizeBytes == 1 && t.records[x].checksum == Digest(cfg.hash, [])
  {
    var last := FinalizeOp(Spelled(x), "");
    DetourShows(cfg, x, b, "");
    RunOn(cfg, EMPTY, Detour(x, b), [last]);
    DetourLeaves(cfg, x, b);
    SpelledReaches(cfg, x);
    var s := Run(cfg, EMPTY, Detour(x, b));
    assert Run(cfg, s, [last]) == Apply(cfg, s, last).0 by { assert [last][1..] == []; }
  }

  /** And an id can be finalized and keep its hasher without a byte having been sent. */
  lemma FinalizedWithHasher(cfg: Config, x: Id)
    requires PlainId(x)
    ensures var ops := [CreateOp(x, "a", "", 0), FinalizeOp(Spelled(x), "")];
            && PossibleRun(cfg, EMPTY, ops)
            && var s := Run(cfg, EMPTY, ops);
               MetadataOf(cfg, s, x).Ok? && x in s.hashers
  {
    var create, seal := CreateOp(x, "a", "", 0), FinalizeOp(Spelled(x), "");
    CreateFresh(cfg, x);
    SpelledReaches(cfg, x);
    var s := Fresh(cfg, x);
    var t := Apply(cfg, s, seal).0;
    assert [create, seal][1..] == [seal] && [seal][1..] == [];
    assert PossibleRun(cfg, t, []) && PossibleRun(cfg, s, [seal]);
    assert Run(cfg, s, [seal]) == Run(cfg, t, []) == t;
  }

  /** Nothing of this id is in the directory. */
  predicate Forgotten(s: Store, id: Id) {
    id in s.used && id !in s.data && id !in s.records
  }

  /** Abort fails only on ids that lead to nothing in the storage directory, so never on the ids that
      the store hands out; what it does then is remove the hasher of the id. */
  lemma AbortFailsOnlyAstray(cfg: Config, s: Store, id: Id)
    requires AbortAnswer(cfg, s, id).Err?
    ensures Reach(cfg.layout, id).None? && !PlainId(id)
    ensures Abort(cfg, s, id) == s.(hashers := s.hashers - {id})
  {
    NamesReach(cfg.layout, id);
  }

  /** It does fail on an id whose path runs through the data file of `x`. */
  lemma AbortThroughFile(cfg: Config, s: Store, x: Id, y: Id)
    requires PlainId(x) && x in s.data
    ensures AbortAnswer(cfg, s, DataName(x) + "/" + y) == Err(Io)
  {
    StemOfName(x);
    DataStopsPaths(cfg.layout, x, y);
  }

  /** `abort` clears the files its id leads to and its own hasher; `delete` clears the files and leaves
      the hasher, which only housekeeping or a call on the id can then remove. */
  lemma RemovalEffects(cfg: Config, s: Store, id: Id, x: Id)
    requires Sound(cfg, s) && Reach(cfg.layout, id) == Some(x) && x in s.used
    ensures var (t, a) := Apply(cfg, s, AbortOp(id));
            Forgotten(t, x) && t.hashers == s.hashers - {id} && a == Acked(Ok(()))
    ensures var (t, a) := Apply(cfg, s, DeleteOp(id));
            && Forgotten(t, x) && t.hashers == s.hashers
            && (x in s.records ==> a == Acked(Ok(())))
            && (x !in s.records ==> t == s && a == Acked(Err(NotFound(id))))
  {
    assert Tidy(cfg, s, x);
    NamesReach(cfg.layout, id);
  }

  lemma StaysForgotten(cfg: Config, s: Store, op: Op, x: Id)
    requires Forgotten(s, x) && Possible(s, op)
    ensures Forgotten(Apply(cfg, s, op).0, x)
  {
  }

  lemma ForgottenIsNotFound(cfg: Config, s: Store, op: Op, x: Id)
    requires Forgotten(s, x) && Possible(s, op) && !Housekeeping(op) && !op.AbortOp?
    requires Reach(cfg.layout, op.id) == Some(x)
    ensures var a := Apply(cfg, s, op).1;
            a == Acked(Err(NotFound(op.id))) || a == Described(Err(NotFound(op.id))) || a == Sent(Err(NotFound(op.id)))
  {
  }

  /** Removed files stay removed: from then on every call that leads to them but `abort` answers
      not-found. */
  lemma {:induction false} RemovedForGood(cfg: Config, s: Store, ops: seq<Op>, x: Id, op: Op)
    requires Forgotten(s, x) && PossibleRun(cfg, s, ops)
    requires Possible(Run(cfg, s, ops), op) && !Housekeeping(op) && !op.AbortOp? && Reach(cfg.layout, op.id) == Some(x)
    ensures Forgotten(Run(cfg, s, ops), x)
    ensures var a := Apply(cfg, Run(cfg, s, ops), op).1;
            a == Acked(Err(NotFound(op.id))) || a == Described(Err(NotFound(op.id))) || a == Sent(Err(NotFound(op.id)))
    decreases |ops|
  {
    if ops == [] {
      ForgottenIsNotFound(cfg, s, op, x);
    } else {
      StaysForgotten(cfg, s, ops[0], x);
      RemovedForGood(cfg, Apply(cfg, s, ops[0]).0, ops[1..], x, op);
    }
  }

  // ----- The map of hashers is only a cache -----

  predicate SameDisk(s: Store, t: Store) {
    s.data == t.data && s.records == t.records && s.used == t.used
  }

  /** Whatever entries two stores have lost, they answer alike and stay alike on disk, as long as
      appends and finalizes go by the ids that were given out. */
  lemma CacheDoesNotShow(cfg: Config, s: Store, t: Store, op: Op)
    requires Inv(cfg, s) && Inv(cfg, t) && SameDisk(s, t) && Possible(s, op) && !Housekeeping(op) && Direct(op)
    ensures Apply(cfg, s, op).1 == Apply(cfg, t, op).1
    ensures SameDisk(Apply(cfg, s, op).0, Apply(cfg, t, op).0)
  {
    if op.FinalizeOp? {
      assert IdOk(cfg, s, op.id) && IdOk(cfg, t, op.id);
    }
  }

  function Calls(ops: seq<Op>): seq<Op>
    decreases |ops|
  {
    if ops == [] then []
    else (if Housekeeping(ops[0]) then [] else [ops[0]]) + Calls(ops[1..])
  }

  /** A run with evictions and restarts anywhere is indistinguishable, in every answer and in what
      is on disk at the end, from the same calls made without them. */
  lemma {:induction false} EvictionsInvisible(cfg: Config, s: Store, t: Store, ops: seq<Op>)
    requires Inv(cfg, s) && Inv(cfg, t) && SameDisk(s, t) && PossibleRun(cfg, s, ops)
    requires forall k :: 0 <= k < |ops| ==> Direct(ops[k])
    ensures PossibleRun(cfg, t, Calls(ops))
    ensures Answers(cfg, s, ops) == Answers(cfg, t, Calls(ops))
    ensures SameDisk(Run(cfg, s, ops), Run(cfg, t, Calls(ops)))
    decreases |ops|
  {
    if ops != [] {
      var s' := Apply(cfg, s, ops[0]).0;
      StepKeepsInv(cfg, s, ops[0]);
      if Housekeeping(ops[0]) {
        EvictionsInvisible(cfg, s', t, ops[1..]);
        assert Calls(ops) == Calls(ops[1..]);
      } else {
        assert Direct(ops[0]);
        CacheDoesNotShow(cfg, s, t, ops[0]);
        StepKeepsInv(cfg, t, ops[0]);
        EvictionsInvisible(cfg, s', Apply(cfg, t, ops[0]).0, ops[1..]);
        assert Calls(ops)[1..] == Calls(ops[1..]);
      }
    }
  }

  /** `append` to existing files is refused exactly when the bytes would pass the limit; a refusal
      changes nothing and reports the sum capped at the largest 64-bit number. */
  lemma AppendOutcome(cfg: Config, s: Store, id: Id, x: Id, bytes: Bytes)
    requires Sound(cfg, s) && Reach(cfg.layout, id) == Some(x)
    ensures var (t, a) := Apply(cfg, s, AppendOp(id, bytes));
            && (x in s.data && |s.data[x]| + |bytes| <= cfg.maxFileSize ==>
                  && a == Acked(Ok(()))
                  && t.data == s.data[x := s.data[x] + bytes] && |t.data[x]| <= 0xFFFF_FFFF_FFFF_FFFF
                  && t.records == s.records && t.hashers.Keys == s.hashers.Keys)
            && (x !in s.data ==> t == s && a == Acked(Err(NotFound(id))))
            && (x in s.data && |s.data[x]| + |bytes| > cfg.maxFileSize ==>
                  && t == s
                  && var sum := |s.data[x]| + |bytes|;
                     var reported := if sum < 0xFFFF_FFFF_FFFF_FFFF then sum else 0xFFFF_FFFF_FFFF_FFFF;
                     a == Acked(Err(TooLarge(reported, cfg.maxFileSize))))
  {
    assert Tidy(cfg, s, x);
  }
}
