/** The storage backend: a directory of files and a map of in-flight hashers, changed in place.
    Each method is one step, and is proved to be the operation of the same name on `Store`. */
module LocalStore {
  import opened StreamingHash
  import opened Records
  import opened FileNames
  import opened Listing
  import opened StoreModel

  /** A read at `pos` into a buffer: any number of bytes that are there, none only at the end. */
  method ReadSome(file: Bytes, pos: nat, capacity: nat) returns (n: nat)
    requires pos <= |file| && capacity > 0
    ensures n <= capacity && pos + n <= |file|
    ensures n == 0 <==> pos == |file|
  {
    if pos == |file| {
      n := 0;
    } else {
      assert 1 <= 1 <= capacity && pos + 1 <= |file|;
      n :| 1 <= n <= capacity && pos + n <= |file|;
    }
  }

  /** The fallback of `finalize`: hash the file from disk, however short the reads are. */
  method HashFile(hash: Hashing, file: Bytes) returns (checksum: string)
    ensures checksum == Digest(hash, file)
  {
    var hasher := hash.start;
    var pos := 0;
    while true
      invariant pos <= |file|
      invariant hasher == Absorbed(hash, file[..pos])
      decreases |file| - pos
    {
      var n := ReadSome(file, pos, READ_BUFFER);
      if n == 0 {
        break;
      }
      assert file[..pos] + file[pos..pos + n] == file[..pos + n];
      hasher := hash.update(hasher, file[pos..pos + n]);
      pos := pos + n;
    }
    assert file[..pos] == file;
    checksum := hash.finish(hasher);
  }

  /** A file read to its end in pieces of at most `capacity`. */
  method ReadAll(file: Bytes, capacity: nat) returns (chunks: seq<Bytes>)
    requires capacity > 0
    ensures Concat(chunks) == file
    ensures forall i :: 0 <= i < |chunks| ==> 0 < |chunks[i]| <= capacity
  {
    chunks := [];
    var pos := 0;
    while true
      invariant pos <= |file| && Concat(chunks) == file[..pos]
      invariant forall i :: 0 <= i < |chunks| ==> 0 < |chunks[i]| <= capacity
      decreases |file| - pos
    {
      var n := ReadSome(file, pos, capacity);
      if n == 0 {
        break;
      }
      ConcatSnoc(chunks, file[pos..pos + n]);
      assert file[..pos] + file[pos..pos + n] == file[..pos + n];
      chunks := chunks + [file[pos..pos + n]];
      pos := pos + n;
    }
    assert file[..pos] == file;
  }

  // ----- The loop of `List` -----

  predicate DistinctIds(files: seq<FileMetadata>) {
    forall i, j :: 0 <= i < j < |files| ==> files[i].fileId != files[j].fileId
  }

  /** A finalized record whose entry has been visited is in the result. */
  predicate Collected(records: map<Id, MetaRecord>, entries: set<string>, files: seq<FileMetadata>, id: Id) {
    id in records && records[id].finalized && MetaName(id) !in entries ==> Public(records[id]) in files
  }

  /** A result comes from a finalized record whose entry has been visited. */
  predicate Taken(records: map<Id, MetaRecord>, entries: set<string>, f: FileMetadata) {
    && f.fileId in records
    && records[f.fileId].finalized
    && MetaName(f.fileId) !in entries
    && Public(records[f.fileId]) == f
  }

  /** How far the loop has come: these entries are still to be visited. */
  ghost predicate Collecting(records: map<Id, MetaRecord>, entries: set<string>, files: seq<FileMetadata>) {
    && (forall id: Id :: Collected(records, entries, files, id))
    && (forall i :: 0 <= i < |files| ==> Taken(records, entries, files[i]))
    && DistinctIds(files)
  }

  lemma NothingCollected(dir: Directory, data: map<Id, Bytes>, records: map<Id, MetaRecord>)
    requires Represents(dir, data, records)
    ensures Collecting(records, dir.Keys, [])
  {
    forall id: Id ensures Collected(records, dir.Keys, [], id) {
      assert EntriesOk(dir, data, records, id);
    }
  }

  lemma AllCollected(cfg: Config, s: Store, files: seq<FileMetadata>)
    requires forall id: Id :: Collected(s.records, {}, files, id)
    ensures forall id: Id :: MetadataOf(cfg, s, id).Ok? ==> MetadataOf(cfg, s, id).value in files
  {
    forall id: Id | MetadataOf(cfg, s, id).Ok? ensures MetadataOf(cfg, s, id).value in files {
      assert Collected(s.records, {}, files, Reach(cfg.layout, id).value);
    }
  }

  /** An answer that repeats, field by field, the finalized record of an id. */
  predicate Copies(f: FileMetadata, records: map<Id, MetaRecord>, id: Id) {
    && id in records && records[id].finalized
    && f.fileId == records[id].fileId
    && f.fileName == records[id].fileName
    && f.contentType == records[id].contentType
    && f.sizeBytes == records[id].sizeBytes
    && f.checksum == records[id].checksum
    && f.uploadedAt == records[id].uploadedAt
  }

  lemma NoneInvented(cfg: Config, s: Store, files: seq<FileMetadata>)
    requires Sound(cfg, s) && forall i :: 0 <= i < |files| ==> Taken(s.records, {}, files[i])
    ensures forall f :: f in files ==> MetadataOf(cfg, s, f.fileId) == Ok(f) && Copies(f, s.records, f.fileId)
  {
    forall f | f in files ensures MetadataOf(cfg, s, f.fileId) == Ok(f) && Copies(f, s.records, f.fileId) {
      var i :| 0 <= i < |files| && files[i] == f;
      assert Taken(s.records, {}, files[i]) && Tidy(cfg, s, f.fileId);
    }
  }

  lemma TakeRecord(records: map<Id, MetaRecord>, entries: set<string>, files: seq<FileMetadata>, id: Id)
    requires id in records && records[id].finalized && records[id].fileId == id && MetaName(id) in entries
    requires forall j: Id :: Collected(records, entries, files, j)
    requires forall i :: 0 <= i < |files| ==> Taken(records, entries, files[i])
    requires DistinctIds(files)
    ensures var left, more := entries - {MetaName(id)}, files + [Public(records[id])];
            && (forall j: Id :: Collected(records, left, more, j))
            && (forall i :: 0 <= i < |more| ==> Taken(records, left, more[i]))
            && DistinctIds(more)
  {
    var left, more := entries - {MetaName(id)}, files + [Public(records[id])];
    forall j: Id ensures Collected(records, left, more, j) {
      NamesNeverCollide(id, j);
      assert Collected(records, entries, files, j);
      assert more[|files|] in more;
    }
    forall i | 0 <= i < |more| ensures Taken(records, left, more[i]) {
      if i < |files| {
        assert Taken(records, entries, files[i]);
      }
    }
    forall i, j | 0 <= i < j < |more| ensures more[i].fileId != more[j].fileId {
      assert Taken(records, entries, files[i]);
    }
  }

  lemma SkipEntry(records: map<Id, MetaRecord>, entries: set<string>, files: seq<FileMetadata>, name: string)
    requires forall id: Id :: MetaName(id) == name ==> id !in records || !records[id].finalized
    requires forall j: Id :: Collected(records, entries, files, j)
    requires forall i :: 0 <= i < |files| ==> Taken(records, entries, files[i])
    ensures forall j: Id :: Collected(records, entries - {name}, files, j)
    ensures forall i :: 0 <= i < |files| ==> Taken(records, entries - {name}, files[i])
  {
    var left := entries - {name};
    forall j: Id ensures Collected(records, left, files, j) {
      assert Collected(records, entries, files, j);
    }
    forall i | 0 <= i < |files| ensures Taken(records, left, files[i]) {
      assert Taken(records, entries, files[i]);
    }
  }

  lemma VisitEntry(cfg: Config, s: Store, dir: Directory, entries: set<string>, files: seq<FileMetadata>, name: string)
    requires Represents(dir, s.data, s.records) && Sound(cfg, s) && "" !in s.used && name in entries && name in dir
    requires Collecting(s.records, entries, files)
    ensures Extension(name) == Some("meta") ==> dir[name].Json?
    ensures var more := if Extension(name) == Some("meta") && dir[name].record.finalized
                        then files + [Public(dir[name].record)] else files;
            Collecting(s.records, entries - {name}, more)
  {
    assert NameOk(dir, name);
    var id := Stem(name);
    OneIdPerName(name);
    assert EntriesOk(dir, s.data, s.records, id) && Tidy(cfg, s, id);
    ExtensionFindsRecords(name);
    if Extension(name) == Some("meta") && dir[name].record.finalized {
      TakeRecord(s.records, entries, files, id);
    } else {
      SkipEntry(s.records, entries, files, name);
    }
  }

  lemma {:induction false} OnceEach(files: seq<FileMetadata>, f: FileMetadata)
    requires forall a, b :: 0 <= a < b < |files| ==> files[a].fileId != files[b].fileId
    ensures multiset(files)[f] <= 1
  {
    if files != [] {
      assert files == [files[0]] + files[1..];
      OnceEach(files[1..], f);
      if files[0] == f {
        assert f !in files[1..];
      }
    }
  }

  lemma DistinctAfterSort(unsorted: seq<FileMetadata>, sorted: seq<FileMetadata>, i: nat, j: nat)
    requires multiset(sorted) == multiset(unsorted) && i < j < |sorted|
    requires forall a, b :: 0 <= a < b < |unsorted| ==> unsorted[a].fileId != unsorted[b].fileId
    ensures sorted[i].fileId != sorted[j].fileId
  {
    var f, g := sorted[i], sorted[j];
    assert f in multiset(unsorted) && g in multiset(unsorted);
    var a :| 0 <= a < |unsorted| && unsorted[a] == f;
    var b :| 0 <= b < |unsorted| && unsorted[b] == g;
    if f == g {
      assert sorted == sorted[..i] + [f] + sorted[i + 1..j] + [g] + sorted[j + 1..];
      assert multiset(sorted)[f] >= 2;
      OnceEach(unsorted, f);
    }
  }

  lemma SortKeepsEach(unsorted: seq<FileMetadata>, sorted: seq<FileMetadata>)
    requires multiset(sorted) == multiset(unsorted)
    requires forall i, j :: 0 <= i < j < |unsorted| ==> unsorted[i].fileId != unsorted[j].fileId
    ensures forall f :: f in sorted <==> f in unsorted
    ensures forall i, j :: 0 <= i < j < |sorted| ==> sorted[i].fileId != sorted[j].fileId
  {
    assert forall f :: f in sorted <==> f in multiset(sorted);
    forall i, j | 0 <= i < j < |sorted| ensures sorted[i].fileId != sorted[j].fileId {
      DistinctAfterSort(unsorted, sorted, i, j);
    }
  }

  // ----- The store -----

  class LocalStorage {
    const cfg: Config
    var dir: Directory
    var hashers: map<Id, InFlight>
    // What the directory holds, by id, and every id ever handed out.
    ghost var data: map<Id, Bytes>
    ghost var records: map<Id, MetaRecord>
    ghost var used: set<Id>

    ghost function Contents(): Store
      reads this
    {
      Store(data, records, hashers, used)
    }

    ghost predicate Valid()
      reads this
    {
      Represents(dir, data, records) && Sound(cfg, Contents()) && "" !in used
    }

    /** Opening a directory that an earlier process left behind; no hasher survives. */
    constructor (cfg: Config, existing: Directory, ghost before: Store)
      requires Represents(existing, before.data, before.records)
      requires Sound(cfg, before) && "" !in before.used
      ensures Valid() && this.cfg == cfg && Contents() == Restart(before)
    {
      this.cfg := cfg;
      dir := existing;
      hashers := map[];
      data, records, used := before.data, before.records, before.used;
      new;
      StepKeepsSound(cfg, before, RestartOp);
    }

    // Single reads and writes. Each resolves the path that a name of `id` makes, and so acts on the
    // entry of the id that `id` leads to.

    method ReadData(id: Id) returns (r: Option<Bytes>)
      requires Represents(dir, data, records)
      ensures var x := Reach(cfg.layout, id);
              r == if x.Some? && x.value in data then Some(data[x.value]) else None
    {
      NamesReach(cfg.layout, id);
      var entry := EntryAt(cfg.layout, DataName(id));
      assert entry.Some? ==> EntriesOk(dir, data, records, Reach(cfg.layout, id).value);
      if entry.None? || entry.value !in dir {
        return None;
      }
      return Some(dir[entry.value].bytes);
    }

    method ReadMeta(id: Id) returns (r: Option<MetaRecord>)
      requires Represents(dir, data, records)
      ensures r == if InRecords(cfg, Contents(), id) then Some(records[Reach(cfg.layout, id).value]) else None
    {
      NamesReach(cfg.layout, id);
      var entry := EntryAt(cfg.layout, MetaName(id));
      assert entry.Some? ==> EntriesOk(dir, data, records, Reach(cfg.layout, id).value);
      if entry.None? || entry.value !in dir {
        return None;
      }
      return Some(dir[entry.value].record);
    }

    method WriteData(id: Id, bytes: Bytes)
      requires Represents(dir, data, records) && Reach(cfg.layout, id).Some?
      modifies `dir, `data
      ensures Represents(dir, data, records) && data == old(data)[Reach(cfg.layout, id).value := bytes]
    {
      ghost var x := Reach(cfg.layout, id).value;
      NamesReach(cfg.layout, id);
      PutData(dir, data, records, x, bytes);
      dir := dir[EntryAt(cfg.layout, DataName(id)).value := Data(bytes)];
      data := data[x := bytes];
    }

    method WriteMeta(id: Id, meta: MetaRecord)
      requires Represents(dir, data, records) && Reach(cfg.layout, id).Some?
      modifies `dir, `records
      ensures Represents(dir, data, records) && records == old(records)[Reach(cfg.layout, id).value := meta]
    {
      ghost var x := Reach(cfg.layout, id).value;
      NamesReach(cfg.layout, id);
      PutRecord(dir, data, records, x, meta);
      dir := dir[EntryAt(cfg.layout, MetaName(id)).value := Json(meta)];
      records := records[x := meta];
    }

    /** Removes what the names of `id` lead to. */
    method RemoveFiles(id: Id) returns (r: Result<(), StorageError>)
      requires Represents(dir, data, records)
      modifies `dir, `data, `records
      ensures Represents(dir, data, records)
      ensures data == old(data) - Targets(cfg, id) && records == old(records) - Targets(cfg, id)
      ensures r == AbortAnswer(cfg, old(Contents()), id)
    {
      NamesReach(cfg.layout, id);
      var stuck := StuckAt(cfg.layout, DataName(id));
      if stuck.Some? {
        OccupiedIff(dir, data, records, stuck.value);
        assert data - Targets(cfg, id) == data && records - Targets(cfg, id) == records;
        if stuck.value in dir {
          return Err(Io);
        }
      }
      var entry := EntryAt(cfg.layout, DataName(id));
      if entry.Some? {
        DropData(dir, data, records, Reach(cfg.layout, id).value);
        dir := dir - {entry.value};
      }
      assert entry.None? ==> data - Targets(cfg, id) == data;
      data := data - Targets(cfg, id);
      entry := EntryAt(cfg.layout, MetaName(id));
      if entry.Some? {
        DropRecord(dir, data, records, Reach(cfg.layout, id).value);
        dir := dir - {entry.value};
      }
      assert entry.None? ==> records - Targets(cfg, id) == records;
      records := records - Targets(cfg, id);
      return Ok(());
    }

    method Create(id: Id, name: string, contentType: string, now: nat) returns (r: Result<Id, StorageError>)
      requires Valid() && id !in used && PlainId(id) && id != ""
      modifies this
      ensures Valid() && (Contents(), r) == StoreModel.Create(cfg, old(Contents()), id, name, contentType, now)
      ensures r.Ok? ==> r.value == id
    {
      StepKeepsSound(cfg, Contents(), CreateOp(id, name, contentType, now));
      var fault := ValidateFileName(name);
      if fault.Some? {
        return Err(InvalidFileName(fault.value));
      }
      WriteData(id, []);
      WriteMeta(id, InitialRecord(id, name, contentType));
      hashers := hashers[id := InFlight(cfg.hash.start, now)];
      used := used + {id};
      return Ok(id);
    }

    method Append(id: Id, bytes: Bytes) returns (r: Result<(), StorageError>)
      requires Valid()
      modifies this
      ensures Valid() && (Contents(), r) == StoreModel.Append(cfg, old(Contents()), id, bytes)
    {
      StepKeepsSound(cfg, Contents(), AppendOp(id, bytes));
      var meta := ReadMeta(id);
      if meta.None? {
        return Err(NotFound(id));
      }
      var file := ReadData(id);
      if file.None? {
        return Err(Io);
      }
      var size := |file.value|;
      if size + |bytes| >= WORD64 {
        return Err(TooLarge(WORD64 - 1, cfg.maxFileSize));
      }
      if size + |bytes| > cfg.maxFileSize {
        return Err(TooLarge(size + |bytes|, cfg.maxFileSize));
      }
      WriteData(id, file.value + bytes);
      if id in hashers {
        hashers := hashers[id := Absorb(cfg, hashers[id], bytes)];
      }
      return Ok(());
    }

    method Finalize(id: Id, now: string) returns (r: Result<FileMetadata, StorageError>)
      requires Valid()
      modifies this
      ensures Valid() && (Contents(), r) == StoreModel.Finalize(cfg, old(Contents()), id, now)
    {
      StepKeepsSound(cfg, Contents(), FinalizeOp(id, now));
      var meta := ReadMeta(id);
      if meta.None? {
        return Err(NotFound(id));
      }
      var file := ReadData(id);
      var checksum;
      if id in hashers {
        checksum := cfg.hash.finish(hashers[id].hasher);
        hashers := hashers - {id};
      } else {
        assert hashers - {id} == hashers;
        if file.None? {
          return Err(Io);
        }
        checksum := HashFile(cfg.hash, file.value);
      }
      if file.None? {
        return Err(Io);
      }
      var m := meta.value.(sizeBytes := |file.value|, checksum := checksum, uploadedAt := now, finalized := true);
      WriteMeta(id, m);
      return Ok(FileMetadata(id, m.fileName, m.contentType, m.sizeBytes, m.checksum, m.uploadedAt));
    }

    method Abort(id: Id) returns (r: Result<(), StorageError>)
      requires Valid()
      modifies this
      ensures Valid() && Contents() == StoreModel.Abort(cfg, old(Contents()), id)
      ensures r == AbortAnswer(cfg, old(Contents()), id)
    {
      StepKeepsSound(cfg, Contents(), AbortOp(id));
      hashers := hashers - {id};
      r := RemoveFiles(id);
    }

    method Metadata(id: Id) returns (r: Result<FileMetadata, StorageError>)
      requires Valid()
      ensures r == MetadataOf(cfg, Contents(), id)
      ensures r.Ok? ==> Reach(cfg.layout, id).Some? && Copies(r.value, records, Reach(cfg.layout, id).value)
    {
      var meta := ReadMeta(id);
      if meta.None? {
        return Err(NotFound(id));
      }
      if !meta.value.finalized {
        return Err(NotFound(id));
      }
      return Ok(Public(meta.value));
    }

    /** The chunks of the stream, read to its end. Asked for chunks of 0 bytes, the stream library
        takes a buffer of its own choice. */
    method ReadChunks(id: Id, chunkSize: nat) returns (r: Result<seq<Bytes>, StorageError>)
      requires Valid()
      ensures r.Err? ==> Content(cfg, Contents(), id) == Err(r.error)
      ensures r.Ok? ==> Content(cfg, Contents(), id) == Ok(Concat(r.value))
      ensures r.Ok? ==>
                forall i :: 0 <= i < |r.value| ==> 0 < |r.value[i]| && (chunkSize > 0 ==> |r.value[i]| <= chunkSize)
    {
      var m := Metadata(id);
      if m.Err? {
        return Err(m.error);
      }
      var file := ReadData(id);
      if file.None? {
        return Err(Io);
      }
      var capacity := chunkSize;
      if chunkSize == 0 {
        assert 1 > 0;
        capacity :| capacity > 0;
      }
      var chunks := ReadAll(file.value, capacity);
      return Ok(chunks);
    }

    method Delete(id: Id) returns (r: Result<(), StorageError>)
      requires Valid()
      modifies this
      ensures Valid() && (Contents(), r) == StoreModel.Delete(cfg, old(Contents()), id)
    {
      StepKeepsSound(cfg, Contents(), DeleteOp(id));
      var meta := ReadMeta(id);
      if meta.None? {
        return Err(NotFound(id));
      }
      r := RemoveFiles(id);
      assert r.Ok? by {
        NamesReach(cfg.layout, id);
      }
    }

    /** One round of that loop: the entry is a record to list, or one to pass over. */
    method ReadEntry(name: string, ghost entries: set<string>, ghost files: seq<FileMetadata>)
      returns (found: Option<FileMetadata>)
      requires Valid() && name in entries && name in dir && Collecting(records, entries, files)
      ensures Collecting(records, entries - {name}, if found.Some? then files + [found.value] else files)
    {
      VisitEntry(cfg, Contents(), dir, entries, files, name);
      if Extension(name) == Some("meta") && dir[name].record.finalized {
        return Some(Public(dir[name].record));
      }
      return None;
    }

    /** The loop over the directory, in whatever order it yields its entries. */
    method Collect() returns (files: seq<FileMetadata>)
      requires Valid()
      ensures Collecting(records, {}, files)
    {
      var entries := dir.Keys;
      files := [];
      NothingCollected(dir, data, records);
      while entries != {}
        invariant entries <= dir.Keys && Collecting(records, entries, files)
        decreases |entries|
      {
        var name :| name in entries;
        var found := ReadEntry(name, entries, files);
        if found.Some? {
          files := files + [found.value];
        }
        entries := entries - {name};
      }
    }

    /** One record for each upload that `Metadata` knows by its own id, the same record, newest first. */
    method List() returns (files: seq<FileMetadata>)
      requires Valid()
      ensures forall i :: 0 <= i < |files| ==> MetadataOf(cfg, Contents(), files[i].fileId) == Ok(files[i])
      ensures forall id :: MetadataOf(cfg, Contents(), id).Ok? ==> MetadataOf(cfg, Contents(), id).value in files
      ensures forall i, j :: 0 <= i < j < |files| ==> files[i].fileId != files[j].fileId
      ensures forall i :: 0 <= i < |files| ==> Copies(files[i], records, files[i].fileId)
      ensures NewestFirst(files)
    {
      var unsorted := Collect();
      files := SortNewest(unsorted);
      SortIsNewestFirst(unsorted);
      SortKeepsEach(unsorted, files);
      AllCollected(cfg, Contents(), unsorted);
      NoneInvented(cfg, Contents(), unsorted);
    }

    /** One sweep of the reaper. */
    method EvictStale(now: nat) returns (evicted: set<Id>)
      requires Valid()
      modifies this
      ensures evicted == Stale(old(hashers), now, cfg.uploadTtl)
      ensures Valid() && Contents() == Evict(old(Contents()), evicted)
    {
      evicted := Stale(hashers, now, cfg.uploadTtl);
      StepKeepsSound(cfg, Contents(), EvictOp(evicted));
      var rest := evicted;
      while rest != {}
        invariant rest <= evicted && hashers == old(hashers) - (evicted - rest)
        invariant dir == old(dir) && data == old(data) && records == old(records) && used == old(used)
        decreases |rest|
      {
        var id :| id in rest;
        hashers := hashers - {id};
        rest := rest - {id};
      }
      assert evicted - rest == evicted;
    }
  }
}
