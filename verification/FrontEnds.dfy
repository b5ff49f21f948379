/** The two front ends that drive the store through an upload, and the REST download. Each upload is
    proved to give the answer its messages call for and to leave the directory as that answer says. */
module FrontEnds {
  import opened StreamingHash
  import opened Records
  import opened FileNames
  import opened UploadContract
  import opened StoreModel
  import opened LocalStore

  /** The store while an upload has sent `sent` and nothing else has happened. */
  function Midway(cfg: Config, s: Store, id: Id, name: string, contentType: string, sent: Bytes, started: nat): Store {
    Store(s.data[id := sent],
          s.records[id := InitialRecord(id, name, contentType)],
          s.hashers[id := InFlight(Absorbed(cfg.hash, sent), started)],
          s.used + {id})
  }

  /** The store with one more finished file holding `bytes`, and no more hashers. */
  function Stored(cfg: Config, s: Store, id: Id, name: string, contentType: string, bytes: Bytes, now: string): Store {
    Store(s.data[id := bytes],
          s.records[id := FinalRecord(cfg.hash, id, name, contentType, bytes, now)],
          s.hashers,
          s.used + {id})
  }

  /** The store after the upload with these messages has succeeded. */
  function AfterSuccess(cfg: Config, s: Store, id: Id, messages: seq<Message>, now: string): Store {
    Stored(cfg, s, id, FileNameOf(messages), ContentTypeOf(messages), Payload(messages), now)
  }

  predicate SameFiles(s: Store, t: Store) {
    s.data == t.data && s.records == t.records && s.hashers == t.hashers
  }

  predicate NewTo(cfg: Config, s: Store, id: Id) {
    id !in s.used && PlainId(id) && Tidy(cfg, s, id)
  }

  lemma CreateGivesMidway(cfg: Config, s: Store, id: Id, name: string, contentType: string, started: nat)
    requires NameVerdict(name).None?
    ensures Create(cfg, s, id, name, contentType, started) ==
              (Midway(cfg, s, id, name, contentType, [], started), Ok(id))
  {
  }

  lemma AppendMidway(cfg: Config, s: Store, id: Id, name: string, contentType: string, sent: Bytes, started: nat,
                     bytes: Bytes)
    requires PlainId(id)
    ensures var m := Midway(cfg, s, id, name, contentType, sent, started);
            var (t, r) := Append(cfg, m, id, bytes);
            if |sent| + |bytes| > cfg.maxFileSize then
              t == m && r.Err? && Storage(r.error) == Refusal(cfg, |sent|, |bytes|)
            else t == Midway(cfg, s, id, name, contentType, sent + bytes, started) && r.Ok?
  {
    var m := Midway(cfg, s, id, name, contentType, sent, started);
    var t := Append(cfg, m, id, bytes).0;
    if |sent| + |bytes| <= cfg.maxFileSize {
      assert t.data == s.data[id := sent + bytes];
      assert t.hashers[id] == InFlight(Absorbed(cfg.hash, sent + bytes), started);
      assert t.hashers == s.hashers[id := t.hashers[id]];
    }
  }

  lemma AbortMidway(cfg: Config, s: Store, id: Id, name: string, contentType: string, sent: Bytes, started: nat)
    requires NewTo(cfg, s, id)
    ensures SameFiles(Abort(cfg, Midway(cfg, s, id, name, contentType, sent, started), id), s)
  {
  }

  lemma FinalizeMidway(cfg: Config, s: Store, id: Id, name: string, contentType: string, bytes: Bytes, started: nat,
                       now: string)
    requires NewTo(cfg, s, id)
    ensures var (t, r) := Finalize(cfg, Midway(cfg, s, id, name, contentType, bytes, started), id, now);
            && t == Stored(cfg, s, id, name, contentType, bytes, now)
            && r == Ok(FileMetadata(id, name, contentType, |bytes|, Digest(cfg.hash, bytes), now))
  {
    var t := Finalize(cfg, Midway(cfg, s, id, name, contentType, bytes, started), id, now).0;
    assert t.hashers == s.hashers;
    assert t.records == s.records[id := t.records[id]];
  }

  /** What a REST upload leaves when reading its body fails: the unfinished upload under its own id,
      which no reader is shown. */
  predicate OnlyUnfinished(cfg: Config, s: Store, t: Store, id: Id) {
    && id in t.data && id in t.records && id in t.hashers
    && s.data == t.data - {id} && s.records == t.records - {id} && s.hashers == t.hashers - {id}
    && MetadataOf(cfg, t, id).Err?
  }

  lemma MidwayIsUnfinished(cfg: Config, s: Store, id: Id, name: string, contentType: string, sent: Bytes, started: nat)
    requires NewTo(cfg, s, id)
    ensures OnlyUnfinished(cfg, s, Midway(cfg, s, id, name, contentType, sent, started), id)
  {
  }

  /** What an upload over gRPC does to the store: it stores the file, or leaves everything as it was. */
  predicate GrpcEffect(cfg: Config, s: Store, t: Store, id: Id, stream: seq<Message>, now: string,
                       r: Result<Receipt, Failure>) {
    && r == Outcome(cfg, id, stream)
    && if r.Ok? then t == AfterSuccess(cfg, s, id, stream, now) else SameFiles(s, t)
  }

  /** What an upload over REST does to the store: the same, unless reading its body fails. */
  ghost predicate RestEffect(cfg: Config, s: Store, t: Store, id: Id, field: FirstField, body: seq<Piece>,
                             now: string, r: Result<Receipt, Failure>) {
    && r == Outcome(cfg, id, AsMessages(field, body))
    && if r.Ok? then t == AfterSuccess(cfg, s, id, AsMessages(field, body), now)
       else if ReadFails(cfg, field, body) then r.error.Transport? && OnlyUnfinished(cfg, s, t, id)
       else SameFiles(s, t)
  }

  /** The gRPC upload handler, fed its stream item by item. Without I/O faults `finalize` cannot fail
      on the id it has just filled; what happens when it does is in module Interleaving. */
  method HandleUpload(storage: LocalStorage, stream: seq<Message>, id: Id, started: nat, now: string)
    returns (r: Result<Receipt, Failure>)
    requires storage.Valid() && id !in storage.used && PlainId(id) && id != ""
    modifies storage
    ensures storage.Valid()
    ensures r.Ok? ==> stream != [] && stream[0].Metadata?
    ensures GrpcEffect(storage.cfg, old(storage.Contents()), storage.Contents(), id, stream, now, r)
    ensures r.Ok? ==>
              && r.value.fileId == id && id in storage.records
              && storage.records[id].fileName == stream[0].fileName
              && storage.records[id].contentType == stream[0].contentType
  {
    ghost var s := storage.Contents();
    assert Tidy(storage.cfg, s, id);
    if |stream| == 0 {
      return Err(EmptyStream);
    }
    if stream[0].Broken? {
      return Err(Transport(stream[0].text));
    }
    if !stream[0].Metadata? {
      return Err(FirstNotMetadata);
    }
    var name, contentType := stream[0].fileName, stream[0].contentType;
    var created := storage.Create(id, name, contentType, started);
    if created.Err? {
      return Err(Storage(created.error));
    }
    var fileId := created.value;
    CreateGivesMidway(storage.cfg, s, id, name, contentType, started);
    ghost var sent: Bytes := [];
    StepOver(stream, 0);
    for next := 1 to |stream|
      invariant storage.Valid()
      invariant storage.Contents() == Midway(storage.cfg, s, id, name, contentType, sent, started)
      invariant sent == Payload(stream[..next])
      invariant Outcome(storage.cfg, id, stream) == Continue(storage.cfg, id, sent, stream[next..])
    {
      Advance(storage.cfg, id, stream, next, sent);
      AbortMidway(storage.cfg, s, id, name, contentType, sent, started);
      match stream[next]
      case Broken(text) =>
        var _ := storage.Abort(fileId);
        return Err(Transport(text));
      case Chunk(bytes) =>
        AppendMidway(storage.cfg, s, id, name, contentType, sent, started, bytes);
        var appended := storage.Append(fileId, bytes);
        if appended.Err? {
          var _ := storage.Abort(fileId);
          return Err(Storage(appended.error));
        }
        sent := sent + bytes;
      case Metadata(_, _) =>
        var _ := storage.Abort(fileId);
        return Err(SecondMetadata);
      case Empty =>
    }
    assert stream[..|stream|] == stream;
    FinalizeMidway(storage.cfg, s, id, name, contentType, sent, started, now);
    var meta := storage.Finalize(fileId, now);
    assert meta.Ok?;
    return Ok(Receipt(meta.value.fileId, meta.value.sizeBytes, meta.value.checksum));
  }

  /** `messages` is a header followed by the pieces of `body`. */
  predicate Carries(messages: seq<Message>, body: seq<Piece>) {
    && |messages| == |body| + 1
    && !messages[0].Chunk?
    && forall k :: 0 <= k < |body| ==>
         messages[k + 1] == (if body[k].Piece? then Chunk(body[k].bytes) else Broken(body[k].text))
  }

  /** The loop of the REST upload handler. It does not abort when reading the body fails. */
  method SendBody(storage: LocalStorage, ghost s: Store, ghost messages: seq<Message>, body: seq<Piece>,
                  id: Id, ghost name: string, ghost contentType: string, ghost started: nat)
    returns (failure: Option<Failure>)
    requires storage.Valid() && NewTo(storage.cfg, s, id) && Carries(messages, body)
    requires storage.Contents() == Midway(storage.cfg, s, id, name, contentType, [], started)
    modifies storage
    ensures storage.Valid()
    ensures var owed := Continue(storage.cfg, id, [], messages[1..]);
            match failure
            case None =>
              && storage.Contents() == Midway(storage.cfg, s, id, name, contentType, Payload(messages), started)
              && owed == Ok(Truth(storage.cfg, id, Payload(messages)))
            case Some(f) =>
              && owed == Err(f)
              && if f.Transport? then OnlyUnfinished(storage.cfg, s, storage.Contents(), id)
                 else SameFiles(storage.Contents(), s)
  {
    ghost var sent: Bytes := [];
    StepOver(messages, 0);
    for next := 0 to |body|
      invariant storage.Valid()
      invariant storage.Contents() == Midway(storage.cfg, s, id, name, contentType, sent, started)
      invariant sent == Payload(messages[..next + 1])
      invariant Continue(storage.cfg, id, [], messages[1..]) == Continue(storage.cfg, id, sent, messages[next + 1..])
    {
      Advance(storage.cfg, id, messages, next + 1, sent);
      if body[next].ReadError? {
        MidwayIsUnfinished(storage.cfg, s, id, name, contentType, sent, started);
        return Some(Transport(body[next].text));
      }
      AppendMidway(storage.cfg, s, id, name, contentType, sent, started, body[next].bytes);
      var appended := storage.Append(id, body[next].bytes);
      if appended.Err? {
        AbortMidway(storage.cfg, s, id, name, contentType, sent, started);
        var _ := storage.Abort(id);
        return Some(Storage(appended.error));
      }
      sent := sent + body[next].bytes;
    }
    assert messages[..|messages|] == messages;
    return None;
  }

  /** The steps of the REST upload handler. */
  method ServeMultipart(storage: LocalStorage, field: FirstField, body: seq<Piece>, id: Id, started: nat, now: string)
    returns (r: Result<Receipt, Failure>)
    requires storage.Valid() && id !in storage.used && PlainId(id) && id != ""
    modifies storage
    ensures storage.Valid()
    ensures RestEffect(storage.cfg, old(storage.Contents()), storage.Contents(), id, field, body, now, r)
    ensures ReadFails(storage.cfg, field, body) ==> r.Err?
  {
    ghost var s := storage.Contents();
    assert Tidy(storage.cfg, s, id);
    if field.FieldError? {
      return Err(Transport(field.text));
    }
    if field.NoField? {
      return Err(EmptyStream);
    }
    ReadFailsIff(storage.cfg, id, field, body);
    var name := OrElse(field.fileName, "unnamed");
    var contentType := OrElse(field.contentType, "application/octet-stream");
    var created := storage.Create(id, name, contentType, started);
    if created.Err? {
      return Err(Storage(created.error));
    }
    var fileId := created.value;
    CreateGivesMidway(storage.cfg, s, id, name, contentType, started);
    ghost var messages := AsMessages(field, body);
    var failure := SendBody(storage, s, messages, body, fileId, name, contentType, started);
    if failure.Some? {
      return Err(failure.value);
    }
    FinalizeMidway(storage.cfg, s, id, name, contentType, Payload(messages), started, now);
    var meta := storage.Finalize(fileId, now);
    assert meta.Ok?;
    return Ok(Receipt(meta.value.fileId, meta.value.sizeBytes, meta.value.checksum));
  }

  /** What that effect comes to, by the fields of the request. */
  lemma RestEffectSays(cfg: Config, s: Store, t: Store, id: Id, field: FirstField, body: seq<Piece>, now: string,
                       r: Result<Receipt, Failure>)
    requires RestEffect(cfg, s, t, id, field, body, now, r)
    ensures r.Ok? ==>
              && field.Field? && r.value.fileId == id && id in t.records
              && t.records[id].fileName == (if field.fileName.Some? then field.fileName.value else "unnamed")
              && t.records[id].contentType ==
                   (if field.contentType.Some? then field.contentType.value else "application/octet-stream")
    ensures field.Field? && field.fileName.Some? && !SafeName(field.fileName.value) ==>
              && r == Err(Storage(InvalidFileName(
                   if field.fileName.value == "" then EmptyName else PathTraversal(field.fileName.value))))
              && SameFiles(s, t)
  {
    UploadSucceedsIff(cfg, id, AsMessages(field, body));
  }

  /** The REST upload handler. The names are those of the request, or the defaults; a name that is not
      safe is refused. A failure leaves nothing, unless reading the body fails. */
  method RestUpload(storage: LocalStorage, field: FirstField, body: seq<Piece>, id: Id, started: nat, now: string)
    returns (r: Result<Receipt, Failure>)
    requires storage.Valid() && id !in storage.used && PlainId(id) && id != ""
    modifies storage
    ensures storage.Valid()
    ensures RestEffect(storage.cfg, old(storage.Contents()), storage.Contents(), id, field, body, now, r)
    ensures ReadFails(storage.cfg, field, body) ==> r.Err?
    ensures r.Ok? ==>
              && field.Field? && r.value.fileId == id && id in storage.records
              && storage.records[id].fileName == (if field.fileName.Some? then field.fileName.value else "unnamed")
              && storage.records[id].contentType ==
                   (if field.contentType.Some? then field.contentType.value else "application/octet-stream")
    ensures field.Field? && field.fileName.Some? && !SafeName(field.fileName.value) ==>
              && r == Err(Storage(InvalidFileName(
                   if field.fileName.value == "" then EmptyName else PathTraversal(field.fileName.value))))
              && SameFiles(old(storage.Contents()), storage.Contents())
  {
    ghost var s := storage.Contents();
    r := ServeMultipart(storage, field, body, id, started, now);
    RestEffectSays(storage.cfg, s, storage.Contents(), id, field, body, now, r);
  }

  /** The same upload over either front end, however it is cut: it succeeds over one exactly when it
      succeeds over the other, with the same length and checksum and, up to id and time, the same file
      and record; when it fails it leaves nothing over either. */
  lemma FrontEndsAgree(cfg: Config, s: Store, a: Id, stream: seq<Message>, now: string, t: Store,
                       r: Result<Receipt, Failure>,
                       b: Id, field: FirstField, body: seq<Piece>, later: string, u: Store,
                       q: Result<Receipt, Failure>)
    requires field.Field? && stream != [] && stream[0].Metadata?
    requires stream[0].fileName == if field.fileName.Some? then field.fileName.value else "unnamed"
    requires stream[0].contentType ==
               if field.contentType.Some? then field.contentType.value else "application/octet-stream"
    requires AllCarryData(stream[1..])
    requires forall k :: 0 <= k < |body| ==> body[k].Piece?
    requires Payload(stream) == Payload(AsMessages(field, body))
    requires GrpcEffect(cfg, s, t, a, stream, now, r) && RestEffect(cfg, s, u, b, field, body, later, q)
    ensures r.Ok? <==> q.Ok?
    ensures r.Ok? ==>
              && r.value.(fileId := b) == q.value
              && a in t.data && b in u.data && t.data[a] == u.data[b]
              && a in t.records && b in u.records
              && t.records[a].(fileId := b, uploadedAt := later) == u.records[b].(uploadedAt := later)
    ensures r.Err? ==> SameFiles(s, t) && SameFiles(s, u)
  {
    var messages := AsMessages(field, body);
    ChunkingDoesNotMatter(cfg, a, stream, field, body);
    UploadSucceedsIff(cfg, a, stream);
    UploadSucceedsIff(cfg, a, messages);
    UploadSucceedsIff(cfg, b, messages);
  }

  // ----- Downloads -----

  /** The REST download: the declared length and the streamed body. */
  method RestDownload(storage: LocalStorage, id: Id, chunkSize: nat)
    returns (r: Result<(nat, seq<Bytes>), StorageError>)
    requires storage.Valid()
    ensures var s := storage.Contents();
            && (r.Ok? <==> MetadataOf(storage.cfg, s, id).Ok?)
            && (r.Err? ==> r.error == NotFound(id))
            && (r.Ok? ==>
                  && Content(storage.cfg, s, id) == Ok(Concat(r.value.1))
                  && r.value.0 == MetadataOf(storage.cfg, s, id).value.sizeBytes <= |Concat(r.value.1)|)
  {
    ghost var at := Reach(storage.cfg.layout, id);
    assert at.Some? ==> Tidy(storage.cfg, storage.Contents(), at.value);
    var meta := storage.Metadata(id);
    if meta.Err? {
      return Err(meta.error);
    }
    var chunks := storage.ReadChunks(id, chunkSize);
    if chunks.Err? {
      return Err(chunks.error);
    }
    return Ok((meta.value.sizeBytes, chunks.value));
  }

  /** Calls that leave the upload `id` alone: housekeeping, reads, and every call whose id does not
      lead to its files. */
  predicate Spares(cfg: Config, op: Op, id: Id) {
    Housekeeping(op) || op.MetadataOp? || op.ContentOp? || Reach(cfg.layout, op.id) != Some(id)
  }

  lemma SparedStep(cfg: Config, s: Store, op: Op, id: Id)
    requires Possible(s, op) && Spares(cfg, op, id)
    ensures SameEntries(s, Apply(cfg, s, op).0, id)
  {
    if !Housekeeping(op) && Reach(cfg.layout, op.id) != Some(id) {
      OthersUntouched(cfg, s, op, id);
    }
  }

  lemma {:induction false} SparedRun(cfg: Config, s: Store, ops: seq<Op>, id: Id)
    requires PossibleRun(cfg, s, ops) && forall k :: 0 <= k < |ops| ==> Spares(cfg, ops[k], id)
    ensures SameEntries(s, Run(cfg, s, ops), id)
    decreases |ops|
  {
    if ops != [] {
      assert Spares(cfg, ops[0], id);
      SparedStep(cfg, s, ops[0], id);
      forall k | 0 <= k < |ops[1..]| ensures Spares(cfg, ops[1..][k], id) {
        assert Spares(cfg, ops[k + 1], id);
      }
      SparedRun(cfg, Apply(cfg, s, ops[0]).0, ops[1..], id);
    }
  }

  /** After a successful upload, whatever happens to other files: under every name that leads to it,
      its content is the bytes sent and its record is the one that was written. */
  lemma RoundTrip(cfg: Config, s: Store, ops: seq<Op>, id: Id, bytes: Bytes, name: Id)
    requires PossibleRun(cfg, s, ops) && forall k :: 0 <= k < |ops| ==> Spares(cfg, ops[k], id)
    requires PlainId(id) && Reach(cfg.layout, name) == Some(id)
    requires Content(cfg, s, id) == Ok(bytes)
    ensures var t := Run(cfg, s, ops);
            Content(cfg, t, name) == Ok(bytes) && MetadataOf(cfg, t, name) == MetadataOf(cfg, s, id)
  {
    SparedRun(cfg, s, ops, id);
  }

  /** What a store with a finished file answers about it. */
  lemma StoredIsRead(cfg: Config, s: Store, id: Id, name: string, contentType: string, bytes: Bytes, now: string)
    requires PlainId(id)
    ensures var t := Stored(cfg, s, id, name, contentType, bytes, now);
            && Apply(cfg, t, ContentOp(id)) == (t, Sent(Ok(bytes)))
            && Apply(cfg, t, MetadataOp(id)) ==
                 (t, Described(Ok(FileMetadata(id, name, contentType, |bytes|, Digest(cfg.hash, bytes), now))))
  {
  }

  /** A successful upload is ready for that, and this is what readers are told of it. */
  lemma UploadedIsThere(cfg: Config, s: Store, id: Id, messages: seq<Message>, now: string)
    requires Accepted(cfg, messages) && PlainId(id)
    ensures messages != [] && messages[0].Metadata?
    ensures var t, bytes := AfterSuccess(cfg, s, id, messages, now), Payload(messages);
            && Apply(cfg, t, ContentOp(id)) == (t, Sent(Ok(bytes)))
            && Apply(cfg, t, MetadataOp(id)) ==
                 (t, Described(Ok(FileMetadata(id, messages[0].fileName, messages[0].contentType,
                                               |bytes|, Digest(cfg.hash, bytes), now))))
  {
    StoredIsRead(cfg, s, id, FileNameOf(messages), ContentTypeOf(messages), Payload(messages), now);
  }
}
