/** One upload at the grain of single filesystem calls and lock sections: its steps, each of which may
    fail or move fewer bytes than asked, what holds of it and its files at every stage, and why it
    comes to an end. */
module Interleaving {
  import opened StreamingHash
  import opened Records
  import opened UploadContract

  datatype FrontEnd = Grpc | Rest

  /** What one id owns: the bytes of its data file (which outlive the directory entry for whoever
      holds the file open), whether the entry exists, its record, and its in-flight hasher. */
  datatype Slot = Slot(bytes: Bytes, linked: bool, meta: Option<MetaRecord>, hasher: Option<Hasher>)

  /** Where an upload stands: which call or lock section it performs next. */
  datatype Stage =
    | AwaitHeader
    | CreateData
    | CreateMeta
    | CreateHasher
    | AwaitMessage
    | AppendExists(chunk: Bytes)
    | AppendStat(chunk: Bytes)
    | AppendOpen(chunk: Bytes)
    | AppendWrite(chunk: Bytes, written: nat)
    | AppendHash(chunk: Bytes)
    | FinalizeRead
    | FinalizeTake(record: MetaRecord)
    | FinalizeOpen(record: MetaRecord)
    | FinalizeRehash(record: MetaRecord, pos: nat, hasher: Hasher)
    | FinalizeStat(record: MetaRecord, checksum: string)
    | FinalizeWrite(record: MetaRecord, checksum: string, size: nat)
    | AbortHasher(why: Failure)
    | AbortData(why: Failure)
    | AbortMeta(why: Failure)
    | Finished(result: Result<Receipt, Failure>)
    | Stopped

  /** One request. `messages` is everything its client will send, `sent` what has been appended,
      `faulted` whether an I/O fault has hit it, `litter` whether it ended without cleaning up. */
  datatype Upload = Upload(front: FrontEnd, messages: seq<Message>, next: nat, sent: Bytes, stage: Stage,
                           faulted: bool, litter: bool)

  function NewUpload(front: FrontEnd, messages: seq<Message>): Upload {
    Upload(front, messages, 0, [], AwaitHeader, false, false)
  }

  /** What a step leaves open: whether the call fails, how many bytes it moves, the time it reads. */
  datatype Choice = Choice(fault: bool, amount: nat, stamp: string)

  function AtMost(n: nat, limit: nat): (r: nat)
    ensures r <= limit
  {
    if n <= limit then n else limit
  }

  /** At least one and at most `limit`. */
  function Some1(n: nat, limit: nat): (r: nat)
    requires limit > 0
    ensures 1 <= r <= limit
  {
    if n == 0 then 1 else AtMost(n, limit)
  }

  function Initial(id: Id, u: Upload): MetaRecord {
    InitialRecord(id, FileNameOf(u.messages), ContentTypeOf(u.messages))
  }

  function AppendFailed(u: Upload, why: Failure, fault: bool): Upload {
    u.(stage := AbortHasher(why), faulted := u.faulted || fault)
  }

  /** gRPC reports a failed `finalize` at once; REST aborts first. */
  function FinalizeFailed(u: Upload, e: StorageError, fault: bool): Upload {
    if u.front.Grpc? then u.(stage := Finished(Err(Storage(e))), faulted := u.faulted || fault, litter := true)
    else u.(stage := AbortHasher(Storage(e)), faulted := u.faulted || fault)
  }

  function GiveUp(u: Upload, why: Failure): Upload {
    u.(stage := Finished(Err(why)), faulted := true, litter := true)
  }

  function CreateNext(cfg: Config, id: Id, s: Slot, u: Upload, c: Choice): (Slot, Upload) {
    match u.stage
    case AwaitHeader =>
      var fault := HeaderFault(u.messages);
      if fault.Some? then (s, u.(stage := Finished(Err(fault.value))))
      else (s, u.(stage := CreateData, next := 1))
    case CreateData =>
      if c.fault then (s, GiveUp(u, Storage(Io)))
      else (s.(bytes := [], linked := true), u.(stage := CreateMeta))
    case CreateMeta =>
      if c.fault then (s, GiveUp(u, Storage(Io)))
      else (s.(meta := Some(Initial(id, u))), u.(stage := CreateHasher))
    case CreateHasher =>
      (s.(hasher := Some(cfg.hash.start)), u.(stage := AwaitMessage))
    case _ => (s, u)
  }

  function AppendNext(cfg: Config, id: Id, s: Slot, u: Upload, c: Choice): (Slot, Upload) {
    match u.stage
    case AwaitMessage =>
      if u.next >= |u.messages| then (s, u.(stage := FinalizeRead))
      else (
        match u.messages[u.next]
        case Broken(text) =>
          if u.front.Grpc? then (s, u.(stage := AbortHasher(Transport(text))))
          else (s, u.(stage := Finished(Err(Transport(text))), litter := true))
        case Metadata(_, _) => (s, u.(stage := AbortHasher(SecondMetadata)))
        case Empty => (s, u.(next := u.next + 1))
        case Chunk(bytes) => (s, u.(stage := AppendExists(bytes), next := u.next + 1))
      )
    case AppendExists(chunk) =>
      if c.fault || s.meta.None? then (s, AppendFailed(u, Storage(NotFound(id)), c.fault))
      else (s, u.(stage := AppendStat(chunk)))
    case AppendStat(chunk) =>
      if c.fault || !s.linked then (s, AppendFailed(u, Storage(Io), c.fault))
      else if |s.bytes| + |chunk| > cfg.maxFileSize then (s, AppendFailed(u, Refusal(cfg, |s.bytes|, |chunk|), false))
      else (s, u.(stage := AppendOpen(chunk)))
    case AppendOpen(chunk) =>
      if c.fault || !s.linked then (s, AppendFailed(u, Storage(Io), c.fault))
      else (s, u.(stage := AppendWrite(chunk, 0)))
    case AppendWrite(chunk, written) =>
      var left := if written <= |chunk| then |chunk| - written else 0;
      if c.fault then
        var n := AtMost(c.amount, left);
        (s.(bytes := s.bytes + chunk[|chunk| - left..|chunk| - left + n]), AppendFailed(u, Storage(Io), true))
      else if left > 0 then
        var n := Some1(c.amount, left);
        (s.(bytes := s.bytes + chunk[written..written + n]), u.(stage := AppendWrite(chunk, written + n)))
      else (s, u.(stage := AppendHash(chunk)))
    case AppendHash(chunk) =>
      (s.(hasher := if s.hasher.Some? then Some(cfg.hash.update(s.hasher.value, chunk)) else None),
       u.(stage := AwaitMessage, sent := u.sent + chunk))
    case _ => (s, u)
  }

  function FinalizeNext(cfg: Config, id: Id, s: Slot, u: Upload, c: Choice): (Slot, Upload) {
    match u.stage
    case FinalizeRead =>
      if c.fault || s.meta.None? then (s, FinalizeFailed(u, NotFound(id), c.fault))
      else (s, u.(stage := FinalizeTake(s.meta.value)))
    case FinalizeTake(record) =>
      if s.hasher.Some? then (s.(hasher := None), u.(stage := FinalizeStat(record, cfg.hash.finish(s.hasher.value))))
      else (s, u.(stage := FinalizeOpen(record)))
    case FinalizeOpen(record) =>
      if c.fault || !s.linked then (s, FinalizeFailed(u, Io, c.fault))
      else (s, u.(stage := FinalizeRehash(record, 0, cfg.hash.start)))
    case FinalizeRehash(record, pos, hasher) =>
      if c.fault then (s, FinalizeFailed(u, Io, true))
      else if pos >= |s.bytes| then (s, u.(stage := FinalizeStat(record, cfg.hash.finish(hasher))))
      else
        var n := Some1(c.amount, AtMost(READ_BUFFER, |s.bytes| - pos));
        (s, u.(stage := FinalizeRehash(record, pos + n, cfg.hash.update(hasher, s.bytes[pos..pos + n]))))
    case FinalizeStat(record, checksum) =>
      if c.fault || !s.linked then (s, FinalizeFailed(u, Io, c.fault))
      else (s, u.(stage := FinalizeWrite(record, checksum, |s.bytes|)))
    case FinalizeWrite(record, checksum, size) =>
      if c.fault then (s, FinalizeFailed(u, Io, true))
      else
        (s.(meta := Some(record.(sizeBytes := size, checksum := checksum, uploadedAt := c.stamp, finalized := true))),
         u.(stage := Finished(Ok(Receipt(id, size, checksum)))))
    case _ => (s, u)
  }

  /** A fault while removing the data leaves the record where it is. */
  function AbortNext(s: Slot, u: Upload, c: Choice): (Slot, Upload) {
    match u.stage
    case AbortHasher(why) => (s.(hasher := None), u.(stage := AbortData(why)))
    case AbortData(why) =>
      if c.fault then (s, GiveUp(u, why)) else (s.(linked := false), u.(stage := AbortMeta(why)))
    case AbortMeta(why) =>
      if c.fault then (s, GiveUp(u, why)) else (s.(meta := None), u.(stage := Finished(Err(why))))
    case _ => (s, u)
  }

  /** The next step of an upload, on its own slot. */
  function UploadNext(cfg: Config, id: Id, s: Slot, u: Upload, c: Choice): (Slot, Upload) {
    match u.stage
    case AwaitHeader | CreateData | CreateMeta | CreateHasher => CreateNext(cfg, id, s, u, c)
    case AwaitMessage | AppendExists(_) | AppendStat(_) | AppendOpen(_) | AppendWrite(_, _) | AppendHash(_) =>
      AppendNext(cfg, id, s, u, c)
    case AbortHasher(_) | AbortData(_) | AbortMeta(_) => AbortNext(s, u, c)
    case Finished(_) | Stopped => (s, u)
    case _ => FinalizeNext(cfg, id, s, u, c)
  }

  /** The system may move any part of what is asked for: a write may be short, and a failing write may
      still have written something. */
  lemma AnyPartIsWritten(cfg: Config, id: Id, s: Slot, u: Upload, n: nat, fault: bool) returns (c: Choice)
    requires u.stage.AppendWrite? && u.stage.written + n <= |u.stage.chunk| && (n > 0 || fault)
    ensures c.fault == fault
    ensures UploadNext(cfg, id, s, u, c).0.bytes == s.bytes + u.stage.chunk[u.stage.written..u.stage.written + n]
  {
    c := Choice(fault, n, "");
  }

  /** And a read may be short. */
  lemma AnyPartIsRead(cfg: Config, id: Id, s: Slot, u: Upload, n: nat) returns (c: Choice)
    requires u.stage.FinalizeRehash? && 0 < n <= 65536 && u.stage.pos + n <= |s.bytes|
    ensures !c.fault
    ensures UploadNext(cfg, id, s, u, c).1.stage ==
              FinalizeRehash(u.stage.record, u.stage.pos + n,
                             cfg.hash.update(u.stage.hasher, s.bytes[u.stage.pos..u.stage.pos + n]))
  {
    c := Choice(false, n, "");
  }

  /** But never more than the buffer. */
  lemma ReadsFitBuffer(cfg: Config, id: Id, s: Slot, u: Upload, c: Choice)
    requires u.stage.FinalizeRehash? && u.stage.pos <= |s.bytes|
    ensures var u' := UploadNext(cfg, id, s, u, c).1;
            u'.stage.FinalizeRehash? ==> u'.stage.pos <= u.stage.pos + 65536
  {
  }

  // ----- What holds of an upload and its slot at every stage -----

  predicate Gone(s: Slot) {
    !s.linked && s.meta.None? && s.hasher.None?
  }

  /** An upload in progress: its file holds `content`, its record is unfinished, and its hasher, if
      it still has one, has absorbed what has been sent so far. */
  predicate Live(cfg: Config, id: Id, s: Slot, u: Upload, content: Bytes) {
    && s.linked
    && s.meta == Some(Initial(id, u))
    && s.bytes == content
    && (s.hasher.Some? ==> s.hasher.value == Absorbed(cfg.hash, u.sent))
  }

  predicate Unfinished(id: Id, s: Slot, u: Upload) {
    s.meta.None? || s.meta == Some(Initial(id, u))
  }

  predicate PublishedSlot(cfg: Config, id: Id, s: Slot, u: Upload) {
    && s.bytes == u.sent
    && s.hasher.None?
    && (s.meta.Some? ==>
          s.meta.value == FinalRecord(cfg.hash, id, FileNameOf(u.messages), ContentTypeOf(u.messages), u.sent,
                                      s.meta.value.uploadedAt))
  }

  predicate SlotOk(cfg: Config, id: Id, s: Slot, u: Upload) {
    match u.stage
    case AwaitHeader | CreateData => Gone(s)
    case CreateMeta => s.linked && s.bytes == [] && s.meta.None? && s.hasher.None?
    case CreateHasher => Live(cfg, id, s, u, []) && s.hasher.None?
    case AwaitMessage | AppendExists(_) | AppendStat(_) | AppendOpen(_) | FinalizeRead => Live(cfg, id, s, u, u.sent)
    case AppendWrite(chunk, written) => written <= |chunk| && Live(cfg, id, s, u, u.sent + chunk[..written])
    case AppendHash(chunk) => Live(cfg, id, s, u, u.sent + chunk)
    case FinalizeTake(record) => Live(cfg, id, s, u, u.sent) && record == Initial(id, u)
    case FinalizeOpen(record) => Live(cfg, id, s, u, u.sent) && record == Initial(id, u) && s.hasher.None?
    case FinalizeRehash(record, pos, hasher) =>
      && Live(cfg, id, s, u, u.sent) && record == Initial(id, u) && s.hasher.None?
      && pos <= |u.sent| && hasher == Absorbed(cfg.hash, u.sent[..pos])
    case FinalizeStat(record, checksum) =>
      && Live(cfg, id, s, u, u.sent) && record == Initial(id, u) && s.hasher.None?
      && checksum == Digest(cfg.hash, u.sent)
    case FinalizeWrite(record, checksum, size) =>
      && Live(cfg, id, s, u, u.sent) && record == Initial(id, u) && s.hasher.None?
      && checksum == Digest(cfg.hash, u.sent) && size == |u.sent|
    case AbortHasher(_) => s.meta == Some(Initial(id, u)) && s.linked
    case AbortData(_) => s.meta == Some(Initial(id, u)) && s.hasher.None? && s.linked
    case AbortMeta(_) => s.meta == Some(Initial(id, u)) && s.hasher.None? && !s.linked
    case Finished(result) =>
      if result.Ok? then PublishedSlot(cfg, id, s, u)
      else
        && Unfinished(id, s, u)
        && (if !u.litter then Gone(s) else !u.faulted ==> s.linked && s.meta == Some(Initial(id, u)))
    case Stopped => Unfinished(id, s, u)
  }

  predicate Clean(u: Upload) { !u.faulted && !u.litter }

  /** A REST upload that ended because its body could not be read on. */
  predicate EndedBroken(u: Upload) {
    && u.front.Rest? && HeaderFault(u.messages).None?
    && u.stage.Finished? && u.stage.result.Err? && u.stage.result.error.Transport?
  }

  predicate Appending(cfg: Config, id: Id, u: Upload, chunk: Bytes) {
    && HeaderFault(u.messages).None? && Clean(u) && 1 <= u.next <= |u.messages|
    && u.sent + chunk == Payload(u.messages[..u.next])
    && Outcome(cfg, id, u.messages) ==
         if |u.sent| + |chunk| > cfg.maxFileSize then Err(Refusal(cfg, |u.sent|, |chunk|))
         else Continue(cfg, id, u.sent + chunk, u.messages[u.next..])
  }

  predicate Fits(cfg: Config, id: Id, u: Upload, chunk: Bytes) {
    Appending(cfg, id, u, chunk) && |u.sent| + |chunk| <= cfg.maxFileSize
  }

  predicate Failing(cfg: Config, id: Id, u: Upload, why: Failure) {
    && (u.faulted || Outcome(cfg, id, u.messages) == Err(why))
    && HeaderFault(u.messages).None? && !u.litter
    && (u.front.Rest? && !u.faulted ==> !why.Transport?)
  }

  /** The request is on course for the answer its messages call for. */
  predicate OnCourse(cfg: Config, id: Id, u: Upload) {
    var due := Outcome(cfg, id, u.messages);
    match u.stage
    case AwaitHeader => u.next == 0 && u.sent == [] && Clean(u)
    case CreateData | CreateMeta | CreateHasher =>
      HeaderFault(u.messages).None? && u.next == 1 && u.sent == [] && Clean(u)
    case AwaitMessage =>
      && HeaderFault(u.messages).None? && Clean(u) && 1 <= u.next <= |u.messages|
      && u.sent == Payload(u.messages[..u.next])
      && due == Continue(cfg, id, u.sent, u.messages[u.next..])
    case AppendExists(chunk) => Appending(cfg, id, u, chunk)
    case AppendStat(chunk) => Appending(cfg, id, u, chunk)
    case AppendOpen(chunk) => Fits(cfg, id, u, chunk)
    case AppendWrite(chunk, _) => Fits(cfg, id, u, chunk)
    case AppendHash(chunk) => Fits(cfg, id, u, chunk)
    case FinalizeRead | FinalizeTake(_) | FinalizeOpen(_) | FinalizeRehash(_, _, _) | FinalizeStat(_, _)
       | FinalizeWrite(_, _, _) =>
      HeaderFault(u.messages).None? && Clean(u) && u.sent == Payload(u.messages) && due == Ok(Truth(cfg, id, u.sent))
    case AbortHasher(why) => Failing(cfg, id, u, why)
    case AbortData(why) => Failing(cfg, id, u, why)
    case AbortMeta(why) => Failing(cfg, id, u, why)
    case Finished(result) =>
      && (!u.faulted ==> result == due && (u.litter <==> EndedBroken(u)))
      && (result.Ok? ==> Clean(u) && u.sent == Payload(u.messages))
    case Stopped => true
  }

  /** A REST request with a good header whose body cannot be read to the end. */
  ghost predicate BreaksRestBody(cfg: Config, front: FrontEnd, messages: seq<Message>) {
    front.Rest? && HeaderFault(messages).None? && BodyBreaks(cfg, messages)
  }

  predicate UploadOk(cfg: Config, id: Id, s: Slot, u: Upload) {
    |s.bytes| <= cfg.maxFileSize && SlotOk(cfg, id, s, u) && OnCourse(cfg, id, u)
  }

  predicate InCreate(u: Upload) {
    u.stage.AwaitHeader? || u.stage.CreateData? || u.stage.CreateMeta? || u.stage.CreateHasher?
  }

  lemma CreateKeeps(cfg: Config, id: Id, s: Slot, u: Upload, c: Choice)
    requires UploadOk(cfg, id, s, u) && InCreate(u)
    ensures var (s', u') := CreateNext(cfg, id, s, u, c); UploadOk(cfg, id, s', u')
  {
    if u.stage.CreateHasher? {
      StepOver(u.messages, 0);
    }
  }

  lemma AwaitEndKeeps(cfg: Config, id: Id, s: Slot, u: Upload, c: Choice)
    requires UploadOk(cfg, id, s, u) && u.stage.AwaitMessage? && u.next == |u.messages|
    ensures var (s', u') := AppendNext(cfg, id, s, u, c); UploadOk(cfg, id, s', u')
  {
    assert u.messages[..u.next] == u.messages;
  }

  lemma AwaitDataKeeps(cfg: Config, id: Id, s: Slot, u: Upload, c: Choice)
    requires UploadOk(cfg, id, s, u) && u.stage.AwaitMessage? && u.next < |u.messages|
    requires CarriesData(u.messages[u.next])
    ensures var (s', u') := AppendNext(cfg, id, s, u, c); UploadOk(cfg, id, s', u')
  {
    StepOver(u.messages, u.next);
    assert u.sent + [] == u.sent;
  }

  lemma AwaitRefuseKeeps(cfg: Config, id: Id, s: Slot, u: Upload, c: Choice)
    requires UploadOk(cfg, id, s, u) && u.stage.AwaitMessage? && u.next < |u.messages|
    requires !CarriesData(u.messages[u.next])
    ensures var (s', u') := AppendNext(cfg, id, s, u, c); UploadOk(cfg, id, s', u')
  {
    StepOver(u.messages, u.next);
  }

  lemma AppendKeeps(cfg: Config, id: Id, s: Slot, u: Upload, c: Choice)
    requires UploadOk(cfg, id, s, u)
    requires u.stage.AppendExists? || u.stage.AppendStat? || u.stage.AppendOpen? || u.stage.AppendHash?
    ensures var (s', u') := AppendNext(cfg, id, s, u, c); UploadOk(cfg, id, s', u')
  {
    if u.stage.AppendOpen? {
      assert u.sent + u.stage.chunk[..0] == u.sent;
    }
  }

  lemma WriteFailKeeps(cfg: Config, id: Id, s: Slot, u: Upload, c: Choice)
    requires UploadOk(cfg, id, s, u) && u.stage.AppendWrite? && c.fault
    ensures var (s', u') := AppendNext(cfg, id, s, u, c); UploadOk(cfg, id, s', u')
  {
    var chunk, w := u.stage.chunk, u.stage.written;
    var n := AtMost(c.amount, |chunk| - w);
    assert u.sent + chunk[..w] + chunk[w..w + n] == u.sent + chunk[..w + n];
  }

  lemma WriteMoreKeeps(cfg: Config, id: Id, s: Slot, u: Upload, c: Choice)
    requires UploadOk(cfg, id, s, u) && u.stage.AppendWrite? && !c.fault && u.stage.written < |u.stage.chunk|
    ensures var (s', u') := AppendNext(cfg, id, s, u, c); UploadOk(cfg, id, s', u')
  {
    var chunk, w := u.stage.chunk, u.stage.written;
    var n := Some1(c.amount, |chunk| - w);
    assert u.sent + chunk[..w] + chunk[w..w + n] == u.sent + chunk[..w + n];
  }

  lemma WriteKeeps(cfg: Config, id: Id, s: Slot, u: Upload, c: Choice)
    requires UploadOk(cfg, id, s, u) && u.stage.AppendWrite?
    ensures var (s', u') := AppendNext(cfg, id, s, u, c); UploadOk(cfg, id, s', u')
  {
    if c.fault {
      WriteFailKeeps(cfg, id, s, u, c);
    } else if u.stage.written < |u.stage.chunk| {
      WriteMoreKeeps(cfg, id, s, u, c);
    } else {
      assert u.stage.chunk[..u.stage.written] == u.stage.chunk;
    }
  }

  lemma FinalizeBeginKeeps(cfg: Config, id: Id, s: Slot, u: Upload, c: Choice)
    requires UploadOk(cfg, id, s, u) && (u.stage.FinalizeRead? || u.stage.FinalizeTake? || u.stage.FinalizeOpen?)
    ensures var (s', u') := FinalizeNext(cfg, id, s, u, c); UploadOk(cfg, id, s', u')
  {
    if u.stage.FinalizeOpen? {
      assert u.sent[..0] == [];
    }
  }

  lemma FinalizeEndKeeps(cfg: Config, id: Id, s: Slot, u: Upload, c: Choice)
    requires UploadOk(cfg, id, s, u) && (u.stage.FinalizeStat? || u.stage.FinalizeWrite?)
    ensures var (s', u') := FinalizeNext(cfg, id, s, u, c); UploadOk(cfg, id, s', u')
  {
  }

  lemma RehashMoreKeeps(cfg: Config, id: Id, s: Slot, u: Upload, c: Choice)
    requires UploadOk(cfg, id, s, u) && u.stage.FinalizeRehash? && !c.fault && u.stage.pos < |s.bytes|
    ensures var (s', u') := FinalizeNext(cfg, id, s, u, c); UploadOk(cfg, id, s', u')
  {
    var pos := u.stage.pos;
    var n := Some1(c.amount, AtMost(READ_BUFFER, |s.bytes| - pos));
    assert u.sent[..pos] + u.sent[pos..pos + n] == u.sent[..pos + n];
  }

  lemma RehashKeeps(cfg: Config, id: Id, s: Slot, u: Upload, c: Choice)
    requires UploadOk(cfg, id, s, u) && u.stage.FinalizeRehash?
    ensures var (s', u') := FinalizeNext(cfg, id, s, u, c); UploadOk(cfg, id, s', u')
  {
    if !c.fault && u.stage.pos < |s.bytes| {
      RehashMoreKeeps(cfg, id, s, u, c);
    } else {
      assert u.sent[..|u.sent|] == u.sent;
    }
  }

  predicate InAbort(u: Upload) { u.stage.AbortHasher? || u.stage.AbortData? || u.stage.AbortMeta? }

  lemma AbortKeeps(cfg: Config, id: Id, s: Slot, u: Upload, c: Choice)
    requires UploadOk(cfg, id, s, u) && InAbort(u)
    ensures var (s', u') := AbortNext(s, u, c); UploadOk(cfg, id, s', u')
  {
  }

  predicate InBody(u: Upload) {
    u.stage.AwaitMessage? || u.stage.AppendExists? || u.stage.AppendStat? || u.stage.AppendOpen? || u.stage.AppendWrite?
    || u.stage.AppendHash?
  }

  predicate InFinalize(u: Upload) {
    u.stage.FinalizeRead? || u.stage.FinalizeTake? || u.stage.FinalizeOpen? || u.stage.FinalizeRehash?
    || u.stage.FinalizeStat? || u.stage.FinalizeWrite?
  }

  predicate Over(u: Upload) { u.stage.Finished? || u.stage.Stopped? }

  lemma Dispatch(cfg: Config, id: Id, s: Slot, u: Upload, c: Choice)
    ensures UploadNext(cfg, id, s, u, c) ==
              if InCreate(u) then CreateNext(cfg, id, s, u, c)
              else if InBody(u) then AppendNext(cfg, id, s, u, c)
              else if InFinalize(u) then FinalizeNext(cfg, id, s, u, c)
              else if InAbort(u) then AbortNext(s, u, c)
              else (s, u)
    ensures Over(u) <==> !InCreate(u) && !InBody(u) && !InFinalize(u) && !InAbort(u)
  {
  }

  lemma BodyKeeps(cfg: Config, id: Id, s: Slot, u: Upload, c: Choice)
    requires UploadOk(cfg, id, s, u) && InBody(u)
    ensures var (s', u') := AppendNext(cfg, id, s, u, c); UploadOk(cfg, id, s', u')
  {
    if u.stage.AppendWrite? {
      WriteKeeps(cfg, id, s, u, c);
    } else if !u.stage.AwaitMessage? {
      AppendKeeps(cfg, id, s, u, c);
    } else if u.next == |u.messages| {
      AwaitEndKeeps(cfg, id, s, u, c);
    } else if CarriesData(u.messages[u.next]) {
      AwaitDataKeeps(cfg, id, s, u, c);
    } else {
      AwaitRefuseKeeps(cfg, id, s, u, c);
    }
  }

  lemma FinalizeKeeps(cfg: Config, id: Id, s: Slot, u: Upload, c: Choice)
    requires UploadOk(cfg, id, s, u) && InFinalize(u)
    ensures var (s', u') := FinalizeNext(cfg, id, s, u, c); UploadOk(cfg, id, s', u')
  {
    if u.stage.FinalizeRehash? {
      RehashKeeps(cfg, id, s, u, c);
    } else if u.stage.FinalizeStat? || u.stage.FinalizeWrite? {
      FinalizeEndKeeps(cfg, id, s, u, c);
    } else {
      FinalizeBeginKeeps(cfg, id, s, u, c);
    }
  }

  /** Every step of an upload, whatever it chooses and whether or not it fails. */
  lemma UploadKeeps(cfg: Config, id: Id, s: Slot, u: Upload, c: Choice)
    requires UploadOk(cfg, id, s, u)
    ensures var (s', u') := UploadNext(cfg, id, s, u, c); UploadOk(cfg, id, s', u')
  {
    Dispatch(cfg, id, s, u, c);
    if InCreate(u) {
      CreateKeeps(cfg, id, s, u, c);
    } else if InBody(u) {
      BodyKeeps(cfg, id, s, u, c);
    } else if InFinalize(u) {
      FinalizeKeeps(cfg, id, s, u, c);
    } else if InAbort(u) {
      AbortKeeps(cfg, id, s, u, c);
    }
  }

  predicate IsPublished(u: Upload) {
    u.stage.Finished? && u.stage.result.Ok?
  }

  lemma FinishedFacts(cfg: Config, id: Id, s: Slot, u: Upload)
    requires UploadOk(cfg, id, s, u) && u.stage.Finished?
    ensures !u.faulted ==> u.stage.result == Outcome(cfg, id, u.messages)
    ensures IsPublished(u) ==> !u.faulted && PublishedSlot(cfg, id, s, u) && u.sent == Payload(u.messages)
  {
  }

  /** A failed upload left nothing, or its unfinished entries; the latter, without faults, exactly when
      it came over REST and its body could not be read to the end. */
  lemma FailedFacts(cfg: Config, id: Id, s: Slot, u: Upload)
    requires UploadOk(cfg, id, s, u) && u.stage.Finished? && u.stage.result.Err?
    ensures !u.litter ==> Gone(s)
    ensures !u.faulted ==> (u.litter <==> BreaksRestBody(cfg, u.front, u.messages))
    ensures !u.faulted && u.litter ==> s.linked && s.meta.Some? && !s.meta.value.finalized
  {
    if HeaderFault(u.messages).None? {
      TransportFailsIff(cfg, id, u.messages);
    }
  }

  // ----- Progress -----

  /** Phase, messages still to come, and work left in the current operation. */
  function Work(s: Slot, u: Upload): (nat, nat, nat) {
    var todo := if u.next <= |u.messages| then |u.messages| - u.next else 0;
    match u.stage
    case AwaitHeader => (8, 0, 0)
    case CreateData => (7, 0, 0)
    case CreateMeta => (6, 0, 0)
    case CreateHasher => (5, 0, 0)
    case AwaitMessage => (4, todo, 0)
    case AppendExists(chunk) => (4, todo, |chunk| + 5)
    case AppendStat(chunk) => (4, todo, |chunk| + 4)
    case AppendOpen(chunk) => (4, todo, |chunk| + 3)
    case AppendWrite(chunk, written) => (4, todo, 2 + if written <= |chunk| then |chunk| - written else 0)
    case AppendHash(_) => (4, todo, 1)
    case FinalizeRead => (3, 0, |s.bytes| + 5)
    case FinalizeTake(_) => (3, 0, |s.bytes| + 4)
    case FinalizeOpen(_) => (3, 0, |s.bytes| + 3)
    case FinalizeRehash(_, pos, _) => (3, 0, 2 + if pos <= |s.bytes| then |s.bytes| - pos else 0)
    case FinalizeStat(_, _) => (3, 0, 1)
    case FinalizeWrite(_, _, _) => (3, 0, 0)
    case AbortHasher(_) => (2, 0, 2)
    case AbortData(_) => (2, 0, 1)
    case AbortMeta(_) => (2, 0, 0)
    case Finished(_) => (0, 0, 0)
    case Stopped => (0, 0, 0)
  }

  predicate Lower(a: (nat, nat, nat), b: (nat, nat, nat)) {
    a.0 < b.0 || (a.0 == b.0 && (a.1 < b.1 || (a.1 == b.1 && a.2 < b.2)))
  }

  lemma WriteProgress(cfg: Config, id: Id, s: Slot, u: Upload, c: Choice)
    requires u.stage.AppendWrite?
    ensures var (s', u') := AppendNext(cfg, id, s, u, c); Lower(Work(s', u'), Work(s, u))
  {
  }

  lemma AwaitProgress(cfg: Config, id: Id, s: Slot, u: Upload, c: Choice)
    requires u.stage.AwaitMessage?
    ensures var (s', u') := AppendNext(cfg, id, s, u, c); Lower(Work(s', u'), Work(s, u))
  {
  }

  lemma AppendProgress(cfg: Config, id: Id, s: Slot, u: Upload, c: Choice)
    requires InBody(u) && !u.stage.AppendWrite? && !u.stage.AwaitMessage?
    ensures var (s', u') := AppendNext(cfg, id, s, u, c); Lower(Work(s', u'), Work(s, u))
  {
  }

  lemma RehashProgress(cfg: Config, id: Id, s: Slot, u: Upload, c: Choice)
    requires u.stage.FinalizeRehash?
    ensures var (s', u') := FinalizeNext(cfg, id, s, u, c); Lower(Work(s', u'), Work(s, u))
  {
  }

  lemma FinalizeBeginProgress(cfg: Config, id: Id, s: Slot, u: Upload, c: Choice)
    requires u.stage.FinalizeRead? || u.stage.FinalizeTake? || u.stage.FinalizeOpen?
    ensures var (s', u') := FinalizeNext(cfg, id, s, u, c); Lower(Work(s', u'), Work(s, u))
  {
  }

  lemma FinalizeEndProgress(cfg: Config, id: Id, s: Slot, u: Upload, c: Choice)
    requires u.stage.FinalizeStat? || u.stage.FinalizeWrite?
    ensures var (s', u') := FinalizeNext(cfg, id, s, u, c); Lower(Work(s', u'), Work(s, u))
  {
  }

  lemma FinalizeProgress(cfg: Config, id: Id, s: Slot, u: Upload, c: Choice)
    requires InFinalize(u)
    ensures var (s', u') := FinalizeNext(cfg, id, s, u, c); Lower(Work(s', u'), Work(s, u))
  {
    if u.stage.FinalizeRehash? {
      RehashProgress(cfg, id, s, u, c);
    } else if u.stage.FinalizeStat? || u.stage.FinalizeWrite? {
      FinalizeEndProgress(cfg, id, s, u, c);
    } else {
      FinalizeBeginProgress(cfg, id, s, u, c);
    }
  }

  /** An upload that is over takes no more steps. */
  lemma OverStays(cfg: Config, id: Id, s: Slot, u: Upload, c: Choice)
    requires Over(u)
    ensures UploadNext(cfg, id, s, u, c) == (s, u)
  {
  }

  /** Every step brings an unfinished upload strictly closer to its end, however short its reads and
      writes are: nothing can make an upload run for ever. */
  lemma EveryStepIsProgress(cfg: Config, id: Id, s: Slot, u: Upload, c: Choice)
    requires !Over(u)
    ensures var (s', u') := UploadNext(cfg, id, s, u, c); Lower(Work(s', u'), Work(s, u))
  {
    Dispatch(cfg, id, s, u, c);
    if u.stage.AppendWrite? {
      WriteProgress(cfg, id, s, u, c);
    } else if u.stage.AwaitMessage? {
      AwaitProgress(cfg, id, s, u, c);
    } else if InBody(u) {
      AppendProgress(cfg, id, s, u, c);
    } else if InFinalize(u) {
      FinalizeProgress(cfg, id, s, u, c);
    }
  }

  /** Losing a hasher entry is harmless at every stage. */
  lemma EvictionHarmless(cfg: Config, id: Id, s: Slot, u: Upload)
    requires UploadOk(cfg, id, s, u)
    ensures UploadOk(cfg, id, s.(hasher := None), u)
  {
  }

  /** `after` is the same request as `before`, still going, and faulted only if it was before or
      the step met a fault. */
  predicate Marks(before: Upload, fault: bool, after: Upload) {
    && (!fault && !before.faulted ==> !after.faulted)
    && (!before.stage.Stopped? ==> !after.stage.Stopped?)
    && after.messages == before.messages && after.front == before.front
  }

  lemma AppendMarks(cfg: Config, id: Id, s: Slot, u: Upload, c: Choice)
    requires InBody(u)
    ensures Marks(u, c.fault, AppendNext(cfg, id, s, u, c).1)
  {
  }

  lemma FinalizeMarks(cfg: Config, id: Id, s: Slot, u: Upload, c: Choice)
    requires InFinalize(u)
    ensures Marks(u, c.fault, FinalizeNext(cfg, id, s, u, c).1)
  {
  }

  /** Without faults a step marks nothing, and no step stops an upload. */
  lemma StepMarks(cfg: Config, id: Id, s: Slot, u: Upload, c: Choice)
    ensures Marks(u, c.fault, UploadNext(cfg, id, s, u, c).1)
  {
    Dispatch(cfg, id, s, u, c);
    if InBody(u) {
      AppendMarks(cfg, id, s, u, c);
    } else if InFinalize(u) {
      FinalizeMarks(cfg, id, s, u, c);
    }
  }
}
