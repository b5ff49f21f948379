/** What one upload request is owed: its answer as a function of its own messages alone. Both front
    ends and the interleaving model are proved against this. */
module UploadContract {
  import opened StreamingHash
  import opened Records
  import opened Paths
  import opened FileNames

  /** One item of a gRPC upload stream; `Broken` is a transport error in place of a message. */
  datatype Message =
    | Metadata(fileName: string, contentType: string)
    | Chunk(bytes: Bytes)
    | Empty
    | Broken(text: string)

  datatype Receipt = Receipt(fileId: Id, sizeBytes: nat, checksum: string)

  datatype Failure =
    | EmptyStream
    | FirstNotMetadata
    | SecondMetadata
    | Transport(text: string)
    | Storage(error: StorageError)

  /** A REST upload: the first multipart field, if there is one, and the pieces of its body. */
  datatype FirstField =
    | NoField
    | FieldError(text: string)
    | Field(fileName: Option<string>, contentType: Option<string>)
  datatype Piece = Piece(bytes: Bytes) | ReadError(text: string)

  function OrElse(value: Option<string>, default: string): string {
    if value.Some? then value.value else default
  }

  function BodyMessages(body: seq<Piece>): (r: seq<Message>)
    ensures |r| == |body|
    ensures forall k :: 0 <= k < |body| ==>
              r[k] == (if body[k].Piece? then Chunk(body[k].bytes) else Broken(body[k].text))
  {
    seq(|body|, k requires 0 <= k < |body| => if body[k].Piece? then Chunk(body[k].bytes) else Broken(body[k].text))
  }

  /** The gRPC stream that carries the same upload as a multipart request. */
  function AsMessages(field: FirstField, body: seq<Piece>): seq<Message> {
    match field
    case NoField => []
    case FieldError(text) => [Broken(text)]
    case Field(name, contentType) =>
      [Metadata(OrElse(name, "unnamed"), OrElse(contentType, "application/octet-stream"))] + BodyMessages(body)
  }

  // ----- The answer -----

  function Payload(messages: seq<Message>): Bytes {
    if messages == [] then []
    else (if messages[0].Chunk? then messages[0].bytes else []) + Payload(messages[1..])
  }

  function Refusal(cfg: Config, current: nat, added: nat): Failure {
    Storage(TooLarge(RefusedSize(current, added), cfg.maxFileSize))
  }

  function Truth(cfg: Config, id: Id, bytes: Bytes): Receipt {
    Receipt(id, |bytes|, Digest(cfg.hash, bytes))
  }

  /** The answer when `sent` has been accepted and `rest` is still to come. */
  function Continue(cfg: Config, id: Id, sent: Bytes, rest: seq<Message>): Result<Receipt, Failure>
    decreases |rest|
  {
    if rest == [] then Ok(Truth(cfg, id, sent))
    else
      match rest[0]
      case Broken(text) => Err(Transport(text))
      case Metadata(_, _) => Err(SecondMetadata)
      case Empty => Continue(cfg, id, sent, rest[1..])
      case Chunk(bytes) =>
        if |sent| + |bytes| > cfg.maxFileSize then Err(Refusal(cfg, |sent|, |bytes|))
        else Continue(cfg, id, sent + bytes, rest[1..])
  }

  /** The failure that keeps a request from creating an upload at all. */
  function HeaderFault(messages: seq<Message>): Option<Failure> {
    if messages == [] then Some(EmptyStream)
    else
      match messages[0]
      case Broken(text) => Some(Transport(text))
      case Metadata(name, _) =>
        var fault := NameVerdict(name);
        if fault.Some? then Some(Storage(InvalidFileName(fault.value))) else None
      case _ => Some(FirstNotMetadata)
  }

  function FileNameOf(messages: seq<Message>): string {
    if messages != [] && messages[0].Metadata? then messages[0].fileName else ""
  }

  function ContentTypeOf(messages: seq<Message>): string {
    if messages != [] && messages[0].Metadata? then messages[0].contentType else ""
  }

  function Outcome(cfg: Config, id: Id, messages: seq<Message>): Result<Receipt, Failure> {
    var fault := HeaderFault(messages);
    if fault.Some? then Err(fault.value) else Continue(cfg, id, [], messages[1..])
  }

  /** What a request that creates no upload is told, by its first message. */
  lemma HeaderAnswers(cfg: Config, id: Id, first: Message, rest: seq<Message>)
    ensures Outcome(cfg, id, []) == Err(EmptyStream)
    ensures first.Chunk? || first.Empty? ==> Outcome(cfg, id, [first] + rest) == Err(FirstNotMetadata)
    ensures first.Broken? ==> Outcome(cfg, id, [first] + rest) == Err(Transport(first.text))
    ensures first.Metadata? && first.fileName == "" ==>
              Outcome(cfg, id, [first] + rest) == Err(Storage(InvalidFileName(EmptyName)))
    ensures first.Metadata? && first.fileName != "" && !SafeName(first.fileName) ==>
              Outcome(cfg, id, [first] + rest) == Err(Storage(InvalidFileName(PathTraversal(first.fileName))))
  {
  }

  // ----- What the answer is, said without recursion -----

  predicate CarriesData(m: Message) { m.Chunk? || m.Empty? }

  predicate AllCarryData(messages: seq<Message>) {
    forall k :: 0 <= k < |messages| ==> CarriesData(messages[k])
  }

  predicate Accepted(cfg: Config, messages: seq<Message>) {
    && HeaderFault(messages).None?
    && AllCarryData(messages[1..])
    && |Payload(messages)| <= cfg.maxFileSize
  }

  lemma {:induction false} PayloadConcat(a: seq<Message>, b: seq<Message>)
    ensures Payload(a + b) == Payload(a) + Payload(b)
    decreases |a|
  {
    if a == [] {
      assert a + b == b;
    } else {
      assert (a + b)[1..] == a[1..] + b;
      PayloadConcat(a[1..], b);
    }
  }

  lemma PayloadOfOne(m: Message)
    ensures Payload([m]) == if m.Chunk? then m.bytes else []
  {
    assert [m][1..] == [];
  }

  /** A chunk that fits, or an empty message, only moves bytes from what is to come to what is sent. */
  lemma ContinueStep(cfg: Config, id: Id, sent: Bytes, rest: seq<Message>)
    requires rest != [] && CarriesData(rest[0]) && |sent| + |Payload([rest[0]])| <= cfg.maxFileSize
    ensures Continue(cfg, id, sent, rest) == Continue(cfg, id, sent + Payload([rest[0]]), rest[1..])
  {
    PayloadOfOne(rest[0]);
    assert sent + [] == sent;
  }

  /** Moving past one message of a stream. */
  lemma StepOver(messages: seq<Message>, k: nat)
    requires k < |messages|
    ensures messages[k..][0] == messages[k] && messages[k..][1..] == messages[k + 1..]
    ensures Payload(messages[..k + 1]) == Payload(messages[..k]) + Payload([messages[k]])
    ensures Payload([messages[k]]) == if messages[k].Chunk? then messages[k].bytes else []
  {
    assert messages[..k + 1] == messages[..k] + [messages[k]];
    PayloadConcat(messages[..k], [messages[k]]);
    PayloadOfOne(messages[k]);
  }

  /** What one message does to the answer still owed. */
  lemma Advance(cfg: Config, id: Id, messages: seq<Message>, k: nat, sent: Bytes)
    requires k < |messages| && sent == Payload(messages[..k])
    ensures var owed := Continue(cfg, id, sent, messages[k..]);
            match messages[k]
            case Broken(text) => owed == Err(Transport(text))
            case Metadata(_, _) => owed == Err(SecondMetadata)
            case Empty => sent == Payload(messages[..k + 1]) && owed == Continue(cfg, id, sent, messages[k + 1..])
            case Chunk(bytes) =>
              && sent + bytes == Payload(messages[..k + 1])
              && owed == if |sent| + |bytes| > cfg.maxFileSize then Err(Refusal(cfg, |sent|, |bytes|))
                         else Continue(cfg, id, sent + bytes, messages[k + 1..])
  {
    StepOver(messages, k);
    assert sent + [] == sent;
  }

  lemma PayloadSplit(rest: seq<Message>)
    requires rest != []
    ensures Payload(rest) == Payload([rest[0]]) + Payload(rest[1..])
    ensures AllCarryData(rest) <==> CarriesData(rest[0]) && AllCarryData(rest[1..])
  {
    PayloadOfOne(rest[0]);
    assert rest == [rest[0]] + rest[1..];
  }

  lemma ContinueRefuses(cfg: Config, id: Id, sent: Bytes, rest: seq<Message>)
    requires rest != [] && !(CarriesData(rest[0]) && |sent| + |Payload([rest[0]])| <= cfg.maxFileSize)
    requires |sent| <= cfg.maxFileSize
    ensures Continue(cfg, id, sent, rest).Err?
    ensures !(AllCarryData(rest) && |sent| + |Payload(rest)| <= cfg.maxFileSize)
  {
    PayloadSplit(rest);
    PayloadOfOne(rest[0]);
  }

  /** The body of a stream is accepted exactly when it holds only chunks and empty messages and its
      bytes fit; the answer is then the length and the digest of all of them in order. */
  lemma {:induction false} ContinueSucceedsIff(cfg: Config, id: Id, sent: Bytes, rest: seq<Message>)
    requires |sent| <= cfg.maxFileSize
    ensures Continue(cfg, id, sent, rest).Ok? <==>
              AllCarryData(rest) && |sent| + |Payload(rest)| <= cfg.maxFileSize
    ensures Continue(cfg, id, sent, rest).Ok? ==>
              Continue(cfg, id, sent, rest) == Ok(Truth(cfg, id, sent + Payload(rest)))
    decreases |rest|
  {
    if rest == [] {
      assert sent + [] == sent;
    } else if CarriesData(rest[0]) && |sent| + |Payload([rest[0]])| <= cfg.maxFileSize {
      var first := Payload([rest[0]]);
      PayloadSplit(rest);
      ContinueStep(cfg, id, sent, rest);
      ContinueSucceedsIff(cfg, id, sent + first, rest[1..]);
      assert sent + first + Payload(rest[1..]) == sent + Payload(rest);
    } else {
      ContinueRefuses(cfg, id, sent, rest);
    }
  }

  lemma UploadSucceedsIff(cfg: Config, id: Id, messages: seq<Message>)
    ensures Outcome(cfg, id, messages).Ok? <==> Accepted(cfg, messages)
    ensures Outcome(cfg, id, messages).Ok? ==> Outcome(cfg, id, messages) == Ok(Truth(cfg, id, Payload(messages)))
  {
    if HeaderFault(messages).None? {
      ContinueSucceedsIff(cfg, id, [], messages[1..]);
      assert Payload(messages) == [] + Payload(messages[1..]);
    }
  }

  /** Message `k` of the body is the reason the request fails. */
  predicate Offends(cfg: Config, messages: seq<Message>, k: nat)
    requires 1 <= k < |messages|
  {
    !CarriesData(messages[k]) || |Payload(messages[..k])| + |Payload([messages[k]])| > cfg.maxFileSize
  }

  function Offence(cfg: Config, messages: seq<Message>, k: nat): Failure
    requires 1 <= k < |messages|
  {
    match messages[k]
    case Broken(text) => Transport(text)
    case Metadata(_, _) => SecondMetadata
    case _ => Refusal(cfg, |Payload(messages[..k])|, |Payload([messages[k]])|)
  }

  predicate FirstOffender(cfg: Config, messages: seq<Message>, k: nat) {
    && 1 <= k < |messages|
    && Offends(cfg, messages, k)
    && (forall j :: 1 <= j < k ==> !Offends(cfg, messages, j))
  }

  /** While no message has offended, the request is still owed the answer to what is left. */
  lemma {:induction false} SkipHarmless(cfg: Config, id: Id, messages: seq<Message>, k: nat)
    requires HeaderFault(messages).None? && 1 <= k <= |messages|
    requires forall j :: 1 <= j < k ==> !Offends(cfg, messages, j)
    ensures |Payload(messages[..k])| <= cfg.maxFileSize
    ensures Outcome(cfg, id, messages) == Continue(cfg, id, Payload(messages[..k]), messages[k..])
  {
    if k == 1 {
      assert messages[..1] == [messages[0]];
      assert Payload([messages[0]]) == [];
    } else {
      SkipHarmless(cfg, id, messages, k - 1);
      assert !Offends(cfg, messages, k - 1);
      ContinueStep(cfg, id, Payload(messages[..k - 1]), messages[k - 1..]);
      assert messages[..k] == messages[..k - 1] + [messages[k - 1]];
      PayloadConcat(messages[..k - 1], [messages[k - 1]]);
      assert messages[k - 1..][1..] == messages[k..];
    }
  }

  lemma OffenderFails(cfg: Config, id: Id, messages: seq<Message>, k: nat)
    requires HeaderFault(messages).None? && FirstOffender(cfg, messages, k)
    ensures Outcome(cfg, id, messages) == Err(Offence(cfg, messages, k))
  {
    SkipHarmless(cfg, id, messages, k);
    PayloadOfOne(messages[k]);
    assert messages[k..][0] == messages[k];
  }

  /** The error is that of the first offending message, and nothing sent after it matters. */
  lemma FirstOffenderDecides(cfg: Config, id: Id, messages: seq<Message>, k: nat, later: seq<Message>)
    requires HeaderFault(messages).None? && FirstOffender(cfg, messages, k)
    ensures Outcome(cfg, id, messages) == Err(Offence(cfg, messages, k))
    ensures Outcome(cfg, id, messages[..k + 1] + later) == Err(Offence(cfg, messages, k))
  {
    OffenderFails(cfg, id, messages, k);
    var other := messages[..k + 1] + later;
    forall j | 1 <= j <= k ensures Offends(cfg, other, j) == Offends(cfg, messages, j) {
      assert other[..j] == messages[..j];
    }
    assert other[..k] == messages[..k];
    OffenderFails(cfg, id, other, k);
  }

  lemma {:induction false} NoneBefore(cfg: Config, messages: seq<Message>, j: nat)
    requires forall k :: !FirstOffender(cfg, messages, k)
    requires 1 <= j < |messages|
    ensures !Offends(cfg, messages, j)
    decreases j
  {
    forall i: nat | 1 <= i < j ensures !Offends(cfg, messages, i) {
      NoneBefore(cfg, messages, i);
    }
    assert !FirstOffender(cfg, messages, j);
  }

  /** A request with a good header fails exactly when it has a first offender. */
  lemma FailureHasOffender(cfg: Config, id: Id, messages: seq<Message>)
    requires HeaderFault(messages).None?
    ensures Outcome(cfg, id, messages).Err? <==> exists k :: FirstOffender(cfg, messages, k)
  {
    if k :| FirstOffender(cfg, messages, k) {
      OffenderFails(cfg, id, messages, k);
    } else {
      forall j: nat | 1 <= j < |messages| ensures !Offends(cfg, messages, j) {
        NoneBefore(cfg, messages, j);
      }
      SkipHarmless(cfg, id, messages, |messages|);
    }
  }

  // ----- Bodies that cannot be read to the end -----

  lemma OneFirst(cfg: Config, messages: seq<Message>, j: nat, k: nat)
    requires FirstOffender(cfg, messages, j) && FirstOffender(cfg, messages, k)
    ensures j == k
  {
  }

  predicate BreaksAt(cfg: Config, messages: seq<Message>, k: nat) {
    FirstOffender(cfg, messages, k) && messages[k].Broken?
  }

  /** The first thing wrong with the body is that it cannot be read on. */
  ghost predicate BodyBreaks(cfg: Config, messages: seq<Message>) {
    exists k: nat :: BreaksAt(cfg, messages, k)
  }

  /** A request with a good header fails for its transport exactly then. */
  lemma TransportFailsIff(cfg: Config, id: Id, messages: seq<Message>)
    requires HeaderFault(messages).None?
    ensures var r := Outcome(cfg, id, messages);
            r.Err? && r.error.Transport? <==> BodyBreaks(cfg, messages)
  {
    FailureHasOffender(cfg, id, messages);
    if k: nat :| FirstOffender(cfg, messages, k) {
      OffenderFails(cfg, id, messages, k);
      assert messages[k].Broken? ==> BreaksAt(cfg, messages, k);
      forall j: nat | BreaksAt(cfg, messages, j) ensures j == k {
        OneFirst(cfg, messages, j, k);
      }
    }
  }

  function BodySize(body: seq<Piece>): nat {
    if body == [] then 0 else (if body[0].Piece? then |body[0].bytes| else 0) + BodySize(body[1..])
  }

  /** Reading a body fails at piece `k`, and what came before it fits on top of `sent` bytes. */
  predicate ReadFailsAt(cfg: Config, sent: nat, body: seq<Piece>, k: nat) {
    && k < |body| && body[k].ReadError?
    && (forall j :: 0 <= j < k ==> body[j].Piece?)
    && sent + BodySize(body[..k]) <= cfg.maxFileSize
  }

  /** A multipart request with a good name whose body cannot be read to the end, and does not pass the
      limit before that. */
  ghost predicate ReadFails(cfg: Config, field: FirstField, body: seq<Piece>) {
    && field.Field? && NameVerdict(OrElse(field.fileName, "unnamed")).None?
    && exists k: nat :: ReadFailsAt(cfg, 0, body, k)
  }

  lemma ReadFailsLater(cfg: Config, sent: nat, body: seq<Piece>, k: nat)
    requires body != [] && body[0].Piece?
    ensures ReadFailsAt(cfg, sent, body, k + 1) <==> ReadFailsAt(cfg, sent + |body[0].bytes|, body[1..], k)
  {
    if k < |body[1..]| {
      assert body[..k + 1][1..] == body[1..][..k];
      assert forall j :: 1 <= j < k + 1 ==> body[j] == body[1..][j - 1];
    }
  }

  lemma {:induction false} ContinueBreaksIff(cfg: Config, id: Id, sent: Bytes, body: seq<Piece>)
    requires |sent| <= cfg.maxFileSize
    ensures var owed := Continue(cfg, id, sent, BodyMessages(body));
            owed.Err? && owed.error.Transport? <==> exists k: nat :: ReadFailsAt(cfg, |sent|, body, k)
    decreases |body|
  {
    if body != [] {
      assert BodyMessages(body)[1..] == BodyMessages(body[1..]);
      if body[0].ReadError? {
        assert BodySize(body[..0]) == 0;
        assert ReadFailsAt(cfg, |sent|, body, 0);
      } else {
        var n := |sent| + |body[0].bytes|;
        if n <= cfg.maxFileSize {
          ContinueBreaksIff(cfg, id, sent + body[0].bytes, body[1..]);
        }
        if k: nat :| ReadFailsAt(cfg, |sent|, body, k) {
          ReadFailsLater(cfg, |sent|, body, k - 1);
          assert ReadFailsAt(cfg, n, body[1..], k - 1);
        }
        if k: nat :| ReadFailsAt(cfg, n, body[1..], k) {
          ReadFailsLater(cfg, |sent|, body, k);
          assert ReadFailsAt(cfg, |sent|, body, k + 1);
        }
      }
    }
  }

  /** Over REST, the transport fails after a good header exactly when reading fails. */
  lemma ReadFailsIff(cfg: Config, id: Id, field: FirstField, body: seq<Piece>)
    requires field.Field?
    ensures var messages := AsMessages(field, body);
            var r := Outcome(cfg, id, messages);
            && (ReadFails(cfg, field, body) <==> HeaderFault(messages).None? && r.Err? && r.error.Transport?)
            && (ReadFails(cfg, field, body) <==> HeaderFault(messages).None? && BodyBreaks(cfg, messages))
  {
    var messages := AsMessages(field, body);
    assert messages[1..] == BodyMessages(body);
    if HeaderFault(messages).None? {
      ContinueBreaksIff(cfg, id, [], body);
      TransportFailsIff(cfg, id, messages);
    }
  }

  /** One broken read is enough. */
  lemma OneBrokenRead(cfg: Config, text: string)
    ensures ReadFails(cfg, Field(None, None), [ReadError(text)])
  {
    OneSegment("unnamed");
    assert BodySize([ReadError(text)][..0]) == 0;
    assert ReadFailsAt(cfg, 0, [ReadError(text)], 0);
  }

  /** Two deliveries of the same upload, cut into chunks differently, one over each front end. */
  lemma ChunkingDoesNotMatter(cfg: Config, id: Id, messages: seq<Message>, field: FirstField, body: seq<Piece>)
    requires messages != [] && AsMessages(field, body) != [] && messages[0] == AsMessages(field, body)[0]
    requires AllCarryData(messages[1..])
    requires forall k :: 0 <= k < |body| ==> body[k].Piece?
    requires Payload(messages) == Payload(AsMessages(field, body))
    ensures var grpc, rest := Outcome(cfg, id, messages), Outcome(cfg, id, AsMessages(field, body));
            grpc.Ok? || rest.Ok? ==> grpc == rest
  {
    var other := AsMessages(field, body);
    UploadSucceedsIff(cfg, id, messages);
    UploadSucceedsIff(cfg, id, other);
    assert HeaderFault(messages) == HeaderFault(other);
    assert AllCarryData(other[1..]);
  }
}
