/** The gRPC download: a spawned task reads chunks and pushes them into a channel of capacity 128
    that the client's response stream empties. The two sides interleave freely. */
module DownloadPipe {
  import opened StreamingHash
  import opened Records

  const CAPACITY: nat := 128

  /** `unread` is still in the chunk stream, `hand` has been read and is being sent, `queue` is in the
      channel, `received` has reached the client. `open` is whether the client still listens. */
  datatype Pipe<T> = Pipe(unread: seq<T>, hand: Option<T>, queue: seq<T>, received: seq<T>,
                          open: bool, producing: bool, sawEnd: bool)

  datatype Move = Fetch | Send | Receive | SeeEnd | HangUp

  function Fresh<T>(source: seq<T>): Pipe<T> {
    Pipe(source, None, [], [], true, true, false)
  }

  predicate Can<T>(p: Pipe<T>, m: Move) {
    match m
    case Fetch => p.producing && p.hand.None?
    case Send => p.producing && p.hand.Some? && (!p.open || |p.queue| < CAPACITY)
    case Receive => p.open && p.queue != []
    case SeeEnd => p.open && p.queue == [] && !p.producing && !p.sawEnd
    case HangUp => p.open && !p.sawEnd
  }

  /** Sending to a client that hung up fails and ends the task; hanging up discards the channel. */
  function Step<T>(p: Pipe<T>, m: Move): Pipe<T> {
    if !Can(p, m) then p
    else
      match m
      case Fetch =>
        if p.unread == [] then p.(producing := false) else p.(hand := Some(p.unread[0]), unread := p.unread[1..])
      case Send =>
        if p.open then p.(queue := p.queue + [p.hand.value], hand := None) else p.(producing := false)
      case Receive => p.(received := p.received + [p.queue[0]], queue := p.queue[1..])
      case SeeEnd => p.(sawEnd := true)
      case HangUp => p.(open := false, queue := [])
  }

  function Play<T>(source: seq<T>, moves: seq<Move>): Pipe<T> {
    if moves == [] then Fresh(source) else Step(Play(source, moves[..|moves| - 1]), moves[|moves| - 1])
  }

  function InHand<T>(p: Pipe<T>): seq<T> {
    if p.hand.Some? then [p.hand.value] else []
  }

  /** Nothing is lost, repeated or reordered between the file and a client that listens. */
  predicate PipeOk<T(==)>(source: seq<T>, p: Pipe<T>) {
    && |p.queue| <= CAPACITY
    && p.received <= source
    && (p.open ==> p.received + p.queue + InHand(p) + p.unread == source)
    && (p.open && !p.producing ==> p.unread == [] && p.hand.None?)
    && (!p.open ==> p.queue == [])
    && (p.sawEnd ==> p.open && !p.producing && p.queue == [])
  }

  lemma FetchKeeps<T>(source: seq<T>, p: Pipe<T>)
    requires PipeOk(source, p) && Can(p, Fetch)
    ensures PipeOk(source, Step(p, Fetch))
  {
    if p.open && p.unread != [] {
      var q := Step(p, Fetch);
      assert p.unread == [p.unread[0]] + p.unread[1..];
      assert q.received + q.queue + InHand(q) + q.unread == p.received + p.queue + InHand(p) + p.unread;
    }
  }

  lemma SendKeeps<T>(source: seq<T>, p: Pipe<T>)
    requires PipeOk(source, p) && Can(p, Send)
    ensures PipeOk(source, Step(p, Send))
  {
    if p.open {
      var q := Step(p, Send);
      assert q.received + q.queue + InHand(q) + q.unread == p.received + p.queue + InHand(p) + p.unread;
    }
  }

  lemma ReceiveKeeps<T>(source: seq<T>, p: Pipe<T>)
    requires PipeOk(source, p) && Can(p, Receive)
    ensures PipeOk(source, Step(p, Receive))
  {
    var q := Step(p, Receive);
    assert p.queue == [p.queue[0]] + p.queue[1..];
    assert q.received + q.queue == p.received + p.queue;
    assert q.received <= source;
  }

  lemma StepKeeps<T>(source: seq<T>, p: Pipe<T>, m: Move)
    requires PipeOk(source, p)
    ensures PipeOk(source, Step(p, m))
  {
    if Can(p, m) {
      match m
      case Fetch => FetchKeeps(source, p);
      case Send => SendKeeps(source, p);
      case Receive => ReceiveKeeps(source, p);
      case SeeEnd =>
      case HangUp =>
    }
  }

  lemma {:induction false} PlayKeeps<T>(source: seq<T>, moves: seq<Move>)
    ensures PipeOk(source, Play(source, moves))
    decreases |moves|
  {
    if moves == [] {
      assert [] + [] + [] + source == source;
    } else {
      PlayKeeps(source, moves[..|moves| - 1]);
      StepKeeps(source, Play(source, moves[..|moves| - 1]), moves[|moves| - 1]);
    }
  }

  /** Both sides are through: the client has seen the end, or it hung up and the task has ended. */
  predicate Over<T>(p: Pipe<T>) {
    p.sawEnd || (!p.open && !p.producing)
  }

  /** Neither side ever waits for the other for good: until it is over, a move other than hanging up
      is possible. */
  lemma NeverStuck<T>(p: Pipe<T>)
    ensures Over(p) || Can(p, Fetch) || Can(p, Send) || Can(p, Receive) || Can(p, SeeEnd)
  {
  }

  function Remaining<T>(p: Pipe<T>): nat {
    3 * |p.unread| + 2 * |InHand(p)| + |p.queue| + (if p.producing then 1 else 0)
      + (if p.sawEnd then 0 else 1) + (if p.open then 1 else 0)
  }

  /** And every move brings the end closer. */
  lemma EveryMoveCounts<T>(p: Pipe<T>, m: Move)
    requires Can(p, m)
    ensures Remaining(Step(p, m)) < Remaining(p)
  {
  }

  function PlayOn<T>(p: Pipe<T>, moves: seq<Move>): Pipe<T>
    decreases |moves|
  {
    if moves == [] then p else PlayOn(Step(p, moves[0]), moves[1..])
  }

  /** Once the client has hung up, the task reads at most one more item: its next send fails. */
  lemma {:induction false} HangUpStopsReading<T>(p: Pipe<T>, moves: seq<Move>)
    requires !p.open
    ensures |PlayOn(p, moves).unread| >= |p.unread| - (if p.producing && p.hand.None? then 1 else 0)
    decreases |moves|
  {
    if moves != [] {
      HangUpStopsReading(Step(p, moves[0]), moves[1..]);
    }
  }

  /** In every run the channel holds at most 128 items, and whatever the client has is a prefix of
      the stream; when it is over, the client that stayed has the whole stream. */
  lemma DeliveredInOrder<T>(source: seq<T>, moves: seq<Move>)
    ensures var p := Play(source, moves);
            && |p.queue| <= 128
            && p.received <= source
            && (p.open ==> p.received + p.queue + InHand(p) + p.unread == source)
            && (Over(p) && p.open ==> p.received == source)
  {
    PlayKeeps(source, moves);
    var p := Play(source, moves);
    if Over(p) && p.open {
      assert p.received + [] + [] + [] == p.received;
    }
  }

  /** A schedule that runs every download to its end, with the client hanging up at any point. */
  lemma {:induction false} CanBeFinished<T>(source: seq<T>, moves: seq<Move>) returns (more: seq<Move>)
    ensures Over(Play(source, moves + more))
    decreases Remaining(Play(source, moves))
  {
    var p := Play(source, moves);
    if Over(p) {
      more := [];
      assert moves + [] == moves;
    } else {
      NeverStuck(p);
      var m :=
        if Can(p, Fetch) then Fetch
        else if Can(p, Send) then Send
        else if Can(p, Receive) then Receive
        else SeeEnd;
      EveryMoveCounts(p, m);
      assert (moves + [m])[..|moves|] == moves;
      more := CanBeFinished(source, moves + [m]);
      assert moves + [m] + more == moves + ([m] + more);
      more := [m] + more;
    }
  }

  lemma {:induction false} ConcatOfPrefix(chunks: seq<Bytes>, source: seq<Bytes>)
    requires chunks <= source
    ensures Concat(chunks) <= Concat(source)
    decreases |chunks|
  {
    if chunks != [] {
      assert chunks[0] == source[0] && chunks[1..] <= source[1..];
      ConcatOfPrefix(chunks[1..], source[1..]);
    }
  }

  /** Read as bytes: the client holds a prefix of the file at any time, and all of it at the end. */
  lemma BytesDelivered(source: seq<Bytes>, moves: seq<Move>)
    ensures var p := Play(source, moves);
            && Concat(p.received) <= Concat(source)
            && (p.sawEnd ==> Concat(p.received) == Concat(source))
  {
    DeliveredInOrder(source, moves);
    PlayKeeps(source, moves);
    ConcatOfPrefix(Play(source, moves).received, source);
  }
}
