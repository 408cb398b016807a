/**
 What each event does to a session, said of the bytes that came and of those that were written
 (src/async_connection.rs, `run_io` and its WebSocket twin).
 */
module SessionEffects {
  import opened ByteStrings
  import opened Errors
  import opened Wire3
  import opened Frames
  import opened Multiplexer
  import opened SessionTables
  import opened SessionLaws
  import opened IncomingFrames

  // ---------------------------------------------------------------- the end of a session

  /** Everyone who still waited in `s` has been told, once, that the connection is closed; nothing else has changed. */
  ghost predicate ClosedFrom(s: State, s': State, phase: Phase) {
    && s' == s.(phase := phase, correlated := map[], pending := map[], queued := map[], answers := s'.answers)
    && forall i: u64 :: ToldClosed(s.answers[i], s'.answers[i], Live(s, i))
  }

  predicate ToldClosed(before: seq<Outcome>, after: seq<Outcome>, times: nat) {
    && |after| == |before| + times && before == after[..|before|]
    && forall k :: |before| <= k < |after| ==> after[k] == Failure(ConnectionClosed)
  }

  lemma FailingCloses(s: State, phase: Phase)
    ensures ClosedFrom(s, FailAll(s, phase), phase)
  {
    hide Live, Repeat;
    forall i: u64 ensures ToldClosed(s.answers[i], FailAll(s, phase).answers[i], Live(s, i)) {
      RepeatTells(s.answers[i], Live(s, i));
    }
  }

  lemma RepeatTells(before: seq<Outcome>, times: nat)
    ensures ToldClosed(before, before + Repeat(times, Failure(ConnectionClosed)), times)
  {
  }

  /** The write came through, or it was the last thing the session did. */
  ghost predicate WrittenOrLost(sent: State, s': State, written: bool) {
    if written then s' == sent else ClosedFrom(sent, s', Disconnected)
  }

  lemma EndEffect(s: State)
    ensures ClosedFrom(s, Step(s, Close), Ended) && ClosedFrom(s, Step(s, ChannelEnd), Ended)
    ensures ClosedFrom(s, Step(s, ReadError), Disconnected)
    ensures Step(s, Event.Connect) == s
  {
    hide ClosedFrom, FailAll;
    FailingCloses(s, Ended);
    FailingCloses(s, Disconnected);
  }

  // ---------------------------------------------------------------- frames that come

  ghost predicate Comes(s: State, bytes: Bytes, messageType: u16, core: Bytes, correlationId: u64, final: bool) {
    !OfControl(messageType) && IsRecord(bytes, s.limits.maxMessageBytes, messageType, core, correlationId, final)
  }

  lemma RecordStep(s: State, bytes: Bytes, written: bool, messageType: u16, core: Bytes, correlationId: u64, final: bool)
    requires Comes(s, bytes, messageType, core, correlationId, final)
    ensures Step(s, Frame(bytes, written)) ==
              OnIncoming(s, Ok(Record(messageType, core, correlationId, final)), Follows(s, messageType, written))
  {
    hide DecodeIncoming, OnIncoming, IsRecord, Follows;
    RecordLanguage(s.limits, bytes, messageType, core, correlationId, final);
  }

  /** One more answer for a request whose sender is still there. */
  ghost function Told(s: State, id: u64, live: bool, o: Outcome): State {
    s.(answers := if live then s.answers[id := s.answers[id] + [o]] else s.answers)
  }

  /**
   A reply under a correlation id: the last frame frees the slot and its core is the answer, a frame
   before the last changes nothing, and one that no slot waits for is the end of the session.
   */
  lemma ReplyEffect(s: State, bytes: Bytes, written: bool, messageType: u16, core: Bytes, id: u64, final: bool)
    requires Comes(s, bytes, messageType, core, id, final) && id != 0
    ensures var s' := Step(s, Frame(bytes, written));
            && (id in s.correlated && final ==>
                  s' == Told(s, id, s.correlated[id], Success(core)).(correlated := s.correlated - {id}))
            && (id in s.correlated && !final ==> s' == s)
            && (id !in s.correlated ==> ClosedFrom(s, s', Disconnected))
  {
    hide Step, Comes, ClosedFrom, FailAll;
    RecordStep(s, bytes, written, messageType, core, id, final);
    FailingCloses(s, Disconnected);
  }

  /** What an encoder makes of a payload that is sent without flags and correlation. */
  function Plain(messageType: u16, payload: Bytes): Result<Bytes> {
    if 15 + |payload| > MAX_MESSAGE_SIZE then Err(FrameTooLarge(15 + |payload|)) else Ok(Framed(messageType, 0, 0, payload))
  }

  lemma PlainFrames(r: Waiting, messageType: u16)
    ensures Written(r, messageType) == Write(r.id, r.payload.generation, messageType, NextOfType, Plain(messageType, r.payload.payload))
    ensures EncodeFrame(messageType, 0, 0, r.payload.payload) == Plain(messageType, r.payload.payload)
  {
    hide EncodeFrame, Framed;
    FrameLayout(messageType, 0, 0, r.payload.payload);
  }

  /** A frame without a correlation that nobody of its type waits for is a notice. */
  lemma NoticeEffect(s: State, bytes: Bytes, written: bool, messageType: u16, core: Bytes, final: bool)
    requires Comes(s, bytes, messageType, core, 0, final) && QueueAt(s.pending, messageType) == []
    ensures Step(s, Frame(bytes, written)) == s.(published := s.published + [Notice(messageType, core)])
  {
    hide Step, Comes;
    RecordStep(s, bytes, written, messageType, core, 0, final);
  }

  /** The oldest of its type has its answer. */
  ghost function FirstServed(s: State, messageType: u16, core: Bytes): State
    requires QueueAt(s.pending, messageType) != []
  {
    var first := s.pending[messageType][0];
    Told(s, first.id, first.live, Success(core)).(
      pending := s.pending[messageType := s.pending[messageType][1..]],
      served := s.served + [Served(messageType, first.id, core, first.live)])
  }

  /** A request joins its type's queue and its frame goes to the socket, under the generation it came with. */
  ghost function Joined(s: State, r: Waiting, messageType: u16): State {
    s.(pending := s.pending[messageType := QueueAt(s.pending, messageType) + [Entry(r.id, r.live, ())]],
       writes := s.writes + [Write(r.id, r.payload.generation, messageType, NextOfType, Plain(messageType, r.payload.payload))])
  }

  lemma JoinEffect(s: State, r: Waiting, messageType: u16, written: bool)
    ensures WrittenOrLost(Joined(s, r, messageType), WriteUncorrelated(s, r, messageType, written), written)
  {
    hide FailAll, ClosedFrom, EncodeFrame, Plain;
    PlainFrames(r, messageType);
    FailingCloses(Joined(s, r, messageType), Disconnected);
  }

  /** A frame without a correlation answers the oldest of its type, and the next that waits for that type is written. */
  lemma TurnEffect(s: State, bytes: Bytes, written: bool, messageType: u16, core: Bytes, final: bool)
    requires Comes(s, bytes, messageType, core, 0, final) && QueueAt(s.pending, messageType) != []
    ensures var s', served, waiting := Step(s, Frame(bytes, written)), FirstServed(s, messageType, core), QueueAt(s.queued, messageType);
            && (waiting == [] ==> s' == served)
            && (waiting != [] ==>
                  var less := served.(queued := s.queued[messageType := waiting[1..]]);
                  WrittenOrLost(Joined(less, waiting[0], messageType), s',
                                written && 15 + |waiting[0].payload.payload| <= MAX_MESSAGE_SIZE))
  {
    hide Step, Comes, WrittenOrLost, WriteUncorrelated, EncodeFrame, Framed;
    RecordStep(s, bytes, written, messageType, core, 0, final);
    var served, waiting := FirstServed(s, messageType, core), QueueAt(s.queued, messageType);
    if waiting != [] {
      var less := served.(queued := s.queued[messageType := waiting[1..]]);
      PlainFrames(waiting[0], messageType);
      JoinEffect(less, waiting[0], messageType, written && EncodeFrame(messageType, 0, 0, waiting[0].payload.payload).Ok?);
    }
  }

  /** A HELLO renews the limits, a GOAWAY changes nothing. */
  lemma ControlEffect(s: State, bytes: Bytes, written: bool, renewed: Limits)
    ensures IsHello(s.limits, s.limits.maxMessageBytes, bytes, renewed) ==> Step(s, Frame(bytes, written)) == s.(limits := renewed)
    ensures IsGoaway(s.limits.maxMessageBytes, bytes) ==> Step(s, Frame(bytes, written)) == s
  {
    hide DecodeIncoming, IsHello, IsGoaway, FollowsIncoming;
    ControlLanguage(s.limits, bytes, renewed);
    ControlLanguage(s.limits, bytes, s.limits);
  }

  /** A frame that a session cannot read. */
  ghost predicate Unreadable(limits: Limits, bytes: Bytes) {
    && (forall renewed :: !IsHello(limits, limits.maxMessageBytes, bytes, renewed))
    && !IsGoaway(limits.maxMessageBytes, bytes)
    && forall messageType, core, correlationId, final | !OfControl(messageType) ::
         !IsRecord(bytes, limits.maxMessageBytes, messageType, core, correlationId, final)
  }

  lemma UnreadableFails(limits: Limits, bytes: Bytes)
    ensures DecodeIncoming(limits, bytes).Err? <==> Unreadable(limits, bytes)
  {
    hide DecodeIncoming, IsHello, IsGoaway, IsRecord, OfControl;
    var incoming := DecodeIncoming(limits, bytes);
    forall renewed ensures IsHello(limits, limits.maxMessageBytes, bytes, renewed) ==> incoming == Ok(Control(renewed)) {
      ControlLanguage(limits, bytes, renewed);
    }
    ControlLanguage(limits, bytes, limits);
    forall messageType, core, correlationId, final
      ensures !OfControl(messageType) && IsRecord(bytes, limits.maxMessageBytes, messageType, core, correlationId, final)
              <==> incoming == Ok(Record(messageType, core, correlationId, final))
    {
      RecordLanguage(limits, bytes, messageType, core, correlationId, final);
    }
    if incoming.Ok? && incoming.value.Control? {
      ControlLanguage(limits, bytes, incoming.value.limits);
    }
  }

  lemma UnreadableEffect(s: State, bytes: Bytes, written: bool)
    requires Unreadable(s.limits, bytes)
    ensures ClosedFrom(s, Step(s, Frame(bytes, written)), Disconnected)
  {
    hide DecodeIncoming, Unreadable, ClosedFrom, FailAll;
    UnreadableFails(s.limits, bytes);
    FailingCloses(s, Disconnected);
  }

  // ---------------------------------------------------------------- requests

  /** A request is taken from the queue, without its sender when its cancellation came first. */
  ghost function TakenIn(s: State, id: u64): State {
    s.(canceled := s.canceled - {id},
       dropped := if id in s.canceled then s.dropped + multiset{id} else s.dropped)
  }

  /** Why a payload cannot be sent under these limits. */
  predicate Unsendable(limits: Limits, flags: byte, payload: Bytes, e: Error) {
    var size := 15 + |payload|;
    if size <= MAX_MESSAGE_SIZE && flags >= 8 then e == Protocol
    else (size > MAX_MESSAGE_SIZE || size > limits.maxMessageBytes) && e == FrameTooLarge(size)
  }

  predicate Sendable(limits: Limits, flags: byte, payload: Bytes) {
    flags < 8 && 15 + |payload| <= MAX_MESSAGE_SIZE && 15 + |payload| <= limits.maxMessageBytes
  }

  lemma OutboundLanguage(limits: Limits, messageType: u16, flags: byte, correlationId: u64, payload: Bytes)
    ensures var frame := EncodeOutbound(limits, messageType, flags, correlationId, payload);
            && (frame.Ok? <==> Sendable(limits, flags, payload))
            && (frame.Ok? ==> frame.value == Framed(messageType, flags, correlationId, payload))
            && forall e :: frame == Err(e) <==> Unsendable(limits, flags, payload, e)
  {
    hide EncodeFrame, Framed, Value;
    FrameLayout(messageType, flags, correlationId, payload);
  }

  lemma StaleEffect(s: State, e: Event)
    requires (e.Request? || e.Send?) && e.generation != s.generation
    ensures Step(s, e) == Told(s, e.id, true, Failure(ConnectionClosed))
  {
    hide EncodeOutbound, EncodeFrame;
  }

  /**
   A request of a negotiated session: refused over the limit in flight or with a payload that does not
   fit, and otherwise written in one frame under its own id, with a slot that waits for the answer.
   */
  lemma RequestEffect(s: State, e: Event)
    requires e.Request? && e.generation == s.generation && s.limits.hello.Some?
    ensures var s', taken, live := Step(s, e), TakenIn(s, e.id), e.id !in s.canceled;
            && (|s.correlated| >= s.limits.maxInFlight ==> s' == Told(taken, e.id, live, Failure(Backpressure)))
            && (|s.correlated| < s.limits.maxInFlight ==>
                  && (forall error :: Unsendable(s.limits, e.flags, e.payload, error) ==>
                        s' == Told(taken, e.id, live, Failure(error)))
                  && (Sendable(s.limits, e.flags, e.payload) ==>
                        var frame := Ok(Framed(e.messageType, e.flags, e.id, e.payload));
                        WrittenOrLost(
                          taken.(correlated := s.correlated[e.id := live],
                                 writes := s.writes + [Write(e.id, s.generation, e.messageType, OwnId, frame)]),
                          s', e.written)))
  {
    hide EncodeOutbound, EncodeFrame, FailAll, ClosedFrom, Sendable, Unsendable, Framed;
    OutboundLanguage(s.limits, e.messageType, e.flags, e.id, e.payload);
    var sent := TakenIn(s, e.id).(
      correlated := s.correlated[e.id := e.id !in s.canceled],
      writes := s.writes + [Write(e.id, s.generation, e.messageType, OwnId,
                                  EncodeOutbound(s.limits, e.messageType, e.flags, e.id, e.payload))]);
    FailingCloses(sent, Disconnected);
  }

  /** Without a negotiated version: behind another of its type the request waits, and otherwise it is written at once. */
  lemma RequestByTypeEffect(s: State, e: Event)
    requires e.Request? && e.generation == s.generation && s.limits.hello.None?
    ensures var s', taken, t := Step(s, e), TakenIn(s, e.id), e.messageType;
            var r := Entry(e.id, e.id !in s.canceled, Parked(e.generation, e.payload));
            && (QueueAt(s.pending, t) != [] ==> s' == taken.(queued := s.queued[t := QueueAt(s.queued, t) + [r]]))
            && (QueueAt(s.pending, t) == [] ==>
                  WrittenOrLost(Joined(taken, r, t), s', e.written && 15 + |e.payload| <= MAX_MESSAGE_SIZE))
  {
    hide EncodeFrame, WriteUncorrelated, WrittenOrLost, Framed;
    var r := Entry(e.id, e.id !in s.canceled, Parked(e.generation, e.payload));
    PlainFrames(r, e.messageType);
    JoinEffect(TakenIn(s, e.id), r, e.messageType, e.written && EncodeFrame(e.messageType, 0, 0, e.payload).Ok?);
  }

  /** One-way messages that carry the id they were queued under; all others are sent under 0. */
  predicate SentUnderId(messageType: u16, payload: Bytes) {
    messageType == 300 || messageType == 301 || messageType == 302 || (messageType == 304 && [1] <= payload)
  }

  /** A one-way message is written in one frame, its sender told how the write went, and it takes no slot. */
  lemma SendEffect(s: State, e: Event)
    requires e.Send? && e.generation == s.generation
    ensures var s' := Step(s, e);
            && (forall error :: Unsendable(s.limits, 0, e.payload, error) ==> s' == Told(s, e.id, true, Failure(error)))
            && (Sendable(s.limits, 0, e.payload) ==>
                  var frame := Ok(Framed(e.messageType, 0, if SentUnderId(e.messageType, e.payload) then e.id else 0, e.payload));
                  s' == Told(s, e.id, true, if e.written then Sent else Failure(Transport)).(
                    writes := s.writes + [Write(e.id, s.generation, e.messageType, Unanswered, frame)]))
  {
    hide EncodeOutbound, EncodeFrame, Sendable, Unsendable, Framed;
    var correlationId := if SentUnderId(e.messageType, e.payload) then e.id else 0;
    assert SendCorrelationId(e.messageType, e.payload, e.id) == correlationId;
    OutboundLanguage(s.limits, e.messageType, 0, correlationId, e.payload);
  }

  // ---------------------------------------------------------------- cancellations

  /** The first of a queue with this id. */
  predicate FirstWith<P>(q: seq<Entry<P>>, id: u64, k: nat) {
    k < |q| && q[k].id == id && forall j :: 0 <= j < k ==> q[j].id != id
  }

  lemma {:induction false} Finds<P>(q: seq<Entry<P>>, id: u64) returns (k: nat)
    requires HasId(q, id)
    ensures FirstWith(q, id, k)
  {
    if q[0].id == id {
      k := 0;
    } else {
      var i :| 0 <= i < |q| && q[i].id == id;
      assert q[1..][i - 1].id == id;
      var next := Finds(q[1..], id);
      k := next + 1;
      assert forall j :: 1 <= j < |q| ==> q[j] == q[1..][j - 1];
    }
  }

  lemma Behind<P>(q: seq<Entry<P>>, id: u64, k: nat)
    requires FirstWith(q, id, k) && k > 0
    ensures q[0].id != id && FirstWith(q[1..], id, k - 1) && q[1..][k - 1] == q[k]
  {
    assert forall j :: 1 <= j < |q| ==> q[j] == q[1..][j - 1];
  }

  lemma {:induction false} KilledAt<P>(q: seq<Entry<P>>, id: u64, k: nat)
    requires FirstWith(q, id, k)
    ensures KillFirst(q, id) == q[k := q[k].(live := false)] && FirstIsLive(q, id) == q[k].live
  {
    if k > 0 {
      Behind(q, id, k);
      KilledAt(q[1..], id, k - 1);
    }
  }

  lemma {:induction false} RemovedAt<P>(q: seq<Entry<P>>, id: u64, k: nat)
    requires FirstWith(q, id, k)
    ensures RemoveFirst(q, id) == q[..k] + q[k + 1..] && FirstIsLive(q, id) == q[k].live
  {
    if k > 0 {
      Behind(q, id, k);
      RemovedAt(q[1..], id, k - 1);
      assert q[1..][..k - 1] == q[1..k] && q[1..][k..] == q[k + 1..] && [q[0]] + q[1..k] == q[..k];
    }
  }

  /** One sender fewer, if there was one. */
  ghost function Silenced(s: State, id: u64, live: bool): State {
    s.(dropped := if live then s.dropped + multiset{id} else s.dropped)
  }

  /** The first with this id keeps its turn and loses its sender. */
  ghost predicate PendingSilenced(s: State, s': State, id: u64, at: u16, k: nat) {
    var q := QueueAt(s.pending, at);
    && FirstWith(q, id, k)
    && s' == Silenced(s, id, q[k].live).(pending := s.pending[at := q[k := q[k].(live := false)]])
  }

  /** The first with this id leaves the queue, and the others keep their order. */
  ghost predicate QueuedRemoved(s: State, s': State, id: u64, at: u16, k: nat) {
    var q := QueueAt(s.queued, at);
    && FirstWith(q, id, k)
    && s' == Silenced(s, id, q[k].live).(queued := s.queued[at := q[..k] + q[k + 1..]])
  }

  /**
   A cancellation takes the sender from the slot under its id and leaves the slot; failing that, from
   the first of the requests that wait for their type; failing that, it removes the first of those not
   yet written; and when there is none of them it leaves a mark.
   */
  lemma CancelEffect(s: State, id: u64, at: u16)
    requires CancelFinds(s, id, at)
    ensures var s' := Step(s, Cancel(id, at));
            && (id in s.correlated ==>
                  s' == Silenced(s, id, s.correlated[id]).(correlated := s.correlated[id := false]))
            && (id !in s.correlated && Somewhere(s.pending, id) ==>
                  at in s.pending && exists k: nat :: PendingSilenced(s, s', id, at, k))
            && (id !in s.correlated && !Somewhere(s.pending, id) && Somewhere(s.queued, id) ==>
                  at in s.queued && exists k: nat :: QueuedRemoved(s, s', id, at, k))
            && (id !in s.correlated && !Somewhere(s.pending, id) && !Somewhere(s.queued, id) ==>
                  s' == s.(canceled := s.canceled + {id}))
  {
    hide KillFirst, RemoveFirst, FirstIsLive, FirstWith, HasId;
    if id !in s.correlated && Somewhere(s.pending, id) {
      var k := Finds(s.pending[at], id);
      KilledAt(s.pending[at], id, k);
      assert PendingSilenced(s, Step(s, Cancel(id, at)), id, at, k);
    } else if id !in s.correlated && Somewhere(s.queued, id) {
      var k := Finds(s.queued[at], id);
      RemovedAt(s.queued[at], id, k);
      assert QueuedRemoved(s, Step(s, Cancel(id, at)), id, at, k);
    }
  }

  // ---------------------------------------------------------------- what is cancelled stays silent

  /** A request that a cancellation already waits for is taken without its sender. */
  ghost predicate Marked(s: State, e: Event, id: u64) {
    id in s.canceled && e.Request? && e.generation == s.generation && e.id == id
  }

  ghost predicate NeverFewerDropped(s: State, s': State, input: Input, id: u64) {
    && s'.dropped[id] >= s.dropped[id] + One((input.ById? || input.ByType?) && TakesIn(input, id) > 0 && id in s.canceled)
    && (id in s.canceled && TakesIn(input, id) == 0 ==> id in s'.canceled)
  }

  ghost predicate KeepsMarks(s: State, s': State) {
    s.dropped <= s'.dropped && s.canceled <= s'.canceled
  }

  lemma FailingKeepsMarks(s: State, phase: Phase)
    ensures KeepsMarks(s, FailAll(s, phase))
  {
  }

  lemma WritingKeepsMarks(s: State, r: Waiting, messageType: u16, written: bool)
    ensures KeepsMarks(s, WriteUncorrelated(s, r, messageType, written))
    ensures KeepsMarks(s, TakeByType(s, r, messageType, written))
  {
    hide ClosedAnswers;
  }

  lemma TakingKeepsMarks(
    s: State, id: u64, live: bool, generation: u64, messageType: u16, frame: Result<Bytes>, written: bool)
    ensures KeepsMarks(s, TakeById(s, id, live, generation, messageType, frame, written))
  {
    hide ClosedAnswers;
  }

  lemma CancellingKeepsMarks(s: State, id: u64, at: u16)
    ensures KeepsMarks(s, OnCancel(s, id, at))
  {
    hide KillFirst, RemoveFirst, FirstIsLive, Somewhere;
  }

  lemma ReceivingKeepsMarks(s: State, incoming: Result<Incoming>, follows: bool)
    ensures KeepsMarks(s, OnIncoming(s, incoming, follows))
  {
    hide FailAll, WriteUncorrelated;
    FailingKeepsMarks(s, Disconnected);
    if incoming.Ok? && incoming.value.Record? && incoming.value.correlationId == 0
       && QueueAt(s.pending, incoming.value.messageType) != [] {
      var messageType := incoming.value.messageType;
      var served, waiting := Serve(s, messageType, incoming.value.payload), QueueAt(s.queued, messageType);
      if waiting != [] {
        WritingKeepsMarks(served.(queued := s.queued[messageType := waiting[1..]]), waiting[0], messageType, follows);
      }
    }
  }

  lemma ApplyDrops(s: State, input: Input, id: u64)
    ensures NeverFewerDropped(s, Apply(s, input), input, id)
  {
    hide FailAll, OnCancel, OnIncoming, TakeById, TakeByType, TakeIn, Answer;
    match input
    case ById(i, generation, messageType, frame, written) =>
      TakingKeepsMarks(TakeIn(s, i), i, i !in s.canceled, generation, messageType, frame, written);
      TakingDrops(s, i, id, Apply(s, input), input);
    case ByType(request, messageType, written) =>
      WritingKeepsMarks(TakeIn(s, request.id), request, messageType, written);
      TakingDrops(s, request.id, id, Apply(s, input), input);
    case CancelId(i, at) => CancellingKeepsMarks(s, i, at);
    case Received(incoming, follows) => ReceivingKeepsMarks(s, incoming, follows);
    case Finish(phase) => FailingKeepsMarks(s, phase);
    case Stale(i) => AnsweringKeepsMarks(s, i, Failure(ConnectionClosed));
    case OneWay(i, generation, messageType, frame, written) => SendingKeepsMarks(s, i, generation, messageType, frame, written);
    case Nothing =>
  }

  lemma AnsweringKeepsMarks(s: State, i: u64, o: Outcome)
    ensures KeepsMarks(s, Answer(s, i, true, o))
  {
  }

  lemma SendingKeepsMarks(s: State, i: u64, generation: u64, messageType: u16, frame: Result<Bytes>, written: bool)
    ensures KeepsMarks(s, SendFrame(s, i, generation, messageType, frame, written))
  {
  }

  lemma TakingDrops(s: State, i: u64, id: u64, s': State, input: Input)
    requires (input.ById? && input.id == i) || (input.ByType? && input.request.id == i)
    requires KeepsMarks(TakeIn(s, i), s')
    ensures NeverFewerDropped(s, s', input, id)
  {
  }

  lemma InterpretMarked(s: State, e: Event, id: u64)
    ensures var input := Interpret(s, e);
            (input.ById? || input.ByType?) && TakesIn(input, id) > 0 <==> e.Request? && e.generation == s.generation && e.id == id
  {
    hide EncodeOutbound, EncodeFrame, DecodeIncoming;
  }

  lemma StepSilence(s: State, e: Event, id: u64)
    requires s.phase == Open && Live(s, id) == 0 && (Takes(e, id) == 0 || Marked(s, e, id))
    ensures Live(Step(s, e), id) == 0 && Step(s, e).answers[id] == s.answers[id]
    ensures id in s.canceled && Takes(e, id) == 0 ==> id in Step(s, e).canceled
    ensures Step(s, e).generation == s.generation
  {
    hide Interpret, Apply, Live;
    StepTotal(s, e, id);
    StepLaw(s, e, id);
    InterpretTakes(s, e, id);
    InterpretMarked(s, e, id);
    ApplyDrops(s, Interpret(s, e), id);
    assert s.answers[id] <= Step(s, e).answers[id];
  }

  lemma {:induction false} RequestedAreTaken(es: seq<Event>, generation: u64, id: u64)
    ensures Requested(es, generation, id) <= Taken(es, id)
  {
    if es != [] {
      RequestedAreTaken(es[..|es| - 1], generation, id);
    }
  }

  /** Nothing answers an id without senders, while at most one request comes with it and finds the mark. */
  lemma {:induction false} Silence(s: State, es: seq<Event>, id: u64)
    requires IsRun(s, es) && Live(s, id) == 0
    requires Taken(es, id) <= Requested(es, s.generation, id) <= One(id in s.canceled)
    ensures var s' := Run(s, es);
            && Live(s', id) == 0 && s'.answers[id] == s.answers[id] && s'.generation == s.generation
            && (id in s.canceled && Taken(es, id) == 0 ==> id in s'.canceled)
  {
    hide Step, Live;
    if es != [] {
      var before, e := es[..|es| - 1], es[|es| - 1];
      RequestedAreTaken(before, s.generation, id);
      Silence(s, before, id);
      StepSilence(Run(s, before), e, id);
    }
  }

  lemma CancelSilences(s: State, id: u64, at: u16)
    requires Negotiated(s, s.limits)
    ensures var s' := Step(s, Cancel(id, at));
            && Live(s', id) == 0 && s'.answers == s.answers && s'.generation == s.generation
            && (id !in s.correlated ==> id in s'.canceled)
  {
    hide Step;
    CancelEffect(s, id, at);
  }

  /**
   A cancellation is the last word on a request of a negotiated session: whatever comes afterwards, it
   gets no answer, neither when its slot was there already nor when the request is still to come.
   */
  lemma CancelledStaysSilent(s: State, id: u64, at: u16, es: seq<Event>)
    requires s.phase == Open && Correlating(s.limits) && Negotiated(s, s.limits)
    requires IsRun(Step(s, Cancel(id, at)), es)
    requires Taken(es, id) <= Requested(es, s.generation, id) <= One(id !in s.correlated)
    ensures Run(Step(s, Cancel(id, at)), es).answers[id] == s.answers[id]
  {
    hide Step, Live;
    CancelSilences(s, id, at);
    Silence(Step(s, Cancel(id, at)), es, id);
  }

  // ---------------------------------------------------------------- when a session ends

  /** The event puts a frame on the wire for a request, or would have to. */
  ghost predicate Puts(s: State, e: Event) {
    && e.Request? && e.generation == s.generation
    && if s.limits.hello.Some? then |s.correlated| < s.limits.maxInFlight && Sendable(s.limits, e.flags, e.payload)
       else QueueAt(s.pending, e.messageType) == []
  }

  ghost predicate PutFails(s: State, e: Event) {
    Puts(s, e) && (!e.written || (s.limits.hello.None? && 15 + |e.payload| > MAX_MESSAGE_SIZE))
  }

  /** An unreadable frame, a reply that no slot waits for, or one after which the next request could not be written. */
  ghost predicate FrameFails(s: State, e: Event) {
    e.Frame? && (
      || Unreadable(s.limits, e.bytes)
      || (exists messageType, core, id, final ::
            Comes(s, e.bytes, messageType, core, id, final) && id != 0 && id !in s.correlated)
      || (exists messageType, core, final ::
            && Comes(s, e.bytes, messageType, core, 0, final)
            && QueueAt(s.pending, messageType) != [] && QueueAt(s.queued, messageType) != []
            && (!e.written || 15 + |QueueAt(s.queued, messageType)[0].payload.payload| > MAX_MESSAGE_SIZE)))
  }

  lemma RecordEnds(s: State, bytes: Bytes, written: bool, messageType: u16, core: Bytes, id: u64, final: bool)
    requires s.phase == Open && Comes(s, bytes, messageType, core, id, final)
    ensures var s' := Step(s, Frame(bytes, written));
            && s'.phase != Ended
            && (s'.phase == Disconnected <==>
                  if id != 0 then id !in s.correlated
                  else
                    && QueueAt(s.pending, messageType) != [] && QueueAt(s.queued, messageType) != []
                    && (!written || 15 + |QueueAt(s.queued, messageType)[0].payload.payload| > MAX_MESSAGE_SIZE))
  {
    hide Step, Comes, QueueAt, Plain, ToldClosed;
    if id != 0 {
      ReplyEffect(s, bytes, written, messageType, core, id, final);
    } else if QueueAt(s.pending, messageType) == [] {
      NoticeEffect(s, bytes, written, messageType, core, final);
    } else {
      TurnEffect(s, bytes, written, messageType, core, final);
    }
  }

  lemma FrameEnds(s: State, bytes: Bytes, written: bool)
    requires s.phase == Open
    ensures var s' := Step(s, Frame(bytes, written));
            s'.phase != Ended && (s'.phase == Disconnected <==> FrameFails(s, Frame(bytes, written)))
  {
    hide Step, Comes, Unreadable, QueueAt, IsHello, IsGoaway, DecodeIncoming, ToldClosed;
    OnlyOne(s, bytes);
    UnreadableFails(s.limits, bytes);
    match DecodeIncoming(s.limits, bytes)
    case Err(_) => UnreadableEffect(s, bytes, written);
    case Ok(Control(renewed)) =>
      ControlLanguage(s.limits, bytes, renewed);
      ControlEffect(s, bytes, written, renewed);
    case Ok(Record(messageType, core, id, final)) =>
      RecordEnds(s, bytes, written, messageType, core, id, final);
  }

  /** A frame is a record in one way at most. */
  lemma OnlyOne(s: State, bytes: Bytes)
    ensures forall messageType, core, id, final ::
              Comes(s, bytes, messageType, core, id, final) <==>
                DecodeIncoming(s.limits, bytes) == Ok(Record(messageType, core, id, final))
  {
    hide DecodeIncoming, IsRecord;
    forall messageType, core, id, final
      ensures Comes(s, bytes, messageType, core, id, final) <==>
                DecodeIncoming(s.limits, bytes) == Ok(Record(messageType, core, id, final))
    {
      RecordLanguage(s.limits, bytes, messageType, core, id, final);
    }
  }

  lemma RequestEnds(s: State, e: Event)
    requires s.phase == Open && e.Request?
    ensures Step(s, e).phase != Ended && (Step(s, e).phase == Disconnected <==> PutFails(s, e))
  {
    hide Step, Framed, ToldClosed, Sendable, Unsendable, Plain, QueueAt;
    if e.generation != s.generation {
      StaleEffect(s, e);
    } else if s.limits.hello.Some? {
      RequestEffect(s, e);
      Either(s.limits, e.flags, e.payload);
    } else {
      RequestByTypeEffect(s, e);
    }
  }

  /** What cannot be sent has its one reason. */
  lemma Either(limits: Limits, flags: byte, payload: Bytes)
    ensures Sendable(limits, flags, payload) <==> forall e :: !Unsendable(limits, flags, payload, e)
  {
    if !Sendable(limits, flags, payload) {
      assert Unsendable(limits, flags, payload, Protocol) || Unsendable(limits, flags, payload, FrameTooLarge(15 + |payload|));
    }
  }

  lemma SendContinues(s: State, e: Event)
    requires s.phase == Open && e.Send?
    ensures Step(s, e).phase == Open
  {
    hide EncodeOutbound, EncodeFrame, SendCorrelationId;
  }

  lemma CancelContinues(s: State, id: u64, at: u16)
    requires s.phase == Open && CancelFinds(s, id, at)
    ensures Step(s, Cancel(id, at)).phase == Open
  {
    hide Step, CancelFinds, Somewhere, FirstWith;
    CancelEffect(s, id, at);
  }

  /** A session ends when it is closed, and is lost by a failed read, a failed write or a frame it cannot place; never else. */
  lemma EndsWhen(s: State, e: Event)
    requires Multiplexer.Enabled(s, e)
    ensures Step(s, e).phase == Ended <==> e.Close? || e.ChannelEnd?
    ensures Step(s, e).phase == Disconnected <==> e.ReadError? || PutFails(s, e) || FrameFails(s, e)
  {
    hide Step, PutFails, FrameFails, CancelFinds;
    EndEffect(s);
    match e
    case Request(_, _, _, _, _, _) => RequestEnds(s, e); NoFrame(s, e);
    case Send(_, _, _, _, _) => SendContinues(s, e); NoFrame(s, e);
    case Cancel(id, at) => CancelContinues(s, id, at); NoFrame(s, e);
    case Frame(bytes, written) => FrameEnds(s, bytes, written); NoRequest(s, e);
    case _ => NoFrame(s, e); NoRequest(s, e);
  }

  lemma NoFrame(s: State, e: Event)
    requires !e.Frame?
    ensures !FrameFails(s, e)
    ensures !e.Request? ==> !PutFails(s, e)
  {
  }

  lemma NoRequest(s: State, e: Event)
    requires !e.Request?
    ensures !PutFails(s, e)
  {
  }
}
