/**
 The supervisor (src/async_connection.rs, `connect_and_run`): sessions one after the other, each with
 the generation it found and the limits its HELLO left.
 */
module Supervisor {
  import opened ByteStrings
  import opened Errors
  import opened Wire3
  import opened Frames
  import opened Multiplexer
  import opened SessionLaws

  /** `settle_authentication` and `process_auth_frame`: what the first frame of a session settles. */
  function Authenticated(limits: Limits, frame: Bytes): Result<Limits> {
    var header :- DecodeFrameHeader(frame);
    var (payload, mask) :- DecodePayload(frame[HEADER_LEN..], header.messageType, header.flags);
    if (header.flags != 0 && header.flags != EXTENSIONS_PRESENT) || header.correlationId != 0 then Err(Protocol)
    else if header.messageType == HELLO then ApplyServerHello(limits, payload, mask)
    else if header.messageType == CONNECT_REJECTED then Err(Authentication)
    else Err(Protocol)
  }

  datatype Run = Run(
    generation: nat,
    limits: Limits,
    current: Option<State>,
    closed: bool,
    past: seq<State>)

  datatype Happening =
    | Connect(frame: Bytes)
    | InSession(event: Event)
    | CloseRequested

  ghost predicate Enabled(r: Run, h: Happening) {
    match h
    case Connect(_) => r.current.None? && !r.closed
    case InSession(e) => r.current.Some? && Multiplexer.Enabled(r.current.value, e) && r.generation + 1 < U64_LIMIT
    case CloseRequested => r.generation + 1 < U64_LIMIT
  }

  ghost function Step(r: Run, h: Happening): Run
    requires Enabled(r, h) && r.generation < U64_LIMIT
  {
    match h
    case Connect(frame) => OnConnect(r, frame)
    case InSession(e) => AfterEvent(r, Multiplexer.Step(r.current.value, e))
    case CloseRequested => r.(generation := r.generation + 1)
  }

  /** `open_session` forgets the capabilities of the last session first. */
  ghost function OnConnect(r: Run, frame: Bytes): Run
    requires r.generation < U64_LIMIT
  {
    var forgotten := r.limits.(hello := None);
    match Authenticated(forgotten, frame)
    case Err(_) => r.(limits := forgotten)
    case Ok(limits) => r.(limits := limits, current := Some(Start(r.generation, limits)))
  }

  /** A session that is lost advances the generation; one that was closed is the last. */
  ghost function AfterEvent(r: Run, s: State): Run {
    match s.phase
    case Open => r.(limits := s.limits, current := Some(s))
    case Disconnected =>
      r.(limits := s.limits, current := None, past := r.past + [s], generation := r.generation + 1)
    case Ended => r.(limits := s.limits, current := None, past := r.past + [s], closed := true)
  }

  /** `AsyncConnection::spawn` */
  ghost function Spawned(maxQueued: nat): Run {
    Run(0, Limits(None, MAX_MESSAGE_SIZE, if maxQueued < 1 then 1 else maxQueued), None, false, [])
  }

  ghost function After(maxQueued: nat, hs: seq<Happening>): (r: Run)
    ensures r.generation < U64_LIMIT
  {
    if hs == [] then Spawned(maxQueued)
    else
      var before, h := After(maxQueued, hs[..|hs| - 1]), hs[|hs| - 1];
      if Enabled(before, h) then Step(before, h) else before
  }

  // ---------------------------------------------------------------- limits

  predicate Sane(limits: Limits) {
    HEADER_LEN <= limits.maxMessageBytes <= MAX_MESSAGE_SIZE && 1 <= limits.maxInFlight
  }

  lemma HelloKeepsSane(limits: Limits, payload: Bytes, mask: Mask)
    requires Sane(limits)
    ensures var renewed := ApplyServerHello(limits, payload, mask);
            renewed.Ok? ==> (Sane(renewed.value) && renewed.value.hello.Some?
                             && renewed.value.maxInFlight <= limits.maxInFlight)
  {
  }

  lemma AuthenticatedSane(limits: Limits, frame: Bytes)
    requires Sane(limits)
    ensures Authenticated(limits, frame).Ok? ==> (
              var renewed := Authenticated(limits, frame).value;
              Sane(renewed) && renewed.hello.Some? && renewed.maxInFlight <= limits.maxInFlight)
  {
    hide DecodePayload, ApplyServerHello;
    if Authenticated(limits, frame).Ok? {
      var header := DecodeFrameHeader(frame).value;
      var (payload, mask) := DecodePayload(frame[HEADER_LEN..], header.messageType, header.flags).value;
      HelloKeepsSane(limits, payload, mask);
    }
  }

  // ---------------------------------------------------------------- stamps

  ghost predicate Stamped(writes: seq<Write>, generation: u64) {
    forall k :: 0 <= k < |writes| ==> writes[k].generation == generation
  }

  ghost predicate AllStamped(q: seq<Waiting>, generation: u64) {
    forall r :: r in q ==> r.payload.generation == generation
  }

  ghost predicate QueuesStamped(queued: Table<Parked>, generation: u64) {
    forall t: u16 :: AllStamped(QueueAt(queued, t), generation)
  }

  /** What the session has written, and what waits in it to be written, carries its generation. */
  ghost predicate Own(s: State) {
    Stamped(s.writes, s.generation) && QueuesStamped(s.queued, s.generation)
  }

  ghost predicate Fenced(s: State, s': State) {
    s'.generation == s.generation && (Own(s) ==> Own(s'))
  }

  lemma QueueStays(queued: Table<Parked>, generation: u64, t: u16, q: seq<Waiting>)
    requires QueuesStamped(queued, generation) && AllStamped(q, generation)
    ensures QueuesStamped(queued[t := q], generation)
  {
    hide AllStamped;
    var more := queued[t := q];
    forall u: u16 ensures AllStamped(QueueAt(more, u), generation) {
      assert u != t ==> QueueAt(more, u) == QueueAt(queued, u);
    }
  }

  lemma QueueBelongs(queued: Table<Parked>, generation: u64, t: u16)
    requires QueuesStamped(queued, generation)
    ensures AllStamped(QueueAt(queued, t), generation)
  {
  }

  lemma FailAllFenced(s: State, phase: Phase)
    ensures Fenced(s, FailAll(s, phase))
  {
    hide ClosedAnswers;
  }

  lemma WriteFenced(s: State, r: Waiting, messageType: u16, written: bool)
    requires r.payload.generation == s.generation
    ensures Fenced(s, WriteUncorrelated(s, r, messageType, written))
  {
    hide FailAll;
    var sent := s.(
      pending := s.pending[messageType := QueueAt(s.pending, messageType) + [Entry(r.id, r.live, ())]],
      writes := s.writes + [Written(r, messageType)]);
    FailAllFenced(sent, Disconnected);
  }

  lemma TakeByTypeFenced(s: State, r: Waiting, messageType: u16, written: bool)
    requires r.payload.generation == s.generation
    ensures Fenced(s, TakeByType(s, r, messageType, written))
  {
    hide WriteUncorrelated, QueuesStamped;
    WriteFenced(s, r, messageType, written);
    if Own(s) {
      QueueBelongs(s.queued, s.generation, messageType);
      QueueStays(s.queued, s.generation, messageType, QueueAt(s.queued, messageType) + [r]);
    }
  }

  lemma TakeByIdFenced(
    s: State, id: u64, live: bool, generation: u64, messageType: u16, frame: Result<Bytes>, written: bool)
    requires generation == s.generation
    ensures Fenced(s, TakeById(s, id, live, generation, messageType, frame, written))
  {
    hide FailAll;
    FailAllFenced(s.(correlated := s.correlated[id := live],
                     writes := s.writes + [Write(id, generation, messageType, OwnId, frame)]), Disconnected);
  }

  /** The generation that a request or one-way message was stamped with. */
  function Stamp(input: Input): u64
    requires input.ById? || input.ByType? || input.OneWay?
  {
    if input.ByType? then input.request.payload.generation else input.generation
  }

  lemma TakeFenced(s: State, input: Input)
    requires input.ById? || input.ByType? || input.OneWay?
    requires Stamp(input) == s.generation
    ensures Fenced(s, Apply(s, input))
  {
    hide FailAll, TakeById, TakeByType;
    match input
    case ById(id, generation, messageType, frame, written) =>
      TakeByIdFenced(TakeIn(s, id), id, id !in s.canceled, generation, messageType, frame, written);
    case ByType(request, messageType, written) =>
      TakeByTypeFenced(TakeIn(s, request.id), request, messageType, written);
    case OneWay(_, _, _, _, _) =>
  }

  lemma ReceivedFenced(s: State, incoming: Result<Incoming>, follows: bool)
    ensures Fenced(s, OnIncoming(s, incoming, follows))
  {
    hide FailAll, OnUncorrelated;
    FailAllFenced(s, Disconnected);
    if incoming.Ok? && incoming.value.Record? {
      DispatchFenced(s, incoming.value.messageType, incoming.value.payload, follows);
    }
  }

  lemma DispatchFenced(s: State, messageType: u16, payload: Bytes, follows: bool)
    ensures Fenced(s, OnUncorrelated(s, messageType, payload, follows))
  {
    hide FollowUp;
    if QueueAt(s.pending, messageType) != [] {
      FollowUpFenced(Serve(s, messageType, payload), messageType, follows);
    }
  }

  lemma FollowUpFenced(s: State, messageType: u16, follows: bool)
    ensures Fenced(s, FollowUp(s, messageType, follows))
  {
    hide WriteUncorrelated, QueuesStamped;
    var waiting := QueueAt(s.queued, messageType);
    if waiting != [] {
      var less := s.(queued := s.queued[messageType := waiting[1..]]);
      WriteGeneration(less, waiting[0], messageType, follows);
      if Own(s) {
        QueueBelongs(s.queued, s.generation, messageType);
        assert waiting[0] in waiting;
        QueueStays(s.queued, s.generation, messageType, waiting[1..]);
        WriteFenced(less, waiting[0], messageType, follows);
      }
    }
  }

  lemma WriteGeneration(s: State, r: Waiting, messageType: u16, written: bool)
    ensures WriteUncorrelated(s, r, messageType, written).generation == s.generation
  {
    hide ClosedAnswers;
  }

  lemma {:induction false} RemovedWas<P>(q: seq<Entry<P>>, id: u64)
    ensures forall r :: r in RemoveFirst(q, id) ==> r in q
  {
    if q != [] {
      RemovedWas(q[1..], id);
    }
  }

  lemma CancelFenced(s: State, id: u64, at: u16)
    ensures Fenced(s, OnCancel(s, id, at))
  {
    hide Somewhere, KillFirst, RemoveFirst, FirstIsLive, QueuesStamped;
    RemovedWas(QueueAt(s.queued, at), id);
    if Own(s) {
      QueueBelongs(s.queued, s.generation, at);
      QueueStays(s.queued, s.generation, at, RemoveFirst(QueueAt(s.queued, at), id));
    }
  }

  lemma ApplyFenced(s: State, input: Input)
    requires input.ById? || input.ByType? || input.OneWay? ==> Stamp(input) == s.generation
    ensures Fenced(s, Apply(s, input))
  {
    hide FailAll, OnCancel, OnIncoming, Fenced, TakeById, TakeByType, SendFrame;
    match input
    case CancelId(id, at) => CancelFenced(s, id, at);
    case Received(incoming, follows) => ReceivedFenced(s, incoming, follows);
    case Finish(phase) => FailAllFenced(s, phase);
    case Stale(id) => AnswerFenced(s, id);
    case Nothing => NothingFenced(s);
    case _ => TakeFenced(s, input);
  }

  lemma AnswerFenced(s: State, id: u64)
    ensures Fenced(s, Answer(s, id, true, Failure(ConnectionClosed)))
  {
  }

  lemma NothingFenced(s: State)
    ensures Fenced(s, s)
  {
  }

  lemma StepFenced(s: State, e: Event)
    ensures Fenced(s, Multiplexer.Step(s, e))
  {
    hide Apply, Fenced, DecodeIncoming, EncodeOutbound, EncodeFrame;
    ApplyFenced(s, Interpret(s, e));
  }

  // ---------------------------------------------------------------- the whole run

  ghost predicate SessionHolds(r: Run, s: State) {
    && s.generation <= r.generation && Own(s) && Bounded(s)
    && r.limits == s.limits && Negotiated(s, s.limits) && Correlating(s.limits)
  }

  ghost predicate PastHolds(past: seq<State>, below: nat) {
    && (forall i, j :: 0 <= i < j < |past| ==> past[i].generation < past[j].generation)
    && (forall i :: 0 <= i < |past| ==> past[i].generation < below && Stamped(past[i].writes, past[i].generation))
  }

  ghost predicate Inv(r: Run) {
    && Sane(r.limits)
    && (r.current.Some? ==> SessionHolds(r, r.current.value) && PastHolds(r.past, r.current.value.generation))
    && (r.current.None? && !r.closed ==> PastHolds(r.past, r.generation))
    && (r.closed ==> r.current.None? && PastHolds(r.past, r.generation + 1))
  }

  lemma NegotiatedStep(s: State, e: Event)
    requires Multiplexer.Enabled(s, e) && Negotiated(s, s.limits) && Correlating(s.limits) && Bounded(s)
    ensures var s' := Multiplexer.Step(s, e); Negotiated(s', s.limits) && Bounded(s')
  {
    hide Multiplexer.Step, Interpret;
    InterpretNegotiated(s, e);
    StepNegotiated(s, e);
    StepBounded(s, e);
  }

  lemma ConnectKeepsInv(r: Run, frame: Bytes)
    requires Inv(r) && r.current.None? && !r.closed && r.generation < U64_LIMIT
    ensures Inv(OnConnect(r, frame)) && OnConnect(r, frame).limits.maxInFlight <= r.limits.maxInFlight
  {
    hide Authenticated, PastHolds;
    AuthenticatedSane(r.limits.(hello := None), frame);
  }

  lemma EventKeepsInv(r: Run, e: Event)
    requires Inv(r) && r.current.Some? && Multiplexer.Enabled(r.current.value, e)
    ensures var r' := AfterEvent(r, Multiplexer.Step(r.current.value, e)); Inv(r') && r'.limits == r.limits
  {
    hide Multiplexer.Step, Multiplexer.Enabled;
    var s := r.current.value;
    NegotiatedStep(s, e);
    StepFenced(s, e);
  }

  lemma StepKeepsInv(r: Run, h: Happening)
    requires Inv(r) && Enabled(r, h) && r.generation < U64_LIMIT
    ensures Inv(Step(r, h)) && Step(r, h).limits.maxInFlight <= r.limits.maxInFlight
  {
    hide OnConnect, AfterEvent, Multiplexer.Step;
    match h
    case Connect(frame) => ConnectKeepsInv(r, frame);
    case InSession(e) => EventKeepsInv(r, e);
    case CloseRequested =>
  }

  lemma {:induction false} RunKeepsInv(maxQueued: nat, hs: seq<Happening>)
    ensures Inv(After(maxQueued, hs))
  {
    hide Step, Enabled;
    if hs != [] {
      var before, h := After(maxQueued, hs[..|hs| - 1]), hs[|hs| - 1];
      RunKeepsInv(maxQueued, hs[..|hs| - 1]);
      if Enabled(before, h) {
        StepKeepsInv(before, h);
      }
    }
  }

  /** Over every run of one session, with or without correlation, every frame carries the session's generation. */
  lemma {:induction false} OwnFramesOnly(generation: u64, limits: Limits, es: seq<Event>)
    ensures var s := Multiplexer.Run(Start(generation, limits), es); s.generation == generation && Own(s)
  {
    hide Multiplexer.Step, Own;
    if es == [] {
      assert Own(Start(generation, limits)) by { NothingWritten(generation, limits); }
    } else {
      OwnFramesOnly(generation, limits, es[..|es| - 1]);
      StepFenced(Multiplexer.Run(Start(generation, limits), es[..|es| - 1]), es[|es| - 1]);
    }
  }

  lemma NothingWritten(generation: u64, limits: Limits)
    ensures Own(Start(generation, limits))
  {
  }

  /**
   Sessions have strictly increasing generations, and every frame a session has written carries its
   generation, so no command is written in two of them.
   */
  lemma GenerationFence(maxQueued: nat, hs: seq<Happening>)
    ensures var r := After(maxQueued, hs);
            var sessions := r.past + if r.current.Some? then [r.current.value] else [];
            && (forall i, j :: 0 <= i < j < |sessions| ==> sessions[i].generation < sessions[j].generation)
            && (forall i :: 0 <= i < |sessions| ==> Stamped(sessions[i].writes, sessions[i].generation))
  {
    hide After;
    RunKeepsInv(maxQueued, hs);
  }

  /**
   Over every run and every reconnect the message limit stays between a frame header and the largest
   message, the in-flight limit stays at least 1 and never grows, and no session holds more slots.
   */
  lemma {:induction false} LimitsHold(maxQueued: nat, hs: seq<Happening>, k: nat)
    requires k <= |hs|
    ensures var r := After(maxQueued, hs);
            && HEADER_LEN <= r.limits.maxMessageBytes <= MAX_MESSAGE_SIZE
            && 1 <= r.limits.maxInFlight <= After(maxQueued, hs[..k]).limits.maxInFlight
            && (r.current.Some? ==> |r.current.value.correlated| <= r.limits.maxInFlight)
  {
    hide Step, Enabled;
    RunKeepsInv(maxQueued, hs);
    if k == |hs| {
      assert hs[..k] == hs;
    } else {
      var front, h := hs[..|hs| - 1], hs[|hs| - 1];
      assert front[..k] == hs[..k];
      LimitsHold(maxQueued, front, k);
      RunKeepsInv(maxQueued, front);
      if Enabled(After(maxQueued, front), h) {
        StepKeepsInv(After(maxQueued, front), h);
      }
    }
  }
}
