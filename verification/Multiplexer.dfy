/**
 The session loop (src/async_connection.rs, `run_io` and its WebSocket twin): what one event does to
 the tables of outstanding requests.

 A request's response sender is `live` until it is answered or dropped. Which queue a hash-map
 iteration meets first is a parameter of the cancellation event, and whether a write to the socket
 succeeds is a parameter of the event that writes.
 */
module Multiplexer {
  import opened ByteStrings
  import opened Errors
  import opened Codec
  import opened Wire3
  import opened Frames

  const CONNECT_REJECTED: u16 := 3
  const GOAWAY: u16 := 4

  /** What a waiting request still has to be written with, and the generation it was stamped with. */
  datatype Parked = Parked(generation: u64, payload: Bytes)

  /** A slot of a per-type queue; a waiting request also carries what is still to be written. */
  datatype Entry<P> = Entry(id: u64, live: bool, payload: P)
  type Waiting = Entry<Parked>
  type Table<P> = map<u16, seq<Entry<P>>>

  /** What arrives on a request's response channel. */
  datatype Outcome = Success(payload: Bytes) | Sent | Failure(error: Error)

  type Answers = a: imap<u64, seq<Outcome>> | forall i: u64 :: i in a
    ghost witness imap i: u64 {:trigger} :: []

  /** `hello` holds the negotiated capabilities once HELLO has been applied in this session. */
  datatype Limits = Limits(hello: Option<Mask>, maxMessageBytes: nat, maxInFlight: nat)

  datatype Phase = Open | Disconnected | Ended

  /** How a frame was sent: by its id, as the next of its type, or expecting no answer. */
  datatype Turn = OwnId | NextOfType | Unanswered
  /** `frame` is what was handed to the socket, or why there was nothing to hand to it. */
  datatype Write = Write(id: u64, generation: u64, messageType: u16, turn: Turn, frame: Result<Bytes>)
  datatype Served = Served(messageType: u16, id: u64, payload: Bytes, live: bool)
  datatype Notice = Notice(messageType: u16, payload: Bytes)

  datatype State = State(
    generation: u64,
    limits: Limits,
    correlated: map<u64, bool>,
    pending: Table<()>,
    queued: Table<Parked>,
    canceled: set<u64>,
    phase: Phase,
    // history
    answers: Answers,
    dropped: multiset<u64>,
    writes: seq<Write>,
    served: seq<Served>,
    published: seq<Notice>)

  datatype Event =
    | Request(id: u64, generation: u64, messageType: u16, flags: byte, payload: Bytes, written: bool)
    | Send(id: u64, generation: u64, messageType: u16, payload: Bytes, written: bool)
    | Connect
    | Close
    | ChannelEnd
    | Cancel(id: u64, at: u16)
    | Frame(bytes: Bytes, written: bool)
    | ReadError

  // ---------------------------------------------------------------- queues

  function QueueAt<P>(m: Table<P>, t: u16): seq<Entry<P>> {
    if t in m then m[t] else []
  }

  predicate HasId<P>(q: seq<Entry<P>>, id: u64) {
    exists k :: 0 <= k < |q| && q[k].id == id
  }

  ghost predicate Somewhere<P>(m: Table<P>, id: u64) {
    exists t :: t in m && HasId(m[t], id)
  }

  /** The first slot with this id loses its response but keeps its place. */
  function KillFirst<P>(q: seq<Entry<P>>, id: u64): seq<Entry<P>> {
    if q == [] then []
    else if q[0].id == id then [q[0].(live := false)] + q[1..]
    else [q[0]] + KillFirst(q[1..], id)
  }

  function RemoveFirst<P>(q: seq<Entry<P>>, id: u64): seq<Entry<P>> {
    if q == [] then []
    else if q[0].id == id then q[1..]
    else [q[0]] + RemoveFirst(q[1..], id)
  }

  predicate FirstIsLive<P>(q: seq<Entry<P>>, id: u64) {
    q != [] && (if q[0].id == id then q[0].live else FirstIsLive(q[1..], id))
  }

  function LiveIn<P>(q: seq<Entry<P>>, id: u64): nat {
    if q == [] then 0 else (if q[0].id == id && q[0].live then 1 else 0) + LiveIn(q[1..], id)
  }

  ghost function LiveInKeys<P>(m: Table<P>, keys: set<u16>, id: u64): nat {
    if keys == {} then 0
    else
      var t :| t in keys;
      LiveIn(QueueAt(m, t), id) + LiveInKeys(m, keys - {t}, id)
  }

  /** Response senders that a table still holds for a request. */
  ghost function LiveInTable<P>(m: Table<P>, id: u64): nat {
    LiveInKeys(m, m.Keys, id)
  }

  /** All response senders held for a request; in `correlated` a slot is stored under its own id. */
  ghost function LiveOf(correlated: map<u64, bool>, pending: Table<()>, queued: Table<Parked>, id: u64): nat {
    (if id in correlated && correlated[id] then 1 else 0) + LiveInTable(pending, id) + LiveInTable(queued, id)
  }

  ghost function Live(s: State, id: u64): nat {
    LiveOf(s.correlated, s.pending, s.queued, id)
  }

  // ---------------------------------------------------------------- frames in and out

  predicate Correlating(limits: Limits) {
    limits.hello.Some?
  }

  function EncodeOutbound(limits: Limits, messageType: u16, flags: byte, correlationId: u64, payload: Bytes): Result<Bytes> {
    var frame :- EncodeFrame(messageType, flags, correlationId, payload);
    if |frame| > limits.maxMessageBytes then Err(FrameTooLarge(|frame|)) else Ok(frame)
  }

  function SendCorrelationId(messageType: u16, payload: Bytes, id: u64): u64 {
    if !(300 <= messageType <= 305) || messageType == 303 || messageType == 305
       || (messageType == 304 && (payload == [] || payload[0] != 1)) then 0
    else id
  }

  function ApplyServerHello(limits: Limits, payload: Bytes, mask: Mask): Result<Limits> {
    if limits.hello.Some? then Err(Protocol)
    else
      var (version, s0) :- TakeU16(payload);
      var (bits, s1) :- TakeU32(s0);
      var (maxMessageBytes, s2) :- TakeU32(s1);
      var (maxInFlight, s3) :- TakeU32(s2);
      var (_, rest) :- TakeU64(s3);
      if version != 3 || bits != 0 || rest != [] || maxMessageBytes < HEADER_LEN || maxInFlight == 0 then Err(Protocol)
      else
        Ok(Limits(
             Some(mask),
             if maxMessageBytes < MAX_MESSAGE_SIZE then maxMessageBytes else MAX_MESSAGE_SIZE,
             if maxInFlight < limits.maxInFlight then maxInFlight else limits.maxInFlight))
  }

  datatype Incoming =
    | Control(limits: Limits)
    | Record(messageType: u16, payload: Bytes, correlationId: u64, final: bool)

  function DecodeGoaway(payload: Bytes): Result<()> {
    var (_, s0) :- TakeU16(payload);
    var (_, s1) :- TakeU32(s0);
    var (_, rest) :- TakeString(s1);
    if rest == [] then Ok(()) else Err(Protocol)
  }

  function DecodeIncoming(limits: Limits, frame: Bytes): Result<Incoming> {
    if |frame| > limits.maxMessageBytes then Err(FrameTooLarge(|frame|))
    else
      var header :- DecodeFrameHeader(frame);
      var (payload, mask) :- DecodePayload(frame[HEADER_LEN..], header.messageType, header.flags);
      if header.messageType == HELLO then
        if header.flags != EXTENSIONS_PRESENT || header.correlationId != 0 then Err(Protocol)
        else
          var renewed :- ApplyServerHello(limits, payload, mask);
          Ok(Control(renewed))
      else if header.messageType == GOAWAY then
        if (header.flags != 0 && header.flags != EXTENSIONS_PRESENT) || header.correlationId != 0 then Err(Protocol)
        else
          var _ :- DecodeGoaway(payload);
          Ok(Control(limits))
      else if header.messageType == CONNECT_REJECTED then Err(Authentication)
      else Ok(Record(header.messageType, payload, header.correlationId, IsFinal(header.flags)))
  }

  // ---------------------------------------------------------------- one event

  function Repeat(n: nat, o: Outcome): (r: seq<Outcome>)
    ensures |r| == n && forall k :: 0 <= k < n ==> r[k] == o
  {
    if n == 0 then [] else Repeat(n - 1, o) + [o]
  }

  ghost function Answer(s: State, id: u64, live: bool, o: Outcome): State {
    if live then s.(answers := s.answers[id := s.answers[id] + [o]]) else s
  }

  /** Every response sender still held reports a closed connection. */
  ghost function ClosedAnswers(s: State): Answers {
    imap i: u64 :: s.answers[i] + Repeat(Live(s, i), Failure(ConnectionClosed))
  }

  /** `fail_all` */
  ghost function FailAll(s: State, phase: Phase): State {
    s.(answers := ClosedAnswers(s), correlated := map[], pending := map[], queued := map[], phase := phase)
  }

  /** A request whose cancellation came first is taken without its response. */
  ghost function TakeIn(s: State, id: u64): State {
    s.(canceled := s.canceled - {id},
       dropped := if id in s.canceled then s.dropped + multiset{id} else s.dropped)
  }

  ghost function TakeById(
    s: State, id: u64, live: bool, generation: u64, messageType: u16, frame: Result<Bytes>, written: bool): State
  {
    if |s.correlated| >= s.limits.maxInFlight then Answer(s, id, live, Failure(Backpressure))
    else
      match frame
      case Err(error) => Answer(s, id, live, Failure(error))
      case Ok(_) =>
        var sent := s.(correlated := s.correlated[id := live],
                       writes := s.writes + [Write(id, generation, messageType, OwnId, frame)]);
        if written then sent else FailAll(sent, Disconnected)
  }

  ghost function TakeByType(s: State, r: Waiting, messageType: u16, written: bool): State {
    if QueueAt(s.pending, messageType) != [] then
      s.(queued := s.queued[messageType := QueueAt(s.queued, messageType) + [r]])
    else
      WriteUncorrelated(s, r, messageType, written)
  }

  /** A frame without a correlation, for a request that waits for its type. */
  function Written(r: Waiting, messageType: u16): Write {
    Write(r.id, r.payload.generation, messageType, NextOfType, EncodeFrame(messageType, 0, 0, r.payload.payload))
  }

  /** The request takes its place in `pending` and goes on the wire; a failed write ends the session. */
  ghost function WriteUncorrelated(s: State, r: Waiting, messageType: u16, written: bool): State {
    var sent := s.(
      pending := s.pending[messageType := QueueAt(s.pending, messageType) + [Entry(r.id, r.live, ())]],
      writes := s.writes + [Written(r, messageType)]);
    if written then sent else FailAll(sent, Disconnected)
  }

  ghost function SendFrame(
    s: State, id: u64, generation: u64, messageType: u16, frame: Result<Bytes>, written: bool): State
  {
    match frame
    case Err(error) => Answer(s, id, true, Failure(error))
    case Ok(_) =>
      Answer(s.(writes := s.writes + [Write(id, generation, messageType, Unanswered, frame)]),
             id, true, if written then Sent else Failure(Transport))
  }

  ghost function Drop(s: State, id: u64, live: bool): State {
    if live then s.(dropped := s.dropped + multiset{id}) else s
  }

  ghost function OnCancel(s: State, id: u64, at: u16): State {
    if id in s.correlated then
      Drop(s, id, s.correlated[id]).(correlated := s.correlated[id := false])
    else if Somewhere(s.pending, id) then CancelPending(s, id, at)
    else if Somewhere(s.queued, id) then CancelQueued(s, id, at)
    else s.(canceled := s.canceled + {id})
  }

  ghost function CancelPending(s: State, id: u64, at: u16): State {
    var q := QueueAt(s.pending, at);
    Drop(s, id, FirstIsLive(q, id)).(pending := s.pending[at := KillFirst(q, id)])
  }

  ghost function CancelQueued(s: State, id: u64, at: u16): State {
    var q := QueueAt(s.queued, at);
    Drop(s, id, FirstIsLive(q, id)).(queued := s.queued[at := RemoveFirst(q, id)])
  }

  /** `at` is a queue that the search can stop at. */
  ghost predicate CancelFinds(s: State, id: u64, at: u16) {
    id !in s.correlated ==>
      && (Somewhere(s.pending, id) ==> at in s.pending && HasId(s.pending[at], id))
      && (!Somewhere(s.pending, id) && Somewhere(s.queued, id) ==> at in s.queued && HasId(s.queued[at], id))
  }

  ghost function OnCorrelated(s: State, correlationId: u64, payload: Bytes, final: bool): State {
    if correlationId !in s.correlated then FailAll(s, Disconnected)
    else if final then
      Answer(s, correlationId, s.correlated[correlationId], Success(payload))
      .(correlated := s.correlated - {correlationId})
    else s
  }

  ghost function OnUncorrelated(s: State, messageType: u16, payload: Bytes, follows: bool): State {
    if QueueAt(s.pending, messageType) == [] then s.(published := s.published + [Notice(messageType, payload)])
    else FollowUp(Serve(s, messageType, payload), messageType, follows)
  }

  /** The oldest request of this type gets the payload. */
  ghost function Serve(s: State, messageType: u16, payload: Bytes): State
    requires QueueAt(s.pending, messageType) != []
  {
    var q := QueueAt(s.pending, messageType);
    Answer(s, q[0].id, q[0].live, Success(payload)).(
      pending := s.pending[messageType := q[1..]],
      served := s.served + [Served(messageType, q[0].id, payload, q[0].live)])
  }

  /** The oldest request waiting for its type goes on the wire. */
  ghost function FollowUp(s: State, messageType: u16, follows: bool): State {
    var waiting := QueueAt(s.queued, messageType);
    if waiting == [] then s
    else
      WriteUncorrelated(s.(queued := s.queued[messageType := waiting[1..]]),
                        waiting[0], messageType, follows)
  }

  /** Whether the request that may follow a reply of this type gets onto the wire. */
  ghost predicate Follows(s: State, messageType: u16, written: bool) {
    var waiting := QueueAt(s.queued, messageType);
    written && (waiting != [] ==> EncodeFrame(messageType, 0, 0, waiting[0].payload.payload).Ok?)
  }

  ghost predicate FollowsIncoming(s: State, incoming: Result<Incoming>, written: bool) {
    incoming.Ok? && incoming.value.Record? && Follows(s, incoming.value.messageType, written)
  }

  ghost function OnIncoming(s: State, incoming: Result<Incoming>, follows: bool): State {
    match incoming
    case Err(_) => FailAll(s, Disconnected)
    case Ok(Control(limits)) => s.(limits := limits)
    case Ok(Record(messageType, payload, correlationId, final)) =>
      if correlationId != 0 then OnCorrelated(s, correlationId, payload, final)
      else OnUncorrelated(s, messageType, payload, follows)
  }

  /** What an event amounts to, with its bytes encoded or decoded. */
  datatype Input =
    | Stale(id: u64)
    | ById(id: u64, generation: u64, messageType: u16, frame: Result<Bytes>, written: bool)
    | ByType(request: Waiting, messageType: u16, written: bool)
    | OneWay(id: u64, generation: u64, messageType: u16, frame: Result<Bytes>, written: bool)
    | CancelId(id: u64, at: u16)
    | Received(incoming: Result<Incoming>, follows: bool)
    | Nothing
    | Finish(phase: Phase)

  ghost function Interpret(s: State, e: Event): Input {
    match e
    case Request(id, generation, messageType, flags, payload, written) =>
      if generation != s.generation then Stale(id)
      else if Correlating(s.limits) then
        ById(id, generation, messageType, EncodeOutbound(s.limits, messageType, flags, id, payload), written)
      else
        ByType(Entry(id, id !in s.canceled, Parked(generation, payload)), messageType,
               written && EncodeFrame(messageType, 0, 0, payload).Ok?)
    case Send(id, generation, messageType, payload, written) =>
      if generation != s.generation then Stale(id)
      else
        OneWay(id, generation, messageType,
               EncodeOutbound(s.limits, messageType, 0, SendCorrelationId(messageType, payload, id), payload), written)
    case Connect => Nothing
    case Close | ChannelEnd => Finish(Ended)
    case ReadError => Finish(Disconnected)
    case Cancel(id, at) => CancelId(id, at)
    case Frame(bytes, written) =>
      var incoming := DecodeIncoming(s.limits, bytes);
      Received(incoming, FollowsIncoming(s, incoming, written))
  }

  ghost function Apply(s: State, i: Input): State {
    match i
    case Stale(id) => Answer(s, id, true, Failure(ConnectionClosed))
    case ById(id, generation, messageType, frame, written) =>
      TakeById(TakeIn(s, id), id, id !in s.canceled, generation, messageType, frame, written)
    case ByType(request, messageType, written) =>
      TakeByType(TakeIn(s, request.id), request, messageType, written)
    case OneWay(id, generation, messageType, frame, written) => SendFrame(s, id, generation, messageType, frame, written)
    case CancelId(id, at) => OnCancel(s, id, at)
    case Received(incoming, follows) => OnIncoming(s, incoming, follows)
    case Nothing => s
    case Finish(phase) => FailAll(s, phase)
  }

  ghost function Step(s: State, e: Event): State {
    Apply(s, Interpret(s, e))
  }

  ghost predicate Enabled(s: State, e: Event) {
    s.phase == Open && (e.Cancel? ==> CancelFinds(s, e.id, e.at))
  }

  ghost function Start(generation: u64, limits: Limits): State {
    State(generation, limits, map[], map[], map[], {}, Open,
          imap i: u64 {:trigger} :: [], multiset{}, [], [], [])
  }

  /** The state after a session has handled these events. */
  ghost function Run(s: State, es: seq<Event>): State {
    if es == [] then s else Step(Run(s, es[..|es| - 1]), es[|es| - 1])
  }

  /** Each event came while the session was open. */
  ghost predicate IsRun(s: State, es: seq<Event>) {
    es == [] || (IsRun(s, es[..|es| - 1]) && Enabled(Run(s, es[..|es| - 1]), es[|es| - 1]))
  }
}
