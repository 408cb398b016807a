/** What holds over every run of a session: each request is answered once, and only by its own reply. */
module SessionLaws {
  import opened ByteStrings
  import opened Errors
  import opened Frames
  import opened Wire3
  import opened Multiplexer
  import opened SessionTables

  // ---------------------------------------------------------------- conservation

  function Takes(e: Event, id: u64): nat {
    if (e.Request? || e.Send?) && e.id == id then 1 else 0
  }

  /** How often a request or one-way message with this id was taken from the command queue. */
  function Taken(es: seq<Event>, id: u64): nat {
    if es == [] then 0 else Taken(es[..|es| - 1], id) + Takes(es[|es| - 1], id)
  }

  predicate CancelledIn(es: seq<Event>, id: u64) {
    exists k :: 0 <= k < |es| && es[k].Cancel? && es[k].id == id
  }

  /** Every sender taken has been used, is still held, or was dropped by a cancellation. */
  ghost function Total(s: State, id: u64): nat {
    |s.answers[id]| + Live(s, id) + s.dropped[id]
  }

  function One(b: bool): nat {
    if b then 1 else 0
  }

  lemma AnswerTotal(s: State, id: u64, live: bool, o: Outcome, i: u64)
    ensures Total(Answer(s, id, live, o), i) == Total(s, i) + One(live && id == i)
  {
  }

  lemma FailAllTotal(s: State, phase: Phase, i: u64)
    ensures Total(FailAll(s, phase), i) == Total(s, i) && Live(FailAll(s, phase), i) == 0
  {
  }

  lemma WriteTotal(s: State, r: Waiting, messageType: u16, written: bool, i: u64)
    ensures Total(WriteUncorrelated(s, r, messageType, written), i) == Total(s, i) + One(r.live && r.id == i)
  {
    var slots := QueueAt(s.pending, messageType);
    var more := slots + [Entry(r.id, r.live, ())];
    LiveUpdate(s.pending, messageType, more, i);
    LiveInAppend(slots, Entry(r.id, r.live, ()), i);
    var sent := s.(pending := s.pending[messageType := more],
                   writes := s.writes + [Written(r, messageType)]);
    assert Total(sent, i) == Total(s, i) + One(r.live && r.id == i);
    FailAllTotal(sent, Disconnected, i);
  }

  lemma TakeInTotal(s: State, id: u64, i: u64)
    ensures Total(TakeIn(s, id), i) == Total(s, i) + One(id in s.canceled && id == i)
  {
  }

  lemma TakeInSlots(s: State, id: u64)
    ensures TakeIn(s, id).correlated == s.correlated && TakeIn(s, id).limits == s.limits
  {
  }

  /** A request that goes on the wire under an id whose slot still has a sender. */
  predicate Displaces(s: State, id: u64, frame: Result<Bytes>) {
    id in s.correlated && s.correlated[id] && |s.correlated| < s.limits.maxInFlight && frame.Ok?
  }

  lemma TakeByIdTotal(
    s: State, id: u64, live: bool, generation: u64, messageType: u16, frame: Result<Bytes>, written: bool, i: u64)
    ensures Total(TakeById(s, id, live, generation, messageType, frame, written), i)
              + One(id == i && Displaces(s, id, frame)) == Total(s, i) + One(live && id == i)
  {
    hide FailAll, LiveInTable;
    var sent := s.(correlated := s.correlated[id := live],
                   writes := s.writes + [Write(id, generation, messageType, OwnId, frame)]);
    assert Total(sent, i) + One(id == i && i in s.correlated && s.correlated[i]) == Total(s, i) + One(live && id == i);
    FailAllTotal(sent, Disconnected, i);
  }

  lemma TakeByTypeTotal(s: State, r: Waiting, messageType: u16, written: bool, i: u64)
    ensures Total(TakeByType(s, r, messageType, written), i) == Total(s, i) + One(r.live && r.id == i)
  {
    var waiting := QueueAt(s.queued, messageType);
    LiveUpdate(s.queued, messageType, waiting + [r], i);
    LiveInAppend(waiting, r, i);
    WriteTotal(s, r, messageType, written, i);
  }

  lemma CancelTotal(s: State, id: u64, at: u16, i: u64)
    ensures Total(OnCancel(s, id, at), i) == Total(s, i)
  {
    if id in s.correlated {
    } else if Somewhere(s.pending, id) {
      var q := QueueAt(s.pending, at);
      LiveUpdate(s.pending, at, KillFirst(q, id), i);
      LiveInKilled(q, id, i);
    } else if Somewhere(s.queued, id) {
      var q := QueueAt(s.queued, at);
      LiveUpdate(s.queued, at, RemoveFirst(q, id), i);
      LiveInRemoved(q, id, i);
    }
  }

  lemma ServeTotal(s: State, messageType: u16, payload: Bytes, i: u64)
    requires QueueAt(s.pending, messageType) != []
    ensures Total(Serve(s, messageType, payload), i) == Total(s, i)
  {
    var q := QueueAt(s.pending, messageType);
    LiveUpdate(s.pending, messageType, q[1..], i);
  }

  lemma FollowUpTotal(s: State, messageType: u16, follows: bool, i: u64)
    ensures Total(FollowUp(s, messageType, follows), i) == Total(s, i)
  {
    var waiting := QueueAt(s.queued, messageType);
    if waiting != [] {
      LiveUpdate(s.queued, messageType, waiting[1..], i);
      var less := s.(queued := s.queued[messageType := waiting[1..]]);
      assert Total(less, i) + One(waiting[0].live && waiting[0].id == i) == Total(s, i);
      WriteTotal(less, waiting[0], messageType, follows, i);
    }
  }

  lemma SendTotal(
    s: State, id: u64, generation: u64, messageType: u16, frame: Result<Bytes>, written: bool, i: u64)
    ensures Total(SendFrame(s, id, generation, messageType, frame, written), i) == Total(s, i) + One(id == i)
  {
  }

  lemma IncomingTotal(s: State, incoming: Result<Incoming>, follows: bool, i: u64)
    ensures Total(OnIncoming(s, incoming, follows), i) == Total(s, i)
  {
    hide FailAll, OnCorrelated, OnUncorrelated;
    match incoming
    case Err(_) => FailAllTotal(s, Disconnected, i);
    case Ok(Control(_)) =>
    case Ok(Record(messageType, payload, correlationId, final)) =>
      if correlationId != 0 {
        CorrelatedTotal(s, correlationId, payload, final, i);
      } else {
        UncorrelatedTotal(s, messageType, payload, follows, i);
      }
  }

  lemma CorrelatedTotal(s: State, correlationId: u64, payload: Bytes, final: bool, i: u64)
    ensures Total(OnCorrelated(s, correlationId, payload, final), i) == Total(s, i)
  {
    hide FailAll;
    FailAllTotal(s, Disconnected, i);
  }

  lemma UncorrelatedTotal(s: State, messageType: u16, payload: Bytes, follows: bool, i: u64)
    ensures Total(OnUncorrelated(s, messageType, payload, follows), i) == Total(s, i)
  {
    hide FollowUp, Serve;
    if QueueAt(s.pending, messageType) != [] {
      ServeTotal(s, messageType, payload, i);
      FollowUpTotal(Serve(s, messageType, payload), messageType, follows, i);
    }
  }

  /** The ids an input takes from the command queue. */
  function TakesIn(input: Input, id: u64): nat {
    match input
    case Stale(i) => One(i == id)
    case ById(i, _, _, _, _) => One(i == id)
    case ByType(r, _, _) => One(r.id == id)
    case OneWay(i, _, _, _, _) => One(i == id)
    case _ => 0
  }

  /** The input's request takes over the slot that another with id `i` waits in. */
  predicate TakesOverIn(s: State, input: Input, i: u64) {
    input.ById? && input.id == i && Displaces(s, i, input.frame)
  }

  lemma ApplyTotal(s: State, input: Input, i: u64)
    requires input.ByType? ==> input.request.live == (input.request.id !in s.canceled)
    ensures Total(Apply(s, input), i) + One(TakesOverIn(s, input, i)) == Total(s, i) + TakesIn(input, i)
  {
    hide TakeIn, TakeById, TakeByType, SendFrame, OnCancel, OnIncoming, FailAll, Live;
    match input
    case ById(id, generation, messageType, frame, written) =>
      TakeInTotal(s, id, i);
      TakeInSlots(s, id);
      TakeByIdTotal(TakeIn(s, id), id, id !in s.canceled, generation, messageType, frame, written, i);
    case ByType(request, messageType, written) =>
      TakeInTotal(s, request.id, i);
      TakeByTypeTotal(TakeIn(s, request.id), request, messageType, written, i);
    case CancelId(id, at) => CancelTotal(s, id, at, i);
    case Received(incoming, follows) => IncomingTotal(s, incoming, follows, i);
    case Finish(phase) => FailAllTotal(s, phase, i);
    case Stale(id) => AnswerTotal(s, id, true, Failure(ConnectionClosed), i);
    case OneWay(id, generation, messageType, frame, written) => SendTotal(s, id, generation, messageType, frame, written, i);
    case Nothing =>
  }

  lemma InterpretTakes(s: State, e: Event, i: u64)
    ensures TakesIn(Interpret(s, e), i) == Takes(e, i)
    ensures Interpret(s, e).ById? ==> e.Request? && e.id == Interpret(s, e).id
    ensures Interpret(s, e).ByType? ==> Interpret(s, e).request.live == (Interpret(s, e).request.id !in s.canceled)
    ensures Interpret(s, e).CancelId? <==> e.Cancel?
    ensures e.Cancel? ==> Interpret(s, e) == CancelId(e.id, e.at)
  {
  }

  ghost predicate TakesOver(s: State, e: Event, i: u64) {
    TakesOverIn(s, Interpret(s, e), i)
  }

  /** A sender is lost only to a request that takes over its slot. */
  lemma StepTotal(s: State, e: Event, i: u64)
    ensures Total(Step(s, e), i) + One(TakesOver(s, e, i)) == Total(s, i) + Takes(e, i)
  {
    hide Apply, Interpret, Total;
    InterpretTakes(s, e, i);
    ApplyTotal(s, Interpret(s, e), i);
  }

  // ---------------------------------------------------------------- what one input may change

  /** The final frame of request `i`. */
  ghost predicate ReleasesIn(input: Input, i: u64) {
    && input.Received? && input.incoming.Ok? && input.incoming.value.Record?
    && input.incoming.value.correlationId == i && input.incoming.value.final
  }

  ghost predicate Renegotiates(input: Input) {
    input.Received? && input.incoming.Ok? && input.incoming.value.Control?
  }

  predicate Succeeds(answers: seq<Outcome>, p: Bytes) {
    Success(p) in answers
  }

  /** What may change for request `i` when an open session handles this input. */
  ghost predicate Law(s: State, s': State, input: Input, i: u64) {
    && (i in s'.correlated ==> i in s.correlated || (input.ById? && input.id == i))
    && (i in s'.canceled || s'.dropped[i] > 0 ==>
          i in s.canceled || s.dropped[i] > 0 || (input.CancelId? && input.id == i))
    && (i in s.correlated && i != 0 && s'.phase == Open && !ReleasesIn(input, i) ==>
          && i in s'.correlated
          && (TakesIn(input, i) == 0 && !(input.CancelId? && input.id == i) ==> s'.correlated[i] == s.correlated[i]))
    && s.answers[i] <= s'.answers[i]
    && (!input.Received? ==> forall p :: Succeeds(s'.answers[i], p) ==> Succeeds(s.answers[i], p))
    && (!input.Received? ==> s'.served == s.served)
    && s'.limits == (if Renegotiates(input) then input.incoming.value.limits else s.limits)
    && (!input.ByType? && s.pending == map[] && s.queued == map[] ==> s'.pending == map[] && s'.queued == map[])
    && (s'.phase != Open ==> Empty(s'))
    && s'.generation == s.generation
  }

  lemma LawTrans(s: State, m: State, s': State, input: Input, i: u64)
    requires m.phase == Open && Law(s, m, input, i) && Law(m, s', Nothing, i)
    ensures Law(s, s', input, i)
  {
  }

  lemma AnswerLaw(s: State, id: u64, live: bool, o: Outcome, i: u64)
    requires s.phase == Open && !o.Success?
    ensures Law(s, Answer(s, id, live, o), Nothing, i)
  {
  }

  lemma ClosedLaw(s: State, i: u64)
    ensures s.answers[i] <= ClosedAnswers(s)[i]
    ensures forall p :: Succeeds(ClosedAnswers(s)[i], p) ==> Succeeds(s.answers[i], p)
  {
    var more := Repeat(Live(s, i), Failure(ConnectionClosed));
    assert ClosedAnswers(s)[i] == s.answers[i] + more;
    forall p | Succeeds(s.answers[i] + more, p) ensures Succeeds(s.answers[i], p) {
      assert Success(p) !in more;
    }
  }

  lemma FailAllLaw(s: State, phase: Phase, i: u64)
    requires phase != Open
    ensures Law(s, FailAll(s, phase), Nothing, i)
  {
    hide ClosedAnswers;
    ClosedLaw(s, i);
  }

  lemma TakeByIdLaw(s: State, id: u64, live: bool, generation: u64, messageType: u16, frame: Result<Bytes>, written: bool, input: Input, i: u64)
    requires s.phase == Open && input == ById(id, generation, messageType, frame, written)
    ensures Law(s, TakeById(s, id, live, generation, messageType, frame, written), input, i)
  {
    hide Answer, FailAll;
    if |s.correlated| >= s.limits.maxInFlight {
      AnswerLaw(s, id, live, Failure(Backpressure), i);
    } else if frame.Err? {
      AnswerLaw(s, id, live, Failure(frame.error), i);
    } else {
      var sent := s.(correlated := s.correlated[id := live],
                     writes := s.writes + [Write(id, generation, messageType, OwnId, frame)]);
      FailAllLaw(sent, Disconnected, i);
    }
  }

  lemma WriteLaw(s: State, r: Waiting, messageType: u16, written: bool, input: Input, i: u64)
    requires s.phase == Open && !input.Received? && (input.ByType? || s.queued != map[])
    ensures Law(s, WriteUncorrelated(s, r, messageType, written), input, i)
  {
    hide FailAll;
    var sent := s.(
      pending := s.pending[messageType := QueueAt(s.pending, messageType) + [Entry(r.id, r.live, ())]],
      writes := s.writes + [Written(r, messageType)]);
    FailAllLaw(sent, Disconnected, i);
  }

  lemma TakeByTypeLaw(s: State, r: Waiting, messageType: u16, written: bool, input: Input, i: u64)
    requires s.phase == Open && input.ByType?
    ensures Law(s, TakeByType(s, r, messageType, written), input, i)
  {
    hide WriteUncorrelated;
    WriteLaw(s, r, messageType, written, input, i);
  }

  lemma SendLaw(s: State, id: u64, generation: u64, messageType: u16, frame: Result<Bytes>, written: bool, i: u64)
    requires s.phase == Open
    ensures Law(s, SendFrame(s, id, generation, messageType, frame, written), Nothing, i)
  {
  }

  lemma CancelLaw(s: State, id: u64, at: u16, i: u64)
    requires s.phase == Open
    ensures Law(s, OnCancel(s, id, at), CancelId(id, at), i)
  {
    hide CancelPending, CancelQueued, HasId, Succeeds;
    if id !in s.correlated && (Somewhere(s.pending, id) || Somewhere(s.queued, id)) {
      CancelQueueLaw(s, id, at, i);
    }
  }

  lemma CancelQueueLaw(s: State, id: u64, at: u16, i: u64)
    requires s.phase == Open && (s.pending != map[] || s.queued != map[])
    ensures Law(s, CancelPending(s, id, at), CancelId(id, at), i)
    ensures Law(s, CancelQueued(s, id, at), CancelId(id, at), i)
  {
    hide KillFirst, RemoveFirst, FirstIsLive, QueueAt, Succeeds;
  }

  lemma CorrelatedLaw(s: State, correlationId: u64, payload: Bytes, final: bool, input: Input, i: u64)
    requires s.phase == Open && input.Received? && !Renegotiates(input)
    requires correlationId == i && final ==> ReleasesIn(input, i)
    ensures Law(s, OnCorrelated(s, correlationId, payload, final), input, i)
  {
    hide FailAll;
    FailAllLaw(s, Disconnected, i);
  }

  lemma ServeLaw(s: State, messageType: u16, payload: Bytes, input: Input, i: u64)
    requires s.phase == Open && QueueAt(s.pending, messageType) != [] && input.Received? && !Renegotiates(input)
    ensures Law(s, Serve(s, messageType, payload), input, i) && Serve(s, messageType, payload).phase == Open
  {
  }

  lemma FollowUpLaw(s: State, messageType: u16, follows: bool, i: u64)
    requires s.phase == Open
    ensures Law(s, FollowUp(s, messageType, follows), Nothing, i)
  {
    hide WriteUncorrelated;
    var waiting := QueueAt(s.queued, messageType);
    if waiting != [] {
      var less := s.(queued := s.queued[messageType := waiting[1..]]);
      assert messageType in less.queued;
      WriteLaw(less, waiting[0], messageType, follows, Nothing, i);
    }
  }

  lemma IncomingLaw(s: State, incoming: Result<Incoming>, follows: bool, i: u64)
    requires s.phase == Open
    ensures Law(s, OnIncoming(s, incoming, follows), Received(incoming, follows), i)
  {
    hide FailAll, OnCorrelated, Serve, FollowUp;
    var input := Received(incoming, follows);
    match incoming
    case Err(_) => FailAllLaw(s, Disconnected, i);
    case Ok(Control(_)) =>
    case Ok(Record(messageType, payload, correlationId, final)) =>
      if correlationId != 0 {
        CorrelatedLaw(s, correlationId, payload, final, input, i);
      } else if QueueAt(s.pending, messageType) != [] {
        ServeLaw(s, messageType, payload, input, i);
        FollowUpLaw(Serve(s, messageType, payload), messageType, follows, i);
        LawTrans(s, Serve(s, messageType, payload), OnIncoming(s, incoming, follows), input, i);
      }
  }

  lemma ApplyLaw(s: State, input: Input, i: u64)
    requires s.phase == Open && (input.Finish? ==> input.phase != Open)
    ensures Law(s, Apply(s, input), input, i)
  {
    hide FailAll, Answer, TakeById, TakeByType, SendFrame, OnCancel, OnIncoming, Law;
    match input
    case Stale(id) => AnswerLaw(s, id, true, Failure(ConnectionClosed), i); LawOfNothing(s, Apply(s, input), input, i);
    case ById(id, generation, messageType, frame, written) => TakenLaw(s, input, i);
    case ByType(request, messageType, written) => TakenLaw(s, input, i);
    case OneWay(id, generation, messageType, frame, written) =>
      SendLaw(s, id, generation, messageType, frame, written, i);
      LawOfNothing(s, Apply(s, input), input, i);
    case CancelId(id, at) => CancelLaw(s, id, at, i);
    case Received(incoming, follows) => IncomingLaw(s, incoming, follows, i);
    case Nothing => LawOfNone(s, i);
    case Finish(phase) => FailAllLaw(s, phase, i); LawOfNothing(s, Apply(s, input), input, i);
  }

  lemma LawOfNone(s: State, i: u64)
    requires s.phase == Open
    ensures Law(s, s, Nothing, i)
  {
  }

  lemma LawOfNothing(s: State, s': State, input: Input, i: u64)
    requires Law(s, s', Nothing, i) && !Renegotiates(input)
    ensures Law(s, s', input, i)
  {
  }

  lemma TakenLaw(s: State, input: Input, i: u64)
    requires s.phase == Open && (input.ById? || input.ByType?)
    ensures Law(s, Apply(s, input), input, i)
  {
    hide TakeById, TakeByType, Law;
    match input
    case ById(id, generation, messageType, frame, written) =>
      TakeByIdLaw(TakeIn(s, id), id, id !in s.canceled, generation, messageType, frame, written, input, i);
      LawAfterTaking(s, Apply(s, input), id, input, i);
    case ByType(request, messageType, written) =>
      TakeByTypeLaw(TakeIn(s, request.id), request, messageType, written, input, i);
      LawAfterTaking(s, Apply(s, input), request.id, input, i);
  }

  lemma LawAfterTaking(s: State, s': State, id: u64, input: Input, i: u64)
    requires Law(TakeIn(s, id), s', input, i)
    ensures Law(s, s', input, i)
  {
    hide Empty, ReleasesIn, TakesIn, Succeeds, Renegotiates;
  }

  lemma StepLaw(s: State, e: Event, i: u64)
    requires s.phase == Open
    ensures Law(s, Step(s, e), Interpret(s, e), i)
  {
    hide Law, Apply, DecodeIncoming, EncodeOutbound, EncodeFrame;
    ApplyLaw(s, Interpret(s, e), i);
  }

  /** A slot or a cancellation mark for an id goes back to an event that named it. */
  ghost predicate Traced(s: State, es: seq<Event>, i: u64) {
    && (i in s.correlated ==> Taken(es, i) > 0)
    && (i in s.canceled || s.dropped[i] > 0 ==> CancelledIn(es, i))
  }

  lemma StepTraced(s: State, es: seq<Event>, e: Event, i: u64)
    requires s.phase == Open && Traced(s, es, i)
    ensures Traced(Step(s, e), es + [e], i)
  {
    hide Step, Interpret;
    InterpretTakes(s, e, i);
    StepLaw(s, e, i);
    OneMoreEvent(es, e, i);
  }

  lemma OneMoreEvent(es: seq<Event>, e: Event, i: u64)
    ensures Taken(es + [e], i) == Taken(es, i) + Takes(e, i)
    ensures CancelledIn(es + [e], i) <==> CancelledIn(es, i) || (e.Cancel? && e.id == i)
  {
    var more := es + [e];
    assert more[..|es|] == es && more[|es|] == e;
    assert forall k :: 0 <= k < |es| ==> more[k] == es[k];
  }

  /** How often a slot with a sender was taken over by another request with its id. */
  ghost function Lost(s: State, es: seq<Event>, i: u64): nat {
    if es == [] then 0
    else Lost(s, es[..|es| - 1], i) + One(TakesOver(Run(s, es[..|es| - 1]), es[|es| - 1], i))
  }

  /** Over every run, whatever ids are used, each sender is used, held, dropped by a cancellation, or lost to a takeover. */
  lemma {:induction false} RunConserves(s: State, es: seq<Event>, i: u64)
    ensures Total(Run(s, es), i) + Lost(s, es, i) == Total(s, i) + Taken(es, i)
  {
    hide Step, Total, TakesOver;
    if es != [] {
      RunConserves(s, es[..|es| - 1], i);
      StepTotal(Run(s, es[..|es| - 1]), es[|es| - 1], i);
    }
  }

  lemma {:induction false} RunTraced(s: State, es: seq<Event>, i: u64)
    requires IsRun(s, es) && Traced(s, [], i)
    ensures Traced(Run(s, es), es, i)
  {
    hide Step, Traced;
    if es != [] {
      var before, e := es[..|es| - 1], es[|es| - 1];
      RunTraced(s, before, i);
      StepTraced(Run(s, before), before, e, i);
      assert before + [e] == es;
    }
  }

  ghost predicate Empty(s: State) {
    s.correlated == map[] && s.pending == map[] && s.queued == map[]
  }

  lemma EndedIsEmpty(s: State, es: seq<Event>)
    requires IsRun(s, es) && s.phase == Open
    ensures Run(s, es).phase != Open ==> Empty(Run(s, es))
  {
    hide Step, Interpret;
    if es != [] {
      StepLaw(Run(s, es[..|es| - 1]), es[|es| - 1], 0);
    }
  }

  /** No request of the run takes over a slot that another still waits in. */
  ghost predicate NoTakeover(s: State, es: seq<Event>) {
    forall k, i: u64 :: 0 <= k < |es| ==> !TakesOver(Run(s, es[..k]), es[k], i)
  }

  lemma {:induction false} LostByTakeover(s: State, es: seq<Event>, i: u64) returns (k: nat)
    requires Lost(s, es, i) > 0
    ensures k < |es| && TakesOver(Run(s, es[..k]), es[k], i)
  {
    hide Run, TakesOver;
    var front := es[..|es| - 1];
    if Lost(s, front, i) > 0 {
      k := LostByTakeover(s, front, i);
      assert front[..k] == es[..k];
    } else {
      k := |es| - 1;
    }
  }

  lemma {:induction false} TakeoverLoses(s: State, es: seq<Event>, i: u64, k: nat)
    requires k < |es| && TakesOver(Run(s, es[..k]), es[k], i)
    ensures Lost(s, es, i) > 0
  {
    hide Run, TakesOver;
    var front := es[..|es| - 1];
    if k < |front| {
      assert front[..k] == es[..k];
      TakeoverLoses(s, front, i, k);
    }
  }

  /** Every sender is accounted for, in every run, if and only if no request takes over a live slot. */
  lemma AllAccountedFor(generation: u64, limits: Limits, es: seq<Event>)
    ensures var start := Start(generation, limits);
            (forall i: u64 :: Total(Run(start, es), i) == Taken(es, i)) <==> NoTakeover(start, es)
  {
    hide Run, TakesOver, Total;
    var start := Start(generation, limits);
    if NoTakeover(start, es) {
      forall i: u64 ensures Total(Run(start, es), i) == Taken(es, i) {
        NothingAtStart(generation, limits, i);
        RunConserves(start, es, i);
        if Lost(start, es, i) > 0 {
          var k := LostByTakeover(start, es, i);
        }
      }
    } else {
      var k, i: u64 :| 0 <= k < |es| && TakesOver(Run(start, es[..k]), es[k], i);
      NothingAtStart(generation, limits, i);
      RunConserves(start, es, i);
      TakeoverLoses(start, es, i, k);
    }
  }

  /**
   Over every run of a session: each request taken from the queue is answered, outstanding, dropped by
   a cancellation of its id, or lost to a request that took over its slot. When the session has ended,
   by whatever path, the tables are empty, so what was neither cancelled nor lost has its answer.
   */
  lemma ExactlyOnce(generation: u64, limits: Limits, es: seq<Event>)
    requires IsRun(Start(generation, limits), es)
    ensures var start := Start(generation, limits);
            var s := Run(start, es);
            && (forall i: u64 :: |s.answers[i]| + Live(s, i) + s.dropped[i] + Lost(start, es, i) == Taken(es, i))
            && (forall i: u64 :: s.dropped[i] > 0 ==> CancelledIn(es, i))
            && (s.phase != Open ==>
                  && Empty(s)
                  && forall i: u64 :: !CancelledIn(es, i) && Lost(start, es, i) == 0 ==> |s.answers[i]| == Taken(es, i))
  {
    hide Live, Run, IsRun;
    var start := Start(generation, limits);
    var s := Run(start, es);
    EndedIsEmpty(start, es);
    forall i: u64
      ensures |s.answers[i]| + Live(s, i) + s.dropped[i] + Lost(start, es, i) == Taken(es, i)
      ensures s.dropped[i] > 0 ==> CancelledIn(es, i)
      ensures s.phase != Open && !CancelledIn(es, i) && Lost(start, es, i) == 0 ==> |s.answers[i]| == Taken(es, i)
    {
      NothingAtStart(generation, limits, i);
      RunConserves(start, es, i);
      RunTraced(start, es, i);
      if s.phase != Open {
        EmptyHoldsNone(s, i);
      }
    }
  }

  /** Requests of this session with an id; refused ones of earlier sessions, and one-way messages, are none. */
  function Requested(es: seq<Event>, generation: u64, id: u64): nat {
    if es == [] then 0
    else
      var e := es[|es| - 1];
      Requested(es[..|es| - 1], generation, id) + One(e.Request? && e.generation == generation && e.id == id)
  }

  lemma StepRequested(s: State, e: Event, i: u64)
    requires s.phase == Open
    ensures i in Step(s, e).correlated ==> i in s.correlated || (e.Request? && e.generation == s.generation && e.id == i)
    ensures TakesOver(s, e, i) ==> i in s.correlated && e.Request? && e.generation == s.generation && e.id == i
    ensures Step(s, e).generation == s.generation
  {
    hide Law, Apply, DecodeIncoming, EncodeOutbound, EncodeFrame;
    StepLaw(s, e, i);
    LawOfSlot(s, Step(s, e), Interpret(s, e), i);
  }

  lemma LawOfSlot(s: State, s': State, input: Input, i: u64)
    requires Law(s, s', input, i)
    ensures i in s'.correlated ==> i in s.correlated || (input.ById? && input.id == i)
    ensures s'.generation == s.generation
  {
  }

  lemma {:induction false} SlotsWereRequested(s: State, es: seq<Event>, i: u64)
    requires IsRun(s, es) && i !in s.correlated
    ensures Run(s, es).generation == s.generation
    ensures i in Run(s, es).correlated ==> Requested(es, s.generation, i) > 0
    ensures Requested(es, s.generation, i) <= 1 ==> Lost(s, es, i) == 0
  {
    hide Step, TakesOver;
    if es != [] {
      SlotsWereRequested(s, es[..|es| - 1], i);
      StepRequested(Run(s, es[..|es| - 1]), es[|es| - 1], i);
    }
  }

  /** A session that is asked at most once under each id loses no sender, whatever stale commands it refuses. */
  lemma DistinctIdsLoseNone(generation: u64, limits: Limits, es: seq<Event>, i: u64)
    requires IsRun(Start(generation, limits), es) && Requested(es, generation, i) <= 1
    ensures Lost(Start(generation, limits), es, i) == 0
  {
    SlotsWereRequested(Start(generation, limits), es, i);
  }

  /** A run that does lose one: the second request with an outstanding id, and then a close. */
  lemma TakeoverHappens(generation: u64, limits: Limits, id: u64, messageType: u16, payload: Bytes) returns (es: seq<Event>)
    requires Correlating(limits) && limits.maxInFlight >= 2
    requires EncodeOutbound(limits, messageType, 0, id, payload).Ok?
    ensures IsRun(Start(generation, limits), es)
    ensures var s := Run(Start(generation, limits), es);
            s.phase == Ended && Taken(es, id) == 2 && !CancelledIn(es, id) && |s.answers[id]| == 1
  {
    hide EncodeOutbound, EncodeFrame, Step, FailAll, Live;
    var start := Start(generation, limits);
    var e := Request(id, generation, messageType, 0, payload, true);
    es := [e, e, Close];
    var two := TwiceTaken(generation, limits, e);
    assert es[..2] == [e, e];
    RunsOfTwo(start, e);
    TakenOfThree(e);
    OnlySlot(two, id);
    CloseAnswers(two, id);
  }

  lemma TwiceTaken(generation: u64, limits: Limits, e: Event) returns (two: State)
    requires Correlating(limits) && limits.maxInFlight >= 2
    requires e.Request? && e.generation == generation && e.written && e.flags == 0
    requires EncodeOutbound(limits, e.messageType, 0, e.id, e.payload).Ok?
    ensures var start := Start(generation, limits);
            && Step(start, e).phase == Open && two == Step(Step(start, e), e) == Run(start, [e, e]) && two.phase == Open
            && two.correlated == map[e.id := true] && two.pending == map[] && two.queued == map[]
            && two.answers[e.id] == []
  {
    hide EncodeOutbound, EncodeFrame, FailAll;
    var start := Start(generation, limits);
    RunOfTwo(start, e);
    two := Step(Step(start, e), e);
  }

  lemma CloseAnswers(s: State, id: u64)
    ensures var closed := Step(s, Close);
            closed.phase == Ended && |closed.answers[id]| == |s.answers[id]| + Live(s, id)
  {
    hide Live;
  }

  lemma RunOfTwo(s: State, e: Event)
    ensures Run(s, [e, e]) == Step(Step(s, e), e) && Run(s, [e]) == Step(s, e)
  {
    hide Step;
    assert [e, e][..1] == [e] && [e][..0] == [];
    assert Run(s, []) == s;
  }

  lemma RunsOfTwo(s: State, e: Event)
    requires s.phase == Open && Step(s, e).phase == Open && Step(Step(s, e), e).phase == Open && !e.Cancel?
    ensures IsRun(s, [e, e, Close])
  {
    hide Step;
    RunOfTwo(s, e);
    assert [e, e, Close][..2] == [e, e] && [e, e][..1] == [e] && [e][..0] == [];
    assert IsRun(s, []) && Run(s, []) == s;
    assert IsRun(s, [e]) && IsRun(s, [e, e]);
  }

  lemma TakenOfThree(e: Event)
    requires e.Request?
    ensures Taken([e, e, Close], e.id) == 2
  {
    assert [e, e, Close][..2] == [e, e] && [e, e][..1] == [e] && [e][..0] == [];
    assert Taken([e], e.id) == 1 && Taken([e, e], e.id) == 2;
  }

  lemma OnlySlot(s: State, id: u64)
    requires s.correlated == map[id := true] && s.pending == map[] && s.queued == map[]
    ensures Live(s, id) == 1
  {
  }

  lemma NothingAtStart(generation: u64, limits: Limits, i: u64)
    ensures Total(Start(generation, limits), i) == 0
  {
  }

  lemma EmptyHoldsNone(s: State, i: u64)
    requires Empty(s)
    ensures Live(s, i) == 0
  {
  }

  // ---------------------------------------------------------------- response isolation

  /** In this state this frame gives request `i` the payload `p`. */
  ghost predicate Answers(s: State, e: Event, i: u64, p: Bytes) {
    e.Frame? && AnswersWith(s, DecodeIncoming(s.limits, e.bytes), i, p)
  }

  ghost predicate AnswersWith(s: State, incoming: Result<Incoming>, i: u64, p: Bytes) {
    && incoming.Ok? && incoming.value.Record? && incoming.value.payload == p
    && var r := incoming.value;
       if r.correlationId != 0 then r.correlationId == i && r.final && i in s.correlated && s.correlated[i]
       else
         var q := QueueAt(s.pending, r.messageType);
         q != [] && q[0].id == i && q[0].live
  }

  lemma IncomingAnswers(s: State, incoming: Result<Incoming>, follows: bool, i: u64, p: Bytes)
    requires s.phase == Open && Succeeds(OnIncoming(s, incoming, follows).answers[i], p)
    ensures Succeeds(s.answers[i], p) || AnswersWith(s, incoming, i, p)
  {
    hide FailAll, OnUncorrelated, QueueAt;
    FailAllLaw(s, Disconnected, i);
    if incoming.Ok? && incoming.value.Record? && incoming.value.correlationId == 0 {
      UncorrelatedAnswers(s, incoming.value.messageType, incoming.value.payload, follows, i, p);
    }
  }

  lemma UncorrelatedAnswers(s: State, messageType: u16, payload: Bytes, follows: bool, i: u64, p: Bytes)
    requires s.phase == Open && Succeeds(OnUncorrelated(s, messageType, payload, follows).answers[i], p)
    ensures var q := QueueAt(s.pending, messageType);
            Succeeds(s.answers[i], p) || (q != [] && q[0].id == i && q[0].live && payload == p)
  {
    hide FollowUp;
    if QueueAt(s.pending, messageType) != [] {
      FollowUpLaw(Serve(s, messageType, payload), messageType, follows, i);
    }
  }

  lemma StepAnswers(s: State, e: Event, i: u64, p: Bytes)
    requires s.phase == Open && Succeeds(Step(s, e).answers[i], p)
    ensures Succeeds(s.answers[i], p) || Answers(s, e, i, p)
  {
    hide DecodeIncoming, EncodeOutbound, EncodeFrame, OnIncoming, AnswersWith, Succeeds;
    StepLaw(s, e, i);
    if e.Frame? {
      var incoming := DecodeIncoming(s.limits, e.bytes);
      IncomingAnswers(s, incoming, FollowsIncoming(s, incoming, e.written), i, p);
    }
  }

  /** A success reaches a request only from a frame that was for it, while it was outstanding. */
  lemma {:induction false} SuccessHasItsFrame(s: State, es: seq<Event>, i: u64, p: Bytes) returns (k: nat)
    requires IsRun(s, es) && s.answers[i] == [] && Succeeds(Run(s, es).answers[i], p)
    ensures k < |es| && Answers(Run(s, es[..k]), es[k], i, p)
  {
    hide Step, Answers;
    var before, e := es[..|es| - 1], es[|es| - 1];
    StepAnswers(Run(s, before), e, i, p);
    if Succeeds(Run(s, before).answers[i], p) {
      k := SuccessHasItsFrame(s, before, i, p);
      assert before[..k] == es[..k];
    } else {
      k := |es| - 1;
    }
  }

  /** After HELLO a session never uses the per-type tables, and its limits stay as they are. */
  ghost predicate Negotiated(s: State, limits: Limits) {
    s.limits == limits && s.pending == map[] && s.queued == map[]
  }

  /** A second HELLO is refused, and no other frame touches the limits. */
  lemma ControlKeepsLimits(limits: Limits, frame: Bytes)
    requires Correlating(limits)
    ensures var incoming := DecodeIncoming(limits, frame);
            incoming.Ok? && incoming.value.Control? ==> incoming.value.limits == limits
  {
    hide DecodeFrameHeader, DecodePayload, DecodeGoaway;
  }

  lemma InterpretNegotiated(s: State, e: Event)
    requires Correlating(s.limits)
    ensures var input := Interpret(s, e);
            !input.ByType? && (input.Received? && input.incoming.Ok? && input.incoming.value.Control? ==>
                                 input.incoming.value.limits == s.limits)
  {
    hide DecodeIncoming, EncodeOutbound, EncodeFrame;
    if e.Frame? {
      ControlKeepsLimits(s.limits, e.bytes);
    }
  }

  lemma {:induction false} StaysNegotiated(s: State, es: seq<Event>)
    requires IsRun(s, es) && Negotiated(s, s.limits) && Correlating(s.limits)
    ensures Negotiated(Run(s, es), s.limits)
  {
    hide Step, Interpret;
    if es != [] {
      var before := Run(s, es[..|es| - 1]);
      StaysNegotiated(s, es[..|es| - 1]);
      InterpretNegotiated(before, es[|es| - 1]);
      StepNegotiated(before, es[|es| - 1]);
    }
  }

  lemma StepNegotiated(s: State, e: Event)
    requires s.phase == Open && Negotiated(s, s.limits) && !Interpret(s, e).ByType?
    requires Renegotiates(Interpret(s, e)) ==> Interpret(s, e).incoming.value.limits == s.limits
    ensures Negotiated(Step(s, e), s.limits)
  {
    hide Interpret, FailAll, Answer, TakeById, TakeByType, SendFrame, OnCancel;
    StepLaw(s, e, 0);
  }

  /** A final frame for a request that is outstanding under its own correlation id. */
  ghost predicate FinalReply(s: State, e: Event, i: u64, p: Bytes) {
    && e.Frame? && i in s.correlated && s.correlated[i]
    && exists t :: DecodeIncoming(s.limits, e.bytes) == Ok(Record(t, p, i, true))
  }

  /** In a negotiated session a success comes from a final frame with the request's own correlation id. */
  lemma ResponseIsolation(generation: u64, limits: Limits, es: seq<Event>, i: u64, p: Bytes) returns (k: nat)
    requires IsRun(Start(generation, limits), es) && Correlating(limits)
    requires Succeeds(Run(Start(generation, limits), es).answers[i], p)
    ensures k < |es| && FinalReply(Run(Start(generation, limits), es[..k]), es[k], i, p)
  {
    hide Run, DecodeIncoming;
    var start := Start(generation, limits);
    k := SuccessHasItsFrame(start, es, i, p);
    EarlierRun(start, es, k);
    StaysNegotiated(start, es[..k]);
    var s := Run(start, es[..k]);
    assert DecodeIncoming(s.limits, es[k].bytes) == Ok(Record(DecodeIncoming(s.limits, es[k].bytes).value.messageType, p, i, true));
  }

  lemma {:induction false} EarlierRun(s: State, es: seq<Event>, k: nat)
    requires IsRun(s, es) && k <= |es|
    ensures IsRun(s, es[..k])
  {
    if k < |es| {
      EarlierRun(s, es[..|es| - 1], k);
      assert es[..|es| - 1][..k] == es[..k];
    } else {
      assert es[..k] == es;
    }
  }

  /** A reply that no slot waits for ends the session, and everyone who still waits is told. */
  lemma StrayReplyEnds(s: State, bytes: Bytes, written: bool, i: u64)
    requires var incoming := DecodeIncoming(s.limits, bytes);
             && incoming.Ok? && incoming.value.Record?
             && incoming.value.correlationId != 0 && incoming.value.correlationId !in s.correlated
    ensures var s' := Step(s, Frame(bytes, written));
            && s'.phase == Disconnected && Empty(s') && Live(s', i) == 0
            && |s'.answers[i]| == |s.answers[i]| + Live(s, i)
            && forall k :: |s.answers[i]| <= k < |s'.answers[i]| ==> s'.answers[i][k] == Failure(ConnectionClosed)
  {
    hide DecodeIncoming, FollowsIncoming, Live;
    assert Step(s, Frame(bytes, written)) == FailAll(s, Disconnected);
    EmptyHoldsNone(FailAll(s, Disconnected), i);
  }

  /** The frame that releases the slot of `i`: its final one. */
  ghost predicate Releases(s: State, e: Event, i: u64) {
    ReleasesIn(Interpret(s, e), i)
  }

  ghost predicate NeverReleased(s: State, es: seq<Event>, i: u64) {
    forall k :: 0 <= k < |es| ==> !Releases(Run(s, es[..k]), es[k], i)
  }

  lemma NotReleasedBefore(s: State, es: seq<Event>, i: u64)
    requires IsRun(s, es) && es != [] && NeverReleased(s, es, i)
    ensures IsRun(s, es[..|es| - 1]) && NeverReleased(s, es[..|es| - 1], i)
    ensures !Releases(Run(s, es[..|es| - 1]), es[|es| - 1], i)
  {
    hide Step, Releases, Enabled;
    var before := es[..|es| - 1];
    forall k | 0 <= k < |before| ensures !Releases(Run(s, before[..k]), before[k], i) {
      assert before[..k] == es[..k];
    }
  }

  /**
   A slot, live or tombstone, stays until its final frame or the end of the session; in the
   meantime only a cancellation or a second request with its id changes whether it will answer.
   */
  lemma {:induction false} SlotStays(s: State, es: seq<Event>, i: u64)
    requires IsRun(s, es) && Run(s, es).phase == Open
    requires i in s.correlated && i != 0 && NeverReleased(s, es, i)
    ensures i in Run(s, es).correlated
    ensures !CancelledIn(es, i) && Taken(es, i) == 0 ==> Run(s, es).correlated[i] == s.correlated[i]
  {
    hide Interpret, Apply;
    if es != [] {
      var before, e := es[..|es| - 1], es[|es| - 1];
      NotReleasedBefore(s, es, i);
      SlotStays(s, before, i);
      InterpretTakes(Run(s, before), e, i);
      StepLaw(Run(s, before), e, i);
      assert before + [e] == es;
      OneMoreEvent(before, e, i);
    }
  }

  // ---------------------------------------------------------------- in-flight bound

  ghost predicate Bounded(s: State) {
    |s.correlated| <= s.limits.maxInFlight && (s.limits.hello.None? ==> s.correlated == map[])
  }

  lemma StepBounded(s: State, e: Event)
    requires s.phase == Open && Bounded(s)
    ensures Bounded(Step(s, e))
  {
    hide Apply, DecodeIncoming, EncodeOutbound, EncodeFrame;
    if Correlating(s.limits) {
      InterpretNegotiated(s, e);
    }
    ApplyBounded(s, Interpret(s, e));
  }

  lemma ApplyBounded(s: State, input: Input)
    requires s.phase == Open && Bounded(s) && (input.Finish? ==> input.phase != Open)
    requires input.ById? ==> s.limits.hello.Some?
    requires Renegotiates(input) && s.limits.hello.Some? ==> input.incoming.value.limits == s.limits
    ensures Bounded(Apply(s, input))
  {
    if input.ById? {
      ByIdBounded(s, input);
    } else {
      FewerSlots(s, input);
    }
  }

  lemma FewerSlots(s: State, input: Input)
    requires s.phase == Open && Bounded(s) && (input.Finish? ==> input.phase != Open) && !input.ById?
    requires Renegotiates(input) && s.limits.hello.Some? ==> input.incoming.value.limits == s.limits
    ensures Bounded(Apply(s, input))
  {
    hide Apply;
    forall i: u64 ensures i in Apply(s, input).correlated ==> i in s.correlated {
      ApplyLaw(s, input, i);
    }
    ApplyLaw(s, input, 0);
    var slots := Apply(s, input).correlated;
    Subset(slots.Keys, s.correlated.Keys);
    assert |slots| == |slots.Keys| && |s.correlated| == |s.correlated.Keys|;
    if s.limits.hello.None? {
      assert slots.Keys == {} && slots == map[];
    }
  }

  lemma ByIdBounded(s: State, input: Input)
    requires s.phase == Open && Bounded(s) && input.ById? && s.limits.hello.Some?
    ensures Bounded(Apply(s, input))
  {
    hide ClosedAnswers;
    Larger(s.correlated, input.id, input.id !in s.canceled);
  }

  lemma Larger(m: map<u64, bool>, id: u64, live: bool)
    ensures |m[id := live]| <= |m| + 1
  {
    assert m[id := live].Keys == m.Keys + {id};
  }

  lemma {:induction false} Subset(a: set<u64>, b: set<u64>)
    requires a <= b
    ensures |a| <= |b|
    decreases a
  {
    if a != {} {
      var x :| x in a;
      Subset(a - {x}, b - {x});
    }
  }

  /** Outstanding slots, tombstones included, never exceed the limit in force. */
  lemma {:induction false} InFlightBound(generation: u64, limits: Limits, es: seq<Event>)
    requires IsRun(Start(generation, limits), es)
    ensures Bounded(Run(Start(generation, limits), es))
  {
    if es != [] {
      InFlightBound(generation, limits, es[..|es| - 1]);
      StepBounded(Run(Start(generation, limits), es[..|es| - 1]), es[|es| - 1]);
    }
  }

  // ---------------------------------------------------------------- turns of one message type

  function WrittenIds(writes: seq<Write>, t: u16): seq<u64> {
    if writes == [] then []
    else
      var w := writes[|writes| - 1];
      WrittenIds(writes[..|writes| - 1], t) + (if w.turn == NextOfType && w.messageType == t then [w.id] else [])
  }

  function ServedIds(served: seq<Served>, t: u16): seq<u64> {
    if served == [] then []
    else
      var r := served[|served| - 1];
      ServedIds(served[..|served| - 1], t) + (if r.messageType == t then [r.id] else [])
  }

  function Ids<P>(q: seq<Entry<P>>): seq<u64> {
    seq(|q|, k requires 0 <= k < |q| => q[k].id)
  }

  /** One request of a type is on the wire at a time, and replies have gone to requests in written order. */
  ghost predicate InTurn(s: State, t: u16) {
    && |QueueAt(s.pending, t)| <= 1
    && (QueueAt(s.queued, t) != [] ==> QueueAt(s.pending, t) != [])
    && (s.phase == Open ==> WrittenIds(s.writes, t) == ServedIds(s.served, t) + Ids(QueueAt(s.pending, t)))
    && ServedIds(s.served, t) <= WrittenIds(s.writes, t)
  }

  /** What a live slot was served is what its request received. */
  ghost predicate Delivered(s: State) {
    forall k :: 0 <= k < |s.served| && s.served[k].live ==> Succeeds(s.answers[s.served[k].id], s.served[k].payload)
  }

  lemma WriteTurn(s: State, r: Waiting, messageType: u16, written: bool, t: u16)
    requires s.phase == Open && |QueueAt(s.pending, t)| <= 1 && (t == messageType ==> QueueAt(s.pending, t) == [])
    requires QueueAt(s.queued, t) != [] && t != messageType ==> QueueAt(s.pending, t) != []
    requires WrittenIds(s.writes, t) == ServedIds(s.served, t) + Ids(QueueAt(s.pending, t))
    ensures InTurn(WriteUncorrelated(s, r, messageType, written), t)
  {
    var w := Written(r, messageType);
    assert (s.writes + [w])[..|s.writes|] == s.writes;
    var sent := s.(pending := s.pending[messageType := QueueAt(s.pending, messageType) + [Entry(r.id, r.live, ())]],
                   writes := s.writes + [w]);
    if t == messageType {
      assert QueueAt(sent.pending, t) == [Entry(r.id, r.live, ())];
      assert Ids(QueueAt(sent.pending, t)) == [r.id] && Ids(QueueAt(s.pending, t)) == [];
      assert WrittenIds(s.writes, t) == ServedIds(s.served, t);
    } else {
      assert QueueAt(sent.pending, t) == QueueAt(s.pending, t);
      assert WrittenIds(sent.writes, t) == WrittenIds(s.writes, t) + [];
    }
    assert InTurn(sent, t);
    assert Ids(QueueAt<()>(map[], t)) == [];
  }

  lemma CancelTurn(s: State, id: u64, at: u16, t: u16)
    requires InTurn(s, t)
    ensures InTurn(OnCancel(s, id, at), t)
  {
    hide WrittenIds, ServedIds, CancelPending, CancelQueued, Somewhere;
    CancelPendingTurn(s, id, at, t);
    CancelQueuedTurn(s, id, at, t);
  }

  lemma CancelPendingTurn(s: State, id: u64, at: u16, t: u16)
    requires InTurn(s, t)
    ensures InTurn(CancelPending(s, id, at), t)
  {
    hide WrittenIds, ServedIds, KillFirst, FirstIsLive;
    var p := QueueAt(s.pending, at);
    SameIds(p, id);
    assert Ids(KillFirst(p, id)) == Ids(p);
  }

  lemma CancelQueuedTurn(s: State, id: u64, at: u16, t: u16)
    requires InTurn(s, t)
    ensures InTurn(CancelQueued(s, id, at), t)
  {
    hide WrittenIds, ServedIds, RemoveFirst, FirstIsLive;
    ShorterQueue(QueueAt(s.queued, at), id);
  }

  lemma {:induction false} SameIds<P>(q: seq<Entry<P>>, id: u64)
    ensures |KillFirst(q, id)| == |q| && forall k :: 0 <= k < |q| ==> KillFirst(q, id)[k].id == q[k].id
  {
    if q != [] {
      SameIds(q[1..], id);
    }
  }

  lemma {:induction false} ShorterQueue<P>(q: seq<Entry<P>>, id: u64)
    ensures |RemoveFirst(q, id)| <= |q|
  {
    if q != [] {
      ShorterQueue(q[1..], id);
    }
  }

  lemma ServeTurn(s: State, messageType: u16, payload: Bytes, t: u16)
    requires s.phase == Open && InTurn(s, t) && |QueueAt(s.pending, messageType)| == 1
    ensures var served := Serve(s, messageType, payload);
            && served.phase == Open && |QueueAt(served.pending, t)| <= 1
            && QueueAt(served.pending, messageType) == []
            && (t != messageType && QueueAt(served.queued, t) != [] ==> QueueAt(served.pending, t) != [])
            && WrittenIds(served.writes, t) == ServedIds(served.served, t) + Ids(QueueAt(served.pending, t))
  {
    hide WrittenIds, ServedIds;
    var q := QueueAt(s.pending, messageType);
    assert q[1..] == [] && Ids(q[1..]) == [] && Ids(q) == [q[0].id];
    OneMoreServed(s.served, Served(messageType, q[0].id, payload, q[0].live), t);
  }

  lemma OneMoreServed(served: seq<Served>, r: Served, t: u16)
    ensures ServedIds(served + [r], t) == ServedIds(served, t) + (if r.messageType == t then [r.id] else [])
  {
    assert (served + [r])[..|served|] == served;
  }

  lemma DispatchTurn(s: State, messageType: u16, payload: Bytes, follows: bool, t: u16)
    requires s.phase == Open && InTurn(s, t) && InTurn(s, messageType)
    ensures InTurn(OnUncorrelated(s, messageType, payload, follows), t)
  {
    hide Serve, WriteUncorrelated;
    if QueueAt(s.pending, messageType) != [] {
      var done := Serve(s, messageType, payload);
      ServeTurn(s, messageType, payload, t);
      ServeKeeps(s, messageType, payload);
      var waiting := QueueAt(done.queued, messageType);
      if waiting != [] {
        WriteTurn(done.(queued := done.queued[messageType := waiting[1..]]), waiting[0], messageType, follows, t);
      }
    }
  }

  lemma ServeKeeps(s: State, messageType: u16, payload: Bytes)
    requires QueueAt(s.pending, messageType) != []
    ensures Serve(s, messageType, payload).queued == s.queued
  {
  }

  lemma FailAllTurn(s: State, phase: Phase, t: u16)
    requires InTurn(s, t) && phase != Open
    ensures InTurn(FailAll(s, phase), t)
  {
  }

  lemma OtherWrite(s: State, w: Write, t: u16)
    requires w.turn != NextOfType
    ensures WrittenIds(s.writes + [w], t) == WrittenIds(s.writes, t)
  {
    assert (s.writes + [w])[..|s.writes|] == s.writes;
  }

  lemma TakeTurn(s: State, r: Waiting, messageType: u16, written: bool, t: u16)
    requires s.phase == Open && InTurn(s, t) && InTurn(s, messageType)
    ensures InTurn(TakeByType(s, r, messageType, written), t)
  {
    if QueueAt(s.pending, messageType) == [] {
      assert Ids(QueueAt(s.pending, messageType)) == [];
      WriteTurn(s, r, messageType, written, t);
    }
  }

  lemma ApplyTurn(s: State, input: Input, t: u16)
    requires s.phase == Open && (input.Finish? ==> input.phase != Open) && forall u: u16 :: InTurn(s, u)
    ensures InTurn(Apply(s, input), t)
  {
    hide InTurn, WrittenIds, ServedIds, FailAll, OnUncorrelated, TakeByType, TakeById, SendFrame, OnCancel;
    assert InTurn(s, t);
    match input
    case Stale(id) => AnswerTurn(s, id, true, Failure(ConnectionClosed), t);
    case ById(id, generation, messageType, frame, written) =>
      TakeInTurn(s, id, t);
      ByIdTurn(TakeIn(s, id), id, id !in s.canceled, generation, messageType, frame, written, t);
    case ByType(request, messageType, written) =>
      assert InTurn(s, messageType);
      TakeInTurn(s, request.id, t);
      TakeInTurn(s, request.id, messageType);
      TakeTurn(TakeIn(s, request.id), request, messageType, written, t);
    case OneWay(id, generation, messageType, frame, written) => OneWayTurn(s, input, t);
    case CancelId(id, at) => CancelTurn(s, id, at, t);
    case Received(incoming, follows) => ReceivedTurn(s, input, t);
    case Nothing =>
    case Finish(phase) => FailAllTurn(s, phase, t);
  }

  lemma AnswerTurn(s: State, id: u64, live: bool, o: Outcome, t: u16)
    requires InTurn(s, t)
    ensures InTurn(Answer(s, id, live, o), t)
  {
  }

  lemma TakeInTurn(s: State, id: u64, t: u16)
    requires InTurn(s, t)
    ensures InTurn(TakeIn(s, id), t)
  {
  }

  lemma ByIdTurn(
    s: State, id: u64, live: bool, generation: u64, messageType: u16, frame: Result<Bytes>, written: bool, t: u16)
    requires s.phase == Open && InTurn(s, t)
    ensures InTurn(TakeById(s, id, live, generation, messageType, frame, written), t)
  {
    hide WrittenIds, ServedIds, FailAll, Ids;
    var w := Write(id, generation, messageType, OwnId, frame);
    OtherWrite(s, w, t);
    FailAllTurn(s.(correlated := s.correlated[id := live], writes := s.writes + [w]), Disconnected, t);
  }

  lemma OneWayTurn(s: State, input: Input, t: u16)
    requires s.phase == Open && InTurn(s, t) && input.OneWay?
    ensures InTurn(Apply(s, input), t)
  {
    hide WrittenIds, ServedIds;
    OtherWrite(s, Write(input.id, input.generation, input.messageType, Unanswered, input.frame), t);
  }

  lemma ReceivedTurn(s: State, input: Input, t: u16)
    requires s.phase == Open && input.Received? && forall u: u16 :: InTurn(s, u)
    ensures InTurn(Apply(s, input), t)
  {
    hide WrittenIds, ServedIds, FailAll, OnUncorrelated;
    assert InTurn(s, t);
    FailAllTurn(s, Disconnected, t);
    if input.incoming.Ok? && input.incoming.value.Record? && input.incoming.value.correlationId == 0 {
      var r := input.incoming.value;
      assert InTurn(s, r.messageType);
      DispatchTurn(s, r.messageType, r.payload, input.follows, t);
    }
  }

  lemma StepTurn(s: State, e: Event, t: u16)
    requires s.phase == Open && forall u: u16 :: InTurn(s, u)
    ensures InTurn(Step(s, e), t)
  {
    hide Apply, InTurn, DecodeIncoming, EncodeOutbound, EncodeFrame;
    ApplyTurn(s, Interpret(s, e), t);
  }

  lemma StepDelivered(s: State, e: Event)
    requires s.phase == Open && Delivered(s)
    ensures Delivered(Step(s, e))
  {
    hide Interpret, OnIncoming;
    forall id: u64 ensures s.answers[id] <= Step(s, e).answers[id] {
      StepLaw(s, e, id);
    }
    StepLaw(s, e, 0);
    if Interpret(s, e).Received? {
      IncomingServes(s, Interpret(s, e).incoming, Interpret(s, e).follows);
    }
  }

  /** A reply served to a live slot is the last answer its request has. */
  lemma IncomingServes(s: State, incoming: Result<Incoming>, follows: bool)
    requires s.phase == Open
    ensures Serves(s, OnIncoming(s, incoming, follows))
  {
  }

  ghost predicate Serves(s: State, s': State) {
    || s'.served == s.served
    || (|s'.served| == |s.served| + 1 && s'.served[..|s.served|] == s.served
        && var r := s'.served[|s.served|];
           r.live ==> Succeeds(s'.answers[r.id], r.payload))
  }

  /**
   Without a negotiated version the k-th reply of a type goes to the k-th request written for it,
   whatever was cancelled, and reaches that request if it still listens.
   */
  lemma {:induction false} RepliesInTurn(generation: u64, limits: Limits, es: seq<Event>)
    requires IsRun(Start(generation, limits), es)
    ensures var s := Run(Start(generation, limits), es);
            (forall t: u16 :: InTurn(s, t)) && Delivered(s)
  {
    var start := Start(generation, limits);
    if es == [] {
      forall t: u16 ensures InTurn(start, t) {
        assert Ids(QueueAt(start.pending, t)) == [];
      }
    } else {
      var before, e := Run(start, es[..|es| - 1]), es[|es| - 1];
      RepliesInTurn(generation, limits, es[..|es| - 1]);
      forall t: u16 ensures InTurn(Step(before, e), t) {
        StepTurn(before, e, t);
      }
      StepDelivered(before, e);
    }
  }
}
