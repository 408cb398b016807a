/** The session loop's own state, changed in place, with each handler proved against its step. */
module SessionLoop {
  import opened ByteStrings
  import opened Errors
  import opened Frames
  import opened Multiplexer
  import opened SessionTables

  class Session {
    const generation: u64
    var limits: Limits
    var correlated: map<u64, bool>
    var pending: Table<()>
    var queued: Table<Parked>
    var canceled: set<u64>
    var phase: Phase
    ghost var answers: Answers
    ghost var dropped: multiset<u64>
    ghost var writes: seq<Write>
    ghost var served: seq<Served>
    ghost var published: seq<Notice>

    ghost function View(): State
      reads this
    {
      State(generation, limits, correlated, pending, queued, canceled, phase, answers, dropped, writes, served, published)
    }

    constructor (generation: u64, limits: Limits)
      ensures View() == Start(generation, limits)
    {
      this.generation := generation;
      this.limits := limits;
      correlated, pending, queued, canceled, phase := map[], map[], map[], {}, Open;
      answers, dropped, writes, served, published := imap i: u64 {:trigger} :: [], multiset{}, [], [], [];
    }

    /** Uses up a response sender, if the slot still has one. */
    method Respond(id: u64, live: bool, o: Outcome)
      modifies this`answers
      ensures View() == Answer(old(View()), id, live, o)
      ensures answers == if live then old(answers)[id := old(answers)[id] + [o]] else old(answers)
    {
      if live {
        answers := answers[id := answers[id] + [o]];
      }
    }

    method HandleRequest(id: u64, generation: u64, messageType: u16, flags: byte, payload: Bytes, written: bool)
      requires phase == Open
      modifies this
      ensures View() == Step(old(View()), Request(id, generation, messageType, flags, payload, written))
    {
      hide EncodeOutbound, EncodeFrame, TakeById, TakeByType;
      if generation != this.generation {
        Respond(id, true, Failure(ConnectionClosed));
        return;
      }
      var live := id !in canceled;
      canceled := canceled - {id};
      if !live {
        dropped := dropped + multiset{id};
      }
      if limits.hello.Some? {
        var frame := EncodeOutbound(limits, messageType, flags, id, payload);
        HandleById(id, live, generation, messageType, frame, written);
      } else {
        HandleByType(Entry(id, live, Parked(generation, payload)), messageType, written);
      }
    }

    method HandleById(id: u64, live: bool, ghost stamp: u64, messageType: u16, frame: Result<Bytes>, written: bool)
      modifies this
      ensures View() == TakeById(old(View()), id, live, stamp, messageType, frame, written)
    {
      if |correlated| >= limits.maxInFlight {
        Respond(id, live, Failure(Backpressure));
        return;
      }
      if frame.Err? {
        Respond(id, live, Failure(frame.error));
        return;
      }
      correlated := correlated[id := live];
      writes := writes + [Write(id, stamp, messageType, OwnId, frame)];
      if !written {
        FailEverything(Disconnected);
      }
    }

    method HandleByType(r: Waiting, messageType: u16, written: bool)
      modifies this
      ensures View() == TakeByType(
                old(View()), r, messageType, written && EncodeFrame(messageType, 0, 0, r.payload.payload).Ok?)
    {
      if messageType in pending && pending[messageType] != [] {
        var waiting := if messageType in queued then queued[messageType] else [];
        queued := queued[messageType := waiting + [r]];
      } else {
        PutOnWire(r, messageType, written);
      }
    }

    method PutOnWire(r: Waiting, messageType: u16, written: bool)
      modifies this
      ensures View() == WriteUncorrelated(
                old(View()), r, messageType, written && EncodeFrame(messageType, 0, 0, r.payload.payload).Ok?)
    {
      var slots := if messageType in pending then pending[messageType] else [];
      pending := pending[messageType := slots + [Entry(r.id, r.live, ())]];
      var frame := TryEncodeFrame(messageType, 0, 0, r.payload.payload);
      writes := writes + [Write(r.id, r.payload.generation, messageType, NextOfType, frame)];
      if frame.Err? || !written {
        FailEverything(Disconnected);
      }
    }

    method HandleSend(id: u64, generation: u64, messageType: u16, payload: Bytes, written: bool)
      requires phase == Open
      modifies this
      ensures View() == Step(old(View()), Send(id, generation, messageType, payload, written))
    {
      hide EncodeOutbound, SendCorrelationId, SendFrame;
      if generation != this.generation {
        Respond(id, true, Failure(ConnectionClosed));
        return;
      }
      var correlationId := SendCorrelationId(messageType, payload, id);
      var frame := EncodeOutbound(limits, messageType, 0, correlationId, payload);
      SendOneWay(id, generation, messageType, frame, written);
    }

    method SendOneWay(id: u64, ghost stamp: u64, messageType: u16, frame: Result<Bytes>, written: bool)
      modifies this
      ensures View() == SendFrame(old(View()), id, stamp, messageType, frame, written)
    {
      var result := Sent;
      if frame.Err? {
        result := Failure(frame.error);
      } else {
        writes := writes + [Write(id, stamp, messageType, Unanswered, frame)];
        if !written {
          result := Failure(Transport);
        }
      }
      Respond(id, true, result);
    }

    /** `cancel_pending`: the maps are searched in no particular order. */
    method Find<P>(m: Table<P>, id: u64) returns (at: u16, found: bool)
      ensures found <==> Somewhere(m, id)
      ensures found ==> at in m && HasId(m[at], id)
    {
      var todo := m.Keys;
      found, at := false, 0;
      while todo != {}
        invariant todo <= m.Keys
        invariant forall t :: t in m && t !in todo ==> !HasId(m[t], id)
        decreases |todo|
      {
        var t :| t in todo;
        if HasId(m[t], id) {
          return t, true;
        }
        todo := todo - {t};
      }
    }

    method HandleCancel(id: u64) returns (ghost at: u16)
      requires phase == Open
      modifies this
      ensures CancelFinds(old(View()), id, at)
      ensures View() == Step(old(View()), Cancel(id, at))
    {
      at := CancelAnywhere(id);
    }

    /** `cancel_all_pending`, and the mark left when the request has not come yet. */
    method CancelAnywhere(id: u64) returns (ghost at: u16)
      modifies this
      ensures CancelFinds(old(View()), id, at)
      ensures View() == OnCancel(old(View()), id, at)
    {
      at := 0;
      if id in correlated {
        if correlated[id] {
          dropped := dropped + multiset{id};
        }
        correlated := correlated[id := false];
        return;
      }
      var t, found := Find(pending, id);
      if found {
        at := t;
        KillPending(id, t);
        return;
      }
      t, found := Find(queued, id);
      if found {
        at := t;
        RemoveQueued(id, t);
        return;
      }
      canceled := canceled + {id};
    }

    method KillPending(id: u64, t: u16)
      requires t in pending
      modifies this
      ensures View() == CancelPending(old(View()), id, t)
    {
      if FirstIsLive(pending[t], id) {
        dropped := dropped + multiset{id};
      }
      pending := pending[t := KillFirst(pending[t], id)];
    }

    method RemoveQueued(id: u64, t: u16)
      requires t in queued
      modifies this
      ensures View() == CancelQueued(old(View()), id, t)
    {
      if FirstIsLive(queued[t], id) {
        dropped := dropped + multiset{id};
      }
      queued := queued[t := RemoveFirst(queued[t], id)];
    }

    method HandleFrame(bytes: Bytes, written: bool)
      requires phase == Open
      modifies this
      ensures View() == Step(old(View()), Frame(bytes, written))
    {
      hide DecodeIncoming, OnIncoming, FollowsIncoming, ClosedAnswers;
      var incoming := DecodeIncoming(limits, bytes);
      HandleIncoming(incoming, written);
    }

    method HandleIncoming(incoming: Result<Incoming>, written: bool)
      modifies this
      ensures View() == OnIncoming(
                old(View()), incoming, FollowsIncoming(old(View()), incoming, written))
    {
      match incoming
      case Err(_) => FailEverything(Disconnected);
      case Ok(Control(renewed)) => limits := renewed;
      case Ok(Record(messageType, payload, correlationId, final)) =>
        if correlationId != 0 {
          DispatchCorrelated(correlationId, payload, final);
        } else {
          Dispatch(messageType, payload, written);
        }
    }

    method DispatchCorrelated(correlationId: u64, payload: Bytes, final: bool)
      modifies this
      ensures View() == OnCorrelated(old(View()), correlationId, payload, final)
    {
      if correlationId !in correlated {
        FailEverything(Disconnected);
      } else if final {
        var live := correlated[correlationId];
        correlated := correlated - {correlationId};
        Respond(correlationId, live, Success(payload));
      }
    }

    method Dispatch(messageType: u16, payload: Bytes, written: bool)
      modifies this
      ensures View() == OnUncorrelated(old(View()), messageType, payload, Follows(old(View()), messageType, written))
    {
      if messageType !in pending || pending[messageType] == [] {
        published := published + [Notice(messageType, payload)];
        return;
      }
      ServeNext(messageType, payload);
      WriteNext(messageType, written);
    }

    method ServeNext(messageType: u16, payload: Bytes)
      requires QueueAt(pending, messageType) != []
      modifies this
      ensures View() == Serve(old(View()), messageType, payload)
    {
      var slot := pending[messageType][0];
      pending := pending[messageType := pending[messageType][1..]];
      Respond(slot.id, slot.live, Success(payload));
      served := served + [Served(messageType, slot.id, payload, slot.live)];
    }

    method WriteNext(messageType: u16, written: bool)
      modifies this
      ensures View() == FollowUp(old(View()), messageType, Follows(old(View()), messageType, written))
    {
      if messageType in queued && queued[messageType] != [] {
        var next := queued[messageType][0];
        queued := queued[messageType := queued[messageType][1..]];
        PutOnWire(next, messageType, written);
      }
    }

    /** The command channel was closed, by a Close command or by dropping every client. */
    method HandleClose()
      requires phase == Open
      modifies this
      ensures View() == Step(old(View()), Close) == Step(old(View()), ChannelEnd)
    {
      hide ClosedAnswers;
      FailEverything(Ended);
    }

    method HandleReadError()
      requires phase == Open
      modifies this
      ensures View() == Step(old(View()), ReadError)
    {
      hide ClosedAnswers;
      FailEverything(Disconnected);
    }

    /** `fail_all`, in whatever order the maps are drained. */
    method FailEverything(outcome: Phase)
      modifies this
      ensures View() == FailAll(old(View()), outcome)
    {
      DrainAll();
      phase := outcome;
    }

    method DrainAll()
      modifies this`pending, this`correlated, this`queued, this`answers
      ensures pending == map[] && correlated == map[] && queued == map[]
      ensures answers == ClosedAnswers(old(View()))
    {
      ghost var start := View();
      SettledAtStart(start);
      DrainPending(start);
      DrainCorrelated(start);
      DrainQueued(start);
      SettledInFull(start, answers);
    }

    method DrainPending(ghost start: State)
      requires Settled(start, answers, correlated, pending, queued)
      modifies this`pending, this`answers
      ensures Settled(start, answers, correlated, pending, queued) && pending == map[]
    {
      while pending != map[]
        invariant Settled(start, answers, correlated, pending, queued)
        decreases |pending|
      {
        var t :| t in pending;
        ghost var keys := pending.Keys;
        DrainPendingAt(start, t);
        SettledWithout(start, answers, correlated, pending, queued, t);
        SmallerWithout(pending, t, keys);
        pending := pending - {t};
      }
    }

    method DrainPendingAt(ghost start: State, t: u16)
      requires Settled(start, answers, correlated, pending, queued) && t in pending
      modifies this`pending, this`answers
      ensures Settled(start, answers, correlated, pending, queued)
      ensures pending.Keys == old(pending).Keys && pending[t] == []
    {
      hide View, Settled;
      while pending[t] != []
        invariant pending.Keys == old(pending).Keys
        invariant Settled(start, answers, correlated, pending, queued)
        decreases |pending[t]|
      {
        SettlePending(start, answers, correlated, pending, queued, t);
        var slot := pending[t][0];
        pending := pending[t := pending[t][1..]];
        Respond(slot.id, slot.live, Failure(ConnectionClosed));
      }
    }

    method DrainCorrelated(ghost start: State)
      requires Settled(start, answers, correlated, pending, queued)
      modifies this`correlated, this`answers
      ensures Settled(start, answers, correlated, pending, queued) && correlated == map[]
    {
      while correlated != map[]
        invariant Settled(start, answers, correlated, pending, queued)
        decreases |correlated|
      {
        var id :| id in correlated;
        SettleCorrelated(start, answers, correlated, pending, queued, id);
        FewerCorrelated(correlated, id);
        var live := correlated[id];
        correlated := correlated - {id};
        Respond(id, live, Failure(ConnectionClosed));
      }
    }

    method DrainQueued(ghost start: State)
      requires Settled(start, answers, correlated, pending, queued)
      modifies this`queued, this`answers
      ensures Settled(start, answers, correlated, pending, queued) && queued == map[]
    {
      while queued != map[]
        invariant Settled(start, answers, correlated, pending, queued)
        decreases |queued|
      {
        var t :| t in queued;
        ghost var keys := queued.Keys;
        DrainQueuedAt(start, t);
        SettledWithout(start, answers, correlated, pending, queued, t);
        SmallerWithout(queued, t, keys);
        queued := queued - {t};
      }
    }

    method DrainQueuedAt(ghost start: State, t: u16)
      requires Settled(start, answers, correlated, pending, queued) && t in queued
      modifies this`queued, this`answers
      ensures Settled(start, answers, correlated, pending, queued)
      ensures queued.Keys == old(queued).Keys && queued[t] == []
    {
      hide View, Settled;
      while queued[t] != []
        invariant queued.Keys == old(queued).Keys
        invariant Settled(start, answers, correlated, pending, queued)
        decreases |queued[t]|
      {
        SettleQueued(start, answers, correlated, pending, queued, t);
        var slot := queued[t][0];
        queued := queued[t := queued[t][1..]];
        Respond(slot.id, slot.live, Failure(ConnectionClosed));
      }
    }
  }

  lemma FewerCorrelated(m: map<u64, bool>, id: u64)
    requires id in m
    ensures |m - {id}| < |m|
  {
    assert (m - {id}).Keys == m.Keys - {id};
  }

  lemma SmallerWithout<P>(m: Table<P>, t: u16, keys: set<u16>)
    requires t in m && m.Keys == keys
    ensures |m - {t}| < |keys| == |m|
  {
    assert (m - {t}).Keys == keys - {t};
  }
}
