/**
 When the lease observer's task ends, where a pass that fails leaves it, and that it can always recover
 until it ends (src/client_domains/lease.rs, `observe_loop` and `steady_state`).
 */
module ObserverEnds {
  import opened Errors
  import opened LeasePages
  import opened LeaseObserver
  import opened ObserverLaws

  // ---------------------------------------------------------------- the end

  /** A shutdown, or a client that has been closed when the task lists or subscribes. */
  predicate Ends(e: Event) {
    e == Shutdown || e == ListError(Closed) || e == ResubscribeError(Closed)
  }

  lemma StepEnds(s: State, e: Event)
    requires Enabled(s, e)
    ensures Step(s, e).o.pc.Done? <==> s.o.pc.Done? || Ends(e)
  {
    hide Happen, Act;
    if !FromOutside(e) {
      ActEnds(s, e);
    }
  }

  lemma ActEnds(s: State, e: Event)
    requires CanAct(s, e)
    ensures !s.o.pc.Done? && (Act(s, e).o.pc.Done? <==> Ends(e))
  {
    hide Insert, PollResult, OnDrain, OnNotification;
    if e.Poll? {
      PollContinues(s);
    }
  }

  lemma PollContinues(s: State)
    requires s.o.pc.Draining? || s.o.pc.Idle?
    ensures if s.o.pc.Draining? then !OnDrain(s).o.pc.Done? else !OnNotification(s).o.pc.Done?
  {
    hide PollResult;
  }

  ghost predicate EndedBy(s: State, es: seq<Event>, k: nat) {
    k < |es| && Enabled(Run(s, es[..k]), es[k]) && Ends(es[k])
  }

  /** In every run the task has ended if and only if one of those three things has happened to it. */
  lemma {:induction false} EndsOnlyWhenClosed(s: State, es: seq<Event>)
    requires Starts(s)
    ensures Run(s, es).o.pc.Done? <==> exists k: nat :: EndedBy(s, es, k)
  {
    hide Step, Enabled, Ends, Starts;
    if es == [] {
      StartsOutside(s);
    } else {
      var front, e := es[..|es| - 1], es[|es| - 1];
      EndsOnlyWhenClosed(s, front);
      forall k: nat ensures EndedBy(s, front, k) <==> k < |front| && EndedBy(s, es, k) {
        if k < |front| {
          assert front[..k] == es[..k];
        }
      }
      if Enabled(Run(s, front), e) {
        StepEnds(Run(s, front), e);
      }
      assert EndedBy(s, es, |front|) <==> Enabled(Run(s, front), e) && Ends(e);
      assert forall k: nat :: EndedBy(s, es, k) ==> k == |front| || EndedBy(s, front, k);
    }
  }

  lemma StartsOutside(s: State)
    requires Starts(s)
    ensures !Run(s, []).o.pc.Done?
  {
  }

  // ---------------------------------------------------------------- a pass that fails

  /** The kinds of failure of a pass: a closed client, a subscription that is lost, and any other. */
  datatype Fault = ClientClosed | SubscriptionLost | Other

  function FaultOf(error: Error): Fault {
    match error
    case Closed => ClientClosed
    case Backpressure | ConnectionClosed => SubscriptionLost
    case _ => Other
  }

  /** Where the task stands after a pass for `mode` has failed, and what it then shows. */
  predicate StandsAfter(s: State, s': State, mode: Mode, fault: Fault) {
    && s'.o.view == s.o.view && s'.o.viewVersion == s.o.viewVersion && s'.o.baseline == s.o.baseline
    && match fault
       case ClientClosed => s'.o.pc.Done? && s'.o.ready == s.o.ready
       case SubscriptionLost => s'.o.pc == Replacing(mode.Boot?) && !s'.o.ready && !s'.w.registered && s'.w.active == None
       case Other =>
         match mode
         case Boot => s'.o.pc == TakeEpoch(Boot) && s'.o.ready == s.o.ready
         case Notified => s'.o.pc == Outer && !s'.o.ready
         case Periodic => s'.o.pc == Idle && s'.o.ready == s.o.ready
  }

  /**
   A LIST that fails: bootstrap lists again, a pass for a notification starts over, a periodic one goes back to
   waiting, and a lost subscription is replaced whatever the pass was for.
   */
  lemma FailedList(s: State, mode: Mode, error: Error)
    requires s.o.pc.Listing? && s.o.pc.mode == mode
    ensures StandsAfter(s, Step(s, ListError(error)), mode, FaultOf(error))
  {
  }

  /** A buffer that overflowed costs the subscription, and a notification that cannot be read fails the pass. */
  lemma FailedDrain(s: State, mode: Mode)
    requires s.o.pc.Draining? && s.o.pc.mode == mode
    ensures s.w.lagged ==> StandsAfter(s, Step(s, Poll), mode, SubscriptionLost)
    ensures !s.w.lagged && s.w.buffer != [] && (s.w.buffer[0].Short? || (s.w.buffer[0].sid == s.w.sid && !s.w.buffer[0].readable)) ==>
              StandsAfter(s, Step(s, Poll), mode, Other)
  {
  }

  /** In the steady state either of them costs the subscription. */
  lemma FailedNotification(s: State)
    requires s.o.pc.Idle?
    requires s.w.lagged
             || (s.w.buffer != [] && (s.w.buffer[0].Short? || (s.w.buffer[0].sid == s.w.sid && !s.w.buffer[0].readable)))
    ensures StandsAfter(s, Step(s, Poll), Notified, SubscriptionLost)
  {
  }

  // ---------------------------------------------------------------- recovery

  lemma {:induction false} Emptied(s: State, es: seq<Event>) returns (more: seq<Event>, r: State)
    requires Starts(s) && Run(s, es).o.pc.Draining?
    ensures es <= more && r == Run(s, more) && r.w.history == Run(s, es).w.history
    ensures !r.o.pc.Draining? && !r.o.pc.Listing? && !r.o.pc.Done?
    decreases |Run(s, es).w.buffer|, Run(s, es).w.lagged
  {
    hide Run, Starts;
    more, r := Extend(s, es, Poll);
    if r.o.pc.Draining? {
      more, r := Emptied(s, more);
    }
  }

  /** How far the task is from a LIST. */
  function Distance(pc: Pc): nat {
    match pc
    case TakeEpoch(_) => 1
    case Outer | Idle => 2
    case Checking => 3
    case Installing(_, _, _, _) => 4
    case Draining(_, _, _, _, _) => 5
    case _ => 0
  }

  function Onwards(pc: Pc): Event {
    match pc
    case TakeEpoch(_) => ReadEpoch
    case Outer => Begin
    case Idle => Tick
    case Checking => CheckGeneration
    case _ => Install
  }

  lemma StepNearer(s: State)
    requires 0 < Distance(s.o.pc) < 5
    ensures var e := Onwards(s.o.pc);
            && Enabled(s, e) && Step(s, e).w == s.w
            && Distance(Step(s, e).o.pc) < Distance(s.o.pc) && !Step(s, e).o.pc.Done?
  {
  }

  /** Whatever the task is doing, it can come to list. */
  lemma {:induction false} ReachesList(s: State, es: seq<Event>) returns (more: seq<Event>, r: State)
    requires Starts(s) && !Run(s, es).o.pc.Done?
    ensures es <= more && r == Run(s, more) && r.w.history == Run(s, es).w.history
    ensures r.o.pc.Listing? || r.o.pc.Replacing?
    decreases Distance(Run(s, es).o.pc)
  {
    hide Run, Starts, Step, Enabled, Onwards;
    more, r := es, Run(s, es);
    if r.o.pc.Draining? {
      more, r := Emptied(s, more);
      more, r := ReachesList(s, more);
    } else if Distance(r.o.pc) > 0 {
      StepNearer(r);
      more, r := Extend(s, more, Onwards(r.o.pc));
      more, r := ReachesList(s, more);
    }
  }

  lemma LinkComesUp(s: State, es: seq<Event>) returns (more: seq<Event>, r: State)
    requires Starts(s) && Run(s, es).o.pc.Replacing?
    ensures es <= more && r == Run(s, more) && r.w.history == Run(s, es).w.history && r.o == Run(s, es).o
    ensures r.w.link == Up && r.w.between.None? && r.w.generation >= Run(s, es).w.generation
  {
    hide Run, Starts;
    more, r := es, Run(s, es);
    if r.w.between.Some? {
      more, r := Extend(s, more, Broadcast);
    }
    if r.w.link == Lost {
      more, r := Extend(s, more, Advance);
    }
    if r.w.link == Down {
      more, r := Extend(s, more, Reconnect(r.w.sid));
    }
  }

  /** A subscription that is being replaced is replaced in a new session with nothing left on its way. */
  lemma Replaced(s: State, es: seq<Event>) returns (more: seq<Event>, r: State)
    requires Starts(s) && Run(s, es).o.pc.Replacing?
    ensures es <= more && r == Run(s, more) && r.w.history == Run(s, es).w.history
    ensures r.o.pc == (if Run(s, es).o.pc.boot then TakeEpoch(Boot) else Outer)
    ensures !r.o.ready && r.o.baseline < r.w.generation
    ensures r.w.history != [] && r.w.link == Up && r.w.active == Some(r.w.sid) && r.w.registered
    ensures r.w.net == [] && r.w.between == None && r.w.buffer == [] && !r.w.lagged
  {
    hide Run, Starts;
    ReplacingIsNotReady(s, es);
    more, r := LinkComesUp(s, es);
    more, r := Extend(s, more, Break);
    more, r := Extend(s, more, Advance);
    more, r := Extend(s, more, Reconnect(r.w.sid));
    more, r := Extend(s, more, Resubscribe(r.w.sid));
  }

  lemma ReplacingIsNotReady(s: State, es: seq<Event>)
    requires Starts(s) && Run(s, es).o.pc.Replacing?
    ensures !Run(s, es).o.ready && Run(s, es).o.baseline <= Run(s, es).w.generation && Run(s, es).w.history != []
  {
    hide Run;
    RunKeepsInv(s, es);
  }

  /** A bootstrap whose session is over starts again. */
  lemma BackToOuter(s: State, es: seq<Event>) returns (more: seq<Event>, r: State)
    requires Starts(s)
    requires var q := Run(s, es);
             && q.o.pc == TakeEpoch(Boot) && !q.o.ready && q.o.baseline < q.w.generation && q.w.history != [] && q.w.link == Up
             && q.w.buffer == [] && !q.w.lagged
    ensures es <= more && r == Run(s, more) && r.w == Run(s, es).w
    ensures r.o.pc == Outer && !r.o.ready && r.o.baseline < r.w.generation
  {
    hide Run, Insert, Inventory, Starts;
    more, r := ListAll(s, es);
    more, r := Extend(s, more, Poll);
    more, r := Extend(s, more, Install);
    more, r := Extend(s, more, CheckGeneration);
  }

  /**
   From every reachable state in which the task has not ended there is a continuation, in which the inventory
   does not change, to an idle observer that is ready and shows it.
   */
  lemma CanAlwaysRecover(s: State, es: seq<Event>) returns (more: seq<Event>)
    requires Starts(s) && !Run(s, es).o.pc.Done?
    ensures es <= more && Run(s, more).w.history == Run(s, es).w.history
    ensures Run(s, more).o.pc.Idle? && Run(s, more).o.ready && Healed(Run(s, more))
  {
    hide Run, Insert, Inventory;
    var r := Run(s, es);
    more := es;
    if !r.o.pc.Replacing? {
      more, r := ReachesList(s, more);
      if r.o.pc.Listing? {
        more, r := Extend(s, more, ListError(ConnectionClosed));
      }
    }
    more, r := Replaced(s, more);
    if r.o.pc.TakeEpoch? {
      more, r := BackToOuter(s, more);
    }
    var last, healed := Bootstrap(r);
    RunSplit(s, more, last);
    more := more + last;
  }
}
