/**
 Acquires that wait on one connection (src/client_domains/lease.rs, `acquire`). A grant that is not given
 at once comes as a LEASE_ACQUIRE notification with neither a route nor a correlation, and each waiting
 acquire takes the first one dispatched since it subscribed. Which acquire the broker meant is noted beside
 every notification; the program does not see it.
 */
module LeaseAcquires {
  import opened ByteStrings
  import opened Errors
  import opened LeaseTokens

  /** The capacity of the broadcast channel; a subscriber further behind has lost its first entry. */
  const CAPACITY := 16

  datatype Phase =
    | Asking
    | Waiting(reply: Bytes)
    | Done(result: Result<u64>)
    | Forgotten

  /** `start` counts the completions dispatched before it subscribed; `took` says that it read the one after them. */
  datatype Acquiring = Acquiring(client: nat, route: Bytes, wait: u32, start: nat, phase: Phase, took: bool)

  datatype Completion = Completion(owner: nat, payload: Bytes)

  /** `open` holds the acquires for which the broker may still send a completion. */
  datatype State = State(acquires: seq<Acquiring>, open: set<nat>, stream: seq<Completion>)

  datatype Event =
    | Begin(client: nat, route: Bytes, wait: u32)
    | Answer(a: nat, reply: Reply)
    | Complete(owner: nat, payload: Bytes)
    | Take(a: nat)
    | Forget(a: nat)

  predicate InProgress(q: Acquiring) {
    q.phase.Asking? || q.phase.Waiting?
  }

  /** `acquisition_gate` */
  predicate GateIsFree(s: State, client: nat) {
    forall a :: 0 <= a < |s.acquires| && s.acquires[a].client == client ==> !InProgress(s.acquires[a])
  }

  predicate Queued(reply: Reply) {
    reply.Ok? && [0, 2] <= reply.value
  }

  predicate Enabled(s: State, e: Event) {
    match e
    case Begin(client, _, _) => GateIsFree(s, client)
    case Answer(a, _) => a < |s.acquires| && s.acquires[a].phase.Asking?
    case Complete(owner, _) => owner in s.open
    case Take(a) => a < |s.acquires| && s.acquires[a].phase.Waiting? && s.acquires[a].start < |s.stream|
    case Forget(a) => a < |s.acquires| && InProgress(s.acquires[a])
  }

  /** An answer other than "queued" settles the call at the broker; a failed wait for the answer does not. */
  function OnAnswer(s: State, a: nat, reply: Reply): State
    requires a < |s.acquires|
  {
    var q := s.acquires[a];
    var phase := if Queued(reply) && q.wait > 0 then Waiting(reply.value) else Done(Granted(q.wait, reply, Err(ConnectionClosed)));
    State(s.acquires[a := q.(phase := phase)], if reply.Ok? && !Queued(reply) then s.open - {a} else s.open, s.stream)
  }

  /** `deferred.recv()` */
  function OnTake(s: State, a: nat): State
    requires Enabled(s, Take(a))
  {
    var q := s.acquires[a];
    var lags := |s.stream| - q.start > CAPACITY;
    var deferred := if lags then Err(ConnectionClosed) else Ok(s.stream[q.start].payload);
    s.(acquires := s.acquires[a := q.(phase := Done(Granted(q.wait, Ok(q.phase.reply), deferred)), took := !lags)])
  }

  function Step(s: State, e: Event): State
    requires Enabled(s, e)
  {
    match e
    case Begin(client, route, wait) =>
      State(s.acquires + [Acquiring(client, route, wait, |s.stream|, Asking, false)], s.open + {|s.acquires|}, s.stream)
    case Answer(a, reply) => OnAnswer(s, a, reply)
    case Complete(owner, payload) => s.(stream := s.stream + [Completion(owner, payload)], open := s.open - {owner})
    case Take(a) => OnTake(s, a)
    case Forget(a) => s.(acquires := s.acquires[a := s.acquires[a].(phase := Forgotten)])
  }

  /** The state after these events; one that cannot happen where it stands is passed over. */
  function Run(es: seq<Event>): State {
    if es == [] then State([], {}, [])
    else
      var before, e := Run(es[..|es| - 1]), es[|es| - 1];
      if Enabled(before, e) then Step(before, e) else before
  }

  // ---------------------------------------------------------------- one acquire

  /** While `a` waits for its first completion, one that is not its own is dispatched. */
  predicate Crosses(s: State, e: Event, a: nat) {
    && e.Complete? && e.owner in s.open && e.owner != a
    && a < |s.acquires| && InProgress(s.acquires[a]) && s.acquires[a].start == |s.stream|
  }

  ghost predicate Crossed(es: seq<Event>, a: nat) {
    exists k :: 0 <= k < |es| && Crosses(Run(es[..k]), es[k], a)
  }

  lemma CrossedMore(es: seq<Event>, a: nat)
    requires es != []
    ensures Crossed(es, a) <==> Crossed(es[..|es| - 1], a) || Crosses(Run(es[..|es| - 1]), es[|es| - 1], a)
  {
    hide Run, Crosses;
    var front := es[..|es| - 1];
    assert forall k :: 0 <= k < |front| ==> front[..k] == es[..k] && front[k] == es[k];
  }

  /** The completion that `a` has read or will read next is there, and is another's. */
  predicate Foreign(s: State, a: nat) {
    a < |s.acquires| && s.acquires[a].start < |s.stream| && s.stream[s.acquires[a].start].owner != a
  }

  predicate Takes(s: State, a: nat) {
    a < |s.acquires| && (InProgress(s.acquires[a]) || s.acquires[a].took)
  }

  ghost predicate StreamInv(s: State) {
    && (forall a :: a in s.open ==> a < |s.acquires|)
    && (forall k :: 0 <= k < |s.stream| ==>
          s.stream[k].owner < |s.acquires| && s.stream[k].owner !in s.open && s.acquires[s.stream[k].owner].start <= k)
    && (forall j, k :: 0 <= j < k < |s.stream| ==> s.stream[j].owner != s.stream[k].owner)
  }

  ghost predicate AcquireInv(s: State, a: nat)
    requires a < |s.acquires|
  {
    var q := s.acquires[a];
    && q.start <= |s.stream|
    && (q.took ==> q.start < |s.stream| && q.phase == Done(CompletedGrant(Ok(s.stream[q.start].payload))))
    && (q.phase.Waiting? ==> Queued(Ok(q.phase.reply)) && q.wait > 0)
    && (InProgress(q) ==> a in s.open || q.start < |s.stream|)
  }

  ghost predicate Inv(s: State) {
    StreamInv(s) && forall a :: 0 <= a < |s.acquires| ==> AcquireInv(s, a)
  }

  /** What a waiting acquire makes of its completion. */
  lemma TakenGrant(wait: u32, reply: Bytes, deferred: Reply)
    requires Queued(Ok(reply)) && wait > 0
    ensures Granted(wait, Ok(reply), deferred) == CompletedGrant(deferred)
  {
    KindIs(reply);
  }

  lemma StepKeepsAcquire(s: State, e: Event, a: nat)
    requires Inv(s) && Enabled(s, e) && a < |Step(s, e).acquires|
    ensures AcquireInv(Step(s, e), a)
  {
    hide GateIsFree, Granted, CompletedGrant;
    assert a < |s.acquires| ==> AcquireInv(s, a);
    if e.Take? && e.a == a {
      var q := s.acquires[a];
      TakenGrant(q.wait, q.phase.reply, Ok(s.stream[q.start].payload));
    }
  }

  lemma StepKeepsInv(s: State, e: Event)
    requires Inv(s) && Enabled(s, e)
    ensures Inv(Step(s, e))
  {
    hide GateIsFree, Granted, Queued, CompletedGrant, AcquireInv;
    forall a | 0 <= a < |Step(s, e).acquires| ensures AcquireInv(Step(s, e), a) {
      StepKeepsAcquire(s, e, a);
    }
    assert forall a :: 0 <= a < |s.acquires| ==> Step(s, e).acquires[a].start == s.acquires[a].start;
    StartsInTime(s);
  }

  lemma StartsInTime(s: State)
    requires Inv(s)
    ensures forall a :: 0 <= a < |s.acquires| ==> s.acquires[a].start <= |s.stream|
  {
    forall a | 0 <= a < |s.acquires| ensures s.acquires[a].start <= |s.stream| {
      assert AcquireInv(s, a);
    }
  }

  lemma {:induction false} RunKeepsInv(es: seq<Event>)
    ensures Inv(Run(es))
  {
    hide Inv, Enabled, Step;
    if es == [] {
      assert Inv(Run([])) by { NothingYet(); }
    } else {
      RunKeepsInv(es[..|es| - 1]);
      if Enabled(Run(es[..|es| - 1]), es[|es| - 1]) {
        StepKeepsInv(Run(es[..|es| - 1]), es[|es| - 1]);
      }
    }
  }

  lemma NothingYet()
    ensures Inv(Run([])) && Run([]) == State([], {}, [])
  {
  }

  lemma StepForeign(s: State, e: Event, a: nat)
    requires Inv(s) && Enabled(s, e) && Takes(Step(s, e), a)
    ensures Foreign(Step(s, e), a) <==> (a < |s.acquires| && Foreign(s, a)) || Crosses(s, e, a)
    ensures a < |s.acquires| ==> Takes(s, a)
  {
    hide GateIsFree, Granted, Queued, CompletedGrant;
    StartsInTime(s);
    assert a < |s.acquires| ==> AcquireInv(s, a);
  }

  lemma {:induction false} CrossedIsThere(es: seq<Event>, a: nat)
    requires Crossed(es, a)
    ensures a < |Run(es).acquires|
  {
    hide Crosses, Enabled;
    var k :| 0 <= k < |es| && Crosses(Run(es[..k]), es[k], a);
    var front := es[..|es| - 1];
    CrossedMore(es, a);
    if Crossed(front, a) {
      CrossedIsThere(front, a);
    } else {
      CrossesIsThere(Run(front), es[|es| - 1], a);
    }
    if Enabled(Run(front), es[|es| - 1]) {
      NoneIsLost(Run(front), es[|es| - 1]);
    }
  }

  lemma CrossesIsThere(s: State, e: Event, a: nat)
    requires Crosses(s, e, a)
    ensures Enabled(s, e) && a < |s.acquires|
  {
  }

  lemma NoneIsLost(s: State, e: Event)
    requires Enabled(s, e)
    ensures |s.acquires| <= |Step(s, e).acquires|
  {
    hide GateIsFree, Granted;
  }

  lemma {:induction false} ForeignIffCrossed(es: seq<Event>, a: nat)
    requires Takes(Run(es), a)
    ensures Foreign(Run(es), a) <==> Crossed(es, a)
  {
    hide Step, Enabled, Crosses, Takes, Foreign, Inv, Crossed;
    if es == [] {
      NothingTakes(a);
    } else {
      var front, e := es[..|es| - 1], es[|es| - 1];
      CrossedMore(es, a);
      RunKeepsInv(front);
      if Crosses(Run(front), e, a) {
        CrossesIsThere(Run(front), e, a);
      }
      if Enabled(Run(front), e) {
        StepForeign(Run(front), e, a);
        if a < |Run(front).acquires| {
          ForeignIffCrossed(front, a);
        } else if Crossed(front, a) {
          CrossedIsThere(front, a);
        }
      } else {
        ForeignIffCrossed(front, a);
      }
    }
  }

  lemma NothingTakes(a: nat)
    ensures !Takes(Run([]), a)
  {
  }

  /**
   In every run, an acquire that read a completion read the one the broker sent for it if and only if no
   other acquire's was dispatched first since it subscribed; either way its result is what that completion grants.
   */
  lemma OwnGrant(es: seq<Event>, a: nat)
    requires a < |Run(es).acquires| && Run(es).acquires[a].took
    ensures var s := Run(es);
            && s.acquires[a].start < |s.stream|
            && s.acquires[a].phase == Done(CompletedGrant(Ok(s.stream[s.acquires[a].start].payload)))
            && (s.stream[s.acquires[a].start].owner == a <==> !Crossed(es, a))
  {
    hide Run, Crossed, CompletedGrant;
    RunKeepsInv(es);
    assert AcquireInv(Run(es), a);
    ForeignIffCrossed(es, a);
  }

  // ---------------------------------------------------------------- when none crosses

  /** An acquire begins while the broker may still complete an earlier one. */
  predicate Overlaps(s: State, e: Event) {
    e.Begin? && Enabled(s, e) && s.open != {}
  }

  predicate LastOpen(s: State) {
    forall a :: a in s.open ==> a == |s.acquires| - 1
  }

  lemma StepSerial(s: State, e: Event)
    requires Inv(s) && LastOpen(s) && Enabled(s, e) && !Overlaps(s, e)
    ensures LastOpen(Step(s, e))
    ensures forall a: nat :: !Crosses(s, e, a)
  {
    hide GateIsFree, Granted, Queued, CompletedGrant;
    forall a: nat ensures !Crosses(s, e, a) {
      assert a < |s.acquires| ==> AcquireInv(s, a);
    }
  }

  /** While no acquire begins before the broker is done with the earlier ones, each reads its own completion. */
  lemma {:induction false} SerialNeverCrosses(es: seq<Event>)
    requires forall k :: 0 <= k < |es| ==> !Overlaps(Run(es[..k]), es[k])
    ensures LastOpen(Run(es)) && forall a :: !Crossed(es, a)
  {
    hide Step, Enabled, Crosses, Overlaps, LastOpen, Inv;
    if es == [] {
      NothingOpen();
    } else {
      var front, e := es[..|es| - 1], es[|es| - 1];
      assert forall k :: 0 <= k < |front| ==> front[..k] == es[..k] && front[k] == es[k];
      SerialNeverCrosses(front);
      RunKeepsInv(front);
      assert !Overlaps(Run(es[..|front|]), es[|front|]);
      if Enabled(Run(front), e) {
        StepSerial(Run(front), e);
      }
      forall a ensures !Crossed(es, a) {
        CrossedMore(es, a);
        if Crosses(Run(front), e, a) {
          CrossesIsThere(Run(front), e, a);
        }
      }
    }
  }

  lemma NothingOpen()
    ensures LastOpen(Run([]))
  {
  }

  /** Otherwise the new acquire may read the earlier one's: that completion may be the next event. */
  lemma OverlapMayCross(es: seq<Event>, e: Event, owner: nat, payload: Bytes)
    requires Overlaps(Run(es), e) && owner in Run(es).open
    ensures Crossed(es + [e, Complete(owner, payload)], |Run(es).acquires|)
  {
    hide GateIsFree;
    RunKeepsInv(es);
    var more := es + [e, Complete(owner, payload)];
    assert more[..|es|] == es && more[..|es| + 1] == es + [e];
    assert (es + [e])[..|es|] == es;
    assert Run(es + [e]) == Step(Run(es), e);
    assert Crosses(Run(more[..|es| + 1]), more[|es| + 1], |Run(es).acquires|);
  }

  // ---------------------------------------------------------------- one client

  predicate OneClient(es: seq<Event>, client: nat) {
    forall k :: 0 <= k < |es| && es[k].Begin? ==> es[k].client == client
  }

  /** The event ends an acquire that the broker may still complete. */
  predicate Abandons(s: State, e: Event) {
    && Enabled(s, e) && (e.Answer? || e.Take? || e.Forget?)
    && e.a in Step(s, e).open && !InProgress(Step(s, e).acquires[e.a])
  }

  ghost predicate Single(s: State, client: nat) {
    && (forall a :: a in s.open ==> a < |s.acquires| && InProgress(s.acquires[a]))
    && (forall a :: 0 <= a < |s.acquires| ==> s.acquires[a].client == client)
  }

  lemma StepSingle(s: State, e: Event, client: nat)
    requires Single(s, client) && Enabled(s, e) && (e.Begin? ==> e.client == client) && !Abandons(s, e)
    ensures Single(Step(s, e), client) && !Overlaps(s, e)
  {
    hide Granted, Queued;
  }

  lemma {:induction false} SingleThroughout(es: seq<Event>, client: nat)
    requires OneClient(es, client) && forall k :: 0 <= k < |es| ==> !Abandons(Run(es[..k]), es[k])
    ensures Single(Run(es), client) && forall k :: 0 <= k < |es| ==> !Overlaps(Run(es[..k]), es[k])
  {
    hide Overlaps, Abandons, Single, Step, Enabled;
    if es == [] {
      NothingBegun(client);
    } else {
      var front, e := es[..|es| - 1], es[|es| - 1];
      assert forall k :: 0 <= k < |front| ==> front[..k] == es[..k] && front[k] == es[k];
      SingleThroughout(front, client);
      assert es[..|front|] == front;
      if Enabled(Run(front), e) {
        StepSingle(Run(front), e, client);
      } else {
        OverlapsIsEnabled(Run(front), e);
      }
    }
  }

  lemma NothingBegun(client: nat)
    ensures Single(Run([]), client)
  {
  }

  lemma OverlapsIsEnabled(s: State, e: Event)
    ensures Overlaps(s, e) ==> Enabled(s, e)
  {
  }

  /** With one client, an abandoned acquire is all that can make a later one read what was not meant for it. */
  lemma SoleClient(es: seq<Event>, client: nat)
    requires OneClient(es, client) && forall k :: 0 <= k < |es| ==> !Abandons(Run(es[..k]), es[k])
    ensures forall a :: !Crossed(es, a)
  {
    SingleThroughout(es, client);
    SerialNeverCrosses(es);
  }

  // ---------------------------------------------------------------- two runs that cross

  lemma More(es: seq<Event>, s: State, e: Event) returns (more: seq<Event>, s': State)
    requires s == Run(es) && Enabled(s, e)
    ensures more == es + [e] && s' == Run(more) && s' == Step(s, e)
  {
    more, s' := es + [e], Step(s, e);
    assert more[..|es|] == es;
  }

  lemma Nothing()
    ensures Run([]) == State([], {}, [])
  {
  }

  /**
   Two clients of one connection wait, each for its own route. The completion of the first is read by
   both, and both hold its token.
   */
  lemma OneGrantForTwo(first: Bytes, second: Bytes, wait: u32, reply: Bytes, payload: Bytes)
    returns (es: seq<Event>)
    requires wait > 0 && Queued(Ok(reply))
    ensures var s := Run(es);
            && |s.acquires| == 2 && s.stream == [Completion(0, payload)]
            && s.acquires[0] == Acquiring(0, first, wait, 0, Done(CompletedGrant(Ok(payload))), true)
            && s.acquires[1] == Acquiring(1, second, wait, 0, Done(CompletedGrant(Ok(payload))), true)
  {
    hide Run, CompletedGrant, Granted;
    var s: State;
    Nothing();
    TakenGrant(wait, reply, Ok(payload));
    es, s := More([], State([], {}, []), Begin(0, first, wait));
    es, s := More(es, s, Begin(1, second, wait));
    es, s := More(es, s, Answer(0, Ok(reply)));
    es, s := More(es, s, Answer(1, Ok(reply)));
    es, s := More(es, s, Complete(0, payload));
    es, s := More(es, s, Take(0));
    es, s := More(es, s, Take(1));
  }

  /** One client gives up waiting and asks for another route: it is handed the grant of the route it gave up. */
  lemma GrantOfTheAbandoned(client: nat, first: Bytes, second: Bytes, wait: u32, reply: Bytes, payload: Bytes)
    returns (es: seq<Event>)
    requires wait > 0 && Queued(Ok(reply))
    ensures OneClient(es, client)
    ensures var s := Run(es);
            && |s.acquires| == 2 && s.stream == [Completion(0, payload)]
            && s.acquires[0] == Acquiring(client, first, wait, 0, Forgotten, false)
            && s.acquires[1] == Acquiring(client, second, wait, 0, Done(CompletedGrant(Ok(payload))), true)
  {
    hide Run, CompletedGrant, Granted;
    var s: State;
    Nothing();
    TakenGrant(wait, reply, Ok(payload));
    es, s := More([], State([], {}, []), Begin(client, first, wait));
    es, s := More(es, s, Answer(0, Ok(reply)));
    es, s := More(es, s, Forget(0));
    es, s := More(es, s, Begin(client, second, wait));
    es, s := More(es, s, Answer(1, Ok(reply)));
    es, s := More(es, s, Complete(0, payload));
    es, s := More(es, s, Take(1));
  }
}
