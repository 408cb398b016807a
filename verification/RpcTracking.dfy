/**
 What the RPC worker's tracking by correlation id promises over every run, and exactly which arrivals
 and drops break it when an id is used again.
 */
module RpcTracking {
  import opened ByteStrings
  import opened Errors
  import opened RpcWorker

  // ---------------------------------------------------------------- the requests that are alive

  /** The request waits in the inbox or someone holds it. */
  predicate Alive(s: State, r: Request) {
    Ready(r) in s.inbox || (r.serial in s.held && s.held[r.serial] == r)
  }

  /** Alive, and decoded since the tracking was last cleared. */
  predicate Current(s: State, r: Request) {
    Alive(s, r) && r.serial >= s.since
  }

  /** The entry under the request's id holds its token. */
  predicate Owns(s: State, r: Request) {
    r.id in s.active && s.active[r.id].serial == r.serial
  }

  /** Every current request can be reached by a cancellation. */
  ghost predicate Tracked(s: State) {
    forall r :: Current(s, r) ==> Owns(s, r)
  }

  /** An entry holds the token of a current request with its id. */
  ghost predicate OnlyCurrent(s: State) {
    forall id :: id in s.active ==> exists r :: Current(s, r) && r.id == id && Owns(s, r)
  }

  /** The requests that an event drops. */
  function Dropped(s: State, e: Event): seq<Entry>
    requires Enabled(s, e)
  {
    match e
    case DropRequest(n) => [Ready(s.held[n])]
    case InboxCleared | DropWorker => s.inbox
    case Lifecycle(payload) =>
      if IsCancellation(payload) && Buffered(s.inbox, payload[1..17]) then [s.inbox[Position(s.inbox, payload[1..17])]]
      else []
    case _ => []
  }

  predicate DropsId(dropped: seq<Entry>, id: Bytes) {
    exists k :: 0 <= k < |dropped| && IsFor(dropped[k], id)
  }

  /** A current request that the event does not drop has the id of one it drops. */
  ghost predicate Strands(s: State, e: Event)
    requires Enabled(s, e)
  {
    exists r :: Current(s, r) && Ready(r) !in Dropped(s, e) && DropsId(Dropped(s, e), r.id)
  }

  /** The call that an event brings. */
  function Brought(c: Config, s: State, e: Event): Option<Call> {
    if e.Arrive? && e.generation == s.generation then
      match DecodeCall(e.payload, c.pattern, c.supportsCancellation)
      case Ok(call) => call
      case Err(_) => None
    else None
  }

  /** The event brings a call under the id of a current request. */
  ghost predicate Overwrites(c: Config, s: State, e: Event) {
    Brought(c, s, e).Some? && exists r :: Current(s, r) && r.id == Brought(c, s, e).value.id
  }

  ghost predicate Clashes(c: Config, s: State, e: Event)
    requires Enabled(s, e)
  {
    Strands(s, e) || Overwrites(c, s, e)
  }

  // ---------------------------------------------------------------- names

  /** A request bears the id noted for its serial, and is held under that serial. */
  ghost predicate Named(s: State) {
    && s.since <= |s.ids|
    && (forall r :: Alive(s, r) ==> r.serial < |s.ids| && s.ids[r.serial] == r.id)
    && (forall n :: n in s.held ==> s.held[n].serial == n)
  }

  ghost predicate Inv(c: Config, s: State) {
    && |s.inbox| <= c.capacity && Named(s) && OnlyCurrent(s)
    && forall n: nat :: Placed(c, s, [], n)
  }

  // ---------------------------------------------------------------- what an event does to them

  lemma {:induction false} CleanupAllFrame(c: Config, s: State, dropped: seq<Entry>)
    ensures var s' := CleanupAll(c, s, dropped);
            && s'.inbox == s.inbox && s'.held == s.held && s'.ids == s.ids && s'.since == s.since
            && s'.canceled == s.canceled
            && (forall id :: id in s'.active <==> id in s.active && !DropsId(dropped, id))
            && (forall id :: id in s'.active ==> s'.active[id] == s.active[id])
            && (forall n :: n in s.releases ==> n in s'.releases)
            && (forall r :: Ready(r) in dropped ==> r.serial in s'.releases)
  {
    if dropped != [] {
      var front, e := dropped[..|dropped| - 1], dropped[|dropped| - 1];
      CleanupAllFrame(c, s, front);
      forall id ensures DropsId(dropped, id) <==> DropsId(front, id) || IsFor(e, id) {
        if DropsId(front, id) {
          var k :| 0 <= k < |front| && IsFor(front[k], id);
          assert dropped[k] == front[k];
        }
        if DropsId(dropped, id) && !IsFor(e, id) {
          var k :| 0 <= k < |dropped| && IsFor(dropped[k], id);
          assert front[k] == dropped[k];
        }
        if IsFor(e, id) {
          assert IsFor(dropped[|dropped| - 1], id);
        }
      }
    }
  }

  /** What an event that drops requests leaves alive and tracked. */
  ghost predicate DropsOnly(s: State, s': State, dropped: seq<Entry>) {
    && s'.ids == s.ids && s'.since == s.since
    && (forall r :: Alive(s', r) ==> Alive(s, r))
    && (forall r :: Alive(s, r) && Ready(r) !in dropped ==> Alive(s', r))
    && (forall id :: id in s'.active <==> id in s.active && !DropsId(dropped, id))
    && (forall id :: id in s'.active ==> s'.active[id] == s.active[id])
    && (forall r :: Ready(r) in dropped ==> Alive(s, r) && r.serial in s'.releases)
  }

  lemma DropRequestDrops(c: Config, s: State, n: nat)
    requires Named(s) && n in s.held
    ensures DropsOnly(s, Step(c, s, DropRequest(n)), [Ready(s.held[n])])
  {
    var dropped := [Ready(s.held[n])];
    forall id ensures DropsId(dropped, id) <==> s.held[n].id == id {
      assert IsFor(dropped[0], id) <==> s.held[n].id == id;
    }
    forall r | Alive(s, r) && Ready(r) !in dropped ensures Alive(Step(c, s, DropRequest(n)), r) {
      assert dropped[0] in dropped;
    }
  }

  lemma ClearDrops(c: Config, s: State, closed: bool, canceled: set<nat>)
    ensures DropsOnly(s, CleanupAll(c, s.(closed := closed, inbox := [], canceled := canceled), s.inbox), s.inbox)
  {
    CleanupAllFrame(c, s.(closed := closed, inbox := [], canceled := canceled), s.inbox);
  }

  lemma WithdrawDrops(c: Config, s: State, k: nat)
    requires k < |s.inbox| && s.inbox[k].Ready?
    ensures DropsOnly(s, Withdrawn(c, s, k), [s.inbox[k]])
  {
    var dropped, less := [s.inbox[k]], s.inbox[..k] + s.inbox[k + 1..];
    assert s.inbox == s.inbox[..k] + dropped + s.inbox[k + 1..];
    assert forall e :: e in s.inbox <==> e in less || e in dropped;
    forall id ensures DropsId(dropped, id) <==> IsFor(s.inbox[k], id) {
      assert dropped[0] == s.inbox[k];
    }
  }

  predicate Withdraws(s: State, e: Event) {
    e.Lifecycle? && IsCancellation(e.payload) && Buffered(s.inbox, e.payload[1..17])
  }

  predicate IsDrop(s: State, e: Event) {
    e.DropRequest? || e.InboxCleared? || e.DropWorker? || Withdraws(s, e)
  }

  lemma DropEvents(c: Config, s: State, e: Event)
    requires Named(s) && Enabled(s, e) && IsDrop(s, e)
    ensures DropsOnly(s, Step(c, s, e), Dropped(s, e))
  {
    hide DropsOnly, CleanupAll, Withdrawn, Cleanup;
    match e
    case DropRequest(n) => DropRequestDrops(c, s, n);
    case InboxCleared => ClearDrops(c, s, s.closed, s.canceled);
    case DropWorker => ClearDrops(c, s, true, s.canceled + Owners(s.active));
    case Lifecycle(payload) => WithdrawDrops(c, s, Position(s.inbox, payload[1..17]));
  }

  /** What an event that neither drops nor brings a request may do: clear the tracking, or move things about. */
  ghost predicate Quiet(s: State, s': State) {
    || (s'.ids == s.ids && s'.since == s.since && SameOwners(s.active, s'.active)
        && forall r :: Alive(s', r) <==> Alive(s, r))
    || (s'.ids == s.ids && s'.since == |s.ids| && s'.active == map[] && forall r :: Alive(s', r) <==> Alive(s, r))
  }

  predicate SameOwners(was: map<Bytes, ActiveCall>, now: map<Bytes, ActiveCall>) {
    now.Keys == was.Keys && forall id :: id in was ==> now[id].serial == was[id].serial
  }

  ghost predicate Decodes(s: State, s': State, r: Request) {
    && r.serial == |s.ids| && s'.ids == s.ids + [r.id] && s'.since == s.since
    && s'.active == s.active[r.id := ActiveCall(r.serial, false)]
    && forall q :: Alive(s', q) <==> Alive(s, q) || q == r
  }

  lemma PushFault(c: Config, s: State, e: Error)
    ensures Quiet(s, Push(c, s, Fault(e)))
  {
    assert forall r :: Ready(r) in s.inbox + [Fault(e)] <==> Ready(r) in s.inbox;
  }

  lemma PushRequest(c: Config, s: State, id: Bytes, generation: nat)
    requires Named(s)
    ensures Decodes(s, Push(c, Track(s, id), Ready(Request(|s.ids|, id, generation))), Request(|s.ids|, id, generation))
  {
    var r := Request(|s.ids|, id, generation);
    var s' := Push(c, Track(s, id), Ready(r));
    assert |s.ids| !in s.held by {
      if |s.ids| in s.held {
        assert Alive(s, s.held[|s.ids|]);
      }
    }
    forall q ensures Alive(s', q) <==> Alive(s, q) || q == r {
      assert Ready(q) in s.inbox + [Ready(r)] <==> Ready(q) in s.inbox || q == r;
    }
  }

  lemma PollIsQuiet(s: State)
    requires Named(s) && forall r :: Ready(r) in s.inbox ==> r.serial !in s.held
    ensures Quiet(s, OnPoll(s))
  {
    if s.inbox != [] {
      assert s.inbox == [s.inbox[0]] + s.inbox[1..];
      assert forall e :: e in s.inbox <==> e == s.inbox[0] || e in s.inbox[1..];
    }
  }

  /** A request in the inbox is not also held. */
  lemma InboxIsNotHeld(c: Config, s: State)
    requires Inv(c, s)
    ensures forall r :: Ready(r) in s.inbox ==> r.serial !in s.held
  {
    forall r | Ready(r) in s.inbox ensures r.serial !in s.held {
      assert Placed(c, s, [], r.serial);
      CountFinds(s.inbox, r);
    }
  }

  lemma BringsRequest(c: Config, s: State, e: Event)
    requires Named(s) && Brought(c, s, e).Some?
    ensures Decodes(s, Step(c, s, e), Request(|s.ids|, Brought(c, s, e).value.id, s.generation))
  {
    hide DecodeCall, Push, Track, Decodes;
    PushRequest(c, s, Brought(c, s, e).value.id, s.generation);
  }

  lemma ArriveIsQuiet(c: Config, s: State, payload: Bytes, generation: nat)
    requires Brought(c, s, Arrive(payload, generation)).None?
    ensures Quiet(s, OnArrive(c, s, payload, generation))
  {
    hide DecodeCall, Push, Track, Alive;
    if generation == s.generation && DecodeCall(payload, c.pattern, c.supportsCancellation).Err? {
      PushFault(c, s, DecodeCall(payload, c.pattern, c.supportsCancellation).error);
    }
  }

  lemma QuietEvents(c: Config, s: State, e: Event)
    requires Inv(c, s) && Enabled(s, e) && !IsDrop(s, e) && Brought(c, s, e).None?
    ensures Quiet(s, Step(c, s, e))
  {
    hide Brought, Push, OnPoll, OnArrive, Placed;
    match e
    case Arrive(payload, generation) => ArriveIsQuiet(c, s, payload, generation);
    case Lag => PushFault(c, s, Backpressure);
    case Poll =>
      InboxIsNotHeld(c, s);
      PollIsQuiet(s);
    case _ =>
  }

  // ---------------------------------------------------------------- the invariant

  lemma DropsKeep(s: State, s': State, dropped: seq<Entry>)
    requires Named(s) && OnlyCurrent(s) && DropsOnly(s, s', dropped)
    requires forall n :: n in s'.held ==> s'.held[n].serial == n
    ensures Named(s') && OnlyCurrent(s')
  {
    forall id | id in s'.active ensures exists r :: Current(s', r) && r.id == id && Owns(s', r) {
      var r :| Current(s, r) && r.id == id && Owns(s, r);
      assert Current(s', r) && Owns(s', r);
    }
  }

  lemma QuietKeeps(s: State, s': State)
    requires Named(s) && OnlyCurrent(s) && Quiet(s, s')
    requires forall n :: n in s'.held ==> s'.held[n].serial == n
    ensures Named(s') && OnlyCurrent(s')
  {
    forall id | id in s'.active ensures exists r :: Current(s', r) && r.id == id && Owns(s', r) {
      var r :| Current(s, r) && r.id == id && Owns(s, r);
      assert Current(s', r) && Owns(s', r);
    }
  }

  lemma DecodeKeeps(s: State, s': State, latest: Request)
    requires Named(s) && OnlyCurrent(s) && Decodes(s, s', latest)
    requires forall n :: n in s'.held ==> s'.held[n].serial == n
    ensures Named(s') && OnlyCurrent(s')
  {
    forall id | id in s'.active ensures exists r :: Current(s', r) && r.id == id && Owns(s', r) {
      if id == latest.id {
        assert Current(s', latest) && Owns(s', latest);
      } else {
        var r :| Current(s, r) && r.id == id && Owns(s, r);
        assert Current(s', r) && Owns(s', r);
      }
    }
  }

  lemma HeldUnderSerial(c: Config, s: State, e: Event)
    requires Enabled(s, e) && forall n :: n in s.held ==> s.held[n].serial == n
    ensures forall n :: n in Step(c, s, e).held ==> Step(c, s, e).held[n].serial == n
  {
    hide DecodeCall, CleanupAll, Owners, IsCancellation, IsFor;
    CleanupAllFrame(c, s.(inbox := []), s.inbox);
    CleanupAllFrame(c, s.(closed := true, inbox := [], canceled := s.canceled + Owners(s.active)), s.inbox);
  }

  lemma WithinCapacity(c: Config, s: State, e: Event)
    requires Enabled(s, e) && |s.inbox| <= c.capacity
    ensures |Step(c, s, e).inbox| <= c.capacity
  {
    hide DecodeCall, CleanupAll, Owners, IsCancellation, IsFor;
    CleanupAllFrame(c, s.(inbox := []), s.inbox);
    CleanupAllFrame(c, s.(closed := true, inbox := [], canceled := s.canceled + Owners(s.active)), s.inbox);
  }

  lemma StepKeepsInv(c: Config, s: State, e: Event)
    requires Inv(c, s) && Enabled(s, e)
    ensures Inv(c, Step(c, s, e))
  {
    hide Step, Placed, Quiet, DropsOnly, OnlyCurrent, IsDrop, Decodes, Brought;
    HeldUnderSerial(c, s, e);
    WithinCapacity(c, s, e);
    if IsDrop(s, e) {
      DropEvents(c, s, e);
      DropsKeep(s, Step(c, s, e), Dropped(s, e));
    } else if Brought(c, s, e).Some? {
      BringsRequest(c, s, e);
      DecodeKeeps(s, Step(c, s, e), Request(|s.ids|, Brought(c, s, e).value.id, s.generation));
    } else {
      QuietEvents(c, s, e);
      QuietKeeps(s, Step(c, s, e));
    }
    forall n: nat ensures Placed(c, Step(c, s, e), [], n) {
      StepKeepsPlaced(c, s, e, n);
    }
  }

  lemma NothingYet(c: Config, generation: nat)
    ensures Inv(c, Start(generation))
  {
  }

  lemma {:induction false} RunKeepsInv(c: Config, generation: nat, es: seq<Event>)
    ensures Inv(c, Run(c, generation, es))
  {
    hide Step, Inv;
    if es == [] {
      NothingYet(c, generation);
    } else {
      var before, e := Run(c, generation, es[..|es| - 1]), es[|es| - 1];
      RunKeepsInv(c, generation, es[..|es| - 1]);
      if Enabled(before, e) {
        StepKeepsInv(c, before, e);
      }
    }
  }

  // ---------------------------------------------------------------- every run

  /**
   In every reachable state, whatever ids are used: the inbox is within its capacity, each decoded
   request is in the inbox, held or released, and in one of them; one that a cancellation took from
   the inbox is never handed out; each has been acknowledged once if it was released in the session
   it came from, and otherwise not at all; and only ids of current requests are tracked.
   */
  lemma Accounting(c: Config, generation: nat, es: seq<Event>)
    ensures var s := Run(c, generation, es);
            && |s.inbox| <= c.capacity && OnlyCurrent(s)
            && (forall n: nat :: CountIn(s.inbox, n) + One(n in s.held) + One(n in s.releases) == One(n < |s.ids|))
            && s.withdrawn !! s.delivered
            && (forall n: nat :: s.acks[n] ==
                  One(c.supportsCancellation && n in s.releases && s.releases[n].own == s.releases[n].now))
  {
    hide Run, OnlyCurrent;
    var s := Run(c, generation, es);
    RunKeepsInv(c, generation, es);
    forall n: nat
      ensures CountIn(s.inbox, n) + One(n in s.held) + One(n in s.releases) == One(n < |s.ids|)
      ensures !(n in s.withdrawn && n in s.delivered)
      ensures s.acks[n] == One(c.supportsCancellation && n in s.releases && s.releases[n].own == s.releases[n].now)
    {
      assert Placed(c, s, [], n) && CountIn([], n) == 0;
    }
  }

  /**
   An event leaves some current request out of reach exactly when it drops a request while a current one
   with its id stays, or brings a call under the id of a current one.
   */
  lemma StepTracks(c: Config, s: State, e: Event)
    requires Inv(c, s) && Enabled(s, e) && Tracked(s)
    ensures Tracked(Step(c, s, e)) <==> !Clashes(c, s, e)
  {
    hide Step, Placed, IsDrop, Quiet, DropsOnly, Decodes, Tracked, Brought, DropsId, Dropped;
    DropOrBring(c, s, e);
    if IsDrop(s, e) {
      DropEvents(c, s, e);
      DroppedAreGone(c, s, e);
      DropTracks(s, Step(c, s, e), Dropped(s, e));
    } else if Brought(c, s, e).Some? {
      BringsRequest(c, s, e);
      DecodeTracks(s, Step(c, s, e), Request(|s.ids|, Brought(c, s, e).value.id, s.generation));
    } else {
      QuietEvents(c, s, e);
      QuietTracks(s, Step(c, s, e));
    }
  }

  lemma DropOrBring(c: Config, s: State, e: Event)
    requires Enabled(s, e)
    ensures IsDrop(s, e) ==> Brought(c, s, e).None?
    ensures !IsDrop(s, e) ==> forall id :: !DropsId(Dropped(s, e), id)
  {
  }

  lemma DroppedAreGone(c: Config, s: State, e: Event)
    requires Inv(c, s) && Enabled(s, e) && IsDrop(s, e)
    ensures forall r :: Ready(r) in Dropped(s, e) ==> !Alive(Step(c, s, e), r)
  {
    hide Step, IsDrop, Dropped, DropsOnly, Placed;
    var s' := Step(c, s, e);
    DropEvents(c, s, e);
    StepKeepsInv(c, s, e);
    forall r | Ready(r) in Dropped(s, e) ensures !Alive(s', r) {
      assert r.serial in s'.releases by { ReleasedAreDropped(s, s', Dropped(s, e), r); }
      ReleasedIsNotAlive(c, s', r);
    }
  }

  lemma ReleasedAreDropped(s: State, s': State, dropped: seq<Entry>, r: Request)
    requires DropsOnly(s, s', dropped) && Ready(r) in dropped
    ensures r.serial in s'.releases
  {
  }

  lemma ReleasedIsNotAlive(c: Config, s: State, r: Request)
    requires Inv(c, s) && r.serial in s.releases
    ensures !Alive(s, r)
  {
    assert Placed(c, s, [], r.serial);
    if Ready(r) in s.inbox {
      CountFinds(s.inbox, r);
    }
  }

  lemma DropTracks(s: State, s': State, dropped: seq<Entry>)
    requires Tracked(s) && DropsOnly(s, s', dropped) && forall r :: Ready(r) in dropped ==> !Alive(s', r)
    ensures Tracked(s') <==> !(exists r :: Current(s, r) && Ready(r) !in dropped && DropsId(dropped, r.id))
  {
    hide DropsId;
    if r :| Current(s, r) && Ready(r) !in dropped && DropsId(dropped, r.id) {
      assert Current(s', r) && !Owns(s', r);
    } else {
      forall r | Current(s', r) ensures Owns(s', r) {
        assert Current(s, r) && Owns(s, r);
      }
    }
  }

  lemma DecodeTracks(s: State, s': State, latest: Request)
    requires Named(s) && Tracked(s) && Decodes(s, s', latest)
    ensures Tracked(s') <==> !(exists r :: Current(s, r) && r.id == latest.id)
  {
    if r :| Current(s, r) && r.id == latest.id {
      assert Current(s', r) && !Owns(s', r);
    } else {
      forall r | Current(s', r) ensures Owns(s', r) {
        assert r == latest || (Current(s, r) && Owns(s, r));
      }
    }
  }

  lemma QuietTracks(s: State, s': State)
    requires Named(s) && Tracked(s) && Quiet(s, s')
    ensures Tracked(s')
  {
    forall r | Current(s', r) ensures Owns(s', r) {
      assert Current(s, r) && Owns(s, r);
    }
  }

  /** Throughout a run every current request is tracked if and only if no event of the run clashes. */
  lemma {:induction false} TrackedThroughout(c: Config, generation: nat, es: seq<Event>)
    ensures (forall k :: 0 <= k <= |es| ==> Tracked(Run(c, generation, es[..k])))
            <==> forall k :: 0 <= k < |es| && Enabled(Run(c, generation, es[..k]), es[k]) ==>
                               !Clashes(c, Run(c, generation, es[..k]), es[k])
  {
    hide Step, Tracked, Clashes, Enabled, Inv;
    if es == [] {
      assert es[..0] == [];
      StartTracked(c, generation);
    } else {
      var n, front := |es| - 1, es[..|es| - 1];
      TrackedThroughout(c, generation, front);
      assert forall k :: 0 <= k <= n ==> front[..k] == es[..k];
      assert es[..n] == front && es[..n + 1] == es;
      RunKeepsInv(c, generation, front);
      assert Tracked(Run(c, generation, es[..n])) && Enabled(Run(c, generation, front), es[n]) ==>
               (Tracked(Run(c, generation, es)) <==> !Clashes(c, Run(c, generation, front), es[n])) by {
        if Tracked(Run(c, generation, front)) && Enabled(Run(c, generation, front), es[n]) {
          StepTracks(c, Run(c, generation, front), es[n]);
        }
      }
      assert forall k :: 0 <= k <= |es| ==> k <= n || es[..k] == es;
      assert (forall k :: 0 <= k <= n ==> Tracked(Run(c, generation, es[..k])))
             <==> forall k :: 0 <= k < n && Enabled(Run(c, generation, es[..k]), es[k]) ==>
                                !Clashes(c, Run(c, generation, es[..k]), es[k]) by {
        assert forall k :: 0 <= k < n ==> front[k] == es[k];
      }
    }
  }

  lemma StartTracked(c: Config, generation: nat)
    ensures Tracked(Run(c, generation, []))
  {
  }

  // ---------------------------------------------------------------- ids used once, and twice

  predicate Distinct(ids: seq<Bytes>) {
    forall j, k :: 0 <= j < k < |ids| ==> ids[j] != ids[k]
  }

  lemma DistinctNeverClash(c: Config, s: State, e: Event)
    requires Inv(c, s) && Enabled(s, e) && Distinct(Step(c, s, e).ids)
    ensures !Clashes(c, s, e)
  {
    hide Step, Placed, DropsOnly, IsDrop, Decodes, Brought, Inv;
    DropOrBring(c, s, e);
    if r :| Current(s, r) && Ready(r) !in Dropped(s, e) && DropsId(Dropped(s, e), r.id) {
      var k :| 0 <= k < |Dropped(s, e)| && IsFor(Dropped(s, e)[k], r.id);
      DistinctDrops(c, s, e, Dropped(s, e)[k].request, r);
    }
    if Overwrites(c, s, e) {
      var r :| Current(s, r) && r.id == Brought(c, s, e).value.id;
      DistinctBrings(c, s, e, r);
    }
  }

  /** With distinct ids, what is dropped under the id of a request is the request. */
  lemma DistinctDrops(c: Config, s: State, e: Event, d: Request, r: Request)
    requires Inv(c, s) && Enabled(s, e) && IsDrop(s, e) && Distinct(Step(c, s, e).ids)
    requires Ready(d) in Dropped(s, e) && Alive(s, r) && d.id == r.id
    ensures Ready(r) in Dropped(s, e)
  {
    hide Step, Placed, IsDrop, Dropped;
    var s' := Step(c, s, e);
    DropEvents(c, s, e);
    StepKeepsInv(c, s, e);
    assert s'.ids[d.serial] == s'.ids[r.serial];
    ReleasedIsNotAlive(c, s', r);
  }

  lemma DistinctBrings(c: Config, s: State, e: Event, r: Request)
    requires Inv(c, s) && Enabled(s, e) && Brought(c, s, e).Some? && Distinct(Step(c, s, e).ids) && Alive(s, r)
    ensures r.id != Brought(c, s, e).value.id
  {
    hide Step, Placed, Brought;
    BringsRequest(c, s, e);
    var s' := Step(c, s, e);
    assert s'.ids[r.serial] == r.id && s'.ids[|s.ids|] == Brought(c, s, e).value.id;
  }

  lemma {:induction false} EarlierIds(c: Config, generation: nat, es: seq<Event>, k: nat)
    requires k <= |es|
    ensures Run(c, generation, es[..k]).ids <= Run(c, generation, es).ids
  {
    hide Step, Enabled;
    if k == |es| {
      assert es[..k] == es;
    } else {
      var front := es[..|es| - 1];
      assert front[..k] == es[..k];
      EarlierIds(c, generation, front, k);
      if Enabled(Run(c, generation, front), es[|es| - 1]) {
        IdsGrow(c, Run(c, generation, front), es[|es| - 1]);
      }
    }
  }

  lemma IdsGrow(c: Config, s: State, e: Event)
    requires Enabled(s, e)
    ensures s.ids <= Step(c, s, e).ids
  {
    hide DecodeCall, CleanupAll, Owners, IsCancellation, IsFor;
    CleanupAllFrame(c, s.(inbox := []), s.inbox);
    CleanupAllFrame(c, s.(closed := true, inbox := [], canceled := s.canceled + Owners(s.active)), s.inbox);
  }

  /** While no id is used twice, the tracked ids are exactly those of the current requests, each the owner of its entry. */
  lemma Tracking(c: Config, generation: nat, es: seq<Event>)
    requires Distinct(Run(c, generation, es).ids)
    ensures var s := Run(c, generation, es);
            && Tracked(s)
            && forall id :: id in s.active <==> exists r :: Current(s, r) && r.id == id
  {
    hide Run, Step, Placed, Clashes;
    forall k | 0 <= k < |es| && Enabled(Run(c, generation, es[..k]), es[k])
      ensures !Clashes(c, Run(c, generation, es[..k]), es[k])
    {
      RunMore(c, generation, es, k);
      EarlierIds(c, generation, es, k + 1);
      RunKeepsInv(c, generation, es[..k]);
      DistinctNeverClash(c, Run(c, generation, es[..k]), es[k]);
    }
    TrackedThroughout(c, generation, es);
    assert es[..|es|] == es;
    RunKeepsInv(c, generation, es);
    OwnersAreTracked(Run(c, generation, es));
  }

  lemma OwnersAreTracked(s: State)
    requires Tracked(s) && OnlyCurrent(s)
    ensures forall id :: id in s.active <==> exists r :: Current(s, r) && r.id == id
  {
  }

  lemma RunMore(c: Config, generation: nat, es: seq<Event>, k: nat)
    requires k < |es| && Enabled(Run(c, generation, es[..k]), es[k])
    ensures Run(c, generation, es[..k + 1]) == Step(c, Run(c, generation, es[..k]), es[k])
  {
    assert es[..k + 1][..k] == es[..k];
  }

  lemma Extend(c: Config, generation: nat, es: seq<Event>, e: Event) returns (more: seq<Event>, s: State)
    requires Enabled(Run(c, generation, es), e)
    ensures more == es + [e] && s == Run(c, generation, more) == Step(c, Run(c, generation, es), e)
  {
    more, s := es + [e], Step(c, Run(c, generation, es), e);
    assert more[..|es|] == es;
  }

  /**
   A run that does clash, for every call a worker can be sent: it is taken and kept over a reconnect,
   a call with its id arrives in the new session, and dropping the old one leaves the new one in the
   inbox untracked, so that a cancellation that comes once it is handed out no longer reaches it.
   */
  lemma ReusedIdLosesTracking(c: Config, generation: nat, payload: Bytes, call: Call)
    returns (es: seq<Event>, r: Request)
    requires c.capacity > 0 && DecodeCall(payload, c.pattern, c.supportsCancellation) == Ok(Some(call))
    ensures var s := Run(c, generation, es); Current(s, r) && s.inbox == [Ready(r)] && r.id == call.id && call.id !in s.active
  {
    hide Run, DecodeCall;
    var s: State;
    assert Run(c, generation, []) == Start(generation) by { NoEvents(c, generation); }
    es, s := Extend(c, generation, [], Arrive(payload, generation));
    es, s := Extend(c, generation, es, Poll);
    es, s := Extend(c, generation, es, Advance);
    es, s := Extend(c, generation, es, GenerationSeen);
    es, s := Extend(c, generation, es, Arrive(payload, generation + 1));
    r := Request(1, call.id, generation + 1);
    assert s.inbox == [Ready(r)];
    es, s := Extend(c, generation, es, DropRequest(0));
  }

  lemma NoEvents(c: Config, generation: nat)
    ensures Run(c, generation, []) == Start(generation)
  {
  }

  /**
   A run that clashes without a drop, for every call a worker can be sent: the call is taken, a second
   one arrives under its id and is taken as well, and a cancellation then reaches the second alone.
   */
  lemma ArrivalTakesOver(c: Config, generation: nat, payload: Bytes, call: Call, cancellation: Bytes)
    returns (es: seq<Event>, first: Request, second: Request)
    requires c.capacity > 0 && DecodeCall(payload, c.pattern, c.supportsCancellation) == Ok(Some(call))
    requires IsCancellation(cancellation) && cancellation[1..17] == call.id
    ensures var s := Run(c, generation, es);
            && first != second && first.id == second.id == call.id
            && Current(s, first) && Current(s, second) && !Owns(s, first) && s.canceled == {second.serial}
    ensures forall k :: 0 <= k < |es| ==>
              Enabled(Run(c, generation, es[..k]), es[k]) && Dropped(Run(c, generation, es[..k]), es[k]) == []
  {
    hide Run, DecodeCall, IsCancellation;
    var s: State;
    assert Run(c, generation, []) == Start(generation) by { NoEvents(c, generation); }
    es, s := Extend(c, generation, [], Arrive(payload, generation));
    es, s := Extend(c, generation, es, Poll);
    es, s := Extend(c, generation, es, Arrive(payload, generation));
    es, s := Extend(c, generation, es, Poll);
    es, s := Extend(c, generation, es, Lifecycle(cancellation));
    first, second := Request(0, call.id, generation), Request(1, call.id, generation);
  }

  // ---------------------------------------------------------------- what is reached

  /** A cancellation of a call that is no longer in the inbox reaches the request if and only if it owns its entry. */
  lemma CancellationReaches(c: Config, s: State, payload: Bytes, r: Request)
    requires Inv(c, s) && Current(s, r) && IsCancellation(payload) && payload[1..17] == r.id
    requires !Buffered(s.inbox, r.id) && r.serial !in s.canceled
    ensures r.serial in Step(c, s, Lifecycle(payload)).canceled <==> Owns(s, r)
  {
  }

  /** What a reconnect and the end of the worker cancel, beyond what had been cancelled before. */
  lemma EndsReach(c: Config, s: State, e: Event)
    requires Inv(c, s) && (e.GenerationSeen? || e.DropWorker?)
    ensures Step(c, s, e).canceled == s.canceled + Owners(s.active)
    ensures Tracked(s) <==> forall r :: Current(s, r) ==> r.serial in Owners(s.active)
    ensures forall n :: n in Owners(s.active) ==> exists r :: Current(s, r) && r.serial == n
  {
    hide Placed;
    CleanupAllFrame(c, s.(closed := true, inbox := [], canceled := s.canceled + Owners(s.active)), s.inbox);
    forall n | n in Owners(s.active) ensures exists r :: Current(s, r) && r.serial == n && Owns(s, r) {
      var id :| id in s.active && s.active[id].serial == n;
      var r :| Current(s, r) && r.id == id && Owns(s, r);
    }
    forall r | Current(s, r) && r.serial in Owners(s.active) ensures Owns(s, r) {
      var q :| Current(s, q) && q.serial == r.serial && Owns(s, q);
      assert q.id == s.ids[r.serial] == r.id;
    }
  }
}
