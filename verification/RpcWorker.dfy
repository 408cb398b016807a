/**
 The RPC worker (src/client_domains/rpc/worker.rs, src/client_domains/rpc.rs): which requests it
 tracks, buffers, hands out and acknowledges, whatever order requests, cancellations, reconnects,
 polls and drops come in. Requests are told apart by the order they were decoded in; their
 correlation ids may repeat.
 */
module RpcWorker {
  import opened ByteStrings
  import opened Errors
  import opened Codec
  import opened WireLists
  import opened Routes

  const MAX_BUDGET_MS := 86_400_000

  // ---------------------------------------------------------------- frames

  datatype Call = Call(id: Bytes, route: Blob, body: Blob, budget: Option<u32>)

  /** `decode_rpc_request_budget` */
  function DecodeBudget(s: Bytes): Result<Option<u32>> {
    var (flag, rest) :- TakeU8(s);
    if flag == 0 then (if rest == [] then Ok(None) else Err(Protocol))
    else
      var (budget, end) :- TakeU32(rest);
      if flag != 1 || end != [] || budget > MAX_BUDGET_MS then Err(Protocol) else Ok(Some(budget))
  }

  /** `decode_request`, up to the tracking of the call; a route of another pattern is passed over. */
  function DecodeCall(payload: Bytes, pattern: Bytes, supportsCancellation: bool): Result<Option<Call>> {
    var (id, s1) :- TakeFixed(payload, 16);
    var (route, s2) :- TakeText(s1);
    if !RouteMatches(route, pattern) then Ok(None)
    else
      var (body, s3) :- TakeBlob(s2);
      if !supportsCancellation && s3 != [] then Err(Protocol)
      else
        var budget :- DecodeBudget(s3);
        Ok(Some(Call(id, route, body, budget)))
  }

  function WriteBudget(budget: Option<u32>): Bytes {
    match budget
    case None => [0]
    case Some(ms) => [1] + BE32(ms)
  }

  function WriteCall(call: Call): Bytes {
    call.id + WriteBlob(call.route, WriteBlob(call.body, WriteBudget(call.budget)))
  }

  lemma BudgetLanguage(s: Bytes, budget: Option<u32>)
    ensures DecodeBudget(s) == Ok(budget) <==>
              s == WriteBudget(budget) && (budget.Some? ==> budget.value <= MAX_BUDGET_MS)
  {
    if budget.Some? {
      assert WriteBudget(budget) == [1] + (BE32(budget.value) + []);
      TakeU8Of(1, BE32(budget.value) + []);
      TakeU32Of(budget.value, []);
    }
    if DecodeBudget(s).Ok? {
      TakeU8Inverse(s);
      if s[0] != 0 {
        TakeU32Inverse(s[1..]);
      }
      assert s[0] == 0 ==> s == [0];
    }
  }

  /**
   A call is decoded from exactly its own encoding, when its route is text that matches the pattern and
   its budget is at most a day, and only by a worker that negotiated cancellation, as every one does.
   */
  lemma CallLanguage(payload: Bytes, pattern: Bytes, supportsCancellation: bool, call: Call)
    ensures DecodeCall(payload, pattern, supportsCancellation) == Ok(Some(call)) <==>
              && supportsCancellation && |call.id| == 16 && Utf8(call.route) && RouteMatches(call.route, pattern)
              && (call.budget.Some? ==> call.budget.value <= MAX_BUDGET_MS)
              && payload == WriteCall(call)
  {
    hide RouteMatches, DecodeBudget, WriteBudget, Utf8;
    var s3 := WriteBudget(call.budget);
    var s2 := WriteBlob(call.body, s3);
    var s1 := WriteBlob(call.route, s2);
    BudgetLanguage(s3, call.budget);
    BudgetIsThere(call.budget);
    if |call.id| == 16 {
      assert (call.id + s1)[..16] == call.id && (call.id + s1)[16..] == s1;
    }
    BlobReads(call.route, s2);
    BlobReads(call.body, s3);
    if DecodeCall(payload, pattern, supportsCancellation) == Ok(Some(call)) {
      assert payload == payload[..16] + payload[16..];
      TextWas(payload[16..]);
      var t2 := TakeText(payload[16..]).value.1;
      BlobWas(t2);
      BudgetLanguage(TakeBlob(t2).value.1, call.budget);
    }
  }

  lemma BudgetIsThere(budget: Option<u32>)
    ensures WriteBudget(budget) != [] && DecodeBudget([]).Err?
  {
  }

  /** A cancellation that the broker addresses to one call. */
  predicate IsCancellation(payload: Bytes) {
    |payload| == 18 && payload[0] == 2 && 1 <= payload[17] <= 4
  }

  // ---------------------------------------------------------------- state

  /** `serial` counts the requests decoded before this one. */
  datatype Request = Request(serial: nat, id: Bytes, generation: nat)
  datatype Entry = Ready(request: Request) | Fault(error: Error)
  datatype Release = Release(own: nat, now: nat)

  /** `ActiveWorkerCall`: the request whose cancellation token the entry holds, and whether it was asked for. */
  datatype ActiveCall = ActiveCall(serial: nat, requested: bool)

  datatype State = State(
    generation: nat,
    inbox: seq<Entry>,
    closed: bool,
    active: map<Bytes, ActiveCall>,
    held: map<nat, Request>,
    // history, by serial
    ids: seq<Bytes>,
    since: nat,
    delivered: set<nat>,
    withdrawn: set<nat>,
    releases: map<nat, Release>,
    acks: multiset<nat>,
    canceled: set<nat>)

  datatype Config = Config(pattern: Bytes, supportsCancellation: bool, capacity: nat)

  datatype Event =
    | Arrive(payload: Bytes, generation: nat)
    | Lag
    | Advance
    | GenerationSeen
    | InboxCleared
    | Lifecycle(payload: Bytes)
    | Poll
    | DropRequest(serial: nat)
    | DropWorker
    | LoopEnds

  predicate IsFor(e: Entry, id: Bytes) {
    e.Ready? && e.request.id == id
  }

  predicate Buffered(inbox: seq<Entry>, id: Bytes) {
    exists k :: 0 <= k < |inbox| && IsFor(inbox[k], id)
  }

  function Position(inbox: seq<Entry>, id: Bytes): nat
    requires Buffered(inbox, id)
    ensures Position(inbox, id) < |inbox| && IsFor(inbox[Position(inbox, id)], id)
  {
    if IsFor(inbox[0], id) then 0
    else
      assert Buffered(inbox[1..], id) by {
        var k :| 0 <= k < |inbox| && IsFor(inbox[k], id);
        assert inbox[1..][k - 1] == inbox[k];
      }
      1 + Position(inbox[1..], id)
  }

  /** `finish_cleanup`: the id is no longer tracked, and the call is acknowledged in its own session. */
  function Cleanup(c: Config, s: State, r: Request): State {
    s.(active := s.active - {r.id},
       releases := s.releases[r.serial := Release(r.generation, s.generation)],
       acks := if c.supportsCancellation && r.generation == s.generation then s.acks + multiset{r.serial} else s.acks)
  }

  function CleanupAll(c: Config, s: State, dropped: seq<Entry>): State {
    if dropped == [] then s
    else
      var front := CleanupAll(c, s, dropped[..|dropped| - 1]);
      match dropped[|dropped| - 1]
      case Fault(_) => front
      case Ready(r) => Cleanup(c, front, r)
  }

  function OnArrive(c: Config, s: State, payload: Bytes, generation: nat): State {
    if generation != s.generation then s
    else
      match DecodeCall(payload, c.pattern, c.supportsCancellation)
      case Err(e) => Push(c, s, Fault(e))
      case Ok(None) => s
      case Ok(Some(call)) => Push(c, Track(s, call.id), Ready(Request(|s.ids|, call.id, generation)))
  }

  /** An entry that an earlier call has under the id is replaced, and its token with it. */
  function Track(s: State, id: Bytes): State {
    s.(active := s.active[id := ActiveCall(|s.ids|, false)], ids := s.ids + [id])
  }

  /** A request that finds no room is rejected by the event loop, which holds it until it drops it. */
  function Push(c: Config, s: State, e: Entry): State {
    if !s.closed && |s.inbox| < c.capacity then s.(inbox := s.inbox + [e])
    else if e.Ready? then s.(held := s.held[e.request.serial := e.request])
    else s
  }

  function OnLifecycle(c: Config, s: State, payload: Bytes): State {
    if !IsCancellation(payload) then s else OnCancel(c, s, payload[1..17])
  }

  function OnCancel(c: Config, s: State, id: Bytes): State {
    if Buffered(s.inbox, id) then Withdrawn(c, s, Position(s.inbox, id))
    else if id in s.active then
      s.(active := s.active[id := s.active[id].(requested := true)], canceled := s.canceled + {s.active[id].serial})
    else s
  }

  /** The requests whose tokens the entries hold. */
  function Owners(active: map<Bytes, ActiveCall>): set<nat> {
    set id | id in active :: active[id].serial
  }

  /** A request is taken out of the inbox and dropped. */
  function Withdrawn(c: Config, s: State, k: nat): State
    requires k < |s.inbox| && s.inbox[k].Ready?
  {
    var r := s.inbox[k].request;
    Cleanup(c, s.(inbox := s.inbox[..k] + s.inbox[k + 1..], withdrawn := s.withdrawn + {r.serial}), r)
  }

  function OnPoll(s: State): State {
    if s.inbox == [] then s
    else
      match s.inbox[0]
      case Fault(_) => s.(inbox := s.inbox[1..])
      case Ready(r) =>
        s.(inbox := s.inbox[1..], held := s.held[r.serial := r], delivered := s.delivered + {r.serial})
  }

  predicate Enabled(s: State, e: Event) {
    e.DropRequest? ==> e.serial in s.held
  }

  function Step(c: Config, s: State, e: Event): State
    requires Enabled(s, e)
  {
    match e
    case Arrive(payload, generation) => OnArrive(c, s, payload, generation)
    case Lag => Push(c, s, Fault(Backpressure))
    case Advance => s.(generation := s.generation + 1)
    case GenerationSeen => s.(active := map[], since := |s.ids|, canceled := s.canceled + Owners(s.active))
    case InboxCleared => CleanupAll(c, s.(inbox := []), s.inbox)
    case Lifecycle(payload) => OnLifecycle(c, s, payload)
    case Poll => OnPoll(s)
    case DropRequest(n) => Cleanup(c, s.(held := s.held - {n}), s.held[n])
    case DropWorker =>
      CleanupAll(c, s.(closed := true, inbox := [], canceled := s.canceled + Owners(s.active)), s.inbox)
    case LoopEnds => s.(closed := true)
  }

  function Start(generation: nat): State {
    State(generation, [], false, map[], map[], [], 0, {}, {}, map[], multiset{}, {})
  }

  /** The state after these events; one that cannot happen where it stands is passed over. */
  function Run(c: Config, generation: nat, es: seq<Event>): State {
    if es == [] then Start(generation)
    else
      var before, e := Run(c, generation, es[..|es| - 1]), es[|es| - 1];
      if Enabled(before, e) then Step(c, before, e) else before
  }

  // ---------------------------------------------------------------- where a request is

  function CountIn(entries: seq<Entry>, n: nat): nat {
    if entries == [] then 0
    else
      var e := entries[|entries| - 1];
      CountIn(entries[..|entries| - 1], n) + One(e.Ready? && e.request.serial == n)
  }

  function One(b: bool): nat {
    if b then 1 else 0
  }

  lemma CountMore(entries: seq<Entry>, e: Entry, n: nat)
    ensures CountIn(entries + [e], n) == CountIn(entries, n) + One(e.Ready? && e.request.serial == n)
  {
    assert (entries + [e])[..|entries|] == entries;
  }

  lemma {:induction false} CountApart(a: seq<Entry>, b: seq<Entry>, n: nat)
    ensures CountIn(a + b, n) == CountIn(a, n) + CountIn(b, n)
  {
    if b == [] {
      assert a + b == a;
    } else {
      assert (a + b)[..|a + b| - 1] == a + b[..|b| - 1];
      CountApart(a, b[..|b| - 1], n);
    }
  }

  lemma CountWithout(entries: seq<Entry>, k: nat, n: nat)
    requires k < |entries|
    ensures CountIn(entries, n) == CountIn(entries[..k] + entries[k + 1..], n)
                                   + One(entries[k].Ready? && entries[k].request.serial == n)
  {
    assert entries == entries[..k] + ([entries[k]] + entries[k + 1..]);
    CountApart(entries[..k], [entries[k]] + entries[k + 1..], n);
    CountApart([entries[k]], entries[k + 1..], n);
    CountApart(entries[..k], entries[k + 1..], n);
    CountMore([], entries[k], n);
    assert [] + [entries[k]] == [entries[k]];
  }

  lemma {:induction false} CountFinds(entries: seq<Entry>, r: Request)
    requires Ready(r) in entries
    ensures CountIn(entries, r.serial) > 0
  {
    if entries[|entries| - 1] != Ready(r) {
      assert Ready(r) in entries[..|entries| - 1];
      CountFinds(entries[..|entries| - 1], r);
    }
  }

  /** A decoded request is in one place, and everything noted about it agrees with the place. */
  ghost predicate Placed(c: Config, s: State, leaving: seq<Entry>, n: nat) {
    && CountIn(s.inbox, n) + CountIn(leaving, n) + One(n in s.held) + One(n in s.releases) == One(n < |s.ids|)
    && (n in s.withdrawn ==> n in s.releases && n !in s.delivered)
    && (n in s.delivered ==> n in s.held || n in s.releases || CountIn(leaving, n) > 0)
    && s.acks[n] == One(c.supportsCancellation && n in s.releases && s.releases[n].own == s.releases[n].now)
  }

  lemma CleanupKeeps(c: Config, s: State, leaving: seq<Entry>, r: Request, n: nat)
    requires Placed(c, s, leaving + [Ready(r)], n)
    ensures Placed(c, Cleanup(c, s, r), leaving, n)
  {
    CountMore(leaving, Ready(r), n);
  }

  lemma {:induction false} CleanupAllKeeps(c: Config, s: State, leaving: seq<Entry>, rest: seq<Entry>, n: nat)
    requires Placed(c, s, rest + leaving, n)
    ensures Placed(c, CleanupAll(c, s, leaving), rest, n)
    decreases |leaving|, 0
  {
    if leaving == [] {
      assert rest + leaving == rest;
    } else {
      var e, others := leaving[|leaving| - 1], leaving[..|leaving| - 1];
      assert rest + leaving == rest + others + [e];
      CleanupOthers(c, s, rest, others, e, n);
      if e.Ready? {
        CleanupKeeps(c, CleanupAll(c, s, others), rest, e.request, n);
      } else {
        CountMore(rest, e, n);
      }
    }
  }

  lemma {:induction false} CleanupOthers(c: Config, s: State, rest: seq<Entry>, others: seq<Entry>, e: Entry, n: nat)
    requires Placed(c, s, rest + others + [e], n)
    ensures Placed(c, CleanupAll(c, s, others), rest + [e], n)
    decreases |others|, 1
  {
    CountApart(rest + others, [e], n);
    CountApart(rest, others, n);
    CountApart(rest + [e], others, n);
    CountApart(rest, [e], n);
    assert Placed(c, s, rest + [e] + others, n);
    CleanupAllKeeps(c, s, others, rest + [e], n);
  }

  lemma PushKeeps(c: Config, s: State, e: Entry, n: nat)
    requires Placed(c, s, [e], n) && (e.Ready? && e.request.serial == n ==> n !in s.delivered)
    ensures Placed(c, Push(c, s, e), [], n)
  {
    hide CountIn;
    CountMore(s.inbox, e, n);
    CountMore([], e, n);
    assert [] + [e] == [e];
  }

  lemma TrackKeeps(c: Config, s: State, id: Bytes, own: nat, n: nat)
    requires Placed(c, s, [], n)
    ensures Placed(c, Track(s, id), [Ready(Request(|s.ids|, id, own))], n)
    ensures n == |s.ids| ==> n !in s.delivered
  {
    CountMore([], Ready(Request(|s.ids|, id, own)), n);
    assert [] + [Ready(Request(|s.ids|, id, own))] == [Ready(Request(|s.ids|, id, own))];
  }

  lemma FaultKeeps(c: Config, s: State, e: Error, n: nat)
    requires Placed(c, s, [], n)
    ensures Placed(c, Push(c, s, Fault(e)), [], n)
  {
    CountMore([], Fault(e), n);
    assert [] + [Fault(e)] == [Fault(e)];
    PushKeeps(c, s, Fault(e), n);
  }

  lemma ArriveKeeps(c: Config, s: State, payload: Bytes, generation: nat, n: nat)
    requires Placed(c, s, [], n)
    ensures Placed(c, OnArrive(c, s, payload, generation), [], n)
  {
    hide Placed, DecodeCall, Push, Track;
    match DecodeCall(payload, c.pattern, c.supportsCancellation)
    case Err(e) => FaultKeeps(c, s, e, n);
    case Ok(None) =>
    case Ok(Some(call)) =>
      TrackKeeps(c, s, call.id, generation, n);
      TrackDelivers(s, call.id);
      PushKeeps(c, Track(s, call.id), Ready(Request(|s.ids|, call.id, generation)), n);
  }

  lemma TrackDelivers(s: State, id: Bytes)
    ensures Track(s, id).delivered == s.delivered
  {
  }

  lemma WithdrawKeeps(c: Config, s: State, k: nat, n: nat)
    requires Placed(c, s, [], n) && k < |s.inbox| && s.inbox[k].Ready?
    ensures Placed(c, Withdrawn(c, s, k), [], n)
  {
    hide Cleanup;
    var r := s.inbox[k].request;
    var less := s.(inbox := s.inbox[..k] + s.inbox[k + 1..]);
    CountWithout(s.inbox, k, n);
    CountMore([], s.inbox[k], n);
    assert Placed(c, less, [] + [Ready(r)], n);
    CleanupKeeps(c, less, [], r, n);
    MarkWithdrawn(c, less, r, n);
  }

  /** The note of the withdrawal may as well be made after the cleanup. */
  lemma MarkWithdrawn(c: Config, s: State, r: Request, n: nat)
    requires Placed(c, Cleanup(c, s, r), [], n) && (n == r.serial ==> n !in s.delivered)
    ensures Placed(c, Cleanup(c, s.(withdrawn := s.withdrawn + {r.serial}), r), [], n)
  {
  }

  lemma CancelKeeps(c: Config, s: State, id: Bytes, n: nat)
    requires Placed(c, s, [], n)
    ensures Placed(c, OnCancel(c, s, id), [], n)
  {
    hide Withdrawn;
    if Buffered(s.inbox, id) {
      WithdrawKeeps(c, s, Position(s.inbox, id), n);
    }
  }

  lemma PollKeeps(c: Config, s: State, n: nat)
    requires Placed(c, s, [], n)
    ensures Placed(c, OnPoll(s), [], n)
  {
    hide CountIn;
    if s.inbox != [] {
      CountWithout(s.inbox, 0, n);
      assert s.inbox[..0] + s.inbox[1..] == s.inbox[1..];
    }
  }

  lemma ClearKeeps(c: Config, s: State, closed: bool, canceled: set<nat>, n: nat)
    requires Placed(c, s, [], n)
    ensures Placed(c, CleanupAll(c, s.(closed := closed, inbox := [], canceled := canceled), s.inbox), [], n)
  {
    assert [] + s.inbox == s.inbox;
    CleanupAllKeeps(c, s.(closed := closed, inbox := [], canceled := canceled), s.inbox, [], n);
  }

  lemma DropKeeps(c: Config, s: State, m: nat, n: nat)
    requires Placed(c, s, [], n) && m in s.held && s.held[m].serial == m
    ensures Placed(c, Cleanup(c, s.(held := s.held - {m}), s.held[m]), [], n)
  {
    CountMore([], Ready(s.held[m]), n);
    CleanupKeeps(c, s.(held := s.held - {m}), [], s.held[m], n);
  }

  lemma StepKeepsPlaced(c: Config, s: State, e: Event, n: nat)
    requires Placed(c, s, [], n) && Enabled(s, e) && (e.DropRequest? ==> s.held[e.serial].serial == e.serial)
    ensures Placed(c, Step(c, s, e), [], n)
  {
    hide OnArrive, OnCancel, OnPoll, Cleanup, Push;
    match e
    case Arrive(payload, generation) => ArriveKeeps(c, s, payload, generation, n);
    case Lag => FaultKeeps(c, s, Backpressure, n);
    case Lifecycle(payload) => if IsCancellation(payload) { CancelKeeps(c, s, payload[1..17], n); }
    case Poll => PollKeeps(c, s, n);
    case InboxCleared => ClearKeeps(c, s, s.closed, s.canceled, n);
    case DropWorker => ClearKeeps(c, s, true, s.canceled + Owners(s.active), n);
    case DropRequest(m) => DropKeeps(c, s, m, n);
    case _ =>
  }
}
