/** The worker's inbox, event loop and requests, changed in place. */
module RpcWorkerTask {
  import opened ByteStrings
  import opened Errors
  import opened Codec
  import opened WireLists
  import opened Routes
  import opened RpcWorker

  method ReadBudget(d: PayloadDecoder) returns (r: Result<Option<u32>>)
    requires d.Valid()
    modifies d`pos
    ensures r == DecodeBudget(old(d.Rest()))
  {
    var flag :- d.GetU8();
    if flag == 0 {
      var empty := d.IsEmpty();
      return if empty then Ok(None) else Err(Protocol);
    }
    var budget :- d.GetU32();
    var empty := d.IsEmpty();
    r := if flag != 1 || !empty || budget > MAX_BUDGET_MS then Err(Protocol) else Ok(Some(budget));
  }

  method ReadCall(payload: Bytes, pattern: Bytes, supportsCancellation: bool) returns (r: Result<Option<Call>>)
    ensures r == DecodeCall(payload, pattern, supportsCancellation)
  {
    hide RouteMatches, DecodeBudget, TakeText, TakeBlob;
    var d := new PayloadDecoder(payload);
    var id :- d.GetFixed(16);
    var route :- GetText(d);
    var matches := RouteMatchesPattern(route, pattern);
    if !matches {
      return Ok(None);
    }
    var body :- GetBlob(d);
    var empty := d.IsEmpty();
    if !supportsCancellation && !empty {
      return Err(Protocol);
    }
    var budget :- ReadBudget(d);
    r := Ok(Some(Call(id, route, body, budget)));
  }

  class Worker {
    const config: Config
    var generation: nat
    var inbox: seq<Entry>
    var closed: bool
    var active: map<Bytes, ActiveCall>
    var held: map<nat, Request>
    // The ids decoded so far number the requests; the program does not keep them.
    var ids: seq<Bytes>
    ghost var since: nat
    ghost var delivered: set<nat>
    ghost var withdrawn: set<nat>
    ghost var releases: map<nat, Release>
    ghost var acks: multiset<nat>
    ghost var canceled: set<nat>

    ghost function View(): State
      reads this
    {
      State(generation, inbox, closed, active, held, ids, since, delivered, withdrawn, releases, acks, canceled)
    }

    constructor (config: Config, generation: nat)
      ensures View() == Start(generation) && this.config == config
    {
      this.config := config;
      this.generation := generation;
      inbox, closed, active, held, ids := [], false, map[], map[], [];
      since, delivered, withdrawn, releases, acks, canceled := 0, {}, {}, map[], multiset{}, {};
    }

    /** `WorkerInbox::push`, and the rejection of a request it hands back. */
    method Offer(e: Entry)
      modifies this
      ensures View() == Push(config, old(View()), e)
    {
      if closed || |inbox| >= config.capacity {
        if e.Ready? {
          held := held[e.request.serial := e.request];
        }
      } else {
        inbox := inbox + [e];
      }
    }

    method HandleArrival(payload: Bytes, stamp: nat)
      modifies this
      ensures View() == Step(config, old(View()), Arrive(payload, stamp))
    {
      hide DecodeCall, Push;
      if stamp != generation {
        return;
      }
      var call := ReadCall(payload, config.pattern, config.supportsCancellation);
      if call.Err? {
        Offer(Fault(call.error));
      } else if call.value.Some? {
        var request := Request(|ids|, call.value.value.id, stamp);
        active := active[request.id := ActiveCall(request.serial, false)];
        ids := ids + [request.id];
        Offer(Ready(request));
      }
    }

    /** `RpcRequest::finish_cleanup`, which dropping a request always reaches. */
    method FinishCleanup(r: Request)
      modifies this
      ensures View() == Cleanup(config, old(View()), r)
    {
      active := active - {r.id};
      releases := releases[r.serial := Release(r.generation, generation)];
      if config.supportsCancellation && r.generation == generation {
        acks := acks + multiset{r.serial};
      }
    }

    /** `WorkerInbox::remove` */
    method Find(id: Bytes) returns (found: Option<nat>)
      ensures found.Some? <==> Buffered(inbox, id)
      ensures found.Some? ==> found.value == Position(inbox, id)
    {
      for k := 0 to |inbox|
        invariant forall j :: 0 <= j < k ==> !IsFor(inbox[j], id)
      {
        if inbox[k].Ready? && inbox[k].request.id == id {
          PositionIsFirst(inbox, id, k);
          return Some(k);
        }
      }
      found := None;
    }

    method HandleLifecycle(payload: Bytes)
      modifies this
      ensures View() == Step(config, old(View()), Lifecycle(payload))
    {
      if |payload| == 18 && payload[0] == 2 && 1 <= payload[17] <= 4 {
        HandleCancellation(payload[1..17]);
      }
    }

    method HandleCancellation(id: Bytes)
      modifies this
      ensures View() == OnCancel(config, old(View()), id)
    {
      var found := Find(id);
      match found
      case Some(k) =>
        var r := inbox[k].request;
        inbox := inbox[..k] + inbox[k + 1..];
        withdrawn := withdrawn + {r.serial};
        FinishCleanup(r);
      case None =>
        if id in active {
          active := active[id := active[id].(requested := true)];
          canceled := canceled + {active[id].serial};
        }
    }

    method PollNext() returns (e: Option<Entry>)
      modifies this
      ensures View() == Step(config, old(View()), Poll)
      ensures e == if old(inbox) == [] then None else Some(old(inbox)[0])
    {
      if inbox == [] {
        return None;
      }
      e := Some(inbox[0]);
      if inbox[0].Ready? {
        var r := inbox[0].request;
        held := held[r.serial := r];
        delivered := delivered + {r.serial};
      }
      inbox := inbox[1..];
    }

    /** Whoever holds a request drops it. */
    method Drop(serial: nat)
      requires serial in held
      modifies this
      ensures View() == Step(config, old(View()), DropRequest(serial))
    {
      var r := held[serial];
      held := held - {serial};
      FinishCleanup(r);
    }

    /** `WorkerInbox::clear`: the requests taken out are dropped one after the other. */
    method ClearInbox()
      modifies this
      ensures View() == Step(config, old(View()), InboxCleared)
    {
      var requests := inbox;
      inbox := [];
      ghost var start := View();
      for k := 0 to |requests|
        invariant View() == CleanupAll(config, start, requests[..k])
      {
        assert requests[..k + 1][..k] == requests[..k];
        if requests[k].Ready? {
          FinishCleanup(requests[k].request);
        }
      }
      assert requests[..|requests|] == requests;
    }

    /** The loop over the entries that cancels the token of each. */
    method CancelAll()
      modifies this`canceled
      ensures canceled == old(canceled) + Owners(active)
    {
      var rest := active.Keys;
      while rest != {}
        invariant rest <= active.Keys
        invariant canceled == old(canceled) + set id | id in active && id !in rest :: active[id].serial
      {
        var id :| id in rest;
        canceled := canceled + {active[id].serial};
        rest := rest - {id};
      }
    }

    /** A new generation has been seen; `ClearInbox` follows. */
    method ClearTracking()
      modifies this
      ensures View() == Step(config, old(View()), GenerationSeen)
    {
      CancelAll();
      active := map[];
      since := |ids|;
    }

    /** Dropping the worker closes the inbox and then clears it. */
    method Close()
      modifies this
      ensures View() == Step(config, old(View()), DropWorker)
    {
      CancelAll();
      closed := true;
      ClearInbox();
    }

    /** The event loop's own end closes the inbox and leaves what is in it to be polled. */
    method EndLoop()
      modifies this
      ensures View() == Step(config, old(View()), LoopEnds)
    {
      closed := true;
    }
  }

  lemma {:induction false} PositionIsFirst(inbox: seq<Entry>, id: Bytes, k: nat)
    requires k < |inbox| && IsFor(inbox[k], id)
    requires forall j :: 0 <= j < k ==> !IsFor(inbox[j], id)
    ensures Position(inbox, id) == k
  {
    if k > 0 {
      assert inbox[1..][k - 1] == inbox[k];
      assert forall j :: 0 <= j < k - 1 ==> inbox[1..][j] == inbox[j + 1];
      PositionIsFirst(inbox[1..], id, k - 1);
    }
  }
}
