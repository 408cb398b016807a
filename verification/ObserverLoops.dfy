/**
 The observer task's loops (src/client_domains/lease.rs), changed in place, each proved to be a run of
 the interleaved system. A schedule says what happens beside the task before each request it makes
 and each poll of its buffer, and how the broker answers; a request nobody answers times out.
 */
module ObserverLoops {
  import opened Errors
  import opened LeasePages
  import opened LeaseObserver
  import opened ObserverLaws

  datatype Reply = Answered(count: nat, last: bool) | Refused(error: Error)
  datatype Beat = Beat(outside: seq<Event>, reply: Reply)
  datatype Scan = Scan(items: seq<LeaseItem>, from: Cursor, next: Option<Cursor>)

  predicate Outside(outside: seq<Event>) {
    forall k :: 0 <= k < |outside| ==> FromOutside(outside[k])
  }

  predicate Scheduled(beats: seq<Beat>) {
    forall k :: 0 <= k < |beats| ==> Outside(beats[k].outside)
  }

  lemma HistoryGrows(w: World, e: Event)
    requires Possible(w, e)
    ensures w.history <= Happen(w, e).history
  {
  }

  lemma Extended(s: State, es: seq<Event>, e: Event)
    requires Enabled(Run(s, es), e)
    ensures Run(s, es + [e]) == Step(Run(s, es), e)
  {
    var more, r := Extend(s, es, e);
  }

  class ObserverTask {
    var world: World
    var view: Items
    var ready: bool
    var baseline: nat
    ghost var pc: Pc
    ghost var viewVersion: nat
    ghost var unheeded: bool
    ghost var dirty: bool

    ghost function Model(): State
      reads this
    {
      State(world, Observer(pc, baseline, view, ready, viewVersion, unheeded, dirty))
    }

    method Meanwhile(outside: seq<Event>)
      requires Outside(outside)
      modifies this`world
      ensures Model() == Run(old(Model()), outside) && old(world).history <= world.history
    {
      for i := 0 to |outside|
        invariant Model() == Run(old(Model()), outside[..i]) && old(world).history <= world.history
      {
        assert outside[..i + 1][..i] == outside[..i];
        if Possible(world, outside[i]) {
          HistoryGrows(world, outside[i]);
          world := Happen(world, outside[i]);
        }
      }
      assert outside[..|outside|] == outside;
    }

    /** The time until the next thing the task does. */
    method Wait(beats: seq<Beat>, ghost start: State, ghost sofar: seq<Event>)
      returns (reply: Reply, rest: seq<Beat>, ghost es: seq<Event>)
      requires Scheduled(beats) && Model() == Run(start, sofar)
      modifies this`world
      ensures Model() == Run(start, es) && old(world).history <= world.history && sofar <= es
      ensures Model().o == old(Model()).o
      ensures Scheduled(rest) && |rest| <= |beats| && (beats != [] ==> |rest| < |beats|)
      ensures beats == [] ==> reply.Refused? && world == old(world)
    {
      if beats == [] {
        return Refused(Timeout), [], sofar;
      }
      Meanwhile(beats[0].outside);
      RunSplit(start, sofar, beats[0].outside);
      return beats[0].reply, beats[1..], sofar + beats[0].outside;
    }

    /** `LeaseClient::list`, as the broker answers it. */
    method List(cursor: Option<Cursor>, reply: Reply) returns (r: Result<Scan>)
      requires world.history != [] && pc.Listing? && pc.cursor == cursor
      ensures r.Ok? ==> (
                && reply.Answered? && CanAct(Model(), Page(reply.count, reply.last))
                && r.value.from == PageCursor(Model())
                && var end := r.value.from.offset + reply.count;
                   && r.value.items == world.history[r.value.from.version][r.value.from.offset..end]
                   && r.value.next == if reply.last then None else Some(Cursor(r.value.from.version, end)))
    {
      if reply.Refused? {
        return Err(reply.error);
      }
      var from := if cursor.Some? then cursor.value else Cursor(|world.history| - 1, 0);
      var end := from.offset + reply.count;
      if world.link != Up || from.version >= |world.history| || end > |world.history[from.version]|
         || (reply.last && end < |world.history[from.version]|) {
        return Err(Timeout);
      }
      return Ok(Scan(world.history[from.version][from.offset..end], from,
                     if reply.last then None else Some(Cursor(from.version, end))));
    }

    method InsertAll(items: Items, page: seq<LeaseItem>) returns (r: Items)
      ensures r == Insert(items, page)
    {
      r := items;
      for i := 0 to |page|
        invariant r == Insert(items, page[..i])
      {
        assert page[..i + 1][..i] == page[..i];
        r := r[page[i].route := page[i]];
      }
      assert page[..|page|] == page;
    }

    method FullList(beats: seq<Beat>, ghost start: State, ghost sofar: seq<Event>)
      returns (r: Result<Items>, rest: seq<Beat>, ghost es: seq<Event>)
      requires Scheduled(beats) && world.history != [] && Model() == Run(start, sofar)
      requires pc.Listing? && pc.cursor == None && pc.items == map[]
      modifies this`world, this`pc
      ensures Scheduled(rest) && |rest| <= |beats| && (beats != [] ==> |rest| < |beats|)
      ensures world.history != [] && (beats == [] ==> r.Err?) && sofar <= es
      ensures r.Err? ==> Run(start, es) == OnError(Model(), old(pc).mode, r.error)
      ensures r.Err? ==> es != [] && es[|es| - 1] == ListError(r.error)
      ensures r.Ok? ==> (Model() == Run(start, es) && pc.Draining?
                         && pc == Draining(old(pc).mode, old(pc).epoch, pc.version, r.value, false))
    {
      hide Happen, Run, Possible;
      rest, es := beats, sofar;
      var items: Items := map[];
      var cursor := None;
      while true
        invariant Scheduled(rest) && |rest| <= |beats| && (cursor.Some? ==> |rest| < |beats|)
        invariant world.history != [] && Model() == Run(start, es) && sofar <= es
        invariant pc == Listing(old(pc).mode, old(pc).epoch, cursor, items)
        decreases |rest|
      {
        var reply;
        reply, rest, es := Wait(rest, start, es);
        var page := List(cursor, reply);
        if page.Err? {
          Extended(start, es, ListError(page.error));
          return Err(page.error), rest, es + [ListError(page.error)];
        }
        Extended(start, es, Event.Page(reply.count, reply.last));
        es := es + [Event.Page(reply.count, reply.last)];
        pc := OnPage(Model(), reply.count, reply.last);
        items := InsertAll(items, page.value.items);
        if page.value.next.None? {
          return Ok(items), rest, es;
        }
        cursor := page.value.next;
      }
    }

    method DrainInvalidationBuffer(beats: seq<Beat>, ghost start: State, ghost sofar: seq<Event>)
      returns (r: Result<bool>, rest: seq<Beat>, ghost es: seq<Event>)
      requires Scheduled(beats) && world.history != [] && Model() == Run(start, sofar)
      requires pc.Draining? && !pc.invalidated
      modifies this`world, this`pc, this`unheeded
      ensures Scheduled(rest) && |rest| <= |beats| && world.history != [] && sofar <= es
      ensures r.Err? ==> Run(start, es) == OnError(Model(), old(pc).mode, r.error)
      ensures r.Err? ==> r.error == Backpressure || r.error == Codec
      ensures r.Ok? ==> Model() == Run(start, es)
      ensures r == Ok(true) ==> pc == TakeEpoch(old(pc).mode)
      ensures r == Ok(false) ==> pc == Installing(old(pc).mode, old(pc).epoch, old(pc).version, old(pc).items)
    {
      rest, es := beats, sofar;
      var invalidated := false;
      while true
        invariant Scheduled(rest) && |rest| <= |beats|
        invariant world.history != [] && Model() == Run(start, es) && sofar <= es
        invariant pc == old(pc).(invalidated := invalidated)
        decreases |rest|, |world.buffer|
      {
        var reply;
        reply, rest, es := Wait(rest, start, es);
        Extended(start, es, Poll);
        es := es + [Poll];
        match PollResult(world)
        case Empty =>
          pc := if invalidated then TakeEpoch(pc.mode) else Installing(pc.mode, pc.epoch, pc.version, pc.items);
          return Ok(invalidated), rest, es;
        case Overflow =>
          world := world.(lagged := false);
          return Err(Backpressure), rest, es;
        case Unreadable =>
          world, unheeded := world.(buffer := world.buffer[1..]), true;
          return Err(Codec), rest, es;
        case Foreign =>
          world := world.(buffer := world.buffer[1..]);
        case Ours =>
          world, unheeded := world.(buffer := world.buffer[1..]), true;
          invalidated, pc := true, pc.(invalidated := true);
      }
    }

    /** The loop of `bootstrap` and of `reconcile_after_invalidation`, which differ in setting `ready`. */
    method ListingPass(mode: Mode, beats: seq<Beat>, ghost start: State, ghost sofar: seq<Event>)
      returns (r: Result<()>, rest: seq<Beat>, ghost es: seq<Event>)
      requires Scheduled(beats) && world.history != [] && Model() == Run(start, sofar) && pc == TakeEpoch(mode)
      modifies this
      ensures Scheduled(rest) && world.history != [] && sofar <= es
      ensures r.Err? ==> Run(start, es) == OnError(Model(), mode, r.error)
      ensures r == Err(Closed) ==> es != [] && es[|es| - 1] == ListError(Closed)
      ensures r.Ok? ==> Model() == Run(start, es) && !unheeded && !dirty && (pc == if mode.Boot? then Checking else Idle)
      ensures r.Ok? ==> es != [] && es[|es| - 1] == Install && (mode.Boot? ==> ready)
    {
      hide Run, OnError;
      rest, es := beats, sofar;
      while true
        invariant Scheduled(rest) && world.history != [] && Model() == Run(start, es) && pc == TakeEpoch(mode)
        invariant sofar <= es
        decreases |rest|
      {
        var notificationEpoch := StartPass(mode, start, es);
        es := es + [ReadEpoch];
        var listed;
        listed, rest, es := FullList(rest, start, es);
        if listed.Err? {
          return Err(listed.error), rest, es;
        }
        var drained;
        drained, rest, es := DrainInvalidationBuffer(rest, start, es);
        if drained.Err? {
          return Err(drained.error), rest, es;
        }
        if !drained.value {
          var reply;
          reply, rest, es := Wait(rest, start, es);
          var installed := TryInstall(mode, notificationEpoch, listed.value, start, es);
          es := es + [Install];
          if installed {
            return Ok(()), rest, es;
          }
        }
      }
    }

    method StartPass(mode: Mode, ghost start: State, ghost es: seq<Event>) returns (notificationEpoch: nat)
      requires Model() == Run(start, es) && pc == TakeEpoch(mode)
      modifies this`pc
      ensures Model() == Run(start, es + [ReadEpoch])
      ensures pc == Listing(mode, notificationEpoch, None, map[]) && notificationEpoch == world.epoch
    {
      Extended(start, es, ReadEpoch);
      notificationEpoch := world.epoch;
      pc := Listing(mode, notificationEpoch, None, map[]);
    }

    /** `install_if_notification_epoch` */
    method TryInstall(mode: Mode, expected: nat, listed: Items, ghost start: State, ghost es: seq<Event>)
      returns (installed: bool)
      requires Model() == Run(start, es) && pc.Installing?
      requires pc == Installing(mode, expected, pc.version, listed)
      modifies this
      ensures Model() == Run(start, es + [Install]) && world == old(world)
      ensures installed ==> !unheeded && !dirty && (mode.Boot? ==> ready) && (pc == if mode.Boot? then Checking else Idle)
      ensures !installed ==> pc == TakeEpoch(mode)
    {
      Extended(start, es, Install);
      if world.epoch != expected {
        pc := TakeEpoch(mode);
        return false;
      }
      view, viewVersion, unheeded, dirty := listed, pc.version, false, false;
      if mode.Boot? {
        ready := true;
      }
      pc := if mode.Boot? then Checking else Idle;
      return true;
    }

    /** The arms that `observe_loop` and `steady_state` have for a failed pass. */
    method AfterError(mode: Mode, e: Error)
      modifies this
      ensures Model() == OnError(old(Model()), mode, e)
    {
      if e == Closed {
        pc := Done;
      } else if MustBeReplaced(e) {
        ready := false;
        world := world.(registered := false, active := None);
        pc := Replacing(mode.Boot?);
      } else {
        match mode
        case Boot => pc := TakeEpoch(Boot);
        case Notified => ready, pc := false, Outer;
        case Periodic => pc, dirty := Idle, unheeded;
      }
    }

    /** A pass, and what its caller does when it fails. */
    method PassFor(mode: Mode, beats: seq<Beat>, ghost start: State, ghost sofar: seq<Event>) returns (ghost es: seq<Event>)
      requires Scheduled(beats) && world.history != [] && Model() == Run(start, sofar) && pc == TakeEpoch(mode)
      modifies this
      ensures Model() == Run(start, es) && sofar <= es
      ensures pc == Idle && mode.Notified? ==> !unheeded && es[|es| - 1] == Install
      ensures pc == Idle && mode.Periodic? ==> unheeded == dirty
      ensures pc == Checking ==> ready && es != [] && es[|es| - 1] == Install
      ensures pc.TakeEpoch? ==> mode.Boot?
      ensures pc == Done ==> es != [] && es[|es| - 1] == ListError(Closed)
    {
      var r, _, done := ListingPass(mode, beats, start, sofar);
      es := done;
      if r.Err? {
        AfterError(mode, r.error);
      }
    }

    /** One attempt of `observe_loop` to bootstrap. */
    method BootstrapAttempt(beats: seq<Beat>) returns (ghost es: seq<Event>)
      requires Scheduled(beats) && world.history != [] && pc == TakeEpoch(Boot)
      modifies this
      ensures Model() == Run(old(Model()), es)
      ensures pc == Checking ==> ready && es != [] && es[|es| - 1] == Install
      ensures pc == Done ==> es != [] && es[|es| - 1] == ListError(Closed)
    {
      NoEvents(Model());
      es := PassFor(Boot, beats, Model(), []);
    }

    /** The reconciliation timer of `steady_state` fires. */
    method PeriodicTick(beats: seq<Beat>) returns (ghost es: seq<Event>)
      requires Scheduled(beats) && world.history != [] && pc == Idle
      modifies this
      ensures Model() == Run(old(Model()), es) && [Tick] <= es
      ensures !pc.TakeEpoch? && (pc == Idle ==> unheeded == dirty)
    {
      ghost var start := Model();
      NoEvents(start);
      Extended(start, [], Tick);
      pc := TakeEpoch(Periodic);
      es := PassFor(Periodic, beats, start, [] + [Tick]);
    }

    /** The notification arm of `steady_state`, with something in the buffer. */
    method NotificationArrives(beats: seq<Beat>) returns (ghost es: seq<Event>)
      requires Scheduled(beats) && world.history != [] && pc == Idle && !PollResult(world).Empty?
      modifies this
      ensures Model() == Run(old(Model()), es) && [Poll] <= es
      ensures PollResult(old(world)).Ours? && pc == Idle ==> es[|es| - 1] == Install && !unheeded
    {
      ghost var start := Model();
      NoEvents(start);
      Extended(start, [], Poll);
      var polled := PollResult(world);
      TakeNotification();
      es := [] + [Poll];
      if polled.Ours? {
        es := PassFor(Notified, beats, start, es);
      }
    }

    method TakeNotification()
      requires pc == Idle && !PollResult(world).Empty?
      modifies this
      ensures Model() == OnNotification(old(Model()))
      ensures PollResult(old(world)).Ours? ==> pc == TakeEpoch(Notified) && world.history == old(world).history
    {
      match PollResult(world)
      case Foreign => world := world.(buffer := world.buffer[1..]);
      case Overflow => Surrender(world.(lagged := false), unheeded);
      case Unreadable => Surrender(world.(buffer := world.buffer[1..]), true);
      case Ours =>
        world, unheeded := world.(buffer := world.buffer[1..]), true;
        pc := TakeEpoch(Notified);
    }

    /** The subscription has failed and is given up. */
    method Surrender(left: World, ghost heard: bool)
      modifies this
      ensures Model() == GiveUp(State(left, old(Model()).o.(unheeded := heard)), false)
    {
      world := left.(registered := false, active := None);
      unheeded, ready, pc := heard, false, Replacing(false);
    }
  }
}
