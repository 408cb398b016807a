/**
 The lease observer (src/client_domains/lease.rs) and the broker, connection and dispatch it runs
 beside, as one interleaved system of steps.

 What is assumed of the environment is written into the events: a change of the inventory while the
 link is up and the subscription registered puts one notification for this subscription on the link;
 all pages of one scan come from the snapshot its cursor names; a reconnect restores the
 subscription; SUBSCRIBE is answered and registered within one session.
 */
module LeaseObserver {
  import opened ByteStrings
  import opened Errors
  import opened LeasePages

  /** Receiver capacity for LEASE_NOTIFY. */
  const CAPACITY := 64

  type Items = map<Bytes, LeaseItem>

  /** A LEASE_NOTIFY frame: too short for an id, or an id and a route that may not decode. `at` is the change it reports. */
  datatype Note = Short | Note(sid: nat, readable: bool, at: nat)

  /** `Lost` is a link that has failed before the generation was advanced for it. */
  datatype Link = Up | Lost | Down

  /** Which caller a listing pass serves. */
  datatype Mode = Boot | Notified | Periodic

  datatype Cursor = Cursor(version: nat, offset: nat)

  datatype Pc =
    | Outer
    | TakeEpoch(mode: Mode)
    | Listing(mode: Mode, epoch: nat, cursor: Option<Cursor>, items: Items)
    | Draining(mode: Mode, epoch: nat, version: nat, items: Items, invalidated: bool)
    | Installing(mode: Mode, epoch: nat, version: nat, items: Items)
    | Checking
    | Idle
    | Replacing(boot: bool)
    | Done

  /** The broker, the connection with its dispatch, and the observer's subscription. */
  datatype World = World(
    history: seq<seq<LeaseItem>>,
    active: Option<nat>,
    link: Link,
    generation: nat,
    net: seq<Note>,
    epoch: nat,
    between: Option<Note>,
    buffer: seq<Note>,
    lagged: bool,
    sid: nat,
    registered: bool)

  /**
   The observer task. `viewVersion` is the snapshot last installed, `unheeded` says an invalidation
   has been consumed since, and `dirty` that a periodic pass failed after consuming one.
   */
  datatype Observer = Observer(
    pc: Pc, baseline: nat, view: Items, ready: bool, viewVersion: nat, unheeded: bool, dirty: bool)

  datatype State = State(w: World, o: Observer)

  datatype Event =
    | Change(listing: seq<LeaseItem>, readable: bool)
    | Noise(note: Note)
    | Break
    | Advance
    | Reconnect(sid: nat)
    | CloseClient
    | BumpEpoch
    | Broadcast
    | Begin
    | ReadEpoch
    | Page(count: nat, last: bool)
    | ListError(error: Error)
    | Poll
    | Install
    | CheckGeneration
    | Wakeup
    | Tick
    | Resubscribe(sid: nat)
    | ResubscribeError(error: Error)
    | Shutdown

  // ---------------------------------------------------------------- listings

  /** The loop of `full_list` over the items of a page. */
  function Insert(items: Items, page: seq<LeaseItem>): Items {
    if page == [] then items
    else Insert(items, page[..|page| - 1])[page[|page| - 1].route := page[|page| - 1]]
  }

  function Inventory(listing: seq<LeaseItem>): Items {
    Insert(map[], listing)
  }

  function Version(w: World): int {
    |w.history| - 1
  }

  // ---------------------------------------------------------------- the broker, the link and dispatch

  /** Whether an event happens without the observer. */
  predicate FromOutside(e: Event) {
    e.Change? || e.Noise? || e.Break? || e.Advance? || e.Reconnect? || e.CloseClient? || e.BumpEpoch? || e.Broadcast?
  }

  predicate Possible(w: World, e: Event) {
    match e
    case Change(_, _) | CloseClient => true
    case Noise(note) => note.Note? ==> note.at == 0
    case Break => w.link == Up
    case Advance => w.link == Lost && w.between.None?
    case Reconnect(_) => w.link == Down
    case BumpEpoch => w.net != [] && w.between.None?
    case Broadcast => w.between.Some?
    case _ => false
  }

  function Happen(w: World, e: Event): World
    requires Possible(w, e)
  {
    match e
    case Change(listing, readable) =>
      var changed := w.(history := w.history + [listing]);
      if w.link == Up && w.active.Some? then
        changed.(net := w.net + [Note(w.active.value, readable, |w.history|)])
      else changed
    case Noise(note) => w.(net := w.net + [note])
    case Break => w.(link := Lost, net := [])
    case Advance => w.(link := Down, generation := w.generation + 1)
    case Reconnect(sid) =>
      if w.registered then w.(link := Up, active := Some(sid), sid := sid) else w.(link := Up, active := None)
    case CloseClient => w.(generation := w.generation + 1)
    case BumpEpoch => w.(net := w.net[1..], epoch := w.epoch + 1, between := Some(w.net[0]))
    case Broadcast =>
      w.(buffer := (if |w.buffer| < CAPACITY then w.buffer else w.buffer[1..]) + [w.between.value],
         between := None, lagged := w.lagged || |w.buffer| >= CAPACITY)
  }

  // ---------------------------------------------------------------- the observer

  predicate MustBeReplaced(e: Error) {
    e.Backpressure? || e.ConnectionClosed?
  }

  /** `ready` is withdrawn and the subscription given up. */
  function GiveUp(s: State, boot: bool): State {
    State(s.w.(registered := false, active := None), s.o.(ready := false, pc := Replacing(boot)))
  }

  /** How a pass that failed ends, by the caller it served. */
  function OnError(s: State, mode: Mode, e: Error): State {
    if e == Closed then s.(o := s.o.(pc := Done))
    else if MustBeReplaced(e) then GiveUp(s, mode.Boot?)
    else
      match mode
      case Boot => s.(o := s.o.(pc := TakeEpoch(Boot)))
      case Notified => s.(o := s.o.(ready := false, pc := Outer))
      case Periodic => s.(o := s.o.(pc := Idle, dirty := s.o.unheeded))
  }

  /** What one poll of the subscription finds in its buffer. */
  datatype Polled = Empty | Overflow | Foreign | Unreadable | Ours

  function PollResult(w: World): Polled {
    if w.lagged then Overflow
    else if w.buffer == [] then Empty
    else
      match w.buffer[0]
      case Short => Unreadable
      case Note(sid, readable, _) => if sid != w.sid then Foreign else if readable then Ours else Unreadable
  }

  /** The state after a poll took what it found. */
  function Consume(s: State): State {
    match PollResult(s.w)
    case Empty => s
    case Overflow => s.(w := s.w.(lagged := false))
    case Foreign => s.(w := s.w.(buffer := s.w.buffer[1..]))
    case _ => State(s.w.(buffer := s.w.buffer[1..]), s.o.(unheeded := true))
  }

  /** One poll in `drain_invalidation_buffer`. */
  function OnDrain(s: State): State
    requires s.o.pc.Draining?
  {
    var c, pc := Consume(s), s.o.pc;
    match PollResult(s.w)
    case Empty =>
      s.(o := s.o.(pc := if pc.invalidated then TakeEpoch(pc.mode)
                         else Installing(pc.mode, pc.epoch, pc.version, pc.items)))
    case Overflow => OnError(c, pc.mode, Backpressure)
    case Foreign => c
    case Unreadable => OnError(c, pc.mode, Codec)
    case Ours => c.(o := c.o.(pc := pc.(invalidated := true)))
  }

  /** The notification branch of `steady_state`. */
  function OnNotification(s: State): State {
    var c := Consume(s);
    match PollResult(s.w)
    case Empty | Foreign => c
    case Overflow | Unreadable => GiveUp(c, false)
    case Ours => c.(o := c.o.(pc := TakeEpoch(Notified)))
  }

  /** The first page of a scan takes the snapshot. */
  function PageCursor(s: State): Cursor
    requires s.o.pc.Listing? && s.w.history != []
  {
    if s.o.pc.cursor.Some? then s.o.pc.cursor.value else Cursor(Version(s.w), 0)
  }

  /** The page stays inside its snapshot, and the last page reaches its end. */
  predicate PageFits(s: State, count: nat, last: bool) {
    && s.o.pc.Listing? && s.w.history != []
    && var cursor := PageCursor(s);
       && cursor.version < |s.w.history|
       && cursor.offset + count <= |s.w.history[cursor.version]|
       && (last ==> cursor.offset + count == |s.w.history[cursor.version]|)
  }

  function OnPage(s: State, count: nat, last: bool): Pc
    requires PageFits(s, count, last)
  {
    var pc, cursor := s.o.pc, PageCursor(s);
    var end := cursor.offset + count;
    var items := Insert(pc.items, s.w.history[cursor.version][cursor.offset..end]);
    if last then Draining(pc.mode, pc.epoch, cursor.version, items, false)
    else Listing(pc.mode, pc.epoch, Some(Cursor(cursor.version, end)), items)
  }

  /** `install_if_notification_epoch` */
  function OnInstall(s: State): Observer
    requires s.o.pc.Installing?
  {
    var o, pc := s.o, s.o.pc;
    if s.w.epoch != pc.epoch then o.(pc := TakeEpoch(pc.mode))
    else
      o.(view := pc.items, viewVersion := pc.version, unheeded := false, dirty := false,
         ready := o.ready || pc.mode.Boot?,
         pc := if pc.mode.Boot? then Checking else Idle)
  }

  predicate CanAct(s: State, e: Event) {
    match e
    case Begin => s.o.pc.Outer?
    case ReadEpoch => s.o.pc.TakeEpoch?
    case Page(count, last) => s.w.link == Up && PageFits(s, count, last)
    case ListError(_) => s.o.pc.Listing?
    case Poll => s.o.pc.Draining? || (s.o.pc.Idle? && !PollResult(s.w).Empty?)
    case Install => s.o.pc.Installing?
    case CheckGeneration => s.o.pc.Checking?
    case Wakeup => s.o.pc.Idle? && s.w.generation != s.o.baseline
    case Tick => s.o.pc.Idle?
    case Resubscribe(_) => s.o.pc.Replacing? && s.w.link == Up
    case ResubscribeError(_) => s.o.pc.Replacing?
    case Shutdown => !s.o.pc.Done?
    case _ => false
  }

  function Act(s: State, e: Event): State
    requires CanAct(s, e)
  {
    match e
    case Begin => s.(o := s.o.(baseline := s.w.generation, pc := TakeEpoch(Boot)))
    case ReadEpoch => s.(o := s.o.(pc := Listing(s.o.pc.mode, s.w.epoch, None, map[])))
    case Page(count, last) => s.(o := s.o.(pc := OnPage(s, count, last)))
    case ListError(error) => OnError(s, s.o.pc.mode, error)
    case Poll => if s.o.pc.Draining? then OnDrain(s) else OnNotification(s)
    case Install => s.(o := OnInstall(s))
    case CheckGeneration =>
      if s.w.generation != s.o.baseline then s.(o := s.o.(ready := false, pc := Outer)) else s.(o := s.o.(pc := Idle))
    case Wakeup => s.(o := s.o.(ready := false, pc := Outer))
    case Tick => s.(o := s.o.(pc := TakeEpoch(Periodic)))
    case Resubscribe(sid) =>
      State(s.w.(active := Some(sid), sid := sid, registered := true, buffer := [], lagged := false),
            s.o.(pc := if s.o.pc.boot then TakeEpoch(Boot) else Outer))
    case ResubscribeError(error) => if error == Closed then s.(o := s.o.(pc := Done)) else s
    case Shutdown => s.(o := s.o.(pc := Done))
  }

  // ---------------------------------------------------------------- runs

  predicate Enabled(s: State, e: Event) {
    if FromOutside(e) then Possible(s.w, e) else CanAct(s, e)
  }

  function Step(s: State, e: Event): State
    requires Enabled(s, e)
  {
    if FromOutside(e) then s.(w := Happen(s.w, e)) else Act(s, e)
  }

  /** An observer whose SUBSCRIBE has just been answered. */
  predicate Starts(s: State) {
    && s.w.history != [] && s.w.link == Up && s.w.active == Some(s.w.sid) && s.w.registered
    && s.w.net == [] && s.w.between == None && s.w.buffer == [] && !s.w.lagged
    && s.o.pc == Outer && !s.o.ready && s.o.baseline <= s.w.generation
  }

  /** The state after these events; one that cannot happen where it stands is passed over. */
  function Run(s: State, es: seq<Event>): State {
    if es == [] then s
    else
      var before, e := Run(s, es[..|es| - 1]), es[|es| - 1];
      if Enabled(before, e) then Step(before, e) else before
  }
}
