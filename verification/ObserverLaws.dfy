/** The observer's view is coherent with the broker's inventory in every reachable state. */
module ObserverLaws {
  import opened Errors
  import opened LeasePages
  import opened LeaseObserver

  // ---------------------------------------------------------------- listings

  lemma {:induction false} InsertConcat(items: Items, a: seq<LeaseItem>, b: seq<LeaseItem>)
    ensures Insert(items, a + b) == Insert(Insert(items, a), b)
  {
    if b == [] {
      assert a + b == a;
    } else {
      assert (a + b)[..|a + b| - 1] == a + b[..|b| - 1];
      InsertConcat(items, a, b[..|b| - 1]);
    }
  }

  /** The page after a prefix of a listing gives the longer prefix. */
  lemma NextPage(listing: seq<LeaseItem>, offset: nat, count: nat)
    requires offset + count <= |listing|
    ensures Insert(Inventory(listing[..offset]), listing[offset..offset + count]) == Inventory(listing[..offset + count])
  {
    InsertConcat(map[], listing[..offset], listing[offset..offset + count]);
    assert listing[..offset] + listing[offset..offset + count] == listing[..offset + count];
  }

  // ---------------------------------------------------------------- invalidations on their way

  /** Notifications whose epoch has been advanced and which the observer has not taken. */
  function Dispatched(w: World): seq<Note> {
    w.buffer + if w.between.Some? then [w.between.value] else []
  }

  /** Every notification not yet taken by the observer, oldest first. */
  function OnTheWay(w: World): seq<Note> {
    Dispatched(w) + w.net
  }

  predicate Reports(note: Note, sid: nat, version: nat) {
    note.Note? && note.sid == sid && note.at > version
  }

  predicate HasNewer(notes: seq<Note>, sid: nat, version: nat) {
    exists k :: 0 <= k < |notes| && Reports(notes[k], sid, version)
  }

  predicate NotesKnown(notes: seq<Note>, version: int) {
    forall k :: 0 <= k < |notes| && notes[k].Note? ==> notes[k].at <= version
  }

  /** The session has ended since the observer took its baseline. */
  predicate Broken(w: World, baseline: nat) {
    w.generation != baseline || w.link == Lost
  }

  /** This version is the current one, or something will tell the observer that it is not. */
  predicate Warned(w: World, baseline: nat, version: nat) {
    version == Version(w) || HasNewer(OnTheWay(w), w.sid, version) || w.lagged || Broken(w, baseline)
  }

  lemma AppendNewer(notes: seq<Note>, more: seq<Note>, sid: nat, version: nat)
    ensures HasNewer(notes + more, sid, version) <==> HasNewer(notes, sid, version) || HasNewer(more, sid, version)
  {
    if HasNewer(notes, sid, version) {
      var k :| 0 <= k < |notes| && Reports(notes[k], sid, version);
      assert (notes + more)[k] == notes[k];
    }
    if HasNewer(more, sid, version) {
      var k :| 0 <= k < |more| && Reports(more[k], sid, version);
      assert (notes + more)[|notes| + k] == more[k];
    }
  }

  lemma KnownApart(notes: seq<Note>, more: seq<Note>, version: int)
    ensures NotesKnown(notes + more, version) <==> NotesKnown(notes, version) && NotesKnown(more, version)
  {
    if NotesKnown(notes + more, version) {
      forall k | 0 <= k < |notes| && notes[k].Note? ensures notes[k].at <= version {
        assert (notes + more)[k] == notes[k];
      }
      forall k | 0 <= k < |more| && more[k].Note? ensures more[k].at <= version {
        assert (notes + more)[|notes| + k] == more[k];
      }
    }
  }

  // ---------------------------------------------------------------- the broker, the link and dispatch

  /** A world the observer can stand in, with the baseline it took. */
  predicate Sound(w: World, baseline: nat) {
    && w.history != [] && baseline <= w.generation
    && (w.link == Up && w.registered ==> w.active == Some(w.sid))
    && |w.buffer| <= CAPACITY
    && NotesKnown(OnTheWay(w), Version(w))
  }

  /** A snapshot or a view can only have come from a session at or after the baseline. */
  predicate Tenured(w: World, baseline: nat) {
    w.link == Down ==> w.generation != baseline
  }

  /** While the epoch stands, no notification dispatched so far is newer than the snapshot. */
  predicate Undispatched(w: World, epoch: nat, version: nat) {
    w.epoch == epoch ==> NotesKnown(Dispatched(w), version)
  }

  /** While the epoch stands, a buffer that was empty cannot overflow. */
  predicate Quiet(w: World, epoch: nat) {
    w.epoch == epoch ==> !w.lagged && |Dispatched(w)| <= 1
  }

  lemma BumpKeepsNotes(w: World)
    requires Possible(w, BumpEpoch)
    ensures OnTheWay(Happen(w, BumpEpoch)) == OnTheWay(w)
  {
    assert w.net == [w.net[0]] + w.net[1..];
  }

  lemma BroadcastKeepsNotes(w: World)
    requires Possible(w, Broadcast)
    ensures var w' := Happen(w, Broadcast);
            if |w.buffer| < CAPACITY then Dispatched(w') == Dispatched(w) && OnTheWay(w') == OnTheWay(w)
            else Dispatched(w') == Dispatched(w)[1..] && OnTheWay(w') == OnTheWay(w)[1..] && w'.lagged
  {
    if |w.buffer| >= CAPACITY {
      assert (w.buffer + [w.between.value])[1..] == w.buffer[1..] + [w.between.value];
      assert (Dispatched(w) + w.net)[1..] == Dispatched(w)[1..] + w.net;
    }
  }

  lemma ChangeAddsNote(w: World, listing: seq<LeaseItem>, readable: bool)
    ensures OnTheWay(Happen(w, Change(listing, readable))) == OnTheWay(w) +
              (if w.link == Up && w.active.Some? then [Note(w.active.value, readable, |w.history|)] else [])
  {
  }

  lemma NoiseAddsNote(w: World, note: Note)
    requires Possible(w, Noise(note))
    ensures OnTheWay(Happen(w, Noise(note))) == OnTheWay(w) + [note]
  {
  }

  lemma HappenKeepsKnown(w: World, e: Event)
    requires w.history != [] && NotesKnown(OnTheWay(w), Version(w)) && Possible(w, e)
    ensures NotesKnown(OnTheWay(Happen(w, e)), Version(Happen(w, e)))
  {
    match e
    case BumpEpoch => BumpKeepsNotes(w);
    case Broadcast => BroadcastKeepsNotes(w);
    case Change(listing, readable) => ChangeAddsNote(w, listing, readable);
    case Noise(note) => NoiseAddsNote(w, note);
    case Break => KnownApart(Dispatched(w), w.net, Version(w)); KnownApart(Dispatched(w), [], Version(w));
    case _ =>
  }

  lemma HappenKeepsSound(w: World, e: Event, baseline: nat)
    requires Sound(w, baseline) && Possible(w, e)
    ensures Sound(Happen(w, e), baseline) && w.history <= Happen(w, e).history
    ensures Tenured(w, baseline) ==> Tenured(Happen(w, e), baseline)
    ensures w.epoch <= Happen(w, e).epoch
  {
    hide NotesKnown, OnTheWay;
    HappenKeepsKnown(w, e);
  }

  /** The heart of it: no event outside can silence the last warning about an outdated version. */
  lemma HappenKeepsWarning(w: World, e: Event, baseline: nat, version: nat)
    requires Sound(w, baseline) && w.registered && Tenured(w, baseline) && version < |w.history|
    requires Possible(w, e) && Warned(w, baseline, version)
    ensures Warned(Happen(w, e), baseline, version)
  {
    hide OnTheWay;
    match e
    case Change(listing, readable) =>
      ChangeAddsNote(w, listing, readable);
      if !Broken(w, baseline) {
        var note := Note(w.sid, readable, |w.history|);
        assert Reports([note][0], w.sid, version);
        AppendNewer(OnTheWay(w), [note], w.sid, version);
      }
    case Noise(note) =>
      NoiseAddsNote(w, note);
      AppendNewer(OnTheWay(w), [note], w.sid, version);
    case BumpEpoch => BumpKeepsNotes(w);
    case Broadcast => BroadcastKeepsNotes(w);
    case _ =>
  }

  lemma HappenKeepsUndispatched(w: World, e: Event, epoch: nat, version: nat)
    requires Possible(w, e) && epoch <= w.epoch && Undispatched(w, epoch, version)
    ensures Undispatched(Happen(w, e), epoch, version)
  {
    if e.Broadcast? {
      BroadcastKeepsNotes(w);
    }
  }

  lemma HappenKeepsQuiet(w: World, e: Event, epoch: nat)
    requires Possible(w, e) && epoch <= w.epoch && Quiet(w, epoch)
    ensures Quiet(Happen(w, e), epoch)
  {
  }

  // ---------------------------------------------------------------- invariant

  /** These are the items of one whole snapshot. */
  predicate Complete(w: World, baseline: nat, version: nat, items: Items) {
    Tenured(w, baseline) && version < |w.history| && items == Inventory(w.history[version])
  }

  predicate ModeHolds(o: Observer, mode: Mode) {
    match mode
    case Boot => !o.ready
    case Notified => o.ready && o.unheeded
    case Periodic => o.ready
  }

  predicate Registration(s: State) {
    (!s.w.registered ==> s.o.pc.Replacing? || s.o.pc.Done?) && (s.o.pc.Replacing? ==> !s.w.registered)
  }

  predicate PassHolds(s: State) {
    match s.o.pc
    case Outer => !s.o.ready
    case TakeEpoch(mode) => ModeHolds(s.o, mode)
    case Listing(mode, epoch, None, items) => ModeHolds(s.o, mode) && epoch <= s.w.epoch && items == map[]
    case Listing(mode, epoch, Some(cursor), items) =>
      ModeHolds(s.o, mode) && epoch <= s.w.epoch && Partial(s.w, s.o.baseline, epoch, cursor, items)
    case Draining(mode, epoch, version, items, invalidated) =>
      && ModeHolds(s.o, mode) && epoch <= s.w.epoch && Complete(s.w, s.o.baseline, version, items)
      && (invalidated || Warned(s.w, s.o.baseline, version)) && Undispatched(s.w, epoch, version)
    case Installing(mode, epoch, version, items) =>
      && ModeHolds(s.o, mode) && epoch <= s.w.epoch && Complete(s.w, s.o.baseline, version, items)
      && Warned(s.w, s.o.baseline, version) && Undispatched(s.w, epoch, version) && Quiet(s.w, epoch)
    case Checking => s.o.ready && !s.o.unheeded && !s.o.dirty
    case Idle => s.o.ready && s.o.unheeded == s.o.dirty
    case Replacing(_) => !s.o.ready
    case Done => true
  }

  /** The items so far are a prefix of the snapshot the cursor names. */
  predicate Partial(w: World, baseline: nat, epoch: nat, cursor: Cursor, items: Items) {
    && Tenured(w, baseline)
    && cursor.version < |w.history|
    && cursor.offset <= |w.history[cursor.version]|
    && items == Inventory(w.history[cursor.version][..cursor.offset])
    && Warned(w, baseline, cursor.version) && Undispatched(w, epoch, cursor.version)
  }

  predicate ViewHolds(s: State) {
    s.o.ready && !s.o.pc.Done? ==>
      && Complete(s.w, s.o.baseline, s.o.viewVersion, s.o.view)
      && (s.o.unheeded || Warned(s.w, s.o.baseline, s.o.viewVersion))
  }

  predicate Inv(s: State) {
    Sound(s.w, s.o.baseline) && Registration(s) && PassHolds(s) && ViewHolds(s)
  }

  // ---------------------------------------------------------------- every step keeps it

  lemma HappenKeepsPass(s: State, e: Event)
    requires Sound(s.w, s.o.baseline) && Registration(s) && PassHolds(s) && FromOutside(e) && Possible(s.w, e)
    ensures PassHolds(s.(w := Happen(s.w, e)))
  {
    hide Sound, Warned, Undispatched, Quiet, Inventory, Happen, Possible, FromOutside;
    var b := s.o.baseline;
    HappenKeepsSound(s.w, e, b);
    match s.o.pc
    case Listing(_, epoch, Some(cursor), _) =>
      HappenKeepsWarning(s.w, e, b, cursor.version);
      HappenKeepsUndispatched(s.w, e, epoch, cursor.version);
    case Draining(_, epoch, version, items, invalidated) =>
      HappenKeepsUndispatched(s.w, e, epoch, version);
      if !invalidated {
        HappenKeepsWarning(s.w, e, b, version);
      }
    case Installing(_, epoch, version, items) =>
      HappenKeepsUndispatched(s.w, e, epoch, version);
      HappenKeepsQuiet(s.w, e, epoch);
      HappenKeepsWarning(s.w, e, b, version);
    case _ =>
  }

  lemma HappenKeepsInv(s: State, e: Event)
    requires Inv(s) && FromOutside(e) && Possible(s.w, e)
    ensures Inv(s.(w := Happen(s.w, e)))
  {
    HappenKeepsSound(s.w, e, s.o.baseline);
    HappenKeepsPass(s, e);
    RegistrationStays(s.w, e);
    HappenKeepsView(s, e);
  }

  lemma RegistrationStays(w: World, e: Event)
    requires Possible(w, e)
    ensures Happen(w, e).registered == w.registered
  {
  }

  lemma HappenKeepsView(s: State, e: Event)
    requires Inv(s) && FromOutside(e) && Possible(s.w, e)
    ensures ViewHolds(s.(w := Happen(s.w, e)))
  {
    hide Sound, Warned, Inventory, Happen, Possible, FromOutside;
    HappenKeepsSound(s.w, e, s.o.baseline);
    if s.o.ready && !s.o.pc.Done? && !s.o.unheeded {
      HappenKeepsWarning(s.w, e, s.o.baseline, s.o.viewVersion);
    }
  }

  lemma FirstPage(w: World, baseline: nat)
    requires Sound(w, baseline)
    ensures w.link == Up ==> Partial(w, baseline, w.epoch, Cursor(Version(w), 0), map[])
    ensures forall epoch: nat :: Undispatched(w, epoch, Version(w))
  {
    hide HasNewer;
    KnownApart(Dispatched(w), w.net, Version(w));
    assert w.history[Version(w)][..0] == [];
    EmptyInventory();
  }

  lemma MoreOfPage(w: World, baseline: nat, epoch: nat, cursor: Cursor, items: Items, count: nat)
    requires Partial(w, baseline, epoch, cursor, items) && cursor.offset + count <= |w.history[cursor.version]|
    ensures var end := cursor.offset + count;
            Partial(w, baseline, epoch, Cursor(cursor.version, end),
                    Insert(items, w.history[cursor.version][cursor.offset..end]))
  {
    hide Warned, Undispatched;
    NextPage(w.history[cursor.version], cursor.offset, count);
  }

  lemma LastPage(w: World, baseline: nat, epoch: nat, cursor: Cursor, items: Items)
    requires Partial(w, baseline, epoch, cursor, items) && cursor.offset == |w.history[cursor.version]|
    ensures Complete(w, baseline, cursor.version, items)
  {
    hide Warned, Undispatched;
    var listing := w.history[cursor.version];
    assert listing[..|listing|] == listing;
  }

  lemma PageKeepsInv(s: State, count: nat, last: bool)
    requires Inv(s) && CanAct(s, Page(count, last))
    ensures Inv(Act(s, Page(count, last)))
  {
    hide Inventory, HasNewer, Sound, Insert, NotesKnown;
    var pc, cursor := s.o.pc, PageCursor(s);
    if pc.cursor.None? {
      FirstPage(s.w, s.o.baseline);
    }
    assert Partial(s.w, s.o.baseline, pc.epoch, cursor, pc.items);
    MoreOfPage(s.w, s.o.baseline, pc.epoch, cursor, pc.items, count);
    if last {
      var end := cursor.offset + count;
      LastPage(s.w, s.o.baseline, pc.epoch, Cursor(cursor.version, end), OnPage(s, count, last).items);
    }
  }

  lemma EmptyInventory()
    ensures Inventory([]) == map[]
  {
  }

  lemma ErrorKeepsInv(s: State, mode: Mode, e: Error)
    requires Sound(s.w, s.o.baseline) && s.w.registered && !s.o.pc.Done? && ModeHolds(s.o, mode)
    requires !MustBeReplaced(e) && e != Closed ==> ViewHolds(s)
    ensures Inv(OnError(s, mode, e))
  {
    hide NotesKnown, HasNewer, Inventory;
  }

  /** Taking a notification meant for someone else changes nothing. */
  lemma ForeignIsNothing(w: World, baseline: nat, version: nat)
    requires PollResult(w).Foreign? && Warned(w, baseline, version)
    ensures Warned(w.(buffer := w.buffer[1..]), baseline, version)
  {
    var w' := w.(buffer := w.buffer[1..]);
    assert OnTheWay(w) == [w.buffer[0]] + OnTheWay(w');
    AppendNewer([w.buffer[0]], OnTheWay(w'), w.sid, version);
  }

  lemma TakingKeepsSound(w: World, baseline: nat)
    requires Sound(w, baseline) && w.buffer != []
    ensures Sound(w.(buffer := w.buffer[1..]), baseline)
  {
    var w' := w.(buffer := w.buffer[1..]);
    assert OnTheWay(w) == [w.buffer[0]] + OnTheWay(w');
    KnownApart([w.buffer[0]], OnTheWay(w'), Version(w));
  }

  lemma TakingKeepsUndispatched(w: World, epoch: nat, version: nat)
    requires w.buffer != [] && Undispatched(w, epoch, version)
    ensures Undispatched(w.(buffer := w.buffer[1..]), epoch, version)
  {
    var w' := w.(buffer := w.buffer[1..]);
    assert Dispatched(w) == [w.buffer[0]] + Dispatched(w');
    KnownApart([w.buffer[0]], Dispatched(w'), version);
  }

  lemma ConsumeKeeps(s: State)
    requires Inv(s) && (s.o.pc.Draining? || s.o.pc.Idle?)
    ensures var c := Consume(s);
            && Sound(c.w, s.o.baseline) && c.w.registered && c.o == s.o.(unheeded := c.o.unheeded)
            && (s.o.unheeded ==> c.o.unheeded)
            && (!PollResult(s.w).Overflow? ==> ViewHolds(c))
  {
    hide NotesKnown, HasNewer, Inventory;
    if PollResult(s.w).Foreign? {
      if s.o.ready && !s.o.unheeded {
        ForeignIsNothing(s.w, s.o.baseline, s.o.viewVersion);
      }
    }
    if !s.w.lagged && s.w.buffer != [] {
      TakingKeepsSound(s.w, s.o.baseline);
    }
  }

  lemma DrainKeepsInv(s: State)
    requires Inv(s) && s.o.pc.Draining?
    ensures Inv(OnDrain(s))
  {
    hide NotesKnown, HasNewer, Inventory, OnError;
    var c, pc := Consume(s), s.o.pc;
    ConsumeKeeps(s);
    match PollResult(s.w)
    case Empty =>
    case Overflow => ErrorKeepsInv(c, pc.mode, Backpressure);
    case Foreign =>
      if !pc.invalidated {
        ForeignIsNothing(s.w, s.o.baseline, pc.version);
      }
      TakingKeepsUndispatched(s.w, pc.epoch, pc.version);
    case Unreadable => ErrorKeepsInv(c, pc.mode, Codec);
    case Ours => TakingKeepsUndispatched(s.w, pc.epoch, pc.version);
  }

  lemma NotificationKeepsInv(s: State)
    requires Inv(s) && CanAct(s, Poll) && s.o.pc.Idle?
    ensures Inv(OnNotification(s))
  {
    hide NotesKnown, HasNewer, Inventory;
    ConsumeKeeps(s);
  }

  lemma ResubscribeKeepsSound(w: World, sid: nat, baseline: nat)
    requires Sound(w, baseline)
    ensures Sound(w.(active := Some(sid), sid := sid, registered := true, buffer := [], lagged := false), baseline)
  {
    var w' := w.(active := Some(sid), sid := sid, registered := true, buffer := [], lagged := false);
    assert OnTheWay(w) == w.buffer + OnTheWay(w');
    KnownApart(w.buffer, OnTheWay(w'), Version(w));
  }

  lemma ActKeepsInv(s: State, e: Event)
    requires Inv(s) && CanAct(s, e)
    ensures Inv(Act(s, e))
  {
    hide NotesKnown, HasNewer, Inventory, OnTheWay, OnError, OnDrain, OnNotification, OnPage;
    match e
    case Page(count, last) => PageKeepsInv(s, count, last);
    case ListError(error) => ErrorKeepsInv(s, s.o.pc.mode, error);
    case Poll => if s.o.pc.Draining? { DrainKeepsInv(s); } else { NotificationKeepsInv(s); }
    case Resubscribe(sid) => ResubscribeKeepsSound(s.w, sid, s.o.baseline);
    case _ =>
  }

  lemma StepKeepsInv(s: State, e: Event)
    requires Inv(s) && Enabled(s, e)
    ensures Inv(Step(s, e))
  {
    hide Inv, Happen, Act;
    if FromOutside(e) {
      HappenKeepsInv(s, e);
    } else {
      ActKeepsInv(s, e);
    }
  }

  lemma {:induction false} RunKeepsInv(s: State, es: seq<Event>)
    requires Starts(s)
    ensures Inv(Run(s, es))
  {
    if es != [] {
      var before, e := Run(s, es[..|es| - 1]), es[|es| - 1];
      RunKeepsInv(s, es[..|es| - 1]);
      if Enabled(before, e) {
        StepKeepsInv(before, e);
      }
    }
  }

  // ---------------------------------------------------------------- coherence

  /**
   In every reachable state, a view the observer calls ready is one whole snapshot. When the
   observer is idle, that snapshot is the current inventory, or a newer notification for this
   subscription is on the link, between its epoch and its broadcast, or in the buffer, or the buffer
   has overflowed, or the session has ended, or a periodic pass failed after consuming one.
   */
  lemma Coherent(s: State, es: seq<Event>)
    requires Starts(s)
    ensures var r := Run(s, es);
            && (r.o.ready && !r.o.pc.Done? ==>
                  r.o.viewVersion < |r.w.history| && r.o.view == Inventory(r.w.history[r.o.viewVersion]))
            && (r.o.pc.Idle? ==>
                  && r.o.ready
                  && (|| r.o.viewVersion == |r.w.history| - 1
                      || HasNewer(r.w.net, r.w.sid, r.o.viewVersion)
                      || (r.w.between.Some? && Reports(r.w.between.value, r.w.sid, r.o.viewVersion))
                      || HasNewer(r.w.buffer, r.w.sid, r.o.viewVersion)
                      || r.w.lagged
                      || r.w.generation != r.o.baseline
                      || r.w.link == Lost
                      || r.o.dirty))
  {
    hide Run, NotesKnown, Inventory;
    var r := Run(s, es);
    RunKeepsInv(s, es);
    AppendNewer(Dispatched(r.w), r.w.net, r.w.sid, r.o.viewVersion);
    if r.w.between.Some? {
      AppendNewer(r.w.buffer, [r.w.between.value], r.w.sid, r.o.viewVersion);
    }
  }

  /** With nothing on its way, in an unbroken session and after no swallowed failure, the view is exact. */
  lemma QuietViewIsExact(s: State, es: seq<Event>)
    requires Starts(s)
    ensures Run(s, es).w.history != []
    ensures var r := Run(s, es);
            r.o.pc.Idle? && r.w.link == Up && r.w.generation == r.o.baseline && OnTheWay(r.w) == [] && !r.w.lagged && !r.o.dirty
            ==> r.o.view == Inventory(r.w.history[|r.w.history| - 1])
  {
    hide Run, Inventory;
    RunKeepsInv(s, es);
  }

  predicate Installs(s: State, e: Event) {
    e.Install? && s.o.pc.Installing? && s.w.epoch == s.o.pc.epoch
  }

  /**
   The epoch check: when a view is installed, no change missing from it has had its notification
   dispatched. The notification is still on the link, or the session has ended.
   */
  lemma InstallIsCurrent(s: State, es: seq<Event>, e: Event)
    requires Starts(s) && Installs(Run(s, es), e)
    ensures var r := Step(Run(s, es), e);
            && NotesKnown(Dispatched(r.w), r.o.viewVersion)
            && r.o.viewVersion < |r.w.history| && r.o.view == Inventory(r.w.history[r.o.viewVersion])
            && (|| r.o.viewVersion == |r.w.history| - 1
                || HasNewer(r.w.net, r.w.sid, r.o.viewVersion)
                || r.w.generation != r.o.baseline || r.w.link == Lost)
  {
    hide Run, Inventory;
    var r := Run(s, es);
    RunKeepsInv(s, es);
    NothingNewer(Dispatched(r.w), r.w.sid, r.o.pc.version);
    AppendNewer(Dispatched(r.w), r.w.net, r.w.sid, r.o.pc.version);
  }

  lemma NothingNewer(notes: seq<Note>, sid: nat, version: nat)
    requires NotesKnown(notes, version)
    ensures !HasNewer(notes, sid, version)
  {
  }

  // ---------------------------------------------------------------- the periodic pass

  /** A periodic pass fails with an error that is neither Closed nor a reason to subscribe again. */
  predicate Swallows(s: State, e: Event) {
    && (s.o.pc.Listing? || s.o.pc.Draining?) && s.o.pc.mode.Periodic?
    && ((e.ListError? && s.o.pc.Listing? && e.error != Closed && !MustBeReplaced(e.error))
        || (e.Poll? && s.o.pc.Draining? && PollResult(s.w).Unreadable?))
  }

  lemma StepDirty(s: State, e: Event)
    requires Enabled(s, e) && Step(s, e).o.dirty
    ensures !Installs(s, e) && (s.o.dirty || Swallows(s, e))
  {
    hide Happen, Insert;
  }

  /** Only a swallowed failure makes the observer dirty, and the next install would have ended it. */
  lemma {:induction false} DirtySince(s: State, es: seq<Event>) returns (k: nat)
    requires !s.o.dirty && Run(s, es).o.dirty
    ensures k < |es| && Swallows(Run(s, es[..k]), es[k])
    ensures forall j :: k < j < |es| ==> !Installs(Run(s, es[..j]), es[j])
  {
    hide Step, Enabled, Swallows, Installs;
    var n := |es| - 1;
    var before := Run(s, es[..n]);
    if Enabled(before, es[n]) {
      StepDirty(before, es[n]);
    } else {
      NotEnabled(before, es[n]);
    }
    if before.o.dirty {
      k := DirtySince(s, es[..n]);
      assert es[..n][..k] == es[..k];
      forall j | k < j < |es| ensures !Installs(Run(s, es[..j]), es[j]) {
        if j < n {
          assert es[..n][..j] == es[..j] && es[..n][j] == es[j];
        }
      }
    } else {
      k := n;
    }
  }

  lemma NotEnabled(s: State, e: Event)
    requires !Enabled(s, e)
    ensures !Installs(s, e)
  {
  }

  // ---------------------------------------------------------------- what a later pass repairs

  /** The snapshot the observer is working on, if it has taken one, is of the current inventory. */
  predicate Fresh(s: State) {
    match s.o.pc
    case Listing(_, _, Some(cursor), _) => cursor.version == Version(s.w)
    case Draining(_, _, version, _, _) => version == Version(s.w)
    case Installing(_, _, version, _) => version == Version(s.w)
    case _ => true
  }

  predicate Healed(s: State) {
    s.w.history != [] && s.o.viewVersion == Version(s.w) && s.o.view == Inventory(s.w.history[Version(s.w)])
  }

  lemma StepFresh(s: State, e: Event)
    requires Inv(s) && Enabled(s, e) && !e.Change? && Fresh(s)
    ensures Fresh(Step(s, e))
    ensures Installs(s, e) || Healed(s) ==> Healed(Step(s, e))
  {
    hide Act, Happen, Fresh, Inv;
    if FromOutside(e) {
      SameHistory(s.w, e);
      SameSnapshot(s, Step(s, e));
    } else {
      ActFresh(s, e);
      if Installs(s, e) {
        InstallHeals(s, e);
      }
    }
  }

  lemma SameHistory(w: World, e: Event)
    requires Possible(w, e) && !e.Change?
    ensures Happen(w, e).history == w.history
  {
  }

  lemma SameSnapshot(s: State, s': State)
    requires s'.o == s.o && s'.w.history == s.w.history
    ensures Fresh(s') <==> Fresh(s)
  {
  }

  /** The snapshot stays the one it was, or is the current one, and the view stays. */
  predicate SameWork(s: State, s': State) {
    && (Fresh(s) ==> Fresh(s')) && s'.w.history == s.w.history
    && s'.o.view == s.o.view && s'.o.viewVersion == s.o.viewVersion
  }

  lemma ActFresh(s: State, e: Event)
    requires CanAct(s, e)
    ensures Fresh(s) ==> Fresh(Act(s, e)) && Act(s, e).w.history == s.w.history
    ensures Installs(s, e) || SameWork(s, Act(s, e))
  {
    hide Insert, OnDrain, OnNotification, PollResult, OnError;
    match e
    case Poll => if s.o.pc.Draining? { DrainFresh(s); } else { NotificationFresh(s); }
    case ListError(error) => ErrorFresh(s, s.o.pc.mode, error);
    case _ =>
  }

  lemma ErrorFresh(s: State, mode: Mode, e: Error)
    ensures Fresh(OnError(s, mode, e)) && SameWork(s, OnError(s, mode, e))
  {
  }

  lemma DrainFresh(s: State)
    requires s.o.pc.Draining?
    ensures SameWork(s, OnDrain(s))
  {
    hide Consume, OnError;
    var c := Consume(s);
    ConsumeKeepsView(s);
    ErrorFresh(c, s.o.pc.mode, Backpressure);
    ErrorFresh(c, s.o.pc.mode, Codec);
  }

  lemma NotificationFresh(s: State)
    ensures SameWork(s, OnNotification(s))
  {
    hide Consume;
    ConsumeKeepsView(s);
  }

  lemma ConsumeKeepsView(s: State)
    ensures var c := Consume(s);
            c.w.history == s.w.history && c.o == s.o.(unheeded := c.o.unheeded)
  {
  }

  lemma InstallHeals(s: State, e: Event)
    requires Inv(s) && Installs(s, e) && Fresh(s)
    ensures Healed(Act(s, e))
  {
    hide Warned, Undispatched, Quiet, Sound, ViewHolds, Inventory;
  }

  lemma {:induction false} StaysFresh(s: State, es: seq<Event>, k: nat)
    requires Starts(s) && k <= |es| && Fresh(Run(s, es[..k])) && forall i :: k <= i < |es| ==> !es[i].Change?
    ensures Fresh(Run(s, es))
  {
    hide Step, Enabled, Fresh, Inv;
    if k == |es| {
      assert es[..k] == es;
    } else {
      var front := es[..|es| - 1];
      assert front[..k] == es[..k];
      StaysFresh(s, front, k);
      RunKeepsInv(s, front);
      if Enabled(Run(s, front), es[|es| - 1]) {
        StepFresh(Run(s, front), es[|es| - 1]);
      }
    }
  }

  /**
   Once the inventory has stopped changing, the first install of a pass that took its snapshot since (or
   had taken a current one) makes the view exact, and it stays exact.
   */
  lemma {:induction false} SelfHeals(s: State, es: seq<Event>, k: nat, j: nat)
    requires Starts(s) && k <= j < |es| && Fresh(Run(s, es[..k]))
    requires forall i :: k <= i < |es| ==> !es[i].Change?
    requires Installs(Run(s, es[..j]), es[j])
    ensures Healed(Run(s, es))
  {
    hide Step, Enabled, Fresh, Inv, Healed, Installs;
    var front, e := es[..|es| - 1], es[|es| - 1];
    assert front[..k] == es[..k];
    StaysFresh(s, front, k);
    RunKeepsInv(s, front);
    if j < |front| {
      assert front[..j] == es[..j] && front[j] == es[j];
      SelfHeals(s, front, k, j);
    }
    if Enabled(Run(s, front), e) {
      StepFresh(Run(s, front), e);
    } else {
      NotEnabled(Run(s, front), e);
    }
  }

  /** One more event of a run. */
  lemma Extend(s: State, es: seq<Event>, e: Event) returns (more: seq<Event>, r: State)
    requires Enabled(Run(s, es), e)
    ensures more == es + [e] && r == Run(s, more) == Step(Run(s, es), e)
  {
    more, r := es + [e], Step(Run(s, es), e);
    assert more[..|more| - 1] == es;
  }

  /** One pass lists the whole inventory in a page. */
  lemma ListAll(s: State, es: seq<Event>) returns (more: seq<Event>, r: State)
    requires Run(s, es).o.pc.TakeEpoch? && Run(s, es).w.link == Up && Run(s, es).w.history != []
    ensures var q := Run(s, es);
            && r == Run(s, more) && es <= more
            && r == q.(o := q.o.(pc := Draining(q.o.pc.mode, q.w.epoch, Version(q.w), Inventory(q.w.history[Version(q.w)]), false)))
  {
    hide Run, Insert;
    more, r := Extend(s, es, ReadEpoch);
    var listing := r.w.history[Version(r.w)];
    assert listing[0..|listing|] == listing;
    more, r := Extend(s, more, Page(|listing|, true));
  }

  /** Bootstrap with nothing happening beside it. */
  lemma Bootstrap(s: State) returns (es: seq<Event>, r: State)
    requires Starts(s)
    ensures r == Run(s, es)
    ensures r == s.(o := Observer(Idle, s.w.generation, Inventory(s.w.history[Version(s.w)]), true, Version(s.w), false, false))
  {
    hide Run, Insert, Inventory;
    assert Run(s, []) == s by { NoEvents(s); }
    es, r := Extend(s, [], Begin);
    es, r := ListAll(s, es);
    es, r := Extend(s, es, Poll);
    es, r := Extend(s, es, Install);
    es, r := Extend(s, es, CheckGeneration);
  }

  /** A change is notified, and its notification reaches the buffer. */
  lemma ChangeArrives(s: State, es: seq<Event>, listing: seq<LeaseItem>) returns (more: seq<Event>, r: State)
    requires var w := Run(s, es).w; w.link == Up && w.active.Some? && OnTheWay(w) == []
    ensures var q := Run(s, es);
            && r == Run(s, more)
            && r == q.(w := q.w.(history := q.w.history + [listing], epoch := q.w.epoch + 1, between := None,
                                 buffer := [Note(q.w.active.value, true, |q.w.history|)]))
  {
    hide Run;
    more, r := Extend(s, es, Change(listing, true));
    more, r := Extend(s, more, BumpEpoch);
    more, r := Extend(s, more, Broadcast);
  }

  lemma {:induction false} RunSplit(s: State, es: seq<Event>, more: seq<Event>)
    ensures Run(s, es + more) == Run(Run(s, es), more)
  {
    if more == [] {
      assert es + more == es;
    } else {
      assert (es + more)[..|es + more| - 1] == es + more[..|more| - 1];
      RunSplit(s, es, more[..|more| - 1]);
    }
  }

  lemma NoEvents(s: State)
    ensures Run(s, []) == s
  {
  }

  /**
   The hole the periodic pass leaves: from every start, and for every change that makes a
   difference, there is a run to an idle observer that is ready and outdated with nothing on its
   way. The pass drains the notification of the change, lists again, and that LIST fails.
   */
  lemma PeriodicHole(s: State, listing: seq<LeaseItem>, e: Error) returns (es: seq<Event>)
    requires Starts(s) && Inventory(listing) != Inventory(s.w.history[Version(s.w)])
    requires e != Closed && !MustBeReplaced(e)
    ensures var r := Run(s, es);
            && r.o.pc.Idle? && r.o.ready && r.w.link == Up && r.w.generation == r.o.baseline
            && OnTheWay(r.w) == [] && !r.w.lagged && r.w.history == s.w.history + [listing]
            && r.o.view != Inventory(listing)
  {
    hide Run, Insert, Inventory;
    var r: State;
    es, r := Bootstrap(s);
    es, r := Extend(s, es, Tick);
    es, r := ListAll(s, es);
    es, r := ChangeArrives(s, es, listing);
    es, r := DrainAndFail(s, es, e);
  }

  lemma DrainAndFail(s: State, es: seq<Event>, e: Error) returns (more: seq<Event>, r: State)
    requires var q := Run(s, es);
             && q.o.pc.Draining? && q.o.pc.mode.Periodic? && !q.w.lagged
             && |q.w.buffer| == 1 && q.w.buffer[0].Note? && q.w.buffer[0].sid == q.w.sid && q.w.buffer[0].readable
    requires e != Closed && !MustBeReplaced(e)
    ensures var q := Run(s, es);
            && r == Run(s, more)
            && r == State(q.w.(buffer := []), q.o.(pc := Idle, unheeded := true, dirty := true))
  {
    hide Run;
    more, r := Extend(s, es, Poll);
    more, r := Extend(s, more, Poll);
    more, r := Extend(s, more, ReadEpoch);
    more, r := Extend(s, more, ListError(e));
  }

  // ---------------------------------------------------------------- the end of the task

  lemma {:induction false} DoneStays(s: State, es: seq<Event>)
    requires s.o.pc.Done?
    ensures Run(s, es).o == s.o
  {
    if es != [] {
      DoneStays(s, es[..|es| - 1]);
    }
  }

  /** The events that end the task and leave `ready` as it is. */
  predicate LeavesReady(e: Event) {
    e.Shutdown? || e == ListError(Closed)
  }

  lemma StepToDone(s: State, e: Event)
    requires Inv(s) && Enabled(s, e) && !s.o.pc.Done? && Step(s, e).o.pc.Done?
    ensures Step(s, e).o.ready <==> s.o.ready && LeavesReady(e)
  {
    hide Happen, Insert, Sound, ViewHolds;
  }

  /**
   A task that has ended shows, from then on, what it showed when it ended. It calls itself ready
   exactly when it was ready and was ended by a shutdown or by a LIST on a closed connection.
   */
  lemma EndedObserver(s: State, es: seq<Event>, e: Event, more: seq<Event>)
    requires Starts(s) && Enabled(Run(s, es), e) && !Run(s, es).o.pc.Done? && Step(Run(s, es), e).o.pc.Done?
    ensures var ended := Run(s, es + [e] + more);
            && ended.o == Step(Run(s, es), e).o
            && (ended.o.ready <==> Run(s, es).o.ready && LeavesReady(e))
  {
    hide Step, Enabled, LeavesReady;
    RunKeepsInv(s, es);
    StepToDone(Run(s, es), e);
    assert (es + [e])[..|es + [e]| - 1] == es;
    RunSplit(s, es + [e], more);
    DoneStays(Step(Run(s, es), e), more);
  }

  /**
   The claim that `ready` makes is false after such an end: from every start, and for every change
   that makes a difference, the observer is listing again when the client is closed, its task ends,
   and it goes on being ready with the inventory of before the change.
   */
  lemma ReadyAfterTheEnd(s: State, listing: seq<LeaseItem>) returns (es: seq<Event>)
    requires Starts(s) && Inventory(listing) != Inventory(s.w.history[Version(s.w)])
    ensures var r := Run(s, es);
            && r.o.pc.Done? && r.o.ready && r.w.history == s.w.history + [listing]
            && r.o.view != Inventory(listing)
  {
    hide Run, Insert, Inventory;
    var r: State;
    es, r := Bootstrap(s);
    es, r := Extend(s, es, Tick);
    es, r := Extend(s, es, ReadEpoch);
    es, r := Extend(s, es, CloseClient);
    es, r := Extend(s, es, ListError(Closed));
    es, r := Extend(s, es, Change(listing, true));
  }

  // ---------------------------------------------------------------- what a view holds

  predicate Distinct(listing: seq<LeaseItem>) {
    forall j, k :: 0 <= j < k < |listing| ==> listing[j].route != listing[k].route
  }

  /** A view of a listing with distinct routes has exactly the items of the listing, each under its route. */
  lemma {:induction false} InventoryIsListing(listing: seq<LeaseItem>)
    requires Distinct(listing)
    ensures forall route :: route in Inventory(listing) <==> exists k :: 0 <= k < |listing| && listing[k].route == route
    ensures forall k :: 0 <= k < |listing| ==> Inventory(listing)[listing[k].route] == listing[k]
  {
    if listing != [] {
      var front, last := listing[..|listing| - 1], listing[|listing| - 1];
      InventoryIsListing(front);
      assert forall k :: 0 <= k < |front| ==> front[k] == listing[k];
      assert Inventory(listing) == Inventory(front)[last.route := last];
      forall route ensures route in Inventory(listing) <==> exists k :: 0 <= k < |listing| && listing[k].route == route {
        if route in Inventory(front) {
          var k :| 0 <= k < |front| && front[k].route == route;
          assert listing[k].route == route;
        }
        assert listing[|front|] == last;
      }
    }
  }
}