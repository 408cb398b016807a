/**
 One session after the other (src/async_connection.rs, `connect_and_run`): what a connection attempt
 and the end of a session leave, and how far the generation has come.
 */
module Reconnects {
  import opened ByteStrings
  import opened Errors
  import opened Wire3
  import M = Multiplexer
  import opened Supervisor
  import opened IncomingFrames
  import opened SessionEffects

  /** A session that has done nothing yet. */
  ghost predicate Fresh(s: M.State, generation: nat, limits: M.Limits) {
    && s.generation == generation && s.limits == limits && s.phase == M.Open
    && s.correlated == map[] && s.pending == map[] && s.queued == map[] && s.canceled == {}
    && s.dropped == multiset{} && s.writes == [] && s.served == [] && s.published == []
    && forall i: u64 :: s.answers[i] == []
  }

  /**
   The capabilities of the last session are forgotten first. A HELLO then starts a fresh session under
   the limits that it leaves, and any other frame leaves no session.
   */
  lemma ConnectEffect(r: Run, frame: Bytes)
    requires Enabled(r, Connect(frame)) && r.generation < U64_LIMIT
    ensures var r', forgotten := Supervisor.Step(r, Connect(frame)), r.limits.(hello := None);
            && r'.generation == r.generation && r'.past == r.past && !r'.closed
            && (forall renewed :: IsHello(forgotten, MAX_MESSAGE_SIZE, frame, renewed) ==>
                  r'.limits == renewed && r'.current.Some? && Fresh(r'.current.value, r.generation, renewed))
            && ((forall renewed :: !IsHello(forgotten, MAX_MESSAGE_SIZE, frame, renewed)) ==>
                  r'.limits == forgotten && r'.current.None?)
  {
    hide Authenticated, IsHello;
    var forgotten := r.limits.(hello := None);
    forall renewed ensures Authenticated(forgotten, frame) == Ok(renewed) <==> IsHello(forgotten, MAX_MESSAGE_SIZE, frame, renewed) {
      AuthenticationLanguage(forgotten, frame, renewed);
    }
  }

  predicate Closes(e: M.Event) {
    e.Close? || e.ChannelEnd?
  }

  /** A failed read, a failed write, or a frame that cannot be placed. */
  ghost predicate Loses(s: M.State, e: M.Event) {
    e.ReadError? || PutFails(s, e) || FrameFails(s, e)
  }

  /** A session goes on, or it is closed and the last, or it is lost and its generation with it. */
  lemma SessionEventEffect(r: Run, e: M.Event)
    requires Enabled(r, InSession(e)) && r.generation < U64_LIMIT
    ensures var r', s, s' := Supervisor.Step(r, InSession(e)), r.current.value, M.Step(r.current.value, e);
            && r'.limits == s'.limits
            && r'.current == (if Closes(e) || Loses(s, e) then None else Some(s'))
            && r'.past == (if Closes(e) || Loses(s, e) then r.past + [s'] else r.past)
            && r'.closed == (r.closed || Closes(e))
            && r'.generation == r.generation + (if Loses(s, e) then 1 else 0)
  {
    hide M.Step, M.Enabled, PutFails, FrameFails;
    EndsWhen(r.current.value, e);
  }

  // ---------------------------------------------------------------- over a whole run

  /** The k-th happening was possible when it came. */
  ghost predicate Happened(maxQueued: nat, hs: seq<Happening>, k: nat)
    requires k < |hs|
  {
    Enabled(After(maxQueued, hs[..k]), hs[k])
  }

  lemma HappenedBefore(maxQueued: nat, hs: seq<Happening>, k: nat)
    requires k + 1 < |hs|
    ensures Happened(maxQueued, hs[..|hs| - 1], k) == Happened(maxQueued, hs, k)
  {
    assert hs[..|hs| - 1][..k] == hs[..k];
  }

  ghost predicate ClosedBy(maxQueued: nat, hs: seq<Happening>, k: nat)
    requires k < |hs|
  {
    hs[k].InSession? && Closes(hs[k].event) && Happened(maxQueued, hs, k)
  }

  ghost predicate EverClosed(maxQueued: nat, hs: seq<Happening>) {
    exists k: nat :: k < |hs| && ClosedBy(maxQueued, hs, k)
  }

  lemma OneMoreToClose(maxQueued: nat, hs: seq<Happening>)
    requires hs != []
    ensures EverClosed(maxQueued, hs) <==> ClosedBy(maxQueued, hs, |hs| - 1) || EverClosed(maxQueued, hs[..|hs| - 1])
  {
    hide Happened;
    var front := hs[..|hs| - 1];
    forall k: nat | k < |front| ensures ClosedBy(maxQueued, front, k) == ClosedBy(maxQueued, hs, k) {
      HappenedBefore(maxQueued, hs, k);
    }
    if EverClosed(maxQueued, front) {
      var k: nat :| k < |front| && ClosedBy(maxQueued, front, k);
      assert ClosedBy(maxQueued, hs, k);
    }
  }

  lemma StepCloses(r: Run, h: Happening)
    requires Enabled(r, h) && r.generation < U64_LIMIT
    ensures Supervisor.Step(r, h).closed <==> r.closed || (h.InSession? && Closes(h.event))
  {
    hide M.Step, M.Enabled, Authenticated, Loses;
    if h.InSession? {
      SessionEventEffect(r, h.event);
    }
  }

  /** The supervisor is closed exactly when a session was, by Close or by the end of its clients; no failure closes it. */
  lemma {:induction false} ClosedByRequest(maxQueued: nat, hs: seq<Happening>)
    ensures After(maxQueued, hs).closed <==> EverClosed(maxQueued, hs)
  {
    hide Enabled, Supervisor.Step;
    if hs != [] {
      var front, last := hs[..|hs| - 1], |hs| - 1;
      ClosedByRequest(maxQueued, front);
      if Happened(maxQueued, hs, last) {
        StepCloses(After(maxQueued, front), hs[last]);
      }
      OneMoreToClose(maxQueued, hs);
    }
  }

  /** Lost sessions and requests to close. */
  ghost function Turnovers(maxQueued: nat, hs: seq<Happening>): nat {
    if hs == [] then 0
    else
      var before, h := After(maxQueued, hs[..|hs| - 1]), hs[|hs| - 1];
      Turnovers(maxQueued, hs[..|hs| - 1])
      + if Enabled(before, h) && (h.CloseRequested? || (h.InSession? && Loses(before.current.value, h.event))) then 1 else 0
  }

  lemma StepTurns(r: Run, h: Happening)
    requires Enabled(r, h) && r.generation < U64_LIMIT
    ensures Supervisor.Step(r, h).generation
         == r.generation + (if h.CloseRequested? || (h.InSession? && Loses(r.current.value, h.event)) then 1 else 0)
  {
    hide M.Step, M.Enabled, Authenticated, Loses;
    if h.InSession? {
      SessionEventEffect(r, h.event);
    }
  }

  /** The generation is the number of sessions lost and of requests to close, however often connecting failed. */
  lemma {:induction false} GenerationCounts(maxQueued: nat, hs: seq<Happening>)
    ensures After(maxQueued, hs).generation == Turnovers(maxQueued, hs)
  {
    hide Enabled, Supervisor.Step, Loses;
    if hs != [] {
      var before, h := After(maxQueued, hs[..|hs| - 1]), hs[|hs| - 1];
      GenerationCounts(maxQueued, hs[..|hs| - 1]);
      if Enabled(before, h) {
        StepTurns(before, h);
      }
    }
  }

  /** After any run that nobody asked to close and that stands without a session, the next HELLO starts one. */
  lemma CanReconnect(maxQueued: nat, hs: seq<Happening>, frame: Bytes, renewed: M.Limits)
    requires After(maxQueued, hs).current.None?
    requires !EverClosed(maxQueued, hs) && forall h :: h in hs ==> !h.CloseRequested?
    requires IsHello(After(maxQueued, hs).limits.(hello := None), MAX_MESSAGE_SIZE, frame, renewed)
    ensures var r' := After(maxQueued, hs + [Connect(frame)]);
            r'.current.Some? && Fresh(r'.current.value, Turnovers(maxQueued, hs), renewed)
  {
    hide IsHello, Supervisor.Step, Fresh, Turnovers, EverClosed;
    var more := hs + [Connect(frame)];
    assert more[..|more| - 1] == hs;
    ClosedByRequest(maxQueued, hs);
    GenerationCounts(maxQueued, hs);
    ConnectEffect(After(maxQueued, hs), frame);
  }
}
