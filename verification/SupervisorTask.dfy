/** The supervisor's own fields, changed in place around the sessions it runs. */
module SupervisorTask {
  import opened ByteStrings
  import opened Errors
  import opened Wire3
  import Multiplexer
  import opened SessionLoop
  import opened Supervisor

  class Client {
    var generation: nat
    var limits: Multiplexer.Limits
    var session: Session?
    var closed: bool
    ghost var past: seq<Multiplexer.State>

    ghost function Model(): Run
      reads this, session
    {
      Run(generation, limits, if session == null then None else Some(session.View()), closed, past)
    }

    constructor (maxQueued: nat)
      ensures Model() == Spawned(maxQueued)
    {
      generation, session, closed, past := 0, null, false, [];
      limits := Multiplexer.Limits(None, MAX_MESSAGE_SIZE, if maxQueued < 1 then 1 else maxQueued);
    }

    /** `open_session`, with the frame that answers CONNECT, and the session it starts. */
    method OpenSession(frame: Bytes) returns (r: Result<()>)
      requires Enabled(Model(), Connect(frame)) && generation < U64_LIMIT
      modifies this
      ensures Model() == Supervisor.Step(old(Model()), Connect(frame))
      ensures r.Ok? <==> session != null
    {
      hide Authenticated;
      limits := limits.(hello := None);
      var renewed := Authenticated(limits, frame);
      if renewed.Err? {
        return Err(renewed.error);
      }
      limits := renewed.value;
      session := new Session(generation, limits);
      r := Ok(());
    }

    /** What follows an event that the session has handled. */
    method Settle()
      requires session != null
      modifies this
      ensures Model() == AfterEvent(old(Model()), old(session.View()))
    {
      limits := session.limits;
      match session.phase
      case Open =>
      case Disconnected =>
        past := past + [session.View()];
        session := null;
        generation := generation + 1;
      case Ended =>
        past := past + [session.View()];
        session := null;
        closed := true;
    }

    /** `close`, which advances the generation before it asks the session to end. */
    method RequestClose()
      modifies this
      ensures Model() == old(Model()).(generation := old(generation) + 1)
    {
      generation := generation + 1;
    }
  }
}
