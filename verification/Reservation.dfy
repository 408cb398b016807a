/**
 A queue reservation (src/client_domains/queue.rs, `QueueItem`): complete and nack race for one
 atomic state. Each atomic access of a task is a step of its own, so that any number of tasks may
 interleave between them, and a task may be dropped wherever it waits.
 */
module Reservation {
  import opened ByteStrings
  import opened Errors
  import opened Codec
  import opened WireLists

  type Phase = n: int | 0 <= n <= 2

  /** Where one `complete` or `nack` call stands. */
  datatype Task =
    | Checked
    | Waiting
    | Acknowledged
    | Stored
    | Finished(ok: bool)

  datatype State = State(phase: Phase, tasks: map<nat, Task>, requests: nat, successes: nat)

  datatype Event =
    | Begin(task: nat, current: bool, capable: bool)
    | Exchange(task: nat)
    | Reply(task: nat, ok: bool)
    | Store(task: nat)
    | DropGuard(task: nat)
    | Abandon(task: nat)

  predicate Enabled(s: State, e: Event) {
    match e
    case Begin(t, _, _) => t !in s.tasks
    case Exchange(t) => t in s.tasks && s.tasks[t] == Checked
    case Reply(t, _) => t in s.tasks && s.tasks[t] == Waiting
    case Store(t) => t in s.tasks && s.tasks[t] == Acknowledged
    case DropGuard(t) => t in s.tasks && s.tasks[t] == Stored
    case Abandon(t) => t in s.tasks && (s.tasks[t] == Waiting || s.tasks[t] == Checked)
  }

  /** `CompletionGuard::drop` */
  function Reopened(phase: Phase): Phase {
    if phase == 1 then 0 else phase
  }

  function Step(s: State, e: Event): State
    requires Enabled(s, e)
  {
    match e
    case Begin(t, current, capable) =>
      s.(tasks := s.tasks[t := if current && s.phase == 0 && capable then Checked else Finished(false)])
    case Exchange(t) =>
      if s.phase != 0 then s.(tasks := s.tasks[t := Finished(false)])
      else s.(phase := 1, tasks := s.tasks[t := Waiting], requests := s.requests + 1)
    case Reply(t, ok) =>
      if ok then s.(tasks := s.tasks[t := Acknowledged])
      else s.(phase := Reopened(s.phase), tasks := s.tasks[t := Finished(false)])
    case Store(t) => s.(phase := 2, tasks := s.tasks[t := Stored])
    case DropGuard(t) =>
      s.(phase := Reopened(s.phase), tasks := s.tasks[t := Finished(true)], successes := s.successes + 1)
    case Abandon(t) =>
      s.(phase := if s.tasks[t] == Waiting then Reopened(s.phase) else s.phase, tasks := s.tasks[t := Finished(false)])
  }

  const FRESH := State(0, map[], 0, 0)

  /** The state after these events; one that cannot happen where it stands is passed over. */
  function Run(es: seq<Event>): State {
    if es == [] then FRESH
    else
      var before, e := Run(es[..|es| - 1]), es[|es| - 1];
      if Enabled(before, e) then Step(before, e) else before
  }

  // ---------------------------------------------------------------- the guard

  /** The task has a guard that it has not dropped. */
  predicate Holds(s: State, t: nat) {
    t in s.tasks && (s.tasks[t] == Waiting || s.tasks[t] == Acknowledged || s.tasks[t] == Stored)
  }

  /** The task has a guard and has not marked the reservation as acknowledged. */
  predicate Open(s: State, t: nat) {
    t in s.tasks && (s.tasks[t] == Waiting || s.tasks[t] == Acknowledged)
  }

  predicate Won(s: State, t: nat) {
    t in s.tasks && (s.tasks[t] == Stored || s.tasks[t] == Finished(true))
  }

  predicate Idle(t: Task) {
    t == Checked || t == Finished(false)
  }

  /** Only this task, if any, has or has had anything to do with the broker's answer. */
  ghost predicate Alone(s: State, h: nat) {
    forall t :: t in s.tasks && t != h ==> Idle(s.tasks[t])
  }

  /** The phase says what the one task that matters is doing. */
  ghost predicate Led(s: State, h: nat) {
    && Alone(s, h)
    && s.successes == (if h in s.tasks && s.tasks[h] == Finished(true) then 1 else 0)
    && (match s.phase
        case 0 => h in s.tasks ==> Idle(s.tasks[h])
        case 1 => Open(s, h)
        case _ => Won(s, h))
  }

  ghost predicate Inv(s: State) {
    exists h :: Led(s, h)
  }

  lemma StepKeepsInv(s: State, e: Event)
    requires Inv(s) && Enabled(s, e)
    ensures Inv(Step(s, e))
  {
    var h :| Led(s, h);
    if s.phase == 0 {
      assert Led(Step(s, e), e.task);
    } else {
      assert Led(Step(s, e), h);
    }
  }

  lemma {:induction false} RunKeepsInv(es: seq<Event>)
    ensures Inv(Run(es))
  {
    if es == [] {
      assert Led(FRESH, 0);
    } else {
      RunKeepsInv(es[..|es| - 1]);
      var before, e := Run(es[..|es| - 1]), es[|es| - 1];
      if Enabled(before, e) {
        StepKeepsInv(before, e);
      }
    }
  }

  /**
   However complete and nack calls interleave, fail or are dropped: one task at most has the guard,
   the phase is 1 exactly while a task waits for its answer or has it and has not marked it, 2 exactly
   when a task has been acknowledged, and one call at most succeeds.
   */
  lemma OneCompletion(es: seq<Event>)
    ensures var s := Run(es);
            && (forall t, u :: Holds(s, t) && Holds(s, u) ==> t == u)
            && (s.phase == 1 <==> exists t :: Open(s, t))
            && (s.phase == 2 <==> exists t :: Won(s, t))
            && (forall t, u :: Won(s, t) && Won(s, u) ==> t == u)
            && s.successes <= 1
  {
    RunKeepsInv(es);
    var s := Run(es);
    var h :| Led(s, h);
    assert s.phase == 1 ==> Open(s, h);
    assert s.phase == 2 ==> Won(s, h);
  }

  lemma StepAtTwo(s: State, e: Event)
    requires Inv(s) && Enabled(s, e) && s.phase == 2
    ensures Step(s, e).phase == 2 && Step(s, e).requests == s.requests
  {
    var h :| Led(s, h);
  }

  /** An acknowledged reservation stays so, and nothing more is asked of the broker. */
  lemma {:induction false} AcknowledgedForGood(es: seq<Event>, k: nat)
    requires k <= |es| && Run(es[..k]).phase == 2
    ensures Run(es).phase == 2 && Run(es).requests == Run(es[..k]).requests
  {
    if k == |es| {
      assert es[..k] == es;
    } else {
      var front, e := es[..|es| - 1], es[|es| - 1];
      assert front[..k] == es[..k];
      AcknowledgedForGood(front, k);
      RunKeepsInv(front);
      if Enabled(Run(front), e) {
        StepAtTwo(Run(front), e);
      }
    }
  }

  /** A call that is refused, or dropped while it waits, leaves the reservation to be tried again. */
  lemma FailureReopens(es: seq<Event>, e: Event)
    requires Enabled(Run(es), e) && e.task in Run(es).tasks && Run(es).tasks[e.task] == Waiting
    ensures e == Reply(e.task, false) || e.Abandon? ==> (
              var s := Step(Run(es), e);
              s.phase == 0 && (forall t :: !Holds(s, t)) && s.tasks[e.task] == Finished(false))
  {
    RunKeepsInv(es);
    var h :| Led(Run(es), h);
  }

  /** One more event of a run. */
  lemma Extend(es: seq<Event>, e: Event) returns (more: seq<Event>, s: State)
    requires Enabled(Run(es), e)
    ensures more == es + [e] && s == Run(more) == Step(Run(es), e)
  {
    more, s := es + [e], Step(Run(es), e);
    assert more[..|es|] == es;
  }

  /** Wherever a run has left the reservation open, a call the broker accepts asks it once and closes it for good. */
  lemma AcceptedCloses(es: seq<Event>, t: nat)
    requires Run(es).phase == 0 && t !in Run(es).tasks
    ensures var s := Run(es + [Begin(t, true, true)] + [Exchange(t)] + [Reply(t, true)] + [Store(t)] + [DropGuard(t)]);
            s.phase == 2 && t in s.tasks && s.tasks[t] == Finished(true) && s.requests == Run(es).requests + 1 && s.successes == 1
  {
    hide Run;
    RunKeepsInv(es);
    var h :| Led(Run(es), h);
    var more, s := Extend(es, Begin(t, true, true));
    more, s := Extend(more, Exchange(t));
    more, s := Extend(more, Reply(t, true));
    more, s := Extend(more, Store(t));
    more, s := Extend(more, DropGuard(t));
  }

  /** A call that finds the handle stale, in use or not capable asks the broker nothing and changes no phase. */
  lemma RefusedAsksNothing(s: State, e: Event)
    requires Enabled(s, e)
    requires (e.Begin? && !(e.current && s.phase == 0 && e.capable)) || (e.Exchange? && s.phase != 0)
    ensures Step(s, e) == s.(tasks := s.tasks[e.task := Finished(false)])
  {
  }

  predicate Accepted(t: Task) {
    t == Acknowledged || t == Stored || t == Finished(true)
  }

  /** Once the broker has accepted a call, nothing that any call does afterwards makes it fail. */
  lemma {:induction false} AcceptedStays(es: seq<Event>, k: nat, t: nat)
    requires k <= |es| && t in Run(es[..k]).tasks && Accepted(Run(es[..k]).tasks[t])
    ensures t in Run(es).tasks && Accepted(Run(es).tasks[t])
  {
    if k == |es| {
      assert es[..k] == es;
    } else {
      var front := es[..|es| - 1];
      assert front[..k] == es[..k];
      AcceptedStays(front, k, t);
    }
  }

  // ---------------------------------------------------------------- one call

  /** `decode_queue_plain_ok` */
  function PlainOk(reply: Result<Bytes>): Result<()> {
    var response :- reply;
    var rest :- SuccessBody(response);
    if rest == [] then Ok(()) else Err(Protocol)
  }

  /** Success is the single byte zero, a refusal is what its bytes say, and a longer success is a fault. */
  lemma PlainOkLanguage(reply: Result<Bytes>, e: Error)
    ensures PlainOk(reply).Ok? <==> reply == Ok([0])
    ensures PlainOk(reply) == Err(e) <==> (
              match reply
              case Err(failure) => e == failure
              case Ok(response) => Refuses(response, e) || ([0] < response && e == Protocol))
  {
    hide Refuses;
    if reply.Ok? {
      StatusLanguage(reply.value, if reply.value == [] then [] else reply.value[1..], e);
      StatusLanguage(reply.value, [], e);
      assert [0] + [] == [0] && (reply.value != [] ==> reply.value == [reply.value[0]] + reply.value[1..]);
    }
  }

  method DecodePlainOk(reply: Result<Bytes>) returns (r: Result<()>)
    ensures r == PlainOk(reply)
  {
    if reply.Err? {
      return Err(reply.error);
    }
    var d := new PayloadDecoder(reply.value);
    var status :- d.GetU8();
    if status == 1 {
      var e := DecodeDomainError(d);
      return Err(e);
    }
    var empty := d.IsEmpty();
    r := if status == 0 && empty then Ok(()) else Err(Protocol);
  }

  class QueueItem {
    const generation: u64
    var state: Phase

    constructor (generation: u64)
      ensures state == 0 && this.generation == generation
    {
      this.generation := generation;
      state := 0;
    }

    method CompareExchange(expected: Phase, replacement: Phase) returns (swapped: bool)
      modifies this
      ensures swapped <==> old(state) == expected
      ensures state == if swapped then replacement else old(state)
    {
      swapped := state == expected;
      if swapped {
        state := replacement;
      }
    }

    /**
     `complete`, and `nack` when it is capable. `meanwhile` is the state other calls have left when
     this one tries its exchange; no reply is a call dropped while it waits, which returns nothing.
     */
    method Finish(now: u64, capable: bool, meanwhile: Phase, reply: Option<Result<Bytes>>)
      returns (r: Option<Result<()>>, ghost sent: bool)
      modifies this
      ensures sent <==> now == generation && old(state) == 0 && capable && meanwhile == 0
      ensures now != generation || old(state) != 0 ==> r == Some(Err(StaleHandle)) && state == old(state)
      ensures now == generation && old(state) == 0 && !capable ==> r == Some(Err(Protocol)) && state == 0
      ensures now == generation && old(state) == 0 && capable && meanwhile != 0 ==> r == Some(Err(StaleHandle)) && state == meanwhile
      ensures sent && reply.None? ==> r == None && state == 0
      ensures sent && reply.Some? ==> r == Some(PlainOk(reply.value))
      ensures sent && reply.Some? ==> state == if r.value.Ok? then 2 else 0
    {
      sent := false;
      if now != generation || state != 0 {
        return Some(Err(StaleHandle)), sent;
      }
      if !capable {
        return Some(Err(Protocol)), sent;
      }
      state := meanwhile;
      var swapped := CompareExchange(0, 1);
      if !swapped {
        return Some(Err(StaleHandle)), sent;
      }
      sent, r := true, None;
      if reply.Some? {
        var result := DecodePlainOk(reply.value);
        r := Some(result);
        if result.Ok? {
          state := 2;
        }
      }
      var _ := CompareExchange(1, 0);
    }
  }
}
