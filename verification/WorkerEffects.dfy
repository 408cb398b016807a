/**
 What an RPC worker makes of the bytes that reach it (src/client_domains/rpc/worker.rs:94-136 and
 140-208): calls, calls for others, malformed calls, and cancellations.
 */
module WorkerEffects {
  import opened ByteStrings
  import opened Errors
  import opened Codec
  import opened WireLists
  import opened Routes
  import opened RpcWorker

  // ---------------------------------------------------------------- cancellations

  /** A tag, the call's id and a reason. */
  function Cancellation(id: Bytes, reason: byte): Bytes {
    [2] + id + [reason]
  }

  /** The first of the buffered requests with this id. */
  predicate FirstFor(inbox: seq<Entry>, id: Bytes, k: nat) {
    k < |inbox| && IsFor(inbox[k], id) && forall j :: 0 <= j < k ==> !IsFor(inbox[j], id)
  }

  lemma {:induction false} PositionIsFirst(inbox: seq<Entry>, id: Bytes)
    requires Buffered(inbox, id)
    ensures FirstFor(inbox, id, Position(inbox, id))
  {
    if !IsFor(inbox[0], id) {
      var k :| 0 <= k < |inbox| && IsFor(inbox[k], id);
      assert inbox[1..][k - 1] == inbox[k];
      PositionIsFirst(inbox[1..], id);
      assert forall j :: 1 <= j < |inbox| ==> inbox[j] == inbox[1..][j - 1];
    }
  }

  /**
   The request leaves the inbox and is dropped: its id is tracked no longer, and it is acknowledged if
   the session is still its own.
   */
  ghost predicate Withdraws(c: Config, s: State, s': State, id: Bytes, k: nat) {
    && FirstFor(s.inbox, id, k)
    && var r := s.inbox[k].request;
       s' == s.(inbox := s.inbox[..k] + s.inbox[k + 1..],
                withdrawn := s.withdrawn + {r.serial},
                active := s.active - {id},
                releases := s.releases[r.serial := Release(r.generation, s.generation)],
                acks := if c.supportsCancellation && r.generation == s.generation then s.acks + multiset{r.serial} else s.acks)
  }

  /**
   A cancellation withdraws the first buffered request of the call, and otherwise cancels the token
   that the call's entry holds, if there is one.
   */
  lemma CancellationEffect(c: Config, s: State, id: Bytes, reason: byte)
    requires |id| == 16 && 1 <= reason <= 4
    ensures var s' := Step(c, s, Lifecycle(Cancellation(id, reason)));
            && (Buffered(s.inbox, id) ==> exists k: nat :: Withdraws(c, s, s', id, k))
            && (!Buffered(s.inbox, id) && id in s.active ==>
                  var call := s.active[id];
                  s' == s.(active := s.active[id := ActiveCall(call.serial, true)], canceled := s.canceled + {call.serial}))
            && (!Buffered(s.inbox, id) && id !in s.active ==> s' == s)
  {
    hide Buffered, Position, FirstFor;
    var payload := Cancellation(id, reason);
    assert payload[1..17] == id && IsCancellation(payload);
    if Buffered(s.inbox, id) {
      PositionIsFirst(s.inbox, id);
      assert Withdraws(c, s, Step(c, s, Lifecycle(payload)), id, Position(s.inbox, id));
    }
  }

  /** The payloads that are taken for cancellations. */
  lemma CancellationLanguage(payload: Bytes)
    ensures IsCancellation(payload) <==>
              exists id, reason: byte :: |id| == 16 && 1 <= reason <= 4 && payload == Cancellation(id, reason)
  {
    if IsCancellation(payload) {
      var id, reason := payload[1..17], payload[17];
      assert payload == Cancellation(id, reason);
    }
  }

  /** Nothing else that comes for the worker's calls has an effect. */
  lemma OtherLifecycle(c: Config, s: State, payload: Bytes)
    requires !exists id, reason: byte :: |id| == 16 && 1 <= reason <= 4 && payload == Cancellation(id, reason)
    ensures Step(c, s, Lifecycle(payload)) == s
  {
    CancellationLanguage(payload);
  }

  // ---------------------------------------------------------------- calls

  /** A call for the worker's pattern, with a budget of a day at most. */
  ghost predicate IsCall(c: Config, payload: Bytes, id: Bytes) {
    c.supportsCancellation && |id| == 16 && exists route: Blob, body: Blob, budget: Option<u32> ::
      && Utf8(route) && RouteMatches(route, c.pattern)
      && (budget.Some? ==> budget.value <= 86_400_000)
      && payload == id + WriteBlob(route, WriteBlob(body, WriteBudget(budget)))
  }

  /** A call for another pattern, whatever follows its route. */
  ghost predicate IsForOthers(c: Config, payload: Bytes) {
    exists id: Bytes, route: Blob, rest: Bytes ::
      |id| == 16 && Utf8(route) && !RouteMatches(route, c.pattern) && payload == id + WriteBlob(route, rest)
  }

  /** A budget with something behind it, with an unknown flag, or of more than a day. */
  ghost predicate BudgetIsWrong(s: Bytes) {
    || (exists more: Bytes :: more != [] && s == [0] + more)
    || (exists flag: byte, ms: u32, more: Bytes ::
          flag != 0 && s == [flag] + (BE32(ms) + more) && (flag != 1 || more != [] || ms > 86_400_000))
  }

  /** A call for the pattern whose fields can be read, and whose budget does not follow the protocol. */
  ghost predicate BreaksProtocol(c: Config, payload: Bytes) {
    exists id: Bytes, route: Blob, body: Blob, s: Bytes ::
      && |id| == 16 && Utf8(route) && RouteMatches(route, c.pattern)
      && payload == id + WriteBlob(route, WriteBlob(body, s))
      && if c.supportsCancellation then BudgetIsWrong(s) else s != []
  }

  lemma WrongBudget(s: Bytes)
    ensures DecodeBudget(s) == Err(Protocol) <==> BudgetIsWrong(s)
    ensures DecodeBudget(s).Err? ==> DecodeBudget(s).error == Protocol || DecodeBudget(s).error == Codec
  {
    hide TakeU32;
    if DecodeBudget(s) == Err(Protocol) {
      var flag, rest := s[0], s[1..];
      assert s == [flag] + rest;
      NoProtocol(rest);
      if flag == 0 {
        assert rest != [] && s == [0] + rest;
      } else {
        TakeU32Inverse(rest);
        var (ms, more) := TakeU32(rest).value;
        assert s == [flag] + (BE32(ms) + more);
      }
    }
    forall more: Bytes | more != [] && s == [0] + more ensures DecodeBudget(s) == Err(Protocol) {
      assert s[1..] == more;
    }
    forall flag: byte, ms: u32, more: Bytes
      | flag != 0 && s == [flag] + (BE32(ms) + more) && (flag != 1 || more != [] || ms > 86_400_000)
      ensures DecodeBudget(s) == Err(Protocol)
    {
      assert s[1..] == BE32(ms) + more;
      TakeU32Of(ms, more);
    }
    NoProtocolAtAll(s);
  }

  lemma NoProtocol(s: Bytes)
    ensures TakeU32(s).Err? ==> TakeU32(s).error == Codec
  {
  }

  lemma NoProtocolAtAll(s: Bytes)
    ensures DecodeBudget(s).Err? ==> DecodeBudget(s).error == Protocol || DecodeBudget(s).error == Codec
  {
  }

  lemma NoBudget()
    ensures DecodeBudget([]) == Err(Codec)
  {
  }

  /** What comes after the id, a readable route that matches, and a readable body. */
  lemma FieldsRead(c: Config, id: Bytes, route: Blob, rest: Bytes)
    requires |id| == 16 && Utf8(route)
    ensures var payload := id + WriteBlob(route, rest);
            && TakeFixed(payload, 16) == Ok((id, WriteBlob(route, rest)))
            && TakeText(WriteBlob(route, rest)) == Ok((route, rest))
  {
    hide Utf8;
    var payload := id + WriteBlob(route, rest);
    assert payload[..16] == id && payload[16..] == WriteBlob(route, rest);
    BlobReads(route, rest);
  }

  /** The four ways a payload can be read, each with its bytes. */
  lemma PayloadLanguage(c: Config, payload: Bytes, id: Bytes)
    ensures var decoded := DecodeCall(payload, c.pattern, c.supportsCancellation);
            && (IsCall(c, payload, id) <==> decoded.Ok? && decoded.value.Some? && decoded.value.value.id == id)
            && (IsForOthers(c, payload) <==> decoded == Ok(None))
            && (BreaksProtocol(c, payload) <==> decoded == Err(Protocol))
            && (decoded.Err? ==> decoded.error == Protocol || decoded.error == Codec)
  {
    hide DecodeCall, IsForOthers, BreaksProtocol, RouteMatches, Utf8, WriteBudget;
    var decoded := DecodeCall(payload, c.pattern, c.supportsCancellation);
    if decoded.Ok? && decoded.value.Some? {
      CallLanguage(payload, c.pattern, c.supportsCancellation, decoded.value.value);
    }
    forall route: Blob, body: Blob, budget: Option<u32>
      | && c.supportsCancellation && |id| == 16 && Utf8(route) && RouteMatches(route, c.pattern)
        && (budget.Some? ==> budget.value <= 86_400_000)
        && payload == id + WriteBlob(route, WriteBlob(body, WriteBudget(budget)))
      ensures decoded == Ok(Some(Call(id, route, body, budget)))
    {
      CallLanguage(payload, c.pattern, c.supportsCancellation, Call(id, route, body, budget));
    }
    OthersLanguage(c, payload);
    ProtocolLanguage(c, payload);
  }

  lemma OthersLanguage(c: Config, payload: Bytes)
    ensures IsForOthers(c, payload) <==> DecodeCall(payload, c.pattern, c.supportsCancellation) == Ok(None)
  {
    hide RouteMatches, Utf8, TakeText, TakeBlob, DecodeBudget, WriteBlob;
    forall id: Bytes, route: Blob, rest: Bytes
      | |id| == 16 && Utf8(route) && !RouteMatches(route, c.pattern) && payload == id + WriteBlob(route, rest)
      ensures DecodeCall(payload, c.pattern, c.supportsCancellation) == Ok(None)
    {
      FieldsRead(c, id, route, rest);
    }
    if DecodeCall(payload, c.pattern, c.supportsCancellation) == Ok(None) {
      TextWas(payload[16..]);
      var (route, rest) := TakeText(payload[16..]).value;
      assert payload == payload[..16] + WriteBlob(route, rest);
    }
  }

  lemma ProtocolLanguage(c: Config, payload: Bytes)
    ensures var decoded := DecodeCall(payload, c.pattern, c.supportsCancellation);
            && (BreaksProtocol(c, payload) <==> decoded == Err(Protocol))
            && (decoded.Err? ==> decoded.error == Protocol || decoded.error == Codec)
  {
    hide RouteMatches, Utf8, TakeText, TakeBlob, DecodeBudget, WriteBlob, BudgetIsWrong;
    var decoded := DecodeCall(payload, c.pattern, c.supportsCancellation);
    forall id: Bytes, route: Blob, body: Blob, s: Bytes
      | && |id| == 16 && Utf8(route) && RouteMatches(route, c.pattern)
        && payload == id + WriteBlob(route, WriteBlob(body, s))
        && if c.supportsCancellation then BudgetIsWrong(s) else s != []
      ensures decoded == Err(Protocol)
    {
      FieldsRead(c, id, route, WriteBlob(body, s));
      BlobReads(body, s);
      WrongBudget(s);
    }
    TextFaults();
    if decoded.Err? && |payload| >= 16 && TakeText(payload[16..]).Ok? {
      TextWas(payload[16..]);
      var (route, s2) := TakeText(payload[16..]).value;
      if RouteMatches(route, c.pattern) && TakeBlob(s2).Ok? {
        BlobWas(s2);
        var (body, s3) := TakeBlob(s2).value;
        assert payload == payload[..16] + WriteBlob(route, WriteBlob(body, s3));
        WrongBudget(s3);
        NoBudget();
      }
    }
  }

  lemma TextFaults()
    ensures forall s :: TakeText(s).Err? ==> TakeText(s).error == Codec
    ensures forall s :: TakeBlob(s).Err? ==> TakeBlob(s).error == Codec
  {
  }

  /** There is room, or there is none. */
  predicate Room(c: Config, s: State) {
    !s.closed && |s.inbox| < c.capacity
  }

  /**
   A call of the current session is tracked under its id and waits at the end of the inbox; without room
   it stays with the loop that turns it down. One that cannot be read waits as an error, if there is
   room; one for others, or of another session, leaves no trace.
   */
  lemma ArrivalEffect(c: Config, s: State, payload: Bytes, id: Bytes)
    ensures var s', r := Step(c, s, Arrive(payload, s.generation)), Request(|s.ids|, id, s.generation);
            && (IsCall(c, payload, id) ==>
                  s' == (if Room(c, s) then s.(inbox := s.inbox + [Ready(r)]) else s.(held := s.held[r.serial := r]))
                        .(active := s.active[id := ActiveCall(r.serial, false)], ids := s.ids + [id]))
            && (IsForOthers(c, payload) ==> s' == s)
            && (!IsForOthers(c, payload) && (forall any :: !IsCall(c, payload, any)) ==>
                  var fault := Fault(if BreaksProtocol(c, payload) then Protocol else Codec);
                  s' == if Room(c, s) then s.(inbox := s.inbox + [fault]) else s)
  {
    hide DecodeCall, IsCall, IsForOthers, BreaksProtocol;
    PayloadLanguage(c, payload, id);
    var decoded := DecodeCall(payload, c.pattern, c.supportsCancellation);
    if decoded.Ok? && decoded.value.Some? {
      PayloadLanguage(c, payload, decoded.value.value.id);
    }
  }

  lemma OtherSession(c: Config, s: State, payload: Bytes, generation: nat)
    requires generation != s.generation
    ensures Step(c, s, Arrive(payload, generation)) == s
  {
  }

  /** Calls that were missed are one error in the inbox, if there is room. */
  lemma LagEffect(c: Config, s: State)
    ensures Step(c, s, Lag) == if Room(c, s) then s.(inbox := s.inbox + [Fault(Backpressure)]) else s
  {
  }
}
