/**
 Enqueueing at most once (src/client_domains/queue.rs, `enqueue_with_options`, and
 src/async_connection.rs, `request_confirmed_negative_with_flags`). A script holds, for each attempt
 the client might make, what comes back and whether the broker applied it.
 */
module Enqueue {
  import opened ByteStrings
  import opened Errors
  import opened Codec
  import opened WireLists

  datatype RetryPolicy = RetryPolicy(enabled: bool, maximumAttempts: nat)
  datatype Attempt = Attempt(reply: Result<Bytes>, applied: bool)

  function Attempts(policy: RetryPolicy): (n: nat)
    ensures n >= 1
  {
    if policy.enabled && policy.maximumAttempts > 1 then policy.maximumAttempts else 1
  }

  predicate RetryableRejection(response: Bytes) {
    SuccessBody(response).Err? && IsRetryable(SuccessBody(response).error)
  }

  /** The message id, or 0 when the broker sends none. */
  function MessageId(response: Bytes): Result<u64> {
    var rest :- SuccessBody(response);
    if rest == [] then Ok(0)
    else
      var (id, _) :- TakeU64(rest);
      Ok(id)
  }

  /** The replies that give this id: a bare success gives 0. */
  ghost predicate GivesId(response: Bytes, id: u64) {
    Carries(response, id) || (response == [0] && id == 0)
  }

  /** The replies that give this error: a refusal, or a success with less than an id. */
  ghost predicate GivesError(response: Bytes, e: Error) {
    Refuses(response, e) || (1 < |response| < 9 && response[0] == 0 && e == Codec)
  }

  /** Each reply is an id or an error, as its bytes say. */
  lemma IdLanguage(response: Bytes, id: u64, e: Error)
    ensures MessageId(response) == Ok(id) <==> GivesId(response, id)
    ensures MessageId(response) == Err(e) <==> GivesError(response, e)
  {
    hide Refuses, Carries;
    if response == [] || response[0] != 0 {
      StatusLanguage(response, [], e);
      NoSuccess(response, id);
    } else {
      var body := response[1..];
      assert response == [0] + body;
      StatusLanguage(response, body, e);
      NumberLanguage(body, id);
      if body == [] {
        assert [0] + [] == [0];
      }
    }
  }

  lemma NoSuccess(response: Bytes, id: u64)
    requires response == [] || response[0] != 0
    ensures !GivesId(response, id) && SuccessBody(response).Err?
  {
  }

  /** How many attempts are sent. */
  function Sent(bound: nat, script: seq<Attempt>): (n: nat)
    requires 1 <= bound <= |script|
    ensures 1 <= n <= bound
  {
    if bound == 1 || script[0].reply.Err? || !RetryableRejection(script[0].reply.value) then 1
    else 1 + Sent(bound - 1, script[1..])
  }

  /** `request_confirmed_negative_with_flags` */
  method RequestConfirmedNegative(policy: RetryPolicy, script: seq<Attempt>) returns (r: Result<Bytes>, sent: nat)
    requires |script| >= Attempts(policy)
    ensures sent == Sent(Attempts(policy), script)
    ensures r == script[sent - 1].reply
  {
    hide RetryableRejection;
    var attempts := Attempts(policy);
    sent := 0;
    while true
      invariant sent < attempts && 1 <= attempts - sent <= |script[sent..]|
      invariant Sent(attempts, script) == sent + Sent(attempts - sent, script[sent..])
      decreases attempts - sent
    {
      r := script[sent].reply;
      assert script[sent..][1..] == script[sent + 1..];
      sent := sent + 1;
      if r.Err? || sent == attempts {
        return;
      }
      var retryable := IsRetryableRejection(r.value);
      if !retryable {
        return;
      }
    }
  }

  method IsRetryableRejection(response: Bytes) returns (retryable: bool)
    ensures retryable == RetryableRejection(response)
  {
    var d := new PayloadDecoder(response);
    var status := d.GetU8();
    if status.Err? {
      return IsRetryable(status.error);
    }
    match status.value
    case 0 => retryable := false;
    case 1 =>
      var e := DecodeDomainError(d);
      retryable := IsRetryable(e);
    case _ => retryable := IsRetryable(Protocol);
  }

  method Enqueue(policy: RetryPolicy, script: seq<Attempt>) returns (r: Result<u64>, sent: nat)
    requires |script| >= Attempts(policy)
    ensures sent == Sent(Attempts(policy), script)
    ensures sent == 1 || (policy.enabled && sent <= policy.maximumAttempts)
    ensures script[sent - 1].reply.Ok? && Retried(script[sent - 1].reply.value) ==> !policy.enabled || policy.maximumAttempts <= sent
    ensures script[sent - 1].reply.Err? ==> r == Err(script[sent - 1].reply.error)
    ensures script[sent - 1].reply.Ok? ==> (
              var response := script[sent - 1].reply.value;
              && (forall id: u64 :: r == Ok(id) <==> GivesId(response, id))
              && (forall e :: r == Err(e) <==> GivesError(response, e)))
  {
    hide GivesId, GivesError, Retried;
    var reply;
    reply, sent := RequestConfirmedNegative(policy, script);
    AttemptsAllowed(policy, script);
    if reply.Err? {
      return Err(reply.error), sent;
    }
    r := ReadId(reply.value);
    ghost var response := reply.value;
    forall id: u64 ensures r == Ok(id) <==> GivesId(response, id) {
      IdLanguage(response, id, Codec);
    }
    forall e ensures r == Err(e) <==> GivesError(response, e) {
      IdLanguage(response, 0, e);
    }
  }

  method ReadId(response: Bytes) returns (r: Result<u64>)
    ensures r == MessageId(response)
  {
    var d := new PayloadDecoder(response);
    var status :- d.GetU8();
    if status == 1 {
      var e := DecodeDomainError(d);
      return Err(e);
    }
    if status != 0 {
      return Err(Protocol);
    }
    var empty := d.IsEmpty();
    if empty {
      return Ok(0);
    }
    r := d.GetU64();
  }

  // ---------------------------------------------------------------- at most once

  /** The broker says, in a well-formed domain error, that nothing was applied. */
  ghost predicate EffectZero(response: Bytes) {
    exists code: u16, class_: byte, message: Blob ::
      class_ <= 10 && Utf8(message) && response == [1] + WriteDomainError(code, class_, 0, message)
  }

  /** The rejections that make the client try again: nothing was applied, for want of capacity or by one of four codes. */
  ghost predicate Retried(response: Bytes) {
    exists code: u16, class_: byte, message: Blob ::
      && class_ <= 10 && Utf8(message) && response == [1] + WriteDomainError(code, class_, 0, message)
      && (class_ == 5 || code == 1053 || code == 5050 || code == 5056 || code == 6051)
  }

  lemma RetryLanguage(response: Bytes)
    ensures RetryableRejection(response) <==> Retried(response)
  {
    hide Utf8, DomainError, WriteDomainError;
    if RetryableRejection(response) {
      var e := SuccessBody(response).error;
      StatusLanguage(response, [], e);
      assert response == [response[0]] + response[1..];
      var message: Blob := e.message;
      assert response == [1] + WriteDomainError(e.code, e.class_, 0, message);
    }
    forall code: u16, class_: byte, message: Blob
      | && class_ <= 10 && Utf8(message) && response == [1] + WriteDomainError(code, class_, 0, message)
        && (class_ == 5 || code == 1053 || code == 5050 || code == 5056 || code == 6051)
      ensures RetryableRejection(response)
    {
      assert response[1..] == WriteDomainError(code, class_, 0, message);
      StatusLanguage(response, [], DomainWire(code, class_, 0, message));
    }
  }

  /** Only an answer that nothing was applied makes the client try again. */
  lemma RetryMeansEffectZero(response: Bytes)
    requires RetryableRejection(response)
    ensures EffectZero(response)
  {
    hide Utf8, WriteDomainError, RetryableRejection;
    RetryLanguage(response);
  }

  /** An attempt is made exactly when there is one left and every earlier one was rejected in such a way. */
  lemma {:induction false} SentLanguage(bound: nat, script: seq<Attempt>, k: nat)
    requires 1 <= bound <= |script|
    ensures k < Sent(bound, script) <==>
              k < bound && forall j :: 0 <= j < k ==> script[j].reply.Ok? && Retried(script[j].reply.value)
  {
    hide RetryableRejection, Retried;
    if script[0].reply.Ok? {
      RetryLanguage(script[0].reply.value);
    }
    if k > 0 && bound > 1 && script[0].reply.Ok? && Retried(script[0].reply.value) {
      SentLanguage(bound - 1, script[1..], k - 1);
      assert forall j :: 0 < j < k && k < bound ==> script[j] == script[1..][j - 1];
      assert forall j :: 0 <= j < k - 1 && k < bound ==> script[1..][j] == script[j + 1];
    }
  }

  /** One attempt, or as many as the policy allows; the last answer asks for no more, or no more are allowed. */
  lemma AttemptsAllowed(policy: RetryPolicy, script: seq<Attempt>)
    requires |script| >= Attempts(policy)
    ensures var sent := Sent(Attempts(policy), script);
            && (sent == 1 || (policy.enabled && sent <= policy.maximumAttempts))
            && (script[sent - 1].reply.Ok? && Retried(script[sent - 1].reply.value) ==>
                  !policy.enabled || policy.maximumAttempts <= sent)
  {
    hide Retried, Sent;
    var sent := Sent(Attempts(policy), script);
    SentLanguage(Attempts(policy), script, sent - 1);
    SentLanguage(Attempts(policy), script, sent);
  }

  /** A broker that answers effect 0 only to attempts it has not applied. */
  ghost predicate Honest(script: seq<Attempt>) {
    forall k :: 0 <= k < |script| && script[k].applied ==>
      !(script[k].reply.Ok? && EffectZero(script[k].reply.value))
  }

  lemma {:induction false} EarlierWereRejected(bound: nat, script: seq<Attempt>, k: nat)
    requires 1 <= bound <= |script| && k + 1 < Sent(bound, script)
    ensures script[k].reply.Ok? && EffectZero(script[k].reply.value)
  {
    hide RetryableRejection, EffectZero;
    RetryMeansEffectZero(script[0].reply.value);
    if k > 0 {
      EarlierWereRejected(bound - 1, script[1..], k - 1);
    }
  }

  /**
   Whatever the broker answers, only the last attempt sent can have been applied; and none has been
   when that one too is answered with effect 0.
   */
  lemma AtMostOnce(policy: RetryPolicy, script: seq<Attempt>)
    requires |script| >= Attempts(policy) && Honest(script)
    ensures var sent := Sent(Attempts(policy), script);
            && sent <= Attempts(policy)
            && (forall k :: 0 <= k < sent - 1 ==> !script[k].applied)
            && (script[sent - 1].reply.Ok? && EffectZero(script[sent - 1].reply.value) ==> !script[sent - 1].applied)
  {
    var sent := Sent(Attempts(policy), script);
    forall k | 0 <= k < sent - 1 ensures !script[k].applied {
      EarlierWereRejected(Attempts(policy), script, k);
    }
  }

  /** A transport error, or an answer that leaves open what happened, is never followed by another attempt. */
  lemma UnknownOutcomeStops(bound: nat, script: seq<Attempt>, k: nat)
    requires 1 <= bound <= |script| && k < Sent(bound, script)
    requires script[k].reply.Err? || !EffectZero(script[k].reply.value)
    ensures Sent(bound, script) == k + 1
  {
    if k + 1 < Sent(bound, script) {
      EarlierWereRejected(bound, script, k);
    }
  }
}
