/**
 Managed leases (src/client_domains/lease.rs, `acquire`, `with_lease_authority_with_options` and
 `LeaseHandle`): which fencing token each request carries. What the broker answers, when the
 renewal timer fires before the callback ends, and the connection's generation at each check are
 parameters.
 */
module LeaseTokens {
  import opened ByteStrings
  import opened Errors
  import opened Codec
  import opened WireLists
  import opened Patterns

  const LEASE: Bytes := [108, 101, 97, 115, 101]
  const MAX_TTL := 0xFFFF_FFFF / 1000

  /** The answer to a request, or how waiting for it failed. */
  type Reply = Result<Bytes>

  datatype Moment =
    | Acquire(wait: u32, reply: Reply, deferred: Reply)
    | Callback(authority: u64)
    | Renew(token: u64, reply: Reply)
    | Release(token: u64, reply: Reply)

  // ---------------------------------------------------------------- replies

  /** The token a deferred completion grants. */
  function CompletedGrant(deferred: Reply): Result<u64> {
    if deferred.Err? then Err(ConnectionClosed)
    else
      var rest :- SuccessBody(deferred.value);
      var (kind, s) :- TakeU8(rest);
      if kind > 1 then Err(Protocol)
      else
        var (token, _) :- TakeU64(s);
        Ok(token)
  }

  function Granted(wait: u32, reply: Reply, deferred: Reply): Result<u64> {
    var response :- reply;
    var rest :- SuccessBody(response);
    var (kind, s) :- TakeU8(rest);
    if kind == 3 then Err(LeaseAlreadyQueued)
    else if kind < 2 then
      var (token, _) :- TakeU64(s);
      Ok(token)
    else if kind == 2 && wait > 0 then CompletedGrant(deferred)
    else Err(DomainWire(5050, 0, 0, []))
  }

  function Renewed(reply: Reply): Result<u64> {
    var response :- reply;
    var rest :- SuccessBody(response);
    var (token, _) :- TakeU64(rest);
    Ok(token)
  }

  function Freed(reply: Reply): Result<()> {
    var response :- reply;
    var _ :- SuccessBody(response);
    Ok(())
  }

  // ---------------------------------------------------------------- the replies that carry a token

  /** A success, a kind, a token, and whatever follows it. */
  ghost predicate CarriesGrant(response: Bytes, token: u64) {
    exists kind: byte, rest: Bytes :: kind <= 1 && response == [0] + ([kind] + (BE64(token) + rest))
  }

  lemma GrantParts(response: Bytes, token: u64)
    ensures SuccessBody(response).Ok? && TakeU8(SuccessBody(response).value).Ok? && (
              var (kind, s) := TakeU8(SuccessBody(response).value).value;
              kind <= 1 && TakeU64(s).Ok? && TakeU64(s).value.0 == token)
            <==> CarriesGrant(response, token)
  {
    forall kind: byte, rest: Bytes | kind <= 1 && response == [0] + ([kind] + (BE64(token) + rest))
      ensures SuccessBody(response) == Ok([kind] + (BE64(token) + rest))
      ensures TakeU8([kind] + (BE64(token) + rest)) == Ok((kind, BE64(token) + rest))
      ensures TakeU64(BE64(token) + rest) == Ok((token, rest))
    {
      TakeU8Of(0, [kind] + (BE64(token) + rest));
      TakeU8Of(kind, BE64(token) + rest);
      TakeU64Of(token, rest);
    }
    if SuccessBody(response).Ok? && TakeU8(SuccessBody(response).value).Ok? {
      TakeU8Inverse(response);
      TakeU8Inverse(SuccessBody(response).value);
      var (kind, s) := TakeU8(SuccessBody(response).value).value;
      if TakeU64(s).Ok? {
        TakeU64Inverse(s);
        assert response == [0] + ([kind] + (BE64(TakeU64(s).value.0) + TakeU64(s).value.1));
      }
    }
  }

  /** The replies that grant a token: at once, or queued and then completed when the caller waits. */
  lemma GrantLanguage(wait: u32, reply: Reply, deferred: Reply, token: u64)
    ensures Granted(wait, reply, deferred) == Ok(token) <==> Grants(wait, reply, deferred, token)
  {
    hide CarriesGrant, DomainError;
    if reply.Ok? {
      GrantParts(reply.value, token);
      KindIs(reply.value);
    }
    if deferred.Ok? {
      GrantParts(deferred.value, token);
    }
  }

  lemma KindIs(response: Bytes)
    ensures [0, 2] <= response <==> SuccessBody(response).Ok? && TakeU8(SuccessBody(response).value).Ok?
                                    && TakeU8(SuccessBody(response).value).value.0 == 2
  {
    if |response| >= 2 {
      assert response[1..][0] == response[1];
    }
  }

  /** The replies that grant a token to a caller that waits for so long. */
  ghost predicate Grants(wait: u32, reply: Reply, deferred: Reply, token: u64) {
    reply.Ok? && (CarriesGrant(reply.value, token)
                  || (wait > 0 && [0, 2] <= reply.value && deferred.Ok? && CarriesGrant(deferred.value, token)))
  }

  /** A success that says it grants a token and ends before the token does. */
  predicate CutShort(response: Bytes) {
    response == [0] || (2 <= |response| < 10 && response[0] == 0 && response[1] <= 1)
  }

  /** Why a completion that the acquire waited for grants nothing. */
  ghost predicate CompletionFails(deferred: Reply, e: Error) {
    match deferred
    case Err(_) => e == ConnectionClosed
    case Ok(c) =>
      Refuses(c, e) || (CutShort(c) && e == Codec) || (|c| >= 2 && c[0] == 0 && c[1] > 1 && e == Protocol)
  }

  /** Why a reply to ACQUIRE grants nothing. */
  ghost predicate GrantFails(wait: u32, reply: Reply, deferred: Reply, e: Error) {
    match reply
    case Err(failure) => e == failure
    case Ok(r) =>
      || Refuses(r, e) || (CutShort(r) && e == Codec)
      || ([0, 3] <= r && e == LeaseAlreadyQueued)
      || ([0, 2] <= r && wait > 0 && CompletionFails(deferred, e))
      || (|r| >= 2 && r[0] == 0 && (r[1] > 3 || (r[1] == 2 && wait == 0)) && e == DomainWire(5050, 0, 0, []))
  }

  lemma GrantFaults(response: Bytes, e: Error)
    ensures SuccessBody(response) == Err(e) <==> Refuses(response, e)
    ensures SuccessBody(response).Ok? <==> response != [] && response[0] == 0
    ensures SuccessBody(response).Ok? ==> SuccessBody(response).value == response[1..]
    ensures response != [] && response[0] == 0 ==> !Refuses(response, e)
  {
    hide Refuses, DomainError;
    if response == [] || response[0] != 0 {
      StatusLanguage(response, [], e);
    } else {
      assert response == [0] + response[1..];
      StatusLanguage(response, response[1..], e);
    }
  }

  /** Why an ACQUIRE grants nothing: for every reply that grants no token, the one error it is reported as. */
  lemma GrantErrors(wait: u32, reply: Reply, deferred: Reply, e: Error)
    ensures Granted(wait, reply, deferred) == Err(e) <==> GrantFails(wait, reply, deferred, e)
  {
    hide Refuses, SuccessBody;
    if reply.Ok? {
      GrantFaults(reply.value, e);
    }
    CompletionErrors(deferred, e);
  }

  lemma CompletionErrors(deferred: Reply, e: Error)
    ensures CompletedGrant(deferred) == Err(e) <==> CompletionFails(deferred, e)
  {
    hide Refuses, SuccessBody;
    if deferred.Ok? {
      GrantFaults(deferred.value, e);
    }
  }

  /** Why a renewal gives no token. */
  ghost predicate RenewalFails(reply: Reply, e: Error) {
    match reply
    case Err(failure) => e == failure
    case Ok(r) => Refuses(r, e) || (1 <= |r| < 9 && r[0] == 0 && e == Codec)
  }

  /** A renewal is a success that carries the next token, whatever follows it; any other reply is an error that it says. */
  lemma RenewalLanguage(reply: Reply, token: u64, e: Error)
    ensures Renewed(reply) == Ok(token) <==> reply.Ok? && Carries(reply.value, token)
    ensures Renewed(reply) == Err(e) <==> RenewalFails(reply, e)
  {
    hide Refuses, SuccessBody;
    if reply.Ok? {
      GrantFaults(reply.value, e);
      if reply.value != [] {
        NumberLanguage(reply.value[1..], token);
        assert reply.value[0] == 0 ==> reply.value == [0] + reply.value[1..];
      }
    }
  }

  ghost predicate ReleaseFails(reply: Reply, e: Error) {
    match reply
    case Err(failure) => e == failure
    case Ok(r) => Refuses(r, e)
  }

  /** A release succeeds with any reply that starts with a zero. */
  lemma ReleaseLanguage(reply: Reply, e: Error)
    ensures Freed(reply).Ok? <==> reply.Ok? && [0] <= reply.value
    ensures Freed(reply) == Err(e) <==> ReleaseFails(reply, e)
  {
    hide Refuses, SuccessBody;
    if reply.Ok? {
      GrantFaults(reply.value, e);
    }
  }

  // ---------------------------------------------------------------- what a log promises

  /** The token in the last reply that carried one. */
  function LastToken(log: seq<Moment>): Option<u64> {
    if log == [] then None
    else
      match log[|log| - 1]
      case Acquire(wait, reply, deferred) =>
        if Granted(wait, reply, deferred).Ok? then Some(Granted(wait, reply, deferred).value) else LastToken(log[..|log| - 1])
      case Renew(_, reply) =>
        if Renewed(reply).Ok? then Some(Renewed(reply).value) else LastToken(log[..|log| - 1])
      case _ => LastToken(log[..|log| - 1])
  }

  predicate Failed(m: Moment) {
    m.Renew? && Renewed(m.reply).Err?
  }

  predicate Allowed(before: seq<Moment>, m: Moment) {
    match m
    case Acquire(_, _, _) => before == []
    case Callback(authority) => |before| == 1 && LastToken(before) == Some(authority)
    case Renew(token, _) =>
      LastToken(before) == Some(token) && forall j :: 0 <= j < |before| ==> !before[j].Release?
    case Release(token, _) =>
      && LastToken(before) == Some(token)
      && forall j :: 0 <= j < |before| ==> !(before[j].Release? && Freed(before[j].reply).Ok?)
  }

  /** Every moment is allowed after those before it. */
  ghost predicate TokenChain(log: seq<Moment>) {
    forall k :: 0 <= k < |log| ==> Allowed(log[..k], log[k])
  }

  /** What the managed loop adds, and a handle by itself does not: a failed renewal is the last. */
  predicate NoRenewAfterFailure(log: seq<Moment>) {
    forall j, k :: 0 <= j < k < |log| && Failed(log[j]) ==> !log[k].Renew?
  }

  lemma OneMoreMoment(log: seq<Moment>, m: Moment)
    requires TokenChain(log) && Allowed(log, m)
    ensures TokenChain(log + [m])
  {
    var more := log + [m];
    forall k | 0 <= k < |more| ensures Allowed(more[..k], more[k]) {
      assert more[..k] == if k < |log| then log[..k] else log;
    }
  }

  lemma TokenAfter(log: seq<Moment>, m: Moment)
    ensures LastToken(log + [m]) ==
            match m
            case Acquire(wait, reply, deferred) =>
              if Granted(wait, reply, deferred).Ok? then Some(Granted(wait, reply, deferred).value) else LastToken(log)
            case Renew(_, reply) => if Renewed(reply).Ok? then Some(Renewed(reply).value) else LastToken(log)
            case _ => LastToken(log)
  {
    assert (log + [m])[..|log|] == log;
  }

  lemma FirstAlone(log: seq<Moment>)
    requires log != []
    ensures log[..1] == [] + [log[0]] && log[..0] == []
  {
  }

  /**
   Read along the log: only the token of the grant its ACQUIRE took is given to the callback, once; each request
   after it carries that token or the one of the last renewal that succeeded.
   */
  lemma ChainLinks(log: seq<Moment>, k: nat)
    requires TokenChain(log) && k < |log|
    ensures log[k].Acquire? ==> k == 0
    ensures log[k].Callback? ==> (
              k == 1 && log[0].Acquire?
              && Granted(log[0].wait, log[0].reply, log[0].deferred) == Ok(log[1].authority))
    ensures k > 0 && (log[k].Renew? || log[k].Release?) && log[k - 1].Callback? ==> log[k].token == log[k - 1].authority
    ensures k > 0 && (log[k].Renew? || log[k].Release?) && log[k - 1].Renew? && !Failed(log[k - 1]) ==> (
              Renewed(log[k - 1].reply) == Ok(log[k].token))
    ensures k > 0 && (log[k].Renew? || log[k].Release?) && Failed(log[k - 1]) ==> log[k].token == log[k - 1].token
  {
    hide Granted, Renewed, Freed;
    assert Allowed(log[..k], log[k]);
    if k > 0 {
      assert Allowed(log[..k - 1], log[k - 1]);
      assert log[..k] == log[..k - 1] + [log[k - 1]];
      TokenAfter(log[..k - 1], log[k - 1]);
      TokenAfter([], log[0]);
      FirstAlone(log);
      assert Allowed(log[..0], log[0]);
    }
  }

  // ---------------------------------------------------------------- the handle

  class LeaseHandle {
    const generation: u64
    var fencingToken: u64
    var released: bool
    ghost var log: seq<Moment>

    /** The token held is the last one received, and no request follows a successful release. */
    ghost predicate Valid()
      reads this
    {
      && TokenChain(log) && LastToken(log) == Some(fencingToken)
      && (!released ==> forall j :: 0 <= j < |log| ==> !log[j].Release?)
    }

    constructor (generation: u64, fencingToken: u64, ghost log: seq<Moment>)
      requires TokenChain(log) && LastToken(log) == Some(fencingToken) && forall j :: 0 <= j < |log| ==> !log[j].Release?
      ensures Valid() && !released && this.generation == generation && this.fencingToken == fencingToken && this.log == log
    {
      this.generation := generation;
      this.fencingToken := fencingToken;
      released := false;
      this.log := log;
    }

    /** Looks only at `released` and the generation: a handle whose last renewal failed renews again. */
    method Extend(now: u64, reply: Reply) returns (r: Result<()>)
      requires Valid()
      modifies this
      ensures Valid() && released == old(released)
      ensures released || now != generation ==> r == Err(StaleHandle) && log == old(log)
      ensures !released && now == generation ==> log == old(log) + [Renew(old(fencingToken), reply)]
      ensures !released && now == generation && Renewed(reply).Ok? ==> r == Ok(()) && fencingToken == Renewed(reply).value
      ensures !released && now == generation && Renewed(reply).Err? ==> r == Err(Renewed(reply).error)
      ensures r.Err? ==> fencingToken == old(fencingToken)
    {
      if released || now != generation {
        return Err(StaleHandle);
      }
      OneMoreMoment(log, Renew(fencingToken, reply));
      TokenAfter(log, Renew(fencingToken, reply));
      log := log + [Renew(fencingToken, reply)];
      var token := ReadRenewal(reply);
      if token.Err? {
        return Err(token.error);
      }
      fencingToken := token.value;
      r := Ok(());
    }

    /** Consumes the handle: when the request fails, dropping it sends another. */
    method Release(now: u64, reply: Reply, atDrop: u64, ghost lost: Reply) returns (r: Result<()>)
      requires Valid() && !released
      modifies this
      ensures TokenChain(log) && old(log) <= log
      ensures now != generation ==> r == Err(StaleHandle)
      ensures now == generation ==> r == Freed(reply)
      ensures r.Ok? ==> log == old(log) + [Moment.Release(old(fencingToken), reply)]
      ensures r.Err? ==> (log == old(log) + (if now == generation then [Moment.Release(old(fencingToken), reply)] else [])
                                 + (if atDrop == generation then [Moment.Release(old(fencingToken), lost)] else []))
    {
      if now != generation {
        Drop(atDrop, lost);
        return Err(StaleHandle);
      }
      OneMoreMoment(log, Moment.Release(fencingToken, reply));
      TokenAfter(log, Moment.Release(fencingToken, reply));
      log := log + [Moment.Release(fencingToken, reply)];
      r := ReadRelease(reply);
      if r.Ok? {
        released := true;
      } else {
        Drop(atDrop, lost);
      }
    }

    /** `Drop`: a release nobody waits for. */
    method Drop(now: u64, ghost lost: Reply)
      requires TokenChain(log) && LastToken(log) == Some(fencingToken) && !released
      requires forall j :: 0 <= j < |log| ==> !(log[j].Release? && Freed(log[j].reply).Ok?)
      modifies this
      ensures TokenChain(log)
      ensures log == old(log) + if now == generation then [Moment.Release(old(fencingToken), lost)] else []
    {
      if now != generation {
        return;
      }
      released := true;
      OneMoreMoment(log, Moment.Release(fencingToken, lost));
      log := log + [Moment.Release(fencingToken, lost)];
    }
  }

  /**
   A handle does not become stale when a renewal's outcome is uncertain: asked again, it sends a second
   RENEW with the same token, exactly when it has not been released and its session is still current.
   */
  method ExtendAgain(handle: LeaseHandle, first: Reply, now: u64, second: Reply)
    returns (failed: Result<()>, again: Result<()>)
    requires handle.Valid() && !handle.released && Renewed(first).Err?
    modifies handle
    ensures handle.Valid() && failed == Err(Renewed(first).error)
    ensures handle.log == old(handle.log) + [Renew(old(handle.fencingToken), first)]
                          + if now == handle.generation then [Renew(old(handle.fencingToken), second)] else []
    ensures now == handle.generation ==> !NoRenewAfterFailure(handle.log)
  {
    failed := handle.Extend(handle.generation, first);
    ghost var k := |handle.log| - 1;
    again := handle.Extend(now, second);
    assert now == handle.generation ==> Failed(handle.log[k]) && handle.log[k + 1].Renew?;
  }

  method ReadSuccess(d: PayloadDecoder) returns (r: Result<()>)
    requires d.Valid()
    modifies d`pos
    ensures d.Valid()
    ensures match SuccessBody(old(d.Rest())) case Ok(rest) => r == Ok(()) && d.Rest() == rest case Err(e) => r == Err(e)
  {
    var status :- d.GetU8();
    if status == 1 {
      var e := DecodeDomainError(d);
      return Err(e);
    }
    r := if status == 0 then Ok(()) else Err(Protocol);
  }

  method ReadRenewal(reply: Reply) returns (r: Result<u64>)
    ensures r == Renewed(reply)
  {
    if reply.Err? {
      return Err(reply.error);
    }
    var d := new PayloadDecoder(reply.value);
    var _ :- ReadSuccess(d);
    r := d.GetU64();
  }

  method ReadRelease(reply: Reply) returns (r: Result<()>)
    ensures r == Freed(reply)
  {
    if reply.Err? {
      return Err(reply.error);
    }
    var d := new PayloadDecoder(reply.value);
    r := ReadSuccess(d);
  }

  method ReadGrant(wait: u32, reply: Reply, deferred: Reply) returns (r: Result<u64>)
    ensures r == Granted(wait, reply, deferred)
  {
    if reply.Err? {
      return Err(reply.error);
    }
    var d := new PayloadDecoder(reply.value);
    var _ :- ReadSuccess(d);
    var kind :- d.GetU8();
    if kind == 3 {
      return Err(LeaseAlreadyQueued);
    }
    if kind < 2 {
      r := d.GetU64();
    } else if kind == 2 && wait > 0 {
      r := ReadCompletion(deferred);
    } else {
      r := Err(DomainWire(5050, 0, 0, []));
    }
  }

  method ReadCompletion(deferred: Reply) returns (r: Result<u64>)
    ensures r == CompletedGrant(deferred)
  {
    if deferred.Err? {
      return Err(ConnectionClosed);
    }
    var d := new PayloadDecoder(deferred.value);
    var _ :- ReadSuccess(d);
    var kind :- d.GetU8();
    if kind > 1 {
      return Err(Protocol);
    }
    r := d.GetU64();
  }

  // ---------------------------------------------------------------- a managed execution

  datatype Outcome<T, E> = Returned(value: T) | Threw(error: E) | Panicked

  datatype Execution<T, E> =
    | Completed(value: T)
    | CallbackFailed(error: E)
    | AcquisitionFailed(lifecycle: Error)
    | ReleaseFailed(lifecycle: Error)
    | OwnershipLost(lifecycle: Error)
    | Combined(lifecycle: Error, error: E)
    | Unwound

  /** One renewal that comes due before the callback ends. */
  datatype Renewal = Renewal(now: u64, reply: Reply)

  datatype Ending = Ending(now: u64, reply: Reply, atDrop: u64, lost: Reply)

  /** What is sent while the callback runs, the token then held, and what ended it early. */
  datatype Renewals = Renewals(sent: seq<Moment>, token: u64, loss: Option<Error>)

  function RenewAll(renewals: seq<Renewal>, generation: u64, token: u64): Renewals {
    if renewals == [] then Renewals([], token, None)
    else if renewals[0].now != generation then Renewals([], token, Some(StaleHandle))
    else
      var renew := Renew(token, renewals[0].reply);
      match Renewed(renewals[0].reply)
      case Err(e) => Renewals([renew], token, Some(e))
      case Ok(next) =>
        var rest := RenewAll(renewals[1..], generation, next);
        rest.(sent := [renew] + rest.sent)
  }

  function Freeing(ending: Ending, generation: u64): Result<()> {
    if ending.now != generation then Err(StaleHandle) else Freed(ending.reply)
  }

  /** What is sent once the callback has ended: a release, unless ownership was lost, and another if the handle was not released. */
  function Endings(ending: Ending, generation: u64, after: Renewals): seq<Moment> {
    (if after.loss.None? && ending.now == generation then [Release(after.token, ending.reply)] else []) +
    (if (after.loss.Some? || Freeing(ending, generation).Err?) && ending.atDrop == generation
     then [Release(after.token, ending.lost)] else [])
  }

  function Concluded<T, E>(outcome: Outcome<T, E>, loss: Option<Error>, freed: Result<()>): Execution<T, E> {
    match outcome
    case Panicked => Unwound
    case Returned(value) =>
      if loss.Some? then OwnershipLost(loss.value)
      else if freed.Err? then ReleaseFailed(freed.error)
      else Completed(value)
    case Threw(error) =>
      if loss.Some? then Combined(loss.value, error)
      else if freed.Err? then Combined(freed.error, error)
      else CallbackFailed(error)
  }

  /** What is checked before anything is sent. */
  predicate Admissible(route: Bytes, ttl: u64) {
    FixedRoute(route, LEASE, 3) && 0 < ttl <= MAX_TTL
  }

  /** A lease route of three segments and a number of seconds that fits a timer in milliseconds. */
  lemma AdmissibleLanguage(route: Bytes, ttl: u64)
    ensures Admissible(route, ttl) <==>
              && 1 <= ttl <= 4_294_967 && |route| <= 65535
              && exists segments: seq<Bytes> ::
                   |segments| == 3 && (forall k :: 0 <= k < 3 ==> ConcreteSegment(segments[k])) && route == RouteOf(LEASE, segments)
  {
    FixedRouteLanguage(route, LEASE, 3);
  }

  /** All renewals so far have succeeded. */
  predicate NoneFailed(log: seq<Moment>) {
    forall j :: 0 <= j < |log| ==> !Failed(log[j]) && !log[j].Release?
  }

  // ---------------------------------------------------------------- how an execution ends

  /** The renewal came due in the lease's session, and its reply carries a token. */
  ghost predicate Renews(renewal: Renewal, generation: u64) {
    renewal.now == generation && renewal.reply.Ok? && exists token: u64 :: Carries(renewal.reply.value, token)
  }

  ghost predicate Loses(renewal: Renewal, generation: u64, e: Error) {
    if renewal.now != generation then e == StaleHandle else RenewalFails(renewal.reply, e)
  }

  ghost predicate AllRenew(renewals: seq<Renewal>, generation: u64) {
    forall k :: 0 <= k < |renewals| ==> Renews(renewals[k], generation)
  }

  /** The `k`-th renewal is the first that does not succeed, and this is its error. */
  ghost predicate FirstLoss(renewals: seq<Renewal>, generation: u64, k: nat, e: Error) {
    k < |renewals| && AllRenew(renewals[..k], generation) && Loses(renewals[k], generation, e)
  }

  ghost predicate LostWith(renewals: seq<Renewal>, generation: u64, e: Error) {
    exists k: nat :: FirstLoss(renewals, generation, k, e)
  }

  ghost predicate Releases(ending: Ending, generation: u64) {
    ending.now == generation && ending.reply.Ok? && [0] <= ending.reply.value
  }

  ghost predicate CannotRelease(ending: Ending, generation: u64, e: Error) {
    if ending.now != generation then e == StaleHandle else ReleaseFails(ending.reply, e)
  }

  lemma FirstRenewal(renewals: seq<Renewal>, generation: u64, token: u64, e: Error)
    requires renewals != []
    ensures Renews(renewals[0], generation) <==> renewals[0].now == generation && Renewed(renewals[0].reply).Ok?
    ensures Loses(renewals[0], generation, e) <==>
              if renewals[0].now != generation then e == StaleHandle else Renewed(renewals[0].reply) == Err(e)
  {
    hide Refuses, SuccessBody, Carries;
    var reply := renewals[0].reply;
    RenewalLanguage(reply, if Renewed(reply).Ok? then Renewed(reply).value else 0, e);
    forall t: u64 | reply.Ok? && Carries(reply.value, t) ensures Renewed(reply) == Ok(t) {
      RenewalLanguage(reply, t, e);
    }
  }

  lemma AllRenewShift(renewals: seq<Renewal>, generation: u64)
    requires renewals != []
    ensures AllRenew(renewals, generation) <==> Renews(renewals[0], generation) && AllRenew(renewals[1..], generation)
  {
    hide Renews;
    assert forall j :: 0 <= j < |renewals| - 1 ==> renewals[1..][j] == renewals[j + 1];
    assert forall j :: 0 < j < |renewals| ==> renewals[j] == renewals[1..][j - 1];
  }

  lemma FirstLossShift(renewals: seq<Renewal>, generation: u64, k: nat, e: Error)
    requires renewals != []
    ensures FirstLoss(renewals, generation, k, e) <==>
              if k == 0 then Loses(renewals[0], generation, e)
              else Renews(renewals[0], generation) && FirstLoss(renewals[1..], generation, k - 1, e)
  {
    hide Renews, Loses, AllRenew;
    if k == 0 {
      assert AllRenew(renewals[..0], generation) by { NoRenewals(generation); }
    } else if k < |renewals| {
      assert renewals[..k][1..] == renewals[1..][..k - 1];
      AllRenewShift(renewals[..k], generation);
    }
  }

  lemma NoRenewals(generation: u64)
    ensures AllRenew([], generation)
  {
  }

  /**
   Ownership is lost with the error of the first renewal that does not succeed, and to that one every renewal
   is sent that comes due in the lease's session.
   */
  lemma {:induction false} LossLanguage(renewals: seq<Renewal>, generation: u64, token: u64, e: Error)
    ensures var after := RenewAll(renewals, generation, token);
            && (after.loss.None? <==> AllRenew(renewals, generation))
            && (after.loss == Some(e) <==> LostWith(renewals, generation, e))
            && (AllRenew(renewals, generation) ==> |after.sent| == |renewals|)
            && (forall k: nat :: FirstLoss(renewals, generation, k, e) ==>
                  |after.sent| == if renewals[k].now == generation then k + 1 else k)
  {
    hide Renewed, Renews, Loses;
    if renewals != [] {
      FirstRenewal(renewals, generation, token, e);
      AllRenewShift(renewals, generation);
      forall k: nat
        ensures FirstLoss(renewals, generation, k, e) <==>
                  if k == 0 then Loses(renewals[0], generation, e)
                  else Renews(renewals[0], generation) && FirstLoss(renewals[1..], generation, k - 1, e)
      {
        FirstLossShift(renewals, generation, k, e);
      }
      hide AllRenew, FirstLoss;
      if Renews(renewals[0], generation) {
        var next := Renewed(renewals[0].reply).value;
        LossLanguage(renewals[1..], generation, next, e);
        assert forall k: nat :: FirstLoss(renewals[1..], generation, k, e) ==> FirstLoss(renewals, generation, k + 1, e);
      } else {
        assert Loses(renewals[0], generation, e) ==> FirstLoss(renewals, generation, 0, e);
      }
    }
  }

  lemma EndingLanguage(ending: Ending, generation: u64, e: Error)
    ensures Freeing(ending, generation).Ok? <==> Releases(ending, generation)
    ensures Freeing(ending, generation) == Err(e) <==> CannotRelease(ending, generation, e)
  {
    hide Freed, ReleaseFails;
    ReleaseLanguage(ending.reply, e);
  }

  /** The ACQUIRE is sent and carries a grant, so the callback runs. */
  ghost predicate Ran(route: Bytes, ttl: u64, wait: u32, reply: Reply, deferred: Reply) {
    Admissible(route, ttl) && exists token: u64 :: Grants(wait, reply, deferred, token)
  }

  /** How an execution in which the callback ran has to end, read off the script. */
  ghost predicate Explained<T, E>(
    renewals: seq<Renewal>, generation: u64, outcome: Outcome<T, E>, ending: Ending, r: Execution<T, E>)
  {
    var kept, freed := AllRenew(renewals, generation), Releases(ending, generation);
    && (r.Completed? <==> outcome.Returned? && kept && freed)
    && (r.Completed? ==> outcome == Returned(r.value))
    && (r.CallbackFailed? <==> outcome.Threw? && kept && freed)
    && (r.CallbackFailed? || r.Combined? ==> outcome == Threw(r.error))
    && (r.Unwound? <==> outcome.Panicked?)
    && (forall e :: r == OwnershipLost(e) <==> outcome.Returned? && LostWith(renewals, generation, e))
    && (forall e :: r == ReleaseFailed(e) <==> outcome.Returned? && kept && CannotRelease(ending, generation, e))
    && (forall e :: r.Combined? && r.lifecycle == e <==>
          outcome.Threw? && (LostWith(renewals, generation, e) || (kept && CannotRelease(ending, generation, e))))
    && !r.AcquisitionFailed?
  }

  lemma ConclusionIsExplained<T, E>(
    renewals: seq<Renewal>, generation: u64, token: u64, outcome: Outcome<T, E>, ending: Ending)
    ensures var after := RenewAll(renewals, generation, token);
            Explained(renewals, generation, outcome, ending, Concluded(outcome, after.loss, Freeing(ending, generation)))
  {
    hide RenewAll, Freeing, AllRenew, Releases, LostWith, CannotRelease;
    var after := RenewAll(renewals, generation, token);
    var r := Concluded(outcome, after.loss, Freeing(ending, generation));
    var kept := AllRenew(renewals, generation);
    LossLanguage(renewals, generation, token, Codec);
    EndingLanguage(ending, generation, Codec);
    forall e
      ensures r == OwnershipLost(e) <==> outcome.Returned? && LostWith(renewals, generation, e)
      ensures r == ReleaseFailed(e) <==> outcome.Returned? && kept && CannotRelease(ending, generation, e)
      ensures r.Combined? && r.lifecycle == e <==>
                outcome.Threw? && (LostWith(renewals, generation, e) || (kept && CannotRelease(ending, generation, e)))
    {
      LossLanguage(renewals, generation, token, e);
      EndingLanguage(ending, generation, e);
    }
  }

  method WithLease<T, E>(
    route: Bytes, ttl: u64, wait: u32, reply: Reply, deferred: Reply, generation: u64,
    renewals: seq<Renewal>, outcome: Outcome<T, E>, ending: Ending)
    returns (r: Execution<T, E>, ghost log: seq<Moment>)
    ensures forall e :: r == AcquisitionFailed(e) <==>
              if Admissible(route, ttl) then GrantFails(wait, reply, deferred, e) else e == Protocol
    ensures r.AcquisitionFailed? <==> !Ran(route, ttl, wait, reply, deferred)
    ensures Ran(route, ttl, wait, reply, deferred) ==> Explained(renewals, generation, outcome, ending, r)
    ensures TokenChain(log) && NoRenewAfterFailure(log)
    ensures !Admissible(route, ttl) ==> log == []
    ensures Admissible(route, ttl) && Granted(wait, reply, deferred).Err? ==> log == [Acquire(wait, reply, deferred)]
    ensures Admissible(route, ttl) && Granted(wait, reply, deferred).Ok? ==> (
              var token := Granted(wait, reply, deferred).value;
              var after := RenewAll(renewals, generation, token);
              log == [Acquire(wait, reply, deferred), Callback(token)] + after.sent + Endings(ending, generation, after))
  {
    hide Granted, Freed, Renewed, FixedRoute, Allowed, RenewAll, Endings, TokenChain, LastToken;
    hide Grants, GrantFails, Explained, Concluded, Freeing;
    EmptyChain();
    WhatIsGranted(wait, reply, deferred);
    log := [];
    var admitted := Admit(route, ttl);
    if admitted.Err? {
      return AcquisitionFailed(admitted.error), log;
    }
    log := Started(wait, reply, deferred);
    var token := ReadGrant(wait, reply, deferred);
    if token.Err? {
      return AcquisitionFailed(token.error), log;
    }
    var handle := new LeaseHandle(generation, token.value, log);
    r := Supervise(handle, renewals, outcome, ending);
    ConclusionIsExplained(renewals, generation, token.value, outcome, ending);
    assert !r.AcquisitionFailed? by { NotAcquisition(renewals, generation, outcome, ending, r); }
    log := handle.log;
  }

  lemma WhatIsGranted(wait: u32, reply: Reply, deferred: Reply)
    ensures Granted(wait, reply, deferred).Ok? <==> exists token: u64 :: Grants(wait, reply, deferred, token)
    ensures forall e :: Granted(wait, reply, deferred) == Err(e) <==> GrantFails(wait, reply, deferred, e)
  {
    hide Granted, Grants, GrantFails;
    forall token: u64 ensures Granted(wait, reply, deferred) == Ok(token) <==> Grants(wait, reply, deferred, token) {
      GrantLanguage(wait, reply, deferred, token);
    }
    forall e ensures Granted(wait, reply, deferred) == Err(e) <==> GrantFails(wait, reply, deferred, e) {
      GrantErrors(wait, reply, deferred, e);
    }
  }

  lemma NotAcquisition<T, E>(
    renewals: seq<Renewal>, generation: u64, outcome: Outcome<T, E>, ending: Ending, r: Execution<T, E>)
    requires Explained(renewals, generation, outcome, ending, r)
    ensures !r.AcquisitionFailed?
  {
  }

  lemma EmptyChain()
    ensures TokenChain([]) && NoRenewAfterFailure([])
  {
  }

  method Admit(route: Bytes, ttl: u64) returns (r: Result<()>)
    ensures r.Ok? <==> Admissible(route, ttl)
    ensures r.Err? ==> r.error == Protocol
  {
    var _ :- ValidateFixedRoute(route, LEASE, 3);
    r := if ttl == 0 || ttl > MAX_TTL then Err(Protocol) else Ok(());
  }

  /** The log once the ACQUIRE is answered and, if it was granted, the callback has its authority. */
  ghost function Started(wait: u32, reply: Reply, deferred: Reply): (log: seq<Moment>)
    ensures TokenChain(log) && NoneFailed(log)
    ensures log == match Granted(wait, reply, deferred)
                   case Ok(token) => [Acquire(wait, reply, deferred), Callback(token)]
                   case Err(_) => [Acquire(wait, reply, deferred)]
    ensures Granted(wait, reply, deferred).Ok? ==> LastToken(log) == Some(Granted(wait, reply, deferred).value)
  {
    var acquire := Acquire(wait, reply, deferred);
    OneMoreMoment([], acquire);
    TokenAfter([], acquire);
    match Granted(wait, reply, deferred)
    case Err(_) => [] + [acquire]
    case Ok(token) =>
      OneMoreMoment([] + [acquire], Callback(token));
      TokenAfter([] + [acquire], Callback(token));
      [] + [acquire] + [Callback(token)]
  }

  /** The loop beside the running callback, and what follows it. */
  method Supervise<T, E>(handle: LeaseHandle, renewals: seq<Renewal>, outcome: Outcome<T, E>, ending: Ending)
    returns (r: Execution<T, E>)
    requires handle.Valid() && !handle.released && NoneFailed(handle.log)
    modifies handle
    ensures TokenChain(handle.log) && NoRenewAfterFailure(handle.log)
    ensures var after := RenewAll(renewals, handle.generation, old(handle.fencingToken));
            && handle.log == old(handle.log) + after.sent + Endings(ending, handle.generation, after)
            && r == Concluded(outcome, after.loss, Freeing(ending, handle.generation))
  {
    hide Granted, Freed, Renewed, Allowed, RenewAll, LastToken;
    ghost var after := RenewAll(renewals, handle.generation, handle.fencingToken);
    var lost := RenewWhileRunning(handle, renewals);
    ghost var before := handle.log;
    if lost.Some? {
      handle.Drop(ending.atDrop, ending.lost);
      r := Concluded(outcome, lost, Ok(()));
    } else {
      var freed := handle.Release(ending.now, ending.reply, ending.atDrop, ending.lost);
      r := Concluded(outcome, None, freed);
    }
    assert handle.log == before + Endings(ending, handle.generation, after);
  }

  /** The renewal timer's part of the loop; it ends with the first renewal that fails. */
  method RenewWhileRunning(handle: LeaseHandle, renewals: seq<Renewal>) returns (lost: Option<Error>)
    requires handle.Valid() && !handle.released && NoneFailed(handle.log)
    modifies handle
    ensures handle.Valid() && !handle.released && NoRenewAfterFailure(handle.log)
    ensures var after := RenewAll(renewals, handle.generation, old(handle.fencingToken));
            && handle.log == old(handle.log) + after.sent
            && handle.fencingToken == after.token && lost == after.loss
  {
    hide Granted, Freed, Allowed, TokenChain, LastToken;
    ghost var after := RenewAll(renewals, handle.generation, handle.fencingToken);
    ghost var left := renewals;
    for i := 0 to |renewals|
      invariant handle.Valid() && !handle.released && NoneFailed(handle.log) && left == renewals[i..]
      invariant var rest := RenewAll(left, handle.generation, handle.fencingToken);
                && old(handle.log) + after.sent == handle.log + rest.sent
                && after.token == rest.token && after.loss == rest.loss
    {
      var extended := handle.Extend(renewals[i].now, renewals[i].reply);
      if extended.Err? {
        return Some(extended.error);
      }
      left := left[1..];
    }
    lost := None;
  }
}
