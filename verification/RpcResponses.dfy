/**
 The responses to one RPC call (src/client_domains/rpc/worker.rs): which frames reach the connection, with
 which numbers, when a send that fails may have written its frame all the same.
 */
module RpcResponses {
  import opened ByteStrings
  import opened Errors

  datatype ResponseFrame = ResponseFrame(sequence: nat, end: bool, body: Bytes)

  /** A frame handed to `send`, what `send` returned, and whether the frame was or will be written. */
  datatype Attempt = Attempt(frame: ResponseFrame, outcome: Result<()>, onWire: bool)

  /** Numbered from zero without a gap, with an end only at the end. */
  predicate Consecutive(frames: seq<ResponseFrame>) {
    forall k :: 0 <= k < |frames| ==> frames[k].sequence == k && (frames[k].end ==> k == |frames| - 1)
  }

  /** The frames that reach the connection. */
  function Wire(attempts: seq<Attempt>): seq<ResponseFrame> {
    if attempts == [] then []
    else
      var a := attempts[|attempts| - 1];
      Wire(attempts[..|attempts| - 1]) + if a.onWire then [a.frame] else []
  }

  /** How many sends succeeded. */
  function Sent(attempts: seq<Attempt>): nat {
    if attempts == [] then 0
    else Sent(attempts[..|attempts| - 1]) + if attempts[|attempts| - 1].outcome.Ok? then 1 else 0
  }

  /** An end was sent with success. */
  predicate Ended(attempts: seq<Attempt>) {
    exists k :: 0 <= k < |attempts| && attempts[k].outcome.Ok? && attempts[k].frame.end
  }

  /** The command waited in the queue when the time ran out, or writing it failed at some point. */
  predicate Unknown(outcome: Result<()>) {
    outcome == Err(Timeout) || outcome == Err(Transport)
  }

  predicate Possible(outcome: Result<()>, onWire: bool) {
    Unknown(outcome) || (onWire <==> outcome.Ok?)
  }

  /** What a request can have tried: the next frame is numbered by the sends that succeeded, and none follows an end that did. */
  predicate Produced(attempts: seq<Attempt>) {
    forall k :: 0 <= k < |attempts| ==>
      && attempts[k].frame.sequence == Sent(attempts[..k]) && !Ended(attempts[..k])
      && Possible(attempts[k].outcome, attempts[k].onWire)
  }

  /** The frame was written although `send` failed. */
  predicate Doubtful(a: Attempt) {
    a.onWire && a.outcome.Err?
  }

  lemma ProducedBefore(attempts: seq<Attempt>)
    requires Produced(attempts) && attempts != []
    ensures Produced(attempts[..|attempts| - 1])
  {
    var front := attempts[..|attempts| - 1];
    assert forall k :: 0 <= k < |front| ==> front[..k] == attempts[..k];
  }

  lemma {:induction false} MoreWiredThanSent(attempts: seq<Attempt>)
    requires Produced(attempts)
    ensures |Wire(attempts)| >= Sent(attempts)
    ensures |Wire(attempts)| == Sent(attempts) <==> forall k :: 0 <= k < |attempts| ==> !Doubtful(attempts[k])
  {
    if attempts != [] {
      var front := attempts[..|attempts| - 1];
      ProducedBefore(attempts);
      MoreWiredThanSent(front);
      assert attempts == front + [attempts[|attempts| - 1]];
      assert forall k :: 0 <= k < |front| ==> attempts[k] == front[k];
    }
  }

  /** Without a doubtful send, an end is on the wire only when it was sent with success. */
  lemma {:induction false} EndsWereSent(attempts: seq<Attempt>)
    requires forall k :: 0 <= k < |attempts| ==> !Doubtful(attempts[k])
    requires !Ended(attempts)
    ensures forall k :: 0 <= k < |Wire(attempts)| ==> !Wire(attempts)[k].end
  {
    if attempts != [] {
      var front := attempts[..|attempts| - 1];
      assert forall k :: 0 <= k < |front| ==> front[k] == attempts[k];
      EndsWereSent(front);
    }
  }

  /** No frame is written after one that was written although its send failed. */
  predicate DoubtEnds(attempts: seq<Attempt>) {
    forall j, k :: 0 <= j < k < |attempts| && Doubtful(attempts[j]) ==> !attempts[k].onWire
  }

  lemma ConsecutiveMore(frames: seq<ResponseFrame>, f: ResponseFrame)
    ensures Consecutive(frames + [f]) <==>
              Consecutive(frames) && f.sequence == |frames| && forall k :: 0 <= k < |frames| ==> !frames[k].end
  {
    var more := frames + [f];
    assert more[|frames|] == f;
    assert forall k :: 0 <= k < |frames| ==> more[k] == frames[k];
  }

  lemma DoubtMore(attempts: seq<Attempt>, a: Attempt)
    ensures DoubtEnds(attempts + [a]) <==>
              DoubtEnds(attempts) && (a.onWire ==> forall k :: 0 <= k < |attempts| ==> !Doubtful(attempts[k]))
  {
    var more := attempts + [a];
    assert more[|attempts|] == a;
    assert forall k :: 0 <= k < |attempts| ==> more[k] == attempts[k];
  }

  /** The frames on the wire are numbered without a gap, and nothing follows an end, if and only if no frame is written after a doubtful one. */
  lemma {:induction false} WireIsConsecutive(attempts: seq<Attempt>)
    requires Produced(attempts)
    ensures Consecutive(Wire(attempts)) <==> DoubtEnds(attempts)
  {
    hide Consecutive, DoubtEnds, Doubtful, Possible, Ended;
    if attempts == [] {
      NothingWritten();
    } else {
      var front, a := attempts[..|attempts| - 1], attempts[|attempts| - 1];
      assert attempts == front + [a];
      ProducedBefore(attempts);
      WireIsConsecutive(front);
      DoubtMore(front, a);
      if a.onWire {
        ConsecutiveMore(Wire(front), a.frame);
        MoreWiredThanSent(front);
        if forall k :: 0 <= k < |front| ==> !Doubtful(front[k]) {
          EndsWereSent(front);
          NoDoubt(front);
        }
      } else {
        assert Wire(attempts) == Wire(front);
      }
    }
  }

  lemma NothingWritten()
    ensures Consecutive(Wire([])) && DoubtEnds([])
  {
  }

  lemma NoDoubt(attempts: seq<Attempt>)
    requires forall k :: 0 <= k < |attempts| ==> !Doubtful(attempts[k])
    ensures DoubtEnds(attempts)
  {
  }

  // ---------------------------------------------------------------- what a caller sees

  /** The same calls with the same results; what was written may differ. */
  predicate SameCalls(a: seq<Attempt>, b: seq<Attempt>) {
    |a| == |b| && forall k :: 0 <= k < |a| ==> a[k].frame == b[k].frame && a[k].outcome == b[k].outcome
  }

  /** No send comes after one of unknown outcome, unless it is refused. */
  predicate Careful(attempts: seq<Attempt>) {
    forall j, k :: 0 <= j < k < |attempts| && Unknown(attempts[j].outcome) ==>
      attempts[k].outcome.Err? && !Unknown(attempts[k].outcome)
  }

  lemma CarefulIsSound(attempts: seq<Attempt>, b: seq<Attempt>)
    requires Careful(attempts) && Produced(b) && SameCalls(attempts, b)
    ensures Consecutive(Wire(b))
  {
    hide Consecutive, Wire;
    WireIsConsecutive(b);
  }

  /** The same calls, with everything written that may have been. */
  function Written(attempts: seq<Attempt>): (b: seq<Attempt>)
    ensures |b| == |attempts|
  {
    seq(|attempts|, i requires 0 <= i < |attempts| =>
      attempts[i].(onWire := attempts[i].outcome.Ok? || Unknown(attempts[i].outcome)))
  }

  lemma WrittenIsPossible(attempts: seq<Attempt>)
    requires Produced(attempts)
    ensures Produced(Written(attempts)) && SameCalls(attempts, Written(attempts))
  {
    hide Sent, Ended;
    var b := Written(attempts);
    forall i | 0 <= i < |b| ensures Sent(b[..i]) == Sent(attempts[..i]) && Ended(b[..i]) == Ended(attempts[..i]) {
      SameCallsSent(attempts[..i], b[..i]);
    }
  }

  lemma CarelessIsNot(attempts: seq<Attempt>)
    requires Produced(attempts) && !Careful(attempts)
    ensures !Consecutive(Wire(Written(attempts)))
  {
    hide Consecutive, Wire, Produced;
    var b := Written(attempts);
    var j, k :| 0 <= j < k < |attempts| && Unknown(attempts[j].outcome)
                && (attempts[k].outcome.Ok? || Unknown(attempts[k].outcome));
    WrittenIsPossible(attempts);
    WireIsConsecutive(b);
    assert Doubtful(b[j]) && b[k].onWire;
  }

  /** The wire sequence is sound whatever was written if and only if the calls were careful. */
  lemma CarefulCallers(attempts: seq<Attempt>)
    requires Produced(attempts)
    ensures Careful(attempts) <==>
              forall b :: Produced(b) && SameCalls(attempts, b) ==> Consecutive(Wire(b))
  {
    hide Consecutive, Wire, Produced, SameCalls, Careful, Written;
    if Careful(attempts) {
      forall b | Produced(b) && SameCalls(attempts, b) ensures Consecutive(Wire(b)) {
        CarefulIsSound(attempts, b);
      }
    } else {
      WrittenIsPossible(attempts);
      CarelessIsNot(attempts);
    }
  }

  lemma {:induction false} SameCallsSent(a: seq<Attempt>, b: seq<Attempt>)
    requires SameCalls(a, b)
    ensures Sent(a) == Sent(b) && Ended(a) == Ended(b)
  {
    if a != [] {
      SameCallsSent(a[..|a| - 1], b[..|b| - 1]);
    }
  }

  // ---------------------------------------------------------------- the request

  class RpcRequest {
    const generation: nat
    var nextSequence: nat
    var finished: bool
    ghost var attempts: seq<Attempt>

    ghost predicate Valid()
      reads this
    {
      Produced(attempts) && nextSequence == Sent(attempts) && finished == Ended(attempts)
    }

    constructor (generation: nat)
      ensures Valid() && this.generation == generation && attempts == [] && !finished
    {
      this.generation := generation;
      nextSequence, finished, attempts := 0, false, [];
    }

    method Respond(now: nat, body: Bytes, isEnd: bool, sent: Result<()>, ghost onWire: bool) returns (r: Result<()>)
      requires Valid() && Possible(sent, onWire)
      modifies this
      ensures Valid()
      ensures old(finished) || now != generation ==> r == Err(StaleHandle) && attempts == old(attempts)
      ensures !old(finished) && now == generation ==>
                && r == sent
                && attempts == old(attempts) + [Attempt(ResponseFrame(Sent(old(attempts)), isEnd, body), sent, onWire)]
    {
      if finished || now != generation {
        return Err(StaleHandle);
      }
      ghost var a := Attempt(ResponseFrame(nextSequence, isEnd, body), sent, onWire);
      OneMore(attempts, a);
      attempts := attempts + [a];
      if sent.Err? {
        return sent;
      }
      nextSequence := nextSequence + 1;
      finished := isEnd;
      r := sent;
    }

    method Finish(now: nat, sent: Result<()>, ghost onWire: bool) returns (r: Result<()>)
      requires Valid() && Possible(sent, onWire)
      modifies this
      ensures Valid()
      ensures r.Ok? ==> finished
      ensures old(finished) ==> r == Ok(()) && attempts == old(attempts)
      ensures !old(finished) && r.Ok? ==>
                attempts == old(attempts) + [Attempt(ResponseFrame(Sent(old(attempts)), true, []), sent, onWire)]
    {
      if finished {
        return Ok(());
      }
      r := Respond(now, [], true, sent, onWire);
    }
  }

  lemma OneMore(attempts: seq<Attempt>, a: Attempt)
    requires Produced(attempts) && !Ended(attempts)
    requires a.frame.sequence == Sent(attempts) && Possible(a.outcome, a.onWire)
    ensures Produced(attempts + [a])
    ensures Sent(attempts + [a]) == Sent(attempts) + if a.outcome.Ok? then 1 else 0
    ensures Ended(attempts + [a]) <==> a.outcome.Ok? && a.frame.end
  {
    var more := attempts + [a];
    assert more[..|attempts|] == attempts;
    assert forall k :: 0 <= k < |attempts| ==> more[..k] == attempts[..k];
    assert more[|attempts|] == a;
  }

  /** A send that times out while its command waits in the queue, and the same body sent again: number zero is on the wire twice. */
  method RespondAgain(generation: nat, body: Bytes, end: bool)
    returns (request: RpcRequest)
    ensures request.Valid()
    ensures Wire(request.attempts) == [ResponseFrame(0, end, body), ResponseFrame(0, end, body)]
    ensures !Consecutive(Wire(request.attempts))
  {
    request := new RpcRequest(generation);
    var first := request.Respond(generation, body, end, Err(Timeout), true);
    var second := request.Respond(generation, body, end, Ok(()), true);
    var zero := ResponseFrame(0, end, body);
    TwiceZero(Attempt(zero, Err(Timeout), true), Attempt(zero, Ok(()), true));
  }

  lemma TwiceZero(a: Attempt, b: Attempt)
    requires a.onWire && b.onWire && a.frame == b.frame
    ensures Wire([a, b]) == [a.frame, a.frame] && !Consecutive(Wire([a, b]))
    ensures a.outcome.Err? ==> Sent([a]) == 0
  {
    assert [a, b][..1] == [a] && [a][..0] == [];
    assert Wire([a]) == [a.frame];
    assert Wire([a, b])[0].sequence == Wire([a, b])[1].sequence;
  }
}
