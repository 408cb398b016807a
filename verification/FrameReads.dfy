/**
 Reading frames from a TCP stream in a loop that may drop the read (src/async_connection.rs, `run_io` and
 `read_tcp_frame`). Each turn of the loop starts a new read and drops it when a command or a cancellation
 is served first; the bytes the dropped read had taken from the stream are gone with it.
 */
module FrameReads {
  import opened ByteStrings
  import opened Wire3

  predicate InRange(length: nat) {
    HEADER_LEN <= length <= MAX_MESSAGE_SIZE
  }

  type Frame = f: Bytes | InRange(|f|) witness seq(HEADER_LEN, _ => 0)

  /** `write_tcp_frame`, for one frame after the other */
  function Printed(frames: seq<Frame>): Bytes {
    if frames == [] then [] else BE32(|frames[0]|) + frames[0] + Printed(frames[1..])
  }

  /** `got` is what the read in progress has taken; `lost` counts the bytes that dropped reads had taken. */
  datatype State = State(handled: seq<Frame>, got: Bytes, rest: Bytes, lost: nat, ended: bool)

  /** `Read` takes some of the bytes that have come; `Other` is another branch of the loop served first. */
  datatype Event = Read(count: nat) | Other

  function Length(got: Bytes): nat
    requires |got| >= 4
  {
    FromBE32(got[..4])
  }

  /** The bytes the read in progress waits for next. */
  function Wanted(got: Bytes): int {
    if |got| < 4 then 4 - |got| else 4 + Length(got) - |got|
  }

  predicate Enabled(s: State, e: Event) {
    !s.ended && (e.Read? ==> 1 <= e.count <= |s.rest| && e.count <= Wanted(s.got))
  }

  /** A length out of range ends the session; a whole frame is handled. */
  function Take(s: State, got: Bytes, rest: Bytes): State {
    if |got| < 4 then s.(got := got, rest := rest)
    else if !InRange(Length(got)) then s.(got := got, rest := rest, ended := true)
    else if |got| == 4 + Length(got) then s.(handled := s.handled + [got[4..]], got := [], rest := rest)
    else s.(got := got, rest := rest)
  }

  function Step(s: State, e: Event): State
    requires Enabled(s, e)
  {
    match e
    case Read(count) => Take(s, s.got + s.rest[..count], s.rest[count..])
    case Other => s.(got := [], lost := s.lost + |s.got|)
  }

  /** The state after these events; one that cannot happen where it stands is passed over. */
  function Run(frames: seq<Frame>, es: seq<Event>): State {
    if es == [] then State([], [], Printed(frames), 0, false)
    else
      var before, e := Run(frames, es[..|es| - 1]), es[|es| - 1];
      if Enabled(before, e) then Step(before, e) else before
  }

  /** Another branch is served while a frame is partly read. */
  predicate Interrupts(s: State, e: Event) {
    Enabled(s, e) && e.Other? && s.got != []
  }

  /** No event of the run interrupts a read. */
  ghost predicate Calm(frames: seq<Frame>, es: seq<Event>) {
    forall k :: 0 <= k < |es| ==> !Interrupts(Run(frames, es[..k]), es[k])
  }

  lemma CalmMore(frames: seq<Frame>, es: seq<Event>)
    requires es != []
    ensures Calm(frames, es) <==>
              Calm(frames, es[..|es| - 1]) && !Interrupts(Run(frames, es[..|es| - 1]), es[|es| - 1])
  {
    hide Run, Interrupts;
    var front := es[..|es| - 1];
    assert forall k :: 0 <= k < |front| ==> front[..k] == es[..k] && front[k] == es[k];
  }

  /** What has been handled and what is still to be read make up the frames sent. */
  ghost predicate Intact(s: State, frames: seq<Frame>) {
    !s.ended && exists tail: seq<Frame> :: frames == s.handled + tail && Printed(tail) == s.got + s.rest
  }

  lemma {:induction false} PrintedApart(a: seq<Frame>, b: seq<Frame>)
    ensures Printed(a + b) == Printed(a) + Printed(b)
  {
    if a == [] {
      assert a + b == b;
    } else {
      assert (a + b)[1..] == a[1..] + b;
      PrintedApart(a[1..], b);
    }
  }

  lemma PrintedOne(f: Frame)
    ensures Printed([f]) == BE32(|f|) + f
  {
  }

  /** No byte is handled twice, and each is accounted for. */
  predicate Conserved(s: State, frames: seq<Frame>) {
    |Printed(s.handled)| + s.lost + |s.got| + |s.rest| == |Printed(frames)|
  }

  lemma StepConserves(s: State, e: Event, frames: seq<Frame>)
    requires Enabled(s, e) && Conserved(s, frames)
    ensures Conserved(Step(s, e), frames)
  {
    if e.Read? {
      var got := s.got + s.rest[..e.count];
      if |got| >= 4 && InRange(Length(got)) && |got| == 4 + Length(got) {
        PrintedApart(s.handled, [got[4..]]);
        PrintedOne(got[4..]);
      }
    }
  }

  lemma StepLoses(s: State, e: Event)
    requires Enabled(s, e)
    ensures Step(s, e).lost > s.lost <==> Interrupts(s, e)
    ensures Step(s, e).lost >= s.lost
  {
  }

  lemma StepIntact(s: State, e: Event, frames: seq<Frame>)
    requires Enabled(s, e) && Intact(s, frames) && !Interrupts(s, e)
    ensures Intact(Step(s, e), frames)
  {
    hide Printed, Take, InRange;
    var tail: seq<Frame> :| frames == s.handled + tail && Printed(tail) == s.got + s.rest;
    match e
    case Other => assert s.got == [] && [] + s.rest == s.rest;
    case Read(count) =>
      var got, rest := s.got + s.rest[..count], s.rest[count..];
      assert got + rest == s.got + s.rest;
      assert s.rest != [];
      if tail == [] {
        NothingPrinted();
      }
      TakeIntact(s, got, rest, tail);
      var left: seq<Frame> :| s.handled + tail == Step(s, e).handled + left && Printed(left) == Step(s, e).got + Step(s, e).rest;
  }

  lemma NothingPrinted()
    ensures Printed([]) == []
  {
  }

  lemma TakeIntact(s: State, got: Bytes, rest: Bytes, tail: seq<Frame>)
    requires !s.ended && tail != [] && got + rest == Printed(tail)
    ensures var s' := Take(s, got, rest);
            !s'.ended && exists left: seq<Frame> :: s.handled + tail == s'.handled + left && Printed(left) == s'.got + s'.rest
  {
    hide Length, BE32, Printed;
    var f, more, s' := tail[0], Printed(tail[1..]), Take(s, got, rest);
    FirstPrinted(tail);
    if |got| >= 4 {
      Starts(got, rest, f, more);
    }
    if |got| >= 4 && |got| == 4 + |f| {
      OneFewer(s.handled, f, tail);
      assert s'.got + s'.rest == rest;
    } else {
      assert s'.handled == s.handled && s'.got + s'.rest == Printed(tail);
    }
  }

  lemma FirstPrinted(tail: seq<Frame>)
    requires tail != []
    ensures Printed(tail) == BE32(|tail[0]|) + (tail[0] + Printed(tail[1..]))
  {
  }

  lemma OneFewer(handled: seq<Frame>, f: Frame, tail: seq<Frame>)
    requires tail != [] && tail[0] == f
    ensures handled + tail == handled + [f] + tail[1..]
  {
  }

  /** The bytes read so far are the beginning of the frame's. */
  lemma Starts(got: Bytes, rest: Bytes, f: Frame, more: Bytes)
    requires |got| >= 4 && got + rest == BE32(|f|) + (f + more)
    ensures Length(got) == |f|
    ensures |got| == 4 + |f| ==> got[4..] == f && rest == more
  {
    var all := got + rest;
    assert all[..4] == got[..4] == BE32(|f|);
    BE32Inverse(|f|);
    if |got| == 4 + |f| {
      assert all[4..4 + |f|] == got[4..] == f;
      assert all[4 + |f|..] == rest == more;
    }
  }

  lemma IntactLosesNothing(s: State, frames: seq<Frame>)
    requires Conserved(s, frames)
    ensures s.lost > 0 ==> !Intact(s, frames) && s.handled != frames
  {
    if s.lost > 0 && Intact(s, frames) {
      var tail: seq<Frame> :| frames == s.handled + tail && Printed(tail) == s.got + s.rest;
      PrintedApart(s.handled, tail);
    }
  }

  lemma {:induction false} RunKeeps(frames: seq<Frame>, es: seq<Event>)
    ensures var s := Run(frames, es);
            Conserved(s, frames) && (s.lost == 0 <==> Calm(frames, es)) && (s.lost == 0 ==> Intact(s, frames))
  {
    hide Step, Enabled, Interrupts, Intact, Conserved, Calm, Printed;
    if es == [] {
      NothingRead(frames);
    } else {
      var before, e := Run(frames, es[..|es| - 1]), es[|es| - 1];
      RunKeeps(frames, es[..|es| - 1]);
      CalmMore(frames, es);
      InterruptsWhenEnabled(before, e);
      if Enabled(before, e) {
        StepConserves(before, e, frames);
        StepLoses(before, e);
        if !Interrupts(before, e) && before.lost == 0 {
          StepIntact(before, e, frames);
        }
      }
    }
  }

  lemma InterruptsWhenEnabled(s: State, e: Event)
    ensures Interrupts(s, e) ==> Enabled(s, e)
  {
  }

  lemma NothingRead(frames: seq<Frame>)
    ensures var s := Run(frames, []); Conserved(s, frames) && Intact(s, frames) && s.lost == 0 && Calm(frames, [])
  {
    var s := Run(frames, []);
    assert frames == s.handled + frames && Printed(frames) == s.got + s.rest;
  }

  /**
   After every run, what was handled and what is still to be read make up the frames sent if and only if
   no other branch was served while a frame was partly read. Otherwise the frames are never handled as sent.
   */
  lemma ReadsWhatWasSent(frames: seq<Frame>, es: seq<Event>)
    ensures var s := Run(frames, es);
            && (Intact(s, frames) <==> Calm(frames, es))
            && (s.handled == frames ==> Calm(frames, es))
            && (Calm(frames, es) ==> s.handled <= frames)
            && (Calm(frames, es) && s.rest == [] && s.got == [] ==> s.handled == frames)
  {
    hide Run, Calm, Printed;
    var s := Run(frames, es);
    RunKeeps(frames, es);
    IntactLosesNothing(s, frames);
    if s.lost == 0 {
      var tail: seq<Frame> :| frames == s.handled + tail && Printed(tail) == s.got + s.rest;
      if s.rest == [] && s.got == [] && tail != [] {
        SomethingPrinted(tail);
      }
    }
  }

  lemma SomethingPrinted(frames: seq<Frame>)
    requires frames != []
    ensures Printed(frames) != []
  {
  }

  lemma More(frames: seq<Frame>, es: seq<Event>, s: State, e: Event) returns (more: seq<Event>, s': State)
    requires s == Run(frames, es) && Enabled(s, e)
    ensures more == es + [e] && s' == Run(frames, more) && s' == Step(s, e)
  {
    more, s' := es + [e], Step(s, e);
    assert more[..|es|] == es;
  }

  lemma FirstFour(f: Bytes)
    requires InRange(|f|)
    ensures |BE32(|f|) + f| == 4 + |f| && (BE32(|f|) + f)[..4] == BE32(|f|) && (BE32(|f|) + f)[4..] == f
    ensures Length(BE32(|f|)) == |f| && Length(BE32(|f|) + f) == |f|
  {
    BE32Inverse(|f|);
    assert BE32(|f|)[..4] == BE32(|f|);
  }

  lemma ReadsLength(s: State, f: Frame)
    requires !s.ended && s.got == [] && s.rest == BE32(|f|) + f
    ensures Enabled(s, Read(4)) && Step(s, Read(4)) == s.(got := BE32(|f|), rest := f)
  {
    FirstFour(f);
    assert [] + s.rest[..4] == BE32(|f|);
  }

  lemma ReadsBody(s: State, f: Frame)
    requires !s.ended && s.got == BE32(|f|) && s.rest == f
    ensures Enabled(s, Read(|f|)) && Step(s, Read(|f|)) == s.(handled := s.handled + [f], got := [], rest := [])
  {
    FirstFour(f);
    assert f[..|f|] == f && f[|f|..] == [];
  }

  /** A frame that holds the print of another: interrupted after four bytes, the read takes up the inner one, which was never sent. */
  lemma ReadsWhatWasNotSent(inner: Frame) returns (outer: Frame, es: seq<Event>)
    requires 4 + |inner| <= MAX_MESSAGE_SIZE
    ensures Run([outer], es) == State([inner], [], [], 4, false) && outer != inner
  {
    hide Run, BE32, Length, Printed, Take;
    FirstFour(inner);
    outer := BE32(|inner|) + inner;
    PrintedOne(outer);
    Beginning([outer]);
    var s := State([], [], BE32(|outer|) + outer, 0, false);
    ReadsLength(s, outer);
    es, s := More([outer], [], s, Read(4));
    es, s := More([outer], es, s, Other);
    ReadsLength(s, inner);
    es, s := More([outer], es, s, Read(4));
    ReadsBody(s, inner);
    es, s := More([outer], es, s, Read(|inner|));
  }

  lemma Beginning(frames: seq<Frame>)
    ensures Run(frames, []) == State([], [], Printed(frames), 0, false)
  {
  }
}
