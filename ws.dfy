/**
 * WebSocket frames as the relay session sees them, the close codes it
 * uses (section 7.4 of RFC 6455), and the session's merge loop: a step
 * function decides, for each event, the frame to emit and whether the
 * loop goes on; the loop applies it event by event until a step says stop.
 */
module Ws {
  import opened Http

  /** Body of a close frame: a status code and a reason text. */
  datatype CloseFrame = CloseFrame(code: nat, reason: string)

  /** A WebSocket message, inbound or outbound. */
  datatype Message =
    | Text(text: string)
    | Binary(data: seq<bv8>)
    | Ping(payload: seq<bv8>)
    | Pong(payload: seq<bv8>)
    | Close(frame: Option<CloseFrame>)

  /** What reading the next inbound frame produced. */
  datatype Received = Frame(msg: Message) | ReadError

  /** "Going away", section 7.4.1 of RFC 6455. */
  const GoingAway: nat := 1001

  /** Codes reserved for private use, section 7.4.2 of RFC 6455. */
  predicate IsPrivateUse(code: nat) {
    4000 <= code <= 4999
  }

  /** Codes that section 7.4.1 of RFC 6455 defines for endpoints to send. */
  predicate IsDefinedCode(code: nat) {
    code in {1000, 1001, 1002, 1003, 1007, 1008, 1009, 1010, 1011}
  }

  /** The reaction to one event: the frame yielded (if any) and whether the loop goes on. */
  datatype Step = Step(output: Option<Message>, proceed: bool)

  /** What a session has yielded so far and whether its loop has ended. */
  datatype Transcript = Transcript(frames: seq<Message>, ended: bool)

  function Emitted(o: Option<Message>): seq<Message> {
    match o
    case None => []
    case Some(m) => [m]
  }

  /**
   * The merge loop as a function: the frames yielded for `events`, taken
   * in arrival order, and whether some event stopped the loop. Events
   * after the stopping one are never looked at.
   */
  function Relay<E>(react: E -> Step, events: seq<E>): (t: Transcript)
    ensures |t.frames| <= |events|
  {
    if events == [] then Transcript([], false)
    else
      var s := react(events[0]);
      if !s.proceed then Transcript(Emitted(s.output), true)
      else
        var rest := Relay(react, events[1..]);
        Transcript(Emitted(s.output) + rest.frames, rest.ended)
  }

  /** Index of the first event whose step stops the loop, or |events| if none does. */
  function FirstStop<E>(react: E -> Step, events: seq<E>): (k: nat)
    ensures k <= |events|
    ensures forall j :: 0 <= j < k ==> react(events[j]).proceed
    ensures k < |events| ==> !react(events[k]).proceed
  {
    if events == [] || !react(events[0]).proceed then 0
    else 1 + FirstStop(react, events[1..])
  }

  /** The frames yielded by the steps of `events`, all of them. */
  function AllOutputs<E>(react: E -> Step, events: seq<E>): seq<Message> {
    if events == [] then []
    else Emitted(react(events[0]).output) + AllOutputs(react, events[1..])
  }

  /**
   * The loop ends exactly when some event stops it, and then it has
   * yielded the outputs of every event up to and including that one.
   */
  lemma {:induction false} RelayStopsAtFirstStop<E>(react: E -> Step, events: seq<E>)
    ensures var k := FirstStop(react, events);
      && Relay(react, events).ended == (k < |events|)
      && Relay(react, events).frames == AllOutputs(react, events[..if k < |events| then k + 1 else k])
  {
    if events != [] {
      var k := FirstStop(react, events);
      if react(events[0]).proceed {
        RelayStopsAtFirstStop(react, events[1..]);
        var k' := FirstStop(react, events[1..]);
        assert k == k' + 1;
        var n := if k < |events| then k + 1 else k;
        assert events[..n][1..] == events[1..][..n - 1];
      } else {
        assert events[..1][1..] == [];
      }
    }
  }

  /** The first stopping event of `before + [stop] + after`, when `before` has none, is `stop`. */
  lemma {:induction false} FirstStopAt<E>(react: E -> Step, before: seq<E>, stop: E, after: seq<E>)
    requires forall i :: 0 <= i < |before| ==> react(before[i]).proceed
    requires !react(stop).proceed
    ensures FirstStop(react, before + [stop] + after) == |before|
  {
    if before == [] {
      assert (before + [stop] + after)[0] == stop;
    } else {
      assert (before + [stop] + after)[0] == before[0];
      assert (before + [stop] + after)[1..] == before[1..] + [stop] + after;
      FirstStopAt(react, before[1..], stop, after);
    }
  }

  lemma {:induction false} AllOutputsAppend<E>(react: E -> Step, a: seq<E>, b: seq<E>)
    ensures AllOutputs(react, a + b) == AllOutputs(react, a) + AllOutputs(react, b)
  {
    if a == [] {
      assert a + b == b;
    } else {
      assert (a + b)[0] == a[0];
      assert (a + b)[1..] == a[1..] + b;
      AllOutputsAppend(react, a[1..], b);
    }
  }

  /** Whatever follows the stopping event has no effect on the session. */
  lemma {:induction false} RelayIgnoresTail<E>(react: E -> Step, events: seq<E>, tail: seq<E>)
    requires Relay(react, events).ended
    ensures Relay(react, events + tail) == Relay(react, events)
  {
    assert events != [];
    assert (events + tail)[0] == events[0];
    if react(events[0]).proceed {
      assert (events + tail)[1..] == events[1..] + tail;
      RelayIgnoresTail(react, events[1..], tail);
    }
  }

  /**
   * The merge loop as the source runs it: take events one at a time,
   * yield the step's frame, stop at the first step that says so.
   */
  method RunSession<E>(react: E -> Step, events: seq<E>) returns (frames: seq<Message>, ended: bool)
    ensures Relay(react, events) == Transcript(frames, ended)
  {
    frames, ended := [], false;
    var i := 0;
    while i < |events| && !ended
      invariant 0 <= i <= |events|
      invariant !ended ==> Relay(react, events) == Transcript(frames + Relay(react, events[i..]).frames, Relay(react, events[i..]).ended)
      invariant ended ==> Relay(react, events) == Transcript(frames, true)
    {
      var s := react(events[i]);
      assert events[i..][1..] == events[i + 1..];
      frames := frames + Emitted(s.output);
      ended := !s.proceed;
      i := i + 1;
    }
  }
}
