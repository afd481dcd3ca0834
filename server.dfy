/**
 * The relay backend of backend/server/src/main.rs: the dispatcher behind
 * the `/send/<id>` routes, the `/connect/<id>` session (subscribe, then the
 * merge loop's reaction to each event) and the shutdown broadcast.
 */
module Server {
  import opened Http
  import opened Ws
  import Auth
  import opened Registry

  /** The internal bus message a session's channel carries. */
  datatype WsMessage = Shutdown | ServerShutdown | TokenExpired | Request(data: RequestData)

  /** The close code sent on token expiry, from the private-use range. */
  const TokenExpiredCode: nat := 4001
  /** The reason text of the server's close frames. */
  const ServerReason: string := "SERVER"

  /** What the merge loop takes next: an inbound read, or a message from the session's channel. */
  datatype Event = In(received: Received) | Out(msg: WsMessage)

  /** The text frame a captured request becomes: its JSON, or "ERROR" when serialisation fails. */
  function RequestFrame(data: RequestData): Message {
    Text(match data.json case Some(j) => j case None => "ERROR")
  }

  /**
   * One turn of the merge loop. Inbound frames never produce output; an
   * inbound Close or a read error ends the loop, anything else is only
   * logged. Every bus message produces exactly one frame; only `Shutdown`
   * ends the loop, `ServerShutdown` and `TokenExpired` emit their close
   * frame and the loop goes on.
   */
  function React(e: Event): (s: Step)
    ensures s.output.Some? <==> e.Out?
    ensures !s.proceed <==> e == Out(Shutdown) || (e.In? && (e.received.ReadError? || e.received.msg.Close?))
    ensures e == Out(Shutdown) ==> s.output == Some(Close(None))
    ensures e == Out(ServerShutdown) ==> s.output == Some(Close(Some(CloseFrame(GoingAway, ServerReason))))
    ensures e == Out(TokenExpired) ==> s.output == Some(Close(Some(CloseFrame(TokenExpiredCode, ServerReason))))
    ensures e.Out? && e.msg.Request? ==> s.output == Some(RequestFrame(e.msg.data))
    ensures s.output.Some? && s.output.value.Close? && s.output.value.frame.Some? ==>
              var f := s.output.value.frame.value;
              f.reason == ServerReason && (IsDefinedCode(f.code) != IsPrivateUse(f.code))
  {
    match e
    case In(Frame(Close(_))) => Step(None, false)
    case In(Frame(_)) => Step(None, true)
    case In(ReadError) => Step(None, false)
    case Out(Shutdown) => Step(Some(Close(None)), false)
    case Out(ServerShutdown) => Step(Some(Close(Some(CloseFrame(GoingAway, ServerReason)))), true)
    case Out(TokenExpired) => Step(Some(Close(Some(CloseFrame(TokenExpiredCode, ServerReason)))), true)
    case Out(Request(data)) => Step(Some(RequestFrame(data)), true)
  }

  /**
   * `ServerShutdown` and `TokenExpired` do not end the session: after
   * their close frame the loop does not break and keeps yielding frames
   * for later events.
   */
  lemma CloseNoticeKeepsRelaying(m: WsMessage, rest: seq<Event>)
    requires m == ServerShutdown || m == TokenExpired
    ensures Relay(React, [Out(m)] + rest) ==
              Transcript(Emitted(React(Out(m)).output) + Relay(React, rest).frames, Relay(React, rest).ended)
  {
    assert ([Out(m)] + rest)[1..] == rest;
  }

  /** A session sees `Shutdown` as its last event: one bare close frame and nothing after it. */
  lemma ShutdownIsFinal(before: seq<Event>, after: seq<Event>)
    requires forall i :: 0 <= i < |before| ==> React(before[i]).proceed
    ensures Relay(React, before + [Out(Shutdown)] + after) ==
              Transcript(AllOutputs(React, before) + [Close(None)], true)
  {
    var events := before + [Out(Shutdown)] + after;
    assert FirstStop(React, events) == |before| by {
      FirstStopAt(React, before, Out(Shutdown), after);
    }
    RelayStopsAtFirstStop(React, events);
    assert events[..|before| + 1] == before + [Out(Shutdown)];
    AllOutputsAppend(React, before, [Out(Shutdown)]);
  }

  /**
   * `handle`: authorize, then dispatch `Request(input)` to `id`'s senders.
   * A failed check returns its status (401 or 404) and changes nothing;
   * once the check passes the answer is always 202 Accepted, whatever the
   * delivery did.
   */
  method Handle(reg: Registry<WsMessage>, table: Auth.Table, id: string, token: string,
                input: RequestData, failing: set<Sender<WsMessage>>) returns (status: Status)
    requires reg.Valid()
    modifies reg, reg.Members(id)
    ensures reg.Valid()
    ensures Auth.Check(table, id, token).Err? ==>
              && status == Auth.Check(table, id, token).status
              && reg.entries == old(reg.entries)
              && forall s :: s in old(reg.Senders(id)) ==> s.closed == old(s.closed) && s.outbox == old(s.outbox)
    ensures Auth.Check(table, id, token).Ok? ==>
              && status == Accepted
              && (forall s :: s in old(reg.Senders(id)) ==> Delivered(s, Request(input), failing, true))
              && (old(AnyOpen(reg.Senders(id))) ==> reg.entries == old(reg.entries)[id := OpenSenders(old(reg.Senders(id)))])
              && (!old(AnyOpen(reg.Senders(id))) ==> reg.entries == old(reg.entries) - {id})
  {
    var checked := Auth.Check(table, id, token);
    if checked.Err? {
      return checked.status;
    }
    var _ := reg.Dispatch(id, Request(input), failing);
    status := Accepted;
  }

  /**
   * The subscribe half of `/connect/<id>`. On a passing check a fresh
   * sender is appended to the id's list (created if absent) and nothing is
   * yielded yet; on a failing one the session yields the single text frame
   * "Unauthorized" and subscribes nothing.
   */
  method Connect(reg: Registry<WsMessage>, table: Auth.Table, id: string, token: string)
    returns (frames: seq<Message>, sender: Option<Sender<WsMessage>>)
    requires reg.Valid()
    modifies reg
    ensures reg.Valid()
    ensures Auth.CheckBool(table, id, token) ==>
              && frames == [] && sender.Some?
              && fresh(sender.value) && !sender.value.closed && sender.value.outbox == []
              && reg.entries == old(reg.entries)[id := old(reg.Senders(id)) + [sender.value]]
    ensures !Auth.CheckBool(table, id, token) ==>
              frames == [Text("Unauthorized")] && sender == None && reg.entries == old(reg.entries)
  {
    if Auth.CheckBool(table, id, token) {
      var s := reg.Subscribe(id);
      frames, sender := [], Some(s);
    } else {
      frames, sender := [Text("Unauthorized")], None;
    }
  }

  /**
   * The on-shutdown hook: every open sender of every entry gets
   * `ServerShutdown` once; closed senders get nothing; failures are only
   * logged, and no entry is removed.
   */
  method ShutdownHook(reg: Registry<WsMessage>, failing: set<Sender<WsMessage>>)
    requires reg.Valid()
    modifies reg.AllSenders()
    ensures reg.entries == old(reg.entries)
    ensures forall id, s :: id in reg.entries && s in reg.entries[id] ==> Delivered(s, ServerShutdown, failing, false)
  {
    reg.Broadcast(ServerShutdown, failing);
  }

  /**
   * The `/send` routes read the token from the `X-Auth` header only, the
   * `/connect` route also from the `token` query: a token given only in the
   * query opens a session but cannot send to a protected id.
   */
  lemma QueryTokenOnlyConnects(table: Auth.Table, id: string, t: string)
    requires id in table && table[id].token == t && t != ""
    ensures var req := Auth.TokenSources(None, Some(t));
      && Auth.PresentedToken(true, true, req) == Success(t)
      && Auth.CheckBool(table, id, Auth.PresentedToken(true, true, req).value)
      && Auth.PresentedToken(false, true, req) == Success("")
      && Auth.Check(table, id, Auth.PresentedToken(false, true, req).value) == Err(Unauthorized)
  {
  }
}
