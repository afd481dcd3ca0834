/**
 * The earlier backend, backend/src/main.rs: the same dispatcher, subscribe
 * and shutdown hook as the server, over a bus with only two messages,
 * `Shutdown` and `Request`. Its shutdown hook sends `Shutdown`, which
 * ends each session with a bare close frame.
 */
module Legacy {
  import opened Http
  import opened Ws
  import Auth
  import opened Registry
  import Server

  datatype WsMessage = Shutdown | Request(data: RequestData)

  datatype Event = In(received: Received) | Out(msg: WsMessage)

  /**
   * One turn of the merge loop: inbound Close or a read error ends it with
   * no output, other inbound frames are ignored; `Shutdown` yields a bare
   * close frame and ends it; `Request` yields its JSON text or "ERROR".
   */
  function React(e: Event): (s: Step)
    ensures s.output.Some? <==> e.Out?
    ensures !s.proceed <==> e == Out(Shutdown) || (e.In? && (e.received.ReadError? || e.received.msg.Close?))
    ensures e == Out(Shutdown) ==> s.output == Some(Close(None))
    ensures e.Out? && e.msg.Request? ==> s.output == Some(Server.RequestFrame(e.msg.data))
  {
    match e
    case In(Frame(Close(_))) => Step(None, false)
    case In(Frame(_)) => Step(None, true)
    case In(ReadError) => Step(None, false)
    case Out(Shutdown) => Step(Some(Close(None)), false)
    case Out(Request(data)) => Step(Some(Server.RequestFrame(data)), true)
  }

  /** The server's bus message that each of these messages became. */
  function Upgrade(e: Event): Server.Event {
    match e
    case In(r) => Server.In(r)
    case Out(Shutdown) => Server.Out(Server.Shutdown)
    case Out(Request(d)) => Server.Out(Server.Request(d))
  }

  /** On the messages both versions have, the two sessions react alike, event by event and over a whole run. */
  lemma {:induction false} SessionsAgree(events: seq<Event>)
    ensures Relay(React, events) == Relay(Server.React, seq(|events|, i requires 0 <= i < |events| => Upgrade(events[i])))
  {
    var up := seq(|events|, i requires 0 <= i < |events| => Upgrade(events[i]));
    if events != [] {
      assert React(events[0]) == Server.React(up[0]);
      var rest := seq(|events| - 1, i requires 0 <= i < |events| - 1 => Upgrade(events[1..][i]));
      assert up[1..] == rest;
      SessionsAgree(events[1..]);
    }
  }

  /** `handle` of this version: authorize with auth.rs, then dispatch; 202 once the check passes. */
  method Handle(reg: Registry<WsMessage>, table: Auth.Table, id: string, token: string,
                input: RequestData, failing: set<Sender<WsMessage>>) returns (status: Status)
    requires reg.Valid()
    modifies reg, reg.Members(id)
    ensures reg.Valid()
    ensures Auth.Check(table, id, token).Err? ==>
              && status == Auth.Check(table, id, token).status
              && reg.entries == old(reg.entries)
              && forall s :: s in old(reg.Senders(id)) ==> s.closed == old(s.closed) && s.outbox == old(s.outbox)
    ensures Auth.Check(table, id, token).Ok? ==>
              && status == Accepted
              && (forall s :: s in old(reg.Senders(id)) ==> Delivered(s, Request(input), failing, true))
              && (old(AnyOpen(reg.Senders(id))) ==> reg.entries == old(reg.entries)[id := OpenSenders(old(reg.Senders(id)))])
              && (!old(AnyOpen(reg.Senders(id))) ==> reg.entries == old(reg.entries) - {id})
  {
    var checked := Auth.Check(table, id, token);
    if checked.Err? {
      return checked.status;
    }
    var _ := reg.Dispatch(id, Request(input), failing);
    status := Accepted;
  }

  /** The subscribe half of `/connect/<id>` in this version. */
  method Connect(reg: Registry<WsMessage>, table: Auth.Table, id: string, token: string)
    returns (frames: seq<Message>, sender: Option<Sender<WsMessage>>)
    requires reg.Valid()
    modifies reg
    ensures reg.Valid()
    ensures Auth.CheckBool(table, id, token) ==>
              && frames == [] && sender.Some?
              && fresh(sender.value) && !sender.value.closed && sender.value.outbox == []
              && reg.entries == old(reg.entries)[id := old(reg.Senders(id)) + [sender.value]]
    ensures !Auth.CheckBool(table, id, token) ==>
              frames == [Text("Unauthorized")] && sender == None && reg.entries == old(reg.entries)
  {
    if Auth.CheckBool(table, id, token) {
      var s := reg.Subscribe(id);
      frames, sender := [], Some(s);
    } else {
      frames, sender := [Text("Unauthorized")], None;
    }
  }

  /** The on-shutdown hook of this version: `Shutdown` to every open sender, nothing removed. */
  method ShutdownHook(reg: Registry<WsMessage>, failing: set<Sender<WsMessage>>)
    requires reg.Valid()
    modifies reg.AllSenders()
    ensures reg.entries == old(reg.entries)
    ensures forall id, s :: id in reg.entries && s in reg.entries[id] ==> Delivered(s, Shutdown, failing, false)
  {
    reg.Broadcast(Shutdown, failing);
  }

  /** A session that receives the hook's `Shutdown` ends with one bare close frame, whatever follows. */
  lemma ShutdownEndsSession(rest: seq<Event>)
    ensures Relay(React, [Out(Shutdown)] + rest) == Transcript([Close(None)], true)
  {
  }
}
