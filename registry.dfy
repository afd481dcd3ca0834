/**
 * The subscriber registry shared by both backends (backend/server/src/main.rs
 * and its earlier near-copy backend/src/main.rs): a map from endpoint id to
 * the ordered list of senders, one per connected session, each the sending
 * half of that session's channel.
 *
 * Whether one send succeeds is decided by an oracle, the set `failing` of
 * senders whose send fails (a session gone away, a channel torn down).
 */
module Registry {

  /** The sending half of one session's channel. */
  class Sender<M> {
    /** `Sender::is_closed`. */
    var closed: bool
    /** The messages delivered into the channel so far, in order. */
    var outbox: seq<M>

    constructor ()
      ensures !closed && outbox == []
    {
      closed := false;
      outbox := [];
    }

    /** `send`: fails on a closed channel or when the oracle says so; otherwise enqueues. */
    method Send(msg: M, failing: set<Sender<M>>) returns (ok: bool)
      modifies this
      ensures ok <==> !old(closed) && this !in failing
      ensures closed == old(closed)
      ensures outbox == if ok then old(outbox) + [msg] else old(outbox)
    {
      ok := !closed && this !in failing;
      if ok {
        outbox := outbox + [msg];
      }
    }

    /** `close_channel`, also what dropping the session's receiver amounts to. */
    method CloseChannel()
      modifies this
      ensures closed && outbox == old(outbox)
    {
      closed := true;
    }
  }

  predicate NoDuplicates<M>(list: seq<Sender<M>>) {
    forall i, j :: 0 <= i < j < |list| ==> list[i] != list[j]
  }

  /** Some sender of `list` is still open. */
  predicate AnyOpen<M>(list: seq<Sender<M>>)
    reads list
  {
    exists i :: 0 <= i < |list| && !list[i].closed
  }

  /** `retain(|s| !s.is_closed())`: the senders of `list` still open, in list order. */
  function OpenSenders<M>(list: seq<Sender<M>>): (r: seq<Sender<M>>)
    reads list
    ensures |r| <= |list|
    ensures forall i :: 0 <= i < |r| ==> r[i] in list && !r[i].closed
    ensures forall i :: 0 <= i < |list| && !list[i].closed ==> list[i] in r
    ensures NoDuplicates(list) ==> NoDuplicates(r)
  {
    if list == [] then []
    else
      var last := list[|list| - 1];
      var front := OpenSenders(list[..|list| - 1]);
      assert NoDuplicates(list) ==> last !in list[..|list| - 1];
      front + (if last.closed then [] else [last])
  }

  /** Compaction keeps relative order: it distributes over concatenation. */
  lemma {:induction false} OpenSendersAppend<M>(a: seq<Sender<M>>, b: seq<Sender<M>>)
    ensures OpenSenders(a + b) == OpenSenders(a) + OpenSenders(b)
  {
    if b == [] {
      assert a + b == a;
    } else {
      assert (a + b)[..|a + b| - 1] == a + b[..|b| - 1];
      assert (a + b)[|a + b| - 1] == b[|b| - 1];
      OpenSendersAppend(a, b[..|b| - 1]);
    }
  }

  /** A list with no closed sender is kept whole. */
  lemma {:induction false} OpenSendersAllOpen<M>(list: seq<Sender<M>>)
    requires forall i :: 0 <= i < |list| ==> !list[i].closed
    ensures OpenSenders(list) == list
  {
    if list != [] {
      OpenSendersAllOpen(list[..|list| - 1]);
    }
  }

  /**
   * What one notification pass did to sender `s`: an already closed sender
   * is skipped; an open one either receives `msg` at the end of its outbox,
   * or its send fails and it is closed (when `closeOnFailure`) or left as it was.
   */
  twostate predicate Delivered<M>(s: Sender<M>, msg: M, failing: set<Sender<M>>, closeOnFailure: bool)
    reads s
  {
    if old(s.closed) then s.closed && s.outbox == old(s.outbox)
    else if s in failing then s.closed == closeOnFailure && s.outbox == old(s.outbox)
    else !s.closed && s.outbox == old(s.outbox) + [msg]
  }

  /**
   * The send loop: walk `list` in order, send `msg` to every sender not
   * yet closed, close those whose send fails when `closeOnFailure`.
   * Reports whether any sender was open (the `has_sent` flag, set before
   * the send is attempted).
   */
  method NotifyAll<M>(list: seq<Sender<M>>, msg: M, failing: set<Sender<M>>, closeOnFailure: bool)
    returns (anyOpen: bool)
    requires NoDuplicates(list)
    modifies list
    ensures anyOpen <==> old(AnyOpen(list))
    ensures forall i :: 0 <= i < |list| ==> Delivered(list[i], msg, failing, closeOnFailure)
  {
    anyOpen := false;
    var i := 0;
    while i < |list|
      invariant 0 <= i <= |list|
      invariant anyOpen <==> exists j :: 0 <= j < i && !old(list[j].closed)
      invariant forall j :: 0 <= j < i ==> Delivered(list[j], msg, failing, closeOnFailure)
      invariant forall j :: i <= j < |list| ==> list[j].closed == old(list[j].closed) && list[j].outbox == old(list[j].outbox)
    {
      var s := list[i];
      if !s.closed {
        anyOpen := true;
        var ok := s.Send(msg, failing);
        if !ok && closeOnFailure {
          s.CloseChannel();
        }
      }
      i := i + 1;
    }
  }

  /** The registry (`ThingMap`): endpoint id to its ordered list of senders. */
  class Registry<M> {
    var entries: map<string, seq<Sender<M>>>

    /** Every session's sender is registered once, under one id. */
    ghost predicate Valid()
      reads this
    {
      && (forall id :: id in entries ==> NoDuplicates(entries[id]))
      && (forall a, b, s :: a in entries && b in entries && s in entries[a] && s in entries[b] ==> a == b)
    }

    /** The senders registered under `id`, none if it has no entry. */
    function Senders(id: string): seq<Sender<M>>
      reads this
    {
      if id in entries then entries[id] else []
    }

    ghost function Members(id: string): set<Sender<M>>
      reads this
    {
      set s | s in Senders(id)
    }

    ghost function AllSenders(): set<Sender<M>>
      reads this
    {
      set id, s | id in entries && s in entries[id] :: s
    }

    constructor ()
      ensures Valid() && entries == map[]
    {
      entries := map[];
    }

    /**
     * Subscribe a new session under `id`: a fresh open sender goes to the
     * end of the id's list, which is created empty if absent.
     */
    method Subscribe(id: string) returns (s: Sender<M>)
      requires Valid()
      modifies this
      ensures Valid()
      ensures fresh(s) && !s.closed && s.outbox == []
      ensures entries == old(entries)[id := old(Senders(id)) + [s]]
    {
      s := new Sender();
      if id !in entries {
        entries := entries[id := []];
      }
      entries := entries[id := entries[id] + [s]];
    }

    /**
     * The dispatch pass of `handle`: notify `id`'s senders in order, closing
     * those whose send fails, then compact the list to the senders still
     * open; the entry is removed when no sender was open to begin with.
     * Senders of other ids and other entries are untouched (the frame).
     */
    method Dispatch(id: string, msg: M, failing: set<Sender<M>>) returns (sent: bool)
      requires Valid()
      modifies this, Members(id)
      ensures Valid()
      ensures sent <==> old(AnyOpen(Senders(id)))
      ensures forall s :: s in old(Senders(id)) ==> Delivered(s, msg, failing, true)
      ensures sent ==> entries == old(entries)[id := OpenSenders(old(Senders(id)))]
      ensures !sent ==> entries == old(entries) - {id}
      ensures sent ==> forall s :: s in entries[id] <==> s in old(Senders(id)) && !old(s.closed) && s !in failing
    {
      sent := false;
      if id in entries {
        var list := entries[id];
        sent := NotifyAll(list, msg, failing, true);
        entries := entries[id := OpenSenders(list)];
      }
      if !sent {
        entries := entries - {id};
      }
    }

    /**
     * Remove `id`'s whole entry and notify every sender that was in it and
     * still open, closing those whose send fails.
     */
    method Evict(id: string, msg: M, failing: set<Sender<M>>)
      requires Valid()
      modifies this, Members(id)
      ensures Valid()
      ensures entries == old(entries) - {id}
      ensures forall s :: s in old(Senders(id)) ==> Delivered(s, msg, failing, true)
    {
      if id in entries {
        var list := entries[id];
        entries := entries - {id};
        var _ := NotifyAll(list, msg, failing, true);
      }
    }

    /**
     * The shutdown broadcast: every open sender of every entry gets `msg`
     * once; a failed send is only reported, nothing is closed or removed.
     * Entries are visited in no particular order.
     */
    method Broadcast(msg: M, failing: set<Sender<M>>)
      requires Valid()
      modifies AllSenders()
      ensures forall id, s :: id in entries && s in entries[id] ==> Delivered(s, msg, failing, false)
    {
      var todo := entries.Keys;
      while todo != {}
        invariant entries == old(entries)
        invariant todo <= entries.Keys
        invariant forall id, s :: id in entries && id !in todo && s in entries[id] ==> Delivered(s, msg, failing, false)
        invariant forall id, s :: id in todo && s in entries[id] ==> s.closed == old(s.closed) && s.outbox == old(s.outbox)
        decreases todo
      {
        var id :| id in todo;
        assert forall s :: s in entries[id] ==> s in old(AllSenders());
        var _ := NotifyAll(entries[id], msg, failing, false);
        todo := todo - {id};
      }
    }
  }
}
