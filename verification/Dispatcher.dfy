/** The rendezvous of incoming vsock streams and requests for them, keyed by the peer's context
    id (vm/src/vsock.rs). */
module Dispatcher {
  import opened Common

  type Cid = n: nat | n < 0x1_0000_0000

  datatype DispatcherError = ConnectionPresent(cid: Cid) | RequestPresent(cid: Cid) | SendError(cid: Cid)

  // ---------------------------------------------------------------- specification

  /** The two tables. `T` stands for streams, `C` for the sending halves of one-shot channels. */
  datatype Tables<T, C> = Tables(available: map<Cid, T>, requests: map<Cid, C>)

  /** One call. For `Add`, `alive` says whether the receiver waiting for `cid`, if there is one,
      still exists when the call is made. */
  datatype Op<T, C> = Add(cid: Cid, stream: T, alive: bool) | Request(cid: Cid, chan: C)

  datatype Effect<T, C> =
    | Waiting                                    // accepted, no partner yet
    | Paired(stream: T, chan: C, delivered: bool)  // not delivered: the receiver was gone
    | Refused                                    // an entry of the same kind is already there

  function Step<T, C>(t: Tables<T, C>, op: Op<T, C>): (Tables<T, C>, Effect<T, C>) {
    match op
    case Add(cid, stream, alive) =>
      if cid in t.available then (t, Refused)
      else if cid in t.requests then
        (t.(requests := t.requests - {cid}), Paired(stream, t.requests[cid], alive))
      else (t.(available := t.available[cid := stream]), Waiting)
    case Request(cid, chan) =>
      if cid in t.requests then (t, Refused)
      else if cid in t.available then
        (t.(available := t.available - {cid}), Paired(t.available[cid], chan, true))
      else (t.(requests := t.requests[cid := chan]), Waiting)
  }

  function Empty<T, C>(): Tables<T, C> { Tables(map[], map[]) }

  /** The tables after a history of calls. */
  function After<T, C>(ops: seq<Op<T, C>>): Tables<T, C> {
    if ops == [] then Empty() else Step(After(ops[..|ops| - 1]), ops[|ops| - 1]).0
  }

  /** The effect of the last call of a history. */
  function LastEffect<T, C>(ops: seq<Op<T, C>>): Effect<T, C>
    requires ops != []
  {
    Step(After(ops[..|ops| - 1]), ops[|ops| - 1]).1
  }

  // ---------------------------------------------------------------- implementation

  /** A one-shot channel: a value that can be sent once, to a receiver that may have been dropped. */
  class Oneshot<T> {
    var receiverAlive: bool
    var sent: Option<T>

    constructor ()
      ensures receiverAlive && sent == None
    {
      receiverAlive := true;
      sent := None;
    }

    method Send(value: T) returns (ok: bool)
      requires sent == None
      modifies this
      ensures ok == old(receiverAlive) == receiverAlive
      ensures sent == if ok then Some(value) else None
    {
      if receiverAlive { sent := Some(value); }
      ok := receiverAlive;
    }

    method DropReceiver()
      modifies this
      ensures !receiverAlive && sent == old(sent)
    {
      receiverAlive := false;
    }
  }

  class ConnectionDispatcher<T> {
    var available: map<Cid, T>
    var requests: map<Cid, Oneshot<T>>

    /** Channels that wait for a stream are distinct and unused. */
    ghost predicate Valid()
      reads this, requests.Values
    {
      && (forall c <- requests :: requests[c].sent == None)
      && (forall c, d | c in requests && d in requests && c != d :: requests[c] != requests[d])
    }

    ghost function State(): Tables<T, Oneshot<T>>
      reads this
    {
      Tables(available, requests)
    }

    /** Whether a receiver is waiting for `cid` and has not been dropped. */
    ghost predicate ReceiverAlive(cid: Cid)
      reads this, requests.Values
    {
      cid in requests && requests[cid].receiverAlive
    }

    constructor ()
      ensures Valid() && State() == Empty()
    {
      available, requests := map[], map[];
    }

    method AddStream(cid: Cid, stream: T) returns (r: Result<(), DispatcherError>, ghost e: Effect<T, Oneshot<T>>)
      requires Valid()
      modifies this, requests.Values
      ensures Valid()
      ensures (State(), e) == Step(old(State()), Add(cid, stream, old(ReceiverAlive(cid))))
      ensures r == if e.Refused? then Err(ConnectionPresent(cid))
                   else if e.Paired? && !e.delivered then Err(SendError(cid))
                   else Ok(())
      ensures e.Paired? ==> e.chan.sent == if e.delivered then Some(stream) else None
      ensures forall c <- requests :: unchanged(requests[c])
      // in terms of the tables: refused, handed to the waiting receiver, or kept
      ensures cid in old(available) ==>
        r == Err(ConnectionPresent(cid)) && available == old(available) && requests == old(requests)
      ensures cid !in old(available) && cid in old(requests) ==>
        && available == old(available) && requests == old(requests) - {cid}
        && var chan := old(requests)[cid];
           if old(ReceiverAlive(cid)) then r == Ok(()) && chan.sent == Some(stream)
           else r == Err(SendError(cid)) && chan.sent == None
      ensures cid !in old(available) && cid !in old(requests) ==>
        r == Ok(()) && available == old(available)[cid := stream] && requests == old(requests)
    {
      if cid in available {
        return Err(ConnectionPresent(cid)), Refused;
      }
      ghost var waiting := if cid in requests then Some(requests[cid]) else None;
      available := available[cid := stream];
      assert old(available) == available - {cid};
      var sent := Resolve(cid);
      e := if waiting.Some? then Paired(stream, waiting.value, sent) else Waiting;
      r := if sent then Ok(()) else Err(SendError(cid));
    }

    method RequestStream(cid: Cid) returns (r: Result<Oneshot<T>, DispatcherError>, ghost e: Effect<T, Oneshot<T>>)
      requires Valid()
      modifies this, requests.Values
      ensures Valid()
      ensures r.Ok? ==> fresh(r.value) && r.value.receiverAlive
      ensures r.Ok? ==> (State(), e) == Step(old(State()), Request(cid, r.value)) && !e.Refused?
      ensures r.Err? ==> r.error == RequestPresent(cid) && e.Refused? && cid in old(requests) && State() == old(State())
      ensures r.Ok? ==> r.value.sent == if e.Paired? then Some(e.stream) else None
      ensures forall c <- old(requests) :: unchanged(old(requests[c]))
      // in terms of the tables: refused, given the waiting stream, or kept
      ensures r.Err? <==> cid in old(requests)
      ensures r.Ok? ==>
        if cid in old(available) then
          && available == old(available) - {cid} && requests == old(requests)
          && r.value.sent == Some(old(available)[cid])
        else available == old(available) && requests == old(requests)[cid := r.value] && r.value.sent == None
    {
      if cid in requests {
        return Err(RequestPresent(cid)), Refused;
      }
      var chan := new Oneshot<T>();
      requests := requests[cid := chan];
      assert old(requests) == requests - {cid};
      e := if cid in available then Paired(available[cid], chan, true) else Waiting;
      var sent := Resolve(cid);
      assert sent;
      r := Ok(chan);
    }

    /** Hands a waiting stream to a waiting request; false when the receiver is gone. */
    method Resolve(cid: Cid) returns (sent: bool)
      requires Valid()
      modifies this, set c | c in requests && c == cid :: requests[c]
      ensures Valid()
      ensures var meet := cid in old(available) && cid in old(requests);
              && available == (if meet then old(available) - {cid} else old(available))
              && requests == (if meet then old(requests) - {cid} else old(requests))
              && sent == (meet ==> old(requests)[cid].receiverAlive)
              && (meet ==> old(requests)[cid].sent == if sent then Some(old(available)[cid]) else None)
              && (!meet ==> forall c <- old(requests) :: unchanged(old(requests[c])))
      ensures forall c <- old(requests) :: old(requests[c].receiverAlive) == old(requests[c]).receiverAlive
    {
      sent := true;
      if cid in available && cid in requests {
        var stream, tx := available[cid], requests[cid];
        available := available - {cid};
        requests := requests - {cid};
        sent := tx.Send(stream);
      }
    }
  }

  // ---------------------------------------------------------------- what a history has done

  /** The streams accepted from `cid`, in order. */
  function Streams<T, C>(ops: seq<Op<T, C>>, cid: Cid): seq<T> {
    if ops == [] then [] else
      var before, op := Streams(ops[..|ops| - 1], cid), ops[|ops| - 1];
      if op.Add? && op.cid == cid && !LastEffect(ops).Refused? then before + [op.stream] else before
  }

  /** The requests accepted for `cid`, in order. */
  function Requests<T, C>(ops: seq<Op<T, C>>, cid: Cid): seq<C> {
    if ops == [] then [] else
      var before, op := Requests(ops[..|ops| - 1], cid), ops[|ops| - 1];
      if op.Request? && op.cid == cid && !LastEffect(ops).Refused? then before + [op.chan] else before
  }

  /** The pairs made for `cid`, in order. */
  function Pairs<T, C>(ops: seq<Op<T, C>>, cid: Cid): seq<(T, C)> {
    if ops == [] then [] else
      var before, e := Pairs(ops[..|ops| - 1], cid), LastEffect(ops);
      if ops[|ops| - 1].cid == cid && e.Paired? then before + [(e.stream, e.chan)] else before
  }

  /** Accepted streams minus accepted requests is -1, 0 or 1; the tables hold exactly the surplus
      element; and the k-th accepted stream is paired with the k-th accepted request. */
  lemma {:induction false} InOrderRendezvous<T, C>(ops: seq<Op<T, C>>, cid: Cid)
    ensures var s, r, p, t := Streams(ops, cid), Requests(ops, cid), Pairs(ops, cid), After(ops);
            && -1 <= |s| - |r| <= 1
            && (cid in t.available <==> |s| == |r| + 1)
            && (cid in t.available ==> t.available[cid] == s[|s| - 1])
            && (cid in t.requests <==> |r| == |s| + 1)
            && (cid in t.requests ==> t.requests[cid] == r[|r| - 1])
            && |p| == (if |s| < |r| then |s| else |r|)
            && (forall k | 0 <= k < |p| :: p[k] == (s[k], r[k]))
  {
    if ops != [] {
      InOrderRendezvous(ops[..|ops| - 1], cid);
    }
  }

  /** A stream is refused exactly when there is one more stream than requests, and a request when there
      is one more request than streams. */
  lemma RefusedExactly<T, C>(ops: seq<Op<T, C>>, op: Op<T, C>)
    ensures var s, r := |Streams(ops, op.cid)|, |Requests(ops, op.cid)|;
            LastEffect(ops + [op]).Refused? <==> if op.Add? then s == r + 1 else r == s + 1
  {
    assert (ops + [op])[..|ops|] == ops;
    InOrderRendezvous(ops, op.cid);
  }

  // ---------------------------------------------------------------- a request whose receiver has gone

  predicate AddsNone<T, C>(ops: seq<Op<T, C>>, cid: Cid) {
    forall i | 0 <= i < |ops| :: ops[i].Add? ==> ops[i].cid != cid
  }

  /** A pending request stays until a stream comes, even if its receiver goes: every later request for
      that peer is refused. */
  lemma {:induction false} PendingRequestBlocks<T, C>(ops: seq<Op<T, C>>, more: seq<Op<T, C>>, cid: Cid)
    requires cid in After(ops).requests && AddsNone(more, cid)
    ensures cid in After(ops + more).requests && After(ops + more).requests[cid] == After(ops).requests[cid]
    ensures forall k | 0 <= k < |more| && more[k].cid == cid :: LastEffect(ops + more[..k + 1]).Refused?
  {
    if more == [] {
      assert ops + more == ops;
    } else {
      var n := |more| - 1;
      assert (ops + more)[..|ops| + n] == ops + more[..n];
      PendingRequestBlocks(ops, more[..n], cid);
      forall k | 0 <= k < |more| && more[k].cid == cid ensures LastEffect(ops + more[..k + 1]).Refused? {
        if k < n {
          assert more[..n][..k + 1] == more[..k + 1] && more[..n][k] == more[k];
        } else {
          assert more[..k + 1] == more;
        }
      }
    }
  }

  /** The stream that comes then is lost with an error, and only after that the peer is free again. */
  lemma DeadRequestTakesOneStream<T, C>(ops: seq<Op<T, C>>, more: seq<Op<T, C>>, cid: Cid, stream: T)
    requires cid in After(ops).requests && AddsNone(more, cid)
    ensures var all := ops + more + [Add(cid, stream, false)];
            && LastEffect(all) == Paired(stream, After(ops).requests[cid], false)
            && cid !in After(all).requests && cid !in After(all).available
  {
    PendingRequestBlocks(ops, more, cid);
    InOrderRendezvous(ops + more, cid);
    var all := ops + more + [Add(cid, stream, false)];
    assert all[..|all| - 1] == ops + more;
  }

  // ---------------------------------------------------------------- conservation of streams

  datatype Fate = Delivered | LostWithReceiver | TurnedAway

  ghost function One<T>(x: T, y: T): nat { if x == y then 1 else 0 }

  /** How often the stream `x` was handed in for `cid`. */
  ghost function Added<T, C>(ops: seq<Op<T, C>>, cid: Cid, x: T): nat {
    if ops == [] then 0 else
      var op := ops[|ops| - 1];
      Added(ops[..|ops| - 1], cid, x) + if op.Add? && op.cid == cid then One(op.stream, x) else 0
  }

  /** Whether the last call of a history settles the fate of `x`. */
  ghost function Settled<T, C>(ops: seq<Op<T, C>>, fate: Fate, x: T): nat
    requires ops != []
  {
    match LastEffect(ops)
    case Waiting => 0
    case Paired(stream, _, delivered) =>
      if fate == (if delivered then Delivered else LostWithReceiver) then One(stream, x) else 0
    case Refused =>
      if fate == TurnedAway && ops[|ops| - 1].Add? then One(ops[|ops| - 1].stream, x) else 0
  }

  /** How often `x`, handed in for `cid`, has met a given fate. */
  ghost function Fated<T, C>(ops: seq<Op<T, C>>, cid: Cid, fate: Fate, x: T): nat {
    if ops == [] then 0 else
      Fated(ops[..|ops| - 1], cid, fate, x) + if ops[|ops| - 1].cid == cid then Settled(ops, fate, x) else 0
  }

  ghost function InTable<T, C>(t: Tables<T, C>, cid: Cid, x: T): nat {
    if cid in t.available then One(t.available[cid], x) else 0
  }

  /** Every stream that was ever handed in is in exactly one place, as often as it was handed in:
      waiting in the table, delivered, refused, or lost because the receiver it was paired with had
      gone. */
  lemma {:induction false} StreamsConserved<T, C>(ops: seq<Op<T, C>>, cid: Cid, x: T)
    ensures Added(ops, cid, x) ==
            InTable(After(ops), cid, x) + Fated(ops, cid, Delivered, x) +
            Fated(ops, cid, LostWithReceiver, x) + Fated(ops, cid, TurnedAway, x)
  {
    if ops != [] {
      StreamsConserved(ops[..|ops| - 1], cid, x);
    }
  }

  // ---------------------------------------------------------------- independence of peers

  function Project<T, C>(ops: seq<Op<T, C>>, cid: Cid): seq<Op<T, C>> {
    if ops == [] then [] else
      var before, op := Project(ops[..|ops| - 1], cid), ops[|ops| - 1];
      if op.cid == cid then before + [op] else before
  }

  /** The effects of the calls of a history that concern `cid`, in order. */
  function Effects<T, C>(ops: seq<Op<T, C>>, cid: Cid): seq<Effect<T, C>> {
    if ops == [] then [] else
      var before := Effects(ops[..|ops| - 1], cid);
      if ops[|ops| - 1].cid == cid then before + [LastEffect(ops)] else before
  }

  ghost predicate SameAt<T, C>(t: Tables<T, C>, u: Tables<T, C>, cid: Cid) {
    && (cid in t.available <==> cid in u.available)
    && (cid in t.available && cid in u.available ==> t.available[cid] == u.available[cid])
    && (cid in t.requests <==> cid in u.requests)
    && (cid in t.requests && cid in u.requests ==> t.requests[cid] == u.requests[cid])
  }

  /** A peer's calls have the effects they would have if no other peer existed. */
  lemma {:induction false} PeersDoNotInterfere<T, C>(ops: seq<Op<T, C>>, cid: Cid)
    ensures SameAt(After(ops), After(Project(ops, cid)), cid)
    ensures Effects(ops, cid) == Effects(Project(ops, cid), cid)
  {
    if ops != [] {
      var before, op := ops[..|ops| - 1], ops[|ops| - 1];
      PeersDoNotInterfere(before, cid);
      if op.cid == cid {
        var p := Project(ops, cid);
        assert p[..|p| - 1] == Project(before, cid);
      }
    }
  }

  /** Two interleavings of the same calls per peer end in the same tables and give every call the
      same effect. */
  lemma InterleavingIrrelevant<T, C>(ops: seq<Op<T, C>>, other: seq<Op<T, C>>)
    requires forall cid :: Project(ops, cid) == Project(other, cid)
    ensures After(ops) == After(other)
    ensures forall cid :: Effects(ops, cid) == Effects(other, cid)
  {
    forall cid: Cid
      ensures SameAt(After(ops), After(other), cid) && Effects(ops, cid) == Effects(other, cid)
    {
      PeersDoNotInterfere(ops, cid);
      PeersDoNotInterfere(other, cid);
      assert Project(ops, cid) == Project(other, cid);
    }
    var t, u := After(ops), After(other);
    assert t.available == u.available by {
      forall c: Cid
        ensures (c in t.available <==> c in u.available) && (c in t.available ==> t.available[c] == u.available[c])
      {
        assert SameAt(t, u, c);
      }
    }
    assert t.requests == u.requests by {
      forall c: Cid
        ensures (c in t.requests <==> c in u.requests) && (c in t.requests ==> t.requests[c] == u.requests[c])
      {
        assert SameAt(t, u, c);
      }
    }
  }
}
