/** The two ends of the transition system against the code below it: its reads are `serde_read` on
    bytes, and its guest is the event loop. */
module Refinement {
  import opened Common
  import opened Messages
  import opened HostTask
  import opened ControlSystem
  import opened Completion
  import ControlProofs
  import F = Framing
  import M = Manager

  // ---------------------------------------------------------------- reads

  /** The payloads of a queue of whole frames. */
  function Payloads(encoding: Frame -> F.Payload, queue: seq<Frame>): (ps: seq<F.Payload>)
    ensures |ps| == |queue|
  {
    seq(|queue|, i requires 0 <= i < |queue| => encoding(queue[i]))
  }

  /** The unread bytes of a stream hold a queue of frames. Of a torn frame only what the next reader
      makes of its bytes matters: whether it decides at all, and that it does not read a command.
      `json` tells which payloads are the JSON of a command. */
  ghost predicate Holds(encoding: Frame -> F.Payload, json: seq<byte> -> bool, bytes: seq<byte>, queue: seq<Frame>) {
    if queue != [] && queue[0].Torn? then
      && |queue| == 1
      && (queue[0].refused <==> !F.Decode(bytes).NeedMore?)
      && (F.Decode(bytes).Frame? ==> !json(F.Decode(bytes).payload))
    else bytes == F.EncodeAll(Payloads(encoding, queue))
  }

  /** The JSON of a command is an object or a string: it does not begin with a letter. */
  ghost predicate IsCommandReader(json: seq<byte> -> bool) {
    forall p | p != [] && F.IsLetter(p[0]) :: !json(p)
  }

  /** What over-reading leaves of a command behind another frame. */
  lemma CommandRemains(encoding: Frame -> F.Payload, json: seq<byte> -> bool, head: Frame, c: Frame, left: seq<byte>,
                       gone: nat, cut: nat) returns (tear: Tear)
    requires IsCommandReader(json) && !head.Torn? && c.CommandFrame? && F.IsCommandText(encoding(c))
    requires F.Remains([encoding(c)], left, gone, cut)
    ensures CanRead([head, c], gone, tear) && Holds(encoding, json, left, LeftBehind([head, c], gone, tear))
  {
    var p := encoding(c);
    assert Payloads(encoding, [c]) == [p];
    if cut > 0 {
      assert F.EncodeAll([p][1..]) == [] && left == F.Encode(p)[cut..];
      F.TornCommandNeverDelivered(p, cut);
      tear := if F.Decode(left).NeedMore? then Starved else Refused;
    } else {
      tear := Clean;
      assert [head, c][gone + 1..] == [c][gone..];
      assert [p][gone..] == Payloads(encoding, [c][gone..]);
    }
  }

  /** A `serde_read` on a queue as it occurs in the system, a frame alone or a command behind a frame:
      it never returns exactly when the system has no read; it takes a whole frame and leaves what one
      of the system's reads leaves, however the bytes are chunked; a torn frame it refuses. */
  lemma ReadIsAStep(encoding: Frame -> F.Payload, json: seq<byte> -> bool, queue: seq<Frame>, bytes: seq<byte>,
                    chunks: seq<nat>) returns (gone: nat, tear: Tear)
    requires IsCommandReader(json) && Holds(encoding, json, bytes, queue)
    requires |queue| == 1 || (|queue| == 2 && queue[1].CommandFrame? && F.IsCommandText(encoding(queue[1])))
    ensures F.ReadOutcome(bytes, false).Blocked? <==> !CanRead(queue, 0, Clean)
    ensures queue[0].Torn? ==> F.ReadOutcome(bytes, false).Got? ==> !json(F.ReadOutcome(bytes, false).payload)
    ensures !queue[0].Torn? ==>
      && F.ReadOutcome(bytes, false) == F.Got(encoding(queue[0]))
      && CanRead(queue, gone, tear)
      && Holds(encoding, json, bytes[F.Pulled(|bytes|, chunks, 0, F.Decode(bytes).used)..],
               LeftBehind(queue, gone, tear))
  {
    gone, tear := 0, Clean;
    if !queue[0].Torn? {
      var head, rest := encoding(queue[0]), queue[1..];
      var ps := Payloads(encoding, rest);
      assert Payloads(encoding, queue) == [head] + ps;
      var cut;
      gone, cut := F.SerdeReadTakesFirstFrame(head, ps, chunks);
      var left := bytes[F.Pulled(|bytes|, chunks, 0, F.Decode(bytes).used)..];
      if rest == [] {
        assert ps == [] && left == [];
      } else {
        assert ps == [encoding(queue[1])] && queue == [queue[0], queue[1]];
        tear := CommandRemains(encoding, json, queue[0], queue[1], left, gone, cut);
      }
    }
  }

  /** In every reachable state both streams are such queues. */
  lemma QueuesAreReadable(info: RealmInfo, es: seq<Event>)
    requires Path(Initial(info), es)
    ensures var far := After(Initial(info), es).far;
            && |far.up| <= 1 && |far.down| <= 2
            && (|far.down| == 2 ==> far.down[0] == InfoFrame(info) && far.down[1].CommandFrame?)
            && (|far.up| == 1 ==> far.up[0].ReplyFrame?)
            && (far.guest.AwaitingCommand? && far.down != [] ==> far.down[0].CommandFrame? || far.down[0].Torn?)
            && (far.guest.AwaitingInfo? && far.down != [] ==> far.down[0] == InfoFrame(info))
  {
    ControlProofs.Reachable(info, es);
    InvShape(After(Initial(info), es));
    assert Shape(After(Initial(info), es));
  }

  // ---------------------------------------------------------------- the guest

  /** What the guest does about a command that yields a reply or fails. */
  function HandlingEvents(handled: Option<Reply>, written: bool): seq<Event> {
    match handled
    case None => [GuestFails]
    case Some(r) => [GuestHandles(r)] + [if written then GuestReplies else GuestFails]
  }

  /** What the guest does in one turn of its event loop. */
  function TurnEvents(apps: map<string, M.App>, turn: M.Turn): seq<Event> {
    if turn.command.None? then [GuestFails]
    else [GuestReads(0, Clean)] + HandlingEvents(M.Handled(apps, turn.command.value, turn.action), turn.written)
  }

  /** The guest moves as the turn says: same answers, and it goes on exactly if the loop does. */
  ghost predicate Follows(s: State, t: State, one: M.Service, left: seq<Frame>) {
    && t == s.(far := t.far)
    && t.far.answered == s.far.answered + one.answered
    && t.far.guest == (if one.end.None? then AwaitingCommand else Gone)
    && t.far.down == left
    && t.far.up == s.far.up + if one.answered == [] then [] else [ReplyFrame(one.answered[0].1)]
  }

  lemma CommandIsRead(s: State, c: Command, es: seq<Event>)
    requires s.far.guest.AwaitingCommand? && s.far.down != [] && s.far.down[0] == CommandFrame(c)
    requires Path(s.(far := s.far.(guest := Handling(c), down := s.far.down[1..])), es)
    ensures var t := s.(far := s.far.(guest := Handling(c), down := s.far.down[1..]));
            Path(s, [GuestReads(0, Clean)] + es) && After(s, [GuestReads(0, Clean)] + es) == After(t, es)
  {
    PathStep(s, GuestReads(0, Clean), es);
  }

  lemma ReplyIsWritten(s: State, c: Command, r: Reply, written: bool, one: M.Service)
    requires s.far.guest == Replying(c, r)
    requires one.answered == if written then [(c, r)] else []
    requires one.end.None? <==> written && !c.Shutdown?
    ensures var last := [if written then GuestReplies else GuestFails];
            Path(s, last) && Follows(s, After(s, last), one, s.far.down)
  {
    PathStep(s, if written then GuestReplies else GuestFails, []);
  }

  lemma CommandIsHandled(s: State, apps: map<string, M.App>, turn: M.Turn)
    requires turn.command.Some? && s.far.guest == Handling(turn.command.value)
    ensures var es := HandlingEvents(M.Handled(apps, turn.command.value, turn.action), turn.written);
            Path(s, es) && Follows(s, After(s, es), M.TurnOf(apps, turn), s.far.down)
  {
    match M.Handled(apps, turn.command.value, turn.action)
    case None => PathStep(s, GuestFails, []);
    case Some(r) =>
      var t := s.(far := s.far.(guest := Replying(turn.command.value, r)));
      ReplyIsWritten(t, turn.command.value, r, turn.written, M.TurnOf(apps, turn));
      PathStep(s, GuestHandles(r), [if turn.written then GuestReplies else GuestFails]);
  }

  /** Whatever a turn of the event loop does, the guest of the system can do, from any state in which
      it awaits a command and the turn's command is next: it gives the same answer and goes on exactly
      if the loop does. */
  lemma TurnIsAdmitted(s: State, apps: map<string, M.App>, turn: M.Turn)
    requires s.far.guest.AwaitingCommand?
    requires turn.command.Some? ==> s.far.down != [] && s.far.down[0] == CommandFrame(turn.command.value)
    ensures Path(s, TurnEvents(apps, turn))
    ensures Follows(s, After(s, TurnEvents(apps, turn)), M.TurnOf(apps, turn),
                    if turn.command.None? then s.far.down else s.far.down[1..])
  {
    if turn.command.Some? {
      var c := turn.command.value;
      CommandIsHandled(s.(far := s.far.(guest := Handling(c), down := s.far.down[1..])), apps, turn);
      CommandIsRead(s, c, HandlingEvents(M.Handled(apps, c, turn.action), turn.written));
    }
  }

  /** The caller, the task and the guest between two calls. */
  predicate BetweenCalls(s: State) {
    && s.caller.Idle? && s.requests == [] && s.responses == []
    && s.host.phase.Selecting? && s.host.connected
    && s.far.guest.AwaitingCommand? && s.far.down == [] && s.far.up == []
  }

  /** A call that brings a command to the guest, and the return of its reply. */
  function CallEvents(c: Command): seq<Event> {
    [CallerCalls(RequestOf(c)), SendAccepted, HostAct(RequestTaken(RequestOf(c), true))]
  }

  const RETURN: seq<Event> := [HostReads(0, Clean), HostAct(AnswerSent(true)), ResponseTaken]

  lemma {:induction false} PathConcat(s: State, a: seq<Event>, b: seq<Event>)
    requires Path(s, a) && Path(After(s, a), b)
    ensures Path(s, a + b) && After(s, a + b) == After(After(s, a), b)
    decreases |a|
  {
    if a == [] {
      assert a + b == b;
    } else {
      PathConcat(Step(s, a[0]), a[1..], b);
      assert (a + b)[1..] == a[1..] + b;
    }
  }

  /** The states a request goes through. */
  function Requested(s: State, c: Command): (State, State, State) {
    var q := RequestOf(c);
    (s.(caller := Sending(q)),
     s.(caller := Awaiting(q), requests := [q]),
     s.(caller := Awaiting(q), host := s.host.(phase := AwaitingReply), io := s.io + [WroteCommand(c)],
        written := s.written + [c], far := s.far.(down := [CommandFrame(c)])))
  }

  lemma RequestSteps(s: State, c: Command)
    requires BetweenCalls(s)
    ensures var q, (s1, s2, t) := RequestOf(c), Requested(s, c);
            && Enabled(s, CallerCalls(q)) && Step(s, CallerCalls(q)) == s1
            && Enabled(s1, SendAccepted) && Step(s1, SendAccepted) == s2
            && Enabled(s2, HostAct(RequestTaken(q, true))) && Step(s2, HostAct(RequestTaken(q, true))) == t
  {}

  lemma RequestArrives(s: State, c: Command)
    requires BetweenCalls(s)
    ensures Path(s, CallEvents(c)) && After(s, CallEvents(c)) == Requested(s, c).2
  {
    var q := RequestOf(c);
    var (s1, s2, t) := Requested(s, c);
    RequestSteps(s, c);
    ThreeEvents(s, CallerCalls(q), s1, SendAccepted, s2, HostAct(RequestTaken(q, true)), t, []);
    assert CallEvents(c) + [] == CallEvents(c);
  }

  /** The task waits for the reply that is on its way. */
  predicate ReplyArrives(s: State, r: Reply) {
    && s.caller.Awaiting? && s.requests == [] && s.responses == []
    && s.host.phase.AwaitingReply? && s.host.connected
    && s.far.guest.AwaitingCommand? && s.far.down == [] && s.far.up == [ReplyFrame(r)]
  }

  /** The states the reply goes through. */
  function Returning(s: State, r: Reply): (State, State, State)
    requires s.caller.Awaiting?
  {
    var s1 := s.(host := s.host.(phase := Answering(Okay)), io := s.io + [ReadReply(r)], read := s.read + [r],
                 far := s.far.(up := []));
    var s2 := s1.(host := s.host.(phase := Selecting), responses := [Okay]);
    (s1, s2, s2.(caller := Idle, calls := s.calls + [Call(s.caller.req, Succeeded)], responses := []))
  }

  lemma ReplyStep(s: State, r: Reply)
    requires ReplyArrives(s, r)
    ensures Enabled(s, HostReads(0, Clean)) && Step(s, HostReads(0, Clean)) == Returning(s, r).0
  {}

  lemma AnswerStep(s: State)
    requires s.host.phase == Answering(Okay) && s.responses == []
    ensures var e := HostAct(AnswerSent(true));
            Enabled(s, e) && Step(s, e) == s.(host := s.host.(phase := Selecting), responses := [Okay])
  {
    assert s.io + [] == s.io;
  }

  lemma ReplyReturns(s: State, r: Reply)
    requires ReplyArrives(s, r)
    ensures Path(s, RETURN) && BetweenCalls(After(s, RETURN))
    ensures After(s, RETURN).far.answered == s.far.answered
  {
    var (s1, s2, t) := Returning(s, r);
    ReplyStep(s, r);
    AnswerStep(s1);
    ThreeEvents(s, HostReads(0, Clean), s1, HostAct(AnswerSent(true)), s2, ResponseTaken, t, []);
    assert RETURN + [] == RETURN;
  }

  /** One turn of the event loop inside the system, with the call that causes it. */
  lemma CallIsAdmitted(s: State, apps: map<string, M.App>, turn: M.Turn) returns (es: seq<Event>)
    requires BetweenCalls(s)
    ensures Path(s, es)
    ensures var t, one := After(s, es), M.TurnOf(apps, turn);
            && t.far.answered == s.far.answered + one.answered
            && if one.end.None? then BetweenCalls(t) else t.far.guest.Gone?
  {
    var one, turns := M.TurnOf(apps, turn), TurnEvents(apps, turn);
    if turn.command.None? {
      TurnIsAdmitted(s, apps, turn);
      es := turns;
    } else {
      RequestArrives(s, turn.command.value);
      var t := After(s, CallEvents(turn.command.value));
      TurnIsAdmitted(t, apps, turn);
      PathConcat(s, CallEvents(turn.command.value), turns);
      es := CallEvents(turn.command.value) + turns;
      if one.end.None? {
        ReplyReturns(After(t, turns), one.answered[0].1);
        PathConcat(s, es, RETURN);
        es := es + RETURN;
      }
    }
  }

  /** Every behaviour of the event loop, from any state between two calls: there is a run of the
      system in which the guest's further answers are those of the loop. */
  lemma {:induction false} LoopIsAdmitted(s: State, apps: map<string, M.App>, turns: seq<M.Turn>)
    returns (es: seq<Event>)
    requires BetweenCalls(s)
    ensures Path(s, es) && After(s, es).far.answered == s.far.answered + M.Served(apps, turns).answered
    ensures After(s, es).far.guest == if M.Served(apps, turns).end.None? then AwaitingCommand else Gone
    decreases |turns|
  {
    if turns == [] {
      es := [];
    } else {
      es := CallIsAdmitted(s, apps, turns[0]);
      assert M.Served(apps, turns) == M.Before(M.TurnOf(apps, turns[0]), M.Served(apps, turns[1..]));
      if M.TurnOf(apps, turns[0]).end.None? {
        var rest := LoopIsAdmitted(After(s, es), apps, turns[1..]);
        Regroup(s.far.answered, M.TurnOf(apps, turns[0]).answered, M.Served(apps, turns[1..]).answered);
        PathConcat(s, es, rest);
        es := es + rest;
      }
    }
  }

  /** Every behaviour of the event loop occurs in the system. */
  lemma EventLoopIsAdmitted(info: RealmInfo, apps: map<string, M.App>, turns: seq<M.Turn>)
    returns (es: seq<Event>)
    ensures Path(Initial(info), es)
    ensures var t, service := After(Initial(info), es), M.Served(apps, turns);
            && t.far.answered == service.answered
            && t.far.guest == if service.end.None? then AwaitingCommand else Gone
  {
    var s := Connected(info);
    var boots := [GuestReads(0, Clean), GuestBoots];
    var t := s.(far := s.far.(guest := AwaitingCommand, down := []));
    PathStep(s, GuestReads(0, Clean), [GuestBoots]);
    assert [GuestReads(0, Clean)] + [GuestBoots] == boots;
    var rest := LoopIsAdmitted(t, apps, turns);
    PathConcat(s, boots, rest);
    Connects(info, boots + rest);
    es := [HostAct(StreamRequested(true)), GuestConnects, HostAct(StreamResolved(true, true))] + (boots + rest);
  }

  /** Turns of the event loop in which the guest gives these answers. */
  function TurnsFor(answered: seq<(Command, Reply)>): seq<M.Turn> {
    if answered == [] then []
    else
      var (c, r) := answered[0];
      [M.Turn(Some(c), Some(if r.ExitStatus? then r.status else 0), true)] + TurnsFor(answered[1..])
  }

  /** The applications a guest must have installed to give these answers. */
  ghost predicate Serves(apps: map<string, M.App>, answered: seq<(Command, Reply)>) {
    forall k | 0 <= k < |answered| :: !answered[k].0.Shutdown? ==>
      answered[k].0.id in apps && apps[answered[k].0.id].launcher.Some?
  }

  lemma {:induction false} LoopCanAnswer(apps: map<string, M.App>, answered: seq<(Command, Reply)>)
    requires Serves(apps, answered)
    requires forall k | 0 <= k < |answered| :: Answers(answered[k].0, answered[k].1)
    requires forall k | 0 <= k < |answered| - 1 :: !answered[k].0.Shutdown?
    ensures M.Served(apps, TurnsFor(answered)).answered == answered
  {
    if answered != [] {
      var rest := answered[1..];
      forall k | 0 <= k < |rest| - 1 ensures !rest[k].0.Shutdown? {
        assert rest[k] == answered[k + 1];
      }
      LoopCanAnswer(apps, rest);
      var turns := TurnsFor(answered);
      assert turns[1..] == TurnsFor(rest);
      assert [answered[0]] + rest == answered;
    }
  }

  /** What the guest answers in any run of the system is what its event loop answers to the same
      commands, in a guest where the applications they name are installed. */
  lemma GuestIsItsEventLoop(info: RealmInfo, es: seq<Event>, apps: map<string, M.App>)
    requires Path(Initial(info), es) && Serves(apps, After(Initial(info), es).far.answered)
    ensures var answered := After(Initial(info), es).far.answered;
            M.Served(apps, TurnsFor(answered)).answered == answered
  {
    ControlProofs.Reachable(info, es);
    ControlProofs.ShutdownStaysLast(Initial(info), es);
    LoopCanAnswer(apps, After(Initial(info), es).far.answered);
  }
}
