/** The host's task for a running realm, `Realm::handle_realm` (vm/src/realm.rs): a `select!` loop
    over the connection, a timer, the process, its two output pipes and the request channel. */
module HostTask {
  import opened Common
  import opened Messages

  // ---------------------------------------------------------------- the task as an automaton

  datatype Phase =
    | Starting                    // about to ask the dispatcher for a stream
    | Selecting                   // in `select!`
    | AwaitingReply               // command written, reading the reply
    | Answering(resp: Response)   // sending the response to the caller
    | Reaping                     // left the loop, waiting for the process
    | Returned(ok: bool)

  datatype Host = Host(phase: Phase, connected: bool, stdoutOpen: bool, stderrOpen: bool)

  /** One await of the task completing, with its result. */
  datatype HostEvent =
    | StreamRequested(ok: bool)
    | StreamResolved(received: bool, written: bool)
    | TimedOut
    | ProcessExited(ok: bool)
    | Stdout(line: Line)
    | Stderr(line: Line)
    | RequestTaken(req: Request, written: bool)
    | RequestsClosed
    | ReplyRead(reply: Option<Reply>)
    | AnswerSent(ok: bool)
    | Reaped(ok: bool)

  const INITIAL_HOST := Host(Starting, false, true, true)

  /** Which awaits can complete in which state. The timer has no guard. */
  predicate HostReady(h: Host, e: HostEvent) {
    match e
    case StreamRequested(_) => h.phase.Starting?
    case StreamResolved(_, _) => h.phase.Selecting? && !h.connected
    case TimedOut => h.phase.Selecting?
    case ProcessExited(_) => h.phase.Selecting?
    case Stdout(_) => h.phase.Selecting? && h.stdoutOpen
    case Stderr(_) => h.phase.Selecting? && h.stderrOpen
    case RequestTaken(_, _) => h.phase.Selecting?
    case RequestsClosed => h.phase.Selecting?
    case ReplyRead(_) => h.phase.AwaitingReply?
    case AnswerSent(_) => h.phase.Answering?
    case Reaped(_) => h.phase.Reaping?
  }

  function HostStep(h: Host, e: HostEvent): Host
    requires HostReady(h, e)
  {
    match e
    case StreamRequested(ok) => h.(phase := if ok then Selecting else Returned(false))
    case StreamResolved(received, written) =>
      if received && written then h.(connected := true) else h.(phase := Returned(false))
    case TimedOut => if h.connected then h else h.(phase := Reaping)
    case ProcessExited(ok) => h.(phase := if ok then Reaping else Returned(false))
    case Stdout(line) =>
      (match line
       case Text => h
       case Eof => h.(stdoutOpen := false)
       case IoError => h.(phase := Returned(false)))
    case Stderr(line) =>
      (match line
       case Text => h
       case Eof => h.(stderrOpen := false)
       case IoError => h.(phase := Returned(false)))
    case RequestTaken(_, written) =>
      if !h.connected then h.(phase := Answering(RealmNotConnected))
      else if written then h.(phase := AwaitingReply)
      else h.(phase := Returned(false))
    case RequestsClosed => h
    case ReplyRead(reply) => h.(phase := if reply.Some? then Answering(Okay) else Returned(false))
    case AnswerSent(ok) => h.(phase := if ok then Selecting else Returned(false))
    case Reaped(ok) => h.(phase := Returned(ok))
  }

  datatype HostIo = WroteInfo(info: RealmInfo) | WroteCommand(command: Command) | ReadReply(reply: Reply)

  /** What the task has done: its traffic on the connection and the responses it has sent. */
  datatype Effects = Effects(io: seq<HostIo>, answers: seq<Response>)

  const NO_EFFECTS := Effects([], [])

  function Then(a: Effects, b: Effects): Effects {
    Effects(a.io + b.io, a.answers + b.answers)
  }

  lemma ThenAssociative(a: Effects, b: Effects, c: Effects)
    ensures Then(Then(a, b), c) == Then(a, Then(b, c))
    ensures Then(NO_EFFECTS, a) == a == Then(a, NO_EFFECTS)
  {}

  function EffectsOf(h: Host, e: HostEvent, info: RealmInfo): Effects
    requires HostReady(h, e)
  {
    match e
    case StreamResolved(true, true) => Effects([WroteInfo(info)], [])
    case RequestTaken(q, true) => if h.connected then Effects([WroteCommand(CommandOf(q))], []) else NO_EFFECTS
    case ReplyRead(Some(r)) => Effects([ReadReply(r)], [])
    case AnswerSent(true) => Effects([], [h.phase.resp])
    case _ => NO_EFFECTS
  }

  predicate HostPath(h: Host, es: seq<HostEvent>)
    decreases |es|
  {
    es != [] ==> HostReady(h, es[0]) && HostPath(HostStep(h, es[0]), es[1..])
  }

  function HostAfter(h: Host, es: seq<HostEvent>): Host
    requires HostPath(h, es)
    decreases |es|
  {
    if es == [] then h else HostAfter(HostStep(h, es[0]), es[1..])
  }

  function EffectsAfter(h: Host, es: seq<HostEvent>, info: RealmInfo): Effects
    requires HostPath(h, es)
    decreases |es|
  {
    if es == [] then NO_EFFECTS else Then(EffectsOf(h, es[0], info), EffectsAfter(HostStep(h, es[0]), es[1..], info))
  }

  lemma {:induction false} HostPathConcat(h: Host, a: seq<HostEvent>, b: seq<HostEvent>, info: RealmInfo)
    requires HostPath(h, a) && HostPath(HostAfter(h, a), b)
    ensures HostPath(h, a + b)
    ensures HostAfter(h, a + b) == HostAfter(HostAfter(h, a), b)
    ensures EffectsAfter(h, a + b, info) == Then(EffectsAfter(h, a, info), EffectsAfter(HostAfter(h, a), b, info))
    decreases |a|
  {
    var all := EffectsAfter(HostAfter(h, a), b, info);
    if a == [] {
      assert a + b == b;
      ThenAssociative(all, all, all);
    } else {
      var h' := HostStep(h, a[0]);
      assert (a + b)[1..] == a[1..] + b;
      HostPathConcat(h', a[1..], b, info);
      ThenAssociative(EffectsOf(h, a[0], info), EffectsAfter(h', a[1..], info), all);
    }
  }

  lemma OneStep(h: Host, e: HostEvent, info: RealmInfo)
    requires HostReady(h, e)
    ensures HostPath(h, [e]) && HostAfter(h, [e]) == HostStep(h, e)
    ensures EffectsAfter(h, [e], info) == EffectsOf(h, e, info)
  {}

  lemma TwoSteps(h: Host, e: HostEvent, f: HostEvent, info: RealmInfo)
    requires HostReady(h, e) && HostReady(HostStep(h, e), f)
    ensures HostPath(h, [e, f]) && HostAfter(h, [e, f]) == HostStep(HostStep(h, e), f)
    ensures EffectsAfter(h, [e, f], info) == Then(EffectsOf(h, e, info), EffectsOf(HostStep(h, e), f, info))
  {
    assert [e, f] == [e] + [f];
    OneStep(h, e, info);
    OneStep(HostStep(h, e), f, info);
    HostPathConcat(h, [e], [f], info);
  }

  lemma ThreeSteps(h: Host, e: HostEvent, f: HostEvent, g: HostEvent, info: RealmInfo)
    requires HostReady(h, e) && HostReady(HostStep(h, e), f) && HostReady(HostStep(HostStep(h, e), f), g)
    ensures HostPath(h, [e, f, g]) && HostAfter(h, [e, f, g]) == HostStep(HostStep(HostStep(h, e), f), g)
    ensures EffectsAfter(h, [e, f, g], info) ==
            Then(Then(EffectsOf(h, e, info), EffectsOf(HostStep(h, e), f, info)),
                 EffectsOf(HostStep(HostStep(h, e), f), g, info))
  {
    assert [e, f, g] == [e, f] + [g];
    TwoSteps(h, e, f, info);
    OneStep(HostStep(HostStep(h, e), f), g, info);
    HostPathConcat(h, [e, f], [g], info);
  }

  // ---------------------------------------------------------------- the shape of the connection

  /** The conversation the task has: the realm info, then commands and replies alternating,
      possibly without the last reply. */
  function Conversation(info: RealmInfo, written: seq<Command>, read: seq<Reply>): seq<HostIo>
    requires |read| <= |written| <= |read| + 1
  {
    if written == [] then [WroteInfo(info)]
    else if |read| == |written| then Conversation(info, written, read[..|read| - 1]) + [ReadReply(read[|read| - 1])]
    else Conversation(info, written[..|written| - 1], read) + [WroteCommand(written[|written| - 1])]
  }

  lemma ConversationWrites(info: RealmInfo, written: seq<Command>, read: seq<Reply>, c: Command)
    requires |read| == |written|
    ensures Conversation(info, written + [c], read) == Conversation(info, written, read) + [WroteCommand(c)]
  {}

  lemma ConversationReads(info: RealmInfo, written: seq<Command>, read: seq<Reply>, r: Reply)
    requires |read| + 1 == |written|
    ensures Conversation(info, written, read + [r]) == Conversation(info, written, read) + [ReadReply(r)]
  {}

  /** What the conversation looks like: the info, then the k-th command and the k-th reply in turn. */
  lemma {:induction false} ConversationShape(info: RealmInfo, written: seq<Command>, read: seq<Reply>)
    requires |read| <= |written| <= |read| + 1
    ensures var io := Conversation(info, written, read);
            && |io| == 1 + |written| + |read| && io[0] == WroteInfo(info)
            && (forall k | 0 <= k < |written| :: io[2 * k + 1] == WroteCommand(written[k]))
            && (forall k | 0 <= k < |read| :: io[2 * k + 2] == ReadReply(read[k]))
    decreases |written| + |read|
  {
    if written == [] {
    } else if |read| == |written| {
      ConversationShape(info, written, read[..|read| - 1]);
    } else {
      ConversationShape(info, written[..|written| - 1], read);
    }
  }

  // ---------------------------------------------------------------- the task as a loop

  datatype ReplyOutcome = Arrives(reply: Reply) | Fails | Never

  /** An arm of `select!` becoming ready, with the results of everything awaited inside it. */
  datatype Arm =
    | StreamArm(received: bool, written: bool)
    | TimeoutArm
    | WaitArm(ok: bool)
    | StdoutArm(line: Line)
    | StderrArm(line: Line)
    | RequestArm(req: Option<Request>, written: bool, outcome: ReplyOutcome, sent: bool)

  /** The awaits completed by an arm; none when its guard is off. */
  function Awaits(h: Host, arm: Arm): seq<HostEvent> {
    match arm
    case StreamArm(received, written) => if h.connected then [] else [StreamResolved(received, written)]
    case TimeoutArm => [TimedOut]
    case WaitArm(ok) => [ProcessExited(ok)]
    case StdoutArm(line) => if h.stdoutOpen then [Stdout(line)] else []
    case StderrArm(line) => if h.stderrOpen then [Stderr(line)] else []
    case RequestArm(None, _, _, _) => [RequestsClosed]
    case RequestArm(Some(q), written, outcome, sent) =>
      if !h.connected then [RequestTaken(q, written), AnswerSent(sent)]
      else if !written then [RequestTaken(q, false)]
      else
        match outcome
        case Never => [RequestTaken(q, true)]
        case Fails => [RequestTaken(q, true), ReplyRead(None)]
        case Arrives(r) => [RequestTaken(q, true), ReplyRead(Some(r)), AnswerSent(sent)]
  }

  lemma AwaitsIsPath(h: Host, arm: Arm)
    requires h.phase.Selecting?
    ensures HostPath(h, Awaits(h, arm))
    ensures var p := HostAfter(h, Awaits(h, arm)).phase; !p.Starting? && !p.Answering?
  {
    var info := RealmInfo(map[]);
    if arm.RequestArm? && arm.req.Some? {
      RequestExpanded(h, arm.req.value, arm.written, arm.outcome, arm.sent, info);
    } else {
      ArmExpanded(h, arm, info);
    }
  }

  /** The effect of an arm that completes one await, or none because its guard is off. */
  lemma ArmExpanded(h: Host, arm: Arm, info: RealmInfo)
    requires h.phase.Selecting? && !(arm.RequestArm? && arm.req.Some?)
    ensures var es := Awaits(h, arm);
            && HostPath(h, es)
            && if es == [] then HostAfter(h, es) == h && EffectsAfter(h, es, info) == NO_EFFECTS
               else HostReady(h, es[0]) && HostAfter(h, es) == HostStep(h, es[0])
                    && EffectsAfter(h, es, info) == EffectsOf(h, es[0], info)
  {
    var es := Awaits(h, arm);
    if es != [] { OneStep(h, es[0], info); }
  }

  /** The effect of a request: what the task then is, and what it has done. */
  function RequestEffect(h: Host, q: Request, written: bool, outcome: ReplyOutcome, sent: bool): (Host, Effects) {
    var done := h.(phase := if sent then Selecting else Returned(false));
    if !h.connected then (done, Effects([], if sent then [RealmNotConnected] else []))
    else if !written then (h.(phase := Returned(false)), NO_EFFECTS)
    else
      var wrote := WroteCommand(CommandOf(q));
      match outcome
      case Never => (h.(phase := AwaitingReply), Effects([wrote], []))
      case Fails => (h.(phase := Returned(false)), Effects([wrote], []))
      case Arrives(r) => (done, Effects([wrote, ReadReply(r)], if sent then [Okay] else []))
  }

  lemma RequestExpanded(h: Host, q: Request, written: bool, outcome: ReplyOutcome, sent: bool, info: RealmInfo)
    requires h.phase.Selecting?
    ensures var es := Awaits(h, RequestArm(Some(q), written, outcome, sent));
            && HostPath(h, es)
            && (HostAfter(h, es), EffectsAfter(h, es, info)) == RequestEffect(h, q, written, outcome, sent)
  {
    var es := Awaits(h, RequestArm(Some(q), written, outcome, sent));
    if |es| == 1 {
      OneStep(h, es[0], info);
    } else if |es| == 2 {
      var first, second := EffectsOf(h, es[0], info), EffectsOf(HostStep(h, es[0]), es[1], info);
      TwoSteps(h, es[0], es[1], info);
      ThenAssociative(first, first, first);
      ThenAssociative(second, second, second);
    } else {
      ThreeSteps(h, es[0], es[1], es[2], info);
      var traffic: seq<HostIo> := [WroteCommand(CommandOf(q))] + [ReadReply(outcome.reply)];
      assert traffic + [] == [WroteCommand(CommandOf(q)), ReadReply(outcome.reply)];
      assert [] + [] + (if sent then [Okay] else []) == if sent then [Okay] else [];
    }
  }

  /** The awaits completed when the arms become ready in the given order; the loop is left at the
      first arm after which the task is no longer in `select!`. */
  function AwaitsOf(h: Host, arms: seq<Arm>): (es: seq<HostEvent>)
    requires !h.phase.Starting? && !h.phase.Answering?
    ensures HostPath(h, es)
    decreases |arms|
  {
    if arms == [] || !h.phase.Selecting? then []
    else
      AwaitsIsPath(h, arms[0]);
      var first := Awaits(h, arms[0]);
      var h' := HostAfter(h, first);
      var rest := AwaitsOf(h', arms[1..]);
      HostPathConcat(h, first, rest, RealmInfo(map[]));
      first + rest
  }

  /** The invariant of the loop: the awaits completed so far are the first part of all of them, and
      `done` is their effect after what had been done before. */
  ghost predicate LoopInvariant(h0: Host, before: Effects, arms: seq<Arm>, info: RealmInfo,
                                es: seq<HostEvent>, h: Host, done: Effects, i: nat)
    requires h0.phase.Selecting?
  {
    && i <= |arms| && !h.phase.Starting? && !h.phase.Answering?
    && HostPath(h0, es) && HostAfter(h0, es) == h
    && done == Then(before, EffectsAfter(h0, es, info))
    && AwaitsOf(h0, arms) == es + AwaitsOf(h, arms[i..])
  }

  lemma AwaitsOfNext(h: Host, arms: seq<Arm>, i: nat)
    requires h.phase.Selecting? && i < |arms|
    ensures var now := Awaits(h, arms[i]);
            && HostPath(h, now)
            && !HostAfter(h, now).phase.Starting? && !HostAfter(h, now).phase.Answering?
            && AwaitsOf(h, arms[i..]) == now + AwaitsOf(HostAfter(h, now), arms[i + 1..])
  {
    AwaitsIsPath(h, arms[i]);
    assert arms[i..][1..] == arms[i + 1..];
  }

  lemma Regroup<T>(a: seq<T>, b: seq<T>, c: seq<T>)
    ensures a + (b + c) == (a + b) + c
  {}

  lemma LoopStep(h0: Host, before: Effects, arms: seq<Arm>, info: RealmInfo,
                 es: seq<HostEvent>, h: Host, done: Effects, i: nat)
    requires h0.phase.Selecting? && h.phase.Selecting? && i < |arms|
    requires LoopInvariant(h0, before, arms, info, es, h, done, i)
    ensures var now := Awaits(h, arms[i]);
            && HostPath(h, now)
            && LoopInvariant(h0, before, arms, info, es + now, HostAfter(h, now),
                             Then(done, EffectsAfter(h, now, info)), i + 1)
  {
    var now := Awaits(h, arms[i]);
    AwaitsOfNext(h, arms, i);
    Regroup(es, now, AwaitsOf(HostAfter(h, now), arms[i + 1..]));
    HostPathConcat(h0, es, now, info);
    ThenAssociative(before, EffectsAfter(h0, es, info), EffectsAfter(h, now, info));
  }

  class RealmTask {
    const info: RealmInfo
    var connected: bool
    var stdoutOpen: bool
    var stderrOpen: bool
    var io: seq<HostIo>
    var answers: seq<Response>

    constructor (info: RealmInfo)
      ensures this.info == info && !connected && stdoutOpen && stderrOpen && io == [] && answers == []
    {
      this.info := info;
      connected, stdoutOpen, stderrOpen, io, answers := false, true, true, [], [];
    }

    function State(phase: Phase): Host
      reads this
    {
      Host(phase, connected, stdoutOpen, stderrOpen)
    }

    /** What the task has done so far. */
    function Done(): Effects
      reads this
    {
      Effects(io, answers)
    }

    /** `handle_realm`. `requested` is the dispatcher's answer, `arms` the order in which the arms
        become ready, `reaped` the result of the final wait. The phase it ends in is `Returned`, or
        `Selecting` when nothing more happens, or `AwaitingReply` when a reply never comes.

        Every run is a path of the automaton, and the connection and the caller see exactly what
        that path does. */
    method HandleRealm(requested: bool, arms: seq<Arm>, reaped: bool) returns (phase: Phase, ghost path: seq<HostEvent>)
      requires State(Starting) == INITIAL_HOST && Done() == NO_EFFECTS
      modifies this
      ensures HostPath(INITIAL_HOST, path) && HostAfter(INITIAL_HOST, path) == State(phase)
      ensures Done() == EffectsAfter(INITIAL_HOST, path, info)
      ensures phase.Returned? || phase.Selecting? || phase.AwaitingReply?
      ensures !requested ==>
        path == [StreamRequested(false)] && phase == Returned(false) && Done() == NO_EFFECTS
      ensures requested ==>
        var h0 := INITIAL_HOST.(phase := Selecting);
        var es := AwaitsOf(h0, arms);
        if HostAfter(h0, es).phase.Reaping?
        then path == [StreamRequested(true)] + es + [Reaped(reaped)] && phase == Returned(reaped)
        else path == [StreamRequested(true)] + es && phase == HostAfter(h0, es).phase
    {
      OneStep(INITIAL_HOST, StreamRequested(requested), info);
      path := [StreamRequested(requested)];
      if !requested {
        return Returned(false), path;
      }
      ghost var es;
      phase, es := SelectLoop(arms);
      HostPathConcat(INITIAL_HOST, path, es, info);
      ThenAssociative(Done(), Done(), Done());
      path := path + es;
      if phase.Reaping? {
        OneStep(State(Reaping), Reaped(reaped), info);
        HostPathConcat(INITIAL_HOST, path, [Reaped(reaped)], info);
        ThenAssociative(Done(), Done(), Done());
        path := path + [Reaped(reaped)];
        phase := Returned(reaped);
      }
    }

    /** The loop: an arm at a time, until one of them leaves it. */
    method SelectLoop(arms: seq<Arm>) returns (phase: Phase, ghost es: seq<HostEvent>)
      modifies this
      ensures !phase.Starting? && !phase.Answering?
      ensures es == AwaitsOf(old(State(Selecting)), arms)
      ensures State(phase) == HostAfter(old(State(Selecting)), es)
      ensures Done() == Then(old(Done()), EffectsAfter(old(State(Selecting)), es, info))
    {
      ghost var h0, before := State(Selecting), Done();
      ThenAssociative(before, before, before);
      es, phase := [], Selecting;
      var i := 0;
      while i < |arms| && phase.Selecting?
        invariant 0 <= i <= |arms|
        invariant LoopInvariant(h0, before, arms, info, es, State(phase), Done(), i)
      {
        LoopStep(h0, before, arms, info, es, State(phase), Done(), i);
        es := es + Awaits(State(phase), arms[i]);
        phase := ServeArm(arms[i]);
        i := i + 1;
      }
      assert AwaitsOf(h0, arms) == es + [] == es;
    }

    /** The body of one arm: what it does to every field, and that this is what its awaits do. */
    method ServeArm(arm: Arm) returns (phase: Phase)
      modifies this
      ensures var h := old(State(Selecting));
              && HostPath(h, Awaits(h, arm))
              && State(phase) == HostAfter(h, Awaits(h, arm))
              && Done() == Then(old(Done()), EffectsAfter(h, Awaits(h, arm), info))
      ensures connected == (old(connected) || (arm.StreamArm? && arm.received && arm.written))
      ensures stdoutOpen == (old(stdoutOpen) && arm != StdoutArm(Eof))
      ensures stderrOpen == (old(stderrOpen) && arm != StderrArm(Eof))
      ensures !arm.RequestArm? ==>
        && answers == old(answers)
        && io == old(io) + if connected && !old(connected) then [WroteInfo(info)] else []
      ensures arm.RequestArm? && arm.req.None? ==> answers == old(answers) && io == old(io)
      ensures match arm
              case StreamArm(_, _) => phase == if connected then Selecting else Returned(false)
              case TimeoutArm => phase == if connected then Selecting else Reaping
              case WaitArm(ok) => phase == if ok then Reaping else Returned(false)
              case StdoutArm(line) => phase == if old(stdoutOpen) && line == IoError then Returned(false) else Selecting
              case StderrArm(line) => phase == if old(stderrOpen) && line == IoError then Returned(false) else Selecting
              case RequestArm(req, _, _, _) => req.None? ==> phase.Selecting?
    {
      if arm.RequestArm? && arm.req.Some? {
        RequestExpanded(State(Selecting), arm.req.value, arm.written, arm.outcome, arm.sent, info);
      } else {
        ArmExpanded(State(Selecting), arm, info);
      }
      phase := Selecting;
      match arm {
        case StreamArm(received, written) =>
          if !connected {
            if !received || !written { phase := Returned(false); return; }
            io := io + [WroteInfo(info)];
            connected := true;
          }
        case TimeoutArm =>
          if !connected { phase := Reaping; }
        case WaitArm(ok) =>
          phase := if ok then Reaping else Returned(false);
        case StdoutArm(line) =>
          if stdoutOpen {
            if line == IoError { phase := Returned(false); return; }
            if line == Eof { stdoutOpen := false; }
          }
        case StderrArm(line) =>
          if stderrOpen {
            if line == IoError { phase := Returned(false); return; }
            if line == Eof { stderrOpen := false; }
          }
        case RequestArm(None, _, _, _) =>
        case RequestArm(Some(q), written, outcome, sent) =>
          phase := ServeRequest(q, written, outcome, sent);
      }
    }

    /** A request. Without a connection it is refused and nothing is written; with one, the command of
        the same kind and application is written, and the response is `Okay` once a reply has been read.
        The task leaves its loop when a write, the read or the send fails. */
    method ServeRequest(q: Request, written: bool, outcome: ReplyOutcome, sent: bool) returns (phase: Phase)
      modifies this
      ensures var (h, done) := RequestEffect(old(State(Selecting)), q, written, outcome, sent);
              State(phase) == h && Done() == Then(old(Done()), done)
      ensures connected == old(connected) && stdoutOpen == old(stdoutOpen) && stderrOpen == old(stderrOpen)
      ensures io == old(io) +
        if !connected || !written then []
        else
          var c := match q
                   case StartRequest(id) => StartApp(id)
                   case TerminateRequest(id) => TerminateApp(id)
                   case KillRequest(id) => KillApp(id)
                   case ShutdownRequest => Shutdown;
          [WroteCommand(c)] + if outcome.Arrives? then [ReadReply(outcome.reply)] else []
      ensures answers == old(answers) +
        if !sent then [] else if !connected then [RealmNotConnected]
        else if written && outcome.Arrives? then [Okay] else []
      ensures phase ==
        if connected && !written then Returned(false)
        else if connected && outcome.Never? then AwaitingReply
        else if connected && outcome.Fails? then Returned(false)
        else if sent then Selecting else Returned(false)
    {
      var resp := RealmNotConnected;
      if connected {
        if !written { return Returned(false); }
        io := io + [WroteCommand(CommandOf(q))];
        match outcome {
          case Never => return AwaitingReply;
          case Fails => return Returned(false);
          case Arrives(r) => io := io + [ReadReply(r)]; resp := Okay;
        }
      }
      if !sent { return Returned(false); }
      answers := answers + [resp];
      phase := Selecting;
    }
  }
}
