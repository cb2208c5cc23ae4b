/** Which calls over the control connection complete: what happens when nothing fails, the machine
    does not exit and no new call is made. Booting the guest and handling a command are taken to end
    (the one waits for an image registry, the other may wait for a process), and the timer of the
    task may fire at any time. */
module Completion {
  import opened Common
  import opened Messages
  import opened HostTask
  import opened ControlSystem
  import opened ControlProofs

  // ---------------------------------------------------------------- reachable states

  /** What completion needs of a reachable state. */
  ghost predicate Shape(s: State) {
    && LostInv(s) && GuestInv(s) && DeadInv(s) && RequestHeld(s)
    && |s.read| <= |s.far.answered| <= |s.written| <= |s.read| + 1
    && (s.host.phase.AwaitingReply? ==> s.host.connected && |s.written| == |s.read| + 1)
    && (s.host.phase.Selecting? ==> |s.written| == |s.read|)
    && (s.host.phase.Starting? ==> !s.host.connected)
    && s.far.up == (if |s.far.answered| == |s.read| then [] else [ReplyFrame(s.far.answered[|s.read|].1)])
  }

  lemma InvShape(s: State)
    requires Inv(s)
    ensures Shape(s)
  {}

  // ---------------------------------------------------------------- runs without faults

  /** Awaits of the task that complete without a fault and without output of the machine. */
  predicate TaskProceeds(s: State, he: HostEvent) {
    match he
    case StreamResolved(received, written) => received && written
    case TimedOut => !s.host.connected
    case ProcessExited(ok) => ok
    case Reaped(ok) => ok
    case ReplyRead(_) => s.far.guest.Gone? && s.far.up == []   // end of the stream
    case Stdout(_) => false
    case Stderr(_) => false
    case _ => true
  }

  /** Events that need nothing from outside. */
  predicate Productive(s: State, e: Event) {
    match e
    case HostAct(he) => TaskProceeds(s, he)
    case GuestFails => false
    case RealmDies => false
    case CallerCalls(_) => false
    case _ => true
  }

  predicate GoesOn(s: State, es: seq<Event>)
    requires Path(s, es)
    decreases |es|
  {
    es != [] ==> Productive(s, es[0]) && GoesOn(Step(s, es[0]), es[1..])
  }

  ghost predicate Stuck(s: State) {
    forall e | Enabled(s, e) :: !Productive(s, e)
  }

  /** A run of productive events to which none can be added. */
  ghost predicate MaximalRun(s: State, es: seq<Event>) {
    Path(s, es) && GoesOn(s, es) && Stuck(After(s, es))
  }

  // ---------------------------------------------------------------- they are finite

  function CallerWork(c: Caller): nat {
    match c
    case Idle => 0
    case Awaiting(_) => 1
    case Sending(_) => 10
  }

  function TaskWork(h: Host): nat {
    (if h.connected then 0 else 5) +
    match h.phase
    case Starting => 3
    case Selecting => 2
    case AwaitingReply => 4
    case Answering(_) => 4
    case Reaping => 1
    case Returned(_) => 0
  }

  function GuestWork(g: Guest): nat {
    match g
    case Off => 4
    case AwaitingInfo => 3
    case Booting => 2
    case AwaitingCommand => 1
    case Handling(_) => 4
    case Replying(_, _) => 3
    case Gone => 0
  }

  function FarWork(f: Far): nat {
    4 * |f.down| + |f.up| + GuestWork(f.guest)
  }

  function Measure(s: State): nat {
    CallerWork(s.caller) + 8 * |s.requests| + |s.responses| + TaskWork(s.host) + FarWork(s.far)
  }

  lemma ReadIsWork(queue: seq<Frame>, gone: nat, tear: Tear)
    requires CanRead(queue, gone, tear)
    ensures |LeftBehind(queue, gone, tear)| < |queue|
  {}

  lemma HostTakingIsWork(s: State, head: Frame, left: seq<Frame>, lost: bool)
    requires s.host.phase.AwaitingReply? && |left| < |s.far.up|
    ensures Measure(HostTakes(s, head, left, lost)) < Measure(s)
  {}

  lemma GuestTakingIsWork(f: Far, head: Frame, left: seq<Frame>, lost: bool)
    requires (f.guest.AwaitingInfo? || f.guest.AwaitingCommand?) && |left| < |f.down|
    ensures FarWork(GuestTakes(f, head, left, lost)) < FarWork(f)
  {}

  lemma HostReadIsWork(s: State, gone: nat, tear: Tear)
    requires Enabled(s, HostReads(gone, tear))
    ensures Measure(HostReadsFrame(s, gone, tear)) < Measure(s)
  {
    ReadIsWork(s.far.up, gone, tear);
    var left := LeftBehind(s.far.up, gone, tear);
    HostTakingIsWork(s, s.far.up[0], left, OverReads(gone, tear));
  }

  lemma GuestReadIsWork(f: Far, gone: nat, tear: Tear)
    requires (f.guest.AwaitingInfo? || f.guest.AwaitingCommand?) && CanRead(f.down, gone, tear)
    ensures FarWork(GuestReadsFrame(f, gone, tear)) < FarWork(f)
  {
    ReadIsWork(f.down, gone, tear);
    var left := LeftBehind(f.down, gone, tear);
    GuestTakingIsWork(f, f.down[0], left, OverReads(gone, tear));
  }

  lemma TaskStepIsWork(s: State, he: HostEvent)
    requires HostCan(s, he) && TaskProceeds(s, he)
    ensures Measure(HostActs(s, he)) < Measure(s)
  {}

  /** Every productive event uses something up. */
  lemma ProductiveIsWork(s: State, e: Event)
    requires Enabled(s, e) && Productive(s, e)
    ensures Measure(Step(s, e)) < Measure(s)
  {
    match e
    case HostAct(he) => TaskStepIsWork(s, he);
    case HostReads(gone, tear) => HostReadIsWork(s, gone, tear);
    case GuestReads(gone, tear) => GuestReadIsWork(s.far, gone, tear);
    case _ =>
  }

  /** Productive runs are finite. */
  lemma {:induction false} RunsEnd(s: State, es: seq<Event>)
    requires Path(s, es) && GoesOn(s, es)
    ensures |es| + Measure(After(s, es)) <= Measure(s)
    decreases |es|
  {
    if es != [] {
      ProductiveIsWork(s, es[0]);
      RunsEnd(Step(s, es[0]), es[1..]);
    }
  }

  lemma RunStep(s: State, e: Event, rest: seq<Event>)
    requires Enabled(s, e) && Productive(s, e) && MaximalRun(Step(s, e), rest)
    ensures MaximalRun(s, [e] + rest) && After(s, [e] + rest) == After(Step(s, e), rest)
  {
    assert ([e] + rest)[1..] == rest;
  }

  /** From every state there is a maximal run. */
  lemma {:induction false} RunToTheEnd(s: State) returns (es: seq<Event>)
    ensures MaximalRun(s, es)
    decreases Measure(s)
  {
    if Stuck(s) {
      es := [];
    } else {
      var e :| Enabled(s, e) && Productive(s, e);
      ProductiveIsWork(s, e);
      var rest := RunToTheEnd(Step(s, e));
      RunStep(s, e, rest);
      es := [e] + rest;
    }
  }

  // ---------------------------------------------------------------- calls at risk

  /** The guest will never see the whole of the command whose reply the task waits for. */
  predicate Swallowed(s: State) {
    && s.host.phase.AwaitingReply? && s.far.lost
    && (s.far.guest.Booting? || s.far.guest.AwaitingCommand?)
    && (s.far.down == [] || s.far.down == [Torn(false)])
  }

  /** The states in which a call may hang: it has been made and not answered, and
      - the task has left its loop and the machine runs on; or
      - the realm has not connected, so that the timer may end the loop first; or
      - it has connected and the guest has not taken the realm info, so that its reader may take the
        command along; or
      - the command has been swallowed. */
  predicate AtRisk(s: State) {
    && !s.caller.Idle? && s.responses == []
    && match s.host.phase
       case Starting => !s.far.dead
       case Selecting => if s.host.connected then s.far.guest.AwaitingInfo? else !s.far.dead
       case AwaitingReply => s.far.guest.AwaitingInfo? || Swallowed(s)
       case Reaping => !s.far.dead
       case _ => false
  }

  // ---------------------------------------------------------------- safe calls stay safe

  lemma TaskKeepsSafe(s: State, he: HostEvent)
    requires Shape(s) && HostCan(s, he) && !AtRisk(s)
    ensures !AtRisk(HostActs(s, he))
  {}

  lemma HostTakingIsSafe(s: State, head: Frame, left: seq<Frame>, lost: bool)
    requires s.host.phase.AwaitingReply?
    ensures !AtRisk(HostTakes(s, head, left, lost))
  {}

  lemma HostReadKeepsSafe(s: State, e: Event)
    requires Enabled(s, e) && e.HostReads?
    ensures !AtRisk(Step(s, e))
  {
    var left := LeftBehind(s.far.up, e.gone, e.tear);
    HostTakingIsSafe(s, s.far.up[0], left, OverReads(e.gone, e.tear));
  }

  /** The guest can only put a call at risk by coming to wait for the realm info, or by a loss. */
  lemma GuestFarKeepsSafe(s: State, t: State)
    requires !AtRisk(s) && t == s.(far := t.far) && (s.far.dead ==> t.far.dead)
    requires s.host.connected && t.far.guest.AwaitingInfo? ==> s.far.guest.AwaitingInfo?
    requires s.host.phase.AwaitingReply? ==> s.host.connected
    requires s.host.phase.AwaitingReply? && Swallowed(t) ==> s.far.guest.AwaitingInfo? || Swallowed(s)
    ensures !AtRisk(t)
  {}

  lemma GuestReadKeepsSafe(s: State, gone: nat, tear: Tear)
    requires Shape(s) && Enabled(s, GuestReads(gone, tear)) && !AtRisk(s)
    ensures !AtRisk(Step(s, GuestReads(gone, tear)))
  {
    var t := Step(s, GuestReads(gone, tear));
    if s.far.guest.AwaitingCommand? { LeftOfFew(s.far.down, gone, tear); }
    GuestFarKeepsSafe(s, t);
  }

  lemma GuestMoveKeepsSafe(s: State, e: Event)
    requires Shape(s) && Enabled(s, e) && ByGuest(e) && !e.GuestReads? && !AtRisk(s)
    ensures !AtRisk(Step(s, e))
  {
    GuestFarKeepsSafe(s, Step(s, e));
  }

  lemma CallerKeepsSafe(s: State, e: Event)
    requires Shape(s) && Enabled(s, e) && !AtRisk(s)
    requires e.SendAccepted? || e.SendRefused? || e.ResponseTaken? || e.ResponsesEnded?
    ensures !AtRisk(Step(s, e))
  {}

  /** No event but a new call puts a call at risk, faults and the exit of the machine included. */
  lemma SafeStaysSafe(s: State, e: Event)
    requires Shape(s) && Enabled(s, e) && !e.CallerCalls? && !AtRisk(s)
    ensures !AtRisk(Step(s, e))
  {
    if e.GuestReads? {
      GuestReadKeepsSafe(s, e.gone, e.tear);
    } else if ByGuest(e) {
      GuestMoveKeepsSafe(s, e);
    } else if e.HostAct? {
      TaskKeepsSafe(s, e.e);
    } else if e.HostReads? {
      HostReadKeepsSafe(s, e);
    } else {
      CallerKeepsSafe(s, e);
    }
  }

  // ---------------------------------------------------------------- safe calls can go on

  ghost predicate CanGoOn(s: State) {
    exists e :: Enabled(s, e) && Productive(s, e)
  }

  lemma ReplyOnItsWay(s: State)
    requires Shape(s) && s.host.phase.AwaitingReply? && !Swallowed(s)
    ensures CanGoOn(s)
  {
    var read := GuestReads(0, Clean);
    if s.far.up != [] {
      assert Enabled(s, HostReads(0, Clean)) && Productive(s, HostReads(0, Clean));
    } else {
      assert |s.far.answered| == |s.read| < |s.written|;
      match s.far.guest
      case AwaitingInfo => assert Enabled(s, read) && Productive(s, read);
      case Booting => assert Enabled(s, GuestBoots) && Productive(s, GuestBoots);
      case AwaitingCommand => assert Enabled(s, read) && Productive(s, read);
      case Handling(c) =>
        var r := if c.TerminateApp? || c.KillApp? then ExitStatus(0) else Done;
        assert Enabled(s, GuestHandles(r)) && Productive(s, GuestHandles(r));
      case Replying(_, _) => assert Enabled(s, GuestReplies) && Productive(s, GuestReplies);
      case Gone =>
        var e := HostAct(ReplyRead(None));
        assert Enabled(s, e) && Productive(s, e);
    }
  }

  lemma TaskGoesOn(s: State)
    requires Shape(s) && s.caller.Awaiting? && s.responses == [] && !AtRisk(s)
    ensures CanGoOn(s)
  {
    if s.host.phase.AwaitingReply? {
      ReplyOnItsWay(s);
    } else if s.host.phase.Returned? {
      assert Enabled(s, ResponsesEnded) && Productive(s, ResponsesEnded);
    } else {
      var he :=
        if s.host.phase.Starting? then StreamRequested(true)
        else if s.host.phase.Selecting? then RequestTaken(s.caller.req, true)
        else if s.host.phase.Answering? then AnswerSent(true)
        else Reaped(true);
      assert HostCan(s, he);
      assert Enabled(s, HostAct(he)) && Productive(s, HostAct(he));
    }
  }

  lemma SafeGoesOn(s: State)
    requires Shape(s) && !s.caller.Idle? && !AtRisk(s)
    ensures CanGoOn(s)
  {
    if s.caller.Sending? {
      var e := if s.host.phase.Returned? then SendRefused else SendAccepted;
      assert Enabled(s, e) && Productive(s, e);
    } else if s.responses != [] {
      assert Enabled(s, ResponseTaken) && Productive(s, ResponseTaken);
    } else {
      TaskGoesOn(s);
    }
  }

  /** Every maximal run from a state in which no call is at risk ends with no call under way. */
  lemma {:induction false} SafeCallsComplete(s: State, es: seq<Event>)
    requires Inv(s) && !AtRisk(s) && MaximalRun(s, es)
    ensures After(s, es).caller.Idle?
    decreases |es|
  {
    InvShape(s);
    if es == [] {
      if !s.caller.Idle? { SafeGoesOn(s); }
    } else {
      StepKeepsInv(s, es[0]);
      SafeStaysSafe(s, es[0]);
      SafeCallsComplete(Step(s, es[0]), es[1..]);
    }
  }

  // ---------------------------------------------------------------- calls at risk can hang

  /** A task outside its loop with the machine running: nothing productive changes that. */
  lemma LeftStaysAtRisk(s: State, e: Event)
    requires Shape(s) && AtRisk(s) && s.host.phase.Reaping? && Enabled(s, e) && Productive(s, e)
    ensures AtRisk(Step(s, e))
  {
    if ByGuest(e) { GuestFrame(s, e); }
  }

  lemma SwallowedIsStuck(s: State, e: Event)
    requires Shape(s) && AtRisk(s) && Swallowed(s) && s.far.guest.AwaitingCommand? && Enabled(s, e)
    ensures !Productive(s, e)
  {}

  /** The event by which a task that has not left its loop stays at risk. */
  function Risky(s: State): Event
    requires AtRisk(s)
  {
    if s.caller.Sending? then SendAccepted
    else if s.host.phase.Starting? then HostAct(StreamRequested(true))
    else if s.host.phase.AwaitingReply? then
      if s.far.guest.AwaitingInfo? then GuestReads(1, Clean) else GuestBoots
    else if s.host.connected then HostAct(RequestTaken(s.caller.req, true))
    else HostAct(TimedOut)
  }

  lemma RiskyKeepsRisk(s: State)
    requires Shape(s) && AtRisk(s) && !s.host.phase.Reaping?
    requires !(Swallowed(s) && s.far.guest.AwaitingCommand?)
    ensures var e := Risky(s); Enabled(s, e) && Productive(s, e) && AtRisk(Step(s, e))
  {
    if s.host.phase.AwaitingReply? && s.far.guest.AwaitingInfo? {
      assert s.far.down == [InfoFrame(s.info)] + Unanswered(s);
      assert LeftBehind(s.far.down, 1, Clean) == [];
    }
  }

  lemma RiskContinues(s: State) returns (e: Event)
    requires Shape(s) && AtRisk(s) && !Stuck(s)
    ensures Enabled(s, e) && Productive(s, e) && AtRisk(Step(s, e))
  {
    e :| Enabled(s, e) && Productive(s, e);
    if s.host.phase.Reaping? {
      LeftStaysAtRisk(s, e);
    } else {
      if Swallowed(s) && s.far.guest.AwaitingCommand? { SwallowedIsStuck(s, e); }
      RiskyKeepsRisk(s);
      e := Risky(s);
    }
  }

  lemma {:induction false} RiskyRun(s: State) returns (es: seq<Event>)
    requires Inv(s) && AtRisk(s)
    ensures MaximalRun(s, es) && !After(s, es).caller.Idle?
    decreases Measure(s)
  {
    if Stuck(s) {
      es := [];
    } else {
      InvShape(s);
      var e := RiskContinues(s);
      StepKeepsInv(s, e);
      ProductiveIsWork(s, e);
      var rest := RiskyRun(Step(s, e));
      RunStep(s, e, rest);
      es := [e] + rest;
    }
  }

  /** The exact condition: from a reachable state every maximal run ends with the call under way
      completed if and only if it is not at risk. */
  lemma CallsCompleteExactly(info: RealmInfo, es: seq<Event>)
    requires Path(Initial(info), es)
    ensures var s := After(Initial(info), es);
            (forall more | MaximalRun(s, more) :: After(s, more).caller.Idle?) <==> !AtRisk(s)
  {
    Reachable(info, es);
    var s := After(Initial(info), es);
    if AtRisk(s) {
      var more := RiskyRun(s);
    } else {
      forall more | MaximalRun(s, more) ensures After(s, more).caller.Idle? {
        SafeCallsComplete(s, more);
      }
    }
  }

  // ---------------------------------------------------------------- a command sent too early

  lemma EarlyCommandRead(s: State, gone: nat, tear: Tear)
    requires Shape(s) && s.host.phase.AwaitingReply? && CommandAheadOfInfo(s) && Enabled(s, GuestReads(gone, tear))
    ensures !AtRisk(Step(s, GuestReads(gone, tear))) <==> gone == 0 && !tear.Starved?
  {
    assert |s.far.down| == 2 && s.far.down[1..] == Unanswered(s);
    LeftOfFew(s.far.down, gone, tear);
    assert [s.far.down[1]] == Unanswered(s);
    assert s.far.down[1].CommandFrame?;
  }

  /** A command is on its way behind the realm info and the guest reads. The call is safe from then
      on if and only if the reader leaves the command whole, or leaves so much of it that the next
      reader refuses it. */
  lemma FateOfEarlyCommand(info: RealmInfo, es: seq<Event>, gone: nat, tear: Tear)
    requires Path(Initial(info), es)
    requires var s := After(Initial(info), es);
             s.host.phase.AwaitingReply? && CommandAheadOfInfo(s) && Enabled(s, GuestReads(gone, tear))
    ensures var t := Step(After(Initial(info), es), GuestReads(gone, tear));
            !AtRisk(t) <==> gone == 0 && !tear.Starved?
  {
    Reachable(info, es);
    InvShape(After(Initial(info), es));
    EarlyCommandRead(After(Initial(info), es), gone, tear);
  }

  /** Of a call whose command was lost without being swallowed: it completes in every maximal run, and
      does not succeed. */
  lemma RefusedCallFails(info: RealmInfo, es: seq<Event>, more: seq<Event>)
    requires Path(Initial(info), es)
    requires var s := After(Initial(info), es); s.far.lost && !Swallowed(s) && s.host.phase.AwaitingReply?
    requires MaximalRun(After(Initial(info), es), more)
    ensures var t := After(After(Initial(info), es), more); t.caller.Idle? && Successes(t.calls) == []
  {
    Reachable(info, es);
    var s := After(Initial(info), es);
    SafeCallsComplete(s, more);
    LossIsFatal(s, more);
  }

  /** The run in which a call is made as soon as the realm has connected, and the guest's reader takes
      `gone` frames and more along with the realm info. */
  function EarlyCall(q: Request, gone: nat, tear: Tear): seq<Event> {
    [HostAct(StreamRequested(true)), GuestConnects, HostAct(StreamResolved(true, true))] +
    ([CallerCalls(q), SendAccepted, HostAct(RequestTaken(q, true))] +
     [GuestReads(gone, tear), GuestBoots])
  }

  lemma PathStep(s: State, e: Event, es: seq<Event>)
    requires Enabled(s, e) && Path(Step(s, e), es)
    ensures Path(s, [e] + es) && After(s, [e] + es) == After(Step(s, e), es)
  {}

  /** The states of that run: connected, the command written, the guest waiting for a command. */
  function Connected(info: RealmInfo): State {
    State(info, Host(Selecting, true, true, true), Idle, [], [], [WroteInfo(info)], [], [], [],
          Far(AwaitingInfo, false, [InfoFrame(info)], [], [], false, false))
  }

  function Commanded(info: RealmInfo, q: Request): State {
    State(info, Host(AwaitingReply, true, true, true), Awaiting(q), [], [],
          [WroteInfo(info), WroteCommand(CommandOf(q))], [CommandOf(q)], [], [],
          Far(AwaitingInfo, false, [InfoFrame(info), CommandFrame(CommandOf(q))], [], [], false, false))
  }

  function Hanging(info: RealmInfo, q: Request, left: seq<Frame>): State {
    Commanded(info, q).(far := Far(AwaitingCommand, false, left, [], [], true, false))
  }

  lemma ThreeEvents(s: State, e: Event, s1: State, f: Event, s2: State, g: Event, t: State, es: seq<Event>)
    requires Enabled(s, e) && Step(s, e) == s1
    requires Enabled(s1, f) && Step(s1, f) == s2
    requires Enabled(s2, g) && Step(s2, g) == t && Path(t, es)
    ensures Path(s, [e, f, g] + es) && After(s, [e, f, g] + es) == After(t, es)
  {
    PathStep(s2, g, es);
    PathStep(s1, f, [g] + es);
    PathStep(s, e, [f] + ([g] + es));
    assert [e] + ([f] + ([g] + es)) == [e, f, g] + es;
  }

  lemma Connects(info: RealmInfo, es: seq<Event>)
    requires Path(Connected(info), es)
    ensures var first := [HostAct(StreamRequested(true)), GuestConnects, HostAct(StreamResolved(true, true))];
            Path(Initial(info), first + es) && After(Initial(info), first + es) == After(Connected(info), es)
  {
    var s := Initial(info);
    var s1 := s.(host := INITIAL_HOST.(phase := Selecting));
    var s2 := s1.(far := s.far.(guest := AwaitingInfo));
    ThreeEvents(s, HostAct(StreamRequested(true)), s1, GuestConnects, s2, HostAct(StreamResolved(true, true)),
      Connected(info), es);
  }

  lemma Commands(info: RealmInfo, q: Request, es: seq<Event>)
    requires Path(Commanded(info, q), es)
    ensures var first := [CallerCalls(q), SendAccepted, HostAct(RequestTaken(q, true))];
            Path(Connected(info), first + es) && After(Connected(info), first + es) == After(Commanded(info, q), es)
  {
    var s := Connected(info);
    var s1, s2 := s.(caller := Sending(q)), s.(caller := Awaiting(q), requests := [q]);
    ThreeEvents(s, CallerCalls(q), s1, SendAccepted, s2, HostAct(RequestTaken(q, true)), Commanded(info, q), es);
  }

  lemma Hangs(info: RealmInfo, q: Request, gone: nat, tear: Tear)
    requires (gone, tear) == (1, Clean) || (gone, tear) == (0, Starved)
    ensures var last := [GuestReads(gone, tear), GuestBoots];
            && Path(Commanded(info, q), last)
            && After(Commanded(info, q), last) == Hanging(info, q, if tear.Clean? then [] else [Torn(false)])
  {
    var s, left := Commanded(info, q), if tear.Clean? then [] else [Torn(false)];
    LeftOfFew(s.far.down, gone, tear);
    assert Step(s, GuestReads(gone, tear)).far == s.far.(guest := Booting, down := left, lost := true);
    PathStep(s, GuestReads(gone, tear), [GuestBoots]);
  }

  /** The call that hangs: whether the command goes with the reader or only its beginning does and what
      is left is too little to decide on, nothing productive is left to happen. */
  lemma EarlyCallHangs(info: RealmInfo, q: Request, gone: nat, tear: Tear)
    requires (gone, tear) == (1, Clean) || (gone, tear) == (0, Starved)
    ensures Path(Initial(info), EarlyCall(q, gone, tear))
    ensures var s := After(Initial(info), EarlyCall(q, gone, tear)); s.caller == Awaiting(q) && Stuck(s)
  {
    var last := [GuestReads(gone, tear), GuestBoots];
    Hangs(info, q, gone, tear);
    Commands(info, q, last);
    Connects(info, [CallerCalls(q), SendAccepted, HostAct(RequestTaken(q, true))] + last);
    Reachable(info, EarlyCall(q, gone, tear));
    var s := After(Initial(info), EarlyCall(q, gone, tear));
    InvShape(s);
    forall e | Enabled(s, e) ensures !Productive(s, e) { SwallowedIsStuck(s, e); }
  }
}
