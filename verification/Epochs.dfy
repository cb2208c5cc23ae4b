/** A launcher over its whole life: launches, requests and the supervisors of all processes it has
    started, in every interleaving (image/handler/src/docker/launcher.rs). A launch replaces both
    channels; the supervisor of an earlier launch keeps running on the old ones. `launch` and
    `send_request` borrow the launcher exclusively, so a launch never overlaps a request. */
module Epochs {
  import opened Common
  import opened Supervisor

  /** What SIGTERM does to a process: it ends it, nothing, or it makes it write some more lines and
      then exit. */
  datatype Reaction = Dies | Ignores | WindsUp(outLines: nat, errLines: nat)

  /** A process: the lines it is still going to write to its pipes, counting those written and not
      read; how many unread lines a pipe holds; and whether it exits by itself after the last line. */
  datatype Child = Child(outLines: nat, errLines: nat, room: nat, ends: bool, onTerm: Reaction)

  /** One launch: its supervisor, its process (its exit status once it has exited, and whether a
      signal has ended it) and the contents of its two channels. */
  datatype Epoch = Epoch(
    handler: Handler,
    exit: Option<int>,
    child: Child,
    doomed: bool,
    request: Option<Request>,
    response: Option<int>)

  datatype Caller = Idle | Sending(req: Request) | Awaiting(req: Request)

  datatype Outcome = Status(status: int) | NotRunning | SendFailed | ChannelClosed

  /** A completed call and the number of launches at that time. */
  datatype Call = Call(launches: nat, outcome: Outcome)

  datatype State = State(epochs: seq<Epoch>, caller: Caller, calls: seq<Call>)

  const INITIAL := State([], Idle, [])

  datatype Event =
    | Launches(child: Child)
    | Calls(req: Request)
    | SendAccepted
    | SendRefused
    | ResponseTaken
    | ChannelEnds
    | Acts(i: nat, e: HandlerEvent)
    | Exits(i: nat, status: int)

  function FreshEpoch(child: Child): Epoch {
    Epoch(FRESH_HANDLER, None, child, false, None, None)
  }

  /** The pipes take everything that is still to come, though nobody reads. */
  predicate Fits(c: Child) {
    c.outLines <= c.room && c.errLines <= c.room
  }

  /** A process exits when a signal has ended it, or by itself when it has written everything: when
      the pipes take it, or when they have been closed and writing fails. */
  predicate CanExit(ep: Epoch) {
    ep.exit.None? && (ep.doomed || (ep.child.ends && (ep.handler.phase.Ended? || Fits(ep.child))))
  }

  /** What the signal of a request does to the process. */
  function Signalled(c: Child, q: Request): Child {
    if SignalOf(q) == Some(SigTerm) && c.onTerm.WindsUp? then
      c.(outLines := c.outLines + c.onTerm.outLines, errLines := c.errLines + c.onTerm.errLines, ends := true)
    else c
  }

  predicate Lethal(c: Child, q: Request) {
    SignalOf(q) == Some(SigKill) || (SignalOf(q) == Some(SigTerm) && c.onTerm.Dies?)
  }

  /** What the supervisor of an epoch can do. `current`: the launcher holds its channels. Waiting
      ends when the process has exited; end of file comes after the last line. */
  predicate CanAct(ep: Epoch, current: bool, e: HandlerEvent) {
    && HandlerReady(ep.handler, e)
    && match e
       case Taken(q, _) => ep.request == Some(q)
       case Hangup => !current && ep.request.None?
       case StdoutLine(line) => (line.Text? ==> ep.child.outLines > 0) && (line.Eof? ==> ep.child.outLines == 0)
       case StderrLine(line) => (line.Text? ==> ep.child.errLines > 0) && (line.Eof? ==> ep.child.errLines == 0)
       case Exited(status) => status.Some? ==> status == ep.exit
       case Waited(status) => status.Some? ==> status == ep.exit
       case Sent(ok) => ok == current && (current ==> ep.response.None?)
  }

  function Act(ep: Epoch, e: HandlerEvent): Epoch
    requires HandlerReady(ep.handler, e)
  {
    var h := HandlerStep(ep.handler, e);
    var request := if h.phase.Ended? || e.Taken? then None else ep.request;
    match e
    case Taken(q, true) =>
      ep.(handler := h, request := request, child := Signalled(ep.child, q), doomed := ep.doomed || Lethal(ep.child, q))
    case StdoutLine(Text) =>
      var c := ep.child;
      ep.(handler := h, request := request, child := c.(outLines := if c.outLines > 0 then c.outLines - 1 else 0))
    case StderrLine(Text) =>
      var c := ep.child;
      ep.(handler := h, request := request, child := c.(errLines := if c.errLines > 0 then c.errLines - 1 else 0))
    case Sent(true) => ep.(handler := h, request := request, response := Some(ep.handler.phase.status))
    case _ => ep.(handler := h, request := request)
  }

  function Last(s: State): Epoch
    requires s.epochs != []
  {
    s.epochs[|s.epochs| - 1]
  }

  predicate Enabled(s: State, e: Event) {
    match e
    case Launches(_) => s.caller.Idle?
    case Calls(_) => s.caller.Idle?
    case SendAccepted => s.caller.Sending? && s.epochs != [] && !Last(s).handler.phase.Ended? && Last(s).request.None?
    case SendRefused => s.caller.Sending? && s.epochs != [] && Last(s).handler.phase.Ended?
    case ResponseTaken => s.caller.Awaiting? && s.epochs != [] && Last(s).response.Some?
    case ChannelEnds => s.caller.Awaiting? && s.epochs != [] && Last(s).response.None? && Last(s).handler.phase.Ended?
    case Acts(i, he) => i < |s.epochs| && CanAct(s.epochs[i], i == |s.epochs| - 1, he)
    case Exits(i, _) => i < |s.epochs| && CanExit(s.epochs[i])
  }

  function Completed(s: State, o: Outcome): State {
    s.(caller := Idle, calls := s.calls + [Call(|s.epochs|, o)])
  }

  function SetLast(s: State, ep: Epoch): State
    requires s.epochs != []
  {
    s.(epochs := s.epochs[|s.epochs| - 1 := ep])
  }

  function Step(s: State, e: Event): State
    requires Enabled(s, e)
  {
    match e
    case Launches(c) => s.(epochs := s.epochs + [FreshEpoch(c)])
    case Calls(q) => if s.epochs == [] then Completed(s, NotRunning) else s.(caller := Sending(q))
    case SendAccepted => SetLast(s, Last(s).(request := Some(s.caller.req))).(caller := Awaiting(s.caller.req))
    case SendRefused => Completed(s, SendFailed)
    case ResponseTaken => Completed(SetLast(s, Last(s).(response := None)), Status(Last(s).response.value))
    case ChannelEnds => Completed(s, ChannelClosed)
    case Acts(i, he) => s.(epochs := s.epochs[i := Act(s.epochs[i], he)])
    case Exits(i, status) => s.(epochs := s.epochs[i := s.epochs[i].(exit := Some(status))])
  }

  predicate Path(s: State, es: seq<Event>)
    decreases |es|
  {
    es != [] ==> Enabled(s, es[0]) && Path(Step(s, es[0]), es[1..])
  }

  function After(s: State, es: seq<Event>): State
    requires Path(s, es)
    decreases |es|
  {
    if es == [] then s else After(Step(s, es[0]), es[1..])
  }

  // ---------------------------------------------------------------- epoch safety

  /** A supervisor nobody waits for: it holds no request and owes no status. */
  predicate Unused(ep: Epoch) {
    ep.request.None? && ep.response.None? && (ep.handler.phase.Serving? || ep.handler.phase.Ended?)
  }

  /** Statuses on their way are the exit status of the process; a supervisor that delivers has ended. */
  predicate Honest(ep: Epoch) {
    && (ep.handler.phase.Responding? ==> ep.exit == Some(ep.handler.phase.status))
    && (ep.response.Some? ==> ep.exit == ep.response && ep.handler.phase.Ended?)
  }

  ghost predicate EpochsInv(s: State) {
    && (forall i | 0 <= i < |s.epochs| :: Honest(s.epochs[i]))
    && (forall i | 0 <= i < |s.epochs| - 1 :: Unused(s.epochs[i]))
    && (!s.caller.Idle? ==> s.epochs != [])
    && (s.epochs != [] && !s.caller.Awaiting? ==> Unused(Last(s)))
    && (s.epochs != [] && s.caller.Awaiting? ==>
          var ep := Last(s);
          && (ep.request.Some? ==> ep.handler.phase.Serving? && ep.response.None?)
          && (ep.handler.phase.Serving? ==> ep.request == Some(s.caller.req))
          && (ep.handler.phase.Reaping? && Lethal(ep.child, s.caller.req) ==> ep.doomed))
  }

  ghost predicate Inv(s: State) {
    EpochsInv(s) && CallsInv(s)
  }

  ghost predicate CallsInv(s: State) {
    && (forall i | 0 <= i < |s.calls| :: s.calls[i].launches <= |s.epochs|)
    && (forall i | 0 <= i < |s.calls| :: s.calls[i].outcome.NotRunning? <==> s.calls[i].launches == 0)
    && (forall i | 0 <= i < |s.calls| && s.calls[i].outcome.Status? ::
          && s.calls[i].launches > 0
          && s.epochs[s.calls[i].launches - 1].exit == Some(s.calls[i].outcome.status)
          && s.epochs[s.calls[i].launches - 1].handler.phase.Ended?
          && (s.calls[i].launches == |s.epochs| ==> !s.caller.Awaiting?))
    && (forall i, j | 0 <= i < j < |s.calls| :: s.calls[i].launches <= s.calls[j].launches)
    && (forall i, j | 0 <= i < j < |s.calls| && s.calls[i].outcome.Status? && s.calls[j].outcome.Status? ::
          s.calls[i].launches < s.calls[j].launches)
  }

  lemma ActKeepsHonest(ep: Epoch, current: bool, e: HandlerEvent)
    requires Honest(ep) && CanAct(ep, current, e)
    ensures Honest(Act(ep, e))
    ensures ep.exit == Act(ep, e).exit
    ensures !ep.handler.phase.Ended?
    ensures Unused(ep) ==> Unused(Act(ep, e))
  {}

  /** An epoch changes and keeps what calls have reported of it. */
  lemma CallsInvFrame(s: State, i: nat, ep: Epoch)
    requires CallsInv(s) && i < |s.epochs|
    requires s.epochs[i].exit.Some? ==> ep.exit == s.epochs[i].exit
    requires s.epochs[i].handler.phase.Ended? ==> ep.handler.phase.Ended?
    ensures CallsInv(s.(epochs := s.epochs[i := ep]))
  {}

  /** An epoch changes so that its supervisor stays honest and, if nobody waits for it, unused. */
  lemma EpochsInvFrame(s: State, i: nat, ep: Epoch)
    requires EpochsInv(s) && i < |s.epochs| && Honest(ep)
    requires Unused(s.epochs[i]) ==> Unused(ep)
    requires ep.request.Some? ==> ep.handler.phase.Serving? && ep.request == s.epochs[i].request
    requires ep.handler.phase.Serving? ==> s.epochs[i].handler.phase.Serving? && ep.request == s.epochs[i].request
    requires ep.handler.phase.Reaping? ==>
               || (s.epochs[i].handler.phase.Reaping? && ep.doomed == s.epochs[i].doomed)
               || (s.epochs[i].handler.phase.Serving? && s.epochs[i].request.Some?
                   && (Lethal(ep.child, s.epochs[i].request.value) ==> ep.doomed))
    requires ep.child.onTerm == s.epochs[i].child.onTerm
    requires ep.response.None? || s.epochs[i].response == ep.response || ep.request.None?
    ensures EpochsInv(s.(epochs := s.epochs[i := ep]))
  {}

  lemma ActKeepsInv(s: State, i: nat, he: HandlerEvent)
    requires Inv(s) && Enabled(s, Acts(i, he))
    ensures Inv(Step(s, Acts(i, he)))
  {
    ActKeepsHonest(s.epochs[i], i == |s.epochs| - 1, he);
    CallsInvFrame(s, i, Act(s.epochs[i], he));
    EpochsInvFrame(s, i, Act(s.epochs[i], he));
  }

  lemma ExitKeepsInv(s: State, i: nat, status: int)
    requires Inv(s) && Enabled(s, Exits(i, status))
    ensures Inv(Step(s, Exits(i, status)))
  {
    CallsInvFrame(s, i, s.epochs[i].(exit := Some(status)));
    EpochsInvFrame(s, i, s.epochs[i].(exit := Some(status)));
  }

  lemma LaunchKeepsInv(s: State, c: Child)
    requires Inv(s) && s.caller.Idle?
    ensures Inv(Step(s, Launches(c)))
  {}

  /** A call completes with the status of the latest launch, which has answered none before. */
  lemma StatusKeepsCalls(s: State, t: State, status: int)
    requires CallsInv(s) && s.caller.Awaiting? && s.epochs != []
    requires Last(s).exit == Some(status) && Last(s).handler.phase.Ended?
    requires t.calls == s.calls + [Call(|s.epochs|, Status(status))] && t.caller.Idle?
    requires t.epochs == s.epochs[|s.epochs| - 1 := Last(s).(response := None)]
    ensures CallsInv(t)
  {}

  lemma StatusKeepsEpochs(s: State, t: State)
    requires EpochsInv(s) && s.caller.Awaiting? && Last(s).handler.phase.Ended? && t.caller.Idle?
    requires t.epochs == s.epochs[|s.epochs| - 1 := Last(s).(response := None)]
    ensures EpochsInv(t)
  {}

  lemma ResponseKeepsInv(s: State)
    requires Inv(s) && Enabled(s, ResponseTaken)
    ensures Inv(Step(s, ResponseTaken))
  {
    assert Honest(Last(s));
    StatusKeepsCalls(s, Step(s, ResponseTaken), Last(s).response.value);
    StatusKeepsEpochs(s, Step(s, ResponseTaken));
  }

  lemma CallKeepsInv(s: State, q: Request)
    requires Inv(s) && s.caller.Idle?
    ensures Inv(Step(s, Calls(q)))
  {}

  lemma SendKeepsInv(s: State)
    requires Inv(s) && Enabled(s, SendAccepted)
    ensures Inv(Step(s, SendAccepted))
  {
    var t := Step(s, SendAccepted);
    assert forall k | 0 <= k < |s.epochs| - 1 :: t.epochs[k] == s.epochs[k];
    assert Last(t) == Last(s).(request := Some(s.caller.req));
  }

  lemma FailureKeepsInv(s: State, o: Outcome)
    requires Inv(s) && !s.caller.Idle? && Last(s).handler.phase.Ended? && Last(s).response.None?
    requires !o.Status? && !o.NotRunning?
    ensures Inv(Completed(s, o))
  {}

  lemma StepKeepsInv(s: State, e: Event)
    requires Inv(s) && Enabled(s, e)
    ensures Inv(Step(s, e))
  {
    match e
    case Launches(c) => LaunchKeepsInv(s, c);
    case Acts(i, he) => ActKeepsInv(s, i, he);
    case Exits(i, status) => ExitKeepsInv(s, i, status);
    case ResponseTaken => ResponseKeepsInv(s);
    case Calls(q) => CallKeepsInv(s, q);
    case SendAccepted => SendKeepsInv(s);
    case SendRefused => FailureKeepsInv(s, SendFailed);
    case ChannelEnds => FailureKeepsInv(s, ChannelClosed);
  }

  lemma {:induction false} PathKeepsInv(s: State, es: seq<Event>)
    requires Inv(s) && Path(s, es)
    ensures Inv(After(s, es))
    decreases |es|
  {
    if es != [] {
      StepKeepsInv(s, es[0]);
      PathKeepsInv(Step(s, es[0]), es[1..]);
    }
  }

  /** On every interleaving of launches, requests and supervisors, a status that a call returns is the
      exit status of the process started by the latest launch before that call, and no launch answers
      two calls with a status. Exactly the calls made before the first launch say that nothing runs. */
  lemma StatusIsOfLatestLaunch(es: seq<Event>)
    requires Path(INITIAL, es)
    ensures var s := After(INITIAL, es);
            && (forall i | 0 <= i < |s.calls| && s.calls[i].outcome.Status? ::
                  && 0 < s.calls[i].launches <= |s.epochs|
                  && s.epochs[s.calls[i].launches - 1].exit == Some(s.calls[i].outcome.status))
            && (forall i, j | 0 <= i < j < |s.calls| && s.calls[i].outcome.Status? && s.calls[j].outcome.Status? ::
                  s.calls[i].launches < s.calls[j].launches)
            && (forall i | 0 <= i < |s.calls| :: s.calls[i].outcome.NotRunning? <==> s.calls[i].launches == 0)
  {
    PathKeepsInv(INITIAL, es);
  }

  /** The supervisor of an earlier launch can deliver nothing: its channels are empty, it never takes a
      request, waits for one or sends a status; it only logs and ends. */
  lemma EarlierLaunchesAreSilent(es: seq<Event>, i: nat, he: HandlerEvent)
    requires Path(INITIAL, es) && i + 1 < |After(INITIAL, es).epochs|
    ensures var ep := After(INITIAL, es).epochs[i];
            && ep.request.None? && ep.response.None?
            && (CanAct(ep, false, he) ==> he.Hangup? || he.StdoutLine? || he.StderrLine? || he.Exited?)
  {
    PathKeepsInv(INITIAL, es);
    assert Unused(After(INITIAL, es).epochs[i]);
  }

  /** What the outcome of a call says about the step that completes it. */
  lemma OutcomeTellsWhy(s: State, e: Event)
    requires Enabled(s, e)
    ensures var t := Step(s, e);
            || t.calls == s.calls
            || (&& t.caller.Idle? && |t.calls| == |s.calls| + 1 && s.calls <= t.calls
                && t.calls[|s.calls|].launches == |s.epochs|
                && match t.calls[|s.calls|].outcome
                   case NotRunning => s.epochs == []
                   case Status(n) => s.caller.Awaiting? && s.epochs != [] && Last(s).response == Some(n)
                   case SendFailed => s.caller.Sending? && s.epochs != [] && Last(s).handler.phase.Ended?
                   case ChannelClosed =>
                     s.caller.Awaiting? && s.epochs != [] && Last(s).response.None? && Last(s).handler.phase.Ended?)
  {}

  // ---------------------------------------------------------------- runs are finite

  predicate Internal(e: Event) { !e.Launches? && !e.Calls? }

  function PhaseWork(p: Phase): nat {
    match p
    case Serving => 3
    case Reaping => 2
    case Responding(_) => 1
    case Ended(_) => 0
  }

  /** Lines to come, also those SIGTERM may bring about. */
  function LinesLeft(ep: Epoch): nat {
    ep.child.outLines + ep.child.errLines +
    if ep.handler.phase.Serving? && ep.child.onTerm.WindsUp? then ep.child.onTerm.outLines + ep.child.onTerm.errLines
    else 0
  }

  /** Lines to come, open pipes, an exit to come, phases to go through. */
  function Work(ep: Epoch): nat {
    LinesLeft(ep) + (if ep.handler.outOpen then 1 else 0) + (if ep.handler.errOpen then 1 else 0) +
    (if ep.exit.None? then 1 else 0) + PhaseWork(ep.handler.phase)
  }

  function TotalWork(eps: seq<Epoch>): nat {
    if eps == [] then 0 else TotalWork(eps[..|eps| - 1]) + Work(eps[|eps| - 1])
  }

  function Measure(s: State): nat {
    TotalWork(s.epochs) + (match s.caller case Idle => 0 case Awaiting(_) => 1 case Sending(_) => 2)
  }

  lemma {:induction false} ReplaceWork(eps: seq<Epoch>, i: nat, ep: Epoch)
    requires i < |eps|
    ensures TotalWork(eps[i := ep]) == TotalWork(eps) - Work(eps[i]) + Work(ep)
  {
    var n := |eps| - 1;
    if i == n {
      assert eps[i := ep][..n] == eps[..n];
    } else {
      assert eps[i := ep][..n] == eps[..n][i := ep];
      ReplaceWork(eps[..n], i, ep);
    }
  }

  lemma ActingIsWork(ep: Epoch, current: bool, e: HandlerEvent)
    requires CanAct(ep, current, e)
    ensures Work(Act(ep, e)) < Work(ep)
  {}

  lemma ReplaceMeasure(s: State, i: nat, ep: Epoch)
    requires i < |s.epochs|
    ensures Measure(s.(epochs := s.epochs[i := ep])) == Measure(s) - Work(s.epochs[i]) + Work(ep)
  {
    ReplaceWork(s.epochs, i, ep);
  }

  /** Every event but a launch or a new call uses something up. */
  lemma StepIsWork(s: State, e: Event)
    requires Enabled(s, e) && Internal(e)
    ensures Measure(Step(s, e)) < Measure(s)
  {
    match e
    case Acts(i, he) =>
      ActingIsWork(s.epochs[i], i == |s.epochs| - 1, he);
      ReplaceMeasure(s, i, Act(s.epochs[i], he));
    case Exits(i, status) => ReplaceMeasure(s, i, s.epochs[i].(exit := Some(status)));
    case SendAccepted => ReplaceMeasure(s, |s.epochs| - 1, Last(s).(request := Some(s.caller.req)));
    case ResponseTaken => ReplaceMeasure(s, |s.epochs| - 1, Last(s).(response := None));
    case _ =>
  }

  // ---------------------------------------------------------------- calls return

  /** Events that happen without a fault. */
  predicate Faultless(e: Event) {
    match e
    case Launches(_) => false
    case Calls(_) => false
    case Acts(_, Taken(_, signalled)) => signalled
    case Acts(_, StdoutLine(line)) => !line.IoError?
    case Acts(_, StderrLine(line)) => !line.IoError?
    case Acts(_, Exited(status)) => status.Some?
    case Acts(_, Waited(status)) => status.Some?
    case _ => true
  }

  ghost predicate Stuck(s: State) {
    forall e | Enabled(s, e) :: !Faultless(e)
  }

  /** A run without faults, launches and new calls to which no event can be added. */
  ghost predicate MaximalRun(s: State, es: seq<Event>) {
    Path(s, es) && (forall e <- es :: Faultless(e)) && Stuck(After(s, es))
  }

  /** Waiting for this process may take for ever when nobody reads its output. */
  predicate MayNotExit(c: Child) {
    !c.ends || c.outLines > c.room || c.errLines > c.room
  }

  /** The states in which a call may hang: it has no status yet, the process has neither exited nor been
      ended by a signal, and once the supervisor has stopped reading it does not exit. A wait, or a stop
      that the process ignores, hangs if the process does not end by itself or has more to write than
      its pipes hold; a stop that makes it wind up, if they do not hold what it then writes; a kill never
      does. */
  predicate MayHang(s: State)
    requires !s.caller.Idle? ==> s.epochs != []
  {
    && !s.caller.Idle?
    && var ep := Last(s);
       var c := ep.child;
       && ep.response.None? && ep.exit.None? && !ep.doomed
       && match ep.handler.phase
          case Reaping => MayNotExit(c)
          case Serving =>
            (match s.caller.req
             case Kill => false
             case Wait => MayNotExit(c)
             case Stop =>
               match c.onTerm
               case Dies => false
               case Ignores => MayNotExit(c)
               case WindsUp(o, e) => c.outLines + o > c.room || c.errLines + e > c.room)
          case _ => false
  }

  /** While a call is under way that cannot hang something can always happen. */
  lemma NeverStuck(s: State) returns (e: Event)
    requires Inv(s) && !s.caller.Idle? && !MayHang(s)
    ensures Enabled(s, e) && Faultless(e)
  {
    var ep, cur := Last(s), |s.epochs| - 1;
    if s.caller.Sending? {
      e := if ep.handler.phase.Ended? then SendRefused else SendAccepted;
    } else if ep.response.Some? {
      e := ResponseTaken;
    } else {
      match ep.handler.phase
      case Serving => e := Acts(cur, Taken(s.caller.req, true));
      case Reaping => e := if ep.exit.None? then Exits(cur, 0) else Acts(cur, Waited(ep.exit));
      case Responding(_) => e := Acts(cur, Sent(true));
      case Ended(_) => e := ChannelEnds;
    }
  }

  lemma OthersKeepSafe(s: State, e: Event)
    requires Inv(s) && Enabled(s, e) && !s.caller.Idle? && !MayHang(s)
    requires match e case Acts(i, _) => i < |s.epochs| - 1 case Exits(i, _) => true case _ => Internal(e)
    ensures Step(s, e).caller.Idle? || (Step(s, e).epochs != [] && !MayHang(Step(s, e)))
  {}

  lemma ActingKeepsSafe(s: State, he: HandlerEvent)
    requires Inv(s) && !s.caller.Idle? && !MayHang(s)
    requires var e := Acts(|s.epochs| - 1, he); Enabled(s, e)
    ensures !MayHang(Step(s, Acts(|s.epochs| - 1, he)))
  {}

  /** No event but a launch or a new call makes a call that cannot hang into one that can, faults
      included. */
  lemma SafeStaysSafe(s: State, e: Event)
    requires Inv(s) && Enabled(s, e) && Internal(e) && !MayHang(s)
    ensures Inv(Step(s, e)) && !MayHang(Step(s, e))
  {
    StepKeepsInv(s, e);
    if !s.caller.Idle? {
      if e.Acts? && e.i == |s.epochs| - 1 { ActingKeepsSafe(s, e.e); } else { OthersKeepSafe(s, e); }
    }
  }

  /** From a state in which the call under way cannot hang it returns, a status or an error: in every
      order of events, faults included, at most `Measure` of them happen without a launch or a new
      call, and when nothing is left to happen the call has returned. */
  lemma {:induction false} CallsReturn(s: State, es: seq<Event>)
    requires Inv(s) && Path(s, es) && !MayHang(s)
    requires forall e <- es :: Internal(e)
    ensures |es| + Measure(After(s, es)) <= Measure(s)
    ensures Stuck(After(s, es)) ==> After(s, es).caller.Idle?
    decreases |es|
  {
    if es == [] {
      if !s.caller.Idle? {
        var e := NeverStuck(s);
      }
    } else {
      SafeStaysSafe(s, es[0]);
      StepIsWork(s, es[0]);
      CallsReturn(Step(s, es[0]), es[1..]);
    }
  }

  // ---------------------------------------------------------------- calls that hang

  lemma HangingAct(s: State, he: HandlerEvent)
    requires Inv(s) && MayHang(s) && Last(s).handler.phase.Reaping?
    requires Enabled(s, Acts(|s.epochs| - 1, he))
    ensures !Faultless(Acts(|s.epochs| - 1, he))
  {}

  /** Once the supervisor waits for such a process nothing changes that. */
  lemma HangingStays(s: State, e: Event)
    requires Inv(s) && MayHang(s) && Last(s).handler.phase.Reaping? && s.caller.Awaiting?
    requires Enabled(s, e) && Faultless(e)
    ensures Inv(Step(s, e)) && MayHang(Step(s, e))
  {
    StepKeepsInv(s, e);
    if e.Acts? && e.i == |s.epochs| - 1 { HangingAct(s, e.e); }
  }

  lemma HangingContinues(s: State) returns (e: Event)
    requires Inv(s) && MayHang(s) && !Stuck(s)
    ensures Enabled(s, e) && Faultless(e) && Inv(Step(s, e)) && MayHang(Step(s, e))
  {
    if s.caller.Sending? {
      e := SendAccepted;
      StepKeepsInv(s, e);
    } else if Last(s).handler.phase.Serving? {
      e := Acts(|s.epochs| - 1, Taken(s.caller.req, true));
      StepKeepsInv(s, e);
    } else {
      e :| Enabled(s, e) && Faultless(e);
      HangingStays(s, e);
    }
  }

  lemma RunStep(s: State, e: Event, rest: seq<Event>)
    requires Enabled(s, e) && Faultless(e) && MaximalRun(Step(s, e), rest)
    ensures MaximalRun(s, [e] + rest) && After(s, [e] + rest) == After(Step(s, e), rest)
  {
    assert ([e] + rest)[1..] == rest;
  }

  lemma {:induction false} HangingRun(s: State) returns (es: seq<Event>)
    requires Inv(s) && MayHang(s)
    ensures MaximalRun(s, es) && !After(s, es).caller.Idle?
    decreases Measure(s)
  {
    if Stuck(s) {
      es := [];
    } else {
      var e := HangingContinues(s);
      StepIsWork(s, e);
      var rest := HangingRun(Step(s, e));
      RunStep(s, e, rest);
      es := [e] + rest;
    }
  }

  /** The exact condition: from a reachable state every stop, kill or wait under way returns in every
      maximal run if and only if it is not one of those that may hang. */
  lemma CallsReturnExactly(es: seq<Event>)
    requires Path(INITIAL, es)
    ensures var s := After(INITIAL, es);
            && Inv(s)
            && ((forall more | MaximalRun(s, more) :: After(s, more).caller.Idle?) <==> !MayHang(s))
  {
    PathKeepsInv(INITIAL, es);
    var s := After(INITIAL, es);
    if MayHang(s) {
      var more := HangingRun(s);
    } else {
      forall more | MaximalRun(s, more) ensures After(s, more).caller.Idle? {
        CallsReturn(s, more);
      }
    }
  }

  /** A kill always returns, and so does a stop of a process that SIGTERM ends. */
  lemma KillReturns(es: seq<Event>, more: seq<Event>)
    requires Path(INITIAL, es) && MaximalRun(After(INITIAL, es), more)
    requires var s := After(INITIAL, es);
             && !s.caller.Idle? && s.epochs != []
             && (s.caller.req.Kill? || (s.caller.req.Stop? && Last(s).child.onTerm.Dies?))
    ensures After(After(INITIAL, es), more).caller.Idle?
  {
    PathKeepsInv(INITIAL, es);
    CallsReturn(After(INITIAL, es), more);
  }

  /** The shortest such run: waiting for a process that has more to write than its pipes hold, as soon
      as it has been launched. */
  lemma WaitHangs(c: Child)
    requires !Fits(c)
    ensures var es := [Launches(c), Calls(Wait), SendAccepted, Acts(0, Taken(Wait, true))];
            && Path(INITIAL, es)
            && After(INITIAL, es).caller == Awaiting(Wait) && Stuck(After(INITIAL, es))
  {
    var s := State([FreshEpoch(c)], Idle, []);
    var t := s.(caller := Awaiting(Wait), epochs := [FreshEpoch(c).(request := Some(Wait))]);
    var u := t.(epochs := [FreshEpoch(c).(handler := FRESH_HANDLER.(phase := Reaping))]);
    PathStep(t, Acts(0, Taken(Wait, true)), [], u);
    PathStep(s.(caller := Sending(Wait)), SendAccepted, [Acts(0, Taken(Wait, true))] + [], t);
    PathStep(s, Calls(Wait), [SendAccepted] + ([Acts(0, Taken(Wait, true))] + []), s.(caller := Sending(Wait)));
    PathStep(INITIAL, Launches(c), [Calls(Wait)] + ([SendAccepted] + ([Acts(0, Taken(Wait, true))] + [])), s);
    assert [Launches(c)] + ([Calls(Wait)] + ([SendAccepted] + ([Acts(0, Taken(Wait, true))] + []))) ==
           [Launches(c), Calls(Wait), SendAccepted, Acts(0, Taken(Wait, true))];
    forall e | Enabled(u, e) ensures !Faultless(e) {}
  }

  lemma PathStep(s: State, e: Event, es: seq<Event>, t: State)
    requires Enabled(s, e) && Step(s, e) == t && Path(t, es)
    ensures Path(s, [e] + es) && After(s, [e] + es) == After(t, es)
  {}
}
