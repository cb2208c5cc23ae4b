/** What every interleaving of the control connection keeps. */
module ControlProofs {
  import opened Common
  import opened Messages
  import opened HostTask
  import opened ControlSystem

  // ---------------------------------------------------------------- the streams

  /** The command the guest has not answered yet, as a frame. */
  function Unanswered(s: State): seq<Frame> {
    if |s.far.answered| < |s.written| then [CommandFrame(s.written[|s.far.answered|])] else []
  }

  ghost predicate HostInv(s: State) {
    && |s.read| <= |s.written| <= |s.read| + 1
    && (s.host.connected ==> s.io == Conversation(s.info, s.written, s.read))
    && (!s.host.connected ==> s.io == [] && s.written == [] && s.far.down == [])
    && (s.host.phase.AwaitingReply? ==> |s.written| == |s.read| + 1)
    && (!s.host.phase.AwaitingReply? && !s.host.phase.Returned? ==> |s.written| == |s.read|)
    && (s.host.phase.Starting? ==> !s.host.connected)
  }

  ghost predicate AnswerInv(s: State) {
    && |s.read| <= |s.far.answered| <= |s.written|
    && (forall k | 0 <= k < |s.far.answered| ::
          s.far.answered[k].0 == s.written[k] && Answers(s.written[k], s.far.answered[k].1))
    && (forall k | 0 <= k < |s.read| :: s.read[k] == s.far.answered[k].1)
    && s.far.up == (if |s.far.answered| == |s.read| then [] else [ReplyFrame(s.far.answered[|s.read|].1)])
    && !s.far.mistyped
  }

  /** After a loss nothing is ever answered and the task never leaves the reply it awaits. */
  ghost predicate LostInv(s: State) {
    s.far.lost ==>
      && |s.written| == 1 && s.far.answered == [] && (s.far.down == [] || (|s.far.down| == 1 && s.far.down[0].Torn?))
      && (s.far.guest.Booting? || s.far.guest.AwaitingCommand? || s.far.guest.Gone?)
      && (s.host.phase.AwaitingReply? || s.host.phase.Returned?)
  }

  ghost predicate GuestInv(s: State) {
    && (s.far.guest.Off? ==> !s.host.connected)
    && (s.far.guest.Booting? || s.far.guest.AwaitingCommand? || s.far.guest.Handling? || s.far.guest.Replying? ==>
          s.host.connected)
    && (s.far.guest.Off? || s.far.guest.AwaitingInfo? || s.far.guest.Booting? ==> s.far.answered == [])
    && (s.far.guest.AwaitingInfo? ==>
          s.far.down == if s.host.connected then [InfoFrame(s.info)] + Unanswered(s) else [])
    && ((s.far.guest.Booting? || s.far.guest.AwaitingCommand?) && !s.far.lost ==> s.far.down == Unanswered(s))
    && ((s.far.guest.Handling? || s.far.guest.Replying?) ==>
          s.far.down == [] && |s.far.answered| < |s.written| && s.far.guest.command == s.written[|s.far.answered|])
    && (s.far.guest.Replying? ==> Answers(s.far.guest.command, s.far.guest.reply))
    && (s.far.guest.Gone? && !s.far.lost ==>
          || s.far.down == []
          || s.far.down == Unanswered(s)
          || (s.far.answered == [] && s.far.down == [InfoFrame(s.info)] + Unanswered(s)))
  }

  ghost predicate StreamInv(s: State) {
    HostInv(s) && AnswerInv(s) && LostInv(s) && GuestInv(s)
  }

  // What the parts of the invariant depend on.

  lemma GuestInvFrame(s: State, t: State)
    requires GuestInv(s) && t.info == s.info && t.host.connected == s.host.connected && t.written == s.written
    requires t.far.(up := s.far.up) == s.far
    ensures GuestInv(t)
  {}

  lemma AnswerInvFrame(s: State, t: State)
    requires AnswerInv(s) && t.read == s.read
    requires t.written == s.written || (s.written <= t.written && |t.written| == |s.written| + 1)
    requires t.far.up == s.far.up && t.far.answered == s.far.answered && t.far.mistyped == s.far.mistyped
    ensures AnswerInv(t)
  {}

  lemma HostInvFrame(s: State, t: State)
    requires HostInv(s)
    requires t == s.(host := t.host, far := t.far, caller := t.caller, calls := t.calls,
                    requests := t.requests, responses := t.responses)
    requires t.host.connected == s.host.connected && (!s.host.connected ==> t.far.down == s.far.down)
    requires t.host.phase == s.host.phase || t.host.phase.Returned? ||
             (!s.host.phase.AwaitingReply? && !s.host.phase.Returned? &&
              !t.host.phase.AwaitingReply? && !t.host.phase.Starting?)
    ensures HostInv(t)
  {}

  lemma WritingKeepsHost(s: State, t: State, c: Command)
    requires HostInv(s) && s.host.phase.Selecting? && s.host.connected
    requires t.host == s.host.(phase := AwaitingReply) && t.info == s.info
    requires t.written == s.written + [c] && t.read == s.read && t.io == s.io + [WroteCommand(c)]
    ensures HostInv(t)
  {
    ConversationWrites(s.info, s.written, s.read, c);
  }

  lemma ReadingKeepsHost(s: State, t: State, r: Reply)
    requires HostInv(s) && s.host.phase.AwaitingReply?
    requires t.host == s.host.(phase := Answering(Okay)) && t.info == s.info
    requires t.written == s.written && t.read == s.read + [r] && t.io == s.io + [ReadReply(r)]
    ensures HostInv(t)
  {
    ConversationReads(s.info, s.written, s.read, r);
  }

  lemma WritingKeepsGuest(s: State, t: State, c: Command)
    requires GuestInv(s) && AnswerInv(s) && !s.far.lost && s.host.connected && |s.written| == |s.read|
    requires t.info == s.info && t.host.connected && t.written == s.written + [c]
    requires t.far == s.far.(down := s.far.down + [CommandFrame(c)])
    ensures GuestInv(t)
  {
    assert Unanswered(s) == [] && Unanswered(t) == [CommandFrame(c)];
  }

  lemma WritingKeepsStreams(s: State, q: Request)
    requires StreamInv(s) && HostCan(s, RequestTaken(q, true)) && s.host.connected
    ensures StreamInv(HostActs(s, RequestTaken(q, true)))
  {
    var t := HostActs(s, RequestTaken(q, true));
    WritingKeepsHost(s, t, CommandOf(q));
    AnswerInvFrame(s, t);
    WritingKeepsGuest(s, t, CommandOf(q));
  }

  lemma ConnectingKeepsStreams(s: State)
    requires StreamInv(s) && HostCan(s, StreamResolved(true, true))
    ensures StreamInv(HostActs(s, StreamResolved(true, true)))
  {
    AnswerInvFrame(s, HostActs(s, StreamResolved(true, true)));
  }

  /** The task may change its own state without touching the streams, except to await a reply. */
  lemma QuietKeepsStreams(s: State, t: State)
    requires StreamInv(s)
    requires t == s.(host := t.host, requests := t.requests, responses := t.responses)
    requires t.host.connected == s.host.connected && !t.host.phase.Starting? && !t.host.phase.AwaitingReply?
    requires t.host.phase.Returned? || (!s.host.phase.AwaitingReply? && !s.host.phase.Returned?)
    ensures StreamInv(t)
  {
    HostInvFrame(s, t);
    AnswerInvFrame(s, t);
    GuestInvFrame(s, t);
  }

  /** Events of the task that write nothing. */
  predicate WritesNothing(h: Host, he: HostEvent) {
    he != StreamResolved(true, true) && !(he.RequestTaken? && h.connected && he.written)
  }

  lemma QuietIsQuiet(s: State, he: HostEvent)
    requires HostCan(s, he) && WritesNothing(s.host, he)
    ensures var t := HostActs(s, he);
            && t == s.(host := t.host, requests := t.requests, responses := t.responses)
            && t.host.connected == s.host.connected && !t.host.phase.Starting? && !t.host.phase.AwaitingReply?
            && (t.host.phase.Returned? || (!s.host.phase.AwaitingReply? && !s.host.phase.Returned?))
  {
    assert s.io + [] == s.io;
  }

  lemma HostActsKeepsStreams(s: State, he: HostEvent)
    requires StreamInv(s) && HostCan(s, he)
    ensures StreamInv(HostActs(s, he))
  {
    if he == StreamResolved(true, true) {
      ConnectingKeepsStreams(s);
    } else if he.RequestTaken? && s.host.connected && he.written {
      WritingKeepsStreams(s, he.req);
    } else {
      QuietIsQuiet(s, he);
      QuietKeepsStreams(s, HostActs(s, he));
    }
  }

  lemma HostReadsKeepsStreams(s: State, gone: nat, tear: Tear)
    requires StreamInv(s) && Enabled(s, HostReads(gone, tear))
    ensures StreamInv(HostReadsFrame(s, gone, tear))
  {
    var t, r := HostReadsFrame(s, gone, tear), s.far.answered[|s.read|].1;
    assert s.far.up == [ReplyFrame(r)] && s.far.up[1..] == [];
    assert t.far == s.far.(up := []);
    ReadingKeepsHost(s, t, r);
    GuestInvFrame(s, t);
  }

  /** What a reader may leave of a queue of one or two frames. */
  lemma LeftOfFew(queue: seq<Frame>, gone: nat, tear: Tear)
    requires |queue| <= 2 && CanRead(queue, gone, tear)
    ensures LeftBehind(queue, gone, tear) ==
            if |queue| == 1 || gone == 1 then [] else if tear.Clean? then [queue[1]] else [Torn(tear.Refused?)]
    ensures |queue| == 1 ==> !OverReads(gone, tear) && gone == 0
    ensures |queue| == 1 || gone == 1 ==> tear.Clean?
  {}

  /** The guest takes a frame and nothing else happens. */
  lemma GuestReadFrame(s: State, t: State)
    requires StreamInv(s) && t == s.(far := t.far)
    requires t.far == s.far.(guest := t.far.guest, down := t.far.down, lost := t.far.lost)
    requires s.host.connected
    ensures HostInv(t) && AnswerInv(t) && Unanswered(t) == Unanswered(s)
  {
    HostInvFrame(s, t);
    AnswerInvFrame(s, t);
  }

  /** What is left behind the realm info is the command, if there is one, or what over-reading leaves. */
  lemma InfoTakenKeepsGuest(s: State, t: State)
    requires GuestInv(s) && s.far.guest.AwaitingInfo? && s.host.connected && !s.far.lost
    requires |s.written| <= 1 && (s.written != [] ==> s.host.phase.AwaitingReply? || s.host.phase.Returned?)
    requires t == s.(far := s.far.(guest := Booting, down := t.far.down, lost := t.far.lost))
    requires if t.far.lost
             then s.written != [] && (t.far.down == [] || t.far.down == [Torn(true)] || t.far.down == [Torn(false)])
             else t.far.down == Unanswered(s)
    ensures LostInv(t) && GuestInv(t)
  {}

  lemma InfoIsTaken(f: Far, gone: nat, tear: Tear, behind: seq<Frame>)
    requires f.guest.AwaitingInfo? && !f.lost && CanRead(f.down, gone, tear)
    requires f.down != [] && f.down[0].InfoFrame? && f.down[1..] == behind && |behind| <= 1
    ensures var g := GuestReadsFrame(f, gone, tear);
            && g == f.(guest := Booting, down := g.down, lost := g.lost)
            && if g.lost then behind != [] && (g.down == [] || g.down == [Torn(true)] || g.down == [Torn(false)])
               else g.down == behind
  {
    LeftOfFew(f.down, gone, tear);
  }

  lemma GuestTakesInfo(s: State, gone: nat, tear: Tear)
    requires StreamInv(s) && Enabled(s, GuestReads(gone, tear)) && s.far.guest.AwaitingInfo?
    ensures StreamInv(Step(s, GuestReads(gone, tear)))
  {
    var t := Step(s, GuestReads(gone, tear));
    InfoIsTaken(s.far, gone, tear, Unanswered(s));
    GuestReadFrame(s, t);
    InfoTakenKeepsGuest(s, t);
  }

  lemma GuestTakesCommand(s: State, gone: nat, tear: Tear)
    requires StreamInv(s) && Enabled(s, GuestReads(gone, tear)) && s.far.guest.AwaitingCommand?
    ensures StreamInv(Step(s, GuestReads(gone, tear)))
  {
    var t := Step(s, GuestReads(gone, tear));
    assert |s.far.down| == 1;
    LeftOfFew(s.far.down, gone, tear);
    GuestReadFrame(s, t);
    assert t.far.down == [] && t.far.lost == s.far.lost;
  }

  lemma GuestReadsKeepsStreams(s: State, gone: nat, tear: Tear)
    requires StreamInv(s) && Enabled(s, GuestReads(gone, tear))
    ensures StreamInv(Step(s, GuestReads(gone, tear)))
  {
    if s.far.guest.AwaitingInfo? { GuestTakesInfo(s, gone, tear); } else { GuestTakesCommand(s, gone, tear); }
  }

  lemma GuestRepliesKeepsStreams(s: State)
    requires StreamInv(s) && Enabled(s, GuestReplies)
    ensures StreamInv(Step(s, GuestReplies))
  {
    HostInvFrame(s, Step(s, GuestReplies));
  }

  /** The guest moves no frame: what else it does. */
  predicate GuestAlone(f: Guest, g: Guest) {
    || g == f
    || (f.Off? && g.AwaitingInfo?)
    || (f.Booting? && g.AwaitingCommand?)
    || (f.Handling? && g.Replying? && g.command == f.command && Answers(g.command, g.reply))
    || (!f.Off? && g.Gone?)
  }

  lemma OthersKeepStreams(s: State, t: State)
    requires StreamInv(s)
    requires t == s.(far := t.far, caller := t.caller, calls := t.calls,
                     requests := t.requests, responses := t.responses)
    requires t.far == s.far.(guest := t.far.guest, dead := t.far.dead) && GuestAlone(s.far.guest, t.far.guest)
    ensures StreamInv(t)
  {
    HostInvFrame(s, t);
    AnswerInvFrame(s, t);
    assert Unanswered(t) == Unanswered(s);
  }

  predicate MovesFrames(e: Event) {
    e.HostAct? || e.HostReads? || e.GuestReads? || e.GuestReplies?
  }

  lemma OthersMoveNothing(s: State, e: Event)
    requires Enabled(s, e) && !MovesFrames(e)
    ensures var t := Step(s, e);
            && t == s.(far := t.far, caller := t.caller, calls := t.calls,
                       requests := t.requests, responses := t.responses)
            && t.far == s.far.(guest := t.far.guest, dead := t.far.dead) && GuestAlone(s.far.guest, t.far.guest)
  {}

  lemma StepKeepsStreams(s: State, e: Event)
    requires StreamInv(s) && Enabled(s, e)
    ensures StreamInv(Step(s, e))
  {
    if e.HostAct? {
      HostActsKeepsStreams(s, e.e);
    } else if e.HostReads? {
      HostReadsKeepsStreams(s, e.gone, e.tear);
    } else if e.GuestReads? {
      GuestReadsKeepsStreams(s, e.gone, e.tear);
    } else if e.GuestReplies? {
      GuestRepliesKeepsStreams(s);
    } else {
      OthersMoveNothing(s, e);
      OthersKeepStreams(s, Step(s, e));
    }
  }

  // ---------------------------------------------------------------- the caller

  ghost predicate PendingOkay(s: State) {
    s.host.phase == Answering(Okay) || s.responses == [Okay]
  }

  ghost predicate PendingRefusal(s: State) {
    s.host.phase == Answering(RealmNotConnected) || s.responses == [RealmNotConnected]
  }

  /** No request, command or response is anywhere between the caller and the task. */
  ghost predicate Quiet(s: State) {
    s.requests == [] && s.responses == [] && !s.host.phase.AwaitingReply? && !s.host.phase.Answering?
  }

  /** A request in flight is in exactly one place: its channel, the task, the response channel, or
      gone with the task. */
  ghost predicate RequestHeld(s: State) {
    && (s.host.phase.Returned? ==> s.requests == [])
    && match s.caller
       case Awaiting(q) =>
         || (s.requests == [q] && s.responses == [] &&
             (s.host.phase.Starting? || s.host.phase.Selecting? || s.host.phase.Reaping?))
         || (s.requests == [] && s.responses == [] &&
             (s.host.phase.AwaitingReply? || s.host.phase.Answering? || s.host.phase.Returned?))
         || (s.requests == [] && |s.responses| == 1 && !s.host.phase.AwaitingReply? && !s.host.phase.Answering?)
       case _ => Quiet(s)
  }

  /** The command written last, or the last one with a reply, is that of the call under way. */
  ghost predicate CallerInv(s: State)
    requires HostInv(s)
  {
    && RequestHeld(s)
    && (s.caller.Awaiting? && s.host.phase.AwaitingReply? ==> s.written[|s.written| - 1] == CommandOf(s.caller.req))
    && (s.caller.Awaiting? && PendingOkay(s) ==>
          s.read != [] && s.written[|s.read| - 1] == CommandOf(s.caller.req))
  }

  /** The commands of the calls that succeeded, in order. */
  function Successes(calls: seq<Call>): seq<Command> {
    if calls == [] then [] else
      var before, last := Successes(calls[..|calls| - 1]), calls[|calls| - 1];
      if last.result.Succeeded? then before + [CommandOf(last.req)] else before
  }

  /** The stages a realm goes through as seen by its caller. */
  function Rank(r: CallResult): nat {
    match r
    case NotConnected => 0
    case Succeeded => 1
    case SendFailed => 2
    case ChannelClosed => 2
  }

  ghost predicate AllBelow(calls: seq<Call>, bound: nat) {
    forall i | 0 <= i < |calls| :: Rank(calls[i].result) < bound
  }

  ghost predicate Sorted(calls: seq<Call>) {
    forall i, j | 0 <= i < j < |calls| :: Rank(calls[i].result) <= Rank(calls[j].result)
  }

  ghost function AboutToSucceed(s: State): seq<Command> {
    if s.caller.Awaiting? && PendingOkay(s) then [CommandOf(s.caller.req)] else []
  }

  ghost predicate CallsInv(s: State)
    requires HostInv(s)
  {
    && Successes(s.calls) + AboutToSucceed(s) == s.written[..|s.read|]
    && Sorted(s.calls)
    && (PendingRefusal(s) ==> AllBelow(s.calls, 1))
    && (!s.host.phase.Returned? || s.responses != [] ==> AllBelow(s.calls, 2))
  }

  /** What the caller's side depends on. */
  ghost predicate CallerSide(s: State) {
    HostInv(s) && CallerInv(s) && CallsInv(s)
  }

  /** With the machine its guest is gone. */
  predicate DeadInv(s: State) {
    s.far.dead ==> s.far.guest.Off? || s.far.guest.Gone?
  }

  ghost predicate Inv(s: State) {
    StreamInv(s) && CallerSide(s) && DeadInv(s)
  }

  lemma {:induction false} NoSuccess(calls: seq<Call>)
    requires Successes(calls) == [] && AllBelow(calls, 2)
    ensures AllBelow(calls, 1)
  {
    if calls != [] {
      var before := calls[..|calls| - 1];
      NoSuccess(before);
      forall i | 0 <= i < |calls| ensures Rank(calls[i].result) < 1 {
        if i < |before| { assert calls[i] == before[i]; }
      }
    }
  }

  lemma CallsInvFrame(s: State, t: State)
    requires HostInv(s) && HostInv(t) && CallsInv(s)
    requires t.calls == s.calls && t.read == s.read && t.written[..|t.read|] == s.written[..|s.read|]
    requires AboutToSucceed(t) == AboutToSucceed(s)
    requires PendingRefusal(t) ==> PendingRefusal(s) || AllBelow(s.calls, 1)
    requires !t.host.phase.Returned? || t.responses != [] ==> !s.host.phase.Returned? || s.responses != []
    ensures CallsInv(t)
  {}

  lemma RequestIsTaken(s: State, q: Request, ok: bool)
    requires HostCan(s, RequestTaken(q, ok)) && |s.requests| == 1
    ensures var t := HostActs(s, RequestTaken(q, ok));
            && t == s.(host := t.host, requests := [], io := t.io, written := t.written, far := t.far)
            && t.written == s.written + (if t.host.phase.AwaitingReply? then [CommandOf(q)] else [])
            && if s.host.connected then t.host.phase.AwaitingReply? || t.host.phase.Returned?
               else t.host.phase == Answering(RealmNotConnected)
  {}

  /** The task takes a request. */
  lemma TakingKeepsCaller(s: State, q: Request, ok: bool)
    requires CallerSide(s) && HostCan(s, RequestTaken(q, ok)) && HostInv(HostActs(s, RequestTaken(q, ok)))
    ensures CallerSide(HostActs(s, RequestTaken(q, ok)))
  {
    var t := HostActs(s, RequestTaken(q, ok));
    assert s.caller == Awaiting(q) && s.responses == [] && s.requests == [q];
    RequestIsTaken(s, q, ok);
    assert AboutToSucceed(s) == [] == AboutToSucceed(t);
    assert t.written[..|t.read|] == s.written[..|s.read|];
    if !s.host.connected {
      assert s.written == [] && Successes(s.calls) == [];
      NoSuccess(s.calls);
    }
    CallsInvFrame(s, t);
  }

  /** Nothing the caller's side depends on changes, except that the task may move between phases in
      which it holds no request, and may return. */
  lemma ElsewhereKeepsCaller(s: State, t: State)
    requires CallerSide(s) && HostInv(t)
    requires t.caller == s.caller && t.calls == s.calls && t.read == s.read && t.written == s.written
    requires t.responses == s.responses
    requires t.requests == if t.host.phase.Returned? then [] else s.requests
    requires t.host.phase == s.host.phase
      || (t.host.phase.Returned? && !s.host.phase.Answering? && !s.host.phase.Returned?)
      || ((t.host.phase.Selecting? || t.host.phase.Reaping?) && (s.host.phase.Starting? || s.host.phase.Selecting?))
    ensures CallerSide(t)
  {
    assert PendingOkay(s) == PendingOkay(t) && PendingRefusal(s) == PendingRefusal(t);
    assert AboutToSucceed(s) == AboutToSucceed(t);
    CallsInvFrame(s, t);
  }

  lemma AnsweringKeepsCaller(s: State)
    requires CallerSide(s) && HostCan(s, AnswerSent(true)) && HostInv(HostActs(s, AnswerSent(true)))
    ensures CallerSide(HostActs(s, AnswerSent(true)))
  {
    var t := HostActs(s, AnswerSent(true));
    assert s.responses == [] && t.responses == [s.host.phase.resp];
    assert PendingOkay(s) == PendingOkay(t) && PendingRefusal(s) == PendingRefusal(t);
    assert AboutToSucceed(s) == AboutToSucceed(t);
    CallsInvFrame(s, t);
  }

  /** The task moves without taking a request or reading a reply. */
  lemma MovingKeepsCaller(s: State, he: HostEvent)
    requires CallerSide(s) && HostCan(s, he) && !he.RequestTaken? && HostInv(HostActs(s, he))
    ensures CallerSide(HostActs(s, he))
  {
    if he.AnswerSent? {
      AnsweringKeepsCaller(s);
    } else {
      ElsewhereKeepsCaller(s, HostActs(s, he));
    }
  }

  /** The task has read a reply: the call under way is about to succeed. */
  lemma ReplyKeepsCaller(s: State, t: State, r: Reply)
    requires CallerSide(s) && s.host.phase.AwaitingReply? && HostInv(t)
    requires t.host.phase == Answering(Okay) && t.read == s.read + [r] && t.written == s.written
    requires t.caller == s.caller && t.calls == s.calls && t.requests == s.requests && t.responses == s.responses
    ensures CallerSide(t)
  {
    assert s.caller.Awaiting? && s.responses == [] && s.requests == [];
    assert t.written[..|t.read|] == s.written[..|s.read|] + [s.written[|s.read|]];
    assert AboutToSucceed(s) == [] && AboutToSucceed(t) == [CommandOf(s.caller.req)];
    assert CallsInv(t);
  }

  lemma ReadingKeepsCaller(s: State, gone: nat, tear: Tear)
    requires CallerSide(s) && AnswerInv(s)
    requires Enabled(s, HostReads(gone, tear)) && HostInv(HostReadsFrame(s, gone, tear))
    ensures CallerSide(HostReadsFrame(s, gone, tear))
  {
    ReplyKeepsCaller(s, HostReadsFrame(s, gone, tear), s.far.up[0].reply);
  }

  lemma RecordCall(calls: seq<Call>, c: Call)
    requires Sorted(calls) && AllBelow(calls, Rank(c.result) + 1)
    ensures Sorted(calls + [c]) && AllBelow(calls + [c], Rank(c.result) + 1)
    ensures Successes(calls + [c]) == Successes(calls) + if c.result.Succeeded? then [CommandOf(c.req)] else []
  {
    assert (calls + [c])[..|calls|] == calls;
  }

  /** A call completes: what was about to succeed has, and nothing is pending. */
  lemma CompletingKeepsCalls(s: State, t: State, c: Call)
    requires HostInv(s) && HostInv(t) && CallsInv(s) && AllBelow(s.calls, Rank(c.result) + 1)
    requires AboutToSucceed(s) == if c.result.Succeeded? then [CommandOf(c.req)] else []
    requires t.calls == s.calls + [c] && t.read == s.read && t.written == s.written
    requires t.caller.Idle? && t.responses == [] && !t.host.phase.Answering?
    requires Rank(c.result) == 2 ==> t.host.phase.Returned?
    ensures CallsInv(t)
  {
    RecordCall(s.calls, c);
    assert AboutToSucceed(t) == [];
  }

  /** A call ends in an error: the task has returned and nothing is left in its channel. */
  lemma FailingKeepsCaller(s: State, result: CallResult)
    requires CallerSide(s) && !s.caller.Idle? && s.host.phase.Returned? && s.responses == [] && Rank(result) == 2
    ensures CallerSide(Completed(s, result))
  {
    CompletingKeepsCalls(s, Completed(s, result), Call(s.caller.req, result));
  }

  lemma ResponseKeepsCaller(s: State)
    requires CallerSide(s) && Enabled(s, ResponseTaken)
    ensures CallerSide(Step(s, ResponseTaken))
  {
    var t := Step(s, ResponseTaken);
    assert s.responses == [s.responses[0]] && t.responses == [];
    assert PendingOkay(s) || PendingRefusal(s);
    CompletingKeepsCalls(s, t, t.calls[|s.calls|]);
  }

  lemma CallKeepsCaller(s: State, q: Request)
    requires CallerSide(s) && s.caller.Idle?
    ensures CallerSide(s.(caller := Sending(q)))
  {}

  lemma SendKeepsCaller(s: State)
    requires CallerSide(s) && Enabled(s, SendAccepted)
    ensures CallerSide(Step(s, SendAccepted))
  {
    CallsInvFrame(s, Step(s, SendAccepted));
  }

  lemma StepKeepsInv(s: State, e: Event)
    requires Inv(s) && Enabled(s, e)
    ensures Inv(Step(s, e))
  {
    StepKeepsStreams(s, e);
    StepKeepsCaller(s, e);
    StepKeepsDead(s, e);
  }

  predicate ByGuest(e: Event) {
    || e.GuestConnects? || e.GuestReads? || e.GuestBoots? || e.GuestHandles? || e.GuestReplies?
    || e.GuestFails? || e.RealmDies?
  }

  /** What the guest cannot touch. */
  lemma GuestFrame(s: State, e: Event)
    requires ByGuest(e) && Enabled(s, e)
    ensures Step(s, e) == s.(far := Step(s, e).far)
  {}

  /** What the guest is the task and the caller cannot change. */
  lemma GuestUntouched(s: State, e: Event)
    requires !ByGuest(e) && Enabled(s, e)
    ensures Step(s, e).far.guest == s.far.guest && Step(s, e).far.dead == s.far.dead
  {}

  lemma StepKeepsDead(s: State, e: Event)
    requires DeadInv(s) && Enabled(s, e)
    ensures DeadInv(Step(s, e))
  {
    if !ByGuest(e) { GuestUntouched(s, e); }
  }

  lemma StepKeepsCaller(s: State, e: Event)
    requires CallerSide(s) && AnswerInv(s) && Enabled(s, e) && HostInv(Step(s, e))
    ensures CallerSide(Step(s, e))
  {
    if ByGuest(e) {
      GuestFrame(s, e);
      ElsewhereKeepsCaller(s, Step(s, e));
    } else {
      match e
      case HostAct(he) =>
        if he.RequestTaken? { TakingKeepsCaller(s, he.req, he.written); } else { MovingKeepsCaller(s, he); }
      case HostReads(gone, tear) => ReadingKeepsCaller(s, gone, tear);
      case CallerCalls(q) => CallKeepsCaller(s, q);
      case SendAccepted => SendKeepsCaller(s);
      case SendRefused => FailingKeepsCaller(s, SendFailed);
      case ResponseTaken => ResponseKeepsCaller(s);
      case ResponsesEnded => FailingKeepsCaller(s, ChannelClosed);
    }
  }

  // ---------------------------------------------------------------- every run

  lemma StepKeepsInfo(s: State, e: Event)
    requires Enabled(s, e)
    ensures Step(s, e).info == s.info
  {}

  lemma {:induction false} PathKeepsInv(s: State, es: seq<Event>)
    requires Inv(s) && Path(s, es)
    ensures Inv(After(s, es)) && After(s, es).info == s.info
    decreases |es|
  {
    if es != [] {
      StepKeepsInv(s, es[0]);
      StepKeepsInfo(s, es[0]);
      PathKeepsInv(Step(s, es[0]), es[1..]);
    }
  }

  lemma Reachable(info: RealmInfo, es: seq<Event>)
    requires Path(Initial(info), es)
    ensures Inv(After(Initial(info), es)) && After(Initial(info), es).info == info
  {
    PathKeepsInv(Initial(info), es);
  }

  /** On every interleaving the task's traffic is the realm info followed by commands and replies in
      turn; no frame is decoded at the wrong type; the stream down holds at most the realm info and
      one command, the stream up at most one reply, and past the realm info at most one frame is in
      flight in both directions together; and the k-th reply read is the guest's answer to the k-th
      command written. */
  lemma ConversationAlternates(info: RealmInfo, es: seq<Event>)
    requires Path(Initial(info), es)
    ensures var s := After(Initial(info), es);
            && |s.read| <= |s.written| <= |s.read| + 1
            && (s.io == [] || s.io == Conversation(info, s.written, s.read))
            && (s.io != [] ==>
                  && |s.io| == 1 + |s.written| + |s.read| && s.io[0] == WroteInfo(info)
                  && (forall k | 0 <= k < |s.written| :: s.io[2 * k + 1] == WroteCommand(s.written[k]))
                  && (forall k | 0 <= k < |s.read| :: s.io[2 * k + 2] == ReadReply(s.read[k])))
            && !s.far.mistyped
            && |s.far.down| <= 2 && |s.far.up| <= 1
            && (|s.far.down| == 2 ==> |s.written| == 1 && s.far.down == [InfoFrame(info), CommandFrame(s.written[0])])
            && (s.far.down == [] || !s.far.down[0].InfoFrame? ==> |s.far.down| + |s.far.up| <= 1)
            && |s.read| <= |s.far.answered|
            && forall k | 0 <= k < |s.read| ::
                 s.far.answered[k] == (s.written[k], s.read[k]) && Answers(s.written[k], s.read[k])
  {
    Reachable(info, es);
    var s := After(Initial(info), es);
    ConversationShape(info, s.written, s.read);
  }

  /** A call succeeds exactly when its command was written and the reply to it read: the commands of
      the successful calls are those with a reply, in order, except that the last success may still
      be on its way. Results come in stages: first refusals, then successes, then errors, for ever. */
  lemma CallsTellTheTruth(info: RealmInfo, es: seq<Event>)
    requires Path(Initial(info), es)
    ensures var s := After(Initial(info), es);
            && |s.read| <= |s.written|
            && Successes(s.calls) <= s.written[..|s.read|]
            && |s.read| <= |Successes(s.calls)| + 1
            && (!s.caller.Awaiting? ==> Successes(s.calls) == s.written[..|s.read|])
            && Sorted(s.calls)
  {
    Reachable(info, es);
    var s := After(Initial(info), es);
    assert AboutToSucceed(s) == [] || |AboutToSucceed(s)| == 1;
  }

  /** The requests of the calls that succeeded, in order. */
  function Granted(calls: seq<Call>): seq<Request> {
    if calls == [] then [] else
      var before, last := Granted(calls[..|calls| - 1]), calls[|calls| - 1];
      if last.result.Succeeded? then before + [last.req] else before
  }

  lemma {:induction false} GrantedAreSuccesses(calls: seq<Call>)
    ensures |Granted(calls)| == |Successes(calls)|
    ensures forall k | 0 <= k < |Granted(calls)| :: Successes(calls)[k] == CommandOf(Granted(calls)[k])
  {
    if calls != [] { GrantedAreSuccesses(calls[..|calls| - 1]); }
  }

  /** End to end: the k-th call that succeeded was answered by the guest as the k-th command, which was
      of the same kind and about the same application; stopping and killing gave an exit status. */
  lemma SuccessfulCallsWereServed(info: RealmInfo, es: seq<Event>)
    requires Path(Initial(info), es)
    ensures var s := After(Initial(info), es);
            && |Granted(s.calls)| <= |s.far.answered|
            && forall k | 0 <= k < |Granted(s.calls)| ::
                 var (c, reply) := s.far.answered[k];
                 match Granted(s.calls)[k]
                 case StartRequest(id) => c == StartApp(id) && reply.Done?
                 case TerminateRequest(id) => c == TerminateApp(id) && reply.ExitStatus?
                 case KillRequest(id) => c == KillApp(id) && reply.ExitStatus?
                 case ShutdownRequest => c == Shutdown && reply.Done?
  {
    CallsTellTheTruth(info, es);
    ConversationAlternates(info, es);
    var s := After(Initial(info), es);
    GrantedAreSuccesses(s.calls);
    forall k | 0 <= k < |Granted(s.calls)|
      ensures s.far.answered[k].0 == CommandOf(Granted(s.calls)[k]) && Answers(s.far.answered[k].0, s.far.answered[k].1)
    {
      assert Successes(s.calls)[k] == s.written[k];
    }
  }

  /** Neither channel is ever full when something is sent into it, and at most one request or
      response is under way. */
  lemma ChannelsNeverBlock(info: RealmInfo, es: seq<Event>)
    requires Path(Initial(info), es)
    ensures var s := After(Initial(info), es);
            && (s.caller.Sending? ==> s.requests == [])
            && (s.host.phase.Answering? ==> s.responses == [])
            && |s.requests| + |s.responses| <= if s.caller.Awaiting? then 1 else 0
  {
    Reachable(info, es);
  }

  /** What the result of a call says about the step that completes it: the response that was taken, or
      that the task had returned, before the request could be sent or without responding to it. */
  lemma ResultTellsWhy(s: State, e: Event)
    requires Enabled(s, e)
    ensures var t := Step(s, e);
            || t.calls == s.calls
            || (&& !s.caller.Idle? && t.caller.Idle? && |t.calls| == |s.calls| + 1 && s.calls <= t.calls
                && t.calls[|s.calls|].req == s.caller.req
                && match t.calls[|s.calls|].result
                   case Succeeded => s.caller.Awaiting? && s.responses != [] && s.responses[0] == Okay
                   case NotConnected => s.caller.Awaiting? && s.responses != [] && s.responses[0] == RealmNotConnected
                   case SendFailed => s.caller.Sending? && s.host.phase.Returned?
                   case ChannelClosed => s.caller.Awaiting? && s.responses == [] && s.host.phase.Returned?)
  {
    if ByGuest(e) { GuestFrame(s, e); }
  }

  /** The task has left its loop and owes the caller nothing. */
  predicate LeftLoop(s: State) {
    (s.host.phase.Reaping? || s.host.phase.Returned?) && s.responses == []
  }

  lemma LeftForGood(s: State, e: Event)
    requires LeftLoop(s) && Enabled(s, e)
    ensures LeftLoop(Step(s, e))
    ensures var t := Step(s, e);
            || t.calls == s.calls
            || (|t.calls| == |s.calls| + 1 && s.calls <= t.calls && Rank(t.calls[|s.calls|].result) == 2)
  {}

  lemma {:induction false} LeftOnlyErrors(s: State, es: seq<Event>)
    requires LeftLoop(s) && Path(s, es)
    ensures var t := After(s, es);
            && s.calls <= t.calls
            && forall i | |s.calls| <= i < |t.calls| :: Rank(t.calls[i].result) == 2
    decreases |es|
  {
    if es != [] {
      LeftForGood(s, es[0]);
      LeftOnlyErrors(Step(s, es[0]), es[1..]);
    }
  }

  /** What the caller makes of a response. */
  function ResultOf(r: Response): CallResult {
    if r.Okay? then Succeeded else NotConnected
  }

  /** The task has left its loop after sending a response that the caller has not taken yet. */
  predicate LastResponsePending(s: State) {
    (s.host.phase.Reaping? || s.host.phase.Returned?) && |s.responses| == 1 && s.caller.Awaiting?
  }

  lemma LastResponse(s: State, e: Event)
    requires LastResponsePending(s) && Enabled(s, e)
    ensures var t := Step(s, e);
            if e.ResponseTaken? then LeftLoop(t) && t.calls == s.calls + [Call(s.caller.req, ResultOf(s.responses[0]))]
            else LastResponsePending(t) && t.responses == s.responses && t.calls == s.calls
  {
    if ByGuest(e) { GuestFrame(s, e); }
  }

  lemma {:induction false} LastResponseThenErrors(s: State, es: seq<Event>)
    requires LastResponsePending(s) && Path(s, es)
    ensures var t := After(s, es);
            && s.calls <= t.calls
            && (|t.calls| > |s.calls| ==> t.calls[|s.calls|].result == ResultOf(s.responses[0]))
            && forall i | |s.calls| < i < |t.calls| :: Rank(t.calls[i].result) == 2
    decreases |es|
  {
    if es != [] {
      LastResponse(s, es[0]);
      if es[0].ResponseTaken? {
        LeftOnlyErrors(Step(s, es[0]), es[1..]);
      } else {
        LastResponseThenErrors(Step(s, es[0]), es[1..]);
      }
    }
  }

  /** Once the task has left its loop, be it after a timeout or because the machine has exited, every
      call that completes later fails, also one that was waiting already. The one exception is a
      response sent before: the first call to complete takes it. */
  lemma AfterLoopOnlyErrors(s: State, es: seq<Event>)
    requires Inv(s) && (s.host.phase.Reaping? || s.host.phase.Returned?) && Path(s, es)
    ensures var t := After(s, es);
            && s.calls <= t.calls
            && forall i | |s.calls| <= i < |t.calls| ::
                 if i == |s.calls| && s.responses != [] then t.calls[i].result == ResultOf(s.responses[0])
                 else Rank(t.calls[i].result) == 2
  {
    if s.responses == [] { LeftOnlyErrors(s, es); } else { LastResponseThenErrors(s, es); }
  }

  // ---------------------------------------------------------------- shutdown

  /** A shutdown is the last command the guest answers, and it is gone afterwards. */
  ghost predicate ShutdownIsLast(s: State) {
    forall k | 0 <= k < |s.far.answered| && s.far.answered[k].0.Shutdown? ::
      k == |s.far.answered| - 1 && s.far.guest.Gone?
  }

  lemma {:induction false} ShutdownStaysLast(s: State, es: seq<Event>)
    requires ShutdownIsLast(s) && Path(s, es)
    ensures ShutdownIsLast(After(s, es))
    decreases |es|
  {
    if es != [] {
      StepKeepsShutdown(s, es[0]);
      ShutdownStaysLast(Step(s, es[0]), es[1..]);
    }
  }

  lemma TaskOnlyWrites(s: State, he: HostEvent)
    requires HostCan(s, he)
    ensures HostActs(s, he).far == s.far.(down := HostActs(s, he).far.down)
  {}

  lemma TaskOnlyReads(s: State, gone: nat, tear: Tear)
    requires Enabled(s, HostReads(gone, tear))
    ensures HostReadsFrame(s, gone, tear).far.answered == s.far.answered
    ensures HostReadsFrame(s, gone, tear).far.guest == s.far.guest
  {}

  lemma ReadingAnswersNothing(f: Far, gone: nat, tear: Tear)
    requires CanRead(f.down, gone, tear)
    ensures GuestReadsFrame(f, gone, tear).answered == f.answered
  {}

  lemma CallerStaysNear(s: State, e: Event)
    requires Enabled(s, e) && !ByGuest(e) && !e.HostAct? && !e.HostReads?
    ensures Step(s, e).far == s.far
  {}

  lemma OnlyRepliesAnswer(s: State, e: Event)
    requires Enabled(s, e) && !e.GuestReplies?
    ensures Step(s, e).far.answered == s.far.answered
    ensures s.far.guest.Gone? ==> Step(s, e).far.guest.Gone?
  {
    if e.HostAct? {
      TaskOnlyWrites(s, e.e);
    } else if e.HostReads? {
      TaskOnlyReads(s, e.gone, e.tear);
    } else if e.GuestReads? {
      ReadingAnswersNothing(s.far, e.gone, e.tear);
    } else if !ByGuest(e) {
      CallerStaysNear(s, e);
    }
  }

  lemma StepKeepsShutdown(s: State, e: Event)
    requires ShutdownIsLast(s) && Enabled(s, e)
    ensures ShutdownIsLast(Step(s, e))
  {
    if e.GuestReplies? {
      var t := Step(s, e);
      assert t.far.answered[..|s.far.answered|] == s.far.answered;
      assert forall k | 0 <= k < |s.far.answered| :: !s.far.answered[k].0.Shutdown?;
    } else {
      OnlyRepliesAnswer(s, e);
    }
  }

  /** No call succeeds after a shutdown call has. */
  lemma NothingAfterShutdown(info: RealmInfo, es: seq<Event>)
    requires Path(Initial(info), es)
    ensures var done := Successes(After(Initial(info), es).calls);
            forall k | 0 <= k < |done| - 1 :: !done[k].Shutdown?
  {
    CallsTellTheTruth(info, es);
    Reachable(info, es);
    ShutdownStaysLast(Initial(info), es);
    var s := After(Initial(info), es);
    var done := Successes(s.calls);
    forall k | 0 <= k < |done| - 1 ensures !done[k].Shutdown? {
      assert done[k] == s.written[k] == s.far.answered[k].0;
    }
  }

  // ---------------------------------------------------------------- the task inside the system

  /** The awaits of the task in a run of the system. */
  function TaskAwaits(s: State, es: seq<Event>): seq<HostEvent>
    requires Path(s, es)
    decreases |es|
  {
    if es == [] then []
    else
      var rest := TaskAwaits(Step(s, es[0]), es[1..]);
      match es[0]
      case HostAct(_) => [AwaitOf(s, es[0])] + rest
      case HostReads(_, _) => [AwaitOf(s, es[0])] + rest
      case _ => rest
  }

  lemma TaskUntouched(s: State, e: Event)
    requires Enabled(s, e) && !e.HostAct? && !e.HostReads?
    ensures Step(s, e).host == s.host && Step(s, e).io == s.io && Step(s, e).info == s.info
  {}

  /** The await a step of the task completes. */
  function AwaitOf(s: State, e: Event): HostEvent
    requires Enabled(s, e) && (e.HostAct? || e.HostReads?)
  {
    if e.HostAct? then e.e
    else ReplyRead(if s.far.up[0].ReplyFrame? then Some(s.far.up[0].reply) else None)
  }

  lemma TaskMoves(s: State, e: Event)
    requires Enabled(s, e) && (e.HostAct? || e.HostReads?)
    ensures HostReady(s.host, AwaitOf(s, e))
    ensures Step(s, e).host == HostStep(s.host, AwaitOf(s, e))
    ensures Step(s, e).io == s.io + EffectsOf(s.host, AwaitOf(s, e), s.info).io && Step(s, e).info == s.info
  {}

  lemma PrependAwait(h: Host, he: HostEvent, rest: seq<HostEvent>, info: RealmInfo)
    requires HostReady(h, he) && HostPath(HostStep(h, he), rest)
    ensures var hs := [he] + rest;
            && HostPath(h, hs) && HostAfter(h, hs) == HostAfter(HostStep(h, he), rest)
            && EffectsAfter(h, hs, info) == Then(EffectsOf(h, he, info), EffectsAfter(HostStep(h, he), rest, info))
  {
    assert ([he] + rest)[1..] == rest;
  }

  lemma TaskAwaitsNext(s: State, es: seq<Event>)
    requires es != [] && Path(s, es)
    ensures TaskAwaits(s, es) == (if es[0].HostAct? || es[0].HostReads? then [AwaitOf(s, es[0])] else [])
                                 + TaskAwaits(Step(s, es[0]), es[1..])
  {}

  /** The task gets from `s` to `t` on these awaits, with their traffic. */
  ghost predicate TaskPath(s: State, hs: seq<HostEvent>, t: State) {
    HostPath(s.host, hs) && HostAfter(s.host, hs) == t.host && t.io == s.io + EffectsAfter(s.host, hs, s.info).io
  }

  lemma TaskPathNext(s: State, e: Event, hs: seq<HostEvent>, t: State)
    requires Enabled(s, e) && TaskPath(Step(s, e), hs, t)
    ensures TaskPath(s, (if e.HostAct? || e.HostReads? then [AwaitOf(s, e)] else []) + hs, t)
  {
    if e.HostAct? || e.HostReads? {
      TaskMoves(s, e);
      PrependAwait(s.host, AwaitOf(s, e), hs, s.info);
      Regroup(s.io, EffectsOf(s.host, AwaitOf(s, e), s.info).io, EffectsAfter(Step(s, e).host, hs, s.info).io);
    } else {
      TaskUntouched(s, e);
      assert [] + hs == hs;
    }
  }

  /** In every run of the system the task goes through a path of its own automaton, the one its loop
      is proved against, and the connection sees that path's traffic. */
  lemma {:induction false} TaskFollowsItsAutomaton(s: State, es: seq<Event>)
    requires Path(s, es)
    ensures TaskPath(s, TaskAwaits(s, es), After(s, es))
    decreases |es|
  {
    if es != [] {
      TaskAwaitsNext(s, es);
      TaskFollowsItsAutomaton(Step(s, es[0]), es[1..]);
      TaskPathNext(s, es[0], TaskAwaits(Step(s, es[0]), es[1..]), After(s, es));
    }
  }

  // ---------------------------------------------------------------- lost frames

  /** A command has been written although the guest has not taken the realm info yet. */
  predicate CommandAheadOfInfo(s: State) {
    s.far.guest.AwaitingInfo? && s.written != []
  }

  predicate NeverAhead(s: State, es: seq<Event>)
    requires Path(s, es)
    decreases |es|
  {
    !CommandAheadOfInfo(s) && (es != [] ==> NeverAhead(Step(s, es[0]), es[1..]))
  }

  lemma OnlyReadersLose(s: State, e: Event)
    requires Enabled(s, e) && !e.GuestReads? && !e.HostReads?
    ensures Step(s, e).far.lost == s.far.lost
  {
    match e
    case HostAct(he) => TaskOnlyWrites(s, he);
    case _ =>
  }

  lemma HostLosesNothing(s: State, gone: nat, tear: Tear)
    requires |s.far.up| <= 1 && Enabled(s, HostReads(gone, tear))
    ensures Step(s, HostReads(gone, tear)).far.lost == s.far.lost
  {
    LeftOfFew(s.far.up, gone, tear);
  }

  lemma GuestLosesOnlyAhead(s: State, gone: nat, tear: Tear)
    requires GuestInv(s) && !s.far.lost && Enabled(s, GuestReads(gone, tear)) && !CommandAheadOfInfo(s)
    ensures !Step(s, GuestReads(gone, tear)).far.lost
  {
    assert |s.far.down| == 1;
    LeftOfFew(s.far.down, gone, tear);
  }

  /** A step loses a frame only by reading the realm info with a command behind it. */
  lemma LosingStep(s: State, e: Event)
    requires AnswerInv(s) && GuestInv(s) && !s.far.lost && Enabled(s, e) && Step(s, e).far.lost
    ensures CommandAheadOfInfo(s) && e.GuestReads? && (e.gone > 0 || !e.tear.Clean?)
  {
    match e
    case GuestReads(gone, tear) =>
      if !CommandAheadOfInfo(s) { GuestLosesOnlyAhead(s, gone, tear); }
    case HostReads(gone, tear) => HostLosesNothing(s, gone, tear);
    case _ => OnlyReadersLose(s, e);
  }

  /** On every run whose first command is written after the guest has taken the realm info, no
      reader ever drops part of a frame it does not deliver. */
  lemma {:induction false} NothingLostUnlessAhead(s: State, es: seq<Event>)
    requires Inv(s) && !s.far.lost && Path(s, es) && NeverAhead(s, es)
    ensures !After(s, es).far.lost
    decreases |es|
  {
    if es != [] {
      StepKeepsInv(s, es[0]);
      if Step(s, es[0]).far.lost { LosingStep(s, es[0]); }
      NothingLostUnlessAhead(Step(s, es[0]), es[1..]);
    }
  }

  lemma AheadCanLose(s: State)
    requires GuestInv(s) && CommandAheadOfInfo(s) && s.host.connected && |s.far.answered| < |s.written|
    ensures Enabled(s, GuestReads(1, Clean)) && Step(s, GuestReads(1, Clean)).far.lost
  {
    assert s.far.down == [InfoFrame(s.info)] + Unanswered(s);
  }

  /** The condition is exact: in a reachable state the next step can lose a frame if and only if a
      command has been written ahead of the guest's taking the realm info. */
  lemma LossPossibleExactly(info: RealmInfo, es: seq<Event>)
    requires Path(Initial(info), es)
    ensures var s := After(Initial(info), es);
            !s.far.lost ==>
              ((exists e :: Enabled(s, e) && Step(s, e).far.lost) <==> CommandAheadOfInfo(s))
  {
    Reachable(info, es);
    var s := After(Initial(info), es);
    if !s.far.lost {
      if e :| Enabled(s, e) && Step(s, e).far.lost { LosingStep(s, e); }
      if CommandAheadOfInfo(s) { AheadCanLose(s); }
    }
  }

  lemma LostStaysLost(s: State, e: Event)
    requires Enabled(s, e) && s.far.lost
    ensures Step(s, e).far.lost
  {}

  /** A loss is fatal: from then on no reply is ever read and no call has succeeded or ever will. */
  lemma {:induction false} LossIsFatal(s: State, es: seq<Event>)
    requires Inv(s) && s.far.lost && Path(s, es)
    ensures var t := After(s, es);
            t.far.lost && |t.written| == 1 && t.read == [] && Successes(t.calls) == []
    decreases |es|
  {
    if es != [] {
      LostStaysLost(s, es[0]);
      StepKeepsInv(s, es[0]);
      LossIsFatal(Step(s, es[0]), es[1..]);
    }
  }
}
