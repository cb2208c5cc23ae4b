/** The whole control connection as a transition system: a caller (`Realm::send_request`), the host
    task (`Realm::handle_realm`), the guest (`AppManager`), a byte stream in each direction and two
    channels of capacity one between the caller and the task. Every interleaving is a path. */
module ControlSystem {
  import opened Common
  import opened Messages
  import opened HostTask

  /** What travels on the streams. `Torn` is a frame whose beginning was dropped with a reader: the
      next reader refuses what is left of it, or waits for bytes that never come. */
  datatype Frame =
    | InfoFrame(info: RealmInfo) | CommandFrame(command: Command) | ReplyFrame(reply: Reply) | Torn(refused: bool)

  /** What a reader does to the frame behind those it drops: nothing, or it takes some of its first
      bytes, after which the rest is too little to decide on (`Starved`) or is `Refused`. */
  datatype Tear = Clean | Starved | Refused

  datatype Guest =
    | Off                          // not connected yet
    | AwaitingInfo                 // in `read_provision_info`
    | Booting                      // in the stages that follow
    | AwaitingCommand
    | Handling(command: Command)
    | Replying(command: Command, reply: Reply)
    | Gone                         // exited; its end of the stream is closed

  datatype Caller = Idle | Sending(req: Request) | Awaiting(req: Request)

  datatype CallResult = Succeeded | NotConnected | SendFailed | ChannelClosed

  datatype Call = Call(req: Request, result: CallResult)

  /** The guest, the streams and their history. */
  datatype Far = Far(
    guest: Guest,
    dead: bool,                        // the virtual machine has exited
    down: seq<Frame>,                  // stream to the guest
    up: seq<Frame>,                    // stream from the guest
    answered: seq<(Command, Reply)>,   // commands the guest has answered
    lost: bool,                        // a reader has dropped bytes of a later frame
    mistyped: bool)                    // a frame has been decoded at the wrong type

  datatype State = State(
    info: RealmInfo,
    host: Host,
    caller: Caller,
    requests: seq<Request>,            // channel to the task
    responses: seq<Response>,          // channel from the task
    io: seq<HostIo>,                   // the task's traffic
    written: seq<Command>,             // commands the task has written
    read: seq<Reply>,                  // replies the task has read
    calls: seq<Call>,                  // calls the caller has completed
    far: Far)

  function Initial(info: RealmInfo): State {
    State(info, INITIAL_HOST, Idle, [], [], [], [], [], [], Far(Off, false, [], [], [], false, false))
  }

  datatype Event =
    | HostAct(e: HostEvent)                   // everything but reading a frame
    | HostReads(gone: nat, tear: Tear)
    | GuestConnects
    | GuestReads(gone: nat, tear: Tear)
    | GuestBoots
    | GuestHandles(reply: Reply)
    | GuestReplies
    | GuestFails
    | RealmDies
    | CallerCalls(req: Request)
    | SendAccepted
    | SendRefused
    | ResponseTaken
    | ResponsesEnded

  /** A reader can take the first frame, together with the `gone` frames behind it, which it drops, and
      the beginning of the next if it tears that. */
  predicate CanRead(queue: seq<Frame>, gone: nat, tear: Tear) {
    gone < |queue| && (!tear.Clean? ==> gone + 1 < |queue|) && queue[0] != Torn(false)
  }

  /** What such a reader leaves. */
  function LeftBehind(queue: seq<Frame>, gone: nat, tear: Tear): seq<Frame>
    requires CanRead(queue, gone, tear)
  {
    if tear.Clean? then queue[gone + 1..] else [Torn(tear.Refused?)] + queue[gone + 2..]
  }

  /** Bytes of a later frame are dropped with the reader. */
  predicate OverReads(gone: nat, tear: Tear) {
    gone > 0 || !tear.Clean?
  }

  predicate HostCan(s: State, e: HostEvent) {
    && HostReady(s.host, e)
    && match e
       case StreamResolved(received, _) => received ==> !s.far.guest.Off?
       case ProcessExited(ok) => ok ==> s.far.dead
       case Reaped(ok) => ok ==> s.far.dead
       case RequestTaken(q, _) => s.requests != [] && s.requests[0] == q
       case RequestsClosed => false
       case ReplyRead(reply) => reply.None?
       case AnswerSent(ok) => ok && |s.responses| < 1
       case _ => true
  }

  predicate Enabled(s: State, e: Event) {
    match e
    case HostAct(he) => HostCan(s, he)
    case HostReads(gone, tear) => s.host.phase.AwaitingReply? && CanRead(s.far.up, gone, tear)
    case GuestConnects => s.far.guest.Off? && !s.far.dead
    case GuestReads(gone, tear) =>
      (s.far.guest.AwaitingInfo? || s.far.guest.AwaitingCommand?) && CanRead(s.far.down, gone, tear)
    case GuestBoots => s.far.guest.Booting?
    case GuestHandles(r) => s.far.guest.Handling? && Answers(s.far.guest.command, r)
    case GuestReplies => s.far.guest.Replying?
    case GuestFails => !s.far.guest.Off? && !s.far.guest.Gone?
    case RealmDies => !s.far.dead
    case CallerCalls(_) => s.caller.Idle?
    case SendAccepted => s.caller.Sending? && !s.host.phase.Returned? && |s.requests| < 1
    case SendRefused => s.caller.Sending? && s.host.phase.Returned?
    case ResponseTaken => s.caller.Awaiting? && s.responses != []
    case ResponsesEnded => s.caller.Awaiting? && s.responses == [] && s.host.phase.Returned?
  }

  /** The task moves; its request channel goes with it when it returns. */
  function HostMoves(s: State, he: HostEvent): State
    requires HostReady(s.host, he)
  {
    var h := HostStep(s.host, he);
    s.(host := h,
       requests := if h.phase.Returned? then [] else s.requests,
       io := s.io + EffectsOf(s.host, he, s.info).io)
  }

  function HostActs(s: State, he: HostEvent): State
    requires HostCan(s, he)
  {
    var t := HostMoves(s, he);
    match he
    case StreamResolved(true, true) => t.(far := s.far.(down := s.far.down + [InfoFrame(s.info)]))
    case RequestTaken(q, ok) =>
      var u := t.(requests := if t.host.phase.Returned? then [] else s.requests[1..]);
      if s.host.connected && ok
      then u.(written := s.written + [CommandOf(q)], far := s.far.(down := s.far.down + [CommandFrame(CommandOf(q))]))
      else u
    case AnswerSent(true) => t.(responses := s.responses + [s.host.phase.resp])
    case _ => t
  }

  /** The task takes the frame `head`, of whatever type, and leaves `left` on the stream. */
  function HostTakes(s: State, head: Frame, left: seq<Frame>, lost: bool): State
    requires s.host.phase.AwaitingReply?
  {
    var far := s.far.(up := left, lost := s.far.lost || lost);
    match head
    case ReplyFrame(r) => HostMoves(s, ReplyRead(Some(r))).(read := s.read + [r], far := far)
    case other => HostMoves(s, ReplyRead(None)).(far := far.(mistyped := far.mistyped || !other.Torn?))
  }

  function HostReadsFrame(s: State, gone: nat, tear: Tear): State
    requires s.host.phase.AwaitingReply? && CanRead(s.far.up, gone, tear)
  {
    HostTakes(s, s.far.up[0], LeftBehind(s.far.up, gone, tear), OverReads(gone, tear))
  }

  /** The guest takes the frame `head`: one it does not expect ends it. */
  function GuestTakes(f: Far, head: Frame, left: seq<Frame>, lost: bool): Far {
    var g := f.(down := left, lost := f.lost || lost);
    match head
    case InfoFrame(_) =>
      if f.guest.AwaitingInfo? then g.(guest := Booting) else g.(guest := Gone, mistyped := true)
    case CommandFrame(c) =>
      if f.guest.AwaitingCommand? then g.(guest := Handling(c)) else g.(guest := Gone, mistyped := true)
    case ReplyFrame(_) => g.(guest := Gone, mistyped := true)
    case Torn(_) => g.(guest := Gone)
  }

  function GuestReadsFrame(f: Far, gone: nat, tear: Tear): Far
    requires CanRead(f.down, gone, tear)
  {
    GuestTakes(f, f.down[0], LeftBehind(f.down, gone, tear), OverReads(gone, tear))
  }

  function Completed(s: State, result: CallResult): State
    requires !s.caller.Idle?
  {
    s.(caller := Idle, calls := s.calls + [Call(s.caller.req, result)])
  }

  function Step(s: State, e: Event): State
    requires Enabled(s, e)
  {
    match e
    case HostAct(he) => HostActs(s, he)
    case HostReads(gone, tear) => HostReadsFrame(s, gone, tear)
    case GuestConnects => s.(far := s.far.(guest := AwaitingInfo))
    case GuestReads(gone, tear) => s.(far := GuestReadsFrame(s.far, gone, tear))
    case GuestBoots => s.(far := s.far.(guest := AwaitingCommand))
    case GuestHandles(r) => s.(far := s.far.(guest := Replying(s.far.guest.command, r)))
    case GuestReplies =>
      s.(far := s.far.(
         guest := if s.far.guest.command.Shutdown? then Gone else AwaitingCommand,
         up := s.far.up + [ReplyFrame(s.far.guest.reply)],
         answered := s.far.answered + [(s.far.guest.command, s.far.guest.reply)]))
    case GuestFails => s.(far := s.far.(guest := Gone))
    case RealmDies => s.(far := s.far.(dead := true, guest := if s.far.guest.Off? then Off else Gone))
    case CallerCalls(q) => s.(caller := Sending(q))
    case SendAccepted => s.(caller := Awaiting(s.caller.req), requests := s.requests + [s.caller.req])
    case SendRefused => Completed(s, SendFailed)
    case ResponseTaken =>
      Completed(s, if s.responses[0].Okay? then Succeeded else NotConnected).(responses := s.responses[1..])
    case ResponsesEnded => Completed(s, ChannelClosed)
  }

  predicate Path(s: State, es: seq<Event>)
    decreases |es|
  {
    es != [] ==> Enabled(s, es[0]) && Path(Step(s, es[0]), es[1..])
  }

  function After(s: State, es: seq<Event>): State
    requires Path(s, es)
    decreases |es|
  {
    if es == [] then s else After(Step(s, es[0]), es[1..])
  }
}
