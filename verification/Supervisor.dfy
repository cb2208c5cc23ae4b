/** Launching and supervising an application's process (image/handler/src/docker/launcher.rs). */
module Supervisor {
  import opened Common
  import opened Manifests

  // ---------------------------------------------------------------- launching

  datatype LaunchError = EmptyArgv | UnresolvedId(name: string) | SpawnFailed

  datatype Lookup = Found(id: u32) | Missing | LookupFailed

  /** The user and group databases and the ids the manager itself runs under. */
  datatype Accounts = Accounts(users: string -> Lookup, groups: string -> Lookup, uid: u32, gid: u32)

  datatype Process = Process(argv: seq<string>, env: seq<(string, string)>, uid: u32, gid: u32, dir: Option<string>)

  function Argv(c: LaunchConfig): seq<string> {
    match c.entrypoint
    case Some(entry) => entry + c.cmd
    case None => c.cmd
  }

  /** A name the database does not know stands for the manager's own id. */
  function Resolve(id: Id, db: string -> Lookup, own: u32): Result<u32, LaunchError> {
    match id
    case Id(v) => Ok(v)
    case Name(n) =>
      (match db(n)
       case Found(v) => Ok(v)
       case Missing => Ok(own)
       case LookupFailed => Err(UnresolvedId(n)))
  }

  function Ids(user: Option<UserConfig>, a: Accounts): Result<(u32, u32), LaunchError> {
    match user
    case None => Ok((a.uid, a.gid))
    case Some(UserConfig(u, g)) =>
      match Resolve(u, a.users, a.uid)
      case Err(e) => Err(e)
      case Ok(uid) =>
        match g
        case None => Ok((uid, a.gid))
        case Some(group) =>
          match Resolve(group, a.groups, a.gid)
          case Err(e) => Err(e)
          case Ok(gid) => Ok((uid, gid))
  }

  function Variable(line: string): (string, string) {
    match SplitOnce(line, '=')
    case Some(pair) => pair
    case None => (line, "")
  }

  /** The launcher of one application. `epoch` is the launch whose channels it holds, `launches` how
      many processes it has started. */
  class Launcher {
    const conf: LaunchConfig
    var epoch: Option<nat>
    var launches: nat

    ghost predicate Valid()
      reads this
    {
      epoch == if launches == 0 then None else Some(launches - 1)
    }

    /** The error of a launch that does not succeed. */
    function Obstacle(a: Accounts): LaunchError {
      if Argv(conf) == [] then EmptyArgv
      else if Ids(conf.user, a).Err? then Ids(conf.user, a).error
      else SpawnFailed
    }

    constructor (conf: LaunchConfig)
      ensures this.conf == conf && Valid() && launches == 0
    {
      this.conf := conf;
      epoch, launches := None, 0;
    }

    /** `launch`: a new process with new channels, or an error that leaves the channels as they are. */
    method Launch(a: Accounts, spawned: bool) returns (r: Result<Process, LaunchError>)
      requires Valid()
      modifies this
      ensures Valid()
      ensures launches == old(launches) + if r.Ok? then 1 else 0
      ensures r.Ok? <==> Argv(conf) != [] && Ids(conf.user, a).Ok? && spawned
      ensures r.Ok? ==>
        && r.value.argv == Argv(conf)
        && (r.value.uid, r.value.gid) == Ids(conf.user, a).value
        && r.value.dir == conf.pwd
        && |r.value.env| == |conf.env| && forall i | 0 <= i < |conf.env| :: r.value.env[i] == Variable(conf.env[i])
      ensures r.Err? ==> r.error == Obstacle(a)
      // the arguments: the entry point, then the command
      ensures r == Err(EmptyArgv) <==> conf.cmd == [] && (conf.entrypoint.None? || conf.entrypoint == Some([]))
      ensures r.Ok? ==>
        match conf.entrypoint
        case None => r.value.argv == conf.cmd
        case Some(entry) =>
          var argv, n := r.value.argv, |entry|;
          |argv| == n + |conf.cmd| && argv[..n] == entry && argv[n..] == conf.cmd
      // the environment: the text before and after the first equals sign, or the whole and nothing
      ensures r.Ok? ==> |r.value.env| == |conf.env| && forall i | 0 <= i < |conf.env| ::
        var (name, value) := r.value.env[i];
        if '=' in conf.env[i] then '=' !in name && name + "=" + value == conf.env[i]
        else name == conf.env[i] && value == ""
      // the ids: given, or found in the database, or else the manager's own
      ensures r.Ok? ==>
        r.value.uid ==
        match conf.user
        case None => a.uid
        case Some(UserConfig(Id(v), _)) => v
        case Some(UserConfig(Name(n), _)) => match a.users(n) case Found(v) => v case _ => a.uid
      ensures r.Ok? ==>
        r.value.gid ==
        match conf.user
        case None => a.gid
        case Some(UserConfig(_, None)) => a.gid
        case Some(UserConfig(_, Some(Id(v)))) => v
        case Some(UserConfig(_, Some(Name(n)))) => match a.groups(n) case Found(v) => v case _ => a.gid
      // a lookup that fails, first that of the user
      ensures r.Err? && r.error.UnresolvedId? ==>
        && conf.user.Some?
        && var UserConfig(u, g) := conf.user.value;
           if u.Name? && a.users(u.name).LookupFailed? then r.error.name == u.name
           else g.Some? && g.value.Name? && a.groups(g.value.name).LookupFailed? && r.error.name == g.value.name
      ensures conf.user.Some? && r.Ok? ==>
        && (conf.user.value.uid.Name? ==> !a.users(conf.user.value.uid.name).LookupFailed?)
        && (conf.user.value.gid.Some? && conf.user.value.gid.value.Name? ==>
              !a.groups(conf.user.value.gid.value.name).LookupFailed?)
      ensures r == Err(SpawnFailed) ==> !spawned
    {
      var argv := Argv(conf);
      if argv == [] { return Err(EmptyArgv); }
      var env := seq(|conf.env|, i requires 0 <= i < |conf.env| => Variable(conf.env[i]));
      var ids := Ids(conf.user, a);
      if ids.Err? { return Err(ids.error); }
      if !spawned { return Err(SpawnFailed); }
      epoch, launches := Some(launches), launches + 1;
      r := Ok(Process(argv, env, ids.value.0, ids.value.1, conf.pwd));
    }
  }

  // ---------------------------------------------------------------- the supervisor as an automaton

  datatype Request = Stop | Kill | Wait

  datatype Signal = SigTerm | SigKill

  /** The signal a request sends to the process. */
  function SignalOf(q: Request): Option<Signal> {
    match q
    case Stop => Some(SigTerm)
    case Kill => Some(SigKill)
    case Wait => None
  }

  datatype Phase =
    | Serving                  // in `select!`
    | Reaping                  // a request taken, waiting for the process
    | Responding(status: int)  // sending the status
    | Ended(ok: bool)

  datatype Handler = Handler(phase: Phase, outOpen: bool, errOpen: bool)

  const FRESH_HANDLER := Handler(Serving, true, true)

  datatype HandlerEvent =
    | Taken(req: Request, signalled: bool)
    | Hangup
    | StdoutLine(line: Line)
    | StderrLine(line: Line)
    | Exited(status: Option<int>)
    | Waited(status: Option<int>)
    | Sent(ok: bool)

  predicate HandlerReady(h: Handler, e: HandlerEvent) {
    match e
    case Taken(_, _) => h.phase.Serving?
    case Hangup => h.phase.Serving?
    case StdoutLine(_) => h.phase.Serving? && h.outOpen
    case StderrLine(_) => h.phase.Serving? && h.errOpen
    case Exited(_) => h.phase.Serving?
    case Waited(_) => h.phase.Reaping?
    case Sent(_) => h.phase.Responding?
  }

  function HandlerStep(h: Handler, e: HandlerEvent): Handler
    requires HandlerReady(h, e)
  {
    match e
    case Taken(req, signalled) =>
      h.(phase := if req.Wait? || signalled then Reaping else Ended(false))
    case Hangup => h.(phase := Ended(true))
    case StdoutLine(line) =>
      if line.IoError? then h.(phase := Ended(false)) else h.(outOpen := line.Text?)
    case StderrLine(line) =>
      if line.IoError? then h.(phase := Ended(false)) else h.(errOpen := line.Text?)
    case Exited(status) => h.(phase := Ended(status.Some?))
    case Waited(status) => h.(phase := if status.Some? then Responding(status.value) else Ended(false))
    case Sent(ok) => h.(phase := Ended(ok))
  }

  predicate HandlerPath(h: Handler, es: seq<HandlerEvent>)
    decreases |es|
  {
    es != [] ==> HandlerReady(h, es[0]) && HandlerPath(HandlerStep(h, es[0]), es[1..])
  }

  function HandlerAfter(h: Handler, es: seq<HandlerEvent>): Handler
    requires HandlerPath(h, es)
    decreases |es|
  {
    if es == [] then h else HandlerAfter(HandlerStep(h, es[0]), es[1..])
  }

  /** The statuses a path delivers. */
  function Delivered(h: Handler, es: seq<HandlerEvent>): seq<int>
    requires HandlerPath(h, es)
    decreases |es|
  {
    if es == [] then []
    else (if es[0] == Sent(true) then [h.phase.status] else []) + Delivered(HandlerStep(h, es[0]), es[1..])
  }

  lemma PathStep(h: Handler, e: HandlerEvent, es: seq<HandlerEvent>)
    requires HandlerReady(h, e) && HandlerPath(HandlerStep(h, e), es)
    ensures HandlerPath(h, [e] + es) && HandlerAfter(h, [e] + es) == HandlerAfter(HandlerStep(h, e), es)
    ensures Delivered(h, [e] + es) ==
            (if e == Sent(true) then [h.phase.status] else []) + Delivered(HandlerStep(h, e), es)
  {}

  lemma {:induction false} ConcatPath(h: Handler, a: seq<HandlerEvent>, b: seq<HandlerEvent>)
    requires HandlerPath(h, a) && HandlerPath(HandlerAfter(h, a), b)
    ensures HandlerPath(h, a + b) && HandlerAfter(h, a + b) == HandlerAfter(HandlerAfter(h, a), b)
    decreases |a|
  {
    if a == [] {
      assert a + b == b;
    } else {
      ConcatPath(HandlerStep(h, a[0]), a[1..], b);
      assert (a + b)[1..] == a[1..] + b;
    }
  }

  lemma Associate(x: seq<int>, y: seq<int>, z: seq<int>)
    ensures x + (y + z) == (x + y) + z
    ensures [] + x == x
  {}

  lemma {:induction false} ConcatDelivered(h: Handler, a: seq<HandlerEvent>, b: seq<HandlerEvent>)
    requires HandlerPath(h, a) && HandlerPath(HandlerAfter(h, a), b) && HandlerPath(h, a + b)
    ensures Delivered(h, a + b) == Delivered(h, a) + Delivered(HandlerAfter(h, a), b)
    decreases |a|
  {
    var later := Delivered(HandlerAfter(h, a), b);
    if a == [] {
      assert a + b == b;
      Associate(later, [], []);
    } else {
      var h', rest := HandlerStep(h, a[0]), a[1..];
      assert (a + b)[1..] == rest + b;
      ConcatDelivered(h', rest, b);
      Associate(if a[0] == Sent(true) then [h.phase.status] else [], Delivered(h', rest), later);
    }
  }

  /** Whatever happens, a supervisor delivers at most one status, and ends with it. */
  lemma {:induction false} AtMostOneStatus(h: Handler, es: seq<HandlerEvent>)
    requires HandlerPath(h, es)
    ensures |Delivered(h, es)| <= 1
    ensures Delivered(h, es) != [] ==> HandlerAfter(h, es).phase == Ended(true)
    ensures h.phase.Ended? ==> es == []
    decreases |es|
  {
    if es != [] {
      AtMostOneStatus(HandlerStep(h, es[0]), es[1..]);
    }
  }

  // ---------------------------------------------------------------- the supervisor as a loop

  /** An arm of `select!` becoming ready, with the results of what is awaited inside it. */
  datatype Arm =
    | RequestArm(req: Option<Request>, signalled: bool, status: Option<int>, sent: bool)
    | OutArm(line: Line)
    | ErrArm(line: Line)
    | ExitArm(status: Option<int>)

  /** The awaits completed by an arm; none when its guard is off. */
  function Awaits(h: Handler, arm: Arm): seq<HandlerEvent> {
    match arm
    case RequestArm(None, _, _, _) => [Hangup]
    case RequestArm(Some(q), signalled, status, sent) =>
      if !q.Wait? && !signalled then [Taken(q, signalled)]
      else [Taken(q, signalled)] + if status.None? then [Waited(None)] else [Waited(status)] + [Sent(sent)]
    case OutArm(line) => if h.outOpen then [StdoutLine(line)] else []
    case ErrArm(line) => if h.errOpen then [StderrLine(line)] else []
    case ExitArm(status) => [Exited(status)]
  }

  /** The supervisor after an arm. */
  function Next(h: Handler, arm: Arm): Handler {
    match arm
    case RequestArm(None, _, _, _) => h.(phase := Ended(true))
    case RequestArm(Some(q), signalled, status, sent) =>
      h.(phase := Ended((q.Wait? || signalled) && status.Some? && sent))
    case OutArm(line) =>
      if !h.outOpen then h
      else if line.IoError? then h.(phase := Ended(false)) else h.(outOpen := line.Text?)
    case ErrArm(line) =>
      if !h.errOpen then h
      else if line.IoError? then h.(phase := Ended(false)) else h.(errOpen := line.Text?)
    case ExitArm(status) => h.(phase := Ended(status.Some?))
  }

  /** The status an arm delivers. */
  function DeliveredBy(h: Handler, arm: Arm): seq<int> {
    if arm.RequestArm? && arm.req.Some? && Next(h, arm).phase == Ended(true) then [arm.status.value] else []
  }

  lemma WaitIsPath(h: Handler, status: Option<int>, sent: bool)
    requires h.phase.Reaping?
    ensures var es := if status.None? then [Waited(None)] else [Waited(status)] + [Sent(sent)];
            && HandlerPath(h, es) && HandlerAfter(h, es) == h.(phase := Ended(status.Some? && sent))
            && Delivered(h, es) == if status.Some? && sent then [status.value] else []
  {
    if status.Some? {
      PathStep(HandlerStep(h, Waited(status)), Sent(sent), []);
      PathStep(h, Waited(status), [Sent(sent)]);
    }
  }

  lemma AwaitsIsPath(h: Handler, arm: Arm)
    requires h.phase.Serving?
    ensures HandlerPath(h, Awaits(h, arm)) && HandlerAfter(h, Awaits(h, arm)) == Next(h, arm)
    ensures Delivered(h, Awaits(h, arm)) == DeliveredBy(h, arm)
  {
    if arm.RequestArm? && arm.req.Some? {
      var e := Taken(arm.req.value, arm.signalled);
      if arm.req.value.Wait? || arm.signalled {
        WaitIsPath(HandlerStep(h, e), arm.status, arm.sent);
        PathStep(h, e, if arm.status.None? then [Waited(None)] else [Waited(arm.status)] + [Sent(arm.sent)]);
      } else {
        PathStep(h, e, []);
      }
    } else if Awaits(h, arm) != [] {
      PathStep(h, Awaits(h, arm)[0], []);
    }
  }

  /** The awaits completed when the arms become ready in the given order. */
  function AwaitsOf(h: Handler, arms: seq<Arm>): seq<HandlerEvent>
    decreases |arms|
  {
    if arms == [] || !h.phase.Serving? then []
    else Awaits(h, arms[0]) + AwaitsOf(Next(h, arms[0]), arms[1..])
  }

  lemma AwaitsOfNext(h: Handler, arms: seq<Arm>, i: nat, before: seq<HandlerEvent>)
    requires i < |arms| && h.phase.Serving?
    ensures before + AwaitsOf(h, arms[i..]) == (before + Awaits(h, arms[i])) + AwaitsOf(Next(h, arms[i]), arms[i + 1..])
  {}

  /** After `i` arms the supervisor is in state `h` by way of `path`, which is the first part of the
      path of all arms; it has sent `delivered`. */
  ghost predicate SoFar(arms: seq<Arm>, i: nat, h: Handler, path: seq<HandlerEvent>, delivered: seq<int>) {
    && i <= |arms| && (h.phase.Serving? || h.phase.Ended?)
    && HandlerPath(FRESH_HANDLER, path) && HandlerAfter(FRESH_HANDLER, path) == h
    && delivered == Delivered(FRESH_HANDLER, path)
    && AwaitsOf(FRESH_HANDLER, arms) == path + AwaitsOf(h, arms[i..])
    && (h.phase.Serving? ==> forall k | 0 <= k < i :: !arms[k].RequestArm? && !arms[k].ExitArm?)
  }

  lemma SoFarNext(arms: seq<Arm>, i: nat, h: Handler, path: seq<HandlerEvent>, delivered: seq<int>)
    requires i < |arms| && h.phase.Serving? && SoFar(arms, i, h, path, delivered)
    ensures SoFar(arms, i + 1, Next(h, arms[i]), path + Awaits(h, arms[i]), delivered + DeliveredBy(h, arms[i]))
  {
    AwaitsIsPath(h, arms[i]);
    ConcatPath(FRESH_HANDLER, path, Awaits(h, arms[i]));
    ConcatDelivered(FRESH_HANDLER, path, Awaits(h, arms[i]));
    AwaitsOfNext(h, arms, i, path);
  }

  lemma SoFarEnds(arms: seq<Arm>, i: nat, h: Handler, path: seq<HandlerEvent>, delivered: seq<int>)
    requires SoFar(arms, i, h, path, delivered) && (i == |arms| || !h.phase.Serving?)
    ensures path == AwaitsOf(FRESH_HANDLER, arms)
    ensures (exists a <- arms :: a.RequestArm? || a.ExitArm?) ==> h.phase.Ended?
  {
    assert AwaitsOf(h, arms[i..]) == [];
  }

  /** The first `n` arms are lines of output, and reads that fail only on a pipe that has been closed. */
  ghost predicate Quietly(arms: seq<Arm>, n: nat) {
    && n <= |arms|
    && forall k | 0 <= k < n ::
         match arms[k]
         case OutArm(line) => line.IoError? ==> OutArm(Eof) in arms[..k]
         case ErrArm(line) => line.IoError? ==> ErrArm(Eof) in arms[..k]
         case _ => false
  }

  /** Arm `n` is the first that can end the supervisor: a request, an exit, or a read on an open pipe. */
  ghost predicate FirstToEnd(arms: seq<Arm>, n: nat) {
    && Quietly(arms, n) && n < |arms|
    && (arms[n].OutArm? ==> OutArm(Eof) !in arms[..n])
    && (arms[n].ErrArm? ==> ErrArm(Eof) !in arms[..n])
  }

  /** What an arm that ends the supervisor leaves: its last phase, the statuses and the signals sent. */
  function Outcome(arm: Arm): (Phase, seq<int>, seq<Signal>) {
    match arm
    case OutArm(_) => (Ended(false), [], [])
    case ErrArm(_) => (Ended(false), [], [])
    case ExitArm(status) => (Ended(status.Some?), [], [])
    case RequestArm(None, _, _, _) => (Ended(true), [], [])
    case RequestArm(Some(q), signalled, status, sent) =>
      var ok := (q.Wait? || signalled) && status.Some? && sent;
      (Ended(ok), if ok then [status.value] else [],
       if signalled && q.Stop? then [SigTerm] else if signalled && q.Kill? then [SigKill] else [])
  }

  /** The loop has gone through `n` arms and goes on. */
  ghost predicate Progress(arms: seq<Arm>, n: nat, outOpen: bool, errOpen: bool, path: seq<HandlerEvent>) {
    && SoFar(arms, n, Handler(Serving, outOpen, errOpen), path, []) && Quietly(arms, n)
    && (outOpen <==> OutArm(Eof) !in arms[..n]) && (errOpen <==> ErrArm(Eof) !in arms[..n])
  }

  /** The path of a run that is over. */
  ghost predicate WholePath(arms: seq<Arm>, path: seq<HandlerEvent>, phase: Phase, delivered: seq<int>) {
    && path == AwaitsOf(FRESH_HANDLER, arms)
    && HandlerPath(FRESH_HANDLER, path) && HandlerAfter(FRESH_HANDLER, path).phase == phase
    && delivered == Delivered(FRESH_HANDLER, path)
  }

  lemma ProgressNext(arms: seq<Arm>, n: nat, outOpen: bool, errOpen: bool, path: seq<HandlerEvent>)
    requires n < |arms| && Progress(arms, n, outOpen, errOpen, path)
    ensures var h := Handler(Serving, outOpen, errOpen);
            var next, more := Next(h, arms[n]), path + Awaits(h, arms[n]);
            if next.phase.Serving? then Progress(arms, n + 1, next.outOpen, next.errOpen, more)
            else WholePath(arms, more, next.phase, DeliveredBy(h, arms[n])) && FirstToEnd(arms, n)
  {
    var h := Handler(Serving, outOpen, errOpen);
    SoFarNext(arms, n, h, path, []);
    assert [] + DeliveredBy(h, arms[n]) == DeliveredBy(h, arms[n]);
    if Next(h, arms[n]).phase.Serving? {
      assert arms[..n + 1] == arms[..n] + [arms[n]];
    } else {
      SoFarEnds(arms, n + 1, Next(h, arms[n]), path + Awaits(h, arms[n]), DeliveredBy(h, arms[n]));
    }
  }

  /** The supervisor after the first `n` arms. */
  function StateAfter(arms: seq<Arm>, n: nat): Handler
    requires n <= |arms|
  {
    if n == 0 then FRESH_HANDLER else Next(StateAfter(arms, n - 1), arms[n - 1])
  }

  lemma {:induction false} Goes(arms: seq<Arm>, n: nat) returns (path: seq<HandlerEvent>)
    requires n <= |arms| && StateAfter(arms, n).phase.Serving?
    ensures var h := StateAfter(arms, n); Progress(arms, n, h.outOpen, h.errOpen, path)
  {
    path := [];
    if n == 0 {
      assert arms[0..] == arms;
    } else {
      var h := StateAfter(arms, n - 1);
      path := Goes(arms, n - 1);
      ProgressNext(arms, n - 1, h.outOpen, h.errOpen, path);
      path := path + Awaits(h, arms[n - 1]);
    }
  }

  /** A run that goes through all arms. */
  lemma GoesOn(arms: seq<Arm>) returns (path: seq<HandlerEvent>)
    requires StateAfter(arms, |arms|).phase.Serving?
    ensures WholePath(arms, path, Serving, []) && Quietly(arms, |arms|)
  {
    var h := StateAfter(arms, |arms|);
    path := Goes(arms, |arms|);
    SoFarEnds(arms, |arms|, h, path, []);
  }

  /** A run that arm `n` ends. */
  lemma EndsAt(arms: seq<Arm>, n: nat) returns (path: seq<HandlerEvent>)
    requires n < |arms| && StateAfter(arms, n).phase.Serving? && !Next(StateAfter(arms, n), arms[n]).phase.Serving?
    ensures var h := StateAfter(arms, n); WholePath(arms, path, Next(h, arms[n]).phase, DeliveredBy(h, arms[n]))
    ensures FirstToEnd(arms, n)
  {
    var h := StateAfter(arms, n);
    path := Goes(arms, n);
    ProgressNext(arms, n, h.outOpen, h.errOpen, path);
    path := path + Awaits(h, arms[n]);
  }

  /** `handler`: serves at most one request, logs output, ends with the process. Every run is a path
      of the automaton, the one its arms determine; `delivered` are the statuses and `signals` the
      signals sent. Output changes nothing until a read fails on an open pipe; otherwise the first other
      arm, `arms[last]`, ends the supervisor. */
  method Handle(arms: seq<Arm>)
    returns (phase: Phase, delivered: seq<int>, signals: seq<Signal>, last: nat, ghost path: seq<HandlerEvent>)
    ensures WholePath(arms, path, phase, delivered)
    ensures phase.Serving? || phase.Ended?
    ensures phase.Serving? ==> last == |arms| && Quietly(arms, last) && delivered == [] && signals == []
    ensures phase.Ended? ==> FirstToEnd(arms, last) && (phase, delivered, signals) == Outcome(arms[last])
  {
    var outOpen, errOpen := true, true;
    phase, delivered, signals, last := Serving, [], [], 0;
    while last < |arms|
      invariant 0 <= last <= |arms| && phase.Serving? && delivered == [] && signals == []
      invariant Handler(phase, outOpen, errOpen) == StateAfter(arms, last)
    {
      phase, outOpen, errOpen, delivered, signals := ServeArm(arms[last], outOpen, errOpen);
      if phase.Ended? {
        path := EndsAt(arms, last);
        return;
      }
      last := last + 1;
    }
    path := GoesOn(arms);
  }

  /** The body of one arm; its awaits are a path to the same state that delivers the same
      (`AwaitsIsPath`). */
  method ServeArm(arm: Arm, outOpen: bool, errOpen: bool)
    returns (phase: Phase, outStill: bool, errStill: bool, one: seq<int>, signals: seq<Signal>)
    ensures var h := Handler(Serving, outOpen, errOpen);
            Handler(phase, outStill, errStill) == Next(h, arm) && one == DeliveredBy(h, arm)
    ensures outStill == (outOpen && arm != OutArm(Eof)) && errStill == (errOpen && arm != ErrArm(Eof))
    ensures arm.ExitArm? ==> phase == Ended(arm.status.Some?)
    ensures arm.OutArm? || arm.ErrArm? ==> phase.Serving? || phase == Ended(false)
    ensures !arm.RequestArm? ==> one == [] && signals == []
    ensures phase.Serving? <==> (arm.OutArm? && (arm.line.IoError? ==> !outOpen)) ||
                                (arm.ErrArm? && (arm.line.IoError? ==> !errOpen))
    ensures !phase.Serving? ==> (phase, one, signals) == Outcome(arm)
  {
    phase, outStill, errStill, one, signals := Serving, outOpen, errOpen, [], [];
    match arm {
      case RequestArm(req, signalled, status, sent) =>
        phase, one, signals := ServeRequest(req, signalled, status, sent);
      case OutArm(line) =>
        if outOpen {
          if line.IoError? { phase := Ended(false); } else { outStill := line.Text?; }
        }
      case ErrArm(line) =>
        if errOpen {
          if line.IoError? { phase := Ended(false); } else { errStill := line.Text?; }
        }
      case ExitArm(status) =>
        phase := Ended(status.Some?);
    }
  }

  /** The request arm: signal, wait for the process, send its status, leave the loop. `signalled` says
      whether the signal, if there is one, can be sent. */
  method ServeRequest(req: Option<Request>, signalled: bool, status: Option<int>, sent: bool)
    returns (phase: Phase, one: seq<int>, signals: seq<Signal>)
    ensures phase == if req.None? then Ended(true)
                     else Ended((req == Some(Wait) || signalled) && status.Some? && sent)
    ensures one == if req.Some? && phase == Ended(true) then [status.value] else []
    ensures req == Some(Stop) && signalled ==> signals == [SigTerm]
    ensures req == Some(Kill) && signalled ==> signals == [SigKill]
    ensures req.None? || req == Some(Wait) || !signalled ==> signals == []
  {
    one, signals := [], [];
    if req.None? { return Ended(true), [], []; }
    var signal := SignalOf(req.value);
    if signal.Some? {
      if !signalled { return Ended(false), [], []; }
      signals := [signal.value];
    }
    if status.None? { return Ended(false), [], signals; }
    phase := Ended(sent);
    one := if sent then [status.value] else [];
  }
}
