/** The guest side: the boot pipeline and the event loop of the application manager
    (app-manager/src/manager.rs, app-manager/src/app.rs, app-manager/src/main.rs). */
module Manager {
  import opened Common
  import opened Manifests
  import opened Messages

  // ---------------------------------------------------------------- applications

  /** Operations whose success is up to the kernel, the disks or the registry. */
  datatype Op = CreateWorkdir | OpenMain | MountMain | OpenSecure | MountSecure | MountOverlay | Spawn

  /** The world an application boots in: which operations succeed for which application, and what
      installing (`true`) or validating (`false`) its image yields. */
  datatype World = World(works: (Op, string) -> bool, image: (bool, string) -> Option<ContainerConfig>)

  datatype App = App(
    info: ApplicationInfo,
    mainStorage: bool,                    // decrypted device present
    mainMounted: bool,
    launcher: Option<ContainerConfig>,
    secureStorage: bool,
    secureMounted: bool,
    overlay: bool)

  datatype BootError =
    | NoProvisionInfo
    | OpFailed(op: Op, app: string)
    | ImageRejected(app: string)
    | MainStorageNotDecrypted(app: string)
    | SecureStorageNotDecrypted(app: string)
    | ApplicationNotInstalled(app: string)

  /** The stages between reading the provisioning info and launching, in the order of `main`. */
  datatype Stage = DecryptMain | ProvisionImage | DecryptSecure | ProvisionSecure | Overlay

  function NewApp(info: ApplicationInfo): App {
    App(info, false, false, None, false, false, false)
  }

  /** One stage of one application. */
  function RunStage(w: World, stage: Stage, name: string, a: App): Result<App, BootError> {
    match stage
    case DecryptMain =>
      if w.works(OpenMain, name) then Ok(a.(mainStorage := true)) else Err(OpFailed(OpenMain, name))
    case ProvisionImage =>
      if !a.mainStorage then Err(MainStorageNotDecrypted(name))
      else if !w.works(MountMain, name) then Err(OpFailed(MountMain, name))
      else
        (match w.image(a.info.provision.Some?, name)
         case None => Err(ImageRejected(name))
         case Some(c) => Ok(a.(mainMounted := true, launcher := Some(c))))
    case DecryptSecure =>
      if w.works(OpenSecure, name) then Ok(a.(secureStorage := true)) else Err(OpFailed(OpenSecure, name))
    case ProvisionSecure =>
      if !a.secureStorage then Err(SecureStorageNotDecrypted(name))
      else if !w.works(MountSecure, name) then Err(OpFailed(MountSecure, name))
      else Ok(a.(secureMounted := true))
    case Overlay =>
      if w.works(MountOverlay, name) then Ok(a.(overlay := true)) else Err(OpFailed(MountOverlay, name))
  }

  function Launch(w: World, name: string, a: App): Result<(), BootError> {
    if a.launcher.None? then Err(ApplicationNotInstalled(name))
    else if !w.works(Spawn, name) then Err(OpFailed(Spawn, name))
    else Ok(())
  }

  /** Everything an application needs before it may run. */
  predicate Ready(a: App) {
    a.mainStorage && a.mainMounted && a.launcher.Some? && a.secureStorage && a.secureMounted && a.overlay
  }

  /** An application after the first `k` stages, whatever the order of visits. */
  function AppAt(w: World, name: string, info: ApplicationInfo, k: nat): App {
    var image := w.image(info.provision.Some?, name);
    App(info, k >= 1, k >= 2, if k >= 2 then image else None, k >= 3, k >= 4, k >= 5)
  }

  function AppsAt(w: World, infos: map<string, ApplicationInfo>, k: nat): map<string, App> {
    map n | n in infos :: AppAt(w, n, infos[n], k)
  }

  const STAGES := [DecryptMain, ProvisionImage, DecryptSecure, ProvisionSecure, Overlay]

  /** The operations of a stage succeed for an application. */
  predicate StageWorks(w: World, stage: Stage, name: string, info: ApplicationInfo) {
    match stage
    case DecryptMain => w.works(OpenMain, name)
    case ProvisionImage => w.works(MountMain, name) && w.image(info.provision.Some?, name).Some?
    case DecryptSecure => w.works(OpenSecure, name)
    case ProvisionSecure => w.works(MountSecure, name)
    case Overlay => w.works(MountOverlay, name)
  }

  /** Everything up to stage `k` works for every application. */
  ghost predicate WorksUpTo(w: World, infos: map<string, ApplicationInfo>, k: nat)
    requires k <= |STAGES|
  {
    && (forall n <- infos :: w.works(CreateWorkdir, n))
    && forall i, n | 0 <= i < k && n in infos :: StageWorks(w, STAGES[i], n, infos[n])
  }

  /** The steps of the boot in order: the first `pos` of them work for every application. */
  ghost predicate Passes(w: World, infos: map<string, ApplicationInfo>, pos: nat) {
    forall n <- infos ::
      && (pos > 0 ==> w.works(CreateWorkdir, n))
      && (pos > 1 ==> w.works(OpenMain, n))
      && (pos > 2 ==> w.works(MountMain, n) && w.image(infos[n].provision.Some?, n).Some?)
      && (pos > 3 ==> w.works(OpenSecure, n))
      && (pos > 4 ==> w.works(MountSecure, n))
      && (pos > 5 ==> w.works(MountOverlay, n))
      && (pos > 6 ==> w.works(Spawn, n))
  }

  /** The step an error comes from. */
  function Position(e: BootError): nat {
    match e
    case OpFailed(CreateWorkdir, _) => 0
    case OpFailed(OpenMain, _) => 1
    case OpFailed(MountMain, _) => 2
    case ImageRejected(_) => 2
    case OpFailed(OpenSecure, _) => 3
    case OpFailed(MountSecure, _) => 4
    case OpFailed(MountOverlay, _) => 5
    case _ => 6
  }

  lemma WorksIsPasses(w: World, infos: map<string, ApplicationInfo>, k: nat)
    requires k <= |STAGES|
    ensures WorksUpTo(w, infos, k) <==> Passes(w, infos, k + 1)
  {
    if WorksUpTo(w, infos, k) {
      forall n <- infos, i | 0 <= i < k ensures StageWorks(w, STAGES[i], n, infos[n]) {}
      forall n <- infos
        ensures k > 0 ==> StageWorks(w, STAGES[0], n, infos[n])
        ensures k > 1 ==> StageWorks(w, STAGES[1], n, infos[n])
        ensures k > 2 ==> StageWorks(w, STAGES[2], n, infos[n])
        ensures k > 3 ==> StageWorks(w, STAGES[3], n, infos[n])
        ensures k > 4 ==> StageWorks(w, STAGES[4], n, infos[n])
      {}
    }
  }

  ghost predicate StageOk(w: World, stage: Stage, apps: map<string, App>) {
    forall n <- apps :: RunStage(w, stage, n, apps[n]).Ok?
  }

  ghost predicate StageRun(w: World, stage: Stage, before: map<string, App>, after: map<string, App>) {
    after.Keys == before.Keys && forall n <- before :: RunStage(w, stage, n, before[n]) == Ok(after[n])
  }

  /** A stage under way: the applications of `todo` are as before, the others have gone through it. */
  ghost predicate Visited(w: World, stage: Stage, before: map<string, App>, now: map<string, App>, todo: set<string>) {
    && todo <= now.Keys == before.Keys
    && (forall n <- todo :: now[n] == before[n])
    && (forall n <- now.Keys - todo :: RunStage(w, stage, n, before[n]) == Ok(now[n]))
  }

  lemma VisitNext(w: World, stage: Stage, before: map<string, App>, now: map<string, App>,
                  todo: set<string>, name: string)
    requires Visited(w, stage, before, now, todo) && name in todo && RunStage(w, stage, name, now[name]).Ok?
    ensures Visited(w, stage, before, now[name := RunStage(w, stage, name, now[name]).value], todo - {name})
  {}

  lemma VisitsDone(w: World, stage: Stage, before: map<string, App>, now: map<string, App>)
    requires Visited(w, stage, before, now, {})
    ensures StageOk(w, stage, before) && StageRun(w, stage, before, now)
  {
    assert now.Keys - {} == before.Keys;
  }

  lemma VisitFails(w: World, stage: Stage, before: map<string, App>, now: map<string, App>,
                   todo: set<string>, name: string)
    requires Visited(w, stage, before, now, todo) && name in todo && RunStage(w, stage, name, now[name]).Err?
    ensures !StageOk(w, stage, before)
    ensures name in before && RunStage(w, stage, name, before[name]) == RunStage(w, stage, name, now[name])
    ensures now[name] == before[name]
  {}

  /** In the order of the pipeline a stage never fails for want of an earlier one, and it takes every
      application to the next point. */
  lemma StageAdvances(w: World, infos: map<string, ApplicationInfo>, k: nat, after: map<string, App>)
    requires k < |STAGES|
    ensures StageOk(w, STAGES[k], AppsAt(w, infos, k)) <==> forall n <- infos :: StageWorks(w, STAGES[k], n, infos[n])
    ensures StageRun(w, STAGES[k], AppsAt(w, infos, k), after) ==> after == AppsAt(w, infos, k + 1)
    ensures forall n <- infos :: RunStage(w, STAGES[k], n, AppsAt(w, infos, k)[n]).Err? ==>
              var e := RunStage(w, STAGES[k], n, AppsAt(w, infos, k)[n]).error;
              (e.OpFailed? || e.ImageRejected?) && Position(e) == k + 1
  {
    var apps := AppsAt(w, infos, k);
    forall n <- infos
      ensures RunStage(w, STAGES[k], n, apps[n]).Ok? <==> StageWorks(w, STAGES[k], n, infos[n])
      ensures RunStage(w, STAGES[k], n, apps[n]).Ok? ==>
                RunStage(w, STAGES[k], n, apps[n]).value == AppAt(w, n, infos[n], k + 1)
      ensures RunStage(w, STAGES[k], n, apps[n]).Err? ==>
                var e := RunStage(w, STAGES[k], n, apps[n]).error;
                (e.OpFailed? || e.ImageRejected?) && Position(e) == k + 1
    {
      AppStageAdvances(w, n, infos[n], k);
    }
    if StageRun(w, STAGES[k], apps, after) {
      assert after.Keys == AppsAt(w, infos, k + 1).Keys;
    }
  }

  lemma AppStageAdvances(w: World, n: string, info: ApplicationInfo, k: nat)
    requires k < |STAGES|
    ensures var r := RunStage(w, STAGES[k], n, AppAt(w, n, info, k));
            && (r.Ok? <==> StageWorks(w, STAGES[k], n, info))
            && (r.Ok? ==> r.value == AppAt(w, n, info, k + 1))
            && (r.Err? ==> (r.error.OpFailed? || r.error.ImageRejected?) && Position(r.error) == k + 1)
  {}

  lemma AllReady(w: World, infos: map<string, ApplicationInfo>)
    requires WorksUpTo(w, infos, 5)
    ensures forall n <- AppsAt(w, infos, 5) ::
              Ready(AppsAt(w, infos, 5)[n]) && (Launch(w, n, AppsAt(w, infos, 5)[n]).Ok? <==> w.works(Spawn, n))
  {
    forall n <- infos ensures w.image(infos[n].provision.Some?, n).Some? {
      assert StageWorks(w, STAGES[1], n, infos[n]);
    }
  }

  // ---------------------------------------------------------------- the manager

  class AppManager {
    var apps: map<string, App>
    var handles: seq<string>          // the applications launched, in order

    constructor ()
      ensures apps == map[] && handles == []
    {
      apps, handles := map[], [];
    }

    /** `read_provision_info`, for the realm info read from the host, if any. */
    method ReadProvisionInfo(w: World, info: Option<RealmInfo>) returns (r: Result<(), BootError>)
      requires apps == map[]
      modifies `apps
      ensures r.Ok? <==> info.Some? && forall n <- info.value.apps :: w.works(CreateWorkdir, n)
      ensures r.Ok? ==> apps == map n | n in info.value.apps :: NewApp(info.value.apps[n])
      ensures r.Ok? ==> forall n <- apps :: apps[n] == App(info.value.apps[n], false, false, None, false, false, false)
      ensures r.Err? ==>
        if info.None? then r.error.NoProvisionInfo? else r.error.OpFailed? && r.error.op == CreateWorkdir
    {
      if info.None? { return Err(NoProvisionInfo); }
      var todo := info.value.apps.Keys;
      while todo != {}
        invariant todo <= info.value.apps.Keys
        invariant apps == map n | n in info.value.apps && n !in todo :: NewApp(info.value.apps[n])
        invariant forall n <- info.value.apps | n !in todo :: w.works(CreateWorkdir, n)
        decreases |todo|
      {
        var name :| name in todo;
        todo := todo - {name};
        if !w.works(CreateWorkdir, name) { return Err(OpFailed(CreateWorkdir, name)); }
        apps := apps[name := NewApp(info.value.apps[name])];
      }
      r := Ok(());
    }

    /** A stage method: every application in turn, in the order the hash map happens to have, up to
        the first failure. It succeeds exactly when the stage succeeds for every application, and then
        every application has gone through it. */
    method ForEachApp(w: World, stage: Stage) returns (r: Result<(), BootError>)
      modifies `apps
      ensures apps.Keys == old(apps).Keys
      ensures r.Ok? <==> StageOk(w, stage, old(apps))
      ensures r.Ok? ==> StageRun(w, stage, old(apps), apps)
      ensures r.Err? ==> exists n <- old(apps) ::
                RunStage(w, stage, n, old(apps)[n]) == Err(r.error) && apps[n] == old(apps)[n]
    {
      var todo := apps.Keys;
      ghost var before := apps;
      while todo != {}
        invariant Visited(w, stage, before, apps, todo)
        decreases |todo|
      {
        var name :| name in todo;
        var ran := RunStage(w, stage, name, apps[name]);
        if ran.Err? {
          VisitFails(w, stage, before, apps, todo, name);
          return Err(ran.error);
        }
        VisitNext(w, stage, before, apps, todo, name);
        apps := apps[name := ran.value];
        todo := todo - {name};
      }
      VisitsDone(w, stage, before, apps);
      r := Ok(());
    }

    /** `launch_applications`. */
    method LaunchApplications(w: World) returns (r: Result<(), BootError>)
      modifies `handles
      ensures old(handles) <= handles
      ensures forall n <- handles[|old(handles)|..] :: n in apps && Launch(w, n, apps[n]).Ok?
      ensures forall n <- handles[|old(handles)|..] :: apps[n].launcher.Some? && w.works(Spawn, n)
      ensures r.Ok? <==> forall n <- apps :: Launch(w, n, apps[n]).Ok?
      ensures r.Ok? ==> multiset(handles) == multiset(old(handles)) + multiset(apps.Keys)
      ensures multiset(handles) <= multiset(old(handles)) + multiset(apps.Keys)
      ensures r.Err? ==> exists n <- apps :: Launch(w, n, apps[n]) == Err(r.error)
    {
      var todo := apps.Keys;
      while todo != {}
        invariant todo <= apps.Keys
        invariant old(handles) <= handles
        invariant forall n <- handles[|old(handles)|..] :: n in apps && Launch(w, n, apps[n]).Ok?
        invariant forall n <- apps | n !in todo :: Launch(w, n, apps[n]).Ok?
        invariant multiset(handles) + multiset(todo) == multiset(old(handles)) + multiset(apps.Keys)
        decreases |todo|
      {
        var name :| name in todo;
        var launched := Launch(w, name, apps[name]);
        if launched.Err? { return Err(launched.error); }
        handles := handles + [name];
        todo := todo - {name};
      }
      r := Ok(());
    }

    /** The stages up to the launch, in the order of `main`. */
    method Prepare(w: World, info: Option<RealmInfo>) returns (r: Result<(), BootError>)
      requires apps == map[]
      modifies `apps
      ensures r.Ok? <==> info.Some? && WorksUpTo(w, info.value.apps, 5)
      ensures r.Ok? ==> apps == AppsAt(w, info.value.apps, 5)
      ensures r.Err? ==> r.error.NoProvisionInfo? || r.error.OpFailed? || r.error.ImageRejected?
      ensures r.Err? && info.Some? ==>
        && Position(r.error) < 6 && Passes(w, info.value.apps, Position(r.error))
        && !Passes(w, info.value.apps, Position(r.error) + 1)
    {
      r := ReadProvisionInfo(w, info);
      if r.Err? { return; }
      ghost var infos := info.value.apps;
      assert apps == AppsAt(w, infos, 0);
      r := NextStage(w, infos, 0);
      if r.Err? { return; }
      r := NextStage(w, infos, 1);
      if r.Err? { return; }
      r := NextStage(w, infos, 2);
      if r.Err? { return; }
      r := NextStage(w, infos, 3);
      if r.Err? { return; }
      r := NextStage(w, infos, 4);
    }

    /** Stage `k` of the pipeline. */
    method NextStage(w: World, ghost infos: map<string, ApplicationInfo>, k: nat) returns (r: Result<(), BootError>)
      requires k < 5 && apps == AppsAt(w, infos, k) && WorksUpTo(w, infos, k)
      modifies `apps
      ensures r.Ok? ==> apps == AppsAt(w, infos, k + 1) && WorksUpTo(w, infos, k + 1)
      ensures r.Err? ==> !WorksUpTo(w, infos, 5)
      ensures r.Err? ==>
        && (r.error.OpFailed? || r.error.ImageRejected?)
        && Position(r.error) == k + 1 && Passes(w, infos, k + 1) && !Passes(w, infos, k + 2)
    {
      WorksIsPasses(w, infos, k);
      WorksIsPasses(w, infos, k + 1);
      r := ForEachApp(w, STAGES[k]);
      StageAdvances(w, infos, k, apps);
    }

    /** The boot sequence of `main`, from the realm info to the launched applications. An application
        is launched only when every application is ready; whether the preparation succeeds and what
        it leaves does not depend on the order in which applications are visited; and no stage ever
        misses what an earlier one should have provided. */
    method Boot(w: World, info: Option<RealmInfo>) returns (r: Result<(), BootError>)
      requires apps == map[] && handles == []
      modifies this
      ensures handles != [] ==> info.Some? && Passes(w, info.value.apps, 6) && forall n <- apps :: Ready(apps[n])
      ensures info.None? || !WorksUpTo(w, info.value.apps, 5) ==> r.Err? && handles == []
      ensures info.Some? && WorksUpTo(w, info.value.apps, 5) ==>
        && apps == AppsAt(w, info.value.apps, 5)
        && (r.Ok? <==> forall n <- info.value.apps :: w.works(Spawn, n))
      ensures r.Ok? ==> info.Some? && multiset(handles) == multiset(info.value.apps.Keys)
      ensures r.Ok? <==> info.Some? && Passes(w, info.value.apps, 7)
      ensures r.Err? && info.Some? ==>
        Passes(w, info.value.apps, Position(r.error)) && !Passes(w, info.value.apps, Position(r.error) + 1)
      ensures r.Ok? ==> apps.Keys == info.value.apps.Keys && forall n <- apps ::
        && apps[n].info == info.value.apps[n]
        && apps[n].launcher == w.image(info.value.apps[n].provision.Some?, n)
        && apps[n].mainMounted && apps[n].secureMounted && apps[n].overlay
      ensures r.Err? ==>
        !r.error.MainStorageNotDecrypted? && !r.error.SecureStorageNotDecrypted? && !r.error.ApplicationNotInstalled?
    {
      r := Prepare(w, info);
      if r.Ok? {
        ghost var infos := info.value.apps;
        AllReady(w, infos);
        WorksIsPasses(w, infos, 5);
        r := LaunchApplications(w);
        assert apps.Keys == infos.Keys;
      }
    }

    // -------------------------------------------------------------- commands

    /** `handle_command`; `action` is what stopping, killing or launching the application yields: an
        exit status (ignored by a launch), or nothing when it fails. */
    method HandleCommand(c: Command, action: Option<int>) returns (r: Option<Reply>)
      modifies `handles
      ensures r == Handled(apps, c, action)
      ensures match c
              case Shutdown => r == Some(Done) && handles == old(handles)
              case StartApp(id) =>
                if id in apps && apps[id].launcher.Some? && action.Some?
                then r == Some(Done) && handles == old(handles) + [id]
                else r == None && handles == old(handles)
              case TerminateApp(id) =>
                && handles == old(handles)
                && r == if id in apps && apps[id].launcher.Some? && action.Some?
                        then Some(ExitStatus(action.value)) else None
              case KillApp(id) =>
                && handles == old(handles)
                && r == if id in apps && apps[id].launcher.Some? && action.Some?
                        then Some(ExitStatus(action.value)) else None
    {
      match c {
        case Shutdown => r := Some(Done);
        case TerminateApp(id) =>
          r := if id in apps && apps[id].launcher.Some? && action.Some? then Some(ExitStatus(action.value)) else None;
        case KillApp(id) =>
          r := if id in apps && apps[id].launcher.Some? && action.Some? then Some(ExitStatus(action.value)) else None;
        case StartApp(id) =>
          if id in apps && apps[id].launcher.Some? && action.Some? {
            handles := handles + [id];
            r := Some(Done);
          } else {
            r := None;
          }
      }
    }

    /** One turn of the loop: read, handle, reply. It ends the loop after a shutdown has been answered
        or when something fails. */
    method ServeTurn(turn: Turn)
      returns (answers: seq<(Command, Reply)>, end: Option<LoopEnd>, ghost started: seq<string>)
      modifies `handles
      ensures Service(answers, started, end) == TurnOf(apps, turn) && handles == old(handles) + started
      ensures turn.command.None? ==> end == Some(ReadFailed) && answers == [] && started == []
      ensures turn.command.Some? ==>
        var c := turn.command.value;
        var works := c.Shutdown? || (c.id in apps && apps[c.id].launcher.Some? && turn.action.Some?);
        && started == (if works && c.StartApp? then [c.id] else [])
        && if !works then end == Some(CommandFailed) && answers == []
           else if !turn.written then end == Some(WriteFailed) && answers == []
           else
             && |answers| == 1 && answers[0].0 == c
             && answers[0].1 == (if c.TerminateApp? || c.KillApp? then ExitStatus(turn.action.value) else Done)
             && end == if c.Shutdown? then Some(ShutDown) else None
    {
      answers, started := [], [];
      if turn.command.None? { end := Some(ReadFailed); return; }
      var c := turn.command.value;
      var resp := HandleCommand(c, turn.action);
      if resp.None? { end := Some(CommandFailed); return; }
      if c.StartApp? { started := [c.id]; }
      if !turn.written { end := Some(WriteFailed); return; }
      answers := [(c, resp.value)];
      end := if c.Shutdown? then Some(ShutDown) else None;
    }

    /** `event_loop`: turn after turn; no end means that it waits for another command. */
    method EventLoop(turns: seq<Turn>)
      returns (answered: seq<(Command, Reply)>, end: Option<LoopEnd>, ghost started: seq<string>)
      modifies `handles
      ensures Service(answered, started, end) == Served(apps, turns) && handles == old(handles) + started
    {
      answered, end, started := [], None, [];
      ghost var installed := apps;
      var i := 0;
      while i < |turns| && end.None?
        invariant 0 <= i <= |turns| && handles == old(handles) + started
        invariant apps == installed && SoFar(installed, turns, i, Service(answered, started, end))
      {
        NextTurn(installed, turns, i, Service(answered, started, end));
        var answers, ended, more := ServeTurn(turns[i]);
        answered, end, started := answered + answers, ended, started + more;
        i := i + 1;
      }
      NoMoreTurns(installed, turns, i, Service(answered, started, end));
    }
  }

  // ---------------------------------------------------------------- what the loop answers

  /** One turn of the loop: the command read (none when reading fails), what acting on it yields, and
      whether writing the reply succeeds. */
  datatype Turn = Turn(command: Option<Command>, action: Option<int>, written: bool)

  datatype LoopEnd = ShutDown | ReadFailed | CommandFailed | WriteFailed

  /** What a run of the loop has done: commands answered, applications started, and how it ended. */
  datatype Service = Service(answered: seq<(Command, Reply)>, started: seq<string>, end: Option<LoopEnd>)

  const NOTHING := Service([], [], None)

  /** A run followed by another, if it has not ended. */
  function Before(s: Service, t: Service): Service {
    if s.end.Some? then s else Service(s.answered + t.answered, s.started + t.started, t.end)
  }

  function Handled(apps: map<string, App>, c: Command, action: Option<int>): (r: Option<Reply>)
    ensures r.Some? ==> Answers(c, r.value)
    ensures r.None? <==> !c.Shutdown? && (c.id !in apps || apps[c.id].launcher.None? || action.None?)
  {
    if c.Shutdown? then Some(Done)
    else if c.id !in apps || apps[c.id].launcher.None? || action.None? then None
    else if c.StartApp? then Some(Done)
    else Some(ExitStatus(action.value))
  }

  function TurnOf(apps: map<string, App>, turn: Turn): Service {
    if turn.command.None? then Service([], [], Some(ReadFailed))
    else
      var c := turn.command.value;
      match Handled(apps, c, turn.action)
      case None => Service([], [], Some(CommandFailed))
      case Some(r) =>
        Service(if turn.written then [(c, r)] else [],
                if c.StartApp? then [c.id] else [],
                if !turn.written then Some(WriteFailed) else if c.Shutdown? then Some(ShutDown) else None)
  }

  function Served(apps: map<string, App>, turns: seq<Turn>): Service {
    if turns == [] then NOTHING else Before(TurnOf(apps, turns[0]), Served(apps, turns[1..]))
  }

  lemma NoMoreTurns(apps: map<string, App>, turns: seq<Turn>, i: nat, done: Service)
    requires SoFar(apps, turns, i, done) && (i == |turns| || done.end.Some?)
    ensures Served(apps, turns) == done
  {
    assert turns[|turns|..] == [];
  }

  /** After `i` turns `done` has been done, and the rest follows unless the loop has ended. */
  ghost predicate SoFar(apps: map<string, App>, turns: seq<Turn>, i: nat, done: Service) {
    i <= |turns| && Served(apps, turns) == if done.end.None? then Before(done, Served(apps, turns[i..])) else done
  }

  lemma NextTurn(apps: map<string, App>, turns: seq<Turn>, i: nat, done: Service)
    requires i < |turns| && done.end.None? && SoFar(apps, turns, i, done)
    ensures var one := TurnOf(apps, turns[i]);
            SoFar(apps, turns, i + 1, Service(done.answered + one.answered, done.started + one.started, one.end))
  {
    var turn, rest := TurnOf(apps, turns[i]), Served(apps, turns[i + 1..]);
    assert turns[i..][0] == turns[i] && turns[i..][1..] == turns[i + 1..];
    if turn.end.None? { BeforeAssociative(done, turn, rest); }
  }

  lemma BeforeAssociative(a: Service, b: Service, c: Service)
    requires a.end.None? && b.end.None?
    ensures Before(a, Before(b, c)) == Before(Before(a, b), c)
  {}

  function StartsIn(answered: seq<(Command, Reply)>): seq<string> {
    if answered == [] then []
    else (if answered[0].0.StartApp? then [answered[0].0.id] else []) + StartsIn(answered[1..])
  }

  /** A command the guest can carry out. */
  predicate Works(apps: map<string, App>, c: Command, action: Option<int>) {
    c.Shutdown? || (c.id in apps && apps[c.id].launcher.Some? && action.Some?)
  }

  /** The first commands are answered in order, one reply each: those that could be carried out and whose
      reply could be written. The next turn ended the loop, and how it did tells what went wrong there;
      only a shutdown ends it with an answer. Started are the applications of the answered starts, and
      the one whose reply could not be written. */
  ghost predicate AnsweredInOrder(apps: map<string, App>, turns: seq<Turn>, s: Service) {
    var n := |s.answered|;
    && n <= |turns|
    && (forall k | 0 <= k < n ::
          && turns[k].command.Some? && turns[k].written
          && var c := turns[k].command.value;
             && Works(apps, c, turns[k].action)
             && s.answered[k] == (c, if c.TerminateApp? || c.KillApp? then ExitStatus(turns[k].action.value) else Done)
             && (c.Shutdown? ==> k == n - 1 && s.end == Some(ShutDown)))
    && (match s.end
        case None => n == |turns|
        case Some(ShutDown) => n > 0 && s.answered[n - 1].0.Shutdown?
        case Some(ReadFailed) => n < |turns| && turns[n].command.None?
        case Some(CommandFailed) =>
          n < |turns| && turns[n].command.Some? && !Works(apps, turns[n].command.value, turns[n].action)
        case Some(WriteFailed) =>
          && n < |turns| && turns[n].command.Some? && Works(apps, turns[n].command.value, turns[n].action)
          && !turns[n].written)
    && s.started == StartsIn(s.answered) +
         if s.end == Some(WriteFailed) && turns[n].command.value.StartApp? then [turns[n].command.value.id] else []
  }

  lemma OneTurn(apps: map<string, App>, turn: Turn, turns: seq<Turn>)
    requires TurnOf(apps, turn).end.Some?
    ensures AnsweredInOrder(apps, [turn] + turns, TurnOf(apps, turn))
  {}

  lemma OneMoreAnswer(apps: map<string, App>, turn: Turn, turns: seq<Turn>, rest: Service)
    requires TurnOf(apps, turn).end.None? && AnsweredInOrder(apps, turns, rest)
    ensures AnsweredInOrder(apps, [turn] + turns, Before(TurnOf(apps, turn), rest))
  {
    var s := Before(TurnOf(apps, turn), rest);
    assert s.answered[1..] == rest.answered;
    forall k | 1 <= k < |s.answered|
      ensures s.answered[k] == rest.answered[k - 1] && ([turn] + turns)[k] == turns[k - 1]
    {}
  }

  /** The loop answers the commands in order, one reply each, and stops exactly at the first shutdown,
      which it answers, or at the first turn in which reading, the command or writing fails, which it
      does not. */
  lemma {:induction false} LoopAnswersInOrder(apps: map<string, App>, turns: seq<Turn>)
    ensures AnsweredInOrder(apps, turns, Served(apps, turns))
  {
    if turns != [] {
      assert [turns[0]] + turns[1..] == turns;
      if TurnOf(apps, turns[0]).end.None? {
        LoopAnswersInOrder(apps, turns[1..]);
        OneMoreAnswer(apps, turns[0], turns[1..], Served(apps, turns[1..]));
      } else {
        OneTurn(apps, turns[0], turns[1..]);
      }
    }
  }
}
