/** A realm before and at its launch (vm/src/realm.rs, vm/src/app.rs): its applications, the
    configuration of the virtual machine and the realm info the guest will be sent. */
module Realm {
  import opened Common
  import opened Messages

  /** A path; `utf8` says whether it can be put on a command line. */
  datatype Path = Path(text: string, utf8: bool)

  /** A disk image and the UUID of its partition. */
  datatype Disk = Disk(path: Path, partUuid: Uuid)

  datatype Application = Application(main: Disk, secure: Disk, provision: Option<Uuid>)

  datatype RealmConfig = RealmConfig(
    cpu: string, machine: string, cores: nat, ramMb: nat, tap: string, mac: string, cid: nat,
    kernel: Path, console: Path)

  datatype Arg =
    | Serial(p: Path) | Cpu(s: string) | Machine(s: string) | Smp(n: nat) | Memory(n: nat)
    | NetDev(s: string) | Mac(s: string) | VsockCid(n: nat) | Kernel(p: Path) | Drive(disk: Disk)

  datatype RealmError =
    | AppExists(id: string) | AppCreation(id: string) | PathDecoding(p: Path) | RealmAlreadyRunning | LaunchFailed

  /** The drives among the arguments of a virtual machine, in order. */
  function Drives(args: seq<Arg>): seq<Disk> {
    if args == [] then [] else
      Drives(args[..|args| - 1]) +
      if args[|args| - 1].Drive? then [args[|args| - 1].disk] else []
  }

  /** The machine itself, in the order of its arguments. */
  function MachineArgs(c: RealmConfig): seq<Arg> {
    [Serial(c.console), Cpu(c.cpu), Machine(c.machine), Smp(c.cores), Memory(c.ramMb), NetDev(c.tap), Mac(c.mac),
     VsockCid(c.cid), Kernel(c.kernel)]
  }

  lemma {:induction false} DrivesAppend(a: seq<Arg>, b: seq<Arg>)
    ensures Drives(a + b) == Drives(a) + Drives(b)
    decreases |b|
  {
    if b == [] {
      assert a + b == a;
    } else {
      var n := |b| - 1;
      assert (a + b)[..|a| + n] == a + b[..n];
      DrivesAppend(a, b[..n]);
    }
  }

  lemma {:induction false} NoDrives(b: seq<Arg>)
    requires forall i | 0 <= i < |b| :: !b[i].Drive?
    ensures Drives(b) == []
  {
    if b != [] { NoDrives(b[..|b| - 1]); }
  }

  lemma TwoDrives(d: Disk, e: Disk)
    ensures Drives([Drive(d), Drive(e)]) == [d, e]
  {
    var one, two := [Drive(d)], [Drive(d), Drive(e)];
    assert one[..0] == [] && Drives(one) == [d];
    assert two[..1] == one;
  }

  /** Two drives per application, in a given order of applications. */
  function DrivesFor(apps: map<string, Application>, order: seq<string>): seq<Disk>
    requires forall id <- order :: id in apps
  {
    if order == [] then [] else
      var a := apps[order[|order| - 1]];
      DrivesFor(apps, order[..|order| - 1]) + [a.main, a.secure]
  }

  /** An order in which a hash map with these keys may be visited. */
  ghost predicate OrderOf(order: seq<string>, keys: set<string>) {
    multiset(order) == multiset(keys)
  }

  predicate Encodable(a: Application) { a.main.path.utf8 && a.secure.path.utf8 }

  /** What has been attached when the applications of `order` have been visited and those of `todo`
      have not: `start` are the drives before and `now` those after. */
  ghost predicate Attached(apps: map<string, Application>, order: seq<string>, todo: set<string>,
                           start: seq<Disk>, now: seq<Disk>) {
    && todo <= apps.Keys
    && (forall id <- order :: id in apps)
    && multiset(order) + multiset(todo) == multiset(apps.Keys)
    && (forall id <- apps | id !in todo :: Encodable(apps[id]))
    && now == start + DrivesFor(apps, order)
  }

  lemma AttachedNext(apps: map<string, Application>, order: seq<string>, todo: set<string>,
                     start: seq<Disk>, now: seq<Disk>, id: string)
    requires Attached(apps, order, todo, start, now) && id in todo && Encodable(apps[id])
    ensures Attached(apps, order + [id], todo - {id}, start, now + [apps[id].main, apps[id].secure])
  {
    assert (order + [id])[..|order|] == order;
  }

  lemma AllAttached(apps: map<string, Application>, order: seq<string>, start: seq<Disk>, now: seq<Disk>)
    requires Attached(apps, order, {}, start, now)
    ensures OrderOf(order, apps.Keys) && (forall id <- order :: id in apps) && now == start + DrivesFor(apps, order)
    ensures forall id <- apps :: Encodable(apps[id])
  {}

  function InfoOf(apps: map<string, Application>): RealmInfo {
    RealmInfo(map id | id in apps ::
      ApplicationInfo(apps[id].main.partUuid, apps[id].secure.partUuid, apps[id].provision))
  }

  class VMBuilder {
    var args: seq<Arg>

    constructor ()
      ensures args == []
    {
      args := [];
    }

    method Add(a: Arg)
      modifies this
      ensures args == old(args) + [a]
    {
      args := args + [a];
    }
  }

  class Realm {
    const config: RealmConfig
    var apps: map<string, Application>
    var running: bool                   // the channels to a host task exist

    constructor (config: RealmConfig)
      ensures this.config == config && apps == map[] && !running
    {
      this.config := config;
      apps, running := map[], false;
    }

    /** `create_application`; `made` is what creating its two disks yields. */
    method CreateApplication(id: string, made: Option<(Disk, Disk)>, provision: Option<Uuid>)
      returns (r: Result<(), RealmError>)
      modifies `apps
      ensures id in old(apps) ==> r == Err(AppExists(id)) && apps == old(apps)
      ensures id !in old(apps) && made.None? ==> r == Err(AppCreation(id)) && apps == old(apps)
      ensures id !in old(apps) && made.Some? ==>
        r == Ok(()) && apps == old(apps)[id := Application(made.value.0, made.value.1, provision)]
    {
      if id in apps { return Err(AppExists(id)); }
      if made.None? { return Err(AppCreation(id)); }
      apps := apps[id := Application(made.value.0, made.value.1, provision)];
      r := Ok(());
    }

    /** `realm_info`. */
    function Info(): RealmInfo
      reads this
    {
      InfoOf(apps)
    }

    /** The fixed part of `configure`. */
    method ConfigureMachine(builder: VMBuilder) returns (r: Result<(), RealmError>)
      modifies builder
      ensures r.Ok? <==> config.console.utf8 && config.kernel.utf8
      ensures r.Ok? ==> builder.args == old(builder.args) + MachineArgs(config)
      ensures r.Ok? ==> Drives(builder.args) == Drives(old(builder.args))
      ensures r.Err? ==> r.error.PathDecoding? && !r.error.p.utf8
    {
      ghost var before, all := builder.args, MachineArgs(config);
      if !config.console.utf8 { return Err(PathDecoding(config.console)); }
      builder.Add(Serial(config.console));
      builder.Add(Cpu(config.cpu));
      builder.Add(Machine(config.machine));
      assert builder.args == before + all[..3];
      builder.Add(Smp(config.cores));
      builder.Add(Memory(config.ramMb));
      builder.Add(NetDev(config.tap));
      assert builder.args == before + all[..6];
      builder.Add(Mac(config.mac));
      builder.Add(VsockCid(config.cid));
      assert builder.args == before + all[..8];
      if !config.kernel.utf8 { return Err(PathDecoding(config.kernel)); }
      builder.Add(Kernel(config.kernel));
      assert builder.args == before + all;
      NoDrives(all);
      DrivesAppend(before, all);
      r := Ok(());
    }

    /** `Application::configure`. */
    method AttachDisks(builder: VMBuilder, a: Application) returns (r: Result<(), RealmError>)
      modifies builder
      ensures r.Ok? <==> a.main.path.utf8 && a.secure.path.utf8
      ensures old(builder.args) <= builder.args
      ensures r.Ok? ==> Drives(builder.args) == Drives(old(builder.args)) + [a.main, a.secure]
      ensures r.Err? ==> r.error.PathDecoding? && !r.error.p.utf8
    {
      if !a.main.path.utf8 { return Err(PathDecoding(a.main.path)); }
      builder.Add(Drive(a.main));
      if !a.secure.path.utf8 { return Err(PathDecoding(a.secure.path)); }
      builder.Add(Drive(a.secure));
      assert builder.args == old(builder.args) + [Drive(a.main), Drive(a.secure)];
      DrivesAppend(old(builder.args), [Drive(a.main), Drive(a.secure)]);
      TwoDrives(a.main, a.secure);
      r := Ok(());
    }

    /** The loop of `configure`: every application in turn, in the order the hash map happens to have. */
    method AttachApps(builder: VMBuilder) returns (r: Result<(), RealmError>, ghost order: seq<string>)
      modifies builder
      ensures r.Ok? <==> forall id <- apps :: Encodable(apps[id])
      ensures r.Ok? ==> Attached(apps, order, {}, Drives(old(builder.args)), Drives(builder.args))
      ensures old(builder.args) <= builder.args
      ensures r.Err? ==> r.error.PathDecoding? && !r.error.p.utf8
    {
      order := [];
      ghost var start, args := Drives(builder.args), builder.args;
      var todo := apps.Keys;
      while todo != {}
        invariant Attached(apps, order, todo, start, Drives(builder.args))
        invariant args <= builder.args
        decreases |todo|
      {
        var id :| id in todo;
        r := AttachDisks(builder, apps[id]);
        if r.Err? { return; }
        AttachedNext(apps, order, todo, start, start + DrivesFor(apps, order), id);
        todo := todo - {id};
        order := order + [id];
      }
      r := Ok(());
    }

    /** `configure`: attaches the two disks of every application, in some order, if every path can be
        put on the command line. */
    method Configure(builder: VMBuilder) returns (r: Result<(), RealmError>, ghost order: seq<string>)
      modifies builder
      ensures r.Ok? <==> config.console.utf8 && config.kernel.utf8 && forall id <- apps :: Encodable(apps[id])
      ensures r.Ok? ==> OrderOf(order, apps.Keys) && (forall id <- order :: id in apps)
                        && Drives(builder.args) == Drives(old(builder.args)) + DrivesFor(apps, order)
      ensures r.Ok? ==>
        var machine := [Serial(config.console), Cpu(config.cpu), Machine(config.machine), Smp(config.cores),
                        Memory(config.ramMb), NetDev(config.tap), Mac(config.mac), VsockCid(config.cid),
                        Kernel(config.kernel)];
        old(builder.args) + machine <= builder.args
      ensures r.Err? ==> r.error.PathDecoding? && !r.error.p.utf8
    {
      order := [];
      r := ConfigureMachine(builder);
      if r.Err? { return; }
      r, order := AttachApps(builder);
      if r.Ok? { AllAttached(apps, order, Drives(old(builder.args)), Drives(builder.args)); }
    }

    /** `launch`; `spawned` says whether the virtual machine starts. A realm is launched at most once;
        the info handed to the host task names the applications whose disks are attached. */
    method Launch(runner: VMBuilder, spawned: bool) returns (r: Result<RealmInfo, RealmError>, ghost order: seq<string>)
      requires Drives(runner.args) == []
      modifies runner, `running
      ensures old(running) ==> r == Err(RealmAlreadyRunning) && running && runner.args == old(runner.args)
      ensures r.Ok? ==> !old(running) && running && spawned
      ensures r.Err? ==> running == old(running)
      ensures (&& !old(running) && spawned && config.console.utf8 && config.kernel.utf8
               && forall id <- apps :: Encodable(apps[id])) ==> r.Ok?
      ensures r.Ok? ==> r.value == Info() && OrderOf(order, apps.Keys) && (forall id <- order :: id in apps)
                        && Drives(runner.args) == DrivesFor(apps, order)
      ensures r.Ok? ==> r.value.apps.Keys == apps.Keys && forall id <- apps ::
        && r.value.apps[id].mainUuid == apps[id].main.partUuid
        && r.value.apps[id].secureUuid == apps[id].secure.partUuid
        && r.value.apps[id].provision == apps[id].provision
      ensures r.Ok? ==>
        var machine := [Serial(config.console), Cpu(config.cpu), Machine(config.machine), Smp(config.cores),
                        Memory(config.ramMb), NetDev(config.tap), Mac(config.mac), VsockCid(config.cid),
                        Kernel(config.kernel)];
        old(runner.args) + machine <= runner.args
      ensures r.Err? ==>
        r.error.RealmAlreadyRunning? || r.error.LaunchFailed? || (r.error.PathDecoding? && !r.error.p.utf8)
      ensures r == Err(LaunchFailed) ==> !spawned
    {
      order := [];
      if running { r := Err(RealmAlreadyRunning); return; }
      var configured;
      configured, order := Configure(runner);
      if configured.Err? { r := Err(configured.error); return; }
      if !spawned { r := Err(LaunchFailed); return; }
      running := true;
      r := Ok(Info());
    }

    /** A launch and an application created afterwards: it belongs to the realm, but the guest is told
        of the others only, and the drives are two for each of them, their disks. */
    method LaunchThenCreate(runner: VMBuilder, spawned: bool, id: string, made: Option<(Disk, Disk)>,
                            provision: Option<Uuid>)
      returns (info: Result<RealmInfo, RealmError>, created: Result<(), RealmError>)
      requires Drives(runner.args) == [] && !running
      modifies runner, `apps, `running
      ensures info.Ok? && created.Ok? ==> id in apps && ToldWithout(apps, id, info.value, Drives(runner.args))
    {
      ghost var order;
      info, order := Launch(runner, spawned);
      ghost var before := apps;
      created := CreateApplication(id, made, provision);
      if info.Ok? && created.Ok? { LaterIsUnknown(before, order, id, apps); }
    }
  }

  /** The guest has been told of every application but `id`, and the drives are the disks of those. */
  ghost predicate ToldWithout(apps: map<string, Application>, id: string, info: RealmInfo, drives: seq<Disk>) {
    && id !in info.apps && info == InfoOf(apps - {id})
    && |drives| == 2 * |apps - {id}|
    && forall d <- drives :: exists other <- apps - {id} :: d == apps[other].main || d == apps[other].secure
  }

  lemma LaterIsUnknown(before: map<string, Application>, order: seq<string>, id: string, apps: map<string, Application>)
    requires OrderOf(order, before.Keys) && (forall i <- order :: i in before)
    requires id !in before && id in apps && apps == before[id := apps[id]]
    ensures ToldWithout(apps, id, InfoOf(before), DrivesFor(before, order))
  {
    assert apps - {id} == before;
    OrderCovers(order, before.Keys);
    DrivesAreDisks(before, order);
    forall d <- DrivesFor(before, order)
      ensures exists other <- before :: d == apps[other].main || d == apps[other].secure
    {
      var other :| other in order && (d == before[other].main || d == before[other].secure);
      assert other in before && apps[other] == before[other];
    }
  }

  // ---------------------------------------------------------------- what the guest finds

  /** The partitions a guest finds by enumerating its drives. */
  function Partitions(drives: seq<Disk>): set<Uuid> {
    set d | d in drives :: d.partUuid
  }

  function Named(info: RealmInfo): set<Uuid> {
    (set id | id in info.apps :: info.apps[id].mainUuid) + (set id | id in info.apps :: info.apps[id].secureUuid)
  }

  /** The drives are the disks of the applications visited. */
  lemma {:induction false} DrivesAreDisks(apps: map<string, Application>, order: seq<string>)
    requires forall id <- order :: id in apps
    ensures |DrivesFor(apps, order)| == 2 * |order|
    ensures forall k | 0 <= k < |order| ::
              DrivesFor(apps, order)[2 * k] == apps[order[k]].main
              && DrivesFor(apps, order)[2 * k + 1] == apps[order[k]].secure
    ensures forall d ::
              d in DrivesFor(apps, order) <==> exists id <- order :: d == apps[id].main || d == apps[id].secure
  {
    if order != [] {
      var before, last := order[..|order| - 1], order[|order| - 1];
      DrivesAreDisks(apps, before);
      assert forall id :: id in order <==> id in before || id == last;
    }
  }

  lemma OrderCovers(order: seq<string>, keys: set<string>)
    requires OrderOf(order, keys)
    ensures |order| == |keys|
    ensures forall id :: id in order <==> id in keys
  {
    assert |multiset(order)| == |multiset(keys)|;
    forall id ensures id in order <==> id in keys {
      assert multiset(order)[id] == multiset(keys)[id];
    }
  }

  /** The partitions of the attached drives are exactly those the realm info names, two drives per
      application: a guest that enumerates its drives finds every partition it is told about. */
  lemma GuestFindsEveryPartition(apps: map<string, Application>, order: seq<string>, info: RealmInfo)
    requires OrderOf(order, apps.Keys) && forall id <- order :: id in apps
    requires info == InfoOf(apps)
    ensures |DrivesFor(apps, order)| == 2 * |apps|
    ensures Partitions(DrivesFor(apps, order)) == Named(info)
  {
    var drives := DrivesFor(apps, order);
    DrivesAreDisks(apps, order);
    OrderCovers(order, apps.Keys);
    forall u | u in Partitions(drives) ensures u in Named(info) {
      var d :| d in drives && d.partUuid == u;
      var id :| id in order && (d == apps[id].main || d == apps[id].secure);
      assert id in info.apps;
    }
    forall u | u in Named(info) ensures u in Partitions(drives) {
      var id :| id in info.apps && (info.apps[id].mainUuid == u || info.apps[id].secureUuid == u);
      assert id in order;
      var d := if info.apps[id].mainUuid == u then apps[id].main else apps[id].secure;
      assert d in drives;
    }
  }
}
