/** The messages of the control connection (protocol/src/protocol.rs) and of the channels between a
    realm and its host task (vm/src/realm.rs). */
module Messages {
  import opened Common

  type Uuid = nat

  datatype ApplicationInfo = ApplicationInfo(mainUuid: Uuid, secureUuid: Uuid, provision: Option<Uuid>)

  datatype RealmInfo = RealmInfo(apps: map<string, ApplicationInfo>)

  datatype Command =
    | StartApp(id: string) | TerminateApp(id: string) | KillApp(id: string) | Shutdown

  /** `protocol::Response`. */
  datatype Reply = Done | ExitStatus(status: int)

  /** The kind of reply each command has. */
  predicate Answers(c: Command, r: Reply) {
    (c.TerminateApp? || c.KillApp?) <==> r.ExitStatus?
  }

  /** `realm::Request` and `realm::Response`. */
  datatype Request =
    | StartRequest(id: string) | TerminateRequest(id: string) | KillRequest(id: string) | ShutdownRequest

  datatype Response = RealmNotConnected | Okay

  function CommandOf(q: Request): Command {
    match q
    case StartRequest(id) => StartApp(id)
    case TerminateRequest(id) => TerminateApp(id)
    case KillRequest(id) => KillApp(id)
    case ShutdownRequest => Shutdown
  }

  function RequestOf(c: Command): (q: Request)
    ensures CommandOf(q) == c
  {
    match c
    case StartApp(id) => StartRequest(id)
    case TerminateApp(id) => TerminateRequest(id)
    case KillApp(id) => KillRequest(id)
    case Shutdown => ShutdownRequest
  }
}
