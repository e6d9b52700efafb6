/** What the executors do to the host: firewall sets, files, and the results they report. */
module Effects {
  import opened Common
  import opened Models
  import opened Addresses

  type Path = string
  type Files = map<Path, string>

  /** The six timeout sets: inbound block, outbound block and rate limit, each per IP version. */
  datatype SetName = BlockIn(version: Version) | BlockOut(version: Version) | RateLimit(version: Version)

  datatype Element = Element(name: SetName, address: Address)

  /** Set elements with the time at which they lapse. */
  type Elements = map<Element, int>

  datatype Status =
    | Success | Planned | Failed | Skipped
    | RolledBack | RollbackPlanned | ExpiredRolledBack | ExpiredRollbackPlanned

  /** The payload an executor leaves for its own undoing. */
  datatype Rollback =
    | NoRollback
    | DeleteElement(name: SetName, target: string, expiresAt: int)
    | RestoreFile(from: Path, to: Path)
    | RestoreFileWithoutPaths
    | RestorePersistence(file: Path, backup: Option<Path>, disabled: Option<Path>)
    | ResumeProcess(pid: int)
    | OtherRollback

  datatype ActionResult = ActionResult(actionId: string, action: Action, target: string, status: Status, dryRun: bool, rollback: Rollback)

  /** One action of an incident as the controller stored it. */
  datatype Taken = Taken(action: Action, target: string, status: Status)

  /** An incident as the controller hands it to the learning components; `serviceOk` is the health check after it. */
  datatype Incident = Incident(
    score: int,
    attackType: string,
    srcIps: seq<string>,
    dstIps: seq<string>,
    actions: seq<Taken>,
    serviceOk: bool,
    now: int)

  /** How restoring a file goes: a failing restore leaves something or nothing of its own in the file. */
  datatype Restoring = Restores | RestoreFails(left: Option<string>)

  /** What one command, or one rollback, meets on the host. `refreshes` says whether adding a present element
      renews its timeout, which differs between kernels. */
  datatype Host = Host(
    dryRun: bool,
    requireRoot: bool,
    isRoot: bool,
    nftInstalled: bool,
    setupOk: bool,
    commandOk: bool,
    refreshes: bool,
    restoring: Restoring)
}
