/** The entities of src/aegis_agent/models.py. A missing text field and an empty one are the same falsy
    value to every caller modelled here, so both are the empty string. */
module Models {
  import opened Common

  datatype EventType =
    | SshFailedLogin | SshInvalidUser | SshSuccessLogin | SudoExecution
    | WebAttackPattern | HttpRequest | AppError
    | SuspiciousProcess | ExternalNetworkConnection | NetworkConnection | SuspiciousFile
    | PersistenceModified | AgentIntegrityChange | SignatureMatch
    | DroneMavlinkAccess | DroneUnauthorizedGcs | DroneCommandAttempt | DroneMissionOrParamChange
    | DroneHeartbeatSpoofing | DroneMavlinkFlood | DroneRos2DdsDiscovery | DroneRos2DdsAccess | DroneRos2DdsFlood
    | OtherType(name: string)

  datatype Severity = LowSeverity | MediumSeverity | HighSeverity | CriticalSeverity

  datatype Action =
    | BlockIpTtl | RateLimitIp | BlockOutboundIp | IsolateHost
    | SuspendProcess | KillProcess | QuarantineFile | DisablePersistence | RestrictAccount
    | OtherAction(name: string)

  /** The actions NetworkGuard carries out. */
  predicate IsNetwork(a: Action) {
    a.BlockIpTtl? || a.RateLimitIp? || a.BlockOutboundIp?
  }

  /** Where a signature takes its target from when it does not name one. */
  datatype TargetFrom = FromSrcIp | FromDstIp | FromFilePath

  /** A process id in metadata: a number, or a text that parses to one. */
  datatype Pid = Pid(value: int, isNumber: bool)

  /** The metadata keys the pipeline reads; numbers that do not parse are None. */
  datatype Metadata = Metadata(
    embeddedIp: string,
    ips: seq<string>,
    embeddedFilePath: string,
    path: string,
    paths: seq<string>,
    pid: Option<Pid>,
    ppid: Option<Pid>,
    signatureId: string,
    riskScore: Option<int>,
    recommendedAction: Action,
    target: string,
    targetFrom: TargetFrom,
    ttlSeconds: Option<int>,
    fromAuditd: bool,
    auditSerial: string)

  datatype Event = Event(
    eventId: string,
    timestamp: real,
    source: string,
    eventType: EventType,
    severity: Severity,
    raw: string,
    srcIp: string,
    dstIp: string,
    user: string,
    process: string,
    pid: Option<int>,
    filePath: string,
    uri: string,
    metadata: Metadata)

  datatype Confidence = Low | Medium | MediumHigh | High | Critical

  predicate IsDrone(t: EventType) {
    || t.DroneMavlinkAccess? || t.DroneUnauthorizedGcs? || t.DroneCommandAttempt? || t.DroneMissionOrParamChange?
    || t.DroneHeartbeatSpoofing? || t.DroneMavlinkFlood? || t.DroneRos2DdsDiscovery? || t.DroneRos2DdsAccess?
    || t.DroneRos2DdsFlood?
  }

  function EventIds(events: seq<Event>): seq<string> {
    seq(|events|, i requires 0 <= i < |events| => events[i].eventId)
  }

  /** Event ids are freshly generated, so no two events of one collection share an id. */
  ghost predicate DistinctIds(events: seq<Event>) {
    forall i, j :: 0 <= i < j < |events| ==> events[i].eventId != events[j].eventId
  }

  datatype ActionPlan = ActionPlan(
    actionId: string,
    action: Action,
    target: string,
    evidenceIds: seq<string>,
    score: int,
    ttlSeconds: Option<int>,
    rollbackSupported: bool,
    minEvidenceRequired: Option<int>,
    requiresAuditdRelation: bool,
    auditSerial: string)
}
