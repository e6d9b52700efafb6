/** src/aegis_agent/evidence/scoring.py: the tiered, gated and clamped risk score of a chain. */
module Scoring {
  import opened Common
  import opened Models

  datatype AttackType =
    | UnknownAttack | SshBruteforce | AccountCompromiseSuspected | WebVulnerabilityAttack
    | RceOrPostExploitationSuspected | HttpFloodSuspected | AgentTamperSuspected
    | DroneUnauthorizedGcsAttack | DroneCommandAttack | DroneMissionParamAttack | DroneHeartbeatSpoofingAttack
    | DroneMavlinkFloodAttack | DroneRos2DdsProbe | DroneRos2DdsFloodAttack | SignaturePatternMatch

  /** The texts appended to `chain.reasons`. */
  datatype Claim =
    | SevereSshBurst | SshBurstExceeded | SshBurst
    | SevereInvalidUsers | InvalidUserEnumeration | MultipleInvalidUsers
    | SshSuccessAfterFailures | SudoObserved | WebPatternObserved | AppErrorAfterWeb | SuspiciousProcessClaim
    | ExternalConnectionObserved | SuspiciousFileObserved | PersistenceModifiedClaim | HttpSpike | IntegrityChange
    | UnauthorizedGcs | CommandFromUntrusted | MissionOrParamChange | HeartbeatSpoofing | MavlinkFlood
    | DdsDiscovery | DdsFlood
    | SignatureMatched(ids: set<string>)
    | MultipleSources
    | AttackLoopBonus(points: int) | MutationDetected | GrowthBonus(points: int)

  datatype Chain = Chain(
    events: seq<Event>,
    srcIps: seq<string>,
    dstIps: seq<string>,
    users: seq<string>,
    filePaths: seq<string>,
    score: int,
    confidence: Confidence,
    attackType: AttackType,
    reasons: seq<Claim>)

  // ---- Reference: additive weights over event counts ----

  function Types(events: seq<Event>): seq<EventType> {
    seq(|events|, i requires 0 <= i < |events| => events[i].eventType)
  }

  function Count(events: seq<Event>, t: EventType): nat {
    multiset(Types(events))[t]
  }

  /** Points earned once a count reaches a threshold; a tier is written as what it adds to the tier below. */
  function Tier(count: nat, threshold: nat, points: nat): nat {
    if count >= threshold then points else 0
  }

  function SignatureRisk(e: Event): nat {
    match e.metadata.riskScore
    case None => 60
    case Some(r) => if r < 0 then 0 else r
  }

  /** The largest risk among the signature matches, 0 without any. */
  function SignaturePoints(events: seq<Event>): nat {
    if events == [] then 0
    else
      var rest, last := SignaturePoints(events[..|events| - 1]), events[|events| - 1];
      if last.eventType.SignatureMatch? && SignatureRisk(last) > rest then SignatureRisk(last) else rest
  }

  /** The counter of event types; absent types count 0. */
  type Counter = EventType -> nat

  function CounterOf(events: seq<Event>): Counter {
    t => Count(events, t)
  }

  function SshPoints(c: Counter): nat {
    Tier(c(SshFailedLogin), 5, 45) + Tier(c(SshFailedLogin), 10, 15) + Tier(c(SshFailedLogin), 30, 15)
    + Tier(c(SshInvalidUser), 3, 20) + Tier(c(SshInvalidUser), 5, 25) + Tier(c(SshInvalidUser), 10, 15)
    + Tier(Min(c(SshSuccessLogin), c(SshFailedLogin)), 1, 30)
  }

  function BehaviourPoints(c: Counter): nat {
    Tier(c(SudoExecution), 1, 20)
    + Tier(c(WebAttackPattern), 1, 25)
    + Tier(Min(c(AppError), c(WebAttackPattern)), 1, 15)
    + Tier(c(SuspiciousProcess), 1, 30)
  }

  function ArtifactPoints(c: Counter): nat {
    Tier(c(ExternalNetworkConnection), 1, 25) + Tier(c(SuspiciousFile), 1, 25) + Tier(c(PersistenceModified), 1, 30)
  }

  function ServicePoints(c: Counter): nat {
    Tier(c(HttpRequest), 100, 25) + Tier(c(AgentIntegrityChange), 1, 90)
  }

  function DroneControlPoints(c: Counter): nat {
    Tier(c(DroneUnauthorizedGcs), 1, 65)
    + Tier(c(DroneCommandAttempt), 1, 60)
    + Tier(c(DroneMissionOrParamChange), 1, 65)
    + Tier(c(DroneHeartbeatSpoofing), 1, 60)
  }

  function DroneTrafficPoints(c: Counter): nat {
    Tier(c(DroneMavlinkFlood), 1, 50)
    + Tier(c(DroneRos2DdsDiscovery), 1, 50)
    + Tier(c(DroneRos2DdsFlood), 1, 50)
  }

  function Points(events: seq<Event>): nat {
    var c := CounterOf(events);
    SshPoints(c) + BehaviourPoints(c) + ArtifactPoints(c) + ServicePoints(c) + DroneControlPoints(c) + DroneTrafficPoints(c) + SignaturePoints(events)
  }

  function Sources(events: seq<Event>): set<string> {
    set e | e in events :: e.source
  }

  function Score(events: seq<Event>): nat {
    var p := Points(events);
    var total := if |Sources(events)| >= 2 && p >= 40 then p + 10 else p;
    if total > 100 then 100 else total
  }

  function Band(score: int): Confidence {
    if score >= 90 then Critical
    else if score >= 75 then High
    else if score >= 60 then MediumHigh
    else if score >= 30 then Medium
    else Low
  }

  function DroneTrafficAttackOr(c: Counter, otherwise: AttackType): AttackType {
    if c(DroneRos2DdsFlood) >= 1 then DroneRos2DdsFloodAttack
    else if c(DroneRos2DdsDiscovery) >= 1 then DroneRos2DdsProbe
    else if c(DroneMavlinkFlood) >= 1 then DroneMavlinkFloodAttack
    else otherwise
  }

  function DroneControlAttackOr(c: Counter, otherwise: AttackType): AttackType {
    if c(DroneHeartbeatSpoofing) >= 1 then DroneHeartbeatSpoofingAttack
    else if c(DroneMissionOrParamChange) >= 1 then DroneMissionParamAttack
    else if c(DroneCommandAttempt) >= 1 then DroneCommandAttack
    else if c(DroneUnauthorizedGcs) >= 1 then DroneUnauthorizedGcsAttack
    else otherwise
  }

  function ServiceAttackOr(c: Counter, otherwise: AttackType): AttackType {
    if c(AgentIntegrityChange) >= 1 then AgentTamperSuspected
    else if c(HttpRequest) >= 100 then HttpFloodSuspected
    else otherwise
  }

  function BehaviourAttackOr(c: Counter, otherwise: AttackType): AttackType {
    if c(SuspiciousProcess) >= 1 then RceOrPostExploitationSuspected
    else if c(WebAttackPattern) >= 1 then WebVulnerabilityAttack
    else otherwise
  }

  function SshAttack(c: Counter): AttackType {
    if c(SshSuccessLogin) >= 1 && c(SshFailedLogin) >= 1 then AccountCompromiseSuspected
    else if c(SshInvalidUser) >= 5 || c(SshFailedLogin) >= 5 then SshBruteforce
    else UnknownAttack
  }

  /** The attack named by the latest rule that fired, read from the last rule back. */
  function AttackOf(c: Counter): AttackType {
    if c(SignatureMatch) >= 1 then SignaturePatternMatch
    else DroneTrafficAttackOr(c, DroneControlAttackOr(c, ServiceAttackOr(c, BehaviourAttackOr(c, SshAttack(c)))))
  }

  // ---- Reference: when each reason is given ----

  predicate SshReason(c: Counter, r: Claim) {
    match r
    case SevereSshBurst => c(SshFailedLogin) >= 30
    case SshBurstExceeded => 10 <= c(SshFailedLogin) < 30
    case SshBurst => 5 <= c(SshFailedLogin) < 10
    case SevereInvalidUsers => c(SshInvalidUser) >= 10
    case InvalidUserEnumeration => 5 <= c(SshInvalidUser) < 10
    case MultipleInvalidUsers => 3 <= c(SshInvalidUser) < 5
    case SshSuccessAfterFailures => c(SshSuccessLogin) >= 1 && c(SshFailedLogin) >= 1
    case _ => false
  }

  predicate BehaviourReason(c: Counter, r: Claim) {
    match r
    case SudoObserved => c(SudoExecution) >= 1
    case WebPatternObserved => c(WebAttackPattern) >= 1
    case AppErrorAfterWeb => c(AppError) >= 1 && c(WebAttackPattern) >= 1
    case SuspiciousProcessClaim => c(SuspiciousProcess) >= 1
    case _ => false
  }

  predicate ArtifactReason(c: Counter, r: Claim) {
    match r
    case ExternalConnectionObserved => c(ExternalNetworkConnection) >= 1
    case SuspiciousFileObserved => c(SuspiciousFile) >= 1
    case PersistenceModifiedClaim => c(PersistenceModified) >= 1
    case _ => false
  }

  predicate ServiceReason(c: Counter, r: Claim) {
    match r
    case HttpSpike => c(HttpRequest) >= 100
    case IntegrityChange => c(AgentIntegrityChange) >= 1
    case _ => false
  }

  predicate DroneControlReason(c: Counter, r: Claim) {
    match r
    case UnauthorizedGcs => c(DroneUnauthorizedGcs) >= 1
    case CommandFromUntrusted => c(DroneCommandAttempt) >= 1
    case MissionOrParamChange => c(DroneMissionOrParamChange) >= 1
    case HeartbeatSpoofing => c(DroneHeartbeatSpoofing) >= 1
    case _ => false
  }

  predicate DroneTrafficReason(c: Counter, r: Claim) {
    match r
    case MavlinkFlood => c(DroneMavlinkFlood) >= 1
    case DdsDiscovery => c(DroneRos2DdsDiscovery) >= 1
    case DdsFlood => c(DroneRos2DdsFlood) >= 1
    case _ => false
  }

  function SignatureIds(events: seq<Event>): set<string> {
    set e | e in events && e.eventType.SignatureMatch? && e.metadata.signatureId != "" :: e.metadata.signatureId
  }

  /** The reasons that the rules up to the cross-source bonus give. */
  ghost predicate RuleReason(events: seq<Event>, r: Claim) {
    var c := CounterOf(events);
    || SshReason(c, r) || BehaviourReason(c, r) || ArtifactReason(c, r) || ServiceReason(c, r)
    || DroneControlReason(c, r) || DroneTrafficReason(c, r)
    || (r == SignatureMatched(SignatureIds(events)) && exists e :: e in events && e.eventType.SignatureMatch?)
  }

  /** Exactly the reasons that explain the score of these events. */
  ghost predicate Explains(events: seq<Event>, r: Claim) {
    RuleReason(events, r) || (r.MultipleSources? && |Sources(events)| >= 2 && Points(events) >= 40)
  }

  lemma HasType(events: seq<Event>, t: EventType)
    ensures Count(events, t) >= 1 <==> exists e :: e in events && e.eventType == t
  {
    if Count(events, t) >= 1 {
      assert t in Types(events);
      var i :| 0 <= i < |events| && Types(events)[i] == t;
      assert events[i] in events && events[i].eventType == t;
    }
    if e :| e in events && e.eventType == t {
      var i :| 0 <= i < |events| && events[i] == e;
      assert Types(events)[i] == t;
    }
  }

  // ---- The code ----

  /** The SSH rules: three failed-login tiers, three invalid-user tiers, success after failure. */
  method ScoreSsh(c: Counter) returns (score: nat, reasons: seq<Claim>, attack: AttackType)
    ensures score == SshPoints(c)
    ensures score > 0 <==> |reasons| > 0
    ensures forall r :: r in reasons <==> SshReason(c, r)
    ensures attack == SshAttack(c)
  {
    score, reasons, attack := 0, [], UnknownAttack;
    var failed, invalid := c(SshFailedLogin), c(SshInvalidUser);
    if failed >= 30 {
      score, reasons, attack := score + 75, reasons + [SevereSshBurst], SshBruteforce;
    } else if failed >= 10 {
      score, reasons, attack := score + 60, reasons + [SshBurstExceeded], SshBruteforce;
    } else if failed >= 5 {
      score, reasons, attack := score + 45, reasons + [SshBurst], SshBruteforce;
    }
    if invalid >= 10 {
      score, reasons, attack := score + 60, reasons + [SevereInvalidUsers], SshBruteforce;
    } else if invalid >= 5 {
      score, reasons, attack := score + 45, reasons + [InvalidUserEnumeration], SshBruteforce;
    } else if invalid >= 3 {
      score, reasons := score + 20, reasons + [MultipleInvalidUsers];
    }
    if c(SshSuccessLogin) >= 1 && failed >= 1 {
      score, reasons, attack := score + 30, reasons + [SshSuccessAfterFailures], AccountCompromiseSuspected;
    }
  }

  method ScoreBehaviour(c: Counter, score0: nat, reasons0: seq<Claim>, attack0: AttackType)
    returns (score: nat, reasons: seq<Claim>, attack: AttackType)
    ensures score == score0 + BehaviourPoints(c)
    ensures |reasons| >= |reasons0| && (|reasons| == |reasons0| ==> score == score0)
    ensures forall r :: r in reasons <==> r in reasons0 || BehaviourReason(c, r)
    ensures attack == BehaviourAttackOr(c, attack0)
  {
    score, reasons, attack := score0, reasons0, attack0;
    var web := c(WebAttackPattern);
    if c(SudoExecution) >= 1 {
      score, reasons := score + 20, reasons + [SudoObserved];
    }
    if web >= 1 {
      score, reasons, attack := score + 25, reasons + [WebPatternObserved], WebVulnerabilityAttack;
    }
    if c(AppError) >= 1 && web >= 1 {
      score, reasons := score + 15, reasons + [AppErrorAfterWeb];
    }
    if c(SuspiciousProcess) >= 1 {
      score, reasons, attack := score + 30, reasons + [SuspiciousProcessClaim], RceOrPostExploitationSuspected;
    }
  }

  method ScoreArtifacts(c: Counter, score0: nat, reasons0: seq<Claim>) returns (score: nat, reasons: seq<Claim>)
    ensures score == score0 + ArtifactPoints(c)
    ensures |reasons| >= |reasons0| && (|reasons| == |reasons0| ==> score == score0)
    ensures forall r :: r in reasons <==> r in reasons0 || ArtifactReason(c, r)
  {
    score, reasons := score0, reasons0;
    if c(ExternalNetworkConnection) >= 1 {
      score, reasons := score + 25, reasons + [ExternalConnectionObserved];
    }
    if c(SuspiciousFile) >= 1 {
      score, reasons := score + 25, reasons + [SuspiciousFileObserved];
    }
    if c(PersistenceModified) >= 1 {
      score, reasons := score + 30, reasons + [PersistenceModifiedClaim];
    }
  }

  method ScoreService(c: Counter, score0: nat, reasons0: seq<Claim>, attack0: AttackType)
    returns (score: nat, reasons: seq<Claim>, attack: AttackType)
    ensures score == score0 + ServicePoints(c)
    ensures |reasons| >= |reasons0| && (|reasons| == |reasons0| ==> score == score0)
    ensures forall r :: r in reasons <==> r in reasons0 || ServiceReason(c, r)
    ensures attack == ServiceAttackOr(c, attack0)
  {
    score, reasons, attack := score0, reasons0, attack0;
    if c(HttpRequest) >= 100 {
      score, reasons, attack := score + 25, reasons + [HttpSpike], HttpFloodSuspected;
    }
    if c(AgentIntegrityChange) >= 1 {
      score, reasons, attack := score + 90, reasons + [IntegrityChange], AgentTamperSuspected;
    }
  }

  method ScoreDroneControl(c: Counter, score0: nat, reasons0: seq<Claim>, attack0: AttackType)
    returns (score: nat, reasons: seq<Claim>, attack: AttackType)
    ensures score == score0 + DroneControlPoints(c)
    ensures |reasons| >= |reasons0| && (|reasons| == |reasons0| ==> score == score0)
    ensures forall r :: r in reasons <==> r in reasons0 || DroneControlReason(c, r)
    ensures attack == DroneControlAttackOr(c, attack0)
  {
    score, reasons, attack := score0, reasons0, attack0;
    if c(DroneUnauthorizedGcs) >= 1 {
      score, reasons, attack := score + 65, reasons + [UnauthorizedGcs], DroneUnauthorizedGcsAttack;
    }
    if c(DroneCommandAttempt) >= 1 {
      score, reasons, attack := score + 60, reasons + [CommandFromUntrusted], DroneCommandAttack;
    }
    if c(DroneMissionOrParamChange) >= 1 {
      score, reasons, attack := score + 65, reasons + [MissionOrParamChange], DroneMissionParamAttack;
    }
    if c(DroneHeartbeatSpoofing) >= 1 {
      score, reasons, attack := score + 60, reasons + [HeartbeatSpoofing], DroneHeartbeatSpoofingAttack;
    }
  }

  method ScoreDroneTraffic(c: Counter, score0: nat, reasons0: seq<Claim>, attack0: AttackType)
    returns (score: nat, reasons: seq<Claim>, attack: AttackType)
    ensures score == score0 + DroneTrafficPoints(c)
    ensures |reasons| >= |reasons0| && (|reasons| == |reasons0| ==> score == score0)
    ensures forall r :: r in reasons <==> r in reasons0 || DroneTrafficReason(c, r)
    ensures attack == DroneTrafficAttackOr(c, attack0)
  {
    score, reasons, attack := score0, reasons0, attack0;
    if c(DroneMavlinkFlood) >= 1 {
      score, reasons, attack := score + 50, reasons + [MavlinkFlood], DroneMavlinkFloodAttack;
    }
    if c(DroneRos2DdsDiscovery) >= 1 {
      score, reasons, attack := score + 50, reasons + [DdsDiscovery], DroneRos2DdsProbe;
    }
    if c(DroneRos2DdsFlood) >= 1 {
      score, reasons, attack := score + 50, reasons + [DdsFlood], DroneRos2DdsFloodAttack;
    }
  }

  lemma NoSignatures()
    ensures SignaturePoints([]) == 0 && SignatureIds([]) == {}
  {
  }

  lemma SignaturesExtend(events: seq<Event>, e: Event)
    ensures SignatureIds(events + [e]) ==
            SignatureIds(events) + if e.eventType.SignatureMatch? && e.metadata.signatureId != "" then {e.metadata.signatureId} else {}
    ensures SignaturePoints(events + [e]) ==
            if e.eventType.SignatureMatch? && SignatureRisk(e) > SignaturePoints(events) then SignatureRisk(e) else SignaturePoints(events)
  {
    assert (events + [e])[..|events|] == events;
    assert forall x :: x in events + [e] <==> x in events || x == e;
  }

  /** The maximum loop over the signature matches; a score that does not parse counts as 60. */
  method MaxSignature(events: seq<Event>) returns (best: nat, ids: set<string>, any: bool)
    ensures best == SignaturePoints(events)
    ensures any <==> exists e :: e in events && e.eventType.SignatureMatch?
    ensures ids == SignatureIds(events)
    ensures !any ==> best == 0
  {
    hide SignaturePoints, SignatureIds;
    best, ids, any := 0, {}, false;
    assert SignaturePoints(events[..0]) == 0 && SignatureIds(events[..0]) == {} by {
      NoSignatures();
    }
    for i := 0 to |events|
      invariant best == SignaturePoints(events[..i])
      invariant any <==> exists e :: e in events[..i] && e.eventType.SignatureMatch?
      invariant ids == SignatureIds(events[..i])
      invariant !any ==> best == 0
    {
      assert events[..i + 1] == events[..i] + [events[i]];
      var e := events[i];
      SignaturesExtend(events[..i], e);
      if e.eventType.SignatureMatch? {
        any := true;
        var risk := match e.metadata.riskScore case None => 60 case Some(r) => r;
        best := Max(best, risk);
        if e.metadata.signatureId != "" {
          ids := ids + {e.metadata.signatureId};
        }
      }
    }
    assert events[..|events|] == events;
  }

  /** The rules of score_chain in order, up to the cross-source bonus. */
  method ApplyRules(events: seq<Event>) returns (score: nat, reasons: seq<Claim>, attack: AttackType)
    ensures score == Points(events)
    ensures attack == AttackOf(CounterOf(events))
    ensures score > 0 ==> |reasons| > 0
    ensures forall r :: r in reasons <==> RuleReason(events, r)
  {
    hide SshReason, BehaviourReason, ArtifactReason, ServiceReason, DroneControlReason, DroneTrafficReason;
    hide SshPoints, BehaviourPoints, ArtifactPoints, ServicePoints, DroneControlPoints, DroneTrafficPoints, SignaturePoints,
         SignatureIds;
    var c := CounterOf(events);
    score, reasons, attack := ScoreSsh(c);
    score, reasons, attack := ScoreBehaviour(c, score, reasons, attack);
    score, reasons := ScoreArtifacts(c, score, reasons);
    score, reasons, attack := ScoreService(c, score, reasons, attack);
    score, reasons, attack := ScoreDroneControl(c, score, reasons, attack);
    score, reasons, attack := ScoreDroneTraffic(c, score, reasons, attack);
    var best, ids, any := MaxSignature(events);
    HasType(events, SignatureMatch);
    if any {
      score, reasons, attack := score + best, reasons + [SignatureMatched(ids)], SignaturePatternMatch;
    }
  }

  /** score_chain: fills in the score, the confidence band, the attack and the reasons of a chain. */
  method ScoreChain(chain: Chain) returns (scored: Chain)
    ensures scored == chain.(score := scored.score, confidence := scored.confidence,
                             attackType := scored.attackType, reasons := scored.reasons)
    ensures scored.score == Score(chain.events)
    ensures scored.confidence == Band(scored.score)
    ensures scored.attackType == AttackOf(CounterOf(chain.events))
    ensures scored.score > 0 ==> |scored.reasons| > 0
    ensures forall r :: r in scored.reasons <==> Explains(chain.events, r)
  {
    hide RuleReason, Points;
    var events := chain.events;
    var score, reasons, attack := ApplyRules(events);
    if |Sources(events)| >= 2 && score >= 40 {
      score, reasons := score + 10, reasons + [MultipleSources];
    }
    var clamped := Max(0, Min(score, 100));
    var confidence;
    if clamped >= 90 {
      confidence := Critical;
    } else if clamped >= 75 {
      confidence := High;
    } else if clamped >= 60 {
      confidence := MediumHigh;
    } else if clamped >= 30 {
      confidence := Medium;
    } else {
      confidence := Low;
    }
    scored := chain.(score := clamped, confidence := confidence, attackType := attack, reasons := reasons);
  }

  // ---- More evidence never lowers a score ----

  ghost function OfType(events: seq<Event>, t: EventType): set<Event> {
    set e | e in events && e.eventType == t
  }

  lemma OfTypeExtends(init: seq<Event>, last: Event, t: EventType)
    requires last !in init
    ensures |OfType(init + [last], t)| == |OfType(init, t)| + if last.eventType == t then 1 else 0
  {
    if last.eventType == t {
      assert OfType(init + [last], t) == OfType(init, t) + {last};
    } else {
      assert OfType(init + [last], t) == OfType(init, t);
    }
  }

  lemma {:induction false} CountIsSize(events: seq<Event>, t: EventType)
    requires Distinct(events)
    ensures Count(events, t) == |OfType(events, t)|
  {
    if events != [] {
      var init, last := events[..|events| - 1], events[|events| - 1];
      CountIsSize(init, t);
      OfTypeExtends(init, last, t);
      assert events == init + [last];
      assert Types(events) == Types(init) + [last.eventType];
    }
  }

  lemma CountMonotone(few: seq<Event>, more: seq<Event>, t: EventType)
    requires Distinct(few) && Distinct(more) && Elems(few) <= Elems(more)
    ensures Count(few, t) <= Count(more, t)
  {
    CountIsSize(few, t);
    CountIsSize(more, t);
    assert forall e :: e in few ==> e in Elems(few);
    SubsetSize(OfType(few, t), OfType(more, t));
  }

  /** The signature points bound every match's risk and are reached by one of them. */
  lemma {:induction false} SignaturePointsIsMax(events: seq<Event>)
    ensures forall e :: e in events && e.eventType.SignatureMatch? ==> SignatureRisk(e) <= SignaturePoints(events)
    ensures SignaturePoints(events) > 0 ==>
              exists e :: e in events && e.eventType.SignatureMatch? && SignatureRisk(e) == SignaturePoints(events)
  {
    if events != [] {
      var init, last := events[..|events| - 1], events[|events| - 1];
      SignaturePointsIsMax(init);
      assert events == init + [last];
      if SignaturePoints(init) == SignaturePoints(events) && SignaturePoints(events) > 0 {
        var e :| e in init && e.eventType.SignatureMatch? && SignatureRisk(e) == SignaturePoints(init);
        assert e in events;
      }
    }
  }

  lemma SignaturePointsMonotone(few: seq<Event>, more: seq<Event>)
    requires Elems(few) <= Elems(more)
    ensures SignaturePoints(few) <= SignaturePoints(more)
  {
    SignaturePointsIsMax(few);
    SignaturePointsIsMax(more);
    if SignaturePoints(few) > 0 {
      var e :| e in few && e.eventType.SignatureMatch? && SignatureRisk(e) == SignaturePoints(few);
      assert e in Elems(more);
    }
  }

  lemma RulesMonotone(few: Counter, more: Counter)
    requires forall t :: few(t) <= more(t)
    ensures SshPoints(few) <= SshPoints(more)
    ensures BehaviourPoints(few) <= BehaviourPoints(more)
    ensures ArtifactPoints(few) <= ArtifactPoints(more)
    ensures ServicePoints(few) <= ServicePoints(more)
    ensures DroneControlPoints(few) <= DroneControlPoints(more)
    ensures DroneTrafficPoints(few) <= DroneTrafficPoints(more)
  {
  }

  lemma PointsMonotone(few: seq<Event>, more: seq<Event>)
    requires Distinct(few) && Distinct(more) && Elems(few) <= Elems(more)
    ensures Points(few) <= Points(more)
  {
    forall t ensures Count(few, t) <= Count(more, t) {
      CountMonotone(few, more, t);
    }
    SignaturePointsMonotone(few, more);
    RulesMonotone(CounterOf(few), CounterOf(more));
  }

  /** The score is monotone in the evidence: every tier, gate, maximum and the cross-source bonus included. */
  lemma ScoreMonotone(few: seq<Event>, more: seq<Event>)
    requires Distinct(few) && Distinct(more) && Elems(few) <= Elems(more)
    ensures Score(few) <= Score(more)
  {
    PointsMonotone(few, more);
    assert forall e :: e in few ==> e in Elems(few);
    SubsetSize(Sources(few), Sources(more));
  }

  // ---- The definitions in literals ----

  /** How many distinct events of a type a chain holds. */
  ghost function Number(events: seq<Event>, t: EventType): nat {
    |set e | e in events && e.eventType == t|
  }

  lemma NumberIsCount(events: seq<Event>, t: EventType)
    requires Distinct(events)
    ensures Number(events, t) == Count(events, t)
  {
    CountIsSize(events, t);
    assert OfType(events, t) == set e | e in events && e.eventType == t;
  }

  function FailedLoginScore(n: nat): nat {
    if n >= 30 then 75 else if n >= 10 then 60 else if n >= 5 then 45 else 0
  }

  function InvalidUserScore(n: nat): nat {
    if n >= 10 then 60 else if n >= 5 then 45 else if n >= 3 then 20 else 0
  }

  function SshTotal(n: Counter): nat {
    FailedLoginScore(n(SshFailedLogin)) + InvalidUserScore(n(SshInvalidUser))
    + (if n(SshSuccessLogin) >= 1 && n(SshFailedLogin) >= 1 then 30 else 0)
  }

  function BehaviourTotal(n: Counter): nat {
    (if n(SudoExecution) >= 1 then 20 else 0) + (if n(WebAttackPattern) >= 1 then 25 else 0)
    + (if n(AppError) >= 1 && n(WebAttackPattern) >= 1 then 15 else 0) + (if n(SuspiciousProcess) >= 1 then 30 else 0)
  }

  function ArtifactTotal(n: Counter): nat {
    (if n(ExternalNetworkConnection) >= 1 then 25 else 0) + (if n(SuspiciousFile) >= 1 then 25 else 0)
    + (if n(PersistenceModified) >= 1 then 30 else 0) + (if n(HttpRequest) >= 100 then 25 else 0)
    + (if n(AgentIntegrityChange) >= 1 then 90 else 0)
  }

  function DroneTotal(n: Counter): nat {
    (if n(DroneUnauthorizedGcs) >= 1 then 65 else 0) + (if n(DroneCommandAttempt) >= 1 then 60 else 0)
    + (if n(DroneMissionOrParamChange) >= 1 then 65 else 0) + (if n(DroneHeartbeatSpoofing) >= 1 then 60 else 0)
    + (if n(DroneMavlinkFlood) >= 1 then 50 else 0) + (if n(DroneRos2DdsDiscovery) >= 1 then 50 else 0)
    + (if n(DroneRos2DdsFlood) >= 1 then 50 else 0)
  }

  function Total(n: Counter, risk: nat): nat {
    SshTotal(n) + BehaviourTotal(n) + ArtifactTotal(n) + DroneTotal(n) + risk
  }

  lemma SshInNumbers(c: Counter)
    ensures SshPoints(c) == SshTotal(c)
  {
  }

  lemma BehaviourInNumbers(c: Counter)
    ensures BehaviourPoints(c) == BehaviourTotal(c)
  {
  }

  lemma ArtifactsInNumbers(c: Counter)
    ensures ArtifactPoints(c) + ServicePoints(c) == ArtifactTotal(c)
  {
  }

  lemma DronesInNumbers(c: Counter)
    ensures DroneControlPoints(c) + DroneTrafficPoints(c) == DroneTotal(c)
  {
  }

  lemma SameNumbers(n: Counter, c: Counter)
    requires forall t :: n(t) == c(t)
    ensures SshTotal(n) == SshTotal(c) && BehaviourTotal(n) == BehaviourTotal(c)
    ensures ArtifactTotal(n) == ArtifactTotal(c) && DroneTotal(n) == DroneTotal(c)
  {
  }

  lemma PointsInNumbers(events: seq<Event>, n: Counter)
    requires Distinct(events) && forall t :: n(t) == Number(events, t)
    ensures Points(events) == Total(n, SignaturePoints(events))
  {
    hide SshPoints, BehaviourPoints, ArtifactPoints, ServicePoints, DroneControlPoints, DroneTrafficPoints, SignaturePoints;
    hide SshTotal, BehaviourTotal, ArtifactTotal, DroneTotal, Number, Count;
    var c := CounterOf(events);
    forall t ensures n(t) == c(t) {
      NumberIsCount(events, t);
    }
    SameNumbers(n, c);
    SshInNumbers(c);
    BehaviourInNumbers(c);
    ArtifactsInNumbers(c);
    DronesInNumbers(c);
  }

  /** The risk of one signature match: what its metadata says, 60 if that is no number. */
  function Risk(e: Event): int {
    if e.metadata.riskScore.Some? then e.metadata.riskScore.value else 60
  }

  /** best is the largest risk among the signature matches, and 0 without any of a positive one. */
  ghost predicate IsLargestRisk(events: seq<Event>, best: int) {
    && best >= 0
    && (forall e :: e in events && e.eventType.SignatureMatch? ==> Risk(e) <= best)
    && (best > 0 ==> exists e :: e in events && e.eventType.SignatureMatch? && Risk(e) == best)
  }

  lemma OneLargestRisk(events: seq<Event>, best: int)
    requires IsLargestRisk(events, best)
    ensures best == SignaturePoints(events)
  {
    SignaturePointsIsMax(events);
  }

  ghost function Collectors(events: seq<Event>): set<string> {
    set e | e in events :: e.source
  }

  lemma ScoreFromTotal(events: seq<Event>)
    ensures Score(events) == Min(100, if |Collectors(events)| >= 2 && Points(events) >= 40 then Points(events) + 10 else Points(events))
  {
    hide Points;
  }

  /** The score of a chain from the numbers of its events: the total of all rules, ten more for a total of at least
      40 from two collectors, and at most 100. */
  lemma ScoreInNumbers(events: seq<Event>, n: Counter, risk: nat)
    requires Distinct(events) && IsLargestRisk(events, risk)
    requires forall t :: n(t) == Number(events, t)
    ensures var total := Total(n, risk);
            Score(events) == Min(100, if |Collectors(events)| >= 2 && total >= 40 then total + 10 else total)
  {
    hide Score, Total, Points, SignaturePoints, IsLargestRisk, Number;
    PointsInNumbers(events, n);
    OneLargestRisk(events, risk);
    ScoreFromTotal(events);
  }

  /** The band of a score by its thresholds. */
  lemma BandInNumbers(s: int)
    ensures Band(s).Critical? <==> s >= 90
    ensures Band(s).High? <==> 75 <= s < 90
    ensures Band(s).MediumHigh? <==> 60 <= s < 75
    ensures Band(s).Medium? <==> 30 <= s < 60
    ensures Band(s).Low? <==> s < 30
  {
  }

  function PresenceScore(t: EventType): nat {
    match t
    case SudoExecution => 20
    case WebAttackPattern => 25
    case SuspiciousProcess => 30
    case ExternalNetworkConnection => 25
    case SuspiciousFile => 25
    case PersistenceModified => 30
    case AgentIntegrityChange => 90
    case DroneUnauthorizedGcs => 65
    case DroneCommandAttempt => 60
    case DroneMissionOrParamChange => 65
    case DroneHeartbeatSpoofing => 60
    case DroneMavlinkFlood => 50
    case DroneRos2DdsDiscovery => 50
    case DroneRos2DdsFlood => 50
    case _ => 0
  }

  /** What n events of one type score by themselves. */
  function TypeScore(t: EventType, n: nat): nat {
    match t
    case SshFailedLogin => FailedLoginScore(n)
    case SshInvalidUser => InvalidUserScore(n)
    case HttpRequest => if n >= 100 then 25 else 0
    case _ => if n >= 1 then PresenceScore(t) else 0
  }

  ghost predicate OnlyType(n: Counter, t: EventType) {
    forall x :: x != t ==> n(x) == 0
  }

  lemma GroupsOfOne(n: Counter, t: EventType)
    requires OnlyType(n, t)
    ensures SshTotal(n) == if t.SshFailedLogin? || t.SshInvalidUser? then TypeScore(t, n(t)) else 0
    ensures BehaviourTotal(n) == if t.SudoExecution? || t.WebAttackPattern? || t.SuspiciousProcess? then TypeScore(t, n(t)) else 0
  {
  }

  lemma ArtifactsOfOne(n: Counter, t: EventType)
    requires OnlyType(n, t)
    ensures ArtifactTotal(n) == if t.ExternalNetworkConnection? || t.SuspiciousFile? || t.PersistenceModified? || t.HttpRequest?
                                   || t.AgentIntegrityChange? then TypeScore(t, n(t)) else 0
  {
  }

  lemma DronesOfOne(n: Counter, t: EventType)
    requires OnlyType(n, t)
    ensures DroneTotal(n) == if t.DroneUnauthorizedGcs? || t.DroneCommandAttempt? || t.DroneMissionOrParamChange?
                                || t.DroneHeartbeatSpoofing? || t.DroneMavlinkFlood? || t.DroneRos2DdsDiscovery?
                                || t.DroneRos2DdsFlood? then TypeScore(t, n(t)) else 0
  {
  }

  lemma TotalOfOne(n: Counter, t: EventType)
    requires OnlyType(n, t) && !t.SignatureMatch?
    ensures Total(n, 0) == TypeScore(t, n(t))
  {
    GroupsOfOne(n, t);
    ArtifactsOfOne(n, t);
    DronesOfOne(n, t);
    hide SshTotal, BehaviourTotal, ArtifactTotal, DroneTotal;
  }

  lemma NoneOfType(events: seq<Event>, x: EventType)
    requires forall e :: e in events ==> e.eventType != x
    ensures Number(events, x) == 0
  {
    assert (set e | e in events && e.eventType == x) == {};
  }

  lemma AllOfType(events: seq<Event>, t: EventType)
    requires Distinct(events) && forall e :: e in events ==> e.eventType == t
    ensures Number(events, t) == |events|
  {
    DistinctSize(events);
    assert (set e | e in events && e.eventType == t) == Elems(events);
  }

  lemma NumbersOfOne(events: seq<Event>, t: EventType, x: EventType)
    requires Distinct(events) && forall e :: e in events ==> e.eventType == t
    ensures Number(events, x) == if x == t then |events| else 0
  {
    hide Number, Distinct;
    if x == t {
      AllOfType(events, t);
    } else {
      NoneOfType(events, x);
    }
  }

  lemma TypeScoreBound(t: EventType, n: nat)
    ensures TypeScore(t, n) <= 90
  {
  }

  lemma OneCollector(events: seq<Event>)
    requires forall e, f :: e in events && f in events ==> e.source == f.source
    ensures |Collectors(events)| <= 1
  {
    if events == [] {
      assert Collectors(events) == {};
    } else {
      assert events[0] in events;
      assert Collectors(events) == {events[0].source};
    }
  }

  /** n distinct events of one type from one collector score exactly the literal of that type and number: 0, 45, 60
      or 75 for failed logins below 5, below 10, below 30 and from 30 on. */
  lemma OneKindScores(events: seq<Event>, t: EventType)
    requires Distinct(events) && !t.SignatureMatch?
    requires forall e :: e in events ==> e.eventType == t
    requires forall e, f :: e in events && f in events ==> e.source == f.source
    ensures Score(events) == TypeScore(t, |events|)
  {
    hide Total, Score, TypeScore, Number;
    var n: Counter := (x: EventType) => if x == t then |events| else 0;
    forall x ensures n(x) == Number(events, x) {
      NumbersOfOne(events, t, x);
    }
    OneCollector(events);
    ScoreInNumbers(events, n, 0);
    TotalOfOne(n, t);
    TypeScoreBound(t, |events|);
  }

  lemma TotalHasType(n: Counter, risk: nat, t: EventType)
    ensures Total(n, risk) >= TypeScore(t, n(t)) && Total(n, risk) >= risk
  {
  }

  lemma TotalHasPairs(n: Counter, risk: nat)
    ensures n(SshSuccessLogin) >= 1 && n(SshFailedLogin) >= 1 ==> Total(n, risk) >= FailedLoginScore(n(SshFailedLogin)) + 30
    ensures n(AppError) >= 1 && n(WebAttackPattern) >= 1 ==> Total(n, risk) >= 40
  {
  }

  /** Whatever else a chain holds: its events of one type bound its score from below by their literal, so do its
      pairs of success and failure and of web attack and application error, and every signature match by its risk. */
  lemma HeldEventsBoundTheScore(events: seq<Event>, t: EventType)
    requires Distinct(events)
    ensures Score(events) >= TypeScore(t, Number(events, t))
    ensures Number(events, SshSuccessLogin) >= 1 && Number(events, SshFailedLogin) >= 1 ==>
              Score(events) >= Min(100, FailedLoginScore(Number(events, SshFailedLogin)) + 30)
    ensures Number(events, AppError) >= 1 && Number(events, WebAttackPattern) >= 1 ==> Score(events) >= 40
    ensures forall e :: e in events && e.eventType.SignatureMatch? ==> Score(events) >= Min(100, Risk(e))
  {
    hide Total, Score, TypeScore, Number, FailedLoginScore;
    var n := CounterOf(events);
    forall x ensures n(x) == Number(events, x) {
      NumberIsCount(events, x);
    }
    var risk := SignaturePoints(events);
    SignaturePointsIsMax(events);
    assert IsLargestRisk(events, risk);
    ScoreInNumbers(events, n, risk);
    TotalHasType(n, risk, t);
    TotalHasPairs(n, risk);
    TypeScoreBound(t, n(t));
  }

  /** Two types only, from one collector. */
  lemma TwoKinds(events: seq<Event>, a: EventType, b: EventType, n: Counter)
    requires Distinct(events) && a != b && !a.SignatureMatch? && !b.SignatureMatch?
    requires forall e :: e in events ==> e.eventType == a || e.eventType == b
    requires forall e, f :: e in events && f in events ==> e.source == f.source
    requires n(a) == Number(events, a) && n(b) == Number(events, b) && forall x :: x != a && x != b ==> n(x) == 0
    ensures Score(events) == Min(100, Total(n, 0))
  {
    hide Score, Number, Total;
    forall x ensures n(x) == Number(events, x) {
      if x != a && x != b {
        NoneOfType(events, x);
      }
    }
    OneCollector(events);
    ScoreInNumbers(events, n, 0);
  }

  lemma TotalOfLogins(n: Counter)
    requires forall x: EventType :: !x.SshSuccessLogin? && !x.SshFailedLogin? ==> n(x) == 0
    ensures Total(n, 0) == FailedLoginScore(n(SshFailedLogin)) + if n(SshSuccessLogin) >= 1 && n(SshFailedLogin) >= 1 then 30 else 0
  {
  }

  lemma TotalOfWeb(n: Counter)
    requires forall x: EventType :: !x.AppError? && !x.WebAttackPattern? ==> n(x) == 0
    ensures Total(n, 0) == if n(WebAttackPattern) == 0 then 0 else if n(AppError) == 0 then 25 else 40
  {
  }

  /** Successful and failed logins alone, from one collector. */
  lemma LoginPairScores(events: seq<Event>)
    requires Distinct(events)
    requires forall e :: e in events ==> e.eventType.SshSuccessLogin? || e.eventType.SshFailedLogin?
    requires forall e, f :: e in events && f in events ==> e.source == f.source
    ensures var m, k := Number(events, SshSuccessLogin), Number(events, SshFailedLogin);
            Score(events) == Min(100, FailedLoginScore(k) + if m >= 1 && k >= 1 then 30 else 0)
  {
    hide Score, Number, Total;
    var m, k := Number(events, SshSuccessLogin), Number(events, SshFailedLogin);
    var n: Counter := (x: EventType) => if x.SshSuccessLogin? then m else if x.SshFailedLogin? then k else 0;
    TwoKinds(events, SshSuccessLogin, SshFailedLogin, n);
    TotalOfLogins(n);
  }

  /** Application errors and web attacks alone, from one collector. */
  lemma WebPairScores(events: seq<Event>)
    requires Distinct(events)
    requires forall e :: e in events ==> e.eventType.AppError? || e.eventType.WebAttackPattern?
    requires forall e, f :: e in events && f in events ==> e.source == f.source
    ensures Score(events) == if Number(events, WebAttackPattern) == 0 then 0 else if Number(events, AppError) == 0 then 25 else 40
  {
    hide Score, Number, Total;
    var m, k := Number(events, AppError), Number(events, WebAttackPattern);
    var n: Counter := (x: EventType) => if x.AppError? then m else if x.WebAttackPattern? then k else 0;
    TwoKinds(events, AppError, WebAttackPattern, n);
    TotalOfWeb(n);
  }

  /** Signature matches alone, from one collector, score the largest of their risks. */
  lemma SignaturesScore(events: seq<Event>, risk: nat)
    requires Distinct(events) && IsLargestRisk(events, risk)
    requires forall e :: e in events ==> e.eventType.SignatureMatch?
    requires forall e, f :: e in events && f in events ==> e.source == f.source
    ensures Score(events) == Min(100, risk)
  {
    hide Score, Number, IsLargestRisk;
    var n: Counter := (x: EventType) => if x == SignatureMatch then |events| else 0;
    forall x ensures n(x) == Number(events, x) {
      NumbersOfOne(events, SignatureMatch, x);
    }
    OneCollector(events);
    ScoreInNumbers(events, n, risk);
  }

  /** A second collector adds ten to a total of at least 40. */
  lemma SecondCollector(events: seq<Event>, n: Counter, risk: nat)
    requires Distinct(events) && IsLargestRisk(events, risk)
    requires forall t :: n(t) == Number(events, t)
    requires exists e, f :: e in events && f in events && e.source != f.source
    ensures Score(events) == Min(100, Total(n, risk) + if Total(n, risk) >= 40 then 10 else 0)
  {
    hide Score, Number, IsLargestRisk, Total;
    ScoreInNumbers(events, n, risk);
    var e, f :| e in events && f in events && e.source != f.source;
    assert {e.source, f.source} <= Collectors(events);
    SubsetSize({e.source, f.source}, Collectors(events));
  }

  /** When a rule gives its reason, in numbers. */
  predicate SshGives(n: Counter, r: Claim) {
    || (r == SevereSshBurst && n(SshFailedLogin) >= 30)
    || (r == SshBurstExceeded && 10 <= n(SshFailedLogin) <= 29)
    || (r == SshBurst && 5 <= n(SshFailedLogin) <= 9)
    || (r == SevereInvalidUsers && n(SshInvalidUser) >= 10)
    || (r == InvalidUserEnumeration && 5 <= n(SshInvalidUser) <= 9)
    || (r == MultipleInvalidUsers && 3 <= n(SshInvalidUser) <= 4)
    || (r == SshSuccessAfterFailures && n(SshSuccessLogin) > 0 && n(SshFailedLogin) > 0)
  }

  predicate HostGives(n: Counter, r: Claim) {
    || (r == SudoObserved && n(SudoExecution) > 0)
    || (r == WebPatternObserved && n(WebAttackPattern) > 0)
    || (r == AppErrorAfterWeb && n(AppError) > 0 && n(WebAttackPattern) > 0)
    || (r == SuspiciousProcessClaim && n(SuspiciousProcess) > 0)
    || (r == ExternalConnectionObserved && n(ExternalNetworkConnection) > 0)
    || (r == SuspiciousFileObserved && n(SuspiciousFile) > 0)
    || (r == PersistenceModifiedClaim && n(PersistenceModified) > 0)
    || (r == HttpSpike && n(HttpRequest) >= 100)
    || (r == IntegrityChange && n(AgentIntegrityChange) > 0)
  }

  predicate DroneGives(n: Counter, r: Claim) {
    || (r == UnauthorizedGcs && n(DroneUnauthorizedGcs) > 0)
    || (r == CommandFromUntrusted && n(DroneCommandAttempt) > 0)
    || (r == MissionOrParamChange && n(DroneMissionOrParamChange) > 0)
    || (r == HeartbeatSpoofing && n(DroneHeartbeatSpoofing) > 0)
    || (r == MavlinkFlood && n(DroneMavlinkFlood) > 0)
    || (r == DdsDiscovery && n(DroneRos2DdsDiscovery) > 0)
    || (r == DdsFlood && n(DroneRos2DdsFlood) > 0)
  }

  lemma SshReasonsInNumbers(n: Counter, c: Counter, r: Claim)
    requires forall t :: n(t) == c(t)
    ensures SshReason(c, r) <==> SshGives(n, r)
  {
  }

  lemma HostReasonsInNumbers(n: Counter, c: Counter, r: Claim)
    requires forall t :: n(t) == c(t)
    ensures BehaviourReason(c, r) || ArtifactReason(c, r) || ServiceReason(c, r) <==> HostGives(n, r)
  {
  }

  lemma DroneReasonsInNumbers(n: Counter, c: Counter, r: Claim)
    requires forall t :: n(t) == c(t)
    ensures DroneControlReason(c, r) || DroneTrafficReason(c, r) <==> DroneGives(n, r)
  {
  }

  /** ids are the non-empty signature ids of the signature matches. */
  ghost predicate MatchedIds(events: seq<Event>, ids: set<string>) {
    forall id :: id in ids <==> id != "" && exists e :: e in events && e.eventType.SignatureMatch? && e.metadata.signatureId == id
  }

  lemma IdsMatched(events: seq<Event>, r: Claim)
    ensures r.SignatureMatched? ==> (r.ids == SignatureIds(events) <==> MatchedIds(events, r.ids))
  {
  }

  /** A reason explains the score of a chain exactly if its rule holds of the numbers of the chain's events. */
  lemma ReasonsInNumbers(events: seq<Event>, n: Counter, risk: nat, r: Claim)
    requires Distinct(events) && IsLargestRisk(events, risk)
    requires forall t :: n(t) == Number(events, t)
    ensures Explains(events, r) <==>
            || SshGives(n, r) || HostGives(n, r) || DroneGives(n, r)
            || (r.SignatureMatched? && MatchedIds(events, r.ids) && exists e :: e in events && e.eventType.SignatureMatch?)
            || (r == MultipleSources && |Collectors(events)| >= 2 && Total(n, risk) >= 40)
  {
    hide SshGives, HostGives, DroneGives, SshReason, BehaviourReason, ArtifactReason, ServiceReason, DroneControlReason, DroneTrafficReason;
    hide Number, Points, Total, IsLargestRisk, Count;
    var c := CounterOf(events);
    forall t ensures n(t) == c(t) {
      NumberIsCount(events, t);
    }
    SshReasonsInNumbers(n, c, r);
    HostReasonsInNumbers(n, c, r);
    DroneReasonsInNumbers(n, c, r);
    OneLargestRisk(events, risk);
    PointsInNumbers(events, n);
    IdsMatched(events, r);
  }

  predicate NoFlood(c: Counter) {
    c(SignatureMatch) == 0 && c(DroneRos2DdsFlood) == 0
  }

  predicate NoTraffic(c: Counter) {
    NoFlood(c) && c(DroneRos2DdsDiscovery) == 0 && c(DroneMavlinkFlood) == 0
  }

  /** The attack named is that of the last rule that holds, in the order of the code. */
  lemma AttackInNumbers(c: Counter)
    ensures AttackOf(c).SignaturePatternMatch? <==> c(SignatureMatch) >= 1
    ensures c(SignatureMatch) == 0 ==> (AttackOf(c).DroneRos2DdsFloodAttack? <==> c(DroneRos2DdsFlood) >= 1)
    ensures NoFlood(c) ==> (AttackOf(c).DroneRos2DdsProbe? <==> c(DroneRos2DdsDiscovery) >= 1)
    ensures NoFlood(c) && c(DroneRos2DdsDiscovery) == 0 ==> (AttackOf(c).DroneMavlinkFloodAttack? <==> c(DroneMavlinkFlood) >= 1)
    ensures NoTraffic(c) ==> (AttackOf(c).DroneHeartbeatSpoofingAttack? <==> c(DroneHeartbeatSpoofing) >= 1)
    ensures NoTraffic(c) && c(DroneHeartbeatSpoofing) == 0 ==>
              (AttackOf(c).DroneMissionParamAttack? <==> c(DroneMissionOrParamChange) >= 1)
    ensures NoTraffic(c) && c(DroneHeartbeatSpoofing) == 0 && c(DroneMissionOrParamChange) == 0 ==>
              (AttackOf(c).DroneCommandAttack? <==> c(DroneCommandAttempt) >= 1)
    ensures NoTraffic(c) && c(DroneHeartbeatSpoofing) == 0 && c(DroneMissionOrParamChange) == 0 && c(DroneCommandAttempt) == 0 ==>
              (AttackOf(c).DroneUnauthorizedGcsAttack? <==> c(DroneUnauthorizedGcs) >= 1)
  {
  }

  predicate NoDrone(c: Counter) {
    NoTraffic(c) && c(DroneHeartbeatSpoofing) == 0 && c(DroneMissionOrParamChange) == 0 && c(DroneCommandAttempt) == 0
    && c(DroneUnauthorizedGcs) == 0
  }

  lemma HostAttackInNumbers(c: Counter)
    requires NoDrone(c)
    ensures AttackOf(c).AgentTamperSuspected? <==> c(AgentIntegrityChange) >= 1
    ensures c(AgentIntegrityChange) == 0 ==> (AttackOf(c).HttpFloodSuspected? <==> c(HttpRequest) >= 100)
    ensures c(AgentIntegrityChange) == 0 && c(HttpRequest) < 100 ==>
              (AttackOf(c).RceOrPostExploitationSuspected? <==> c(SuspiciousProcess) >= 1)
    ensures c(AgentIntegrityChange) == 0 && c(HttpRequest) < 100 && c(SuspiciousProcess) == 0 ==>
              (AttackOf(c).WebVulnerabilityAttack? <==> c(WebAttackPattern) >= 1)
    ensures c(AgentIntegrityChange) == 0 && c(HttpRequest) < 100 && c(SuspiciousProcess) == 0 && c(WebAttackPattern) == 0 ==>
              && (AttackOf(c).AccountCompromiseSuspected? <==> c(SshSuccessLogin) >= 1 && c(SshFailedLogin) >= 1)
              && (AttackOf(c).SshBruteforce? <==>
                  !(c(SshSuccessLogin) >= 1 && c(SshFailedLogin) >= 1) && (c(SshInvalidUser) >= 5 || c(SshFailedLogin) >= 5))
  {
  }
}
