/** src/aegis_agent/ai/rule_engine.py: which actions a scored chain recommends, and the plans built from them. */
module RuleEngine {
  import opened Common
  import opened Lists
  import opened Models
  import opened Addresses
  import opened Scoring

  datatype Rec = Rec(
    action: Action,
    target: string,
    ttlSeconds: Option<int>,
    minEvidenceRequired: Option<int>,
    requiresAuditdRelation: bool,
    auditSerial: string)

  function NetworkRec(action: Action, target: string, ttl: int, minEvidence: Option<int>): Rec {
    Rec(action, target, Some(ttl), minEvidence, false, "")
  }

  function HostRec(action: Action, target: string): Rec {
    Rec(action, target, None, None, false, "")
  }

  // ---- What the events say ----

  function SignatureTarget(e: Event): string {
    if e.metadata.target != "" then e.metadata.target
    else match e.metadata.targetFrom
      case FromDstIp => e.dstIp
      case FromFilePath => e.filePath
      case FromSrcIp => e.srcIp
  }

  /** e is a signature match asking for this network action on this target. */
  function Asks(action: Action, target: string): Event -> bool {
    (e: Event) => e.eventType.SignatureMatch? && IsNetwork(e.metadata.recommendedAction)
                  && e.metadata.recommendedAction == action && SignatureTarget(e) == target
  }

  function SignatureRec(e: Event, defaultTtl: int): Rec {
    var ttl := match e.metadata.ttlSeconds case Some(t) => t case None => defaultTtl;
    NetworkRec(e.metadata.recommendedAction, SignatureTarget(e), ttl, Some(1))
  }

  predicate Has(events: seq<Event>, t: EventType) {
    exists e :: e in events && e.eventType == t
  }

  predicate IsSshChain(events: seq<Event>) {
    Has(events, SshFailedLogin) || Has(events, SshInvalidUser)
  }

  predicate IsDroneChain(events: seq<Event>) {
    exists e :: e in events && IsDrone(e.eventType)
  }

  predicate IsDroneFlood(events: seq<Event>) {
    Has(events, DroneMavlinkFlood) || Has(events, DroneRos2DdsFlood)
  }

  function Outbound(p: Parsers): Event -> bool {
    (e: Event) => e.eventType.ExternalNetworkConnection? && e.dstIp != "" && Validate(p, e.dstIp).Valid?
  }

  predicate DroppedFile(e: Event) {
    e.eventType.SuspiciousFile? && e.filePath != ""
  }

  predicate PersistenceTarget(e: Event) {
    e.eventType.PersistenceModified? && e.filePath != ""
  }

  predicate AccountUse(e: Event) {
    (e.eventType.SshSuccessLogin? || e.eventType.SudoExecution?) && e.user != ""
  }

  /** A process id in metadata names this process only if it is a number. */
  predicate Numbers(o: Option<Pid>, pid: Option<int>) {
    o.Some? && o.value.isNumber && pid == Some(o.value.value)
  }

  /** An audited process with another event on its PID, or with a file or address of its own. */
  predicate VerifiedProcess(events: seq<Event>, e: Event) {
    && e.eventType.SuspiciousProcess? && e.process != ""
    && e.metadata.fromAuditd && e.metadata.auditSerial != "" && e.pid.Some?
    && (|| e.filePath != "" || e.dstIp != ""
        || exists o :: o in events && o.eventId != e.eventId && (o.pid == e.pid || Numbers(o.metadata.pid, e.pid) || Numbers(o.metadata.ppid, e.pid)))
  }

  function Verified(events: seq<Event>): Event -> bool {
    (e: Event) => VerifiedProcess(events, e)
  }

  function ProcessTarget(e: Event): string {
    if e.pid.Some? then Decimal(e.pid.value) + " " + e.process else e.process
  }

  // ---- Reference: the recommendation for one action and target ----

  predicate Nameable(target: string) {
    target != "" && target != "unknown"
  }

  /** The SSH rate limit and the block of the chain's own source address. */
  function BruteForceRule(chain: Chain, defaultTtl: int, action: Action): Option<Rec>
    requires chain.srcIps != []
  {
    var ip, ssh := chain.srcIps[0], IsSshChain(chain.events);
    if action.BlockIpTtl? && chain.score >= 60 then
      Some(NetworkRec(BlockIpTtl, ip, defaultTtl, if IsDroneChain(chain.events) || ssh then Some(1) else None))
    else if action.RateLimitIp? && chain.score >= 45 && ssh then
      Some(NetworkRec(RateLimitIp, ip, Min(defaultTtl, 1800), Some(1)))
    else None
  }

  /** The rate limits for floods and web attacks. */
  function FloodRule(chain: Chain, defaultTtl: int, action: Action): Option<Rec>
    requires chain.srcIps != []
  {
    if action.RateLimitIp? && chain.score >= 60 && IsDroneFlood(chain.events) then
      Some(NetworkRec(RateLimitIp, chain.srcIps[0], Min(defaultTtl, 1800), Some(1)))
    else if action.RateLimitIp? && chain.score >= 70 && Has(chain.events, WebAttackPattern) then
      Some(NetworkRec(RateLimitIp, chain.srcIps[0], Min(defaultTtl, 1800), None))
    else None
  }

  /** What the score rules recommend for the chain's own source address, signatures aside. */
  function SourceRule(chain: Chain, defaultTtl: int, action: Action): Option<Rec>
    requires chain.srcIps != []
  {
    if BruteForceRule(chain, defaultTtl, action).Some? then BruteForceRule(chain, defaultTtl, action)
    else FloodRule(chain, defaultTtl, action)
  }

  function NetworkRule(p: Parsers, chain: Chain, defaultTtl: int, action: Action, target: string): Option<Rec> {
    if !Nameable(target) then None
    else if First(chain.events, Asks(action, target)).Some? then
      Some(SignatureRec(First(chain.events, Asks(action, target)).value, defaultTtl))
    else if action.BlockOutboundIp? then
      var out := First(chain.events, Outbound(p));
      if chain.score >= 75 && out.Some? && out.value.dstIp == target
      then Some(NetworkRec(BlockOutboundIp, target, defaultTtl, None)) else None
    else if chain.srcIps != [] && chain.srcIps[0] == target then SourceRule(chain, defaultTtl, action)
    else None
  }

  function SuspendRule(chain: Chain): Option<Rec> {
    var e := First(chain.events, Verified(chain.events));
    if chain.score >= 90 && e.Some?
    then Some(Rec(SuspendProcess, ProcessTarget(e.value), None, None, true, e.value.metadata.auditSerial)) else None
  }

  function QuarantineRule(chain: Chain): Option<Rec> {
    var e := First(chain.events, DroppedFile);
    if chain.score >= 75 && e.Some? then Some(HostRec(QuarantineFile, e.value.filePath)) else None
  }

  function PersistenceRule(chain: Chain): Option<Rec> {
    var e := First(chain.events, PersistenceTarget);
    if chain.score >= 85 && Has(chain.events, PersistenceModified)
    then Some(HostRec(DisablePersistence, if e.Some? then e.value.filePath else "unknown")) else None
  }

  function AccountRule(chain: Chain): Option<Rec> {
    var e := First(chain.events, AccountUse);
    if chain.score >= 90 && (e.Some? || chain.users != [])
    then Some(HostRec(RestrictAccount, if e.Some? then e.value.user else chain.users[0])) else None
  }

  function HostRule(chain: Chain, action: Action): Option<Rec> {
    match action
    case SuspendProcess => SuspendRule(chain)
    case QuarantineFile => QuarantineRule(chain)
    case DisablePersistence => PersistenceRule(chain)
    case RestrictAccount => AccountRule(chain)
    case _ => None
  }

  function OnTarget(r: Option<Rec>, target: string): Option<Rec> {
    if r.Some? && r.value.target == target then r else None
  }

  /** The recommendation a chain makes for an action on a target, if it makes one. */
  function RecFor(p: Parsers, chain: Chain, defaultTtl: int, action: Action, target: string): Option<Rec> {
    if IsNetwork(action) then NetworkRule(p, chain, defaultTtl, action, target)
    else OnTarget(HostRule(chain, action), target)
  }

  // ---- The list the code builds ----

  function Keyed(action: Action, target: string): Rec -> bool {
    (r: Rec) => r.action == action && r.target == target
  }

  function Lookup(recs: seq<Rec>, action: Action, target: string): Option<Rec> {
    First(recs, Keyed(action, target))
  }

  ghost predicate DistinctTargets(recs: seq<Rec>) {
    forall i, j :: 0 <= i < j < |recs| ==> !(recs[i].action == recs[j].action && recs[i].target == recs[j].target)
  }

  method Append(recs: seq<Rec>, r: Rec) returns (out: seq<Rec>)
    requires DistinctTargets(recs) && Lookup(recs, r.action, r.target).None?
    ensures DistinctTargets(out)
    ensures forall a, t :: Lookup(out, a, t) == if a == r.action && t == r.target then Some(r) else Lookup(recs, a, t)
  {
    out := recs + [r];
    FirstExists(recs, Keyed(r.action, r.target));
    forall a, t ensures Lookup(out, a, t) == if a == r.action && t == r.target then Some(r) else Lookup(recs, a, t) {
      FirstAppend(recs, r, Keyed(a, t));
    }
    forall i, j | 0 <= i < j < |out| ensures !(out[i].action == out[j].action && out[i].target == out[j].target) {
      if j == |recs| {
        assert recs[i] in recs;
        assert !Keyed(r.action, r.target)(recs[i]);
      }
    }
  }

  /** add_unique_action: the first recommendation for a nameable target wins. */
  method AddUnique(recs: seq<Rec>, r: Rec) returns (out: seq<Rec>)
    requires DistinctTargets(recs)
    ensures DistinctTargets(out)
    ensures forall a, t :: Lookup(out, a, t) ==
              if Nameable(t) && a == r.action && t == r.target && Lookup(recs, a, t).None? then Some(r) else Lookup(recs, a, t)
  {
    out := recs;
    if Nameable(r.target) && Lookup(recs, r.action, r.target).None? {
      out := Append(recs, r);
    }
  }

  /** The signature loop. */
  method SignatureRecs(events: seq<Event>, defaultTtl: int) returns (recs: seq<Rec>)
    ensures DistinctTargets(recs)
    ensures forall a, t :: Lookup(recs, a, t) ==
              if Nameable(t) && First(events, Asks(a, t)).Some? then Some(SignatureRec(First(events, Asks(a, t)).value, defaultTtl)) else None
  {
    recs := [];
    for i := 0 to |events|
      invariant DistinctTargets(recs)
      invariant forall a, t :: Lookup(recs, a, t) ==
                  if Nameable(t) && First(events[..i], Asks(a, t)).Some? then Some(SignatureRec(First(events[..i], Asks(a, t)).value, defaultTtl)) else None
    {
      var e := events[i];
      assert events[..i + 1] == events[..i] + [e];
      forall a, t ensures First(events[..i + 1], Asks(a, t)) ==
          if First(events[..i], Asks(a, t)).Some? then First(events[..i], Asks(a, t)) else if Asks(a, t)(e) then Some(e) else None {
        FirstAppend(events[..i], e, Asks(a, t));
      }
      if e.eventType.SignatureMatch? && IsNetwork(e.metadata.recommendedAction) && SignatureTarget(e) != "" {
        recs := AddUnique(recs, SignatureRec(e, defaultTtl));
      }
    }
    assert events[..|events|] == events;
  }

  method BruteForceRecs(chain: Chain, defaultTtl: int, recs0: seq<Rec>) returns (recs: seq<Rec>)
    requires DistinctTargets(recs0) && chain.srcIps != []
    ensures DistinctTargets(recs)
    ensures forall a, t :: Lookup(recs, a, t) ==
              if Lookup(recs0, a, t).Some? || !Nameable(t) || chain.srcIps[0] != t then Lookup(recs0, a, t)
              else BruteForceRule(chain, defaultTtl, a)
  {
    var ssh, drone := IsSshChain(chain.events), IsDroneChain(chain.events);
    recs := recs0;
    if chain.score >= 45 && ssh {
      recs := AddUnique(recs, NetworkRec(RateLimitIp, chain.srcIps[0], Min(defaultTtl, 1800), Some(1)));
    }
    if chain.score >= 60 {
      recs := AddUnique(recs, NetworkRec(BlockIpTtl, chain.srcIps[0], defaultTtl, if drone || ssh then Some(1) else None));
    }
  }

  method FloodRecs(chain: Chain, defaultTtl: int, recs0: seq<Rec>) returns (recs: seq<Rec>)
    requires DistinctTargets(recs0) && chain.srcIps != []
    ensures DistinctTargets(recs)
    ensures forall a, t :: Lookup(recs, a, t) ==
              if Lookup(recs0, a, t).Some? || !Nameable(t) || chain.srcIps[0] != t then Lookup(recs0, a, t)
              else FloodRule(chain, defaultTtl, a)
  {
    recs := recs0;
    if chain.score >= 60 && IsDroneFlood(chain.events) {
      recs := AddUnique(recs, NetworkRec(RateLimitIp, chain.srcIps[0], Min(defaultTtl, 1800), Some(1)));
    }
    if chain.score >= 70 && Has(chain.events, WebAttackPattern) {
      recs := AddUnique(recs, NetworkRec(RateLimitIp, chain.srcIps[0], Min(defaultTtl, 1800), None));
    }
  }

  /** The four rules about the chain's own source address. */
  method SourceRecs(chain: Chain, defaultTtl: int, recs0: seq<Rec>) returns (recs: seq<Rec>)
    requires DistinctTargets(recs0)
    ensures DistinctTargets(recs)
    ensures forall a, t :: Lookup(recs, a, t) ==
              if Lookup(recs0, a, t).Some? || !Nameable(t) || chain.srcIps == [] || chain.srcIps[0] != t then Lookup(recs0, a, t)
              else SourceRule(chain, defaultTtl, a)
  {
    recs := recs0;
    if chain.srcIps == [] {
      if chain.score >= 70 && Has(chain.events, WebAttackPattern) {
        recs := AddUnique(recs, NetworkRec(RateLimitIp, "unknown", Min(defaultTtl, 1800), None));
      }
    } else {
      recs := BruteForceRecs(chain, defaultTtl, recs);
      recs := FloodRecs(chain, defaultTtl, recs);
    }
  }

  method NetworkRecs(p: Parsers, chain: Chain, defaultTtl: int) returns (recs: seq<Rec>)
    ensures DistinctTargets(recs)
    ensures forall a, t :: Lookup(recs, a, t) == if IsNetwork(a) then NetworkRule(p, chain, defaultTtl, a, t) else None
  {
    recs := SignatureRecs(chain.events, defaultTtl);
    forall a, t ensures IsNetwork(a) || First(chain.events, Asks(a, t)).None? {
      FirstExists(chain.events, Asks(a, t));
    }
    recs := SourceRecs(chain, defaultTtl, recs);
    var outbound := Where(chain.events, Outbound(p));
    WhereHead(chain.events, Outbound(p));
    if chain.score >= 75 && outbound != [] {
      recs := AddUnique(recs, NetworkRec(BlockOutboundIp, outbound[0].dstIp, defaultTtl, None));
    }
  }

  method SuspendRecs(chain: Chain, recs: seq<Rec>) returns (out: seq<Rec>)
    requires DistinctTargets(recs) && forall t :: Lookup(recs, SuspendProcess, t).None?
    ensures DistinctTargets(out)
    ensures forall a, t :: Lookup(out, a, t) == if a == SuspendProcess then OnTarget(SuspendRule(chain), t) else Lookup(recs, a, t)
  {
    out := recs;
    var trusted := Where(chain.events, Verified(chain.events));
    WhereHead(chain.events, Verified(chain.events));
    if chain.score >= 90 && trusted != [] {
      out := Append(recs, Rec(SuspendProcess, ProcessTarget(trusted[0]), None, None, true, trusted[0].metadata.auditSerial));
    }
  }

  method QuarantineRecs(chain: Chain, recs: seq<Rec>) returns (out: seq<Rec>)
    requires DistinctTargets(recs) && forall t :: Lookup(recs, QuarantineFile, t).None?
    ensures DistinctTargets(out)
    ensures forall a, t :: Lookup(out, a, t) == if a == QuarantineFile then OnTarget(QuarantineRule(chain), t) else Lookup(recs, a, t)
  {
    out := recs;
    var files := Where(chain.events, DroppedFile);
    WhereHead(chain.events, DroppedFile);
    if chain.score >= 75 && files != [] {
      out := Append(recs, HostRec(QuarantineFile, files[0].filePath));
    }
  }

  method PersistenceRecs(chain: Chain, recs: seq<Rec>) returns (out: seq<Rec>)
    requires DistinctTargets(recs) && forall t :: Lookup(recs, DisablePersistence, t).None?
    ensures DistinctTargets(out)
    ensures forall a, t :: Lookup(out, a, t) == if a == DisablePersistence then OnTarget(PersistenceRule(chain), t) else Lookup(recs, a, t)
  {
    out := recs;
    var targets := Where(chain.events, PersistenceTarget);
    WhereHead(chain.events, PersistenceTarget);
    if chain.score >= 85 && Has(chain.events, PersistenceModified) {
      out := Append(recs, HostRec(DisablePersistence, if targets != [] then targets[0].filePath else "unknown"));
    }
  }

  method AccountRecs(chain: Chain, recs: seq<Rec>) returns (out: seq<Rec>)
    requires DistinctTargets(recs) && forall t :: Lookup(recs, RestrictAccount, t).None?
    ensures DistinctTargets(out)
    ensures forall a, t :: Lookup(out, a, t) == if a == RestrictAccount then OnTarget(AccountRule(chain), t) else Lookup(recs, a, t)
  {
    out := recs;
    var accounts := Where(chain.events, AccountUse);
    WhereHead(chain.events, AccountUse);
    if chain.score >= 90 && (accounts != [] || chain.users != []) {
      out := Append(recs, HostRec(RestrictAccount, if accounts != [] then accounts[0].user else chain.users[0]));
    }
  }

  /** The recommendation part of analyze_chain. */
  method Recommend(p: Parsers, chain: Chain, defaultTtl: int) returns (recs: seq<Rec>)
    ensures DistinctTargets(recs)
    ensures forall a, t :: Lookup(recs, a, t) == RecFor(p, chain, defaultTtl, a, t)
  {
    hide Lookup, DistinctTargets, NetworkRule, SuspendRule, QuarantineRule, PersistenceRule, AccountRule;
    recs := NetworkRecs(p, chain, defaultTtl);
    recs := SuspendRecs(chain, recs);
    recs := QuarantineRecs(chain, recs);
    recs := PersistenceRecs(chain, recs);
    recs := AccountRecs(chain, recs);
  }

  // ---- Plans ----

  function PlanOf(r: Rec, actionId: string, score: int, evidenceIds: seq<string>): ActionPlan {
    ActionPlan(actionId, r.action, r.target, evidenceIds, score, r.ttlSeconds, true,
               r.minEvidenceRequired, r.requiresAuditdRelation, r.auditSerial)
  }

  /** build_action_plans: one plan per recommendation, in order; `newId` supplies the generated action ids. */
  method BuildActionPlans(recs: seq<Rec>, score: int, evidenceIds: seq<string>, newId: nat -> string) returns (plans: seq<ActionPlan>)
    ensures |plans| == |recs| && forall i :: 0 <= i < |recs| ==> plans[i] == PlanOf(recs[i], newId(i), score, evidenceIds)
  {
    plans := [];
    for i := 0 to |recs|
      invariant |plans| == i && forall j :: 0 <= j < i ==> plans[j] == PlanOf(recs[j], newId(j), score, evidenceIds)
    {
      plans := plans + [PlanOf(recs[i], newId(i), score, evidenceIds)];
    }
  }

  // ---- More score or more evidence never withdraws a source action ----

  lemma FirstKeeps(few: seq<Event>, more: seq<Event>, p: Event -> bool)
    requires Elems(few) <= Elems(more) && First(few, p).Some?
    ensures First(more, p).Some?
  {
    FirstExists(few, p);
    FirstExists(more, p);
    assert First(few, p).value in Elems(more);
  }

  lemma EvidenceKeeps(few: seq<Event>, more: seq<Event>)
    requires Elems(few) <= Elems(more)
    ensures IsSshChain(few) ==> IsSshChain(more)
    ensures IsDroneChain(few) ==> IsDroneChain(more)
    ensures IsDroneFlood(few) ==> IsDroneFlood(more)
    ensures Has(few, WebAttackPattern) ==> Has(more, WebAttackPattern)
    ensures Has(few, PersistenceModified) ==> Has(more, PersistenceModified)
  {
    assert forall e :: e in few ==> e in Elems(more);
  }

  /** s is at least as easy to evidence as r, and neither asks for more than one event of its own. */
  predicate NoHarderToEvidence(r: Rec, s: Rec) {
    && (r.minEvidenceRequired.None? || r.minEvidenceRequired == Some(1))
    && (s.minEvidenceRequired.None? || s.minEvidenceRequired == Some(1))
    && (r.minEvidenceRequired.Some? ==> s.minEvidenceRequired == Some(1))
  }

  lemma SourceRuleSurvives(few: Chain, more: Chain, ttl: int, action: Action)
    requires Elems(few.events) <= Elems(more.events) && few.score <= more.score
    requires few.srcIps == more.srcIps && few.srcIps != []
    requires SourceRule(few, ttl, action).Some?
    ensures SourceRule(more, ttl, action).Some?
    ensures NoHarderToEvidence(SourceRule(few, ttl, action).value, SourceRule(more, ttl, action).value)
  {
    hide IsSshChain, IsDroneChain, IsDroneFlood, Has;
    EvidenceKeeps(few.events, more.events);
  }

  /** For the source address, a recommendation survives more evidence and a higher score, and its own
      evidence minimum never rises. */
  lemma SourceActionSurvives(p: Parsers, few: Chain, more: Chain, ttl: int, action: Action, ip: string)
    requires action.BlockIpTtl? || action.RateLimitIp?
    requires Elems(few.events) <= Elems(more.events) && few.score <= more.score
    requires few.srcIps == more.srcIps
    requires RecFor(p, few, ttl, action, ip).Some?
    ensures RecFor(p, more, ttl, action, ip).Some?
    ensures NoHarderToEvidence(RecFor(p, few, ttl, action, ip).value, RecFor(p, more, ttl, action, ip).value)
  {
    if First(few.events, Asks(action, ip)).Some? {
      FirstKeeps(few.events, more.events, Asks(action, ip));
    } else {
      SourceRuleSurvives(few, more, ttl, action);
    }
  }

  /** A recommendation is filed under the action and target it names. */
  lemma RecForNamesItself(p: Parsers, chain: Chain, ttl: int, action: Action, target: string)
    requires RecFor(p, chain, ttl, action, target).Some?
    ensures RecFor(p, chain, ttl, action, target).value.action == action
    ensures RecFor(p, chain, ttl, action, target).value.target == target
  {
    FirstExists(chain.events, Asks(action, target));
  }

  /** For a fixed chain the set of recommended (action, target) pairs only grows with the score. */
  lemma KeysGrowWithScore(p: Parsers, chain: Chain, higher: int, ttl: int, action: Action, target: string)
    requires higher >= chain.score
    ensures RecFor(p, chain, ttl, action, target).Some? ==> RecFor(p, chain.(score := higher), ttl, action, target).Some?
  {
  }

  // ---- The definitions in literals ----

  /** e is the first of these events with the property. */
  ghost predicate IsFirst(events: seq<Event>, q: Event -> bool, e: Event) {
    exists i :: 0 <= i < |events| && events[i] == e && q(e) && forall j :: 0 <= j < i ==> !q(events[j])
  }

  lemma FirstShifts(events: seq<Event>, q: Event -> bool, e: Event)
    requires events != []
    ensures IsFirst(events, q, e) <==> if q(events[0]) then e == events[0] else IsFirst(events[1..], q, e)
  {
    var rest := events[1..];
    if IsFirst(events, q, e) {
      var i :| 0 <= i < |events| && events[i] == e && q(e) && forall j :: 0 <= j < i ==> !q(events[j]);
      if !q(events[0]) {
        assert rest[i - 1] == e && forall j :: 0 <= j < i - 1 ==> rest[j] == events[j + 1];
      }
    }
    if !q(events[0]) && IsFirst(rest, q, e) {
      var i :| 0 <= i < |rest| && rest[i] == e && q(e) && forall j :: 0 <= j < i ==> !q(rest[j]);
      assert events[i + 1] == e && forall j :: 0 < j < i + 1 ==> events[j] == rest[j - 1];
    }
  }

  lemma {:induction false} FirstIsFirst(events: seq<Event>, q: Event -> bool)
    ensures forall e :: First(events, q) == Some(e) <==> IsFirst(events, q, e)
    ensures First(events, q).None? <==> forall e :: e in events ==> !q(e)
  {
    if events == [] {
      assert forall e :: !IsFirst(events, q, e);
    } else {
      FirstIsFirst(events[1..], q);
      assert events == [events[0]] + events[1..];
      forall e ensures First(events, q) == Some(e) <==> IsFirst(events, q, e) {
        FirstShifts(events, q, e);
      }
    }
  }

  ghost predicate Holds(events: seq<Event>, t: EventType) {
    exists e :: e in events && e.eventType == t
  }

  /** Some event is of one of the nine drone types. */
  ghost predicate HoldsDrone(events: seq<Event>) {
    || Holds(events, DroneMavlinkAccess) || Holds(events, DroneUnauthorizedGcs) || Holds(events, DroneCommandAttempt)
    || Holds(events, DroneMissionOrParamChange) || Holds(events, DroneHeartbeatSpoofing) || Holds(events, DroneMavlinkFlood)
    || Holds(events, DroneRos2DdsDiscovery) || Holds(events, DroneRos2DdsAccess) || Holds(events, DroneRos2DdsFlood)
  }

  lemma DroneChains(events: seq<Event>)
    ensures IsDroneChain(events) <==> HoldsDrone(events)
  {
  }

  lemma SshChains(events: seq<Event>)
    ensures IsSshChain(events) <==> Holds(events, SshFailedLogin) || Holds(events, SshInvalidUser)
  {
  }

  /** The match asks for this action, on its own target or on the field it names. */
  predicate AsksFor(e: Event, action: Action, target: string) {
    && e.eventType.SignatureMatch? && e.metadata.recommendedAction == action
    && target == if e.metadata.target != "" then e.metadata.target
                 else if e.metadata.targetFrom.FromDstIp? then e.dstIp
                 else if e.metadata.targetFrom.FromFilePath? then e.filePath
                 else e.srcIp
  }

  lemma AskingMatches(action: Action, target: string)
    requires action.BlockIpTtl? || action.RateLimitIp? || action.BlockOutboundIp?
    ensures forall e :: Asks(action, target)(e) <==> AsksFor(e, action, target)
  {
  }

  /** The first match asking for it decides over a network action on a named target: its own TTL or the default, and
      one event is evidence enough. */
  lemma MatchDecides(p: Parsers, chain: Chain, ttl: int, action: Action, target: string, i: nat)
    requires action.BlockIpTtl? || action.RateLimitIp? || action.BlockOutboundIp?
    requires target != "" && target != "unknown"
    requires i < |chain.events| && AsksFor(chain.events[i], action, target)
    requires forall j :: 0 <= j < i ==> !AsksFor(chain.events[j], action, target)
    ensures var asked := chain.events[i].metadata.ttlSeconds;
            RecFor(p, chain, ttl, action, target) ==
            Some(Rec(action, target, Some(if asked.Some? then asked.value else ttl), Some(1), false, ""))
  {
    AskingMatches(action, target);
    FirstIsFirst(chain.events, Asks(action, target));
    assert IsFirst(chain.events, Asks(action, target), chain.events[i]);
  }

  ghost predicate NobodyAsks(events: seq<Event>, action: Action, target: string) {
    forall e :: e in events ==> !AsksFor(e, action, target)
  }

  lemma NoMatch(events: seq<Event>, action: Action, target: string)
    requires action.BlockIpTtl? || action.RateLimitIp? || action.BlockOutboundIp?
    requires NobodyAsks(events, action, target)
    ensures First(events, Asks(action, target)).None?
  {
    AskingMatches(action, target);
    FirstIsFirst(events, Asks(action, target));
  }

  lemma SourceBlock(chain: Chain, ttl: int)
    requires chain.srcIps != []
    ensures SourceRule(chain, ttl, BlockIpTtl) ==
            if chain.score >= 60
            then Some(Rec(BlockIpTtl, chain.srcIps[0], Some(ttl),
                          if IsDroneChain(chain.events) || IsSshChain(chain.events) then Some(1) else None, false, ""))
            else None
  {
    hide IsDroneChain, IsSshChain;
  }

  /** Without such a match a block is recommended exactly for the chain's own named source from score 60 on, with the
      default TTL, and with one event as evidence for SSH and drone attacks. */
  lemma BlockInFull(p: Parsers, chain: Chain, ttl: int, target: string)
    requires NobodyAsks(chain.events, BlockIpTtl, target)
    ensures var few := Holds(chain.events, SshFailedLogin) || Holds(chain.events, SshInvalidUser) || HoldsDrone(chain.events);
            RecFor(p, chain, ttl, BlockIpTtl, target) ==
            if target != "" && target != "unknown" && chain.srcIps != [] && chain.srcIps[0] == target && chain.score >= 60
            then Some(Rec(BlockIpTtl, target, Some(ttl), if few then Some(1) else None, false, "")) else None
  {
    hide SourceRule, IsDroneChain, IsSshChain, HoldsDrone, Holds, First, Asks, NobodyAsks;
    NoMatch(chain.events, BlockIpTtl, target);
    DroneChains(chain.events);
    SshChains(chain.events);
    if chain.srcIps != [] {
      SourceBlock(chain, ttl);
    }
  }

  lemma FloodChains(events: seq<Event>)
    ensures IsDroneFlood(events) <==> Holds(events, DroneMavlinkFlood) || Holds(events, DroneRos2DdsFlood)
    ensures Has(events, WebAttackPattern) <==> Holds(events, WebAttackPattern)
  {
  }

  lemma SourceLimit(chain: Chain, ttl: int)
    requires chain.srcIps != []
    ensures var seconds := if ttl < 1800 then ttl else 1800;
            SourceRule(chain, ttl, RateLimitIp) ==
            if (chain.score >= 45 && IsSshChain(chain.events)) || (chain.score >= 60 && IsDroneFlood(chain.events))
            then Some(Rec(RateLimitIp, chain.srcIps[0], Some(seconds), Some(1), false, ""))
            else if chain.score >= 70 && Has(chain.events, WebAttackPattern)
            then Some(Rec(RateLimitIp, chain.srcIps[0], Some(seconds), None, false, "")) else None
  {
    hide IsSshChain, IsDroneFlood, Has;
  }

  /** A rate limit of the own source: from score 45 on SSH evidence, from 60 on a drone flood, from 70 on web attacks,
      for at most half an hour; only web attacks ask for the policy's own evidence minimum. */
  lemma RateLimitInFull(p: Parsers, chain: Chain, ttl: int, target: string)
    requires NobodyAsks(chain.events, RateLimitIp, target)
    ensures var ssh := Holds(chain.events, SshFailedLogin) || Holds(chain.events, SshInvalidUser);
            var flood := Holds(chain.events, DroneMavlinkFlood) || Holds(chain.events, DroneRos2DdsFlood);
            var own := target != "" && target != "unknown" && chain.srcIps != [] && chain.srcIps[0] == target;
            var seconds := if ttl < 1800 then ttl else 1800;
            RecFor(p, chain, ttl, RateLimitIp, target) ==
            if own && ((chain.score >= 45 && ssh) || (chain.score >= 60 && flood))
            then Some(Rec(RateLimitIp, target, Some(seconds), Some(1), false, ""))
            else if own && chain.score >= 70 && Holds(chain.events, WebAttackPattern)
            then Some(Rec(RateLimitIp, target, Some(seconds), None, false, "")) else None
  {
    hide SourceRule, IsDroneFlood, IsSshChain, Has, Holds, First, Asks, NobodyAsks;
    NoMatch(chain.events, RateLimitIp, target);
    SshChains(chain.events);
    FloodChains(chain.events);
    if chain.srcIps != [] {
      SourceLimit(chain, ttl);
    }
  }

  /** The connection goes to an address a firewall may act on. */
  predicate GoesOut(p: Parsers, e: Event) {
    e.eventType.ExternalNetworkConnection? && e.dstIp != "" && Validate(p, e.dstIp).Valid?
  }

  lemma OutboundMeans(p: Parsers)
    ensures forall e :: Outbound(p)(e) <==> GoesOut(p, e)
  {
  }

  /** An outbound block from score 75 on, of the first such destination. */
  lemma OutboundInFull(p: Parsers, chain: Chain, ttl: int, target: string)
    requires NobodyAsks(chain.events, BlockOutboundIp, target)
    ensures RecFor(p, chain, ttl, BlockOutboundIp, target) ==
            if target != "" && target != "unknown" && chain.score >= 75
               && (exists i :: 0 <= i < |chain.events| && GoesOut(p, chain.events[i]) && chain.events[i].dstIp == target
                               && forall j :: 0 <= j < i ==> !GoesOut(p, chain.events[j]))
            then Some(Rec(BlockOutboundIp, target, Some(ttl), None, false, "")) else None
  {
    NoMatch(chain.events, BlockOutboundIp, target);
    FirstIsFirst(chain.events, Outbound(p));
    OutboundMeans(p);
    var out := First(chain.events, Outbound(p));
    hide Validate, GoesOut, Outbound;
    if i :| 0 <= i < |chain.events| && GoesOut(p, chain.events[i]) && chain.events[i].dstIp == target
            && forall j :: 0 <= j < i ==> !GoesOut(p, chain.events[j]) {
      assert IsFirst(chain.events, Outbound(p), chain.events[i]);
    }
  }

  /** Where every pair of action and target looks up its rule, the list holds exactly the recommendations of the rules. */
  lemma ListedInFull(p: Parsers, chain: Chain, ttl: int, recs: seq<Rec>, r: Rec)
    requires DistinctTargets(recs) && forall a, t :: Lookup(recs, a, t) == RecFor(p, chain, ttl, a, t)
    ensures r in recs <==> RecFor(p, chain, ttl, r.action, r.target) == Some(r)
  {
    hide RecFor;
    FirstExists(recs, Keyed(r.action, r.target));
    assert Lookup(recs, r.action, r.target) == RecFor(p, chain, ttl, r.action, r.target);
    if r in recs {
      assert Keyed(r.action, r.target)(r);
      var found := Lookup(recs, r.action, r.target).value;
      assert found in recs && found.action == r.action && found.target == r.target;
      var i, j :| 0 <= i < |recs| && 0 <= j < |recs| && recs[i] == r && recs[j] == found;
      assert i == j;
    }
  }

  /** Another event carries the process id of e, as its own or as a number in its metadata. */
  ghost predicate HasCompany(events: seq<Event>, e: Event) {
    exists o :: o in events && o.eventId != e.eventId
                && (o.pid == e.pid
                    || (e.pid.Some? && o.metadata.pid == Some(Pid(e.pid.value, true)))
                    || (e.pid.Some? && o.metadata.ppid == Some(Pid(e.pid.value, true))))
  }

  /** A suspicious process with an audit serial and a process id that does not stand alone. */
  ghost predicate Corroborated(events: seq<Event>, e: Event) {
    && e.eventType.SuspiciousProcess? && e.process != "" && e.pid.Some?
    && e.metadata.fromAuditd && e.metadata.auditSerial != ""
    && (e.filePath != "" || e.dstIp != "" || HasCompany(events, e))
  }

  lemma CorroboratedMeansVerified(events: seq<Event>, e: Event)
    ensures VerifiedProcess(events, e) <==> Corroborated(events, e)
  {
  }

  lemma VerifiedMeans(events: seq<Event>)
    ensures forall e :: Verified(events)(e) <==> Corroborated(events, e)
  {
    forall e ensures Verified(events)(e) <==> Corroborated(events, e) {
      CorroboratedMeansVerified(events, e);
    }
  }

  lemma CorroboratedHasPid(events: seq<Event>)
    ensures forall e :: Corroborated(events, e) ==> e.pid.Some? && e.metadata.auditSerial != ""
  {
  }

  lemma FirstCorroborated(events: seq<Event>)
    ensures forall e :: First(events, Verified(events)) == Some(e) <==>
                        exists i :: 0 <= i < |events| && events[i] == e && Corroborated(events, e)
                                    && forall j :: 0 <= j < i ==> !Corroborated(events, events[j])
  {
    hide Corroborated, Verified, VerifiedProcess, First;
    VerifiedMeans(events);
    FirstIsFirst(events, Verified(events));
    assert forall e :: IsFirst(events, Verified(events), e) <==>
                       exists i :: 0 <= i < |events| && events[i] == e && Corroborated(events, e)
                                   && forall j :: 0 <= j < i ==> !Corroborated(events, events[j]);
  }

  /** The number that a text of digits denotes. */
  function Denoted(digits: string): int {
    if digits == "" then 0 else 10 * Denoted(digits[..|digits| - 1]) + (digits[|digits| - 1] as int - '0' as int)
  }

  /** A process id is written in digits, with no needless zero, and denotes itself. */
  lemma {:induction false} DigitsInFull(n: nat)
    ensures var d := Digits(n);
            && d != "" && (forall c :: c in d ==> '0' <= c <= '9')
            && (n > 0 ==> d[0] != '0') && Denoted(d) == n
    ensures n > 0 ==> Decimal(-(n as int)) == "-" + Digits(n)
    ensures Decimal(n) == Digits(n)
  {
    if n >= 10 {
      DigitsInFull(n / 10);
      assert Digits(n)[..|Digits(n)| - 1] == Digits(n / 10);
    } else {
      assert Digits(n)[..0] == "";
    }
  }

  /** A suspension is recommended exactly from score 90 on, for the first corroborated process, under its audit serial. */
  lemma SuspensionInFull(p: Parsers, chain: Chain, ttl: int, target: string)
    ensures RecFor(p, chain, ttl, SuspendProcess, target).Some? <==>
            chain.score >= 90 && exists i :: 0 <= i < |chain.events| && Corroborated(chain.events, chain.events[i])
                                             && chain.events[i].pid.Some?
                                             && target == Decimal(chain.events[i].pid.value) + " " + chain.events[i].process
                                             && forall j :: 0 <= j < i ==> !Corroborated(chain.events, chain.events[j])
    ensures var r := RecFor(p, chain, ttl, SuspendProcess, target);
            r.Some? ==> r.value.requiresAuditdRelation && r.value.auditSerial != "" && r.value.minEvidenceRequired.None?
  {
    hide Corroborated, Verified, First, Decimal;
    FirstCorroborated(chain.events);
    CorroboratedHasPid(chain.events);
  }

  /** A process that stands alone, without file, address or another event on its id, is never suspended. */
  lemma AloneIsNotSuspended(p: Parsers, chain: Chain, ttl: int, target: string)
    requires forall e :: e in chain.events && e.eventType.SuspiciousProcess? ==>
                           e.filePath == "" && e.dstIp == "" && !HasCompany(chain.events, e)
    ensures RecFor(p, chain, ttl, SuspendProcess, target).None?
  {
    SuspensionInFull(p, chain, ttl, target);
  }

  predicate Dropped(e: Event) {
    e.eventType.SuspiciousFile? && e.filePath != ""
  }

  /** A quarantine exactly from score 75 on, of the first suspicious file with a path. */
  lemma QuarantineInFull(p: Parsers, chain: Chain, ttl: int, target: string)
    ensures RecFor(p, chain, ttl, QuarantineFile, target) ==
            if chain.score >= 75 && exists i :: 0 <= i < |chain.events| && Dropped(chain.events[i]) && chain.events[i].filePath == target
                                                && forall j :: 0 <= j < i ==> !Dropped(chain.events[j])
            then Some(Rec(QuarantineFile, target, None, None, false, "")) else None
  {
    FirstIsFirst(chain.events, DroppedFile);
    if i :| 0 <= i < |chain.events| && Dropped(chain.events[i]) && chain.events[i].filePath == target
            && forall j :: 0 <= j < i ==> !Dropped(chain.events[j]) {
      assert IsFirst(chain.events, DroppedFile, chain.events[i]);
    }
  }

  predicate Modified(e: Event) {
    e.eventType.PersistenceModified? && e.filePath != ""
  }

  /** Disabling persistence exactly from score 85 on with such an event, of the first path, "unknown" without one. */
  lemma PersistenceInFull(p: Parsers, chain: Chain, ttl: int, target: string)
    ensures RecFor(p, chain, ttl, DisablePersistence, target) ==
            if chain.score >= 85 && Holds(chain.events, PersistenceModified)
               && (|| (exists i :: 0 <= i < |chain.events| && Modified(chain.events[i]) && chain.events[i].filePath == target
                                   && forall j :: 0 <= j < i ==> !Modified(chain.events[j]))
                   || (target == "unknown" && forall e :: e in chain.events ==> !Modified(e)))
            then Some(Rec(DisablePersistence, target, None, None, false, "")) else None
  {
    FirstIsFirst(chain.events, PersistenceTarget);
    if i :| 0 <= i < |chain.events| && Modified(chain.events[i]) && chain.events[i].filePath == target
            && forall j :: 0 <= j < i ==> !Modified(chain.events[j]) {
      assert IsFirst(chain.events, PersistenceTarget, chain.events[i]);
    }
  }

  predicate LogsIn(e: Event) {
    (e.eventType.SshSuccessLogin? || e.eventType.SudoExecution?) && e.user != ""
  }

  /** An account restriction exactly from score 90 on: of the first account seen logging in or using sudo, and only
      without one of the first in alphabetical order. */
  lemma AccountInFull(p: Parsers, chain: Chain, ttl: int, target: string)
    ensures RecFor(p, chain, ttl, RestrictAccount, target) ==
            if chain.score >= 90
               && (|| (exists i :: 0 <= i < |chain.events| && LogsIn(chain.events[i]) && chain.events[i].user == target
                                   && forall j :: 0 <= j < i ==> !LogsIn(chain.events[j]))
                   || ((forall e :: e in chain.events ==> !LogsIn(e)) && chain.users != [] && chain.users[0] == target))
            then Some(Rec(RestrictAccount, target, None, None, false, "")) else None
  {
    FirstIsFirst(chain.events, AccountUse);
    if i :| 0 <= i < |chain.events| && LogsIn(chain.events[i]) && chain.events[i].user == target
            && forall j :: 0 <= j < i ==> !LogsIn(chain.events[j]) {
      assert IsFirst(chain.events, AccountUse, chain.events[i]);
    }
  }

  /** No rule recommends to kill a process, to isolate the host or anything unknown. */
  lemma NothingElse(p: Parsers, chain: Chain, ttl: int, action: Action, target: string)
    requires action.KillProcess? || action.IsolateHost? || action.OtherAction?
    ensures RecFor(p, chain, ttl, action, target).None?
  {
  }
}
