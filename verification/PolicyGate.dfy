/** src/aegis_agent/core/policy_gate.py: the conditions every executed action has met. */
module PolicyGate {
  import opened Common
  import opened Models
  import opened Addresses

  datatype ActionPolicy = ActionPolicy(
    enabled: bool,
    autoAllowed: bool,
    minScore: int,
    ttlRequired: bool,
    rollbackRequired: bool,
    requireAuditdRelation: bool)

  datatype Policy = Policy(
    actions: map<Action, ActionPolicy>,
    minEventsForResponse: int,
    ips: seq<string>,
    cidrs: seq<string>,
    processNames: seq<string>,
    accounts: seq<string>,
    collectMore: int)

  datatype Denial =
    | NotDefined | Disabled | NeedsApproval | ScoreTooLow | TooFewEvents | UnsafeTarget | ProtectedTarget
    | TtlMissing | NoRollback | ProtectedProcess | NoAuditdEvidence | ProtectedAccount

  datatype Decision = Allowed | Denied(reason: Denial)

  predicate NeedsAddress(a: Action) {
    a.BlockIpTtl? || a.RateLimitIp? || a.BlockOutboundIp? || a.IsolateHost?
  }

  predicate MentionsProtectedProcess(target: string, names: seq<string>) {
    exists n :: n in names && Contains(Lower(target), Lower(n))
  }

  /** The plan's own minimum can only lower the policy's, and never below one. */
  function MinEvents(policy: Policy, plan: ActionPlan): int {
    match plan.minEvidenceRequired
    case None => policy.minEventsForResponse
    case Some(m) => Min(policy.minEventsForResponse, Max(1, m))
  }

  function Check(p: Parsers, policy: Policy, plan: ActionPlan): Decision {
    if plan.action !in policy.actions then Denied(NotDefined)
    else
      var ap := policy.actions[plan.action];
      if !ap.enabled then Denied(Disabled)
      else if !ap.autoAllowed then Denied(NeedsApproval)
      else if plan.score < ap.minScore then Denied(ScoreTooLow)
      else if |plan.evidenceIds| < MinEvents(policy, plan) then Denied(TooFewEvents)
      else if NeedsAddress(plan.action) && !Validate(p, plan.target).Valid? then Denied(UnsafeTarget)
      else if NeedsAddress(plan.action) && InAllowlist(p, plan.target, policy.ips, policy.cidrs) then Denied(ProtectedTarget)
      else if ap.ttlRequired && (plan.ttlSeconds.None? || plan.ttlSeconds.value == 0) then Denied(TtlMissing)
      else if ap.rollbackRequired && !plan.rollbackSupported then Denied(NoRollback)
      else if plan.action.SuspendProcess? && MentionsProtectedProcess(plan.target, policy.processNames) then Denied(ProtectedProcess)
      else if plan.action.SuspendProcess? && ap.requireAuditdRelation && (!plan.requiresAuditdRelation || plan.auditSerial == "")
      then Denied(NoAuditdEvidence)
      else if plan.action.RestrictAccount? && plan.target in policy.accounts then Denied(ProtectedAccount)
      else Allowed
  }

  /** Two plans for the same address and action: more score, more evidence and no larger minimum keep an
      allowed plan allowed, except for a required TTL that has become zero or missing. */
  lemma StrongerPlanStaysAllowed(p: Parsers, policy: Policy, plan: ActionPlan, stronger: ActionPlan)
    requires Check(p, policy, plan).Allowed?
    requires plan.action.BlockIpTtl? || plan.action.RateLimitIp?
    requires stronger.action == plan.action && stronger.target == plan.target && stronger.rollbackSupported
    requires stronger.score >= plan.score && |stronger.evidenceIds| >= |plan.evidenceIds|
    requires plan.minEvidenceRequired.Some? ==> stronger.minEvidenceRequired == Some(1)
    requires stronger.minEvidenceRequired.None? || stronger.minEvidenceRequired == Some(1)
    ensures Check(p, policy, stronger).Allowed? <==>
            (policy.actions[plan.action].ttlRequired ==> stronger.ttlSeconds.Some? && stronger.ttlSeconds.value != 0)
    ensures !Check(p, policy, stronger).Allowed? ==> Check(p, policy, stronger) == Denied(TtlMissing)
  {
  }

  /** A plan without metadata meets the policy's own evidence minimum and never suspends a process on its own word. */
  lemma BarePlanBounds(p: Parsers, policy: Policy, plan: ActionPlan)
    requires plan.minEvidenceRequired.None? && !plan.requiresAuditdRelation
    requires Check(p, policy, plan).Allowed?
    ensures |plan.evidenceIds| >= policy.minEventsForResponse
    ensures plan.action.SuspendProcess? ==> !policy.actions[plan.action].requireAuditdRelation
  {
  }

  /** Where everything else about a plan is in order, the gate refuses its address exactly when the text is
      listed, or its address lies in a listed network, and the text carries no surrounding white space. */
  lemma GateProtectsUnpaddedTargets(p: Parsers, policy: Policy, plan: ActionPlan)
    requires TakesNoPadding(p) && '%' !in plan.target && NeedsAddress(plan.action)
    requires Check(p, policy.(ips := [], cidrs := []), plan).Allowed?
    ensures Check(p, policy, plan).Allowed? <==>
            Strip(plan.target) != plan.target
            || (plan.target !in policy.ips && !InSomeNetwork(p, AddressOf(p, plan.target).value, policy.cidrs))
    ensures !Check(p, policy, plan).Allowed? ==> Check(p, policy, plan) == Denied(ProtectedTarget)
  {
    AllowlistSeesUnpaddedOnly(p, plan.target, policy.ips, policy.cidrs);
  }

  /** The text is spelled as the lists spell it: without padding or zone, and as every listed text of its address. */
  ghost predicate Plain(p: Parsers, policy: Policy, target: string) {
    && '%' !in target && Strip(target) == target
    && forall t :: t in policy.ips && p.address(t) == p.address(target) ==> t == target
  }

  /** Under plain texts the allowlist protects by value: no plan for a protected address is allowed. */
  lemma PlainTargetsAreProtected(p: Parsers, policy: Policy, plan: ActionPlan)
    requires NeedsAddress(plan.action) && Check(p, policy, plan).Allowed? && Plain(p, policy, plan.target)
    ensures !Protected(p, AddressOf(p, plan.target).value, policy.ips, policy.cidrs)
  {
  }

  // ---- The two escapes, on one policy ----

  const LISTING: Policy := Policy(map[BlockIpTtl := ActionPolicy(true, true, 60, true, true, false)], 1, [LISTED], [], [], [], 30)

  function BlockOf(target: string): ActionPlan {
    ActionPlan("A", BlockIpTtl, target, ["E"], 60, Some(3600), true, None, false, "")
  }

  lemma Spellings()
    ensures Strip(" " + LISTED) == LISTED == Strip(LISTED) && Strip(RESPELLED) == RESPELLED
    ensures " " + LISTED != LISTED && RESPELLED != LISTED && " " + LISTED != RESPELLED
    ensures SPELLINGS.address(LISTED) == SPELLINGS.address(RESPELLED) != None && SPELLINGS.address(" " + LISTED).None?
  {
    var padded := " " + LISTED;
    assert padded[0] == ' ' && padded[1..] == LISTED;
    assert LISTED[0] == '2' && LISTED[|LISTED| - 1] == '1' && RESPELLED[0] == '2' && RESPELLED[|RESPELLED| - 1] == '1';
    assert StripLeft(padded) == StripLeft(padded[1..]);
    assert StripLeft(LISTED) == LISTED == StripRight(LISTED);
    assert LISTED[5] != RESPELLED[5] && |padded| > |LISTED|;
  }

  /** A policy that lists one address refuses a block of it, and allows the same block under a padded text and
      under another spelling of the address. */
  lemma EscapesAreAllowed()
    ensures Check(SPELLINGS, LISTING, BlockOf(LISTED)) == Denied(ProtectedTarget)
    ensures Check(SPELLINGS, LISTING, BlockOf(" " + LISTED)).Allowed?
    ensures Check(SPELLINGS, LISTING, BlockOf(RESPELLED)).Allowed?
    ensures AddressOf(SPELLINGS, " " + LISTED) == AddressOf(SPELLINGS, RESPELLED) == AddressOf(SPELLINGS, LISTED)
  {
    hide Strip;
    Spellings();
    assert LISTED in LISTING.ips;
  }

  // ---- The definitions in literals ----

  /** As many events as the policy asks for; a plan's own minimum can lower that, to one at the least. */
  predicate EnoughEvidence(policy: Policy, plan: ActionPlan) {
    || |plan.evidenceIds| >= policy.minEventsForResponse
    || (plan.minEvidenceRequired.Some? && |plan.evidenceIds| >= 1 && |plan.evidenceIds| >= plan.minEvidenceRequired.value)
  }

  /** The stripped text is an address outside the unsafe classes, and the text as it stands is not recognised as
      listed or in a listed network. */
  ghost predicate AcceptableAddress(p: Parsers, policy: Policy, target: string) {
    && target != "" && p.address(Strip(target)).Some? && Enforceable(p.address(Strip(target)).value)
    && (p.address(target).Some? ==>
          && target !in policy.ips
          && forall c :: c in policy.cidrs && p.network(c).Some? ==> !InNetwork(p.address(target).value, p.network(c).value))
  }

  /** Every condition of the gate, on policy and plan. */
  ghost predicate MeetsEveryCondition(p: Parsers, policy: Policy, plan: ActionPlan) {
    && plan.action in policy.actions
    && var ap := policy.actions[plan.action];
       && ap.enabled && ap.autoAllowed
       && plan.score >= ap.minScore
       && EnoughEvidence(policy, plan)
       && (plan.action in {BlockIpTtl, RateLimitIp, BlockOutboundIp, IsolateHost} ==> AcceptableAddress(p, policy, plan.target))
       && (ap.ttlRequired ==> plan.ttlSeconds.Some? && plan.ttlSeconds.value != 0)
       && (ap.rollbackRequired ==> plan.rollbackSupported)
       && (plan.action == SuspendProcess ==>
             && (forall name :: name in policy.processNames ==> !Contains(Lower(plan.target), Lower(name)))
             && (ap.requireAuditdRelation ==> plan.requiresAuditdRelation && plan.auditSerial != ""))
       && (plan.action == RestrictAccount ==> plan.target !in policy.accounts)
  }

  lemma AddressConditions(p: Parsers, policy: Policy, target: string)
    ensures AcceptableAddress(p, policy, target) <==> Validate(p, target).Valid? && !InAllowlist(p, target, policy.ips, policy.cidrs)
  {
    hide InNetwork;
  }

  /** The gate allows a plan if and only if every condition holds. */
  lemma AllowedExactly(p: Parsers, policy: Policy, plan: ActionPlan)
    ensures Check(p, policy, plan).Allowed? <==> MeetsEveryCondition(p, policy, plan)
  {
    AddressConditions(p, policy, plan.target);
    hide AcceptableAddress, Validate, InAllowlist, Contains;
  }

  /** What each denial objects to. */
  ghost predicate Objects(p: Parsers, policy: Policy, plan: ActionPlan, r: Denial) {
    if plan.action !in policy.actions then r == NotDefined
    else
      var ap := policy.actions[plan.action];
      match r
      case NotDefined => false
      case Disabled => !ap.enabled
      case NeedsApproval => !ap.autoAllowed
      case ScoreTooLow => plan.score < ap.minScore
      case TooFewEvents => !EnoughEvidence(policy, plan)
      case UnsafeTarget => plan.action in {BlockIpTtl, RateLimitIp, BlockOutboundIp, IsolateHost} && !Validate(p, plan.target).Valid?
      case ProtectedTarget => plan.action in {BlockIpTtl, RateLimitIp, BlockOutboundIp, IsolateHost}
                              && InAllowlist(p, plan.target, policy.ips, policy.cidrs)
      case TtlMissing => ap.ttlRequired && plan.ttlSeconds in {None, Some(0)}
      case NoRollback => ap.rollbackRequired && !plan.rollbackSupported
      case ProtectedProcess => plan.action == SuspendProcess
                               && exists name :: name in policy.processNames && Contains(Lower(plan.target), Lower(name))
      case NoAuditdEvidence => plan.action == SuspendProcess && ap.requireAuditdRelation
                               && !(plan.requiresAuditdRelation && plan.auditSerial != "")
      case ProtectedAccount => plan.action == RestrictAccount && plan.target in policy.accounts
  }

  /** The order in which the gate asks. */
  function Turn(r: Denial): nat {
    match r
    case NotDefined => 0 case Disabled => 1 case NeedsApproval => 2 case ScoreTooLow => 3 case TooFewEvents => 4 case UnsafeTarget => 5
    case ProtectedTarget => 6 case TtlMissing => 7 case NoRollback => 8 case ProtectedProcess => 9 case NoAuditdEvidence => 10
    case ProtectedAccount => 11
  }

  /** The gate denies a plan with the first objection there is. */
  lemma DeniedForTheFirst(p: Parsers, policy: Policy, plan: ActionPlan, r: Denial)
    ensures Check(p, policy, plan) == Denied(r) <==>
            Objects(p, policy, plan, r) && forall q :: Turn(q) < Turn(r) ==> !Objects(p, policy, plan, q)
  {
    hide Validate, InAllowlist, Contains;
    if Check(p, policy, plan).Denied? {
      var first := Check(p, policy, plan).reason;
      assert Objects(p, policy, plan, first);
      assert forall q :: Turn(q) < Turn(first) ==> !Objects(p, policy, plan, q);
    }
  }

  /** What every carried-out action has met, whatever it is. */
  predicate PolicyPermits(policy: Policy, plan: ActionPlan) {
    && plan.action in policy.actions
    && policy.actions[plan.action].enabled && policy.actions[plan.action].autoAllowed
    && plan.score >= policy.actions[plan.action].minScore
  }

  lemma MeetingPermits(p: Parsers, policy: Policy, plan: ActionPlan)
    requires MeetsEveryCondition(p, policy, plan)
    ensures PolicyPermits(policy, plan)
  {
  }
}
