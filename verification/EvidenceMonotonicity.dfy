/** The pipeline end to end: collecting more events never weakens the response to a source address. */
module EvidenceMonotonicity {
  import opened Common
  import opened Models
  import opened Lists
  import opened Addresses
  import opened PolicyGate
  import opened EvidenceClosure
  import opened Scoring
  import opened ChainBuilder
  import opened RuleEngine

  /** The score of a chain once the bonuses of the attack loop and of learned indicators are added. */
  predicate Boosted(chain: Chain, loop: int, growth: int) {
    chain.score == Min(100, Min(100, Score(chain.events) + loop) + growth)
  }

  /** Every event with a source address is in exactly one reported chain, as one of its anchors. */
  lemma OneChainPerSource(events: seq<Event>, chains: seq<Chain>, e: Event)
    requires OneChainEach(events, chains)
    requires e in events && e.srcIp != ""
    ensures exists i :: 0 <= i < |chains| && e in chains[i].events && chains[i].srcIps == [e.srcIp]
                        && forall j :: 0 <= j < |chains| && e in chains[j].events ==> j == i
  {
    hide Describes, IsClosure;
    var sources := SourceOrder(events);
    SourceOrderFacts(events);
    assert e.srcIp in sources;
    var i :| 0 <= i < |sources| && sources[i] == e.srcIp;
    forall j | 0 <= j < |chains| ensures e in chains[j].events <==> j == i {
      AnchorsStayHome(Elems(events), sources[j], Elems(chains[j].events), e);
      assert e in chains[j].events <==> e in Elems(chains[j].events);
    }
  }

  /** Any order of the same events gives an address the same evidence and the same score. */
  lemma OrderIrrelevant(events1: seq<Event>, events2: seq<Event>, ip: string, c1: Chain, c2: Chain)
    requires Elems(events1) == Elems(events2)
    requires Covers(Elems(events1), ip, c1) && Covers(Elems(events2), ip, c2)
    ensures Elems(c1.events) == Elems(c2.events)
    ensures Score(c1.events) == Score(c2.events)
  {
    ClosureUnique(ip, Anchors(Elems(events1), ip), Candidates(Elems(events1)), Elems(c1.events), Elems(c2.events));
    ScoreMonotone(c1.events, c2.events);
    ScoreMonotone(c2.events, c1.events);
  }

  /** The chain and the score of an address only grow with the events collected. */
  lemma ChainGrows(few: set<Event>, more: set<Event>, ip: string, c1: Chain, c2: Chain)
    requires few <= more && ip != ""
    requires Covers(few, ip, c1) && Covers(more, ip, c2)
    ensures Elems(c1.events) <= Elems(c2.events)
    ensures Score(c1.events) <= Score(c2.events)
    ensures |c1.events| <= |c2.events|
  {
    ClosureMonotone(ip, few, more, Elems(c1.events), Elems(c2.events));
    ScoreMonotone(c1.events, c2.events);
    DistinctSize(c1.events);
    DistinctSize(c2.events);
    SubsetSize(Elems(c1.events), Elems(c2.events));
  }

  /** The gate's answer on the plan built for one recommendation of a chain. */
  function Verdict(p: Parsers, policy: Policy, chain: Chain, r: Rec, actionId: string): Decision {
    Check(p, policy, PlanOf(r, actionId, chain.score, EventIds(chain.events)))
  }

  /** The policy requires a TTL for the action, and the first signature match asking for it on this target carries
      a zero one; or neither that match gives a TTL, nor is there any such match, and the default is zero. */
  predicate TtlWithdraws(policy: Policy, events: seq<Event>, defaultTtl: int, action: Action, target: string) {
    && action in policy.actions && policy.actions[action].ttlRequired
    && match First(events, Asks(action, target))
       case Some(e) => e.metadata.ttlSeconds == Some(0) || (e.metadata.ttlSeconds.None? && defaultTtl == 0)
       case None => defaultTtl == 0
  }

  /** A recommended block or rate limit of the source address lacks a TTL exactly then. */
  lemma TtlFollowsInputs(p: Parsers, chain: Chain, ttl: int, action: Action, ip: string)
    requires action.BlockIpTtl? || action.RateLimitIp?
    requires RecFor(p, chain, ttl, action, ip).Some?
    ensures var r := RecFor(p, chain, ttl, action, ip).value;
            && r.ttlSeconds.Some?
            && (r.ttlSeconds.value == 0 <==>
                match First(chain.events, Asks(action, ip))
                case Some(e) => e.metadata.ttlSeconds == Some(0) || (e.metadata.ttlSeconds.None? && ttl == 0)
                case None => ttl == 0)
  {
  }

  lemma SameSource(few: set<Event>, more: set<Event>, ip: string, c1: Chain, c2: Chain)
    requires Covers(few, ip, c1) && Covers(more, ip, c2)
    ensures c1.srcIps == c2.srcIps
  {
  }

  /** The planning and gate part, for any two chains of one source address. */
  lemma ResponseSurvives(p: Parsers, policy: Policy, few: Chain, more: Chain, ttl: int, action: Action, ip: string, actionId: string)
    requires action.BlockIpTtl? || action.RateLimitIp?
    requires Elems(few.events) <= Elems(more.events) && few.score <= more.score && |few.events| <= |more.events|
    requires few.srcIps == more.srcIps
    requires RecFor(p, few, ttl, action, ip).Some?
    requires Verdict(p, policy, few, RecFor(p, few, ttl, action, ip).value, actionId).Allowed?
    ensures RecFor(p, more, ttl, action, ip).Some?
    ensures var r := RecFor(p, more, ttl, action, ip).value;
            Verdict(p, policy, more, r, actionId).Allowed? <==>
            !TtlWithdraws(policy, more.events, ttl, action, ip)
  {
    SourceActionSurvives(p, few, more, ttl, action, ip);
    TtlFollowsInputs(p, more, ttl, action, ip);
    RecForNamesItself(p, few, ttl, action, ip);
    RecForNamesItself(p, more, ttl, action, ip);
    var r, s := RecFor(p, few, ttl, action, ip).value, RecFor(p, more, ttl, action, ip).value;
    StrongerPlanStaysAllowed(p, policy, PlanOf(r, actionId, few.score, EventIds(few.events)), PlanOf(s, actionId, more.score, EventIds(more.events)));
  }

  /** End to end through closure, scoring, planning and gate: with equal bonuses, a block or rate limit of the
      source address that was allowed is still recommended on more evidence, and it is still allowed unless
      the policy requires a TTL and the evidence now in force gives none. */
  lemma MoreEvidenceKeepsResponse(p: Parsers, policy: Policy, few: set<Event>, more: set<Event>, ip: string,
                                  c1: Chain, c2: Chain, loop: int, growth: int, ttl: int, action: Action, actionId: string)
    requires few <= more && ip != "" && (action.BlockIpTtl? || action.RateLimitIp?)
    requires Covers(few, ip, c1) && Covers(more, ip, c2)
    requires RecFor(p, c1, ttl, action, ip).Some?
    requires Verdict(p, policy, c1, RecFor(p, c1, ttl, action, ip).value, actionId).Allowed?
    ensures Boosted(c1, loop, growth) && Boosted(c2, loop, growth) ==>
              && c1.score <= c2.score
              && RecFor(p, c2, ttl, action, ip).Some?
              && var r := RecFor(p, c2, ttl, action, ip).value;
                 (Verdict(p, policy, c2, r, actionId).Allowed? <==> !TtlWithdraws(policy, c2.events, ttl, action, ip))
  {
    hide Covers, Score, RecFor, Verdict;
    if Boosted(c1, loop, growth) && Boosted(c2, loop, growth) {
      ChainGrows(few, more, ip, c1, c2);
      SameSource(few, more, ip, c1, c2);
      ResponseSurvives(p, policy, c1, c2, ttl, action, ip, actionId);
    }
  }

  /** The hypothesis is needed: one more signature match, earlier and with a zero TTL, turns an allowed block
      of the same address into a denied one. */
  lemma ZeroTtlWithdrawsBlock(p: Parsers, e: Event, z: Event, few: Chain, more: Chain, policy: Policy, ttl: int)
    requires e.eventType.SignatureMatch? && e.metadata.recommendedAction.BlockIpTtl?
    requires e.metadata.target == e.srcIp && Nameable(e.srcIp) && e.metadata.ttlSeconds == Some(3600)
    requires z == e.(eventId := z.eventId, metadata := e.metadata.(ttlSeconds := Some(0)))
    requires few.events == [e] && more.events == [z, e] && few.score == 60 && more.score == 60
    requires Validate(p, e.srcIp).Valid?
    requires policy == Policy(map[BlockIpTtl := ActionPolicy(true, true, 60, true, true, false)], 3, [], [], [], [], 30)
    ensures RecFor(p, few, ttl, BlockIpTtl, e.srcIp).Some?
    ensures Verdict(p, policy, few, RecFor(p, few, ttl, BlockIpTtl, e.srcIp).value, "A").Allowed?
    ensures RecFor(p, more, ttl, BlockIpTtl, e.srcIp).Some?
    ensures Verdict(p, policy, more, RecFor(p, more, ttl, BlockIpTtl, e.srcIp).value, "A") == Denied(TtlMissing)
  {
    assert Asks(BlockIpTtl, e.srcIp)(e) && Asks(BlockIpTtl, e.srcIp)(z);
    assert First(few.events, Asks(BlockIpTtl, e.srcIp)) == Some(e);
    assert First(more.events, Asks(BlockIpTtl, e.srcIp)) == Some(z);
  }

  // ---- The definitions in literals ----

  /** Bonuses add to the score up to 100, wherever it is cut. */
  lemma BonusesAddUp(chain: Chain, loop: nat, growth: nat)
    requires Boosted(chain, loop, growth)
    ensures chain.score == if Score(chain.events) + loop + growth > 100 then 100 else Score(chain.events) + loop + growth
  {
    hide Score;
  }
}
