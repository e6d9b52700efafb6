/** src/aegis_agent/ai/llm_client.py, the evidence mapping of ai/rule_engine.py, and core/ai_quality.py: whoever
    analyses a chain, every claim is tied to events of that chain. */
module AiReasoning {
  import opened Common
  import opened Lists
  import opened Models
  import opened Addresses
  import opened Scoring
  import opened RuleEngine

  // ---- Evidence for rule-based claims ----

  datatype Topic =
    | SshTopic | AccountTopic | WebTopic | ProcessTopic | FileTopic | NetworkTopic
    | PersistenceTopic | IntegrityTopic | DroneTopic | SignatureTopic | MutationTopic

  predicate MentionsAny(text: string, keywords: seq<string>) {
    exists k :: k in keywords && Contains(text, k)
  }

  /** The keyword tests on a claim's lower-cased text, up to those on network traffic. */
  function HostTopics(t: string): set<Topic> {
    (if MentionsAny(t, ["ssh", "brute", "failed login", "login burst"]) then {SshTopic} else {})
    + (if MentionsAny(t, ["successful login", "success login", "sudo", "account", "credential"]) then {AccountTopic} else {})
    + (if MentionsAny(t, ["web", "http", "uri", "url", "path traversal", "sqli", "rce", "command injection"]) then {WebTopic} else {})
    + (if MentionsAny(t, ["process", "shell", "exec", "payload", "post-exploitation", "post exploitation"]) then {ProcessTopic} else {})
    + (if MentionsAny(t, ["file", "webshell", "web shell", "tmp", "quarantine"]) then {FileTopic} else {})
    + (if MentionsAny(t, ["c2", "outbound", "external", "network", "connection"]) then {NetworkTopic} else {})
  }

  /** The keyword tests after those. */
  function OtherTopics(t: string): set<Topic> {
    (if MentionsAny(t, ["persistence", "cron", "systemd", "authorized_keys", "startup"]) then {PersistenceTopic} else {})
    + (if MentionsAny(t, ["integrity", "self-protection", "self protection", "tamper"]) then {IntegrityTopic} else {})
    + (if MentionsAny(t, ["drone", "gcs", "mavlink", "heartbeat", "sysid", "component", "mission", "parameter",
                          "ros2", "dds", "rtps", "telemetry"]) then {DroneTopic} else {})
    + (if MentionsAny(t, ["signature", "pattern", "\U{C2DC}\U{ADF8}\U{B2C8}\U{CC98}"]) then {SignatureTopic} else {})
    + (if MentionsAny(t, ["attack loop", "mutating", "mutation", "repeated"]) then {MutationTopic} else {})
  }

  function TopicsOf(claim: string): set<Topic> {
    HostTopics(Lower(claim)) + OtherTopics(Lower(claim))
  }

  predicate Severe(e: Event) {
    e.severity.HighSeverity? || e.severity.CriticalSeverity?
  }

  predicate SupportsTopic(topic: Topic, e: Event) {
    match topic
    case SshTopic => e.eventType.SshFailedLogin?
    case AccountTopic => e.eventType.SshSuccessLogin? || e.eventType.SudoExecution?
    case WebTopic => e.eventType.WebAttackPattern? || e.eventType.HttpRequest? || e.eventType.AppError?
    case ProcessTopic => e.eventType.SuspiciousProcess?
    case FileTopic => e.eventType.SuspiciousFile? || e.eventType in
        {OtherType("file_created"), OtherType("file_modified"), OtherType("fim_created"), OtherType("fim_modified")}
    case NetworkTopic => e.eventType.ExternalNetworkConnection?
    case PersistenceTopic => e.eventType.PersistenceModified?
    case IntegrityTopic => e.eventType.AgentIntegrityChange?
    case DroneTopic => IsDrone(e.eventType)
    case SignatureTopic => e.eventType.SignatureMatch?
    case MutationTopic => Severe(e) || e.eventType.WebAttackPattern? || e.eventType.SuspiciousProcess?
                          || e.eventType.ExternalNetworkConnection? || e.eventType.SignatureMatch?
  }

  predicate Supported(topics: set<Topic>, e: Event) {
    exists t :: t in topics && SupportsTopic(t, e)
  }

  function IdsIn(events: seq<Event>): set<string> {
    set e | e in events :: e.eventId
  }

  function SupportingIds(events: seq<Event>, topics: set<Topic>): set<string> {
    set e | e in events && Supported(topics, e) :: e.eventId
  }

  function SevereIds(events: seq<Event>): set<string> {
    set e | e in events && Severe(e) :: e.eventId
  }

  /** What a claim on these topics may cite: the events that support it; failing those, the severe ones; failing
      those, the first. */
  function Citable(events: seq<Event>, topics: set<Topic>): set<string> {
    if SupportingIds(events, topics) != {} then SupportingIds(events, topics)
    else if SevereIds(events) != {} then SevereIds(events)
    else if events != [] then {events[0].eventId}
    else {}
  }

  lemma CitableFacts(events: seq<Event>, topics: set<Topic>)
    ensures Citable(events, topics) <= IdsIn(events)
    ensures events != [] ==> Citable(events, topics) != {}
  {
  }

  /** _claim_event_ids: the citable ids, never none of a non-empty chain. */
  method ClaimEventIds(events: seq<Event>, topics: set<Topic>) returns (ids: seq<string>)
    ensures forall id :: id in ids <==> id in Citable(events, topics)
    ensures forall id :: id in ids ==> id in IdsIn(events)
    ensures events != [] ==> ids != []
  {
    var candidates := SupportingIds(events, topics);
    if candidates == {} {
      candidates := SevereIds(events);
    }
    if candidates == {} && events != [] {
      candidates := {events[0].eventId};
    }
    assert candidates == Citable(events, topics);
    CitableFacts(events, topics);
    hide Citable;
    ids := [];
    for i := 0 to |events|
      invariant forall id :: id in ids <==> exists e :: e in events[..i] && e.eventId == id && id in candidates
    {
      assert events[..i + 1] == events[..i] + [events[i]];
      if events[i].eventId in candidates {
        ids := ids + [events[i].eventId];
      }
    }
    assert events[..|events|] == events;
    assert forall id :: id in ids <==> id in IdsIn(events) && id in candidates;
    if events != [] {
      var id :| id in candidates;
      assert id in ids;
    }
  }

  datatype Mapping = Mapping(claim: string, eventIds: seq<string>)

  datatype Analysis = Analysis(score: int, mapping: seq<Mapping>, recs: seq<Rec>)

  /** There is a mapping, and every claim in it cites at least one of these events and no others. */
  ghost predicate Grounded(mapping: seq<Mapping>, ids: set<string>) {
    && mapping != []
    && forall m :: m in mapping ==> m.eventIds != [] && forall id :: id in m.eventIds ==> id in ids
  }

  /** m carries the claim and cites exactly the events that the claim's topics allow. */
  ghost predicate Cites(m: Mapping, claim: string, events: seq<Event>) {
    m.claim == claim && forall id :: id in m.eventIds <==> id in Citable(events, TopicsOf(claim))
  }

  /** analyze_chain: recommendations, and one mapping entry for every reason of the score. `text` words a reason. */
  method AnalyzeChain(p: Parsers, chain: Chain, defaultTtl: int, text: Claim -> string) returns (a: Analysis)
    ensures a.score == chain.score && |a.mapping| == |chain.reasons|
    ensures forall r, t :: Lookup(a.recs, r, t) == RecFor(p, chain, defaultTtl, r, t)
    ensures DistinctTargets(a.recs)
    ensures forall i :: 0 <= i < |a.mapping| ==> Cites(a.mapping[i], text(chain.reasons[i]), chain.events)
    ensures chain.events != [] && |chain.reasons| > 0 ==> Grounded(a.mapping, IdsIn(chain.events))
  {
    hide TopicsOf, Citable;
    var recs := Recommend(p, chain, defaultTtl);
    var mapping: seq<Mapping> := [];
    for i := 0 to |chain.reasons|
      invariant |mapping| == i && forall k :: 0 <= k < i ==> Cites(mapping[k], text(chain.reasons[k]), chain.events)
      invariant chain.events != [] ==> forall m :: m in mapping ==> m.eventIds != [] && forall id :: id in m.eventIds ==> id in IdsIn(chain.events)
    {
      var claim := text(chain.reasons[i]);
      var ids := ClaimEventIds(chain.events, TopicsOf(claim));
      mapping := mapping + [Mapping(claim, ids)];
    }
    a := Analysis(chain.score, mapping, recs);
  }

  // ---- Providers ----

  datatype Provider = Gpt | Ollama | RuleBased

  function ProviderNamed(name: string): Option<Provider> {
    if name == "gpt" || name == "openai" || name == "openai_compatible" then Some(Gpt)
    else if name == "ollama" || name == "llama" || name == "local_llama" then Some(Ollama)
    else if name == "rule_based" || name == "rule" then Some(RuleBased)
    else None
  }

  const DEFAULTS := ["gpt", "ollama", "rule_based"]

  /** The providers named in a list, each at its first mention. */
  function Normalized(names: seq<string>): seq<Provider> {
    if names == [] then []
    else
      var rest, p := Normalized(names[..|names| - 1]), ProviderNamed(names[|names| - 1]);
      if p.Some? && p.value !in rest then rest + [p.value] else rest
  }

  lemma {:induction false} NormalizedKeeps(names: seq<string>, n: string)
    requires n in names && ProviderNamed(n).Some?
    ensures ProviderNamed(n).value in Normalized(names)
  {
    var init, last := names[..|names| - 1], names[|names| - 1];
    assert names == init + [last];
    if n in init {
      NormalizedKeeps(init, n);
    }
  }

  lemma {:induction false} NormalizedDistinct(names: seq<string>)
    ensures Distinct(Normalized(names))
  {
    if names != [] {
      NormalizedDistinct(names[..|names| - 1]);
    }
  }

  lemma DefaultOrder()
    ensures Normalized(DEFAULTS) == [Gpt, Ollama, RuleBased]
  {
    var all := DEFAULTS;
    assert all[..2] == ["gpt", "ollama"] && all[..2][..1] == ["gpt"] && ["gpt"][..0] == [];
    assert Normalized(["gpt"]) == [Gpt];
    assert Normalized(all[..2]) == [Gpt, Ollama];
  }

  /** _provider_priority: the configured names, or the requested one, normalised; rule_based is always last resort. */
  method ProviderPriority(configured: seq<string>, requested: string, fallback: bool) returns (order: seq<Provider>)
    ensures Distinct(order) && RuleBased in order
    ensures forall n :: n in configured && ProviderNamed(n).Some? ==> ProviderNamed(n).value in order
    ensures configured == [] && requested == "auto" ==> order == [Gpt, Ollama, RuleBased]
    ensures var asked := Normalized(if configured != [] then configured else if requested == "auto" then DEFAULTS else [requested]);
            order == if RuleBased in asked then asked else asked + [RuleBased]
  {
    var names := configured;
    if requested == "auto" || configured != [] {
      if configured == [] {
        names := DEFAULTS;
      }
    } else {
      names := [requested];
      if requested != "rule_based" && fallback {
        names := names + ["rule_based"];
        assert names[..1] == [requested];
      }
    }
    order := Normalized(names);
    if RuleBased !in order {
      order := order + [RuleBased];
    }
    if configured == [] && requested == "auto" {
      DefaultOrder();
    }
    forall n | n in configured && ProviderNamed(n).Some? ensures ProviderNamed(n).value in order {
      NormalizedKeeps(names, n);
    }
    NormalizedDistinct(names);
  }

  // ---- Model answers ----

  datatype ScoreField = Absent | Unreadable | Value(n: int)

  datatype ModelAction = ModelAction(action: Action, target: string, ttlSeconds: Option<int>)

  /** A decoded model answer; entries that are not objects are already dropped. */
  datatype ModelAnswer = ModelAnswer(score: ScoreField, mapping: seq<Mapping>, actions: seq<ModelAction>)

  /** What calling a provider yields: an exception or a decoded answer. */
  datatype Reply = Raised | Answered(answer: ModelAnswer)

  predicate IsAllowedAction(a: Action) {
    || a.BlockIpTtl? || a.RateLimitIp? || a.BlockOutboundIp? || a.SuspendProcess? || a.QuarantineFile?
    || a.DisablePersistence? || a.RestrictAccount?
  }

  predicate CleanTarget(t: string) {
    t != "" && t != "unknown" && !MentionsAny(t, [";", "&&", "||", "`", "$(", "\n"])
  }

  function Shortened(t: string): string {
    if |t| <= 500 then t else t[..500]
  }

  /** The plain recommendation an accepted model action becomes: no metadata of any kind. */
  function CleanRec(a: ModelAction): Rec {
    Rec(a.action, Shortened(Strip(a.target)),
        match a.ttlSeconds case Some(t) => Some(Max(60, Min(t, 604800))) case None => None, None, false, "")
  }

  predicate Bare(r: Rec) {
    && IsAllowedAction(r.action)
    && r.minEvidenceRequired.None? && !r.requiresAuditdRelation && r.auditSerial == ""
    && (r.ttlSeconds.Some? ==> 60 <= r.ttlSeconds.value <= 604800)
  }

  predicate Usable(a: ModelAction) {
    IsAllowedAction(a.action) && CleanTarget(Strip(a.target))
  }

  /** Every usable action, in order, as a plain recommendation. */
  function Kept(actions: seq<ModelAction>): seq<Rec> {
    if actions == [] then []
    else
      var last := actions[|actions| - 1];
      Kept(actions[..|actions| - 1]) + if Usable(last) then [CleanRec(last)] else []
  }

  function Known(ids: set<string>): string -> bool {
    (id: string) => id in ids
  }

  /** Every claim that cites a known event, in order, with its known citations. */
  function KeptClaims(mapping: seq<Mapping>, ids: set<string>): seq<Mapping> {
    if mapping == [] then []
    else
      var last := mapping[|mapping| - 1];
      var cited := Where(last.eventIds, Known(ids));
      KeptClaims(mapping[..|mapping| - 1], ids) + if cited != [] then [Mapping(Shortened(last.claim), cited)] else []
  }

  /** What is kept is bare, and nothing usable is dropped. */
  lemma {:induction false} KeptIsBare(actions: seq<ModelAction>)
    ensures forall r :: r in Kept(actions) ==> Bare(r)
    ensures forall r :: r in Kept(actions) <==> exists m :: m in actions && Usable(m) && r == CleanRec(m)
  {
    hide CleanTarget, Strip, Shortened;
    if actions != [] {
      var init, last := actions[..|actions| - 1], actions[|actions| - 1];
      KeptIsBare(init);
      assert actions == init + [last];
    }
  }

  lemma Citations(eventIds: seq<string>, ids: set<string>)
    ensures forall id :: id in Where(eventIds, Known(ids)) ==> id in ids
    ensures Where(eventIds, Known(ids)) != [] <==> exists id :: id in eventIds && id in ids
  {
    WhereMembers(eventIds, Known(ids));
    var cited := Where(eventIds, Known(ids));
    assert cited != [] ==> cited[0] in cited;
  }

  /** What is kept of a mapping is grounded, and something is kept exactly if some claim cites a known event. */
  lemma {:induction false} KeptIsGrounded(mapping: seq<Mapping>, ids: set<string>)
    ensures KeptClaims(mapping, ids) != [] <==> exists m :: m in mapping && exists id :: id in m.eventIds && id in ids
    ensures KeptClaims(mapping, ids) != [] ==> Grounded(KeptClaims(mapping, ids), ids)
  {
    hide Where, Known;
    if mapping != [] {
      var init, last := mapping[..|mapping| - 1], mapping[|mapping| - 1];
      KeptIsGrounded(init, ids);
      assert mapping == init + [last];
      Citations(last.eventIds, ids);
    }
  }

  method CleanActions(actions: seq<ModelAction>) returns (recs: seq<Rec>)
    ensures recs == Kept(actions)
  {
    hide CleanTarget, CleanRec;
    recs := [];
    for i := 0 to |actions|
      invariant recs == Kept(actions[..i])
    {
      var m := actions[i];
      assert actions[..i + 1][..i] == actions[..i];
      if !IsAllowedAction(m.action) {
        continue;
      }
      if !CleanTarget(Strip(m.target)) {
        continue;
      }
      recs := recs + [CleanRec(m)];
    }
    assert actions[..|actions|] == actions;
  }

  /** _validate_to_result: keep every claim that cites known events and every usable action; None where it raises. */
  method ValidateAnswer(answer: ModelAnswer, chain: Chain) returns (a: Option<Analysis>)
    ensures a.None? <==> answer.score.Unreadable? || !exists m :: m in answer.mapping && exists id :: id in m.eventIds && id in IdsIn(chain.events)
    ensures a.Some? ==>
              && a.value.score == Max(0, Min(100, if answer.score.Value? then answer.score.n else chain.score))
              && a.value.mapping == KeptClaims(answer.mapping, IdsIn(chain.events))
              && a.value.recs == Kept(answer.actions)
    ensures a.Some? ==> Grounded(a.value.mapping, IdsIn(chain.events)) && forall r :: r in a.value.recs ==> Bare(r)
  {
    hide Where, Usable, CleanRec;
    var allowed := IdsIn(chain.events);
    KeptIsGrounded(answer.mapping, allowed);
    KeptIsBare(answer.actions);
    if answer.score.Unreadable? {
      return None;
    }
    var raw := if answer.score.Value? then answer.score.n else chain.score;
    var score := Max(0, Min(100, raw));
    var mapping: seq<Mapping> := [];
    for i := 0 to |answer.mapping|
      invariant mapping == KeptClaims(answer.mapping[..i], allowed)
    {
      var m := answer.mapping[i];
      assert answer.mapping[..i + 1][..i] == answer.mapping[..i];
      var ids := Where(m.eventIds, Known(allowed));
      if ids != [] {
        mapping := mapping + [Mapping(Shortened(m.claim), ids)];
      }
    }
    assert answer.mapping[..|answer.mapping|] == answer.mapping;
    if mapping == [] {
      return None;
    }
    var recs := CleanActions(answer.actions);
    a := Some(Analysis(score, mapping, recs));
  }

  /** analyze: try the providers in order; a failing one is skipped only when falling back is allowed. */
  method Analyze(p: Parsers, chain: Chain, defaultTtl: int, text: Claim -> string, order: seq<Provider>,
                 reply: Provider -> Reply, fallback: bool) returns (a: Option<Analysis>, used: Provider)
    requires RuleBased in order
    ensures a.Some? && chain.events != [] && |chain.reasons| > 0 ==> Grounded(a.value.mapping, IdsIn(chain.events))
    ensures a.Some? && !used.RuleBased? ==> forall r :: r in a.value.recs ==> Bare(r)
    ensures a.Some? && used.RuleBased? ==>
              a.value.score == chain.score && DistinctTargets(a.value.recs)
              && forall x, t :: Lookup(a.value.recs, x, t) == RecFor(p, chain, defaultTtl, x, t)
    ensures fallback ==> a.Some?
  {
    for i := 0 to |order|
      invariant forall j :: 0 <= j < i ==> order[j] != RuleBased
    {
      used := order[i];
      if used.RuleBased? {
        var result := AnalyzeChain(p, chain, defaultTtl, text);
        return Some(result), used;
      }
      var r := reply(used);
      if r.Answered? {
        a := ValidateAnswer(r.answer, chain);
        if a.Some? {
          return a, used;
        }
      }
      if !fallback {
        return None, used;
      }
    }
    assert false;
  }

  // ---- The quality guard ----

  datatype Issue =
    | MissingMapping
    | ClaimWithoutEvidence(claim: string)
    | UnknownId(id: string, claim: string)
    | BlockedRisky(action: Action)
    | DangerousNotDenied(action: Action)
    | NetworkWithoutTarget(action: Action)

  predicate IsLow(i: Issue) {
    i.BlockedRisky? || i.NetworkWithoutTarget?
  }

  predicate IsDangerous(a: Action) {
    a.KillProcess? || a.IsolateHost? || a.RestrictAccount? || a.SuspendProcess?
  }

  function PenaltyOf(i: Issue): int {
    if IsLow(i) then 3 else 10
  }

  function Penalty(issues: seq<Issue>): int {
    if issues == [] then 0 else Penalty(issues[..|issues| - 1]) + PenaltyOf(issues[|issues| - 1])
  }

  /** The mapping half of evaluate. */
  method MappingIssues(mapping: seq<Mapping>, ids: set<string>) returns (issues: seq<Issue>)
    ensures forall i :: i in issues ==> i.MissingMapping? || i.ClaimWithoutEvidence? || i.UnknownId?
    ensures issues == [] <==> Grounded(mapping, ids)
  {
    issues := [];
    if mapping == [] {
      issues := [MissingMapping];
    }
    for k := 0 to |mapping|
      invariant forall i :: i in issues ==> i.MissingMapping? || i.ClaimWithoutEvidence? || i.UnknownId?
      invariant issues == [] <==> mapping != [] && forall m :: m in mapping[..k] ==> m.eventIds != [] && forall id :: id in m.eventIds ==> id in ids
    {
      var m := mapping[k];
      assert mapping[..k + 1] == mapping[..k] + [m];
      ghost var before := issues;
      if m.eventIds == [] {
        issues := issues + [ClaimWithoutEvidence(m.claim)];
      }
      for j := 0 to |m.eventIds|
        invariant forall i :: i in issues ==> i.MissingMapping? || i.ClaimWithoutEvidence? || i.UnknownId?
        invariant issues == [] <==> before == [] && m.eventIds != [] && forall id :: id in m.eventIds[..j] ==> id in ids
      {
        assert m.eventIds[..j + 1] == m.eventIds[..j] + [m.eventIds[j]];
        if m.eventIds[j] !in ids {
          issues := issues + [UnknownId(m.eventIds[j], m.claim)];
        }
      }
      assert m.eventIds[..|m.eventIds|] == m.eventIds;
    }
    assert mapping[..|mapping|] == mapping;
  }

  /** The action half: risky denials are noted, risky recommendations that were not denied are faults. */
  method ActionIssues(recs: seq<Rec>, denied: seq<Action>) returns (issues: seq<Issue>)
    ensures forall i :: i in issues ==> i.BlockedRisky? || i.DangerousNotDenied? || i.NetworkWithoutTarget?
    ensures forall a :: DangerousNotDenied(a) in issues <==>
                        IsDangerous(a) && a !in denied && exists r :: r in recs && r.action == a
    ensures forall a :: BlockedRisky(a) in issues <==> IsDangerous(a) && a in denied
    ensures forall a :: NetworkWithoutTarget(a) in issues <==> IsNetwork(a) && exists r :: r in recs && r.action == a && r.target == ""
  {
    issues := [];
    for k := 0 to |denied|
      invariant forall i :: i in issues ==> i.BlockedRisky?
      invariant forall a :: BlockedRisky(a) in issues <==> IsDangerous(a) && a in denied[..k]
    {
      assert denied[..k + 1] == denied[..k] + [denied[k]];
      if IsDangerous(denied[k]) {
        issues := issues + [BlockedRisky(denied[k])];
      }
    }
    assert denied[..|denied|] == denied;
    for k := 0 to |recs|
      invariant forall a :: BlockedRisky(a) in issues <==> IsDangerous(a) && a in denied
      invariant forall a :: NetworkWithoutTarget(a) in issues <==>
                            IsNetwork(a) && exists r :: r in recs[..k] && r.action == a && r.target == ""
      invariant forall i :: i in issues ==> i.BlockedRisky? || i.DangerousNotDenied? || i.NetworkWithoutTarget?
      invariant forall a :: DangerousNotDenied(a) in issues <==>
                            IsDangerous(a) && a !in denied && exists r :: r in recs[..k] && r.action == a
    {
      var r := recs[k];
      assert recs[..k + 1] == recs[..k] + [r];
      if IsDangerous(r.action) && r.action !in denied {
        issues := issues + [DangerousNotDenied(r.action)];
      }
      if IsNetwork(r.action) && r.target == "" {
        issues := issues + [NetworkWithoutTarget(r.action)];
      }
    }
    assert recs[..|recs|] == recs;
  }

  lemma FirstHalf(first: seq<Issue>, second: seq<Issue>)
    requires forall i :: i in first ==> i.MissingMapping? || i.ClaimWithoutEvidence? || i.UnknownId?
    requires forall i :: i in second ==> !i.MissingMapping? && !i.ClaimWithoutEvidence? && !i.UnknownId?
    ensures first == [] <==> forall i :: i in first + second ==> !i.MissingMapping? && !i.ClaimWithoutEvidence? && !i.UnknownId?
    ensures forall i: Issue :: i.DangerousNotDenied? || i.BlockedRisky? || i.NetworkWithoutTarget? ==> (i in first + second <==> i in second)
  {
    if first != [] {
      assert first[0] in first + second;
    }
  }

  /** The penalty loop and the verdict. */
  method Weigh(issues: seq<Issue>) returns (ok: bool, quality: int)
    ensures quality == Max(0, 100 - Penalty(issues))
    ensures ok <==> |issues| <= 10 && forall i :: i in issues ==> IsLow(i)
  {
    var penalty := 0;
    var blocking := false;
    for k := 0 to |issues|
      invariant penalty == Penalty(issues[..k])
      invariant blocking <==> exists i :: i in issues[..k] && !IsLow(i)
      invariant !blocking ==> penalty == 3 * k
    {
      assert issues[..k + 1][..k] == issues[..k];
      assert issues[..k + 1] == issues[..k] + [issues[k]];
      penalty := penalty + (if IsLow(issues[k]) then 3 else 10);
      if !IsLow(issues[k]) {
        blocking := true;
      }
    }
    assert issues[..|issues|] == issues;
    quality := Max(0, 100 - penalty);
    ok := quality >= 70 && !blocking;
  }

  /** AIReasoningQualityGuard.evaluate: everything found, and what of it is returned. */
  method EvaluateQuality(a: Analysis, ids: set<string>, denied: seq<Action>) returns (ok: bool, quality: int, issues: seq<Issue>, shown: seq<Issue>)
    ensures shown == if |issues| <= 50 then issues else issues[..50]
    ensures Grounded(a.mapping, ids) <==> forall i :: i in issues ==> !i.MissingMapping? && !i.ClaimWithoutEvidence? && !i.UnknownId?
    ensures forall x :: DangerousNotDenied(x) in issues <==> IsDangerous(x) && x !in denied && exists r :: r in a.recs && r.action == x
    ensures forall x :: BlockedRisky(x) in issues <==> IsDangerous(x) && x in denied
    ensures forall x :: NetworkWithoutTarget(x) in issues <==> IsNetwork(x) && exists r :: r in a.recs && r.action == x && r.target == ""
    ensures quality == Max(0, 100 - Penalty(issues))
    ensures ok <==> |issues| <= 10 && forall i :: i in issues ==> IsLow(i)
  {
    hide Grounded, IsDangerous, IsNetwork;
    var first := MappingIssues(a.mapping, ids);
    var second := ActionIssues(a.recs, denied);
    issues := first + second;
    FirstHalf(first, second);
    ok, quality := Weigh(issues);
    shown := if |issues| > 50 then issues[..50] else issues;
  }

  // ---- The definitions in literals ----

  /** The recommendation that a model action becomes: no metadata, at most 500 characters of its target, and a TTL
      between a minute and a week. */
  function Bared(m: ModelAction): RuleEngine.Rec {
    var target := Strip(m.target);
    var ttl := if m.ttlSeconds.None? then None
               else if m.ttlSeconds.value < 60 then Some(60)
               else if m.ttlSeconds.value > 604800 then Some(604800) else m.ttlSeconds;
    RuleEngine.Rec(m.action, if |target| > 500 then target[..500] else target, ttl, None, false, "")
  }

  /** Exactly the model actions of seven kinds are kept whose stripped target is named and free of shell syntax. */
  lemma KeptInFull(actions: seq<ModelAction>, r: RuleEngine.Rec)
    ensures r in Kept(actions) <==>
            exists m :: m in actions && r == Bared(m)
                        && m.action in {BlockIpTtl, RateLimitIp, BlockOutboundIp, SuspendProcess, QuarantineFile, DisablePersistence, RestrictAccount}
                        && Strip(m.target) != "" && Strip(m.target) != "unknown"
                        && forall bad :: bad in [";", "&&", "||", "`", "$(", "\n"] ==> !Contains(Strip(m.target), bad)
  {
    KeptIsBare(actions);
    hide Strip, Contains, Kept;
  }

  /** The words by which a claim is about a topic. */
  function Words(t: Topic): seq<string> {
    match t
    case SshTopic => ["ssh", "brute", "failed login", "login burst"]
    case AccountTopic => ["successful login", "success login", "sudo", "account", "credential"]
    case WebTopic => ["web", "http", "uri", "url", "path traversal", "sqli", "rce", "command injection"]
    case ProcessTopic => ["process", "shell", "exec", "payload", "post-exploitation", "post exploitation"]
    case FileTopic => ["file", "webshell", "web shell", "tmp", "quarantine"]
    case NetworkTopic => ["c2", "outbound", "external", "network", "connection"]
    case PersistenceTopic => ["persistence", "cron", "systemd", "authorized_keys", "startup"]
    case IntegrityTopic => ["integrity", "self-protection", "self protection", "tamper"]
    case DroneTopic => ["drone", "gcs", "mavlink", "heartbeat", "sysid", "component", "mission", "parameter", "ros2", "dds", "rtps", "telemetry"]
    case SignatureTopic => ["signature", "pattern", "\U{C2DC}\U{ADF8}\U{B2C8}\U{CC98}"]
    case MutationTopic => ["attack loop", "mutating", "mutation", "repeated"]
  }

  predicate About(claim: string, t: Topic) {
    exists w :: w in Words(t) && Contains(Lower(claim), w)
  }

  /** The topic that an event belongs to. */
  function TopicOf(e: Event): Option<Topic> {
    match e.eventType
    case SshFailedLogin => Some(SshTopic)
    case SshSuccessLogin => Some(AccountTopic)
    case SudoExecution => Some(AccountTopic)
    case HttpRequest => Some(WebTopic)
    case AppError => Some(WebTopic)
    case WebAttackPattern => Some(WebTopic)
    case SuspiciousProcess => Some(ProcessTopic)
    case SuspiciousFile => Some(FileTopic)
    case OtherType(t) => if t in ["file_created", "file_modified", "fim_created", "fim_modified"] then Some(FileTopic) else None
    case ExternalNetworkConnection => Some(NetworkTopic)
    case PersistenceModified => Some(PersistenceTopic)
    case AgentIntegrityChange => Some(IntegrityTopic)
    case SignatureMatch => Some(SignatureTopic)
    case SshInvalidUser => None
    case NetworkConnection => None
    case _ => Some(DroneTopic)
  }

  predicate Repeats(e: Event) {
    || e.severity.HighSeverity? || e.severity.CriticalSeverity?
    || e.eventType in {WebAttackPattern, SuspiciousProcess, ExternalNetworkConnection, SignatureMatch}
  }

  /** An event is evidence for a claim about its own topic, and a severe event or a trace of an attack also for one
      about repetition. */
  predicate Evidences(claim: string, e: Event) {
    || (TopicOf(e).Some? && About(claim, TopicOf(e).value))
    || (Repeats(e) && About(claim, MutationTopic))
  }

  lemma HostTopicMentioned(text: string, t: Topic)
    ensures t in HostTopics(text) <==>
            MentionsAny(text, Words(t))
            && (t.SshTopic? || t.AccountTopic? || t.WebTopic? || t.ProcessTopic? || t.FileTopic? || t.NetworkTopic?)
  {
    hide MentionsAny;
  }

  lemma OtherTopicMentioned(text: string, t: Topic)
    ensures t in OtherTopics(text) <==>
            MentionsAny(text, Words(t))
            && (t.PersistenceTopic? || t.IntegrityTopic? || t.DroneTopic? || t.SignatureTopic? || t.MutationTopic?)
  {
    hide MentionsAny;
  }

  lemma AboutMentions(claim: string, t: Topic)
    ensures About(claim, t) <==> MentionsAny(Lower(claim), Words(t))
  {
  }

  lemma TopicsInFull(claim: string)
    ensures forall t :: t in TopicsOf(claim) <==> About(claim, t)
  {
    hide HostTopics, OtherTopics, MentionsAny, Lower, Words, About;
    forall t ensures t in TopicsOf(claim) <==> About(claim, t) {
      HostTopicMentioned(Lower(claim), t);
      OtherTopicMentioned(Lower(claim), t);
      AboutMentions(claim, t);
    }
  }

  lemma SupportsInFull(t: Topic, e: Event)
    ensures SupportsTopic(t, e) <==> TopicOf(e) == Some(t) || (t.MutationTopic? && Repeats(e))
  {
  }

  /** A claim's topics support exactly the events that are evidence for it. */
  lemma EvidencesInFull(claim: string, e: Event)
    ensures Supported(TopicsOf(claim), e) <==> Evidences(claim, e)
  {
    hide About, TopicsOf, SupportsTopic, TopicOf, Repeats;
    TopicsInFull(claim);
    forall t ensures SupportsTopic(t, e) <==> TopicOf(e) == Some(t) || (t.MutationTopic? && Repeats(e)) {
      SupportsInFull(t, e);
    }
    assert About(claim, MutationTopic) <==> MutationTopic in TopicsOf(claim);
  }

  /** A rule-based claim cites the events it has words for; failing those, the severe ones; failing those, the first. */
  lemma CitationsInFull(events: seq<Event>, claim: string, id: string)
    ensures id in Citable(events, TopicsOf(claim)) <==>
            if exists e :: e in events && Evidences(claim, e) then exists e :: e in events && Evidences(claim, e) && e.eventId == id
            else if exists e :: e in events && Severe(e) then exists e :: e in events && Severe(e) && e.eventId == id
            else events != [] && id == events[0].eventId
  {
    hide TopicsOf, Supported, Evidences, Severe;
    forall e ensures Supported(TopicsOf(claim), e) <==> Evidences(claim, e) {
      EvidencesInFull(claim, e);
    }
    var topics := TopicsOf(claim);
    if e :| e in events && Evidences(claim, e) {
      assert e.eventId in SupportingIds(events, topics);
    }
    if e :| e in events && Severe(e) {
      assert e.eventId in SevereIds(events);
    }
  }

  /** Which names stand for which provider. */
  lemma ProviderNames(name: string)
    ensures ProviderNamed(name) == Some(Gpt) <==> name in ["gpt", "openai", "openai_compatible"]
    ensures ProviderNamed(name) == Some(Ollama) <==> name in ["ollama", "llama", "local_llama"]
    ensures ProviderNamed(name) == Some(RuleBased) <==> name in ["rule_based", "rule"]
  {
  }

  /** The quality lost: three points for a denied risky action or a missing target, ten for anything else. */
  lemma {:induction false} PenaltyInPoints(issues: seq<Issue>)
    ensures var low := |set i | 0 <= i < |issues| && (issues[i].BlockedRisky? || issues[i].NetworkWithoutTarget?)|;
            Penalty(issues) == 3 * low + 10 * (|issues| - low)
  {
    var all := set i | 0 <= i < |issues| && (issues[i].BlockedRisky? || issues[i].NetworkWithoutTarget?);
    if issues == [] {
      assert all == {};
    } else {
      var init, last := issues[..|issues| - 1], issues[|issues| - 1];
      PenaltyInPoints(init);
      var before := set i | 0 <= i < |init| && (init[i].BlockedRisky? || init[i].NetworkWithoutTarget?);
      if last.BlockedRisky? || last.NetworkWithoutTarget? {
        assert all == before + {|init|};
      } else {
        assert all == before;
      }
    }
  }

  /** The four actions that must have been denied. */
  lemma DangerousActions(a: Action)
    ensures IsDangerous(a) <==> a in {KillProcess, IsolateHost, RestrictAccount, SuspendProcess}
  {
  }
}
