/** src/aegis_agent/core/policy_promotion.py: repeated successful responses climb from candidate to promoted. */
module PolicyPromotion {
  import opened Common
  import opened Lists
  import opened Models
  import opened Effects

  datatype Stage = Candidate | Shadow | EnforceVerified | Promoted

  datatype Thresholds = Thresholds(shadowAfter: int, enforceAfter: int, promoteAfter: int)

  /** The stored key joins action and attack type; the five tracked actions hold no separator, so it is a pair. */
  datatype Key = Key(action: Action, attackType: string)

  datatype Ioc = Ioc(indicator: string, blockOutbound: bool, confidence: int, ttl: int)

  datatype Record = Record(
    firstSeen: int,
    lastSeen: int,
    observations: nat,
    successes: nat,
    stage: Stage,
    targets: seq<string>,
    recommendedTtl: int,
    ioc: Option<Ioc>,
    pendingApproval: bool)

  type Records = map<Key, Record>

  predicate Tracked(a: Action) {
    a.BlockIpTtl? || a.RateLimitIp? || a.BlockOutboundIp? || a.QuarantineFile? || a.DisablePersistence?
  }

  predicate Qualifies(t: Taken) {
    Tracked(t.action) && (t.status.Success? || t.status.Planned?)
  }

  function StageOf(th: Thresholds, observations: nat, successes: nat): Stage {
    if successes >= th.promoteAfter then Promoted
    else if observations >= th.enforceAfter && successes >= 1 then EnforceVerified
    else if observations >= th.shadowAfter then Shadow
    else Candidate
  }

  function Rank(s: Stage): nat {
    match s case Candidate => 0 case Shadow => 1 case EnforceVerified => 2 case Promoted => 3
  }

  function RecommendedTtl(a: Action, observations: nat, successes: nat): int {
    var base := if a.RateLimitIp? then 1800 else if a.BlockIpTtl? then 3600 else if a.BlockOutboundIp? then 7200
                else if a.QuarantineFile? || a.DisablePersistence? then 0 else 3600;
    if base <= 0 then 0
    else
      var multiplier := if observations >= 6 || successes >= 4 then 4 else if observations >= 3 || successes >= 2 then 2 else 1;
      Min(base * multiplier, 604800)
  }

  /** _build_ioc_candidate; `safeIp` is the address test of _safe_ip. */
  function IocFor(safeIp: string -> bool, a: Action, target: string, ttl: int, observations: nat, successes: nat): Option<Ioc> {
    if !(a.BlockIpTtl? || a.RateLimitIp? || a.BlockOutboundIp?) || !safeIp(target) then None
    else Some(Ioc(target, a.BlockOutboundIp?, Min(95, 70 + successes * 5 + observations * 2), if ttl != 0 then ttl else 86400))
  }

  // ---- Reference: counts over the history of qualifying actions ----

  /** One qualifying action, with whether it counts as a success. */
  datatype Entry = Entry(key: Key, target: string, success: bool, now: int)

  function EntryOf(i: Incident, t: Taken): Entry {
    Entry(Key(t.action, i.attackType), t.target, i.serviceOk && t.status.Success?, i.now)
  }

  function EntriesOf(i: Incident, actions: seq<Taken>): seq<Entry> {
    if actions == [] then []
    else EntriesOf(i, actions[..|actions| - 1])
         + if Qualifies(actions[|actions| - 1]) then [EntryOf(i, actions[|actions| - 1])] else []
  }

  /** The qualifying actions of a history of incidents, in order. */
  function History(incidents: seq<Incident>): seq<Entry> {
    if incidents == [] then []
    else History(incidents[..|incidents| - 1]) + EntriesOf(incidents[|incidents| - 1], incidents[|incidents| - 1].actions)
  }

  function Of(key: Key): Entry -> bool {
    (e: Entry) => e.key == key
  }

  function SuccessOf(key: Key): Entry -> bool {
    (e: Entry) => e.key == key && e.success
  }

  function Observations(history: seq<Entry>, key: Key): nat {
    |Where(history, Of(key))|
  }

  function Successes(history: seq<Entry>, key: Key): nat {
    |Where(history, SuccessOf(key))|
  }

  /** The non-empty targets of a key without repeats, in order of first appearance. */
  function AllTargets(history: seq<Entry>, key: Key): seq<string> {
    if history == [] then []
    else
      var rest, e := AllTargets(history[..|history| - 1], key), history[|history| - 1];
      if e.key == key && e.target != "" && e.target !in rest then rest + [e.target] else rest
  }

  const MAX_TARGETS := 20

  function Cut(targets: seq<string>): seq<string> {
    if |targets| <= MAX_TARGETS then targets else targets[..MAX_TARGETS]
  }

  // ---- The engine's step ----

  function Blank(now: int): Record {
    Record(now, now, 0, 0, Candidate, [], 0, None, false)
  }

  function Updated(safeIp: string -> bool, th: Thresholds, r: Record, e: Entry): Record {
    var obs, succ := r.observations + 1, r.successes + if e.success then 1 else 0;
    var stage, ttl := StageOf(th, obs, succ), RecommendedTtl(e.key.action, obs, succ);
    Record(r.firstSeen, e.now, obs, succ, stage,
           if e.target != "" && e.target !in r.targets then Cut(r.targets + [e.target]) else r.targets, ttl,
           if stage.Promoted? then IocFor(safeIp, e.key.action, e.target, ttl, obs, succ) else r.ioc,
           if stage.Promoted? then true else r.pendingApproval)
  }

  function Observe(safeIp: string -> bool, th: Thresholds, data: Records, e: Entry): Records {
    data[e.key := Updated(safeIp, th, if e.key in data then data[e.key] else Blank(e.now), e)]
  }

  function ObserveAll(safeIp: string -> bool, th: Thresholds, data: Records, entries: seq<Entry>): Records {
    if entries == [] then data
    else Observe(safeIp, th, ObserveAll(safeIp, th, data, entries[..|entries| - 1]), entries[|entries| - 1])
  }

  // ---- The code ----

  ghost function InStage(data: Records, s: Stage): set<Key> {
    set k | k in data && data[k].stage == s
  }

  ghost function Pending(data: Records): set<Key> {
    set k | k in data && data[k].pendingApproval
  }

  ghost function WithIoc(data: Records): set<Key> {
    set k | k in data && data[k].ioc.Some?
  }

  /** No record of the action recommends a longer TTL, and some record recommends this one unless it is zero. */
  ghost predicate IsLargestTtl(data: Records, a: Action, ttl: int) {
    && ttl >= 0
    && (forall k :: k in data && k.action == a ==> data[k].recommendedTtl <= ttl)
    && (ttl != 0 ==> exists k :: k in data && k.action == a && data[k].recommendedTtl == ttl)
  }

  lemma TtlExtends(data: Records, k: Key, r: Record)
    requires k !in data
    ensures forall a, ttl :: IsLargestTtl(data, a, ttl) ==>
              IsLargestTtl(data[k := r], a, if a == k.action && r.recommendedTtl != 0 then Max(ttl, r.recommendedTtl) else ttl)
  {
    forall a, ttl | IsLargestTtl(data, a, ttl)
      ensures IsLargestTtl(data[k := r], a, if a == k.action && r.recommendedTtl != 0 then Max(ttl, r.recommendedTtl) else ttl)
    {
      var more := data[k := r];
      assert k in more && more[k] == r;
      assert forall x :: x in data ==> x in more && more[x] == data[x];
    }
  }

  lemma IocExtends(data: Records, k: Key, r: Record)
    requires k !in data
    ensures |WithIoc(data[k := r])| == |WithIoc(data)| + if r.ioc.Some? then 1 else 0
  {
    if r.ioc.Some? {
      assert WithIoc(data[k := r]) == WithIoc(data) + {k};
    } else {
      assert WithIoc(data[k := r]) == WithIoc(data);
    }
  }

  lemma NothingToSummarise()
    ensures forall s :: InStage(map[], s) == {}
    ensures Pending(map[]) == {} && WithIoc(map[]) == {}
    ensures forall a :: IsLargestTtl(map[], a, 0)
  {
  }

  lemma InStageExtends(data: Records, k: Key, r: Record, s: Stage)
    requires k !in data
    ensures |InStage(data[k := r], s)| == |InStage(data, s)| + if r.stage == s then 1 else 0
  {
    if r.stage == s {
      assert InStage(data[k := r], s) == InStage(data, s) + {k};
    } else {
      assert InStage(data[k := r], s) == InStage(data, s);
    }
  }

  lemma PendingExtends(data: Records, k: Key, r: Record)
    requires k !in data
    ensures |Pending(data[k := r])| == |Pending(data)| + if r.pendingApproval then 1 else 0
  {
    if r.pendingApproval {
      assert Pending(data[k := r]) == Pending(data) + {k};
    } else {
      assert Pending(data[k := r]) == Pending(data);
    }
  }

  lemma StageExtends(data: Records, k: Key, r: Record)
    requires k !in data
    ensures forall s :: |InStage(data[k := r], s)| == |InStage(data, s)| + if r.stage == s then 1 else 0
    ensures |Pending(data[k := r])| == |Pending(data)| + if r.pendingApproval then 1 else 0
  {
    hide InStage, Pending;
    PendingExtends(data, k, r);
    forall s ensures |InStage(data[k := r], s)| == |InStage(data, s)| + if r.stage == s then 1 else 0 {
      InStageExtends(data, k, r, s);
    }
  }

  lemma StepEntries(safeIp: string -> bool, th: Thresholds, data: Records, incident: Incident, actions: seq<Taken>, i: nat)
    requires i < |actions|
    ensures var before := ObserveAll(safeIp, th, data, EntriesOf(incident, actions[..i]));
            ObserveAll(safeIp, th, data, EntriesOf(incident, actions[..i + 1])) ==
            if Qualifies(actions[i]) then Observe(safeIp, th, before, EntryOf(incident, actions[i])) else before
  {
    var longer := actions[..i + 1];
    assert longer[..|longer| - 1] == actions[..i] && longer[|longer| - 1] == actions[i];
    var entries := EntriesOf(incident, actions[..i]);
    if Qualifies(actions[i]) {
      assert (entries + [EntryOf(incident, actions[i])])[..|entries|] == entries;
    } else {
      assert entries + [] == entries;
    }
  }

  class PolicyPromotionEngine {
    const thresholds: Thresholds
    var data: Records

    constructor (thresholds: Thresholds)
      ensures data == map[] && this.thresholds == thresholds
    {
      this.thresholds := thresholds;
      data := map[];
    }

    /** The loop of observe_incident over the actions of one incident. */
    method ObserveIncident(safeIp: string -> bool, incident: Incident)
      modifies this`data
      ensures data == ObserveAll(safeIp, thresholds, old(data), EntriesOf(incident, incident.actions))
    {
      var actions := incident.actions;
      for i := 0 to |actions|
        invariant data == ObserveAll(safeIp, thresholds, old(data), EntriesOf(incident, actions[..i]))
      {
        var t := actions[i];
        StepEntries(safeIp, thresholds, old(data), incident, actions, i);
        if !Tracked(t.action) {
          continue;
        }
        if !(t.status.Success? || t.status.Planned?) {
          continue;
        }
        RecordOne(safeIp, EntryOf(incident, t));
      }
      assert actions[..|actions|] == actions;
    }

    /** One qualifying action: count it, restage the record, and request approval once promoted. */
    method RecordOne(safeIp: string -> bool, e: Entry)
      modifies this`data
      ensures data == Observe(safeIp, thresholds, old(data), e)
    {
      var r := if e.key in data then data[e.key] else Blank(e.now);
      r := r.(lastSeen := e.now, observations := r.observations + 1);
      if e.success {
        r := r.(successes := r.successes + 1);
      }
      var targets := AddTarget(r.targets, e.target);
      var stage := Restage(r.observations, r.successes);
      var ttl := RecommendedTtl(e.key.action, r.observations, r.successes);
      r := r.(targets := targets, stage := stage, recommendedTtl := ttl);
      if stage.Promoted? {
        r := r.(ioc := IocFor(safeIp, e.key.action, e.target, ttl, r.observations, r.successes), pendingApproval := true);
      }
      hide StageOf, RecommendedTtl, IocFor, Cut;
      data := data[e.key := r];
    }

    method AddTarget(targets: seq<string>, target: string) returns (out: seq<string>)
      ensures out == if target != "" && target !in targets then Cut(targets + [target]) else targets
    {
      out := targets;
      if target != "" && target !in out {
        out := out + [target];
        if |out| > MAX_TARGETS {
          out := out[..MAX_TARGETS];
        }
      }
    }

    method Restage(observations: nat, successes: nat) returns (stage: Stage)
      ensures stage == StageOf(thresholds, observations, successes)
    {
      stage := Candidate;
      if observations >= thresholds.shadowAfter {
        stage := Shadow;
      }
      if observations >= thresholds.enforceAfter && successes >= 1 {
        stage := EnforceVerified;
      }
      if successes >= thresholds.promoteAfter {
        stage := Promoted;
      }
    }

    /** summary: the records per stage, the indicators, the approvals waiting for the operator, and the largest
        recommended TTL of each action. */
    method Summary() returns (total: nat, stages: map<Stage, nat>, pending: nat, iocs: nat, ttls: map<Action, int>)
      ensures total == |data|
      ensures forall s :: (if s in stages then stages[s] else 0) == |InStage(data, s)|
      ensures pending == |Pending(data)|
      ensures iocs == |WithIoc(data)|
      ensures forall a :: IsLargestTtl(data, a, if a in ttls then ttls[a] else 0)
    {
      hide InStage, Pending, WithIoc, IsLargestTtl;
      NothingToSummarise();
      total, stages, pending, iocs, ttls := |data|, map[], 0, 0, map[];
      var rest := data.Keys;
      ghost var done: Records := map[];
      while rest != {}
        invariant rest <= data.Keys
        invariant done.Keys == data.Keys - rest && forall k :: k in done ==> done[k] == data[k]
        invariant forall s :: (if s in stages then stages[s] else 0) == |InStage(done, s)|
        invariant pending == |Pending(done)|
        invariant iocs == |WithIoc(done)|
        invariant forall a :: IsLargestTtl(done, a, if a in ttls then ttls[a] else 0)
      {
        var k :| k in rest;
        var r := data[k];
        StageExtends(done, k, r);
        IocExtends(done, k, r);
        stages := stages[r.stage := (if r.stage in stages then stages[r.stage] else 0) + 1];
        if r.pendingApproval {
          pending := pending + 1;
        }
        if r.ioc.Some? {
          iocs := iocs + 1;
        }
        TtlExtends(done, k, r);
        if r.recommendedTtl != 0 {
          ttls := ttls[k.action := Max(if k.action in ttls then ttls[k.action] else 0, r.recommendedTtl)];
        }
        done := done[k := r];
        rest := rest - {k};
      }
      assert done == data;
    }
  }

  // ---- Every run agrees with its history ----

  /** What the store holds for a key after a history: everything is a function of the counts. */
  ghost predicate Refines(safeIp: string -> bool, th: Thresholds, data: Records, history: seq<Entry>, key: Key) {
    var obs, succ := Observations(history, key), Successes(history, key);
    && (key in data <==> obs > 0)
    && (key in data ==>
          var r := data[key];
          && r.observations == obs && r.successes == succ && succ <= obs
          && r.stage == StageOf(th, obs, succ)
          && r.recommendedTtl == RecommendedTtl(key.action, obs, succ)
          && r.targets == Cut(AllTargets(history, key))
          && r.pendingApproval == r.stage.Promoted?
          && var own := Where(history, Of(key));
             && r.firstSeen == own[0].now && r.lastSeen == own[|own| - 1].now
             && r.ioc == if r.stage.Promoted? then IocFor(safeIp, key.action, own[|own| - 1].target, r.recommendedTtl, obs, succ) else None)
  }

  lemma CountsExtend(history: seq<Entry>, e: Entry, key: Key)
    ensures Observations(history + [e], key) == Observations(history, key) + if e.key == key then 1 else 0
    ensures Successes(history + [e], key) == Successes(history, key) + if e.key == key && e.success then 1 else 0
  {
    WhereExtends(history, e, Of(key));
    WhereExtends(history, e, SuccessOf(key));
  }

  lemma {:induction false} NoTargetsWithoutObservations(history: seq<Entry>, key: Key)
    requires Observations(history, key) == 0
    ensures AllTargets(history, key) == [] && Successes(history, key) == 0
  {
    if history != [] {
      var init, e := history[..|history| - 1], history[|history| - 1];
      assert history == init + [e];
      CountsExtend(init, e, key);
      NoTargetsWithoutObservations(init, key);
    }
  }

  /** Appending a new target and cutting keeps the first twenty distinct ones. */
  lemma CutExtends(history: seq<Entry>, e: Entry)
    ensures var stored := Cut(AllTargets(history, e.key));
            Cut(AllTargets(history + [e], e.key)) == if e.target != "" && e.target !in stored then Cut(stored + [e.target]) else stored
  {
    assert (history + [e])[..|history|] == history;
    var all := AllTargets(history, e.key);
    assert forall x :: x in Cut(all) ==> x in all;
    if |all| <= MAX_TARGETS {
    } else {
      assert Cut(Cut(all) + [e.target]) == Cut(all);
      assert Cut(all + [e.target]) == Cut(all);
    }
  }

  lemma StagesOnlyClimb(th: Thresholds, a: Action, obs: nat, succ: nat, moreObs: nat, moreSucc: nat)
    requires obs <= moreObs && succ <= moreSucc
    ensures Rank(StageOf(th, obs, succ)) <= Rank(StageOf(th, moreObs, moreSucc))
    ensures RecommendedTtl(a, obs, succ) <= RecommendedTtl(a, moreObs, moreSucc)
  {
  }

  lemma CutNothing()
    ensures Cut([]) == []
  {
  }

  lemma OwnExtends(history: seq<Entry>, e: Entry, key: Key)
    ensures Where(history + [e], Of(key)) == if e.key == key then Where(history, Of(key)) + [e] else Where(history, Of(key))
  {
    WhereExtends(history, e, Of(key));
  }

  lemma OtherRefines(safeIp: string -> bool, th: Thresholds, data: Records, history: seq<Entry>, e: Entry, key: Key)
    requires Refines(safeIp, th, data, history, key) && e.key != key
    ensures Refines(safeIp, th, Observe(safeIp, th, data, e), history + [e], key)
  {
    hide StageOf, RecommendedTtl, IocFor, Cut, Updated, Where;
    CountsExtend(history, e, key);
    OwnExtends(history, e, key);
    assert (history + [e])[..|history|] == history;
    assert AllTargets(history + [e], key) == AllTargets(history, key);
  }

  lemma OwnRefines(safeIp: string -> bool, th: Thresholds, data: Records, history: seq<Entry>, e: Entry, key: Key)
    requires Refines(safeIp, th, data, history, key) && e.key == key
    ensures Refines(safeIp, th, Observe(safeIp, th, data, e), history + [e], key)
  {
    hide StageOf, RecommendedTtl, IocFor, Cut, Where, AllTargets;
    CountsExtend(history, e, key);
    OwnExtends(history, e, key);
    if key !in data {
      NoTargetsWithoutObservations(history, key);
      CutNothing();
    }
    CutExtends(history, e);
    StagesOnlyClimb(th, key.action, Observations(history, key), Successes(history, key),
                    Observations(history + [e], key), Successes(history + [e], key));
  }

  lemma ObserveRefines(safeIp: string -> bool, th: Thresholds, data: Records, history: seq<Entry>, e: Entry, key: Key)
    requires Refines(safeIp, th, data, history, key)
    ensures Refines(safeIp, th, Observe(safeIp, th, data, e), history + [e], key)
  {
    hide Refines, Observe;
    if e.key == key {
      OwnRefines(safeIp, th, data, history, e, key);
    } else {
      OtherRefines(safeIp, th, data, history, e, key);
    }
  }

  lemma NothingStored(safeIp: string -> bool, th: Thresholds, key: Key)
    ensures Refines(safeIp, th, map[], [], key)
  {
    assert Observations([], key) == 0;
  }

  /** Over every run with fixed thresholds the store is exactly the one the counts of qualifying actions give. */
  lemma {:induction false} StoreRefinesHistory(safeIp: string -> bool, th: Thresholds, history: seq<Entry>, key: Key)
    ensures Refines(safeIp, th, ObserveAll(safeIp, th, map[], history), history, key)
  {
    hide Refines, Observe;
    if history == [] {
      NothingStored(safeIp, th, key);
    } else {
      var init, e := history[..|history| - 1], history[|history| - 1];
      StoreRefinesHistory(safeIp, th, init, key);
      ObserveRefines(safeIp, th, ObserveAll(safeIp, th, map[], init), init, e, key);
      assert history == init + [e];
    }
  }

  /** s is r or a later version of it. */
  ghost predicate Climbed(r: Record, s: Record) {
    Rank(r.stage) <= Rank(s.stage) && r.recommendedTtl <= s.recommendedTtl && r.targets <= s.targets
  }

  lemma ObserveClimbs(safeIp: string -> bool, th: Thresholds, data: Records, history: seq<Entry>, e: Entry, key: Key)
    requires Refines(safeIp, th, data, history, key) && key in data
    ensures key in Observe(safeIp, th, data, e) && Climbed(data[key], Observe(safeIp, th, data, e)[key])
  {
    hide StageOf, RecommendedTtl, IocFor;
    if e.key == key {
      var r := data[key];
      StagesOnlyClimb(th, key.action, r.observations, r.successes, r.observations + 1, r.successes + if e.success then 1 else 0);
    }
  }

  /** Along a run the stage of a key never falls and its recommended TTL never shrinks. */
  lemma {:induction false} StagesClimbAlongRuns(safeIp: string -> bool, th: Thresholds, history: seq<Entry>, more: seq<Entry>, key: Key)
    requires key in ObserveAll(safeIp, th, map[], history)
    ensures key in ObserveAll(safeIp, th, map[], history + more)
    ensures Climbed(ObserveAll(safeIp, th, map[], history)[key], ObserveAll(safeIp, th, map[], history + more)[key])
    decreases |more|
  {
    hide Observe, Refines;
    if more == [] {
      assert history + more == history;
    } else {
      var init, e := more[..|more| - 1], more[|more| - 1];
      StagesClimbAlongRuns(safeIp, th, history, init, key);
      var before, after := history + init, history + more;
      assert after[..|after| - 1] == before && after[|after| - 1] == e;
      StoreRefinesHistory(safeIp, th, before, key);
      ObserveClimbs(safeIp, th, ObserveAll(safeIp, th, map[], before), before, e, key);
    }
  }

  /** The stored targets are distinct, non-empty and at most twenty. */
  lemma {:induction false} TargetsDistinct(history: seq<Entry>, key: Key)
    ensures Distinct(AllTargets(history, key)) && "" !in AllTargets(history, key)
    ensures Distinct(Cut(AllTargets(history, key))) && |Cut(AllTargets(history, key))| <= MAX_TARGETS
  {
    if history != [] {
      TargetsDistinct(history[..|history| - 1], key);
    }
  }

  /** The stage counts of the summary add up to the number of candidates, and on every run the approvals
      waiting are exactly the promoted records. */
  lemma SummaryAddsUp(safeIp: string -> bool, th: Thresholds, history: seq<Entry>)
    ensures var data := ObserveAll(safeIp, th, map[], history);
            && |InStage(data, Candidate)| + |InStage(data, Shadow)| + |InStage(data, EnforceVerified)| + |InStage(data, Promoted)| == |data|
            && Pending(data) == InStage(data, Promoted)
  {
    hide ObserveAll, StageOf, RecommendedTtl, Observations, Successes, AllTargets, Cut;
    var data := ObserveAll(safeIp, th, map[], history);
    forall k | k in data ensures data[k].pendingApproval == data[k].stage.Promoted? {
      StoreRefinesHistory(safeIp, th, history, k);
    }
    var a, b, c, d := InStage(data, Candidate), InStage(data, Shadow), InStage(data, EnforceVerified), InStage(data, Promoted);
    assert data.Keys == a + b + c + d;
    assert a !! b && (a + b) !! c && (a + b + c) !! d;
  }

  lemma {:induction false} ObserveAllAppend(safeIp: string -> bool, th: Thresholds, data: Records, a: seq<Entry>, b: seq<Entry>)
    ensures ObserveAll(safeIp, th, data, a + b) == ObserveAll(safeIp, th, ObserveAll(safeIp, th, data, a), b)
    decreases |b|
  {
    hide Observe;
    if b == [] {
      assert a + b == a;
    } else {
      assert (a + b)[..|a + b| - 1] == a + b[..|b| - 1];
      ObserveAllAppend(safeIp, th, data, a, b[..|b| - 1]);
    }
  }

  /** The store after a sequence of incidents, each observed by ObserveIncident. */
  function AfterIncidents(safeIp: string -> bool, th: Thresholds, incidents: seq<Incident>): Records {
    if incidents == [] then map[]
    else
      var last := incidents[|incidents| - 1];
      ObserveAll(safeIp, th, AfterIncidents(safeIp, th, incidents[..|incidents| - 1]), EntriesOf(last, last.actions))
  }

  /** Incident by incident, the store after a run is the one of the run's whole history. */
  lemma {:induction false} IncidentsRefineHistory(safeIp: string -> bool, th: Thresholds, incidents: seq<Incident>, key: Key)
    ensures AfterIncidents(safeIp, th, incidents) == ObserveAll(safeIp, th, map[], History(incidents))
    ensures Refines(safeIp, th, AfterIncidents(safeIp, th, incidents), History(incidents), key)
  {
    hide Observe, Refines;
    StoreRefinesHistory(safeIp, th, History(incidents), key);
    if incidents != [] {
      var init, last := incidents[..|incidents| - 1], incidents[|incidents| - 1];
      IncidentsRefineHistory(safeIp, th, init, key);
      ObserveAllAppend(safeIp, th, map[], History(init), EntriesOf(last, last.actions));
    }
  }

  // ---- The definitions in literals ----

  /** How many entries of a history belong to a key, and how many of them are successes. */
  ghost function Seen(history: seq<Entry>, key: Key): nat {
    |set i | 0 <= i < |history| && history[i].key == key|
  }

  ghost function Succeeded(history: seq<Entry>, key: Key): nat {
    |set i | 0 <= i < |history| && history[i].key == key && history[i].success|
  }

  lemma CountsInFull(history: seq<Entry>, key: Key)
    ensures Observations(history, key) == Seen(history, key) && Successes(history, key) == Succeeded(history, key)
  {
    WhereCount(history, Of(key), set i | 0 <= i < |history| && history[i].key == key);
    WhereCount(history, SuccessOf(key), set i | 0 <= i < |history| && history[i].key == key && history[i].success);
  }

  /** Over every history the stage of a key follows the numbers of its entries: promoted exactly with enough
      successes; below that verified exactly with one success and enough observations; below that in shadow
      exactly with enough observations. Approval is pending exactly for a promoted key. */
  lemma StagesInNumbers(safeIp: string -> bool, th: Thresholds, history: seq<Entry>, key: Key)
    ensures var data := ObserveAll(safeIp, th, map[], history);
            var n, s := Seen(history, key), Succeeded(history, key);
            && (key in data <==> n >= 1)
            && (key in data ==>
                  var r := data[key];
                  && r.observations == n && r.successes == s
                  && (r.stage.Promoted? <==> s >= th.promoteAfter)
                  && (s < th.promoteAfter ==> (r.stage.EnforceVerified? <==> s >= 1 && n >= th.enforceAfter))
                  && (s < th.promoteAfter && !(s >= 1 && n >= th.enforceAfter) ==> (r.stage.Shadow? <==> n >= th.shadowAfter))
                  && (r.pendingApproval <==> s >= th.promoteAfter))
  {
    StoreRefinesHistory(safeIp, th, history, key);
    CountsInFull(history, key);
    hide ObserveAll, Observations, Successes, Seen, Succeeded, AllTargets, RecommendedTtl, IocFor;
  }

  /** Where promotion asks for a success at all, a key without one has neither a pending approval nor an indicator. */
  lemma NothingWithoutSuccess(safeIp: string -> bool, th: Thresholds, history: seq<Entry>, key: Key)
    requires th.promoteAfter >= 1 && Succeeded(history, key) == 0
    ensures var data := ObserveAll(safeIp, th, map[], history);
            key in data ==> !data[key].pendingApproval && data[key].ioc.None? && !data[key].stage.Promoted?
  {
    StagesInNumbers(safeIp, th, history, key);
    StoreRefinesHistory(safeIp, th, history, key);
    hide ObserveAll, Observations, Successes, Seen, Succeeded, AllTargets, RecommendedTtl, StageOf;
  }

  /** Along a run a promoted key stays promoted, a verified one never returns to shadow, and one in shadow is no mere
      candidate again; the recommended TTL never shrinks. */
  lemma StagesNeverFall(safeIp: string -> bool, th: Thresholds, history: seq<Entry>, more: seq<Entry>, key: Key)
    requires key in ObserveAll(safeIp, th, map[], history)
    ensures var data, later := ObserveAll(safeIp, th, map[], history), ObserveAll(safeIp, th, map[], history + more);
            && key in later
            && (data[key].stage.Promoted? ==> later[key].stage.Promoted?)
            && (data[key].stage.EnforceVerified? ==> later[key].stage.EnforceVerified? || later[key].stage.Promoted?)
            && (data[key].stage.Shadow? ==> !later[key].stage.Candidate?)
            && data[key].recommendedTtl <= later[key].recommendedTtl
  {
    StagesClimbAlongRuns(safeIp, th, history, more, key);
  }

  /** The TTL recommended for a key: half an hour for a rate limit, one hour for a block, two for an outbound block,
      doubled from three observations or two successes on and doubled again from six or four; none for files. */
  lemma TtlsInSeconds(observations: nat, successes: nat)
    ensures var steps := if observations >= 6 || successes >= 4 then 2 else if observations >= 3 || successes >= 2 then 1 else 0;
            && RecommendedTtl(RateLimitIp, observations, successes) == (if steps == 2 then 7200 else if steps == 1 then 3600 else 1800)
            && RecommendedTtl(BlockIpTtl, observations, successes) == (if steps == 2 then 14400 else if steps == 1 then 7200 else 3600)
            && RecommendedTtl(BlockOutboundIp, observations, successes) == (if steps == 2 then 28800 else if steps == 1 then 14400 else 7200)
            && RecommendedTtl(QuarantineFile, observations, successes) == 0
            && RecommendedTtl(DisablePersistence, observations, successes) == 0
            && forall a: Action :: a.SuspendProcess? || a.RestrictAccount? || a.IsolateHost? || a.KillProcess? || a.OtherAction? ==>
                 RecommendedTtl(a, observations, successes) == RecommendedTtl(BlockIpTtl, observations, successes)
  {
  }

  lemma SeenOne(history: seq<Entry>, key: Key, i: nat)
    requires i < |history| && history[i].key == key
    ensures Seen(history, key) >= 1
  {
    SubsetSize({i as int}, set k | 0 <= k < |history| && history[k].key == key);
  }

  lemma {:induction false} LastOfKey(history: seq<Entry>, key: Key, last: nat)
    requires last < |history| && history[last].key == key && forall i :: last < i < |history| ==> history[i].key != key
    ensures var own := Where(history, Of(key)); own != [] && own[|own| - 1] == history[last]
  {
    if last < |history| - 1 {
      LastOfKey(history[..|history| - 1], key, last);
    }
  }

  /** The stored TTL of a key is that of its numbers, and the indicator of a promoted network key names the target of
      its last entry, if that is a safe address, with 70 and five for each success and two for each observation as
      confidence, at most 95. */
  lemma StoredRecommendation(safeIp: string -> bool, th: Thresholds, history: seq<Entry>, key: Key, last: nat)
    requires last < |history| && history[last].key == key && forall i :: last < i < |history| ==> history[i].key != key
    ensures var data := ObserveAll(safeIp, th, map[], history);
            var n, s, target := Seen(history, key), Succeeded(history, key), history[last].target;
            && key in data && data[key].lastSeen == history[last].now
            && data[key].recommendedTtl == RecommendedTtl(key.action, n, s)
            && (data[key].ioc.Some? <==>
                s >= th.promoteAfter && safeIp(target)
                && (key.action.BlockIpTtl? || key.action.RateLimitIp? || key.action.BlockOutboundIp?))
            && (data[key].ioc.Some? ==>
                  var ioc := data[key].ioc.value;
                  && ioc.indicator == target && (ioc.blockOutbound <==> key.action.BlockOutboundIp?)
                  && ioc.confidence == (if 70 + 5 * s + 2 * n < 95 then 70 + 5 * s + 2 * n else 95)
                  && ioc.ttl == data[key].recommendedTtl)
  {
    hide ObserveAll, Observations, Successes, Seen, Succeeded, AllTargets;
    StoreRefinesHistory(safeIp, th, history, key);
    CountsInFull(history, key);
    LastOfKey(history, key, last);
    StagesInNumbers(safeIp, th, history, key);
    var n, s := Seen(history, key), Succeeded(history, key);
    SeenOne(history, key, last);
    TtlsInSeconds(n, s);
    hide Where, RecommendedTtl;
    var data := ObserveAll(safeIp, th, map[], history);
    assert data[key].ioc ==
           if s >= th.promoteAfter then IocFor(safeIp, key.action, history[last].target, data[key].recommendedTtl, n, s) else None;
  }

  lemma {:induction false} TargetsOfHistory(history: seq<Entry>, key: Key)
    ensures forall x :: x in AllTargets(history, key) <==> x != "" && exists e :: e in history && e.key == key && e.target == x
  {
    if history != [] {
      var init, last := history[..|history| - 1], history[|history| - 1];
      TargetsOfHistory(init, key);
      assert history == init + [last];
    }
  }

  /** The stored targets of a key are distinct, at most twenty, each the named target of one of its entries, and with
      fewer than twenty all of them. */
  lemma TargetsInFull(safeIp: string -> bool, th: Thresholds, history: seq<Entry>, key: Key)
    ensures var data := ObserveAll(safeIp, th, map[], history);
            key in data ==>
              var targets := data[key].targets;
              && |targets| <= 20 && Distinct(targets) && "" !in targets
              && (forall x :: x in targets ==> exists e :: e in history && e.key == key && e.target == x)
              && (|targets| < 20 ==> forall e :: e in history && e.key == key && e.target != "" ==> e.target in targets)
  {
    hide ObserveAll, Observations, Successes, StageOf, RecommendedTtl, IocFor, Where, AllTargets;
    StoreRefinesHistory(safeIp, th, history, key);
    TargetsDistinct(history, key);
    TargetsOfHistory(history, key);
    assert forall x :: x in Cut(AllTargets(history, key)) ==> x in AllTargets(history, key);
  }

  /** An action is an entry exactly if it is one of the five tracked ones and succeeded or was planned; it is a success
      exactly if it succeeded and the service stayed healthy. */
  lemma {:induction false} EntriesInFull(i: Incident, actions: seq<Taken>)
    ensures forall e :: e in EntriesOf(i, actions) <==>
                        exists t :: t in actions
                                    && t.action in {BlockIpTtl, RateLimitIp, BlockOutboundIp, QuarantineFile, DisablePersistence}
                                    && t.status in {Success, Planned}
                                    && e == Entry(Key(t.action, i.attackType), t.target, i.serviceOk && t.status == Success, i.now)
  {
    if actions != [] {
      var init, last := actions[..|actions| - 1], actions[|actions| - 1];
      EntriesInFull(i, init);
      assert actions == init + [last];
    }
  }
}
