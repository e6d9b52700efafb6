/** src/aegis_agent/core/security_growth.py: remembered hostile addresses and their one fixed bonus. */
module SecurityGrowth {
  import opened Common
  import opened Lists
  import opened Models
  import opened Effects

  datatype Learned = Learned(firstSeen: int, lastSeen: int, lastScore: int, lastAttackType: string, count: nat)

  type Memory = map<string, Learned>

  const CERTAIN_SCORE := 75

  predicate Acted(t: Taken) {
    IsNetwork(t.action) && (t.status.Success? || t.status.Planned?)
  }

  // ---- Reference: what an incident teaches about an address ----

  /** The incident scored enough, and either acted on the address or scored enough to learn without acting. */
  predicate Teaches(minScore: int, i: Incident, ip: string) {
    && i.score >= minScore && ip != ""
    && ((exists t :: t in i.actions && Acted(t) && t.target == ip) || i.score >= CERTAIN_SCORE)
  }

  function TeachesSource(minScore: int, ip: string): Incident -> bool {
    (i: Incident) => ip in i.srcIps && Teaches(minScore, i, ip)
  }

  function TeachesDestination(minScore: int, ip: string): Incident -> bool {
    (i: Incident) => ip in i.dstIps && Teaches(minScore, i, ip)
  }

  // ---- The code ----

  function Noted(memory: Memory, ip: string, i: Incident): Memory {
    var old_ := if ip in memory then memory[ip] else Learned(i.now, i.now, i.score, i.attackType, 0);
    memory[ip := Learned(old_.firstSeen, i.now, i.score, i.attackType, old_.count + 1)]
  }

  /** The memory after the address list of one incident, with the set of acted targets already computed. */
  function NoteAll(memory: Memory, ips: seq<string>, acted: set<string>, i: Incident): Memory {
    if ips == [] then memory
    else
      var rest, ip := NoteAll(memory, ips[..|ips| - 1], acted, i), ips[|ips| - 1];
      if ip == "" || (ip !in acted && i.score < CERTAIN_SCORE) then rest else Noted(rest, ip, i)
  }

  ghost function ActedTargets(actions: seq<Taken>): set<string> {
    set t | t in actions && Acted(t) :: t.target
  }

  ghost function AfterSources(minScore: int, memory: Memory, i: Incident): Memory {
    if i.score < minScore then memory else NoteAll(memory, i.srcIps, ActedTargets(i.actions), i)
  }

  ghost function AfterDestinations(minScore: int, memory: Memory, i: Incident): Memory {
    if i.score < minScore then memory else NoteAll(memory, i.dstIps, ActedTargets(i.actions), i)
  }

  class SecurityGrowthMemory {
    const bonus: int
    const minScore: int
    var ips: Memory
    var dstIps: Memory

    constructor (bonus: int, minScore: int)
      ensures this.bonus == bonus && this.minScore == minScore && ips == map[] && dstIps == map[]
    {
      this.bonus, this.minScore := bonus, minScore;
      ips, dstIps := map[], map[];
    }

    /** observe_chain: one bonus for any number of known addresses, however often each was learned. */
    method ObserveChain(srcIps: seq<string>, destinations: seq<string>) returns (scoreBonus: int, matched: set<string>)
      ensures matched == (set ip | ip in srcIps && ip in ips) + (set ip | ip in destinations && ip in dstIps)
      ensures scoreBonus == if matched != {} then bonus else 0
    {
      matched := {};
      for k := 0 to |srcIps|
        invariant matched == set ip | ip in srcIps[..k] && ip in ips
      {
        assert srcIps[..k + 1] == srcIps[..k] + [srcIps[k]];
        if srcIps[k] in ips { matched := matched + {srcIps[k]}; }
      }
      assert srcIps[..|srcIps|] == srcIps;
      var known := matched;
      for k := 0 to |destinations|
        invariant matched == known + set ip | ip in destinations[..k] && ip in dstIps
      {
        assert destinations[..k + 1] == destinations[..k] + [destinations[k]];
        if destinations[k] in dstIps { matched := matched + {destinations[k]}; }
      }
      assert destinations[..|destinations|] == destinations;
      scoreBonus := if matched != {} then bonus else 0;
    }

    /** learn_from_incident. */
    method LearnFromIncident(i: Incident) returns (learned: set<string>)
      modifies this`ips, this`dstIps
      ensures learned == (set ip | ip in i.srcIps && Teaches(minScore, i, ip)) + (set ip | ip in i.dstIps && Teaches(minScore, i, ip))
      ensures ips == AfterSources(minScore, old(ips), i)
      ensures dstIps == AfterDestinations(minScore, old(dstIps), i)
    {
      learned := {};
      if i.score < minScore {
        return;
      }
      var acted: set<string> := {};
      for k := 0 to |i.actions|
        invariant acted == ActedTargets(i.actions[..k])
      {
        assert i.actions[..k + 1] == i.actions[..k] + [i.actions[k]];
        if Acted(i.actions[k]) { acted := acted + {i.actions[k].target}; }
      }
      assert i.actions[..|i.actions|] == i.actions;
      var sources, destinations;
      ips, sources := LearnAll(ips, i.srcIps, acted, i);
      dstIps, destinations := LearnAll(dstIps, i.dstIps, acted, i);
      learned := sources + destinations;
    }

    /** One of the two loops over an entity list. */
    method LearnAll(memory: Memory, entities: seq<string>, acted: set<string>, i: Incident) returns (out: Memory, learned: set<string>)
      ensures out == NoteAll(memory, entities, acted, i)
      ensures learned == set ip | ip in entities && ip != "" && (ip in acted || i.score >= CERTAIN_SCORE)
    {
      out, learned := memory, {};
      for k := 0 to |entities|
        invariant out == NoteAll(memory, entities[..k], acted, i)
        invariant learned == set ip | ip in entities[..k] && ip != "" && (ip in acted || i.score >= CERTAIN_SCORE)
      {
        assert entities[..k + 1][..k] == entities[..k];
        assert entities[..k + 1] == entities[..k] + [entities[k]];
        if entities[k] != "" && (entities[k] in acted || i.score >= CERTAIN_SCORE) {
          out := Noted(out, entities[k], i);
          learned := learned + {entities[k]};
        }
      }
      assert entities[..|entities|] == entities;
    }
  }

  // ---- The memory equals its history ----

  function Stored(memory: Memory, ip: string): Option<Learned> {
    if ip in memory then Some(memory[ip]) else None
  }

  /** What is stored about an address that these incidents taught, one after the other: the time of the first, the
      time, score and attack of the last, and their number. */
  function Lesson(taught: seq<Incident>): Option<Learned> {
    if taught == [] then None
    else
      var last := taught[|taught| - 1];
      Some(Learned(taught[0].now, last.now, last.score, last.attackType, |taught|))
  }

  /** The same after one more incident. */
  function Taught(before: Option<Learned>, i: Incident): Learned {
    match before
    case None => Learned(i.now, i.now, i.score, i.attackType, 1)
    case Some(l) => Learned(l.firstSeen, i.now, i.score, i.attackType, l.count + 1)
  }

  lemma NotedTeaches(memory: Memory, noted: string, i: Incident, ip: string)
    ensures Stored(Noted(memory, noted, i), ip) == if ip == noted then Some(Taught(Stored(memory, ip), i)) else Stored(memory, ip)
  {
  }

  lemma {:induction false} NoteAllTeaches(memory: Memory, ips: seq<string>, acted: set<string>, i: Incident, ip: string)
    requires Distinct(ips)
    ensures Stored(NoteAll(memory, ips, acted, i), ip) ==
            if ip in ips && ip != "" && (ip in acted || i.score >= CERTAIN_SCORE) then Some(Taught(Stored(memory, ip), i))
            else Stored(memory, ip)
  {
    hide Noted, Stored, Taught;
    if ips != [] {
      var init, last := ips[..|ips| - 1], ips[|ips| - 1];
      NoteAllTeaches(memory, init, acted, i, ip);
      NotedTeaches(NoteAll(memory, init, acted, i), last, i, ip);
      assert ips == init + [last];
      assert forall k :: 0 <= k < |init| ==> ips[k] != last;
    }
  }

  lemma LessonExtends(taught: seq<Incident>, i: Incident)
    ensures Lesson(taught + [i]) == Some(Taught(Lesson(taught), i))
  {
  }

  ghost function SourceMemory(minScore: int, history: seq<Incident>): Memory {
    if history == [] then map[] else AfterSources(minScore, SourceMemory(minScore, history[..|history| - 1]), history[|history| - 1])
  }

  ghost function DestinationMemory(minScore: int, history: seq<Incident>): Memory {
    if history == [] then map[] else AfterDestinations(minScore, DestinationMemory(minScore, history[..|history| - 1]), history[|history| - 1])
  }

  /** The entity lists of a chain name each address once. */
  ghost predicate DistinctEntities(history: seq<Incident>) {
    forall i :: i in history ==> Distinct(i.srcIps) && Distinct(i.dstIps)
  }

  /** A source address is known exactly when some past incident teaches it, and what is stored about it is what those
      incidents taught: first and last time, last score and attack, and their number. */
  lemma {:induction false} SourcesEqualHistory(minScore: int, history: seq<Incident>, ip: string)
    requires DistinctEntities(history)
    ensures Stored(SourceMemory(minScore, history), ip) == Lesson(Where(history, TeachesSource(minScore, ip)))
    ensures ip in SourceMemory(minScore, history) <==> exists i :: i in history && ip in i.srcIps && Teaches(minScore, i, ip)
  {
    hide Taught, NoteAll;
    if history != [] {
      var init, last := history[..|history| - 1], history[|history| - 1];
      assert history == init + [last];
      SourcesEqualHistory(minScore, init, ip);
      NoteAllTeaches(SourceMemory(minScore, init), last.srcIps, ActedTargets(last.actions), last, ip);
      LessonExtends(Where(init, TeachesSource(minScore, ip)), last);
      assert ip in ActedTargets(last.actions) <==> exists t :: t in last.actions && Acted(t) && t.target == ip;
    }
  }

  /** The same for destination addresses. */
  lemma {:induction false} DestinationsEqualHistory(minScore: int, history: seq<Incident>, ip: string)
    requires DistinctEntities(history)
    ensures Stored(DestinationMemory(minScore, history), ip) == Lesson(Where(history, TeachesDestination(minScore, ip)))
    ensures ip in DestinationMemory(minScore, history) <==> exists i :: i in history && ip in i.dstIps && Teaches(minScore, i, ip)
  {
    hide Taught, NoteAll;
    if history != [] {
      var init, last := history[..|history| - 1], history[|history| - 1];
      assert history == init + [last];
      DestinationsEqualHistory(minScore, init, ip);
      NoteAllTeaches(DestinationMemory(minScore, init), last.dstIps, ActedTargets(last.actions), last, ip);
      LessonExtends(Where(init, TeachesDestination(minScore, ip)), last);
      assert ip in ActedTargets(last.actions) <==> exists t :: t in last.actions && Acted(t) && t.target == ip;
    }
  }

  // ---- The definitions in literals ----

  /** The incident acted on the address over the network, or planned to. */
  predicate ActedOn(i: Incident, ip: string) {
    exists t :: t in i.actions && t.target == ip && t.action in {BlockIpTtl, RateLimitIp, BlockOutboundIp} && t.status in {Success, Planned}
  }

  lemma TeachesInFull(minScore: int, ip: string)
    ensures forall i :: Teaches(minScore, i, ip) <==>
                        ip != "" && i.score >= minScore && (ActedOn(i, ip) || i.score >= 75)
  {
  }

  /** A source address is known exactly if some past incident reached the learning minimum, contained it, and acted on it
      or scored 75 or more; the same for destinations. */
  lemma KnownInFull(minScore: int, history: seq<Incident>, ip: string)
    requires DistinctEntities(history)
    ensures ip in SourceMemory(minScore, history) <==>
            ip != "" && exists i :: i in history && ip in i.srcIps && i.score >= minScore && (ActedOn(i, ip) || i.score >= 75)
    ensures ip in DestinationMemory(minScore, history) <==>
            ip != "" && exists i :: i in history && ip in i.dstIps && i.score >= minScore && (ActedOn(i, ip) || i.score >= 75)
  {
    SourcesEqualHistory(minScore, history, ip);
    DestinationsEqualHistory(minScore, history, ip);
    TeachesInFull(minScore, ip);
    hide Teaches, ActedOn, SourceMemory, DestinationMemory;
  }
}
