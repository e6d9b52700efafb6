/** build_evidence_chains and _make_chain: group events by source address, grow one chain each, fall back to
    host-only chains when no event has a source address, and drop duplicates. */
module ChainBuilder {
  import opened Common
  import opened Models
  import opened EvidenceRelation
  import opened EvidenceClosure
  import opened EvidenceBuilder
  import opened Scoring
  import opened SortedText
  import opened Lists
  import opened Grouping

  function SourceOf(e: Event): string {
    e.srcIp
  }

  /** The source addresses in order of first appearance. */
  function SourceOrder(events: seq<Event>): seq<string> {
    FirstKeys(events, SourceOf)
  }

  function From(ip: string): Event -> bool {
    KeyedBy(SourceOf, ip)
  }

  lemma FromMeans(ip: string)
    ensures forall e :: From(ip)(e) <==> e.srcIp == ip
  {
    forall e ensures From(ip)(e) <==> e.srcIp == ip {
      assert SourceOf(e) == e.srcIp;
    }
  }

  lemma SourceOrderFacts(events: seq<Event>)
    ensures Distinct(SourceOrder(events))
    ensures forall ip :: ip in SourceOrder(events) <==> ip != "" && exists e :: e in events && e.srcIp == ip
  {
    FirstKeysAreKeys(events, SourceOf);
    forall ip | ip != "" && exists e :: e in events && e.srcIp == ip ensures ip in SourceOrder(events) {
      var e :| e in events && e.srcIp == ip;
      assert SourceOf(e) == ip;
    }
  }

  predicate Host(e: Event) {
    IsHostEvent(e.eventType)
  }

  predicate Tampering(e: Event) {
    e.eventType.AgentIntegrityChange?
  }

  predicate HighSignal(e: Event) {
    IsHostEvent(e.eventType) && !e.eventType.AgentIntegrityChange?
  }

  function Time(e: Event): real {
    e.timestamp
  }

  // ---- _make_chain ----

  ghost function SrcIpsOf(events: seq<Event>): set<string> {
    set e | e in events && e.srcIp != "" :: e.srcIp
  }

  ghost function DstIpsOf(events: seq<Event>): set<string> {
    (set e | e in events && e.dstIp != "" :: e.dstIp) + (set e | e in events && e.metadata.embeddedIp != "" :: e.metadata.embeddedIp)
  }

  ghost function UsersOf(events: seq<Event>): set<string> {
    set e | e in events && e.user != "" :: e.user
  }

  ghost function FilesOf(events: seq<Event>): set<string> {
    set e, f | e in events && f in EventFiles(e) && f != "" :: f
  }

  /** The entity lists and the score of a chain say what its events say. */
  ghost predicate Describes(c: Chain) {
    && Ascending(c.srcIps) && Elems(c.srcIps) == SrcIpsOf(c.events)
    && Ascending(c.dstIps) && Elems(c.dstIps) == DstIpsOf(c.events)
    && Ascending(c.users) && Elems(c.users) == UsersOf(c.events)
    && Ascending(c.filePaths) && Elems(c.filePaths) == FilesOf(c.events)
    && c.score == Score(c.events)
    && c.confidence == Band(c.score)
    && c.attackType == AttackOf(CounterOf(c.events))
    && (c.score > 0 ==> |c.reasons| > 0)
    && (forall r :: r in c.reasons <==> Explains(c.events, r))
  }

  lemma SrcIpsExtend(events: seq<Event>, e: Event)
    ensures SrcIpsOf(events + [e]) == SrcIpsOf(events) + NonEmpty(e.srcIp)
  {
    assert e in events + [e];
    assert forall x :: x in events + [e] <==> x in events || x == e;
  }

  lemma FilesExtend(events: seq<Event>, e: Event)
    ensures FilesOf(events + [e]) == FilesOf(events) + (set f | f in EventFiles(e) && f != "")
  {
    assert e in events + [e];
    assert forall x :: x in events + [e] <==> x in events || x == e;
  }

  lemma EntitiesExtend(events: seq<Event>, e: Event)
    ensures SrcIpsOf(events + [e]) == SrcIpsOf(events) + NonEmpty(e.srcIp)
    ensures DstIpsOf(events + [e]) == DstIpsOf(events) + NonEmpty(e.dstIp) + NonEmpty(e.metadata.embeddedIp)
    ensures UsersOf(events + [e]) == UsersOf(events) + NonEmpty(e.user)
    ensures FilesOf(events + [e]) == FilesOf(events) + (set f | f in EventFiles(e) && f != "")
  {
    SrcIpsExtend(events, e);
    assert e in events + [e];
    assert forall x :: x in events + [e] <==> x in events || x == e;
    FilesExtend(events, e);
  }

  ghost predicate Gathered(events: seq<Event>, src: set<string>, dst: set<string>, users: set<string>, files: set<string>) {
    src == SrcIpsOf(events) && dst == DstIpsOf(events) && users == UsersOf(events) && files == FilesOf(events)
  }

  lemma GatheredExtends(events: seq<Event>, src: set<string>, dst: set<string>, users: set<string>, files: set<string>, e: Event)
    requires Gathered(events, src, dst, users, files)
    ensures Gathered(events + [e], src + NonEmpty(e.srcIp), dst + NonEmpty(e.dstIp) + NonEmpty(e.metadata.embeddedIp),
                     users + NonEmpty(e.user), files + set f | f in EventFiles(e) && f != "")
  {
    EntitiesExtend(events, e);
  }

  /** The entity sets of a list of events, gathered event by event. */
  method GatherEntities(events: seq<Event>) returns (src: set<string>, dst: set<string>, users: set<string>, files: set<string>)
    ensures Gathered(events, src, dst, users, files)
  {
    src, dst, users, files := {}, {}, {}, {};
    for i := 0 to |events|
      invariant Gathered(events[..i], src, dst, users, files)
    {
      hide Gathered, EventFiles;
      var e := events[i];
      assert events[..i + 1] == events[..i] + [e];
      GatheredExtends(events[..i], src, dst, users, files, e);
      ghost var src0, dst0, users0 := src, dst, users;
      if e.srcIp != "" { src := src + {e.srcIp}; }
      if e.dstIp != "" { dst := dst + {e.dstIp}; }
      if e.metadata.embeddedIp != "" { dst := dst + {e.metadata.embeddedIp}; }
      if e.user != "" { users := users + {e.user}; }
      assert src == src0 + NonEmpty(e.srcIp) && users == users0 + NonEmpty(e.user);
      assert dst == dst0 + NonEmpty(e.dstIp) + NonEmpty(e.metadata.embeddedIp);
      var fs := CollectFiles(e);
      files := files + (set f | f in fs && f != "");
    }
    assert events[..|events|] == events;
  }

  method MakeChain(events: seq<Event>) returns (chain: Chain)
    ensures chain.events == events && Describes(chain)
  {
    var src, dst, users, files := GatherEntities(events);
    var srcIps := Sorted(src);
    var dstIps := Sorted(dst);
    var userNames := Sorted(users);
    var filePaths := Sorted(files);
    chain := ScoreChain(Chain(events, srcIps, dstIps, userNames, filePaths, 0, Low, UnknownAttack, []));
  }

  // ---- build_evidence_chains ----

  /** c holds, once each, the events that the closure gathers for `ip`. */
  ghost predicate Covers(events: set<Event>, ip: string, c: Chain) {
    && Distinct(c.events)
    && IsClosure(ip, Anchors(events, ip), Candidates(events), Elems(c.events))
    && c.srcIps == [ip]
  }

  ghost predicate IsChainFor(events: set<Event>, ip: string, c: Chain) {
    Covers(events, ip, c) && SortedBy(c.events, Time) && Describes(c)
  }

  method GroupBySource(events: seq<Event>)
    returns (order: seq<string>, byIp: map<string, seq<Event>>, context: seq<Event>)
    ensures Grouped(events, SourceOf, order, byIp)
    ensures context == Where(events, From(""))
  {
    order, byIp, context := [], map[], [];
    for i := 0 to |events|
      invariant Grouped(events[..i], SourceOf, order, byIp)
      invariant context == Where(events[..i], From(""))
    {
      hide Grouped, Where;
      var e := events[i];
      assert events[..i + 1] == events[..i] + [e];
      WhereExtends(events[..i], e, From(""));
      if e.srcIp != "" {
        order, byIp := AddToGroup(events[..i], SourceOf, order, byIp, e);
      } else {
        GroupNone(events[..i], SourceOf, order, byIp, e);
        context := context + [e];
      }
    }
    assert events[..|events|] == events;
  }

  function HostContext(events: seq<Event>): seq<Event> {
    Where(Where(events, From("")), Host)
  }

  /** The two lists the worklist starts from are the anchors and the candidates. */
  lemma StartingLists(events: seq<Event>, ip: string)
    requires Distinct(events) && ip in SourceOrder(events)
    ensures Elems(Where(events, From(ip))) == Anchors(Elems(events), ip)
    ensures Elems(HostContext(events)) == Candidates(Elems(events))
    ensures Distinct(Where(events, From(ip))) && Distinct(HostContext(events))
    ensures Where(events, From(ip)) != [] && forall e :: e in Where(events, From(ip)) ==> e.srcIp == ip && e !in HostContext(events)
  {
    SourceOrderFacts(events);
    FromMeans(ip);
    FromMeans("");
    hide From, Where, Distinct, IsHostEvent, SourceOrder;
    WhereMembers(events, From(ip));
    WhereMembers(events, From(""));
    WhereMembers(Where(events, From("")), Host);
    var anchor :| anchor in events && anchor.srcIp == ip;
    assert anchor in Where(events, From(ip));
  }

  lemma SourceList(chain: Chain, ip: string)
    requires Describes(chain) && SrcIpsOf(chain.events) == {ip}
    ensures chain.srcIps == [ip]
  {
    AscendingSingleton(chain.srcIps, ip);
  }

  lemma OneSource(events: set<Event>, ip: string, chain: seq<Event>, anchor: Event)
    requires ip != "" && anchor in Anchors(events, ip)
    requires IsClosure(ip, Anchors(events, ip), Candidates(events), Elems(chain))
    ensures SrcIpsOf(chain) == {ip}
  {
    assert anchor in Elems(chain);
    assert forall e :: e in chain ==> e in Elems(chain);
  }

  /** The chain of one source address. */
  method ChainFor(events: seq<Event>, ip: string, ipEvents: seq<Event>, candidates: seq<Event>) returns (chain: Chain)
    requires Distinct(events) && ip in SourceOrder(events)
    requires ipEvents == Where(events, From(ip)) && candidates == HostContext(events)
    ensures IsChainFor(Elems(events), ip, chain)
  {
    hide Describes;
    SourceOrderFacts(events);
    StartingLists(events, ip);
    var included, relation, _, _ := GrowChain(ip, ipEvents, candidates);
    SortFacts(included, Time);
    chain := MakeChain(SortBy(included, Time));
    OneSource(Elems(events), ip, chain.events, ipEvents[0]);
    SourceList(chain, ip);
  }

  function Key(c: Chain): seq<string> {
    EventIds(c.events)
  }

  ghost predicate DistinctKeys(chains: seq<Chain>) {
    forall i, j :: 0 <= i < j < |chains| ==> Key(chains[i]) != Key(chains[j])
  }

  /** Chains over the same event ids are reported once; chains whose ids differ are all kept. */
  method Deduplicate(chains: seq<Chain>) returns (unique: seq<Chain>)
    ensures DistinctKeys(unique)
    ensures (set c | c in unique :: Key(c)) == (set c | c in chains :: Key(c))
    ensures DistinctKeys(chains) ==> unique == chains
  {
    unique := [];
    var seen: set<seq<string>> := {};
    for i := 0 to |chains|
      invariant seen == (set c | c in unique :: Key(c)) == (set c | c in chains[..i] :: Key(c))
      invariant DistinctKeys(unique)
      invariant DistinctKeys(chains) ==> unique == chains[..i]
    {
      assert chains[..i + 1] == chains[..i] + [chains[i]];
      if Key(chains[i]) !in seen {
        unique := unique + [chains[i]];
        seen := seen + {Key(chains[i])};
      } else {
        var c :| c in chains[..i] && Key(c) == Key(chains[i]);
        var j :| 0 <= j < i && chains[j] == c;
        assert Key(chains[j]) == Key(chains[i]);
      }
    }
    assert chains[..|chains|] == chains;
  }

  lemma SameIdSameEvent(events: seq<Event>, a: Event, b: Event)
    requires DistinctIds(events) && a in events && b in events && a.eventId == b.eventId
    ensures a == b
  {
    var i :| 0 <= i < |events| && events[i] == a;
    var j :| 0 <= j < |events| && events[j] == b;
  }

  /** The anchor of one address tells its chain apart from every other. */
  lemma ChainKeysDiffer(events: seq<Event>, ip1: string, c1: Chain, ip2: string, c2: Chain)
    requires DistinctIds(events) && ip1 != ip2 && ip1 in SourceOrder(events)
    requires Covers(Elems(events), ip1, c1) && Covers(Elems(events), ip2, c2)
    ensures Key(c1) != Key(c2)
  {
    hide Describes, Closed;
    SourceOrderFacts(events);
    var anchor :| anchor in events && anchor.srcIp == ip1;
    AnchorsStayHome(Elems(events), ip1, Elems(c1.events), anchor);
    assert anchor in Elems(c1.events);
    var i :| 0 <= i < |c1.events| && c1.events[i] == anchor;
    if Key(c1) == Key(c2) {
      assert Key(c1)[i] == Key(c2)[i];
      var other := c2.events[i];
      assert other in Elems(c2.events);
      SameIdSameEvent(events, anchor, other);
      AnchorsStayHome(Elems(events), ip2, Elems(c2.events), anchor);
    }
  }

  function TamperEvents(events: seq<Event>): seq<Event> {
    Where(Where(events, From("")), Tampering)
  }

  function HighSignalEvents(events: seq<Event>): seq<Event> {
    Where(Where(events, From("")), HighSignal)
  }

  /** Without any source address: tampering evidence and the other host events, apart, each if there is any. */
  ghost predicate HostOnly(events: seq<Event>, chains: seq<Chain>) {
    var tamper, high := TamperEvents(events), HighSignalEvents(events);
    && |chains| == (if tamper == [] then 0 else 1) + (if high == [] then 0 else 1)
    && (forall c :: c in chains ==> Describes(c))
    && (tamper != [] ==> chains[0].events == SortBy(tamper, Time))
    && (high != [] ==> chains[|chains| - 1].events == SortBy(high, Time))
  }

  lemma TamperApart(events: seq<Event>, c1: Chain, c2: Chain)
    requires DistinctIds(events) && TamperEvents(events) != []
    requires c1.events == SortBy(TamperEvents(events), Time) && c2.events == SortBy(HighSignalEvents(events), Time)
    ensures Key(c1) != Key(c2)
  {
    var context := Where(events, From(""));
    SortFacts(TamperEvents(events), Time);
    SortFacts(HighSignalEvents(events), Time);
    if Key(c1) == Key(c2) {
      assert |Key(c1)| == |c1.events| && |Key(c2)| == |c2.events|;
      assert Key(c1)[0] == Key(c2)[0];
      var a, b := c1.events[0], c2.events[0];
      assert a in Elems(c1.events) && b in Elems(c2.events);
      WhereKeeps(context, Tampering, a);
      WhereKeeps(context, HighSignal, b);
      WhereKeeps(events, From(""), a);
      WhereKeeps(events, From(""), b);
      SameIdSameEvent(events, a, b);
    }
  }

  lemma HostChainsApart(events: seq<Event>, tamper: seq<Event>, high: seq<Event>, all: seq<Chain>)
    requires DistinctIds(events) && tamper == TamperEvents(events) && high == HighSignalEvents(events)
    requires |all| == (if tamper == [] then 0 else 1) + (if high == [] then 0 else 1)
    requires tamper != [] ==> Describes(all[0]) && all[0].events == SortBy(tamper, Time)
    requires high != [] ==> Describes(all[|all| - 1]) && all[|all| - 1].events == SortBy(high, Time)
    ensures HostOnly(events, all) && DistinctKeys(all)
  {
    hide Describes, Key, Time, TamperEvents, HighSignalEvents, DistinctIds;
    if tamper != [] && high != [] {
      TamperApart(events, all[0], all[1]);
    }
  }

  method HostOnlyChains(events: seq<Event>, context: seq<Event>) returns (all: seq<Chain>)
    requires DistinctIds(events) && context == Where(events, From(""))
    ensures HostOnly(events, all) && DistinctKeys(all)
  {
    hide Describes, HostOnly, DistinctKeys, DistinctIds;
    var tamper, high := Where(context, Tampering), Where(context, HighSignal);
    all := [];
    if tamper != [] {
      var chain := MakeChain(SortBy(tamper, Time));
      all := all + [chain];
    }
    if high != [] {
      var chain := MakeChain(SortBy(high, Time));
      all := all + [chain];
    }
    HostChainsApart(events, tamper, high, all);
  }

  /** One chain for every source address of the events, in order of first appearance, and no other. */
  ghost predicate OneChainEach(events: seq<Event>, chains: seq<Chain>) {
    && |chains| == |SourceOrder(events)|
    && forall i :: 0 <= i < |chains| ==> IsChainFor(Elems(events), SourceOrder(events)[i], chains[i])
  }

  lemma SourcesApart(events: seq<Event>, all: seq<Chain>)
    requires DistinctIds(events) && OneChainEach(events, all)
    ensures DistinctKeys(all)
  {
    hide Describes, IsClosure;
    var order := SourceOrder(events);
    SourceOrderFacts(events);
    forall i, j | 0 <= i < j < |all| ensures Key(all[i]) != Key(all[j]) {
      ChainKeysDiffer(events, order[i], all[i], order[j], all[j]);
    }
  }

  lemma GroupsOfSources(events: seq<Event>, order: seq<string>, byIp: map<string, seq<Event>>)
    requires DistinctIds(events) && Grouped(events, SourceOf, order, byIp)
    ensures Distinct(events) && order == SourceOrder(events)
    ensures forall i :: 0 <= i < |order| ==> order[i] in SourceOrder(events) && order[i] in byIp && byIp[order[i]] == Where(events, From(order[i]))
  {
    assert forall i :: 0 <= i < |order| ==> order[i] in Elems(order);
  }

  /** build_evidence_chains. */
  method BuildEvidenceChains(events: seq<Event>) returns (chains: seq<Chain>)
    requires DistinctIds(events)
    ensures SourceOrder(events) != [] ==> OneChainEach(events, chains)
    ensures SourceOrder(events) == [] ==> HostOnly(events, chains)
  {
    hide IsChainFor, HostOnly, Grouped, DistinctKeys, DistinctIds, Distinct, SourceOrder, From;
    var order, byIp, context := GroupBySource(events);
    GroupsOfSources(events, order, byIp);
    var all: seq<Chain> := [];
    for i := 0 to |order|
      invariant |all| == i && forall j :: 0 <= j < i ==> IsChainFor(Elems(events), order[j], all[j])
    {
      var candidates := Where(context, Host);
      var chain := ChainFor(events, order[i], byIp[order[i]], candidates);
      all := all + [chain];
    }
    SourcesApart(events, all);
    if all == [] {
      all := HostOnlyChains(events, context);
    }
    chains := Deduplicate(all);
  }

  // ---- The definitions in literals ----

  /** An attached event is linked by the rest of the closure, and what the rest links is attached. */
  lemma MemberIsLinked(ip: string, anchors: set<Event>, candidates: set<Event>, s: set<Event>, e: Event)
    requires IsClosure(ip, anchors, candidates, s) && e !in anchors && e in candidates
    ensures e in s <==> Linked(ip, anchors, s - {e}, e)
  {
    var rest := s - {e};
    if Linked(ip, anchors, rest, e) {
      LinkedMonotone(ip, anchors, rest, anchors, s, e);
    } else if e in s {
      forall f | f in candidates && Linked(ip, anchors, rest, f) ensures f in rest {
        LinkedMonotone(ip, anchors, rest, anchors, s, f);
      }
      assert Closed(ip, anchors, candidates, rest);
    }
  }

  /** A reported chain in terms of its one source address. */
  lemma ChainOfSource(events: seq<Event>, chains: seq<Chain>, i: nat)
    requires OneChainEach(events, chains) && i < |chains|
    ensures var c := chains[i]; |c.srcIps| == 1 && c.srcIps[0] != "" && Covers(Elems(events), c.srcIps[0], c)
  {
    hide IsClosure, Describes;
    SourceOrderFacts(events);
    assert SourceOrder(events)[i] in SourceOrder(events);
  }

  lemma HostMember(events: seq<Event>, chains: seq<Chain>, i: nat, e: Event)
    requires OneChainEach(events, chains) && i < |chains| && e.srcIp == ""
    ensures var c := chains[i];
            && |c.srcIps| == 1
            && (e in c.events <==>
                  e in events && IsHostEvent(e.eventType)
                  && Linked(c.srcIps[0], Anchors(Elems(events), c.srcIps[0]), Elems(c.events) - {e}, e))
  {
    hide Linked, Describes;
    var c := chains[i];
    ChainOfSource(events, chains, i);
    var ip := c.srcIps[0];
    assert e in c.events <==> e in Elems(c.events);
    if e in Candidates(Elems(events)) {
      MemberIsLinked(ip, Anchors(Elems(events), ip), Candidates(Elems(events)), Elems(c.events), e);
    } else {
      assert e in Elems(c.events) ==> e in Anchors(Elems(events), ip) + Candidates(Elems(events));
    }
  }

  lemma SudoLinked(ip: string, events: seq<Event>, chain: seq<Event>, e: Event)
    requires e.eventType.SudoExecution?
    ensures IsHostEvent(e.eventType)
    ensures Linked(ip, Anchors(Elems(events), ip), Elems(chain) - {e}, e) <==>
            && e.user != ""
            && (exists x :: x in chain && x != e && x.user == e.user)
            && (exists s :: s in events && s.srcIp == ip && s.eventType.SshSuccessLogin?
                            && -900.0 <= e.timestamp - s.timestamp <= 900.0)
  {
    var others, anchors := Elems(chain) - {e}, Anchors(Elems(events), ip);
    assert forall x :: x in chain && x != e <==> x in others;
    assert forall s :: s in anchors <==> s in events && s.srcIp == ip;
  }

  /** A sudo event without source address is in the chain of an address exactly if it was collected, names a user
      that another event of the chain carries, and lies within 900 seconds of a successful login from the address. */
  lemma SudoInChain(events: seq<Event>, chains: seq<Chain>, i: nat, e: Event)
    requires OneChainEach(events, chains) && i < |chains| && e.srcIp == "" && e.eventType.SudoExecution?
    ensures var c := chains[i];
            && |c.srcIps| == 1
            && (e in c.events <==>
                  && e in events && e.user != ""
                  && (exists x :: x in c.events && x != e && x.user == e.user)
                  && (exists s :: s in events && s.srcIp == c.srcIps[0] && s.eventType.SshSuccessLogin?
                                  && -900.0 <= e.timestamp - s.timestamp <= 900.0))
  {
    hide OneChainEach, Linked, Anchors, IsHostEvent, Elems;
    var c := chains[i];
    HostMember(events, chains, i, e);
    SudoLinked(c.srcIps[0], events, c.events, e);
  }

  lemma AppErrorLinked(ip: string, events: seq<Event>, attached: set<Event>, e: Event)
    requires e.eventType.AppError?
    ensures IsHostEvent(e.eventType)
    ensures Linked(ip, Anchors(Elems(events), ip), attached, e) <==>
            exists w :: w in events && w.srcIp == ip && w.eventType.WebAttackPattern? && -600.0 <= e.timestamp - w.timestamp <= 600.0
  {
    assert forall w :: w in Anchors(Elems(events), ip) <==> w in events && w.srcIp == ip;
  }

  /** An application error without source address is in the chain of an address exactly if it was collected and
      lies within 600 seconds of a web attack from the address. */
  lemma AppErrorInChain(events: seq<Event>, chains: seq<Chain>, i: nat, e: Event)
    requires OneChainEach(events, chains) && i < |chains| && e.srcIp == "" && e.eventType.AppError?
    ensures var c := chains[i];
            && |c.srcIps| == 1
            && (e in c.events <==>
                  && e in events
                  && exists w :: w in events && w.srcIp == c.srcIps[0] && w.eventType.WebAttackPattern?
                                 && -600.0 <= e.timestamp - w.timestamp <= 600.0)
  {
    hide OneChainEach, Linked, Anchors, IsHostEvent, Elems;
    var c := chains[i];
    HostMember(events, chains, i, e);
    AppErrorLinked(c.srcIps[0], events, Elems(c.events) - {e}, e);
  }

  /** The host events that are attached by what they share. */
  predicate Attachable(t: EventType) {
    || t.SuspiciousProcess? || t.ExternalNetworkConnection? || t.NetworkConnection? || t.SuspiciousFile?
    || t.PersistenceModified? || t.AgentIntegrityChange? || t.SignatureMatch?
    || t.DroneMavlinkAccess? || t.DroneUnauthorizedGcs? || t.DroneCommandAttempt? || t.DroneMissionOrParamChange?
    || t.DroneHeartbeatSpoofing? || t.DroneMavlinkFlood? || t.DroneRos2DdsDiscovery? || t.DroneRos2DdsAccess?
    || t.DroneRos2DdsFlood?
  }

  /** Any other event without source address is in the chain of an address exactly if it was collected, is of an
      attachable type, and is related to another event of the chain. */
  lemma ArtifactInChain(events: seq<Event>, chains: seq<Chain>, i: nat, e: Event)
    requires OneChainEach(events, chains) && i < |chains| && e.srcIp == ""
    requires !e.eventType.SudoExecution? && !e.eventType.AppError?
    ensures var c := chains[i];
            && |c.srcIps| == 1
            && (e in c.events <==>
                  e in events && Attachable(e.eventType) && exists x :: x in c.events && x != e && Related(c.srcIps[0], e, x))
  {
    hide SharesArtifactWith, Related, OneChainEach;
    var c := chains[i];
    HostMember(events, chains, i, e);
    var ip, others := c.srcIps[0], Elems(c.events) - {e};
    if x :| x in c.events && x != e && Related(ip, e, x) {
      SharesMeansRelated(ip, e, x);
      assert x in others;
    }
    if x :| x in others && SharesArtifactWith(ip, e, x) {
      SharesMeansRelated(ip, e, x);
      assert x in c.events && x != e;
    }
  }

  /** An event with a source address is in the chain of that address. */
  lemma SourcedInChain(events: seq<Event>, chains: seq<Chain>, i: nat, e: Event)
    requires OneChainEach(events, chains) && i < |chains| && e.srcIp != ""
    ensures var c := chains[i];
            && |c.srcIps| == 1
            && (e in c.events <==> e in events && e.srcIp == c.srcIps[0])
  {
    hide Linked, Describes;
    var c := chains[i];
    ChainOfSource(events, chains, i);
    assert e in c.events <==> e in Elems(c.events);
  }

  lemma SortedMembers(s: seq<Event>)
    ensures forall e :: e in SortBy(s, Time) <==> e in s
  {
    SortFacts(s, Time);
    assert forall e :: e in SortBy(s, Time) <==> e in Elems(SortBy(s, Time));
    assert forall e :: e in s <==> e in Elems(s);
  }

  lemma HostChains(events: seq<Event>, chains: seq<Chain>)
    requires HostOnly(events, chains)
    ensures |chains| <= 2
    ensures forall c :: c in chains ==>
              (forall e :: e in c.events <==> e in TamperEvents(events)) || (forall e :: e in c.events <==> e in HighSignalEvents(events))
  {
    hide Describes, TamperEvents, HighSignalEvents, SortBy;
    var tamper, high := TamperEvents(events), HighSignalEvents(events);
    SortedMembers(tamper);
    SortedMembers(high);
    assert forall c :: c in chains ==> c.events == SortBy(tamper, Time) || c.events == SortBy(high, Time);
  }

  lemma ReportedHost(events: seq<Event>, chains: seq<Chain>, e: Event)
    requires HostOnly(events, chains) && (e in TamperEvents(events) || e in HighSignalEvents(events))
    ensures exists c :: c in chains && e in c.events
  {
    hide Describes;
    var tamper, high := TamperEvents(events), HighSignalEvents(events);
    if e in tamper {
      SortFacts(tamper, Time);
      assert e in Elems(tamper) && chains[0] in chains && e in chains[0].events;
    } else {
      SortFacts(high, Time);
      assert e in Elems(high) && chains[|chains| - 1] in chains && e in chains[|chains| - 1].events;
    }
  }

  lemma HostListMembers(events: seq<Event>)
    ensures forall e :: e in TamperEvents(events) <==> e in events && e.srcIp == "" && e.eventType.AgentIntegrityChange?
    ensures forall e :: e in HighSignalEvents(events) <==>
                        e in events && e.srcIp == ""
                        && (e.eventType.SudoExecution? || e.eventType.AppError?
                            || (Attachable(e.eventType) && !e.eventType.AgentIntegrityChange?))
  {
    FromMeans("");
    WhereMembers(events, From(""));
    WhereMembers(Where(events, From("")), Tampering);
    WhereMembers(Where(events, From("")), HighSignal);
    hide Where, From;
  }

  /** Without any source address: tampering events make one chain and all other host events another. */
  lemma HostOnlyMembers(events: seq<Event>, chains: seq<Chain>)
    requires HostOnly(events, chains)
    ensures forall e :: (exists c :: c in chains && e in c.events) <==>
                        e in events && e.srcIp == ""
                        && (e.eventType.SudoExecution? || e.eventType.AppError? || Attachable(e.eventType))
    ensures forall c, e, f :: c in chains && e in c.events && f in c.events ==>
                                (e.eventType.AgentIntegrityChange? <==> f.eventType.AgentIntegrityChange?)
    ensures |chains| <= 2
  {
    hide HostOnly, TamperEvents, HighSignalEvents;
    HostListMembers(events);
    var tamper, high := TamperEvents(events), HighSignalEvents(events);
    HostChains(events, chains);
    forall e | e in tamper || e in high ensures exists c :: c in chains && e in c.events {
      ReportedHost(events, chains, e);
    }
  }
}
