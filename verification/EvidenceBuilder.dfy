/** src/aegis_agent/evidence/builder.py: the worklist that grows one chain per source address. */
module EvidenceBuilder {
  import opened Common
  import opened Models
  import opened EvidenceRelation
  import opened EvidenceClosure

  // ---- Collecting the artifacts of one event ----

  method CollectIps(e: Event) returns (out: set<string>)
    ensures out == EventIps(e)
  {
    out := {};
    if e.srcIp != "" { out := out + {e.srcIp}; }
    if e.dstIp != "" { out := out + {e.dstIp}; }
    if e.metadata.embeddedIp != "" { out := out + {e.metadata.embeddedIp}; }
    var start := out;
    for i := 0 to |e.metadata.ips|
      invariant out == start + (set v | v in e.metadata.ips[..i] && v != "")
    {
      assert e.metadata.ips[..i + 1] == e.metadata.ips[..i] + [e.metadata.ips[i]];
      if e.metadata.ips[i] != "" { out := out + {e.metadata.ips[i]}; }
    }
    assert e.metadata.ips[..|e.metadata.ips|] == e.metadata.ips;
  }

  method CollectFiles(e: Event) returns (out: set<string>)
    ensures out == EventFiles(e)
  {
    out := {};
    if e.filePath != "" { out := out + {e.filePath}; }
    if e.metadata.embeddedFilePath != "" { out := out + {e.metadata.embeddedFilePath}; }
    if e.metadata.path != "" { out := out + {e.metadata.path}; }
    var start := out;
    for i := 0 to |e.metadata.paths|
      invariant out == start + (set p | p in e.metadata.paths[..i])
    {
      assert e.metadata.paths[..i + 1] == e.metadata.paths[..i] + [e.metadata.paths[i]];
      out := out + {e.metadata.paths[i]};
    }
    assert e.metadata.paths[..|e.metadata.paths|] == e.metadata.paths;
  }

  method CollectPids(e: Event) returns (out: set<int>)
    ensures out == EventPids(e)
  {
    out := {};
    if e.pid.Some? { out := out + {e.pid.value}; }
    var values := [e.metadata.pid, e.metadata.ppid];
    for i := 0 to |values|
      invariant out == OptionSet(e.pid) + (if i > 0 then PidSet(values[0]) else {}) + (if i > 1 then PidSet(values[1]) else {})
    {
      if values[i].Some? { out := out + {values[i].value.value}; }
    }
  }

  // ---- The seed ----

  /** The three artifact sets of a seed, without the users and the anchor times. */
  ghost predicate ArtifactsOf(ip: string, included: seq<Event>, seed: Seed) {
    && seed.dstIps == (set x, t | x in included && t in EventIps(x) && t != ip :: t)
    && seed.filePaths == (set x, t | x in included && t in EventFiles(x) :: t)
    && seed.pids == (set x, t | x in included && t in EventPids(x) :: t)
  }

  lemma PidsExtend(included: seq<Event>, e: Event)
    ensures (set x, t | x in included + [e] && t in EventPids(x) :: t) == (set x, t | x in included && t in EventPids(x) :: t) + EventPids(e)
  {
    var before := set x, t | x in included && t in EventPids(x) :: t;
    var wider := set x, t | x in included + [e] && t in EventPids(x) :: t;
    forall t | t in wider ensures t in before + EventPids(e) {
      var x :| x in included + [e] && t in EventPids(x);
      assert x in included || x == e;
    }
    forall t | t in before + EventPids(e) ensures t in wider {
      if t in before {
        var x :| x in included && t in EventPids(x);
        assert x in included + [e];
      } else {
        assert e in included + [e];
      }
    }
  }

  method AbsorbArtifacts(ghost ip: string, seed: Seed, ghost included: seq<Event>, e: Event) returns (wider: Seed)
    requires seed.srcIps == {ip} && ArtifactsOf(ip, included, seed)
    ensures ArtifactsOf(ip, included + [e], wider)
    ensures wider == seed.(dstIps := wider.dstIps, filePaths := wider.filePaths, pids := wider.pids)
  {
    var ips := CollectIps(e);
    var files := CollectFiles(e);
    var pids := CollectPids(e);
    assert forall x :: x in included + [e] <==> x in included || x == e;
    PidsExtend(included, e);
    wider := seed.(dstIps := seed.dstIps + (set t | t in ips && t !in seed.srcIps),
                   filePaths := seed.filePaths + files,
                   pids := seed.pids + pids);
  }

  method MakeSeed(ip: string, ipEvents: seq<Event>) returns (seed: Seed)
    requires ipEvents != [] && forall e :: e in ipEvents ==> e.srcIp == ip
    ensures SeedOf(ip, ipEvents, ipEvents, seed)
  {
    var web: seq<Event>, ssh: seq<Event> := [], [];
    var users, allUsers := {}, {};
    for i := 0 to |ipEvents|
      invariant allUsers == (set x | x in ipEvents[..i] && x.user != "" :: x.user)
      invariant users <= allUsers
      invariant forall w :: w in web <==> w in ipEvents[..i] && w.eventType.WebAttackPattern?
      invariant forall w :: w in ssh <==> w in ipEvents[..i] && w.eventType.SshSuccessLogin?
    {
      assert ipEvents[..i + 1] == ipEvents[..i] + [ipEvents[i]];
      var e := ipEvents[i];
      if e.user != "" {
        allUsers := allUsers + {e.user};
        if e.eventType.SshSuccessLogin? { users := users + {e.user}; }
      }
      if e.eventType.WebAttackPattern? { web := web + [e]; }
      if e.eventType.SshSuccessLogin? { ssh := ssh + [e]; }
    }
    assert ipEvents[..|ipEvents|] == ipEvents;
    seed := Seed({ip}, users, allUsers, {}, {}, {}, web, ssh);
    for i := 0 to |ipEvents|
      invariant seed.srcIps == {ip} && seed.users == users && seed.allUsers == allUsers
      invariant seed.webAttackTimes == web && seed.sshSuccessTimes == ssh
      invariant ArtifactsOf(ip, ipEvents[..i], seed)
    {
      assert ipEvents[..i + 1] == ipEvents[..i] + [ipEvents[i]];
      seed := AbsorbArtifacts(ip, seed, ipEvents[..i], ipEvents[i]);
    }
  }

  /** _refresh_seed: absorb a newly attached event. */
  method RefreshSeed(ghost ip: string, ghost anchors: seq<Event>, ghost included: seq<Event>, seed: Seed, e: Event)
    returns (wider: Seed)
    requires SeedOf(ip, anchors, included, seed)
    ensures SeedOf(ip, anchors, included + [e], wider)
  {
    wider := AbsorbArtifacts(ip, seed, included, e);
    if e.user != "" {
      wider := wider.(allUsers := wider.allUsers + {e.user});
      if e.eventType.SshSuccessLogin? || e.eventType.SudoExecution? {
        wider := wider.(users := wider.users + {e.user});
      }
    }
  }

  // ---- The worklist ----

  function Remove(s: seq<Event>, e: Event): seq<Event> {
    if s == [] then [] else if s[0] == e then s[1..] else [s[0]] + Remove(s[1..], e)
  }

  lemma {:induction false} RemoveMiddle(before: seq<Event>, e: Event, after: seq<Event>)
    requires e !in before
    ensures Remove(before + [e] + after, e) == before + after
  {
    var all := before + [e] + after;
    if before == [] {
      assert all[1..] == after;
    } else {
      RemoveMiddle(before[1..], e, after);
      assert all[1..] == before[1..] + [e] + after;
      assert before == [before[0]] + before[1..];
    }
  }

  ghost function Triangle(n: nat): nat {
    if n == 0 then 0 else n + Triangle(n - 1)
  }

  lemma {:induction false} TriangleStep(small: nat, big: nat)
    requires small < big
    ensures Triangle(small) + big <= Triangle(big)
  {
    if small < big - 1 {
      TriangleStep(small, big - 1);
    }
  }

  lemma {:induction false} TriangleClosedForm(n: nat)
    ensures 2 * Triangle(n) == n * (n + 1)
  {
    if n > 0 {
      TriangleClosedForm(n - 1);
    }
  }

  /** The events of `all` that are not in `included`, as the worklist holds them. */
  ghost predicate Partition(candidates: seq<Event>, included: seq<Event>, remaining: seq<Event>) {
    && Distinct(included) && Distinct(remaining)
    && (forall e :: e in candidates ==> e in included || e in remaining)
    && (forall e :: e in remaining ==> e in candidates && e !in included)
  }

  lemma RemoveOne(candidates: seq<Event>, included: seq<Event>, kept: seq<Event>, e: Event, rest: seq<Event>)
    requires Partition(candidates, included, kept + [e] + rest)
    ensures Remove(kept + [e] + rest, e) == kept + rest
  {
    var all := kept + [e] + rest;
    forall j | 0 <= j < |kept| ensures kept[j] != e {
      assert all[j] == kept[j] && all[|kept|] == e;
    }
    RemoveMiddle(kept, e, rest);
  }

  lemma NotAnAnchor(anchors: seq<Event>, included: seq<Event>, e: Event)
    requires anchors <= included && e !in included
    ensures Elems(included + [e]) - Elems(anchors) == Elems(included) - Elems(anchors) + {e}
  {
    assert Elems(included + [e]) == Elems(included) + {e};
    assert forall i :: 0 <= i < |anchors| ==> included[i] == anchors[i];
  }

  lemma AttachLinked(ip: string, anchors: seq<Event>, candidates: set<Event>, included: seq<Event>, e: Event)
    requires WellLinked(ip, anchors, candidates, included)
    requires e in candidates && Linked(ip, Elems(anchors), Elems(included), e)
    ensures WellLinked(ip, anchors, candidates, included + [e])
  {
    hide Linked;
    var wider := included + [e];
    forall i | |anchors| <= i < |wider|
      ensures wider[i] in candidates && Linked(ip, Elems(anchors), Elems(wider[..i]), wider[i])
    {
      assert wider[..i] == if i < |included| then included[..i] else included;
    }
  }

  lemma AttachPartition(candidates: seq<Event>, included: seq<Event>, kept: seq<Event>, e: Event, rest: seq<Event>)
    requires Partition(candidates, included, kept + [e] + rest)
    ensures Partition(candidates, included + [e], kept + rest)
  {
    var remaining, shrunk := kept + [e] + rest, kept + rest;
    assert remaining[|kept|] == e;
    assert e in remaining;
    assert forall i :: 0 <= i < |shrunk| ==> shrunk[i] == remaining[if i < |kept| then i else i + 1];
    assert forall x :: x in shrunk <==> x in kept || x in rest;
    assert forall x :: x in remaining <==> x in kept || x == e || x in rest;
    assert e !in shrunk by {
      assert forall i :: 0 <= i < |shrunk| ==> shrunk[i] != e;
    }
  }

  /** Moving one linked event from the worklist to the chain keeps both in order. */
  lemma Attach(ip: string, anchors: seq<Event>, candidates: seq<Event>, included: seq<Event>, remaining: seq<Event>,
               kept: seq<Event>, e: Event, rest: seq<Event>)
    requires WellLinked(ip, anchors, Elems(candidates), included)
    requires Partition(candidates, included, remaining)
    requires remaining == kept + [e] + rest
    requires Linked(ip, Elems(anchors), Elems(included), e)
    ensures WellLinked(ip, anchors, Elems(candidates), included + [e])
    ensures Partition(candidates, included + [e], kept + rest)
    ensures Elems(included + [e]) - Elems(anchors) == Elems(included) - Elems(anchors) + {e}
  {
    hide Linked;
    assert remaining[|kept|] == e;
    assert e in remaining;
    AttachLinked(ip, anchors, Elems(candidates), included, e);
    AttachPartition(candidates, included, kept, e, rest);
    NotAnAnchor(anchors, included, e);
  }

  /** One pass over a copy of the worklist. */
  method Round(ip: string, anchors: seq<Event>, ghost candidates: seq<Event>,
               seed0: Seed, included0: seq<Event>, remaining0: seq<Event>, relation0: map<Event, Reason>)
    returns (seed: Seed, included: seq<Event>, remaining: seq<Event>, relation: map<Event, Reason>, changed: bool)
    requires SeedOf(ip, anchors, included0, seed0)
    requires WellLinked(ip, anchors, Elems(candidates), included0)
    requires Partition(candidates, included0, remaining0)
    requires relation0.Keys == Elems(included0) - Elems(anchors) && anchors <= included0
    ensures SeedOf(ip, anchors, included, seed)
    ensures WellLinked(ip, anchors, Elems(candidates), included)
    ensures Partition(candidates, included, remaining)
    ensures relation.Keys == Elems(included) - Elems(anchors)
    ensures if changed then |remaining| < |remaining0| else |remaining| == |remaining0|
    ensures !changed ==> forall e :: e in remaining ==> !Linked(ip, Elems(anchors), Elems(included), e)
  {
    hide SeedOf, WellLinked, Linked, RelationReason, Partition, Remove;
    seed, included, remaining, relation, changed := seed0, included0, remaining0, relation0, false;
    var snapshot := remaining;
    ghost var kept: seq<Event> := [];
    for i := 0 to |snapshot|
      invariant SeedOf(ip, anchors, included, seed)
      invariant WellLinked(ip, anchors, Elems(candidates), included)
      invariant Partition(candidates, included, remaining)
      invariant relation.Keys == Elems(included) - Elems(anchors)
      invariant remaining == kept + snapshot[i..]
      invariant |kept| <= i && (changed <==> |kept| < i)
      invariant !changed ==> forall e :: e in kept ==> !Linked(ip, Elems(anchors), Elems(included), e)
    {
      var e := snapshot[i];
      assert snapshot[i..] == [e] + snapshot[i + 1..];
      assert remaining == kept + [e] + snapshot[i + 1..];
      var reason := RelationReason(e, seed, included);
      ReasonIffLinked(ip, anchors, included, seed, e);
      if reason.Some? {
        RemoveOne(candidates, included, kept, e, snapshot[i + 1..]);
        Attach(ip, anchors, candidates, included, remaining, kept, e, snapshot[i + 1..]);
        relation := relation[e := reason.value];
        seed := RefreshSeed(ip, anchors, included, seed, e);
        included := included + [e];
        remaining := Remove(remaining, e);
        changed := true;
      } else {
        kept := kept + [e];
      }
    }
    assert remaining == kept;
  }

  /** One chain: absorb related candidates until a whole round absorbs none.
      `rounds` counts passes over the worklist and `checks` the relation tests, `relation` is what the code
      writes into each attached event's metadata. */
  method GrowChain(ip: string, anchors: seq<Event>, candidates: seq<Event>)
    returns (included: seq<Event>, relation: map<Event, Reason>, ghost rounds: nat, ghost checks: nat)
    requires anchors != [] && forall e :: e in anchors ==> e.srcIp == ip
    requires Distinct(anchors) && Distinct(candidates) && forall e :: e in anchors ==> e !in candidates
    ensures Distinct(included)
    ensures WellLinked(ip, anchors, Elems(candidates), included)
    ensures IsClosure(ip, Elems(anchors), Elems(candidates), Elems(included))
    ensures relation.Keys == Elems(included) - Elems(anchors)
    ensures rounds <= |candidates| + 1
    ensures 2 * checks <= |candidates| * (|candidates| + 1)
  {
    var seed := MakeSeed(ip, anchors);
    included, relation := anchors, map[];
    var remaining := candidates;
    rounds, checks := 0, 0;
    var changed := true;
    while changed
      invariant SeedOf(ip, anchors, included, seed)
      invariant WellLinked(ip, anchors, Elems(candidates), included)
      invariant Partition(candidates, included, remaining)
      invariant relation.Keys == Elems(included) - Elems(anchors)
      invariant !changed ==> forall e :: e in remaining ==> !Linked(ip, Elems(anchors), Elems(included), e)
      invariant rounds + |remaining| <= |candidates| + if changed then 0 else 1
      invariant checks + (if changed then Triangle(|remaining|) else 0) <= Triangle(|candidates|)
      decreases |remaining|, changed
    {
      rounds, checks := rounds + 1, checks + |remaining|;
      ghost var before := |remaining|;
      seed, included, remaining, relation, changed := Round(ip, anchors, candidates, seed, included, remaining, relation);
      if changed {
        TriangleStep(|remaining|, before);
      } else if before > 0 {
        TriangleStep(0, before);
      }
    }
    TriangleClosedForm(|candidates|);
    WellLinkedClosure(ip, anchors, Elems(candidates), included);
  }
}
