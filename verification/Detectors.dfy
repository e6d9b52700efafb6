/** The two detectors that turn raw events into signature matches: src/aegis_agent/core/signature_engine.py and
    src/aegis_agent/core/vulnerability_guard.py. Pattern tests are passed in. */
module Detectors {
  import opened Common
  import opened Lists
  import opened Grouping
  import opened Models

  // ---- The signature engine ----

  /** A loaded signature with its regular expressions: the one to find, one required and one excluded. */
  datatype Pattern = Pattern(id: string, eventTypes: set<EventType>, regex: string, requireRegex: string, excludeRegex: string)

  /** Whether a signature's expressions accept an event's text. */
  type Matcher = (Pattern, Event) -> bool

  datatype Hit = Hit(pattern: Pattern, event: Event)

  predicate IsRaw(e: Event) {
    !e.eventType.SignatureMatch?
  }

  predicate Applies(m: Matcher, p: Pattern, e: Event) {
    IsRaw(e) && (p.eventTypes == {} || e.eventType in p.eventTypes) && m(p, e)
  }

  /** The pair the engine remembers. */
  function KeyOf(h: Hit): (string, string) {
    (h.pattern.id, h.event.eventId)
  }

  function Keys(hits: seq<Hit>): set<(string, string)> {
    set h | h in hits :: KeyOf(h)
  }

  /** The new hits of one event, given the hits so far. */
  function EventHits(m: Matcher, patterns: seq<Pattern>, e: Event, hits: seq<Hit>): seq<Hit> {
    if patterns == [] then hits
    else
      var before := EventHits(m, patterns[..|patterns| - 1], e, hits);
      var h := Hit(patterns[|patterns| - 1], e);
      if Applies(m, h.pattern, e) && KeyOf(h) !in Keys(before) then before + [h] else before
  }

  function Hits(m: Matcher, patterns: seq<Pattern>, events: seq<Event>): seq<Hit> {
    if events == [] then []
    else EventHits(m, patterns, events[|events| - 1], Hits(m, patterns, events[..|events| - 1]))
  }

  /** An event that is itself a signature match adds nothing. */
  lemma {:induction false} RawOnly(m: Matcher, patterns: seq<Pattern>, e: Event, hits: seq<Hit>)
    requires !IsRaw(e)
    ensures EventHits(m, patterns, e, hits) == hits
  {
    if patterns != [] {
      RawOnly(m, patterns[..|patterns| - 1], e, hits);
    }
  }

  /** The nested loops of evaluate with their `seen` set. */
  method Evaluate(m: Matcher, patterns: seq<Pattern>, events: seq<Event>) returns (hits: seq<Hit>)
    ensures hits == Hits(m, patterns, events)
  {
    hits := [];
    var seen: set<(string, string)> := {};
    for i := 0 to |events|
      invariant hits == Hits(m, patterns, events[..i]) && seen == Keys(hits)
    {
      var e := events[i];
      assert events[..i + 1][..i] == events[..i];
      if e.eventType.SignatureMatch? {
        RawOnly(m, patterns, e, hits);
        continue;
      }
      ghost var start := hits;
      for j := 0 to |patterns|
        invariant hits == EventHits(m, patterns[..j], e, start) && seen == Keys(hits)
      {
        var p := patterns[j];
        assert patterns[..j + 1][..j] == patterns[..j];
        if p.eventTypes != {} && e.eventType !in p.eventTypes {
          continue;
        }
        if !m(p, e) {
          continue;
        }
        var key := (p.id, e.eventId);
        if key in seen {
          continue;
        }
        seen := seen + {key};
        hits := hits + [Hit(p, e)];
      }
      assert patterns[..|patterns|] == patterns;
    }
    assert events[..|events|] == events;
  }

  /** The engine does not feed on its own output: signature matches anywhere in the input change nothing. */
  lemma {:induction false} IgnoresSignatureMatches(m: Matcher, patterns: seq<Pattern>, events: seq<Event>)
    ensures Hits(m, patterns, events) == Hits(m, patterns, Where(events, IsRaw))
  {
    if events != [] {
      var init, e := events[..|events| - 1], events[|events| - 1];
      IgnoresSignatureMatches(m, patterns, init);
      if IsRaw(e) {
        var raw := Where(init, IsRaw);
        assert (raw + [e])[..|raw|] == raw;
      } else {
        RawOnly(m, patterns, e, Hits(m, patterns, init));
        assert Where(events, IsRaw) == Where(init, IsRaw);
      }
    }
  }

  ghost predicate DistinctKeys(hits: seq<Hit>) {
    forall i, j :: 0 <= i < j < |hits| ==> KeyOf(hits[i]) != KeyOf(hits[j])
  }

  lemma HitAppends(hits: seq<Hit>, h: Hit)
    requires DistinctKeys(hits) && KeyOf(h) !in Keys(hits)
    ensures DistinctKeys(hits + [h]) && Keys(hits + [h]) == Keys(hits) + {KeyOf(h)}
  {
    assert forall i :: 0 <= i < |hits| ==> KeyOf(hits[i]) in Keys(hits);
    assert forall x :: x in hits + [h] <==> x in hits || x == h;
  }

  lemma {:induction false} EventHitsFacts(m: Matcher, patterns: seq<Pattern>, e: Event, hits: seq<Hit>)
    requires DistinctKeys(hits)
    ensures DistinctKeys(EventHits(m, patterns, e, hits))
    ensures Keys(EventHits(m, patterns, e, hits)) == Keys(hits) + set p | p in patterns && Applies(m, p, e) :: (p.id, e.eventId)
  {
    if patterns != [] {
      var init, p := patterns[..|patterns| - 1], patterns[|patterns| - 1];
      EventHitsFacts(m, init, e, hits);
      var before := EventHits(m, init, e, hits);
      assert patterns == init + [p];
      assert forall x :: x in patterns <==> x in init || x == p;
      if Applies(m, p, e) && KeyOf(Hit(p, e)) !in Keys(before) {
        HitAppends(before, Hit(p, e));
      }
      hide EventHits, Applies;
    }
  }

  /** One match per signature and event, and one exactly for every signature that applies to an event. */
  lemma {:induction false} OneHitPerSignatureAndEvent(m: Matcher, patterns: seq<Pattern>, events: seq<Event>)
    ensures DistinctKeys(Hits(m, patterns, events))
    ensures Keys(Hits(m, patterns, events)) == set p, e | p in patterns && e in events && Applies(m, p, e) :: (p.id, e.eventId)
  {
    if events != [] {
      var init, e := events[..|events| - 1], events[|events| - 1];
      OneHitPerSignatureAndEvent(m, patterns, init);
      EventHitsFacts(m, patterns, e, Hits(m, patterns, init));
      assert events == init + [e];
      assert forall x :: x in events <==> x in init || x == e;
    }
  }

  // ---- The vulnerability guard ----

  datatype Category =
    | EncodedPayload | PathTraversal | CommandPayload | KnownExploitMarker | ExposedSurface | WebshellProbe

  /** The pattern categories an event's text matches. */
  datatype Guard = Guard(categories: Event -> set<Category>, threshold: int, minEvents: int)

  datatype Finding =
    | Exploit(event: Event, known: bool)
    | Probing(src: string, categories: set<Category>, count: nat)

  predicate IsWeb(e: Event) {
    e.eventType.HttpRequest? || e.eventType.WebAttackPattern?
  }

  predicate Matching(g: Guard, e: Event) {
    IsWeb(e) && g.categories(e) != {}
  }

  predicate IsKnown(cats: set<Category>) {
    KnownExploitMarker in cats || WebshellProbe in cats
  }

  predicate IsCombo(cats: set<Category>) {
    CommandPayload in cats && (ExposedSurface in cats || PathTraversal in cats || EncodedPayload in cats)
  }

  predicate HighRisk(g: Guard, e: Event) {
    Matching(g, e) && (IsKnown(g.categories(e)) || IsCombo(g.categories(e)))
  }

  function FindingKey(f: Finding): (bool, string) {
    if f.Exploit? then (f.known, f.event.eventId) else (false, f.src)
  }

  ghost function ReportKeys(fs: seq<Finding>): set<(bool, string)> {
    set f | f in fs :: FindingKey(f)
  }

  ghost predicate AllExploits(fs: seq<Finding>) {
    forall f :: f in fs ==> f.Exploit?
  }

  function ExploitKeys(g: Guard, events: seq<Event>): set<(bool, string)> {
    set e | e in events && HighRisk(g, e) :: (IsKnown(g.categories(e)), e.eventId)
  }

  /** The first event of each key, in order. */
  function Exploits(g: Guard, events: seq<Event>): seq<Finding> {
    if events == [] then []
    else
      var init, e := events[..|events| - 1], events[|events| - 1];
      if HighRisk(g, e) && (IsKnown(g.categories(e)), e.eventId) !in ExploitKeys(g, init)
      then Exploits(g, init) + [Exploit(e, IsKnown(g.categories(e)))] else Exploits(g, init)
  }

  /** The source under which a matching event is counted, empty for any other event. */
  function MatchSource(g: Guard): Event -> string {
    (e: Event) => if Matching(g, e) then e.srcIp else ""
  }

  /** Every category seen in the matching events of a list. */
  function Union(g: Guard, events: seq<Event>): set<Category> {
    if events == [] then {} else Union(g, events[..|events| - 1]) + g.categories(events[|events| - 1])
  }

  /** The matching events of a source. */
  function Own(g: Guard, events: seq<Event>, src: string): seq<Event> {
    Where(events, KeyedBy(MatchSource(g), src))
  }

  /** A source probes when it has enough matching events and enough distinct categories among them. */
  predicate Probes(g: Guard, events: seq<Event>, src: string) {
    var own := Own(g, events, src);
    |own| >= g.minEvents && |Union(g, own)| >= g.threshold
  }

  function ProbesIn(g: Guard, events: seq<Event>): string -> bool {
    (src: string) => Probes(g, events, src)
  }

  /** The aggregate finding for a source: all its categories and the number of its matching events. */
  function ProbingBy(g: Guard, events: seq<Event>, src: string): Finding {
    var own := Own(g, events, src);
    Probing(src, Union(g, own), |own|)
  }

  /** One aggregate finding for each of these sources that probes, in their order. */
  function Aggregates(g: Guard, events: seq<Event>, order: seq<string>): seq<Finding> {
    if order == [] then []
    else
      var init, last := order[..|order| - 1], order[|order| - 1];
      Aggregates(g, events, init) + if Probes(g, events, last) then [ProbingBy(g, events, last)] else []
  }

  /** Everything the guard reports: the exploits, then the aggregates in order of first appearance. */
  function Findings(g: Guard, events: seq<Event>): seq<Finding> {
    Exploits(g, events) + Aggregates(g, events, FirstKeys(events, MatchSource(g)))
  }

  lemma ExploitStep(g: Guard, events: seq<Event>, e: Event)
    ensures Exploits(g, events + [e]) ==
            if HighRisk(g, e) && (IsKnown(g.categories(e)), e.eventId) !in ExploitKeys(g, events)
            then Exploits(g, events) + [Exploit(e, IsKnown(g.categories(e)))] else Exploits(g, events)
  {
    assert (events + [e])[..|events|] == events;
  }

  lemma KeysExtend(g: Guard, events: seq<Event>, e: Event)
    ensures ExploitKeys(g, events + [e]) == ExploitKeys(g, events) + if HighRisk(g, e) then {(IsKnown(g.categories(e)), e.eventId)} else {}
  {
    assert e in events + [e];
    assert forall x :: x in events + [e] <==> x in events || x == e;
  }

  /** The event loop of evaluate: group by source, report high-risk events once. */
  method Scan(g: Guard, events: seq<Event>) returns (found: seq<Finding>, order: seq<string>, bySrc: map<string, seq<Event>>)
    ensures found == Exploits(g, events)
    ensures Grouped(events, MatchSource(g), order, bySrc)
  {
    found, order, bySrc := [], [], map[];
    var seen: set<(bool, string)> := {};
    for i := 0 to |events|
      invariant found == Exploits(g, events[..i]) && seen == ExploitKeys(g, events[..i])
      invariant Grouped(events[..i], MatchSource(g), order, bySrc)
    {
      var e := events[i];
      assert events[..i + 1] == events[..i] + [e];
      KeysExtend(g, events[..i], e);
      ExploitStep(g, events[..i], e);
      hide Grouped, ExploitKeys, Exploits;
      if e.eventType.SignatureMatch? || !IsWeb(e) {
        GroupNone(events[..i], MatchSource(g), order, bySrc, e);
        continue;
      }
      var cats := g.categories(e);
      if cats == {} {
        GroupNone(events[..i], MatchSource(g), order, bySrc, e);
        continue;
      }
      if e.srcIp != "" {
        order, bySrc := AddToGroup(events[..i], MatchSource(g), order, bySrc, e);
      } else {
        GroupNone(events[..i], MatchSource(g), order, bySrc, e);
      }
      var known := IsKnown(cats);
      if known || IsCombo(cats) {
        var key := (known, e.eventId);
        if key in seen {
          continue;
        }
        seen := seen + {key};
        found := found + [Exploit(e, known)];
      }
    }
    assert events[..|events|] == events;
  }

  method AllCategories(g: Guard, items: seq<Event>) returns (all: set<Category>)
    ensures all == Union(g, items)
  {
    all := {};
    for i := 0 to |items|
      invariant all == Union(g, items[..i])
    {
      assert items[..i + 1][..i] == items[..i];
      all := all + g.categories(items[i]);
    }
    assert items[..|items|] == items;
  }

  /** The second loop: sources with enough matching events and enough categories. */
  method Aggregate(g: Guard, ghost events: seq<Event>, order: seq<string>, bySrc: map<string, seq<Event>>) returns (findings: seq<Finding>)
    requires Grouped(events, MatchSource(g), order, bySrc)
    ensures findings == Aggregates(g, events, order)
  {
    findings := [];
    for k := 0 to |order|
      invariant findings == Aggregates(g, events, order[..k])
    {
      var src := order[k];
      assert order[..k + 1][..k] == order[..k];
      assert src in Elems(order);
      var items := bySrc[src];
      var all := AllCategories(g, items);
      if |items| >= g.minEvents && |all| >= g.threshold {
        findings := findings + [Probing(src, all, |items|)];
      }
    }
    assert order[..|order|] == order;
  }

  /** evaluate: the exploits, then one aggregate finding per probing source. */
  method EvaluateGuard(g: Guard, events: seq<Event>) returns (findings: seq<Finding>)
    ensures findings == Findings(g, events)
  {
    var found, order, bySrc := Scan(g, events);
    var aggregates := Aggregate(g, events, order, bySrc);
    findings := found + aggregates;
  }

  // ---- What the guard reports ----

  lemma ReportsExtend(before: seq<Finding>, e: Event, known: bool)
    requires AllExploits(before)
    ensures AllExploits(before + [Exploit(e, known)])
    ensures ReportKeys(before + [Exploit(e, known)]) == ReportKeys(before) + {(known, e.eventId)}
    ensures (known, e.eventId) !in ReportKeys(before) ==>
              forall i :: 0 <= i < |before| ==> FindingKey(before[i]) != (known, e.eventId)
  {
    var last := Exploit(e, known);
    assert FindingKey(last) == (known, e.eventId);
    assert forall f :: f in before + [last] <==> f in before || f == last;
    assert forall i :: 0 <= i < |before| ==> before[i] in before;
  }

  /** One report per kind and event, exactly for the events that carry a high-risk combination. */
  lemma {:induction false} ExploitsExactly(g: Guard, events: seq<Event>)
    ensures AllExploits(Exploits(g, events))
    ensures forall i, j :: 0 <= i < j < |Exploits(g, events)| ==>
              FindingKey(Exploits(g, events)[i]) != FindingKey(Exploits(g, events)[j])
    ensures ReportKeys(Exploits(g, events)) == ExploitKeys(g, events)
  {
    if events != [] {
      var init, e := events[..|events| - 1], events[|events| - 1];
      ExploitsExactly(g, init);
      assert events == init + [e];
      KeysExtend(g, init, e);
      ReportsExtend(Exploits(g, init), e, IsKnown(g.categories(e)));
    }
  }

  function SourcesOf(fs: seq<Finding>): seq<string> {
    if fs == [] then []
    else
      var rest, last := SourcesOf(fs[..|fs| - 1]), fs[|fs| - 1];
      if last.Probing? then rest + [last.src] else rest
  }

  lemma SourcesExtend(fs: seq<Finding>, f: Finding)
    ensures SourcesOf(fs + [f]) == SourcesOf(fs) + if f.Probing? then [f.src] else []
  {
    assert (fs + [f])[..|fs|] == fs;
  }

  lemma NoSources()
    ensures SourcesOf([]) == []
  {
  }

  lemma ProbingNames(g: Guard, events: seq<Event>, src: string)
    ensures ProbingBy(g, events, src).Probing? && ProbingBy(g, events, src).src == src
  {
  }

  lemma {:induction false} AggregateSources(g: Guard, events: seq<Event>, order: seq<string>)
    ensures SourcesOf(Aggregates(g, events, order)) == Where(order, ProbesIn(g, events))
  {
    hide Probes, ProbingBy, SourcesOf;
    if order != [] {
      var init, last := order[..|order| - 1], order[|order| - 1];
      AggregateSources(g, events, init);
      SourcesExtend(Aggregates(g, events, init), ProbingBy(g, events, last));
      assert ProbingBy(g, events, last).Probing? && ProbingBy(g, events, last).src == last by {
        ProbingNames(g, events, last);
      }
      assert order == init + [last];
      WhereExtends(init, last, ProbesIn(g, events));
      assert ProbesIn(g, events)(last) == Probes(g, events, last);
      if !Probes(g, events, last) {
        assert Aggregates(g, events, order) == Aggregates(g, events, init);
      }
    } else {
      NoSources();
    }
  }

  lemma {:induction false} ExploitsNameNoSource(fs: seq<Finding>, more: seq<Finding>)
    requires AllExploits(fs)
    ensures SourcesOf(fs + more) == SourcesOf(more)
  {
    if more == [] {
      assert fs + more == fs;
      if fs != [] {
        assert forall f :: f in fs[..|fs| - 1] ==> f in fs;
        ExploitsNameNoSource(fs[..|fs| - 1], []);
        assert fs[..|fs| - 1] + [] == fs[..|fs| - 1];
        assert fs[|fs| - 1] in fs;
      }
    } else {
      var init := more[..|more| - 1];
      ExploitsNameNoSource(fs, init);
      assert (fs + more)[..|fs + more| - 1] == fs + init;
    }
  }

  /** The guard reports a source exactly once if it has enough matching events with enough distinct categories,
      and otherwise not at all; sources come in order of first appearance. */
  lemma AggregatesExactly(g: Guard, events: seq<Event>)
    ensures Distinct(SourcesOf(Findings(g, events)))
    ensures SourcesOf(Findings(g, events)) == Where(FirstKeys(events, MatchSource(g)), ProbesIn(g, events))
    ensures forall s :: s in SourcesOf(Findings(g, events)) <==>
                        s != "" && Probes(g, events, s) && exists e :: e in events && Matching(g, e) && e.srcIp == s
  {
    var key := MatchSource(g);
    var order := FirstKeys(events, key);
    ExploitsExactly(g, events);
    AggregateSources(g, events, order);
    ExploitsNameNoSource(Exploits(g, events), Aggregates(g, events, order));
    FirstKeysAreKeys(events, key);
    WhereMembers(order, ProbesIn(g, events));
    hide Where, FirstKeys, Probes, SourcesOf, Exploits, Aggregates;
    forall s | s != "" && exists e :: e in events && Matching(g, e) && e.srcIp == s ensures s in order {
      var e :| e in events && Matching(g, e) && e.srcIp == s;
      assert key(e) == s;
    }
  }

  lemma {:induction false} MatchesAreRaw(g: Guard, events: seq<Event>, src: string)
    requires src != ""
    ensures Own(g, events, src) == Own(g, Where(events, IsRaw), src)
  {
    if events != [] {
      var init, e := events[..|events| - 1], events[|events| - 1];
      MatchesAreRaw(g, init, src);
      if IsRaw(e) {
        WhereExtends(Where(init, IsRaw), e, KeyedBy(MatchSource(g), src));
      } else {
        assert Where(events, IsRaw) == Where(init, IsRaw);
      }
    }
  }

  lemma {:induction false} SourcesAreRaw(g: Guard, events: seq<Event>)
    ensures FirstKeys(events, MatchSource(g)) == FirstKeys(Where(events, IsRaw), MatchSource(g))
  {
    if events != [] {
      var init, e := events[..|events| - 1], events[|events| - 1];
      SourcesAreRaw(g, init);
      if IsRaw(e) {
        FirstKeysExtend(Where(init, IsRaw), MatchSource(g), e);
      } else {
        assert Where(events, IsRaw) == Where(init, IsRaw);
      }
    }
  }

  lemma {:induction false} AggregatesAreRaw(g: Guard, events: seq<Event>, order: seq<string>)
    requires "" !in order
    ensures Aggregates(g, events, order) == Aggregates(g, Where(events, IsRaw), order)
  {
    if order != [] {
      AggregatesAreRaw(g, events, order[..|order| - 1]);
      MatchesAreRaw(g, events, order[|order| - 1]);
      hide Own, Where;
    }
  }

  lemma {:induction false} ExploitsAreRaw(g: Guard, events: seq<Event>)
    ensures Exploits(g, events) == Exploits(g, Where(events, IsRaw))
    ensures ExploitKeys(g, events) == ExploitKeys(g, Where(events, IsRaw))
  {
    if events != [] {
      var init, e := events[..|events| - 1], events[|events| - 1];
      ExploitsAreRaw(g, init);
      var raw := Where(init, IsRaw);
      assert events == init + [e];
      KeysExtend(g, init, e);
      ExploitStep(g, init, e);
      KeysExtend(g, raw, e);
      ExploitStep(g, raw, e);
      WhereExtends(init, e, IsRaw);
      hide Exploits, ExploitKeys, Where;
      if !IsRaw(e) {
        assert Where(events, IsRaw) == raw;
      }
    }
  }

  /** The guard does not feed on signature matches, whoever produced them: its whole report stays the same. */
  lemma GuardIgnoresSignatureMatches(g: Guard, events: seq<Event>)
    ensures Findings(g, events) == Findings(g, Where(events, IsRaw))
  {
    hide Exploits, ExploitKeys, Aggregates, Where, FirstKeys;
    ExploitsAreRaw(g, events);
    SourcesAreRaw(g, events);
    FirstKeysAreKeys(events, MatchSource(g));
    AggregatesAreRaw(g, events, FirstKeys(events, MatchSource(g)));
  }

  // ---- The definitions in literals ----

  /** A signature hits an event exactly if the event is no match itself, is of a type the signature names if it names
      any, and satisfies its expressions. */
  lemma HitsInFull(m: Matcher, patterns: seq<Pattern>, events: seq<Event>, id: string, eventId: string)
    ensures (id, eventId) in Keys(Hits(m, patterns, events)) <==>
            exists p, e :: p in patterns && e in events && p.id == id && e.eventId == eventId
                           && e.eventType != SignatureMatch && (p.eventTypes == {} || e.eventType in p.eventTypes) && m(p, e)
  {
    OneHitPerSignatureAndEvent(m, patterns, events);
    hide Hits;
    if p, e :| p in patterns && e in events && p.id == id && e.eventId == eventId
               && e.eventType != SignatureMatch && (p.eventTypes == {} || e.eventType in p.eventTypes) && m(p, e) {
      assert Applies(m, p, e);
    }
  }

  /** The event is a web request or attack and matches some category. */
  predicate MatchesWeb(g: Guard, e: Event) {
    (e.eventType.HttpRequest? || e.eventType.WebAttackPattern?) && g.categories(e) != {}
  }

  /** A known exploit or a webshell; or a command together with an exposed surface, a traversal or an encoding. */
  predicate Severe(g: Guard, e: Event) {
    && MatchesWeb(g, e)
    && var c := g.categories(e);
       || KnownExploitMarker in c || WebshellProbe in c
       || (CommandPayload in c && (ExposedSurface in c || PathTraversal in c || EncodedPayload in c))
  }

  lemma SevereMeansHighRisk(g: Guard)
    ensures forall e :: HighRisk(g, e) <==> Severe(g, e)
  {
  }

  /** An exploit is reported exactly for a severe event, as known exactly with one of the two critical categories. */
  lemma ExploitsInFull(g: Guard, events: seq<Event>, known: bool, eventId: string)
    ensures (known, eventId) in ReportKeys(Exploits(g, events)) <==>
            exists e :: e in events && e.eventId == eventId && Severe(g, e)
                        && known == (KnownExploitMarker in g.categories(e) || WebshellProbe in g.categories(e))
  {
    ExploitsExactly(g, events);
    hide Exploits;
    SevereMeansHighRisk(g);
    hide Severe, HighRisk;
    if e :| e in events && e.eventId == eventId && Severe(g, e)
            && known == (KnownExploitMarker in g.categories(e) || WebshellProbe in g.categories(e)) {
      assert (IsKnown(g.categories(e)), e.eventId) in ExploitKeys(g, events);
    }
  }

  lemma {:induction false} UnionInFull(g: Guard, events: seq<Event>)
    ensures forall c :: c in Union(g, events) <==> exists e :: e in events && c in g.categories(e)
  {
    if events != [] {
      var init, last := events[..|events| - 1], events[|events| - 1];
      UnionInFull(g, init);
      assert events == init + [last];
    }
  }

  /** The distinct categories of the matching events of a source. */
  ghost predicate CategoriesOf(g: Guard, events: seq<Event>, src: string, cats: set<Category>) {
    forall c :: c in cats <==> exists e :: e in events && MatchesWeb(g, e) && e.srcIp == src && c in g.categories(e)
  }

  lemma OwnKey(g: Guard, src: string)
    requires src != ""
    ensures forall e :: KeyedBy(MatchSource(g), src)(e) <==> MatchesWeb(g, e) && e.srcIp == src
  {
  }

  lemma OwnInFull(g: Guard, events: seq<Event>, src: string)
    requires src != ""
    ensures forall e :: e in Own(g, events, src) <==> e in events && MatchesWeb(g, e) && e.srcIp == src
    ensures |Own(g, events, src)| == |set i | 0 <= i < |events| && MatchesWeb(g, events[i]) && events[i].srcIp == src|
  {
    hide Where, MatchesWeb;
    OwnKey(g, src);
    var q := KeyedBy(MatchSource(g), src);
    WhereMembers(events, q);
    WhereCount(events, q, set i | 0 <= i < |events| && MatchesWeb(g, events[i]) && events[i].srcIp == src);
  }

  /** A source probes exactly with enough matching events and enough distinct categories among them. */
  lemma ProbesInFull(g: Guard, events: seq<Event>, src: string, cats: set<Category>)
    requires src != "" && CategoriesOf(g, events, src, cats)
    ensures Probes(g, events, src) <==>
            |set i | 0 <= i < |events| && MatchesWeb(g, events[i]) && events[i].srcIp == src| >= g.minEvents && |cats| >= g.threshold
  {
    var own := Own(g, events, src);
    OwnInFull(g, events, src);
    UnionInFull(g, own);
    assert cats == Union(g, own);
  }
}
