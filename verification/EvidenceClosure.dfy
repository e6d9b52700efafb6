/** What the worklist of src/aegis_agent/evidence/builder.py computes: the least set of events that contains a
    source address's own events and is closed under the relation. */
module EvidenceClosure {
  import opened Common
  import opened Models
  import opened EvidenceRelation

  /** The events that carry `ip` as their source. */
  ghost function Anchors(events: set<Event>, ip: string): set<Event> {
    set e | e in events && e.srcIp == ip
  }

  /** The events that may be attached to any address: host events without a source address. */
  ghost function Candidates(events: set<Event>): set<Event> {
    set e | e in events && e.srcIp == "" && IsHostEvent(e.eventType)
  }

  ghost predicate Closed(ip: string, anchors: set<Event>, candidates: set<Event>, s: set<Event>) {
    && anchors <= s
    && forall e {:trigger Linked(ip, anchors, s, e)} :: e in candidates && Linked(ip, anchors, s, e) ==> e in s
  }

  ghost predicate IsClosure(ip: string, anchors: set<Event>, candidates: set<Event>, s: set<Event>) {
    && Closed(ip, anchors, candidates, s)
    && s <= anchors + candidates
    && forall t: set<Event> :: Closed(ip, anchors, candidates, t) ==> s <= t
  }

  /** Every attached event was linked by what stood before it: a chain of evidence back to the anchors. */
  ghost predicate WellLinked(ip: string, anchors: seq<Event>, candidates: set<Event>, included: seq<Event>) {
    && anchors <= included
    && forall i :: |anchors| <= i < |included| ==>
         included[i] in candidates && Linked(ip, Elems(anchors), Elems(included[..i]), included[i])
  }

  /** Linked evidence lies in every closed set. */
  lemma {:induction false} WellLinkedIsLeast(ip: string, anchors: seq<Event>, candidates: set<Event>, included: seq<Event>, t: set<Event>)
    requires WellLinked(ip, anchors, candidates, included)
    requires Closed(ip, Elems(anchors), candidates, t)
    ensures Elems(included) <= t
  {
    hide Linked;
    if |included| > |anchors| {
      var init, last := included[..|included| - 1], included[|included| - 1];
      assert forall i :: |anchors| <= i < |init| ==> init[..i] == included[..i];
      WellLinkedIsLeast(ip, anchors, candidates, init, t);
      LinkedMonotone(ip, Elems(anchors), Elems(init), Elems(anchors), t, last);
      assert included == init + [last];
    } else {
      assert included == anchors;
    }
  }

  lemma WellLinkedClosure(ip: string, anchors: seq<Event>, candidates: set<Event>, included: seq<Event>)
    requires WellLinked(ip, anchors, candidates, included)
    requires forall e :: e in candidates && e !in included ==> !Linked(ip, Elems(anchors), Elems(included), e)
    ensures IsClosure(ip, Elems(anchors), candidates, Elems(included))
  {
    forall t: set<Event> | Closed(ip, Elems(anchors), candidates, t)
      ensures Elems(included) <= t
    {
      WellLinkedIsLeast(ip, anchors, candidates, included, t);
    }
    forall e | e in Elems(included)
      ensures e in Elems(anchors) + candidates
    {
      var i :| 0 <= i < |included| && included[i] == e;
      if i < |anchors| {
        assert anchors[i] == e;
      }
    }
    forall e | e in anchors ensures e in included {
      var i :| 0 <= i < |anchors| && anchors[i] == e;
      assert included[i] == e;
    }
  }

  /** There is one closure, so the order in which events arrive cannot matter. */
  lemma ClosureUnique(ip: string, anchors: set<Event>, candidates: set<Event>, s: set<Event>, t: set<Event>)
    requires IsClosure(ip, anchors, candidates, s) && IsClosure(ip, anchors, candidates, t)
    ensures s == t
  {
  }

  /** More events never shrink the evidence of an address. */
  lemma ClosureMonotone(ip: string, few: set<Event>, more: set<Event>, s: set<Event>, t: set<Event>)
    requires few <= more && ip != ""
    requires IsClosure(ip, Anchors(few, ip), Candidates(few), s)
    requires IsClosure(ip, Anchors(more, ip), Candidates(more), t)
    ensures s <= t
  {
    var both := s * t;
    forall e | e in Candidates(few) && Linked(ip, Anchors(few, ip), both, e)
      ensures e in both
    {
      LinkedMonotone(ip, Anchors(few, ip), both, Anchors(few, ip), s, e);
      LinkedMonotone(ip, Anchors(few, ip), both, Anchors(more, ip), t, e);
      assert e in Candidates(more);
    }
    assert Closed(ip, Anchors(few, ip), Candidates(few), both);
  }

  /** An event with a source address is in the chain of that address and in no other. */
  lemma AnchorsStayHome(events: set<Event>, ip: string, s: set<Event>, e: Event)
    requires IsClosure(ip, Anchors(events, ip), Candidates(events), s)
    requires e in events && e.srcIp != ""
    ensures e in s <==> e.srcIp == ip
  {
  }
}
