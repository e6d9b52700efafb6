/** The nftables form of src/aegis_agent/executors/network_guard.py and its undoing, as functions on the six
    timeout sets of the dedicated table. */
module FirewallEffects {
  import opened Common
  import opened Models
  import opened Addresses
  import opened Effects

  const MIN_TTL := 60
  const MAX_TTL := 604800

  /** _ttl: a missing or zero TTL is an hour; the result is clamped. */
  function Ttl(plan: ActionPlan): (ttl: int)
    ensures MIN_TTL <= ttl <= MAX_TTL
  {
    var asked := if plan.ttlSeconds.Some? && plan.ttlSeconds.value != 0 then plan.ttlSeconds.value else 3600;
    Max(MIN_TTL, Min(asked, MAX_TTL))
  }

  /** _set_name for the direction and mode the action implies. */
  function SetFor(a: Action, v: Version): SetName
    requires IsNetwork(a)
  {
    if a.RateLimitIp? then RateLimit(v) else if a.BlockIpTtl? then BlockIn(v) else BlockOut(v)
  }

  /** The element a command names, if its target is an address of the set's version. */
  function ElementOf(p: Parsers, name: SetName, target: string): Option<Element> {
    match AddressOf(p, target)
    case Some(a) => if a.Version() == name.version then Some(Element(name, a)) else None
    case None => None
  }

  /** `nft add element … timeout`. An element that is already there counts as added. */
  function AddElement(elements: Elements, e: Element, expires: int, refreshes: bool): Elements {
    if e in elements && !refreshes then elements else elements[e := expires]
  }

  /** block_ip_ttl and rate_limit_ip. */
  function Enforce(p: Parsers, elements: Elements, plan: ActionPlan, now: int, host: Host): (Elements, ActionResult)
    requires IsNetwork(plan.action)
  {
    match Validate(p, plan.target)
    case Valid(v) =>
      var name, expires := SetFor(plan.action, v), now + Ttl(plan);
      var undo := DeleteElement(name, plan.target, expires);
      if host.dryRun then (elements, ActionResult(plan.actionId, plan.action, plan.target, Planned, true, undo))
      else if (host.requireRoot && !host.isRoot) || !host.nftInstalled || !host.setupOk || !host.commandOk || ElementOf(p, name, plan.target).None? then
        (elements, ActionResult(plan.actionId, plan.action, plan.target, Failed, false, undo))
      else
        (AddElement(elements, ElementOf(p, name, plan.target).value, expires, host.refreshes),
         ActionResult(plan.actionId, plan.action, plan.target, Success, false, undo))
    case _ => (elements, ActionResult(plan.actionId, plan.action, plan.target, Failed, host.dryRun, NoRollback))
  }

  /** The element a payload deletes. */
  function Named(p: Parsers, payload: Rollback): set<Element> {
    if payload.DeleteElement? && ElementOf(p, payload.name, payload.target).Some?
    then {ElementOf(p, payload.name, payload.target).value} else {}
  }

  /** How the rollback of a network payload ends. An element that is already absent counts as rolled back. */
  function DeleteStatus(host: Host): Status {
    if host.dryRun then Planned else if !host.isRoot || !host.commandOk then Failed else Success
  }

  /** How the rollback of a network action ends: one without a payload is skipped. */
  function NetworkStatus(payload: Rollback, host: Host): Status {
    if payload.DeleteElement? then DeleteStatus(host) else Skipped
  }

  /** One rollback of a network payload, with what it meets. */
  datatype Deletion = Deletion(payload: Rollback, host: Host)

  function Delete(p: Parsers, elements: Elements, d: Deletion): Elements {
    if DeleteStatus(d.host).Success? then elements - Named(p, d.payload) else elements
  }

  /** What a successful action leaves: its element, in the set of the address's version, whose payload deletes
      exactly that element, with a timeout inside the clamp. */
  lemma SuccessNamesItsElement(p: Parsers, elements: Elements, plan: ActionPlan, now: int, host: Host)
    requires IsNetwork(plan.action)
    ensures var (after, r) := Enforce(p, elements, plan, now, host);
            if r.status.Success? then
              exists e: Element :: Named(p, r.rollback) == {e} && e in after && after == elements[e := after[e]]
                                   && e.name == SetFor(plan.action, e.address.Version()) && Enforceable(e.address)
                                   && AddressOf(p, plan.target) == Some(e.address)
                                   && (e !in elements ==> now + MIN_TTL <= after[e] <= now + MAX_TTL)
            else after == elements
  {
    var (after, r) := Enforce(p, elements, plan, now, host);
    if r.status.Success? {
      var e := ElementOf(p, r.rollback.name, plan.target).value;
      assert Named(p, r.rollback) == {e};
      assert after == elements[e := after[e]];
    }
  }

  // ---- Undoing a batch ----

  datatype Attempt = Attempt(plan: ActionPlan, now: int, host: Host)

  function EnforceAll(p: Parsers, elements: Elements, attempts: seq<Attempt>): (r: (Elements, seq<ActionResult>))
    requires forall a :: a in attempts ==> IsNetwork(a.plan.action)
    ensures |r.1| == |attempts|
    decreases |attempts|
  {
    if attempts == [] then (elements, [])
    else
      var first := Enforce(p, elements, attempts[0].plan, attempts[0].now, attempts[0].host);
      var rest := EnforceAll(p, first.0, attempts[1..]);
      (rest.0, [first.1] + rest.1)
  }

  /** The elements named by the successful results. */
  ghost function Applied(p: Parsers, results: seq<ActionResult>): set<Element> {
    set r, e | r in results && r.status.Success? && e in Named(p, r.rollback) :: e
  }

  /** A batch adds what its successes name and leaves everything else as it was. */
  lemma {:induction false} OnlyAppliedChange(p: Parsers, elements: Elements, attempts: seq<Attempt>, e: Element)
    requires forall a :: a in attempts ==> IsNetwork(a.plan.action)
    ensures var (after, results) := EnforceAll(p, elements, attempts);
            if e in Applied(p, results) then e in after
            else (e in after <==> e in elements) && (e in elements ==> after[e] == elements[e])
    ensures e in elements ==> e in EnforceAll(p, elements, attempts).0
    decreases |attempts|
  {
    if attempts != [] {
      var a := attempts[0];
      var (mid, r) := Enforce(p, elements, a.plan, a.now, a.host);
      var (after, rest) := EnforceAll(p, mid, attempts[1..]);
      var results := [r] + rest;
      assert EnforceAll(p, elements, attempts) == (after, results);
      assert forall x :: x in results <==> x == r || x in rest;
      SuccessNamesItsElement(p, elements, a.plan, a.now, a.host);
      OnlyAppliedChange(p, mid, attempts[1..], e);
    }
  }

  /** The plan puts e with this expiry: it names e's address, in e's set, and its own clamped TTL. */
  ghost predicate Puts(p: Parsers, plan: ActionPlan, now: int, e: Element, expires: int) {
    && IsNetwork(plan.action)
    && Validate(p, plan.target).Valid?
    && AddressOf(p, plan.target) == Some(e.address)
    && e.name == SetFor(plan.action, e.address.Version())
    && expires == now + Ttl(plan)
  }

  lemma EnforcePuts(p: Parsers, elements: Elements, a: Attempt, e: Element)
    requires IsNetwork(a.plan.action)
    requires var after := Enforce(p, elements, a.plan, a.now, a.host).0;
             e in after && !(e in elements && after[e] == elements[e])
    ensures var (after, r) := Enforce(p, elements, a.plan, a.now, a.host);
            Puts(p, a.plan, a.now, e, after[e]) && r.status.Success? && e in Named(p, r.rollback)
  {
  }

  /** After a batch every element is either untouched, or stands with an expiry that some plan of it has put. */
  lemma {:induction false} EnforceAllTraces(p: Parsers, elements: Elements, attempts: seq<Attempt>, e: Element)
    requires forall a :: a in attempts ==> IsNetwork(a.plan.action)
    requires e in EnforceAll(p, elements, attempts).0
    ensures var (after, results) := EnforceAll(p, elements, attempts);
            || (e in elements && after[e] == elements[e])
            || (e in Applied(p, results) && exists a :: a in attempts && Puts(p, a.plan, a.now, e, after[e]))
    decreases |attempts|
  {
    if attempts != [] {
      var a := attempts[0];
      var (mid, r) := Enforce(p, elements, a.plan, a.now, a.host);
      var (after, rest) := EnforceAll(p, mid, attempts[1..]);
      var results := [r] + rest;
      assert EnforceAll(p, elements, attempts) == (after, results);
      assert forall x :: x in results <==> x == r || x in rest;
      EnforceAllTraces(p, mid, attempts[1..], e);
      if e in mid && after[e] == mid[e] && !(e in elements && after[e] == elements[e]) {
        EnforcePuts(p, elements, a, e);
        assert a in attempts;
      }
    }
  }

  function DeleteAll(p: Parsers, elements: Elements, deletions: seq<Deletion>): Elements
    decreases |deletions|
  {
    if deletions == [] then elements else DeleteAll(p, Delete(p, elements, deletions[0]), deletions[1..])
  }

  /** The elements named by the deletions that worked. */
  ghost function Lifted(p: Parsers, deletions: seq<Deletion>): set<Element> {
    set d, e | d in deletions && DeleteStatus(d.host).Success? && e in Named(p, d.payload) :: e
  }

  /** However each of them ends, deletions remove exactly what the working ones name. */
  lemma {:induction false} DeleteAllRemovesNamed(p: Parsers, elements: Elements, deletions: seq<Deletion>)
    ensures DeleteAll(p, elements, deletions) == elements - Lifted(p, deletions)
    decreases |deletions|
  {
    if deletions == [] {
      assert Lifted(p, deletions) == {};
    } else {
      DeleteAllRemovesNamed(p, Delete(p, elements, deletions[0]), deletions[1..]);
      assert deletions == [deletions[0]] + deletions[1..];
      assert Lifted(p, deletions) == Lifted(p, [deletions[0]]) + Lifted(p, deletions[1..]);
    }
  }

  lemma KeysAfterUndo(elements: Elements, after: Elements, applied: set<Element>, lifted: set<Element>)
    requires lifted <= applied <= after.Keys
    requires forall e :: e !in applied ==> (e in after <==> e in elements) && (e in elements ==> after[e] == elements[e])
    ensures (after - lifted).Keys == elements.Keys <==> forall e :: e in applied ==> (e in lifted <==> e !in elements)
    ensures applied <= lifted ==> after - lifted == elements - applied
    ensures elements - applied == elements <==> applied !! elements.Keys
  {
    var undone, rest := after - lifted, elements - applied;
    assert forall e :: e in undone <==> e in after && e !in lifted;
    if applied <= lifted {
      assert undone == rest;
    }
    if applied !! elements.Keys {
      assert rest == elements;
    } else {
      var e :| e in applied && e in elements;
      assert e !in rest;
    }
  }

  /** Undo of a batch: rolling back successes, in any order, with any repetition and any outcomes, leaves the
      sets without the elements whose deletion worked. The initial elements are back exactly when deletion
      worked for the targets that were absent before and for no others; if it worked for all targets, the
      initial state is back exactly when none of them was in it. */
  lemma NetworkBatchUndo(p: Parsers, elements: Elements, attempts: seq<Attempt>, deletions: seq<Deletion>)
    requires forall a :: a in attempts ==> IsNetwork(a.plan.action)
    requires forall d :: d in deletions ==>
                         exists r :: r in EnforceAll(p, elements, attempts).1 && r.status.Success? && r.rollback == d.payload
    ensures var (after, results) := EnforceAll(p, elements, attempts);
            var (applied, lifted, undone) := (Applied(p, results), Lifted(p, deletions), DeleteAll(p, after, deletions));
            && undone == after - lifted
            && (undone.Keys == elements.Keys <==> forall e :: e in applied ==> (e in lifted <==> e !in elements))
            && (applied <= lifted ==> undone == elements - applied && (undone == elements <==> applied !! elements.Keys))
  {
    var (after, results) := EnforceAll(p, elements, attempts);
    var applied, lifted := Applied(p, results), Lifted(p, deletions);
    DeleteAllRemovesNamed(p, after, deletions);
    assert lifted <= applied;
    forall e
      ensures e in applied ==> e in after
      ensures e in elements ==> e in after
      ensures e !in applied ==> (e in after <==> e in elements) && (e in elements ==> after[e] == elements[e])
    {
      OnlyAppliedChange(p, elements, attempts, e);
    }
    KeysAfterUndo(elements, after, applied, lifted);
  }

  // ---- The definitions in literals ----

  /** The timeout of a plan: an hour if it asks for none or zero, and otherwise what it asks for, at least a minute
      and at most a week. */
  lemma TtlInSeconds(plan: ActionPlan)
    ensures plan.ttlSeconds.None? || plan.ttlSeconds.value == 0 ==> Ttl(plan) == 3600
    ensures plan.ttlSeconds.Some? && 60 <= plan.ttlSeconds.value <= 604800 ==> Ttl(plan) == plan.ttlSeconds.value
    ensures plan.ttlSeconds.Some? && plan.ttlSeconds.value < 60 && plan.ttlSeconds.value != 0 ==> Ttl(plan) == 60
    ensures plan.ttlSeconds.Some? && plan.ttlSeconds.value > 604800 ==> Ttl(plan) == 604800
  {
  }

  /** An action puts its target into the inbound, outbound or rate-limit set of the address's version. */
  predicate Belongs(a: Action, name: SetName, v: Version) {
    match a
    case BlockIpTtl => name == BlockIn(v)
    case BlockOutboundIp => name == BlockOut(v)
    case RateLimitIp => name == RateLimit(v)
    case _ => false
  }

  /** An action succeeds exactly on a valid target, for real, with root where it is required, with nft installed and
      set up and the command working; then the target's element stands in the set of its action and version. */
  lemma EnforceInFull(p: Parsers, elements: Elements, plan: ActionPlan, now: int, host: Host)
    requires IsNetwork(plan.action)
    ensures var (after, r) := Enforce(p, elements, plan, now, host);
            && (r.status.Success? <==>
                Validate(p, plan.target).Valid? && !host.dryRun && (host.isRoot || !host.requireRoot)
                && host.nftInstalled && host.setupOk && host.commandOk)
            && (r.status.Planned? <==> Validate(p, plan.target).Valid? && host.dryRun)
            && r.status in {Success, Planned, Failed}
            && (r.status.Success? ==>
                  exists e: Element :: e in after && AddressOf(p, plan.target) == Some(e.address)
                                       && Belongs(plan.action, e.name, e.address.Version())
                                       && (e.name.version == Four <==> e.address.V4?)
                                       && after == elements[e := after[e]]
                                       && (e !in elements || host.refreshes ==> after[e] == now + Ttl(plan)))
  {
    hide Enforceable;
    var (after, r) := Enforce(p, elements, plan, now, host);
    if r.status.Success? {
      var a := AddressOf(p, plan.target).value;
      var e := Element(SetFor(plan.action, a.Version()), a);
      assert after == elements[e := after[e]];
    }
  }

  /** A network rollback works exactly for real, with root and with the command working. */
  lemma DeleteInFull(host: Host)
    ensures DeleteStatus(host).Success? <==> !host.dryRun && host.isRoot && host.commandOk
    ensures DeleteStatus(host).Planned? <==> host.dryRun
  {
  }

  /** A rollback takes away the element that its payload names, if it works, and nothing else. */
  lemma LiftsInFull(p: Parsers, elements: Elements, d: Deletion, e: Element)
    ensures var after := Delete(p, elements, d);
            var lifted := !d.host.dryRun && d.host.isRoot && d.host.commandOk
                          && d.payload.DeleteElement? && d.payload.name == e.name && e.name.version == e.address.Version()
                          && p.address(Strip(d.payload.target)) == Some(e.address);
            && (e in after <==> e in elements && !lifted)
            && (e in after ==> after[e] == elements[e])
  {
    hide Strip;
  }
}
