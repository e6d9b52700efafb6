/** The agent's firewall over whole runs: gate, enforce, verify, roll back, store, expire and clean up. */
module AgentRuns {
  import opened Common
  import opened Lists
  import opened Models
  import opened Addresses
  import opened PolicyGate
  import opened Effects
  import opened FirewallEffects
  import opened Audit

  /** `log` lists the action ids cleanups have handed to the rollback executor, `undone` those an
      auto-rollback has. */
  datatype Agent = Agent(elements: Elements, rows: seq<Row>, clock: int, log: seq<string>, undone: set<string>)

  /** What each action's command, or each action's rollback, meets. */
  type Hosts = string -> Host

  datatype Step =
    | Act(plans: seq<ActionPlan>, serviceOk: bool, autoRollback: bool, adds: Hosts, deletes: Hosts)
    | Tick(now: int)
    | CleanUp(limit: int, deletes: Hosts)
    | RollBack(actionId: string, host: Host)

  function Admits(p: Parsers, policy: Policy): ActionPlan -> bool {
    (plan: ActionPlan) => IsNetwork(plan.action) && Check(p, policy, plan).Allowed?
  }

  /** The network plans of a chain that pass the gate, as they reach the enforcement layer. */
  function Admitted(p: Parsers, policy: Policy, plans: seq<ActionPlan>, now: int, adds: Hosts): (r: seq<Attempt>)
    ensures forall a :: a in r ==> a.plan in plans && IsNetwork(a.plan.action) && Check(p, policy, a.plan).Allowed? && a.now == now
  {
    var passed := Where(plans, Admits(p, policy));
    assert forall i :: 0 <= i < |passed| ==> passed[i] in plans && Admits(p, policy)(passed[i]) by {
      forall i | 0 <= i < |passed| ensures passed[i] in plans && Admits(p, policy)(passed[i]) {
        WhereKeeps(plans, Admits(p, policy), passed[i]);
      }
    }
    seq(|passed|, i requires 0 <= i < |passed| => Attempt(passed[i], now, adds(passed[i].actionId)))
  }

  /** The row stored for a result; `undo` says that the health check failed and auto-rollback is on. */
  function RowOf(r: ActionResult, undo: bool, deletes: Hosts): Row {
    if undo && r.status.Success?
    then Row(r.actionId, if DeleteStatus(deletes(r.actionId)).Success? then RolledBack else r.status, true, r.rollback)
    else Row(r.actionId, r.status, false, r.rollback)
  }

  function SaveAll(rows: seq<Row>, results: seq<ActionResult>, undo: bool, deletes: Hosts): seq<Row>
    decreases |results|
  {
    if results == [] then rows
    else
      var row := RowOf(results[0], undo, deletes);
      SaveAll([row] + Where(rows, Other(row.actionId)), results[1..], undo, deletes)
  }

  predicate Succeeded(r: ActionResult) {
    r.status.Success?
  }

  function Deletions(results: seq<ActionResult>, deletes: Hosts): seq<Deletion> {
    seq(|results|, i requires 0 <= i < |results| => Deletion(results[i].rollback, deletes(results[i].actionId)))
  }

  function RowDeletions(rows: seq<Row>, deletes: Hosts): seq<Deletion> {
    seq(|rows|, i requires 0 <= i < |rows| => Deletion(rows[i].rollback, deletes(rows[i].actionId)))
  }

  function RowIds(rows: seq<Row>): seq<string> {
    seq(|rows|, i requires 0 <= i < |rows| => rows[i].actionId)
  }

  function ActStep(p: Parsers, policy: Policy, g: Agent, s: Step): Agent
    requires s.Act?
  {
    var undo := !s.serviceOk && s.autoRollback;
    var (elements, results) := EnforceAll(p, g.elements, Admitted(p, policy, s.plans, g.clock, s.adds));
    var successes := Where(results, Succeeded);
    g.(elements := if undo then DeleteAll(p, elements, Deletions(successes, s.deletes)) else elements,
       rows := SaveAll(g.rows, results, undo, s.deletes),
       undone := if undo then g.undone + (set r | r in successes :: r.actionId) else g.undone)
  }

  /** How each action's rollback ends. */
  function Endings(deletes: Hosts): string -> Status {
    (id: string) => DeleteStatus(deletes(id))
  }

  function CleanStep(p: Parsers, g: Agent, limit: int, deletes: Hosts): Agent {
    var expired := Expired(g.rows, g.clock, limit);
    g.(elements := DeleteAll(p, g.elements, RowDeletions(expired, deletes)),
       rows := Cleanup(g.rows, g.clock, limit, Endings(deletes)),
       log := g.log + RowIds(expired))
  }

  /** cmd_rollback_action: the row is rolled back whatever happened to it before, and keeps its status if that was
      skipped or failed. */
  function RolledRow(r: Row, outcome: Status): Row {
    r.(handed := true, status := if outcome.Success? then RolledBack else if outcome.Planned? then RollbackPlanned else r.status)
  }

  function HasId(id: string): Row -> bool {
    (r: Row) => r.actionId == id
  }

  function RollStep(p: Parsers, g: Agent, id: string, host: Host): Agent {
    match First(g.rows, HasId(id))
    case None => g
    case Some(row) =>
      g.(elements := Delete(p, g.elements, Deletion(row.rollback, host)),
         rows := seq(|g.rows|, i requires 0 <= i < |g.rows| =>
                       if g.rows[i].actionId == id then RolledRow(g.rows[i], NetworkStatus(g.rows[i].rollback, host)) else g.rows[i]))
  }

  /** Elements whose time has come are gone. */
  function Lapse(elements: Elements, now: int): Elements {
    map e | e in elements && elements[e] > now :: elements[e]
  }

  function Next(p: Parsers, policy: Policy, g: Agent, s: Step): Agent {
    match s
    case Act(_, _, _, _, _) => ActStep(p, policy, g, s)
    case Tick(now) => g.(elements := Lapse(g.elements, now), clock := now)
    case CleanUp(limit, deletes) => CleanStep(p, g, limit, deletes)
    case RollBack(id, host) => RollStep(p, g, id, host)
  }

  /** Time does not run backwards, and action ids are generated afresh. */
  ghost predicate Enabled(g: Agent, s: Step) {
    match s
    case Act(plans, _, _, _, _) =>
      && (forall i, j :: 0 <= i < j < |plans| ==> plans[i].actionId != plans[j].actionId)
      && (forall i, r :: 0 <= i < |plans| && r in g.rows ==> plans[i].actionId != r.actionId)
    case Tick(now) => now >= g.clock
    case _ => true
  }

  const START: Agent := Agent(map[], [], 0, [], {})

  /** The agent after a run from the start. */
  function Run(p: Parsers, policy: Policy, steps: seq<Step>): Agent {
    if steps == [] then START else Next(p, policy, Run(p, policy, steps[..|steps| - 1]), steps[|steps| - 1])
  }

  ghost predicate EnabledRun(p: Parsers, policy: Policy, steps: seq<Step>) {
    forall k :: 0 <= k < |steps| ==> Enabled(Run(p, policy, steps[..k]), steps[k])
  }

  // ---- The invariant ----

  /** A status under which the element may still be in place. */
  predicate MayStand(s: Status) {
    s.Success? || s.RollbackPlanned? || s.ExpiredRollbackPlanned?
  }

  /** Some stored action names the element, so it can still be undone. */
  ghost predicate OnRecord(p: Parsers, rows: seq<Row>, e: Element) {
    exists r :: r in rows && MayStand(r.status) && e in Named(p, r.rollback)
  }

  ghost predicate Settled(rows: seq<Row>, id: string) {
    exists r :: r in rows && r.actionId == id && r.handed
  }

  ghost predicate Inv(p: Parsers, g: Agent) {
    && DistinctRows(g.rows)
    && (forall e :: e in g.elements ==> g.clock < g.elements[e] <= g.clock + MAX_TTL)
    && (forall e :: e in g.elements ==> OnRecord(p, g.rows, e))
    && (forall id :: id in g.log || id in g.undone ==> Settled(g.rows, id))
    && Distinct(g.log)
    && (forall id :: id in g.log ==> id !in g.undone)
  }

  // ---- Enforcement keeps it ----

  lemma {:induction false} ResultsFollowAttempts(p: Parsers, elements: Elements, attempts: seq<Attempt>)
    requires forall a :: a in attempts ==> IsNetwork(a.plan.action)
    ensures var results := EnforceAll(p, elements, attempts).1;
            |results| == |attempts| && forall i :: 0 <= i < |attempts| ==> results[i].actionId == attempts[i].plan.actionId
    decreases |attempts|
  {
    if attempts != [] {
      var a := attempts[0];
      ResultsFollowAttempts(p, Enforce(p, elements, a.plan, a.now, a.host).0, attempts[1..]);
    }
  }

  /** Fresh, pairwise different result ids. */
  ghost predicate FreshResults(rows: seq<Row>, results: seq<ActionResult>) {
    && (forall i, j :: 0 <= i < j < |results| ==> results[i].actionId != results[j].actionId)
    && (forall i, r :: 0 <= i < |results| && r in rows ==> results[i].actionId != r.actionId)
  }

  lemma SaveOne(rows: seq<Row>, row: Row)
    requires DistinctRows(rows) && forall r :: r in rows ==> r.actionId != row.actionId
    ensures [row] + Where(rows, Other(row.actionId)) == [row] + rows
    ensures DistinctRows([row] + rows)
  {
    hide Where;
    WhereAll(rows, Other(row.actionId));
    assert forall i :: 0 <= i < |rows| ==> rows[i] in rows;
  }

  lemma FreshTail(rows: seq<Row>, results: seq<ActionResult>, undo: bool, deletes: Hosts)
    requires FreshResults(rows, results) && results != []
    ensures FreshResults([RowOf(results[0], undo, deletes)] + rows, results[1..])
    ensures forall r :: r in rows ==> r.actionId != RowOf(results[0], undo, deletes).actionId
  {
  }

  /** Saving fresh results keeps every old row and adds one row for each result. */
  lemma {:induction false} SaveAllKeeps(rows: seq<Row>, results: seq<ActionResult>, undo: bool, deletes: Hosts)
    requires DistinctRows(rows) && FreshResults(rows, results)
    ensures DistinctRows(SaveAll(rows, results, undo, deletes))
    ensures forall r :: r in rows ==> r in SaveAll(rows, results, undo, deletes)
    ensures forall x :: x in results ==> RowOf(x, undo, deletes) in SaveAll(rows, results, undo, deletes)
    decreases |results|
  {
    hide RowOf, DistinctRows, FreshResults, Where;
    if results != [] {
      var row := RowOf(results[0], undo, deletes);
      FreshTail(rows, results, undo, deletes);
      SaveOne(rows, row);
      SaveAllKeeps([row] + rows, results[1..], undo, deletes);
      assert row in [row] + rows;
      assert forall x :: x in results <==> x == results[0] || x in results[1..];
    }
  }

  lemma {:induction false} PlansStayDistinct(plans: seq<ActionPlan>, q: ActionPlan -> bool)
    requires forall i, j :: 0 <= i < j < |plans| ==> plans[i].actionId != plans[j].actionId
    ensures forall i, j :: 0 <= i < j < |Where(plans, q)| ==> Where(plans, q)[i].actionId != Where(plans, q)[j].actionId
  {
    if plans != [] {
      var init, last := plans[..|plans| - 1], plans[|plans| - 1];
      PlansStayDistinct(init, q);
      forall i | 0 <= i < |Where(init, q)| ensures Where(init, q)[i].actionId != last.actionId {
        WhereKeeps(init, q, Where(init, q)[i]);
        var k :| 0 <= k < |init| && init[k] == Where(init, q)[i];
        assert plans[k] == init[k];
      }
    }
  }

  lemma PlansFresh(p: Parsers, policy: Policy, g: Agent, s: Step)
    requires s.Act? && Enabled(g, s)
    ensures FreshResults(g.rows, EnforceAll(p, g.elements, Admitted(p, policy, s.plans, g.clock, s.adds)).1)
  {
    hide EnforceAll, Where;
    var passed := Where(s.plans, Admits(p, policy));
    var attempts := Admitted(p, policy, s.plans, g.clock, s.adds);
    ResultsFollowAttempts(p, g.elements, attempts);
    PlansStayDistinct(s.plans, Admits(p, policy));
    WhereMembers(s.plans, Admits(p, policy));
    forall i, r | 0 <= i < |passed| && r in g.rows ensures passed[i].actionId != r.actionId {
      assert passed[i] in passed;
      var k :| 0 <= k < |s.plans| && s.plans[k] == passed[i];
    }
  }

  lemma WorkingDeleteLifts(p: Parsers, results: seq<ActionResult>, deletes: Hosts, x: ActionResult, e: Element)
    requires x in results && x.status.Success? && e in Named(p, x.rollback)
    ensures DeleteStatus(deletes(x.actionId)).Success? ==> e in Lifted(p, Deletions(Where(results, Succeeded), deletes))
  {
    hide Named;
    var successes := Where(results, Succeeded);
    WhereKeeps(results, Succeeded, x);
    var k :| 0 <= k < |successes| && successes[k] == x;
    assert Deletions(successes, deletes)[k] == Deletion(x.rollback, deletes(x.actionId));
  }

  /** However each rollback ends, the elements left by a response are old ones, or were put by a plan that passed
      the gate and are named by a success that was not rolled back. */
  lemma ActLeaves(p: Parsers, policy: Policy, g: Agent, s: Step, e: Element)
    requires s.Act? && e in ActStep(p, policy, g, s).elements
    ensures var after := ActStep(p, policy, g, s).elements;
            || (e in g.elements && after[e] == g.elements[e])
            || exists plan :: plan in s.plans && Check(p, policy, plan).Allowed? && Puts(p, plan, g.clock, e, after[e])
    ensures e in g.elements ||
            exists x :: x in EnforceAll(p, g.elements, Admitted(p, policy, s.plans, g.clock, s.adds)).1 && x.status.Success?
                        && e in Named(p, x.rollback)
                        && (!s.serviceOk && s.autoRollback ==> !DeleteStatus(s.deletes(x.actionId)).Success?)
  {
    hide Named, EnforceAll, DeleteAll, Puts, DeleteStatus, Where, Check;
    var attempts := Admitted(p, policy, s.plans, g.clock, s.adds);
    var (mid, results) := EnforceAll(p, g.elements, attempts);
    var successes := Where(results, Succeeded);
    var deletions := Deletions(successes, s.deletes);
    DeleteAllRemovesNamed(p, mid, deletions);
    EnforceAllTraces(p, g.elements, attempts, e);
    if e !in g.elements {
      var x :| x in results && x.status.Success? && e in Named(p, x.rollback);
      WorkingDeleteLifts(p, results, s.deletes, x, e);
    }
  }

  lemma ActKeepsRecords(p: Parsers, policy: Policy, g: Agent, s: Step)
    requires s.Act? && Inv(p, g) && Enabled(g, s)
    ensures var h := ActStep(p, policy, g, s);
            && DistinctRows(h.rows)
            && (forall e :: e in h.elements ==> OnRecord(p, h.rows, e))
            && (forall id :: id in h.log || id in h.undone ==> Settled(h.rows, id))
            && (forall id :: id in h.log ==> id !in h.undone)
  {
    hide Enabled, SaveAll, EnforceAll, Named, Puts;
    var h, undo := ActStep(p, policy, g, s), !s.serviceOk && s.autoRollback;
    var results := EnforceAll(p, g.elements, Admitted(p, policy, s.plans, g.clock, s.adds)).1;
    var successes := Where(results, Succeeded);
    PlansFresh(p, policy, g, s);
    SaveAllKeeps(g.rows, results, undo, s.deletes);
    forall e | e in h.elements ensures OnRecord(p, h.rows, e) {
      ActLeaves(p, policy, g, s, e);
      if e !in g.elements {
        var x :| x in results && x.status.Success? && e in Named(p, x.rollback)
                 && (undo ==> !DeleteStatus(s.deletes(x.actionId)).Success?);
        assert RowOf(x, undo, s.deletes) in h.rows;
      }
    }
    forall id | id in h.undone ensures Settled(h.rows, id) && id !in h.log {
      if id in g.undone {
        assert Settled(g.rows, id);
      } else {
        var x :| x in successes && x.actionId == id;
        WhereKeeps(results, Succeeded, x);
        assert RowOf(x, undo, s.deletes) in h.rows;
        var k :| 0 <= k < |results| && results[k] == x;
        assert !Settled(g.rows, id);
      }
    }
    forall id | id in h.log ensures Settled(h.rows, id) {
      assert Settled(g.rows, id);
    }
  }

  lemma ActKeepsInv(p: Parsers, policy: Policy, g: Agent, s: Step)
    requires s.Act? && Inv(p, g) && Enabled(g, s)
    ensures Inv(p, ActStep(p, policy, g, s))
  {
    hide OnRecord, Settled, Enabled, SaveAll, EnforceAll;
    ActKeepsRecords(p, policy, g, s);
    var h := ActStep(p, policy, g, s);
    forall e | e in h.elements ensures h.clock < h.elements[e] <= h.clock + MAX_TTL {
      ActLeaves(p, policy, g, s, e);
    }
  }

  // ---- Cleanup and manual rollback keep it ----

  /** What a cleanup makes of the row at position i. */
  lemma CleanedRow(g: Agent, limit: int, deletes: Hosts, i: nat)
    requires DistinctRows(g.rows) && i < |g.rows|
    ensures var rows, row := Cleanup(g.rows, g.clock, limit, Endings(deletes)), g.rows[i];
            |rows| == |g.rows|
            && rows[i] == if row in Expired(g.rows, g.clock, limit) then Cleaned(row, DeleteStatus(deletes(row.actionId))) else row
  {
    hide Cleaned, Expired;
    var expired, row := Expired(g.rows, g.clock, limit), g.rows[i];
    ExpiredFacts(g.rows, g.clock, limit);
    if row.actionId in IdsOf(expired) {
      var x :| x in expired && x.actionId == row.actionId;
      var j :| 0 <= j < |g.rows| && g.rows[j] == x;
      assert j == i;
    }
  }

  /** However each delete ends, a cleanup lifts exactly the elements named by the handed-over rows whose delete works. */
  lemma CleanupLiftsExactly(p: Parsers, g: Agent, limit: int, deletes: Hosts, e: Element)
    requires e in g.elements
    ensures var after := CleanStep(p, g, limit, deletes).elements;
            && (e in after <==>
                forall r :: r in Expired(g.rows, g.clock, limit) && DeleteStatus(deletes(r.actionId)).Success? ==> e !in Named(p, r.rollback))
            && (e in after ==> after[e] == g.elements[e])
  {
    hide Named, Expired, DeleteStatus;
    var expired := Expired(g.rows, g.clock, limit);
    var deletions := RowDeletions(expired, deletes);
    DeleteAllRemovesNamed(p, g.elements, deletions);
    forall r | r in expired ensures Deletion(r.rollback, deletes(r.actionId)) in deletions {
      var k :| 0 <= k < |expired| && expired[k] == r;
      assert deletions[k] == Deletion(r.rollback, deletes(r.actionId));
    }
    if e in Lifted(p, deletions) {
      var d :| d in deletions && DeleteStatus(d.host).Success? && e in Named(p, d.payload);
      var k :| 0 <= k < |deletions| && deletions[k] == d;
      assert expired[k] in expired;
    }
  }

  lemma CleanKeepsRecord(p: Parsers, g: Agent, limit: int, deletes: Hosts, e: Element)
    requires DistinctRows(g.rows) && OnRecord(p, g.rows, e) && e in g.elements && e in CleanStep(p, g, limit, deletes).elements
    ensures OnRecord(p, CleanStep(p, g, limit, deletes).rows, e)
  {
    hide Named, Expired, Cleanup, DeleteAll;
    var h := CleanStep(p, g, limit, deletes);
    var r :| r in g.rows && MayStand(r.status) && e in Named(p, r.rollback);
    var i :| 0 <= i < |g.rows| && g.rows[i] == r;
    CleanedRow(g, limit, deletes, i);
    CleanupLiftsExactly(p, g, limit, deletes, e);
    assert h.rows[i] in h.rows;
  }

  lemma CleanSettles(p: Parsers, g: Agent, limit: int, deletes: Hosts, id: string)
    requires DistinctRows(g.rows)
    ensures Settled(g.rows, id) ==> Settled(CleanStep(p, g, limit, deletes).rows, id) && id !in RowIds(Expired(g.rows, g.clock, limit))
    ensures id in RowIds(Expired(g.rows, g.clock, limit)) ==> Settled(CleanStep(p, g, limit, deletes).rows, id)
  {
    hide Expired, Cleanup, DeleteAll;
    var expired, h := Expired(g.rows, g.clock, limit), CleanStep(p, g, limit, deletes);
    ExpiredFacts(g.rows, g.clock, limit);
    if Settled(g.rows, id) {
      var r :| r in g.rows && r.actionId == id && r.handed;
      var i :| 0 <= i < |g.rows| && g.rows[i] == r;
      CleanedRow(g, limit, deletes, i);
      assert h.rows[i] in h.rows && h.rows[i].handed;
      forall k | 0 <= k < |expired| ensures expired[k].actionId != id {
        assert expired[k] in expired;
        var j :| 0 <= j < |g.rows| && g.rows[j] == expired[k];
      }
    }
    if id in RowIds(expired) {
      var k :| 0 <= k < |expired| && expired[k].actionId == id;
      assert expired[k] in expired;
      var j :| 0 <= j < |g.rows| && g.rows[j] == expired[k];
      CleanedRow(g, limit, deletes, j);
      assert h.rows[j] in h.rows && h.rows[j].handed;
    }
  }

  lemma CleanKeepsLog(p: Parsers, g: Agent, limit: int, deletes: Hosts)
    requires Inv(p, g)
    ensures var h := CleanStep(p, g, limit, deletes);
            && (forall id :: id in h.log || id in h.undone ==> Settled(h.rows, id))
            && Distinct(h.log)
            && (forall id :: id in h.log ==> id !in h.undone)
  {
    hide OnRecord, Settled, Expired, Cleanup, DeleteAll;
    var fresh_ := RowIds(Expired(g.rows, g.clock, limit));
    forall id
      ensures Settled(g.rows, id) ==> Settled(CleanStep(p, g, limit, deletes).rows, id) && id !in fresh_
      ensures id in fresh_ ==> Settled(CleanStep(p, g, limit, deletes).rows, id)
    {
      CleanSettles(p, g, limit, deletes, id);
    }
    ExpiredFacts(g.rows, g.clock, limit);
    assert Distinct(fresh_);
    assert forall i :: 0 <= i < |g.log| ==> g.log[i] in g.log;
    assert forall i :: 0 <= i < |fresh_| ==> fresh_[i] in fresh_;
  }

  lemma CleanKeepsInv(p: Parsers, g: Agent, limit: int, deletes: Hosts)
    requires Inv(p, g)
    ensures Inv(p, CleanStep(p, g, limit, deletes))
  {
    hide OnRecord, Settled, Expired;
    var h := CleanStep(p, g, limit, deletes);
    CleanupKeepsIds(g.rows, g.clock, limit, Endings(deletes));
    CleanKeepsLog(p, g, limit, deletes);
    DeleteAllRemovesNamed(p, g.elements, RowDeletions(Expired(g.rows, g.clock, limit), deletes));
    forall e | e in h.elements ensures OnRecord(p, h.rows, e) && h.clock < h.elements[e] <= h.clock + MAX_TTL {
      assert h.elements[e] == g.elements[e];
      CleanKeepsRecord(p, g, limit, deletes, e);
    }
  }

  lemma RolledRows(p: Parsers, g: Agent, id: string, host: Host)
    requires DistinctRows(g.rows)
    ensures var h := RollStep(p, g, id, host);
            && DistinctRows(h.rows)
            && (forall x :: Settled(g.rows, x) ==> Settled(h.rows, x))
  {
    var h := RollStep(p, g, id, host);
    forall x | Settled(g.rows, x) ensures Settled(h.rows, x) {
      var r :| r in g.rows && r.actionId == x && r.handed;
      var i :| 0 <= i < |g.rows| && g.rows[i] == r;
      assert h.rows[i] in h.rows;
    }
  }

  lemma RolledElement(p: Parsers, g: Agent, id: string, host: Host, e: Element)
    requires DistinctRows(g.rows) && e in RollStep(p, g, id, host).elements
    ensures e in g.elements && RollStep(p, g, id, host).elements[e] == g.elements[e]
    ensures OnRecord(p, g.rows, e) ==> OnRecord(p, RollStep(p, g, id, host).rows, e)
  {
    hide Named;
    var h := RollStep(p, g, id, host);
    FirstExists(g.rows, HasId(id));
    if OnRecord(p, g.rows, e) {
      var r :| r in g.rows && MayStand(r.status) && e in Named(p, r.rollback);
      var i :| 0 <= i < |g.rows| && g.rows[i] == r;
      assert h.rows[i] in h.rows;
    }
  }

  lemma RollKeepsInv(p: Parsers, g: Agent, id: string, host: Host)
    requires Inv(p, g)
    ensures Inv(p, RollStep(p, g, id, host))
  {
    hide OnRecord, Settled;
    var h := RollStep(p, g, id, host);
    RolledRows(p, g, id, host);
    forall e | e in h.elements ensures OnRecord(p, h.rows, e) && h.clock < h.elements[e] <= h.clock + MAX_TTL {
      RolledElement(p, g, id, host, e);
    }
  }

  lemma NextKeepsInv(p: Parsers, policy: Policy, g: Agent, s: Step)
    requires Inv(p, g) && Enabled(g, s)
    ensures Inv(p, Next(p, policy, g, s))
  {
    hide OnRecord, Settled, ActStep, CleanStep, RollStep;
    match s
    case Act(_, _, _, _, _) => ActKeepsInv(p, policy, g, s);
    case Tick(_) =>
    case CleanUp(limit, deletes) => CleanKeepsInv(p, g, limit, deletes);
    case RollBack(id, host) => RollKeepsInv(p, g, id, host);
  }

  /** Every run stays in invariant states. */
  lemma {:induction false} RunKeepsInv(p: Parsers, policy: Policy, steps: seq<Step>)
    requires EnabledRun(p, policy, steps)
    ensures Inv(p, Run(p, policy, steps))
  {
    if steps != [] {
      var init, s := steps[..|steps| - 1], steps[|steps| - 1];
      assert EnabledRun(p, policy, init) by {
        assert forall k :: 0 <= k < |init| ==> init[..k] == steps[..k];
      }
      RunKeepsInv(p, policy, init);
      hide Inv, Enabled, Next;
      NextKeepsInv(p, policy, Run(p, policy, init), s);
    }
  }

  // ---- What every run guarantees ----

  /** Step k of the run is a response in which this plan passed the gate and put e with this expiry. */
  ghost predicate PutAt(p: Parsers, policy: Policy, steps: seq<Step>, k: int, plan: ActionPlan, e: Element, expires: int) {
    && 0 <= k < |steps| && steps[k].Act? && plan in steps[k].plans
    && Check(p, policy, plan).Allowed?
    && Puts(p, plan, Run(p, policy, steps[..k]).clock, e, expires)
  }

  /** Only responses put elements or renew them. */
  lemma StepLeaves(p: Parsers, policy: Policy, g: Agent, s: Step, e: Element)
    requires e in Next(p, policy, g, s).elements
    ensures var after := Next(p, policy, g, s).elements;
            || (e in g.elements && after[e] == g.elements[e])
            || (s.Act? && exists plan :: plan in s.plans && Check(p, policy, plan).Allowed? && Puts(p, plan, g.clock, e, after[e]))
  {
    hide Check, Puts, EnforceAll, Cleanup, Expired;
    match s
    case Act(_, _, _, _, _) => ActLeaves(p, policy, g, s, e);
    case Tick(_) =>
    case CleanUp(limit, deletes) =>
      DeleteAllRemovesNamed(p, g.elements, RowDeletions(Expired(g.rows, g.clock, limit), deletes));
    case RollBack(_, _) =>
  }

  /** Whatever stands in the firewall with whatever expiry was put there by a plan of the run that passed the gate. */
  lemma {:induction false} EveryElementWasPut(p: Parsers, policy: Policy, steps: seq<Step>, e: Element)
    requires e in Run(p, policy, steps).elements
    ensures exists k, plan :: PutAt(p, policy, steps, k, plan, e, Run(p, policy, steps).elements[e])
  {
    hide Check, Puts, ActStep, CleanStep, RollStep;
    var init, s := steps[..|steps| - 1], steps[|steps| - 1];
    var g, h := Run(p, policy, init), Run(p, policy, steps);
    StepLeaves(p, policy, g, s, e);
    if e in g.elements && h.elements[e] == g.elements[e] {
      EveryElementWasPut(p, policy, init, e);
      var k, plan :| PutAt(p, policy, init, k, plan, e, g.elements[e]);
      assert init[..k] == steps[..k];
      assert PutAt(p, policy, steps, k, plan, e, h.elements[e]);
    } else {
      var plan :| plan in s.plans && Check(p, policy, plan).Allowed? && Puts(p, plan, g.clock, e, h.elements[e]);
      assert PutAt(p, policy, steps, |init|, plan, e, h.elements[e]);
    }
  }

  /** Firewall safety: after any run, whatever command of it failed, every element has the version of its set and
      an enforceable address, has not lapsed, and can be undone from the action table. Some plan of the run put
      it with 60 to 604800 seconds to go; that plan's text was padded, or neither is the text listed nor does
      the address lie in a listed network. */
  lemma FirewallSafety(p: Parsers, policy: Policy, steps: seq<Step>, e: Element)
    requires EnabledRun(p, policy, steps)
    requires e in Run(p, policy, steps).elements
    ensures e.name.version == e.address.Version() && Enforceable(e.address)
    ensures Run(p, policy, steps).clock < Run(p, policy, steps).elements[e]
    ensures OnRecord(p, Run(p, policy, steps).rows, e)
    ensures exists k, plan ::
              && PutAt(p, policy, steps, k, plan, e, Run(p, policy, steps).elements[e])
              && MIN_TTL <= Run(p, policy, steps).elements[e] - Run(p, policy, steps[..k]).clock <= MAX_TTL
              && (|| Strip(plan.target) != plan.target
                  || (plan.target !in policy.ips && !InSomeNetwork(p, e.address, policy.cidrs)))
  {
    RunKeepsInv(p, policy, steps);
    hide Run, Settled;
    EveryElementWasPut(p, policy, steps, e);
    var k, plan :| PutAt(p, policy, steps, k, plan, e, Run(p, policy, steps).elements[e]);
    ValidMeansEnforceable(p, plan.target, e.address.Version());
  }

  /** A run whose plans spell their targets as the lists do never puts a protected address into any set. */
  lemma PlainRunsRespectTheAllowlist(p: Parsers, policy: Policy, steps: seq<Step>, e: Element)
    requires forall k, plan :: 0 <= k < |steps| && steps[k].Act? && plan in steps[k].plans ==> Plain(p, policy, plan.target)
    requires e in Run(p, policy, steps).elements
    ensures !Protected(p, e.address, policy.ips, policy.cidrs)
  {
    hide Run, Plain, Protected;
    EveryElementWasPut(p, policy, steps, e);
    var k, plan :| PutAt(p, policy, steps, k, plan, e, Run(p, policy, steps).elements[e]);
    PlainTargetsAreProtected(p, policy, plan);
  }

  /** Over any run a cleanup hands each action to the executor at most once, and never one that an
      auto-rollback has already been given, whether that worked or not. */
  lemma HandedAtMostOnce(p: Parsers, policy: Policy, steps: seq<Step>)
    requires EnabledRun(p, policy, steps)
    ensures Distinct(Run(p, policy, steps).log)
    ensures forall id :: id in Run(p, policy, steps).log ==> id !in Run(p, policy, steps).undone
  {
    RunKeepsInv(p, policy, steps);
  }

  // ---- An older row lifts a newer block ----

  predicate WorkingHost(host: Host) {
    !host.dryRun && host.isRoot && host.nftInstalled && host.setupOk && host.commandOk
  }

  /** Every command meets the same host. */
  function Everywhere(host: Host): Hosts {
    (_: string) => host
  }

  /** A response that blocks one address and finds the service healthy. */
  function Block(plan: ActionPlan, host: Host): Step {
    Act([plan], true, true, Everywhere(host), Everywhere(host))
  }

  function BlockRow(v: Version, plan: ActionPlan, now: int): Row {
    Row(plan.actionId, Success, false, DeleteElement(BlockIn(v), plan.target, now + Ttl(plan)))
  }

  lemma AllowedBlockIsValid(p: Parsers, policy: Policy, plan: ActionPlan, a: Address)
    requires plan.action.BlockIpTtl? && Check(p, policy, plan).Allowed? && AddressOf(p, plan.target) == Some(a)
    ensures Validate(p, plan.target) == Valid(a.Version())
  {
  }

  lemma BlockPuts(p: Parsers, policy: Policy, g: Agent, plan: ActionPlan, host: Host, e: Element)
    requires plan.action.BlockIpTtl? && Check(p, policy, plan).Allowed? && WorkingHost(host)
    requires AddressOf(p, plan.target) == Some(e.address) && e.name == BlockIn(e.address.Version())
    requires forall r :: r in g.rows ==> r.actionId != plan.actionId
    ensures ActStep(p, policy, g, Block(plan, host)) ==
            g.(elements := AddElement(g.elements, e, g.clock + Ttl(plan), host.refreshes),
               rows := [BlockRow(e.address.Version(), plan, g.clock)] + g.rows)
  {
    hide Check, Where;
    var s := Block(plan, host);
    WhereExtends([], plan, Admits(p, policy));
    assert [] + [plan] == [plan] && Where([], Admits(p, policy)) == [] by {
      WhereAll([], Admits(p, policy));
    }
    var attempts := Admitted(p, policy, [plan], g.clock, s.adds);
    assert attempts == [Attempt(plan, g.clock, host)];
    AllowedBlockIsValid(p, policy, plan, e.address);
    var (after, r) := Enforce(p, g.elements, plan, g.clock, host);
    assert attempts[1..] == [] && EnforceAll(p, after, []) == (after, []);
    assert [r] + [] == [r];
    assert EnforceAll(p, g.elements, attempts) == (after, [r]);
    assert RowOf(r, false, s.deletes) == BlockRow(e.address.Version(), plan, g.clock);
    WhereAll(g.rows, Other(plan.actionId));
    assert [r][1..] == [];
    assert SaveAll(g.rows, [r], false, s.deletes) == [BlockRow(e.address.Version(), plan, g.clock)] + g.rows;
  }

  lemma OlderRowLifts(p: Parsers, g: Agent, older: Row, newer: Row, e: Element, deletes: Hosts)
    requires DeleteStatus(deletes(older.actionId)).Success? && g.rows == [newer, older] && newer.actionId != older.actionId
    requires Eligible(g.clock)(older) && ExpiresAt(newer) > g.clock
    requires e in Named(p, older.rollback) && e in g.elements
    ensures newer in CleanStep(p, g, 1, deletes).rows && e !in CleanStep(p, g, 1, deletes).elements
  {
    HandedExactly(g.rows, g.clock, 1, 1);
    assert g.rows[..1] == [newer];
    WhereExtends([], newer, Eligible(g.clock));
    assert [] + [newer] == [newer];
    assert Backlog([newer], g.clock) == 0;
    CleanupLiftsExactly(p, g, 1, deletes, e);
    HandedExactly(g.rows, g.clock, 1, 0);
    CleanedRow(g, 1, deletes, 0);
  }

  function LiftingRun(first: ActionPlan, second: ActionPlan, host: Host, t1: int, t2: int): seq<Step> {
    [Block(first, host), Tick(t1), Block(second, host), Tick(t2), CleanUp(1, Everywhere(host))]
  }

  lemma RunStep(p: Parsers, policy: Policy, steps: seq<Step>, k: nat)
    requires k < |steps|
    ensures Run(p, policy, steps[..k + 1]) == Next(p, policy, Run(p, policy, steps[..k]), steps[k])
    ensures k == 0 ==> Run(p, policy, steps[..k]) == START
  {
    assert steps[..k + 1][..k] == steps[..k];
  }

  lemma BlockRowFacts(p: Parsers, plan: ActionPlan, now: int, e: Element)
    requires AddressOf(p, plan.target) == Some(e.address) && e.name == BlockIn(e.address.Version())
    ensures var r := BlockRow(e.address.Version(), plan, now);
            r.actionId == plan.actionId && Pending(r) && ExpiresAt(r) == now + Ttl(plan) && e in Named(p, r.rollback)
  {
  }

  /** Before the cleanup both rows are live, and the element stands with the second one's expiry. */
  lemma TwoBlocksStand(p: Parsers, policy: Policy, first: ActionPlan, second: ActionPlan, host: Host, t1: int, t2: int, e: Element)
    requires first.action.BlockIpTtl? && second.action.BlockIpTtl? && first.actionId != second.actionId && first.target == second.target
    requires Check(p, policy, first).Allowed? && Check(p, policy, second).Allowed? && WorkingHost(host)
    requires AddressOf(p, first.target) == Some(e.address) && e.name == BlockIn(e.address.Version())
    requires 0 <= t1 <= t2 && Ttl(first) <= t2 < t1 + Ttl(second) && (t1 < Ttl(first) ==> host.refreshes)
    ensures var steps, v := LiftingRun(first, second, host, t1, t2), e.address.Version();
            var g := Run(p, policy, steps[..4]);
            && EnabledRun(p, policy, steps)
            && g.rows == [BlockRow(v, second, t1), BlockRow(v, first, 0)] && g.clock == t2
            && e in g.elements && g.elements[e] == t1 + Ttl(second)
            && Run(p, policy, steps) == CleanStep(p, g, 1, Everywhere(host))
  {
    hide Check, Everywhere, ActStep, CleanStep, BlockRow, Run, Ttl, WorkingHost;
    var steps, v := LiftingRun(first, second, host, t1, t2), e.address.Version();
    var older, newer := BlockRow(v, first, 0), BlockRow(v, second, t1);
    BlockRowFacts(p, first, 0, e);
    RunStep(p, policy, steps, 0);
    BlockPuts(p, policy, START, first, host, e);
    RunStep(p, policy, steps, 1);
    RunStep(p, policy, steps, 2);
    var g2 := Run(p, policy, steps[..2]);
    BlockPuts(p, policy, g2, second, host, e);
    RunStep(p, policy, steps, 3);
    RunStep(p, policy, steps, 4);
    assert steps[..5] == steps;
    forall k | 0 <= k < |steps| ensures Enabled(Run(p, policy, steps[..k]), steps[k]) {
    }
  }

  lemma CleanStepClock(p: Parsers, g: Agent, limit: int, deletes: Hosts)
    ensures CleanStep(p, g, limit, deletes).clock == g.clock
  {
  }

  /** A run from the start in which a cleanup lifts a block that has not expired: the address was blocked twice,
      the first row is expired, and the second still counts as a live success although its element is gone. */
  lemma LaterBlockIsLifted(p: Parsers, policy: Policy, first: ActionPlan, second: ActionPlan, host: Host, t1: int, t2: int, e: Element)
    requires first.action.BlockIpTtl? && second.action.BlockIpTtl? && first.actionId != second.actionId && first.target == second.target
    requires Check(p, policy, first).Allowed? && Check(p, policy, second).Allowed? && WorkingHost(host)
    requires AddressOf(p, first.target) == Some(e.address) && e.name == BlockIn(e.address.Version())
    requires 0 <= t1 <= t2 && Ttl(first) <= t2 < t1 + Ttl(second) && (t1 < Ttl(first) ==> host.refreshes)
    ensures var steps := LiftingRun(first, second, host, t1, t2);
            var (before, after) := (Run(p, policy, steps[..4]), Run(p, policy, steps));
            && EnabledRun(p, policy, steps)
            && e in before.elements && before.elements[e] > before.clock
            && e !in after.elements
            && exists r :: r in after.rows && r.actionId == second.actionId && Pending(r) && e in Named(p, r.rollback) && ExpiresAt(r) > after.clock
  {
    TwoBlocksStand(p, policy, first, second, host, t1, t2, e);
    BlockRowFacts(p, first, 0, e);
    BlockRowFacts(p, second, t1, e);
    hide Check, Run, LiftingRun, EnabledRun, Ttl, CleanStep, BlockRow, Named, AddressOf, ExpiresAt, Pending;
    var v := e.address.Version();
    var g := Run(p, policy, LiftingRun(first, second, host, t1, t2)[..4]);
    OlderRowLifts(p, g, BlockRow(v, first, 0), BlockRow(v, second, t1), e, Everywhere(host));
    CleanStepClock(p, g, 1, Everywhere(host));
  }

  // ---- The definitions in literals ----

  lemma LapsesInFull(elements: Elements, now: int, e: Element)
    ensures e in Lapse(elements, now) <==> e in elements && elements[e] > now
    ensures e in Lapse(elements, now) ==> Lapse(elements, now)[e] == elements[e]
  {
  }

  /** What is stored for a result: after a failing health check with auto-rollback a success counts as handed over, and
      as rolled back where that worked. */
  lemma RecordInFull(r: ActionResult, undo: bool, deletes: Hosts)
    ensures var row, host := RowOf(r, undo, deletes), deletes(r.actionId);
            && row.actionId == r.actionId && row.rollback == r.rollback
            && (row.handed <==> undo && r.status == Success)
            && row.status == if undo && r.status == Success && !host.dryRun && host.isRoot && host.commandOk then RolledBack else r.status
  {
  }

  lemma {:induction false} FirstRow(rows: seq<Audit.Row>, id: string, k: nat)
    requires k < |rows| && rows[k].actionId == id && forall j :: 0 <= j < k ==> rows[j].actionId != id
    ensures First(rows, HasId(id)) == Some(rows[k])
  {
    if k > 0 {
      FirstRow(rows[1..], id, k - 1);
    }
  }

  /** A manual rollback of a stored id restates the rows of that id, and lifts what the first of them names. */
  lemma RolledInFull(p: Parsers, g: Agent, id: string, host: Host, k: nat)
    requires k < |g.rows|
    ensures var after := RollStep(p, g, id, host).rows;
            var works := g.rows[k].rollback.DeleteElement? && !host.dryRun && host.isRoot && host.commandOk;
            var planned := g.rows[k].rollback.DeleteElement? && host.dryRun;
            && |after| == |g.rows|
            && (g.rows[k].actionId != id ==> after[k] == g.rows[k])
            && (g.rows[k].actionId == id ==>
                  after[k] == g.rows[k].(handed := true,
                                         status := if works then RolledBack else if planned then RollbackPlanned else g.rows[k].status))
    ensures (forall j :: 0 <= j < k ==> g.rows[j].actionId != id) && g.rows[k].actionId == id ==>
              RollStep(p, g, id, host).elements == Delete(p, g.elements, Deletion(g.rows[k].rollback, host))
  {
    hide Delete, DeleteStatus;
    var row := g.rows[k];
    FirstExists(g.rows, HasId(id));
    assert row in g.rows && (row.actionId == id <==> HasId(id)(row));
    if (forall j :: 0 <= j < k ==> g.rows[j].actionId != id) && row.actionId == id {
      FirstRow(g.rows, id, k);
    }
    DeleteInFull(host);
  }

  /** Over every run, an element of the inbound, outbound or rate-limit set was put by a plan of exactly that action
      that met every condition of the gate, with that plan's own timeout. */
  lemma ElementsFollowTheirAction(p: Parsers, policy: Policy, steps: seq<Step>, e: Element)
    requires e in Run(p, policy, steps).elements
    ensures exists k, plan ::
              && 0 <= k < |steps| && steps[k].Act? && plan in steps[k].plans
              && AddressOf(p, plan.target) == Some(e.address)
              && Belongs(plan.action, e.name, e.address.Version())
              && MeetsEveryCondition(p, policy, plan) && PolicyPermits(policy, plan)
              && Run(p, policy, steps).elements[e] == Run(p, policy, steps[..k]).clock + Ttl(plan)
  {
    hide Check, Run, MeetsEveryCondition, Ttl;
    EveryElementWasPut(p, policy, steps, e);
    var k, plan :| PutAt(p, policy, steps, k, plan, e, Run(p, policy, steps).elements[e]);
    AllowedExactly(p, policy, plan);
    MeetingPermits(p, policy, plan);
  }
}
