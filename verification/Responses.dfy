/** The firewall half of a response is the step of the runs: what one chain of run_once does to the host, in
    src/aegis_agent/core/loop_controller.py, is what the run theorems speak about. */
module Responses {
  import opened Common
  import opened Lists
  import opened Models
  import opened Addresses
  import opened PolicyGate
  import opened Effects
  import opened FileEffects
  import opened FirewallEffects
  import opened Executors
  import opened Controller
  import AgentRuns

  function Plans(orders: seq<Order>): seq<ActionPlan> {
    seq(|orders|, i requires 0 <= i < |orders| => orders[i].plan)
  }

  /** The orders are those of one response at this clock: what commands and rollbacks meet is told by action id. */
  ghost predicate AtOnce(orders: seq<Order>, now: int, adds: AgentRuns.Hosts, deletes: AgentRuns.Hosts) {
    forall o :: o in orders ==> o.now == now && o.host == adds(o.plan.actionId) && o.undo == deletes(o.plan.actionId)
  }

  lemma AdmittedExtends(p: Parsers, policy: Policy, plans: seq<ActionPlan>, plan: ActionPlan, now: int, adds: AgentRuns.Hosts)
    ensures AgentRuns.Admitted(p, policy, plans + [plan], now, adds) ==
            AgentRuns.Admitted(p, policy, plans, now, adds)
            + if IsNetwork(plan.action) && Check(p, policy, plan).Allowed? then [Attempt(plan, now, adds(plan.actionId))] else []
  {
    hide Check;
    WhereExtends(plans, plan, AgentRuns.Admits(p, policy));
  }

  /** The orders that pass, with one more at the end. */
  lemma PassedExtends(p: Parsers, policy: Policy, init: seq<Order>, last: Order)
    ensures var passed := Where(init, Passes(p, policy));
            Where(init + [last], Passes(p, policy)) == if Check(p, policy, last.plan).Allowed? then passed + [last] else passed
  {
    hide Check;
    WhereExtends(init, last, Passes(p, policy));
  }

  lemma NothingAdmitted(p: Parsers, policy: Policy, now: int, adds: AgentRuns.Hosts)
    ensures AgentRuns.Admitted(p, policy, Plans([]), now, adds) == Attempts(Where([], Passes(p, policy))) == []
    ensures Undos(Where([], Passes(p, policy))) == []
  {
    hide Check;
  }

  lemma {:induction false} AdmittedAreAttempts(p: Parsers, policy: Policy, orders: seq<Order>, now: int,
                                               adds: AgentRuns.Hosts, deletes: AgentRuns.Hosts)
    requires AtOnce(orders, now, adds, deletes)
    ensures AgentRuns.Admitted(p, policy, Plans(orders), now, adds) == Attempts(Where(orders, Passes(p, policy)))
    ensures var passed := Where(orders, Passes(p, policy));
            forall i :: 0 <= i < |Undos(passed)| ==> Undos(passed)[i] == deletes(Attempts(passed)[i].plan.actionId)
  {
    hide Check, AgentRuns.Admitted, Attempts, Undos, Where;
    if orders == [] {
      NothingAdmitted(p, policy, now, adds);
    } else {
      var init, last := orders[..|orders| - 1], orders[|orders| - 1];
      assert last in orders && forall o :: o in init ==> o in orders;
      AdmittedAreAttempts(p, policy, init, now, adds, deletes);
      AdmittedExtends(p, policy, Plans(init), last.plan, now, adds);
      assert Plans(orders) == Plans(init) + [last.plan];
      assert orders == init + [last];
      PassedExtends(p, policy, init, last);
      OrdersExtend(Where(init, Passes(p, policy)), last);
    }
  }

  /** The deletions of the successes are those the controller hands out one by one. */
  lemma {:induction false} SameDeletions(results: seq<ActionResult>, undos: seq<Host>, deletes: AgentRuns.Hosts)
    requires |results| == |undos| && forall i :: 0 <= i < |results| ==> undos[i] == deletes(results[i].actionId)
    ensures SuccessDeletions(Records(results, undos)) == AgentRuns.Deletions(Where(results, AgentRuns.Succeeded), deletes)
  {
    if results != [] {
      var init, last := results[..|results| - 1], results[|results| - 1];
      var before := undos[..|undos| - 1];
      SameDeletions(init, before, deletes);
      var records := Records(results, undos);
      assert records[..|records| - 1] == Records(init, before);
      assert records[|records| - 1] == Recorded(last, undos[|undos| - 1], None);
      assert results == init + [last];
    }
  }

  /** Whatever response carried out these orders, with or without its recovery, left the sets that the run's own
      step leaves. */
  lemma ResponseIsStep(p: Parsers, policy: Policy, g: AgentRuns.Agent, orders: seq<Order>, serviceOk: bool, enabled: bool,
                       adds: AgentRuns.Hosts, deletes: AgentRuns.Hosts, after: Elements)
    requires AtOnce(orders, g.clock, adds, deletes)
    requires var passed := Where(orders, Passes(p, policy));
             after == if !serviceOk && enabled then EnforceAll(p, g.elements, Attempts(passed)).0 - Withdrawn(p, g.elements, passed)
                      else EnforceAll(p, g.elements, Attempts(passed)).0
    ensures after == AgentRuns.ActStep(p, policy, g, AgentRuns.Act(Plans(orders), serviceOk, enabled, adds, deletes)).elements
  {
    hide Check, EnforceAll, SuccessDeletions;
    var passed := Where(orders, Passes(p, policy));
    var attempts := Attempts(passed);
    AdmittedAreAttempts(p, policy, orders, g.clock, adds, deletes);
    var (elements, results) := EnforceAll(p, g.elements, attempts);
    AgentRuns.ResultsFollowAttempts(p, g.elements, attempts);
    SameDeletions(results, Undos(passed), deletes);
    DeleteAllRemovesNamed(p, elements, AgentRuns.Deletions(Where(results, AgentRuns.Succeeded), deletes));
  }

  /** A response on a real host, seen from the agent's state: the controller's methods make the run's step. */
  method Respond(p: Parsers, policy: Policy, m: Machine, orders: seq<Order>, serviceOk: bool, enabled: bool,
                 ghost g: AgentRuns.Agent, ghost adds: AgentRuns.Hosts, ghost deletes: AgentRuns.Hosts)
    returns (recorded: seq<Recorded>)
    requires forall o :: o in orders ==> Fits(o)
    requires m.elements == g.elements && AtOnce(orders, g.clock, adds, deletes)
    modifies m
    ensures m.elements == AgentRuns.Next(p, policy, g, AgentRuns.Act(Plans(orders), serviceOk, enabled, adds, deletes)).elements
  {
    hide EnforceAll, Withdrawn, Check, Fits, AtOnce, Placed, RunAll, Undone, Lost;
    recorded := RespondAndRecover(p, policy, m, orders, serviceOk, enabled);
    ResponseIsStep(p, policy, g, orders, serviceOk, enabled, adds, deletes, m.elements);
  }

  /** A network action is recorded and stored alike: same status, and a rollback result exactly if it was handed over. */
  lemma RecordIsRow(files: Files, r: ActionResult, undo: bool, deletes: AgentRuns.Hosts)
    requires r.rollback.DeleteElement? || (r.rollback.NoRollback? && !r.status.Success?)
    ensures var recorded := Recorded(r, deletes(r.actionId), None);
            var updated := if undo then Settled(files, recorded) else recorded;
            var row := AgentRuns.RowOf(r, undo, deletes);
            row.status == updated.result.status && (row.handed <==> updated.rollbackResult.Some?)
            && row.actionId == updated.result.actionId && row.rollback == updated.result.rollback
  {
  }

  /** A manual rollback of a stored network action ends as the rollback executor does. */
  lemma RolledAlike(files: Files, payload: Rollback, host: Host)
    requires payload.DeleteElement? || payload.NoRollback?
    ensures RollbackStatus(files, payload, host) == NetworkStatus(payload, host)
  {
  }
}
