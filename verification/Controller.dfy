/** One chain in run_once of src/aegis_agent/core/loop_controller.py: bonuses, gate, enforcement, verification and
    auto-rollback, on one host. */
module Controller {
  import opened Common
  import opened Lists
  import opened Models
  import opened Addresses
  import opened PolicyGate
  import opened Scoring
  import opened Effects
  import opened FileEffects
  import opened FirewallEffects
  import opened Executors
  import AiReasoning
  import RuleEngine

  /** The bonuses of the attack loop and of learned indicators; each leaves a reason. */
  method ApplyBonuses(chain: Chain, loop: int, mutation: bool, growth: int) returns (out: Chain)
    ensures out == chain.(score := out.score, reasons := out.reasons)
    ensures chain.score <= 100 ==> out.score == Min(100, Min(100, chain.score + loop) + growth)
    ensures (chain.score > 0 ==> |chain.reasons| > 0) ==> (out.score > 0 ==> |out.reasons| > 0)
  {
    out := chain;
    if loop != 0 {
      out := out.(score := Min(100, out.score + loop), reasons := out.reasons + [AttackLoopBonus(loop)]);
      if mutation {
        out := out.(reasons := out.reasons + [MutationDetected]);
      }
    }
    if growth != 0 {
      out := out.(score := Min(100, out.score + growth), reasons := out.reasons + [GrowthBonus(growth)]);
    }
  }

  /** From scoring to the quality guard: a chain that passes a positive collect_more threshold is analysed, by
      any provider, into claims that all cite its own events, and the guard finds nothing missing or unknown. */
  method AnalyseChain(p: Parsers, chain: Chain, loop: int, mutation: bool, growth: int, collectMore: int, defaultTtl: int,
                      text: Claim -> string, order: seq<AiReasoning.Provider>, reply: AiReasoning.Provider -> AiReasoning.Reply,
                      fallback: bool, denied: seq<Action>)
    returns (stopped: bool, a: Option<AiReasoning.Analysis>, issues: seq<AiReasoning.Issue>)
    requires AiReasoning.RuleBased in order
    requires chain.events != [] && chain.score <= 100 && (chain.score > 0 ==> |chain.reasons| > 0)
    ensures stopped <==> Min(100, Min(100, chain.score + loop) + growth) < collectMore
    ensures stopped ==> a.None?
    ensures !stopped && fallback ==> a.Some?
    ensures a.Some? && collectMore > 0 ==> AiReasoning.Grounded(a.value.mapping, AiReasoning.IdsIn(chain.events))
    ensures a.Some? && collectMore > 0 ==> forall i :: i in issues ==> !i.MissingMapping? && !i.ClaimWithoutEvidence? && !i.UnknownId?
  {
    issues, a := [], None;
    var scored := ApplyBonuses(chain, loop, mutation, growth);
    stopped := scored.score < collectMore;
    if stopped {
      return;
    }
    var used;
    a, used := AiReasoning.Analyze(p, scored, defaultTtl, text, order, reply, fallback);
    if a.Some? {
      var ok, quality, shown;
      ok, quality, issues, shown := AiReasoning.EvaluateQuality(a.value, AiReasoning.IdsIn(chain.events), denied);
    }
  }

  /** Plans built from a validated model answer meet the policy's own evidence minimum, and never suspend a
      process while the policy asks for audited evidence. */
  lemma ModelPlansAreBounded(p: Parsers, policy: Policy, r: RuleEngine.Rec, actionId: string, score: int, evidenceIds: seq<string>)
    requires AiReasoning.Bare(r)
    requires Check(p, policy, RuleEngine.PlanOf(r, actionId, score, evidenceIds)).Allowed?
    ensures |evidenceIds| >= policy.minEventsForResponse
    ensures r.action.SuspendProcess? ==> !policy.actions[SuspendProcess].requireAuditdRelation
  {
    BarePlanBounds(p, policy, RuleEngine.PlanOf(r, actionId, score, evidenceIds));
  }

  // ---- Gate and enforcement ----

  /** A plan with the clock, what its command meets and what its rollback will meet; for a file action the
      operation, for any other guard how it ends. */
  datatype Order = Order(plan: ActionPlan, now: int, host: Host, undo: Host, op: FileOp, other: Outcome)

  predicate IsFileAction(a: Action) {
    a.QuarantineFile? || a.DisablePersistence?
  }

  predicate Fits(o: Order) {
    && (IsFileAction(o.plan.action) ==>
          && (o.plan.action.QuarantineFile? <==> o.op.Quarantine?)
          && o.op.target == o.plan.target && o.op.dryRun == o.host.dryRun && o.op.undo == o.undo)
    && (o.other.rollback.ResumeProcess? || o.other.rollback.OtherRollback?)
  }

  function Passes(p: Parsers, policy: Policy): Order -> bool {
    (o: Order) => Check(p, policy, o.plan).Allowed?
  }

  /** The network attempts among the orders, as they reach NetworkGuard. */
  function Attempts(orders: seq<Order>): (r: seq<Attempt>)
    ensures forall a :: a in r ==> IsNetwork(a.plan.action)
  {
    if orders == [] then []
    else
      var last := orders[|orders| - 1];
      Attempts(orders[..|orders| - 1]) + if IsNetwork(last.plan.action) then [Attempt(last.plan, last.now, last.host)] else []
  }

  /** What the rollbacks of the network attempts meet. */
  function Undos(orders: seq<Order>): (r: seq<Host>)
    ensures |r| == |Attempts(orders)|
  {
    if orders == [] then []
    else
      var last := orders[|orders| - 1];
      Undos(orders[..|orders| - 1]) + if IsNetwork(last.plan.action) then [last.undo] else []
  }

  /** The file operations among the orders. */
  function Ops(orders: seq<Order>): seq<FileOp> {
    if orders == [] then []
    else
      var last := orders[|orders| - 1];
      Ops(orders[..|orders| - 1]) + if IsFileAction(last.plan.action) then [last.op] else []
  }

  /** LocalEnforcementLayer.execute: one guard per action. */
  method Dispatch(p: Parsers, m: Machine, o: Order) returns (r: ActionResult)
    requires Fits(o)
    modifies m
    ensures r.actionId == o.plan.actionId
    ensures IsNetwork(o.plan.action) ==> (m.elements, r) == Enforce(p, old(m.elements), o.plan, o.now, o.host) && m.files == old(m.files)
    ensures IsFileAction(o.plan.action) ==>
              (m.files, Outcome(r.status, r.rollback)) == Run(old(m.files), o.op) && m.elements == old(m.elements)
    ensures !IsNetwork(o.plan.action) && !IsFileAction(o.plan.action) ==>
              m.files == old(m.files) && m.elements == old(m.elements) && Outcome(r.status, r.rollback) == o.other
  {
    var plan := o.plan;
    if IsNetwork(plan.action) {
      r := NetworkExecute(p, m, plan, o.now, o.host);
    } else if plan.action.QuarantineFile? {
      var out := FileExecute(m, o.op);
      r := ActionResult(plan.actionId, plan.action, plan.target, out.status, o.host.dryRun, out.rollback);
    } else if plan.action.DisablePersistence? {
      var out := PersistenceExecute(m, o.op);
      r := ActionResult(plan.actionId, plan.action, plan.target, out.status, o.host.dryRun, out.rollback);
    } else {
      r := ActionResult(plan.actionId, plan.action, plan.target, o.other.status, o.host.dryRun, o.other.rollback);
    }
  }

  predicate ForFiles(r: Rollback) {
    r.RestoreFile? || r.RestoreFileWithoutPaths? || r.RestorePersistence?
  }

  predicate FileUndoing(u: Undoing) {
    ForFiles(u.outcome.rollback)
  }

  predicate NetworkRecord(r: Recorded) {
    r.result.rollback.DeleteElement? || r.result.rollback.NoRollback?
  }

  /** Results as the controller records them, with what their rollbacks meet. */
  function Records(results: seq<ActionResult>, undos: seq<Host>): seq<Recorded>
    requires |results| == |undos|
  {
    seq(|results|, i requires 0 <= i < |results| => Recorded(results[i], undos[i], None))
  }

  lemma {:induction false} RunAllAppend(files: Files, ops: seq<FileOp>, op: FileOp)
    ensures RunAll(files, ops + [op]).0 == Run(RunAll(files, ops).0, op).0
    ensures RunAll(files, ops + [op]).1 == RunAll(files, ops).1 + [Run(RunAll(files, ops).0, op).1]
    decreases |ops|
  {
    hide Run;
    var all := ops + [op];
    if ops == [] {
      assert all[1..] == [] && all[0] == op;
    } else {
      assert all[1..] == ops[1..] + [op] && all[0] == ops[0];
      RunAllAppend(Run(files, ops[0]).0, ops[1..], op);
    }
  }

  lemma {:induction false} EnforceAllAppend(p: Parsers, elements: Elements, attempts: seq<Attempt>, a: Attempt)
    requires IsNetwork(a.plan.action) && forall x :: x in attempts ==> IsNetwork(x.plan.action)
    ensures EnforceAll(p, elements, attempts + [a]).0 == Enforce(p, EnforceAll(p, elements, attempts).0, a.plan, a.now, a.host).0
    ensures EnforceAll(p, elements, attempts + [a]).1 ==
            EnforceAll(p, elements, attempts).1 + [Enforce(p, EnforceAll(p, elements, attempts).0, a.plan, a.now, a.host).1]
    decreases |attempts|
  {
    hide Enforce;
    var all := attempts + [a];
    if attempts == [] {
      assert all[1..] == [] && all[0] == a;
    } else {
      assert all[1..] == attempts[1..] + [a] && all[0] == attempts[0];
      EnforceAllAppend(p, Enforce(p, elements, attempts[0].plan, attempts[0].now, attempts[0].host).0, attempts[1..], a);
    }
  }

  /** The host after the orders, and what its guards reported. */
  ghost predicate Executed(p: Parsers, files: Files, elements: Elements, orders: seq<Order>,
                           files': Files, elements': Elements, recorded: seq<Recorded>) {
    && |recorded| == |orders|
    && (forall i :: 0 <= i < |orders| ==>
          recorded[i].result.actionId == orders[i].plan.actionId && recorded[i].undo == orders[i].undo && recorded[i].rollbackResult.None?)
    && files' == RunAll(files, Ops(orders)).0
    && Where(RecordedUndoings(recorded), FileUndoing) == Undoings(RunAll(files, Ops(orders)).1, Ops(orders))
    && elements' == EnforceAll(p, elements, Attempts(orders)).0
    && Where(recorded, NetworkRecord) == Records(EnforceAll(p, elements, Attempts(orders)).1, Undos(orders))
  }

  lemma OrdersExtend(orders: seq<Order>, o: Order)
    ensures Ops(orders + [o]) == if IsFileAction(o.plan.action) then Ops(orders) + [o.op] else Ops(orders)
    ensures Attempts(orders + [o]) == if IsNetwork(o.plan.action) then Attempts(orders) + [Attempt(o.plan, o.now, o.host)] else Attempts(orders)
    ensures Undos(orders + [o]) == if IsNetwork(o.plan.action) then Undos(orders) + [o.undo] else Undos(orders)
  {
    assert (orders + [o])[..|orders|] == orders;
  }

  lemma RecordsExtend(recorded: seq<Recorded>, r: Recorded)
    ensures Where(RecordedUndoings(recorded + [r]), FileUndoing) ==
            Where(RecordedUndoings(recorded), FileUndoing) + if FileUndoing(UndoingOf(r)) then [UndoingOf(r)] else []
    ensures Where(recorded + [r], NetworkRecord) == Where(recorded, NetworkRecord) + if NetworkRecord(r) then [r] else []
  {
    assert RecordedUndoings(recorded + [r]) == RecordedUndoings(recorded) + [UndoingOf(r)];
    WhereExtends(RecordedUndoings(recorded), UndoingOf(r), FileUndoing);
    WhereExtends(recorded, r, NetworkRecord);
  }

  lemma KindOfResult(p: Parsers, files: Files, elements: Elements, o: Order)
    ensures ForFiles(Run(files, o.op).1.rollback)
    ensures IsNetwork(o.plan.action) ==>
              var r := Enforce(p, elements, o.plan, o.now, o.host).1;
              r.rollback.DeleteElement? || r.rollback.NoRollback?
  {
  }

  lemma ExecutedFile(p: Parsers, files: Files, elements: Elements, orders: seq<Order>,
                     files1: Files, elements1: Elements, recorded: seq<Recorded>, o: Order, files2: Files, r: ActionResult)
    requires Executed(p, files, elements, orders, files1, elements1, recorded)
    requires IsFileAction(o.plan.action) && o.op.undo == o.undo && r.actionId == o.plan.actionId
    requires (files2, Outcome(r.status, r.rollback)) == Run(files1, o.op)
    ensures Executed(p, files, elements, orders + [o], files2, elements1, recorded + [Recorded(r, o.undo, None)])
  {
    KindOfResult(p, files1, elements1, o);
    hide Run, Enforce, RunAll, EnforceAll, Ops, Attempts, Undos, RecordedUndoings, Where;
    OrdersExtend(orders, o);
    RecordsExtend(recorded, Recorded(r, o.undo, None));
    RunAllAppend(files, Ops(orders), o.op);
    assert Undoings(RunAll(files, Ops(orders)).1 + [Outcome(r.status, r.rollback)], Ops(orders) + [o.op]) ==
           Undoings(RunAll(files, Ops(orders)).1, Ops(orders)) + [UndoingOf(Recorded(r, o.undo, None))];
  }

  lemma ExecutedNetwork(p: Parsers, files: Files, elements: Elements, orders: seq<Order>,
                        files1: Files, elements1: Elements, recorded: seq<Recorded>, o: Order, elements2: Elements, r: ActionResult)
    requires Executed(p, files, elements, orders, files1, elements1, recorded)
    requires IsNetwork(o.plan.action) && r.actionId == o.plan.actionId
    requires (elements2, r) == Enforce(p, elements1, o.plan, o.now, o.host)
    ensures Executed(p, files, elements, orders + [o], files1, elements2, recorded + [Recorded(r, o.undo, None)])
  {
    KindOfResult(p, files1, elements1, o);
    hide Run, Enforce, RunAll, EnforceAll, Ops, Attempts, Undos, RecordedUndoings, Where;
    OrdersExtend(orders, o);
    RecordsExtend(recorded, Recorded(r, o.undo, None));
    EnforceAllAppend(p, elements, Attempts(orders), Attempt(o.plan, o.now, o.host));
    assert Records(EnforceAll(p, elements, Attempts(orders)).1 + [r], Undos(orders) + [o.undo]) ==
           Records(EnforceAll(p, elements, Attempts(orders)).1, Undos(orders)) + [Recorded(r, o.undo, None)];
  }

  lemma ExecutedOther(p: Parsers, files: Files, elements: Elements, orders: seq<Order>,
                      files1: Files, elements1: Elements, recorded: seq<Recorded>, o: Order, r: ActionResult)
    requires Executed(p, files, elements, orders, files1, elements1, recorded)
    requires !IsNetwork(o.plan.action) && !IsFileAction(o.plan.action) && r.actionId == o.plan.actionId
    requires r.rollback.ResumeProcess? || r.rollback.OtherRollback?
    ensures Executed(p, files, elements, orders + [o], files1, elements1, recorded + [Recorded(r, o.undo, None)])
  {
    hide Run, Enforce, RunAll, EnforceAll, Ops, Attempts, Undos, RecordedUndoings, Where;
    OrdersExtend(orders, o);
    RecordsExtend(recorded, Recorded(r, o.undo, None));
  }

  method ExecuteOne(p: Parsers, m: Machine, o: Order, ghost files: Files, ghost elements: Elements, ghost done: seq<Order>,
                    ghost recorded: seq<Recorded>) returns (r: Recorded)
    requires Fits(o) && Executed(p, files, elements, done, m.files, m.elements, recorded)
    modifies m
    ensures Executed(p, files, elements, done + [o], m.files, m.elements, recorded + [r])
  {
    hide Executed, Run, Enforce;
    ghost var files1, elements1 := m.files, m.elements;
    var result := Dispatch(p, m, o);
    if IsNetwork(o.plan.action) {
      ExecutedNetwork(p, files, elements, done, files1, elements1, recorded, o, m.elements, result);
    } else if IsFileAction(o.plan.action) {
      ExecutedFile(p, files, elements, done, files1, elements1, recorded, o, m.files, result);
    } else {
      ExecutedOther(p, files, elements, done, files1, elements1, recorded, o, result);
    }
    r := Recorded(result, o.undo, None);
  }

  lemma NothingExecuted(p: Parsers, policy: Policy, files: Files, elements: Elements, orders: seq<Order>)
    ensures Executed(p, files, elements, Where(orders[..0], Passes(p, policy)), files, elements, [])
  {
    assert RecordedUndoings([]) == [];
  }

  /** The plan loop: what the gate denies is set aside, everything else is carried out in order. */
  method ExecutePlans(p: Parsers, policy: Policy, m: Machine, orders: seq<Order>)
    returns (recorded: seq<Recorded>, denied: seq<ActionPlan>)
    requires forall o :: o in orders ==> Fits(o)
    modifies m
    ensures Executed(p, old(m.files), old(m.elements), Where(orders, Passes(p, policy)), m.files, m.elements, recorded)
    ensures forall plan :: plan in denied <==> exists o :: o in orders && o.plan == plan && !Check(p, policy, plan).Allowed?
  {
    hide Executed, Check, Where, Fits;
    recorded, denied := [], [];
    NothingExecuted(p, policy, m.files, m.elements, orders);
    for i := 0 to |orders|
      invariant Executed(p, old(m.files), old(m.elements), Where(orders[..i], Passes(p, policy)), m.files, m.elements, recorded)
      invariant forall plan :: plan in denied <==> exists o :: o in orders[..i] && o.plan == plan && !Check(p, policy, plan).Allowed?
    {
      var o := orders[i];
      assert orders[..i + 1] == orders[..i] + [o];
      WhereExtends(orders[..i], o, Passes(p, policy));
      ghost var passed := Where(orders[..i], Passes(p, policy));
      var decision := Check(p, policy, o.plan);
      if decision.Denied? {
        assert passed + [] == passed;
        denied := denied + [o.plan];
        continue;
      }
      var r := ExecuteOne(p, m, o, old(m.files), old(m.elements), passed, recorded);
      recorded := recorded + [r];
    }
    assert orders[..|orders|] == orders;
  }

  // ---- Recovery ----

  /** Payloads of other guards do not touch files when undone. */
  lemma {:induction false} UndoAllFiles(files: Files, undoings: seq<Undoing>)
    ensures UndoAll(files, undoings) == UndoAll(files, Where(undoings, FileUndoing))
  {
    if undoings != [] {
      var init, last := undoings[..|undoings| - 1], undoings[|undoings| - 1];
      assert undoings == init + [last];
      UndoAllFiles(files, init);
      UndoAllAppend(files, init, last);
      if FileUndoing(last) {
        UndoAllAppend(files, Where(init, FileUndoing), last);
      } else {
        assert Where(undoings, FileUndoing) == Where(init, FileUndoing);
      }
    }
  }

  lemma LiftedExtends(p: Parsers, deletions: seq<Deletion>, more: seq<Deletion>)
    ensures Lifted(p, deletions + more) == Lifted(p, deletions) + Lifted(p, more)
  {
    assert forall d :: d in deletions + more <==> d in deletions || d in more;
  }

  lemma NothingLifted(p: Parsers, r: Recorded)
    requires !NetworkRecord(r)
    ensures Lifted(p, [Deletion(r.result.rollback, r.undo)]) == {}
  {
  }

  /** Only network payloads name elements. */
  lemma {:induction false} LiftedByNetwork(p: Parsers, recorded: seq<Recorded>)
    ensures Lifted(p, SuccessDeletions(recorded)) == Lifted(p, SuccessDeletions(Where(recorded, NetworkRecord)))
  {
    if recorded != [] {
      hide Lifted;
      var init, last := recorded[..|recorded| - 1], recorded[|recorded| - 1];
      var some := Where(init, NetworkRecord);
      LiftedByNetwork(p, init);
      var d := [Deletion(last.result.rollback, last.undo)];
      LiftedExtends(p, SuccessDeletions(init), d);
      LiftedExtends(p, SuccessDeletions(some), d);
      if NetworkRecord(last) {
        assert (some + [last])[..|some|] == some;
      } else {
        NothingLifted(p, last);
        assert some + [] == some;
      }
      if !last.result.status.Success? {
        assert SuccessDeletions(init) + [] == SuccessDeletions(init);
        assert SuccessDeletions(some) + [] == SuccessDeletions(some);
      }
    }
  }

  /** The network elements that the orders put in place. */
  ghost function Placed(p: Parsers, elements: Elements, orders: seq<Order>): set<Element> {
    Applied(p, EnforceAll(p, elements, Attempts(orders)).1)
  }

  /** Those of them whose deletion works when it is their turn to be rolled back. */
  ghost function Withdrawn(p: Parsers, elements: Elements, orders: seq<Order>): set<Element> {
    Lifted(p, SuccessDeletions(Records(EnforceAll(p, elements, Attempts(orders)).1, Undos(orders))))
  }

  lemma RecoverFiles(p: Parsers, files: Files, elements: Elements, orders: seq<Order>,
                     files1: Files, elements1: Elements, recorded: seq<Recorded>)
    requires Executed(p, files, elements, orders, files1, elements1, recorded)
    ensures UndoAll(files1, RecordedUndoings(recorded)) == RoundTrip(files, Ops(orders))
    ensures DisjointFeet(Ops(orders)) && (forall op :: op in Ops(orders) ==> FreshNames(files, op)) ==>
              (Undone(files, RoundTrip(files, Ops(orders)), Ops(orders)) <==> forall op :: op in Ops(orders) ==> !Lost(files, op))
  {
    UndoAllFiles(files1, RecordedUndoings(recorded));
    if DisjointFeet(Ops(orders)) && forall op :: op in Ops(orders) ==> FreshNames(files, op) {
      BatchUndo(files, Ops(orders));
    }
  }

  lemma {:induction false} DeletionsOfSuccesses(recorded: seq<Recorded>)
    ensures forall d :: d in SuccessDeletions(recorded) ==>
              exists k :: 0 <= k < |recorded| && recorded[k].result.status.Success? && recorded[k].result.rollback == d.payload
  {
    if recorded != [] {
      var init, last := recorded[..|recorded| - 1], recorded[|recorded| - 1];
      DeletionsOfSuccesses(init);
      forall d | d in SuccessDeletions(recorded)
        ensures exists k :: 0 <= k < |recorded| && recorded[k].result.status.Success? && recorded[k].result.rollback == d.payload
      {
        if d in SuccessDeletions(init) {
          var k :| 0 <= k < |init| && init[k].result.status.Success? && init[k].result.rollback == d.payload;
          assert recorded[k] == init[k];
        } else {
          assert recorded[|recorded| - 1] == last;
        }
      }
    }
  }

  lemma RecoverElements(p: Parsers, files: Files, elements: Elements, orders: seq<Order>,
                        files1: Files, elements1: Elements, recorded: seq<Recorded>)
    requires Executed(p, files, elements, orders, files1, elements1, recorded)
    ensures var placed, withdrawn := Placed(p, elements, orders), Withdrawn(p, elements, orders);
            var undone := DeleteAll(p, elements1, SuccessDeletions(recorded));
            && withdrawn <= placed
            && undone == elements1 - withdrawn
            && (placed <= withdrawn ==> undone == elements - placed)
  {
    var attempts := Attempts(orders);
    var results := EnforceAll(p, elements, attempts).1;
    var deletions := SuccessDeletions(Records(results, Undos(orders)));
    LiftedByNetwork(p, recorded);
    DeleteAllRemovesNamed(p, elements1, SuccessDeletions(recorded));
    DeletionsOfSuccesses(Records(results, Undos(orders)));
    DeleteAllRemovesNamed(p, elements1, deletions);
    forall d | d in deletions ensures exists r :: r in results && r.status.Success? && r.rollback == d.payload {
      var k :| 0 <= k < |results| && results[k].status.Success? && results[k].rollback == d.payload;
      assert results[k] in results;
    }
    NetworkBatchUndo(p, elements, attempts, deletions);
  }

  /** A whole response and its recovery: when the health check fails, the controller rolls back what it did.
      With fresh names and disjoint footprints the files are as before, backups and metadata aside, exactly
      if no operation is lost; the firewall keeps exactly those targets whose deletion failed. */
  method RespondAndRecover(p: Parsers, policy: Policy, m: Machine, orders: seq<Order>, serviceOk: bool, enabled: bool)
    returns (recorded: seq<Recorded>)
    requires forall o :: o in orders ==> Fits(o)
    modifies m
    ensures var passed := Where(orders, Passes(p, policy));
            !serviceOk && enabled && DisjointFeet(Ops(passed)) && (forall op :: op in Ops(passed) ==> FreshNames(old(m.files), op)) ==>
              (Undone(old(m.files), m.files, Ops(passed)) <==> forall op :: op in Ops(passed) ==> !Lost(old(m.files), op))
    ensures var passed := Where(orders, Passes(p, policy));
            !serviceOk && enabled ==>
              && m.elements == EnforceAll(p, old(m.elements), Attempts(passed)).0 - Withdrawn(p, old(m.elements), passed)
              && (Placed(p, old(m.elements), passed) <= Withdrawn(p, old(m.elements), passed) ==>
                    m.elements == old(m.elements) - Placed(p, old(m.elements), passed))
    ensures serviceOk || !enabled ==>
              var passed := Where(orders, Passes(p, policy));
              m.files == RunAll(old(m.files), Ops(passed)).0 && m.elements == EnforceAll(p, old(m.elements), Attempts(passed)).0
  {
    hide Run, Enforce, UndoAll, DeleteAll, RunAll, EnforceAll;
    var executed, denied := ExecutePlans(p, policy, m, orders);
    ghost var files1, elements1 := m.files, m.elements;
    var rolledBack;
    recorded, rolledBack := AutoRollback(p, m, executed, serviceOk, enabled);
    RecoverFiles(p, old(m.files), old(m.elements), Where(orders, Passes(p, policy)), files1, elements1, executed);
    RecoverElements(p, old(m.files), old(m.elements), Where(orders, Passes(p, policy)), files1, elements1, executed);
  }

  // ---- The definitions in literals ----

  lemma {:induction false} OpsAreOrders(orders: seq<Order>)
    ensures forall op :: op in Ops(orders) <==> exists o :: o in orders && IsFileAction(o.plan.action) && o.op == op
  {
    if orders != [] {
      var init, last := orders[..|orders| - 1], orders[|orders| - 1];
      OpsAreOrders(init);
      assert orders == init + [last];
    }
  }

  /** The file operations that the controller carries out are exactly those of the file plans that meet every
      condition, whose action is therefore enabled and auto-allowed and whose score reaches the minimum. */
  lemma ExecutedFilesWerePermitted(p: Parsers, policy: Policy, orders: seq<Order>, op: FileOp)
    ensures op in Ops(Where(orders, Passes(p, policy))) <==>
            exists o :: o in orders && o.op == op && (o.plan.action == QuarantineFile || o.plan.action == DisablePersistence)
                        && MeetsEveryCondition(p, policy, o.plan) && PolicyPermits(policy, o.plan)
  {
    hide Check, MeetsEveryCondition;
    var passed := Where(orders, Passes(p, policy));
    OpsAreOrders(passed);
    WhereMembers(orders, Passes(p, policy));
    if o :| o in passed && IsFileAction(o.plan.action) && o.op == op {
      AllowedExactly(p, policy, o.plan);
      MeetingPermits(p, policy, o.plan);
    }
    if o :| o in orders && o.op == op && (o.plan.action == QuarantineFile || o.plan.action == DisablePersistence)
            && MeetsEveryCondition(p, policy, o.plan) {
      AllowedExactly(p, policy, o.plan);
      assert Passes(p, policy)(o);
    }
  }
}
