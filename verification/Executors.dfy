/** The executors at work on one host: NetworkGuard, FileGuard, PersistenceGuard, RollbackExecutor, the dispatch
    of LocalEnforcementLayer and the controller's auto-rollback. */
module Executors {
  import opened Common
  import opened Lists
  import opened Models
  import opened Addresses
  import opened Effects
  import opened PersistenceLines
  import opened FileEffects
  import opened FirewallEffects

  /** The host's files and firewall sets. */
  class Machine {
    var files: Files
    var elements: Elements

    constructor (files: Files, elements: Elements)
      ensures this.files == files && this.elements == elements
    {
      this.files, this.elements := files, elements;
    }

    method MoveFile(from: Path, to: Path)
      requires from in files
      modifies this`files
      ensures files == Move(old(files), from, to)
    {
      var content := files[from];
      files := files - {from};
      files := files[to := content];
    }

    method WriteFile(path: Path, content: string)
      modifies this`files
      ensures files == old(files)[path := content]
    {
      files := files[path := content];
    }

    method FailToWrite(path: Path, left: Option<string>)
      modifies this`files
      ensures files == Leave(old(files), path, left)
    {
      if left.Some? {
        files := files[path := left.value];
      }
    }

    method Unlink(path: Path)
      modifies this`files
      ensures files == old(files) - {path}
    {
      files := files - {path};
    }

    /** `nft add element`; false when the command fails. */
    method NftAdd(p: Parsers, name: SetName, target: string, expires: int, host: Host) returns (ok: bool)
      modifies this`elements
      ensures ok <==> host.commandOk && ElementOf(p, name, target).Some?
      ensures elements == if ok then AddElement(old(elements), ElementOf(p, name, target).value, expires, host.refreshes) else old(elements)
    {
      var e := ElementOf(p, name, target);
      ok := host.commandOk && e.Some?;
      if ok && (e.value !in elements || host.refreshes) {
        elements := elements[e.value := expires];
      }
    }

    /** `nft delete element`; an absent element is reported but is not an error to the caller. */
    method NftDelete(p: Parsers, name: SetName, target: string, host: Host) returns (ok: bool)
      modifies this`elements
      ensures ok == host.commandOk
      ensures elements == if ok && ElementOf(p, name, target).Some? then old(elements) - {ElementOf(p, name, target).value} else old(elements)
    {
      ok := host.commandOk;
      var e := ElementOf(p, name, target);
      if ok && e.Some? && e.value in elements {
        elements := elements - {e.value};
      }
    }
  }

  // ---- NetworkGuard ----

  method Preflight(host: Host) returns (ready: bool)
    ensures ready <==> !(host.requireRoot && !host.isRoot) && host.nftInstalled
  {
    if host.requireRoot && !host.isRoot {
      return false;
    }
    if !host.nftInstalled {
      return false;
    }
    ready := true;
  }

  method NetworkExecute(p: Parsers, m: Machine, plan: ActionPlan, now: int, host: Host) returns (r: ActionResult)
    requires IsNetwork(plan.action)
    modifies m`elements
    ensures (m.elements, r) == Enforce(p, old(m.elements), plan, now, host)
  {
    var verdict := Validate(p, plan.target);
    if !verdict.Valid? {
      return ActionResult(plan.actionId, plan.action, plan.target, Failed, host.dryRun, NoRollback);
    }
    var expires := now + Ttl(plan);
    var name := SetFor(plan.action, verdict.version);
    var undo := DeleteElement(name, plan.target, expires);
    if host.dryRun {
      return ActionResult(plan.actionId, plan.action, plan.target, Planned, true, undo);
    }
    var ready := Preflight(host);
    if !ready {
      return ActionResult(plan.actionId, plan.action, plan.target, Failed, false, undo);
    }
    if !host.setupOk {
      return ActionResult(plan.actionId, plan.action, plan.target, Failed, false, undo);
    }
    var ok := m.NftAdd(p, name, plan.target, expires, host);
    r := ActionResult(plan.actionId, plan.action, plan.target, if ok then Success else Failed, false, undo);
  }

  // ---- FileGuard ----

  method FileExecute(m: Machine, op: FileOp) returns (o: Outcome)
    requires op.Quarantine?
    modifies m`files
    ensures (m.files, o) == RunQuarantine(old(m.files), op)
  {
    if op.dryRun {
      return Outcome(Planned, RestoreFileWithoutPaths);
    }
    if op.target !in m.files {
      return Outcome(Failed, RestoreFileWithoutPaths);
    }
    if op.fault.MoveFails? {
      m.FailToWrite(op.dest, op.fault.moved);
      return Outcome(Failed, RestoreFileWithoutPaths);
    }
    m.MoveFile(op.target, op.dest);
    if op.fault.MetadataFails? {
      m.FailToWrite(op.meta, op.fault.left);
      return Outcome(Failed, RestoreFileWithoutPaths);
    }
    m.WriteFile(op.meta, op.metaText);
    o := Outcome(Success, RestoreFile(op.dest, op.target));
  }

  // ---- PersistenceGuard ----

  method Backup(m: Machine, op: FileOp) returns (ok: bool)
    requires op.DisablePersistenceOp? && op.target in m.files
    modifies m`files
    ensures ok == !op.fault.BackupFails?
    ensures m.files == if ok then old(m.files)[op.backup := old(m.files)[op.target]][op.backupMeta := op.metaText]
                       else Leave(Leave(old(m.files), op.backup, op.fault.backupLeft), op.backupMeta, op.fault.metaLeft)
  {
    if op.fault.BackupFails? {
      m.FailToWrite(op.backup, op.fault.backupLeft);
      m.FailToWrite(op.backupMeta, op.fault.metaLeft);
      return false;
    }
    m.WriteFile(op.backup, m.files[op.target]);
    m.WriteFile(op.backupMeta, op.metaText);
    ok := true;
  }

  method DisableUnitFile(m: Machine, op: FileOp) returns (o: Outcome)
    requires op.DisablePersistenceOp? && op.target in m.files
    modifies m`files
    ensures (m.files, o) == RunUnit(old(m.files), op)
  {
    var disabled := op.disabled;
    if disabled in m.files {
      disabled := op.disabledLater;
    }
    if op.fault.MoveFails? {
      m.FailToWrite(disabled, op.fault.moved);
      return Outcome(Failed, RestorePersistence(op.target, None, None));
    }
    m.MoveFile(op.target, disabled);
    o := Outcome(Success, RestorePersistence(op.target, Some(op.backup), Some(disabled)));
  }

  method DisableMatchingLines(m: Machine, op: FileOp) returns (o: Outcome)
    requires op.DisablePersistenceOp? && op.target in m.files
    modifies m`files
    ensures (m.files, o) == RunLines(old(m.files), op)
  {
    var out, changed := DisableLines(op.filter, op.markers, ReadText(m.files[op.target]));
    if changed == 0 {
      return Outcome(Skipped, RestorePersistence(op.target, Some(op.backup), None));
    }
    if op.fault.RewriteFails? {
      m.FailToWrite(op.target, Some(op.fault.textLeft));
      return Outcome(Failed, RestorePersistence(op.target, None, None));
    }
    m.WriteFile(op.target, out);
    o := Outcome(Success, RestorePersistence(op.target, Some(op.backup), None));
  }

  method PersistenceExecute(m: Machine, op: FileOp) returns (o: Outcome)
    requires op.DisablePersistenceOp?
    modifies m`files
    ensures (m.files, o) == RunPersistence(old(m.files), op)
  {
    hide RunUnit, RunLines;
    var bare := RestorePersistence(op.target, None, None);
    if op.target == "" || op.target == "unknown" {
      return Outcome(Skipped, bare);
    }
    if op.dryRun {
      return Outcome(Planned, RestorePersistence(op.target, Some(op.plannedBackup), None));
    }
    if !op.allowed {
      return Outcome(Failed, bare);
    }
    if op.isDirectory {
      return Outcome(Skipped, bare);
    }
    if op.target !in m.files {
      return Outcome(Failed, bare);
    }
    if |m.files[op.target]| > op.maxSize {
      return Outcome(Failed, bare);
    }
    var saved := Backup(m, op);
    if !saved {
      return Outcome(Failed, bare);
    }
    if op.isUnit {
      o := DisableUnitFile(m, op);
    } else {
      o := DisableMatchingLines(m, op);
    }
  }

  // ---- RollbackExecutor ----

  /** How the rollback of any payload ends. */
  function RollbackStatus(files: Files, payload: Rollback, host: Host): Status {
    if payload.DeleteElement? then DeleteStatus(host) else Undo(files, payload, host).1
  }

  method RestoreQuarantined(m: Machine, from: Path, to: Path, host: Host) returns (status: Status)
    modifies m`files
    ensures (m.files, status) == Undo(old(m.files), RestoreFile(from, to), host)
  {
    if from == "" || to == "" {
      return Skipped;
    }
    if host.dryRun {
      return Planned;
    }
    if from !in m.files {
      return Failed;
    }
    if host.restoring.RestoreFails? {
      m.FailToWrite(to, host.restoring.left);
      return Failed;
    }
    m.MoveFile(from, to);
    status := Success;
  }

  method RestorePersistenceFile(m: Machine, target: Path, backup: Option<Path>, disabled: Option<Path>, host: Host)
    returns (status: Status)
    modifies m`files
    ensures (m.files, status) == Undo(old(m.files), RestorePersistence(target, backup, disabled), host)
  {
    if target == "" {
      return Skipped;
    }
    if host.dryRun {
      return Planned;
    }
    if disabled.Some? && disabled.value in m.files {
      if host.restoring.RestoreFails? {
        m.Unlink(target);
        m.FailToWrite(target, host.restoring.left);
        return Failed;
      }
      m.MoveFile(disabled.value, target);
      return Success;
    }
    if backup.Some? && backup.value in m.files {
      if host.restoring.RestoreFails? {
        m.FailToWrite(target, host.restoring.left);
        return Failed;
      }
      m.WriteFile(target, m.files[backup.value]);
      return Success;
    }
    status := Failed;
  }

  method RollbackExecute(p: Parsers, m: Machine, payload: Rollback, host: Host) returns (status: Status)
    modifies m
    ensures m.files == Undo(old(m.files), payload, host).0
    ensures m.elements == Delete(p, old(m.elements), Deletion(payload, host))
    ensures status == RollbackStatus(old(m.files), payload, host)
  {
    match payload
    case DeleteElement(name, target, _) =>
      if host.dryRun {
        return Planned;
      }
      if !host.isRoot {
        return Failed;
      }
      var ok := m.NftDelete(p, name, target, host);
      status := if ok then Success else Failed;
    case RestoreFile(from, to) =>
      status := RestoreQuarantined(m, from, to, host);
    case RestorePersistence(target, backup, disabled) =>
      status := RestorePersistenceFile(m, target, backup, disabled, host);
    case ResumeProcess(pid) =>
      if pid == 0 {
        return Skipped;
      }
      if host.dryRun {
        return Planned;
      }
      status := if host.commandOk then Success else Failed;
    case _ =>
      status := Skipped;
  }

  // ---- Auto-rollback ----

  /** An action as the controller records it: the result, what its rollback meets, and how that ended once it ran. */
  datatype Recorded = Recorded(result: ActionResult, undo: Host, rollbackResult: Option<Status>)

  function UndoingOf(r: Recorded): Undoing {
    Undoing(Outcome(r.result.status, r.result.rollback), r.undo)
  }

  function RecordedUndoings(actions: seq<Recorded>): seq<Undoing> {
    seq(|actions|, i requires 0 <= i < |actions| => UndoingOf(actions[i]))
  }

  function SuccessDeletions(actions: seq<Recorded>): seq<Deletion> {
    if actions == [] then []
    else
      var last := actions[|actions| - 1];
      SuccessDeletions(actions[..|actions| - 1])
      + if last.result.status.Success? then [Deletion(last.result.rollback, last.undo)] else []
  }

  lemma {:induction false} UndoAllAppend(files: Files, undoings: seq<Undoing>, u: Undoing)
    ensures UndoAll(files, undoings + [u]) == UndoIfSuccess(UndoAll(files, undoings), u)
    decreases |undoings|
  {
    hide UndoIfSuccess;
    var all := undoings + [u];
    if undoings == [] {
      assert all[1..] == [] && all[0] == u;
      assert UndoAll(UndoIfSuccess(files, u), []) == UndoIfSuccess(files, u);
    } else {
      assert all[1..] == undoings[1..] + [u] && all[0] == undoings[0];
      UndoAllAppend(UndoIfSuccess(files, undoings[0]), undoings[1..], u);
    }
  }

  lemma {:induction false} DeleteAllAppend(p: Parsers, elements: Elements, deletions: seq<Deletion>, d: Deletion)
    ensures DeleteAll(p, elements, deletions + [d]) == Delete(p, DeleteAll(p, elements, deletions), d)
    decreases |deletions|
  {
    hide Delete;
    var all := deletions + [d];
    if deletions == [] {
      assert all[1..] == [] && all[0] == d;
      assert DeleteAll(p, Delete(p, elements, d), []) == Delete(p, elements, d);
    } else {
      assert all[1..] == deletions[1..] + [d] && all[0] == deletions[0];
      DeleteAllAppend(p, Delete(p, elements, deletions[0]), deletions[1..], d);
    }
  }

  lemma RollbackStep(p: Parsers, files: Files, elements: Elements, actions: seq<Recorded>, i: nat)
    requires i < |actions|
    ensures UndoAll(files, RecordedUndoings(actions[..i + 1])) ==
            UndoIfSuccess(UndoAll(files, RecordedUndoings(actions[..i])), UndoingOf(actions[i]))
    ensures DeleteAll(p, elements, SuccessDeletions(actions[..i + 1])) ==
            if actions[i].result.status.Success?
            then Delete(p, DeleteAll(p, elements, SuccessDeletions(actions[..i])), Deletion(actions[i].result.rollback, actions[i].undo))
            else DeleteAll(p, elements, SuccessDeletions(actions[..i]))
  {
    hide UndoIfSuccess, Delete;
    assert RecordedUndoings(actions[..i + 1]) == RecordedUndoings(actions[..i]) + [UndoingOf(actions[i])];
    UndoAllAppend(files, RecordedUndoings(actions[..i]), UndoingOf(actions[i]));
    var longer := actions[..i + 1];
    assert longer[..|longer| - 1] == actions[..i] && longer[|longer| - 1] == actions[i];
    if actions[i].result.status.Success? {
      DeleteAllAppend(p, elements, SuccessDeletions(actions[..i]), Deletion(actions[i].result.rollback, actions[i].undo));
    } else {
      assert SuccessDeletions(longer) == SuccessDeletions(actions[..i]);
    }
  }

  /** How the controller rewrites one action: a success gets the rollback result, and its status if that worked. */
  function AfterRollback(a: Recorded, status: Status): Recorded {
    Recorded(if status.Success? then a.result.(status := RolledBack) else a.result, a.undo, Some(status))
  }

  /** An action after an auto-rollback that meets these files. */
  function Settled(files: Files, a: Recorded): Recorded {
    if a.result.status.Success? then AfterRollback(a, RollbackStatus(files, a.result.rollback, a.undo)) else a
  }

  predicate TakenBack(a: Recorded) {
    a.rollbackResult == Some(Success)
  }

  method RollbackOne(p: Parsers, m: Machine, a: Recorded) returns (updated: Recorded, worked: bool)
    requires a.rollbackResult.None?
    modifies m
    ensures m.files == UndoIfSuccess(old(m.files), UndoingOf(a))
    ensures m.elements == if a.result.status.Success? then Delete(p, old(m.elements), Deletion(a.result.rollback, a.undo)) else old(m.elements)
    ensures updated == Settled(old(m.files), a)
    ensures worked == TakenBack(updated)
  {
    updated, worked := a, false;
    if a.result.status.Success? {
      var status := RollbackExecute(p, m, a.result.rollback, a.undo);
      updated := AfterRollback(a, status);
      worked := status.Success?;
    }
  }

  /** _auto_rollback_if_needed: after a failed health check every success is rolled back, in execution order, and
      restated by how its own rollback ended on the files left by those before it. */
  method AutoRollback(p: Parsers, m: Machine, actions: seq<Recorded>, serviceOk: bool, enabled: bool)
    returns (updated: seq<Recorded>, rolledBack: nat)
    requires forall a :: a in actions ==> a.rollbackResult.None?
    modifies m
    ensures serviceOk || !enabled ==> updated == actions && rolledBack == 0 && m.files == old(m.files) && m.elements == old(m.elements)
    ensures !serviceOk && enabled ==>
              && m.files == UndoAll(old(m.files), RecordedUndoings(actions))
              && m.elements == DeleteAll(p, old(m.elements), SuccessDeletions(actions))
              && |updated| == |actions|
              && (forall i :: 0 <= i < |actions| ==>
                   updated[i] == Settled(UndoAll(old(m.files), RecordedUndoings(actions[..i])), actions[i]))
              && rolledBack == |Where(updated, TakenBack)|
  {
    hide Settled, UndoIfSuccess, Delete, TakenBack;
    updated, rolledBack := actions, 0;
    if !enabled || serviceOk {
      return;
    }
    updated := [];
    for i := 0 to |actions|
      invariant |updated| == i
      invariant m.files == UndoAll(old(m.files), RecordedUndoings(actions[..i]))
      invariant m.elements == DeleteAll(p, old(m.elements), SuccessDeletions(actions[..i]))
      invariant forall j :: 0 <= j < i ==>
                  updated[j] == Settled(UndoAll(old(m.files), RecordedUndoings(actions[..j])), actions[j])
      invariant rolledBack == |Where(updated, TakenBack)|
    {
      RollbackStep(p, old(m.files), old(m.elements), actions, i);
      var one, worked := RollbackOne(p, m, actions[i]);
      WhereExtends(updated, one, TakenBack);
      updated := updated + [one];
      if worked {
        rolledBack := rolledBack + 1;
      }
    }
    assert actions[..|actions|] == actions;
  }

  // ---- The definitions in literals ----

  /** What the controller makes of one action after a failed health check: a success gets how its rollback ended, and is
      rolled back where that worked; nothing else changes. */
  lemma SettledInFull(files: Files, a: Recorded)
    requires a.rollbackResult.None?
    ensures var after := Settled(files, a);
            && (a.result.status != Success ==> after == a)
            && (a.result.status == Success ==>
                  var ended := RollbackStatus(files, a.result.rollback, a.undo);
                  && after.rollbackResult == Some(ended)
                  && after.result == a.result.(status := if ended == Success then RolledBack else Success))
  {
  }

  lemma TakenBackInFull(updated: seq<Recorded>)
    ensures |Where(updated, TakenBack)| == |set i | 0 <= i < |updated| && updated[i].rollbackResult == Some(Success)|
  {
    WhereCount(updated, TakenBack, set i | 0 <= i < |updated| && updated[i].rollbackResult == Some(Success));
  }
}
