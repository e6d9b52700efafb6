/** Quarantine, persistence disabling and their undoing, as functions on the files of the host
    (src/aegis_agent/executors/file_guard.py, persistence_guard.py, rollback.py). */
module FileEffects {
  import opened Common
  import opened Effects
  import opened PersistenceLines

  /** What goes wrong while an operation runs. A failing write leaves whatever reached its file. A failing move
      keeps the old name; across file systems it copies first, so it may leave a part or all at the new name. */
  datatype Fault =
    | NoFault
    | MoveFails(moved: Option<string>)
    | MetadataFails(left: Option<string>)
    | BackupFails(backupLeft: Option<string>, metaLeft: Option<string>)
    | RewriteFails(textLeft: string)

  /** One file plan with what it meets on the host: the names it generates, its evidence filter, what goes wrong,
      and what its rollback will meet. */
  datatype FileOp =
    | Quarantine(target: Path, dryRun: bool, undo: Host, fault: Fault, dest: Path, meta: Path, metaText: string)
    | DisablePersistenceOp(target: Path, dryRun: bool, undo: Host, fault: Fault, allowed: bool, isDirectory: bool, isUnit: bool,
                           maxSize: nat, plannedBackup: Path, backup: Path, backupMeta: Path, metaText: string,
                           disabled: Path, disabledLater: Path, filter: Filter, markers: Markers)

  /** How one operation ended: the status and the undo payload. */
  datatype Outcome = Outcome(status: Status, rollback: Rollback)

  function Move(files: Files, from: Path, to: Path): Files
    requires from in files
  {
    (files - {from})[to := files[from]]
  }

  /** A write that fails leaves something or nothing. */
  function Leave(files: Files, path: Path, left: Option<string>): Files {
    if left.Some? then files[path := left.value] else files
  }

  function RunQuarantine(files: Files, op: FileOp): (Files, Outcome)
    requires op.Quarantine?
  {
    if op.dryRun then (files, Outcome(Planned, RestoreFileWithoutPaths))
    else if op.target !in files then (files, Outcome(Failed, RestoreFileWithoutPaths))
    else if op.fault.MoveFails? then (Leave(files, op.dest, op.fault.moved), Outcome(Failed, RestoreFileWithoutPaths))
    else if op.fault.MetadataFails? then
      (Leave(Move(files, op.target, op.dest), op.meta, op.fault.left), Outcome(Failed, RestoreFileWithoutPaths))
    else (Move(files, op.target, op.dest)[op.meta := op.metaText], Outcome(Success, RestoreFile(op.dest, op.target)))
  }

  function UnitName(files: Files, op: FileOp): Path
    requires op.DisablePersistenceOp?
  {
    if op.disabled in files then op.disabledLater else op.disabled
  }

  /** The tests that come before the backup. */
  function Refusal(files: Files, op: FileOp): Option<Outcome>
    requires op.DisablePersistenceOp?
  {
    var bare := RestorePersistence(op.target, None, None);
    if op.target == "" || op.target == "unknown" then Some(Outcome(Skipped, bare))
    else if op.dryRun then Some(Outcome(Planned, RestorePersistence(op.target, Some(op.plannedBackup), None)))
    else if !op.allowed then Some(Outcome(Failed, bare))
    else if op.isDirectory then Some(Outcome(Skipped, bare))
    else if op.target !in files || |files[op.target]| > op.maxSize then Some(Outcome(Failed, bare))
    else None
  }

  function RunUnit(files: Files, op: FileOp): (Files, Outcome)
    requires op.DisablePersistenceOp? && op.target in files
  {
    if op.fault.MoveFails? then
      (Leave(files, UnitName(files, op), op.fault.moved), Outcome(Failed, RestorePersistence(op.target, None, None)))
    else
      (Move(files, op.target, UnitName(files, op)),
       Outcome(Success, RestorePersistence(op.target, Some(op.backup), Some(UnitName(files, op)))))
  }

  function RunLines(files: Files, op: FileOp): (Files, Outcome)
    requires op.DisablePersistenceOp? && op.target in files
  {
    var text := ReadText(files[op.target]);
    var payload := RestorePersistence(op.target, Some(op.backup), None);
    if Hits(op.filter, SplitLines(text)) == 0 then (files, Outcome(Skipped, payload))
    else if op.fault.RewriteFails? then
      (files[op.target := op.fault.textLeft], Outcome(Failed, RestorePersistence(op.target, None, None)))
    else (files[op.target := Disabled(op.filter, op.markers, text)], Outcome(Success, payload))
  }

  function RunPersistence(files: Files, op: FileOp): (Files, Outcome)
    requires op.DisablePersistenceOp?
  {
    if Refusal(files, op).Some? then (files, Refusal(files, op).value)
    else if op.fault.BackupFails? then
      (Leave(Leave(files, op.backup, op.fault.backupLeft), op.backupMeta, op.fault.metaLeft),
       Outcome(Failed, RestorePersistence(op.target, None, None)))
    else
      var saved := files[op.backup := files[op.target]][op.backupMeta := op.metaText];
      if op.isUnit then RunUnit(saved, op) else RunLines(saved, op)
  }

  function Run(files: Files, op: FileOp): (Files, Outcome) {
    if op.Quarantine? then RunQuarantine(files, op) else RunPersistence(files, op)
  }

  /** The branches of RollbackExecutor.execute that do not concern the firewall. Each checks its payload before
      it looks at dry-run; the status says whether the undo took place. */
  function Undo(files: Files, payload: Rollback, host: Host): (Files, Status) {
    match payload
    case RestoreFile(from, to) =>
      if from == "" || to == "" then (files, Skipped)
      else if host.dryRun then (files, Planned)
      else if from !in files then (files, Failed)
      else if host.restoring.RestoreFails? then (Leave(files, to, host.restoring.left), Failed)
      else (Move(files, from, to), Success)
    case RestorePersistence(target, backup, disabled) =>
      if target == "" then (files, Skipped)
      else if host.dryRun then (files, Planned)
      else if disabled.Some? && disabled.value in files then
        if host.restoring.RestoreFails? then (Leave(files - {target}, target, host.restoring.left), Failed)
        else (Move(files, disabled.value, target), Success)
      else if backup.Some? && backup.value in files then
        if host.restoring.RestoreFails? then (Leave(files, target, host.restoring.left), Failed)
        else (files[target := files[backup.value]], Success)
      else (files, Failed)
    case ResumeProcess(pid) =>
      (files, if pid == 0 then Skipped else if host.dryRun then Planned else if host.commandOk then Success else Failed)
    case _ => (files, Skipped)
  }

  // ---- Footprints ----

  ghost function Foot(op: FileOp): set<Path> {
    if op.Quarantine? then {op.target, op.dest, op.meta}
    else {op.target, op.backup, op.backupMeta, op.disabled, op.disabledLater}
  }

  /** The files an operation leaves behind on purpose. */
  ghost function Keepsakes(op: FileOp): set<Path> {
    if op.Quarantine? then {op.meta} else {op.backup, op.backupMeta}
  }

  /** The generated names are new, and differ from the target and from one another; the markers are comments. */
  ghost predicate FreshNames(files: Files, op: FileOp) {
    if op.Quarantine? then
      && op.dest !in files && op.target != "" && op.dest != ""
      && op.target != op.dest && op.target != op.meta && op.dest != op.meta
    else
      && (op.disabled in files ==> op.disabledLater !in files)
      && op.target !in {op.backup, op.backupMeta, op.disabled, op.disabledLater}
      && op.backup !in {op.backupMeta, op.disabled, op.disabledLater}
      && op.backupMeta !in {op.disabled, op.disabledLater}
      && AreMarkers(op.markers)
  }

  ghost predicate Same(f: Files, g: Files, p: Path) {
    && (p in f <==> p in g)
    && (p in f ==> f[p] == g[p])
  }

  ghost predicate Agree(f: Files, g: Files, ps: set<Path>) {
    forall p :: p in ps ==> Same(f, g, p)
  }

  /** An operation touches its footprint only. */
  lemma RunFrame(files: Files, op: FileOp, p: Path)
    requires p !in Foot(op)
    ensures Same(Run(files, op).0, files, p)
  {
  }

  lemma QuarantineLocal(f: Files, g: Files, op: FileOp)
    requires op.Quarantine? && Agree(f, g, Foot(op))
    ensures RunQuarantine(f, op).1 == RunQuarantine(g, op).1
    ensures Agree(RunQuarantine(f, op).0, RunQuarantine(g, op).0, Foot(op))
  {
    assert Same(f, g, op.target);
  }

  lemma UnitLocal(f: Files, g: Files, op: FileOp)
    requires op.DisablePersistenceOp? && op.target in f && Agree(f, g, Foot(op))
    ensures op.target in g && RunUnit(f, op).1 == RunUnit(g, op).1
    ensures Agree(RunUnit(f, op).0, RunUnit(g, op).0, Foot(op))
  {
    assert Same(f, g, op.target) && Same(f, g, op.disabled);
  }

  lemma LinesLocal(f: Files, g: Files, op: FileOp)
    requires op.DisablePersistenceOp? && op.target in f && Agree(f, g, Foot(op))
    ensures op.target in g && RunLines(f, op).1 == RunLines(g, op).1
    ensures Agree(RunLines(f, op).0, RunLines(g, op).0, Foot(op))
  {
    hide Disabled, Hits, SplitLines, ReadText;
    assert Same(f, g, op.target);
  }

  lemma PersistenceLocal(f: Files, g: Files, op: FileOp)
    requires op.DisablePersistenceOp? && Agree(f, g, Foot(op))
    ensures RunPersistence(f, op).1 == RunPersistence(g, op).1
    ensures Agree(RunPersistence(f, op).0, RunPersistence(g, op).0, Foot(op))
  {
    hide RunUnit, RunLines;
    assert Same(f, g, op.target);
    if Refusal(f, op).None? && !op.fault.BackupFails? {
      var f1, g1 := f[op.backup := f[op.target]][op.backupMeta := op.metaText], g[op.backup := g[op.target]][op.backupMeta := op.metaText];
      assert Agree(f1, g1, Foot(op));
      if op.isUnit {
        UnitLocal(f1, g1, op);
      } else {
        LinesLocal(f1, g1, op);
      }
    }
  }

  /** What an operation does depends on its footprint only. */
  lemma RunLocal(f: Files, g: Files, op: FileOp)
    requires Agree(f, g, Foot(op))
    ensures Run(f, op).1 == Run(g, op).1
    ensures Agree(Run(f, op).0, Run(g, op).0, Foot(op))
  {
    if op.Quarantine? {
      QuarantineLocal(f, g, op);
    } else {
      PersistenceLocal(f, g, op);
    }
  }

  ghost function PayloadPaths(payload: Rollback): set<Path> {
    match payload
    case RestoreFile(from, to) => {from, to}
    case RestorePersistence(file, backup, disabled) =>
      {file} + (if backup.Some? then {backup.value} else {}) + (if disabled.Some? then {disabled.value} else {})
    case _ => {}
  }

  /** An outcome on its way to the rollback executor, with what the rollback meets. */
  datatype Undoing = Undoing(outcome: Outcome, host: Host)

  /** Only successes are handed to the rollback executor. */
  function UndoIfSuccess(files: Files, u: Undoing): Files {
    if u.outcome.status.Success? then Undo(files, u.outcome.rollback, u.host).0 else files
  }

  /** The paths an undoing may touch or look at. */
  ghost function Reach(u: Undoing): set<Path> {
    if u.outcome.status.Success? then PayloadPaths(u.outcome.rollback) else {}
  }

  lemma ReachWithinFoot(files: Files, op: FileOp)
    ensures Reach(Undoing(Run(files, op).1, op.undo)) <= Foot(op)
  {
  }

  lemma UndoFrame(files: Files, u: Undoing, p: Path)
    requires p !in Reach(u)
    ensures Same(UndoIfSuccess(files, u), files, p)
  {
  }

  lemma RestoreFileLocal(f: Files, g: Files, payload: Rollback, host: Host, ps: set<Path>)
    requires payload.RestoreFile? && {payload.from, payload.to} <= ps && Agree(f, g, ps)
    ensures Agree(Undo(f, payload, host).0, Undo(g, payload, host).0, ps)
  {
    assert Same(f, g, payload.from);
  }

  lemma RestorePersistenceLocal(f: Files, g: Files, payload: Rollback, host: Host, ps: set<Path>)
    requires payload.RestorePersistence? && PayloadPaths(payload) <= ps && Agree(f, g, ps)
    ensures Agree(Undo(f, payload, host).0, Undo(g, payload, host).0, ps)
  {
    assert payload.disabled.Some? ==> Same(f, g, payload.disabled.value);
    assert payload.backup.Some? ==> Same(f, g, payload.backup.value);
  }

  lemma UndoLocal(f: Files, g: Files, u: Undoing, ps: set<Path>)
    requires Reach(u) <= ps && Agree(f, g, ps)
    ensures Agree(UndoIfSuccess(f, u), UndoIfSuccess(g, u), ps)
  {
    hide Same;
    if u.outcome.status.Success? {
      if u.outcome.rollback.RestoreFile? {
        RestoreFileLocal(f, g, u.outcome.rollback, u.host, ps);
      } else if u.outcome.rollback.RestorePersistence? {
        RestorePersistenceLocal(f, g, u.outcome.rollback, u.host, ps);
      }
    }
  }

  // ---- Which operations cannot be undone ----

  /** The rewriting of lines is reached and has something to do. */
  predicate Rewrites(files: Files, op: FileOp) {
    && op.DisablePersistenceOp? && Refusal(files, op).None? && !op.fault.BackupFails? && !op.isUnit && op.target in files
    && Hits(op.filter, SplitLines(ReadText(files[op.target]))) > 0
  }

  /** The operation fails after it has changed its target, and reports no way back: the metadata of a quarantine
      cannot be written once the file has moved, or rewriting a file leaves other text than it held. */
  predicate Lossy(files: Files, op: FileOp) {
    if op.Quarantine? then !op.dryRun && op.target in files && op.fault.MetadataFails?
    else Rewrites(files, op) && op.fault.RewriteFails? && op.fault.textLeft != files[op.target]
  }

  /** The move of the operation fails and leaves a file at the generated name, which nothing takes away again. */
  predicate Strays(files: Files, op: FileOp) {
    && op.fault.MoveFails? && op.fault.moved.Some?
    && if op.Quarantine? then !op.dryRun && op.target in files else op.isUnit && Refusal(files, op).None?
  }

  /** The operation succeeds, but its rollback does not run for real, or fails: then the moved file stays where it
      was moved, and a rewritten file has its text back only if that is what the failing restore left. */
  predicate Unrestored(files: Files, op: FileOp) {
    && Run(files, op).1.status.Success?
    && (|| op.undo.dryRun
        || (op.undo.restoring.RestoreFails?
            && !(Rewrites(files, op) && op.target in files && op.undo.restoring.left == Some(files[op.target]))))
  }

  predicate Lost(files: Files, op: FileOp) {
    Lossy(files, op) || Strays(files, op) || Unrestored(files, op)
  }

  function BackAndForth(files: Files, op: FileOp): Files {
    UndoIfSuccess(Run(files, op).0, Undoing(Run(files, op).1, op.undo))
  }

  lemma QuarantineRoundTrip(files: Files, op: FileOp)
    requires op.Quarantine? && FreshNames(files, op)
    ensures Lossy(files, op) ==> op.target in files && op.target !in BackAndForth(files, op)
    ensures Strays(files, op) ==> op.dest !in files && op.dest in BackAndForth(files, op)
    ensures Unrestored(files, op) ==> op.dest !in files && op.dest in BackAndForth(files, op)
    ensures !Lost(files, op) ==> Agree(BackAndForth(files, op), files, {op.target, op.dest})
  {
  }

  lemma UnitRoundTrip(files: Files, op: FileOp)
    requires op.DisablePersistenceOp? && op.isUnit && FreshNames(files, op)
    ensures Lost(files, op) ==> exists p :: p in {op.disabled, op.disabledLater} && p !in files && p in BackAndForth(files, op)
    ensures !Lost(files, op) ==> Agree(BackAndForth(files, op), files, {op.target, op.disabled, op.disabledLater})
  {
    hide Hits, SplitLines, ReadText;
    if Lost(files, op) {
      assert UnitName(files, op) !in files && UnitName(files, op) in BackAndForth(files, op);
    }
  }

  lemma LinesRoundTrip(files: Files, op: FileOp)
    requires op.DisablePersistenceOp? && !op.isUnit && FreshNames(files, op)
    ensures Agree(BackAndForth(files, op), files, {op.disabled, op.disabledLater})
    ensures if Lost(files, op) then !Same(BackAndForth(files, op), files, op.target) else Same(BackAndForth(files, op), files, op.target)
    ensures Lossy(files, op) ==> op.target in BackAndForth(files, op) && BackAndForth(files, op)[op.target] == op.fault.textLeft
  {
    hide AreMarkers, Disabled, Hits, SplitLines, ReadText;
    if Rewrites(files, op) {
      DisabledDiffers(op.filter, op.markers, files[op.target]);
    }
  }

  /** The paths an operation should leave as they were. */
  ghost function Own(op: FileOp): set<Path> {
    Foot(op) - Keepsakes(op)
  }

  lemma OwnPaths(files: Files, op: FileOp)
    requires FreshNames(files, op)
    ensures Own(op) == if op.Quarantine? then {op.target, op.dest} else {op.target, op.disabled, op.disabledLater}
  {
  }

  /** Doing and undoing one operation restores its paths, backups and metadata aside, if and only if it is not lost. */
  lemma RoundTripOne(files: Files, op: FileOp)
    requires FreshNames(files, op)
    ensures Agree(BackAndForth(files, op), files, Own(op)) <==> !Lost(files, op)
  {
    hide FreshNames, BackAndForth, Own, Lossy, Strays, Unrestored;
    OwnPaths(files, op);
    if op.Quarantine? {
      QuarantineRoundTrip(files, op);
      if Lost(files, op) {
        assert !Same(BackAndForth(files, op), files, op.target) || !Same(BackAndForth(files, op), files, op.dest);
      }
    } else if op.isUnit {
      UnitRoundTrip(files, op);
      if Lost(files, op) {
        var p :| p in {op.disabled, op.disabledLater} && p !in files && p in BackAndForth(files, op);
        assert !Same(BackAndForth(files, op), files, p);
      }
    } else {
      LinesRoundTrip(files, op);
      assert Own(op) == {op.target} + {op.disabled, op.disabledLater};
    }
  }

  // ---- Batches ----

  function RunAll(files: Files, ops: seq<FileOp>): (r: (Files, seq<Outcome>))
    ensures |r.1| == |ops|
    decreases |ops|
  {
    if ops == [] then (files, [])
    else
      var first := Run(files, ops[0]);
      var rest := RunAll(first.0, ops[1..]);
      (rest.0, [first.1] + rest.1)
  }

  function UndoAll(files: Files, undoings: seq<Undoing>): Files
    decreases |undoings|
  {
    if undoings == [] then files else UndoAll(UndoIfSuccess(files, undoings[0]), undoings[1..])
  }

  ghost predicate DisjointFeet(ops: seq<FileOp>) {
    forall i, j :: 0 <= i < j < |ops| ==> Foot(ops[i]) !! Foot(ops[j])
  }

  lemma {:induction false} RunAllFrame(files: Files, ops: seq<FileOp>, p: Path)
    requires forall op :: op in ops ==> p !in Foot(op)
    ensures Same(RunAll(files, ops).0, files, p)
    decreases |ops|
  {
    if ops != [] {
      RunFrame(files, ops[0], p);
      RunAllFrame(Run(files, ops[0]).0, ops[1..], p);
    }
  }

  /** In a batch with disjoint footprints every operation behaves as it would alone. */
  lemma {:induction false} RunAllSplits(files: Files, ops: seq<FileOp>, i: nat)
    requires DisjointFeet(ops) && i < |ops|
    ensures RunAll(files, ops).1[i] == Run(files, ops[i]).1
    ensures Agree(RunAll(files, ops).0, Run(files, ops[i]).0, Foot(ops[i]))
    decreases |ops|
  {
    var first := Run(files, ops[0]);
    var rest := ops[1..];
    assert DisjointFeet(rest) by {
      assert forall k :: 0 <= k < |rest| ==> rest[k] == ops[k + 1];
    }
    if i == 0 {
      forall p | p in Foot(ops[0]) ensures Same(RunAll(first.0, rest).0, first.0, p) {
        assert forall k :: 0 < k < |ops| ==> p !in Foot(ops[k]);
        assert forall op :: op in rest ==> p !in Foot(op);
        RunAllFrame(first.0, rest, p);
      }
    } else {
      RunAllSplits(first.0, rest, i - 1);
      forall p | p in Foot(ops[i]) ensures Same(first.0, files, p) {
        assert Foot(ops[0]) !! Foot(ops[i]);
        RunFrame(files, ops[0], p);
      }
      RunLocal(first.0, files, ops[i]);
    }
  }

  lemma {:induction false} UndoAllFrame(files: Files, undoings: seq<Undoing>, p: Path)
    requires forall u :: u in undoings ==> p !in Reach(u)
    ensures Same(UndoAll(files, undoings), files, p)
    decreases |undoings|
  {
    if undoings != [] {
      UndoFrame(files, undoings[0], p);
      UndoAllFrame(UndoIfSuccess(files, undoings[0]), undoings[1..], p);
    }
  }

  /** Undoings that stay inside pairwise disjoint path sets work independently of one another. */
  lemma {:induction false} UndoAllSplits(files: Files, undoings: seq<Undoing>, feet: seq<set<Path>>, i: nat)
    requires |undoings| == |feet| && i < |feet|
    requires forall k :: 0 <= k < |feet| ==> Reach(undoings[k]) <= feet[k]
    requires forall j, k :: 0 <= j < k < |feet| ==> feet[j] !! feet[k]
    ensures Agree(UndoAll(files, undoings), UndoIfSuccess(files, undoings[i]), feet[i])
    decreases |undoings|
  {
    hide UndoIfSuccess, Reach;
    var once := UndoIfSuccess(files, undoings[0]);
    if i == 0 {
      forall p | p in feet[0] ensures Same(UndoAll(once, undoings[1..]), once, p) {
        forall u | u in undoings[1..] ensures p !in Reach(u) {
          var k :| 0 < k < |undoings| && undoings[k] == u;
          assert feet[0] !! feet[k];
        }
        UndoAllFrame(once, undoings[1..], p);
      }
    } else {
      UndoAllSplits(once, undoings[1..], feet[1..], i - 1);
      forall p | p in feet[i] ensures Same(once, files, p) {
        assert feet[0] !! feet[i];
        UndoFrame(files, undoings[0], p);
      }
      UndoLocal(once, files, undoings[i], feet[i]);
    }
  }

  /** Each outcome of a batch with what its operation's rollback meets. */
  function Undoings(outcomes: seq<Outcome>, ops: seq<FileOp>): seq<Undoing>
    requires |outcomes| == |ops|
  {
    seq(|ops|, i requires 0 <= i < |ops| => Undoing(outcomes[i], ops[i].undo))
  }

  /** The state after a batch has been executed and every success rolled back, in the same order. */
  function RoundTrip(files: Files, ops: seq<FileOp>): Files {
    var done := RunAll(files, ops);
    UndoAll(done.0, Undoings(done.1, ops))
  }

  lemma RoundTripOfOne(files: Files, ops: seq<FileOp>, i: nat)
    requires DisjointFeet(ops) && i < |ops|
    ensures Agree(RoundTrip(files, ops), BackAndForth(files, ops[i]), Foot(ops[i]))
  {
    hide Run, UndoIfSuccess, Reach;
    var done := RunAll(files, ops);
    var undoings := Undoings(done.1, ops);
    forall k | 0 <= k < |ops| ensures Reach(undoings[k]) <= Foot(ops[k]) {
      RunAllSplits(files, ops, k);
      ReachWithinFoot(files, ops[k]);
    }
    var feet := seq(|ops|, k requires 0 <= k < |ops| => Foot(ops[k]));
    RunAllSplits(files, ops, i);
    UndoAllSplits(done.0, undoings, feet, i);
    UndoLocal(done.0, Run(files, ops[i]).0, undoings[i], Foot(ops[i]));
  }

  lemma RoundTripOutside(files: Files, ops: seq<FileOp>, p: Path)
    requires DisjointFeet(ops) && forall op :: op in ops ==> p !in Foot(op)
    ensures Same(RoundTrip(files, ops), files, p)
  {
    hide Run, UndoIfSuccess, Reach;
    var done := RunAll(files, ops);
    var undoings := Undoings(done.1, ops);
    RunAllFrame(files, ops, p);
    forall u | u in undoings ensures p !in Reach(u) {
      var k :| 0 <= k < |undoings| && undoings[k] == u;
      RunAllSplits(files, ops, k);
      ReachWithinFoot(files, ops[k]);
      assert ops[k] in ops;
    }
    UndoAllFrame(done.0, undoings, p);
  }

  /** Every file is as it was, except for the backups and metadata the operations leave behind. */
  ghost predicate Undone(before: Files, after: Files, ops: seq<FileOp>) {
    forall p :: (forall op :: op in ops ==> p !in Keepsakes(op)) ==> Same(after, before, p)
  }

  /** Nothing in a batch leaves an operation's own paths behind on purpose. */
  lemma OwnIsNoKeepsake(ops: seq<FileOp>, op: FileOp, p: Path)
    requires DisjointFeet(ops) && op in ops && p in Own(op)
    ensures forall o :: o in ops ==> p !in Keepsakes(o)
  {
    var i :| 0 <= i < |ops| && ops[i] == op;
    forall o | o in ops ensures p !in Keepsakes(o) {
      var k :| 0 <= k < |ops| && ops[k] == o;
      if k != i {
        assert Foot(ops[i]) !! Foot(ops[k]);
        assert Keepsakes(o) <= Foot(o);
      }
    }
  }

  /** After the rollback some path of a lost operation, not one left behind on purpose, is not as it was. */
  lemma LostStaysLost(files: Files, ops: seq<FileOp>, op: FileOp)
    requires DisjointFeet(ops) && op in ops && FreshNames(files, op) && Lost(files, op)
    ensures exists p :: p in Own(op) && !Same(RoundTrip(files, ops), files, p) && forall o :: o in ops ==> p !in Keepsakes(o)
  {
    hide RoundTrip, Lost, BackAndForth, FreshNames;
    var i :| 0 <= i < |ops| && ops[i] == op;
    RoundTripOfOne(files, ops, i);
    RoundTripOne(files, op);
    var p :| p in Own(op) && !Same(BackAndForth(files, op), files, p);
    assert Same(RoundTrip(files, ops), BackAndForth(files, op), p);
    OwnIsNoKeepsake(ops, op, p);
  }

  /** Undo of a batch, whatever goes wrong in it: rolling back every success in execution order restores every
      file, backups and metadata aside, if and only if no operation failed after it had changed its target, no
      failing move left a file at its new name, and no rollback of a success came to nothing. */
  lemma BatchUndo(files: Files, ops: seq<FileOp>)
    requires DisjointFeet(ops)
    requires forall op :: op in ops ==> FreshNames(files, op)
    ensures Undone(files, RoundTrip(files, ops), ops) <==> forall op :: op in ops ==> !Lost(files, op)
  {
    hide RoundTrip, Lost, BackAndForth, FreshNames;
    var back := RoundTrip(files, ops);
    if op :| op in ops && Lost(files, op) {
      LostStaysLost(files, ops, op);
    } else {
      forall p | forall op :: op in ops ==> p !in Keepsakes(op)
        ensures Same(back, files, p)
      {
        if op :| op in ops && p in Foot(op) {
          var i :| 0 <= i < |ops| && ops[i] == op;
          RoundTripOfOne(files, ops, i);
          RoundTripOne(files, op);
          assert p in Own(op);
        } else {
          RoundTripOutside(files, ops, p);
        }
      }
    }
  }

  /** How the two failing cases end: a quarantined file is gone from its place, and a file whose rewriting failed
      keeps the text that the failing write left. */
  lemma LossyLoses(files: Files, ops: seq<FileOp>, op: FileOp)
    requires DisjointFeet(ops) && op in ops && FreshNames(files, op) && Lossy(files, op)
    ensures op.target in files
    ensures if op.Quarantine? then op.target !in RoundTrip(files, ops)
            else op.target in RoundTrip(files, ops) && RoundTrip(files, ops)[op.target] == op.fault.textLeft != files[op.target]
  {
    hide RoundTrip, BackAndForth, FreshNames;
    var i :| 0 <= i < |ops| && ops[i] == op;
    RoundTripOfOne(files, ops, i);
    assert op.target in Foot(op);
    assert Same(RoundTrip(files, ops), BackAndForth(files, op), op.target);
    if op.Quarantine? {
      QuarantineRoundTrip(files, op);
    } else {
      LinesRoundTrip(files, op);
    }
  }

  /** Nothing goes wrong, neither in the operation nor in its rollback. */
  predicate Works(op: FileOp) {
    !op.dryRun && op.fault.NoFault? && !op.undo.dryRun && op.undo.restoring.Restores?
  }

  lemma WorkingIsNotLost(files: Files, op: FileOp)
    requires Works(op)
    ensures !Lost(files, op)
  {
  }

  // ---- Batches of quarantines whose generated names may coincide ----

  /** Working quarantines of different existing files. A generated name is no target, a destination no metadata
      name, and the metadata name is made from the destination. */
  ghost predicate Quarantines(files: Files, ops: seq<FileOp>) {
    && (forall op :: op in ops ==> op.Quarantine? && Works(op) && FreshNames(files, op) && op.target in files)
    && (forall j, k :: 0 <= j < k < |ops| ==> ops[j].target != ops[k].target)
    && (forall a, b :: a in ops && b in ops ==> a.target != b.dest && a.target != b.meta && a.dest != b.meta)
    && (forall a, b :: a in ops && b in ops ==> (a.dest == b.dest <==> a.meta == b.meta))
  }

  ghost predicate DistinctDests(ops: seq<FileOp>)
    requires forall op :: op in ops ==> op.Quarantine?
  {
    forall j, k :: 0 <= j < k < |ops| ==> ops[j].dest != ops[k].dest
  }

  lemma FeetApart(files: Files, ops: seq<FileOp>)
    requires Quarantines(files, ops) && DistinctDests(ops)
    ensures DisjointFeet(ops)
  {
    forall i, j | 0 <= i < j < |ops| ensures Foot(ops[i]) !! Foot(ops[j]) {
      var a, b := ops[i], ops[j];
      assert a in ops && b in ops;
    }
  }

  /** What a working quarantine hands to the rollback executor. */
  function TakeBack(op: FileOp): Undoing
    requires op.Quarantine?
  {
    Undoing(Outcome(Success, RestoreFile(op.dest, op.target)), op.undo)
  }

  function TakeBacks(ops: seq<FileOp>): seq<Undoing>
    requires forall op :: op in ops ==> op.Quarantine?
  {
    seq(|ops|, i requires 0 <= i < |ops| => TakeBack(ops[i]))
  }

  lemma QuarantineSucceeds(files: Files, op: FileOp)
    requires op.Quarantine? && Works(op) && op.target in files && op.target != op.dest && op.target != op.meta
    ensures Run(files, op).1 == Outcome(Success, RestoreFile(op.dest, op.target))
    ensures op.target !in Run(files, op).0
    ensures forall p :: p in files && p != op.target ==> p in Run(files, op).0
  {
  }

  lemma FirstUndoing(o: Outcome, outcomes: seq<Outcome>, ops: seq<FileOp>)
    requires ops != [] && |outcomes| == |ops| - 1 && forall op :: op in ops ==> op.Quarantine?
    ensures Undoings([o] + outcomes, ops) == [Undoing(o, ops[0].undo)] + Undoings(outcomes, ops[1..])
    ensures TakeBacks(ops) == [TakeBack(ops[0])] + TakeBacks(ops[1..])
  {
  }

  lemma NothingQuarantined(files: Files)
    ensures Undoings(RunAll(files, []).1, []) == TakeBacks([])
  {
  }

  /** Every quarantine of the batch succeeds, and afterwards all targets are gone. */
  lemma {:induction false} AllQuarantined(files: Files, ops: seq<FileOp>)
    requires forall op :: op in ops ==> op.Quarantine? && Works(op) && op.target in files
    requires forall j, k :: 0 <= j < k < |ops| ==> ops[j].target != ops[k].target
    requires forall a, b :: a in ops && b in ops ==> a.target != b.dest && a.target != b.meta
    ensures Undoings(RunAll(files, ops).1, ops) == TakeBacks(ops)
    ensures forall op :: op in ops ==> op.target !in RunAll(files, ops).0
    decreases |ops|
  {
    hide Run, Undoings, TakeBacks, Works;
    if ops == [] {
      NothingQuarantined(files);
    } else {
      var op, rest := ops[0], ops[1..];
      assert op in ops;
      QuarantineSucceeds(files, op);
      var first := Run(files, op);
      forall x | x in rest ensures x in ops && x.target in first.0 && op.target !in Foot(x) {
        var k :| 0 <= k < |rest| && rest[k] == x;
        assert x == ops[k + 1] && op.target != x.target;
      }
      AllQuarantined(first.0, rest);
      RunAllFrame(first.0, rest, op.target);
      assert forall x :: x in ops <==> x == op || x in rest;
      FirstUndoing(first.1, RunAll(first.0, rest).1, ops);
    }
  }

  /** Taking one file back empties its destination and brings back no other path. */
  lemma TakeBackStep(files: Files, op: FileOp)
    requires op.Quarantine? && op.target != op.dest
    ensures var once := UndoIfSuccess(files, TakeBack(op));
            && (forall p :: p !in files && p != op.target ==> p !in once)
            && (op.dest !in files && op.target !in files ==> op.target !in once)
            && (Works(op) && op.target != "" && op.dest != "" ==> op.dest !in once)
  {
  }

  lemma TakeBacksTail(files: Files, ops: seq<FileOp>)
    requires ops != [] && forall op :: op in ops ==> op.Quarantine?
    ensures UndoAll(files, TakeBacks(ops)) == UndoAll(UndoIfSuccess(files, TakeBack(ops[0])), TakeBacks(ops[1..]))
  {
    assert TakeBacks(ops)[0] == TakeBack(ops[0]) && TakeBacks(ops)[1..] == TakeBacks(ops[1..]);
  }

  lemma NothingTakenBack(files: Files)
    ensures UndoAll(files, TakeBacks([])) == files
  {
  }

  /** A file that is to come from a name no longer there stays gone. */
  lemma {:induction false} GoneStaysGone(files: Files, ops: seq<FileOp>, dest: Path, target: Path)
    requires forall op :: op in ops ==>
                            op.Quarantine? && op.target != op.dest && op.target != dest && (op.target == target ==> op.dest == dest)
    requires dest !in files && target !in files
    ensures target !in UndoAll(files, TakeBacks(ops))
    decreases |ops|
  {
    hide UndoIfSuccess, TakeBack, TakeBacks;
    if ops != [] {
      TakeBacksTail(files, ops);
      assert ops[0] in ops;
      TakeBackStep(files, ops[0]);
      GoneStaysGone(UndoIfSuccess(files, TakeBack(ops[0])), ops[1..], dest, target);
    } else {
      NothingTakenBack(files);
    }
  }

  /** Of two quarantines with the same destination, the later one's file does not come back. */
  lemma {:induction false} SecondStaysGone(files: Files, ops: seq<FileOp>, j: nat, k: nat)
    requires forall op :: op in ops ==> op.Quarantine? && Works(op) && op.target != "" && op.dest != "" && op.target !in files
    requires forall i, l :: 0 <= i < l < |ops| ==> ops[i].target != ops[l].target
    requires forall a, b :: a in ops && b in ops ==> a.target != b.dest
    requires j < k < |ops| && ops[j].dest == ops[k].dest
    ensures ops[k].target !in UndoAll(files, TakeBacks(ops))
    decreases |ops|
  {
    hide UndoIfSuccess, TakeBack, TakeBacks, UndoAll;
    var op, rest := ops[0], ops[1..];
    assert op in ops;
    TakeBacksTail(files, ops);
    TakeBackStep(files, op);
    var once := UndoIfSuccess(files, TakeBack(op));
    forall x | x in rest ensures x in ops && x.target !in once {
      var l :| 0 <= l < |rest| && rest[l] == x;
      assert x == ops[l + 1] && x.target != op.target;
    }
    assert rest[k - 1] == ops[k] && rest[k - 1] in rest;
    if j == 0 {
      forall x | x in rest && x.target == ops[k].target ensures x.dest == op.dest {
        var l :| 0 <= l < |rest| && rest[l] == x;
        assert x == ops[l + 1];
      }
      GoneStaysGone(once, rest, op.dest, ops[k].target);
    } else {
      assert rest[j - 1] == ops[j];
      SecondStaysGone(once, rest, j - 1, k - 1);
    }
  }

  lemma TargetStaysGone(files: Files, ops: seq<FileOp>, j: nat, k: nat)
    requires Quarantines(files, ops) && j < k < |ops| && ops[j].dest == ops[k].dest
    ensures ops[k].target !in RoundTrip(files, ops)
  {
    AllQuarantined(files, ops);
    SecondStaysGone(RunAll(files, ops).0, ops, j, k);
  }

  /** A batch of working quarantines is undone if and only if no two of them generated the same name: the clock
      in the name has a resolution of one second, and the rest of it is the file's base name. */
  lemma QuarantinesUndoExactly(files: Files, ops: seq<FileOp>)
    requires Quarantines(files, ops)
    ensures Undone(files, RoundTrip(files, ops), ops) <==> DistinctDests(ops)
  {
    hide Lost, FreshNames, RoundTrip, Run;
    if DistinctDests(ops) {
      FeetApart(files, ops);
      forall op | op in ops ensures !Lost(files, op) {
        WorkingIsNotLost(files, op);
      }
      BatchUndo(files, ops);
    } else {
      var j, k :| 0 <= j < k < |ops| && ops[j].dest == ops[k].dest;
      TargetStaysGone(files, ops, j, k);
      var target := ops[k].target;
      assert ops[k] in ops;
      assert forall op :: op in ops ==> target !in Keepsakes(op);
      assert !Same(RoundTrip(files, ops), files, target);
    }
  }

  /** Two quarantines that generate the same name: the second file is lost to the first one's undo. */
  lemma QuarantineNamesCollide(files: Files, a: FileOp, b: FileOp)
    requires a.Quarantine? && b.Quarantine? && Works(a) && Works(b)
    requires FreshNames(files, a) && FreshNames(files, b)
    requires a.dest == b.dest && a.target != b.target && a.target in files && b.target in files
    requires b.target != a.meta && a.target != b.meta && a.dest != b.meta && a.dest != a.meta
    ensures b.target !in RoundTrip(files, [a, b])
    ensures a.target in RoundTrip(files, [a, b])
    ensures RoundTrip(files, [a, b])[a.target] == files[b.target]
  {
    var r1 := Run(files, a);
    var r2 := Run(r1.0, b);
    assert [a, b][1..] == [b];
    assert [b][1..] == [];
    assert RunAll(r2.0, []) == (r2.0, []);
    assert RunAll(r1.0, [b]).0 == r2.0 && RunAll(r1.0, [b]).1 == [r2.1];
    assert RunAll(files, [a, b]).0 == r2.0 && RunAll(files, [a, b]).1 == [r1.1] + [r2.1];
    var v1, v2 := Undoing(r1.1, a.undo), Undoing(r2.1, b.undo);
    assert Undoings([r1.1] + [r2.1], [a, b]) == [v1, v2];
    var u1 := UndoIfSuccess(r2.0, v1);
    var u2 := UndoIfSuccess(u1, v2);
    assert [v1, v2][1..] == [v2] && [v2][1..] == [];
    assert UndoAll(u1, [v2]) == u2 by {
      assert UndoAll(u2, []) == u2;
    }
    assert UndoAll(r2.0, [v1, v2]) == u2;
  }

  // ---- Editing and quarantining one file ----

  /** A working edit and a working quarantine of the same file whose generated names do not meet. */
  ghost predicate EditThenQuarantine(files: Files, e: FileOp, q: FileOp) {
    && e.DisablePersistenceOp? && q.Quarantine? && e.target == q.target && Works(e) && Works(q)
    && FreshNames(files, e) && FreshNames(files, q)
    && {e.backup, e.backupMeta, e.disabled, e.disabledLater} !! {q.dest, q.meta}
  }

  lemma PairRoundTrip(files: Files, e: FileOp, q: FileOp)
    ensures var first := Run(files, e);
            var second := Run(first.0, q);
            RoundTrip(files, [e, q]) == UndoIfSuccess(UndoIfSuccess(second.0, Undoing(first.1, e.undo)), Undoing(second.1, q.undo))
  {
    hide Run, UndoIfSuccess;
    var first := Run(files, e);
    var second := Run(first.0, q);
    assert [e, q][1..] == [q] && [q][1..] == [];
    assert RunAll(second.0, []) == (second.0, []);
    assert RunAll(first.0, [q]).0 == second.0 && RunAll(first.0, [q]).1 == [second.1];
    assert RunAll(files, [e, q]).0 == second.0 && RunAll(files, [e, q]).1 == [first.1] + [second.1];
    var u, v := Undoing(first.1, e.undo), Undoing(second.1, q.undo);
    assert Undoings([first.1] + [second.1], [e, q]) == [u, v];
    var once := UndoIfSuccess(second.0, u);
    assert [u, v][1..] == [v] && [v][1..] == [];
    assert UndoAll(UndoIfSuccess(once, v), []) == UndoIfSuccess(once, v);
    assert UndoAll(once, [v]) == UndoIfSuccess(once, v);
    assert UndoAll(second.0, [u, v]) == UndoIfSuccess(once, v);
  }

  /** Where lines were disabled, the rollback in execution order first restores the file from its backup and then
      moves the quarantined, edited file over it. */
  lemma EditSurvives(files: Files, e: FileOp, q: FileOp)
    requires EditThenQuarantine(files, e, q) && Rewrites(files, e)
    ensures e.target in files && e.target in RoundTrip(files, [e, q])
    ensures RoundTrip(files, [e, q])[e.target] == Disabled(e.filter, e.markers, ReadText(files[e.target])) != files[e.target]
  {
    hide AreMarkers, Disabled, Hits, SplitLines, ReadText;
    DisabledDiffers(e.filter, e.markers, files[e.target]);
    PairRoundTrip(files, e, q);
  }

  lemma UneditedComesBack(files: Files, e: FileOp, q: FileOp, p: Path)
    requires EditThenQuarantine(files, e, q) && !Rewrites(files, e) && p !in Keepsakes(e) && p !in Keepsakes(q)
    ensures Same(RoundTrip(files, [e, q]), files, p)
  {
    hide AreMarkers, Disabled, Hits, SplitLines, ReadText;
    PairRoundTrip(files, e, q);
  }

  /** Editing and then quarantining one file is undone if and only if the edit disabled no line. */
  lemma EditThenQuarantineUndoesExactly(files: Files, e: FileOp, q: FileOp)
    requires EditThenQuarantine(files, e, q)
    ensures Undone(files, RoundTrip(files, [e, q]), [e, q]) <==> !Rewrites(files, e)
  {
    hide RoundTrip, Rewrites;
    if Rewrites(files, e) {
      EditSurvives(files, e, q);
      assert forall op :: op in [e, q] ==> e.target !in Keepsakes(op);
      assert !Same(RoundTrip(files, [e, q]), files, e.target);
    } else {
      forall p | forall op :: op in [e, q] ==> p !in Keepsakes(op) ensures Same(RoundTrip(files, [e, q]), files, p) {
        assert e in [e, q] && q in [e, q];
        UneditedComesBack(files, e, q, p);
      }
    }
  }

  // ---- The definitions in literals ----

  /** An operation outside the configured paths, on a directory, on a missing or oversized file or on no named file
      changes nothing, and neither does a dry run. */
  lemma RefusedChangesNothing(files: Files, op: FileOp)
    requires op.DisablePersistenceOp?
    requires !op.allowed || op.isDirectory || op.dryRun || op.target == "" || op.target == "unknown"
             || op.target !in files || |files[op.target]| > op.maxSize
    ensures Run(files, op).0 == files && !Run(files, op).1.status.Success?
  {
  }

  /** How a quarantine ends: planned in a dry run; otherwise successful with the file there and nothing failing, and
      failed in every other case. Where the move fails the file stays; where only the metadata fail it has moved. */
  lemma QuarantineEnds(files: Files, op: FileOp)
    requires op.Quarantine?
    ensures var (after, o) := Run(files, op);
            var fails := op.fault.MoveFails? || op.fault.MetadataFails?;
            && (o.status == Planned <==> op.dryRun)
            && (o.status == Success <==> !op.dryRun && op.target in files && !fails)
            && (o.status == Failed <==> !op.dryRun && (op.target !in files || fails))
            && (o.status != Success ==> o.rollback == RestoreFileWithoutPaths)
            && (op.dryRun || op.target !in files ==> after == files)
            && (o.status == Failed && op.target in files && op.target !in {op.dest, op.meta} && op.dest != op.meta ==>
                  if op.fault.MoveFails? then op.target in after && after[op.target] == files[op.target]
                  else op.target !in after && op.dest in after && after[op.dest] == files[op.target])
  {
  }

  /** Persistence is disabled only where it may be. */
  predicate MayDisable(files: Files, op: FileOp) {
    && op.DisablePersistenceOp? && op.target != "" && op.target != "unknown" && !op.dryRun
    && op.allowed && !op.isDirectory && op.target in files && |files[op.target]| <= op.maxSize
  }

  /** How disabling persistence ends: skipped without a named target or on a directory, planned in a dry run, failed
      outside the configured paths and on a missing or oversized file. Past these tests a failing backup fails it, a
      unit fails with its move, and other files are skipped without a matching line and fail with their rewriting. */
  lemma PersistenceEnds(files: Files, op: FileOp)
    requires op.DisablePersistenceOp? && FreshNames(files, op)
    ensures var (after, o) := Run(files, op);
            var named := op.target != "" && op.target != "unknown";
            && (!named ==> o.status == Skipped)
            && (named && op.dryRun ==>
                  o == Outcome(Planned, RestorePersistence(op.target, Some(op.plannedBackup), None)))
            && (named && !op.dryRun && !op.allowed ==> o.status == Failed)
            && (named && !op.dryRun && op.allowed && op.isDirectory ==> o.status == Skipped)
            && (named && !op.dryRun && op.allowed && !op.isDirectory && (op.target !in files || |files[op.target]| > op.maxSize) ==>
                  o.status == Failed)
            && (MayDisable(files, op) && op.fault.BackupFails? ==>
                  o.status == Failed && op.target in after && after[op.target] == files[op.target])
            && (MayDisable(files, op) && !op.fault.BackupFails? && op.isUnit ==>
                  && (o.status == Success <==> !op.fault.MoveFails?)
                  && (o.status == Failed <==> op.fault.MoveFails?)
                  && (op.fault.MoveFails? ==> op.target in after && after[op.target] == files[op.target]))
            && (MayDisable(files, op) && !op.fault.BackupFails? && !op.isUnit ==>
                  var hit := exists line :: line in SplitLines(ReadText(files[op.target])) && Hit(op.filter, line);
                  && (o.status == Skipped <==> !hit)
                  && (o.status == Failed <==> hit && op.fault.RewriteFails?)
                  && (o.status == Success <==> hit && !op.fault.RewriteFails?)
                  && (o.status == Failed ==> op.target in after && after[op.target] == op.fault.textLeft))
  {
    hide Disabled, SplitLines, ReadText, AreMarkers, Hit, Hits;
    if MayDisable(files, op) {
      SomeHit(op.filter, SplitLines(ReadText(files[op.target])));
    }
  }

  /** How restoring a quarantined file ends. */
  lemma RestoreFileEnds(files: Files, from: Path, to: Path, host: Host)
    ensures var (after, status) := Undo(files, RestoreFile(from, to), host);
            && (status == Skipped <==> from == "" || to == "")
            && (status == Planned <==> from != "" && to != "" && host.dryRun)
            && (status == Success <==> from != "" && to != "" && !host.dryRun && from in files && host.restoring.Restores?)
            && (status in {Skipped, Planned, Failed, Success})
            && (status in {Skipped, Planned} ==> after == files)
            && (status == Success ==> to in after && after[to] == files[from] && (from != to ==> from !in after))
  {
  }

  /** How restoring a persistence file ends: from the disabled unit if that is there, otherwise from the backup. */
  lemma RestorePersistenceEnds(files: Files, target: Path, backup: Option<Path>, disabled: Option<Path>, host: Host)
    ensures var (after, status) := Undo(files, RestorePersistence(target, backup, disabled), host);
            var moved := disabled.Some? && disabled.value in files;
            var saved := backup.Some? && backup.value in files;
            && (status == Skipped <==> target == "")
            && (status == Planned <==> target != "" && host.dryRun)
            && (status == Success <==> target != "" && !host.dryRun && (moved || saved) && host.restoring.Restores?)
            && status in {Skipped, Planned, Failed, Success}
            && (status in {Skipped, Planned} ==> after == files)
            && (status == Success && moved ==>
                  target in after && after[target] == files[disabled.value] && (disabled.value != target ==> disabled.value !in after))
            && (status == Success && !moved ==>
                  after == files[target := files[backup.value]])
  {
  }

  /** What a working operation leaves in place of its target. */
  lemma WorkingOperations(files: Files, op: FileOp)
    requires Works(op) && FreshNames(files, op) && op.target in files
    ensures op.Quarantine? ==>
              var (after, o) := Run(files, op);
              && o == Outcome(Success, RestoreFile(op.dest, op.target))
              && op.target !in after && op.dest in after && after[op.dest] == files[op.target]
              && op.meta in after && after[op.meta] == op.metaText
    ensures op.DisablePersistenceOp? && op.allowed && !op.isDirectory && op.target != "" && op.target != "unknown"
            && |files[op.target]| <= op.maxSize ==>
              var (after, o) := Run(files, op);
              && op.backup in after && after[op.backup] == files[op.target]
              && op.backupMeta in after && after[op.backupMeta] == op.metaText
              && (op.isUnit ==>
                    var name := if op.disabled in files then op.disabledLater else op.disabled;
                    && o == Outcome(Success, RestorePersistence(op.target, Some(op.backup), Some(name)))
                    && op.target !in after && name in after && after[name] == files[op.target])
              && (!op.isUnit ==>
                    && op.target in after && o.rollback == RestorePersistence(op.target, Some(op.backup), None)
                    && (if Hits(op.filter, SplitLines(ReadText(files[op.target]))) == 0
                        then o.status.Skipped? && after[op.target] == files[op.target]
                        else o.status.Success? && after[op.target] == Disabled(op.filter, op.markers, ReadText(files[op.target]))))
  {
    hide AreMarkers, Disabled, Hits, SplitLines, ReadText;
  }

  /** A suspended process is resumed unless its id is missing, and payloads of other kinds are skipped. */
  lemma OtherUndosEnd(files: Files, payload: Rollback, host: Host)
    requires !payload.RestoreFile? && !payload.RestorePersistence?
    ensures var (after, status) := Undo(files, payload, host);
            && after == files
            && (!payload.ResumeProcess? || payload.pid == 0 ==> status == Skipped)
            && (payload.ResumeProcess? && payload.pid != 0 ==>
                  status == if host.dryRun then Planned else if host.commandOk then Success else Failed)
  {
  }
}
