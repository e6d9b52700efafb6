/** src/aegis_agent/core/audit.py and the expiry step of src/aegis_agent/cli.py: the action table and its cleanup. */
module Audit {
  import opened Common
  import opened Lists
  import opened Effects

  /** One stored action. `handed` says that a rollback result has been stored with it. */
  datatype Row = Row(actionId: string, status: Status, handed: bool, rollback: Rollback)

  const SCAN_LIMIT := 10000

  function ExpiresAt(r: Row): int {
    if r.rollback.DeleteElement? then r.rollback.expiresAt else 0
  }

  /** A live success nobody has rolled back yet. */
  predicate Pending(r: Row) {
    r.status.Success? && !r.handed
  }

  function Eligible(now: int): Row -> bool {
    (r: Row) => Pending(r) && ExpiresAt(r) != 0 && ExpiresAt(r) <= now
  }

  /** Action ids are the table's primary key. */
  ghost predicate DistinctRows(rows: seq<Row>) {
    forall i, j :: 0 <= i < j < |rows| ==> rows[i].actionId != rows[j].actionId
  }

  function Take<T>(s: seq<T>, n: int): seq<T> {
    if n <= 0 then [] else if n <= |s| then s[..n] else s
  }

  /** The rows list_actions returns: the newest SCAN_LIMIT of them. */
  function Scanned(rows: seq<Row>): seq<Row> {
    Take(rows, SCAN_LIMIT)
  }

  /** The rows a cleanup hands to the rollback executor. */
  function Expired(rows: seq<Row>, now: int, limit: int): seq<Row> {
    if limit >= 1 then Take(Where(Scanned(rows), Eligible(now)), limit)
    else
      match First(Scanned(rows), Pending)
      case Some(r) => if Eligible(now)(r) then [r] else []
      case None => []
  }

  function CleanedStatus(old_: Status, outcome: Status): Status {
    if outcome.Success? then ExpiredRolledBack else if outcome.Planned? then ExpiredRollbackPlanned else old_
  }

  /** A row after the executor has been given it, with the status the rollback ended in. */
  function Cleaned(r: Row, outcome: Status): Row {
    r.(handed := true, status := CleanedStatus(r.status, outcome))
  }

  function IdsOf(rows: seq<Row>): set<string> {
    set r | r in rows :: r.actionId
  }

  /** The table after the rows with the given ids have been handed over. */
  function MarkIds(rows: seq<Row>, ids: set<string>, outcome: string -> Status): (out: seq<Row>)
    ensures |out| == |rows|
    ensures forall i :: 0 <= i < |rows| ==>
              out[i] == if rows[i].actionId in ids then Cleaned(rows[i], outcome(rows[i].actionId)) else rows[i]
  {
    if rows == [] then []
    else
      [if rows[0].actionId in ids then Cleaned(rows[0], outcome(rows[0].actionId)) else rows[0]] + MarkIds(rows[1..], ids, outcome)
  }

  /** The table after one cleanup; `outcome` is how each rollback ends. */
  function Cleanup(rows: seq<Row>, now: int, limit: int, outcome: string -> Status): seq<Row> {
    MarkIds(rows, IdsOf(Expired(rows, now, limit)), outcome)
  }

  // ---- The code ----

  predicate HasOtherId(id: string, r: Row) {
    r.actionId != id
  }

  function Other(id: string): Row -> bool {
    (r: Row) => HasOtherId(id, r)
  }

  lemma {:induction false} OthersDistinct(rows: seq<Row>, id: string)
    requires DistinctRows(rows)
    ensures DistinctRows(Where(rows, Other(id)))
    ensures forall r :: r in Where(rows, Other(id)) ==> r in rows && r.actionId != id
  {
    if rows != [] {
      var init := rows[..|rows| - 1];
      OthersDistinct(init, id);
      assert rows == init + [rows[|rows| - 1]];
      assert forall r :: r in init ==> r.actionId != rows[|rows| - 1].actionId;
    }
  }

  lemma {:induction false} WherePrefix<T>(s: seq<T>, k: nat, p: T -> bool)
    requires k <= |s|
    ensures Where(s[..k], p) <= Where(s, p)
  {
    if k < |s| {
      WherePrefix(s[..|s| - 1], k, p);
      assert s[..|s| - 1][..k] == s[..k];
    } else {
      assert s[..k] == s;
    }
  }

  lemma {:induction false} FirstPrefix<T>(s: seq<T>, k: nat, p: T -> bool)
    requires k <= |s|
    ensures First(s[..k], p).Some? ==> First(s, p) == First(s[..k], p)
  {
    if s != [] && k > 0 {
      FirstPrefix(s[1..], k - 1, p);
      assert s[..k][1..] == s[1..][..k - 1];
    }
  }

  /** Once the break is taken, the rest of the scan no longer matters. */
  lemma PrefixDecides(candidates: seq<Row>, k: nat, now: int, limit: int)
    requires k <= |candidates|
    ensures limit >= 1 && |Where(candidates[..k], Eligible(now))| == limit ==>
              Take(Where(candidates, Eligible(now)), limit) == Where(candidates[..k], Eligible(now))
    ensures First(candidates[..k], Pending).Some? ==> First(candidates, Pending) == First(candidates[..k], Pending)
  {
    WherePrefix(candidates, k, Eligible(now));
    FirstPrefix(candidates, k, Pending);
  }

  lemma NothingScanned(candidates: seq<Row>, now: int)
    ensures Where(candidates[..0], Eligible(now)) == [] && First(candidates[..0], Pending).None?
  {
  }

  lemma EligibleMeans(r: Row, now: int)
    ensures Eligible(now)(r) <==> Pending(r) && ExpiresAt(r) != 0 && ExpiresAt(r) <= now
  {
  }

  /** What has been found when the loop ends without breaking off is all there is. */
  lemma ScanEnds(rows: seq<Row>, now: int, limit: int, found: seq<Row>)
    requires limit >= 1 ==> found == Where(Scanned(rows), Eligible(now)) && |found| < limit
    requires limit < 1 ==> found == [] && First(Scanned(rows), Pending).None?
    ensures found == Expired(rows, now, limit)
  {
  }

  /** What has been found when the loop breaks off is what the whole scan would find. */
  lemma BreakDecides(rows: seq<Row>, k: nat, now: int, limit: int, found: seq<Row>)
    requires k <= |Scanned(rows)|
    requires limit >= 1 ==> found == Where(Scanned(rows)[..k], Eligible(now)) && |found| == limit
    requires limit < 1 ==>
               var first := First(Scanned(rows)[..k], Pending);
               first.Some? && found == if Eligible(now)(first.value) then [first.value] else []
    ensures found == Expired(rows, now, limit)
  {
    PrefixDecides(Scanned(rows), k, now, limit);
  }

  /** The stored actions, in the order the query returns them: newest first. */
  class AuditTable {
    var rows: seq<Row>

    constructor ()
      ensures rows == []
    {
      rows := [];
    }

    /** save_action: insert or replace; the new row is the newest. */
    method SaveAction(row: Row)
      requires DistinctRows(rows)
      modifies this
      ensures DistinctRows(rows)
      ensures rows == [row] + Where(old(rows), Other(row.actionId))
    {
      var others := Where(rows, Other(row.actionId));
      OthersDistinct(rows, row.actionId);
      rows := [row] + others;
    }

    /** update_action_payload: rewrite the row with this id, if there is one. */
    method UpdateActionPayload(id: string, row: Row)
      requires row.actionId == id
      modifies this
      ensures |rows| == |old(rows)|
      ensures forall i :: 0 <= i < |rows| ==> rows[i] == if old(rows)[i].actionId == id then row else old(rows)[i]
    {
      var updated: seq<Row> := [];
      for i := 0 to |rows|
        invariant |updated| == i && rows == old(rows)
        invariant forall j :: 0 <= j < i ==> updated[j] == if rows[j].actionId == id then row else rows[j]
      {
        updated := updated + [if rows[i].actionId == id then row else rows[i]];
      }
      rows := updated;
    }

    /** list_expired_actions: the filtering loop with its break. */
    method ListExpiredActions(now: int, limit: int) returns (expired: seq<Row>)
      ensures expired == Expired(rows, now, limit)
    {
      hide Where, First, Expired, Scanned, Eligible;
      var candidates := Scanned(rows);
      expired := [];
      NothingScanned(candidates, now);
      for i := 0 to |candidates|
        invariant limit >= 1 ==> expired == Where(candidates[..i], Eligible(now)) && |expired| < limit
        invariant limit < 1 ==> expired == [] && First(candidates[..i], Pending).None?
      {
        var action := candidates[i];
        assert candidates[..i + 1] == candidates[..i] + [action];
        WhereExtends(candidates[..i], action, Eligible(now));
        FirstAppend(candidates[..i], action, Pending);
        EligibleMeans(action, now);
        if !action.status.Success? {
          continue;
        }
        if action.handed {
          continue;
        }
        var expiresAt := ExpiresAt(action);
        if expiresAt != 0 && expiresAt <= now {
          expired := expired + [action];
        }
        if |expired| >= limit {
          BreakDecides(rows, i + 1, now, limit, expired);
          return;
        }
      }
      assert candidates[..|candidates|] == candidates;
      ScanEnds(rows, now, limit, expired);
    }
  }

  lemma CleanedKeepsId(r: Row, outcome: Status)
    ensures Cleaned(r, outcome).actionId == r.actionId
  {
  }

  lemma IdsExtend(expired: seq<Row>, i: nat)
    requires i < |expired|
    ensures IdsOf(expired[..i + 1]) == IdsOf(expired[..i]) + {expired[i].actionId}
  {
    assert expired[..i + 1] == expired[..i] + [expired[i]];
  }

  lemma SameIdSameRow(rows: seq<Row>, r: Row, k: nat)
    requires DistinctRows(rows) && r in rows && k < |rows| && rows[k].actionId == r.actionId
    ensures rows[k] == r
  {
    var m :| 0 <= m < |rows| && rows[m] == r;
    assert m == k;
  }

  lemma MarkOneMore(rows: seq<Row>, expired: seq<Row>, i: nat, outcome: string -> Status)
    requires DistinctRows(rows) && i < |expired| && expired[i] in rows
    ensures var before, after := MarkIds(rows, IdsOf(expired[..i]), outcome), MarkIds(rows, IdsOf(expired[..i + 1]), outcome);
            forall k :: 0 <= k < |rows| ==>
              after[k] == if before[k].actionId == expired[i].actionId then Cleaned(expired[i], outcome(expired[i].actionId)) else before[k]
  {
    hide Cleaned, IdsOf, MarkIds, DistinctRows;
    IdsExtend(expired, i);
    var ids, more, id := IdsOf(expired[..i]), IdsOf(expired[..i + 1]), expired[i].actionId;
    var before, after := MarkIds(rows, ids, outcome), MarkIds(rows, more, outcome);
    forall k | 0 <= k < |rows|
      ensures after[k] == if before[k].actionId == id then Cleaned(expired[i], outcome(id)) else before[k]
    {
      CleanedKeepsId(rows[k], outcome(rows[k].actionId));
      assert before[k].actionId == rows[k].actionId;
      if rows[k].actionId == id {
        SameIdSameRow(rows, expired[i], k);
      }
    }
  }

  lemma {:induction false} WhereRowsDistinct(rows: seq<Row>, p: Row -> bool)
    requires DistinctRows(rows)
    ensures DistinctRows(Where(rows, p))
  {
    if rows != [] {
      var init, last := rows[..|rows| - 1], rows[|rows| - 1];
      WhereRowsDistinct(init, p);
      forall i | 0 <= i < |Where(init, p)| ensures Where(init, p)[i].actionId != last.actionId {
        WhereKeeps(init, p, Where(init, p)[i]);
        var k :| 0 <= k < |init| && init[k] == Where(init, p)[i];
        assert rows[k] == init[k];
      }
    }
  }

  lemma ExpiredFacts(rows: seq<Row>, now: int, limit: int)
    ensures forall r :: r in Expired(rows, now, limit) ==> r in rows && Eligible(now)(r)
    ensures DistinctRows(rows) ==> DistinctRows(Expired(rows, now, limit))
  {
    var scanned := Scanned(rows);
    assert forall r :: r in scanned ==> r in rows;
    WhereMembers(scanned, Eligible(now));
    FirstExists(scanned, Pending);
    if DistinctRows(rows) {
      WhereRowsDistinct(scanned, Eligible(now));
    }
  }

  lemma NoneMarked(rows: seq<Row>, expired: seq<Row>, outcome: string -> Status)
    ensures MarkIds(rows, IdsOf(expired[..0]), outcome) == rows
  {
    assert IdsOf(expired[..0]) == {};
  }

  lemma CleanupMarks(rows: seq<Row>, now: int, limit: int, outcome: string -> Status)
    ensures Cleanup(rows, now, limit, outcome) == MarkIds(rows, IdsOf(Expired(rows, now, limit)), outcome)
  {
  }

  /** _cleanup_expired_internal on the table: each listed action goes to the executor once and is written back. */
  method CleanupExpired(audit: AuditTable, now: int, limit: int, outcome: string -> Status) returns (handed: seq<string>)
    requires DistinctRows(audit.rows)
    modifies audit
    ensures audit.rows == Cleanup(old(audit.rows), now, limit, outcome)
    ensures |handed| == |Expired(old(audit.rows), now, limit)|
    ensures forall i :: 0 <= i < |handed| ==> handed[i] == Expired(old(audit.rows), now, limit)[i].actionId
  {
    hide DistinctRows, Expired, Cleaned, IdsOf, MarkIds, Cleanup;
    var expired := audit.ListExpiredActions(now, limit);
    handed := [];
    ExpiredFacts(audit.rows, now, limit);
    NoneMarked(audit.rows, expired, outcome);
    for i := 0 to |expired|
      invariant |handed| == i && forall j :: 0 <= j < i ==> handed[j] == expired[j].actionId
      invariant audit.rows == MarkIds(old(audit.rows), IdsOf(expired[..i]), outcome)
    {
      var action := expired[i];
      var status := outcome(action.actionId);
      MarkOneMore(old(audit.rows), expired, i, outcome);
      CleanedKeepsId(action, status);
      audit.UpdateActionPayload(action.actionId, Cleaned(action, status));
      handed := handed + [action.actionId];
    }
    assert expired[..|expired|] == expired;
    CleanupMarks(old(audit.rows), now, limit, outcome);
  }

  // ---- What cleanups achieve ----

  /** The number of rows a cleanup at `now` could still hand over. */
  function Backlog(rows: seq<Row>, now: int): nat {
    |Where(rows, Eligible(now))|
  }

  function EligibleOutside(now: int, ids: set<string>): Row -> bool {
    (r: Row) => r.actionId !in ids && Eligible(now)(r)
  }

  lemma MarkedLast(r: Row, ids: set<string>, outcome: string -> Status, now: int)
    ensures var marked := if r.actionId in ids then Cleaned(r, outcome(r.actionId)) else r;
            (Eligible(now)(marked) <==> EligibleOutside(now, ids)(r)) && (Eligible(now)(marked) ==> marked == r)
  {
  }

  lemma {:induction false} MarkingShrinks(rows: seq<Row>, ids: set<string>, outcome: string -> Status, now: int)
    ensures Where(MarkIds(rows, ids, outcome), Eligible(now)) == Where(rows, EligibleOutside(now, ids))
  {
    hide Where, MarkIds, Eligible, EligibleOutside, Cleaned;
    if rows == [] {
      WhereAll(MarkIds(rows, ids, outcome), Eligible(now));
      WhereAll(rows, EligibleOutside(now, ids));
    } else {
      var init, last := rows[..|rows| - 1], rows[|rows| - 1];
      MarkingShrinks(init, ids, outcome, now);
      var marked := MarkIds(rows, ids, outcome);
      assert marked == MarkIds(init, ids, outcome) + [marked[|init|]];
      assert rows == init + [last];
      MarkedLast(last, ids, outcome, now);
      WhereExtends(MarkIds(init, ids, outcome), marked[|init|], Eligible(now));
      WhereExtends(init, last, EligibleOutside(now, ids));
    }
  }

  lemma {:induction false} NoneLeft(rows: seq<Row>, now: int, ids: set<string>, id: string)
    requires Where(rows, EligibleOutside(now, ids)) == []
    ensures Where(rows, EligibleOutside(now, ids + {id})) == []
  {
    if rows != [] {
      NoneLeft(rows[..|rows| - 1], now, ids, id);
    }
  }

  /** Leaving out the first n kept rows leaves the others. */
  lemma {:induction false} WhereWithoutPrefix(rows: seq<Row>, now: int, n: nat)
    requires DistinctRows(rows) && n <= |Where(rows, Eligible(now))|
    ensures Where(rows, EligibleOutside(now, IdsOf(Where(rows, Eligible(now))[..n]))) == Where(rows, Eligible(now))[n..]
  {
    var kept := Where(rows, Eligible(now));
    var ids := IdsOf(kept[..n]);
    if rows != [] {
      var init, last := rows[..|rows| - 1], rows[|rows| - 1];
      var before := Where(init, Eligible(now));
      if n <= |before| {
        WhereWithoutPrefix(init, now, n);
        assert kept[..n] == before[..n];
        assert last.actionId !in ids by {
          forall r | r in kept[..n] ensures r.actionId != last.actionId {
            assert r in before;
            WhereKeeps(init, Eligible(now), r);
            var k :| 0 <= k < |init| && init[k] == r;
            assert rows[k] == r;
          }
        }
      } else {
        WhereWithoutPrefix(init, now, |before|);
        assert before[..|before|] == before;
        assert kept == before + [last] && kept[..n] == kept;
        assert IdsOf(kept) == IdsOf(before) + {last.actionId};
        NoneLeft(init, now, IdsOf(before), last.actionId);
      }
    }
  }

  /** One cleanup of a scanned table with a limit of at least one reduces the backlog by the limit. */
  lemma CleanupReducesBacklog(rows: seq<Row>, now: int, limit: int, outcome: string -> Status)
    requires DistinctRows(rows) && |rows| <= SCAN_LIMIT && limit >= 1
    ensures Backlog(Cleanup(rows, now, limit, outcome), now) == Max(0, Backlog(rows, now) - limit)
    ensures DistinctRows(Cleanup(rows, now, limit, outcome)) && |Cleanup(rows, now, limit, outcome)| == |rows|
  {
    var kept := Where(rows, Eligible(now));
    var n := Min(limit, |kept|);
    assert Scanned(rows) == rows;
    assert Expired(rows, now, limit) == kept[..n];
    MarkingShrinks(rows, IdsOf(kept[..n]), outcome, now);
    WhereWithoutPrefix(rows, now, n);
  }

  function Repeat(rows: seq<Row>, now: int, limit: int, outcome: string -> Status, k: nat): seq<Row>
    decreases k
  {
    if k == 0 then rows else Repeat(Cleanup(rows, now, limit, outcome), now, limit, outcome, k - 1)
  }

  lemma OneMoreRound(n: nat, limit: int, k: nat)
    requires k > 0 && limit >= 1
    ensures Max(0, Max(0, n - limit) - (k - 1) * limit) == Max(0, n - k * limit)
  {
    assert k * limit == limit + (k - 1) * limit;
    assert (k - 1) * limit >= 0;
  }

  /** k cleanups leave exactly max(0, n - k * limit) of n eligible rows, whatever the rollbacks return. */
  lemma {:induction false} RepeatedCleanup(rows: seq<Row>, now: int, limit: int, outcome: string -> Status, k: nat)
    requires DistinctRows(rows) && |rows| <= SCAN_LIMIT && limit >= 1
    ensures Backlog(Repeat(rows, now, limit, outcome, k), now) == Max(0, Backlog(rows, now) - k * limit)
    decreases k
  {
    hide Cleanup, Backlog, DistinctRows;
    if k > 0 {
      CleanupReducesBacklog(rows, now, limit, outcome);
      RepeatedCleanup(Cleanup(rows, now, limit, outcome), now, limit, outcome, k - 1);
      OneMoreRound(Backlog(rows, now), limit, k);
    }
  }

  /** An eligible row stands in the filtered list right behind the eligible rows before it. */
  lemma FilteredPosition(rows: seq<Row>, now: int, i: nat)
    requires i < |rows| && Eligible(now)(rows[i])
    ensures Backlog(rows[..i], now) < Backlog(rows, now)
    ensures Where(rows, Eligible(now))[Backlog(rows[..i], now)] == rows[i]
  {
    assert rows[..i + 1] == rows[..i] + [rows[i]];
    WhereExtends(rows[..i], rows[i], Eligible(now));
    WherePrefix(rows, i + 1, Eligible(now));
  }

  lemma RowPosition(rows: seq<Row>, i: nat, j: nat)
    requires DistinctRows(rows) && i < |rows| && j < |rows| && rows[i] == rows[j]
    ensures i == j
  {
  }

  lemma InPrefix(rows: seq<Row>, n: int, i: nat)
    requires DistinctRows(rows) && i < |rows|
    ensures rows[i] in Take(rows, n) <==> i < n
  {
    var t := Take(rows, n);
    assert i < n ==> t[i] == rows[i];
    if rows[i] in t {
      var j :| 0 <= j < |t| && t[j] == rows[i];
      RowPosition(rows, i, j);
    }
  }

  lemma ExpiredFromScan(rows: seq<Row>, now: int, limit: int, r: Row)
    ensures limit >= 1 && r in Expired(rows, now, limit) ==> r in Where(Scanned(rows), Eligible(now))
  {
  }

  /** Exactly which rows a cleanup hands over: the eligible ones among the newest SCAN_LIMIT, as long as fewer
      than `limit` eligible ones stand before them. */
  lemma HandedExactly(rows: seq<Row>, now: int, limit: int, i: nat)
    requires DistinctRows(rows) && limit >= 1 && i < |rows|
    ensures rows[i] in Expired(rows, now, limit) <==>
            i < SCAN_LIMIT && Eligible(now)(rows[i]) && Backlog(rows[..i], now) < limit
  {
    var scanned := Scanned(rows);
    InPrefix(rows, SCAN_LIMIT, i);
    WhereKeeps(scanned, Eligible(now), rows[i]);
    if i < SCAN_LIMIT && Eligible(now)(rows[i]) {
      assert scanned[i] == rows[i] && scanned[..i] == rows[..i];
      WhereRowsDistinct(scanned, Eligible(now));
      FilteredPosition(scanned, now, i);
      InPrefix(Where(scanned, Eligible(now)), limit, Backlog(rows[..i], now));
    } else {
      ExpiredFromScan(rows, now, limit, rows[i]);
    }
  }

  lemma CleanupKeepsIds(rows: seq<Row>, now: int, limit: int, outcome: string -> Status)
    requires DistinctRows(rows)
    ensures |Cleanup(rows, now, limit, outcome)| == |rows| && DistinctRows(Cleanup(rows, now, limit, outcome))
  {
  }

  lemma OldRowKept(rows: seq<Row>, now: int, limit: int, outcome: string -> Status, i: nat)
    requires DistinctRows(rows) && limit >= 1 && SCAN_LIMIT <= i < |rows|
    ensures Cleanup(rows, now, limit, outcome)[i] == rows[i]
  {
    HandedExactly(rows, now, limit, i);
    ExpiredFacts(rows, now, limit);
    forall r | r in Expired(rows, now, limit) ensures r.actionId != rows[i].actionId {
      var j :| 0 <= j < |rows| && rows[j] == r;
      assert j != i;
    }
  }

  /** A row pushed out of the newest SCAN_LIMIT is never cleaned up again. */
  lemma {:induction false} OldRowsAreForgotten(rows: seq<Row>, now: int, limit: int, outcome: string -> Status, k: nat, i: nat)
    requires DistinctRows(rows) && limit >= 1 && SCAN_LIMIT <= i < |rows|
    ensures |Repeat(rows, now, limit, outcome, k)| == |rows| && Repeat(rows, now, limit, outcome, k)[i] == rows[i]
    decreases k
  {
    hide Cleanup, DistinctRows;
    if k > 0 {
      OldRowKept(rows, now, limit, outcome, i);
      CleanupKeepsIds(rows, now, limit, outcome);
      OldRowsAreForgotten(Cleanup(rows, now, limit, outcome), now, limit, outcome, k - 1, i);
    }
  }

  // ---- The definitions in literals ----

  predicate Due(r: Row, now: int) {
    r.status == Success && !r.handed && r.rollback.DeleteElement? && r.rollback.expiresAt != 0 && r.rollback.expiresAt <= now
  }

  lemma DueMeansEligible(r: Row, now: int)
    ensures Eligible(now)(r) <==> Due(r, now)
  {
  }

  lemma {:induction false} DueRows(rows: seq<Row>, now: int)
    ensures Backlog(rows, now) == |set j | 0 <= j < |rows| && Due(rows[j], now)|
  {
    var all := set j | 0 <= j < |rows| && Due(rows[j], now);
    if rows == [] {
      assert all == {};
    } else {
      var init := rows[..|rows| - 1];
      DueRows(init, now);
      DueMeansEligible(rows[|init|], now);
      var before := set j | 0 <= j < |init| && Due(init[j], now);
      if Due(rows[|init|], now) {
        assert all == before + {|init|};
      } else {
        assert all == before;
      }
    }
  }

  /** A row is handed over exactly if it is a live network success nobody has rolled back, its time has come, it is
      among the newest 10000, and fewer than `limit` such rows stand before it. */
  lemma HandedInFull(rows: seq<Row>, now: int, limit: int, i: nat)
    requires DistinctRows(rows) && limit >= 1 && i < |rows|
    ensures rows[i] in Expired(rows, now, limit) <==>
            && i < 10000 && Due(rows[i], now)
            && |set j | 0 <= j < i && Due(rows[j], now)| < limit
  {
    HandedExactly(rows, now, limit, i);
    DueRows(rows[..i], now);
    DueMeansEligible(rows[i], now);
    assert (set j | 0 <= j < |rows[..i]| && Due(rows[..i][j], now)) == set j | 0 <= j < i && Due(rows[j], now);
    hide Expired, Eligible, Backlog;
  }

  /** A row after it was handed over: a rollback that worked or was planned restates it, any other leaves its status. */
  lemma CleanedInFull(r: Row, outcome: Status)
    ensures var c := Cleaned(r, outcome);
            c.handed && c.actionId == r.actionId && c.rollback == r.rollback
            && c.status == (if outcome == Success then ExpiredRolledBack else if outcome == Planned then ExpiredRollbackPlanned else r.status)
  {
  }
}
