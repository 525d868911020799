/**
 * The runtime lease over whole histories: fenced writes land only for the latest claimer and
 * before its lease ends, so they form one block per tenant; and the checkpoint a runtime
 * resumes from is the one the last tenant to move the cursor named.
 */
module RunTenure {
  import opened Common
  import opened StoreModel
  import opened StoreInvariants
  import opened StoreSafety
  import StoreGuarantees

  // ---------------------------------------------------------------- one transaction, one run

  datatype Tenure = Tenure(owner: Id, until: int)

  /** The lease and cursor columns a transaction leaves, by what its caller was told. */
  function NextLease(run: Run, r: Id, a: Action, reply: Reply): (Option<Id>, Option<int>) {
    match a
    case DoClaimRun(i, o, now, s) =>
      if i == r && reply == Granted(true) then (Some(o), Some(now + s)) else (run.owner, run.lease)
    case DoRenewRun(i, _, now, s) =>
      if i == r && reply == Granted(true) then (run.owner, Some(now + s)) else (run.owner, run.lease)
    case DoReleaseRun(i, _) =>
      if i == r && reply == Granted(true) then (None, None) else (run.owner, run.lease)
    case DoPause(i, _, _) => if i == r && reply == Done then (None, None) else (run.owner, run.lease)
    case DoComplete(i, _, _, _, _) => if i == r && reply == Done then (None, None) else (run.owner, run.lease)
    case DoFailRun(i, _, _) => if i == r && reply == Done then (None, None) else (run.owner, run.lease)
    case DoRequestCancel(i, _) => if i == r && reply == Done then (None, None) else (run.owner, run.lease)
    case DoRecoverRuns(now) => if Orphaned(run, now) then (None, None) else (run.owner, run.lease)
    case _ => (run.owner, run.lease)
  }

  function NextCursor(run: Run, r: Id, a: Action, reply: Reply): Option<Id> {
    if a.DoCursor? && a.runId == r && reply == Granted(true) then Some(a.artifact) else run.cursor
  }

  ghost predicate TenureMoved(db: Db, a: Action, r: Id)
    requires r in db.runs
  {
    var tx := Apply(db, a);
    && r in tx.db.runs
    && (tx.db.runs[r].owner, tx.db.runs[r].lease) == NextLease(db.runs[r], r, a, tx.reply)
    && tx.db.runs[r].cursor == NextCursor(db.runs[r], r, a, tx.reply)
  }

  lemma TenureEffect(db: Db, a: Action, r: Id)
    requires r in db.runs
    ensures TenureMoved(db, a, r)
  {
    if JobAction(a) {
      JobActionKeepsTenure(db, a, r);
    } else if a.DoComplete? || a.DoFailRun? || a.DoRequestCancel? {
      FinishEndsTenure(db, a, r);
    } else if a.DoClaimRun? || a.DoRenewRun? || a.DoReleaseRun? {
      LeaseMovesTenure(db, a, r);
    } else if RunControl(a) {
      ControlKeepsTenure(db, a, r);
    }
  }

  lemma JobActionKeepsTenure(db: Db, a: Action, r: Id)
    requires r in db.runs && JobAction(a)
    ensures TenureMoved(db, a, r)
  {
    if a.DoSucceed? || a.DoFail? || a.DoRecover? {
      SettlingKeepsTenure(db, a, r);
    } else if a.DoClaim? && Apply(db, a).reply != NoWork {
      var id := ClaimEffect(db, a.worker, a.now, a.seconds, a.locked);
    } else if a.DoEnqueue? && Apply(db, a).reply == Done {
      EnqueueIsNew(db, a.job);
    }
  }

  lemma SettlingKeepsTenure(db: Db, a: Action, r: Id)
    requires r in db.runs && (a.DoSucceed? || a.DoFail? || a.DoRecover?)
    ensures TenureMoved(db, a, r)
  {
    hide Refunded;
    hide RecoveredJobs;
  }

  lemma FinishEndsTenure(db: Db, a: Action, r: Id)
    requires r in db.runs && (a.DoComplete? || a.DoFailRun? || a.DoRequestCancel?)
    ensures TenureMoved(db, a, r)
  {
    if a.DoComplete? {
      CompleteEndsTenure(db, a, r);
    } else if a.DoFailRun? {
      FailEndsTenure(db, a, r);
    }
  }

  lemma CompleteEndsTenure(db: Db, a: Action, r: Id)
    requires r in db.runs && a.DoComplete?
    ensures TenureMoved(db, a, r)
  {
  }

  lemma FailEndsTenure(db: Db, a: Action, r: Id)
    requires r in db.runs && a.DoFailRun?
    ensures TenureMoved(db, a, r)
  {
  }

  lemma LeaseMovesTenure(db: Db, a: Action, r: Id)
    requires r in db.runs && (a.DoClaimRun? || a.DoRenewRun? || a.DoReleaseRun?)
    ensures TenureMoved(db, a, r)
  {
    if a.DoClaimRun? {
      ClaimMovesTenure(db, a.runId, a.owner, a.now, a.seconds, r);
    } else if a.DoRenewRun? {
      RenewMovesTenure(db, a, r);
    } else {
      ReleaseEndsTenure(db, a, r);
    }
  }

  lemma RenewMovesTenure(db: Db, a: Action, r: Id)
    requires r in db.runs && a.DoRenewRun?
    ensures TenureMoved(db, a, r)
  {
  }

  lemma ReleaseEndsTenure(db: Db, a: Action, r: Id)
    requires r in db.runs && a.DoReleaseRun?
    ensures TenureMoved(db, a, r)
  {
  }

  /** A claim reported as not granted has changed nothing, even where its row matched. */
  lemma ClaimMovesTenure(db: Db, claimed: Id, o: Id, now: int, s: int, r: Id)
    requires r in db.runs
    ensures TenureMoved(db, DoClaimRun(claimed, o, now, s), r)
  {
  }

  lemma ControlKeepsTenure(db: Db, a: Action, r: Id)
    requires r in db.runs && (a.DoStart? || a.DoPause? || a.DoProgress? || a.DoRequestPause? || a.DoCursor?)
    ensures TenureMoved(db, a, r)
  {
    hide TenureMoved;
    if a.DoStart? {
      StartKeepsTenure(db, a, r);
    } else if a.DoPause? {
      PauseEndsTenure(db, a, r);
    } else if a.DoCursor? {
      CursorKeepsTenure(db, a, r);
    } else if a.DoProgress? {
      ProgressKeepsTenure(db, a, r);
    } else {
      RequestPauseKeepsTenure(db, a, r);
    }
  }

  lemma ProgressKeepsTenure(db: Db, a: Action, r: Id)
    requires r in db.runs && a.DoProgress?
    ensures TenureMoved(db, a, r)
  {
  }

  lemma RequestPauseKeepsTenure(db: Db, a: Action, r: Id)
    requires r in db.runs && a.DoRequestPause?
    ensures TenureMoved(db, a, r)
  {
  }

  lemma StartKeepsTenure(db: Db, a: Action, r: Id)
    requires r in db.runs && a.DoStart?
    ensures TenureMoved(db, a, r)
  {
  }

  lemma PauseEndsTenure(db: Db, a: Action, r: Id)
    requires r in db.runs && a.DoPause?
    ensures TenureMoved(db, a, r)
  {
  }

  lemma CursorKeepsTenure(db: Db, a: Action, r: Id)
    requires r in db.runs && a.DoCursor?
    ensures TenureMoved(db, a, r)
  {
  }

  lemma NewRunIsFree(db: Db, a: Action, r: Id)
    requires r !in db.runs && r in Apply(db, a).db.runs
    ensures var run := Apply(db, a).db.runs[r]; run.owner.None? && run.lease.None? && run.cursor.None?
    ensures a.DoCreateTaskRun?
  {
    if JobAction(a) { JobActionAddsNoRun(db, a); }
  }

  lemma JobActionAddsNoRun(db: Db, a: Action)
    requires JobAction(a)
    ensures Apply(db, a).db.runs.Keys == db.runs.Keys
  {
    if a.DoClaim? && Apply(db, a).reply != NoWork {
      var id := ClaimEffect(db, a.worker, a.now, a.seconds, a.locked);
    } else if a.DoEnqueue? && Apply(db, a).reply == Done {
      EnqueueIsNew(db, a.job);
    }
  }

  // ---------------------------------------------------------------- tenures

  /** The latest claimer of run `r` and the end of its latest lease. */
  function TenureOf(h: seq<Entry>, r: Id): Option<Tenure> {
    if h == [] then None
    else
      var e := h[|h| - 1];
      var t := TenureOf(h[..|h| - 1], r);
      match e.action
      case DoClaimRun(i, o, now, s) => if i == r && e.reply == Granted(true) then Some(Tenure(o, now + s)) else t
      case DoRenewRun(i, o, now, s) => if i == r && e.reply == Granted(true) then Some(Tenure(o, now + s)) else t
      case _ => t
  }

  predicate LeaseAgrees(run: Run, t: Option<Tenure>) {
    && (run.owner.None? <==> run.lease.None?)
    && (run.owner.Some? ==> t == Some(Tenure(run.owner.value, run.lease.value)))
  }

  /** The run row names its latest claimer or nobody. */
  lemma {:induction false} TenureAgrees(h: seq<Entry>, r: Id)
    requires History(h)
    ensures r !in Now(h).runs ==> TenureOf(h, r).None?
    ensures r in Now(h).runs ==> LeaseAgrees(Now(h).runs[r], TenureOf(h, r))
  {
    hide Apply;
    if h != [] {
      var k := |h| - 1;
      var db := Now(h[..k]);
      LastStep(h);
      TenureAgrees(h[..k], r);
      if r in db.runs {
        TenureEffect(db, h[k].action, r);
        RenewedByOwner(db, h[k].action, r);
      } else {
        ClaimNeedsRun(db, h[k].action, r);
        if r in Now(h).runs { NewRunIsFree(db, h[k].action, r); }
      }
    }
  }

  lemma RenewedByOwner(db: Db, a: Action, r: Id)
    ensures a.DoRenewRun? && a.runId == r && Apply(db, a).reply == Granted(true) ==>
              r in db.runs && db.runs[r].owner == Some(a.owner)
  {
  }

  lemma ClaimNeedsRun(db: Db, a: Action, r: Id)
    ensures (a.DoClaimRun? || a.DoRenewRun?) && a.runId == r && Apply(db, a).reply == Granted(true) ==> r in db.runs
  {
  }

  datatype Writer = Writer(runId: Id, owner: Id, now: int)

  /** The writes a runtime may only make while its lease lasts. */
  function FencedWriter(a: Action): Option<Writer> {
    match a
    case DoStart(r, _, now, o, _) => if o.Some? then Some(Writer(r, o.value, now)) else None
    case DoPause(r, o, now) => Some(Writer(r, o, now))
    case DoComplete(r, o, now, _, _) => Some(Writer(r, o, now))
    case DoFailRun(r, now, o) => if o.Some? then Some(Writer(r, o.value, now)) else None
    case DoProgress(r, o, now, _, _) => Some(Writer(r, o, now))
    case DoRenewRun(r, o, now, _) => Some(Writer(r, o, now))
    case DoCursor(r, _, o, now) => Some(Writer(r, o, now))
    case _ => None
  }

  predicate Landed(reply: Reply) {
    reply == Done || reply == Granted(true)
  }

  lemma LandedMeansOwned(db: Db, a: Action)
    requires FencedWriter(a).Some? && Landed(Apply(db, a).reply)
    ensures var w := FencedWriter(a).value; OwnsRun(db, w.runId, w.owner, w.now)
  {
  }

  /** A fenced write lands only for the latest claimer and before its lease expires. */
  lemma WriterIsTenant(h: seq<Entry>, a: Action)
    requires History(h) && FencedWriter(a).Some? && Landed(Apply(Now(h), a).reply)
    ensures var w := FencedWriter(a).value;
            && TenureOf(h, w.runId).Some? && TenureOf(h, w.runId).value.owner == w.owner
            && w.now < TenureOf(h, w.runId).value.until
  {
    var w := FencedWriter(a).value;
    LandedMeansOwned(Now(h), a);
    TenureAgrees(h, w.runId);
  }

  predicate HasTenant(h: seq<Entry>, r: Id, o: Id) {
    TenureOf(h, r).Some? && TenureOf(h, r).value.owner == o
  }

  predicate ClaimGranted(e: Entry, r: Id, o: Id) {
    e.action.DoClaimRun? && e.action.runId == r && e.action.owner == o && e.reply == Granted(true)
  }

  predicate WroteFenced(e: Entry, r: Id, o: Id) {
    FencedWriter(e.action).Some? && Landed(e.reply) &&
    FencedWriter(e.action).value.runId == r && FencedWriter(e.action).value.owner == o
  }

  /** A tenant gets its tenure by a claim of its own. */
  lemma {:induction false} TenureStartsWithClaim(h: seq<Entry>, i: nat, j: nat, r: Id, o: Id)
    requires History(h) && i <= j <= |h| && !HasTenant(h[..i], r, o) && HasTenant(h[..j], r, o)
    ensures exists k :: i <= k < j && ClaimGranted(h[k], r, o)
    decreases j
  {
    hide Apply;
    var k := j - 1;
    assert h[..j][..|h[..j]| - 1] == h[..k];
    if HasTenant(h[..k], r, o) {
      TenureStartsWithClaim(h, i, k, r, o);
    } else if !ClaimGranted(h[k], r, o) {
      PrefixIsHistory(h, k);
      WriterIsTenant(h[..k], h[k].action);
      assert false;
    }
  }

  lemma WriteFoundTenant(h: seq<Entry>, i: nat, r: Id, o: Id)
    requires History(h) && i < |h| && WroteFenced(h[i], r, o)
    ensures HasTenant(h[..i], r, o)
  {
    hide Apply;
    PrefixIsHistory(h, i);
    WriterIsTenant(h[..i], h[i].action);
  }

  /**
   * Between the writes of two runtimes the second one claimed the run. So the fenced writes
   * of a run form one contiguous block per tenure, and a runtime that was superseded writes
   * again only after claiming the run anew.
   */
  lemma ContiguousBlocks(h: seq<Entry>, i: nat, j: nat, r: Id, first: Id, second: Id)
    requires History(h) && i < j < |h| && first != second
    requires WroteFenced(h[i], r, first) && WroteFenced(h[j], r, second)
    ensures exists k :: i < k < j && ClaimGranted(h[k], r, second)
  {
    hide Apply;
    WriteFoundTenant(h, i, r, first);
    WriteFoundTenant(h, j, r, second);
    TenureStartsWithClaim(h, i, j, r, second);
    var k :| i <= k < j && ClaimGranted(h[k], r, second);
    assert k != i;
  }

  /** A takeover waits until the earlier tenant gave the run up or its lease ended. */
  lemma TakeoverWaits(h: seq<Entry>, r: Id, o: Id, now: int, s: int)
    requires History(h) && TenureOf(h, r).Some? && TenureOf(h, r).value.owner != o
    requires ClaimRunLease(Now(h), r, o, now, s).reply == Granted(true)
    ensures Now(h).runs[r].owner.None? || TenureOf(h, r).value.until <= now
    ensures forall p, later :: p != o ==> !OwnsRun(ClaimRunLease(Now(h), r, o, now, s).db, r, p, later)
  {
    TenureAgrees(h, r);
  }

  // ---------------------------------------------------------------- the cursor

  predicate MovedCursor(e: Entry, r: Id) {
    e.action.DoCursor? && e.action.runId == r && e.reply == Granted(true)
  }

  /** A set cursor was put there by the last cursor write that landed, by the tenant of that time. */
  lemma {:induction false} CursorIsTenants(h: seq<Entry>, r: Id) returns (k: nat)
    requires History(h) && r in Now(h).runs && Now(h).runs[r].cursor.Some?
    ensures k < |h| && MovedCursor(h[k], r) && Now(h).runs[r].cursor == Some(h[k].action.artifact)
    ensures HasTenant(h[..k], r, h[k].action.owner)
    ensures forall j :: k < j < |h| ==> !MovedCursor(h[j], r)
  {
    hide Apply;
    k := |h| - 1;
    var db := Now(h[..k]);
    LastStep(h);
    if r !in db.runs {
      NewRunIsFree(db, h[k].action, r);
      assert false;
    } else {
      TenureEffect(db, h[k].action, r);
      if MovedCursor(h[k], r) {
        WriteFoundTenant(h, k, r, h[k].action.owner);
      } else {
        var last := k;
        k := CursorIsTenants(h[..last], r);
        assert h[..last][..k] == h[..k];
      }
    }
  }

  // ---------------------------------------------------------------- latest_checkpoint

  predicate Names(db: Db, r: Id, id: Id)
    requires r in db.runs
  {
    id in db.checkpoints && db.runs[r].cursor == Some(db.checkpoints[id].artifactId)
  }

  predicate OfRun(db: Db, r: Id, id: Id) {
    id in db.checkpoints && db.checkpoints[id].runId == r
  }

  /** The cursor's row first, then the youngest, then the largest id. */
  predicate Precedes(db: Db, r: Id, a: Id, b: Id)
    requires r in db.runs && a in db.checkpoints && b in db.checkpoints
  {
    var x, y := Names(db, r, a), Names(db, r, b);
    if x != y then x
    else if db.checkpoints[a].createdAt != db.checkpoints[b].createdAt
      then db.checkpoints[a].createdAt > db.checkpoints[b].createdAt
    else a >= b
  }

  ghost predicate IsLatest(db: Db, r: Id, id: Id) {
    r in db.runs && OfRun(db, r, id) && forall o :: OfRun(db, r, o) ==> Precedes(db, r, id, o)
  }

  ghost function LatestCheckpoint(db: Db, r: Id): Option<Id> {
    if exists id :: IsLatest(db, r, id) then
      var id :| IsLatest(db, r, id);
      Some(id)
    else None
  }

  lemma PrecedesIsOrder(db: Db, r: Id, a: Id, b: Id, c: Id)
    requires r in db.runs && a in db.checkpoints && b in db.checkpoints && c in db.checkpoints
    ensures Precedes(db, r, a, b) || Precedes(db, r, b, a)
    ensures Precedes(db, r, a, b) && Precedes(db, r, b, c) ==> Precedes(db, r, a, c)
  {
  }

  lemma {:induction false} FirstOf(db: Db, r: Id, s: set<Id>) returns (m: Id)
    requires r in db.runs && s != {} && s <= db.checkpoints.Keys
    ensures m in s && forall id :: id in s ==> Precedes(db, r, m, id)
    decreases |s|
  {
    var first :| first in s;
    m := first;
    var rest := s - {first};
    if rest != {} {
      var n := FirstOf(db, r, rest);
      PrecedesIsOrder(db, r, first, n, n);
      if !Precedes(db, r, first, n) { m := n; }
      forall id | id in s ensures Precedes(db, r, m, id) {
        if id != first {
          assert id in rest;
          PrecedesIsOrder(db, r, m, n, id);
        }
      }
    } else {
      assert s == {first};
    }
  }

  /** There is a row to resume from exactly when the run has a checkpoint. */
  lemma LatestExistsIff(db: Db, r: Id)
    requires r in db.runs
    ensures LatestCheckpoint(db, r).Some? <==> exists id :: OfRun(db, r, id)
  {
    var s := set id | id in db.checkpoints && OfRun(db, r, id);
    if c :| OfRun(db, r, c) {
      assert c in s;
      var m := FirstOf(db, r, s);
      forall o | OfRun(db, r, o) ensures Precedes(db, r, m, o) { assert o in s; }
      assert IsLatest(db, r, m);
    }
  }

  /** With a set cursor the row returned is the cursor's, as soon as that row exists. */
  lemma LatestIsCursorIff(db: Db, r: Id)
    requires r in db.runs && db.runs[r].cursor.Some?
    ensures (LatestCheckpoint(db, r).Some? && Names(db, r, LatestCheckpoint(db, r).value))
            <==> exists id :: OfRun(db, r, id) && Names(db, r, id)
  {
    if c :| OfRun(db, r, c) && Names(db, r, c) {
      LatestExistsIff(db, r);
      assert Precedes(db, r, LatestCheckpoint(db, r).value, c);
    }
  }

  /** Without a cursor it is the youngest row of the run, the one with the largest id among equals. */
  lemma LatestIsYoungest(db: Db, r: Id, o: Id)
    requires r in db.runs && db.runs[r].cursor.None? && OfRun(db, r, o)
    ensures LatestCheckpoint(db, r).Some?
    ensures var c := LatestCheckpoint(db, r).value;
            && c in db.checkpoints && db.checkpoints[c].runId == r
            && (db.checkpoints[o].createdAt < db.checkpoints[c].createdAt ||
                (db.checkpoints[o].createdAt == db.checkpoints[c].createdAt && o <= c))
  {
    LatestExistsIff(db, r);
    assert Precedes(db, r, LatestCheckpoint(db, r).value, o);
  }

  /** A runtime writes the checkpoint row before it moves the cursor to it. */
  ghost predicate SavesFirst(h: seq<Entry>) {
    h != [] ==>
      var k := |h| - 1;
      && SavesFirst(h[..k])
      && (h[k].action.DoCursor? ==> exists id ::
            OfRun(Now(h[..k]), h[k].action.runId, id) &&
            Now(h[..k]).checkpoints[id].artifactId == h[k].action.artifact)
  }

  lemma CheckpointsStay(db: Db, a: Action, id: Id)
    requires id in db.checkpoints
    ensures id in Apply(db, a).db.checkpoints && Apply(db, a).db.checkpoints[id] == db.checkpoints[id]
  {
    if JobAction(a) { JobActionLeavesCheckpoints(db, a); }
  }

  lemma JobActionLeavesCheckpoints(db: Db, a: Action)
    requires JobAction(a)
    ensures Apply(db, a).db.checkpoints == db.checkpoints
  {
    if a.DoClaim? && Apply(db, a).reply != NoWork {
      var id := ClaimEffect(db, a.worker, a.now, a.seconds, a.locked);
    } else if a.DoEnqueue? && Apply(db, a).reply == Done {
      EnqueueIsNew(db, a.job);
    }
  }

  lemma {:induction false} CursorHasRow(h: seq<Entry>, r: Id) returns (id: Id)
    requires History(h) && SavesFirst(h) && r in Now(h).runs && Now(h).runs[r].cursor.Some?
    ensures OfRun(Now(h), r, id) && Names(Now(h), r, id)
  {
    hide Apply;
    var k := |h| - 1;
    var db := Now(h[..k]);
    LastStep(h);
    if r !in db.runs {
      NewRunIsFree(db, h[k].action, r);
      assert false;
    } else {
      TenureEffect(db, h[k].action, r);
      if MovedCursor(h[k], r) {
        id :| OfRun(db, r, id) && db.checkpoints[id].artifactId == h[k].action.artifact;
      } else {
        id := CursorHasRow(h[..k], r);
      }
      CheckpointsStay(db, h[k].action, id);
    }
  }

  /**
   * Whatever checkpoints other runtimes insert and whenever, a resuming runtime gets a row
   * that the last landed cursor write names - never one whose own cursor write was refused.
   */
  lemma ResumesAtCursor(h: seq<Entry>, r: Id) returns (k: nat)
    requires History(h) && SavesFirst(h) && r in Now(h).runs && Now(h).runs[r].cursor.Some?
    ensures LatestCheckpoint(Now(h), r).Some?
    ensures k < |h| && MovedCursor(h[k], r) && HasTenant(h[..k], r, h[k].action.owner)
    ensures forall j :: k < j < |h| ==> !MovedCursor(h[j], r)
    ensures Now(h).checkpoints[LatestCheckpoint(Now(h), r).value].artifactId == h[k].action.artifact
  {
    hide Apply;
    var id := CursorHasRow(h, r);
    LatestIsCursorIff(Now(h), r);
    k := CursorIsTenants(h, r);
  }
}
