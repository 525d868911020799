/**
 * Carrying a run out on the store: claiming it, restoring the checkpoint the store gives,
 * the loops over generations and operators with their checkpoints, fences and control
 * points. Workers, operators and other runtimes act at every step, and the runtime may die
 * anywhere; whoever completes the run has the answer of the uninterrupted loop.
 */
module RunExecution {
  import opened Common
  import opened StoreModel
  import opened StoreInvariants
  import opened StoreSafety
  import StoreGuarantees
  import opened RuntimeStore
  import opened RunTenure
  import opened GenerationLoop

  /**
   * Checkpoint artifacts are named by a digest of their content: the snapshot, and what else
   * the payload holds. The id of a checkpoint row is a digest of its run and the same content.
   */
  datatype Codec = Codec(artifact: (Snapshot, nat) -> Id, row: (Id, Id) -> Id, content: Id -> Snapshot)

  ghost predicate Decodes(k: Codec) {
    && (forall c, extra :: k.content(k.artifact(c, extra)) == c)
    && (forall r, a, r', a' :: k.row(r, a) == k.row(r', a') ==> r == r' && a == a')
  }

  datatype Runtime = Runtime(r: Id, owner: Id, seconds: int, codec: Codec)

  datatype Death = Lives | BeforeProgress | BeforeRow | BeforeCursor

  /**
   * What others do before a step ends, whether the runtime dies in it, what its clock then
   * shows, and whether the run row already carries that time.
   */
  datatype Moment = Moment(others: seq<Action>, death: Death, now: int, sameStamp: bool, extra: nat)

  type World = nat -> Moment

  datatype End =
    | Finished(outcome: Outcome) | Died | LostLease | WasCancelled | WasPaused | NotClaimed | NotRunnable | NobodyToChoose

  // ---------------------------------------------------------------- what the store holds of a run

  /** A row is named by its content; one of this run leads to the answer of the uninterrupted loop. */
  predicate GoodRow(m: Runtime, s: Setup, id: Id, c: Checkpoint) {
    id == m.codec.row(c.runId, c.artifactId) && (c.runId == m.r ==> OnTrack(s, m.codec.content(c.artifactId)))
  }

  ghost predicate Resumable(db: Db, m: Runtime, s: Setup) {
    forall id {:trigger GoodRow(m, s, id, db.checkpoints[id])} ::
      id in db.checkpoints ==> GoodRow(m, s, id, db.checkpoints[id])
  }

  /** Other runtimes, of this run and of others, execute the same loop: they write only such rows. */
  predicate Honest(m: Runtime, s: Setup, a: Action) {
    a.DoAddCheckpoint? ==> GoodRow(m, s, a.checkpointId, a.checkpoint)
  }

  /** The next runtime to execute the run restores this snapshot. */
  ghost predicate Restores(db: Db, m: Runtime, c: Snapshot) {
    (exists id :: IsLatest(db, m.r, id)) &&
    forall id :: IsLatest(db, m.r, id) ==> m.codec.content(db.checkpoints[id].artifactId) == c
  }

  ghost predicate HonestWorld(m: Runtime, s: Setup, w: World) {
    forall n: nat, i :: 0 <= i < |w(n).others| ==> Honest(m, s, w(n).others[i])
  }

  lemma NewCheckpoint(db: Db, a: Action, id: Id)
    requires id !in db.checkpoints && id in Apply(db, a).db.checkpoints
    ensures a.DoAddCheckpoint? && id == a.checkpointId && Apply(db, a).db.checkpoints[id] == a.checkpoint
  {
    if JobAction(a) { JobActionLeavesCheckpoints(db, a); }
  }

  lemma HonestStep(db: Db, a: Action, m: Runtime, s: Setup)
    requires Resumable(db, m, s) && Honest(m, s, a)
    ensures Resumable(Apply(db, a).db, m, s)
  {
    hide Apply;
    hide OnTrack;
    var d := Apply(db, a).db;
    forall id | id in d.checkpoints ensures GoodRow(m, s, id, d.checkpoints[id]) {
      if id in db.checkpoints {
        CheckpointsStay(db, a, id);
        assert GoodRow(m, s, id, db.checkpoints[id]);
      } else {
        NewCheckpoint(db, a, id);
      }
    }
  }

  method Others(store: Store, script: seq<Action>, ghost m: Runtime, ghost s: Setup)
    requires store.Valid() && Resumable(store.Content(), m, s)
    requires forall i :: 0 <= i < |script| ==> Honest(m, s, script[i])
    modifies store
    ensures store.Valid() && Resumable(store.Content(), m, s)
    ensures script == [] ==> store.Content() == old(store.Content())
  {
    hide Inv;
    hide Apply;
    hide Resumable;
    hide Honest;
    for i := 0 to |script|
      invariant store.Valid() && Resumable(store.Content(), m, s)
      invariant i == 0 ==> store.Content() == old(store.Content())
    {
      HonestStep(store.Content(), script[i], m, s);
      var reply := store.Perform(script[i]);
    }
  }

  /** The query for the checkpoint to resume from. */
  method Latest(store: Store, r: Id) returns (latest: Option<Id>)
    ensures latest.Some? ==> IsLatest(store.Content(), r, latest.value)
    ensures latest.None? ==> NothingToResume(store.Content(), r)
  {
    var db := store.Content();
    var rows := set id | id in db.checkpoints && OfRun(db, r, id);
    if r !in db.runs || rows == {} {
      forall id | OfRun(db, r, id) ensures r !in db.runs { assert id in rows; }
      return None;
    }
    var first :| first in rows;
    var todo := rows - {first};
    while todo != {}
      invariant first in rows && todo <= rows
      invariant forall o :: o in rows && o !in todo ==> Precedes(db, r, first, o)
      decreases todo
    {
      var o :| o in todo;
      PrecedesTotal(db, r, first, o);
      if !Precedes(db, r, first, o) {
        forall q | q in rows && q !in todo ensures Precedes(db, r, o, q) { PrecedesIsOrder(db, r, o, first, q); }
        first := o;
      }
      todo := todo - {o};
    }
    forall o | OfRun(db, r, o) ensures Precedes(db, r, first, o) { assert o in rows; }
    latest := Some(first);
  }

  predicate NothingToResume(db: Db, r: Id) {
    r !in db.runs || forall id :: id in db.checkpoints ==> !OfRun(db, r, id)
  }

  lemma PrecedesTotal(db: Db, r: Id, a: Id, b: Id)
    requires r in db.runs && a in db.checkpoints && b in db.checkpoints
    ensures Precedes(db, r, a, b) || Precedes(db, r, b, a)
    ensures Precedes(db, r, b, b)
  {
    PrecedesIsOrder(db, r, a, b, b);
  }

  // ---------------------------------------------------------------- the runtime's hold on its run

  /** The runtime owns the run, and nobody has asked it to stop. */
  ghost predicate Holds(db: Db, m: Runtime, now: int) {
    OwnsRun(db, m.r, m.owner, now) && Active(db.runs[m.r]) && !db.runs[m.r].pauseRequested
  }

  /** Nobody interferes, the runtime lives, and its steps are shorter than its lease. */
  ghost predicate Calm(m: Runtime, w: World) {
    m.seconds > 0 &&
    forall n: nat ::
      w(n).others == [] && w(n).death.Lives? && !w(n).sameStamp && w(n + 1).now < w(n).now + m.seconds
  }

  /** How far the loop has come. */
  function Position(c: Snapshot): nat {
    5 * c.nextGeneration + c.nextOperator
  }

  /** The cursor names a checkpoint from before a position. */
  ghost predicate CursorBefore(db: Db, m: Runtime, position: nat) {
    m.r in db.runs && (db.runs[m.r].cursor.Some? ==> Position(m.codec.content(db.runs[m.r].cursor.value)) < position)
  }

  /** A set cursor names a row of the run, as it does where rows are saved before the cursor moves. */
  ghost predicate CursorNamesRow(db: Db, m: Runtime) {
    m.r in db.runs && (db.runs[m.r].cursor.Some? ==> exists id :: OfRun(db, m.r, id) && Names(db, m.r, id))
  }

  /** The state before step `n`: what the loop has is on track, and a calm execution goes on. */
  ghost predicate Going(begin: Db, db: Db, m: Runtime, s: Setup, w: World, n: nat, position: nat) {
    && Inv(db) && Resumable(db, m, s)
    && (Calm(m, w) && Holds(begin, m, w(0).now) && CursorNamesRow(begin, m) ==>
          Holds(db, m, w(n).now) && CursorBefore(db, m, position))
  }

  /** The lease is renewed at a fence. */
  lemma RenewedHolds(db: Db, m: Runtime, now: int, later: int)
    requires Holds(db, m, now) && later < now + m.seconds
    ensures var tx := RenewRunLease(db, m.r, m.owner, now, m.seconds);
            tx.reply == Granted(true) && Holds(tx.db, m, later)
            && forall p :: CursorBefore(db, m, p) ==> CursorBefore(tx.db, m, p)
  {
  }

  /** Saving: the row, and then the cursor. */
  lemma SavedStep(db: Db, m: Runtime, s: Setup, c: Snapshot, extra: nat, now: int)
    requires Inv(db) && Resumable(db, m, s) && Decodes(m.codec) && OnTrack(s, c)
    ensures var a := m.codec.artifact(c, extra);
            var d := AddCheckpoint(db, m.codec.row(m.r, a), Checkpoint(m.r, a, now)).db;
            && Inv(d) && Resumable(d, m, s)
            && Inv(UpdateRuntimeCursor(d, m.r, a, m.owner, now).db)
            && Resumable(UpdateRuntimeCursor(d, m.r, a, m.owner, now).db, m, s)
            && d.runs == db.runs && OfRun(d, m.r, m.codec.row(m.r, a)) && d.checkpoints[m.codec.row(m.r, a)].artifactId == a
  {
    hide Inv;
    RowIsThere(db, m, s, m.codec.artifact(c, extra), now);
    hide Resumable;
    var a := m.codec.artifact(c, extra);
    var add := DoAddCheckpoint(m.codec.row(m.r, a), Checkpoint(m.r, a, now));
    var d := Apply(db, add).db;
    StepKeepsInv(db, add);
    HonestStep(db, add, m, s);
    StepKeepsInv(d, DoCursor(m.r, a, m.owner, now));
    HonestStep(d, DoCursor(m.r, a, m.owner, now), m, s);
  }

  /** A row that was there already is the same row. */
  lemma RowIsThere(db: Db, m: Runtime, s: Setup, a: Id, now: int)
    requires Resumable(db, m, s) && Decodes(m.codec)
    ensures var id, d := m.codec.row(m.r, a), AddCheckpoint(db, m.codec.row(m.r, a), Checkpoint(m.r, a, now)).db;
            OfRun(d, m.r, id) && d.checkpoints[id].artifactId == a
  {
    hide OnTrack;
    var id := m.codec.row(m.r, a);
    if id in db.checkpoints { assert GoodRow(m, s, id, db.checkpoints[id]); }
  }

  /**
   * What a runtime inserts when it saves a snapshot is honest to every other runtime with the
   * same codec, of this run and of others. So runtimes that all execute this loop may rely on
   * each other.
   */
  lemma SavingIsHonest(m: Runtime, o: Runtime, s: Setup, c: Snapshot, extra: nat, now: int)
    requires Decodes(m.codec) && OnTrack(s, c) && o.codec == m.codec
    ensures var a := m.codec.artifact(c, extra);
            Honest(o, s, DoAddCheckpoint(m.codec.row(m.r, a), Checkpoint(m.r, a, now)))
  {
    hide OnTrack;
    ArtifactHolds(m.codec, c, extra);
  }

  /** With the cursor on its row, a snapshot is what is restored next. */
  lemma NamedIsRestored(db: Db, m: Runtime, id: Id, c: Snapshot)
    requires m.r in db.runs && OfRun(db, m.r, id) && Names(db, m.r, id)
    requires m.codec.content(db.checkpoints[id].artifactId) == c
    ensures Restores(db, m, c)
  {
    LatestExistsIff(db, m.r);
    forall o | IsLatest(db, m.r, o) ensures m.codec.content(db.checkpoints[o].artifactId) == c {
      assert Precedes(db, m.r, o, id);
    }
  }

  /** The fenced progress of a generation, under a new time stamp. */
  lemma ProgressHolds(db: Db, m: Runtime, generation: nat, now: int, sameStamp: bool, position: nat)
    requires Holds(db, m, now) && !sameStamp && CursorBefore(db, m, position)
    ensures var tx := Apply(db, DoProgress(m.r, m.owner, now, generation, sameStamp));
            tx.reply == Done && Holds(tx.db, m, now) && CursorBefore(tx.db, m, position)
  {
  }

  lemma CursorMoves(db: Db, m: Runtime, c: Snapshot, extra: nat, now: int)
    requires Decodes(m.codec) && Holds(db, m, now) && CursorBefore(db, m, Position(c))
    ensures var tx := UpdateRuntimeCursor(db, m.r, m.codec.artifact(c, extra), m.owner, now);
            tx.reply == Granted(true) && Holds(tx.db, m, now) && CursorBefore(tx.db, m, Position(c) + 1)
  {
    assert m.codec.content(m.codec.artifact(c, extra)) == c;
  }

  lemma RenewKeepsRows(db: Db, m: Runtime, s: Setup, now: int)
    requires Inv(db) && Resumable(db, m, s)
    ensures Inv(RenewRunLease(db, m.r, m.owner, now, m.seconds).db)
    ensures Resumable(RenewRunLease(db, m.r, m.owner, now, m.seconds).db, m, s)
  {
    hide Inv;
    hide Resumable;
    StepKeepsInv(db, DoRenewRun(m.r, m.owner, now, m.seconds));
    HonestStep(db, DoRenewRun(m.r, m.owner, now, m.seconds), m, s);
  }

  /**
   * A step of the loop ends: others have acted, the runtime reports the generation if one has
   * ended, checks its lease, writes the row and then the cursor, and stops at the control
   * point if it was asked to.
   */
  method EndStep(
    store: Store, m: Runtime, s: Setup, w: World, n: nat, ended: Option<nat>, c: Snapshot, ghost begin: Db)
    returns (stop: Option<End>)
    requires Going(begin, store.Content(), m, s, w, n, Position(c))
    requires Decodes(m.codec) && HonestWorld(m, s, w) && OnTrack(s, c)
    modifies store
    ensures store.Valid() && Resumable(store.Content(), m, s)
    ensures stop.None? ==> Going(begin, store.Content(), m, s, w, n + 1, Position(c) + 1)
    ensures stop.None? ==> Restores(store.Content(), m, c)
    ensures stop.Some? ==> !stop.value.Finished? && !(Calm(m, w) && Holds(begin, m, w(0).now) && CursorNamesRow(begin, m))
  {
    hide Inv;
    hide Resumable;
    hide OnTrack;
    hide Holds;
    hide CursorBefore;
    hide Decodes;
    var now := w(n).now;
    Others(store, w(n).others, m, s);
    ghost var db := store.Content();
    ghost var calm := Calm(m, w) && Holds(begin, m, w(0).now) && CursorNamesRow(begin, m);
    assert calm ==> Holds(db, m, now) && CursorBefore(db, m, Position(c));
    assert calm ==> w(n).death.Lives? && w(n + 1).now < now + m.seconds;
    if w(n).death.BeforeProgress? { return Some(Died); }
    if ended.Some? {
      if calm { ProgressHolds(db, m, ended.value, now, w(n).sameStamp, Position(c)); }
      var reported := Ask(store, m, s, DoProgress(m.r, m.owner, now, ended.value, w(n).sameStamp));
      if reported != Done { return Some(LostLease); }
      db := store.Content();
    }
    if w(n).death.BeforeRow? { return Some(Died); }
    if calm { RenewedHolds(db, m, now, now); }
    RenewKeepsRows(db, m, s, now);
    var renewed := store.RenewRunLease(m.r, m.owner, now, m.seconds);
    if renewed != Granted(true) { return Some(LostLease); }
    db := store.Content();
    var a := m.codec.artifact(c, w(n).extra);
    SavedStep(db, m, s, c, w(n).extra, now);
    var added := store.AddCheckpoint(m.codec.row(m.r, a), Checkpoint(m.r, a, now));
    if w(n).death.BeforeCursor? { return Some(Died); }
    SameHold(db, store.Content(), m, now, Position(c));
    if calm { CursorMoves(store.Content(), m, c, w(n).extra, now); }
    var moved := store.UpdateRuntimeCursor(m.r, a, m.owner, now);
    if moved != Granted(true) { return Some(LostLease); }
    ArtifactHolds(m.codec, c, w(n).extra);
    stop := SafePoint(store, m, s, now, w(n + 1).now, calm, Position(c) + 1);
    if stop.None? { NamedIsRestored(store.Content(), m, m.codec.row(m.r, a), c); }
  }

  lemma ArtifactHolds(k: Codec, c: Snapshot, extra: nat)
    requires Decodes(k)
    ensures k.content(k.artifact(c, extra)) == c
  {
  }

  lemma SameHold(db: Db, d: Db, m: Runtime, now: int, position: nat)
    requires d.runs == db.runs
    ensures Holds(db, m, now) ==> Holds(d, m, now)
    ensures CursorBefore(db, m, position) ==> CursorBefore(d, m, position)
  {
  }

  /** The control point: a cancelled run ends, a requested pause is confirmed, else the lease is renewed. */
  method SafePoint(store: Store, m: Runtime, ghost s: Setup, now: int, ghost later: int, ghost calm: bool, ghost position: nat)
    returns (stop: Option<End>)
    requires store.Valid() && Resumable(store.Content(), m, s)
    requires calm ==> Holds(store.Content(), m, now) && CursorBefore(store.Content(), m, position) && later < now + m.seconds
    modifies store
    ensures store.Valid() && Resumable(store.Content(), m, s)
    ensures calm ==> stop.None? && Holds(store.Content(), m, later) && CursorBefore(store.Content(), m, position)
    ensures stop.Some? ==> !stop.value.Finished?
    ensures stop.None? ==> m.r in store.runs && m.r in old(store.runs) && store.checkpoints == old(store.checkpoints) &&
                           store.runs[m.r].cursor == old(store.runs)[m.r].cursor
  {
    hide Inv;
    hide Resumable;
    hide CursorBefore;
    ghost var db := store.Content();
    if m.r !in store.runs || store.runs[m.r].status.Cancelled? || store.runs[m.r].cancelRequested {
      return Some(WasCancelled);
    }
    if store.runs[m.r].pauseRequested {
      HonestStep(db, DoPause(m.r, m.owner, now), m, s);
      var paused := store.PauseRun(m.r, m.owner, now);
      return Some(if paused == Done then WasPaused else LostLease);
    }
    if calm { RenewedHolds(db, m, now, later); }
    RenewKeepsRows(db, m, s, now);
    var renewed := store.RenewRunLease(m.r, m.owner, now, m.seconds);
    stop := if renewed == Granted(true) then None else Some(LostLease);
  }

  // ---------------------------------------------------------------- one execution

  /** What a runtime starts from: the row the store gives, or a fresh population. */
  lemma RestoredOnTrack(db: Db, m: Runtime, s: Setup, id: Id)
    requires Resumable(db, m, s) && IsLatest(db, m.r, id)
    ensures OnTrack(s, m.codec.content(db.checkpoints[id].artifactId))
    ensures CursorNamesRow(db, m) ==> CursorBefore(db, m, Position(m.codec.content(db.checkpoints[id].artifactId)) + 1)
  {
    hide OnTrack;
    assert GoodRow(m, s, id, db.checkpoints[id]);
    if CursorNamesRow(db, m) && db.runs[m.r].cursor.Some? {
      var c :| OfRun(db, m.r, c) && Names(db, m.r, c);
      assert Precedes(db, m.r, id, c);
    }
  }

  lemma FreshIsFirst(db: Db, m: Runtime, position: nat)
    requires NothingToResume(db, m.r)
    ensures CursorNamesRow(db, m) ==> CursorBefore(db, m, position)
  {
  }

  lemma StillGoing(begin: Db, db: Db, m: Runtime, s: Setup, w: World, n: nat, position: nat)
    requires Going(begin, db, m, s, w, n, position)
    ensures Inv(db) && Resumable(db, m, s)
  {
  }

  lemma StartsGoing(db: Db, m: Runtime, s: Setup, w: World, position: nat)
    requires Inv(db) && Resumable(db, m, s) && (CursorNamesRow(db, m) ==> CursorBefore(db, m, position))
    ensures Going(db, db, m, s, w, 0, position)
  {
  }

  /**
   * One execution by the owner of the run: start or restore, then the loops over generations
   * and operators, and the completion of the run. If it finishes, it has the answer of the
   * uninterrupted loop, and the run is completed with its best candidate; and a calm one
   * finishes, if there is a candidate to choose.
   */
  method ExecuteOwned(store: Store, m: Runtime, s: Setup, w: World) returns (end: End)
    requires store.Valid() && Resumable(store.Content(), m, s) && Decodes(m.codec) && HonestWorld(m, s, w)
    modifies store
    ensures store.Valid() && Resumable(store.Content(), m, s)
    ensures end.Finished? ==> end.outcome == Uninterrupted(s) && CompletedWith(store.Content(), m.r, end.outcome)
    ensures end.Finished? ==> IsWrittenOut(s, end.outcome)
    ensures Calm(m, w) && Holds(old(store.Content()), m, w(0).now) && CursorNamesRow(old(store.Content()), m) ==>
              end.Finished? || Uninterrupted(s).best.None?
  {
    hide Inv;
    hide OnTrack;
    hide AnswerFrom;
    hide Uninterrupted;
    hide Restores;
    hide Honest;
    hide BestOf;
    hide Resumable;
    hide Going;
    hide Calm;
    hide Holds;
    hide CursorNamesRow;
    hide HonestWorld;
    hide Decodes;
    UninterruptedWrittenOut(s);
    hide IsWrittenOut;
    ghost var begin := store.Content();
    var n := 0;
    var core, population, nextGeneration, nextOperator := s.core, s.initial, 1, 0;
    var restored: seq<Id> := [];
    var latest := Latest(store, m.r);
    if latest.None? {
      InitialOnTrack(s);
      FreshIsFirst(begin, m, Position(Initial(s)));
      StartsGoing(begin, m, s, w, Position(Initial(s)));
      var stop := EndStep(store, m, s, w, n, None, Initial(s), begin);
      if stop.Some? { return stop.value; }
      n := n + 1;
    } else {
      var c := m.codec.content(store.checkpoints[latest.value].artifactId);
      RestoredOnTrack(begin, m, s, latest.value);
      StartsGoing(begin, m, s, w, Position(c) + 1);
      core, population, restored := c.core, c.population, c.offspring;
      nextGeneration, nextOperator := c.nextGeneration, c.nextOperator;
      TrackBounds(s, c);
    }

    var generation := nextGeneration;
    while generation <= s.total
      invariant nextGeneration <= generation && 1 <= generation && nextOperator <= OPERATORS_PER_GENERATION
      invariant Going(begin, store.Content(), m, s, w, n,
                      5 * generation + (if generation == nextGeneration then nextOperator else 0) + 1)
      invariant OnTrack(s, Snapshot(core, population, generation,
                                    if generation == nextGeneration then nextOperator else 0,
                                    if generation == nextGeneration then restored else []))
    {
      var base := population;
      var offspring: seq<Id> := if generation == nextGeneration then restored else [];
      var start := if generation == nextGeneration then nextOperator else 0;
      var operators := OperatorsFor(generation, s.total);
      for op := 0 to |operators|
        invariant Going(begin, store.Content(), m, s, w, n, 5 * generation + Max(op, start) + 1)
        invariant OnTrack(s, Snapshot(core, base, generation, Max(op, start), offspring))
      {
        if op < start { continue; }
        BatchOnTrack(s, core, base, generation, op, offspring);
        var batch := s.batch(core, base, generation, operators[op]);
        core := batch.core;
        offspring := offspring + batch.offspring;
        var stop := EndStep(store, m, s, w, n, None, Snapshot(core, base, generation, op + 1, offspring), begin);
        if stop.Some? { return stop.value; }
        n := n + 1;
      }
      GenerationOnTrack(s, core, base, generation, offspring);
      population := s.select(IsEarly(generation, s.total), base + offspring);
      var stop := EndStep(store, m, s, w, n, Some(generation), Snapshot(core, population, generation + 1, 0, []), begin);
      if stop.Some? { return stop.value; }
      n := n + 1;
      generation := generation + 1;
    }
    TrackBounds(s, Snapshot(core, population, generation,
                            if generation == nextGeneration then nextOperator else 0,
                            if generation == nextGeneration then restored else []));
    end := Conclude(store, m, s, w, n, generation - 1, Outcome(core, population, BestOf(s, population)), begin,
                    5 * generation + (if generation == nextGeneration then nextOperator else 0) + 1);
  }

  /** The run row says COMPLETED, with this candidate. */
  ghost predicate CompletedWith(db: Db, r: Id, outcome: Outcome) {
    r in db.runs && db.runs[r].status.Completed? && outcome.best.Some? && db.runs[r].best == outcome.best
  }

  /**
   * After the last generation: the best candidate is chosen, the control point is passed once
   * more, and the run is completed. The runtime may still die, be stopped or lose its lease.
   */
  method Conclude(
    store: Store, m: Runtime, ghost s: Setup, w: World, n: nat, generation: nat, outcome: Outcome, ghost begin: Db,
    ghost position: nat)
    returns (end: End)
    requires HonestWorld(m, s, w) && Going(begin, store.Content(), m, s, w, n, position)
    modifies store
    ensures store.Valid() && Resumable(store.Content(), m, s)
    ensures end.Finished? ==> end.outcome == outcome && CompletedWith(store.Content(), m.r, outcome)
    ensures Calm(m, w) && Holds(begin, m, w(0).now) && CursorNamesRow(begin, m) ==> end.Finished? || outcome.best.None?
  {
    hide Inv;
    hide Resumable;
    hide Holds;
    hide CursorBefore;
    var now := w(n).now;
    ghost var calm := Calm(m, w) && Holds(begin, m, w(0).now) && CursorNamesRow(begin, m);
    Others(store, w(n).others, m, s);
    if outcome.best.None? { return NobodyToChoose; }
    if !w(n).death.Lives? { return Died; }
    var latest := Latest(store, m.r);
    if latest.Some? {
      var stop := SafePoint(store, m, s, now, now, calm, position);
      if stop.Some? { return stop.value; }
    }
    if calm { HolderCompletes(store.Content(), m, now, generation, outcome.best.value); }
    CompletionWrites(store.Content(), m, now, generation, outcome.best.value);
    var done := Ask(store, m, s, DoComplete(m.r, m.owner, now, generation, outcome.best.value));
    if done != Done { return LostLease; }
    end := Finished(outcome);
  }

  lemma CompletionWrites(db: Db, m: Runtime, now: int, generation: nat, best: Id)
    ensures var tx := Apply(db, DoComplete(m.r, m.owner, now, generation, best));
            tx.reply == Done ==> m.r in tx.db.runs && tx.db.runs[m.r].status.Completed? && tx.db.runs[m.r].best == Some(best)
  {
    hide Refunded;
    hide StoppedJobs;
    hide StoppedTasks;
  }

  lemma HolderCompletes(db: Db, m: Runtime, now: int, generation: nat, best: Id)
    requires Inv(db) && Holds(db, m, now)
    ensures Apply(db, DoComplete(m.r, m.owner, now, generation, best)).reply == Done
  {
    StoreGuarantees.CompleteIff(db, m.r, m.owner, now, generation, best);
  }

  // ---------------------------------------------------------------- claimed, executed, released

  /** One transaction of the runtime itself. */
  method Ask(store: Store, m: Runtime, ghost s: Setup, a: Action) returns (reply: Reply)
    requires store.Valid() && Resumable(store.Content(), m, s) && !a.DoAddCheckpoint?
    modifies store
    ensures store.Valid() && Resumable(store.Content(), m, s) && Tx(store.Content(), reply) == Apply(old(store.Content()), a)
  {
    hide Inv;
    hide Resumable;
    hide Apply;
    HonestStep(store.Content(), a, m, s);
    reply := store.Perform(a);
  }

  /** A run that can be claimed and executed: nobody holds it and nobody has asked it to stop. */
  ghost predicate FreeToRun(db: Db, m: Runtime, now: int) {
    && m.seconds > 0 && m.r in db.runs && (db.runs[m.r].status.Pending? || db.runs[m.r].status.Running?)
    && !db.runs[m.r].cancelRequested && !db.runs[m.r].pauseRequested
    && (db.runs[m.r].owner.None? || (db.runs[m.r].owner != Some(m.owner) && !Before(now, db.runs[m.r].lease)))
  }

  /** What a claim, and the start of a pending run, leave for the execution. */
  ghost predicate Entered(db: Db, d: Db, m: Runtime, now: int) {
    Holds(d, m, now) && d.runs[m.r].lease == Some(now + m.seconds) && d.checkpoints == db.checkpoints &&
    m.r in db.runs && d.runs[m.r].cursor == db.runs[m.r].cursor
  }

  lemma ClaimEnters(db: Db, m: Runtime, now: int)
    requires FreeToRun(db, m, now)
    ensures var tx := Apply(db, DoClaimRun(m.r, m.owner, now, m.seconds));
            && tx.reply == Granted(true)
            && tx.db == db.(runs := db.runs[m.r := db.runs[m.r].(owner := Some(m.owner), lease := Some(now + m.seconds))])
  {
    var run := db.runs[m.r].(owner := Some(m.owner), lease := Some(now + m.seconds));
    assert run.owner != db.runs[m.r].owner;
  }

  lemma StartEnters(db: Db, d: Db, m: Runtime, now: int)
    requires FreeToRun(db, m, now) && db.runs[m.r].status.Pending?
    requires d == db.(runs := db.runs[m.r := db.runs[m.r].(owner := Some(m.owner), lease := Some(now + m.seconds))])
    ensures var tx := Apply(d, DoStart(m.r, RunStatus.Pending, now, Some(m.owner), false));
            tx.reply == Done && Entered(db, tx.db, m, now)
  {
  }

  lemma RenewStaysEntered(db: Db, d: Db, m: Runtime, now: int)
    requires Entered(db, d, m, now)
    ensures var tx := Apply(d, DoRenewRun(m.r, m.owner, now, m.seconds)); tx.reply == Granted(true) && Entered(db, tx.db, m, now)
  {
  }

  lemma RecoverStaysEntered(db: Db, d: Db, m: Runtime, now: int)
    requires Entered(db, d, m, now)
    ensures Entered(db, Apply(d, DoRecover(now, Some(m.r))).db, m, now)
  {
  }

  lemma EnteredIsReady(db: Db, d: Db, m: Runtime, now: int, later: int)
    requires Entered(db, d, m, now) && later < now + m.seconds && CursorNamesRow(db, m)
    ensures Holds(d, m, later) && CursorNamesRow(d, m)
  {
    if d.runs[m.r].cursor.Some? {
      var id :| OfRun(db, m.r, id) && Names(db, m.r, id);
      assert OfRun(d, m.r, id) && Names(d, m.r, id);
    }
  }

  /** The entry of an execution: claim, start if pending, renew, recover the run's stale jobs. */
  method Enter(store: Store, m: Runtime, ghost s: Setup, now: int) returns (refused: Option<End>)
    requires store.Valid() && Resumable(store.Content(), m, s)
    modifies store
    ensures store.Valid() && Resumable(store.Content(), m, s)
    ensures refused.Some? ==> !refused.value.Finished?
    ensures FreeToRun(old(store.Content()), m, now) ==>
              refused.None? && Entered(old(store.Content()), store.Content(), m, now)
  {
    hide Inv;
    hide Resumable;
    hide Apply;
    ghost var begin := store.Content();
    ghost var free := FreeToRun(begin, m, now);
    if free { ClaimEnters(begin, m, now); }
    var claimed := Ask(store, m, s, DoClaimRun(m.r, m.owner, now, m.seconds));
    if claimed != Granted(true) || m.r !in store.runs { return Some(NotClaimed); }
    if store.runs[m.r].status.Pending? {
      if free { StartEnters(begin, store.Content(), m, now); }
      var started := Ask(store, m, s, DoStart(m.r, RunStatus.Pending, now, Some(m.owner), false));
      if started != Done { return Some(LostLease); }
    } else if !store.runs[m.r].status.Running? {
      return Some(NotRunnable);
    }
    assert free ==> Entered(begin, store.Content(), m, now);
    if free { RenewStaysEntered(begin, store.Content(), m, now); }
    var renewed := Ask(store, m, s, DoRenewRun(m.r, m.owner, now, m.seconds));
    if renewed != Granted(true) { return Some(LostLease); }
    if free { RecoverStaysEntered(begin, store.Content(), m, now); }
    var recovered := Ask(store, m, s, DoRecover(now, Some(m.r)));
    refused := None;
  }

  /** One runtime's attempt at a run; only a runtime that dies does not release its lease. */
  method Execute(store: Store, m: Runtime, s: Setup, w: World, now: int) returns (end: End)
    requires store.Valid() && Resumable(store.Content(), m, s) && Decodes(m.codec) && HonestWorld(m, s, w)
    modifies store
    ensures store.Valid() && Resumable(store.Content(), m, s)
    ensures end.Finished? ==> end.outcome == Uninterrupted(s) && CompletedWith(store.Content(), m.r, end.outcome)
    ensures Ready(old(store.Content()), m, w, now) ==> end.Finished? || Uninterrupted(s).best.None?
  {
    hide Inv;
    hide Resumable;
    hide Apply;
    hide Decodes;
    hide HonestWorld;
    hide FreeToRun;
    hide Entered;
    hide Holds;
    hide CursorNamesRow;
    ghost var begin := store.Content();
    var refused := Enter(store, m, s, now);
    if refused.Some? { return refused.value; }
    if Ready(begin, m, w, now) { EnteredIsReady(begin, store.Content(), m, now, w(0).now); }
    end := ExecuteOwned(store, m, s, w);
    if !end.Died? {
      ReleaseKeepsCompletion(store.Content(), m, end);
      var released := Ask(store, m, s, DoReleaseRun(m.r, m.owner));
    }
  }

  lemma ReleaseKeepsCompletion(db: Db, m: Runtime, end: End)
    ensures end.Finished? && CompletedWith(db, m.r, end.outcome) ==>
              CompletedWith(Apply(db, DoReleaseRun(m.r, m.owner)).db, m.r, end.outcome)
  {
  }

  /** The run can be claimed, its cursor names a row, and the execution that follows is calm. */
  ghost predicate Ready(db: Db, m: Runtime, w: World, now: int) {
    FreeToRun(db, m, now) && CursorNamesRow(db, m) && Calm(m, w) && w(0).now < now + m.seconds
  }

  /** A runtime's plan: when it claims the run, and what happens while it executes it. */
  datatype Attempt = Attempt(owner: Id, seconds: int, now: int, others: seq<Action>, world: World)

  function RuntimeOf(r: Id, codec: Codec, a: Attempt): Runtime {
    Runtime(r, a.owner, a.seconds, codec)
  }

  lemma SameRun(db: Db, m: Runtime, o: Runtime, s: Setup)
    requires m.r == o.r && m.codec == o.codec && Resumable(db, m, s)
    ensures Resumable(db, o, s)
  {
    hide OnTrack;
    forall id | id in db.checkpoints ensures GoodRow(o, s, id, db.checkpoints[id]) {
      assert GoodRow(m, s, id, db.checkpoints[id]);
    }
  }

  ghost predicate HonestAttempt(m: Runtime, s: Setup, a: Attempt) {
    HonestWorld(m, s, a.world) && forall i :: 0 <= i < |a.others| ==> Honest(m, s, a.others[i])
  }

  /**
   * Attempts of any number of runtimes one after another, until one of them finishes. The
   * first that finishes has the answer of the uninterrupted loop, and an attempt that finds
   * the run free and is left in peace does finish. `starts` are the states they found.
   */
  method ExecuteUntilDone(store: Store, r: Id, codec: Codec, s: Setup, attempts: seq<Attempt>)
    returns (ends: seq<End>, ghost starts: seq<Db>)
    requires store.Valid() && Decodes(codec)
    requires forall i :: 0 <= i < |attempts| ==>
      HonestAttempt(RuntimeOf(r, codec, attempts[i]), s, attempts[i]) && Resumable(store.Content(), RuntimeOf(r, codec, attempts[i]), s)
    modifies store
    ensures |starts| == |ends| <= |attempts|
    ensures forall i :: 0 <= i < |ends| ==> ends[i].Finished? ==>
      && ends[i].outcome == Uninterrupted(s) && IsWrittenOut(s, ends[i].outcome) && i == |ends| - 1
      && CompletedWith(store.Content(), r, ends[i].outcome)
    ensures |ends| < |attempts| ==> ends != [] && ends[|ends| - 1].Finished?
    ensures forall i :: 0 <= i < |ends| ==>
      Ready(starts[i], RuntimeOf(r, codec, attempts[i]), attempts[i].world, attempts[i].now) ==>
        ends[i].Finished? || Uninterrupted(s).best.None?
  {
    hide Inv;
    hide Resumable;
    hide Decodes;
    hide HonestWorld;
    hide Ready;
    hide Uninterrupted;
    UninterruptedWrittenOut(s);
    hide IsWrittenOut;
    ends, starts := [], [];
    for k := 0 to |attempts|
      invariant store.Valid() && |starts| == |ends| == k
      invariant forall i :: 0 <= i < |attempts| ==> Resumable(store.Content(), RuntimeOf(r, codec, attempts[i]), s)
      invariant forall i :: 0 <= i < k ==> !ends[i].Finished?
      invariant forall i :: 0 <= i < k ==>
        !Ready(starts[i], RuntimeOf(r, codec, attempts[i]), attempts[i].world, attempts[i].now) || Uninterrupted(s).best.None?
    {
      var m := RuntimeOf(r, codec, attempts[k]);
      assert HonestAttempt(RuntimeOf(r, codec, attempts[k]), s, attempts[k]);
      Others(store, attempts[k].others, m, s);
      starts := starts + [store.Content()];
      var end := Execute(store, m, s, attempts[k].world, attempts[k].now);
      forall i | 0 <= i < |attempts| ensures Resumable(store.Content(), RuntimeOf(r, codec, attempts[i]), s) {
        SameRun(store.Content(), m, RuntimeOf(r, codec, attempts[i]), s);
      }
      ends := ends + [end];
      if end.Finished? { return; }
    }
  }
}
