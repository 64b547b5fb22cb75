/**
 What a replica learns from the stream a session emits: overwriting replay, the effect of
 lost items, manual snapshots, and replay through the validator's conflict checks
 (crates/synddb-validator/src/apply/applier.rs).
 */
module Replay {
  import opened Sequences
  import opened Database
  import opened Session

  /** One item reaches the replica: only sent items do, and manual snapshots are kept apart. */
  function Absorb(replica: Db, item: Item): Db {
    if PushSnapshot(item) then item.db
    else if item.Changeset? && item.sent then Db(replica.schema, Overwrite(replica.rows, item.changes))
    else replica
  }

  function Replayed(replica: Db, log: seq<Item>): Db {
    if log == [] then replica else Absorb(Replayed(replica, log[..|log| - 1]), log[|log| - 1])
  }

  lemma ReplaySnoc(replica: Db, log: seq<Item>, item: Item)
    ensures Replayed(replica, log + [item]) == Absorb(Replayed(replica, log), item)
  {
    assert (log + [item])[..|log|] == log;
  }

  /** A snapshot in the stream makes everything before it irrelevant. */
  lemma {:induction false} ReplayFromSnapshot(replica: Db, log: seq<Item>, i: nat)
    requires i < |log| && PushSnapshot(log[i])
    ensures Replayed(replica, log) == Replayed(log[i].db, log[i + 1..])
  {
    var n := |log| - 1;
    if i == n {
      assert log[i + 1..] == [];
    } else {
      ReplayFromSnapshot(replica, log[..n], i);
      assert log[i + 1..] == log[..n][i + 1..] + [log[n]];
      ReplaySnoc(log[i].db, log[..n][i + 1..], log[n]);
    }
  }

  // ---------------------------------------------------------------- faithful replay

  /** The replica holds the source as of the last extraction, and the session starts there. */
  ghost predicate Tracks(hash: Hash, replica: Db, s: State) {
    && replica.rows == s.last.rows == s.base
    && hash(replica.schema) == hash(s.last.schema) == s.lastHash
    && (!s.hasChanges ==> s.db.rows == s.base && (s.txn.Some? ==> s.txn.value.rows == s.base))
  }

  /** No failed SQLite call and no refused send. */
  predicate Clean(step: Step) {
    step.Push? ==> step.answers == PushAnswers(Sent, true, true, Sent, true)
  }

  lemma SchemaTracks(hash: Hash, replica: Db, s: State, answer: SnapshotAnswer)
    ensures var s' := SchemaStage(hash, s, answer);
            Replayed(replica, s'.log)
            == if hash(s.db.schema) != s.lastHash && answer.Sent? then s.db else Replayed(replica, s.log)
    ensures var s' := SchemaStage(hash, s, answer);
            s' == s.(log := s'.log, lastHash := hash(s.db.schema), sequence := s'.sequence,
                     sinceSnapshot := s'.sinceSnapshot)
  {
    if !answer.CreateFailed? {
      ReplaySnoc(replica, s.log, Snapshot(SchemaChange, s.sequence, s.db, answer.Sent?));
    }
  }

  lemma IntervalEffect(replica: Db, s: State, answer: SnapshotAnswer)
    ensures Replayed(replica, IntervalStage(s, answer).log)
         == if s.sinceSnapshot >= s.interval && answer.Sent? then s.db else Replayed(replica, s.log)
    ensures DeliverFrame(s, IntervalStage(s, answer)) && IntervalStage(s, answer).base == s.base
  {
    hide Overwrite, Replayed;
    if !answer.CreateFailed? {
      ReplaySnoc(replica, s.log, Snapshot(Interval, s.sequence, s.db, answer.Sent?));
    }
  }

  lemma ExtractEffect(replica: Db, s: State, sent: bool)
    ensures var before := Replayed(replica, s.log);
            Replayed(replica, ExtractStage(s, sent).log)
            == if sent then Db(before.schema, Overwrite(before.rows, Diff(s.base, s.db.rows))) else before
  {
    hide Overwrite, Replayed, Diff;
    ReplaySnoc(replica, s.log, Changeset(s.sequence, Diff(s.base, s.db.rows), sent));
  }

  /** The extraction stage leaves the replica as the changeset and the interval snapshot say. */
  lemma DeliverEffect(replica: Db, s: State, a: PushAnswers)
    ensures var s' := DeliverStage(s, a);
            var before := Replayed(replica, s.log);
            var changes := Diff(s.base, s.db.rows);
            Replayed(replica, s'.log)
            == if changes == map[] then before
               else if s.sinceSnapshot + 1 >= s.interval && a.intervalSnapshot.Sent? then s.db
               else if a.changesetSent then Db(before.schema, Overwrite(before.rows, changes))
               else before
    ensures DeliverFrame(s, DeliverStage(s, a))
    ensures a.recreated ==> DeliverStage(s, a).base == s.db.rows
  {
    hide Overwrite, Replayed, Diff, IntervalStage;
    EmptyDiff(s.base, s.db.rows);
    ExtractEffect(replica, s, a.changesetSent);
    IntervalEffect(replica, ExtractStage(s, a.changesetSent), a.intervalSnapshot);
  }

  /** All that a delivery changes. */
  predicate DeliverFrame(s: State, s': State) {
    s' == s.(log := s'.log, sequence := s'.sequence, sinceSnapshot := s'.sinceSnapshot, base := s'.base)
  }

  /** A clean push outside a transaction brings the replica to the source as it is now. */
  lemma CleanPushTracks(hash: Hash, replica: Db, s: State, a: PushAnswers)
    requires Clean(Push(a)) && Tracks(hash, Replayed(replica, s.log), s)
    ensures Tracks(hash, Replayed(replica, PushStep(hash, s, a).log), PushStep(hash, s, a))
    ensures s.txn.None? ==> Replayed(replica, PushStep(hash, s, a).log).rows == s.db.rows
  {
    if s.hasChanges && s.txn.None? {
      var s1 := SchemaStage(hash, s, a.schemaSnapshot);
      SchemaTracks(hash, replica, s, a.schemaSnapshot);
      var s2 := s1.(hasChanges := false, last := s1.db);
      DeliverEffect(replica, s2, a);
      OverwriteReaches(Replayed(replica, s2.log).rows, s2.base, s2.db.rows);
      EmptyDiff(s2.base, s2.db.rows);
    }
  }

  lemma NonPushLog(hash: Hash, replica: Db, s: State, step: Step)
    requires !step.Push?
    ensures Replayed(replica, Next(hash, s, step).log) == Replayed(replica, s.log)
  {
    hide PushStep, Overwrite, Replayed;
    if step.ManualSnapshot? {
      ReplaySnoc(replica, s.log, Snapshot(Manual, s.sequence, s.db, true));
    }
  }

  lemma NonPushTracks(hash: Hash, replica: Db, s: State, step: Step)
    requires !step.Push? && Tracks(hash, Replayed(replica, s.log), s)
    ensures Tracks(hash, Replayed(replica, Next(hash, s, step).log), Next(hash, s, step))
  {
    hide PushStep, Replayed;
    NonPushLog(hash, replica, s, step);
  }

  lemma {:induction false} CleanRunTracks(hash: Hash, replica: Db, s: State, steps: seq<Step>)
    requires Tracks(hash, Replayed(replica, s.log), s)
    requires forall i :: 0 <= i < |steps| ==> Clean(steps[i])
    ensures Tracks(hash, Replayed(replica, Run(hash, s, steps).log), Run(hash, s, steps))
  {
    if steps != [] {
      var n := |steps| - 1;
      CleanRunTracks(hash, replica, s, steps[..n]);
      var s' := Run(hash, s, steps[..n]);
      if steps[n].Push? {
        CleanPushTracks(hash, replica, s', steps[n].answers);
      } else {
        NonPushTracks(hash, replica, s', steps[n]);
      }
    }
  }

  ghost predicate Injective(hash: Hash) {
    forall a, b :: hash(a) == hash(b) ==> a == b
  }

  /**
   Replay theorem.  For every clean run of row changes, row-preserving DDL, transactions, pushes
   and manual snapshots, replaying the emitted stream from the attach-time database, or from any
   snapshot a push sent, gives the source as of the last extraction.  The rows need nothing of
   the hash; the schema needs it to tell schemas apart.
   */
  lemma ReplayTheorem(hash: Hash, db: Db, interval: nat, steps: seq<Step>)
    requires forall i :: 0 <= i < |steps| ==> Clean(steps[i])
    ensures var s := Run(hash, Attach(hash, db, interval), steps);
            && Replayed(db, s.log).rows == s.last.rows
            && (Injective(hash) ==> Replayed(db, s.log) == s.last)
            && forall i :: 0 <= i < |s.log| && PushSnapshot(s.log[i]) ==>
                 && Replayed(s.log[i].db, s.log[i + 1..]).rows == s.last.rows
                 && (Injective(hash) ==> Replayed(s.log[i].db, s.log[i + 1..]) == s.last)
  {
    var s := Run(hash, Attach(hash, db, interval), steps);
    CleanRunTracks(hash, db, Attach(hash, db, interval), steps);
    forall i | 0 <= i < |s.log| && PushSnapshot(s.log[i])
      ensures Replayed(s.log[i].db, s.log[i + 1..]) == Replayed(db, s.log)
    {
      ReplayFromSnapshot(db, s.log, i);
    }
  }

  // ---------------------------------------------------------------- recovery after losses

  /** A snapshot of this push reached the channel. */
  predicate SnapshotSent(hash: Hash, s: State, a: PushAnswers) {
    || (hash(s.db.schema) != s.lastHash && a.schemaSnapshot.Sent?)
    || (Diff(s.base, s.db.rows) != map[] && a.intervalSnapshot.Sent?
        && SchemaStage(hash, s, a.schemaSnapshot).sinceSnapshot + 1 >= s.interval)
  }

  /** This push sends a snapshot, extracts, and renews the session; the changeset may be lost. */
  predicate Heals(hash: Hash, s: State, a: PushAnswers) {
    s.hasChanges && s.txn.None? && a.extracted && a.recreated && SnapshotSent(hash, s, a)
  }

  lemma HealingPush(hash: Hash, replica: Db, s: State, a: PushAnswers)
    requires Heals(hash, s, a)
    ensures Tracks(hash, Replayed(replica, PushStep(hash, s, a).log), PushStep(hash, s, a))
  {
    var s1 := SchemaStage(hash, s, a.schemaSnapshot);
    SchemaTracks(hash, replica, s, a.schemaSnapshot);
    var s2 := s1.(hasChanges := false, last := s1.db);
    DeliverEffect(replica, s2, a);
    EmptyDiff(s2.base, s2.db.rows);
    OverwriteReaches(Replayed(replica, s2.log).rows, s2.base, s2.db.rows);
  }

  /**
   Whatever was refused or failed earlier, and whatever the replica held, a run is replayed
   faithfully from the first healing push on, as long as the steps after it are clean.
   */
  lemma ReplayHeals(hash: Hash, replica: Db, db: Db, interval: nat,
                    before: seq<Step>, a: PushAnswers, after: seq<Step>)
    requires Heals(hash, Run(hash, Attach(hash, db, interval), before), a)
    requires forall i :: 0 <= i < |after| ==> Clean(after[i])
    ensures var s := Run(hash, Attach(hash, db, interval), before + [Push(a)] + after);
            && Replayed(replica, s.log).rows == s.last.rows
            && (Injective(hash) ==> Replayed(replica, s.log) == s.last)
  {
    var s0 := Run(hash, Attach(hash, db, interval), before);
    assert (before + [Push(a)])[..|before|] == before;
    HealingPush(hash, replica, s0, a);
    CleanRunTracks(hash, replica, PushStep(hash, s0, a), after);
    RunConcat(hash, Attach(hash, db, interval), before + [Push(a)], after);
  }

  /**
   One row, any replica, any state: after a push that extracted, the replica is right about row k
   exactly when a snapshot of the push got through, or the changeset did and names the row, or the
   push left the row alone and the replica already had it right.
   */
  lemma PushRowExact(hash: Hash, replica: Db, s: State, a: PushAnswers, k: Key)
    requires s.hasChanges && s.txn.None? && a.extracted
    ensures var s' := PushStep(hash, s, a);
            Get(Replayed(replica, s'.log).rows, k) == Get(s'.last.rows, k)
            <==> || SnapshotSent(hash, s, a)
                 || (a.changesetSent && Get(s.base, k) != Get(s.db.rows, k))
                 || Get(Replayed(replica, s.log).rows, k) == Get(s.db.rows, k)
  {
    hide Replayed;
    var s1 := SchemaStage(hash, s, a.schemaSnapshot);
    SchemaTracks(hash, replica, s, a.schemaSnapshot);
    var s2 := s1.(hasChanges := false, last := s1.db);
    DeliverEffect(replica, s2, a);
    EmptyDiff(s2.base, s2.db.rows);
  }

  /** The session kept from an earlier push does not see the change of row k, or nobody receives it. */
  predicate Missed(s: State, a: PushAnswers, k: Key) {
    Get(s.last.rows, k) != Get(s.db.rows, k) && (Get(s.base, k) == Get(s.db.rows, k) || !a.changesetSent)
  }

  /** When a push takes a faithful replica off the last extraction. */
  ghost predicate Diverges(hash: Hash, s: State, a: PushAnswers) {
    && s.hasChanges && s.txn.None?
    && if a.extracted then !SnapshotSent(hash, s, a) && exists k :: Missed(s, a, k)
       else hash(s.db.schema) != s.lastHash && a.schemaSnapshot.Sent? && s.db.rows != s.last.rows
  }

  /**
   Exactly when one push, with any answers and in any state, leaves a faithful replica unfaithful.
   Either no snapshot of the push got through and some row changed since the last extraction that the
   changeset does not name (its session is older than that extraction) or that was refused with it;
   or the schema snapshot ran ahead of an extraction that then failed.
   */
  lemma PushLossExact(hash: Hash, replica: Db, s: State, a: PushAnswers)
    requires Replayed(replica, s.log).rows == s.last.rows
    ensures var s' := PushStep(hash, s, a);
            Replayed(replica, s'.log).rows != s'.last.rows <==> Diverges(hash, s, a)
  {
    hide Replayed;
    var s' := PushStep(hash, s, a);
    if s.hasChanges && s.txn.None? && a.extracted {
      forall k ensures Get(Replayed(replica, s'.log).rows, k) != Get(s'.last.rows, k)
                  <==> !SnapshotSent(hash, s, a) && Missed(s, a, k)
      {
        PushRowExact(hash, replica, s, a, k);
      }
      if forall k :: Get(Replayed(replica, s'.log).rows, k) == Get(s'.last.rows, k) {
        SameRows(Replayed(replica, s'.log).rows, s'.last.rows);
      }
    } else {
      SchemaTracks(hash, replica, s, a.schemaSnapshot);
    }
  }

  /**
   A push that refuses nothing can lose a row: the session that could not be recreated still starts
   before the row was inserted, so deleting the row is no net change to it.
   */
  lemma StaleSessionLosesDelete(hash: Hash)
    ensures var row := map[Key("t", 1) := ["x"]];
            var clean := PushAnswers(Sent, true, true, Sent, true);
            var empty := Db([], map[]);
            var steps := [Write(row), Push(clean.(recreated := false)), Write(map[]), Push(clean)];
            var s2 := Run(hash, Attach(hash, empty, 10), steps[..2]);
            var s4 := Run(hash, Attach(hash, empty, 10), steps);
            && Replayed(empty, s2.log).rows == s2.last.rows == row
            && s4.log == s2.log
            && Replayed(empty, s4.log).rows == row && s4.last.rows == map[]
  {
    var row := map[Key("t", 1) := ["x"]];
    var clean := PushAnswers(Sent, true, true, Sent, true);
    var stale := clean.(recreated := false);
    var empty := Db([], map[]);
    var steps := [Write(row), Push(stale), Write(map[]), Push(clean)];
    var s0 := Attach(hash, empty, 10);
    var s1 := Next(hash, s0, Write(row));
    var s2 := Next(hash, s1, Push(stale));
    var s3 := Next(hash, s2, Write(map[]));
    assert steps[..3] == [Write(row), Push(stale), Write(map[])];
    assert steps[..3][..2] == steps[..2] == [Write(row), Push(stale)];
    assert steps[..2][..1] == [Write(row)];
    assert Run(hash, s0, [Write(row)]) == s1;
    assert Run(hash, s0, steps[..2]) == s2;
    assert Run(hash, s0, steps[..3]) == s3;
    assert Key("t", 1) in row && row != map[];
    EmptyDiff(map[], row);
    EmptyDiff(map[], map[]);
    DeliverEffect(empty, s1.(hasChanges := false, last := s1.db), stale);
    OverwriteReaches(map[], map[], row);
    assert s3.base == map[];
    assert Run(hash, s0, steps) == s3.(hasChanges := false, last := s3.db);
  }

  /** A push whose extraction fails before any snapshot of it gets out. */
  predicate Stalled(step: Step) {
    step.Push? ==> !step.answers.extracted && !step.answers.schemaSnapshot.Sent?
  }

  lemma StalledPush(hash: Hash, replica: Db, s: State, a: PushAnswers)
    requires Stalled(Push(a))
    ensures var s' := PushStep(hash, s, a);
            Replayed(replica, s'.log) == Replayed(replica, s.log) && s'.base == s.base && s'.last == s.last
  {
    SchemaTracks(hash, replica, s, a.schemaSnapshot);
  }

  lemma {:induction false} StalledRun(hash: Hash, replica: Db, s: State, steps: seq<Step>)
    requires forall i :: 0 <= i < |steps| ==> Stalled(steps[i])
    ensures var s' := Run(hash, s, steps);
            Replayed(replica, s'.log) == Replayed(replica, s.log) && s'.base == s.base && s'.last == s.last
  {
    if steps != [] {
      hide Next, Replayed;
      var n := |steps| - 1;
      StalledRun(hash, replica, s, steps[..n]);
      StalledNext(hash, replica, Run(hash, s, steps[..n]), steps[n]);
    }
  }

  lemma StalledNext(hash: Hash, replica: Db, s: State, step: Step)
    requires Stalled(step)
    ensures var s' := Next(hash, s, step);
            Replayed(replica, s'.log) == Replayed(replica, s.log) && s'.base == s.base && s'.last == s.last
  {
    hide PushStep, Replayed;
    if step.Push? {
      StalledPush(hash, replica, s, step.answers);
    } else {
      NonPushLog(hash, replica, s, step);
    }
  }

  /**
   A failed extraction costs nothing but time: after a clean run, any number of pushes that fail to
   extract, and any changes around them, one clean push outside a transaction brings the replica to the
   present rows.
   */
  lemma StalledThenClean(hash: Hash, db: Db, interval: nat, before: seq<Step>, stalled: seq<Step>, a: PushAnswers)
    requires forall i :: 0 <= i < |before| ==> Clean(before[i])
    requires forall i :: 0 <= i < |stalled| ==> Stalled(stalled[i])
    requires Clean(Push(a))
    ensures var s := Run(hash, Attach(hash, db, interval), before + stalled);
            s.txn.None? ==> Replayed(db, PushStep(hash, s, a).log).rows == s.db.rows
  {
    var s0 := Attach(hash, db, interval);
    var s1 := Run(hash, s0, before);
    var s := Run(hash, s0, before + stalled);
    CleanRunTracks(hash, db, s0, before);
    RunConcat(hash, s0, before, stalled);
    StalledRun(hash, db, s1, stalled);
    RunFlagTells(hash, db, interval, before + stalled);
    hide Replayed, Run;
    if s.txn.None? && s.hasChanges {
      CleanPushReaches(hash, db, s, a);
    }
  }

  /** A clean push needs only rows that are those of the session's start. */
  lemma CleanPushReaches(hash: Hash, replica: Db, s: State, a: PushAnswers)
    requires Clean(Push(a)) && s.hasChanges && s.txn.None? && Replayed(replica, s.log).rows == s.base
    ensures Replayed(replica, PushStep(hash, s, a).log).rows == s.db.rows
  {
    hide Replayed;
    var s1 := SchemaStage(hash, s, a.schemaSnapshot);
    SchemaTracks(hash, replica, s, a.schemaSnapshot);
    var s2 := s1.(hasChanges := false, last := s1.db);
    DeliverEffect(replica, s2, a);
    OverwriteReaches(Replayed(replica, s2.log).rows, s2.base, s2.db.rows);
    EmptyDiff(s2.base, s2.db.rows);
  }

  /**
   Exactly when a replica that knows the last announced schema knows the present one after a push: the
   hash had not changed, or some snapshot of this push got through.
   */
  lemma SchemaLossExact(hash: Hash, replica: Db, s: State, a: PushAnswers)
    requires s.hasChanges && s.txn.None? && a.extracted
    requires hash(Replayed(replica, s.log).schema) == s.lastHash
    ensures hash(Replayed(replica, PushStep(hash, s, a).log).schema) == hash(s.db.schema)
       <==> hash(s.db.schema) == s.lastHash || SnapshotSent(hash, s, a)
  {
    hide Replayed;
    var s1 := SchemaStage(hash, s, a.schemaSnapshot);
    SchemaTracks(hash, replica, s, a.schemaSnapshot);
    DeliverEffect(replica, s1.(hasChanges := false, last := s1.db), a);
    EmptyDiff(s.base, s.db.rows);
  }

  // ---------------------------------------------------------------- manual snapshots

  /** Some push of the continuation extracts. */
  ghost predicate ExtractsLater(hash: Hash, s: State, steps: seq<Step>) {
    exists i :: 0 <= i < |steps| && steps[i].Push? && Ready(Run(hash, s.(log := []), steps[..i]))
  }

  predicate Ready(s: State) {
    s.hasChanges && s.txn.None?
  }

  /**
   Once a later push has extracted, replaying what is emitted after `s` on top of a snapshot of `s` is at
   the source as of the last extraction, whatever the continuation.
   */
  ghost predicate GoodRestart(hash: Hash, s: State) {
    forall steps: seq<Step> :: (forall i :: 0 <= i < |steps| ==> Clean(steps[i])) && ExtractsLater(hash, s, steps) ==>
      RestartsWell(hash, s, steps)
  }

  ghost predicate RestartsWell(hash: Hash, s: State, steps: seq<Step>) {
    var s' := Run(hash, s.(log := []), steps);
    Replayed(s.db, s'.log).rows == s'.last.rows
  }

  /**
   A manual snapshot does not restart the session.  It is a sound starting point for replay,
   whatever follows, exactly when no net change was pending when it was taken.
   */
  lemma ManualSnapshotExact(hash: Hash, db: Db, interval: nat, before: seq<Step>)
    requires forall i :: 0 <= i < |before| ==> Clean(before[i])
    ensures var s := Run(hash, Attach(hash, db, interval), before);
            GoodRestart(hash, s) <==> s.db.rows == s.base
  {
    var s := Run(hash, Attach(hash, db, interval), before);
    CleanRunTracks(hash, db, Attach(hash, db, interval), before);
    if s.db.rows == s.base {
      forall steps: seq<Step> | (forall i :: 0 <= i < |steps| ==> Clean(steps[i])) && ExtractsLater(hash, s, steps)
        ensures RestartsWell(hash, s, steps)
      {
        // A replica with the snapshot's rows and the schema last announced tracks the session.
        var announced := Db(s.last.schema, s.db.rows);
        CleanRunTracks(hash, announced, s.(log := []), steps);
        RowsIgnoreSchema(announced, s.db, Run(hash, s.(log := []), steps).log);
      }
    } else {
      UndoBreaksRestart(hash, s);
    }
  }

  lemma {:induction false} RowsIgnoreSchema(a: Db, b: Db, log: seq<Item>)
    requires a.rows == b.rows
    ensures Replayed(a, log).rows == Replayed(b, log).rows
  {
    if log != [] {
      RowsIgnoreSchema(a, b, log[..|log| - 1]);
    }
  }

  /** Undoing the pending changes and pushing emits nothing, so the snapshot keeps them. */
  lemma UndoBreaksRestart(hash: Hash, s: State)
    requires s.db.rows != s.base && s.last.rows == s.base
    requires hash(s.last.schema) == s.lastHash
    ensures !GoodRestart(hash, s)
  {
    var clean := PushAnswers(Sent, true, true, Sent, true);
    var s0 := s.(log := [], txn := None);
    // leave the transaction, go back to the announced schema and the session's first rows, push
    var steps := [Commit, Ddl(s.last.schema), Write(s.base), Push(clean)];
    assert forall i :: 0 <= i < |steps| ==> Clean(steps[i]);
    var s' := s0.(db := Db(s.last.schema, s.base), hasChanges := true);
    assert steps[..3] == [Commit, Ddl(s.last.schema), Write(s.base)];
    assert steps[..3][..2] == [Commit, Ddl(s.last.schema)];
    assert steps[..3][..2][..1] == [Commit];
    assert Run(hash, s.(log := []), [Commit]) == s0;
    assert Run(hash, s.(log := []), [Commit, Ddl(s.last.schema)]) == s0.(db := Db(s.last.schema, s.db.rows));
    assert Run(hash, s.(log := []), [Commit, Ddl(s.last.schema), Write(s.base)]) == s';
    EmptyDiff(s.base, s.base);
    assert PushStep(hash, s', clean) == s'.(hasChanges := false, last := s'.db);
    assert Run(hash, s.(log := []), steps) == PushStep(hash, s', clean);
    assert ExtractsLater(hash, s, steps) by {
      assert steps[3].Push? && Ready(Run(hash, s.(log := []), steps[..3]));
    }
    assert !RestartsWell(hash, s, steps);
  }

  /** The shortest instance: insert, snapshot, delete, push leaves the deleted row in the replica. */
  lemma InsertSnapshotDeletePush(hash: Hash)
    ensures var row := map[Key("t", 1) := ["x"]];
            var clean := PushAnswers(Sent, true, true, Sent, true);
            var s := Run(hash, Attach(hash, Db([], map[]), 10),
                         [Write(row), ManualSnapshot(true), Write(map[]), Push(clean)]);
            && s.log == [Snapshot(Manual, 0, Db([], row), true)]
            && Replayed(s.log[0].db, s.log[1..]).rows == row
            && s.last.rows == map[]
  {
    var row := map[Key("t", 1) := ["x"]];
    var clean := PushAnswers(Sent, true, true, Sent, true);
    var s0 := Attach(hash, Db([], map[]), 10);
    var steps := [Write(row), ManualSnapshot(true), Write(map[]), Push(clean)];
    var s1 := Next(hash, s0, Write(row));
    var s2 := Next(hash, s1, ManualSnapshot(true));
    var s3 := Next(hash, s2, Write(map[]));
    assert steps[..3] == [Write(row), ManualSnapshot(true), Write(map[])];
    assert steps[..3][..2] == [Write(row), ManualSnapshot(true)];
    assert steps[..3][..2][..1] == [Write(row)];
    assert Run(hash, s0, [Write(row)]) == s1;
    assert Run(hash, s0, [Write(row), ManualSnapshot(true)]) == s2;
    assert Run(hash, s0, [Write(row), ManualSnapshot(true), Write(map[])]) == s3;
    EmptyDiff(map[], map[]);
    assert Run(hash, s0, steps) == s3.(hasChanges := false, last := s3.db);
  }

  // ---------------------------------------------------------------- the validator's checks

  /** As `Absorb`, but a changeset goes through the validator's conflict policy. */
  function AbsorbChecked(replica: Option<Db>, item: Item): Option<Db> {
    if replica.None? then None
    else if PushSnapshot(item) then Some(item.db)
    else if item.Changeset? && item.sent then
      var rows := ApplyChecked(replica.value.rows, item.changes);
      if rows.Some? then Some(Db(replica.value.schema, rows.value)) else None
    else replica
  }

  /** None once some changeset was aborted: the validator stops there. */
  function Checked(replica: Db, log: seq<Item>): Option<Db> {
    if log == [] then Some(replica) else AbsorbChecked(Checked(replica, log[..|log| - 1]), log[|log| - 1])
  }

  lemma CheckedSnoc(replica: Db, log: seq<Item>, item: Item)
    ensures Checked(replica, log + [item]) == AbsorbChecked(Checked(replica, log), item)
  {
    assert (log + [item])[..|log|] == log;
  }

  /** A push that announces a new schema must not carry an UPDATE or a DELETE. */
  predicate SafePush(hash: Hash, s: State, step: Step) {
    step.Push? && s.hasChanges && s.txn.None? && hash(s.db.schema) != s.lastHash ==>
      Keeps(s.base, s.db.rows)
  }

  ghost predicate SafeRun(hash: Hash, s: State, steps: seq<Step>) {
    forall i :: 0 <= i < |steps| ==> SafePush(hash, Run(hash, s, steps[..i]), steps[i])
  }

  /** What a non-empty changeset and the interval snapshot after it do to the validator's rows. */
  lemma CheckedExtract(replica: Db, s: State, a: PushAnswers, at: Db, rows: Option<Rows>)
    requires Clean(Push(a)) && Checked(replica, s.log) == Some(at)
    requires ApplyChecked(at.rows, Diff(s.base, s.db.rows)) == rows
    requires rows.Some? ==> rows.value == s.db.rows
    ensures var r := Checked(replica, IntervalStage(ExtractStage(s, true), Sent).log);
            (r.Some? <==> rows.Some?) && (r.Some? ==> r.value.rows == s.db.rows)
  {
    hide Diff, ApplyChecked, Checked;
    CheckedSnoc(replica, s.log, Changeset(s.sequence, Diff(s.base, s.db.rows), true));
    var s1 := ExtractStage(s, true);
    CheckedSnoc(replica, s1.log, Snapshot(Interval, s1.sequence, s1.db, true));
  }

  lemma CheckedDeliver(replica: Db, s: State, a: PushAnswers, at: Db)
    requires Clean(Push(a)) && Checked(replica, s.log) == Some(at)
    requires at.rows == s.base || at.rows == s.db.rows
    ensures var r := Checked(replica, DeliverStage(s, a).log);
            if at.rows == s.base || Keeps(s.base, s.db.rows)
            then r.Some? && r.value.rows == s.db.rows
            else r.None?
  {
    hide ApplyChecked, Diff;
    EmptyDiff(s.base, s.db.rows);
    CheckedOnBase(s.base, s.db.rows);
    CheckedOnCurrent(s.base, s.db.rows);
    CheckedExtract(replica, s, a, at, ApplyChecked(at.rows, Diff(s.base, s.db.rows)));
  }

  lemma CheckedSchema(hash: Hash, replica: Db, s: State)
    ensures Checked(replica, SchemaStage(hash, s, Sent).log)
         == if Checked(replica, s.log).Some? && hash(s.db.schema) != s.lastHash then Some(s.db)
            else Checked(replica, s.log)
  {
    CheckedSnoc(replica, s.log, Snapshot(SchemaChange, s.sequence, s.db, true));
  }

  lemma CheckedStopped(replica: Db, s: State, a: PushAnswers)
    requires Checked(replica, s.log).None?
    ensures Checked(replica, DeliverStage(s, a).log).None?
  {
    CheckedSnoc(replica, s.log, Changeset(s.sequence, Diff(s.base, s.db.rows), a.changesetSent));
    var s1 := ExtractStage(s, a.changesetSent);
    CheckedSnoc(replica, s1.log, Snapshot(Interval, s1.sequence, s1.db, a.intervalSnapshot.Sent?));
  }

  /** The part of a push after the schema check, on a replica that is at the session's start or at the snapshot. */
  lemma CheckedTail(replica: Db, s: State, a: PushAnswers, announced: bool)
    requires Clean(Push(a))
    requires Checked(replica, s.log).Some? ==>
               Checked(replica, s.log).value.rows == if announced then s.db.rows else s.base
    ensures var r := Checked(replica, DeliverStage(s, a).log);
            && (r.Some? <==> Checked(replica, s.log).Some? && (announced ==> Keeps(s.base, s.db.rows)))
            && (r.Some? ==> r.value.rows == s.db.rows)
  {
    if Checked(replica, s.log).Some? {
      CheckedDeliver(replica, s, a, Checked(replica, s.log).value);
    } else {
      CheckedStopped(replica, s, a);
    }
  }

  lemma CheckedPush(hash: Hash, replica: Db, s: State, a: PushAnswers)
    requires Clean(Push(a))
    requires Checked(replica, s.log).Some? ==> Checked(replica, s.log).value.rows == s.base == s.last.rows
    ensures var s' := PushStep(hash, s, a);
            var r := Checked(replica, s'.log);
            && (r.Some? <==> Checked(replica, s.log).Some? && SafePush(hash, s, Push(a)))
            && (r.Some? ==> r.value.rows == s'.last.rows)
  {
    if s.hasChanges && s.txn.None? {
      var s1 := SchemaStage(hash, s, Sent);
      CheckedSchema(hash, replica, s);
      var s2 := s1.(hasChanges := false, last := s1.db);
      assert s2.base == s.base && s2.db == s.db by { SchemaTracks(hash, replica, s, Sent); }
      CheckedTail(replica, s2, a, hash(s.db.schema) != s.lastHash);
      assert DeliverStage(s2, a).last == s.db by { DeliverEffect(replica, s2, a); }
      assert PushStep(hash, s, a) == DeliverStage(s2, a);
    }
  }

  lemma CheckedNext(hash: Hash, replica: Db, s: State, step: Step)
    requires Clean(step)
    requires Checked(replica, s.log).Some? ==> Checked(replica, s.log).value.rows == s.base == s.last.rows
    ensures var s' := Next(hash, s, step);
            var r := Checked(replica, s'.log);
            && (r.Some? <==> Checked(replica, s.log).Some? && SafePush(hash, s, step))
            && (r.Some? ==> r.value.rows == s'.last.rows)
  {
    hide PushStep, Checked;
    match step
    case Push(a) => CheckedPush(hash, replica, s, a);
    case ManualSnapshot(_) => CheckedSnoc(replica, s.log, Snapshot(Manual, s.sequence, s.db, true));
    case _ =>
  }

  lemma SafeRunSnoc(hash: Hash, s: State, steps: seq<Step>)
    requires steps != []
    ensures var n := |steps| - 1;
            SafeRun(hash, s, steps)
            <==> SafeRun(hash, s, steps[..n]) && SafePush(hash, Run(hash, s, steps[..n]), steps[n])
  {
    var n := |steps| - 1;
    assert forall i :: 0 <= i <= n ==> steps[..n][..i] == steps[..i];
  }

  /**
   With the validator's checks in place, the stream of a clean run is accepted to the end exactly
   when no push that announced a schema change also carried an UPDATE or a DELETE; and then the
   validator's rows are those of the source at the last extraction.  Otherwise the changeset that
   follows the schema-change snapshot meets rows the snapshot already holds, and is aborted.
   */
  lemma {:induction false} CheckedReplayExact(hash: Hash, db: Db, interval: nat, steps: seq<Step>)
    requires forall i :: 0 <= i < |steps| ==> Clean(steps[i])
    ensures var s := Run(hash, Attach(hash, db, interval), steps);
            var r := Checked(db, s.log);
            && (r.Some? <==> SafeRun(hash, Attach(hash, db, interval), steps))
            && (r.Some? ==> r.value.rows == s.last.rows)
  {
    if steps != [] {
      hide SafeRun, SafePush, Checked, Next, Attach;
      var n := |steps| - 1;
      var s0 := Attach(hash, db, interval);
      var s := Run(hash, s0, steps[..n]);
      CheckedReplayExact(hash, db, interval, steps[..n]);
      CleanRunTracks(hash, db, s0, steps[..n]);
      SafeRunSnoc(hash, s0, steps);
      CheckedNext(hash, db, s, steps[n]);
    }
  }

  /** The shortest instance: a schema change and an UPDATE in one push stop the validator. */
  lemma AnnouncedUpdateAborts(hash: Hash, schema: Schema, interval: nat)
    requires hash(schema) != hash([])
    ensures var before, after := map[Key("t", 1) := ["x"]], map[Key("t", 1) := ["y"]];
            var clean := PushAnswers(Sent, true, true, Sent, true);
            var s := Run(hash, Attach(hash, Db([], before), interval), [Ddl(schema), Write(after), Push(clean)]);
            Checked(Db([], before), s.log).None?
  {
    var before, after := map[Key("t", 1) := ["x"]], map[Key("t", 1) := ["y"]];
    var clean := PushAnswers(Sent, true, true, Sent, true);
    var steps := [Ddl(schema), Write(after), Push(clean)];
    var s0 := Attach(hash, Db([], before), interval);
    var s2 := s0.(db := Db(schema, after), hasChanges := true);
    assert Run(hash, s0, steps) == PushStep(hash, s2, clean) by {
      hide PushStep;
      assert steps[..2] == [Ddl(schema), Write(after)] && steps[..2][..1] == [Ddl(schema)];
      assert Run(hash, s0, [Ddl(schema)]) == s0.(db := Db(schema, before));
      assert Run(hash, s0, steps[..2]) == s2;
    }
    hide PushStep, Run;
    assert !Keeps(before, after) by {
      assert Key("t", 1) in before && Get(after, Key("t", 1)) == Some(["y"]) && ["x"][0] != ["y"][0];
    }
    CheckedPush(hash, Db([], before), s2, clean);
  }
}
