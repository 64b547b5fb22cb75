/**
 Change capture in the client (crates/synddb-client/src/session.rs).

 `State` is what `SessionState` holds, together with the database it watches, the log of
 everything a push or a snapshot produced, and the database as of the last extraction.  The
 schema hash is an arbitrary function `hash`; the answers of SQLite and of the channels are
 part of the step, so a claim over all steps is a claim over all their outcomes.
 */
module Session {
  import opened Sequences
  import opened Database

  type Hash = Schema -> nat

  datatype SnapshotKind = SchemaChange | Interval | Manual

  /** `sent` is false when the channel refused the item. */
  datatype Item =
    | Changeset(seqno: nat, changes: Changes, sent: bool)
    | Snapshot(kind: SnapshotKind, seqno: nat, db: Db, sent: bool)

  datatype State = State(
    db: Db,
    txn: Option<Db>,        // the database to return to on rollback
    base: Rows,             // the rows when the current session was created
    sequence: nat,
    interval: nat,
    sinceSnapshot: nat,
    hasChanges: bool,
    lastHash: nat,
    log: seq<Item>,
    last: Db)               // the database at the last extraction

  datatype SnapshotAnswer = CreateFailed | Refused | Sent

  datatype PushAnswers = PushAnswers(
    schemaSnapshot: SnapshotAnswer,
    extracted: bool,
    changesetSent: bool,
    intervalSnapshot: SnapshotAnswer,
    recreated: bool)

  datatype Step =
    | Write(rows: Rows)          // any statement that touches rows: the update hook fires
    | Ddl(schema: Schema)        // DDL that leaves the rows alone: no hook fires
    | Begin
    | Commit
    | Rollback
    | Push(answers: PushAnswers)
    | ManualSnapshot(created: bool)

  function Attach(hash: Hash, db: Db, interval: nat): State {
    State(db, None, db.rows, 0, interval, 0, false, hash(db.schema), [], db)
  }

  // ---------------------------------------------------------------- transitions

  function LogSnapshot(s: State, kind: SnapshotKind, sent: bool): State {
    s.(log := s.log + [Snapshot(kind, s.sequence, s.db, sent)])
  }

  /** A changed schema is announced by a snapshot, which takes a number of its own once sent. */
  function SchemaStage(hash: Hash, s: State, answer: SnapshotAnswer): State {
    var h := hash(s.db.schema);
    if h == s.lastHash then s
    else
      match answer
      case CreateFailed => s.(lastHash := h)
      case Refused => LogSnapshot(s, SchemaChange, false).(lastHash := h)
      case Sent =>
        LogSnapshot(s, SchemaChange, true).(lastHash := h, sequence := s.sequence + 1, sinceSnapshot := 0)
  }

  function ExtractStage(s: State, sent: bool): State {
    s.(log := s.log + [Changeset(s.sequence, Diff(s.base, s.db.rows), sent)],
       sequence := s.sequence + 1,
       sinceSnapshot := s.sinceSnapshot + 1)
  }

  function IntervalStage(s: State, answer: SnapshotAnswer): State {
    if s.sinceSnapshot < s.interval || answer.CreateFailed? then s
    else if answer.Refused? then LogSnapshot(s, Interval, false)
    else LogSnapshot(s, Interval, true).(sinceSnapshot := 0)
  }

  /** The net changes go out under the next number; then a fresh session takes over. */
  function DeliverStage(s: State, a: PushAnswers): State {
    if Diff(s.base, s.db.rows) == map[] then s
    else
      var s' := IntervalStage(ExtractStage(s, a.changesetSent), a.intervalSnapshot);
      if a.recreated then s'.(base := s'.db.rows) else s'
  }

  function PushStep(hash: Hash, s: State, a: PushAnswers): State {
    if !s.hasChanges || s.txn.Some? then s
    else
      var s' := SchemaStage(hash, s, a.schemaSnapshot);
      if !a.extracted then s'
      else DeliverStage(s'.(hasChanges := false, last := s'.db), a)
  }

  function Next(hash: Hash, s: State, step: Step): State {
    match step
    case Write(rows) => s.(db := Db(s.db.schema, rows), hasChanges := true)
    case Ddl(schema) => s.(db := Db(schema, s.db.rows))
    case Begin => if s.txn.None? then s.(txn := Some(s.db)) else s
    case Commit => s.(txn := None)
    case Rollback => if s.txn.Some? then s.(db := s.txn.value, txn := None) else s
    case Push(answers) => PushStep(hash, s, answers)
    case ManualSnapshot(created) =>
      if s.txn.None? && created then LogSnapshot(s, Manual, true) else s
  }

  function Run(hash: Hash, s: State, steps: seq<Step>): State {
    if steps == [] then s
    else Next(hash, Run(hash, s, steps[..|steps| - 1]), steps[|steps| - 1])
  }

  lemma {:induction false} RunConcat(hash: Hash, s: State, a: seq<Step>, b: seq<Step>)
    ensures Run(hash, s, a + b) == Run(hash, Run(hash, s, a), b)
  {
    hide Next;
    if b == [] {
      assert a + b == a;
    } else {
      var n := |b| - 1;
      RunConcat(hash, s, a, b[..n]);
      assert (a + b)[..|a| + n] == a + b[..n] && (a + b)[|a| + n] == b[n];
    }
  }

  // ---------------------------------------------------------------- numbering

  /** A snapshot sent from inside a push, the only kind that resets the counter. */
  predicate PushSnapshot(item: Item) {
    item.Snapshot? && !item.kind.Manual? && item.sent
  }

  /** Changesets, sent or refused, and sent schema-change snapshots each take a number. */
  predicate TakesNumber(item: Item) {
    item.Changeset? || (item.kind.SchemaChange? && item.sent)
  }

  function NumbersTaken(log: seq<Item>): (numbers: seq<nat>) {
    if log == [] then []
    else
      var item := log[|log| - 1];
      NumbersTaken(log[..|log| - 1]) + if TakesNumber(item) then [item.seqno] else []
  }

  /** Changesets extracted since the last snapshot that a push sent. */
  function SinceSnapshot(log: seq<Item>): (count: nat) {
    if log == [] then 0
    else
      var item := log[|log| - 1];
      if PushSnapshot(item) then 0
      else SinceSnapshot(log[..|log| - 1]) + if item.Changeset? then 1 else 0
  }

  /** Every snapshot cuts the changesets into those numbered below it and those from it on. */
  ghost predicate Separates(log: seq<Item>) {
    forall i, j :: 0 <= i < |log| && 0 <= j < |log| && log[i].Snapshot? && log[j].Changeset? ==>
      (j < i <==> log[j].seqno < log[i].seqno)
  }

  /** Changesets leave in the order of their numbers. */
  ghost predicate Ascending(log: seq<Item>) {
    forall i, j :: 0 <= i < j < |log| && log[i].Changeset? && log[j].Changeset? ==> log[i].seqno < log[j].seqno
  }

  ghost predicate BelowSequence(log: seq<Item>, sequence: nat) {
    forall i :: 0 <= i < |log| ==>
      log[i].seqno <= sequence && (log[i].Changeset? ==> log[i].seqno < sequence)
  }

  ghost predicate Numbered(log: seq<Item>, sequence: nat, sinceSnapshot: nat) {
    && NumbersTaken(log) == Range(0, sequence)
    && SinceSnapshot(log) == sinceSnapshot
    && Separates(log)
    && Ascending(log)
    && BelowSequence(log, sequence)
  }

  ghost predicate NumberedState(s: State) {
    Numbered(s.log, s.sequence, s.sinceSnapshot)
  }

  lemma AppendOrdered(log: seq<Item>, sequence: nat, item: Item)
    requires Separates(log) && Ascending(log) && BelowSequence(log, sequence) && item.seqno == sequence
    ensures Separates(log + [item]) && Ascending(log + [item])
    ensures BelowSequence(log + [item], if TakesNumber(item) then sequence + 1 else sequence)
  {
  }

  lemma AppendCounted(log: seq<Item>, item: Item)
    ensures NumbersTaken(log + [item]) == NumbersTaken(log) + if TakesNumber(item) then [item.seqno] else []
    ensures SinceSnapshot(log + [item])
         == if PushSnapshot(item) then 0 else SinceSnapshot(log) + if item.Changeset? then 1 else 0
  {
    assert (log + [item])[..|log|] == log;
  }

  /** One more item, numbered with the current sequence, keeps the numbering. */
  lemma AppendItem(log: seq<Item>, sequence: nat, sinceSnapshot: nat, item: Item)
    requires Numbered(log, sequence, sinceSnapshot)
    requires item.seqno == sequence
    ensures Numbered(log + [item],
                     if TakesNumber(item) then sequence + 1 else sequence,
                     if PushSnapshot(item) then 0 else if item.Changeset? then sinceSnapshot + 1 else sinceSnapshot)
  {
    hide Separates, Ascending, BelowSequence, NumbersTaken, SinceSnapshot;
    AppendOrdered(log, sequence, item);
    AppendCounted(log, item);
    RangeSnoc(0, sequence);
  }

  lemma SchemaNumbered(hash: Hash, s: State, answer: SnapshotAnswer)
    requires NumberedState(s)
    ensures NumberedState(SchemaStage(hash, s, answer))
  {
    if !answer.CreateFailed? {
      AppendItem(s.log, s.sequence, s.sinceSnapshot, Snapshot(SchemaChange, s.sequence, s.db, answer.Sent?));
    }
  }

  lemma ExtractNumbered(s: State, sent: bool)
    requires NumberedState(s)
    ensures NumberedState(ExtractStage(s, sent))
  {
    AppendItem(s.log, s.sequence, s.sinceSnapshot, Changeset(s.sequence, Diff(s.base, s.db.rows), sent));
  }

  lemma IntervalNumbered(s: State, answer: SnapshotAnswer)
    requires NumberedState(s)
    ensures NumberedState(IntervalStage(s, answer))
  {
    if !answer.CreateFailed? {
      AppendItem(s.log, s.sequence, s.sinceSnapshot, Snapshot(Interval, s.sequence, s.db, answer.Sent?));
    }
  }

  lemma DeliverNumbered(s: State, a: PushAnswers)
    requires NumberedState(s)
    ensures NumberedState(DeliverStage(s, a))
  {
    ExtractNumbered(s, a.changesetSent);
    IntervalNumbered(ExtractStage(s, a.changesetSent), a.intervalSnapshot);
  }

  lemma PushNumbered(hash: Hash, s: State, a: PushAnswers)
    requires NumberedState(s)
    ensures NumberedState(PushStep(hash, s, a))
  {
    var s' := SchemaStage(hash, s, a.schemaSnapshot);
    SchemaNumbered(hash, s, a.schemaSnapshot);
    DeliverNumbered(s'.(hasChanges := false, last := s'.db), a);
  }

  lemma NextNumbered(hash: Hash, s: State, step: Step)
    requires NumberedState(s)
    ensures NumberedState(Next(hash, s, step))
  {
    hide PushStep, Numbered;
    match step
    case Push(a) => PushNumbered(hash, s, a);
    case ManualSnapshot(_) =>
      AppendItem(s.log, s.sequence, s.sinceSnapshot, Snapshot(Manual, s.sequence, s.db, true));
    case _ =>
  }

  /**
   In every run, whatever fails or is refused: the numbers 0 .. sequence-1 are taken in order,
   each by exactly one extracted changeset or sent schema-change snapshot; every snapshot,
   manual ones included, separates the changesets before it from those after it by number;
   and the counter is the number of changesets extracted since the last snapshot sent by a push.
   */
  lemma {:induction false} RunNumbered(hash: Hash, db: Db, interval: nat, steps: seq<Step>)
    ensures NumberedState(Run(hash, Attach(hash, db, interval), steps))
  {
    if steps == [] {
      assert NumbersTaken([]) == [] == Range(0, 0);
    } else {
      hide NumberedState, Next;
      var n := |steps| - 1;
      RunNumbered(hash, db, interval, steps[..n]);
      NextNumbered(hash, Run(hash, Attach(hash, db, interval), steps[..n]), steps[n]);
    }
  }

  /** Pushing again right after an extraction changes nothing and emits nothing. */
  lemma PushIdempotent(hash: Hash, s: State, a: PushAnswers, again: PushAnswers)
    requires a.extracted
    ensures PushStep(hash, PushStep(hash, s, a), again) == PushStep(hash, s, a)
  {
    if s.hasChanges && s.txn.None? {
      assert !PushStep(hash, s, a).hasChanges;
    }
  }

  // ---------------------------------------------------------------- the flag and transactions

  /** Without the flag nothing is pending, neither in the database nor behind a rollback. */
  predicate FlagTells(s: State) {
    !s.hasChanges ==> s.db.rows == s.last.rows && (s.txn.Some? ==> s.txn.value.rows == s.last.rows)
  }

  /** What a delivery leaves alone, and that it only adds to the log, no announcement among what it adds. */
  ghost predicate Extends(s: State, s': State) {
    && s'.db == s.db && s'.txn == s.txn && s'.interval == s.interval
    && s'.hasChanges == s.hasChanges && s'.lastHash == s.lastHash && s'.last == s.last
    && s.log <= s'.log && NoSchemaItem(s'.log, |s.log|)
  }

  ghost predicate NoSchemaItem(log: seq<Item>, from: nat) {
    forall i :: from <= i < |log| ==> !(log[i].Snapshot? && log[i].kind.SchemaChange?)
  }

  lemma ExtractExtends(s: State, sent: bool)
    ensures Extends(s, ExtractStage(s, sent))
  {
    hide Diff;
  }

  lemma IntervalExtends(s: State, answer: SnapshotAnswer)
    ensures Extends(s, IntervalStage(s, answer))
  {
  }

  lemma ExtendsOn(a: State, b: State, c: State)
    requires Extends(a, b) && Extends(b, c)
    ensures Extends(a, c)
  {
    forall i | |a.log| <= i < |c.log| ensures !(c.log[i].Snapshot? && c.log[i].kind.SchemaChange?) {
      if i < |b.log| {
        assert c.log[i] == b.log[i];
      }
    }
  }

  lemma DeliverExtends(s: State, a: PushAnswers)
    ensures Extends(s, DeliverStage(s, a))
  {
    hide Diff, ExtractStage, IntervalStage;
    var s1 := ExtractStage(s, a.changesetSent);
    ExtractExtends(s, a.changesetSent);
    IntervalExtends(s1, a.intervalSnapshot);
    ExtendsOn(s, s1, IntervalStage(s1, a.intervalSnapshot));
  }

  lemma PushFrame(hash: Hash, s: State, a: PushAnswers)
    ensures var s' := PushStep(hash, s, a);
            && s'.db == s.db && s'.txn == s.txn && s'.interval == s.interval
            && (s'.hasChanges != s.hasChanges || s'.last != s.last ==>
                  s.txn.None? && a.extracted && s'.last == s.db && !s'.hasChanges)
  {
    hide DeliverStage;
    var s1 := SchemaStage(hash, s, a.schemaSnapshot);
    DeliverExtends(s1.(hasChanges := false, last := s1.db), a);
  }

  /** In every run, whatever fails: the next push returns at the flag only if there is nothing to extract. */
  lemma {:induction false} RunFlagTells(hash: Hash, db: Db, interval: nat, steps: seq<Step>)
    ensures FlagTells(Run(hash, Attach(hash, db, interval), steps))
  {
    if steps != [] {
      hide PushStep;
      var n := |steps| - 1;
      RunFlagTells(hash, db, interval, steps[..n]);
      if steps[n].Push? {
        PushFrame(hash, Run(hash, Attach(hash, db, interval), steps[..n]), steps[n].answers);
      }
    }
  }

  predicate EndsTransaction(step: Step) {
    step.Commit? || step.Rollback?
  }

  /** `t` is `s` with a transaction open in which statements have made the database `db`. */
  predicate Inside(s: State, t: State, db: Db) {
    t == s.(db := db, hasChanges := t.hasChanges, txn := Some(s.db))
  }

  lemma InsideNext(hash: Hash, s: State, t: State, u: State, step: Step)
    requires Inside(s, t, u.db) && !EndsTransaction(step)
    ensures Inside(s, Next(hash, t, step), Next(hash, u, step).db)
  {
    hide PushStep;
    if step.Push? {
      PushInTransaction(hash, t, step.answers);
      PushFrame(hash, u, step.answers);
    }
  }

  /**
   While a transaction is open nothing leaves: pushes and snapshots in it change neither the log nor the
   session, and the statements have the effect they have outside of one.
   */
  lemma {:induction false} OpenTransaction(hash: Hash, s: State, steps: seq<Step>)
    requires s.txn.None? && forall i :: 0 <= i < |steps| ==> !EndsTransaction(steps[i])
    ensures Inside(s, Run(hash, Next(hash, s, Begin), steps), Run(hash, s, steps).db)
  {
    if steps != [] {
      hide Next, Inside;
      var n := |steps| - 1;
      OpenTransaction(hash, s, steps[..n]);
      InsideNext(hash, s, Run(hash, Next(hash, s, Begin), steps[..n]), Run(hash, s, steps[..n]), steps[n]);
    }
  }

  lemma PushInTransaction(hash: Hash, s: State, a: PushAnswers)
    requires s.txn.Some?
    ensures PushStep(hash, s, a) == s
  {
  }

  /** A transaction rolled back leaves the database as it was, a committed one as its statements made it. */
  lemma TransactionEnds(hash: Hash, s: State, steps: seq<Step>)
    requires s.txn.None? && forall i :: 0 <= i < |steps| ==> !EndsTransaction(steps[i])
    ensures var s' := Run(hash, Next(hash, s, Begin), steps);
            && Next(hash, s', Rollback) == s.(hasChanges := s'.hasChanges)
            && Next(hash, s', Commit) == s.(db := Run(hash, s, steps).db, hasChanges := s'.hasChanges)
  {
    OpenTransaction(hash, s, steps);
  }

  // ---------------------------------------------------------------- why snapshots are taken

  /** An interval snapshot is only ever taken when `interval` changesets have gone by. */
  ghost predicate IntervalsDue(log: seq<Item>, interval: nat) {
    forall i :: 0 <= i < |log| && log[i].Snapshot? && log[i].kind.Interval? ==> SinceSnapshot(log[..i]) >= interval
  }

  lemma IntervalsDueSnoc(log: seq<Item>, item: Item, interval: nat)
    requires IntervalsDue(log, interval)
    requires item.Snapshot? && item.kind.Interval? ==> SinceSnapshot(log) >= interval
    ensures IntervalsDue(log + [item], interval)
  {
    var log' := log + [item];
    forall i | 0 <= i < |log'| && log'[i].Snapshot? && log'[i].kind.Interval?
      ensures SinceSnapshot(log'[..i]) >= interval
    {
      assert log'[..i] == log[..i];
      assert log[..|log|] == log;
    }
  }

  lemma PushIntervalsDue(hash: Hash, s: State, a: PushAnswers)
    requires NumberedState(s) && IntervalsDue(s.log, s.interval)
    ensures IntervalsDue(PushStep(hash, s, a).log, s.interval)
  {
    hide Diff, IntervalsDue, SinceSnapshot, NumbersTaken, Separates, Ascending, BelowSequence;
    var s1 := SchemaStage(hash, s, a.schemaSnapshot);
    SchemaNumbered(hash, s, a.schemaSnapshot);
    IntervalsDueSnoc(s.log, Snapshot(SchemaChange, s.sequence, s.db, a.schemaSnapshot.Sent?), s.interval);
    var s2 := s1.(hasChanges := false, last := s1.db);
    ExtractNumbered(s2, a.changesetSent);
    var s3 := ExtractStage(s2, a.changesetSent);
    IntervalsDueSnoc(s2.log, Changeset(s2.sequence, Diff(s2.base, s2.db.rows), a.changesetSent), s.interval);
    if s3.sinceSnapshot >= s3.interval {
      IntervalsDueSnoc(s3.log, Snapshot(Interval, s3.sequence, s3.db, a.intervalSnapshot.Sent?), s.interval);
    }
  }

  /** In every run, whatever fails, no interval snapshot is created early. */
  lemma {:induction false} RunIntervalsDue(hash: Hash, db: Db, interval: nat, steps: seq<Step>)
    ensures var s := Run(hash, Attach(hash, db, interval), steps);
            s.interval == interval && IntervalsDue(s.log, interval)
  {
    if steps != [] {
      hide PushStep, IntervalsDue, NumberedState;
      var n := |steps| - 1;
      RunIntervalsDue(hash, db, interval, steps[..n]);
      RunNumbered(hash, db, interval, steps[..n]);
      var s := Run(hash, Attach(hash, db, interval), steps[..n]);
      match steps[n]
      case Push(a) =>
        PushIntervalsDue(hash, s, a);
        PushFrame(hash, s, a);
      case ManualSnapshot(_) => IntervalsDueSnoc(s.log, Snapshot(Manual, s.sequence, s.db, true), interval);
      case _ =>
    }
  }

  /** The schema in force, and the one a rollback would bring back, have the hash last seen. */
  predicate SchemaSeen(hash: Hash, s: State) {
    hash(s.db.schema) == s.lastHash && (s.txn.Some? ==> hash(s.txn.value.schema) == s.lastHash)
  }

  /**
   A push that gets past its guards has seen the schema, whatever became of the snapshot that was to
   announce it: until the schema changes again no push announces it, so a failed or refused
   announcement is not repeated.
   */
  lemma {:induction false} AnnouncedOnce(hash: Hash, s: State, a: PushAnswers, steps: seq<Step>)
    requires s.hasChanges && s.txn.None? && forall i :: 0 <= i < |steps| ==> !steps[i].Ddl?
    ensures var s1 := PushStep(hash, s, a);
            var s' := Run(hash, s1, steps);
            SchemaSeen(hash, s') && s1.log <= s'.log && NoSchemaItem(s'.log, |s1.log|)
  {
    if steps == [] {
      PushSees(hash, s, a);
    } else {
      hide PushStep, SchemaSeen, NoSchemaItem, Next;
      var n := |steps| - 1;
      AnnouncedOnce(hash, s, a, steps[..n]);
      var s' := Run(hash, PushStep(hash, s, a), steps[..n]);
      SeenStays(hash, s', steps[n]);
      ItemsApart(PushStep(hash, s, a).log, s'.log, Next(hash, s', steps[n]).log);
    }
  }

  lemma PushSees(hash: Hash, s: State, a: PushAnswers)
    requires s.hasChanges && s.txn.None?
    ensures SchemaSeen(hash, PushStep(hash, s, a))
  {
    hide DeliverStage;
    var s1 := SchemaStage(hash, s, a.schemaSnapshot);
    DeliverExtends(s1.(hasChanges := false, last := s1.db), a);
  }

  lemma SeenStays(hash: Hash, s: State, step: Step)
    requires SchemaSeen(hash, s) && !step.Ddl?
    ensures var s' := Next(hash, s, step);
            SchemaSeen(hash, s') && s.log <= s'.log && NoSchemaItem(s'.log, |s.log|)
  {
    hide DeliverStage;
    if step.Push? {
      DeliverExtends(s.(hasChanges := false, last := s.db), step.answers);
    }
  }

  lemma ItemsApart(a: seq<Item>, b: seq<Item>, c: seq<Item>)
    requires a <= b <= c && NoSchemaItem(b, |a|) && NoSchemaItem(c, |b|)
    ensures a <= c && NoSchemaItem(c, |a|)
  {
    assert forall i :: 0 <= i < |b| ==> c[i] == b[i];
  }

  /**
   DDL alone is not announced: with nothing else pending a push returns at the flag.  It takes a statement
   that touches rows, even one that leaves them as they are; then a clean push sends the new schema.
   */
  lemma DdlWaitsForRows(hash: Hash, s: State, schema: Schema, a: PushAnswers)
    requires s.txn.None? && !s.hasChanges && hash(schema) != s.lastHash && a.schemaSnapshot.Sent?
    ensures var s1 := Next(hash, s, Ddl(schema));
            && PushStep(hash, s1, a) == s1
            && var s2 := PushStep(hash, Next(hash, s1, Write(s.db.rows)), a);
               && s.log + [Snapshot(SchemaChange, s.sequence, Db(schema, s.db.rows), true)] <= s2.log
               && s2.lastHash == hash(schema)
  {
    hide DeliverStage;
    var s1 := SchemaStage(hash, Next(hash, Next(hash, s, Ddl(schema)), Write(s.db.rows)), a.schemaSnapshot);
    DeliverExtends(s1.(hasChanges := false, last := s1.db), a);
  }

  /** Without a statement that touches rows, and without a manual snapshot, nothing is ever emitted. */
  lemma {:induction false} QuietWithoutRows(hash: Hash, db: Db, interval: nat, steps: seq<Step>)
    requires forall i :: 0 <= i < |steps| ==> !steps[i].Write? && !steps[i].ManualSnapshot?
    ensures var s := Run(hash, Attach(hash, db, interval), steps);
            s.log == [] && s.sequence == 0 && !s.hasChanges && s.db.rows == db.rows
  {
    RunFlagTells(hash, db, interval, steps);
    if steps != [] {
      QuietWithoutRows(hash, db, interval, steps[..|steps| - 1]);
      RunFlagTells(hash, db, interval, steps[..|steps| - 1]);
    }
  }

  // ---------------------------------------------------------------- snapshot spacing

  predicate SnapshotsSent(step: Step) {
    step.Push? ==> step.answers.schemaSnapshot.Sent? && step.answers.intervalSnapshot.Sent?
  }

  /** At no point of the log have more than `interval` changesets gone by without a snapshot. */
  ghost predicate Spaced(log: seq<Item>, interval: nat) {
    forall i :: 0 <= i <= |log| ==> SinceSnapshot(log[..i]) <= interval
  }

  lemma SpacedSnoc(log: seq<Item>, item: Item, interval: nat)
    requires Spaced(log, interval)
    requires SinceSnapshot(log + [item]) <= interval
    ensures Spaced(log + [item], interval)
  {
    forall i | 0 <= i <= |log| + 1 ensures SinceSnapshot((log + [item])[..i]) <= interval {
      if i <= |log| {
        assert (log + [item])[..i] == log[..i];
      } else {
        assert (log + [item])[..i] == log + [item];
      }
    }
  }

  ghost predicate SpacedState(s: State) {
    NumberedState(s) && s.sinceSnapshot <= s.interval && Spaced(s.log, s.interval)
  }

  lemma SchemaSpaced(hash: Hash, s: State)
    requires SpacedState(s)
    ensures SpacedState(SchemaStage(hash, s, Sent))
  {
    SchemaNumbered(hash, s, Sent);
    if hash(s.db.schema) != s.lastHash {
      SpacedSnoc(s.log, Snapshot(SchemaChange, s.sequence, s.db, true), s.interval);
    }
  }

  lemma ExtractSpaced(s: State, sent: bool)
    requires SpacedState(s) && s.sinceSnapshot < s.interval
    ensures SpacedState(ExtractStage(s, sent))
  {
    ExtractNumbered(s, sent);
    SpacedSnoc(s.log, Changeset(s.sequence, Diff(s.base, s.db.rows), sent), s.interval);
  }

  lemma IntervalSpaced(s: State)
    requires SpacedState(s) && s.interval > 0
    ensures SpacedState(IntervalStage(s, Sent)) && IntervalStage(s, Sent).sinceSnapshot < s.interval
  {
    IntervalNumbered(s, Sent);
    if s.sinceSnapshot >= s.interval {
      SpacedSnoc(s.log, Snapshot(Interval, s.sequence, s.db, true), s.interval);
    }
  }

  lemma DeliverSpaced(s: State, a: PushAnswers)
    requires SpacedState(s) && s.sinceSnapshot < s.interval && a.intervalSnapshot.Sent?
    ensures var s' := DeliverStage(s, a);
            SpacedState(s') && s'.sinceSnapshot < s'.interval == s.interval
  {
    if Diff(s.base, s.db.rows) != map[] {
      ExtractSpaced(s, a.changesetSent);
      IntervalSpaced(ExtractStage(s, a.changesetSent));
    }
  }

  lemma PushSpaced(hash: Hash, s: State, a: PushAnswers)
    requires SpacedState(s) && s.sinceSnapshot < s.interval && SnapshotsSent(Push(a))
    ensures var s' := PushStep(hash, s, a);
            SpacedState(s') && s'.sinceSnapshot < s'.interval == s.interval
  {
    hide Numbered, Spaced, DeliverStage;
    var s' := SchemaStage(hash, s, Sent);
    SchemaSpaced(hash, s);
    DeliverSpaced(s'.(hasChanges := false, last := s'.db), a);
  }

  /**
   With a positive interval, as `validate_config` demands, and no snapshot failed or refused,
   the counter is below the interval between steps and no more than `interval` changesets ever
   follow one another without a snapshot.
   */
  lemma {:induction false} RunSpaced(hash: Hash, db: Db, interval: nat, steps: seq<Step>)
    requires interval > 0
    requires forall i :: 0 <= i < |steps| ==> SnapshotsSent(steps[i])
    ensures var s := Run(hash, Attach(hash, db, interval), steps);
            s.sinceSnapshot < s.interval == interval && SpacedState(s)
  {
    if steps != [] {
      var n := |steps| - 1;
      RunSpaced(hash, db, interval, steps[..n]);
      var s := Run(hash, Attach(hash, db, interval), steps[..n]);
      match steps[n]
      case Push(a) => PushSpaced(hash, s, a);
      case ManualSnapshot(_) =>
        var item := Snapshot(Manual, s.sequence, s.db, true);
        AppendItem(s.log, s.sequence, s.sinceSnapshot, item);
        SpacedSnoc(s.log, item, interval);
      case _ =>
    }
  }

  // ---------------------------------------------------------------- the monitor itself

  /** `SessionMonitor` with its thread-local `SessionState`, updated field by field. */
  class SessionMonitor {
    const hash: Hash
    const interval: nat
    var db: Db
    var txn: Option<Db>
    var base: Rows
    var sequence: nat
    var sinceSnapshot: nat
    var hasChanges: bool
    var lastHash: nat
    ghost var log: seq<Item>
    ghost var last: Db

    ghost function Value(): State
      reads this
    {
      State(db, txn, base, sequence, interval, sinceSnapshot, hasChanges, lastHash, log, last)
    }

    constructor (hash: Hash, db: Db, interval: nat)
      ensures this.hash == hash && Value() == Attach(hash, db, interval)
    {
      this.hash, this.interval := hash, interval;
      this.db, txn, base := db, None, db.rows;
      sequence, sinceSnapshot, hasChanges := 0, 0, false;
      lastHash := hash(db.schema);
      log, last := [], db;
    }

    /** A statement changes rows and SQLite calls the update hook. */
    method Update(rows: Rows)
      modifies this
      ensures Value() == Next(hash, old(Value()), Write(rows))
    {
      db := Db(db.schema, rows);
      if !hasChanges {
        hasChanges := true;
      }
    }

    method CreateSnapshot(kind: SnapshotKind, answer: SnapshotAnswer) returns (sent: bool)
      modifies this`log
      ensures sent == answer.Sent?
      ensures Value() == if answer.CreateFailed? then old(Value()) else LogSnapshot(old(Value()), kind, sent)
    {
      sent := answer.Sent?;
      if !answer.CreateFailed? {
        log := log + [Snapshot(kind, sequence, db, sent)];
      }
    }

    /** First part of `extract_and_send_changeset`: detect and announce a schema change. */
    method AnnounceSchema(answer: SnapshotAnswer)
      modifies this
      ensures Value() == SchemaStage(hash, old(Value()), answer)
    {
      var currentHash := hash(db.schema);
      if currentHash != lastHash {
        var sent := CreateSnapshot(SchemaChange, answer);
        if sent {
          sequence := sequence + 1;
          sinceSnapshot := 0;
        }
        lastHash := currentHash;
      }
    }

    /** The automatic snapshot once enough changesets have gone by. */
    method SnapshotIfDue(answer: SnapshotAnswer)
      modifies this
      ensures Value() == IntervalStage(old(Value()), answer)
    {
      if sinceSnapshot >= interval {
        var sent := CreateSnapshot(Interval, answer);
        if sent {
          sinceSnapshot := 0;
        }
      }
    }

    /** The changes, if any, are numbered and sent, and the session is recreated. */
    method SendChangeset(answers: PushAnswers) returns (ok: bool)
      modifies this
      ensures Value() == DeliverStage(old(Value()), answers)
      ensures !ok ==> !answers.recreated
    {
      var changes := Diff(base, db.rows);
      if changes == map[] {
        return true;
      }
      log := log + [Changeset(sequence, changes, answers.changesetSent)];
      sequence := sequence + 1;
      sinceSnapshot := sinceSnapshot + 1;
      assert Value() == ExtractStage(old(Value()), answers.changesetSent);
      SnapshotIfDue(answers.intervalSnapshot);
      if answers.recreated {
        base := db.rows;
      }
      ok := answers.recreated;
    }

    /** `extract_and_send_changeset`. */
    method PushChanges(answers: PushAnswers) returns (ok: bool)
      modifies this
      ensures Value() == Next(hash, old(Value()), Push(answers))
      ensures !ok ==> old(hasChanges && txn.None?) && !(answers.extracted && answers.recreated)
    {
      if !hasChanges || txn.Some? {
        return true;
      }
      AnnounceSchema(answers.schemaSnapshot);
      if !answers.extracted {
        return false;
      }
      hasChanges := false;
      last := db;
      ok := SendChangeset(answers);
    }

    /** The public `snapshot`: refused while a transaction is open, otherwise leaves the session as it is. */
    method TakeSnapshot(created: bool) returns (taken: bool)
      modifies this`log
      ensures Value() == Next(hash, old(Value()), ManualSnapshot(created))
      ensures taken <==> txn.None? && created
    {
      taken := txn.None? && created;
      if taken {
        var _ := CreateSnapshot(Manual, Sent);
      }
    }
  }
}
