/**
 Restoring by number.  Snapshots and changesets leave the client through two channels, so a receiver
 cannot rely on one ordered stream; what it has is the number of each item.  The rule documented at
 the `Snapshot` type (crates/synddb-client/src/session.rs) is to apply the changesets numbered at
 or above the snapshot, and this module proves it.
 */
module Restore {
  import opened Sequences
  import opened Database
  import opened Session
  import opened Replay

  /** The changesets the receiver of a snapshot numbered `from` has to apply. */
  predicate Due(item: Item, from: nat) {
    item.Changeset? && item.sent && item.seqno >= from
  }

  function From(log: seq<Item>, from: nat): (changesets: seq<Item>)
    ensures forall x :: x in changesets <==> x in log && Due(x, from)
  {
    if log == [] then []
    else
      var rest, item := From(log[..|log| - 1], from), log[|log| - 1];
      assert log == log[..|log| - 1] + [item];
      if Due(item, from) then rest + [item] else rest
  }

  /** Each changeset in turn overwrites the rows it names. */
  function ApplyAll(rows: Rows, changesets: seq<Item>): Rows
    requires forall x :: x in changesets ==> x.Changeset?
  {
    if changesets == [] then rows
    else
      var n := |changesets| - 1;
      Overwrite(ApplyAll(rows, changesets[..n]), changesets[n].changes)
  }

  function Restored(rows: Rows, log: seq<Item>, from: nat): Rows {
    ApplyAll(rows, From(log, from))
  }

  lemma RestoredSnoc(rows: Rows, log: seq<Item>, item: Item, from: nat)
    ensures Restored(rows, log + [item], from)
         == if Due(item, from) then Overwrite(Restored(rows, log, from), item.changes)
            else Restored(rows, log, from)
  {
    hide Overwrite;
    assert (log + [item])[..|log|] == log;
    var due := From(log, from);
    assert (due + [item])[..|due|] == due;
  }

  lemma HasMember(items: seq<Item>)
    requires items != []
    ensures exists x :: x in items
  {
    assert items[0] in items;
  }

  /** Nothing is due from a number that no changeset has reached. */
  lemma NothingDue(rows: Rows, log: seq<Item>, from: nat)
    requires BelowSequence(log, from)
    ensures Restored(rows, log, from) == rows
  {
    assert forall x :: x in log ==> !Due(x, from);
    assert forall x :: x !in From(log, from);
    if From(log, from) != [] {
      HasMember(From(log, from));
    }
  }

  // ---------------------------------------------------------------- every start leads to the same rows

  /** Where restoring can begin: a push snapshot with its number, or the attach-time rows with number 0. */
  ghost predicate Origin(attached: Rows, log: seq<Item>, rows: Rows, from: nat) {
    || (rows == attached && from == 0)
    || exists i :: 0 <= i < |log| && PushSnapshot(log[i]) && rows == log[i].db.rows && from == log[i].seqno
  }

  /** From every origin, restoring ends at `a` or at `b`. */
  ghost predicate LeadsTo(attached: Rows, log: seq<Item>, a: Rows, b: Rows) {
    forall rows, from :: Origin(attached, log, rows, from) ==>
      Restored(rows, log, from) == a || Restored(rows, log, from) == b
  }

  lemma OriginSnoc(attached: Rows, log: seq<Item>, item: Item, rows: Rows, from: nat)
    requires Origin(attached, log + [item], rows, from)
    ensures Origin(attached, log, rows, from)
         || (PushSnapshot(item) && rows == item.db.rows && from == item.seqno)
  {
    var log' := log + [item];
    if !(rows == attached && from == 0) {
      var i :| 0 <= i < |log'| && PushSnapshot(log'[i]) && rows == log'[i].db.rows && from == log'[i].seqno;
      assert i < |log| ==> log'[i] == log[i];
    }
  }

  lemma OriginBelow(attached: Rows, log: seq<Item>, rows: Rows, from: nat, sequence: nat)
    requires Origin(attached, log, rows, from) && BelowSequence(log, sequence)
    ensures from <= sequence
  {
  }

  lemma SnapshotLeads(attached: Rows, log: seq<Item>, item: Item, a: Rows, b: Rows)
    requires LeadsTo(attached, log, a, b) && item.Snapshot? && BelowSequence(log, item.seqno)
    requires PushSnapshot(item) ==> item.db.rows == b
    ensures LeadsTo(attached, log + [item], a, b)
  {
    hide Restored;
    forall rows, from | Origin(attached, log + [item], rows, from)
      ensures Restored(rows, log + [item], from) == a || Restored(rows, log + [item], from) == b
    {
      RestoredSnoc(rows, log, item, from);
      OriginSnoc(attached, log, item, rows, from);
      if !Origin(attached, log, rows, from) {
        NothingDue(rows, log, from);
      }
    }
  }

  /** The net difference takes both of its ends to the second one. */
  lemma ChangesetLeads(attached: Rows, log: seq<Item>, item: Item, a: Rows, b: Rows)
    requires LeadsTo(attached, log, a, b) && item.Changeset? && item.sent && item.changes == Diff(a, b)
    requires BelowSequence(log, item.seqno)
    ensures LeadsTo(attached, log + [item], b, b)
  {
    hide Restored, Overwrite, Diff;
    OverwriteReaches(a, a, b);
    OverwriteReaches(b, a, b);
    forall rows, from | Origin(attached, log + [item], rows, from)
      ensures Restored(rows, log + [item], from) == b
    {
      RestoredSnoc(rows, log, item, from);
      OriginSnoc(attached, log, item, rows, from);
      OriginBelow(attached, log, rows, from, item.seqno);
    }
  }

  // ---------------------------------------------------------------- over a run that delivers

  /** The push extracts, its changeset is sent and the session renewed; its snapshots may fail or be refused. */
  predicate Delivers(step: Step) {
    step.Push? ==> step.answers.extracted && step.answers.changesetSent && step.answers.recreated
  }

  ghost predicate Restorable(attached: Rows, s: State) {
    NumberedState(s) && s.last.rows == s.base && LeadsTo(attached, s.log, s.base, s.base)
  }

  lemma SchemaLeads(hash: Hash, attached: Rows, s: State, answer: SnapshotAnswer)
    requires Restorable(attached, s)
    ensures LeadsTo(attached, SchemaStage(hash, s, answer).log, s.base, s.db.rows)
  {
    if hash(s.db.schema) != s.lastHash {
      SnapshotLeads(attached, s.log, Snapshot(SchemaChange, s.sequence, s.db, answer.Sent?), s.base, s.db.rows);
    }
  }

  lemma DeliverLeads(attached: Rows, s: State, a: PushAnswers)
    requires Delivers(Push(a)) && NumberedState(s) && LeadsTo(attached, s.log, s.base, s.db.rows)
    ensures LeadsTo(attached, DeliverStage(s, a).log, s.db.rows, s.db.rows)
    ensures DeliverStage(s, a).base == s.db.rows && DeliverStage(s, a).last == s.last
  {
    hide LeadsTo;
    EmptyDiff(s.base, s.db.rows);
    if s.base != s.db.rows {
      var s1 := ExtractStage(s, true);
      ExtractNumbered(s, true);
      assert BelowSequence(s.log, s.sequence) && BelowSequence(s1.log, s1.sequence);
      ChangesetLeads(attached, s.log, Changeset(s.sequence, Diff(s.base, s.db.rows), true), s.base, s.db.rows);
      var snapshot := Snapshot(Interval, s1.sequence, s1.db, a.intervalSnapshot.Sent?);
      SnapshotLeads(attached, s1.log, snapshot, s.db.rows, s.db.rows);
    }
  }

  lemma ExtractedNumbered(s: State)
    requires NumberedState(s)
    ensures NumberedState(s.(hasChanges := false, last := s.db))
  {
  }

  lemma PushLeads(hash: Hash, attached: Rows, s: State, a: PushAnswers)
    requires Delivers(Push(a)) && Restorable(attached, s)
    ensures Restorable(attached, PushStep(hash, s, a))
  {
    hide LeadsTo, DeliverStage, SchemaStage, NumberedState;
    PushNumbered(hash, s, a);
    if s.hasChanges && s.txn.None? {
      var s1 := SchemaStage(hash, s, a.schemaSnapshot);
      SchemaLeads(hash, attached, s, a.schemaSnapshot);
      SchemaNumbered(hash, s, a.schemaSnapshot);
      SchemaTracks(hash, s.db, s, a.schemaSnapshot);
      var s2 := s1.(hasChanges := false, last := s1.db);
      assert NumberedState(s2) by { ExtractedNumbered(s1); }
      DeliverLeads(attached, s2, a);
    }
  }

  lemma {:induction false} RunRestorable(hash: Hash, db: Db, interval: nat, steps: seq<Step>)
    requires forall i :: 0 <= i < |steps| ==> Delivers(steps[i])
    ensures Restorable(db.rows, Run(hash, Attach(hash, db, interval), steps))
  {
    if steps != [] {
      hide PushStep, LeadsTo, NumberedState;
      var n := |steps| - 1;
      RunRestorable(hash, db, interval, steps[..n]);
      RunNumbered(hash, db, interval, steps);
      var s := Run(hash, Attach(hash, db, interval), steps[..n]);
      match steps[n]
      case Push(a) => PushLeads(hash, db.rows, s, a);
      case ManualSnapshot(_) => ManualLeads(db.rows, s);
      case _ =>
    }
  }

  lemma ManualLeads(attached: Rows, s: State)
    requires Restorable(attached, s)
    ensures LeadsTo(attached, LogSnapshot(s, Manual, true).log, s.base, s.base)
  {
    SnapshotLeads(attached, s.log, Snapshot(Manual, s.sequence, s.db, true), s.base, s.base);
  }

  // ---------------------------------------------------------------- the receiver's order

  /** Changesets sorted by number, no number twice. */
  ghost predicate ByNumber(changesets: seq<Item>) {
    forall i, j :: 0 <= i < j < |changesets| ==> changesets[i].seqno < changesets[j].seqno
  }

  lemma {:induction false} FromByNumber(log: seq<Item>, from: nat)
    requires Ascending(log)
    ensures ByNumber(From(log, from))
  {
    if log != [] {
      var n := |log| - 1;
      FromByNumber(log[..n], from);
      forall x | x in From(log[..n], from) && log[n].Changeset? ensures x.seqno < log[n].seqno {
        var i :| 0 <= i < n && log[..n][i] == x;
        assert log[i] == x;
      }
    }
  }

  lemma LastApart(a: seq<Item>, x: Item)
    requires ByNumber(a) && a != []
    ensures x in a[..|a| - 1] <==> x in a && x != a[|a| - 1]
  {
    assert a == a[..|a| - 1] + [a[|a| - 1]];
  }

  ghost predicate SameMembers(a: seq<Item>, b: seq<Item>) {
    forall x :: x in a <==> x in b
  }

  lemma SameLast(a: seq<Item>, b: seq<Item>)
    requires ByNumber(a) && ByNumber(b) && SameMembers(a, b)
    requires a != [] && b != []
    ensures a[|a| - 1] == b[|b| - 1]
  {
    var m, n := |a| - 1, |b| - 1;
    assert a[m] in a && b[n] in b;
    var i :| 0 <= i < |b| && b[i] == a[m];
    var j :| 0 <= j < |a| && a[j] == b[n];
    assert i < n ==> b[i].seqno < b[n].seqno;
    assert j < m ==> a[j].seqno < a[m].seqno;
  }

  lemma SameFront(a: seq<Item>, b: seq<Item>)
    requires ByNumber(a) && ByNumber(b) && SameMembers(a, b)
    requires a != [] && b != []
    ensures SameMembers(a[..|a| - 1], b[..|b| - 1])
  {
    SameLast(a, b);
    hide ByNumber;
    var front, front' := a[..|a| - 1], b[..|b| - 1];
    forall x ensures x in front <==> x in front' {
      LastApart(a, x);
      LastApart(b, x);
    }
  }

  lemma SameEmpty(a: seq<Item>, b: seq<Item>)
    requires SameMembers(a, b)
    ensures a == [] <==> b == []
  {
    if a != [] {
      HasMember(a);
    }
    if b != [] {
      HasMember(b);
    }
  }

  /** Sorting by number leaves only one order. */
  lemma {:induction false} OneOrder(a: seq<Item>, b: seq<Item>)
    requires ByNumber(a) && ByNumber(b) && SameMembers(a, b)
    ensures a == b
  {
    SameEmpty(a, b);
    if a != [] {
      var m, n := |a| - 1, |b| - 1;
      SameLast(a, b);
      SameFront(a, b);
      OneOrder(a[..m], b[..n]);
      assert a == a[..m] + [a[m]] && b == b[..n] + [b[n]];
    }
  }

  /** `received` is every changeset sent with a number of at least `from`, sorted by number. */
  ghost predicate Receives(log: seq<Item>, from: nat, received: seq<Item>) {
    ByNumber(received) && forall x :: x in received <==> x in log && Due(x, from)
  }

  /**
   For every run whose changesets get through, whatever happens to its snapshots, and for every snapshot
   a push did send, or the attach-time rows with number 0: applying exactly the changesets numbered at
   or above it, in number order and without any other snapshot, gives the rows of the source as of the
   last extraction.
   */
  lemma RestoreByNumber(hash: Hash, db: Db, interval: nat, steps: seq<Step>,
                        rows: Rows, from: nat, received: seq<Item>)
    requires forall i :: 0 <= i < |steps| ==> Delivers(steps[i])
    requires var log := Run(hash, Attach(hash, db, interval), steps).log;
             Origin(db.rows, log, rows, from) && Receives(log, from, received)
    ensures ApplyAll(rows, received) == Run(hash, Attach(hash, db, interval), steps).last.rows
  {
    var s := Run(hash, Attach(hash, db, interval), steps);
    RunRestorable(hash, db, interval, steps);
    FromByNumber(s.log, from);
    OneOrder(received, From(s.log, from));
  }
}
