/**
 The SQLite database as the replication layer sees it: a schema and rows addressed by table
 and primary key.  A changeset is the net difference a session reports between the rows at
 its start and the rows at extraction.
 */
module Database {
  import opened Sequences

  datatype Key = Key(table: string, id: int)
  type Row = seq<string>
  type Rows = map<Key, Row>
  datatype SchemaItem = SchemaItem(kind: string, name: string, sql: string)
  type Schema = seq<SchemaItem>
  datatype Db = Db(schema: Schema, rows: Rows)

  /** INSERT has no `before`, DELETE has no `after`, UPDATE has both. */
  datatype Change = Change(before: Option<Row>, after: Option<Row>)
  type Changes = map<Key, Change>

  function Get(rows: Rows, k: Key): Option<Row> {
    if k in rows then Some(rows[k]) else None
  }

  lemma SameRows(a: Rows, b: Rows)
    requires forall k :: Get(a, k) == Get(b, k)
    ensures a == b
  {
    assert forall k :: k in a <==> Get(a, k).Some?;
    assert forall k :: k in b <==> Get(b, k).Some?;
    assert forall k | k in a :: Get(a, k) == Some(a[k]) && Get(b, k) == Some(b[k]);
  }

  /** What the session reports: one change per key whose row differs, none for the others. */
  function Diff(base: Rows, current: Rows): (changes: Changes)
    ensures forall k :: k in changes <==> Get(base, k) != Get(current, k)
    ensures forall k | k in changes :: changes[k] == Change(Get(base, k), Get(current, k))
  {
    map k | k in base.Keys + current.Keys && Get(base, k) != Get(current, k)
      :: Change(Get(base, k), Get(current, k))
  }

  lemma EmptyDiff(base: Rows, current: Rows)
    ensures Diff(base, current) == map[] <==> base == current
  {
    if Diff(base, current) == map[] {
      forall k ensures Get(base, k) == Get(current, k) {
        assert k !in Diff(base, current);
      }
      SameRows(base, current);
    }
  }

  /** The row map whose content at each key of `keys` is given by `at`. */
  function Collect(keys: set<Key>, at: Key -> Option<Row>): (rows: Rows)
    ensures forall k :: Get(rows, k) == if k in keys then at(k) else None
  {
    map k | k in keys && at(k).Some? :: at(k).value
  }

  /** Applying a changeset by overwriting every row it names. */
  function Overwrite(rows: Rows, changes: Changes): (result: Rows)
    ensures forall k :: Get(result, k) == if k in changes then changes[k].after else Get(rows, k)
  {
    Collect(rows.Keys + changes.Keys, k => if k in changes then changes[k].after else Get(rows, k))
  }

  /**
   Exactly when overwriting a replica with the net difference base -> current brings it to
   current: the replica must already be right on every row that the difference leaves out.
   */
  lemma OverwriteReaches(replica: Rows, base: Rows, current: Rows)
    ensures Overwrite(replica, Diff(base, current)) == current
       <==> forall k :: Get(base, k) == Get(current, k) ==> Get(replica, k) == Get(current, k)
  {
    var result := Overwrite(replica, Diff(base, current));
    if forall k :: Get(base, k) == Get(current, k) ==> Get(replica, k) == Get(current, k) {
      forall k ensures Get(result, k) == Get(current, k) {
      }
      SameRows(result, current);
    }
    if result == current {
      forall k | Get(base, k) == Get(current, k) ensures Get(replica, k) == Get(current, k) {
        assert Get(result, k) == Get(replica, k);
      }
    }
  }

  /**
   The validator's conflict policy: an UPDATE or DELETE whose pre-image is not the row found
   aborts the whole changeset; an INSERT of a key already present is skipped.
   */
  predicate Conflicts(rows: Rows, changes: Changes) {
    exists k | k in changes :: changes[k].before.Some? && Get(rows, k) != changes[k].before
  }

  function CheckedRow(rows: Rows, changes: Changes, k: Key): Option<Row> {
    if k !in changes || (changes[k].before.None? && k in rows) then Get(rows, k) else changes[k].after
  }

  function ApplyChecked(rows: Rows, changes: Changes): (result: Option<Rows>)
    ensures result.None? <==> Conflicts(rows, changes)
    ensures result.Some? ==> forall k :: Get(result.value, k) == CheckedRow(rows, changes, k)
  {
    if Conflicts(rows, changes) then None
    else Some(Collect(rows.Keys + changes.Keys, k => CheckedRow(rows, changes, k)))
  }

  /** Every row of `base` is still there, unchanged. */
  predicate Keeps(base: Rows, current: Rows) {
    forall k | k in base :: Get(current, k) == Some(base[k])
  }

  /** Every row of `base` that the difference updates or deletes is in the replica as it was in `base`. */
  ghost predicate PreImagesMatch(replica: Rows, base: Rows, current: Rows) {
    forall k | k in base && Get(current, k) != Some(base[k]) :: Get(replica, k) == Some(base[k])
  }

  /** Every row the difference inserts is absent from the replica or already as inserted. */
  ghost predicate InsertsFit(replica: Rows, base: Rows, current: Rows) {
    forall k | k in current && k !in base :: Get(replica, k).None? || Get(replica, k) == Some(current[k])
  }

  /** Every row the difference leaves out is right in the replica. */
  ghost predicate RestRight(replica: Rows, base: Rows, current: Rows) {
    forall k :: Get(base, k) == Get(current, k) ==> Get(replica, k) == Get(current, k)
  }

  /**
   For any replica, exactly when the validator accepts the net difference base -> current, and exactly
   when that brings it to current.
   */
  lemma CheckedReaches(replica: Rows, base: Rows, current: Rows)
    ensures ApplyChecked(replica, Diff(base, current)).Some? <==> PreImagesMatch(replica, base, current)
    ensures ApplyChecked(replica, Diff(base, current)) == Some(current)
       <==> && PreImagesMatch(replica, base, current) && InsertsFit(replica, base, current)
            && RestRight(replica, base, current)
  {
    var changes := Diff(base, current);
    var result := ApplyChecked(replica, changes);
    if k :| k in base && Get(current, k) != Some(base[k]) && Get(replica, k) != Some(base[k]) {
      assert k in changes && changes[k].before == Some(base[k]);
    }
    if result.Some? {
      CheckedRows(replica, base, current, result.value);
    }
  }

  lemma CheckedRows(replica: Rows, base: Rows, current: Rows, result: Rows)
    requires ApplyChecked(replica, Diff(base, current)) == Some(result)
    requires PreImagesMatch(replica, base, current)
    ensures result == current <==> InsertsFit(replica, base, current) && RestRight(replica, base, current)
  {
    hide ApplyChecked, PreImagesMatch;
    var changes := Diff(base, current);
    assert forall k :: Get(result, k) == CheckedRow(replica, changes, k);
    if InsertsFit(replica, base, current) && RestRight(replica, base, current) {
      forall k ensures Get(result, k) == Get(current, k) {
      }
      SameRows(result, current);
    }
    if result == current {
      forall k ensures Get(base, k) == Get(current, k) ==> Get(replica, k) == Get(current, k) {
        assert Get(result, k) == Get(current, k);
      }
      forall k | k in current && k !in base ensures Get(replica, k).None? || Get(replica, k) == Some(current[k]) {
        assert k in changes && changes[k].before.None?;
        assert Get(result, k) == Get(current, k);
      }
    }
  }

  /** A changeset applies cleanly, with the checks, to the rows it was taken from. */
  lemma CheckedOnBase(base: Rows, current: Rows)
    ensures ApplyChecked(base, Diff(base, current)) == Some(current)
  {
    var result := ApplyChecked(base, Diff(base, current));
    forall k ensures Get(result.value, k) == Get(current, k) {
    }
    SameRows(result.value, current);
  }

  /**
   Applied to the rows it leads to, it is accepted exactly when it only inserts; then it
   changes nothing.
   */
  lemma CheckedOnCurrent(base: Rows, current: Rows)
    ensures ApplyChecked(current, Diff(base, current))
         == if Keeps(base, current) then Some(current) else None
  {
    var changes := Diff(base, current);
    var result := ApplyChecked(current, changes);
    if Keeps(base, current) {
      forall k ensures Get(result.value, k) == Get(current, k) {
      }
      SameRows(result.value, current);
    } else {
      var k :| k in base && Get(current, k) != Some(base[k]);
      assert k in changes && changes[k].before == Some(base[k]);
    }
  }
}
