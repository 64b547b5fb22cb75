/**
 The recovery store for changesets that could not be sent
 (crates/synddb-client/src/recovery.rs): one SQLite table, written by the sender and read back
 at the next start.
 */
module Recovery {
  import opened Sequences
  import opened Words

  const NANOS: nat := 1_000_000_000

  type I64 = i: int | -TWO_63 <= i < TWO_63
  type Bytes = seq<bv8>

  /** `timestamp` counts nanoseconds from the Unix epoch and may lie before it. */
  datatype Changeset = Changeset(seqno: U64, data: Bytes, timestamp: int)

  /** What is sent for a changeset: whole seconds, 0 for a time before the epoch. */
  datatype Payload = Payload(seqno: U64, data: Bytes, seconds: nat)

  function Wire(cs: Changeset): Payload {
    Payload(cs.seqno, cs.data, if cs.timestamp < 0 then 0 else cs.timestamp / NANOS)
  }

  datatype FailedRow = FailedRow(sequence: I64, data: Bytes, seconds: I64, retries: nat)

  /** The casts `as i64` and `as u64`. */
  function AsI64(n: U64): I64 {
    if n < TWO_63 then n else n - TWO_64
  }

  function AsU64(i: I64): U64 {
    if i >= 0 then i else i + TWO_64
  }

  function ToRow(cs: Changeset): (row: FailedRow)
    requires cs.timestamp >= 0
  {
    FailedRow(AsI64(cs.seqno), cs.data, AsI64((cs.timestamp / NANOS) % TWO_64), 0)
  }

  function FromRow(row: FailedRow): Changeset {
    Changeset(AsU64(row.sequence), row.data, AsU64(row.seconds) * NANOS)
  }

  /** The seconds sent are the whole seconds since the epoch, none for a time before it. */
  lemma WireExact(cs: Changeset)
    ensures var p := Wire(cs);
            && p.seqno == cs.seqno && p.data == cs.data
            && (cs.timestamp < 0 ==> p.seconds == 0)
            && (cs.timestamp >= 0 ==> p.seconds * NANOS <= cs.timestamp < (p.seconds + 1) * NANOS)
  {
    assert cs.timestamp == cs.timestamp / NANOS * NANOS + cs.timestamp % NANOS;
  }

  /**
   A changeset taken from the store is sent with exactly the payload it would have had at first,
   up to the 64 bits of the seconds counter; its time of day below the second is gone.
   */
  lemma SavedKeepsPayload(cs: Changeset)
    requires 0 <= cs.timestamp / NANOS < TWO_64
    ensures cs.timestamp >= 0 && Wire(FromRow(ToRow(cs))) == Wire(cs)
    ensures FromRow(ToRow(cs)) == cs <==> cs.timestamp % NANOS == 0
    ensures ToRow(cs).retries == 0
  {
    var seconds := cs.timestamp / NANOS;
    assert AsU64(AsI64(seconds)) == seconds;
    assert cs.timestamp == seconds * NANOS + cs.timestamp % NANOS;
  }

  datatype Store = Store(rows: map<nat, FailedRow>, nextId: nat)

  /** `save_failed_changeset`: refused for a time before the epoch, or when the insert fails. */
  predicate Savable(cs: Changeset, inserted: bool) {
    cs.timestamp >= 0 && inserted
  }

  function Save(s: Store, cs: Changeset, inserted: bool): Store {
    if Savable(cs, inserted) then Store(s.rows[s.nextId := ToRow(cs)], s.nextId + 1) else s
  }

  /** Ids in the order the rows are read back: by the stored, signed sequence. */
  ghost predicate Listing(s: Store, ids: seq<nat>) {
    && (forall i :: 0 <= i < |ids| ==> ids[i] in s.rows)
    && (forall id | id in s.rows :: id in ids)
    && (forall i, j :: 0 <= i < j < |ids| ==> ids[i] != ids[j])
    && (forall i, j {:trigger ids[i], ids[j]} :: 0 <= i < j < |ids| ==>
          s.rows[ids[i]].sequence <= s.rows[ids[j]].sequence)
  }

  /** `ids` lists, in order, the rows outside `rest`, and those in `rest` come no earlier. */
  ghost predicate Partway(s: Store, ids: seq<nat>, rest: set<nat>) {
    && rest <= s.rows.Keys
    && Listing(Store(s.rows - rest, s.nextId), ids)
    && (forall i, id :: 0 <= i < |ids| && id in rest ==> s.rows[ids[i]].sequence <= s.rows[id].sequence)
  }

  lemma PartwaySnoc(s: Store, ids: seq<nat>, rest: set<nat>, id: nat)
    requires Partway(s, ids, rest) && Least(s.rows, rest, id)
    ensures Partway(s, ids + [id], rest - {id})
  {
    var before, after := s.rows - rest, s.rows - (rest - {id});
    assert forall k :: k in after <==> k in before || k == id;
    assert forall k :: k in before ==> after[k] == before[k];
    assert id !in ids;
  }

  predicate Least(rows: map<nat, FailedRow>, ids: set<nat>, id: nat)
    requires ids <= rows.Keys
  {
    id in ids && forall j | j in ids :: rows[id].sequence <= rows[j].sequence
  }

  lemma {:induction false} LeastExists(rows: map<nat, FailedRow>, ids: set<nat>)
    requires ids != {} && ids <= rows.Keys
    ensures exists id :: Least(rows, ids, id)
  {
    var x :| x in ids;
    var rest := ids - {x};
    if rest == {} {
      assert ids == {x};
      assert Least(rows, ids, x);
    } else {
      LeastExists(rows, rest);
      var y :| Least(rows, rest, y);
      assert Least(rows, ids, x) || Least(rows, ids, y);
    }
  }

  /** Signed storage puts sequence numbers from 2^63 on in front of all others, and only those. */
  lemma StoredOrder(a: U64, b: U64)
    requires a <= b
    ensures AsI64(a) <= AsI64(b) <==> a == b || a >= TWO_63 || b < TWO_63
  {
  }

  class FailedBatchRecovery {
    var rows: map<nat, FailedRow>
    var nextId: nat

    ghost function Value(): Store
      reads this
    {
      Store(rows, nextId)
    }

    constructor ()
      ensures Value() == Store(map[], 0)
    {
      rows, nextId := map[], 0;
    }

    method SaveFailedChangeset(cs: Changeset, inserted: bool) returns (ok: bool)
      modifies this
      ensures Value() == Save(old(Value()), cs, inserted)
      ensures ok <==> Savable(cs, inserted)
    {
      if cs.timestamp < 0 || !inserted {
        return false;
      }
      rows := rows[nextId := ToRow(cs)];
      nextId := nextId + 1;
      ok := true;
    }

    /** Every row exactly once, by stored sequence. */
    method GetFailedChangesets() returns (ids: seq<nat>)
      ensures Listing(Value(), ids)
    {
      ids := [];
      var rest := rows.Keys;
      while rest != {}
        invariant Partway(Value(), ids, rest)
        decreases rest
      {
        LeastExists(rows, rest);
        var id :| Least(rows, rest, id);
        PartwaySnoc(Value(), ids, rest, id);
        ids := ids + [id];
        rest := rest - {id};
      }
    }

    method RemoveChangeset(id: nat, deleted: bool)
      modifies this`rows
      ensures rows == if deleted then old(rows) - {id} else old(rows)
    {
      if deleted {
        rows := rows - {id};
      }
    }

    method IncrementRetry(id: nat, updated: bool)
      modifies this`rows
      ensures rows == if updated && id in old(rows)
                      then old(rows)[id := old(rows)[id].(retries := old(rows)[id].retries + 1)]
                      else old(rows)
    {
      if updated && id in rows {
        rows := rows[id := rows[id].(retries := rows[id].retries + 1)];
      }
    }
  }

  // ---------------------------------------------------------------- the start-up retry

  /** The environment's answers while one stored changeset is retried. */
  datatype RetryAnswer = RetryAnswer(sent: bool, written: bool)

  /** What is left of a row after its turn. */
  function AfterTurn(row: FailedRow, a: RetryAnswer): Option<FailedRow> {
    if !a.written then Some(row)
    else if a.sent then None
    else Some(row.(retries := row.retries + 1))
  }

  function Lookup(rows: map<nat, FailedRow>, id: nat): Option<FailedRow> {
    if id in rows then Some(rows[id]) else None
  }

  /** What one pass over `ids` sends, in that order. */
  function Sent(rows: map<nat, FailedRow>, ids: seq<nat>, answers: nat -> RetryAnswer): seq<Payload>
    requires forall i :: 0 <= i < |ids| ==> ids[i] in rows
  {
    if ids == [] then []
    else
      var n := |ids| - 1;
      var earlier := Sent(rows, ids[..n], answers);
      if answers(ids[n]).sent then earlier + [Wire(FromRow(rows[ids[n]]))] else earlier
  }

  function Turn(rows: map<nat, FailedRow>, id: nat, a: RetryAnswer): map<nat, FailedRow> {
    if id !in rows || !a.written then rows
    else if a.sent then rows - {id}
    else rows[id := rows[id].(retries := rows[id].retries + 1)]
  }

  function Pass(rows: map<nat, FailedRow>, ids: seq<nat>, answers: nat -> RetryAnswer): map<nat, FailedRow> {
    if ids == [] then rows
    else Turn(Pass(rows, ids[..|ids| - 1], answers), ids[|ids| - 1], answers(ids[|ids| - 1]))
  }

  /**
   After a pass a row is gone only if its changeset was sent and the delete went through; every
   other row keeps its content, with one more retry counted after a failed send.  Nothing is added.
   */
  lemma {:induction false} PassEffect(rows: map<nat, FailedRow>, ids: seq<nat>, answers: nat -> RetryAnswer, id: nat)
    requires forall i, j :: 0 <= i < j < |ids| ==> ids[i] != ids[j]
    ensures Lookup(Pass(rows, ids, answers), id)
         == if id in ids && id in rows then AfterTurn(rows[id], answers(id)) else Lookup(rows, id)
  {
    if ids != [] {
      var n := |ids| - 1;
      PassEffect(rows, ids[..n], answers, id);
      assert ids == ids[..n] + [ids[n]];
      assert ids[n] !in ids[..n];
    }
  }

  /** The n-th turn finds its row as the pass found it at first. */
  lemma PassSnoc(rows: map<nat, FailedRow>, ids: seq<nat>, answers: nat -> RetryAnswer, n: nat)
    requires n < |ids| && forall i :: 0 <= i < |ids| ==> ids[i] in rows
    requires forall i, j :: 0 <= i < j < |ids| ==> ids[i] != ids[j]
    ensures Lookup(Pass(rows, ids[..n], answers), ids[n]) == Some(rows[ids[n]])
    ensures Pass(rows, ids[..n + 1], answers) == Turn(Pass(rows, ids[..n], answers), ids[n], answers(ids[n]))
    ensures Sent(rows, ids[..n + 1], answers)
         == Sent(rows, ids[..n], answers) + if answers(ids[n]).sent then [Wire(FromRow(rows[ids[n]]))] else []
  {
    hide Wire, FromRow, Turn;
    assert ids[..n + 1][..n] == ids[..n];
    PassEffect(rows, ids[..n], answers, ids[n]);
  }

  /** One stored changeset is sent again: deleted if that works, counted if it does not. */
  method RetryOne(store: FailedBatchRecovery, id: nat, a: RetryAnswer) returns (payload: Option<Payload>)
    requires id in store.rows
    modifies store
    ensures store.rows == Turn(old(store.rows), id, a) && store.nextId == old(store.nextId)
    ensures payload == if a.sent then Some(Wire(FromRow(old(store.rows)[id]))) else None
  {
    if a.sent {
      payload := Some(Wire(FromRow(store.rows[id])));
      store.RemoveChangeset(id, a.written);
    } else {
      payload := None;
      store.IncrementRetry(id, a.written);
    }
  }

  /**
   `retry_failed_changesets`: after rows past their seven days (`expired`) are dropped, every stored
   changeset has one turn, in stored order.  If the table cannot be read nothing more happens.
   */
  method RetryFailedChangesets(store: FailedBatchRecovery, expired: set<nat>, readable: bool,
                               answers: nat -> RetryAnswer)
    returns (delivered: seq<Payload>, ids: seq<nat>)
    modifies store
    ensures readable ==> Listing(Store(old(store.rows) - expired, old(store.nextId)), ids)
    ensures readable ==> delivered == Sent(old(store.rows) - expired, ids, answers)
    ensures !readable ==> ids == [] && delivered == []
    ensures store.Value() == Store(Pass(old(store.rows) - expired, ids, answers), old(store.nextId))
  {
    store.rows := store.rows - expired;
    delivered, ids := [], [];
    if !readable {
      return;
    }
    ids := store.GetFailedChangesets();
    ghost var rows0 := store.rows;
    hide Wire, FromRow;
    for n := 0 to |ids|
      invariant store.nextId == old(store.nextId)
      invariant delivered == Sent(rows0, ids[..n], answers)
      invariant store.rows == Pass(rows0, ids[..n], answers)
    {
      hide Pass, Sent, Turn;
      PassSnoc(rows0, ids, answers, n);
      var payload := RetryOne(store, ids[n], answers(ids[n]));
      if payload.Some? {
        delivered := delivered + [payload.value];
      }
    }
    assert ids[..|ids|] == ids;
  }
}
