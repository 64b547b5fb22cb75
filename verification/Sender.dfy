/**
 The background sender (crates/synddb-client/src/sender.rs) with its statistics
 (crates/synddb-client/src/stats.rs) and the recovery store it falls back on.
 */
module Sender {
  import opened Sequences
  import opened Words
  import opened Recovery

  datatype Limits = Limits(bufferSize: nat, maxBatchSize: nat)

  /** The environment's answers to one flush: is the batch delivered, and which saves go through. */
  datatype FlushAnswer = FlushAnswer(delivered: bool, inserted: nat -> bool)

  datatype Attempt = Attempt(batch: seq<Changeset>, answer: FlushAnswer)

  datatype Stats = Stats(pending: nat, pushed: nat, failures: nat)

  datatype SenderState = SenderState(
    limits: Limits,
    buffer: seq<Changeset>,
    bufferBytes: nat,
    stats: Stats,
    store: Option<Store>,       // None: recovery disabled
    received: seq<Changeset>,
    attempts: seq<Attempt>,
    running: bool)

  datatype Event =
    | Receive(cs: Changeset, intervalOver: bool, answer: FlushAnswer)
    | ChannelClosed
    | ShutdownSignal(drained: seq<Changeset>, answer: FlushAnswer)

  function Init(limits: Limits, store: Option<Store>): SenderState {
    SenderState(limits, [], 0, Stats(0, 0, 0), store, [], [], true)
  }

  function Size(batch: seq<Changeset>): (total: nat) {
    if batch == [] then 0 else Size(batch[..|batch| - 1]) + |batch[|batch| - 1].data|
  }

  lemma SizeSnoc(batch: seq<Changeset>, cs: Changeset)
    ensures Size(batch + [cs]) == Size(batch) + |cs.data|
  {
    assert (batch + [cs])[..|batch|] == batch;
  }

  /** The changesets of a failed batch that were saved, in order. */
  function Saved(batch: seq<Changeset>, inserted: nat -> bool): (kept: seq<Changeset>)
    ensures forall i :: 0 <= i < |kept| ==> kept[i].timestamp >= 0
  {
    if batch == [] then []
    else
      var n := |batch| - 1;
      var earlier := Saved(batch[..n], inserted);
      if Savable(batch[n], inserted(n)) then earlier + [batch[n]] else earlier
  }

  function SaveAll(store: Store, kept: seq<Changeset>): Store
    requires forall i :: 0 <= i < |kept| ==> kept[i].timestamp >= 0
  {
    if kept == [] then store else Save(SaveAll(store, kept[..|kept| - 1]), kept[|kept| - 1], true)
  }

  // ---------------------------------------------------------------- transitions

  /** Wrapping subtraction of an atomic counter. */
  function FetchSub(counter: nat, n: nat): nat {
    if n <= counter then counter - n else (counter - n) % TWO_64
  }

  /** On 64-bit counters, adding back what was subtracted always restores the counter, modulo 2^64. */
  lemma FetchSubWraps(counter: U64, n: U64)
    ensures FetchSub(counter, n) < TWO_64 && (FetchSub(counter, n) + n) % TWO_64 == counter
  {
  }

  function Push(s: SenderState, cs: Changeset): SenderState {
    s.(stats := s.stats.(pending := s.stats.pending + 1),
       bufferBytes := s.bufferBytes + |cs.data|,
       buffer := s.buffer + [cs],
       received := s.received + [cs])
  }

  function PushAll(s: SenderState, batch: seq<Changeset>): SenderState {
    if batch == [] then s else Push(PushAll(s, batch[..|batch| - 1]), batch[|batch| - 1])
  }

  /** `flush`: the byte counter is reset on success only. */
  function FlushBuffer(s: SenderState, a: FlushAnswer): SenderState {
    if s.buffer == [] then s
    else
      var n := |s.buffer|;
      var s' := s.(buffer := [], attempts := s.attempts + [Attempt(s.buffer, a)]);
      if a.delivered then
        s'.(bufferBytes := 0,
            stats := s.stats.(pushed := s.stats.pushed + n, pending := FetchSub(s.stats.pending, n)))
      else
        s'.(stats := s.stats.(failures := s.stats.failures + 1, pending := FetchSub(s.stats.pending, n)),
            store := if s.store.None? then None else Some(SaveAll(s.store.value, Saved(s.buffer, a.inserted))))
  }

  predicate ShouldFlush(s: SenderState, intervalOver: bool) {
    |s.buffer| >= s.limits.bufferSize || s.bufferBytes >= s.limits.maxBatchSize || intervalOver
  }

  function Next(s: SenderState, e: Event): SenderState {
    if !s.running then s
    else
      match e
      case Receive(cs, intervalOver, a) =>
        var s' := Push(s, cs);
        if ShouldFlush(s', intervalOver) then FlushBuffer(s', a) else s'
      case ChannelClosed => s.(running := false)
      case ShutdownSignal(drained, a) => FlushBuffer(PushAll(s, drained), a).(running := false)
  }

  function Run(s: SenderState, events: seq<Event>): SenderState {
    if events == [] then s else Next(Run(s, events[..|events| - 1]), events[|events| - 1])
  }

  // ---------------------------------------------------------------- conservation

  function Batches(attempts: seq<Attempt>): (batches: seq<seq<Changeset>>)
    ensures |batches| == |attempts|
    ensures forall i :: 0 <= i < |attempts| ==> batches[i] == attempts[i].batch
  {
    seq(|attempts|, i requires 0 <= i < |attempts| => attempts[i].batch)
  }

  function DeliveredCount(attempts: seq<Attempt>): nat {
    if attempts == [] then 0
    else
      var last := attempts[|attempts| - 1];
      DeliveredCount(attempts[..|attempts| - 1]) + if last.answer.delivered then |last.batch| else 0
  }

  function FailedCount(attempts: seq<Attempt>): nat {
    if attempts == [] then 0
    else
      FailedCount(attempts[..|attempts| - 1]) + if attempts[|attempts| - 1].answer.delivered then 0 else 1
  }

  /** Bytes of the batches that failed since the last delivery. */
  function StaleBytes(attempts: seq<Attempt>): nat {
    if attempts == [] then 0
    else
      var last := attempts[|attempts| - 1];
      if last.answer.delivered then 0 else StaleBytes(attempts[..|attempts| - 1]) + Size(last.batch)
  }

  /** Everything the failed batches put into the store, in order. */
  function Rescued(attempts: seq<Attempt>): (kept: seq<Changeset>)
    ensures forall i :: 0 <= i < |kept| ==> kept[i].timestamp >= 0
  {
    if attempts == [] then []
    else
      var last := attempts[|attempts| - 1];
      var earlier := Rescued(attempts[..|attempts| - 1]);
      if last.answer.delivered then earlier else earlier + Saved(last.batch, last.answer.inserted)
  }

  /** Nothing is lost or reordered between the channel, the flushes and the buffer. */
  ghost predicate InOrder(s: SenderState) {
    s.received == Flatten(Batches(s.attempts)) + s.buffer
  }

  predicate Counted(s: SenderState) {
    && s.stats == Stats(|s.buffer|, DeliveredCount(s.attempts), FailedCount(s.attempts))
    && s.bufferBytes == Size(s.buffer) + StaleBytes(s.attempts)
  }

  /** `store` is what the recovery table held when the sender started. */
  predicate Stored(s: SenderState, store: Option<Store>) {
    s.store == if store.None? then None else Some(SaveAll(store.value, Rescued(s.attempts)))
  }

  ghost predicate Conserved(s: SenderState, store: Option<Store>) {
    InOrder(s) && Counted(s) && Stored(s, store)
  }

  lemma {:induction false} SaveAllConcat(store: Store, a: seq<Changeset>, b: seq<Changeset>)
    requires forall i :: 0 <= i < |a| ==> a[i].timestamp >= 0
    requires forall i :: 0 <= i < |b| ==> b[i].timestamp >= 0
    ensures SaveAll(store, a + b) == SaveAll(SaveAll(store, a), b)
  {
    if b == [] {
      assert a + b == a;
    } else {
      var n := |b| - 1;
      SaveAllConcat(store, a, b[..n]);
      assert (a + b)[..|a| + n] == a + b[..n];
    }
  }

  lemma PushConserved(s: SenderState, cs: Changeset, store: Option<Store>)
    requires Conserved(s, store)
    ensures Conserved(Push(s, cs), store)
  {
    SizeSnoc(s.buffer, cs);
  }

  lemma {:induction false} PushAllConserved(s: SenderState, batch: seq<Changeset>, store: Option<Store>)
    requires Conserved(s, store)
    ensures Conserved(PushAll(s, batch), store)
  {
    if batch != [] {
      hide Conserved;
      PushAllConserved(s, batch[..|batch| - 1], store);
      PushConserved(PushAll(s, batch[..|batch| - 1]), batch[|batch| - 1], store);
    }
  }

  lemma FlushInOrder(s: SenderState, a: FlushAnswer)
    requires InOrder(s)
    ensures InOrder(FlushBuffer(s, a))
  {
    hide Saved, SaveAll;
    if s.buffer != [] {
      assert Batches(s.attempts + [Attempt(s.buffer, a)]) == Batches(s.attempts) + [s.buffer];
      FlattenSnoc(Batches(s.attempts), s.buffer);
    }
  }

  lemma FlushCounted(s: SenderState, a: FlushAnswer)
    requires Counted(s)
    ensures Counted(FlushBuffer(s, a)) && FlushBuffer(s, a).buffer == []
  {
    hide Saved, SaveAll;
    if s.buffer != [] {
      assert (s.attempts + [Attempt(s.buffer, a)])[..|s.attempts|] == s.attempts;
    }
  }

  lemma FlushStored(s: SenderState, a: FlushAnswer, store: Option<Store>)
    requires Stored(s, store)
    ensures Stored(FlushBuffer(s, a), store)
  {
    if s.buffer != [] {
      assert (s.attempts + [Attempt(s.buffer, a)])[..|s.attempts|] == s.attempts;
      if store.Some? {
        SaveAllConcat(store.value, Rescued(s.attempts), Saved(s.buffer, a.inserted));
      }
    }
  }

  lemma FlushConserved(s: SenderState, a: FlushAnswer, store: Option<Store>)
    requires Conserved(s, store)
    ensures Conserved(FlushBuffer(s, a), store)
  {
    hide InOrder, Counted, Stored, FlushBuffer;
    FlushInOrder(s, a);
    FlushCounted(s, a);
    FlushStored(s, a, store);
  }

  lemma NextConserved(s: SenderState, e: Event, store: Option<Store>)
    requires Conserved(s, store)
    ensures Conserved(Next(s, e), store)
  {
    match e
    case Receive(cs, _, a) =>
      PushConserved(s, cs, store);
      FlushConserved(Push(s, cs), a, store);
    case ChannelClosed =>
    case ShutdownSignal(drained, a) =>
      PushAllConserved(s, drained, store);
      FlushConserved(PushAll(s, drained), a, store);
  }

  predicate BelowCapacity(s: SenderState) {
    s.limits.bufferSize > 0 && (s.running ==> |s.buffer| < s.limits.bufferSize)
  }

  lemma NextBelowCapacity(s: SenderState, e: Event)
    requires BelowCapacity(s)
    ensures BelowCapacity(Next(s, e)) && Next(s, e).limits == s.limits
  {
    if e.ShutdownSignal? {
      PushAllLimits(s, e.drained);
    }
  }

  lemma {:induction false} PushAllLimits(s: SenderState, batch: seq<Changeset>)
    ensures PushAll(s, batch).limits == s.limits
  {
    if batch != [] {
      PushAllLimits(s, batch[..|batch| - 1]);
    }
  }

  lemma InitConserved(limits: Limits, store: Option<Store>)
    ensures Conserved(Init(limits, store), store)
  {
    assert Batches([]) == [];
  }

  lemma {:induction false} RunKeepsConserved(limits: Limits, store: Option<Store>, events: seq<Event>)
    ensures Conserved(Run(Init(limits, store), events), store)
  {
    if events == [] {
      InitConserved(limits, store);
    } else {
      hide Conserved, Next;
      var n := |events| - 1;
      RunKeepsConserved(limits, store, events[..n]);
      NextConserved(Run(Init(limits, store), events[..n]), events[n], store);
    }
  }

  lemma {:induction false} RunBelowCapacity(limits: Limits, store: Option<Store>, events: seq<Event>)
    requires limits.bufferSize > 0
    ensures var s := Run(Init(limits, store), events);
            s.limits == limits && BelowCapacity(s)
  {
    if events != [] {
      hide Next;
      var n := |events| - 1;
      RunBelowCapacity(limits, store, events[..n]);
      NextBelowCapacity(Run(Init(limits, store), events[..n]), events[n]);
    }
  }

  /**
   At every loop head, whatever fails: the changesets received are, in order, those of the flushed
   batches followed by the buffer; the pending statistic is the buffer's length, so it never wraps;
   the pushed statistic counts what flushes delivered; the byte counter is the buffer's bytes plus
   those of the batches that failed since the last delivery; the store has gained exactly the
   changesets of failed batches whose save went through; and while the loop runs the buffer holds
   fewer than `bufferSize` changesets.
   */
  lemma RunConserved(limits: Limits, store: Option<Store>, events: seq<Event>)
    requires limits.bufferSize > 0
    ensures var s := Run(Init(limits, store), events);
            Conserved(s, store) && s.limits == limits && BelowCapacity(s)
  {
    hide Conserved, BelowCapacity;
    RunKeepsConserved(limits, store, events);
    RunBelowCapacity(limits, store, events);
  }

  // ---------------------------------------------------------------- when a batch is attempted

  lemma {:induction false} PushAllBuffers(s: SenderState, batch: seq<Changeset>)
    ensures var s' := PushAll(s, batch);
            s'.buffer == s.buffer + batch && s'.attempts == s.attempts && s'.running == s.running
  {
    if batch != [] {
      PushAllBuffers(s, batch[..|batch| - 1]);
    }
  }

  /**
   Exactly which turns attempt a batch: a received changeset that fills the buffer or its bytes, or finds
   the interval over; and a shutdown, with what it drains, unless there is nothing.  A closed channel ends
   the loop without an attempt and leaves the buffer as it is.
   */
  lemma AttemptExact(s: SenderState, e: Event)
    requires s.running
    ensures var s' := Next(s, e);
            match e
            case Receive(cs, intervalOver, a) =>
              var due := || |s.buffer| + 1 >= s.limits.bufferSize
                         || s.bufferBytes + |cs.data| >= s.limits.maxBatchSize || intervalOver;
              && s'.attempts == (if due then s.attempts + [Attempt(s.buffer + [cs], a)] else s.attempts)
              && s'.buffer == (if due then [] else s.buffer + [cs]) && s'.running
            case ChannelClosed => s' == s.(running := false)
            case ShutdownSignal(drained, a) =>
              var batch := s.buffer + drained;
              && s'.attempts == (if batch == [] then s.attempts else s.attempts + [Attempt(batch, a)])
              && s'.buffer == [] && !s'.running
  {
    hide Saved, SaveAll;
    match e
    case Receive(cs, _, _) => assert s.buffer + [cs] != [];
    case ChannelClosed =>
    case ShutdownSignal(drained, _) => PushAllBuffers(s, drained);
  }

  /** Between turns the byte counter is below the limit unless the buffer is empty. */
  predicate BytesBelow(s: SenderState) {
    s.running ==> s.buffer == [] || s.bufferBytes < s.limits.maxBatchSize
  }

  lemma NextBytesBelow(s: SenderState, e: Event)
    requires BytesBelow(s)
    ensures BytesBelow(Next(s, e)) && Next(s, e).limits == s.limits
  {
    hide Saved, SaveAll;
    if e.ShutdownSignal? {
      PushAllLimits(s, e.drained);
    }
  }

  lemma {:induction false} RunBytesBelow(limits: Limits, store: Option<Store>, events: seq<Event>)
    ensures var s := Run(Init(limits, store), events);
            BytesBelow(s) && s.limits == limits
  {
    if events != [] {
      hide Next;
      var n := |events| - 1;
      RunBytesBelow(limits, store, events[..n]);
      NextBytesBelow(Run(Init(limits, store), events[..n]), events[n]);
    }
  }

  /**
   The price of a byte counter that only a delivery resets: once the batches that failed since the last
   delivery reach the limit, every changeset is attempted alone, on arrival, until one is delivered.
   */
  lemma OneByOneAfterFailures(limits: Limits, store: Option<Store>, events: seq<Event>,
                              cs: Changeset, intervalOver: bool, a: FlushAnswer)
    requires var s := Run(Init(limits, store), events);
             s.running && StaleBytes(s.attempts) >= limits.maxBatchSize
    ensures var s := Run(Init(limits, store), events);
            Next(s, Receive(cs, intervalOver, a)).attempts == s.attempts + [Attempt([cs], a)]
  {
    var s := Run(Init(limits, store), events);
    RunKeepsConserved(limits, store, events);
    RunBytesBelow(limits, store, events);
    AttemptExact(s, Receive(cs, intervalOver, a));
    assert [] + [cs] == [cs];
  }

  lemma {:induction false} SavedWhole(batch: seq<Changeset>, inserted: nat -> bool)
    requires forall i :: 0 <= i < |batch| ==> Savable(batch[i], inserted(i))
    ensures Saved(batch, inserted) == batch
  {
    if batch != [] {
      SavedWhole(batch[..|batch| - 1], inserted);
    }
  }

  lemma {:induction false} SavedShorter(batch: seq<Changeset>, inserted: nat -> bool)
    ensures |Saved(batch, inserted)| <= |batch|
  {
    if batch != [] {
      SavedShorter(batch[..|batch| - 1], inserted);
    }
  }

  lemma {:induction false} SavedMisses(batch: seq<Changeset>, inserted: nat -> bool, i: nat)
    requires i < |batch| && !Savable(batch[i], inserted(i))
    ensures |Saved(batch, inserted)| < |batch|
  {
    var n := |batch| - 1;
    SavedShorter(batch[..n], inserted);
    if i < n {
      SavedMisses(batch[..n], inserted, i);
    }
  }

  /** A failed batch is in the store in full exactly when each of its saves was possible. */
  lemma SavedInFull(batch: seq<Changeset>, inserted: nat -> bool)
    ensures Saved(batch, inserted) == batch
       <==> forall i :: 0 <= i < |batch| ==> Savable(batch[i], inserted(i))
  {
    if i :| 0 <= i < |batch| && !Savable(batch[i], inserted(i)) {
      SavedMisses(batch, inserted, i);
    } else {
      SavedWhole(batch, inserted);
    }
  }

  /** What was saved can be read back: row nextId + i holds the i-th rescued changeset. */
  lemma {:induction false} SaveAllRows(store: Store, kept: seq<Changeset>, i: nat)
    requires i < |kept| && forall i :: 0 <= i < |kept| ==> kept[i].timestamp >= 0
    ensures SaveAll(store, kept).nextId == store.nextId + |kept|
    ensures store.nextId + i in SaveAll(store, kept).rows
    ensures SaveAll(store, kept).rows[store.nextId + i] == ToRow(kept[i])
  {
    var n := |kept| - 1;
    if n > 0 {
      SaveAllRows(store, kept[..n], if i < n then i else 0);
    } else {
      assert kept[..n] == [];
    }
  }

  // ---------------------------------------------------------------- the sender itself

  class ReplicationStats {
    var pending: nat
    var pushed: nat
    var failures: nat

    ghost function Value(): Stats
      reads this
    {
      Stats(pending, pushed, failures)
    }

    constructor ()
      ensures Value() == Stats(0, 0, 0)
    {
      pending, pushed, failures := 0, 0, 0;
    }

    method IncrementPending()
      modifies this`pending
      ensures pending == old(pending) + 1
    {
      pending := pending + 1;
    }

    method DecrementPending(n: nat)
      modifies this`pending
      ensures pending == FetchSub(old(pending), n)
    {
      pending := FetchSub(pending, n);
    }

    method RecordPush(n: nat)
      modifies this
      ensures Value() == Stats(FetchSub(old(pending), n), old(pushed) + n, old(failures))
    {
      pushed := pushed + n;
      DecrementPending(n);
    }

    method RecordFailure()
      modifies this`failures
      ensures failures == old(failures) + 1
    {
      failures := failures + 1;
    }
  }

  class ChangesetSender {
    const limits: Limits
    const stats: ReplicationStats
    const recovery: FailedBatchRecovery?
    var buffer: seq<Changeset>
    var bufferBytes: nat
    ghost var received: seq<Changeset>
    ghost var attempts: seq<Attempt>
    ghost var running: bool

    ghost function Value(): SenderState
      reads this, stats, recovery
    {
      SenderState(limits, buffer, bufferBytes, stats.Value(),
                  if recovery == null then None else Some(recovery.Value()), received, attempts, running)
    }

    constructor (limits: Limits, recovery: FailedBatchRecovery?)
      ensures fresh(stats) && this.recovery == recovery
      ensures Value() == Init(limits, if recovery == null then None else Some(recovery.Value()))
    {
      this.limits, this.recovery := limits, recovery;
      stats := new ReplicationStats();
      buffer, bufferBytes := [], 0;
      received, attempts, running := [], [], true;
    }

    method Enqueue(cs: Changeset)
      modifies this, stats
      ensures Value() == Push(old(Value()), cs)
    {
      stats.IncrementPending();
      bufferBytes := bufferBytes + |cs.data|;
      buffer := buffer + [cs];
      received := received + [cs];
    }

    method SaveBatch(batch: seq<Changeset>, inserted: nat -> bool)
      requires recovery != null
      modifies recovery
      ensures recovery.Value() == SaveAll(old(recovery.Value()), Saved(batch, inserted))
    {
      for n := 0 to |batch|
        invariant recovery.Value() == SaveAll(old(recovery.Value()), Saved(batch[..n], inserted))
      {
        assert batch[..n + 1][..n] == batch[..n];
        ghost var kept := Saved(batch[..n], inserted);
        assert (kept + [batch[n]])[..|kept|] == kept;
        var _ := recovery.SaveFailedChangeset(batch[n], inserted(n));
      }
      assert batch[..|batch|] == batch;
    }

    method Flush(answer: FlushAnswer)
      modifies this, stats, recovery
      ensures Value() == FlushBuffer(old(Value()), answer)
    {
      if buffer == [] {
        return;
      }
      var batch := buffer;
      buffer := [];
      attempts := attempts + [Attempt(batch, answer)];
      if answer.delivered {
        stats.RecordPush(|batch|);
        bufferBytes := 0;
        return;
      }
      stats.RecordFailure();
      if recovery != null {
        SaveBatch(batch, answer.inserted);
      }
      stats.DecrementPending(|batch|);
    }

    method Drain(drained: seq<Changeset>)
      modifies this, stats
      ensures Value() == PushAll(old(Value()), drained)
    {
      ghost var s0 := Value();
      for n := 0 to |drained|
        invariant Value() == PushAll(s0, drained[..n])
      {
        assert drained[..n + 1][..n] == drained[..n];
        Enqueue(drained[n]);
      }
      assert drained[..|drained|] == drained;
    }

    /** One turn of the `select!` loop; false when the loop ends. */
    method Turn(e: Event) returns (goesOn: bool)
      requires running
      modifies this, stats, recovery
      ensures Value() == Next(old(Value()), e)
      ensures goesOn == running
    {
      match e {
        case Receive(cs, intervalOver, answer) =>
          Enqueue(cs);
          if |buffer| >= limits.bufferSize || bufferBytes >= limits.maxBatchSize || intervalOver {
            Flush(answer);
          }
          goesOn := true;
        case ChannelClosed =>
          running := false;
          goesOn := false;
        case ShutdownSignal(drained, answer) =>
          Drain(drained);
          Flush(answer);
          running := false;
          goesOn := false;
      }
    }
  }
}
