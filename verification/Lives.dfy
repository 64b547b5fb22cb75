/**
 One sender after another over the same recovery table (`run` in crates/synddb-client/src/sender.rs
 with crates/synddb-client/src/recovery.rs): each life begins with the start-up retry, goes through the
 loop and ends by shutdown, by a closed channel or by a crash anywhere.  The ledger follows every
 changeset through all lives.
 */
module Lives {
  import opened Sequences
  import opened Words
  import opened Recovery
  import opened Sender

  /**
   `expired`: rows the clean-up deletes; `ids`: the retries that take place, in this order, before the
   first loop head or the crash that prevents it; `tail`: changesets received but not flushed when a
   crash ends the loop.
   */
  datatype Life = Life(
    limits: Limits,
    enabled: bool,
    expired: set<nat>,
    ids: seq<nat>,
    answers: nat -> RetryAnswer,
    diedRetrying: bool,
    events: seq<Event>,
    tail: seq<Changeset>)

  datatype Ledger = Ledger(
    store: Store,
    received: seq<Changeset>,
    flushed: seq<Changeset>,     // delivered by a flush
    dropped: seq<Changeset>,     // of a failed flush and not saved
    leftover: seq<Changeset>,    // still in memory when a life ended
    saved: seq<Changeset>,       // everything ever saved: row id n is saved[n]
    resent: seq<Payload>,        // delivered by a start-up retry
    retired: set<nat>,           // rows deleted after such a delivery
    expired: set<nat>)           // rows deleted for their age

  function NewLedger(): Ledger {
    Ledger(Store(map[], 0), [], [], [], [], [], [], {}, {})
  }

  // ---------------------------------------------------------------- a life

  function Expire(l: Ledger, aged: set<nat>): Ledger {
    l.(store := Store(l.store.rows - aged, l.store.nextId), expired := l.expired + aged * l.store.rows.Keys)
  }

  function RetryTurn(l: Ledger, id: nat, a: RetryAnswer): Ledger {
    if id !in l.store.rows then l
    else
      l.(store := Store(Turn(l.store.rows, id, a), l.store.nextId),
         resent := l.resent + (if a.sent then [Wire(FromRow(l.store.rows[id]))] else []),
         retired := l.retired + if a.sent && a.written then {id} else {})
  }

  function RetryAll(l: Ledger, ids: seq<nat>, answers: nat -> RetryAnswer): Ledger {
    if ids == [] then l
    else
      var n := |ids| - 1;
      RetryTurn(RetryAll(l, ids[..n], answers), ids[n], answers(ids[n]))
  }

  /** The changesets of a failed batch that were not saved, in order. */
  function Unsaved(batch: seq<Changeset>, inserted: nat -> bool): seq<Changeset> {
    if batch == [] then []
    else
      var n := |batch| - 1;
      var earlier := Unsaved(batch[..n], inserted);
      if Savable(batch[n], inserted(n)) then earlier else earlier + [batch[n]]
  }

  function Flushed(attempts: seq<Attempt>): seq<Changeset> {
    if attempts == [] then []
    else
      var last := attempts[|attempts| - 1];
      Flushed(attempts[..|attempts| - 1]) + if last.answer.delivered then last.batch else []
  }

  function Dropped(attempts: seq<Attempt>, enabled: bool): seq<Changeset> {
    if attempts == [] then []
    else
      var last := attempts[|attempts| - 1];
      Dropped(attempts[..|attempts| - 1], enabled)
      + if last.answer.delivered then []
        else if enabled then Unsaved(last.batch, last.answer.inserted)
        else last.batch
  }

  /** What a life's loop adds to the ledger. */
  function Record(l: Ledger, s: SenderState, enabled: bool): Ledger {
    l.(store := if s.store.Some? then s.store.value else l.store,
       received := l.received + s.received,
       flushed := l.flushed + Flushed(s.attempts),
       dropped := l.dropped + Dropped(s.attempts, enabled),
       leftover := l.leftover + s.buffer,
       saved := l.saved + if enabled then Rescued(s.attempts) else [])
  }

  function LoopEnd(store: Option<Store>, life: Life): SenderState {
    var s := Run(Init(life.limits, store), life.events);
    if s.running then PushAll(s, life.tail) else s
  }

  function Live(l: Ledger, life: Life): Ledger {
    var l' := if life.enabled then RetryAll(Expire(l, life.expired), life.ids, life.answers) else l;
    if life.diedRetrying then l'
    else Record(l', LoopEnd(if life.enabled then Some(l'.store) else None, life), life.enabled)
  }

  function LiveAll(l: Ledger, lives: seq<Life>): Ledger {
    if lives == [] then l else Live(LiveAll(l, lives[..|lives| - 1]), lives[|lives| - 1])
  }

  /** The retries are those `RetryFailedChangesets` makes. */
  lemma {:induction false} RetryIsPass(l: Ledger, ids: seq<nat>, answers: nat -> RetryAnswer)
    requires forall i :: 0 <= i < |ids| ==> ids[i] in l.store.rows
    requires forall i, j :: 0 <= i < j < |ids| ==> ids[i] != ids[j]
    ensures var l' := RetryAll(l, ids, answers);
            && l'.store == Store(Pass(l.store.rows, ids, answers), l.store.nextId)
            && l'.resent == l.resent + Sent(l.store.rows, ids, answers)
  {
    if ids != [] {
      hide Wire, FromRow, Turn;
      var n := |ids| - 1;
      RetryIsPass(l, ids[..n], answers);
      assert ids[..n + 1] == ids;
      PassSnoc(l.store.rows, ids, answers, n);
    }
  }

  /**
   A life in the program's own terms: with recovery on, the table first loses the aged rows, then one pass
   over the rest sends and updates them, then the loop runs on what is left; with recovery off, the table
   is not touched at all.
   */
  lemma LiveIsRun(l: Ledger, life: Life)
    requires !life.diedRetrying && life.tail == []
    requires var rows := l.store.rows - life.expired;
             life.enabled ==> Listing(Store(rows, l.store.nextId), life.ids)
    ensures var l' := Live(l, life);
            if life.enabled
            then
              var rows := l.store.rows - life.expired;
              var left := Store(Pass(rows, life.ids, life.answers), l.store.nextId);
              && Some(l'.store) == Run(Init(life.limits, Some(left)), life.events).store
              && l'.resent == l.resent + Sent(rows, life.ids, life.answers)
              && l'.received == l.received + Run(Init(life.limits, Some(left)), life.events).received
            else
              && l'.store == l.store && l'.resent == l.resent && l'.saved == l.saved
              && l'.received == l.received + Run(Init(life.limits, None), life.events).received
  {
    hide Pass, Sent, Wire, FromRow, Flushed, Dropped, Rescued;
    if life.enabled {
      RetryIsPass(Expire(l, life.expired), life.ids, life.answers);
      RetryFrame(Expire(l, life.expired), life.ids, life.answers);
      var left := RetryAll(Expire(l, life.expired), life.ids, life.answers).store;
      RunKeepsConserved(life.limits, Some(left), life.events);
    } else {
      RunKeepsConserved(life.limits, None, life.events);
    }
  }

  // ---------------------------------------------------------------- every changeset in one place

  /** Each changeset received was delivered by a flush, dropped, left in memory, or saved. */
  ghost predicate Shared(l: Ledger) {
    multiset(l.received)
    == multiset(l.flushed) + multiset(l.dropped) + multiset(l.leftover) + multiset(l.saved)
  }

  /** Each saved one is in the store, or was deleted after a delivery, or expired; only one of these. */
  ghost predicate Filed(l: Ledger) {
    && |l.saved| == l.store.nextId
    && (forall id :: id in l.store.rows || id in l.retired || id in l.expired <==> 0 <= id < |l.saved|)
    && l.store.rows.Keys !! l.retired && l.store.rows.Keys !! l.expired && l.retired !! l.expired
  }

  /** Rows keep their content, and what was deleted as delivered was delivered. */
  ghost predicate Honest(l: Ledger) {
    && (forall cs :: cs in l.saved ==> cs.timestamp >= 0)
    && (forall id :: id in l.store.rows && id < |l.saved| ==>
          l.store.rows[id] == ToRow(l.saved[id]).(retries := l.store.rows[id].retries))
    && (forall id :: id in l.retired && id < |l.saved| ==> Wire(FromRow(ToRow(l.saved[id]))) in l.resent)
  }

  ghost predicate Balanced(l: Ledger) {
    Shared(l) && Filed(l) && Honest(l)
  }

  lemma ExpireBalanced(l: Ledger, aged: set<nat>)
    requires Balanced(l)
    ensures Balanced(Expire(l, aged))
  {
  }

  lemma TurnFiled(l: Ledger, id: nat, a: RetryAnswer)
    requires Filed(l)
    ensures Filed(RetryTurn(l, id, a))
  {
    hide Wire, FromRow;
  }

  lemma TurnHonest(l: Ledger, id: nat, a: RetryAnswer)
    requires Filed(l) && Honest(l)
    ensures Honest(RetryTurn(l, id, a))
  {
    var l' := RetryTurn(l, id, a);
    if id in l.store.rows {
      assert FromRow(l.store.rows[id]) == FromRow(ToRow(l.saved[id]));
      hide Wire, FromRow, ToRow;
      assert forall p :: p in l.resent ==> p in l'.resent;
    }
  }

  lemma {:induction false} RetryBalanced(l: Ledger, ids: seq<nat>, answers: nat -> RetryAnswer)
    requires Balanced(l)
    ensures Balanced(RetryAll(l, ids, answers))
  {
    if ids != [] {
      hide Filed, Honest;
      var n := |ids| - 1;
      RetryBalanced(l, ids[..n], answers);
      TurnFiled(RetryAll(l, ids[..n], answers), ids[n], answers(ids[n]));
      TurnHonest(RetryAll(l, ids[..n], answers), ids[n], answers(ids[n]));
    }
  }

  // ---------------------------------------------------------------- the loop's share

  lemma {:induction false} SavedOrNot(batch: seq<Changeset>, inserted: nat -> bool)
    ensures multiset(batch) == multiset(Saved(batch, inserted)) + multiset(Unsaved(batch, inserted))
  {
    if batch != [] {
      var n := |batch| - 1;
      SavedOrNot(batch[..n], inserted);
      assert batch == batch[..n] + [batch[n]];
    }
  }

  lemma {:induction false} AttemptsShared(attempts: seq<Attempt>, enabled: bool)
    ensures multiset(Flatten(Batches(attempts)))
         == multiset(Flushed(attempts)) + multiset(Dropped(attempts, enabled))
            + multiset(if enabled then Rescued(attempts) else [])
  {
    if attempts != [] {
      var n := |attempts| - 1;
      var last := attempts[n];
      AttemptsShared(attempts[..n], enabled);
      assert Batches(attempts)[..n] == Batches(attempts[..n]);
      SavedOrNot(last.batch, last.answer.inserted);
    }
  }

  lemma LoopConserved(store: Option<Store>, life: Life)
    ensures Conserved(LoopEnd(store, life), store)
  {
    hide Conserved;
    RunKeepsConserved(life.limits, store, life.events);
    PushAllConserved(Run(Init(life.limits, store), life.events), life.tail, store);
  }

  lemma RecordShared(l: Ledger, s: SenderState, enabled: bool)
    requires Shared(l) && InOrder(s)
    ensures Shared(Record(l, s, enabled))
  {
    hide Flushed, Dropped, Rescued;
    AttemptsShared(s.attempts, enabled);
  }

  lemma {:induction false} SaveAllEffect(store: Store, kept: seq<Changeset>)
    requires forall i :: 0 <= i < |kept| ==> kept[i].timestamp >= 0
    ensures var store' := SaveAll(store, kept);
            && store'.nextId == store.nextId + |kept|
            && (forall id :: id in store'.rows <==> id in store.rows || store.nextId <= id < store.nextId + |kept|)
            && (forall id :: store.nextId <= id < store.nextId + |kept| ==>
                  store'.rows[id] == ToRow(kept[id - store.nextId]))
            && (forall id :: id in store.rows && id < store.nextId ==> store'.rows[id] == store.rows[id])
  {
    hide ToRow;
    if kept != [] {
      SaveAllEffect(store, kept[..|kept| - 1]);
    }
  }

  lemma SaveFiled(l: Ledger, kept: seq<Changeset>)
    requires Filed(l) && Honest(l) && forall i :: 0 <= i < |kept| ==> kept[i].timestamp >= 0
    ensures var l' := l.(store := SaveAll(l.store, kept), saved := l.saved + kept);
            Filed(l') && Honest(l')
  {
    hide ToRow, Wire, FromRow, SaveAll;
    SaveAllEffect(l.store, kept);
  }

  lemma LoopBalanced(l: Ledger, life: Life)
    requires Balanced(l)
    ensures var store := if life.enabled then Some(l.store) else None;
            Balanced(Record(l, LoopEnd(store, life), life.enabled))
  {
    hide Filed, Honest, Shared, LoopEnd, InOrder;
    var store := if life.enabled then Some(l.store) else None;
    var s := LoopEnd(store, life);
    LoopConserved(store, life);
    RecordShared(l, s, life.enabled);
    var l' := Record(l, s, life.enabled);
    if life.enabled {
      SaveFiled(l, Rescued(s.attempts));
      SameBooks(l.(store := SaveAll(l.store, Rescued(s.attempts)), saved := l.saved + Rescued(s.attempts)), l');
    } else {
      SameBooks(l, l');
    }
  }

  lemma SameBooks(a: Ledger, b: Ledger)
    requires Filed(a) && Honest(a)
    requires b == a.(received := b.received, flushed := b.flushed, dropped := b.dropped, leftover := b.leftover)
    ensures Filed(b) && Honest(b)
  {
    hide ToRow, Wire, FromRow;
  }

  /**
   Over any sequence of lives, whatever fails and wherever they end: each changeset received was delivered
   by a flush, or left in memory at an end, or dropped by a failed save or for want of recovery, or saved;
   and each one saved is still in the store with its content, or was delivered by a retry and then deleted,
   or expired.  Nothing is in two places and nothing is missing.
   */
  lemma {:induction false} LivesBalanced(lives: seq<Life>)
    ensures Balanced(LiveAll(NewLedger(), lives))
  {
    if lives != [] {
      hide Balanced, LoopEnd;
      var n := |lives| - 1;
      LivesBalanced(lives[..n]);
      var l, life := LiveAll(NewLedger(), lives[..n]), lives[n];
      ExpireBalanced(l, life.expired);
      RetryBalanced(Expire(l, life.expired), life.ids, life.answers);
      LoopBalanced(if life.enabled then RetryAll(Expire(l, life.expired), life.ids, life.answers) else l, life);
    }
  }

  // ---------------------------------------------------------------- nothing lost

  /** The time is not before the epoch, and its seconds fit in 64 bits. */
  predicate Timely(cs: Changeset) {
    0 <= cs.timestamp / NANOS < TWO_64
  }

  /** The channel stays open, every save would be accepted, every changeset has a proper time. */
  ghost predicate Orderly(e: Event) {
    match e
    case Receive(cs, _, a) => Timely(cs) && forall n :: a.inserted(n)
    case ChannelClosed => false
    case ShutdownSignal(drained, a) => (forall cs :: cs in drained ==> Timely(cs)) && forall n :: a.inserted(n)
  }

  /** Recovery is on, no row is deleted for its age, and the loop, if it begins, ends by shutdown. */
  ghost predicate Careful(life: Life) {
    && life.enabled && life.expired == {}
    && (life.diedRetrying
        || (&& life.events != [] && life.events[|life.events| - 1].ShutdownSignal?
            && forall i :: 0 <= i < |life.events| ==> Orderly(life.events[i])))
  }

  /** A sender that has kept everything, and nothing in memory once it has stopped. */
  ghost predicate Keeping(s: SenderState) {
    && Dropped(s.attempts, true) == [] && (forall cs :: cs in s.received ==> Timely(cs))
    && (forall cs :: cs in s.buffer ==> Timely(cs))
    && (!s.running ==> s.buffer == [])
  }

  lemma {:induction false} NoneUnsaved(batch: seq<Changeset>, inserted: nat -> bool)
    requires (forall cs :: cs in batch ==> Timely(cs)) && forall n :: inserted(n)
    ensures Unsaved(batch, inserted) == []
  {
    if batch != [] {
      NoneUnsaved(batch[..|batch| - 1], inserted);
      assert batch[|batch| - 1] in batch;
    }
  }

  lemma FlushKeeping(s: SenderState, a: FlushAnswer)
    requires s.running && Keeping(s) && forall n :: a.inserted(n)
    ensures var s' := FlushBuffer(s, a);
            Keeping(s') && s'.running && s'.buffer == []
  {
    hide Saved, SaveAll;
    if s.buffer != [] {
      assert (s.attempts + [Attempt(s.buffer, a)])[..|s.attempts|] == s.attempts;
      NoneUnsaved(s.buffer, a.inserted);
    }
  }

  lemma {:induction false} PushAllKeeping(s: SenderState, batch: seq<Changeset>)
    requires s.running && Keeping(s) && forall cs :: cs in batch ==> Timely(cs)
    ensures Keeping(PushAll(s, batch)) && PushAll(s, batch).running
  {
    if batch != [] {
      PushAllKeeping(s, batch[..|batch| - 1]);
      assert batch[|batch| - 1] in batch;
    }
  }

  lemma NextKeeping(s: SenderState, e: Event)
    requires Keeping(s) && Orderly(e)
    ensures Keeping(Next(s, e)) && (e.ShutdownSignal? ==> !Next(s, e).running)
  {
    hide FlushBuffer, PushAll;
    if s.running {
      match e
      case Receive(cs, _, a) => FlushKeeping(Push(s, cs), a);
      case ShutdownSignal(drained, a) =>
        PushAllKeeping(s, drained);
        FlushKeeping(PushAll(s, drained), a);
    }
  }

  lemma {:induction false} RunKeeping(limits: Limits, store: Store, events: seq<Event>)
    requires forall i :: 0 <= i < |events| ==> Orderly(events[i])
    ensures var s := Run(Init(limits, Some(store)), events);
            Keeping(s) && (events != [] && events[|events| - 1].ShutdownSignal? ==> !s.running)
  {
    if events != [] {
      hide Next, Keeping, Orderly;
      var n := |events| - 1;
      RunKeeping(limits, store, events[..n]);
      NextKeeping(Run(Init(limits, Some(store)), events[..n]), events[n]);
    }
  }

  lemma {:induction false} RetryFrame(l: Ledger, ids: seq<nat>, answers: nat -> RetryAnswer)
    ensures var l' := RetryAll(l, ids, answers);
            l' == l.(store := l'.store, resent := l'.resent, retired := l'.retired)
    ensures forall id :: id in RetryAll(l, ids, answers).store.rows ==> id in l.store.rows
  {
    if ids != [] {
      RetryFrame(l, ids[..|ids| - 1], answers);
    }
  }

  ghost predicate Lossless(l: Ledger) {
    && l.dropped == [] && l.leftover == [] && l.expired == {}
    && forall cs :: cs in l.received ==> Timely(cs)
  }

  lemma LiveLossless(l: Ledger, life: Life)
    requires Lossless(l) && Careful(life)
    ensures Lossless(Live(l, life))
  {
    hide RetryAll, Dropped;
    RetryFrame(Expire(l, {}), life.ids, life.answers);
    if !life.diedRetrying {
      RunKeeping(life.limits, RetryAll(Expire(l, {}), life.ids, life.answers).store, life.events);
    }
  }

  lemma {:induction false} LivesLossless(lives: seq<Life>)
    requires forall i :: 0 <= i < |lives| ==> Careful(lives[i])
    ensures Lossless(LiveAll(NewLedger(), lives))
  {
    if lives != [] {
      hide Live, Careful, Lossless;
      var n := |lives| - 1;
      LivesLossless(lives[..n]);
      LiveLossless(LiveAll(NewLedger(), lives[..n]), lives[n]);
    }
  }

  /** This payload was delivered, or waits in the store. */
  ghost predicate Delivered(l: Ledger, p: Payload) {
    p in l.resent || exists cs :: cs in l.flushed && Wire(cs) == p
  }

  ghost predicate Waiting(l: Ledger, p: Payload) {
    exists id :: id in l.store.rows && Wire(FromRow(l.store.rows[id])) == p
  }

  lemma SavedSomewhere(l: Ledger, id: nat)
    requires Filed(l) && Honest(l) && id < |l.saved| && id !in l.expired && Timely(l.saved[id])
    ensures Delivered(l, Wire(l.saved[id])) || Waiting(l, Wire(l.saved[id]))
    ensures id !in l.store.rows ==> Delivered(l, Wire(l.saved[id]))
  {
    SavedKeepsPayload(l.saved[id]);
    assert l.saved[id] in l.saved;
    if id in l.store.rows {
      assert FromRow(l.store.rows[id]) == FromRow(ToRow(l.saved[id]));
    }
  }

  /**
   At least once: over careful lives, flushes and retries failing as they may and processes dying in the
   middle of a retry, every changeset received has been delivered with its own payload or waits in the
   store with it.
   */
  lemma NothingLost(lives: seq<Life>, cs: Changeset)
    requires forall i :: 0 <= i < |lives| ==> Careful(lives[i])
    requires cs in LiveAll(NewLedger(), lives).received
    ensures var l := LiveAll(NewLedger(), lives);
            Delivered(l, Wire(cs)) || Waiting(l, Wire(cs))
  {
    var l := LiveAll(NewLedger(), lives);
    hide LiveAll, Wire;
    LivesBalanced(lives);
    LivesLossless(lives);
    assert cs in multiset(l.received);
    if cs !in multiset(l.flushed) {
      assert cs in multiset(l.saved);
      var id :| 0 <= id < |l.saved| && l.saved[id] == cs;
      hide Honest, Filed, Waiting, Delivered;
      assert id !in l.expired && Timely(cs);
      SavedSomewhere(l, id);
    }
  }

  lemma {:induction false} RetryEmpties(l: Ledger, ids: seq<nat>, answers: nat -> RetryAnswer)
    requires forall id :: answers(id) == RetryAnswer(true, true)
    ensures forall id :: id in RetryAll(l, ids, answers).store.rows ==> id in l.store.rows && id !in ids
  {
    if ids != [] {
      hide Wire, FromRow;
      var n := |ids| - 1;
      RetryEmpties(l, ids[..n], answers);
      assert ids == ids[..n] + [ids[n]];
    }
  }

  /**
   After careful lives, one start at which every row is listed, sent and deleted empties the store, and
   then every changeset ever received has been delivered.
   */
  lemma OneGoodStart(lives: seq<Life>, ids: seq<nat>, answers: nat -> RetryAnswer, cs: Changeset)
    requires forall i :: 0 <= i < |lives| ==> Careful(lives[i])
    requires var l := LiveAll(NewLedger(), lives);
             Listing(l.store, ids) && cs in l.received
    requires forall id :: answers(id) == RetryAnswer(true, true)
    ensures var l' := RetryAll(LiveAll(NewLedger(), lives), ids, answers);
            l'.store.rows == map[] && Delivered(l', Wire(cs))
  {
    var l := LiveAll(NewLedger(), lives);
    hide LiveAll, Wire, RetryAll;
    LivesBalanced(lives);
    LivesLossless(lives);
    RetryEmpties(l, ids, answers);
    RetryFrame(l, ids, answers);
    RetryBalanced(l, ids, answers);
    var l' := RetryAll(l, ids, answers);
    assert l'.store.rows == map[];
    assert cs in multiset(l.received);
    if cs !in multiset(l.flushed) {
      assert cs in multiset(l.saved);
      var id :| 0 <= id < |l.saved| && l.saved[id] == cs;
      hide Honest, Filed, Waiting, Delivered;
      assert id !in l'.expired && Timely(cs);
      SavedSomewhere(l', id);
    }
  }

  // ---------------------------------------------------------------- the sender's run

  /** `run`: retry what earlier lives left, then loop until an event ends it. */
  method RunSender(limits: Limits, recovery: FailedBatchRecovery?, expired: set<nat>, readable: bool,
                   answers: nat -> RetryAnswer, events: seq<Event>)
    returns (sender: ChangesetSender, resent: seq<Payload>, ids: seq<nat>)
    modifies recovery
    ensures fresh(sender) && sender.recovery == recovery
    ensures recovery == null ==> resent == [] && sender.Value() == Run(Init(limits, None), events)
    ensures recovery != null ==>
              var rows := old(recovery.rows) - expired;
              var store := Store(Pass(rows, ids, answers), old(recovery.nextId));
              && (readable ==> Listing(Store(rows, old(recovery.nextId)), ids) && resent == Sent(rows, ids, answers))
              && (!readable ==> ids == [] && resent == [])
              && sender.Value() == Run(Init(limits, Some(store)), events)
  {
    resent, ids := [], [];
    if recovery != null {
      resent, ids := RetryFailedChangesets(recovery, expired, readable, answers);
    }
    sender := new ChangesetSender(limits, recovery);
    ghost var s0 := sender.Value();
    var goesOn := true;
    hide Sent, Pass, Listing;
    for n := 0 to |events|
      invariant fresh(sender) && fresh(sender.stats) && sender.recovery == recovery
      invariant sender.Value() == Run(s0, events[..n]) && goesOn == sender.running
    {
      assert events[..n + 1][..n] == events[..n];
      if goesOn {
        goesOn := sender.Turn(events[n]);
      }
    }
    assert events[..|events|] == events;
  }
}
