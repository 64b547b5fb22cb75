/**
 The sequencer's batcher (crates/synddb-sequencer/src/batcher.rs): one event loop that collects
 signed messages and publishes them.  Whether a batch is signed and published is the
 environment's answer, carried by the event.
 */
module Batching {
  import opened Sequences

  datatype Message = Message(seqno: nat, size: nat)
  datatype Limits = Limits(maxMessages: nat, maxBytes: nat)

  /** One attempt to publish: the messages drained for it and whether it went through. */
  datatype Attempt = Attempt(batch: seq<Message>, ok: bool)

  datatype BatcherState = BatcherState(
    limits: Limits,
    pending: seq<Message>,
    pendingBytes: nat,
    attempts: seq<Attempt>,
    batchesPublished: nat,
    messagesPublished: nat,
    running: bool)

  datatype Event =
    | Add(message: Message, ok: bool)
    | Flush(ok: bool)
    | GetStats
    | Shutdown(ok: bool)
    | Tick(due: bool, ok: bool)

  function Bytes(messages: seq<Message>): (total: nat) {
    if messages == [] then 0 else Bytes(messages[..|messages| - 1]) + messages[|messages| - 1].size
  }

  function Batches(attempts: seq<Attempt>): (batches: seq<seq<Message>>)
    ensures |batches| == |attempts|
    ensures forall i :: 0 <= i < |attempts| ==> batches[i] == attempts[i].batch
  {
    seq(|attempts|, i requires 0 <= i < |attempts| => attempts[i].batch)
  }

  /** The batches that went through (`ok`) or were lost (`!ok`), in order. */
  function Chosen(attempts: seq<Attempt>, ok: bool): (batches: seq<seq<Message>>) {
    if attempts == [] then []
    else
      var last := attempts[|attempts| - 1];
      var earlier := Chosen(attempts[..|attempts| - 1], ok);
      if last.ok == ok then earlier + [last.batch] else earlier
  }

  function Init(limits: Limits): BatcherState {
    BatcherState(limits, [], 0, [], 0, 0, true)
  }

  /** `flush_batch`: the messages are drained before the attempt, so a failed one loses them. */
  function FlushPending(s: BatcherState, ok: bool): BatcherState {
    if s.pending == [] then s
    else s.(pending := [], pendingBytes := 0,
            attempts := s.attempts + [Attempt(s.pending, ok)],
            batchesPublished := s.batchesPublished + if ok then 1 else 0,
            messagesPublished := s.messagesPublished + if ok then |s.pending| else 0)
  }

  predicate Full(s: BatcherState) {
    |s.pending| >= s.limits.maxMessages || s.pendingBytes >= s.limits.maxBytes
  }

  function AddPending(s: BatcherState, m: Message, ok: bool): BatcherState {
    var s' := s.(pending := s.pending + [m], pendingBytes := s.pendingBytes + m.size);
    if Full(s') then FlushPending(s', ok) else s'
  }

  /** One turn of the event loop; a stopped loop takes no more turns. */
  function Next(s: BatcherState, e: Event): BatcherState {
    if !s.running then s
    else
      match e
      case Add(m, ok) => AddPending(s, m, ok)
      case Flush(ok) => FlushPending(s, ok)
      case GetStats => s
      case Shutdown(ok) => FlushPending(s, ok).(running := false)
      case Tick(due, ok) => if due then FlushPending(s, ok) else s
  }

  function Run(s: BatcherState, events: seq<Event>): BatcherState {
    if events == [] then s else Next(Run(s, events[..|events| - 1]), events[|events| - 1])
  }

  // ---------------------------------------------------------------- limits and statistics

  predicate WithinLimits(batch: seq<Message>, limits: Limits) {
    0 < |batch| <= limits.maxMessages && Bytes(batch[..|batch| - 1]) < limits.maxBytes
  }

  ghost predicate Bounded(s: BatcherState) {
    && s.pendingBytes == Bytes(s.pending)
    && |s.pending| < s.limits.maxMessages
    && s.pendingBytes < s.limits.maxBytes
    && (forall i :: 0 <= i < |s.attempts| ==> WithinLimits(s.attempts[i].batch, s.limits))
    && s.batchesPublished == |Chosen(s.attempts, true)|
    && s.messagesPublished == |Flatten(Chosen(s.attempts, true))|
    && (!s.running ==> s.pending == [])
  }

  lemma ChosenSnoc(attempts: seq<Attempt>, a: Attempt, ok: bool)
    ensures Chosen(attempts + [a], ok)
         == if a.ok == ok then Chosen(attempts, ok) + [a.batch] else Chosen(attempts, ok)
  {
    assert (attempts + [a])[..|attempts|] == attempts;
  }

  lemma FlushStatistics(s: BatcherState, ok: bool)
    requires s.batchesPublished == |Chosen(s.attempts, true)|
    requires s.messagesPublished == |Flatten(Chosen(s.attempts, true))|
    ensures var s' := FlushPending(s, ok);
            && s'.batchesPublished == |Chosen(s'.attempts, true)|
            && s'.messagesPublished == |Flatten(Chosen(s'.attempts, true))|
  {
    ChosenSnoc(s.attempts, Attempt(s.pending, ok), true);
    FlattenSnoc(Chosen(s.attempts, true), s.pending);
  }

  lemma NextBounded(s: BatcherState, e: Event)
    requires Bounded(s)
    ensures Bounded(Next(s, e))
  {
    if s.running {
      match e
      case Add(m, ok) =>
        var s' := s.(pending := s.pending + [m], pendingBytes := s.pendingBytes + m.size);
        assert s'.pending[..|s.pending|] == s.pending;
        FlushStatistics(s', ok);
      case Flush(ok) => FlushOfBounded(s, ok);
      case GetStats =>
      case Shutdown(ok) => FlushOfBounded(s, ok);
      case Tick(_, ok) => FlushOfBounded(s, ok);
    }
  }

  lemma FlushOfBounded(s: BatcherState, ok: bool)
    requires Bounded(s)
    ensures Bounded(FlushPending(s, ok)) && FlushPending(s, ok).pending == []
  {
    FlushStatistics(s, ok);
    if s.pending != [] {
      BytesPrefix(s.pending);
    }
  }

  lemma BytesPrefix(batch: seq<Message>)
    requires batch != []
    ensures Bytes(batch[..|batch| - 1]) <= Bytes(batch)
  {
  }

  /**
   With limits of at least 1, after every command, flushes failing or not: the byte counter is
   exact, both limits are strictly respected by what is pending, every attempted batch has
   between one and `maxMessages` messages and is below `maxBytes` without its last one, and the
   statistics count exactly what went through.
   */
  lemma {:induction false} RunBounded(limits: Limits, events: seq<Event>)
    requires limits.maxMessages >= 1 && limits.maxBytes >= 1
    ensures Bounded(Run(Init(limits), events)) && Run(Init(limits), events).limits == limits
  {
    if events != [] {
      var n := |events| - 1;
      RunBounded(limits, events[..n]);
      NextBounded(Run(Init(limits), events[..n]), events[n]);
    }
  }

  // ---------------------------------------------------------------- when a batch is attempted

  function Attempted(b: BatcherState): seq<Message> {
    Flatten(Batches(b.attempts))
  }

  lemma AttemptedFlush(b: BatcherState, ok: bool)
    ensures Attempted(FlushPending(b, ok)) == Attempted(b) + b.pending
  {
    if b.pending != [] {
      var a := Attempt(b.pending, ok);
      assert Batches(b.attempts + [a]) == Batches(b.attempts) + [a.batch];
      FlattenSnoc(Batches(b.attempts), b.pending);
    }
  }

  /** One turn of the batcher moves messages on without reordering, dropping or inventing any. */
  lemma TurnKeepsOrder(b: BatcherState, e: Event)
    requires b.running
    ensures var b' := Next(b, e);
            Attempted(b') + b'.pending == Attempted(b) + b.pending + if e.Add? then [e.message] else []
    ensures !Next(b, e).running ==> e.Shutdown? && Next(b, e).pending == []
  {
    match e
    case Add(m, ok) =>
      var b1 := b.(pending := b.pending + [m], pendingBytes := b.pendingBytes + m.size);
      AttemptedFlush(b1, ok);
      assert Attempted(b1) == Attempted(b);
    case Flush(ok) => AttemptedFlush(b, ok);
    case GetStats =>
    case Shutdown(ok) => AttemptedFlush(b, ok);
    case Tick(_, ok) => AttemptedFlush(b, ok);
  }

  /** An event that flushes whatever is pending. */
  predicate Flushes(e: Event) {
    e.Flush? || e.Shutdown? || (e.Tick? && e.due)
  }

  function Answer(e: Event): bool {
    if e.GetStats? then false else e.ok
  }

  /**
   Exactly which turns attempt a batch: a flush, a shutdown or a due tick when something is pending, and
   an added message that reaches a limit; then the batch is all that is pending.  No other turn attempts
   anything, and only a shutdown stops the loop.
   */
  lemma AttemptExact(s: BatcherState, e: Event)
    requires s.running
    ensures var s' := Next(s, e);
            var batch := s.pending + if e.Add? then [e.message] else [];
            var attempted := || (Flushes(e) && s.pending != [])
                             || (e.Add? && (|s.pending| + 1 >= s.limits.maxMessages
                                            || s.pendingBytes + e.message.size >= s.limits.maxBytes));
            && s'.attempts == (if attempted then s.attempts + [Attempt(batch, Answer(e))] else s.attempts)
            && s'.pending == (if attempted then [] else batch)
            && (s'.running <==> !e.Shutdown?)
  {
    assert e.Add? ==> s.pending + [e.message] != [];
    assert s.pending + [] == s.pending;
  }

  function Added(events: seq<Event>): (messages: seq<Message>) {
    if events == [] then []
    else
      var last := events[|events| - 1];
      Added(events[..|events| - 1]) + if last.Add? then [last.message] else []
  }

  lemma {:induction false} RunKeepsOrder(limits: Limits, events: seq<Event>)
    requires Run(Init(limits), events).running
    ensures var s := Run(Init(limits), events);
            Attempted(s) + s.pending == Added(events)
  {
    hide Attempted;
    if events == [] {
      NothingAttempted(limits);
    } else {
      hide FlushPending, AddPending;
      var n := |events| - 1;
      RunKeepsOrder(limits, events[..n]);
      TurnKeepsOrder(Run(Init(limits), events[..n]), events[n]);
    }
  }

  lemma NothingAttempted(limits: Limits)
    ensures Attempted(Init(limits)) == []
  {
    assert Batches([]) == [];
  }

  /**
   In every run of the loop, once a flush, a due tick or a shutdown has been served, every message added
   before it is in an attempted batch, and the batches end to end are the messages in the order added.
   */
  lemma DueMeansAttempted(limits: Limits, events: seq<Event>, e: Event)
    requires Run(Init(limits), events).running && Flushes(e)
    ensures var s := Run(Init(limits), events + [e]);
            Attempted(s) == Added(events) && s.pending == []
  {
    var s := Run(Init(limits), events);
    assert (events + [e])[..|events|] == events;
    RunKeepsOrder(limits, events);
    TurnKeepsOrder(s, e);
    AttemptExact(s, e);
    hide Attempted;
    var s' := Next(s, e);
    assert Attempted(s') + [] == Attempted(s') && Added(events) + [] == Added(events);
  }

  // ---------------------------------------------------------------- the task itself

  class Batcher {
    const limits: Limits
    var pending: seq<Message>
    var pendingBytes: nat
    var batchesPublished: nat
    var messagesPublished: nat
    ghost var attempts: seq<Attempt>
    var running: bool

    ghost function Value(): BatcherState
      reads this
    {
      BatcherState(limits, pending, pendingBytes, attempts, batchesPublished, messagesPublished, running)
    }

    constructor (limits: Limits)
      ensures Value() == Init(limits)
    {
      this.limits := limits;
      pending, pendingBytes := [], 0;
      batchesPublished, messagesPublished := 0, 0;
      attempts, running := [], true;
    }

    method FlushBatch(ok: bool) returns (published: bool)
      modifies this
      ensures Value() == FlushPending(old(Value()), ok)
      ensures published <==> ok && old(pending) != []
    {
      if pending == [] {
        return false;
      }
      var messages := pending;
      pending := [];
      pendingBytes := 0;
      attempts := attempts + [Attempt(messages, ok)];
      if ok {
        batchesPublished := batchesPublished + 1;
        messagesPublished := messagesPublished + |messages|;
      }
      published := ok;
    }

    method HandleAddMessage(m: Message, ok: bool)
      modifies this
      ensures Value() == AddPending(old(Value()), m, ok)
    {
      pending := pending + [m];
      pendingBytes := pendingBytes + m.size;
      if |pending| >= limits.maxMessages || pendingBytes >= limits.maxBytes {
        var _ := FlushBatch(ok);
      }
    }

    /** The event loop, up to shutdown or the end of the events seen so far. */
    method RunLoop(events: seq<Event>)
      requires running
      modifies this
      ensures Value() == Run(old(Value()), events)
    {
      ghost var s0 := Value();
      var i := 0;
      while running && i < |events|
        invariant 0 <= i <= |events| && limits == s0.limits
        invariant Value() == Run(s0, events[..i])
      {
        assert events[..i + 1][..i] == events[..i];
        match events[i] {
          case Add(m, ok) => HandleAddMessage(m, ok);
          case Flush(ok) => var _ := FlushBatch(ok);
          case GetStats =>
          case Shutdown(ok) =>
            if pending != [] {
              var _ := FlushBatch(ok);
            }
            running := false;
          case Tick(due, ok) =>
            if pending != [] && due {
              var _ := FlushBatch(ok);
            }
        }
        i := i + 1;
      }
      StoppedStays(s0, events, i);
      assert events[..|events|] == events;
    }
  }

  lemma {:induction false} StoppedStays(s: BatcherState, events: seq<Event>, i: nat)
    requires i <= |events| && (i == |events| || !Run(s, events[..i]).running)
    ensures Run(s, events) == Run(s, events[..i])
    decreases |events|
  {
    if i == |events| {
      assert events[..i] == events;
    } else {
      var n := |events| - 1;
      assert events[..n][..i] == events[..i];
      StoppedStays(s, events[..n], i);
    }
  }
}
