/**
 The sequencer as an interleaved protocol: the inbox (crates/synddb-sequencer/src/inbox.rs) hands
 out numbers, any number of handlers sign and race to the bounded command channel, and the
 batcher drains that channel in order (crates/synddb-sequencer/src/batcher.rs).
 */
module Sequencing {
  import opened Sequences
  import opened Batching

  const CHANNEL_CAPACITY: nat := 1024

  datatype Command = AddMessage(message: Message) | FlushNow | Statistics | Stop

  datatype State = State(
    start: nat,
    next: nat,                 // the inbox counter
    signing: set<nat>,         // numbered, not yet signed
    signed: map<nat, nat>,     // signed, waiting to be sent: number to size
    failed: seq<nat>,          // signing failed
    rejected: seq<nat>,        // the channel was closed
    enqueued: seq<Message>,    // everything ever sent, in channel order
    channel: seq<Command>,
    batcher: BatcherState,
    discarded: seq<Message>)   // still in the channel when the batcher stopped

  datatype Step =
    | Assign
    | SignFailed(n: nat)
    | Sign(n: nat, size: nat)
    | Send(n: nat)
    | SendControl(command: Command)
    | Receive(ok: bool)
    | TimerTick(due: bool, ok: bool)

  function Init(start: nat, limits: Limits): State {
    State(start, start, {}, map[], [], [], [], [], Batching.Init(limits), [])
  }

  function Adds(channel: seq<Command>): (messages: seq<Message>) {
    if channel == [] then []
    else
      var rest := Adds(channel[1..]);
      if channel[0].AddMessage? then [channel[0].message] + rest else rest
  }

  function ToEvent(c: Command, ok: bool): Event {
    match c
    case AddMessage(m) => Add(m, ok)
    case FlushNow => Flush(ok)
    case Statistics => GetStats
    case Stop => Shutdown(ok)
  }

  /** A stopped batcher drops its receiver: what is left in the channel is gone. */
  function Received(s: State, ok: bool): State
    requires s.channel != []
  {
    var b := Batching.Next(s.batcher, ToEvent(s.channel[0], ok));
    var rest := s.channel[1..];
    if b.running then s.(batcher := b, channel := rest)
    else s.(batcher := b, channel := [], discarded := s.discarded + Adds(rest))
  }

  /** A step whose condition does not hold leaves the state alone. */
  function Next(s: State, step: Step): State {
    match step
    case Assign => s.(next := s.next + 1, signing := s.signing + {s.next})
    case SignFailed(n) =>
      if n in s.signing then s.(signing := s.signing - {n}, failed := s.failed + [n]) else s
    case Sign(n, size) =>
      if n in s.signing then s.(signing := s.signing - {n}, signed := s.signed[n := size]) else s
    case Send(n) =>
      if n !in s.signed then s
      else if !s.batcher.running then s.(signed := s.signed - {n}, rejected := s.rejected + [n])
      else if |s.channel| >= CHANNEL_CAPACITY then s
      else
        var m := Message(n, s.signed[n]);
        s.(signed := s.signed - {n}, enqueued := s.enqueued + [m], channel := s.channel + [AddMessage(m)])
    case SendControl(c) =>
      if s.batcher.running && |s.channel| < CHANNEL_CAPACITY && !c.AddMessage?
      then s.(channel := s.channel + [c]) else s
    case Receive(ok) => if s.batcher.running && s.channel != [] then Received(s, ok) else s
    case TimerTick(due, ok) => s.(batcher := Batching.Next(s.batcher, Tick(due, ok)))
  }

  function Run(s: State, steps: seq<Step>): State {
    if steps == [] then s else Next(Run(s, steps[..|steps| - 1]), steps[|steps| - 1])
  }

  lemma RunSnoc(s: State, steps: seq<Step>, step: Step)
    ensures Run(s, steps + [step]) == Next(Run(s, steps), step)
  {
    assert (steps + [step])[..|steps|] == steps;
  }

  // ---------------------------------------------------------------- the channel keeps the order

  /** What was sent is, in order: what was attempted, what is pending, what is in the channel, what was dropped. */
  ghost predicate InOrder(s: State) {
    && s.enqueued == Attempted(s.batcher) + s.batcher.pending + Adds(s.channel) + s.discarded
    && (s.batcher.running ==> s.discarded == [])
    && (!s.batcher.running ==> s.batcher.pending == [] && s.channel == [])
  }

  lemma {:induction false} AddsSnoc(channel: seq<Command>, c: Command)
    ensures Adds(channel + [c]) == if c.AddMessage? then Adds(channel) + [c.message] else Adds(channel)
  {
    if channel == [] {
      assert channel + [c] == [c];
      assert Adds([c][1..]) == [];
    } else {
      AddsSnoc(channel[1..], c);
      assert (channel + [c])[1..] == channel[1..] + [c];
    }
  }

  lemma SendInOrder(s: State, n: nat)
    requires InOrder(s) && n in s.signed
    ensures InOrder(Next(s, Send(n)))
  {
    var m := Message(n, s.signed[n]);
    AddsSnoc(s.channel, AddMessage(m));
    var before := Attempted(s.batcher) + s.batcher.pending;
    assert s.discarded == [] ==> before + Adds(s.channel) + [m] == before + (Adds(s.channel) + [m]);
  }

  /** A message that leaves the channel for the batcher stays where it was in the order. */
  lemma HeadMoves(sent: seq<Message>, behind: seq<Message>, channel: seq<Command>, behind': seq<Message>)
    requires channel != [] && sent == behind + Adds(channel)
    requires behind' == behind + if channel[0].AddMessage? then [channel[0].message] else []
    ensures sent == behind' + Adds(channel[1..])
  {
  }

  lemma ReceiveInOrder(s: State, ok: bool)
    requires InOrder(s) && s.batcher.running && s.channel != []
    ensures InOrder(Received(s, ok))
  {
    hide Attempted, Adds, FlushPending, AddPending;
    var e := ToEvent(s.channel[0], ok);
    TurnKeepsOrder(s.batcher, e);
    var b := Batching.Next(s.batcher, e);
    assert s.enqueued == Attempted(s.batcher) + s.batcher.pending + Adds(s.channel);
    HeadMoves(s.enqueued, Attempted(s.batcher) + s.batcher.pending, s.channel, Attempted(b) + b.pending);
    assert s.discarded + Adds(s.channel[1..]) == Adds(s.channel[1..]);
    assert !b.running ==> Attempted(b) + b.pending + Adds([]) + Adds(s.channel[1..]) == s.enqueued by {
      NoAdds();
    }
  }

  lemma NoAdds()
    ensures Adds([]) == []
  {
  }

  lemma TickInOrder(s: State, due: bool, ok: bool)
    requires InOrder(s)
    ensures InOrder(Next(s, TimerTick(due, ok)))
  {
    hide Attempted;
    if s.batcher.running {
      TurnKeepsOrder(s.batcher, Tick(due, ok));
    }
  }

  lemma NextInOrder(s: State, step: Step)
    requires InOrder(s)
    ensures InOrder(Next(s, step))
  {
    match step
    case Send(n) =>
      if n in s.signed {
        SendInOrder(s, n);
      }
    case SendControl(c) => AddsSnoc(s.channel, c);
    case Receive(ok) =>
      if s.batcher.running && s.channel != [] {
        ReceiveInOrder(s, ok);
      }
    case TimerTick(due, ok) => TickInOrder(s, due, ok);
    case _ =>
  }

  // ---------------------------------------------------------------- every number in one place

  function Numbers(messages: seq<Message>): (numbers: seq<nat>)
    ensures |numbers| == |messages|
    ensures forall i :: 0 <= i < |messages| ==> numbers[i] == messages[i].seqno
  {
    seq(|messages|, i requires 0 <= i < |messages| => messages[i].seqno)
  }

  lemma NumbersConcat(a: seq<Message>, b: seq<Message>)
    ensures Numbers(a + b) == Numbers(a) + Numbers(b)
  {
  }

  function One(b: bool): nat {
    if b then 1 else 0
  }

  ghost function Times(n: nat, messages: seq<Message>): nat {
    multiset(Numbers(messages))[n]
  }

  lemma TimesConcat(n: nat, a: seq<Message>, b: seq<Message>)
    ensures Times(n, a + b) == Times(n, a) + Times(n, b)
  {
    NumbersConcat(a, b);
  }

  /** How often number n is held, the channel and everything behind it taken together. */
  ghost function Held(s: State, n: nat): nat {
    One(n in s.signing) + One(n in s.signed) + multiset(s.failed)[n] + multiset(s.rejected)[n]
    + Times(n, s.enqueued)
  }

  ghost predicate Accounted(s: State) {
    s.start <= s.next && forall n: nat :: Held(s, n) == One(s.start <= n < s.next)
  }

  lemma TimesSnoc(n: nat, messages: seq<Message>, m: Message)
    ensures Times(n, messages + [m]) == Times(n, messages) + One(m.seqno == n)
  {
    TimesConcat(n, messages, [m]);
    assert Numbers([m]) == [m.seqno];
  }

  lemma SendHeld(s: State, k: nat, n: nat)
    requires k in s.signed
    ensures Held(Next(s, Send(k)), n) == Held(s, n)
  {
    hide Times;
    TimesSnoc(n, s.enqueued, Message(k, s.signed[k]));
  }

  lemma SignHeld(s: State, k: nat, size: nat, n: nat)
    requires k in s.signing && Held(s, k) == 1
    ensures Held(Next(s, Sign(k, size)), n) == Held(s, n)
  {
    hide Times;
    assert k !in s.signed;
  }

  lemma NextHeld(s: State, step: Step, n: nat)
    requires Accounted(s)
    ensures Held(Next(s, step), n) == One(s.start <= n < Next(s, step).next)
  {
    hide Times, Adds, ToEvent, Batching.Next;
    assert Held(s, n) == One(s.start <= n < s.next);
    match step
    case Sign(k, size) =>
      assert Held(s, k) == One(s.start <= k < s.next);
      if k in s.signing {
        SignHeld(s, k, size, n);
      }
    case Send(k) =>
      if k in s.signed {
        SendHeld(s, k, n);
      }
    case _ =>
  }

  lemma NextAccounted(s: State, step: Step)
    requires Accounted(s)
    ensures Accounted(Next(s, step))
  {
    forall n: nat ensures Held(Next(s, step), n) == One(s.start <= n < Next(s, step).next) {
      NextHeld(s, step, n);
    }
  }

  /** How often number n occurs in the nine places a handed-out number can be in. */
  ghost function Places(s: State, n: nat): nat {
    One(n in s.signing) + One(n in s.signed) + multiset(s.failed)[n] + multiset(s.rejected)[n]
    + Times(n, Adds(s.channel)) + Times(n, s.batcher.pending)
    + Times(n, Flatten(Chosen(s.batcher.attempts, true)))
    + Times(n, Flatten(Chosen(s.batcher.attempts, false)))
    + Times(n, s.discarded)
  }

  lemma {:induction false} PublishedOrLost(attempts: seq<Attempt>, n: nat)
    ensures Times(n, Flatten(Batches(attempts)))
         == Times(n, Flatten(Chosen(attempts, true))) + Times(n, Flatten(Chosen(attempts, false)))
  {
    if attempts != [] {
      var last := |attempts| - 1;
      var a := attempts[last];
      PublishedOrLost(attempts[..last], n);
      assert Batches(attempts)[..last] == Batches(attempts[..last]);
      TimesConcat(n, Flatten(Batches(attempts[..last])), a.batch);
      FlattenSnoc(Chosen(attempts[..last], a.ok), a.batch);
      TimesConcat(n, Flatten(Chosen(attempts[..last], a.ok)), a.batch);
    }
  }

  lemma HeldIsPlaces(s: State, n: nat)
    requires InOrder(s)
    ensures Held(s, n) == Places(s, n)
  {
    var a, p, q := Attempted(s.batcher), s.batcher.pending, Adds(s.channel);
    TimesConcat(n, a + p + q, s.discarded);
    TimesConcat(n, a + p, q);
    TimesConcat(n, a, p);
    PublishedOrLost(s.batcher.attempts, n);
  }

  lemma {:induction false} RunKeeps(start: nat, limits: Limits, steps: seq<Step>)
    ensures var s := Run(Init(start, limits), steps);
            s.start == start && InOrder(s) && Accounted(s)
  {
    if steps != [] {
      var n := |steps| - 1;
      RunKeeps(start, limits, steps[..n]);
      NextInOrder(Run(Init(start, limits), steps[..n]), steps[n]);
      NextAccounted(Run(Init(start, limits), steps[..n]), steps[n]);
    }
  }

  /**
   In every interleaving, with failed signing, failed flushes and shutdown: the numbers handed out
   are exactly start .. next-1, each of them is in exactly one of the nine places, and exactly once
   there; in particular none is published twice.
   */
  lemma EachNumberInOnePlace(start: nat, limits: Limits, steps: seq<Step>, n: nat)
    ensures var s := Run(Init(start, limits), steps);
            && Places(s, n) == One(start <= n < s.next)
            && Times(n, Flatten(Chosen(s.batcher.attempts, true))) <= 1
  {
    var s := Run(Init(start, limits), steps);
    RunKeeps(start, limits, steps);
    HeldIsPlaces(s, n);
  }

  // ---------------------------------------------------------------- what the batcher gets through

  lemma NextWithinCapacity(s: State, step: Step)
    requires |s.channel| <= CHANNEL_CAPACITY
    ensures |Next(s, step).channel| <= CHANNEL_CAPACITY
  {
    hide Adds, Batching.Next;
  }

  /** In every interleaving the channel holds at most `CHANNEL_CAPACITY` commands. */
  lemma {:induction false} RunWithinCapacity(start: nat, limits: Limits, steps: seq<Step>)
    ensures |Run(Init(start, limits), steps).channel| <= CHANNEL_CAPACITY
  {
    if steps != [] {
      hide Next;
      RunWithinCapacity(start, limits, steps[..|steps| - 1]);
      NextWithinCapacity(Run(Init(start, limits), steps[..|steps| - 1]), steps[|steps| - 1]);
    }
  }

  /** The batcher takes n commands from the channel; publishing goes as `oks` says. */
  function Receives(n: nat, oks: nat -> bool): (steps: seq<Step>)
    ensures |steps| == n
  {
    seq(n, i requires 0 <= i => Receive(oks(i)))
  }

  lemma ReceivesSnoc(n: nat, oks: nat -> bool)
    ensures Receives(n + 1, oks) == Receives(n, oks) + [Receive(oks(n))]
  {
  }

  lemma {:induction false} AddsConcat(a: seq<Command>, b: seq<Command>)
    ensures Adds(a + b) == Adds(a) + Adds(b)
  {
    if b == [] {
      assert a + b == a;
    } else {
      var n := |b| - 1;
      AddsConcat(a, b[..n]);
      AddsSnoc(a + b[..n], b[n]);
      AddsSnoc(b[..n], b[n]);
      assert a + b == a + b[..n] + [b[n]] && b == b[..n] + [b[n]];
    }
  }

  /** Up to the first Stop, n turns take n commands and leave everything else where it was. */
  lemma {:induction false} ReceivesAdvance(s: State, n: nat, oks: nat -> bool)
    requires InOrder(s) && s.batcher.running && n <= |s.channel|
    requires forall i :: 0 <= i < n ==> !s.channel[i].Stop?
    ensures var s' := Run(s, Receives(n, oks));
            && InOrder(s') && s'.batcher.running
            && s' == s.(batcher := s'.batcher, channel := s.channel[n..])
  {
    if n > 0 {
      hide InOrder, Adds;
      ReceivesAdvance(s, n - 1, oks);
      var s' := Run(s, Receives(n - 1, oks));
      ReceivesSnoc(n - 1, oks);
      RunSnoc(s, Receives(n - 1, oks), Receive(oks(n - 1)));
      assert s'.channel[0] == s.channel[n - 1] && s'.channel[1..] == s.channel[n..];
      ReceiveInOrder(s', oks(n - 1));
      StaysRunning(s'.batcher, ToEvent(s'.channel[0], oks(n - 1)));
    }
  }

  lemma StaysRunning(b: BatcherState, e: Event)
    requires b.running
    ensures Batching.Next(b, e).running <==> !e.Shutdown?
  {
  }

  /**
   Nothing is left behind: once the batcher has taken what is in the channel, without a Stop in it, and
   its interval is over, every message that ever entered the channel is in an attempted batch, in order.
   */
  lemma QuietMeansAttempted(s: State, oks: nat -> bool, ok: bool)
    requires InOrder(s) && s.batcher.running && forall i :: 0 <= i < |s.channel| ==> !s.channel[i].Stop?
    ensures var s' := Run(s, Receives(|s.channel|, oks) + [TimerTick(true, ok)]);
            s'.batcher.running && Attempted(s'.batcher) == s'.enqueued == s.enqueued
  {
    hide Attempted, Adds;
    var n := |s.channel|;
    ReceivesAdvance(s, n, oks);
    var s1 := Run(s, Receives(n, oks));
    assert s1.channel == [];
    NoAdds();
    RunSnoc(s, Receives(n, oks), TimerTick(true, ok));
    AttemptedFlush(s1.batcher, ok);
    assert Attempted(s1.batcher) + s1.batcher.pending + [] + [] == Attempted(s1.batcher) + s1.batcher.pending;
  }

  /**
   What a shutdown does, exactly: when the batcher comes to a Stop, what entered the channel before it has
   been attempted, and what entered after it is discarded.
   */
  lemma StopCuts(s: State, k: nat, oks: nat -> bool)
    requires InOrder(s) && s.batcher.running && k < |s.channel| && s.channel[k].Stop?
    requires forall i :: 0 <= i < k ==> !s.channel[i].Stop?
    ensures var s' := Run(s, Receives(k + 1, oks));
            && !s'.batcher.running && s'.channel == [] && s'.enqueued == s.enqueued
            && Attempted(s'.batcher) == Attempted(s.batcher) + s.batcher.pending + Adds(s.channel[..k])
            && s'.discarded == Adds(s.channel[k + 1..])
  {
    ReceivesAdvance(s, k, oks);
    var s1 := Run(s, Receives(k, oks));
    ReceivesSnoc(k, oks);
    RunSnoc(s, Receives(k, oks), Receive(oks(k)));
    assert s1.channel[0] == s.channel[k] && s1.channel[1..] == s.channel[k + 1..];
    var s' := Next(s1, Receive(oks(k)));
    TurnKeepsOrder(s1.batcher, Shutdown(oks(k)));
    hide Attempted, FlushPending;
    assert s.channel == s.channel[..k] + s.channel[k..] && s.channel[k..] == [Stop] + s.channel[k + 1..];
    AddsConcat(s.channel[..k], s.channel[k..]);
    var done := Attempted(s.batcher) + s.batcher.pending + Adds(s.channel[..k]);
    assert s.enqueued == done + Adds(s.channel[k..]);
    assert s.enqueued == Attempted(s1.batcher) + s1.batcher.pending + Adds(s.channel[k..]);
    SameFront(done, Attempted(s1.batcher) + s1.batcher.pending, Adds(s.channel[k..]));
    assert Attempted(s'.batcher) + [] == Attempted(s'.batcher);
  }

  lemma SameFront(a: seq<Message>, b: seq<Message>, c: seq<Message>)
    requires a + c == b + c
    ensures a == b
  {
    assert |a| == |b|;
    assert a == (a + c)[..|a|] && b == (b + c)[..|b|];
  }

  /** A Flush command publishes, or tries to, everything that entered the channel before it; Statistics nothing. */
  lemma FlushCommandServes(s: State, k: nat, oks: nat -> bool)
    requires InOrder(s) && s.batcher.running && k < |s.channel| && s.channel[k].FlushNow?
    requires forall i :: 0 <= i < k ==> !s.channel[i].Stop?
    ensures var s' := Run(s, Receives(k + 1, oks));
            && s'.batcher.running && s'.batcher.pending == []
            && Attempted(s'.batcher) + Adds(s.channel[k + 1..]) == s.enqueued
  {
    ReceivesAdvance(s, k, oks);
    var s1 := Run(s, Receives(k, oks));
    ReceivesSnoc(k, oks);
    RunSnoc(s, Receives(k, oks), Receive(oks(k)));
    assert s1.channel[0] == s.channel[k] && s1.channel[1..] == s.channel[k + 1..];
    AttemptedFlush(s1.batcher, oks(k));
    hide Attempted;
    assert Adds(s1.channel) == Adds(s.channel[k + 1..]);
    assert s.enqueued == Attempted(s1.batcher) + s1.batcher.pending + Adds(s1.channel) + [];
  }

  lemma StatisticsOnlyRead(s: State, ok: bool)
    requires s.batcher.running && s.channel != [] && s.channel[0].Statistics?
    ensures Next(s, Receive(ok)) == s.(channel := s.channel[1..])
  {
  }

  /** Every message in the channel's history, and every one waiting to enter it, has the size it was signed with. */
  ghost predicate Signed(s: State, steps: seq<Step>) {
    && (forall n :: n in s.signed ==> Sign(n, s.signed[n]) in steps)
    && (forall m :: m in s.enqueued ==> Sign(m.seqno, m.size) in steps)
  }

  lemma {:induction false} RunSigned(start: nat, limits: Limits, steps: seq<Step>)
    ensures Signed(Run(Init(start, limits), steps), steps)
  {
    if steps != [] {
      var n := |steps| - 1;
      RunSigned(start, limits, steps[..n]);
      SignedNext(Run(Init(start, limits), steps[..n]), steps[..n], steps[n]);
      assert steps == steps[..n] + [steps[n]];
    }
  }

  lemma SignedNext(s: State, steps: seq<Step>, step: Step)
    requires Signed(s, steps)
    ensures Signed(Next(s, step), steps + [step])
  {
    hide Adds, Batching.Next;
  }

  /** A Stop sent while there is room: the batcher gets to it, stops, and has attempted all that was sent before. */
  lemma ShutdownTakesEffect(s: State, oks: nat -> bool)
    requires InOrder(s) && s.batcher.running && |s.channel| < CHANNEL_CAPACITY
    requires forall i :: 0 <= i < |s.channel| ==> !s.channel[i].Stop?
    ensures var s' := Run(Next(s, SendControl(Stop)), Receives(|s.channel| + 1, oks));
            !s'.batcher.running && Attempted(s'.batcher) == s.enqueued && s'.discarded == []
  {
    var s1 := Next(s, SendControl(Stop));
    NextInOrder(s, SendControl(Stop));
    var k := |s.channel|;
    assert s1.channel[..k] == s.channel && s1.channel[k + 1..] == [];
    StopCuts(s1, k, oks);
    NoAdds();
    hide Attempted, Adds;
    assert Attempted(s.batcher) + s.batcher.pending + Adds(s.channel) + []
        == Attempted(s.batcher) + s.batcher.pending + Adds(s.channel);
  }

  /** After the stop nothing enters or moves any more; a handler that tries is turned away. */
  lemma {:induction false} StoppedForGood(s: State, steps: seq<Step>, n: nat)
    requires InOrder(s) && !s.batcher.running
    ensures var s' := Run(s, steps);
            && InOrder(s') && s'.enqueued == s.enqueued && s'.batcher == s.batcher && s'.discarded == s.discarded
            && (n in s'.signed ==> n in Next(s', Send(n)).rejected && n !in Next(s', Send(n)).signed)
  {
    if steps != [] {
      var k := |steps| - 1;
      StoppedForGood(s, steps[..k], n);
      NextInOrder(Run(s, steps[..k]), steps[k]);
      hide InOrder, Adds;
    }
  }

  // ---------------------------------------------------------------- contiguous batches

  /** Batch i begins right after the messages of the batches before it. */
  ghost predicate Contiguous(start: nat, batches: seq<seq<Message>>) {
    forall i, k :: 0 <= i < |batches| && 0 <= k < |batches[i]| ==>
      batches[i][k].seqno == start + |Flatten(batches[..i])| + k
  }

  lemma {:induction false} FlattenSplit<T>(parts: seq<seq<T>>, i: nat)
    requires i < |parts|
    ensures |Flatten(parts[..i])| + |parts[i]| <= |Flatten(parts)|
    ensures Flatten(parts)[|Flatten(parts[..i])|..|Flatten(parts[..i])| + |parts[i]|] == parts[i]
  {
    var n := |parts| - 1;
    if i == n {
    } else {
      assert parts[..n][..i] == parts[..i];
      FlattenSplit(parts[..n], i);
    }
  }

  lemma RunOfNumbersIsContiguous(start: nat, batches: seq<seq<Message>>)
    requires forall i :: 0 <= i < |Flatten(batches)| ==> Flatten(batches)[i].seqno == start + i
    ensures Contiguous(start, batches)
  {
    forall i, k | 0 <= i < |batches| && 0 <= k < |batches[i]|
      ensures batches[i][k].seqno == start + |Flatten(batches[..i])| + k
    {
      FlattenSplit(batches, i);
      var at := |Flatten(batches[..i])|;
      assert Flatten(batches)[at..at + |batches[i]|][k] == batches[i][k];
    }
  }

  lemma {:induction false} ContiguousIsRunOfNumbers(start: nat, batches: seq<seq<Message>>)
    requires Contiguous(start, batches)
    ensures forall i :: 0 <= i < |Flatten(batches)| ==> Flatten(batches)[i].seqno == start + i
  {
    if batches != [] {
      var n := |batches| - 1;
      assert forall i :: 0 <= i <= n ==> batches[..n][..i] == batches[..i];
      ContiguousIsRunOfNumbers(start, batches[..n]);
    }
  }

  lemma ContiguousNeighbours(start: nat, batches: seq<seq<Message>>, i: nat)
    requires Contiguous(start, batches) && i + 1 < |batches| && batches[i] != [] && batches[i + 1] != []
    ensures batches[i + 1][0].seqno == batches[i][|batches[i]| - 1].seqno + 1
  {
    assert batches[..i + 1][..i] == batches[..i];
    assert Flatten(batches[..i + 1]) == Flatten(batches[..i]) + batches[i];
  }

  lemma {:induction false} AllPublished(attempts: seq<Attempt>)
    requires forall i :: 0 <= i < |attempts| ==> attempts[i].ok
    ensures Chosen(attempts, true) == Batches(attempts)
  {
    if attempts != [] {
      AllPublished(attempts[..|attempts| - 1]);
    }
  }

  /**
   When no flush failed, the published batches are runs of consecutive numbers, the first from
   `start` and each other one right after its predecessor, exactly when the messages that have left
   the channel entered it in number order, from `start` without a gap.
   */
  lemma PublishedContiguous(start: nat, limits: Limits, steps: seq<Step>)
    requires var s := Run(Init(start, limits), steps);
             forall i :: 0 <= i < |s.batcher.attempts| ==> s.batcher.attempts[i].ok
    ensures var s := Run(Init(start, limits), steps);
            && |Attempted(s.batcher)| <= |s.enqueued|
            && (Contiguous(start, Chosen(s.batcher.attempts, true))
                <==> forall i :: 0 <= i < |Attempted(s.batcher)| ==> s.enqueued[i].seqno == start + i)
  {
    var s := Run(Init(start, limits), steps);
    RunKeeps(start, limits, steps);
    AllPublished(s.batcher.attempts);
    assert Attempted(s.batcher) <= s.enqueued;
    if Contiguous(start, Batches(s.batcher.attempts)) {
      ContiguousIsRunOfNumbers(start, Batches(s.batcher.attempts));
    }
    if forall i :: 0 <= i < |Attempted(s.batcher)| ==> s.enqueued[i].seqno == start + i {
      RunOfNumbersIsContiguous(start, Batches(s.batcher.attempts));
    }
  }

  lemma BothSigned(s0: State)
    requires s0 == Init(0, Limits(2, 100))
    ensures Run(s0, [Assign, Assign, Sign(0, 1), Sign(1, 1)]) == s0.(next := 2, signed := map[0 := 1, 1 := 1])
  {
    assert Run(s0, []) == s0;
    hide Run, Received;
    RunSnoc(s0, [], Assign);
    RunSnoc(s0, [Assign], Assign);
    assert [Assign] + [Assign] == [Assign, Assign];
    assert Run(s0, [Assign, Assign]) == s0.(next := 2, signing := {0, 1});
    RunSnoc(s0, [Assign, Assign], Sign(0, 1));
    assert [Assign, Assign] + [Sign(0, 1)] == [Assign, Assign, Sign(0, 1)];
    RunSnoc(s0, [Assign, Assign, Sign(0, 1)], Sign(1, 1));
    assert [Assign, Assign, Sign(0, 1)] + [Sign(1, 1)] == [Assign, Assign, Sign(0, 1), Sign(1, 1)];
  }

  lemma BothReceived(s: State, m1: Message, m0: Message)
    requires s.batcher == Batching.Init(Limits(2, 100)) && m1 == Message(1, 1) && m0 == Message(0, 1)
    requires s.channel == [AddMessage(m1), AddMessage(m0)]
    ensures Next(Next(s, Receive(true)), Receive(true)).batcher.attempts == [Attempt([m1, m0], true)]
  {
    var s1 := Next(s, Receive(true));
    assert s1.channel == [AddMessage(m0)] && s1.batcher == s.batcher.(pending := [m1], pendingBytes := 1);
    assert [m1] + [m0] == [m1, m0];
  }

  /**
   The channel alone does not order numbers: two handlers that race after numbering publish a
   batch whose first message has the larger number.
   */
  lemma RacingHandlersPublishOutOfOrder()
    ensures var s := Run(Init(0, Limits(2, 100)),
                         [Assign, Assign, Sign(0, 1), Sign(1, 1), Send(1), Send(0), Receive(true), Receive(true)]);
            Chosen(s.batcher.attempts, true) == [[Message(1, 1), Message(0, 1)]]
  {
    var s0 := Init(0, Limits(2, 100));
    var p4 := [Assign, Assign, Sign(0, 1), Sign(1, 1)];
    BothSigned(s0);
    RunSnoc(s0, p4, Send(1));
    RunSnoc(s0, p4 + [Send(1)], Send(0));
    var p6 := p4 + [Send(1)] + [Send(0)];
    var m1, m0 := Message(1, 1), Message(0, 1);
    assert Run(s0, p6).channel == [AddMessage(m1), AddMessage(m0)] && Run(s0, p6).batcher == s0.batcher;
    RunSnoc(s0, p6, Receive(true));
    RunSnoc(s0, p6 + [Receive(true)], Receive(true));
    hide Next;
    assert p6 + [Receive(true)] + [Receive(true)]
        == [Assign, Assign, Sign(0, 1), Sign(1, 1), Send(1), Send(0), Receive(true), Receive(true)];
    BothReceived(Run(s0, p6), m1, m0);
    assert [Attempt([m1, m0], true)] == [] + [Attempt([m1, m0], true)];
    ChosenSnoc([], Attempt([m1, m0], true), true);
  }
}
