/**
 The chain monitor in RPC mode (crates/synddb-chain-monitor/src/monitor.rs) over its event store
 (crates/synddb-chain-monitor/src/event_store.rs): polling by windows from a saved checkpoint,
 with crashes and restarts anywhere, and deduplication by transaction hash.
 */
module Monitor {
  import opened Sequences
  import opened Words
  import opened EthLogs

  const WINDOW: nat := 100

  /** The two tables that survive a crash: the hashes marked, with their block, and the checkpoint. */
  datatype Store = Store(processed: map<nat, nat>, lastBlock: Option<U64>)

  /** A log passed over, and how many handler successes there had been by then. */
  datatype Skip = Skip(log: Log, successes: nat)

  datatype MonitorState = MonitorState(
    start: U64,
    store: Store,
    position: Option<U64>,     // None while the monitor is down
    handed: seq<Log>,          // every log passed to `process_event`
    handled: seq<Log>,         // every log for which the handler returned true
    skipped: seq<Skip>,        // every log passed over as already processed
    unmarked: seq<nat>)        // hashes whose handler succeeded but whose mark did not follow

  datatype HandlerAnswer = HandlerError | Declined | Handled

  /** `readable`: the idempotency query works; `marked`: the mark is written; `crashed`: the process dies. */
  datatype EventAnswer = EventAnswer(readable: bool, handler: HandlerAnswer, marked: bool, crashed: bool)

  datatype PollAnswer = PollAnswer(latest: Option<U64>, provider: Provider, events: nat -> EventAnswer, saved: bool)

  datatype Step =
    | Start(readable: bool)
    | Poll(answer: PollAnswer)
    | Crash

  function Init(start: U64): MonitorState {
    MonitorState(start, Store(map[], None), None, [], [], [], [])
  }

  // ---------------------------------------------------------------- one event

  predicate Known(s: MonitorState, log: Log) {
    log.txHash.Some? && log.txHash.value in s.store.processed
  }

  /** INSERT OR IGNORE. */
  function Mark(store: Store, hash: nat, block: nat): Store {
    if hash in store.processed then store else store.(processed := store.processed[hash := block])
  }

  function ProcessEvent(s: MonitorState, log: Log, a: EventAnswer): MonitorState {
    var s' := s.(handed := s.handed + [log], position := if a.crashed then None else s.position);
    if log.txHash.Some? && !a.readable then s'
    else if Known(s, log) then s'.(skipped := s.skipped + [Skip(log, |s.handled|)])
    else if !a.handler.Handled? then s'
    else
      var s'' := s'.(handled := s.handled + [log]);
      if log.txHash.None? then s''
      else if a.marked then s''.(store := Mark(s.store, log.txHash.value, log.block))
      else s''.(unmarked := s.unmarked + [log.txHash.value])
  }

  /** Events `i` on, stopping where the process dies. */
  function ProcessFrom(s: MonitorState, logs: seq<Log>, answers: nat -> EventAnswer, i: nat): MonitorState
    requires i <= |logs|
    decreases |logs| - i
  {
    if i == |logs| || s.position.None? then s
    else ProcessFrom(ProcessEvent(s, logs[i], answers(i)), logs, answers, i + 1)
  }

  // ---------------------------------------------------------------- polling

  function EndBlock(position: U64, latest: U64): U64 {
    if position + WINDOW < latest then position + WINDOW else latest
  }

  /** The checkpoint is written after the events; if that fails the monitor returns its error. */
  function SaveCheckpoint(s: MonitorState, end: U64, saved: bool): MonitorState {
    if s.position.None? then s
    else if saved then s.(position := Some(end), store := s.store.(lastBlock := Some(end)))
    else s.(position := None)
  }

  function PollStep(chain: Chain, s: MonitorState, a: PollAnswer): MonitorState {
    if s.position.None? || a.latest.None? then s
    else
      var position := s.position.value;
      var end := EndBlock(position, a.latest.value);
      if position + WINDOW >= TWO_64 then s.(position := None)
      else if end <= position then SaveCheckpoint(s, position, a.saved)
      else
        match GetLogs(chain, a.provider, 0, position, end).outcome
        case Failed => s
        case Overflow => s.(position := None)
        case Fetched(logs) => SaveCheckpoint(ProcessFrom(s, logs, a.events, 0), end, a.saved)
  }

  function Resume(s: MonitorState): U64 {
    if s.store.lastBlock.Some? then s.store.lastBlock.value else s.start
  }

  function Next(chain: Chain, s: MonitorState, step: Step): MonitorState {
    match step
    case Start(readable) => if s.position.None? && readable then s.(position := Some(Resume(s))) else s
    case Poll(a) => PollStep(chain, s, a)
    case Crash => s.(position := None)
  }

  function Run(chain: Chain, s: MonitorState, steps: seq<Step>): MonitorState {
    if steps == [] then s else Next(chain, Run(chain, s, steps[..|steps| - 1]), steps[|steps| - 1])
  }

  // ---------------------------------------------------------------- coverage

  lemma {:induction false} ProcessFromHands(s: MonitorState, logs: seq<Log>, answers: nat -> EventAnswer, i: nat)
    requires i <= |logs|
    ensures var s' := ProcessFrom(s, logs, answers, i);
            && s'.start == s.start && s'.store.lastBlock == s.store.lastBlock
            && s.handed <= s'.handed
            && (s'.position.Some? ==> s'.position == s.position && s'.handed == s.handed + logs[i..])
    decreases |logs| - i
  {
    if i < |logs| && s.position.Some? {
      ProcessFromHands(ProcessEvent(s, logs[i], answers(i)), logs, answers, i + 1);
      assert logs[i..] == [logs[i]] + logs[i + 1..];
    }
  }

  /** Every log of blocks lo .. hi-1 has been handed over. */
  ghost predicate Covered(chain: Chain, handed: seq<Log>, lo: nat, hi: nat) {
    forall b, i :: lo <= b < hi && 0 <= i < |chain(b)| ==> chain(b)[i] in handed
  }

  lemma {:induction false} InLogsOf(chain: Chain, lo: nat, hi: nat, b: nat, i: nat)
    requires lo <= b <= hi && i < |chain(b)|
    ensures chain(b)[i] in LogsOf(chain, lo, hi)
    decreases hi - lo
  {
    if lo < b {
      InLogsOf(chain, lo + 1, hi, b, i);
    }
  }

  /** The end of what was fetched: the resume point itself is included once it lies past the start block. */
  function Fetched(s: MonitorState): nat {
    if Resume(s) > s.start then Resume(s) + 1 else s.start
  }

  /** While running, the monitor stands at its resume point, and everything up to there was handed over. */
  ghost predicate Safe(chain: Chain, s: MonitorState) {
    && s.start <= Resume(s)
    && (s.position.Some? ==> s.position.value == Resume(s))
    && Covered(chain, s.handed, s.start, Fetched(s))
  }

  lemma CoveredAfter(chain: Chain, handed: seq<Log>, more: seq<Log>, lo: nat, at: nat, end: nat)
    requires Covered(chain, handed, lo, at) && at <= end && more == LogsOf(chain, at, end)
    ensures Covered(chain, handed + more, lo, end + 1)
  {
    forall b, i | lo <= b < end + 1 && 0 <= i < |chain(b)| ensures chain(b)[i] in handed + more {
      if b >= at {
        InLogsOf(chain, at, end, b, i);
      }
    }
  }

  lemma PollSafe(chain: Chain, s: MonitorState, a: PollAnswer)
    requires Safe(chain, s)
    ensures Safe(chain, PollStep(chain, s, a))
    ensures Resume(s) <= Resume(PollStep(chain, s, a)) && PollStep(chain, s, a).start == s.start
  {
    if s.position.Some? && a.latest.Some? {
      var position := s.position.value;
      var end := EndBlock(position, a.latest.value);
      if position + WINDOW < TWO_64 && position < end {
        GetLogsExact(chain, a.provider, 0, position, end);
        var outcome := GetLogs(chain, a.provider, 0, position, end).outcome;
        if outcome.Fetched? {
          ProcessFromHands(s, outcome.logs, a.events, 0);
          assert outcome.logs[0..] == outcome.logs;
          CoveredAfter(chain, s.handed, outcome.logs, s.start, position, end);
        }
      }
    }
  }

  /**
   Over any number of polls, provider errors, crashes and restarts: the resume point never falls,
   a running monitor stands at it, and every log of a block from the start block up to it, included
   once it has moved, has been handed to `process_event`.
   */
  lemma {:induction false} RunSafe(chain: Chain, s: MonitorState, steps: seq<Step>)
    requires Safe(chain, s)
    ensures var s' := Run(chain, s, steps);
            Safe(chain, s') && s'.start == s.start && Resume(s) <= Resume(s')
  {
    if steps != [] {
      var n := |steps| - 1;
      RunSafe(chain, s, steps[..n]);
      if steps[n].Poll? {
        PollSafe(chain, Run(chain, s, steps[..n]), steps[n].answer);
      }
    }
  }

  lemma Coverage(chain: Chain, start: U64, steps: seq<Step>)
    ensures var s := Run(chain, Init(start), steps);
            s.store.lastBlock.Some? ==>
              var checkpoint := s.store.lastBlock.value;
              && start <= checkpoint && Covered(chain, s.handed, start, checkpoint)
              && (start < checkpoint ==> Covered(chain, s.handed, start, checkpoint + 1))
  {
    RunSafe(chain, Init(start), steps);
  }

  lemma {:induction false} UninterruptedHands(s: MonitorState, logs: seq<Log>, answers: nat -> EventAnswer, i: nat)
    requires i <= |logs| && s.position.Some? && forall j :: i <= j < |logs| ==> !answers(j).crashed
    ensures ProcessFrom(s, logs, answers, i).position == s.position
    decreases |logs| - i
  {
    if i < |logs| {
      UninterruptedHands(ProcessEvent(s, logs[i], answers(i)), logs, answers, i + 1);
    }
  }

  /**
   Progress: against a provider that at least serves single blocks, a poll that is not interrupted and
   whose checkpoint is saved moves on by up to a window and hands over exactly the logs from the
   position to the new one, both included; so the boundary block is handed over again next time.
   */
  lemma PollAdvances(chain: Chain, s: MonitorState, a: PollAnswer)
    requires s.position.Some? && a.latest.Some? && s.position.value < a.latest.value <= TWO_63
    requires Patient(a.provider) && a.saved && forall j :: !a.events(j).crashed
    ensures var s' := PollStep(chain, s, a);
            var end := if s.position.value + 100 < a.latest.value then s.position.value + 100 else a.latest.value;
            && s.position.value < end == Resume(s') && s'.position == Some(end)
            && s'.handed == s.handed + LogsOf(chain, s.position.value, end)
  {
    var position := s.position.value;
    var end := EndBlock(position, a.latest.value);
    GetLogsSucceeds(chain, a.provider, 0, position, end);
    var logs := LogsOf(chain, position, end);
    UninterruptedHands(s, logs, a.events, 0);
    ProcessFromHands(s, logs, a.events, 0);
    assert logs[0..] == logs;
  }

  /** A poll that has no new block to look at, or no answer, hands nothing over and stays where it is. */
  lemma PollIdles(chain: Chain, s: MonitorState, a: PollAnswer)
    requires s.position.None? || a.latest.None? || a.latest.value <= s.position.value
    ensures var s' := PollStep(chain, s, a);
            && s' == s.(position := s'.position, store := s'.store) && s'.store.processed == s.store.processed
            && (s'.position.Some? ==> s'.position == s.position)
            && (s.position.Some? && a.latest.Some? && s'.position.Some? ==> s'.store.lastBlock == s.position)
            && (s'.position.None? ==> s'.store == s.store)
  {
  }

  /** A provider error leaves everything to the next poll. */
  lemma PollRetries(chain: Chain, s: MonitorState, a: PollAnswer)
    requires s.position.Some? && s.position.value + 100 < TWO_64 && a.latest.Some? && s.position.value < a.latest.value
    requires var end := if s.position.value + 100 < a.latest.value then s.position.value + 100 else a.latest.value;
             GetLogs(chain, a.provider, 0, s.position.value, end).outcome == Failed
    ensures PollStep(chain, s, a) == s
  {
  }

  /** A checkpoint that cannot be written, or a window that leaves 64 bits, ends the monitor. */
  lemma PollStops(chain: Chain, s: MonitorState, a: PollAnswer)
    requires s.position.Some? && a.latest.Some?
    ensures s.position.value + 100 >= TWO_64 ==> PollStep(chain, s, a) == s.(position := None)
    ensures !a.saved && PollStep(chain, s, a).position.Some? ==> PollStep(chain, s, a) == s
    ensures !a.saved ==> PollStep(chain, s, a).store.lastBlock == s.store.lastBlock
  {
    var end := EndBlock(s.position.value, a.latest.value);
    if s.position.value + WINDOW < TWO_64 && s.position.value < end {
      var outcome := GetLogs(chain, a.provider, 0, s.position.value, end).outcome;
      if outcome.Fetched? {
        ProcessFromHands(s, outcome.logs, a.events, 0);
      }
    }
  }

  /** A crash forgets the position only; the next start takes it up at the checkpoint. */
  lemma RestartResumes(chain: Chain, s: MonitorState)
    ensures Next(chain, s, Crash) == s.(position := None)
    ensures Next(chain, Next(chain, s, Crash), Start(true))
         == s.(position := Some(if s.store.lastBlock.Some? then s.store.lastBlock.value else s.start))
    ensures Next(chain, Next(chain, s, Crash), Start(false)).position.None?
  {
  }

  // ---------------------------------------------------------------- deduplication

  /** The first mark of a hash stays, and marks no other hash. */
  lemma FirstMarkStays(store: Store, hash: nat, block: nat, later: nat)
    ensures var marked := Mark(store, hash, block);
            && Mark(marked, hash, later) == marked && marked.lastBlock == store.lastBlock
            && hash in marked.processed && (hash !in store.processed ==> marked.processed[hash] == block)
            && forall h | h != hash :: h in marked.processed <==> h in store.processed
  {
  }

  /**
   What becomes of one log: it is handled exactly when the handler accepts it and, if it has a hash, the
   store could be read and did not know it; and a hash becomes known exactly by a mark after that.
   */
  lemma EventExact(s: MonitorState, log: Log, a: EventAnswer, hash: nat)
    ensures var s' := ProcessEvent(s, log, a);
            var unknown := log.txHash.None? || (a.readable && log.txHash.value !in s.store.processed);
            && s'.handed == s.handed + [log]
            && s'.handled == (if unknown && a.handler == Handled then s.handled + [log] else s.handled)
            && (hash in s'.store.processed <==>
                  hash in s.store.processed
                  || (unknown && a.handler == Handled && a.marked && log.txHash == Some(hash)))
            && (s'.position.None? <==> a.crashed || s.position.None?)
  {
  }

  function CountLogs(logs: seq<Log>, hash: nat): nat {
    if logs == [] then 0
    else CountLogs(logs[..|logs| - 1], hash) + if logs[|logs| - 1].txHash == Some(hash) then 1 else 0
  }

  ghost predicate Deduplicated(s: MonitorState, hash: nat) {
    CountLogs(s.handled, hash) == multiset(s.unmarked)[hash] + if hash in s.store.processed then 1 else 0
  }

  /** One of the first `n` handler successes was for a log of this transaction. */
  ghost predicate HandledBefore(handled: seq<Log>, n: nat, hash: nat) {
    exists j :: 0 <= j < |handled| && j < n && handled[j].txHash == Some(hash)
  }

  /** Every mark stands for a handler success. */
  ghost predicate MarksEarned(s: MonitorState) {
    forall h :: h in s.store.processed ==> HandledBefore(s.handled, |s.handled|, h)
  }

  /** What was passed over is marked, and when that happened its transaction had already been handled. */
  ghost predicate SkipJustified(s: MonitorState, skip: Skip) {
    && Known(s, skip.log)
    && HandledBefore(s.handled, skip.successes, skip.log.txHash.value)
  }

  ghost predicate SkipsJustified(s: MonitorState) {
    MarksEarned(s) && forall i :: 0 <= i < |s.skipped| ==> SkipJustified(s, s.skipped[i])
  }

  lemma CountSnoc(logs: seq<Log>, log: Log, hash: nat)
    ensures CountLogs(logs + [log], hash) == CountLogs(logs, hash) + if log.txHash == Some(hash) then 1 else 0
  {
    assert (logs + [log])[..|logs|] == logs;
  }

  lemma EventDeduplicated(s: MonitorState, log: Log, a: EventAnswer, hash: nat)
    requires Deduplicated(s, hash)
    ensures Deduplicated(ProcessEvent(s, log, a), hash)
  {
    CountSnoc(s.handled, log, hash);
  }

  lemma HandledBeforeGrows(handled: seq<Log>, log: Log, n: nat, m: nat, hash: nat)
    requires HandledBefore(handled, n, hash) && n <= m
    ensures HandledBefore(handled + [log], m, hash)
  {
    var j :| 0 <= j < |handled| && j < n && handled[j].txHash == Some(hash);
    assert (handled + [log])[j] == handled[j];
  }

  lemma EventMarksEarned(s: MonitorState, log: Log, a: EventAnswer)
    requires MarksEarned(s)
    ensures MarksEarned(ProcessEvent(s, log, a))
  {
    var s' := ProcessEvent(s, log, a);
    if s'.handled != s.handled {
      forall h | h in s'.store.processed ensures HandledBefore(s'.handled, |s'.handled|, h) {
        if h in s.store.processed {
          HandledBeforeGrows(s.handled, log, |s.handled|, |s.handled| + 1, h);
        } else {
          assert s'.handled[|s.handled|] == log;
        }
      }
    }
  }

  lemma EventSkipsJustified(s: MonitorState, log: Log, a: EventAnswer)
    requires SkipsJustified(s)
    ensures SkipsJustified(ProcessEvent(s, log, a))
  {
    EventMarksEarned(s, log, a);
    var s' := ProcessEvent(s, log, a);
    forall i | 0 <= i < |s'.skipped| ensures SkipJustified(s', s'.skipped[i]) {
      if i < |s.skipped| {
        var skip := s.skipped[i];
        assert s'.skipped[i] == skip && SkipJustified(s, skip);
        HandledBeforeGrows(s.handled, log, skip.successes, skip.successes, skip.log.txHash.value);
      }
    }
  }

  lemma {:induction false} ProcessFromDeduplicated(s: MonitorState, logs: seq<Log>, answers: nat -> EventAnswer,
                                                   i: nat, hash: nat)
    requires i <= |logs| && Deduplicated(s, hash) && SkipsJustified(s)
    ensures var s' := ProcessFrom(s, logs, answers, i);
            Deduplicated(s', hash) && SkipsJustified(s')
    decreases |logs| - i
  {
    if i < |logs| && s.position.Some? {
      EventDeduplicated(s, logs[i], answers(i), hash);
      EventSkipsJustified(s, logs[i], answers(i));
      ProcessFromDeduplicated(ProcessEvent(s, logs[i], answers(i)), logs, answers, i + 1, hash);
    }
  }

  lemma StoppedDeduplicated(s: MonitorState, hash: nat)
    requires Deduplicated(s, hash) && SkipsJustified(s)
    ensures Deduplicated(s.(position := None), hash) && SkipsJustified(s.(position := None))
  {
    hide CountLogs, HandledBefore;
    assert forall skip :: SkipJustified(s, skip) ==> SkipJustified(s.(position := None), skip);
  }

  lemma SavedDeduplicated(s: MonitorState, end: U64, saved: bool, hash: nat)
    requires Deduplicated(s, hash) && SkipsJustified(s)
    ensures Deduplicated(SaveCheckpoint(s, end, saved), hash) && SkipsJustified(SaveCheckpoint(s, end, saved))
  {
    hide CountLogs, HandledBefore;
    assert forall skip :: SkipJustified(s, skip) ==> SkipJustified(SaveCheckpoint(s, end, saved), skip);
  }

  lemma PollDeduplicated(chain: Chain, s: MonitorState, a: PollAnswer, hash: nat)
    requires Deduplicated(s, hash) && SkipsJustified(s)
    ensures Deduplicated(PollStep(chain, s, a), hash) && SkipsJustified(PollStep(chain, s, a))
  {
    hide GetLogs, ProcessFrom, SaveCheckpoint, Deduplicated, SkipsJustified;
    StoppedDeduplicated(s, hash);
    if s.position.Some? && a.latest.Some? {
      var position := s.position.value;
      var end := EndBlock(position, a.latest.value);
      SavedDeduplicated(s, position, a.saved, hash);
      var outcome := GetLogs(chain, a.provider, 0, position, end).outcome;
      if outcome.Fetched? {
        ProcessFromDeduplicated(s, outcome.logs, a.events, 0, hash);
        SavedDeduplicated(ProcessFrom(s, outcome.logs, a.events, 0), end, a.saved, hash);
      }
    }
  }

  /**
   Over any run, for each transaction hash: the handler's successes are the times a crash or a failed
   mark came between success and mark, plus one exactly when the hash is marked; and a log is passed
   over only if its hash is marked, after a handler success for that hash.
   */
  lemma {:induction false} RunDeduplicated(chain: Chain, start: U64, steps: seq<Step>, hash: nat)
    ensures var s := Run(chain, Init(start), steps);
            Deduplicated(s, hash) && SkipsJustified(s)
  {
    if steps != [] {
      var n := |steps| - 1;
      RunDeduplicated(chain, start, steps[..n], hash);
      if steps[n].Poll? {
        PollDeduplicated(chain, Run(chain, Init(start), steps[..n]), steps[n].answer, hash);
      }
    }
  }

  lemma {:induction false} MarkedIsFinal(s: MonitorState, logs: seq<Log>, answers: nat -> EventAnswer, i: nat, log: Log)
    requires i <= |logs| && Known(s, log) && log !in s.handled
    ensures var s' := ProcessFrom(s, logs, answers, i);
            Known(s', log) && log !in s'.handled
    decreases |logs| - i
  {
    if i < |logs| && s.position.Some? {
      MarkedIsFinal(ProcessEvent(s, logs[i], answers(i)), logs, answers, i + 1, log);
    }
  }

  /**
   The price of one mark per transaction: once a hash is marked, a log of that transaction that has
   not been handled, such as its second log, is never handled in any later run.
   */
  lemma {:induction false} SecondLogNeverHandled(chain: Chain, s: MonitorState, steps: seq<Step>, log: Log)
    requires Known(s, log) && log !in s.handled
    ensures var s' := Run(chain, s, steps);
            Known(s', log) && log !in s'.handled
  {
    if steps != [] {
      var n := |steps| - 1;
      SecondLogNeverHandled(chain, s, steps[..n], log);
      var s' := Run(chain, s, steps[..n]);
      if steps[n].Poll? && s'.position.Some? && steps[n].answer.latest.Some? {
        var a := steps[n].answer;
        var outcome := GetLogs(chain, a.provider, 0, s'.position.value,
                               EndBlock(s'.position.value, a.latest.value)).outcome;
        if outcome.Fetched? {
          MarkedIsFinal(s', outcome.logs, a.events, 0, log);
        }
      }
    }
  }

  // ---------------------------------------------------------------- when every log is handled

  /** Unless the process dies there, an event finds a readable store and a handler that accepts it. */
  predicate Accepting(a: EventAnswer) {
    a.crashed || (a.readable && a.handler.Handled?)
  }

  /** Every event is accepting; marks, crashes anywhere, restarts and the provider are free. */
  ghost predicate Willing(step: Step) {
    step.Poll? ==> forall j :: Accepting(step.answer.events(j))
  }

  ghost predicate SameTransaction(x: Log, y: Log) {
    x.txHash.Some? && x.txHash == y.txHash
  }

  /** This log, or some log of its transaction, has been handled. */
  ghost predicate Represented(handled: seq<Log>, log: Log) {
    log in handled || exists other :: other in handled && SameTransaction(log, other)
  }

  lemma EventRepresented(s: MonitorState, log: Log, a: EventAnswer)
    requires MarksEarned(s) && Accepting(a)
    ensures var s' := ProcessEvent(s, log, a);
            && MarksEarned(s') && s.handled <= s'.handled
            && (forall x :: x in s'.handled ==> x in s.handled || x == log)
            && (s'.position.Some? ==> Represented(s'.handled, log))
  {
    EventMarksEarned(s, log, a);
    if !a.crashed && Known(s, log) {
      assert HandledBefore(s.handled, |s.handled|, log.txHash.value);
      var j :| 0 <= j < |s.handled| && s.handled[j].txHash == Some(log.txHash.value);
      assert SameTransaction(log, s.handled[j]);
    }
  }

  lemma RepresentedGrows(a: seq<Log>, b: seq<Log>, log: Log)
    requires Represented(a, log) && a <= b
    ensures Represented(b, log)
  {
    assert forall x :: x in a ==> x in b;
  }

  /** A window that is worked through without a crash leaves each of its logs represented. */
  lemma {:induction false} WindowRepresented(s: MonitorState, logs: seq<Log>, answers: nat -> EventAnswer, i: nat)
    requires i <= |logs| && MarksEarned(s) && forall j :: Accepting(answers(j))
    ensures var s' := ProcessFrom(s, logs, answers, i);
            && MarksEarned(s') && s.handled <= s'.handled
            && (forall x :: x in s'.handled ==> x in s.handled || x in logs)
            && (s'.position.Some? ==> forall j :: i <= j < |logs| ==> Represented(s'.handled, logs[j]))
    decreases |logs| - i
  {
    if i < |logs| && s.position.Some? {
      var s1 := ProcessEvent(s, logs[i], answers(i));
      EventRepresented(s, logs[i], answers(i));
      WindowRepresented(s1, logs, answers, i + 1);
      var s' := ProcessFrom(s1, logs, answers, i + 1);
      if s'.position.Some? {
        StillRunning(s1, logs, answers, i + 1);
        RepresentedGrows(s1.handled, s'.handled, logs[i]);
      }
    }
  }

  lemma StillRunning(s: MonitorState, logs: seq<Log>, answers: nat -> EventAnswer, i: nat)
    requires i <= |logs| && ProcessFrom(s, logs, answers, i).position.Some?
    ensures s.position.Some?
  {
  }

  /** The log is in a block that monitoring from `start` can ever ask for. */
  ghost predicate Reachable(chain: Chain, start: U64, log: Log) {
    start + WINDOW < TWO_64 && exists b :: start <= b < TWO_64 && log in chain(b)
  }

  lemma {:induction false} LogsOfReachable(chain: Chain, start: U64, lo: nat, hi: U64, log: Log)
    requires start + WINDOW < TWO_64 && start <= lo <= hi && log in LogsOf(chain, lo, hi)
    ensures Reachable(chain, start, log)
    decreases hi - lo
  {
    hide LogsOf;
    FirstBlock(chain, lo, hi);
    if log !in chain(lo) {
      LogsOfReachable(chain, start, lo + 1, hi, log);
    }
  }

  /** Every log of the blocks fetched so far is represented, and only reachable logs are handled. */
  ghost predicate Complete(chain: Chain, s: MonitorState) {
    && MarksEarned(s)
    && (forall log :: log in s.handled ==> Reachable(chain, s.start, log))
    && RepresentedTo(chain, s.handled, s.start, Fetched(s))
  }

  ghost predicate RepresentedTo(chain: Chain, handled: seq<Log>, lo: nat, hi: nat) {
    forall b, i :: lo <= b < hi && 0 <= i < |chain(b)| ==> Represented(handled, chain(b)[i])
  }

  lemma RepresentedAfter(chain: Chain, handled: seq<Log>, handled': seq<Log>, lo: nat, at: nat, end: nat)
    requires RepresentedTo(chain, handled, lo, at) && handled <= handled' && at <= end
    requires forall log :: log in LogsOf(chain, at, end) ==> Represented(handled', log)
    ensures RepresentedTo(chain, handled', lo, end + 1)
  {
    hide Represented;
    forall b, i | lo <= b < end + 1 && 0 <= i < |chain(b)| ensures Represented(handled', chain(b)[i]) {
      if b < at {
        RepresentedGrows(handled, handled', chain(b)[i]);
      } else {
        InLogsOf(chain, at, end, b, i);
      }
    }
  }

  lemma RepresentedKept(chain: Chain, handled: seq<Log>, handled': seq<Log>, lo: nat, hi: nat)
    requires RepresentedTo(chain, handled, lo, hi) && handled <= handled'
    ensures RepresentedTo(chain, handled', lo, hi)
  {
    forall b, i | lo <= b < hi && 0 <= i < |chain(b)| ensures Represented(handled', chain(b)[i]) {
      RepresentedGrows(handled, handled', chain(b)[i]);
    }
  }

  /** A fetched window is processed, to its end or to a crash, and the checkpoint written or not. */
  lemma WindowComplete(chain: Chain, s: MonitorState, logs: seq<Log>, a: PollAnswer, end: U64)
    requires Safe(chain, s) && Complete(chain, s) && Willing(Poll(a))
    requires s.position.Some? && s.position.value + WINDOW < TWO_64 && s.position.value < end
    requires logs == LogsOf(chain, s.position.value, end)
    ensures Complete(chain, SaveCheckpoint(ProcessFrom(s, logs, a.events, 0), end, a.saved))
  {
    hide Represented;
    var s' := ProcessFrom(s, logs, a.events, 0);
    WindowRepresented(s, logs, a.events, 0);
    ProcessFromHands(s, logs, a.events, 0);
    forall log | log in logs ensures Reachable(chain, s.start, log) {
      LogsOfReachable(chain, s.start, s.position.value, end, log);
    }
    RepresentedKept(chain, s.handled, s'.handled, s.start, Fetched(s));
    if s'.position.Some? {
      assert forall log :: log in logs ==> Represented(s'.handled, log);
      RepresentedAfter(chain, s.handled, s'.handled, s.start, s.position.value, end);
    }
  }

  lemma PollComplete(chain: Chain, s: MonitorState, a: PollAnswer)
    requires Safe(chain, s) && Complete(chain, s) && Willing(Poll(a))
    ensures Complete(chain, PollStep(chain, s, a))
  {
    hide Represented, ProcessFrom;
    if s.position.Some? && a.latest.Some? {
      var position := s.position.value;
      var end := EndBlock(position, a.latest.value);
      if position + WINDOW < TWO_64 && position < end {
        GetLogsExact(chain, a.provider, 0, position, end);
        var outcome := GetLogs(chain, a.provider, 0, position, end).outcome;
        if outcome.Fetched? {
          WindowComplete(chain, s, outcome.logs, a, end);
        }
      }
    }
  }

  /**
   In a willing run, crashes before, in or after any event included, every log of the blocks fetched so
   far is represented among the handled ones.
   */
  lemma {:induction false} RunComplete(chain: Chain, start: U64, steps: seq<Step>)
    requires forall i :: 0 <= i < |steps| ==> Willing(steps[i])
    ensures Complete(chain, Run(chain, Init(start), steps))
  {
    if steps != [] {
      hide Represented, PollStep;
      var n := |steps| - 1;
      RunComplete(chain, start, steps[..n]);
      RunSafe(chain, Init(start), steps[..n]);
      if steps[n].Poll? {
        PollComplete(chain, Run(chain, Init(start), steps[..n]), steps[n].answer);
      }
    }
  }

  /** Serves every request, handles and marks every event, saves the checkpoint. */
  function Eager(latest: U64): PollAnswer {
    PollAnswer(Some(latest), (n, lo, hi) => Served, j => EventAnswer(true, Handled, true, false), true)
  }

  lemma {:induction false} EagerEvents(s: MonitorState, logs: seq<Log>, latest: U64, i: nat)
    requires i <= |logs|
    ensures ProcessFrom(s, logs, Eager(latest).events, i).unmarked == s.unmarked
    decreases |logs| - i
  {
    if i < |logs| && s.position.Some? {
      EagerEvents(ProcessEvent(s, logs[i], Eager(latest).events(i)), logs, latest, i + 1);
    }
  }

  lemma EagerPoll(chain: Chain, s: MonitorState, latest: U64)
    requires s.position.Some? && s.position.value + WINDOW < TWO_64
    requires s.position.value < latest <= s.position.value + WINDOW
    ensures var s' := PollStep(chain, s, Eager(latest));
            && s'.position == Some(latest) && Resume(s') == latest && s'.start == s.start
            && s'.unmarked == s.unmarked
  {
    var logs := LogsOf(chain, s.position.value, latest);
    var a := Eager(latest);
    UninterruptedHands(s, logs, a.events, 0);
    ProcessFromHands(s, logs, a.events, 0);
    EagerEvents(s, logs, latest, 0);
    assert logs[0..] == logs;
  }

  lemma {:induction false} RunCons(chain: Chain, s: MonitorState, step: Step, steps: seq<Step>)
    ensures Run(chain, s, [step] + steps) == Run(chain, Next(chain, s, step), steps)
  {
    hide Next;
    var all := [step] + steps;
    if steps == [] {
      assert all[..0] == [] && all == [step];
    } else {
      var n := |steps| - 1;
      assert all[..n + 1] == [step] + steps[..n];
      RunCons(chain, s, step, steps[..n]);
    }
  }

  /** From where it stands, eager polling comes to block b with every success marked. */
  lemma {:induction false} Climb(chain: Chain, s: MonitorState, b: U64) returns (steps: seq<Step>)
    requires s.position.Some? && s.position.value + WINDOW < TWO_64 && s.position.value < b
    ensures forall i :: 0 <= i < |steps| ==> Willing(steps[i])
    ensures var s' := Run(chain, s, steps);
            s'.unmarked == s.unmarked && Resume(s') == b && s'.start == s.start
    decreases b - s.position.value
  {
    var at := s.position.value;
    var latest := if b <= at + WINDOW then b else at + 1;
    var s1 := PollStep(chain, s, Eager(latest));
    EagerPoll(chain, s, latest);
    var rest := [];
    if latest < b {
      rest := Climb(chain, s1, b);
    }
    steps := [Poll(Eager(latest))] + rest;
    RunCons(chain, s, Poll(Eager(latest)), rest);
  }

  lemma {:induction false} TwoLogsCountTwice(logs: seq<Log>, x: Log, y: Log, hash: nat)
    requires x in logs && y in logs && x != y && x.txHash == y.txHash == Some(hash)
    ensures CountLogs(logs, hash) >= 2
  {
    var n := |logs| - 1;
    assert logs == logs[..n] + [logs[n]];
    if x in logs[..n] && y in logs[..n] {
      TwoLogsCountTwice(logs[..n], x, y, hash);
    } else {
      OneLogCounts(logs[..n], if logs[n] == x then y else x, hash);
    }
  }

  lemma {:induction false} OneLogCounts(logs: seq<Log>, x: Log, hash: nat)
    requires x in logs && x.txHash == Some(hash)
    ensures CountLogs(logs, hash) >= 1
  {
    var n := |logs| - 1;
    assert logs == logs[..n] + [logs[n]];
    if x in logs[..n] {
      OneLogCounts(logs[..n], x, hash);
    }
  }

  /** Every log of the blocks fetched so far has been handled. */
  ghost predicate AllHandled(chain: Chain, s: MonitorState) {
    forall b, i :: s.start <= b < Fetched(s) && 0 <= i < |chain(b)| ==> chain(b)[i] in s.handled
  }

  /** Two logs of one transaction, and a run that comes past both but has handled at most one. */
  lemma SharedHashLosesOne(chain: Chain, start: U64, x: Log, y: Log) returns (steps: seq<Step>)
    requires Reachable(chain, start, x) && Reachable(chain, start, y)
    requires x != y && SameTransaction(x, y)
    ensures forall i :: 0 <= i < |steps| ==> Willing(steps[i])
    ensures !AllHandled(chain, Run(chain, Init(start), steps))
  {
    var cx :| start <= cx < TWO_64 && x in chain(cx);
    var cy :| start <= cy < TWO_64 && y in chain(cy);
    var top: U64 := if cx <= cy then cy else cx;
    var s0 := Next(chain, Init(start), Start(true));
    var polls := Climb(chain, s0, if top > start then top else start + 1);
    steps := [Start(true)] + polls;
    RunCons(chain, Init(start), Start(true), polls);
    var s := Run(chain, Init(start), steps);
    assert top < Fetched(s);
    RunDeduplicated(chain, start, steps, x.txHash.value);
    if x in s.handled && y in s.handled {
      TwoLogsCountTwice(s.handled, x, y, x.txHash.value);
    }
  }

  /** No two different logs that monitoring can reach share a transaction hash. */
  ghost predicate OneLogPerTransaction(chain: Chain, start: U64) {
    forall x, y :: Reachable(chain, start, x) && Reachable(chain, start, y) && SameTransaction(x, y) ==> x == y
  }

  /**
   Exactly when deduplication by transaction costs nothing.  Where the process lives on, stores can be read
   and the handler accepts everything; marks, crashes before, in or after any event, restarts and the
   provider are arbitrary.  Then every log from the start block up to the resume point is handled, in every
   run, if and only if no two reachable logs belong to one transaction.
   */
  lemma AllHandledExact(chain: Chain, start: U64)
    ensures OneLogPerTransaction(chain, start)
       <==> forall steps: seq<Step> :: (forall i :: 0 <= i < |steps| ==> Willing(steps[i])) ==>
              AllHandled(chain, Run(chain, Init(start), steps))
  {
    if OneLogPerTransaction(chain, start) {
      forall steps: seq<Step> | forall i :: 0 <= i < |steps| ==> Willing(steps[i])
        ensures AllHandled(chain, Run(chain, Init(start), steps))
      {
        DistinctAllHandled(chain, start, steps);
      }
    } else {
      var x, y :| Reachable(chain, start, x) && Reachable(chain, start, y) && SameTransaction(x, y) && x != y;
      var steps := SharedHashLosesOne(chain, start, x, y);
    }
  }

  lemma DistinctAllHandled(chain: Chain, start: U64, steps: seq<Step>)
    requires OneLogPerTransaction(chain, start) && forall i :: 0 <= i < |steps| ==> Willing(steps[i])
    ensures AllHandled(chain, Run(chain, Init(start), steps))
  {
    var s := Run(chain, Init(start), steps);
    RunComplete(chain, start, steps);
    RunSafe(chain, Init(start), steps);
    forall b, i | start <= b < Fetched(s) && 0 <= i < |chain(b)| ensures chain(b)[i] in s.handled {
      var log := chain(b)[i];
      assert Represented(s.handled, log);
      assert forall other :: other in s.handled && SameTransaction(log, other) ==> Reachable(chain, start, log);
    }
  }

  /** Block 1 holds two logs of transaction 7. */
  function TwoInOne(b: nat): seq<Log> {
    if b == 1 then [Log(1, 0, Some(7)), Log(1, 1, Some(7))] else []
  }

  /** The shortest instance: one poll hands over both logs, handles the first and passes over the second. */
  lemma SecondLogSkipped()
    ensures var first, second := Log(1, 0, Some(7)), Log(1, 1, Some(7));
            var s := Run(TwoInOne, Init(0), [Start(true), Poll(Eager(1))]);
            && s.handed == [first, second] && s.handled == [first] && s.skipped == [Skip(second, 1)]
            && s.store == Store(map[7 := 1], Some(1))
            && forall later: seq<Step> :: second !in Run(TwoInOne, s, later).handled
  {
    var first, second := Log(1, 0, Some(7)), Log(1, 1, Some(7));
    var steps := [Start(true), Poll(Eager(1))];
    assert steps[..1] == [Start(true)] + [];
    var s0 := Next(TwoInOne, Init(0), Start(true));
    RunCons(TwoInOne, Init(0), Start(true), []);
    assert Run(TwoInOne, Init(0), steps[..1]) == s0;
    var logs := LogsOf(TwoInOne, 0, 1);
    assert logs == [first, second];
    var s1 := ProcessEvent(s0, first, Eager(1).events(0));
    var s2 := ProcessEvent(s1, second, Eager(1).events(1));
    assert ProcessFrom(s0, logs, Eager(1).events, 0) == s2 by {
      assert ProcessFrom(s2, logs, Eager(1).events, 2) == s2;
      assert ProcessFrom(s1, logs, Eager(1).events, 1) == s2;
    }
    var s := Run(TwoInOne, Init(0), steps);
    assert s == PollStep(TwoInOne, s0, Eager(1)) == SaveCheckpoint(s2, 1, true);
    forall later: seq<Step> ensures second !in Run(TwoInOne, s, later).handled {
      SecondLogNeverHandled(TwoInOne, s, later, second);
    }
  }

  // ---------------------------------------------------------------- the service itself

  class EventStore {
    var processed: map<nat, nat>
    var lastBlock: Option<U64>

    ghost function Value(): Store
      reads this
    {
      Store(processed, lastBlock)
    }

    constructor ()
      ensures Value() == Store(map[], None)
    {
      processed, lastBlock := map[], None;
    }

    method IsProcessed(hash: nat, readable: bool) returns (known: Option<bool>)
      ensures known == if readable then Some(hash in processed) else None
    {
      known := if readable then Some(hash in processed) else None;
    }

    method MarkProcessed(hash: nat, block: nat)
      modifies this`processed
      ensures Value() == Mark(old(Value()), hash, block)
    {
      if hash !in processed {
        processed := processed[hash := block];
      }
    }

    method SetLastProcessedBlock(block: U64)
      modifies this`lastBlock
      ensures lastBlock == Some(block)
    {
      lastBlock := Some(block);
    }
  }

  class ChainMonitor {
    const chain: Chain
    const start: U64
    const store: EventStore
    var position: Option<U64>
    ghost var handed: seq<Log>
    ghost var handled: seq<Log>
    ghost var skipped: seq<Skip>
    ghost var unmarked: seq<nat>

    ghost function Value(): MonitorState
      reads this, store
    {
      MonitorState(start, store.Value(), position, handed, handled, skipped, unmarked)
    }

    constructor (chain: Chain, start: U64)
      ensures Value() == Init(start) && this.chain == chain && fresh(store)
    {
      this.chain, this.start := chain, start;
      store := new EventStore();
      position, handed, handled, skipped, unmarked := None, [], [], [], [];
    }

    method HandleEvent(log: Log, a: EventAnswer)
      modifies this, store
      ensures Value() == ProcessEvent(old(Value()), log, a)
    {
      handed := handed + [log];
      if a.crashed {
        position := None;
      }
      if log.txHash.Some? {
        var known := store.IsProcessed(log.txHash.value, a.readable);
        if known.None? {
          return;
        }
        if known.value {
          skipped := skipped + [Skip(log, |handled|)];
          return;
        }
      }
      if a.handler.Handled? {
        handled := handled + [log];
        if log.txHash.Some? {
          if a.marked {
            store.MarkProcessed(log.txHash.value, log.block);
          } else {
            unmarked := unmarked + [log.txHash.value];
          }
        }
      }
    }

    method HandleAll(logs: seq<Log>, answers: nat -> EventAnswer)
      modifies this, store
      ensures Value() == ProcessFrom(old(Value()), logs, answers, 0)
    {
      var i := 0;
      while i < |logs| && position.Some?
        invariant 0 <= i <= |logs|
        invariant ProcessFrom(old(Value()), logs, answers, 0) == ProcessFrom(Value(), logs, answers, i)
      {
        HandleEvent(logs[i], answers(i));
        i := i + 1;
      }
    }

    /** One round of the polling loop in `run_rpc_monitor`. */
    method PollOnce(a: PollAnswer)
      modifies this, store
      ensures Value() == PollStep(chain, old(Value()), a)
    {
      if position.None? || a.latest.None? {
        return;
      }
      var current := position.value;
      if current + WINDOW >= TWO_64 {
        position := None;
        return;
      }
      var end := EndBlock(current, a.latest.value);
      if end <= current {
        end := current;
      } else {
        var fetch := GetLogs(chain, a.provider, 0, current, end);
        if fetch.outcome.Failed? {
          return;
        }
        if fetch.outcome.Overflow? {
          position := None;
          return;
        }
        HandleAll(fetch.outcome.logs, a.events);
        if position.None? {
          return;
        }
      }
      if a.saved {
        position := Some(end);
        store.SetLastProcessedBlock(end);
      } else {
        position := None;
      }
    }
  }
}
