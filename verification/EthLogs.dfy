/**
 `get_logs` and `handle_split_range` (crates/synddb-chain-monitor/src/eth_client.rs): a range of
 blocks is fetched in one request and halved whenever the provider times out or refuses.

 The provider is adversarial: its answer may depend on how many requests came before and on the
 range asked for.  When it does answer with logs, they are the chain's logs for that range.
 */
module EthLogs {
  import opened Sequences
  import opened Words

  datatype Log = Log(block: nat, index: nat, txHash: Option<nat>)

  /** The logs of each block, in order.  The chain is not reorganised. */
  type Chain = nat -> seq<Log>

  datatype Answer = Served | TimedOut | ErrorResponse | TransportError
  type Provider = (nat, U64, U64) -> Answer

  /** Overflow: `from_block + to_block` does not fit in 64 bits. */
  datatype Outcome = Fetched(logs: seq<Log>) | Failed | Overflow

  datatype Fetch = Fetch(outcome: Outcome, requests: nat)

  /** The logs of blocks lo .. hi, both included. */
  function LogsOf(chain: Chain, lo: nat, hi: nat): (logs: seq<Log>)
    decreases hi - lo
  {
    if lo > hi then [] else if lo == hi then chain(lo) else chain(lo) + LogsOf(chain, lo + 1, hi)
  }

  lemma FirstBlock(chain: Chain, lo: nat, hi: nat)
    requires lo <= hi
    ensures LogsOf(chain, lo, hi) == if lo == hi then chain(lo) else chain(lo) + LogsOf(chain, lo + 1, hi)
  {
  }

  lemma {:induction false} LogsOfSplit(chain: Chain, lo: nat, mid: nat, hi: nat)
    requires lo <= mid < hi
    ensures LogsOf(chain, lo, hi) == LogsOf(chain, lo, mid) + LogsOf(chain, mid + 1, hi)
    decreases mid - lo
  {
    hide LogsOf;
    FirstBlock(chain, lo, hi);
    FirstBlock(chain, lo, mid);
    if lo < mid {
      LogsOfSplit(chain, lo + 1, mid, hi);
      var first, lower, upper := chain(lo), LogsOf(chain, lo + 1, mid), LogsOf(chain, mid + 1, hi);
      assert first + (lower + upper) == (first + lower) + upper;
    }
  }

  /** `asked` requests have been made before this call. */
  function GetLogs(chain: Chain, p: Provider, asked: nat, lo: U64, hi: U64): (fetch: Fetch)
    decreases if lo < hi then hi - lo else 0, 1
  {
    match p(asked, lo, hi)
    case Served => Fetch(Fetched(LogsOf(chain, lo, hi)), asked + 1)
    case TransportError => Fetch(Failed, asked + 1)
    case _ => SplitRange(chain, p, asked + 1, lo, hi)
  }

  function SplitRange(chain: Chain, p: Provider, asked: nat, lo: U64, hi: U64): (fetch: Fetch)
    decreases if lo < hi then hi - lo else 0, 0
  {
    if hi <= lo then Fetch(Failed, asked)
    else if lo + hi >= TWO_64 then Fetch(Overflow, asked)
    else
      var mid := (lo + hi) / 2;
      var lower := GetLogs(chain, p, asked, lo, mid);
      if !lower.outcome.Fetched? then lower
      else
        var upper := GetLogs(chain, p, lower.requests, mid + 1, hi);
        if !upper.outcome.Fetched? then upper
        else Fetch(Fetched(lower.outcome.logs + upper.outcome.logs), upper.requests)
  }

  /** Whatever the provider does: a result is complete and in order, and requests are few. */
  lemma {:induction false} GetLogsExact(chain: Chain, p: Provider, asked: nat, lo: U64, hi: U64)
    ensures var f := GetLogs(chain, p, asked, lo, hi);
            && (f.outcome.Fetched? ==> f.outcome.logs == LogsOf(chain, lo, hi))
            && asked < f.requests <= asked + 1 + if lo < hi then 2 * (hi - lo) else 0
    decreases if lo < hi then hi - lo else 0
  {
    if lo < hi && lo + hi < TWO_64 {
      var mid := (lo + hi) / 2;
      GetLogsExact(chain, p, asked + 1, lo, mid);
      var lower := GetLogs(chain, p, asked + 1, lo, mid);
      GetLogsExact(chain, p, lower.requests, mid + 1, hi);
      LogsOfSplit(chain, lo, mid, hi);
    }
  }

  /** It only gives up on a single block that is refused, or on a transport error. */
  ghost predicate Patient(p: Provider) {
    forall n, lo, hi :: p(n, lo, hi) != TransportError && (hi <= lo ==> p(n, lo, hi) == Served)
  }

  /** Against a provider that at least serves single blocks, splitting always succeeds. */
  lemma {:induction false} GetLogsSucceeds(chain: Chain, p: Provider, asked: nat, lo: U64, hi: U64)
    requires Patient(p) && hi <= TWO_63
    ensures GetLogs(chain, p, asked, lo, hi).outcome == Fetched(LogsOf(chain, lo, hi))
    decreases if lo < hi then hi - lo else 0
  {
    GetLogsExact(chain, p, asked, lo, hi);
    if lo < hi {
      var mid := (lo + hi) / 2;
      GetLogsSucceeds(chain, p, asked + 1, lo, mid);
      GetLogsSucceeds(chain, p, GetLogs(chain, p, asked + 1, lo, mid).requests, mid + 1, hi);
    }
  }

  /** A transport error is not split around, nor is a single block that is refused: one request and it fails. */
  lemma GivesUpAtOnce(chain: Chain, p: Provider, asked: nat, lo: U64, hi: U64)
    requires p(asked, lo, hi) == TransportError || (hi <= lo && p(asked, lo, hi) != Served)
    ensures GetLogs(chain, p, asked, lo, hi) == Fetch(Failed, asked + 1)
  {
  }

  /**
   A range of two blocks or more that the provider refuses or lets time out comes back exactly when both
   halves do, the upper one asked for after the lower one.
   */
  lemma HalvesDecide(chain: Chain, p: Provider, asked: nat, lo: U64, hi: U64)
    requires p(asked, lo, hi) in {TimedOut, ErrorResponse} && lo < hi && lo + hi < TWO_64
    ensures var mid := (lo + hi) / 2;
            var lower := GetLogs(chain, p, asked + 1, lo, mid);
            var upper := GetLogs(chain, p, lower.requests, mid + 1, hi);
            GetLogs(chain, p, asked, lo, hi).outcome.Fetched? <==> lower.outcome.Fetched? && upper.outcome.Fetched?
  {
  }

  // ---------------------------------------------------------------- 64-bit block arithmetic

  lemma {:induction false} NoOverflow(chain: Chain, p: Provider, asked: nat, lo: U64, hi: U64)
    requires hi <= TWO_63
    ensures !GetLogs(chain, p, asked, lo, hi).outcome.Overflow?
    decreases if lo < hi then hi - lo else 0
  {
    if lo < hi {
      var mid := (lo + hi) / 2;
      NoOverflow(chain, p, asked + 1, lo, mid);
      NoOverflow(chain, p, GetLogs(chain, p, asked + 1, lo, mid).requests, mid + 1, hi);
    }
  }

  /** Serves single blocks, refuses everything longer. */
  function Stingy(n: nat, lo: U64, hi: U64): Answer {
    if hi <= lo then Served else ErrorResponse
  }

  lemma {:induction false} StingyOverflows(chain: Chain, asked: nat, lo: U64, hi: U64)
    requires lo < hi && hi > TWO_63
    ensures GetLogs(chain, Stingy, asked, lo, hi).outcome.Overflow?
    decreases hi - lo
  {
    if lo + hi < TWO_64 {
      var mid := (lo + hi) / 2;
      // lo <= TWO_63 - 2 here, so the upper half is still longer than one block.
      assert mid + 1 < hi;
      assert Patient(Stingy);
      GetLogsSucceeds(chain, Stingy, asked + 1, lo, mid);
      StingyOverflows(chain, GetLogs(chain, Stingy, asked + 1, lo, mid).requests, mid + 1, hi);
    }
  }

  /**
   Exactly when the midpoint can leave 64 bits: some provider drives the recursion into an
   overflowing sum if and only if the range has at least two blocks and ends above 2^63.  That
   lo + hi itself fits is not enough, since the upper halves add larger numbers.
   */
  lemma OverflowExact(chain: Chain, asked: nat, lo: U64, hi: U64)
    ensures (exists p: Provider :: GetLogs(chain, p, asked, lo, hi).outcome.Overflow?)
       <==> lo < hi && hi > TWO_63
  {
    if lo < hi && hi > TWO_63 {
      StingyOverflows(chain, asked, lo, hi);
    } else {
      forall p: Provider ensures !GetLogs(chain, p, asked, lo, hi).outcome.Overflow? {
        if hi <= TWO_63 {
          NoOverflow(chain, p, asked, lo, hi);
        }
      }
    }
  }

  /** Refuses the whole range and its upper half, serves the lower half. */
  function LowerHalfOnly(n: nat, lo: U64, hi: U64): Answer {
    if hi < TWO_63 then Served else ErrorResponse
  }

  /** The first sum fits in 64 bits, the second does not: three requests and the arithmetic overflows. */
  lemma FittingSumStillOverflows(chain: Chain)
    ensures 0 + (TWO_64 - 1) < TWO_64
    ensures GetLogs(chain, LowerHalfOnly, 0, 0, TWO_64 - 1) == Fetch(Overflow, 3)
  {
    hide LogsOf;
    var top: U64 := TWO_64 - 1;
    assert (0 + top) / 2 == TWO_63 - 1;
    var lower := GetLogs(chain, LowerHalfOnly, 1, 0, TWO_63 - 1);
    assert lower.outcome.Fetched? && lower.requests == 2;
    assert GetLogs(chain, LowerHalfOnly, 2, TWO_63, top) == SplitRange(chain, LowerHalfOnly, 3, TWO_63, top);
    assert SplitRange(chain, LowerHalfOnly, 3, TWO_63, top) == Fetch(Overflow, 3);
    assert SplitRange(chain, LowerHalfOnly, 1, 0, top) == Fetch(Overflow, 3);
  }
}
