/** The inbox that hands out numbers (crates/synddb-sequencer/src/inbox.rs), as part of the sequencer's protocol. */
module Numbering {
  import opened Sequences
  import Batching
  import opened Sequencing

  /**
   The inbox: one atomic counter, seen as the handlers' part of the protocol.  `protocol` is the whole
   sequencer's state; taking a number and signing are separate calls, since other handlers may come
   between them.
   */
  class Inbox {
    var sequence: nat
    ghost var protocol: State

    ghost predicate Valid()
      reads this
    {
      sequence == protocol.next
    }

    constructor (start: nat, ghost limits: Batching.Limits)
      ensures Valid() && sequence == start && protocol == Init(start, limits)
    {
      sequence, protocol := start, Init(start, limits);
    }

    /** `fetch_add`. */
    method TakeNumber() returns (n: nat)
      requires Valid()
      modifies this
      ensures Valid() && n == old(sequence) && n in protocol.signing
      ensures protocol == Next(old(protocol), Assign)
    {
      n := sequence;
      sequence := sequence + 1;
      protocol := Next(protocol, Assign);
    }

    /** Signing may fail; the number stays spent. */
    method SignNumber(n: nat, size: nat, signed: bool) returns (result: Option<Batching.Message>)
      requires Valid() && n in protocol.signing
      modifies this`protocol
      ensures Valid() && n !in protocol.signing
      ensures protocol == Next(old(protocol), if signed then Sign(n, size) else SignFailed(n))
      ensures result == if signed then Some(Batching.Message(n, size)) else None
    {
      protocol := Next(protocol, if signed then Sign(n, size) else SignFailed(n));
      result := if signed then Some(Batching.Message(n, size)) else None;
    }

    /** `sequence_message`, here without another handler in between. */
    method SequenceMessage(size: nat, signed: bool) returns (result: Option<Batching.Message>)
      requires Valid()
      modifies this
      ensures Valid()
      ensures var n := old(sequence);
              && protocol == Run(old(protocol), [Assign, if signed then Sign(n, size) else SignFailed(n)])
              && result == if signed then Some(Batching.Message(n, size)) else None
    {
      var n := TakeNumber();
      result := SignNumber(n, size, signed);
      RunSnoc(old(protocol), [], Assign);
      RunSnoc(old(protocol), [Assign], if signed then Sign(n, size) else SignFailed(n));
    }
  }
}
