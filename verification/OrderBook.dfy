/**
 The order book simulator (crates/synddb-benchmark/src/orderbook.rs).  Rows are addressed by
 position, as ids are handed out in order and rows are never deleted.  Random choices are part of
 the step: a step whose choice matches no row is the query that found none.
 */
module OrderBook {
  import opened Sequences
  import opened Words

  datatype Side = Buy | Sell
  datatype Status = Active | Partial | FilledUp | Cancelled
  datatype Order = Order(user: nat, symbol: string, side: Side, price: nat, quantity: nat, filled: nat, status: Status)
  datatype Trade = Trade(buy: nat, sell: nat, symbol: string, price: nat, quantity: nat, buyer: nat, seller: nat)
  datatype Account = Account(user: nat, symbol: string)

  datatype Book = Book(orders: seq<Order>, trades: seq<Trade>, balances: map<Account, int>)

  datatype Step =
    | Place(user: nat, symbol: string, side: Side, price: nat, quantity: nat)
    | Cancel(id: nat)
    | Match(buy: nat, sell: nat, price: nat)
    | Adjust(account: Account, change: int)

  predicate OpenOn(b: Book, id: nat, side: Side) {
    id < |b.orders| && b.orders[id].status == Active && b.orders[id].side == side
  }

  /** The UPDATE run on each side of a trade. */
  function Fill(o: Order, quantity: nat): Order {
    o.(filled := o.filled + quantity,
       status := if o.filled + quantity >= o.quantity then FilledUp else Partial)
  }

  predicate CanMatch(b: Book, buy: nat, sell: nat) {
    OpenOn(b, buy, Buy) && OpenOn(b, sell, Sell) && b.orders[buy].symbol == b.orders[sell].symbol
  }

  function MatchOrders(b: Book, buy: nat, sell: nat, price: nat): Book
    requires CanMatch(b, buy, sell)
  {
    var bo, so := b.orders[buy], b.orders[sell];
    var quantity := Min(bo.quantity, so.quantity);
    b.(trades := b.trades + [Trade(buy, sell, bo.symbol, price, quantity, bo.user, so.user)],
       orders := b.orders[buy := Fill(bo, quantity)][sell := Fill(so, quantity)])
  }

  function Next(b: Book, step: Step): Book {
    match step
    case Place(user, symbol, side, price, quantity) =>
      if 1 <= quantity < 100 then
        b.(orders := b.orders + [Order(user, symbol, side, price, quantity, 0, Active)])
      else b
    case Cancel(id) =>
      if id < |b.orders| && b.orders[id].status == Active then
        b.(orders := b.orders[id := b.orders[id].(status := Cancelled)])
      else b
    case Match(buy, sell, price) => if CanMatch(b, buy, sell) then MatchOrders(b, buy, sell, price) else b
    case Adjust(account, change) =>
      if account in b.balances then
        var amount := b.balances[account] + change;
        b.(balances := b.balances[account := if amount > 0 then amount else 0])
      else b
  }

  function Run(b: Book, steps: seq<Step>): Book {
    if steps == [] then b else Next(Run(b, steps[..|steps| - 1]), steps[|steps| - 1])
  }

  // ---------------------------------------------------------------- sums over orders and trades

  function FilledOn(orders: seq<Order>, symbol: string, side: Side): nat {
    if orders == [] then 0
    else
      FilledOn(orders[..|orders| - 1], symbol, side) + Counted(orders[|orders| - 1], symbol, side)
  }

  function Counted(o: Order, symbol: string, side: Side): nat {
    if o.symbol == symbol && o.side == side then o.filled else 0
  }

  function Traded(trades: seq<Trade>, symbol: string): nat {
    if trades == [] then 0
    else
      var t := trades[|trades| - 1];
      Traded(trades[..|trades| - 1], symbol) + if t.symbol == symbol then t.quantity else 0
  }

  predicate Names(t: Trade, id: nat) {
    t.buy == id || t.sell == id
  }

  /** The quantity traded for order `id`, and in how many trades. */
  function TradedFor(trades: seq<Trade>, id: nat): nat {
    if trades == [] then 0
    else
      var t := trades[|trades| - 1];
      TradedFor(trades[..|trades| - 1], id) + if Names(t, id) then t.quantity else 0
  }

  function TradesOf(trades: seq<Trade>, id: nat): nat {
    if trades == [] then 0
    else TradesOf(trades[..|trades| - 1], id) + if Names(trades[|trades| - 1], id) then 1 else 0
  }

  lemma FilledOnSnoc(orders: seq<Order>, o: Order, symbol: string, side: Side)
    ensures FilledOn(orders + [o], symbol, side) == FilledOn(orders, symbol, side) + Counted(o, symbol, side)
  {
    assert (orders + [o])[..|orders|] == orders;
  }

  lemma {:induction false} FilledOnUpdate(orders: seq<Order>, i: nat, o: Order, symbol: string, side: Side)
    requires i < |orders|
    ensures FilledOn(orders[i := o], symbol, side) + Counted(orders[i], symbol, side)
         == FilledOn(orders, symbol, side) + Counted(o, symbol, side)
  {
    var n := |orders| - 1;
    if i < n {
      FilledOnUpdate(orders[..n], i, o, symbol, side);
      assert orders[i := o][..n] == orders[..n][i := o];
    } else {
      assert orders[i := o][..n] == orders[..n];
    }
  }

  lemma TradesSnoc(trades: seq<Trade>, t: Trade, symbol: string, id: nat)
    ensures Traded(trades + [t], symbol) == Traded(trades, symbol) + if t.symbol == symbol then t.quantity else 0
    ensures TradedFor(trades + [t], id) == TradedFor(trades, id) + if Names(t, id) then t.quantity else 0
    ensures TradesOf(trades + [t], id) == TradesOf(trades, id) + if Names(t, id) then 1 else 0
  {
    assert (trades + [t])[..|trades|] == trades;
  }

  // ---------------------------------------------------------------- the invariant

  /** Status and fill agree, and the fill is what the trades naming the order add up to. */
  predicate OrderOk(o: Order, traded: nat, count: nat) {
    && o.filled == traded
    && o.filled <= o.quantity && o.quantity > 0
    && match o.status
       case Active => o.filled == 0 && count == 0
       case Cancelled => o.filled == 0 && count == 0
       case Partial => 0 < o.filled < o.quantity && count == 1
       case FilledUp => o.filled == o.quantity && count == 1
  }

  ghost predicate OrdersOk(b: Book) {
    forall id: nat :: id < |b.orders| ==>
      OrderOk(b.orders[id], TradedFor(b.trades, id), TradesOf(b.trades, id))
  }

  /** A trade names a buy and a sell order of its symbol and has used one of them up. */
  predicate TradeOk(b: Book, t: Trade) {
    && t.buy < |b.orders| && t.sell < |b.orders|
    && b.orders[t.buy].side == Buy && b.orders[t.sell].side == Sell
    && b.orders[t.buy].symbol == b.orders[t.sell].symbol == t.symbol
    && t.buyer == b.orders[t.buy].user && t.seller == b.orders[t.sell].user
    && 0 < t.quantity == Min(b.orders[t.buy].quantity, b.orders[t.sell].quantity)
    && (b.orders[t.buy].status == FilledUp || b.orders[t.sell].status == FilledUp)
  }

  ghost predicate TradesOk(b: Book) {
    forall i :: 0 <= i < |b.trades| ==> TradeOk(b, b.trades[i])
  }

  ghost predicate Balanced(b: Book) {
    forall symbol: string ::
      FilledOn(b.orders, symbol, Buy) == Traded(b.trades, symbol) == FilledOn(b.orders, symbol, Sell)
  }

  ghost predicate Solvent(b: Book) {
    forall account | account in b.balances :: b.balances[account] >= 0
  }

  ghost predicate BookOk(b: Book) {
    OrdersOk(b) && TradesOk(b) && Balanced(b) && Solvent(b)
  }

  lemma {:induction false} UnnamedBeyond(b: Book, n: nat, id: nat)
    requires TradesOk(b) && n <= |b.trades| && id >= |b.orders|
    ensures TradedFor(b.trades[..n], id) == 0 && TradesOf(b.trades[..n], id) == 0
  {
    if n > 0 {
      UnnamedBeyond(b, n - 1, id);
      assert b.trades[..n][..n - 1] == b.trades[..n - 1];
    }
  }

  lemma PlaceOk(b: Book, step: Step)
    requires BookOk(b) && step.Place?
    ensures BookOk(Next(b, step))
  {
    hide FilledOn, Traded;
    if 1 <= step.quantity < 100 {
      var o := Order(step.user, step.symbol, step.side, step.price, step.quantity, 0, Active);
      UnnamedBeyond(b, |b.trades|, |b.orders|);
      assert b.trades[..|b.trades|] == b.trades;
      forall symbol, side ensures FilledOn(b.orders + [o], symbol, side) == FilledOn(b.orders, symbol, side) {
        FilledOnSnoc(b.orders, o, symbol, side);
      }
    }
  }

  lemma CancelOk(b: Book, step: Step)
    requires BookOk(b) && step.Cancel?
    ensures BookOk(Next(b, step))
  {
    var id := step.id;
    if id < |b.orders| && b.orders[id].status == Active {
      var o := b.orders[id].(status := Cancelled);
      forall symbol, side ensures FilledOn(b.orders[id := o], symbol, side) == FilledOn(b.orders, symbol, side) {
        FilledOnUpdate(b.orders, id, o, symbol, side);
      }
    }
  }

  lemma MatchOrdersOk(b: Book, buy: nat, sell: nat, price: nat)
    requires OrdersOk(b) && CanMatch(b, buy, sell)
    ensures OrdersOk(MatchOrders(b, buy, sell, price))
  {
    var b' := MatchOrders(b, buy, sell, price);
    var t := b'.trades[|b.trades|];
    forall id: nat | id < |b'.orders|
      ensures OrderOk(b'.orders[id], TradedFor(b'.trades, id), TradesOf(b'.trades, id))
    {
      TradesSnoc(b.trades, t, t.symbol, id);
      assert OrderOk(b.orders[id], TradedFor(b.trades, id), TradesOf(b.trades, id));
      assert OrderOk(b.orders[buy], TradedFor(b.trades, buy), TradesOf(b.trades, buy));
      assert OrderOk(b.orders[sell], TradedFor(b.trades, sell), TradesOf(b.trades, sell));
    }
  }

  lemma MatchTradesOk(b: Book, buy: nat, sell: nat, price: nat)
    requires OrdersOk(b) && TradesOk(b) && CanMatch(b, buy, sell)
    ensures TradesOk(MatchOrders(b, buy, sell, price))
  {
    assert OrderOk(b.orders[buy], TradedFor(b.trades, buy), TradesOf(b.trades, buy));
    assert OrderOk(b.orders[sell], TradedFor(b.trades, sell), TradesOf(b.trades, sell));
    var b' := MatchOrders(b, buy, sell, price);
    forall i | 0 <= i < |b'.trades| ensures TradeOk(b', b'.trades[i]) {
      if i < |b.trades| {
        assert TradeOk(b, b.trades[i]);
      }
    }
  }

  lemma MatchBalanced(b: Book, buy: nat, sell: nat, price: nat, symbol: string)
    requires OrdersOk(b) && Balanced(b) && CanMatch(b, buy, sell)
    ensures var b' := MatchOrders(b, buy, sell, price);
            FilledOn(b'.orders, symbol, Buy) == Traded(b'.trades, symbol) == FilledOn(b'.orders, symbol, Sell)
  {
    assert OrderOk(b.orders[buy], TradedFor(b.trades, buy), TradesOf(b.trades, buy));
    assert OrderOk(b.orders[sell], TradedFor(b.trades, sell), TradesOf(b.trades, sell));
    var b' := MatchOrders(b, buy, sell, price);
    var t := b'.trades[|b.trades|];
    TradesSnoc(b.trades, t, symbol, buy);
    var half := b.orders[buy := b'.orders[buy]];
    FilledOnUpdate(b.orders, buy, b'.orders[buy], symbol, Buy);
    FilledOnUpdate(b.orders, buy, b'.orders[buy], symbol, Sell);
    FilledOnUpdate(half, sell, b'.orders[sell], symbol, Buy);
    FilledOnUpdate(half, sell, b'.orders[sell], symbol, Sell);
  }

  lemma MatchOk(b: Book, buy: nat, sell: nat, price: nat)
    requires BookOk(b) && CanMatch(b, buy, sell)
    ensures BookOk(MatchOrders(b, buy, sell, price))
  {
    MatchOrdersOk(b, buy, sell, price);
    MatchTradesOk(b, buy, sell, price);
    forall symbol: string
      ensures var b' := MatchOrders(b, buy, sell, price);
              FilledOn(b'.orders, symbol, Buy) == Traded(b'.trades, symbol) == FilledOn(b'.orders, symbol, Sell)
    {
      MatchBalanced(b, buy, sell, price, symbol);
    }
  }

  /**
   In every state reachable from an empty book, balances aside: active and cancelled orders have
   nothing filled; no order is filled beyond its quantity; an order's fill is the sum of the trades
   naming it, of which there is at most one; every trade used up one of its sides; and per symbol the
   buy side's fill, the sell side's fill and the volume traded are equal.
   */
  lemma {:induction false} RunOk(balances: map<Account, int>, steps: seq<Step>)
    requires forall account | account in balances :: balances[account] >= 0
    ensures BookOk(Run(Book([], [], balances), steps))
  {
    if steps != [] {
      var n := |steps| - 1;
      RunOk(balances, steps[..n]);
      var b := Run(Book([], [], balances), steps[..n]);
      match steps[n]
      case Place(_, _, _, _, _) => PlaceOk(b, steps[n]);
      case Cancel(_) => CancelOk(b, steps[n]);
      case Match(buy, sell, price) =>
        if CanMatch(b, buy, sell) {
          MatchOk(b, buy, sell, price);
        }
      case Adjust(_, _) =>
        var b' := Next(b, steps[n]);
        assert OrdersOk(b') && Balanced(b') && Solvent(b');
        forall i | 0 <= i < |b'.trades| ensures TradeOk(b', b'.trades[i]) {
          assert TradeOk(b, b.trades[i]);
        }
    }
  }

  // ---------------------------------------------------------------- what becomes of each order

  predicate Accepted(step: Step) {
    step.Place? && 1 <= step.quantity < 100
  }

  /** The placements of a run, in order. */
  function Placements(steps: seq<Step>): (placed: seq<Step>)
    ensures forall i :: 0 <= i < |placed| ==> Accepted(placed[i])
  {
    if steps == [] then []
    else
      var last := steps[|steps| - 1];
      Placements(steps[..|steps| - 1]) + if Accepted(last) then [last] else []
  }

  predicate PlacedAs(o: Order, p: Step)
    requires p.Place?
  {
    o.user == p.user && o.symbol == p.symbol && o.side == p.side && o.price == p.price && o.quantity == p.quantity
  }

  /** Order n is the n-th placement, with its user, symbol, side, price and quantity, for ever. */
  lemma {:induction false} OrdersArePlacements(balances: map<Account, int>, steps: seq<Step>)
    ensures var b := Run(Book([], [], balances), steps);
            && |b.orders| == |Placements(steps)|
            && forall i :: 0 <= i < |b.orders| ==> PlacedAs(b.orders[i], Placements(steps)[i])
  {
    if steps != [] {
      var n := |steps| - 1;
      OrdersArePlacements(balances, steps[..n]);
    }
  }

  /** Every trade was struck by a Match step between its two orders at its price. */
  lemma {:induction false} TradesAreMatches(balances: map<Account, int>, steps: seq<Step>)
    ensures forall t :: t in Run(Book([], [], balances), steps).trades ==> Match(t.buy, t.sell, t.price) in steps
  {
    if steps != [] {
      var n := |steps| - 1;
      TradesAreMatches(balances, steps[..n]);
      assert forall s :: s in steps[..n] ==> s in steps;
      assert steps[n] in steps;
    }
  }

  /** The orders a step names. */
  predicate Touches(step: Step, id: nat) {
    match step
    case Cancel(i) => i == id
    case Match(buy, sell, _) => buy == id || sell == id
    case _ => false
  }

  /**
   An order leaves the active state exactly by being cancelled or matched, the latter only against an
   active order of the other side and the same symbol; a step that does not name it leaves it alone.
   */
  lemma ActiveExact(b: Book, step: Step, id: nat)
    requires id < |b.orders| && b.orders[id].status == Active
    ensures var o := Next(b, step).orders[id];
            && (o.status == Cancelled <==> step == Cancel(id))
            && (o.status in {Partial, FilledUp} <==>
                  && step.Match? && Touches(step, id) && step.buy < |b.orders| && step.sell < |b.orders|
                  && b.orders[step.buy].status == b.orders[step.sell].status == Active
                  && b.orders[step.buy].side == Buy && b.orders[step.sell].side == Sell
                  && b.orders[step.buy].symbol == b.orders[step.sell].symbol)
            && (!Touches(step, id) ==> o == b.orders[id])
  {
  }

  /** What is no longer active is final: nothing that happens later changes the order. */
  lemma {:induction false} SettledIsFinal(b: Book, steps: seq<Step>, id: nat)
    requires id < |b.orders| && b.orders[id].status != Active
    ensures var b' := Run(b, steps);
            id < |b'.orders| && b'.orders[id] == b.orders[id]
  {
    if steps != [] {
      SettledIsFinal(b, steps[..|steps| - 1], id);
    }
  }

  // ---------------------------------------------------------------- balances

  /** The sum of all changes asked for on an account. */
  function Drift(steps: seq<Step>, account: Account): int {
    if steps == [] then 0
    else
      var last := steps[|steps| - 1];
      Drift(steps[..|steps| - 1], account)
      + if last.Adjust? && last.account == account then last.change else 0
  }

  /** The lowest point the unclamped balance reaches from `first`, counted down from zero. */
  function Lowest(first: int, steps: seq<Step>, account: Account): int {
    if steps == [] then 0
    else
      var before := Lowest(first, steps[..|steps| - 1], account);
      var now := first + Drift(steps, account);
      if now < before then now else before
  }

  /**
   The balance in closed form.  Clamping at zero adds back exactly the deepest shortfall so far: the
   balance is the first amount plus all changes, less the lowest point, if below zero, that this sum has
   gone through.  Accounts are neither opened nor closed.
   */
  lemma {:induction false} BalanceExact(balances: map<Account, int>, steps: seq<Step>, account: Account)
    requires account in balances ==> balances[account] >= 0
    ensures var b := Run(Book([], [], balances), steps);
            && b.balances.Keys == balances.Keys
            && (account in balances ==>
                  b.balances[account]
                  == balances[account] + Drift(steps, account) - Lowest(balances[account], steps, account))
  {
    if steps != [] {
      var n := |steps| - 1;
      BalanceExact(balances, steps[..n], account);
      if account in balances {
        LowestBelow(balances[account], steps[..n], account);
      }
    }
  }

  lemma {:induction false} LowestBelow(first: int, steps: seq<Step>, account: Account)
    requires first >= 0
    ensures Lowest(first, steps, account) <= 0 && Lowest(first, steps, account) <= first + Drift(steps, account)
  {
    if steps != [] {
      LowestBelow(first, steps[..|steps| - 1], account);
    }
  }

  // ---------------------------------------------------------------- the simulator itself

  class Simulator {
    var orders: seq<Order>
    var trades: seq<Trade>
    var balances: map<Account, int>

    function Value(): Book
      reads this
    {
      Book(orders, trades, balances)
    }

    constructor (balances: map<Account, int>)
      ensures Value() == Book([], [], balances)
    {
      orders, trades, this.balances := [], [], balances;
    }

    method PlaceOrder(user: nat, symbol: string, side: Side, price: nat, quantity: nat)
      requires 1 <= quantity < 100
      modifies this`orders
      ensures Value() == Next(old(Value()), Place(user, symbol, side, price, quantity))
    {
      orders := orders + [Order(user, symbol, side, price, quantity, 0, Active)];
    }

    /** `chosen`: the active order the query picked, if it found any. */
    method CancelOrder(chosen: Option<nat>)
      requires chosen.Some? ==> chosen.value < |orders| && orders[chosen.value].status == Active
      modifies this`orders
      ensures Value() == if chosen.Some? then Next(old(Value()), Cancel(chosen.value)) else old(Value())
    {
      if chosen.Some? {
        var id := chosen.value;
        orders := orders[id := orders[id].(status := Cancelled)];
      }
    }

    method ApplyFill(id: nat, quantity: nat)
      requires id < |orders|
      modifies this`orders
      ensures orders == old(orders)[id := Fill(old(orders)[id], quantity)]
    {
      var o := orders[id];
      var status := if o.filled + quantity >= o.quantity then FilledUp else Partial;
      orders := orders[id := o.(filled := o.filled + quantity, status := status)];
    }

    method ExecuteTrade(buy: Option<nat>, sell: Option<nat>, price: nat)
      requires buy.Some? ==> OpenOn(Value(), buy.value, Buy)
      requires sell.Some? ==> OpenOn(Value(), sell.value, Sell)
      modifies this
      ensures Value() == if buy.Some? && sell.Some?
                         then Next(old(Value()), Match(buy.value, sell.value, price)) else old(Value())
    {
      if buy.Some? && sell.Some? {
        var bo, so := orders[buy.value], orders[sell.value];
        if bo.symbol == so.symbol {
          var quantity := if bo.quantity <= so.quantity then bo.quantity else so.quantity;
          trades := trades + [Trade(buy.value, sell.value, bo.symbol, price, quantity, bo.user, so.user)];
          ApplyFill(buy.value, quantity);
          ApplyFill(sell.value, quantity);
        }
      }
    }

    method UpdateBalance(account: Account, change: int)
      modifies this`balances
      ensures Value() == Next(old(Value()), Adjust(account, change))
    {
      if account in balances {
        var amount := balances[account] + change;
        balances := balances[account := if amount > 0 then amount else 0];
      }
    }
  }

  function CeilDiv(a: nat, b: nat): (q: nat)
    requires b > 0
  {
    (a + b - 1) / b
  }

  lemma CeilDivBounds(a: nat, b: nat)
    requires b > 0
    ensures CeilDiv(a, b) == 0 ==> a == 0
    ensures CeilDiv(a, b) > 0 ==> (CeilDiv(a, b) - 1) * b < a <= (CeilDiv(a, b) - 1) * b + b
  {
    var q := CeilDiv(a, b);
    var r := (a + b - 1) % b;
    assert a + b - 1 == q * b + r;
    assert (q - 1) * b == q * b - b;
  }

  lemma FullBatches(i: nat, last: nat, batch: nat)
    ensures (i + 1) * batch == i * batch + batch
    ensures i <= last ==> i * batch <= last * batch
  {
    if i <= last {
      assert last * batch == i * batch + (last - i) * batch;
    }
  }

  /**
   The batches of one burst: together exactly the operations of the burst, none empty, none larger
   than a batch, and all but the last full.
   */
  method SplitBurst(burst: nat, batch: nat) returns (sizes: seq<nat>)
    requires batch > 0
    ensures Sum(sizes) == burst
    ensures forall i :: 0 <= i < |sizes| ==> 0 < sizes[i] <= batch
    ensures forall i :: 0 <= i < |sizes| - 1 ==> sizes[i] == batch
  {
    var count := CeilDiv(burst, batch);
    CeilDivBounds(burst, batch);
    sizes := [];
    for i := 0 to count
      invariant |sizes| == i
      invariant Sum(sizes) == if i < count then i * batch else burst
      invariant forall j :: 0 <= j < |sizes| ==> 0 < sizes[j] <= batch
      invariant forall j :: 0 <= j < |sizes| && j < count - 1 ==> sizes[j] == batch
    {
      FullBatches(i, count - 1, batch);
      var ops: nat := if i == count - 1 then burst - i * batch else batch;
      SumSnoc(sizes, ops);
      sizes := sizes + [ops];
    }
  }
}
