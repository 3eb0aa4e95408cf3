/**
 The session attached to a busy device, the products ordered during it, and the
 game catalogue entry a session is started from.
 */
module Sessions {

  /** A product line sold during a session; only `total` enters the bill. */
  datatype Order = Order(name: string, qty: int, price: real, total: real)

  /** A game of the catalogue; `price` is the hourly rate. */
  datatype Game = Game(id: int, name: string, price: real)

  /**
   A running session. Times are milliseconds since the epoch. `timeLimitMinutes`
   is the prepaid time of a timed session and 0 for an open one.
   */
  datatype Session = Session(
    id: int,
    startTime: int,
    gameId: int,
    gameName: string,
    hourlyRate: real,
    isTimed: bool,
    timeLimitMinutes: int,
    orders: seq<Order>)

  /**
   The orders' amount, summed from the left starting at 0 as
   `orders.reduce((sum, o) => sum + o.total, 0)` does.
   */
  function OrdersTotal(orders: seq<Order>): (total: real)
    ensures (forall i :: 0 <= i < |orders| ==> orders[i].total >= 0.0) ==> total >= 0.0
    decreases |orders|
  {
    if |orders| == 0 then 0.0
    else OrdersTotal(orders[..|orders| - 1]) + orders[|orders| - 1].total
  }

  /** The sum of the orders' amounts, folded from the right: an independent reference. */
  function SumTotals(orders: seq<Order>): (sum: real)
    decreases |orders|
  {
    if |orders| == 0 then 0.0 else orders[0].total + SumTotals(orders[1..])
  }

  /** Summing two runs of orders is adding their sums. */
  lemma {:induction false} OrdersTotalAppend(a: seq<Order>, b: seq<Order>)
    ensures OrdersTotal(a + b) == OrdersTotal(a) + OrdersTotal(b)
    decreases |b|
  {
    if |b| == 0 {
      assert a + b == a;
    } else {
      var b' := b[..|b| - 1];
      assert (a + b)[..|a + b| - 1] == a + b';
      assert (a + b)[|a + b| - 1] == b[|b| - 1];
      OrdersTotalAppend(a, b');
    }
  }

  /** The left fold of the source and the right-fold reference agree on every list. */
  lemma {:induction false} OrdersTotalIsSum(orders: seq<Order>)
    ensures OrdersTotal(orders) == SumTotals(orders)
    decreases |orders|
  {
    if |orders| > 0 {
      OrdersTotalAppend([orders[0]], orders[1..]);
      assert [orders[0]] + orders[1..] == orders;
      assert OrdersTotal([orders[0]]) == orders[0].total by {
        assert [orders[0]][..0] == [];
      }
      OrdersTotalIsSum(orders[1..]);
    }
  }
}
