/** The order manager of omsflatradejiddi.py as an object whose methods update
    its queues in place. Each method is proved to leave the object in the
    state the matching function of `OrderBook` computes from the old one,
    and to keep the barrier invariant; what those functions guarantee is
    proved there. */
module Oms {
  import opened Wrappers
  import opened Seqs
  import opened OrderModel
  import OB = OrderBook

  class OrderManager {
    /** The account orders are placed for, `BLOCK_ALL_ORDERS`, `SIMULATED`
        and the broker's verdict on each placement. */
    const config: OB.Config
    /** `_orders_to_place`, front first. */
    var ordersToPlace: seq<KniteOrder>
    /** `_sl_orders`. */
    var slOrders: seq<KniteOrder>
    /** `_open_orders`. */
    var openOrders: map<string, KniteOrder>
    /** `_errored_orders`. */
    var erroredOrders: seq<KniteOrder>
    /** `_barrier_orders`. */
    var barrierOrders: set<string>
    /** The payloads sent to the broker, in order. */
    var submitted: seq<Payload>
    /** The orders handed to the failure handler, in order. */
    var failed: seq<KniteOrder>
    /** The next reading of the nanosecond clock. */
    var clock: nat

    /** The object's state as a value. */
    function State(): OB.Book
      reads this
    {
      OB.Book(ordersToPlace, slOrders, openOrders, erroredOrders, barrierOrders, submitted, failed, clock)
    }

    ghost predicate Valid()
      reads this
    {
      OB.Valid(State())
    }

    /** Start-up: every structure is empty. */
    constructor(config: OB.Config)
      ensures this.config == config && State() == OB.EmptyBook && Valid()
    {
      this.config := config;
      ordersToPlace := [];
      slOrders := [];
      openOrders := map[];
      erroredOrders := [];
      barrierOrders := {};
      submitted := [];
      failed := [];
      clock := 0;
    }

    /** `generate_order_id`: reads the clock, which then moves on. */
    method GenerateOrderId() returns (id: string)
      modifies this
      ensures id == OB.OrderIdAt(old(clock))
      ensures State() == old(State()).(clock := old(clock) + 1)
    {
      id := OB.OrderIdAt(clock);
      clock := clock + 1;
    }

    /** `get_barrier_order`. */
    method GetBarrierOrder(now: real) returns (barrier: KniteOrder)
      modifies this
      ensures (State(), barrier) == OB.GetBarrierOrder(old(State()), now)
    {
      var id := GenerateOrderId();
      barrier := NewKniteOrder(id, ORDER_TYPE_LIMIT, Some("I"), now);
      barrier := barrier.(tag := OB.BARRIER_TAG);
      barrier := barrier.(isBarrier := true);
      barrierOrders := barrierOrders + {barrier.id};
    }

    /** `can_place_new_order`. */
    function CanPlaceNewOrder(o: KniteOrder): (r: bool)
      reads this
      ensures r <==> OB.CanPlaceNewOrder(State(), o)
    {
      !o.isBarrier || |barrierOrders| == 0
    }

    /** `create_sl_order`. */
    method CreateSlOrder(parent: KniteOrder, now: real) returns (sl: KniteOrder)
      modifies this
      ensures sl == OrderModel.CreateSlOrder(parent, OB.OrderIdAt(old(clock)), now)
      ensures State() == old(State()).(clock := old(clock) + 1)
    {
      var id := GenerateOrderId();
      sl := NewKniteOrder(id, ORDER_TYPE_SL, Some("I"), now);
      sl := sl.(parent := Some(parent.id));
      sl := sl.(instrument := parent.instrument);
      sl := sl.(quantity := parent.quantity);
      sl := sl.(price := Some(parent.slPrice));
    }

    /** `process_new_order`, with the broker call recorded in `submitted`
        and the hand-offs to `handle_order_failure` in `failed`. */
    method ProcessNewOrder(o: KniteOrder)
      modifies this
      ensures State() == OB.ProcessNewOrder(config, old(State()), o)
    {
      if o.isBarrier {
        barrierOrders := barrierOrders - {o.id};
        return;
      }
      if o.quantity > 0 {
        var placed := BuildPayload(config.user, o);
        match placed
        case Ok(p) =>
          submitted := submitted + [p];
          if config.brokerRaises(o) {
            failed := failed + [o.(status := ORDER_STATUS_REJECTED)];
          } else if o.slPrice != 0 {
            // `fill_orders` reads `filled_qty` from the returned order id
            failed := failed + [o];
          }
        case Err(_) =>
          failed := failed + [o.(status := ORDER_STATUS_REJECTED)];
      }
    }

    /** `process_new_orders`: at most `min(100, len)` orders, each popped from
        the front as long as the gate lets the head through. */
    method ProcessNewOrders()
      modifies this
      ensures State() == OB.ProcessNewOrders(config, old(State()))
      ensures old(Valid()) ==> Valid()
    {
      ghost var s0 := State();
      if old(Valid()) {
        OB.ProcessNewOrdersValid(config, s0);
      }
      if config.blockAllOrders || |ordersToPlace| == 0 {
        return;
      }
      var n := OB.Min(OB.MAX_ORDERS_PER_CYCLE, |ordersToPlace|);
      var i := 0;
      while i < n
        invariant 0 <= i <= n
        invariant |ordersToPlace| + i == |s0.queue|
        invariant OB.ProcessLoop(config, State(), n - i) == OB.ProcessLoop(config, s0, n)
      {
        if !CanPlaceNewOrder(ordersToPlace[0]) {
          return;
        }
        var order := ordersToPlace[0];
        ordersToPlace := ordersToPlace[1..];
        ProcessNewOrder(order);
        i := i + 1;
      }
    }

    /** `exit_orders`: split the batch by priority, close each non-empty group
        with a barrier, put the low-priority group and then the high-priority
        group in front of the queue, and process the queue. */
    method ExitOrders(orders: seq<KniteOrder>, now: real)
      modifies this
      ensures State() == OB.ExitOrders(config, old(State()), orders, now)
      ensures old(Valid()) && OB.PlainBatch(orders) ==> Valid()
    {
      ghost var s0 := State();
      if old(Valid()) && OB.PlainBatch(orders) {
        OB.ExitOrdersValid(config, s0, orders, now);
      }
      var p1 := OB.HighPriority(orders);
      var p2 := OB.LowPriority(orders);
      if p1 != [] {
        var barrier := GetBarrierOrder(now);
        p1 := p1 + [barrier];
      }
      if p2 != [] {
        var barrier := GetBarrierOrder(now);
        p2 := p2 + [barrier];
      }
      ordersToPlace := OB.ExtendLeft(ordersToPlace, Reverse(p1));
      ordersToPlace := OB.ExtendLeft(ordersToPlace, Reverse(p2));
      assert State() == OB.ExitEnqueue(s0, orders, now);
      ProcessNewOrders();
    }

    /** `process_sl_orders`: newest to oldest, a triggered order is exited and
        then taken out of the list. */
    method ProcessSlOrders(now: real)
      modifies this
      ensures State() == OB.ProcessSlOrders(config, old(State()), now)
      ensures old(Valid()) ==> Valid()
    {
      ghost var s0 := State();
      if old(Valid()) {
        OB.ProcessSlOrdersValid(config, s0, now);
      }
      if |slOrders| == 0 {
        return;
      }
      var idx := |slOrders|;
      while idx > 0
        invariant 0 <= idx <= |slOrders|
        invariant OB.ProcessSlFrom(config, State(), idx, now) == OB.ProcessSlFrom(config, s0, |s0.slOrders|, now)
        decreases idx
      {
        idx := idx - 1;
        ghost var before := State();
        var order := slOrders[idx];
        if order.stopBreached && IsOpen(order) {
          ExitOrders([order], now);
          slOrders := RemoveAt(slOrders, idx);
        }
        assert State() == OB.SlVisit(config, before, idx, now);
      }
    }

    /** `fill_orders`, given the last traded prices; `raised` is the
        `AttributeError` for an order without an instrument. */
    method FillOrders(knite: KniteOrder, broker: BrokerOrder, prices: map<string, int>, now: real) returns (raised: bool)
      modifies this
      ensures OB.FillOrders(old(State()), knite, broker, prices, now) == if raised then None else Some(State())
      ensures raised ==> State() == old(State())
    {
      raised := false;
      if knite.slPrice != 0 && broker.filledQty > 0 {
        if knite.instrument.None? {
          return true;
        }
        var currentPrice := OB.Ltp(prices, knite.instrument);
        if currentPrice.Some? && currentPrice.value != 0 && currentPrice.value < knite.slPrice {
          var sl := CreateSlOrder(knite, now);
          slOrders := slOrders + [sl];
        }
      }
    }

    /** `process_open_order`: `done` on a terminal status, `raised` when the
        fill raised. */
    method ProcessOpenOrder(broker: BrokerOrder, prices: map<string, int>, now: real) returns (done: bool, raised: bool)
      requires broker.id in openOrders
      modifies this
      ensures OB.ProcessOpenOrder(old(State()), broker, prices, now) == if raised then None else Some((State(), done))
      ensures raised ==> State() == old(State())
    {
      var knite := openOrders[broker.id];
      done, raised := false, false;
      if broker.status == ORDER_STATUS_REJECTED {
        raised := FillOrders(knite, broker, prices, now);
        done := true;
      } else if broker.status == ORDER_STATUS_COMPLETE {
        raised := FillOrders(knite, broker, prices, now);
        done := true;
      }
    }

    /** `process_open_orders`, given the reports `get_orders` returned;
        `raised` when a fill raised and ended the sweep. */
    method ProcessOpenOrders(brokers: seq<BrokerOrder>, prices: map<string, int>, now: real) returns (raised: bool)
      modifies this
      ensures OB.ProcessOpenOrders(config, old(State()), brokers, prices, now) == OB.Sweep(State(), raised)
      ensures old(Valid()) ==> Valid()
    {
      ghost var s0 := State();
      OB.ProcessOpenOrdersEffect(config, s0, brokers, prices, now);
      raised := false;
      if config.simulated || |openOrders| == 0 {
        return;
      }
      for i := 0 to |brokers|
        invariant OB.OpenSweep(s0, brokers[..i], prices, now) == OB.Sweep(State(), false)
      {
        ghost var before := State();
        var broker := brokers[i];
        OB.OpenSweepStep(s0, brokers, i, prices, now);
        if broker.id in openOrders {
          var done;
          done, raised := ProcessOpenOrder(broker, prices, now);
          if raised {
            return;
          }
          if done {
            openOrders := openOrders - {broker.id};
          }
        }
        assert OB.OpenStep(before, broker, prices, now) == Some(State());
      }
      assert brokers[..|brokers|] == brokers;
    }

    /** The timeout filter of `process_errored_orders`. */
    method ProcessErroredOrders(now: real)
      modifies this
      ensures State() == OB.ProcessErroredOrders(old(State()), now)
      ensures old(Valid()) ==> Valid()
    {
      if |erroredOrders| == 0 {
        return;
      }
      erroredOrders := OB.KeepRecent(erroredOrders, now);
    }

    /** `_handle_ws_message`. */
    method HandleWsMessage(msg: OB.WsMessage)
      modifies this
      ensures State() == old(State()).(openOrders := OB.WsUpdate(old(openOrders), msg))
      ensures old(Valid()) ==> Valid()
    {
      if msg.t == Some("om") {
        var filledQty := ParseInt(if msg.filledqty.Some? then msg.filledqty.value else "0");
        if filledQty.None? {
          return;
        }
        if msg.n.Some? && msg.n.value in openOrders {
          var current := openOrders[msg.n.value];
          var knite := current.(filledQty := filledQty.value);
          if msg.status == Some("REJECTED") || msg.status == Some("CANCELLED") {
            knite := knite.(status := ORDER_STATUS_REJECTED);
          } else if msg.status == Some("COMPLETE") {
            knite := knite.(status := ORDER_STATUS_COMPLETE);
          } else if msg.status == Some("OPEN") || msg.status == Some("PENDING") {
            knite := knite.(status := ORDER_STATUS_OPEN);
          }
          assert knite == current.(filledQty := filledQty.value, status := WsStatus(msg.status, current.status));
          openOrders := openOrders[msg.n.value := knite];
        }
      }
    }

    /** `eod`: flush the queue and the open orders. */
    method Eod()
      modifies this
      ensures State() == OB.Eod(old(State()))
      ensures old(Valid()) ==> Valid()
    {
      ordersToPlace := [];
      openOrders := map[];
    }
  }
}
