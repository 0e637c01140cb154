/** The shared state of the order manager in omsflatradejiddi.py, as a value,
    and each of its operations as a function from the old state to the new one.
    The class `Oms.OrderManager` updates the same state in place and proves each
    of its methods equal to the function here; the lemmas below are what the
    functions guarantee. */
module OrderBook {
  import opened Wrappers
  import opened Seqs
  import opened Decimal
  import opened OrderModel

  /** `OrderManager.ERROR_ORDER_TIMEOUT_SEC`. */
  const ERROR_ORDER_TIMEOUT_SEC: real := 5.0
  /** The per-cycle bound in `process_new_orders`. */
  const MAX_ORDERS_PER_CYCLE: nat := 100
  const BARRIER_TAG: string := "BARRIER"

  /** The account the broker calls are made for, the two class flags
      `BLOCK_ALL_ORDERS` and `SIMULATED`, and the broker's verdict on each
      placement: `brokerRaises(o)` holds when the broker call in `place_order`
      raises for `o`. Order ids are fresh, so this can be any verdict per order. */
  datatype Config = Config(user: string, blockAllOrders: bool, simulated: bool, brokerRaises: KniteOrder -> bool)

  /** The manager's shared structures. `submitted` lists the payloads handed to
      the broker, in order; `failed` the orders whose placement raised, which
      the source hands to `handle_order_failure`; `clock` stands for the
      nanosecond clock that order ids are made from. */
  datatype Book = Book(
    queue: seq<KniteOrder>,
    slOrders: seq<KniteOrder>,
    openOrders: map<string, KniteOrder>,
    errored: seq<KniteOrder>,
    barriers: set<string>,
    submitted: seq<Payload>,
    failed: seq<KniteOrder>,
    clock: nat)

  /** The state at start-up, with every structure, the barrier set included, empty. */
  const EmptyBook: Book := Book([], [], map[], [], {}, [], [], 0)

  // ---------------------------------------------------------------------------
  // Order ids and barriers

  /** `generate_order_id` at clock reading `t`. */
  function OrderIdAt(t: nat): string {
    "ORD_" + Render(t)
  }

  /** Different clock readings give different ids. */
  lemma OrderIdsDistinct(s: nat, t: nat)
    ensures OrderIdAt(s) == OrderIdAt(t) ==> s == t
  {
    if OrderIdAt(s) == OrderIdAt(t) {
      assert OrderIdAt(s)[4..] == Render(s);
      assert OrderIdAt(t)[4..] == Render(t);
      RenderInjective(s, t);
    }
  }

  /** The order `get_barrier_order` makes. */
  function NewBarrier(id: string, now: real): (o: KniteOrder)
    ensures o.isBarrier && o.tag == BARRIER_TAG && o.id == id && o.orderType == ORDER_TYPE_LIMIT
    ensures o.quantity == 0 && !o.isHighPriority
  {
    NewKniteOrder(id, ORDER_TYPE_LIMIT, Some("I"), now).(tag := BARRIER_TAG, isBarrier := true)
  }

  /** `get_barrier_order`: a new barrier whose id is registered as outstanding. */
  function GetBarrierOrder(b: Book, now: real): (r: (Book, KniteOrder))
    ensures r.1 == NewBarrier(OrderIdAt(b.clock), now)
    ensures r.0.barriers == b.barriers + {r.1.id} && r.1.id in r.0.barriers
    ensures r.0 == b.(barriers := r.0.barriers, clock := b.clock + 1)
  {
    var barrier := NewBarrier(OrderIdAt(b.clock), now);
    (b.(barriers := b.barriers + {barrier.id}, clock := b.clock + 1), barrier)
  }

  /** `can_place_new_order`: the barrier gate. */
  predicate CanPlaceNewOrder(b: Book, o: KniteOrder) {
    !o.isBarrier || b.barriers == {}
  }

  /** Ordinary orders always pass the gate; a barrier whose own id is still
      registered never does. */
  lemma BarrierGate(b: Book, o: KniteOrder)
    ensures !o.isBarrier ==> CanPlaceNewOrder(b, o)
    ensures o.isBarrier && o.id in b.barriers ==> !CanPlaceNewOrder(b, o)
    ensures o.isBarrier ==> (CanPlaceNewOrder(b, o) <==> b.barriers == {})
  {
  }

  // ---------------------------------------------------------------------------
  // exit_orders

  predicate IsHighPriority(o: KniteOrder) {
    o.isHighPriority
  }

  predicate IsLowPriority(o: KniteOrder) {
    !o.isHighPriority
  }

  function HighPriority(orders: seq<KniteOrder>): seq<KniteOrder> {
    Filter(orders, IsHighPriority)
  }

  function LowPriority(orders: seq<KniteOrder>): seq<KniteOrder> {
    Filter(orders, IsLowPriority)
  }

  /** The priority split is a partition of the batch, each part in batch order. */
  lemma PrioritySplit(orders: seq<KniteOrder>)
    ensures |HighPriority(orders)| + |LowPriority(orders)| == |orders|
    ensures forall o :: o in HighPriority(orders) <==> o in orders && o.isHighPriority
    ensures forall o :: o in LowPriority(orders) <==> o in orders && !o.isHighPriority
  {
    FilterSplitsLength(orders, IsHighPriority, IsLowPriority);
    FilterMembers(orders, IsHighPriority);
    FilterMembers(orders, IsLowPriority);
  }

  /** `deque.extendleft(xs)`: each element in turn is pushed onto the front. */
  function ExtendLeft(q: seq<KniteOrder>, xs: seq<KniteOrder>): seq<KniteOrder>
    decreases |xs|
  {
    if xs == [] then q else ExtendLeft([xs[0]] + q, xs[1..])
  }

  lemma {:induction false} ExtendLeftConcat(q: seq<KniteOrder>, xs: seq<KniteOrder>, ys: seq<KniteOrder>)
    ensures ExtendLeft(q, xs + ys) == ExtendLeft(ExtendLeft(q, xs), ys)
    decreases |xs|
  {
    if xs == [] {
      assert xs + ys == ys;
    } else {
      assert (xs + ys)[1..] == xs[1..] + ys;
      ExtendLeftConcat([xs[0]] + q, xs[1..], ys);
    }
  }

  /** `extendleft(reversed(xs))` puts `xs`, in its own order, in front of the queue. */
  lemma {:induction false} ExtendLeftReversed(q: seq<KniteOrder>, xs: seq<KniteOrder>)
    ensures ExtendLeft(q, Reverse(xs)) == xs + q
  {
    if xs != [] {
      ExtendLeftConcat(q, Reverse(xs[1..]), [xs[0]]);
      ExtendLeftReversed(q, xs[1..]);
      assert ExtendLeft(xs[1..] + q, [xs[0]]) == [xs[0]] + (xs[1..] + q);
      assert [xs[0]] + (xs[1..] + q) == xs + q;
    }
  }

  /** A priority group followed by its barrier; an empty group gets none. */
  function Barriered(group: seq<KniteOrder>, id: string, now: real): seq<KniteOrder> {
    if group == [] then [] else group + [NewBarrier(id, now)]
  }

  /** Appends a barrier to a non-empty group, registering it. */
  function AddBarrier(b: Book, group: seq<KniteOrder>, now: real): (r: (Book, seq<KniteOrder>))
    ensures r.1 == Barriered(group, OrderIdAt(b.clock), now)
    ensures group == [] ==> r.0 == b
    ensures group != [] ==>
      r.0 == b.(barriers := b.barriers + {OrderIdAt(b.clock)}, clock := b.clock + 1)
  {
    if group == [] then (b, group)
    else
      var (b', barrier) := GetBarrierOrder(b, now);
      (b', group + [barrier])
  }

  /** The queue update of `exit_orders`, before it processes the queue. */
  function ExitEnqueue(b: Book, orders: seq<KniteOrder>, now: real): (r: Book)
    ensures r.slOrders == b.slOrders && r.openOrders == b.openOrders && r.errored == b.errored
    ensures r.submitted == b.submitted && r.failed == b.failed && b.barriers <= r.barriers
  {
    var (b1, p1) := AddBarrier(b, HighPriority(orders), now);
    var (b2, p2) := AddBarrier(b1, LowPriority(orders), now);
    b2.(queue := ExtendLeft(ExtendLeft(b2.queue, Reverse(p1)), Reverse(p2)))
  }

  /** The clock reading the low-priority barrier's id is made from. */
  function SecondBarrierClock(b: Book, orders: seq<KniteOrder>): nat {
    if HighPriority(orders) == [] then b.clock else b.clock + 1
  }

  /** After `exit_orders` enqueues, the queue is the low-priority block and its
      barrier, then the high-priority block and its barrier, then the old queue;
      both barriers are registered. */
  lemma ExitEnqueueQueue(b: Book, orders: seq<KniteOrder>, now: real)
    ensures var e := ExitEnqueue(b, orders, now);
      var p1 := HighPriority(orders);
      var p2 := LowPriority(orders);
      var c2 := SecondBarrierClock(b, orders);
      && e.queue == Barriered(p2, OrderIdAt(c2), now) + Barriered(p1, OrderIdAt(b.clock), now) + b.queue
      && e.barriers == b.barriers + (if p1 == [] then {} else {OrderIdAt(b.clock)})
                                  + (if p2 == [] then {} else {OrderIdAt(c2)})
      && e.clock == c2 + (if p2 == [] then 0 else 1)
  {
    var p1 := HighPriority(orders);
    var p2 := LowPriority(orders);
    var (b1, q1) := AddBarrier(b, p1, now);
    var (b2, q2) := AddBarrier(b1, p2, now);
    ExtendLeftReversed(b.queue, q1);
    ExtendLeftReversed(q1 + b.queue, q2);
    assert q2 + (q1 + b.queue) == q2 + q1 + b.queue;
  }

  // ---------------------------------------------------------------------------
  // process_new_orders / process_new_order

  /** `process_new_order` for an order already popped from the queue. A
      barrier only discards its id; an order with a non-positive quantity
      reaches no broker call; any other order has its payload handed to the
      broker, and is recorded as failed with status REJECTED when
      `place_order` raises, either because its type is unknown (before any
      payload exists) or because the broker call raises. Once placed, an
      order with a stop price fails too, with its status unchanged:
      `fill_orders` then reads `filled_qty` from what `place_order` returned,
      an order id or `None`, and raises. */
  function ProcessNewOrder(cfg: Config, b: Book, o: KniteOrder): (r: Book)
    ensures r.queue == b.queue && r.slOrders == b.slOrders && r.openOrders == b.openOrders
    ensures r.errored == b.errored && r.clock == b.clock
  {
    if o.isBarrier then b.(barriers := b.barriers - {o.id})
    else if o.quantity > 0 then
      match BuildPayload(cfg.user, o)
      case Ok(p) =>
        var b' := b.(submitted := b.submitted + [p]);
        if cfg.brokerRaises(o) then b'.(failed := b.failed + [o.(status := ORDER_STATUS_REJECTED)])
        else if o.slPrice != 0 then b'.(failed := b.failed + [o])
        else b'
      case Err(_) => b.(failed := b.failed + [o.(status := ORDER_STATUS_REJECTED)])
    else b
  }

  /** The `for` loop of `process_new_orders` with `k` iterations left. */
  function ProcessLoop(cfg: Config, b: Book, k: nat): (r: Book)
    ensures r.slOrders == b.slOrders && r.openOrders == b.openOrders
    ensures r.errored == b.errored && r.clock == b.clock
    decreases k
  {
    if k == 0 || b.queue == [] || !CanPlaceNewOrder(b, b.queue[0]) then b
    else ProcessLoop(cfg, ProcessNewOrder(cfg, b.(queue := b.queue[1..]), b.queue[0]), k - 1)
  }

  function Min(x: nat, y: nat): nat {
    if x < y then x else y
  }

  /** `process_new_orders`. */
  function ProcessNewOrders(cfg: Config, b: Book): (r: Book)
    ensures r.slOrders == b.slOrders && r.openOrders == b.openOrders
    ensures r.errored == b.errored && r.clock == b.clock
  {
    if cfg.blockAllOrders || b.queue == [] then b
    else ProcessLoop(cfg, b, Min(MAX_ORDERS_PER_CYCLE, |b.queue|))
  }

  /** What placing `o` hands to the broker: its payload, if it is an ordinary
      order with a positive quantity whose type the order-type map knows. */
  function Submission(user: string, o: KniteOrder): seq<Payload> {
    if o.isBarrier || o.quantity <= 0 then []
    else match BuildPayload(user, o)
      case Ok(p) => [p]
      case Err(_) => []
  }

  function Submissions(user: string, os: seq<KniteOrder>): seq<Payload> {
    if os == [] then [] else Submission(user, os[0]) + Submissions(user, os[1..])
  }

  /** What placing `o` records as failed, for an ordinary order with a
      positive quantity: `o`, rejected, when the order-type map does not know
      its type or the broker call raises; `o` itself when it was placed and
      has a stop price. */
  function Failure(cfg: Config, o: KniteOrder): seq<KniteOrder> {
    if o.isBarrier || o.quantity <= 0 then []
    else match BuildPayload(cfg.user, o)
      case Ok(_) =>
        if cfg.brokerRaises(o) then [o.(status := ORDER_STATUS_REJECTED)]
        else if o.slPrice != 0 then [o]
        else []
      case Err(_) => [o.(status := ORDER_STATUS_REJECTED)]
  }

  function Failures(cfg: Config, os: seq<KniteOrder>): seq<KniteOrder> {
    if os == [] then [] else Failure(cfg, os[0]) + Failures(cfg, os[1..])
  }

  /** Placing one popped order: exactly its submission and its failure are
      recorded, or, for a barrier, exactly its id is discarded. A payload is
      handed to the broker exactly for an ordinary order with a positive
      quantity and a known type. Such an order fails exactly when the type is
      unknown, the broker call raises or the placed order has a stop price;
      it is logged as REJECTED exactly when `place_order` raised. */
  lemma ProcessNewOrderEffect(cfg: Config, b: Book, o: KniteOrder)
    ensures var r := ProcessNewOrder(cfg, b, o);
      && r.submitted == b.submitted + Submission(cfg.user, o)
      && r.failed == b.failed + Failure(cfg, o)
      && r.barriers == b.barriers - (if o.isBarrier then {o.id} else {})
    ensures var r := ProcessNewOrder(cfg, b, o);
      var placed := !o.isBarrier && o.quantity > 0;
      var known := o.orderType in {ORDER_TYPE_LIMIT, ORDER_TYPE_SL, ORDER_TYPE_MARKET};
      var raises := !known || cfg.brokerRaises(o);
      && (|r.submitted| == |b.submitted| + 1 <==> placed && known)
      && (!(placed && known) ==> r.submitted == b.submitted)
      && (|r.failed| == |b.failed| + 1 <==> placed && (raises || o.slPrice != 0))
      && (!(placed && (raises || o.slPrice != 0)) ==> r.failed == b.failed)
      && (|r.failed| == |b.failed| + 1 ==>
            r.failed[|b.failed|] == if raises then o.(status := ORDER_STATUS_REJECTED) else o)
  {
    PlaceOrderPayload(cfg.user, o);
  }

  function BarrierIds(os: seq<KniteOrder>): set<string> {
    set o | o in os && o.isBarrier :: o.id
  }

  /** The loop pops a prefix of the queue, in FIFO order, of at most `k`
      orders, and stops early only at a head that cannot pass the barrier gate. */
  lemma {:induction false} ProcessLoopPops(cfg: Config, b: Book, k: nat)
    ensures var r := ProcessLoop(cfg, b, k);
      var j := |b.queue| - |r.queue|;
      && 0 <= j <= k && j <= |b.queue| && r.queue == b.queue[j..]
      && (j < k && r.queue != [] ==> !CanPlaceNewOrder(r, r.queue[0]))
    decreases k
  {
    var q := b.queue;
    if !(k == 0 || q == [] || !CanPlaceNewOrder(b, q[0])) {
      var b' := ProcessNewOrder(cfg, b.(queue := q[1..]), q[0]);
      ProcessLoopPops(cfg, b', k - 1);
      var r := ProcessLoop(cfg, b', k - 1);
      assert q[1..][|b'.queue| - |r.queue|..] == q[|q| - |r.queue|..];
    }
  }

  /** The orders the loop pops, in the order it pops them. */
  function Popped(cfg: Config, b: Book, k: nat): seq<KniteOrder>
    decreases k
  {
    if k == 0 || b.queue == [] || !CanPlaceNewOrder(b, b.queue[0]) then []
    else [b.queue[0]] + Popped(cfg, ProcessNewOrder(cfg, b.(queue := b.queue[1..]), b.queue[0]), k - 1)
  }

  /** The popped orders are a prefix of the queue and the rest is left queued. */
  lemma {:induction false} PoppedQueue(cfg: Config, b: Book, k: nat)
    ensures var p := Popped(cfg, b, k);
      |p| <= |b.queue| && p == b.queue[..|p|] && ProcessLoop(cfg, b, k).queue == b.queue[|p|..]
    decreases k
  {
    var q := b.queue;
    if !(k == 0 || q == [] || !CanPlaceNewOrder(b, q[0])) {
      var b' := ProcessNewOrder(cfg, b.(queue := q[1..]), q[0]);
      PoppedQueue(cfg, b', k - 1);
      var p' := Popped(cfg, b', k - 1);
      assert q[1..][|p'|..] == q[|p'| + 1..];
      assert [q[0]] + p' == q[..|p'| + 1];
    }
  }

  lemma {:induction false} PoppedSubmitted(cfg: Config, b: Book, k: nat)
    ensures ProcessLoop(cfg, b, k).submitted == b.submitted + Submissions(cfg.user, Popped(cfg, b, k))
    decreases k
  {
    var q := b.queue;
    if !(k == 0 || q == [] || !CanPlaceNewOrder(b, q[0])) {
      var b' := ProcessNewOrder(cfg, b.(queue := q[1..]), q[0]);
      ProcessNewOrderEffect(cfg, b.(queue := q[1..]), q[0]);
      PoppedSubmitted(cfg, b', k - 1);
      var p' := Popped(cfg, b', k - 1);
      assert ([q[0]] + p')[1..] == p';
    }
  }

  lemma {:induction false} PoppedFailed(cfg: Config, b: Book, k: nat)
    ensures ProcessLoop(cfg, b, k).failed == b.failed + Failures(cfg, Popped(cfg, b, k))
    decreases k
  {
    var q := b.queue;
    if !(k == 0 || q == [] || !CanPlaceNewOrder(b, q[0])) {
      var b' := ProcessNewOrder(cfg, b.(queue := q[1..]), q[0]);
      ProcessNewOrderEffect(cfg, b.(queue := q[1..]), q[0]);
      PoppedFailed(cfg, b', k - 1);
      var p' := Popped(cfg, b', k - 1);
      assert ([q[0]] + p')[1..] == p';
    }
  }

  lemma {:induction false} PoppedBarriers(cfg: Config, b: Book, k: nat)
    ensures ProcessLoop(cfg, b, k).barriers == b.barriers - BarrierIds(Popped(cfg, b, k))
    decreases k
  {
    var q := b.queue;
    if k == 0 || q == [] || !CanPlaceNewOrder(b, q[0]) {
      assert BarrierIds([]) == {};
    } else {
      var b' := ProcessNewOrder(cfg, b.(queue := q[1..]), q[0]);
      ProcessNewOrderEffect(cfg, b.(queue := q[1..]), q[0]);
      PoppedBarriers(cfg, b', k - 1);
      var p' := Popped(cfg, b', k - 1);
      assert BarrierIds([q[0]] + p') == (if q[0].isBarrier then {q[0].id} else {}) + BarrierIds(p');
    }
  }

  /** Over the popped prefix, the loop hands the broker exactly its
      submissions, records exactly its failures and discards exactly its
      barrier ids. */
  lemma ProcessLoopEffect(cfg: Config, b: Book, k: nat)
    ensures var r := ProcessLoop(cfg, b, k);
      var j := |b.queue| - |r.queue|;
      && 0 <= j <= |b.queue|
      && r.submitted == b.submitted + Submissions(cfg.user, b.queue[..j])
      && r.failed == b.failed + Failures(cfg, b.queue[..j])
      && r.barriers == b.barriers - BarrierIds(b.queue[..j])
  {
    PoppedQueue(cfg, b, k);
    PoppedSubmitted(cfg, b, k);
    PoppedFailed(cfg, b, k);
    PoppedBarriers(cfg, b, k);
  }

  // ---------------------------------------------------------------------------
  // The barrier invariant

  /** Every barrier in the queue has its id registered as outstanding. */
  predicate BarriersRegistered(b: Book) {
    forall o :: o in b.queue && o.isBarrier ==> o.id in b.barriers
  }

  /** Stop-loss orders are never barriers. */
  predicate SlOrdersPlain(b: Book) {
    forall o :: o in b.slOrders ==> !o.isBarrier
  }

  /** The invariant every operation of the manager keeps. */
  predicate Valid(b: Book) {
    BarriersRegistered(b) && SlOrdersPlain(b)
  }

  lemma EmptyBookValid()
    ensures Valid(EmptyBook)
  {
  }

  /** While every queued barrier is registered, the loop never pops a barrier:
      the registered set, and with it the invariant, survive unchanged. */
  lemma {:induction false} ProcessLoopKeepsBarriers(cfg: Config, b: Book, k: nat)
    requires BarriersRegistered(b)
    ensures var r := ProcessLoop(cfg, b, k);
      && r.barriers == b.barriers && BarriersRegistered(r)
      && forall i :: 0 <= i < |b.queue| - |r.queue| ==> !b.queue[i].isBarrier
    decreases k
  {
    var q := b.queue;
    if k == 0 || q == [] || !CanPlaceNewOrder(b, q[0]) {
    } else {
      assert q[0] in q;
      var b' := ProcessNewOrder(cfg, b.(queue := q[1..]), q[0]);
      assert forall o :: o in q[1..] ==> o in q;
      ProcessLoopKeepsBarriers(cfg, b', k - 1);
      var r := ProcessLoop(cfg, b', k - 1);
      ProcessLoopPops(cfg, b', k - 1);
      forall i | 0 <= i < |q| - |r.queue|
        ensures !q[i].isBarrier
      {
        if i > 0 {
          assert q[i] == b'.queue[i - 1];
        }
      }
    }
  }

  lemma ProcessNewOrdersValid(cfg: Config, b: Book)
    requires Valid(b)
    ensures Valid(ProcessNewOrders(cfg, b)) && ProcessNewOrders(cfg, b).barriers == b.barriers
  {
    if !(cfg.blockAllOrders || b.queue == []) {
      ProcessLoopKeepsBarriers(cfg, b, Min(MAX_ORDERS_PER_CYCLE, |b.queue|));
    }
  }

  /** `process_new_orders` as a whole: nothing happens under `BLOCK_ALL_ORDERS`
      or on an empty queue; otherwise a FIFO prefix of at most
      `min(100, len)` orders is popped and placed, stopping early only at a
      head the gate refuses; while the invariant holds no barrier is popped. */
  lemma ProcessNewOrdersEffect(cfg: Config, b: Book)
    ensures cfg.blockAllOrders || b.queue == [] ==> ProcessNewOrders(cfg, b) == b
    ensures var r := ProcessNewOrders(cfg, b);
      var j := |b.queue| - |r.queue|;
      && 0 <= j <= Min(MAX_ORDERS_PER_CYCLE, |b.queue|) && r.queue == b.queue[j..]
      && r.submitted == b.submitted + Submissions(cfg.user, b.queue[..j])
      && r.failed == b.failed + Failures(cfg, b.queue[..j])
      && r.barriers == b.barriers - BarrierIds(b.queue[..j])
      && (!cfg.blockAllOrders && j < Min(MAX_ORDERS_PER_CYCLE, |b.queue|) ==> !CanPlaceNewOrder(r, r.queue[0]))
      && (BarriersRegistered(b) ==> forall i :: 0 <= i < j ==> !b.queue[i].isBarrier)
  {
    var r := ProcessNewOrders(cfg, b);
    if cfg.blockAllOrders || b.queue == [] {
      assert b.queue[..0] == [];
      assert BarrierIds(b.queue[..0]) == {};
    } else {
      ProcessLoopPops(cfg, b, Min(MAX_ORDERS_PER_CYCLE, |b.queue|));
      ProcessLoopEffect(cfg, b, Min(MAX_ORDERS_PER_CYCLE, |b.queue|));
      if BarriersRegistered(b) {
        ProcessLoopKeepsBarriers(cfg, b, Min(MAX_ORDERS_PER_CYCLE, |b.queue|));
      }
    }
  }

  /** `exit_orders`: enqueue, then process the queue. */
  function ExitOrders(cfg: Config, b: Book, orders: seq<KniteOrder>, now: real): (r: Book)
    ensures r.slOrders == b.slOrders && r.openOrders == b.openOrders && r.errored == b.errored
  {
    ProcessNewOrders(cfg, ExitEnqueue(b, orders, now))
  }

  /** Nothing in an exit batch is a barrier: the batches are stop-loss
      orders and the manager's own open orders. */
  predicate PlainBatch(orders: seq<KniteOrder>) {
    forall o :: o in orders ==> !o.isBarrier
  }

  lemma ExitEnqueueValid(b: Book, orders: seq<KniteOrder>, now: real)
    requires BarriersRegistered(b) && PlainBatch(orders)
    ensures BarriersRegistered(ExitEnqueue(b, orders, now))
  {
    var e := ExitEnqueue(b, orders, now);
    ExitEnqueueQueue(b, orders, now);
    var p1 := HighPriority(orders);
    var p2 := LowPriority(orders);
    var c2 := SecondBarrierClock(b, orders);
    PrioritySplit(orders);
    forall o | o in e.queue && o.isBarrier
      ensures o.id in e.barriers
    {
      assert o !in p1 && o !in p2;
    }
  }

  lemma ExitOrdersValid(cfg: Config, b: Book, orders: seq<KniteOrder>, now: real)
    requires Valid(b) && PlainBatch(orders)
    ensures Valid(ExitOrders(cfg, b, orders, now))
  {
    ExitEnqueueValid(b, orders, now);
    ProcessNewOrdersValid(cfg, ExitEnqueue(b, orders, now));
  }

  /** While the invariant holds, processing the queue never gets past a
      queued barrier: the queue still ends with everything from it on. */
  lemma ProcessNewOrdersStopsAtBarrier(cfg: Config, b: Book, m: nat)
    requires BarriersRegistered(b) && m < |b.queue| && b.queue[m].isBarrier
    ensures IsSuffix(ProcessNewOrders(cfg, b).queue, b.queue[m..])
  {
    if !(cfg.blockAllOrders || b.queue == []) {
      var k := Min(MAX_ORDERS_PER_CYCLE, |b.queue|);
      ProcessLoopPops(cfg, b, k);
      ProcessLoopKeepsBarriers(cfg, b, k);
      var q := ProcessLoop(cfg, b, k).queue;
      SuffixFromBefore(b.queue, |b.queue| - |q|, m);
    }
  }

  /** Popping a prefix free of barriers stops before the barrier at `m`. */
  lemma SuffixFromBefore(q: seq<KniteOrder>, j: nat, m: nat)
    requires j <= |q| && m < |q| && q[m].isBarrier
    requires forall i :: 0 <= i < j ==> !q[i].isBarrier
    ensures IsSuffix(q[j..], q[m..])
  {
    assert q[j..][|q[j..]| - |q[m..]|..] == q[m..];
  }

  /** The consequence of the barrier gate: once a batch holds orders of both
      priorities, the low-priority block runs first and its barrier then
      stops the queue, so every high-priority order is still queued, behind
      that barrier, after `exit_orders` returns. */
  lemma ExitOrdersHoldsBackPriority(cfg: Config, b: Book, orders: seq<KniteOrder>, now: real)
    requires BarriersRegistered(b) && PlainBatch(orders)
    requires HighPriority(orders) != [] && LowPriority(orders) != []
    ensures IsSuffix(ExitOrders(cfg, b, orders, now).queue,
                     [NewBarrier(OrderIdAt(b.clock + 1), now)] + HighPriority(orders)
                     + [NewBarrier(OrderIdAt(b.clock), now)] + b.queue)
  {
    var e := ExitEnqueue(b, orders, now);
    var p2 := LowPriority(orders);
    var tail := [NewBarrier(OrderIdAt(b.clock + 1), now)] + HighPriority(orders)
                + [NewBarrier(OrderIdAt(b.clock), now)] + b.queue;
    ExitEnqueueQueue(b, orders, now);
    ExitEnqueueValid(b, orders, now);
    assert e.queue == p2 + tail;
    assert e.queue[|p2|..] == tail;
    ProcessNewOrdersStopsAtBarrier(cfg, e, |p2|);
  }

  /** Exiting one ordinary order from a valid state with placement enabled
      places exactly that order and leaves its barrier at the head of the queue. */
  /** The queue `exit_orders` builds for a single ordinary order. */
  lemma ExitEnqueueSingle(b: Book, o: KniteOrder, now: real)
    requires !o.isBarrier
    ensures var e := ExitEnqueue(b, [o], now);
      && e.queue == [o, NewBarrier(OrderIdAt(b.clock), now)] + b.queue
      && e.barriers == b.barriers + {OrderIdAt(b.clock)} && e.clock == b.clock + 1
  {
    ExitEnqueueQueue(b, [o], now);
    if o.isHighPriority {
      assert HighPriority([o]) == [o];
      assert LowPriority([o]) == [];
    } else {
      assert HighPriority([o]) == [];
      assert LowPriority([o]) == [o];
    }
  }

  lemma ExitSingleOrder(cfg: Config, b: Book, o: KniteOrder, now: real)
    requires BarriersRegistered(b) && !o.isBarrier && !cfg.blockAllOrders
    ensures var r := ExitOrders(cfg, b, [o], now);
      && r.queue == [NewBarrier(OrderIdAt(b.clock), now)] + b.queue
      && r.submitted == b.submitted + Submission(cfg.user, o)
      && r.failed == b.failed + Failure(cfg, o)
      && r.barriers == b.barriers + {OrderIdAt(b.clock)}
      && r.clock == b.clock + 1
  {
    var e := ExitEnqueue(b, [o], now);
    var bar := NewBarrier(OrderIdAt(b.clock), now);
    ExitEnqueueSingle(b, o, now);
    var k := Min(MAX_ORDERS_PER_CYCLE, |e.queue|);
    var e1 := ProcessNewOrder(cfg, e.(queue := e.queue[1..]), o);
    ProcessNewOrderEffect(cfg, e.(queue := e.queue[1..]), o);
    assert e1.queue == [bar] + b.queue && bar.id in e1.barriers;
    assert ProcessLoop(cfg, e1, k - 1) == e1;
    assert ProcessNewOrders(cfg, e) == ProcessLoop(cfg, e, k) == e1;
  }

  // ---------------------------------------------------------------------------
  // process_sl_orders

  /** The stop-loss exit condition: `stop_breached and is_open`. */
  predicate SlExitable(o: KniteOrder) {
    o.stopBreached && IsOpen(o)
  }

  /** Stays in `_sl_orders` through a sweep. */
  predicate SlHeld(o: KniteOrder) {
    !SlExitable(o)
  }

  /** One visit of the reverse index loop of `process_sl_orders`, at index
      `i`: a triggered order is exited and then removed from its position. */
  function SlVisit(cfg: Config, b: Book, i: nat, now: real): (r: Book)
    requires i < |b.slOrders|
    ensures r.slOrders == if SlExitable(b.slOrders[i]) then RemoveAt(b.slOrders, i) else b.slOrders
    ensures r.openOrders == b.openOrders && r.errored == b.errored
  {
    var o := b.slOrders[i];
    if SlExitable(o) then
      var e := ExitOrders(cfg, b, [o], now);
      e.(slOrders := RemoveAt(e.slOrders, i))
    else b
  }

  /** The loop with indices `idx - 1` down to 0 still to visit. */
  function ProcessSlFrom(cfg: Config, b: Book, idx: nat, now: real): (r: Book)
    requires idx <= |b.slOrders|
    ensures r.openOrders == b.openOrders && r.errored == b.errored
    decreases idx
  {
    if idx == 0 then b else ProcessSlFrom(cfg, SlVisit(cfg, b, idx - 1, now), idx - 1, now)
  }

  /** `process_sl_orders`. */
  function ProcessSlOrders(cfg: Config, b: Book, now: real): (r: Book)
    ensures r.openOrders == b.openOrders && r.errored == b.errored
  {
    if b.slOrders == [] then b else ProcessSlFrom(cfg, b, |b.slOrders|, now)
  }

  function SlRemaining(sl: seq<KniteOrder>): seq<KniteOrder> {
    Filter(sl, SlHeld)
  }

  function SlTriggered(sl: seq<KniteOrder>): seq<KniteOrder> {
    Filter(sl, SlExitable)
  }

  /** Visiting index `i` leaves the part before `i` as it was. */
  lemma SlVisitPrefix(cfg: Config, b: Book, i: nat, now: real)
    requires i < |b.slOrders|
    ensures SlVisit(cfg, b, i, now).slOrders[..i] == b.slOrders[..i]
  {
  }

  /** The bookkeeping of one visit on the list alone. */
  lemma SlKeepsStep(sl: seq<KniteOrder>, sl2: seq<KniteOrder>, i: nat)
    requires i < |sl|
    requires sl2 == if SlExitable(sl[i]) then RemoveAt(sl, i) else sl
    ensures |sl2| >= i && SlRemaining(sl2[..i]) + sl2[i..] == SlRemaining(sl[..i + 1]) + sl[i + 1..]
  {
    var o := sl[i];
    assert sl2[..i] == sl[..i];
    assert sl[..i + 1] == sl[..i] + [o];
    FilterConcat(sl[..i], [o], SlHeld);
    if SlExitable(o) {
      assert sl2[i..] == sl[i + 1..];
    } else {
      assert sl[i..] == [o] + sl[i + 1..];
    }
  }

  lemma {:induction false} ProcessSlFromKeeps(cfg: Config, b: Book, idx: nat, now: real)
    requires idx <= |b.slOrders|
    ensures ProcessSlFrom(cfg, b, idx, now).slOrders == SlRemaining(b.slOrders[..idx]) + b.slOrders[idx..]
    decreases idx
  {
    if idx == 0 {
      assert b.slOrders[..0] == [];
    } else {
      var b' := SlVisit(cfg, b, idx - 1, now);
      ProcessSlFromKeeps(cfg, b', idx - 1, now);
      SlKeepsStep(b.slOrders, b'.slOrders, idx - 1);
    }
  }

  /** `process_sl_orders` removes exactly the triggered stop-loss orders and
      keeps every other one in its original relative order. */
  lemma ProcessSlOrdersKeeps(cfg: Config, b: Book, now: real)
    ensures ProcessSlOrders(cfg, b, now).slOrders == SlRemaining(b.slOrders)
    ensures |ProcessSlOrders(cfg, b, now).slOrders| + |SlTriggered(b.slOrders)| == |b.slOrders|
  {
    FilterSplitsLength(b.slOrders, SlExitable, SlHeld);
    if b.slOrders != [] {
      ProcessSlFromKeeps(cfg, b, |b.slOrders|, now);
      assert b.slOrders[..|b.slOrders|] == b.slOrders;
    }
  }

  lemma {:induction false} ReverseSnoc(s: seq<KniteOrder>, x: KniteOrder)
    ensures Reverse(s + [x]) == [x] + Reverse(s)
  {
    if s != [] {
      assert (s + [x])[1..] == s[1..] + [x];
      ReverseSnoc(s[1..], x);
    } else {
      assert [x][1..] == [];
    }
  }

  /** A visit keeps the invariant. */
  lemma SlVisitValid(cfg: Config, b: Book, i: nat, now: real)
    requires i < |b.slOrders| && Valid(b)
    ensures Valid(SlVisit(cfg, b, i, now))
  {
    var o := b.slOrders[i];
    if SlExitable(o) {
      assert o in b.slOrders;
      assert PlainBatch([o]);
      ExitOrdersValid(cfg, b, [o], now);
      var r := SlVisit(cfg, b, i, now);
      assert forall x :: x in r.slOrders ==> x in b.slOrders;
    }
  }

  /** What a visit of a triggered order hands the broker and queues. */
  lemma SlVisitExits(cfg: Config, b: Book, i: nat, now: real)
    requires i < |b.slOrders| && Valid(b) && !cfg.blockAllOrders
    ensures var r := SlVisit(cfg, b, i, now);
      var o := b.slOrders[i];
      && (SlExitable(o) ==> r.submitted == b.submitted + Submission(cfg.user, o)
                            && r.queue == [NewBarrier(OrderIdAt(b.clock), now)] + b.queue)
      && (!SlExitable(o) ==> r == b)
  {
    var o := b.slOrders[i];
    if SlExitable(o) {
      assert o in b.slOrders;
      ExitSingleOrder(cfg, b, o, now);
    }
  }

  /** The triggered orders up to index `i`, newest first, begin with the one at `i`
      when it is triggered. */
  lemma SlTriggeredStep(sl: seq<KniteOrder>, i: nat)
    requires i < |sl|
    ensures Reverse(SlTriggered(sl[..i + 1])) ==
            (if SlExitable(sl[i]) then [sl[i]] else []) + Reverse(SlTriggered(sl[..i]))
  {
    var o := sl[i];
    assert sl[..i + 1] == sl[..i] + [o];
    FilterConcat(sl[..i], [o], SlExitable);
    if SlExitable(o) {
      ReverseSnoc(SlTriggered(sl[..i]), o);
    } else {
      assert SlTriggered(sl[..i + 1]) == SlTriggered(sl[..i]);
    }
  }

  lemma SubmissionsCons(user: string, o: KniteOrder, rest: seq<KniteOrder>)
    ensures Submissions(user, [o] + rest) == Submission(user, o) + Submissions(user, rest)
  {
    assert ([o] + rest)[1..] == rest;
  }

  /** The list algebra behind one visit's submissions, for any log `F` of a
      list of orders that is built order by order. */
  lemma SlSubmitsAlgebra<U>(F: seq<KniteOrder> -> seq<U>, x: seq<U>, sub0: seq<U>, sub1: seq<U>,
                            sl: seq<KniteOrder>, sl2: seq<KniteOrder>, i: nat)
    requires i < |sl| && i <= |sl2| && sl2[..i] == sl[..i]
    requires sub1 == sub0 + (if SlExitable(sl[i]) then x else [])
    requires F([sl[i]] + Reverse(SlTriggered(sl[..i]))) == x + F(Reverse(SlTriggered(sl[..i])))
    ensures sub1 + F(Reverse(SlTriggered(sl2[..i]))) == sub0 + F(Reverse(SlTriggered(sl[..i + 1])))
  {
    SlTriggeredStep(sl, i);
    var rest := Reverse(SlTriggered(sl[..i]));
    if !SlExitable(sl[i]) {
      assert [] + rest == rest;
    }
  }

  /** What one visit submits, joined to what the visits below it submit. */
  lemma SlSubmitsStep(cfg: Config, b: Book, i: nat, now: real)
    requires i < |b.slOrders| && Valid(b) && !cfg.blockAllOrders
    ensures var b' := SlVisit(cfg, b, i, now);
      i <= |b'.slOrders| &&
      b'.submitted + Submissions(cfg.user, Reverse(SlTriggered(b'.slOrders[..i]))) ==
      b.submitted + Submissions(cfg.user, Reverse(SlTriggered(b.slOrders[..i + 1])))
  {
    var b' := SlVisit(cfg, b, i, now);
    SlVisitExits(cfg, b, i, now);
    SlVisitPrefix(cfg, b, i, now);
    assert b'.submitted == b.submitted + (if SlExitable(b.slOrders[i]) then Submission(cfg.user, b.slOrders[i]) else []);
    var o := b.slOrders[i];
    SubmissionsCons(cfg.user, o, Reverse(SlTriggered(b.slOrders[..i])));
    SlSubmitsAlgebra(os => Submissions(cfg.user, os), Submission(cfg.user, o),
                     b.submitted, b'.submitted, b.slOrders, b'.slOrders, i);
  }

  /** With placement enabled, the triggered stop-loss orders are placed from the
      newest to the oldest, one exit per order. */
  lemma {:induction false} ProcessSlFromSubmits(cfg: Config, b: Book, idx: nat, now: real)
    requires idx <= |b.slOrders| && Valid(b) && !cfg.blockAllOrders
    ensures ProcessSlFrom(cfg, b, idx, now).submitted ==
            b.submitted + Submissions(cfg.user, Reverse(SlTriggered(b.slOrders[..idx])))
    decreases idx
  {
    if idx == 0 {
      assert b.slOrders[..0] == [];
    } else {
      var b' := SlVisit(cfg, b, idx - 1, now);
      SlVisitValid(cfg, b, idx - 1, now);
      ProcessSlFromSubmits(cfg, b', idx - 1, now);
      SlSubmitsStep(cfg, b, idx - 1, now);
    }
  }

  /** Each exit leaves one barrier in front of the queue. */
  lemma {:induction false} ProcessSlFromQueues(cfg: Config, b: Book, idx: nat, now: real)
    requires idx <= |b.slOrders| && Valid(b) && !cfg.blockAllOrders
    ensures var r := ProcessSlFrom(cfg, b, idx, now);
      && IsSuffix(r.queue, b.queue) && |r.queue| == |b.queue| + |SlTriggered(b.slOrders[..idx])|
    decreases idx
  {
    var sl := b.slOrders;
    if idx == 0 {
      assert sl[..0] == [];
    } else {
      var i := idx - 1;
      var b' := SlVisit(cfg, b, i, now);
      SlVisitValid(cfg, b, i, now);
      SlVisitExits(cfg, b, i, now);
      SlVisitPrefix(cfg, b, i, now);
      ProcessSlFromQueues(cfg, b', i, now);
      SlTriggeredStep(sl, i);
      var r := ProcessSlFrom(cfg, b', i, now);
      if SlExitable(sl[i]) {
        assert r.queue[|r.queue| - |b'.queue|..][1..] == b.queue;
      }
    }
  }

  /** A queue that ends with `[x] + q`, with only barriers before it, has
      only barriers before `q` when `x` is one. */
  lemma FrontBarriersStep(r: seq<KniteOrder>, x: KniteOrder, q: seq<KniteOrder>)
    requires IsSuffix(r, [x] + q) && x.isBarrier
    requires forall k :: 0 <= k < |r| - |q| - 1 ==> r[k].isBarrier
    ensures forall k :: 0 <= k < |r| - |q| ==> r[k].isBarrier
  {
    assert r[|r| - |q| - 1] == ([x] + q)[0];
  }

  /** Everything the exits put in front of the queue is a barrier. */
  lemma {:induction false} ProcessSlFromBarriers(cfg: Config, b: Book, idx: nat, now: real)
    requires idx <= |b.slOrders| && Valid(b) && !cfg.blockAllOrders
    ensures var r := ProcessSlFrom(cfg, b, idx, now);
      forall k :: 0 <= k < |r.queue| - |b.queue| ==> r.queue[k].isBarrier
    decreases idx
  {
    if idx > 0 {
      var i := idx - 1;
      var b' := SlVisit(cfg, b, i, now);
      SlVisitValid(cfg, b, i, now);
      SlVisitExits(cfg, b, i, now);
      SlVisitPrefix(cfg, b, i, now);
      ProcessSlFromBarriers(cfg, b', i, now);
      ProcessSlFromQueues(cfg, b', i, now);
      var r := ProcessSlFrom(cfg, b', i, now);
      if SlExitable(b.slOrders[i]) {
        FrontBarriersStep(r.queue, NewBarrier(OrderIdAt(b.clock), now), b.queue);
      }
    }
  }

  /** `process_sl_orders` keeps the invariant. */
  lemma ProcessSlOrdersValid(cfg: Config, b: Book, now: real)
    requires Valid(b)
    ensures Valid(ProcessSlOrders(cfg, b, now))
  {
    if b.slOrders != [] {
      ProcessSlFromValid(cfg, b, |b.slOrders|, now);
    }
  }

  /** With placement enabled, `process_sl_orders` places the triggered orders
      newest first and queues one registered barrier per exit in front of the
      queue. */
  lemma ProcessSlOrdersEffect(cfg: Config, b: Book, now: real)
    requires Valid(b) && !cfg.blockAllOrders
    ensures var r := ProcessSlOrders(cfg, b, now);
      && r.submitted == b.submitted + Submissions(cfg.user, Reverse(SlTriggered(b.slOrders)))
      && IsSuffix(r.queue, b.queue)
      && |r.queue| == |b.queue| + |SlTriggered(b.slOrders)|
      && forall k :: 0 <= k < |r.queue| - |b.queue| ==> r.queue[k].isBarrier && r.queue[k].id in r.barriers
  {
    var r := ProcessSlOrders(cfg, b, now);
    ProcessSlOrdersValid(cfg, b, now);
    forall k | 0 <= k < |r.queue| && r.queue[k].isBarrier
      ensures r.queue[k].id in r.barriers
    {
      assert r.queue[k] in r.queue;
    }
    if b.slOrders != [] {
      assert b.slOrders[..|b.slOrders|] == b.slOrders;
      ProcessSlFromSubmits(cfg, b, |b.slOrders|, now);
      ProcessSlFromQueues(cfg, b, |b.slOrders|, now);
      ProcessSlFromBarriers(cfg, b, |b.slOrders|, now);
    } else {
      assert Reverse(SlTriggered(b.slOrders)) == [];
    }
  }

  lemma {:induction false} ProcessSlFromValid(cfg: Config, b: Book, idx: nat, now: real)
    requires idx <= |b.slOrders| && Valid(b)
    ensures Valid(ProcessSlFrom(cfg, b, idx, now))
    decreases idx
  {
    if idx > 0 {
      SlVisitValid(cfg, b, idx - 1, now);
      ProcessSlFromValid(cfg, SlVisit(cfg, b, idx - 1, now), idx - 1, now);
    }
  }

  // ---------------------------------------------------------------------------
  // process_open_orders / process_open_order / fill_orders

  /** The last traded price of an instrument, when the price source has one. */
  function Ltp(prices: map<string, int>, instrument: Option<string>): Option<int> {
    if instrument.Some? && instrument.value in prices then Some(prices[instrument.value]) else None
  }

  /** `fill_orders` asks an order without an instrument for its price:
      `None.get_ltp()` raises. */
  predicate FillRaises(knite: KniteOrder, broker: BrokerOrder) {
    knite.slPrice != 0 && broker.filledQty > 0 && knite.instrument.None?
  }

  /** `fill_orders`: after a fill of an order with a stop price, a stop-loss
      order is queued unless the price has already moved through the stop.
      `None` is the `AttributeError` raised for an order without an instrument,
      before anything changes. */
  function FillOrders(b: Book, knite: KniteOrder, broker: BrokerOrder, prices: map<string, int>, now: real): (r: Option<Book>)
    ensures r.None? <==> FillRaises(knite, broker)
    ensures r.Some? ==> r.value.queue == b.queue && r.value.openOrders == b.openOrders && r.value.errored == b.errored
    ensures r.Some? ==> r.value.barriers == b.barriers && r.value.submitted == b.submitted && r.value.failed == b.failed
  {
    if knite.slPrice != 0 && broker.filledQty > 0 then
      if knite.instrument.None? then None
      else match Ltp(prices, knite.instrument)
        case Some(p) =>
          if p != 0 && p < knite.slPrice then
            Some(b.(slOrders := b.slOrders + [CreateSlOrder(knite, OrderIdAt(b.clock), now)], clock := b.clock + 1))
          else Some(b)
        case None => Some(b)
    else Some(b)
  }

  /** A fill that does not raise appends a stop-loss order exactly when the
      order has a stop price, something was filled and the last traded price
      is known, non-zero and below the stop; the order appended is the stop-loss
      order for the filled one, and otherwise nothing changes. */
  lemma FillOrdersEffect(b: Book, knite: KniteOrder, broker: BrokerOrder, prices: map<string, int>, now: real)
    requires !FillRaises(knite, broker)
    ensures var r := FillOrders(b, knite, broker, prices, now).value;
      var ltp := Ltp(prices, knite.instrument);
      && (|r.slOrders| > |b.slOrders| <==>
            knite.slPrice != 0 && broker.filledQty > 0 && ltp.Some? && ltp.value != 0 && ltp.value < knite.slPrice)
      && (|r.slOrders| > |b.slOrders| ==>
            r == b.(slOrders := b.slOrders + [CreateSlOrder(knite, OrderIdAt(b.clock), now)], clock := b.clock + 1))
      && (|r.slOrders| <= |b.slOrders| ==> r == b)
  {
  }

  predicate IsTerminal(status: string) {
    status == ORDER_STATUS_REJECTED || status == ORDER_STATUS_COMPLETE
  }

  /** `process_open_order`: fills the order on a terminal broker status and
      reports whether it reached one; `None` when the fill raises. */
  function ProcessOpenOrder(b: Book, broker: BrokerOrder, prices: map<string, int>, now: real): (r: Option<(Book, bool)>)
    requires broker.id in b.openOrders
    ensures r.None? <==> IsTerminal(broker.status) && FillRaises(b.openOrders[broker.id], broker)
    ensures r.Some? ==> (r.value.1 <==> IsTerminal(broker.status))
    ensures r.Some? ==> r.value.0.queue == b.queue && r.value.0.openOrders == b.openOrders && r.value.0.errored == b.errored
    ensures r.Some? ==> r.value.0.barriers == b.barriers && r.value.0.submitted == b.submitted && r.value.0.failed == b.failed
  {
    var knite := b.openOrders[broker.id];
    if broker.status == ORDER_STATUS_REJECTED then
      match FillOrders(b, knite, broker, prices, now)
      case None => None
      case Some(b') => Some((b', true))
    else if broker.status == ORDER_STATUS_COMPLETE then
      match FillOrders(b, knite, broker, prices, now)
      case None => None
      case Some(b') => Some((b', true))
    else Some((b, false))
  }

  /** One iteration of the loop in `process_open_orders`; `None` when it raises. */
  function OpenStep(b: Book, broker: BrokerOrder, prices: map<string, int>, now: real): (r: Option<Book>)
    ensures r.Some? ==> r.value.queue == b.queue && r.value.errored == b.errored && r.value.barriers == b.barriers
    ensures r.Some? ==> r.value.submitted == b.submitted && r.value.failed == b.failed
  {
    if broker.id in b.openOrders then
      match ProcessOpenOrder(b, broker, prices, now)
      case None => None
      case Some((b', done)) => Some(if done then b'.(openOrders := b'.openOrders - {broker.id}) else b')
    else Some(b)
  }

  /** How a sweep over the reports ended: `raised` when a fill raised, and the
      exception left `process_open_orders` with the state as it was then. */
  datatype Sweep = Sweep(book: Book, raised: bool)

  /** The loop over the broker's reports, in order, up to the first raise. */
  function OpenSweep(b: Book, brokers: seq<BrokerOrder>, prices: map<string, int>, now: real): (r: Sweep)
    ensures r.book.queue == b.queue && r.book.errored == b.errored && r.book.barriers == b.barriers
    ensures r.book.submitted == b.submitted && r.book.failed == b.failed
  {
    if brokers == [] then Sweep(b, false)
    else
      var s := OpenSweep(b, brokers[..|brokers| - 1], prices, now);
      if s.raised then s
      else match OpenStep(s.book, brokers[|brokers| - 1], prices, now)
        case None => Sweep(s.book, true)
        case Some(b') => Sweep(b', false)
  }

  /** `process_open_orders`, given the reports `get_orders` returned. */
  function ProcessOpenOrders(cfg: Config, b: Book, brokers: seq<BrokerOrder>, prices: map<string, int>, now: real): (r: Sweep)
    ensures r.book.queue == b.queue && r.book.errored == b.errored && r.book.barriers == b.barriers
  {
    if cfg.simulated || b.openOrders == map[] then Sweep(b, false) else OpenSweep(b, brokers, prices, now)
  }

  function TerminalIds(brokers: seq<BrokerOrder>): set<string> {
    set x | x in brokers && IsTerminal(x.status) :: x.id
  }

  /** Report `k` raises: its order is still open after the reports before it
      (entries are only ever deleted), the report is terminal and the fill
      raises. */
  predicate RaisesAt(open: map<string, KniteOrder>, brokers: seq<BrokerOrder>, k: nat)
    requires k < |brokers|
  {
    var x := brokers[k];
    x.id in open && x.id !in TerminalIds(brokers[..k]) && IsTerminal(x.status) && FillRaises(open[x.id], x)
  }

  /** The first report at or after `k` that raises, or `|brokers|`. */
  function FirstRaiseFrom(open: map<string, KniteOrder>, brokers: seq<BrokerOrder>, k: nat): (j: nat)
    requires k <= |brokers|
    ensures k <= j <= |brokers|
    ensures forall i :: k <= i < j ==> !RaisesAt(open, brokers, i)
    ensures j < |brokers| ==> RaisesAt(open, brokers, j)
    decreases |brokers| - k
  {
    if k == |brokers| then k
    else if RaisesAt(open, brokers, k) then k
    else FirstRaiseFrom(open, brokers, k + 1)
  }

  /** The number of reports the sweep gets through before a fill raises. */
  function FirstRaise(open: map<string, KniteOrder>, brokers: seq<BrokerOrder>): (j: nat)
    ensures j <= |brokers|
    ensures forall i :: 0 <= i < j ==> !RaisesAt(open, brokers, i)
    ensures j < |brokers| ==> RaisesAt(open, brokers, j)
  {
    FirstRaiseFrom(open, brokers, 0)
  }

  /** The first raising report is a property of the reports up to it. */
  lemma FirstRaiseSnoc(open: map<string, KniteOrder>, brokers: seq<BrokerOrder>)
    requires brokers != []
    ensures var init := brokers[..|brokers| - 1];
      FirstRaise(open, brokers) ==
        if FirstRaise(open, init) < |init| then FirstRaise(open, init)
        else if RaisesAt(open, brokers, |init|) then |init| else |brokers|
  {
    var init := brokers[..|brokers| - 1];
    forall k | 0 <= k < |init|
      ensures RaisesAt(open, brokers, k) == RaisesAt(open, init, k)
    {
      assert brokers[..k] == init[..k];
    }
  }

  /** One report that does not raise drops its order exactly when the order is
      open and the report terminal, and at most appends one stop-loss order for
      it; it raises exactly when the order is open, the report terminal and
      the fill raises. */
  lemma OpenStepEffect(b: Book, broker: BrokerOrder, prices: map<string, int>, now: real)
    ensures OpenStep(b, broker, prices, now).None? <==>
            broker.id in b.openOrders && IsTerminal(broker.status) && FillRaises(b.openOrders[broker.id], broker)
    ensures OpenStep(b, broker, prices, now).Some? ==>
      var r := OpenStep(b, broker, prices, now).value;
      && r.openOrders == (if broker.id in b.openOrders && IsTerminal(broker.status)
                          then b.openOrders - {broker.id} else b.openOrders)
      && (r.slOrders == b.slOrders ||
          (broker.id in b.openOrders &&
           r.slOrders == b.slOrders + [CreateSlOrder(b.openOrders[broker.id], OrderIdAt(b.clock), now)]))
  {
  }

  lemma {:induction false} OpenSweepKeys(b: Book, brokers: seq<BrokerOrder>, prices: map<string, int>, now: real)
    ensures var r := OpenSweep(b, brokers, prices, now);
      var j := FirstRaise(b.openOrders, brokers);
      && (r.raised <==> j < |brokers|)
      && r.book.openOrders.Keys == b.openOrders.Keys - TerminalIds(brokers[..j])
      && (forall id :: id in r.book.openOrders ==> r.book.openOrders[id] == b.openOrders[id])
  {
    if brokers == [] {
      assert brokers[..0] == [];
    } else {
      var init := brokers[..|brokers| - 1];
      var last := brokers[|brokers| - 1];
      OpenSweepKeys(b, init, prices, now);
      FirstRaiseSnoc(b.openOrders, brokers);
      var s := OpenSweep(b, init, prices, now);
      var j0 := FirstRaise(b.openOrders, init);
      if j0 < |init| {
        assert brokers[..j0] == init[..j0];
      } else {
        assert init[..j0] == init && brokers[..|init|] == init;
        OpenStepEffect(s.book, last, prices, now);
        if RaisesAt(b.openOrders, brokers, |init|) {
          assert OpenStep(s.book, last, prices, now).None?;
        } else {
          assert OpenStep(s.book, last, prices, now).Some?;
          assert brokers[..|brokers|] == init + [last];
          assert TerminalIds(init + [last]) == TerminalIds(init) + (if IsTerminal(last.status) then {last.id} else {});
        }
      }
    }
  }

  lemma {:induction false} OpenSweepSl(b: Book, brokers: seq<BrokerOrder>, prices: map<string, int>, now: real)
    ensures var r := OpenSweep(b, brokers, prices, now).book;
      && |b.slOrders| <= |r.slOrders| && r.slOrders[..|b.slOrders|] == b.slOrders
      && (forall i :: |b.slOrders| <= i < |r.slOrders| ==> IsSlOrder(r.slOrders[i]) && !r.slOrders[i].isBarrier)
  {
    if brokers != [] {
      var init := brokers[..|brokers| - 1];
      var last := brokers[|brokers| - 1];
      OpenSweepSl(b, init, prices, now);
      var m := OpenSweep(b, init, prices, now).book;
      OpenStepEffect(m, last, prices, now);
      if !OpenSweep(b, init, prices, now).raised && OpenStep(m, last, prices, now).Some? {
        var r := OpenStep(m, last, prices, now).value;
        assert r.slOrders[..|m.slOrders|] == m.slOrders;
        assert r.slOrders[..|b.slOrders|] == m.slOrders[..|b.slOrders|];
      }
    }
  }

  /** Once a fill has raised, later reports change nothing: the exception has
      left the loop. */
  lemma {:induction false} OpenSweepRaisedStays(b: Book, xs: seq<BrokerOrder>, ys: seq<BrokerOrder>, prices: map<string, int>, now: real)
    requires OpenSweep(b, xs, prices, now).raised
    ensures OpenSweep(b, xs + ys, prices, now) == OpenSweep(b, xs, prices, now)
    decreases |ys|
  {
    if ys == [] {
      assert xs + ys == xs;
    } else {
      var ys' := ys[..|ys| - 1];
      OpenSweepRaisedStays(b, xs, ys', prices, now);
      assert (xs + ys)[..|xs + ys| - 1] == xs + ys';
    }
  }

  /** One more report: a raise there ends the whole sweep with the state
      before it; otherwise the sweep goes on from the new state. */
  lemma OpenSweepStep(b: Book, brokers: seq<BrokerOrder>, i: nat, prices: map<string, int>, now: real)
    requires i < |brokers|
    requires !OpenSweep(b, brokers[..i], prices, now).raised
    ensures var s := OpenSweep(b, brokers[..i], prices, now).book;
      && (OpenStep(s, brokers[i], prices, now).None? ==> OpenSweep(b, brokers, prices, now) == Sweep(s, true))
      && (OpenStep(s, brokers[i], prices, now).Some? ==>
            OpenSweep(b, brokers[..i + 1], prices, now) == Sweep(OpenStep(s, brokers[i], prices, now).value, false))
  {
    assert brokers[..i + 1][..i] == brokers[..i];
    var s := OpenSweep(b, brokers[..i], prices, now).book;
    if OpenStep(s, brokers[i], prices, now).None? {
      OpenSweepRaisedStays(b, brokers[..i + 1], brokers[i + 1..], prices, now);
      assert brokers[..i + 1] + brokers[i + 1..] == brokers;
    }
  }

  /** The sweep gets through the reports before the first one whose fill
      raises, and reports whether one did. Over the reports it gets through,
      it drops exactly the open orders reported as REJECTED or COMPLETE,
      leaves every other entry as it was, and only appends stop-loss orders. */
  lemma OpenSweepEffect(b: Book, brokers: seq<BrokerOrder>, prices: map<string, int>, now: real)
    ensures var r := OpenSweep(b, brokers, prices, now);
      var j := FirstRaise(b.openOrders, brokers);
      && (r.raised <==> j < |brokers|)
      && r.book.openOrders.Keys == b.openOrders.Keys - TerminalIds(brokers[..j])
      && (forall id :: id in r.book.openOrders ==> r.book.openOrders[id] == b.openOrders[id])
      && |b.slOrders| <= |r.book.slOrders| && r.book.slOrders[..|b.slOrders|] == b.slOrders
      && (forall i :: |b.slOrders| <= i < |r.book.slOrders| ==> IsSlOrder(r.book.slOrders[i]) && !r.book.slOrders[i].isBarrier)
  {
    OpenSweepKeys(b, brokers, prices, now);
    OpenSweepSl(b, brokers, prices, now);
  }

  /** `process_open_orders` as a whole: nothing changes when simulated or when
      nothing is open; otherwise the terminal orders before the first raising
      fill are dropped, and the sweep raises exactly when some fill does. */
  lemma ProcessOpenOrdersEffect(cfg: Config, b: Book, brokers: seq<BrokerOrder>, prices: map<string, int>, now: real)
    ensures cfg.simulated || b.openOrders == map[] ==> ProcessOpenOrders(cfg, b, brokers, prices, now) == Sweep(b, false)
    ensures !cfg.simulated ==>
      var r := ProcessOpenOrders(cfg, b, brokers, prices, now);
      var j := FirstRaise(b.openOrders, brokers);
      && r.book.openOrders.Keys == b.openOrders.Keys - TerminalIds(brokers[..j])
      && (b.openOrders != map[] ==> (r.raised <==> j < |brokers|))
    ensures Valid(b) ==> Valid(ProcessOpenOrders(cfg, b, brokers, prices, now).book)
  {
    var r := ProcessOpenOrders(cfg, b, brokers, prices, now).book;
    OpenSweepEffect(b, brokers, prices, now);
    if !(cfg.simulated || b.openOrders == map[]) {
      if Valid(b) {
        forall o | o in r.slOrders
          ensures !o.isBarrier
        {
          var i :| 0 <= i < |r.slOrders| && r.slOrders[i] == o;
          if i < |b.slOrders| {
            assert o == b.slOrders[i];
          }
        }
      }
    }
  }

  // ---------------------------------------------------------------------------
  // process_errored_orders, _handle_ws_message, eod

  /** An errored order survives the timeout check. */
  predicate Recent(o: KniteOrder, now: real) {
    !OrderTimedOut(o, now, ERROR_ORDER_TIMEOUT_SEC)
  }

  /** The timeout filter of `process_errored_orders`. */
  function ProcessErroredOrders(b: Book, now: real): (r: Book)
    ensures r == b.(errored := r.errored)
  {
    if b.errored == [] then b else b.(errored := KeepRecent(b.errored, now))
  }

  /** The list comprehension of `process_errored_orders`. */
  function KeepRecent(errored: seq<KniteOrder>, now: real): seq<KniteOrder> {
    Filter(errored, (o: KniteOrder) => Recent(o, now))
  }

  /** Exactly the errored orders at most five seconds old are kept, and the
      filter respects every split of the list, so kept orders stay in their
      order. */
  lemma ProcessErroredOrdersKeeps(b: Book, now: real, front: seq<KniteOrder>, back: seq<KniteOrder>)
    requires b.errored == front + back
    ensures forall o :: o in ProcessErroredOrders(b, now).errored <==> o in b.errored && now - o.createdAt <= 5.0
    ensures ProcessErroredOrders(b, now).errored ==
            ProcessErroredOrders(b.(errored := front), now).errored + ProcessErroredOrders(b.(errored := back), now).errored
  {
    FilterConcat(front, back, (o: KniteOrder) => Recent(o, now));
    FilterMembers(b.errored, (o: KniteOrder) => Recent(o, now));
    if front == [] {
      assert b.errored == back;
    }
    if back == [] {
      assert b.errored == front;
    }
  }

  /** `_handle_ws_message` on the open orders. Only an order-update message
      (`t == "om"`) naming an open order changes anything, and only that entry;
      a `filledqty` that `int()` rejects raises before anything changes. */
  function WsUpdate(open: map<string, KniteOrder>, msg: WsMessage): (r: map<string, KniteOrder>)
    ensures r.Keys == open.Keys
  {
    if msg.t == Some("om") then
      match ParseInt(if msg.filledqty.Some? then msg.filledqty.value else "0")
      case None => open
      case Some(q) =>
        if msg.n.Some? && msg.n.value in open then
          var o := open[msg.n.value];
          open[msg.n.value := o.(filledQty := q, status := WsStatus(msg.status, o.status))]
        else open
    else open
  }

  /** A websocket message as JSON fields; absent keys are `None`. */
  datatype WsMessage = WsMessage(t: Option<string>, n: Option<string>, status: Option<string>, filledqty: Option<string>)

  /** The update touches at most the named entry. The filled-quantity text
      (`"0"` when the field is absent) is read as `int()` reads it: text it
      refuses raises and leaves every order unchanged; otherwise the named
      entry gets the parsed quantity and the mapped status, and no other field
      changes. An absent field therefore sets the quantity to zero. */
  lemma WsUpdateEffect(open: map<string, KniteOrder>, msg: WsMessage)
    ensures forall id :: id in open && (msg.n != Some(id) || msg.t != Some("om")) ==> WsUpdate(open, msg)[id] == open[id]
    ensures msg.t == Some("om") ==>
      var fq := if msg.filledqty.Some? then msg.filledqty.value else "0";
      && (ParseInt(fq) == None ==> WsUpdate(open, msg) == open)
      && (ParseInt(fq).Some? && msg.n.Some? && msg.n.value in open ==>
            var prior := open[msg.n.value];
            WsUpdate(open, msg)[msg.n.value] ==
              prior.(filledQty := ParseInt(fq).value, status := WsStatus(msg.status, prior.status)))
    ensures msg.t == Some("om") && msg.n.Some? && msg.n.value in open && msg.filledqty == None ==>
      var prior := open[msg.n.value];
      WsUpdate(open, msg)[msg.n.value] == prior.(filledQty := 0, status := WsStatus(msg.status, prior.status))
    ensures forall q: nat :: msg.t == Some("om") && msg.n.Some? && msg.n.value in open && msg.filledqty == Some(Render(q)) ==>
      WsUpdate(open, msg)[msg.n.value].filledQty == q
  {
    assert "0" == Render(0);
    ParseIntRender(0);
    forall q: nat | msg.filledqty == Some(Render(q))
      ensures ParseInt(msg.filledqty.value) == Some(q)
    {
      ParseIntRender(q);
    }
  }

  /** `eod`: the queue and the open orders are flushed; nothing else changes. */
  function Eod(b: Book): (r: Book)
    ensures r.queue == [] && r.openOrders == map[]
    ensures r == b.(queue := [], openOrders := map[])
  {
    b.(queue := [], openOrders := map[])
  }
}
