/** The order records of the Flattrade order manager (omsflatradejiddi.py) and the
    pure functions over them: the `KniteOrder` defaults and properties, stop-loss
    order creation, the order-type map, the broker payload built by `place_order`,
    and the status mapping applied to websocket order updates. */
module OrderModel {
  import opened Wrappers
  import opened Seqs
  import opened Decimal

  const ORDER_STATUS_REJECTED: string := "REJECTED"
  const ORDER_STATUS_COMPLETE: string := "COMPLETE"
  const ORDER_STATUS_OPEN: string := "OPEN"
  const ORDER_STATUS_PENDING: string := "PENDING"
  const ORDER_TYPE_LIMIT: string := "LIMIT"
  const ORDER_TYPE_SL: string := "SL"
  const ORDER_TYPE_MARKET: string := "MARKET"

  /** The exchange prefix that `place_order` strips from symbols. */
  const MCX_PREFIX: string := "MCX:"

  /** An order as the manager tracks it. Prices are kept as opaque integers,
      `parent` holds the parent order's id and `instrument` names the
      instrument whose last traded price is asked for. */
  datatype KniteOrder = KniteOrder(
    id: string,
    orderType: string,
    productType: Option<string>,
    quantity: int,
    price: Option<int>,
    instrument: Option<string>,
    status: string,
    createdAt: real,
    tag: string,
    slPrice: int,
    parent: Option<string>,
    isRetried: bool,
    isBarrier: bool,
    isExitOrder: bool,
    expectedPrice: int,
    filledQty: int,
    exchange: string,
    symbol: string,
    isHighPriority: bool,
    stopBreached: bool)

  /** `KniteOrder(order_type, product_type)`, created at time `now` with the fresh id `id`. */
  function NewKniteOrder(id: string, orderType: string, productType: Option<string>, now: real): (o: KniteOrder)
    ensures o.id == id && o.orderType == orderType && o.productType == productType
    ensures o.status == ORDER_STATUS_PENDING && o.createdAt == now
    ensures o.quantity == 0 && o.price == Some(0) && o.slPrice == 0 && o.filledQty == 0
    ensures o.tag == "" && o.symbol == "" && o.exchange == "NSE"
    ensures o.instrument == None && o.parent == None
    ensures !o.isBarrier && !o.isExitOrder && !o.isHighPriority && !o.stopBreached && !o.isRetried
  {
    KniteOrder(id, orderType, productType, 0, Some(0), None, ORDER_STATUS_PENDING, now, "", 0,
               None, false, false, false, 0, 0, "NSE", "", false, false)
  }

  /** `KniteOrder.order_timed_out`: strictly more than `timeout` seconds old. */
  predicate OrderTimedOut(o: KniteOrder, now: real, timeout: real) {
    now - o.createdAt > timeout
  }

  /** `KniteOrder.is_sl_order`. */
  predicate IsSlOrder(o: KniteOrder) {
    o.orderType == ORDER_TYPE_SL
  }

  /** `KniteOrder.is_open`. */
  predicate IsOpen(o: KniteOrder) {
    o.status == ORDER_STATUS_OPEN
  }

  /** A fresh order has not timed out under a non-negative timeout, is not open
      and is a stop-loss order exactly when it was created as one. */
  lemma FreshOrderState(id: string, orderType: string, productType: Option<string>, now: real, later: real, timeout: real)
    requires later <= now + timeout
    ensures !OrderTimedOut(NewKniteOrder(id, orderType, productType, now), later, timeout)
    ensures !IsOpen(NewKniteOrder(id, orderType, productType, now))
    ensures IsSlOrder(NewKniteOrder(id, orderType, productType, now)) <==> orderType == ORDER_TYPE_SL
  {
  }

  /** The broker's view of an order, as `get_orders` reports it. */
  datatype BrokerOrder = BrokerOrder(id: string, status: string, orderType: string, filledQty: int, price: int, quantity: int)

  /** `create_sl_order`: a stop-loss order for `parent`, at the parent's stop price. */
  function CreateSlOrder(parent: KniteOrder, id: string, now: real): (sl: KniteOrder)
    ensures IsSlOrder(sl) && sl.parent == Some(parent.id)
    ensures sl.instrument == parent.instrument && sl.quantity == parent.quantity
    ensures sl.price == Some(parent.slPrice)
    ensures sl.status == ORDER_STATUS_PENDING && !sl.isBarrier && sl.id == id
  {
    NewKniteOrder(id, ORDER_TYPE_SL, Some("I"), now).(
      parent := Some(parent.id), instrument := parent.instrument,
      quantity := parent.quantity, price := Some(parent.slPrice))
  }

  /** `_map_order_type`: the dictionary lookup, `None` where it raises `KeyError`. */
  function MapOrderType(orderType: string): (r: Option<string>)
    ensures r.Some? <==> orderType in {ORDER_TYPE_LIMIT, ORDER_TYPE_SL, ORDER_TYPE_MARKET}
  {
    if orderType == ORDER_TYPE_LIMIT then Some("L")
    else if orderType == ORDER_TYPE_SL then Some("SL-L")
    else if orderType == ORDER_TYPE_MARKET then Some("MKT")
    else None
  }

  /** The text of a price field: `str(price)` of the order's price, or the
      literal `"0"`. */
  datatype PriceText = PriceOf(amount: int) | ZeroText

  /** `str(order.price if order.price is not None else "0")`. */
  function PriceOrZero(price: Option<int>): PriceText {
    match price
    case Some(p) => PriceOf(p)
    case None => ZeroText
  }

  /** The order payload sent to the broker. `trigprc` is absent unless an
      order type sets it. */
  datatype Payload = Payload(
    uid: string, actid: string, exch: string, tsym: string, qty: string, prd: string,
    trantype: string, ret: string, prctyp: string, trigprc: Option<PriceText>, prc: PriceText)

  /** The price fields `place_order` sets for one order type: `(prctyp, trigprc, prc)`. */
  function PriceFields(orderType: string, price: Option<int>): (r: (string, Option<PriceText>, PriceText))
  {
    if orderType == "SL-M" then ("SL-M", Some(PriceOrZero(price)), ZeroText)
    else if orderType == ORDER_TYPE_SL then ("SL", Some(PriceOrZero(price)), PriceOrZero(price))
    else if orderType == ORDER_TYPE_LIMIT then ("LIMIT", None, PriceOrZero(price))
    else ("MARKET", None, ZeroText)
  }

  /** `s.replace(pat, "")` for a non-empty `pat`: scan left to right and drop
      every non-overlapping occurrence. */
  function RemoveAll(s: string, pat: string): (r: string)
    requires |pat| > 0
    ensures |r| <= |s|
    decreases |s|
  {
    if |s| < |pat| then s
    else if s[..|pat|] == pat then RemoveAll(s[|pat|..], pat)
    else [s[0]] + RemoveAll(s[1..], pat)
  }

  /** A symbol without the pattern is left alone. */
  lemma {:induction false} RemoveAllAbsent(s: string, pat: string)
    requires |pat| > 0 && !Occurs(s, pat)
    ensures RemoveAll(s, pat) == s
  {
    if |s| >= |pat| {
      assert !OccursAt(s, pat, 0) && s[0..|pat|] == s[..|pat|];
      forall i | OccursAt(s[1..], pat, i)
        ensures false
      {
        assert s[1..][i..i + |pat|] == s[i + 1..i + 1 + |pat|];
        assert OccursAt(s, pat, i + 1);
      }
      RemoveAllAbsent(s[1..], pat);
    }
  }

  /** A leading exchange prefix is stripped, so `"MCX:CRUDEOIL"` becomes `"CRUDEOIL"`. */
  lemma StripsExchangePrefix(symbol: string)
    requires !Occurs(symbol, MCX_PREFIX)
    ensures RemoveAll(MCX_PREFIX + symbol, MCX_PREFIX) == symbol
  {
    assert (MCX_PREFIX + symbol)[..|MCX_PREFIX|] == MCX_PREFIX;
    assert (MCX_PREFIX + symbol)[|MCX_PREFIX|..] == symbol;
    RemoveAllAbsent(symbol, MCX_PREFIX);
  }

  /** Removal is a single pass: occurrences that only form once an inner one is
      dropped survive, as with Python's `str.replace`. */
  lemma RemovalIsSinglePass()
    ensures RemoveAll("MCMCX:X:", MCX_PREFIX) == MCX_PREFIX
  {
    var s := "MCMCX:X:";
    assert s[..4] == "MCMC";
    assert s[1..][..4] == "CMCX";
    assert s[2..][..4] == MCX_PREFIX;
    assert s[2..][4..] == "X:";
    assert RemoveAll("X:", MCX_PREFIX) == "X:";
    assert s[1..][1..] == s[2..];
  }

  /** Why `place_order` fails: `_map_order_type` raised on an unknown order type. */
  datatype PlaceError = UnknownOrderType(orderType: string)

  /** The payload `place_order` sends for `order` on behalf of account `user`, or
      the error it raises first. */
  function BuildPayload(user: string, order: KniteOrder): Result<Payload, PlaceError> {
    match MapOrderType(order.orderType)
    case None => Err(UnknownOrderType(order.orderType))
    case Some(_) =>
      var side := if order.quantity > 0 then "B" else "S";
      var qty := if order.quantity < 0 then -order.quantity else order.quantity;
      var fields := PriceFields(order.orderType, order.price);
      Ok(Payload(user, user, "MCX", RemoveAll(order.symbol, MCX_PREFIX), Render(qty),
                 match order.productType case Some(p) => p case None => "I",
                 side, "DAY", fields.0, fields.1, fields.2))
  }

  /** The payload's meaning, field by field; the `"SL-M"` price branch is never
      reached, because the order-type map rejects that type before it. */
  lemma PlaceOrderPayload(user: string, order: KniteOrder)
    ensures BuildPayload(user, order).Ok? <==>
            order.orderType in {ORDER_TYPE_LIMIT, ORDER_TYPE_SL, ORDER_TYPE_MARKET}
    ensures BuildPayload(user, order).Ok? ==>
      var p := BuildPayload(user, order).value;
      && p.uid == user && p.actid == user && p.exch == "MCX" && p.ret == "DAY"
      && (p.trantype == "B" <==> order.quantity > 0)
      && (p.trantype == "S" <==> order.quantity <= 0)
      && p.qty == Render(if order.quantity < 0 then -order.quantity else order.quantity)
      && AllDigits(p.qty) && Value(p.qty) == (if order.quantity < 0 then -order.quantity else order.quantity)
      && p.tsym == RemoveAll(order.symbol, MCX_PREFIX)
      && p.prd == (if order.productType.Some? then order.productType.value else "I")
      && p.prctyp != "SL-M"
      && (order.orderType == ORDER_TYPE_SL ==>
            p.prctyp == "SL" && p.trigprc == Some(PriceOrZero(order.price)) && p.prc == PriceOrZero(order.price))
      && (order.orderType == ORDER_TYPE_LIMIT ==>
            p.prctyp == "LIMIT" && p.trigprc == None && p.prc == PriceOrZero(order.price))
      && (order.orderType == ORDER_TYPE_MARKET ==>
            p.prctyp == "MARKET" && p.trigprc == None && p.prc == ZeroText)
  {
    ValueOfRender(if order.quantity < 0 then -order.quantity else order.quantity);
  }

  /** The characters below 128 that `int()` strips around its argument: tab
      through carriage return, and space. The separators 0x1C to 0x1F are not
      among them. */
  predicate IsSpace(c: char) {
    9 <= c as int <= 13 || c == ' '
  }

  function TrimStart(s: string): string {
    if s != [] && IsSpace(s[0]) then TrimStart(s[1..]) else s
  }

  function TrimEnd(s: string): string {
    if s != [] && IsSpace(s[|s| - 1]) then TrimEnd(s[..|s| - 1]) else s
  }

  function Trim(s: string): string {
    TrimEnd(TrimStart(s))
  }

  /** Digits with single underscores between them, as in `1_000`. */
  predicate DigitGroups(s: string) {
    && |s| > 0 && IsDigit(s[0]) && IsDigit(s[|s| - 1])
    && (forall i :: 0 <= i < |s| ==> IsDigit(s[i]) || s[i] == '_')
    && (forall i :: 0 <= i < |s| - 1 && s[i] == '_' ==> IsDigit(s[i + 1]))
  }

  /** The digits of a digit-and-underscore string, underscores dropped. */
  function Digits(s: string): (r: string)
    requires forall i :: 0 <= i < |s| ==> IsDigit(s[i]) || s[i] == '_'
    ensures AllDigits(r) && |r| <= |s|
    ensures AllDigits(s) ==> r == s
  {
    if s == [] then [] else (if s[0] == '_' then [] else [s[0]]) + Digits(s[1..])
  }

  /** Python's `int()` of a string in base 10: surrounding whitespace, an
      optional sign, and digits with single underscores between them. */
  function ParseInt(s: string): (r: Option<int>)
    ensures AllDigits(s) && |s| > 0 ==> r == Some(Value(s))
  {
    var t := Trim(s);
    if |t| > 1 && (t[0] == '-' || t[0] == '+') && DigitGroups(t[1..]) then
      var v := Value(Digits(t[1..]));
      Some(if t[0] == '-' then -(v as int) else v)
    else if DigitGroups(t) then Some(Value(Digits(t)))
    else None
  }

  /** The quantity texts the broker sends parse back to their numbers. */
  lemma ParseIntRender(n: nat)
    ensures ParseInt(Render(n)) == Some(n)
    ensures ParseInt("-" + Render(n)) == Some(-(n as int))
  {
    ValueOfRender(n);
    var m := "-" + Render(n);
    assert m[1..] == Render(n);
    assert TrimStart(m) == m;
    assert TrimEnd(m) == m by {
      assert m[|m| - 1] == Render(n)[|Render(n)| - 1];
    }
  }

  lemma {:induction false} TrimStartSpaces(pre: string, s: string)
    requires forall i :: 0 <= i < |pre| ==> IsSpace(pre[i])
    ensures TrimStart(pre + s) == TrimStart(s)
  {
    if pre != [] {
      assert (pre + s)[0] == pre[0] && (pre + s)[1..] == pre[1..] + s;
      TrimStartSpaces(pre[1..], s);
    } else {
      assert pre + s == s;
    }
  }

  lemma {:induction false} TrimEndSpaces(s: string, post: string)
    requires forall i :: 0 <= i < |post| ==> IsSpace(post[i])
    ensures TrimEnd(s + post) == TrimEnd(s)
  {
    if post != [] {
      assert (s + post)[|s + post| - 1] == post[|post| - 1];
      assert (s + post)[..|s + post| - 1] == s + post[..|post| - 1];
      TrimEndSpaces(s, post[..|post| - 1]);
    } else {
      assert s + post == s;
    }
  }

  lemma {:induction false} TrimStartAppend(s: string, post: string)
    ensures TrimStart(s) != [] ==> TrimStart(s + post) == TrimStart(s) + post
    ensures TrimStart(s) == [] ==> TrimStart(s + post) == TrimStart(post)
  {
    if s == [] {
      assert s + post == post;
    } else if IsSpace(s[0]) {
      assert (s + post)[0] == s[0] && (s + post)[1..] == s[1..] + post;
      TrimStartAppend(s[1..], post);
    }
  }

  /** Whitespace around the text does not change what `int()` reads. */
  lemma ParseIntPadded(pre: string, s: string, post: string)
    requires forall i :: 0 <= i < |pre| ==> IsSpace(pre[i])
    requires forall i :: 0 <= i < |post| ==> IsSpace(post[i])
    ensures ParseInt(pre + s + post) == ParseInt(s)
  {
    assert pre + s + post == pre + (s + post);
    TrimStartSpaces(pre, s + post);
    TrimStartAppend(s, post);
    if TrimStart(s) != [] {
      TrimEndSpaces(TrimStart(s), post);
    } else {
      assert TrimStart(post) == [] by {
        TrimStartSpaces(post, []);
        assert post + [] == post;
      }
    }
  }

  /** Underscores group digits. */
  lemma ParseIntGrouped()
    ensures ParseInt("1_000") == Some(1000)
  {
    var s := "1_000";
    assert TrimStart(s) == s && TrimEnd(s) == s;
    assert DigitGroups(s);
    assert Digits(s) == "1000" by {
      assert s[1..] == "_000" && s[1..][1..] == "000";
    }
    assert Value("1000") == 1000 by {
      assert "1000"[..3] == "100" && "100"[..2] == "10" && "10"[..1] == "1";
    }
  }

  /** A sign after the leading whitespace is read; trailing whitespace is dropped. */
  lemma ParseIntSpaced()
    ensures ParseInt(" -5\n") == Some(-5)
  {
    var s := " -5\n";
    assert s[0] == ' ' && s[1..] == "-5\n";
    assert TrimStart("-5\n") == "-5\n";
    assert "-5\n"[..2] == "-5";
    assert TrimEnd("-5\n") == TrimEnd("-5");
    assert TrimEnd("-5") == "-5";
    assert "-5"[1..] == "5" && DigitGroups("5") && Digits("5") == "5";
  }

  /** A separator character around the digits is refused. */
  lemma ParseIntSeparatorRefused()
    ensures ParseInt("\U{1c}5") == None
    ensures ParseInt("5\U{1f}") == None
  {
    assert TrimStart("\U{1c}5") == "\U{1c}5" && TrimEnd("\U{1c}5") == "\U{1c}5";
    assert TrimStart("5\U{1f}") == "5\U{1f}" && TrimEnd("5\U{1f}") == "5\U{1f}";
    assert !IsDigit("\U{1c}5"[0]) && !IsDigit("5\U{1f}"[1]);
  }

  /** A doubled, leading or trailing underscore is refused. */
  lemma ParseIntBadUnderscores()
    ensures ParseInt("1__0") == None
    ensures ParseInt("_1") == None
    ensures ParseInt("1_") == None
  {
    assert "1__0"[1] == '_' && "1__0"[2] == '_';
    assert TrimStart("1__0") == "1__0" && TrimEnd("1__0") == "1__0";
    assert TrimStart("_1") == "_1" && TrimEnd("_1") == "_1";
    assert TrimStart("1_") == "1_" && TrimEnd("1_") == "1_";
  }

  /** The internal status after a websocket update that reports `status`. */
  function WsStatus(status: Option<string>, current: string): string {
    if status == Some("REJECTED") || status == Some("CANCELLED") then ORDER_STATUS_REJECTED
    else if status == Some("COMPLETE") then ORDER_STATUS_COMPLETE
    else if status == Some("OPEN") || status == Some("PENDING") then ORDER_STATUS_OPEN
    else current
  }

  /** The status map: cancellations count as rejections, pending as open, and
      any other report keeps the status the order had. */
  lemma WsStatusMapping(status: Option<string>, current: string)
    ensures WsStatus(status, current) == ORDER_STATUS_REJECTED <==>
            status == Some("REJECTED") || status == Some("CANCELLED") ||
            (current == ORDER_STATUS_REJECTED && status !in {Some("COMPLETE"), Some("OPEN"), Some("PENDING")})
    ensures status == Some("COMPLETE") ==> WsStatus(status, current) == ORDER_STATUS_COMPLETE
    ensures status in {Some("OPEN"), Some("PENDING")} ==> WsStatus(status, current) == ORDER_STATUS_OPEN
    ensures status !in {Some("REJECTED"), Some("CANCELLED"), Some("COMPLETE"), Some("OPEN"), Some("PENDING")} ==>
            WsStatus(status, current) == current
  {
  }
}
