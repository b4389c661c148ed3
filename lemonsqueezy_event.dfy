/** The payment provider's webhook event, after JSON parsing, and the fields
    the payment webhook derives from it (order id, product name). */
module LemonSqueezyEvent {
  import opened Common

  /** `first_order_item`: only the product name is read. */
  datatype OrderItem = OrderItem(productName: Option<string>)

  /** `data.attributes`: the fields the handler reads. */
  datatype Attributes = Attributes(
    orderNumber: Option<int>,
    userEmail: Option<string>,
    currency: string,
    total: int,             // minor currency units
    status: string,
    firstOrderItem: Option<OrderItem>)

  /** `data`: the event's own id and its attributes. */
  datatype EventData = EventData(id: string, attributes: Attributes)

  /** The parsed payload: `meta.event_name` and `data`. */
  datatype Payload = Payload(eventName: string, data: EventData)

  /** The two event kinds that record a purchase. */
  predicate IsPurchaseEvent(eventName: string)
  {
    eventName == "order_created" || eventName == "subscription_payment_success"
  }

  /** The decimal digit for `d`. */
  function DigitChar(d: nat): (c: char)
    requires d < 10
    ensures '0' <= c <= '9'
  {
    ('0' as int + d) as char
  }

  predicate IsDigit(c: char)
  {
    '0' <= c <= '9'
  }

  /** The value of a decimal digit. */
  function DigitValue(c: char): nat
    requires IsDigit(c)
  {
    c as int - '0' as int
  }

  /** Decimal notation of a natural number, most significant digit first. */
  function Digits(n: nat): (s: string)
    ensures s != []
    ensures forall i | 0 <= i < |s| :: IsDigit(s[i])
    ensures |s| > 1 ==> s[0] != '0'
  {
    if n < 10 then [DigitChar(n)] else Digits(n / 10) + [DigitChar(n % 10)]
  }

  /** The value of a non-empty string of decimal digits. */
  function DigitsValue(s: string): nat
    requires s != []
    requires forall i | 0 <= i < |s| :: IsDigit(s[i])
  {
    if |s| == 1 then DigitValue(s[0])
    else DigitsValue(s[..|s| - 1]) * 10 + DigitValue(s[|s| - 1])
  }

  /** `Number.prototype.toString()` of an integer order number. */
  function DecimalString(n: int): string
  {
    if n < 0 then "-" + Digits(-n) else Digits(n)
  }

  /** Reads back what `DecimalString` writes: an optional minus sign and at
      least one digit. */
  function ParseDecimal(s: string): Option<int>
  {
    if |s| > 1 && s[0] == '-' && (forall i | 1 <= i < |s| :: IsDigit(s[i])) then
      var magnitude: int := DigitsValue(s[1..]);
      Some(-magnitude)
    else if s != [] && (forall i | 0 <= i < |s| :: IsDigit(s[i])) then
      Some(DigitsValue(s))
    else
      None
  }

  lemma {:induction false} DigitsRoundTrip(n: nat)
    ensures DigitsValue(Digits(n)) == n
  {
    if n >= 10 {
      var s := Digits(n);
      assert s[..|s| - 1] == Digits(n / 10);
      DigitsRoundTrip(n / 10);
    }
  }

  /** Parsing inverts printing: `ParseDecimal` is a left inverse of
      `DecimalString`. */
  lemma DecimalRoundTrip(n: int)
    ensures ParseDecimal(DecimalString(n)) == Some(n)
  {
    var m: nat := if n < 0 then -n else n;
    var d := Digits(m);
    DigitsRoundTrip(m);
    if n < 0 {
      var s := "-" + d;
      assert s[1..] == d;
      forall i | 1 <= i < |s|
        ensures IsDigit(s[i])
      {
        assert s[i] == d[i - 1];
      }
    } else {
      assert IsDigit(d[0]);
    }
  }

  /** Distinct order numbers give distinct order ids. */
  lemma DecimalStringInjective(a: int, b: int)
    requires DecimalString(a) == DecimalString(b)
    ensures a == b
  {
    DecimalRoundTrip(a);
    DecimalRoundTrip(b);
  }

  /** `attributes.order_number?.toString() ?? data.id` */
  function OrderId(data: EventData): string
  {
    match data.attributes.orderNumber
    case Some(n) => DecimalString(n)
    case None => data.id
  }

  /** `attributes.first_order_item?.product_name ?? 'N/A'` */
  function ProductName(attributes: Attributes): string
  {
    match attributes.firstOrderItem
    case Some(OrderItem(Some(name))) => name
    case _ => "N/A"
  }

  /** Two events with order numbers are keyed apart exactly when their order
      numbers differ; an event without one is keyed by its `data.id`. */
  lemma OrderIdKeys(d1: EventData, d2: EventData)
    ensures d1.attributes.orderNumber.Some? && d2.attributes.orderNumber.Some? ==>
              (OrderId(d1) == OrderId(d2) <==> d1.attributes.orderNumber == d2.attributes.orderNumber)
    ensures d1.attributes.orderNumber.None? ==> OrderId(d1) == d1.id
  {
    if d1.attributes.orderNumber.Some? && d2.attributes.orderNumber.Some? && OrderId(d1) == OrderId(d2) {
      DecimalStringInjective(d1.attributes.orderNumber.value, d2.attributes.orderNumber.value);
    }
  }
}
