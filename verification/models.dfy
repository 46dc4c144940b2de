/**
 * The four persisted entities (customers, products, orders, order items), the
 * field validators declared on them, the order-number allocator run by
 * `Order.save`, and the foreign-key deletion rules. The relational store is
 * an immutable value: three maps keyed by primary key, the order items in
 * insertion order, and the two auto-increment counters the database keeps.
 */
module Models {
  import opened Wrappers
  import opened Text

  // ---------------------------------------------------------------------------
  // Customer: unique name, contact number checked by a regular expression.
  // ---------------------------------------------------------------------------

  datatype Customer = Customer(name: string, contactNumber: string, email: string)

  const ContactMaxLength := 17

  /**
   * Python's `$` without MULTILINE: position `i` is the end of `s`, or the
   * position of a newline that ends `s`.
   */
  predicate AtEnd(s: string, i: nat) {
    i == |s| || (i + 1 == |s| && s[i] == '\n')
  }

  /**
   * The pattern `^\+?\d{1,4}?\d{10}$` matches `s` taking `plus` characters for
   * `\+?` and `k` digits for the lazy `\d{1,4}?`.
   */
  predicate PhoneMatchAt(s: string, plus: nat, k: nat) {
    && plus <= 1
    && plus + k + 10 <= |s|
    && (plus == 1 ==> s[0] == '+')
    && AllDigits(s[plus..plus + k + 10])
    && AtEnd(s, plus + k + 10)
  }

  /** The pattern matches when some choice of its quantifiers does (laziness changes which, not whether). */
  predicate PhonePatternMatches(s: string) {
    exists plus: nat, k: nat | plus <= 1 && 1 <= k <= 4 :: PhoneMatchAt(s, plus, k)
  }

  function WithoutFinalNewline(s: string): string {
    if s != [] && s[|s| - 1] == '\n' then s[..|s| - 1] else s
  }

  function WithoutPlus(s: string): string {
    if s != [] && s[0] == '+' then s[1..] else s
  }

  /** An optional '+', then 11 to 14 decimal digits (one trailing newline tolerated by `$`). */
  predicate PhoneShape(s: string) {
    var digits := WithoutPlus(WithoutFinalNewline(s));
    11 <= |digits| <= 14 && AllDigits(digits)
  }

  lemma PhonePatternShape(s: string)
    ensures PhonePatternMatches(s) <==> PhoneShape(s)
  {
    var body := WithoutFinalNewline(s);
    var digits := WithoutPlus(body);
    if PhonePatternMatches(s) {
      var plus: nat, k: nat :| plus <= 1 && 1 <= k <= 4 && PhoneMatchAt(s, plus, k);
      var e := plus + k + 10;
      assert IsDigit(s[plus..e][k + 9]);
      if e == |s| {
        assert body == s;
      } else {
        assert body == s[..e];
      }
      if plus == 1 {
        assert digits == s[plus..e];
      } else {
        assert IsDigit(s[plus..e][0]);
        assert digits == s[plus..e];
      }
    }
    if PhoneShape(s) {
      var plus := if body != [] && body[0] == '+' then 1 else 0;
      var k := |digits| - 10;
      assert s[plus..plus + k + 10] == digits;
      assert PhoneMatchAt(s, plus, k);
    }
  }

  /**
   * The `contact_number` field: blank is allowed (validators do not run on a
   * blank value); otherwise the length limit and the phone pattern apply.
   */
  function ContactNumberValid(s: string): (ok: bool)
    ensures ok <==> s == [] || PhoneShape(s)
  {
    PhonePatternShape(s);
    s == [] || (|s| <= ContactMaxLength && PhonePatternMatches(s))
  }

  // ---------------------------------------------------------------------------
  // Product: unique name, weight as a decimal with two places, in kg.
  // ---------------------------------------------------------------------------

  /** `weight` is held in hundredths of a kilogram, so 25.00 kg is 2500. */
  datatype Product = Product(name: string, weight: int)

  /** `DecimalField(max_digits=5, decimal_places=2)`: at most five digits in all. */
  predicate FitsWeightField(h: int) {
    -100000 < h < 100000
  }

  /**
   * The IEEE-754 double nearest to 0.01, the bound `MinValueValidator(0.01)`
   * holds. It is 5764607523034235 / 2^59, slightly above 1/100, and Python
   * compares a Decimal with a float exactly.
   */
  const DoubleNearestHundredth: real := 5764607523034235.0 / 576460752303423488.0

  /**
   * The weight validators as written: the decimal field, then
   * `MinValueValidator(0.01)` against the float, then `MaxValueValidator(25.00)`.
   * Because the float exceeds 1/100, the smallest two-place weight is refused.
   */
  function WeightAccepted(h: int): (ok: bool)
    ensures ok <==> 2 <= h <= 2500
  {
    && FitsWeightField(h)
    && h as real / 100.0 >= DoubleNearestHundredth
    && h as real / 100.0 <= 25.00
  }

  /** The intended weight rule: 0.01 kg to 25.00 kg inclusive, compared exactly. */
  function WeightValid(h: int): (ok: bool)
    ensures ok <==> 1 <= h <= 2500
  {
    && FitsWeightField(h)
    && h as real / 100.0 >= 0.01
    && h as real / 100.0 <= 25.00
  }

  /** 0.01 kg is a weight the help text promises but the validators refuse. */
  lemma SmallestWeightRejected()
    ensures WeightValid(1) && !WeightAccepted(1)
    ensures forall h :: WeightAccepted(h) <==> WeightValid(h) && h != 1
  {
  }

  // ---------------------------------------------------------------------------
  // Order and OrderItem.
  // ---------------------------------------------------------------------------

  /** `order_date`; calendar validity belongs to the date field's parser. */
  datatype Date = Date(year: int, month: int, day: int)

  /** `customer` is a nullable link; `number` is empty until `Order.save` assigns one. */
  datatype Order = Order(number: string, customer: Option<nat>, date: Date, address: string)

  /** One requested or stored line: a product id and a quantity (`PositiveIntegerField`, so >= 0). */
  datatype Line = Line(product: nat, quantity: nat)

  datatype OrderItem = OrderItem(id: nat, order: nat, product: nat, quantity: nat)

  function LineOf(it: OrderItem): Line {
    Line(it.product, it.quantity)
  }

  /**
   * The relational state. `nextOrder` and `nextItem` are the auto-increment
   * counters: every row ever inserted got an id below them.
   */
  datatype Store = Store(
    customers: map<nat, Customer>,
    products: map<nat, Product>,
    orders: map<nat, Order>,
    items: seq<OrderItem>,
    nextOrder: nat,
    nextItem: nat)

  // ---------------------------------------------------------------------------
  // Order items of one order.
  // ---------------------------------------------------------------------------

  /** The lines of order `order`, in insertion order (`order.order_items`). */
  function Lines(items: seq<OrderItem>, order: nat): seq<Line> {
    if items == [] then []
    else
      var last := items[|items| - 1];
      Lines(items[..|items| - 1], order) + (if last.order == order then [LineOf(last)] else [])
  }

  lemma {:induction false} LinesConcat(a: seq<OrderItem>, b: seq<OrderItem>, order: nat)
    ensures Lines(a + b, order) == Lines(a, order) + Lines(b, order)
    decreases |b|
  {
    if b == [] {
      assert a + b == a;
    } else {
      var ab := a + b;
      assert ab[..|ab| - 1] == a + b[..|b| - 1];
      assert ab[|ab| - 1] == b[|b| - 1];
      LinesConcat(a, b[..|b| - 1], order);
    }
  }

  /** An order with no item row has no lines. */
  lemma {:induction false} LinesNone(items: seq<OrderItem>, order: nat)
    requires forall i | 0 <= i < |items| :: items[i].order != order
    ensures Lines(items, order) == []
    decreases |items|
  {
    if items != [] {
      LinesNone(items[..|items| - 1], order);
    }
  }

  /** The rows `OrderItem.objects.create` inserts for `lines`, one per entry, ids from `firstId` on. */
  function NewItems(order: nat, lines: seq<Line>, firstId: nat): (r: seq<OrderItem>)
    ensures |r| == |lines|
    ensures forall i | 0 <= i < |r| :: r[i].id == firstId + i && r[i].order == order && LineOf(r[i]) == lines[i]
  {
    seq(|lines|, i requires 0 <= i < |lines| => OrderItem(firstId + i, order, lines[i].product, lines[i].quantity))
  }

  /** The new rows of an order carry exactly the requested lines, and nothing for any other order. */
  lemma {:induction false} LinesNewItems(order: nat, lines: seq<Line>, firstId: nat, other: nat)
    ensures Lines(NewItems(order, lines, firstId), order) == lines
    ensures other != order ==> Lines(NewItems(order, lines, firstId), other) == []
    decreases |lines|
  {
    var r := NewItems(order, lines, firstId);
    if lines != [] {
      var k := |lines| - 1;
      assert r[..k] == NewItems(order, lines[..k], firstId);
      LinesNewItems(order, lines[..k], firstId, other);
      assert lines[..k] + [lines[k]] == lines;
    }
  }

  /** One row per line, appended in input order; duplicate products stay separate rows. */
  function InsertItems(s: Store, order: nat, lines: seq<Line>): (r: Store)
    ensures r.items == s.items + NewItems(order, lines, s.nextItem)
    ensures Lines(r.items, order) == Lines(s.items, order) + lines
    ensures forall o | o != order :: Lines(r.items, o) == Lines(s.items, o)
    ensures r.nextItem == s.nextItem + |lines|
    ensures r.(items := s.items, nextItem := s.nextItem) == s
  {
    var added := NewItems(order, lines, s.nextItem);
    LinesConcat(s.items, added, order);
    LinesNewItems(order, lines, s.nextItem, order);
    assert forall o | o != order :: Lines(s.items + added, o) == Lines(s.items, o) by {
      forall o | o != order
        ensures Lines(s.items + added, o) == Lines(s.items, o)
      {
        LinesConcat(s.items, added, o);
        LinesNewItems(order, lines, s.nextItem, o);
      }
    }
    s.(items := s.items + added, nextItem := s.nextItem + |lines|)
  }

  /** `OrderItem.objects.filter(order=order).delete()`: every row of `order` goes, the rest keep their order. */
  function WithoutOrder(items: seq<OrderItem>, order: nat): seq<OrderItem> {
    if items == [] then []
    else
      var rest := WithoutOrder(items[..|items| - 1], order);
      var last := items[|items| - 1];
      if last.order == order then rest else rest + [last]
  }

  /** The delete keeps exactly the rows of the other orders. */
  lemma {:induction false} WithoutOrderMembers(items: seq<OrderItem>, order: nat)
    ensures forall it :: it in WithoutOrder(items, order) <==> it in items && it.order != order
    decreases |items|
  {
    if items != [] {
      var last := items[|items| - 1];
      assert items == items[..|items| - 1] + [last];
      WithoutOrderMembers(items[..|items| - 1], order);
    }
  }

  /** After the delete the order has no lines, and every other order keeps its lines. */
  lemma {:induction false} LinesWithoutOrder(items: seq<OrderItem>, order: nat, other: nat)
    ensures Lines(WithoutOrder(items, order), order) == []
    ensures other != order ==> Lines(WithoutOrder(items, order), other) == Lines(items, other)
    decreases |items|
  {
    if items != [] {
      var init := items[..|items| - 1];
      var last := items[|items| - 1];
      var rest := WithoutOrder(init, order);
      LinesWithoutOrder(init, order, other);
      if last.order != order {
        LinesConcat(rest, [last], order);
        LinesConcat(rest, [last], other);
      }
    }
  }

  /** The rows that reference product `product` go, the rest keep their order. */
  function WithoutProduct(items: seq<OrderItem>, product: nat): (r: seq<OrderItem>)
    ensures forall it :: it in r <==> it in items && it.product != product
  {
    if items == [] then []
    else
      var rest := WithoutProduct(items[..|items| - 1], product);
      var last := items[|items| - 1];
      assert items == items[..|items| - 1] + [last];
      if last.product == product then rest else rest + [last]
  }

  /** The lines left once every line of product `p` is dropped, in their original order. */
  function DropProduct(lines: seq<Line>, p: nat): (r: seq<Line>)
    ensures forall l :: l in r <==> l in lines && l.product != p
  {
    if lines == [] then []
    else
      var last := lines[|lines| - 1];
      assert lines == lines[..|lines| - 1] + [last];
      DropProduct(lines[..|lines| - 1], p) + (if last.product == p then [] else [last])
  }

  /** The cascade on a product removes exactly that product's lines from every order. */
  lemma {:induction false} LinesWithoutProduct(items: seq<OrderItem>, p: nat, o: nat)
    ensures Lines(WithoutProduct(items, p), o) == DropProduct(Lines(items, o), p)
    decreases |items|
  {
    if items != [] {
      var init := items[..|items| - 1];
      var last := items[|items| - 1];
      var rest := WithoutProduct(init, p);
      var before := Lines(init, o);
      LinesWithoutProduct(init, p, o);
      if last.product != p {
        LinesConcat(rest, [last], o);
        assert [last][..0] == [];
      }
      if last.order == o {
        assert (before + [LineOf(last)])[..|before|] == before;
      } else {
        assert before + [] == before;
      }
    }
  }

  lemma {:induction false} WithoutOrderConcat(a: seq<OrderItem>, b: seq<OrderItem>, order: nat)
    ensures WithoutOrder(a + b, order) == WithoutOrder(a, order) + WithoutOrder(b, order)
    decreases |b|
  {
    if b == [] {
      assert a + b == a;
    } else {
      var ab := a + b;
      var init := b[..|b| - 1];
      var last := b[|b| - 1];
      assert ab[..|ab| - 1] == a + init;
      assert ab[|ab| - 1] == last;
      WithoutOrderConcat(a, init, order);
      var tail := if last.order == order then [] else [last];
      assert WithoutOrder(ab, order) == WithoutOrder(a + init, order) + tail;
      assert WithoutOrder(b, order) == WithoutOrder(init, order) + tail;
      assert WithoutOrder(a, order) + WithoutOrder(init, order) + tail
          == WithoutOrder(a, order) + (WithoutOrder(init, order) + tail);
    }
  }

  /** Deleting the rows of an order from rows that belong to other orders changes nothing. */
  lemma {:induction false} WithoutOrderNone(items: seq<OrderItem>, order: nat)
    requires forall i | 0 <= i < |items| :: items[i].order != order
    ensures WithoutOrder(items, order) == items
    decreases |items|
  {
    if items != [] {
      var init := items[..|items| - 1];
      WithoutOrderNone(init, order);
      assert WithoutOrder(items, order) == init + [items[|items| - 1]];
    }
  }

  lemma {:induction false} WithoutOrderAll(items: seq<OrderItem>, order: nat)
    requires forall i | 0 <= i < |items| :: items[i].order == order
    ensures WithoutOrder(items, order) == []
    decreases |items|
  {
    if items != [] {
      WithoutOrderAll(items[..|items| - 1], order);
    }
  }

  // ---------------------------------------------------------------------------
  // Order-number allocator (`Order.save`).
  // ---------------------------------------------------------------------------

  const NumberPrefix := "ORD"
  const NumberWidth := 5

  /** `f'ORD{n:05d}'`. */
  function OrderNumber(n: nat): string {
    NumberPrefix + Format(n, NumberWidth)
  }

  /** `int(number[3:])`; `None` is the `ValueError` of a suffix that is not a digit run. */
  function NumberValue(number: string): (r: Option<nat>)
    ensures r.Some? <==> |number| > 3 && AllDigits(number[3..])
  {
    Parse(if |number| <= 3 then [] else number[3..])
  }

  /** The allocator's numbers read back as the counter they were made from. */
  lemma NumberValueOrderNumber(n: nat)
    ensures NumberValue(OrderNumber(n)) == Some(n)
    ensures |OrderNumber(n)| >= 8 && OrderNumber(n)[..3] == NumberPrefix
  {
    var d := Format(n, NumberWidth);
    assert OrderNumber(n)[3..] == d;
    ParseFormat(n, NumberWidth);
  }

  /** The first number the allocator hands out reads back as 1. */
  lemma FirstOrderNumber()
    ensures OrderNumber(1) == "ORD00001"
    ensures NumberValue("ORD00001") == Some(1)
  {
    NumberValueOrderNumber(1);
  }

  /** Distinct counters give distinct numbers. */
  lemma OrderNumberInjective(m: nat, n: nat)
    ensures OrderNumber(m) == OrderNumber(n) <==> m == n
  {
    NumberValueOrderNumber(m);
    NumberValueOrderNumber(n);
  }

  /** The largest order id below `n`, scanning downwards. */
  function LastIdBelow(orders: map<nat, Order>, n: nat): (r: Option<nat>)
    ensures r.Some? ==> r.value < n && r.value in orders
    ensures r.Some? ==> forall id | id in orders && id < n :: id <= r.value
    ensures r.None? ==> forall id | id in orders :: id >= n
  {
    if n == 0 then None
    else if n - 1 in orders then Some(n - 1)
    else LastIdBelow(orders, n - 1)
  }

  /**
   * `Order.objects.all().order_by('id').last()`. Ids come from the
   * auto-increment counter, so scanning below `nextOrder` finds the last row.
   */
  function LastOrderId(s: Store): (r: Option<nat>)
    ensures r.Some? ==> r.value in s.orders && forall id | id in s.orders && id < s.nextOrder :: id <= r.value
    ensures r.None? ==> forall id | id in s.orders :: id >= s.nextOrder
  {
    LastIdBelow(s.orders, s.nextOrder)
  }

  datatype Fault =
    | BadOrderNumber(number: string)   // `int(...)` raised on the last order's suffix
    | MissingProduct(id: nat)          // `get_object_or_404(Product, ...)` raised
    | DuplicateNumber(number: string)  // `unique=True` refused a second row with this number

  /**
   * The next order number: `ORD00001` when there is no order, otherwise one
   * more than the number of the order with the largest id.
   */
  function AllocateNumber(s: Store): (r: Result<string, Fault>)
    ensures LastOrderId(s).None? ==> r == Ok("ORD00001")
    ensures LastOrderId(s).Some? ==>
              match NumberValue(s.orders[LastOrderId(s).value].number)
              case None => r == Err(BadOrderNumber(s.orders[LastOrderId(s).value].number))
              case Some(k) => r == Ok(OrderNumber(k + 1)) && NumberValue(r.value) == Some(k + 1)
    ensures r.Ok? ==> |r.value| >= 8 && r.value[..3] == NumberPrefix
  {
    match LastOrderId(s)
    case None =>
      FirstOrderNumber();
      Ok("ORD00001")
    case Some(id) =>
      var number := s.orders[id].number;
      match NumberValue(number)
      case None => Err(BadOrderNumber(number))
      case Some(k) =>
        NumberValueOrderNumber(k + 1);
        Ok(OrderNumber(k + 1))
  }

  /** No order other than the one at `row` carries `number`: the `unique=True` constraint on `order_number`. */
  predicate NumberFree(orders: map<nat, Order>, row: nat, number: string) {
    forall j | j in orders && j != row :: orders[j].number != number
  }

  /**
   * `Order.save`: an order without a number gets one from the allocator, then
   * the row is written — inserted under a fresh id when `id` is `None`,
   * overwritten in place otherwise. The database refuses the write when
   * another row already holds the number.
   */
  function SaveOrder(s: Store, id: Option<nat>, o: Order): (r: Result<(Store, nat), Fault>)
    ensures o.number != [] ==> (r.Ok? <==> NumberFree(s.orders, id.GetOr(s.nextOrder), o.number))
    ensures o.number == [] ==>
              (r.Ok? <==> AllocateNumber(s).Ok? && NumberFree(s.orders, id.GetOr(s.nextOrder), AllocateNumber(s).value))
    ensures r.Err? && o.number != [] ==> r.error == DuplicateNumber(o.number)
    ensures r.Ok? ==> r.value.1 == id.GetOr(s.nextOrder)
    ensures r.Ok? ==> var (s', row) := r.value;
              && s'.orders.Keys == s.orders.Keys + {row}
              && s'.orders[row] == o.(number := s'.orders[row].number)
              && s'.orders[row].number == (if o.number == [] then AllocateNumber(s).value else o.number)
              && (forall j | j in s.orders && j != row :: s'.orders[j] == s.orders[j])
              && s'.nextOrder == (if id.None? then s.nextOrder + 1 else s.nextOrder)
              && s'.(orders := s.orders, nextOrder := s.nextOrder) == s
  {
    var number :- if o.number == [] then AllocateNumber(s) else Ok(o.number);
    var row := id.GetOr(s.nextOrder);
    if !NumberFree(s.orders, row, number) then Err(DuplicateNumber(number))
    else
      var next := if id.None? then s.nextOrder + 1 else s.nextOrder;
      Ok((s.(orders := s.orders[row := o.(number := number)], nextOrder := next), row))
  }

  // ---------------------------------------------------------------------------
  // Foreign-key deletion rules.
  // ---------------------------------------------------------------------------

  /** `on_delete=SET_NULL`: the customer's orders stay, with the link cleared. */
  function DeleteCustomer(s: Store, c: nat): (r: Store)
    ensures r.customers == s.customers - {c}
    ensures r.orders.Keys == s.orders.Keys
    ensures forall id | id in r.orders :: r.orders[id].customer != Some(c)
    ensures forall id | id in s.orders && s.orders[id].customer == Some(c) :: r.orders[id].customer == None
    ensures forall id | id in s.orders ::
              && r.orders[id].(customer := None) == s.orders[id].(customer := None)
              && (s.orders[id].customer != Some(c) ==> r.orders[id] == s.orders[id])
    ensures r.(customers := s.customers, orders := s.orders) == s
  {
    var orders := map id | id in s.orders ::
      if s.orders[id].customer == Some(c) then s.orders[id].(customer := None) else s.orders[id];
    s.(customers := s.customers - {c}, orders := orders)
  }

  /** Deleting an order cascades to its items (`on_delete=CASCADE` on `OrderItem.order`). */
  function DeleteOrder(s: Store, id: nat): (r: Store)
    ensures r.orders.Keys == s.orders.Keys - {id}
    ensures forall j | j in r.orders :: r.orders[j] == s.orders[j]
    ensures forall it :: it in r.items <==> it in s.items && it.order != id
    ensures forall o | o != id :: Lines(r.items, o) == Lines(s.items, o)
    ensures r.(orders := s.orders, items := s.items) == s
  {
    WithoutOrderMembers(s.items, id);
    assert forall o | o != id :: Lines(WithoutOrder(s.items, id), o) == Lines(s.items, o) by {
      forall o | o != id ensures Lines(WithoutOrder(s.items, id), o) == Lines(s.items, o) {
        LinesWithoutOrder(s.items, id, o);
      }
    }
    s.(orders := s.orders - {id}, items := WithoutOrder(s.items, id))
  }

  /** Deleting a product cascades to the items that reference it (`on_delete=CASCADE` on `OrderItem.product`). */
  function DeleteProduct(s: Store, p: nat): (r: Store)
    ensures r.products == s.products - {p}
    ensures forall it :: it in r.items <==> it in s.items && it.product != p
    ensures forall o :: Lines(r.items, o) == DropProduct(Lines(s.items, o), p)
    ensures r.(products := s.products, items := s.items) == s
  {
    forall o ensures Lines(WithoutProduct(s.items, p), o) == DropProduct(Lines(s.items, o), p) {
      LinesWithoutProduct(s.items, p, o);
    }
    s.(products := s.products - {p}, items := WithoutProduct(s.items, p))
  }
}
