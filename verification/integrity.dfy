/**
 * What stays true of the store across a sequential run of order writes and
 * deletions: ids below the auto-increment counter, links that resolve, order
 * numbers that parse and strictly increase with id (hence the uniqueness the
 * `unique=True` constraint demands), and product weights in range. For the
 * atomic variants of the write paths also the 150 kg cap on every order.
 */
module Integrity {
  import opened Wrappers
  import opened Text
  import opened Models
  import opened Serializers
  import opened Views

  predicate IdsBelowCounter(s: Store) {
    forall id | id in s.orders :: id < s.nextOrder
  }

  /** Every item names a stored order and product; every order's customer, if any, is stored. */
  predicate LinksResolve(s: Store) {
    && (forall it | it in s.items :: it.order in s.orders && it.product in s.products)
    && (forall id | id in s.orders && s.orders[id].customer.Some? :: s.orders[id].customer.value in s.customers)
  }

  /** Every order number parses, and the parsed values strictly increase with id. */
  predicate NumbersIncreaseIn(orders: map<nat, Order>) {
    && (forall id | id in orders :: NumberValue(orders[id].number).Some?)
    && (forall a, b | a in orders && b in orders && a < b ::
          NumberValue(orders[a].number).value < NumberValue(orders[b].number).value)
  }

  predicate NumbersIncrease(s: Store) {
    NumbersIncreaseIn(s.orders)
  }

  /** Adding an order above every id, numbered above every number, keeps the numbers increasing. */
  lemma NumbersIncreaseAdd(orders: map<nat, Order>, id: nat, o: Order)
    requires NumbersIncreaseIn(orders)
    requires forall a | a in orders :: a < id
    requires NumberValue(o.number).Some?
    requires forall a | a in orders :: NumberValue(orders[a].number).value < NumberValue(o.number).value
    ensures NumbersIncreaseIn(orders[id := o])
  {
    var m := orders[id := o];
    forall a, b | a in m && b in m && a < b
      ensures NumberValue(m[a].number).value < NumberValue(m[b].number).value
    {
      if b == id {
        assert a in orders && m[a] == orders[a];
      } else {
        assert a in orders && b in orders && m[a] == orders[a] && m[b] == orders[b];
      }
    }
  }

  predicate WeightsValid(s: Store) {
    forall p | p in s.products :: WeightValid(s.products[p].weight)
  }

  predicate Valid(s: Store) {
    IdsBelowCounter(s) && LinksResolve(s) && NumbersIncrease(s) && WeightsValid(s)
  }

  /** Increasing numbers are distinct numbers: the uniqueness constraint on `order_number` holds. */
  lemma NumbersUnique(s: Store)
    requires NumbersIncrease(s)
    ensures forall a, b | a in s.orders && b in s.orders && a != b :: s.orders[a].number != s.orders[b].number
  {
    forall a, b | a in s.orders && b in s.orders && a != b
      ensures s.orders[a].number != s.orders[b].number
    {
      if a < b {
        assert NumberValue(s.orders[a].number) != NumberValue(s.orders[b].number);
      } else {
        assert NumberValue(s.orders[b].number) != NumberValue(s.orders[a].number);
      }
    }
  }

  /** With no order stored, the allocator starts at ORD00001. */
  lemma AllocateFirst(s: Store)
    requires s.orders == map[]
    ensures AllocateNumber(s) == Ok("ORD00001")
  {
  }

  /** After ORD + k (zero-padded), the allocator yields ORD + k+1, zero-padded to at least five digits. */
  lemma AllocateAfter(s: Store, k: nat)
    requires LastOrderId(s).Some? && s.orders[LastOrderId(s).value].number == OrderNumber(k)
    ensures AllocateNumber(s) == Ok(OrderNumber(k + 1))
  {
    NumberValueOrderNumber(k);
    NumberValueOrderNumber(k + 1);
    OrderNumberInjective(k + 1, NumberValue(AllocateNumber(s).value).value);
  }

  /**
   * Numbers that do not follow id order make the allocator hand out a number
   * that is already stored: the order with id 1 holds ORD00001, so the next
   * number is ORD00002, which the order with id 0 holds, and the insert is
   * refused by `unique=True`.
   */
  lemma DuplicateNumberRefused(a: Order, b: Order, data: OrderData)
    requires a.number == "ORD00002" && b.number == "ORD00001"
    requires data.date.Some? && data.address.Some?
    ensures var s := Store(map[], map[], map[0 := a, 1 := b], [], 2, 0);
            Create(s, data) == Err(DuplicateNumber("ORD00002"))
  {
    var s := Store(map[], map[], map[0 := a, 1 := b], [], 2, 0);
    assert LastOrderId(s) == Some(1);
    FirstOrderNumber();
    AllocateAfter(s, 1);
    assert OrderNumber(2) == "ORD00002";
    assert !NumberFree(s.orders, s.nextOrder, AllocateNumber(s).value) by {
      assert 0 in s.orders && 0 != s.nextOrder && s.orders[0].number == AllocateNumber(s).value;
    }
  }

  /** Padding to five digits: the first number, and the successor of ORD00042. */
  lemma OrderNumberPadded()
    ensures OrderNumber(1) == "ORD00001"
    ensures OrderNumber(43) == "ORD00043"
  {
    assert Decimal(43) == "43" by {
      assert Decimal(4) == "4";
    }
  }

  /** Past 99999 the number grows to six digits instead of being cut to five. */
  lemma OrderNumberGrows()
    ensures OrderNumber(100000) == "ORD100000"
  {
    assert Decimal(100000) == "100000" by {
      assert Decimal(1) == "1";
      assert Decimal(10) == "10";
      assert Decimal(100) == "100";
      assert Decimal(1000) == "1000";
      assert Decimal(10000) == "10000";
    }
  }

  /** Reading back stored numbers: the suffix after ORD, leading zeros ignored. */
  lemma NumberValueExamples()
    ensures NumberValue("ORD00042") == Some(42)
    ensures NumberValue("ORD99999") == Some(99999)
  {
    assert "ORD00042"[3..] == "00042";
    assert "ORD99999"[3..] == "99999";
    assert ValueOf("00042") == 42 by {
      assert "00042"[..4] == "0004";
      assert "0004"[..3] == "000";
      assert "000"[..2] == "00";
      assert "00"[..1] == "0";
      assert "0"[..0] == "";
    }
    assert ValueOf("99999") == 99999 by {
      assert "99999"[..4] == "9999";
      assert "9999"[..3] == "999";
      assert "999"[..2] == "99";
      assert "99"[..1] == "9";
      assert "9"[..0] == "";
    }
  }

  /** Under the invariant the allocator succeeds, and its number exceeds every stored one. */
  lemma AllocatorExceedsAll(s: Store)
    requires IdsBelowCounter(s) && NumbersIncrease(s)
    ensures AllocateNumber(s).Ok?
    ensures NumberValue(AllocateNumber(s).value).Some?
    ensures forall id | id in s.orders ::
              NumberValue(s.orders[id].number).value < NumberValue(AllocateNumber(s).value).value
  {
    if LastOrderId(s).Some? {
      var m := LastOrderId(s).value;
      forall id | id in s.orders
        ensures NumberValue(s.orders[id].number).value <= NumberValue(s.orders[m].number).value
      {
        assert id < s.nextOrder;
      }
    }
  }

  /** The rows `InsertItems` adds name the given order and the given lines' products. */
  lemma NewItemsResolve(s: Store, order: nat, lines: seq<Line>, first: nat, it: OrderItem)
    requires AllKnown(s.products, lines)
    requires it in NewItems(order, lines, first)
    ensures it.order == order && it.product in s.products
  {
    var added := NewItems(order, lines, first);
    var j :| 0 <= j < |added| && added[j] == it;
    assert lines[j].product in s.products;
  }

  /** The rows a validated create writes all resolve. */
  lemma CreateLinksResolve(s: Store, data: OrderData)
    requires LinksResolve(s)
    requires data.date.Some? && data.address.Some?
    requires AllKnown(s.products, data.items)
    requires data.customer.None? || data.customer.value.None? || data.customer.value.value in s.customers
    requires Create(s, data).Ok?
    ensures LinksResolve(Create(s, data).value.0)
  {
    var r := Create(s, data).value;
    var s' := r.0;
    var id := r.1;
    forall it | it in s'.items
      ensures it.order in s'.orders && it.product in s'.products
    {
      if it !in s.items {
        NewItemsResolve(s, id, data.items, s.nextItem, it);
      }
    }
  }

  /** The number a create allocates exceeds every stored one, so numbers keep increasing with id. */
  lemma CreateNumbersIncrease(s: Store, data: OrderData)
    requires IdsBelowCounter(s) && NumbersIncrease(s)
    requires data.date.Some? && data.address.Some?
    ensures Create(s, data).Ok?
    ensures NumbersIncrease(Create(s, data).value.0)
  {
    AllocatorExceedsAll(s);
    var s' := Create(s, data).value.0;
    var id := s.nextOrder;
    assert s'.orders == s.orders[id := s'.orders[id]];
    NumbersIncreaseAdd(s.orders, id, s'.orders[id]);
  }

  /** A validated create keeps the invariant; in particular the new number is larger than all others. */
  lemma CreateKeepsValid(s: Store, data: OrderData)
    requires Valid(s)
    requires data.date.Some? && data.address.Some?
    requires AllKnown(s.products, data.items)
    requires data.customer.None? || data.customer.value.None? || data.customer.value.value in s.customers
    ensures Create(s, data).Ok?
    ensures Valid(Create(s, data).value.0)
  {
    CreateNumbersIncrease(s, data);
    CreateLinksResolve(s, data);
  }

  /** The rows a validated update writes all resolve. */
  lemma UpdateLinksResolve(s: Store, id: nat, data: OrderData)
    requires LinksResolve(s) && id in s.orders
    requires AllKnown(s.products, data.items)
    requires data.customer.None? || data.customer.value.None? || data.customer.value.value in s.customers
    requires Update(s, id, data).Ok?
    ensures LinksResolve(Update(s, id, data).value)
  {
    var s' := Update(s, id, data).value;
    WithoutOrderMembers(s.items, id);
    forall it | it in s'.items
      ensures it.order in s'.orders && it.product in s'.products
    {
      if it !in WithoutOrder(s.items, id) {
        NewItemsResolve(s, id, data.items, s.nextItem, it);
      }
    }
  }

  /** A validated update keeps the invariant; the order keeps its number. */
  lemma UpdateKeepsValid(s: Store, id: nat, data: OrderData)
    requires Valid(s) && id in s.orders
    requires AllKnown(s.products, data.items)
    requires data.customer.None? || data.customer.value.None? || data.customer.value.value in s.customers
    ensures Update(s, id, data).Ok?
    ensures Valid(Update(s, id, data).value)
  {
    assert s.orders[id].number != [];
    var s' := Update(s, id, data).value;
    UpdateLinksResolve(s, id, data);
    assert forall j | j in s.orders :: s'.orders[j].number == s.orders[j].number;
  }

  /** The replace loop of `put` on a validated list keeps the invariant. */
  lemma ReplaceKeepsValid(s: Store, id: nat, lines: seq<Line>)
    requires Valid(s) && id in s.orders
    requires AllKnown(s.products, lines)
    ensures Valid(InsertItems(s.(items := WithoutOrder(s.items, id)), id, lines))
  {
    var s' := InsertItems(s.(items := WithoutOrder(s.items, id)), id, lines);
    WithoutOrderMembers(s.items, id);
    forall it | it in s'.items
      ensures it.order in s'.orders && it.product in s'.products
    {
      if it !in WithoutOrder(s.items, id) {
        NewItemsResolve(s, id, lines, s.nextItem, it);
      }
    }
  }

  lemma PostKeepsValid(s: Store, req: OrderRequest)
    requires Valid(s)
    ensures Valid(Post(s, req).0)
  {
    var (s', status) := Post(s, req);
    if status.Created? || status == OverWeight {
      CreateKeepsValid(s, Validated(req));
    }
  }

  lemma PutKeepsValid(s: Store, id: nat, req: OrderRequest)
    requires Valid(s)
    ensures Valid(Put(s, id, req).0)
  {
    if id in s.orders && IsValid(s, req) {
      var data := Validated(req);
      var cleared := s.(items := WithoutOrder(s.items, id));
      var replaced := InsertItems(cleared, id, data.items);
      assert ReplaceLoop(cleared, id, data.items) == Ok((replaced, TotalWeight(s.products, data.items)));
      ReplaceKeepsValid(s, id, data.items);
      if TotalWeight(s.products, data.items) <= WeightCap {
        UpdateKeepsValid(replaced, id, data);
      }
    }
  }

  lemma DeleteCustomerKeepsValid(s: Store, c: nat)
    requires Valid(s)
    ensures Valid(DeleteCustomer(s, c))
  {
    var s' := DeleteCustomer(s, c);
    forall id | id in s.orders ensures s'.orders[id].number == s.orders[id].number {
      assert s'.orders[id].(customer := None).number == s.orders[id].(customer := None).number;
    }
  }

  lemma DeleteOrderKeepsValid(s: Store, id: nat)
    requires Valid(s)
    ensures Valid(DeleteOrder(s, id))
  {
  }

  lemma DeleteProductKeepsValid(s: Store, p: nat)
    requires Valid(s)
    ensures Valid(DeleteProduct(s, p))
  {
  }

  // ---------------------------------------------------------------------------
  // Sequential runs.
  // ---------------------------------------------------------------------------

  datatype Op =
    | PostOp(req: OrderRequest)
    | PutOp(id: nat, req: OrderRequest)
    | DeleteCustomerOp(customer: nat)
    | DeleteOrderOp(order: nat)
    | DeleteProductOp(product: nat)

  /** The store after one operation, with the write paths as written. */
  function Apply(s: Store, op: Op): Store {
    match op
    case PostOp(req) => Post(s, req).0
    case PutOp(id, req) => Put(s, id, req).0
    case DeleteCustomerOp(c) => DeleteCustomer(s, c)
    case DeleteOrderOp(id) => DeleteOrder(s, id)
    case DeleteProductOp(p) => DeleteProduct(s, p)
  }

  /** The store after one operation, with the write paths rolled back on every rejection. */
  function ApplyAtomic(s: Store, op: Op): Store {
    match op
    case PostOp(req) => PostAtomic(s, req).0
    case PutOp(id, req) => PutAtomic(s, id, req).0
    case _ => Apply(s, op)
  }

  function Run(s: Store, ops: seq<Op>): Store
    decreases |ops|
  {
    if ops == [] then s else Run(Apply(s, ops[0]), ops[1..])
  }

  function RunAtomic(s: Store, ops: seq<Op>): Store
    decreases |ops|
  {
    if ops == [] then s else RunAtomic(ApplyAtomic(s, ops[0]), ops[1..])
  }

  lemma ApplyKeepsValid(s: Store, op: Op)
    requires Valid(s)
    ensures Valid(Apply(s, op))
    ensures Valid(ApplyAtomic(s, op))
  {
    match op
    case PostOp(req) => PostKeepsValid(s, req);
    case PutOp(id, req) => PutKeepsValid(s, id, req);
    case DeleteCustomerOp(c) => DeleteCustomerKeepsValid(s, c);
    case DeleteOrderOp(id) => DeleteOrderKeepsValid(s, id);
    case DeleteProductOp(p) => DeleteProductKeepsValid(s, p);
  }

  /**
   * In any sequential run of order writes and deletions, every order keeps a
   * number, and numbers strictly increase with id, so no two orders share one.
   */
  lemma {:induction false} RunKeepsNumbersUnique(s: Store, ops: seq<Op>)
    requires Valid(s)
    ensures Valid(Run(s, ops))
    ensures forall a, b | a in Run(s, ops).orders && b in Run(s, ops).orders && a != b ::
              Run(s, ops).orders[a].number != Run(s, ops).orders[b].number
    decreases |ops|
  {
    if ops != [] {
      ApplyKeepsValid(s, ops[0]);
      RunKeepsNumbersUnique(Apply(s, ops[0]), ops[1..]);
    }
    NumbersUnique(Run(s, ops));
  }
}
