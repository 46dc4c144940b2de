/**
 * The order endpoints: the read-only query with its product and customer
 * filters, and the two atomic write paths (create and replace) with the
 * cumulative-weight cap. A response is reduced to a `Status`; the store a
 * call returns is what the surrounding transaction commits.
 */
module Views {
  import opened Wrappers
  import opened Text
  import opened Models
  import opened Serializers

  /** 150 kg, in hundredths of a kilogram. */
  const WeightCap := 15000

  const AddressMaxLength := 255

  datatype Status =
    | Created(id: nat)   // 201
    | Updated            // 200
    | NoData             // 400, empty body
    | Invalid            // 400, the serializer's ValidationError
    | OverWeight         // 400, the cumulative-weight ValidationError
    | NotFound           // 404, unknown order id
    | Unexpected         // 500, any other exception

  /** The request body; a key the client did not send is `None`. */
  datatype OrderRequest = OrderRequest(
    customer: Option<Option<nat>>,
    date: Option<Date>,
    address: Option<string>,
    items: Option<seq<Line>>)

  predicate IsEmpty(req: OrderRequest) {
    req.customer.None? && req.date.None? && req.address.None? && req.items.None?
  }

  predicate AllKnown(products: map<nat, Product>, lines: seq<Line>) {
    forall i | 0 <= i < |lines| :: lines[i].product in products
  }

  /**
   * The largest `PositiveIntegerField` value: the upper end of the range
   * Django's SQLite backend reports, which the serializer turns into a
   * `MaxValueValidator` on `quantity`.
   */
  const MaxQuantity := 9223372036854775807

  predicate QuantitiesInRange(lines: seq<Line>) {
    forall i | 0 <= i < |lines| :: lines[i].quantity <= MaxQuantity
  }

  /**
   * `OrderSerializer.is_valid()`: date, address and items are required, the
   * address is 1..255 characters without a NUL character (the validator
   * every `CharField` carries), a given customer and every item's product
   * must name existing rows, and every quantity lies in the range of a
   * `PositiveIntegerField`. The customer may be absent or null.
   */
  predicate IsValid(s: Store, req: OrderRequest) {
    && req.date.Some?
    && req.address.Some? && 1 <= |req.address.value| <= AddressMaxLength && '\0' !in req.address.value
    && req.items.Some? && AllKnown(s.products, req.items.value) && QuantitiesInRange(req.items.value)
    && (req.customer.None? || req.customer.value.None? || req.customer.value.value in s.customers)
  }

  function Validated(req: OrderRequest): OrderData
    requires req.items.Some?
  {
    OrderData(req.customer, req.date, req.address, req.items.value)
  }

  // ---------------------------------------------------------------------------
  // Cumulative weight.
  // ---------------------------------------------------------------------------

  /** The reference sum: quantity times product weight over every line, in exact hundredths. */
  function TotalWeight(products: map<nat, Product>, lines: seq<Line>): int
    requires AllKnown(products, lines)
  {
    if lines == [] then 0
    else products[lines[0].product].weight * lines[0].quantity + TotalWeight(products, lines[1..])
  }

  lemma {:induction false} TotalWeightConcat(products: map<nat, Product>, a: seq<Line>, b: seq<Line>)
    requires AllKnown(products, a) && AllKnown(products, b)
    ensures AllKnown(products, a + b)
    ensures TotalWeight(products, a + b) == TotalWeight(products, a) + TotalWeight(products, b)
    decreases |a|
  {
    if a != [] {
      assert (a + b)[1..] == a[1..] + b;
      TotalWeightConcat(products, a[1..], b);
    } else {
      assert a + b == b;
    }
  }

  lemma TotalWeightSingle(products: map<nat, Product>, l: Line)
    requires l.product in products
    ensures AllKnown(products, [l])
    ensures TotalWeight(products, [l]) == products[l.product].weight * l.quantity
  {
    assert [l][1..] == [];
  }

  /**
   * The loop of `post`: look each line's product up (a miss raises) and add
   * its weight times the quantity to a running total that starts at 0.
   */
  function SumWeights(products: map<nat, Product>, lines: seq<Line>): (r: Result<int, Fault>)
    ensures r.Ok? <==> AllKnown(products, lines)
    ensures r.Ok? ==> r.value == TotalWeight(products, lines)
  {
    if lines == [] then Ok(0)
    else
      var init := lines[..|lines| - 1];
      var l := lines[|lines| - 1];
      assert lines == init + [l];
      var w :- SumWeights(products, init);
      if l.product !in products then Err(MissingProduct(l.product))
      else
        TotalWeightSingle(products, l);
        TotalWeightConcat(products, init, [l]);
        Ok(w + products[l.product].weight * l.quantity)
  }

  /** Inserting the lines one at a time is inserting them all at once. */
  lemma InsertItemsAppend(s: Store, order: nat, a: seq<Line>, l: Line)
    ensures InsertItems(InsertItems(s, order, a), order, [l]) == InsertItems(s, order, a + [l])
  {
    var first := s.nextItem;
    var x := NewItems(order, a, first) + NewItems(order, [l], first + |a|);
    var y := NewItems(order, a + [l], first);
    forall i | 0 <= i < |y| ensures x[i] == y[i] {
      if i < |a| {
        assert x[i] == NewItems(order, a, first)[i];
      } else {
        assert x[i] == NewItems(order, [l], first + |a|)[0];
      }
    }
    assert x == y;
  }

  /**
   * The loop of `put`: for each line, look its product up (a miss raises),
   * add its weight to the total, and insert the item row.
   */
  function ReplaceLoop(s: Store, order: nat, lines: seq<Line>): (r: Result<(Store, int), Fault>)
    ensures r.Ok? <==> AllKnown(s.products, lines)
    ensures r.Ok? ==> r.value.0 == InsertItems(s, order, lines)
    ensures r.Ok? ==> r.value.1 == TotalWeight(s.products, lines)
  {
    if lines == [] then Ok((s, 0))
    else
      var init := lines[..|lines| - 1];
      var l := lines[|lines| - 1];
      assert lines == init + [l];
      var p :- ReplaceLoop(s, order, init);
      var (s1, w) := p;
      if l.product !in s1.products then Err(MissingProduct(l.product))
      else
        TotalWeightSingle(s.products, l);
        TotalWeightConcat(s.products, init, [l]);
        InsertItemsAppend(s, order, init, l);
        Ok((InsertItems(s1, order, [l]), w + s1.products[l.product].weight * l.quantity))
  }

  // ---------------------------------------------------------------------------
  // POST /api/orders/
  // ---------------------------------------------------------------------------

  /**
   * `post`: validate, create the order and its items, then total the weight.
   * Only an exception other than `ValidationError` rolls the transaction
   * back; the weight `ValidationError` is caught and answered normally, so the
   * created order and items are committed.
   */
  function Post(s: Store, req: OrderRequest): (r: (Store, Status))
    ensures r.1 == NoData <==> IsEmpty(req)
    ensures r.1 == Invalid <==> !IsEmpty(req) && !IsValid(s, req)
    ensures r.1 == Unexpected <==>
              && !IsEmpty(req) && IsValid(s, req)
              && (AllocateNumber(s).Err? || !NumberFree(s.orders, s.nextOrder, AllocateNumber(s).value))
    ensures r.1 in {NoData, Invalid, Unexpected} ==> r.0 == s
    ensures r.1.Created? || r.1 == OverWeight ==>
              && IsValid(s, req) && AllocateNumber(s).Ok?
              && NumberFree(s.orders, s.nextOrder, AllocateNumber(s).value)
              && r.0.orders.Keys == s.orders.Keys + {s.nextOrder}
              && r.0.orders[s.nextOrder].number == AllocateNumber(s).value
              && Lines(r.0.items, s.nextOrder) == Lines(s.items, s.nextOrder) + req.items.value
              && (forall o | o != s.nextOrder :: Lines(r.0.items, o) == Lines(s.items, o))
              && (r.1 == OverWeight <==> TotalWeight(s.products, req.items.value) > WeightCap)
    ensures r.1.Created? ==> r.1.id == s.nextOrder
    ensures r.1.Created? || r.1 == OverWeight ==> r.0 == Create(s, Validated(req)).value.0
    ensures r.1 in {NoData, Invalid, Unexpected, OverWeight} || r.1.Created?
    ensures r.0.products == s.products && r.0.customers == s.customers
  {
    if IsEmpty(req) then (s, NoData)
    else if !IsValid(s, req) then (s, Invalid)
    else
      var data := Validated(req);
      match Create(s, data)
      case Err(_) => (s, Unexpected)
      case Ok(created) =>
        match SumWeights(created.0.products, data.items)
        case Err(_) => (s, Unexpected)
        case Ok(total) =>
          if total > WeightCap then (created.0, OverWeight) else (created.0, Created(created.1))
  }

  /** A quantity beyond the `PositiveIntegerField` range fails validation, so nothing is stored. */
  lemma QuantityOutOfRangeInvalid(s: Store, req: OrderRequest, i: nat)
    requires req.items.Some? && i < |req.items.value| && req.items.value[i].quantity > MaxQuantity
    ensures Post(s, req) == (s, Invalid)
    ensures forall id | id in s.orders :: Put(s, id, req) == (s, Invalid)
  {
  }

  /**
   * The create path as its transaction was meant to behave: a request the cap
   * rejects leaves no order and no item behind.
   */
  function PostAtomic(s: Store, req: OrderRequest): (r: (Store, Status))
    ensures !r.1.Created? ==> r.0 == s
    ensures r.1 == Post(s, req).1
    ensures r.1.Created? ==> r.0 == Post(s, req).0
  {
    var (s', status) := Post(s, req);
    if status.Created? then (s', status) else (s, status)
  }

  // ---------------------------------------------------------------------------
  // PUT /api/orders/<id>/
  // ---------------------------------------------------------------------------

  /**
   * The `try` block of `put` once `is_valid` has passed: delete the order's
   * items, run the insert-and-total loop, check the cap, then save through
   * `update`. A failed product lookup is not a `ValidationError`, so the
   * transaction is rolled back; the weight `ValidationError` is answered
   * normally, so the replaced items are committed with the old header.
   */
  function PutBody(s: Store, id: nat, data: OrderData): (r: (Store, Status))
    requires id in s.orders
    ensures !AllKnown(s.products, data.items) ==> r == (s, Unexpected)
    ensures r.1 == OverWeight ==>
              && AllKnown(s.products, data.items) && TotalWeight(s.products, data.items) > WeightCap
              && r.0.orders == s.orders
              && Lines(r.0.items, id) == data.items
    ensures r.1 == Updated ==>
              && AllKnown(s.products, data.items) && TotalWeight(s.products, data.items) <= WeightCap
              && id in r.0.orders
              && r.0.orders[id] == MergeHeader(s.orders[id], data).(number := r.0.orders[id].number)
              && Lines(r.0.items, id) == data.items
    ensures r.1 in {Updated, OverWeight, Unexpected}
    ensures r.1 == Unexpected ==> r.0 == s
    ensures AllKnown(s.products, data.items) && TotalWeight(s.products, data.items) > WeightCap ==> r.1 == OverWeight
    ensures AllKnown(s.products, data.items) && s.orders[id].number != [] ==>
              (r.1 == Unexpected <==>
                 TotalWeight(s.products, data.items) <= WeightCap && !NumberFree(s.orders, id, s.orders[id].number))
    ensures r.0.products == s.products && r.0.customers == s.customers
  {
    var cleared := s.(items := WithoutOrder(s.items, id));
    LinesWithoutOrder(s.items, id, id);
    match ReplaceLoop(cleared, id, data.items)
    case Err(_) => (s, Unexpected)
    case Ok(p) =>
      if p.1 > WeightCap then (p.0, OverWeight)
      else
        match Update(p.0, id, data)
        case Err(_) => (s, Unexpected)
        case Ok(s') => (s', Updated)
  }

  /**
   * `put`: an unknown order id fails at the lookup before anything is
   * written; an invalid body fails validation; otherwise the body runs.
   */
  function Put(s: Store, id: nat, req: OrderRequest): (r: (Store, Status))
    ensures r.1 == NotFound <==> id !in s.orders
    ensures r.1 == Invalid <==> id in s.orders && !IsValid(s, req)
    ensures r.1 in {NotFound, Invalid, Unexpected} ==> r.0 == s
    ensures r.1 in {NotFound, Invalid, Updated, OverWeight, Unexpected}
    ensures id in s.orders && IsValid(s, req) && s.orders[id].number != [] ==>
              (r.1 in {Updated, OverWeight} <==>
                 NumberFree(s.orders, id, s.orders[id].number) || TotalWeight(s.products, req.items.value) > WeightCap)
    ensures r.0.products == s.products && r.0.customers == s.customers
    ensures r.1 == Updated || r.1 == OverWeight ==>
              && id in s.orders && IsValid(s, req)
              && r.0.orders.Keys == s.orders.Keys
              && Lines(r.0.items, id) == req.items.value
              && (forall o | o != id :: Lines(r.0.items, o) == Lines(s.items, o))
              && (forall j | j in s.orders && j != id :: r.0.orders[j] == s.orders[j])
              && (r.1 == OverWeight <==> TotalWeight(s.products, req.items.value) > WeightCap)
    ensures r.1 == OverWeight ==> r.0.orders == s.orders
    ensures r.1 == Updated ==>
              && r.0.orders[id].customer == (if req.customer.Some? then req.customer.value else s.orders[id].customer)
              && r.0.orders[id].date == req.date.value
              && r.0.orders[id].address == req.address.value
              && (s.orders[id].number != [] ==> r.0.orders[id].number == s.orders[id].number)
  {
    if id !in s.orders then (s, NotFound)
    else if !IsValid(s, req) then (s, Invalid)
    else
      var data := Validated(req);
      var cleared := s.(items := WithoutOrder(s.items, id));
      assert forall o | o != id :: Lines(cleared.items, o) == Lines(s.items, o) by {
        forall o | o != id ensures Lines(cleared.items, o) == Lines(s.items, o) {
          LinesWithoutOrder(s.items, id, o);
        }
      }
      PutBody(s, id, data)
  }

  /**
   * The replace path as its transaction was meant to behave: a request the cap
   * rejects leaves the header and the old items in place.
   */
  function PutAtomic(s: Store, id: nat, req: OrderRequest): (r: (Store, Status))
    ensures r.1 != Updated ==> r.0 == s
    ensures r.1 == Put(s, id, req).1
    ensures r.1 == Updated ==> r.0 == Put(s, id, req).0
  {
    var (s', status) := Put(s, id, req);
    if status == Updated then (s', status) else (s, status)
  }

  // ---------------------------------------------------------------------------
  // GET /api/orders/?products=...&customer=...
  // ---------------------------------------------------------------------------

  /** The two query parameters; a parameter the client did not send is `None`. */
  datatype Query = Query(products: Option<string>, customer: Option<string>)

  /** `if products:` — an absent or empty parameter applies no product filter. */
  function ProductNames(q: Query): (r: Option<seq<string>>)
    ensures r.None? ==> q.products.None? || q.products.value == []
    ensures r.Some? ==> q.products.Some? && |r.value| >= 1 && Join(r.value, ',') == q.products.value
    ensures r.Some? ==> forall i | 0 <= i < |r.value| :: ',' !in r.value[i]
  {
    if q.products.Some? && q.products.value != [] then
      JoinSplit(q.products.value, ',');
      Some(Split(q.products.value, ','))
    else None
  }

  /** `if customer_name:` — an absent or empty parameter applies no customer filter. */
  function CustomerName(q: Query): (r: Option<string>)
    ensures r.None? ==> q.customer.None? || q.customer.value == []
    ensures r.Some? ==> r == q.customer && r.value != []
  {
    if q.customer.Some? && q.customer.value != [] then q.customer else None
  }

  /** `order_items__product__name__in=names`: some item of the order names one of `names`. */
  predicate HasProductIn(s: Store, id: nat, names: seq<string>) {
    exists i | 0 <= i < |s.items| ::
      s.items[i].order == id && s.items[i].product in s.products && s.products[s.items[i].product].name in names
  }

  /** `customer__name=name`: the order is linked to a customer of exactly that name. */
  predicate HasCustomerNamed(s: Store, id: nat, name: string) {
    && id in s.orders
    && s.orders[id].customer.Some?
    && s.orders[id].customer.value in s.customers
    && s.customers[s.orders[id].customer.value].name == name
  }

  predicate Selected(s: Store, q: Query, id: nat) {
    && id in s.orders
    && (ProductNames(q).Some? ==> HasProductIn(s, id, ProductNames(q).value))
    && (CustomerName(q).Some? ==> HasCustomerNamed(s, id, CustomerName(q).value))
  }

  /** The selected orders with ids below `n`, in ascending id order. */
  function SelectBelow(s: Store, q: Query, n: nat): (r: seq<nat>)
    ensures forall i, j | 0 <= i < j < |r| :: r[i] < r[j]
    ensures forall i | 0 <= i < |r| :: r[i] < n
    ensures forall id: nat :: id in r <==> id < n && Selected(s, q, id)
  {
    if n == 0 then []
    else
      var r := SelectBelow(s, q, n - 1);
      if Selected(s, q, n - 1) then r + [n - 1] else r
  }

  /**
   * `get`: the orders passing both filters, each once. The database returns
   * them in no specified order; the model lists them by ascending id.
   */
  function Get(s: Store, q: Query): (r: seq<nat>)
    ensures forall i, j | 0 <= i < j < |r| :: r[i] != r[j]
    ensures forall id: nat :: id in r ==> Selected(s, q, id)
    ensures forall id | id in s.orders && id < s.nextOrder :: id in r <==> Selected(s, q, id)
  {
    SelectBelow(s, q, s.nextOrder)
  }

  // ---------------------------------------------------------------------------
  // Properties of the query.
  // ---------------------------------------------------------------------------

  /** Without filters the query lists every order. */
  lemma GetUnfiltered(s: Store, q: Query)
    requires ProductNames(q).None? && CustomerName(q).None?
    requires forall id | id in s.orders :: id < s.nextOrder
    ensures forall id: nat :: id in Get(s, q) <==> id in s.orders
  {
  }

  /**
   * Querying with the comma-joined names of `names` lists exactly the orders
   * holding an item whose product bears one of those names.
   */
  lemma GetByProductNames(s: Store, names: seq<string>)
    requires |names| >= 1 && forall i | 0 <= i < |names| :: ',' !in names[i]
    requires Join(names, ',') != []
    requires forall id | id in s.orders :: id < s.nextOrder
    ensures forall id: nat :: id in Get(s, Query(Some(Join(names, ',')), None)) <==>
              && id in s.orders
              && exists i | 0 <= i < |s.items| ::
                   && s.items[i].order == id
                   && s.items[i].product in s.products
                   && s.products[s.items[i].product].name in names
  {
    var q := Query(Some(Join(names, ',')), None);
    SplitJoin(names, ',');
    assert ProductNames(q) == Some(names);
    assert CustomerName(q).None?;
  }

  /**
   * The customer filter narrows the product-filtered result: an order stays
   * iff it passes the product filter and its customer has exactly that name.
   */
  lemma GetCustomerNarrows(s: Store, q: Query)
    ensures forall id: nat :: id in Get(s, q) <==>
              && id in Get(s, q.(customer := None))
              && (CustomerName(q).Some? ==> HasCustomerNamed(s, id, CustomerName(q).value))
    ensures forall id: nat :: id in Get(s, q) ==> id in Get(s, q.(customer := None))
  {
    assert CustomerName(q.(customer := None)).None?;
    assert ProductNames(q.(customer := None)) == ProductNames(q);
  }

  /** Two orders, the first holding a Widget and a Gear, the second a Gear. */
  const WidgetGearStore := Store(
    map[],
    map[1 := Product("Widget", 100), 2 := Product("Gear", 200)],
    map[1 := Order("ORD00001", None, Date(2024, 1, 1), "A"), 2 := Order("ORD00002", None, Date(2024, 1, 2), "B")],
    [OrderItem(1, 1, 1, 1), OrderItem(2, 1, 2, 1), OrderItem(3, 2, 2, 1)],
    3, 4)

  lemma ProductNamesSingle(name: string)
    requires name != [] && ',' !in name
    ensures ProductNames(Query(Some(name), None)) == Some([name])
  {
    SplitJoin([name], ',');
  }

  /** Only the first order holds a Widget. */
  lemma WidgetOnlyInFirst()
    ensures HasProductIn(WidgetGearStore, 1, ["Widget"])
    ensures !HasProductIn(WidgetGearStore, 2, ["Widget"])
  {
    var s := WidgetGearStore;
    assert s.items[0].order == 1 && s.products[s.items[0].product].name == "Widget";
    assert s.products[2].name != "Widget";
    assert forall i | 0 <= i < |s.items| && s.items[i].order == 2 :: s.items[i].product == 2;
  }

  /** Filtering on Widget lists only the first order. */
  lemma GetWidget()
    ensures Get(WidgetGearStore, Query(Some("Widget"), None)) == [1]
  {
    var s := WidgetGearStore;
    var q := Query(Some("Widget"), None);
    ProductNamesSingle("Widget");
    WidgetOnlyInFirst();
    assert !Selected(s, q, 0);
    assert Selected(s, q, 1);
    assert !Selected(s, q, 2);
    assert SelectBelow(s, q, 1) == [];
    assert SelectBelow(s, q, 2) == [1];
  }

  /** Both orders hold a Gear. */
  lemma GearInBoth()
    ensures HasProductIn(WidgetGearStore, 1, ["Gear"])
    ensures HasProductIn(WidgetGearStore, 2, ["Gear"])
  {
    var s := WidgetGearStore;
    assert s.items[1].order == 1 && s.products[s.items[1].product].name == "Gear";
    assert s.items[2].order == 2 && s.products[s.items[2].product].name == "Gear";
  }

  /** Filtering on Gear lists both orders, the first once although it has two items. */
  lemma GetGear()
    ensures Get(WidgetGearStore, Query(Some("Gear"), None)) == [1, 2]
  {
    var s := WidgetGearStore;
    var q := Query(Some("Gear"), None);
    ProductNamesSingle("Gear");
    GearInBoth();
    assert !Selected(s, q, 0);
    assert Selected(s, q, 1);
    assert Selected(s, q, 2);
    assert SelectBelow(s, q, 1) == [];
    assert SelectBelow(s, q, 2) == [1];
    assert SelectBelow(s, q, 3) == [1] + [2];
  }
}
