/**
 * `OrderSerializer.create` and `OrderSerializer.update`: writing an order
 * header together with its whole list of items. The accepted fields are the
 * customer, the date, the address and the items; `order_number` is not among
 * them, so every number comes from the allocator in `Order.save`.
 */
module Serializers {
  import opened Wrappers
  import opened Models

  /**
   * The serializer's `validated_data`. A header field is `None` when the key
   * is absent; `customer` is `Some(None)` when the request sends null.
   */
  datatype OrderData = OrderData(
    customer: Option<Option<nat>>,
    date: Option<Date>,
    address: Option<string>,
    items: seq<Line>)

  /**
   * `create`: insert the order (numbered by the allocator) under a fresh id,
   * then one item row per requested line, in input order.
   */
  function Create(s: Store, data: OrderData): (r: Result<(Store, nat), Fault>)
    requires data.date.Some? && data.address.Some?
    ensures r.Ok? <==> AllocateNumber(s).Ok? && NumberFree(s.orders, s.nextOrder, AllocateNumber(s).value)
    ensures r.Err? && AllocateNumber(s).Ok? ==> r.error == DuplicateNumber(AllocateNumber(s).value)
    ensures r.Ok? ==> var (s', id) := r.value;
              && id == s.nextOrder && s'.nextOrder == s.nextOrder + 1
              && s'.nextItem == s.nextItem + |data.items|
              && s'.orders.Keys == s.orders.Keys + {id}
              && s'.orders[id] == Order(AllocateNumber(s).value, data.customer.GetOr(None), data.date.value, data.address.value)
              && (forall j | j in s.orders && j != id :: s'.orders[j] == s.orders[j])
              && s'.items == s.items + NewItems(id, data.items, s.nextItem)
              && Lines(s'.items, id) == Lines(s.items, id) + data.items
              && (forall o | o != id :: Lines(s'.items, o) == Lines(s.items, o))
              && s'.customers == s.customers && s'.products == s.products
  {
    var header := Order([], data.customer.GetOr(None), data.date.value, data.address.value);
    var saved :- SaveOrder(s, None, header);
    Ok((InsertItems(saved.0, saved.1, data.items), saved.1))
  }

  /** The header after `update`: each supplied field replaces the stored one, an absent one keeps it. */
  function MergeHeader(o: Order, data: OrderData): (r: Order)
    ensures r.number == o.number
  {
    o.(customer := data.customer.GetOr(o.customer),
       date := data.date.GetOr(o.date),
       address := data.address.GetOr(o.address))
  }

  /** Merging the same data a second time changes nothing, whatever number the merged header was saved under. */
  lemma MergeHeaderIdempotent(o: Order, data: OrderData, number: string)
    ensures MergeHeader(MergeHeader(o, data).(number := number), data) == MergeHeader(o, data).(number := number)
  {
  }

  /**
   * `update`: merge the header and save it, delete every item of the order,
   * then insert the supplied lines.
   */
  function Update(s: Store, id: nat, data: OrderData): (r: Result<Store, Fault>)
    requires id in s.orders
    ensures s.orders[id].number != [] ==> (r.Ok? <==> NumberFree(s.orders, id, s.orders[id].number))
    ensures s.orders[id].number == [] ==>
              (r.Ok? <==> AllocateNumber(s).Ok? && NumberFree(s.orders, id, AllocateNumber(s).value))
    ensures r.Ok? ==> var s' := r.value;
              && s'.orders.Keys == s.orders.Keys && s'.nextOrder == s.nextOrder
              && s'.nextItem == s.nextItem + |data.items|
              && s'.orders[id].customer == (if data.customer.Some? then data.customer.value else s.orders[id].customer)
              && s'.orders[id].date == (if data.date.Some? then data.date.value else s.orders[id].date)
              && s'.orders[id].address == (if data.address.Some? then data.address.value else s.orders[id].address)
              && (s.orders[id].number != [] ==> s'.orders[id].number == s.orders[id].number)
              && (s.orders[id].number == [] ==> s'.orders[id].number == AllocateNumber(s).value)
              && s'.orders[id].number != []
              && NumberFree(s'.orders, id, s'.orders[id].number)
              && (forall j | j in s.orders && j != id :: s'.orders[j] == s.orders[j])
              && Lines(s'.items, id) == data.items
              && (forall o | o != id :: Lines(s'.items, o) == Lines(s.items, o))
              && s'.items == WithoutOrder(s.items, id) + NewItems(id, data.items, s.nextItem)
              && s'.customers == s.customers && s'.products == s.products
  {
    var saved :- SaveOrder(s, Some(id), MergeHeader(s.orders[id], data));
    var cleared := saved.0.(items := WithoutOrder(saved.0.items, id));
    LinesWithoutOrder(s.items, id, id);
    assert forall o | o != id :: Lines(cleared.items, o) == Lines(s.items, o) by {
      forall o | o != id ensures Lines(cleared.items, o) == Lines(s.items, o) {
        LinesWithoutOrder(s.items, id, o);
      }
    }
    Ok(InsertItems(cleared, id, data.items))
  }

  /**
   * Two stores with the same rows, up to the ids of order items and the
   * item-id counter.
   */
  predicate SameContents(a: Store, b: Store) {
    && a.customers == b.customers
    && a.products == b.products
    && a.orders == b.orders
    && a.nextOrder == b.nextOrder
    && |a.items| == |b.items|
    && forall i | 0 <= i < |a.items| :: a.items[i].(id := 0) == b.items[i].(id := 0)
  }

  /** Rows that differ only in their ids have the same contents. */
  lemma SameRowsAfterNewItems(kept: seq<OrderItem>, id: nat, lines: seq<Line>, first1: nat, first2: nat)
    ensures var a := kept + NewItems(id, lines, first1);
            var b := kept + NewItems(id, lines, first2);
            |a| == |b| && forall i | 0 <= i < |a| :: a[i].(id := 0) == b[i].(id := 0)
  {
    var a := kept + NewItems(id, lines, first1);
    var b := kept + NewItems(id, lines, first2);
    forall i | 0 <= i < |a| ensures a[i].(id := 0) == b[i].(id := 0) {
      if i >= |kept| {
        var j := i - |kept|;
        assert a[i] == NewItems(id, lines, first1)[j];
        assert b[i] == NewItems(id, lines, first2)[j];
      }
    }
  }

  /** Deleting an order's rows after replacing them leaves the rows of the other orders, as before. */
  lemma WithoutOrderAfterReplace(items: seq<OrderItem>, id: nat, lines: seq<Line>, first: nat)
    ensures WithoutOrder(WithoutOrder(items, id) + NewItems(id, lines, first), id) == WithoutOrder(items, id)
  {
    var kept := WithoutOrder(items, id);
    var added := NewItems(id, lines, first);
    WithoutOrderConcat(kept, added, id);
    WithoutOrderAll(added, id);
    WithoutOrderMembers(items, id);
    assert forall i | 0 <= i < |kept| :: kept[i].order != id by {
      forall i | 0 <= i < |kept| ensures kept[i].order != id {
        assert kept[i] in kept;
      }
    }
    WithoutOrderNone(kept, id);
    assert kept + [] == kept;
  }

  /** Updating an order whose header already carries the supplied fields leaves every header as it is. */
  lemma UpdateKeepsMergedOrders(s: Store, id: nat, data: OrderData)
    requires id in s.orders && s.orders[id].number != []
    requires NumberFree(s.orders, id, s.orders[id].number)
    requires MergeHeader(s.orders[id], data) == s.orders[id]
    ensures Update(s, id, data).Ok?
    ensures Update(s, id, data).value.orders == s.orders
  {
    var s' := Update(s, id, data).value;
    assert s'.orders[id] == s.orders[id];
  }

  /** Updating twice with the same data leaves the same rows as updating once; only item ids differ. */
  lemma UpdateIdempotent(s: Store, id: nat, data: OrderData)
    requires id in s.orders
    requires Update(s, id, data).Ok?
    ensures id in Update(s, id, data).value.orders
    ensures Update(Update(s, id, data).value, id, data).Ok?
    ensures SameContents(Update(Update(s, id, data).value, id, data).value, Update(s, id, data).value)
  {
    var s1 := Update(s, id, data).value;
    assert id in s1.orders && s1.orders[id].number != [];
    MergeHeaderIdempotent(s.orders[id], data, s1.orders[id].number);
    UpdateKeepsMergedOrders(s1, id, data);
    var s2 := Update(s1, id, data).value;
    var kept := WithoutOrder(s.items, id);
    assert s1.items == kept + NewItems(id, data.items, s.nextItem);
    WithoutOrderAfterReplace(s.items, id, data.items, s.nextItem);
    assert s2.items == kept + NewItems(id, data.items, s1.nextItem);
    SameRowsAfterNewItems(kept, id, data.items, s1.nextItem, s.nextItem);
  }
}
