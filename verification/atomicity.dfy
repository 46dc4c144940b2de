/**
 * The 150 kg cap as a property of the stored orders, and what the two write
 * paths do to it. As written, `post` and `put` answer an over-weight request
 * with a `ValidationError` response but return normally from inside
 * `transaction.atomic`, so the rows they wrote are committed and the cap can
 * be broken. The variants that roll back on every rejection keep it.
 */
module Atomicity {
  import opened Wrappers
  import opened Models
  import opened Views
  import opened Integrity

  /** Every stored order's items name known products and weigh at most 150 kg in total. */
  predicate WithinCap(s: Store) {
    forall id | id in s.orders ::
      AllKnown(s.products, Lines(s.items, id)) && TotalWeight(s.products, Lines(s.items, id)) <= WeightCap
  }

  /** Under the invariant an id not yet handed out has no item rows. */
  lemma NoLinesAtCounter(s: Store)
    requires Valid(s)
    ensures Lines(s.items, s.nextOrder) == []
  {
    forall i | 0 <= i < |s.items| ensures s.items[i].order != s.nextOrder {
      assert s.items[i] in s.items;
    }
    LinesNone(s.items, s.nextOrder);
  }

  lemma PostAtomicKeepsCap(s: Store, req: OrderRequest)
    requires Valid(s) && WithinCap(s)
    ensures WithinCap(PostAtomic(s, req).0)
  {
    var (s', status) := PostAtomic(s, req);
    if status.Created? {
      var n := s.nextOrder;
      var lines := req.items.value;
      NoLinesAtCounter(s);
      assert Lines(s'.items, n) == [] + lines;
      assert TotalWeight(s.products, lines) <= WeightCap;
      forall id | id in s'.orders
        ensures AllKnown(s'.products, Lines(s'.items, id))
        ensures TotalWeight(s'.products, Lines(s'.items, id)) <= WeightCap
      {
        assert s'.products == s.products;
        if id != n {
          assert id in s.orders;
          assert Lines(s'.items, id) == Lines(s.items, id);
        } else {
          assert Lines(s'.items, id) == lines;
        }
      }
    }
  }

  lemma PutAtomicKeepsCap(s: Store, id: nat, req: OrderRequest)
    requires WithinCap(s)
    ensures WithinCap(PutAtomic(s, id, req).0)
  {
  }

  lemma DeleteCustomerKeepsCap(s: Store, c: nat)
    requires WithinCap(s)
    ensures WithinCap(DeleteCustomer(s, c))
  {
  }

  lemma DeleteOrderKeepsCap(s: Store, id: nat)
    requires WithinCap(s)
    ensures WithinCap(DeleteOrder(s, id))
  {
  }

  /** With non-negative weights, dropping lines never raises the total. */
  lemma {:induction false} DropProductWeight(products: map<nat, Product>, lines: seq<Line>, p: nat)
    requires AllKnown(products, lines)
    requires forall q | q in products :: products[q].weight >= 0
    ensures AllKnown(products, DropProduct(lines, p))
    ensures TotalWeight(products, DropProduct(lines, p)) <= TotalWeight(products, lines)
    decreases |lines|
  {
    if lines != [] {
      var init := lines[..|lines| - 1];
      var last := lines[|lines| - 1];
      var kept := DropProduct(init, p);
      assert lines == init + [last];
      assert AllKnown(products, init);
      DropProductWeight(products, init, p);
      TotalWeightSingle(products, last);
      TotalWeightConcat(products, init, [last]);
      if last.product != p {
        assert DropProduct(lines, p) == kept + [last];
        TotalWeightConcat(products, kept, [last]);
      } else {
        assert DropProduct(lines, p) == kept;
        NonNegativeProduct(products[last.product].weight, last.quantity);
      }
    }
  }

  lemma NonNegativeProduct(a: int, b: int)
    requires a >= 0 && b >= 0
    ensures a * b >= 0
  {
  }

  /** The total only reads the weights of the products the lines name. */
  lemma {:induction false} TotalWeightSubmap(small: map<nat, Product>, large: map<nat, Product>, lines: seq<Line>)
    requires AllKnown(small, lines)
    requires forall q | q in small :: q in large && large[q] == small[q]
    ensures AllKnown(large, lines)
    ensures TotalWeight(small, lines) == TotalWeight(large, lines)
    decreases |lines|
  {
    if lines != [] {
      assert AllKnown(small, lines[1..]);
      TotalWeightSubmap(small, large, lines[1..]);
    }
  }

  lemma DeleteProductKeepsCap(s: Store, p: nat)
    requires WeightsValid(s) && WithinCap(s)
    ensures WithinCap(DeleteProduct(s, p))
  {
    var s' := DeleteProduct(s, p);
    assert s'.items == WithoutProduct(s.items, p);
    assert s'.products == s.products - {p};
    forall id | id in s'.orders
      ensures AllKnown(s'.products, Lines(s'.items, id))
      ensures TotalWeight(s'.products, Lines(s'.items, id)) <= WeightCap
    {
      var dropped := DropProduct(Lines(s.items, id), p);
      LinesWithoutProduct(s.items, p, id);
      DropProductWeight(s.products, Lines(s.items, id), p);
      assert AllKnown(s'.products, dropped);
      TotalWeightSubmap(s'.products, s.products, dropped);
    }
  }

  lemma ApplyAtomicKeepsCap(s: Store, op: Op)
    requires Valid(s) && WithinCap(s)
    ensures WithinCap(ApplyAtomic(s, op))
  {
    match op
    case PostOp(req) => PostAtomicKeepsCap(s, req);
    case PutOp(id, req) => PutAtomicKeepsCap(s, id, req);
    case DeleteCustomerOp(c) => DeleteCustomerKeepsCap(s, c);
    case DeleteOrderOp(id) => DeleteOrderKeepsCap(s, id);
    case DeleteProductOp(p) => DeleteProductKeepsCap(s, p);
  }

  /** With rollback on every rejection, no sequential run ever stores an order over 150 kg. */
  lemma {:induction false} RunAtomicKeepsCap(s: Store, ops: seq<Op>)
    requires Valid(s) && WithinCap(s)
    ensures Valid(RunAtomic(s, ops)) && WithinCap(RunAtomic(s, ops))
    decreases |ops|
  {
    if ops != [] {
      ApplyKeepsValid(s, ops[0]);
      ApplyAtomicKeepsCap(s, ops[0]);
      RunAtomicKeepsCap(ApplyAtomic(s, ops[0]), ops[1..]);
    }
  }

  // ---------------------------------------------------------------------------
  // The over-weight rejections as written.
  // ---------------------------------------------------------------------------

  /**
   * `post` as written: an over-weight order is refused with a 400, yet the
   * order and its items are committed, leaving a stored order over the cap.
   */
  lemma PostOverWeightCommits(s: Store, req: OrderRequest)
    requires Valid(s) && IsValid(s, req)
    requires TotalWeight(s.products, req.items.value) > WeightCap
    ensures Post(s, req).1 == OverWeight
    ensures s.nextOrder !in s.orders && s.nextOrder in Post(s, req).0.orders
    ensures Lines(Post(s, req).0.items, s.nextOrder) == req.items.value
    ensures !WithinCap(Post(s, req).0)
  {
    AllocatorExceedsAll(s);
    NoLinesAtCounter(s);
    var s' := Post(s, req).0;
    assert Lines(s'.items, s.nextOrder) == [] + req.items.value;
  }

  /** The intended `post` rolls the same request back completely. */
  lemma PostAtomicOverWeightRollsBack(s: Store, req: OrderRequest)
    requires Valid(s) && IsValid(s, req)
    requires TotalWeight(s.products, req.items.value) > WeightCap
    ensures PostAtomic(s, req) == (s, OverWeight)
  {
    PostOverWeightCommits(s, req);
  }

  /** The cap is strict: a valid order of at most 150 kg, exactly 150 kg included, is created. */
  lemma PostWithinCapCreated(s: Store, req: OrderRequest)
    requires Valid(s) && IsValid(s, req)
    requires TotalWeight(s.products, req.items.value) <= WeightCap
    ensures Post(s, req).1 == Created(s.nextOrder)
  {
    AllocatorExceedsAll(s);
  }

  /**
   * `put` as written: an over-weight replacement is refused with a 400, yet
   * the order's old items are gone and the new ones committed, while every
   * header, the address included, stays as it was.
   */
  lemma PutOverWeightCommits(s: Store, id: nat, req: OrderRequest)
    requires id in s.orders && s.orders[id].number != [] && IsValid(s, req)
    requires TotalWeight(s.products, req.items.value) > WeightCap
    ensures Put(s, id, req).1 == OverWeight
    ensures Put(s, id, req).0.orders == s.orders
    ensures Lines(Put(s, id, req).0.items, id) == req.items.value
    ensures !WithinCap(Put(s, id, req).0)
  {
  }

  /** The intended `put` rolls the same request back completely. */
  lemma PutAtomicOverWeightRollsBack(s: Store, id: nat, req: OrderRequest)
    requires id in s.orders && s.orders[id].number != [] && IsValid(s, req)
    requires TotalWeight(s.products, req.items.value) > WeightCap
    ensures PutAtomic(s, id, req) == (s, OverWeight)
  {
    PutOverWeightCommits(s, id, req);
  }

  // ---------------------------------------------------------------------------
  // Concrete stores meeting those premises.
  // ---------------------------------------------------------------------------

  /** One 25 kg product and nothing else. */
  const AnvilStore := Store(map[], map[0 := Product("Anvil", 2500)], map[], [], 0, 0)

  /** Seven anvils: 175 kg. */
  const SevenAnvils := OrderRequest(None, Some(Date(2024, 1, 15)), Some("1 Forge Lane"), Some([Line(0, 7)]))

  /** Six anvils: exactly 150 kg. */
  const SixAnvils := SevenAnvils.(items := Some([Line(0, 6)]))

  /** A stored order ORD00001 for one anvil. */
  const OneAnvilOrder := Store(
    map[], map[0 := Product("Anvil", 2500)],
    map[0 := Order("ORD00001", None, Date(2024, 1, 15), "1 Forge Lane")],
    [OrderItem(0, 0, 0, 1)], 1, 1)

  /** Replacing it by seven anvils, delivered to a new address. */
  const MoveAndSevenAnvils := OrderRequest(None, Some(Date(2024, 2, 1)), Some("9 Quarry Road"), Some([Line(0, 7)]))

  /** Seven anvils on an empty store: a valid request over the cap; six are exactly at it. */
  lemma AnvilPostExample()
    ensures Valid(AnvilStore) && WithinCap(AnvilStore)
    ensures IsValid(AnvilStore, SevenAnvils) && TotalWeight(AnvilStore.products, [Line(0, 7)]) == 17500
    ensures IsValid(AnvilStore, SixAnvils) && TotalWeight(AnvilStore.products, [Line(0, 6)]) == WeightCap
  {
    TotalWeightSingle(AnvilStore.products, Line(0, 7));
    TotalWeightSingle(AnvilStore.products, Line(0, 6));
  }

  /** Moving the one-anvil order and raising it to seven: a valid request over the cap. */
  lemma AnvilPutExample()
    ensures Valid(OneAnvilOrder) && WithinCap(OneAnvilOrder)
    ensures OneAnvilOrder.orders[0].number != [] && IsValid(OneAnvilOrder, MoveAndSevenAnvils)
    ensures TotalWeight(OneAnvilOrder.products, [Line(0, 7)]) == 17500
    ensures OneAnvilOrder.orders[0].address != MoveAndSevenAnvils.address.value
  {
    var s := OneAnvilOrder;
    TotalWeightSingle(s.products, Line(0, 7));
    TotalWeightSingle(s.products, Line(0, 1));
    assert NumberValue(s.orders[0].number) == Some(1) by {
      FirstOrderNumber();
    }
    assert Lines(s.items, 0) == [Line(0, 1)] by {
      assert s.items[..0] == [];
    }
  }
}
