# Order write path: a Dafny model

This project models the order core of a Django order-management backend. It covers:

- the order-number allocator in `Order.save`;
- the field validators declared on the four models (customer contact number, product weight);
- the foreign-key deletion rules;
- `OrderSerializer.create` and `OrderSerializer.update`;
- the order endpoint `OrderAPIView`, with three parts:
  - the `get` filter by product names and customer name;
  - the transactional `post` and `put`, with their 150 kg cumulative-weight cap.

The database is an immutable `Store` value. It holds:

- customers, products and orders in maps keyed by primary key;
- the order items as a sequence in insertion order;
- the two auto-increment counters.

Weights are exact integers in hundredths of a kilogram. A `transaction.atomic` view returns the store it commits. A rollback is the input store returned unchanged.

Modules follow the source files:

| module | file | contents |
|---|---|---|
| `Wrappers` | `wrappers.dfy` | `Option` and `Result` |
| `Text` | `text.dfy` | Python `f'{n:05d}'`, `int(...)` on digit runs, and `str.split` |
| `Models` | `models.dfy` | entities, validators, allocator, deletion rules |
| `Serializers` | `serializers.dfy` | `create` and `update` |
| `Views` | `views.dfy` | `get`, `post` and `put`, as written and with full rollback |
| `Integrity` | `integrity.dfy` | the store invariant, and its preservation over any sequential run |
| `Atomicity` | `atomicity.dfy` | the 150 kg cap as a store property; which write paths keep it |

Two behaviours of the code shape the model:

- **Over-weight requests commit.** `post` and `put` are decorated with `@transaction.atomic` (core/views.py:173, 218). Each raises a `ValidationError` when the total exceeds 150 kg (core/views.py:192-195, 238-241). Together these show that a rejected write was meant to leave no rows. But the view catches that `ValidationError` itself and returns normally, so the rows already written commit. The model follows the code; see Findings.
- **Empty item lists are accepted.** The nested serializer accepts `[]` as the item list, so the model accepts an order with no items.

## Model

| member | source | states |
|---|---|---|
| Text.Decimal | core/models.py:40 | the decimal digits of n: at least one digit, no leading zero, one digit exactly when n < 10 |
| Text.PadLeft | core/models.py:40 | zero-padding to a minimum width: the result ends with the input, is all '0' before it, and is never shorter than the input (no truncation) |
| Text.Parse | core/models.py:38 | Python's `int(...)` restricted to ASCII digit runs: it succeeds exactly on a non-empty run of ASCII decimal digits |
| Text.ParseFormat | core/models.py:38-40 | parsing a zero-padded number gives the number back, for any width |
| Text.FormatInjective | core/models.py:40 | distinct numbers never format to the same string |
| Text.Split | core/views.py:152 | `str.split`: at least one piece, and no piece contains the separator |
| Text.JoinSplit | core/views.py:152 | joining the pieces of a split with the separator gives the string back |
| Text.SplitJoin | core/views.py:152 | splitting a join of separator-free pieces gives the pieces back |
| Models.PhonePatternShape | core/models.py:7-10 | `^\+?\d{1,4}?\d{10}$` matches iff the value is an optional '+' then 11 to 14 digits; a single final newline is tolerated, as Python's `$` does |
| Models.ContactNumberValid | core/models.py:7-11 | a contact number is accepted iff it is blank or has that shape; the 17-character limit never binds on its own |
| Models.WeightAccepted | core/models.py:16-22 | the weight validators as written accept exactly 0.02 to 25.00 kg |
| Models.WeightValid | core/models.py:16-23 | the intended weight rule accepts exactly 0.01 to 25.00 kg |
| Models.SmallestWeightRejected | core/models.py:20 | 0.01 kg is valid by the intended rule but refused as written; the two rules differ on that weight alone |
| Models.NewItems | core/serializers.py:42-43 | one row per requested line, in input order, with consecutive fresh ids; duplicate products stay separate rows |
| Models.LinesNewItems | core/serializers.py:42-43 | the new rows hold exactly the requested lines for their order, and none for any other order |
| Models.InsertItems | core/serializers.py:42-43 | inserting appends the lines to that order's items, leaves every other order's items and every other table unchanged, and advances the item counter by the number of lines |
| Models.WithoutOrder | core/serializers.py:53 | `OrderItem.objects.filter(order=...).delete()` on the item sequence; its membership is stated by the lemma below |
| Models.WithoutOrderMembers | core/serializers.py:53 | `filter(order=...).delete()` keeps exactly the rows of other orders |
| Models.LinesWithoutOrder | core/serializers.py:53 | after the delete the order has no items and every other order keeps its items in order |
| Models.OrderNumber | core/models.py:40 | `f'ORD{n:05d}'`: the prefix `ORD` followed by n zero-padded to at least five digits; its properties are stated by the two lemmas below |
| Models.NumberValue | core/models.py:38 | `int(number[3:])`: a value exactly when the part after the first three characters is a non-empty run of digits, and the `ValueError` otherwise |
| Models.NumberValueOrderNumber | core/models.py:38-40 | the suffix of `ORD` + pad5(n) parses back to n; the number has at least 8 characters and starts with `ORD` |
| Models.FirstOrderNumber | core/models.py:42 | the literal `ORD00001` is the allocator's format applied to 1, and reads back as 1 |
| Models.OrderNumberInjective | core/models.py:40 | `ORD` + pad5(m) and `ORD` + pad5(n) are equal iff m = n |
| Models.LastIdBelow | core/models.py:35 | the largest stored order id below the counter; none when no order lies below it |
| Models.LastOrderId | core/models.py:35 | `order_by('id').last()`: a stored id at least every stored id below the counter; none when no stored id lies below it |
| Models.NumberFree | core/models.py:28 | `unique=True` on `order_number`: no order other than the one being written holds the number |
| Models.AllocateNumber | core/models.py:34-43 | `ORD00001` with no order; otherwise exactly `ORD` + pad5(k+1), where k is the last order's suffix, and that number reads back as k+1; fails with that suffix exactly when it is not a digit run |
| Models.SaveOrder | core/models.py:33-44 | a number is allocated only when the order has none, and an existing number is kept; the write is refused exactly when allocation fails or another order already holds the number; an insert gets the next id, an update keeps its id; no other row changes |
| Models.DeleteCustomer | core/models.py:29 | SET_NULL: the customer goes and every other customer is unchanged; every order stays; each order linked to that customer now links to null, and no other order changes |
| Models.DeleteOrder | core/models.py:47 | CASCADE: the order and exactly its items go; every other order keeps its items |
| Models.WithoutProduct | core/models.py:48 | the rows that reference the product go, the rest stay |
| Models.DeleteProduct | core/models.py:48 | CASCADE: the product goes and every other product is unchanged; exactly the items that reference it go; each order's lines become its old lines without that product, in their original order |
| Serializers.Create | core/serializers.py:39-45 | the order gets the next id and the allocator's number; its items are the supplied lines in order, and the item counter advances by their number; no other order or item changes; it fails exactly when the allocator fails or another order already holds the allocated number |
| Serializers.MergeHeader | core/serializers.py:48-50 | the header merge never touches the order number; what each merged field becomes is stated on `Serializers.Update` |
| Serializers.MergeHeaderIdempotent | core/serializers.py:48-50 | merging the same data into an already merged header, whatever number it was saved under, changes nothing; `Serializers.UpdateIdempotent` rests on it |
| Serializers.Update | core/serializers.py:47-58 | each header field is the supplied value, or the old value when absent; the id and a stored number are kept, and an order stored without a number gets the allocator's; the item counter advances by the number of supplied lines; the save fails exactly when another order holds the number; the order's items are exactly the supplied lines; other orders and their items are unchanged |
| Serializers.UpdateKeepsMergedOrders | core/serializers.py:48-51 | when the stored header already carries the supplied fields, `update` rewrites no header |
| Serializers.UpdateIdempotent | core/serializers.py:53-56 | updating twice with the same data leaves the same rows as updating once; only item ids differ |
| Views.IsValid | core/serializers.py:32-37 | `OrderSerializer.is_valid()`: date, address (1 to 255 characters, no NUL character) and items are present, every item's product exists, every quantity is within the `PositiveIntegerField` range, and a given non-null customer exists |
| Views.QuantityOutOfRangeInvalid | core/views.py:182 | a quantity beyond the `PositiveIntegerField` range makes `post`, and `put` on any stored order, answer invalid with the store unchanged |
| Views.SumWeights | core/views.py:185-191 | the `post` loop succeeds iff every product exists, and its total is the reference sum of weight × quantity in exact hundredths |
| Views.ReplaceLoop | core/views.py:226-236 | the `put` loop succeeds iff every product exists; its store equals inserting all the lines; its total is the reference sum |
| Views.Post | core/views.py:173-216 | empty body, invalid data, allocator failure and an allocated number already held by another order (`IntegrityError`, rolled back) each leave the store unchanged; otherwise the order and its items are stored; the status is over-weight iff the total exceeds 15000 hundredths, so exactly 150 kg passes |
| Views.PostAtomic | core/views.py:192-208 | the intended `post`: any status other than created leaves the store exactly as before |
| Views.PutBody | core/views.py:223-253 | an unknown product restores the store (`set_rollback`); known products over the cap are always over-weight, which keeps the old headers but leaves the new items; within the cap, a number held by another order is the one other failure, rolled back; otherwise the header is merged and the items replaced |
| Views.Put | core/views.py:218-253 | an unknown id is not found, and invalid data is rejected, both with the store unchanged; valid data for a numbered order ends updated or over-weight exactly when no other order holds its number or the total exceeds the cap; on update or over-weight the order's items are the new lines and other orders are untouched; over-weight leaves every header unchanged; update writes the supplied header |
| Views.PutAtomic | core/views.py:238-250 | the intended `put`: any status other than updated leaves the store exactly as before |
| Views.ProductNames | core/views.py:151-152 | `if products:` then `split(",")`: no filter for an absent or empty parameter; otherwise comma-free names whose join with commas is the parameter |
| Views.CustomerName | core/views.py:157 | `if customer_name:`: no filter for an absent or empty parameter; otherwise the non-empty name as sent |
| Views.HasProductIn | core/views.py:153-155 | `order_items__product__name__in`: some item of the order references a stored product whose name is in the list |
| Views.HasCustomerNamed | core/views.py:158 | `customer__name=`: the order links to a stored customer of exactly that name |
| Views.SelectBelow | core/views.py:149-158 | the selected orders below a bound, strictly increasing, each listed iff it passes both filters |
| Views.Get | core/views.py:145-161 | each order at most once; an order is listed iff it passes the product filter and the customer filter |
| Views.GetUnfiltered | core/views.py:149-151 | with no parameter, or with empty ones, every order is listed |
| Views.GetByProductNames | core/views.py:151-155 | the product filter lists exactly the orders that have an item whose product name is in the comma-separated list |
| Views.GetCustomerNarrows | core/views.py:157-158 | the customer filter is an AND with the product filter: its result is the product-filtered result restricted to that exact customer name |
| Views.GetWidget | core/views.py:151-155 | an order lacking the named product is not listed |
| Views.GetGear | core/views.py:151-155 | an order is listed once even when several of its items match |
| Integrity.NumbersUnique | core/models.py:28 | numbers that increase with id are pairwise distinct, as `unique=True` demands |
| Integrity.AllocateFirst | core/models.py:35-42 | with no order stored, the allocator yields `ORD00001` |
| Integrity.AllocateAfter | core/models.py:35-40 | after `ORD` + pad5(k) comes `ORD` + pad5(k+1) |
| Integrity.DuplicateNumberRefused | core/models.py:28-40 | when numbers do not follow id order (id 0 holds `ORD00002`, id 1 holds `ORD00001`), the allocator yields `ORD00002` again and `create` is refused as a duplicate |
| Integrity.OrderNumberPadded | core/models.py:40-42 | numbers 1 and 43 format as `ORD00001` and `ORD00043` |
| Integrity.OrderNumberGrows | core/models.py:40 | 100000 formats as `ORD100000`: the width grows, nothing is cut |
| Integrity.NumberValueExamples | core/models.py:37-38 | `ORD00042` reads as 42 and `ORD99999` as 99999 |
| Integrity.NumbersIncreaseAdd | core/models.py:35-43 | adding an order above every id, numbered above every number, keeps numbers increasing with id |
| Integrity.AllocatorExceedsAll | core/models.py:35-43 | when the store is valid, the allocator succeeds and its number exceeds every stored one |
| Integrity.CreateKeepsValid | core/serializers.py:39-45 | a validated create keeps the ids below the counter, the links resolving, and the numbers increasing |
| Integrity.UpdateKeepsValid | core/serializers.py:47-58 | a validated update keeps the invariant |
| Integrity.ReplaceKeepsValid | core/views.py:227-236 | the delete-and-reinsert of `put` keeps the invariant |
| Integrity.PostKeepsValid | core/views.py:173-216 | every outcome of `post` keeps the invariant |
| Integrity.PutKeepsValid | core/views.py:218-253 | every outcome of `put` keeps the invariant |
| Integrity.DeleteCustomerKeepsValid | core/models.py:29 | SET_NULL keeps the invariant |
| Integrity.DeleteOrderKeepsValid | core/models.py:47 | the order cascade keeps the invariant |
| Integrity.DeleteProductKeepsValid | core/models.py:48 | the product cascade keeps the invariant |
| Integrity.ApplyKeepsValid | core/models.py:33-49 | each write or delete, as written or atomic, keeps the invariant |
| Integrity.RunKeepsNumbersUnique | core/models.py:28-44 | in any sequential run of writes and deletions, no two orders share a number |
| Atomicity.PostAtomicKeepsCap | core/views.py:192-195 | the intended `post` never stores an order over 150 kg |
| Atomicity.PutAtomicKeepsCap | core/views.py:238-241 | the intended `put` never stores an order over 150 kg |
| Atomicity.DeleteCustomerKeepsCap | core/models.py:29 | clearing customer links keeps every order within the cap |
| Atomicity.DeleteOrderKeepsCap | core/models.py:47 | deleting an order keeps the others within the cap |
| Models.DropProduct | core/models.py:48 | an order's lines after a product is deleted: exactly the lines of other products |
| Models.LinesWithoutProduct | core/models.py:48 | the product cascade removes exactly that product's lines from each order, keeping the order of the rest |
| Atomicity.DeleteProductKeepsCap | core/models.py:48 | with non-negative weights, the product cascade never raises an order's total |
| Atomicity.ApplyAtomicKeepsCap | core/views.py:173-253 | every atomic write and every delete keeps all orders within the cap |
| Atomicity.RunAtomicKeepsCap | core/views.py:173-253 | with rollback on every rejection, no sequential run ever stores an order over 150 kg |
| Atomicity.PostOverWeightCommits | core/views.py:192-206 | on a valid store, a valid `post` over 150 kg answers over-weight yet stores a new order with the requested items, so the cap is broken |
| Atomicity.PostAtomicOverWeightRollsBack | core/views.py:192-208 | the intended `post` answers the same request over-weight and leaves the store as it was |
| Atomicity.PostWithinCapCreated | core/views.py:192-196 | a valid `post` of at most 150 kg, exactly 150 kg included, is created under the next id |
| Atomicity.PutOverWeightCommits | core/views.py:227-248 | a valid `put` over 150 kg on a numbered order answers over-weight and leaves every header, the address included, unchanged; yet the order's items are the new lines, so the cap is broken |
| Atomicity.PutAtomicOverWeightRollsBack | core/views.py:238-250 | the intended `put` answers the same request over-weight and leaves the store as it was |
| Atomicity.AnvilPostExample | core/views.py:185-195 | on a valid store holding one 25 kg product, 7 of it (175 kg) is a valid request over the cap, and 6 of it is exactly 150 kg |
| Atomicity.AnvilPutExample | core/views.py:226-241 | on a valid store where ORD00001 holds one 25 kg item, a move to a new address with 7 items is a valid request over the cap |

## Left out

- HTTP and DRF plumbing are reduced to a `Status`:
  - response bodies and messages are not modelled;
  - `get` returns the ids of the selected orders, without their serialized form (`OrderGetAllSerializer`).
- `CustomersAPIView`, `ProductAPIView` and the URL routes are not modelled. They are thin pass-throughs to a serializer.
- Email addresses and dates are not checked. `EmailField` and `DateField` belong to the framework. A `Date` is any triple of integers.
- Customer and product names are declared `unique=True`. Their serializers therefore refuse a duplicate name in `is_valid` with a 400, and `IntegrityError` arises only under a race. The customer and product endpoints are not modelled, so the store does not police these names, and nothing in the core relies on them.
- Concurrency is left out. Two parallel `post` calls can read the same last order and clash on `unique=True`. The model is sequential.
- Order of `get` results: the database returns the selected orders in no specified order. The model lists them by ascending id.
- Text.Parse: accepts ASCII digit runs only, whereas Python's `int(...)` also accepts a sign, surrounding whitespace, underscores and non-ASCII digits. Every number the allocator writes is such a run.
- Models.PhonePatternShape: uses ASCII digits only, whereas Python's `\d` also matches non-ASCII decimal digits.
- The `max_length=10` of `order_number` is not modelled. It would first bind at `ORD10000000`. Whether the database enforces it depends on the backend.
- Views.IsValid: the quantity bound `MaxQuantity` is 9223372036854775807, the `PositiveIntegerField` range Django's SQLite backend reports. The database settings are not part of this model. On PostgreSQL the bound is 2147483647, and on MySQL 4294967295.
- Bounds on the weight column are not modelled. Weights reach the model already in hundredths; parsing and rounding of decimal input are left out.
- Views.IsValid: whitespace trimming of the address by the serializer's `CharField` is not modelled. The 1 to 255 length check and the NUL-character check apply to the address as sent.
- A request body is empty only when all four order keys are absent. A body carrying only unknown keys cannot be written as an `OrderRequest`.
- Unknown products in `put`: `is_valid` already rejects an unknown product id, so through `Views.Put` that case is `Invalid` with the store unchanged. The lookup failure and `set_rollback` of the loop (core/views.py:232, 249-250) are stated on `Views.PutBody`, the body that runs after validation.
- Views.Get: for orders whose id is not below the id counter, the contract states only soundness (every listed order is selected), not completeness. Such orders do not exist under `Integrity.Valid`.

- Views.SumWeights: `Line.quantity` is the integer `is_valid` yields. The loop in core/views.py:187-191 multiplies by the raw `quantity` of the request body instead. The serializer's `IntegerField` also accepts a quantity sent as a string such as `"3"` or a float such as `3.0`; the multiplication then raises `TypeError`. That path is not modelled.
- Views.ReplaceLoop: the same raw-quantity `TypeError` in core/views.py:229-233 is not modelled; the loop is stated for integer quantities only.
- Views.Post: for a quantity sent as a string or float, the source answers 500 and rolls back (core/views.py:207-216), where the model answers created or over-weight and commits. Only integer quantities are modelled.
- Views.PutBody: for a quantity sent as a string or float, the source raises `TypeError` after the delete, answers 500 and rolls back (core/views.py:249-253). That path is not modelled.
- Views.Put: the same 500 with rollback for a quantity sent as a string or float is not modelled.
- Auto-increment counters: a rollback restores `nextOrder` and `nextItem` with the rest of the store, as on SQLite. On PostgreSQL or MySQL a rolled-back insert still consumes its id, so the next id skips one. The ids the model assigns after a rollback are those SQLite would assign.

## Findings

| source | as written | input that shows it | evidently intended | confidence | as-written member | corrected member |
|---|---|---|---|---|---|---|
| core/models.py:20 | `MinValueValidator(0.01)` compares the Decimal weight with the float 0.01. That float is 5764607523034235 / 2^59, slightly above 1/100, and Python compares a Decimal with a float exactly. | a product weight of 0.01 kg | 0.01 kg is accepted, as the help text and the 0.01–25.00 range say | high, not executed | Models.SmallestWeightRejected | Models.WeightValid |
| core/views.py:192-206 | The weight `ValidationError` is caught and answered with a 400 inside `transaction.atomic`. The view returns normally, so the order and its items commit. | a store with one 25 kg product, and a `post` of 7 of it (175 kg), as in `Atomicity.AnvilPostExample` | the rejected order leaves no rows | high, not executed | Atomicity.PostOverWeightCommits | Atomicity.PostAtomicKeepsCap |
| core/views.py:227-248 | The old items are deleted and the new ones inserted before the weight check. The caught `ValidationError` commits them, under the old header. | order ORD00001 with one 25 kg item, and a `put` of 7 of them (175 kg) to a new address, as in `Atomicity.AnvilPutExample` | the rejected replacement leaves the order as it was | high, not executed | Atomicity.PutOverWeightCommits | Atomicity.PutAtomicKeepsCap |

Each row's two halves:

- **Weight rule.** `Models.WeightAccepted` is the validator as written. `Models.WeightValid` is the corrected rule, and the store invariant `Integrity.Valid` uses it.
- **`post` and `put`.** `Views.Post` and `Views.Put` are as written. `Views.PostAtomic` and `Views.PutAtomic` are the corrected variants, which restore the snapshot on every rejection; `Atomicity.RunAtomicKeepsCap` holds for runs made of them.
