/**
 * The cart snapshot the storefront reads from `/cart.js`, the requests it posts back,
 * and a reference semantics of the cart service that the reconciliation lemmas use.
 */
module CartModel {
  import opened Wrappers

  /** One line of a cart snapshot (an element of `cart.items`). */
  datatype LineItem = LineItem(
    id: int,                    // variant id: the key every cart mutation targets
    productId: int,
    quantity: int,
    finalLinePrice: int,        // cents, after line-level discounts
    variantOptions: seq<string>,
    sellingPlanId: Option<int>) // `selling_plan_allocation.selling_plan_id`; None when the line has no allocation

  /** A cart snapshot: its lines, `item_count`, and the `total_allocated_amount` of each cart-level discount. */
  datatype Cart = Cart(items: seq<LineItem>, itemCount: int, discountAmounts: seq<int>)

  /** A request posted to the cart service, in the order the storefront posts them. */
  datatype Request =
    | Update(updateId: int, updateQuantity: int)                          // /cart/update.js { updates: { [id]: q } }
    | Change(changeId: int, changeQuantity: int, changePlan: Option<int>) // /cart/change.js { id, quantity, selling_plan }
    | Add(addId: int, addQuantity: int, addPlan: Option<int>)             // /cart/add.js with a single item

  predicate HasId(items: seq<LineItem>, id: int) {
    exists k :: 0 <= k < |items| && items[k].id == id
  }

  /** Index of the first line whose variant id is `id` (what `items.find(item => item.id == id)` returns), or `|items|`. */
  function FirstWithId(items: seq<LineItem>, id: int): (k: nat)
    ensures k <= |items|
    ensures k < |items| ==> items[k].id == id
    ensures forall j :: 0 <= j < k ==> items[j].id != id
  {
    if items == [] then 0
    else if items[0].id == id then 0
    else 1 + FirstWithId(items[1..], id)
  }

  /** The quantity of the first line with variant id `id`, 0 when there is none (`line?.quantity || 0`). */
  function QuantityOf(items: seq<LineItem>, id: int): int {
    var k := FirstWithId(items, id);
    if k < |items| then items[k].quantity else 0
  }

  /** The lines whose variant id is not `id`, in order (`items.filter(item => item.id != id)`). */
  function Others(items: seq<LineItem>, id: int): (r: seq<LineItem>)
    ensures |r| <= |items|
    ensures forall j :: 0 <= j < |r| ==> r[j].id != id && r[j] in items
    ensures forall k :: 0 <= k < |items| && items[k].id != id ==> items[k] in r
    ensures |r| == |items| <==> !HasId(items, id)
  {
    if items == [] then []
    else if items[0].id == id then Others(items[1..], id)
    else [items[0]] + Others(items[1..], id)
  }

  /** Total units over the lines: what the service reports as `item_count`. */
  function TotalQuantity(items: seq<LineItem>): int {
    if items == [] then 0 else items[0].quantity + TotalQuantity(items[1..])
  }

  // ---------------------------------------------------------------------------
  // Reference semantics of the cart service. The service is not part of the
  // storefront's code; these functions state what the lemmas take it to do.
  // ---------------------------------------------------------------------------

  /** Every line with variant id `id` set to quantity `q` (and to plan `plan` when one is given). */
  function SetQuantity(items: seq<LineItem>, id: int, q: int, plan: Option<int>): (r: seq<LineItem>)
    ensures |r| == |items|
    ensures forall j :: 0 <= j < |r| ==> r[j].id == items[j].id
  {
    if items == [] then []
    else
      var head := if items[0].id == id then items[0].(quantity := q, sellingPlanId := if plan.Some? then plan else items[0].sellingPlanId) else items[0];
      [head] + SetQuantity(items[1..], id, q, plan)
  }

  /** A line the service creates for variant `id` with `q` units under `plan`. Its catalogue fields (product,
      price, options) are not known to the model and are zero. */
  function NewLine(id: int, q: int, plan: Option<int>): LineItem {
    LineItem(id, 0, q, 0, [], plan)
  }

  /** `/cart/update.js { updates: { [id]: q } }` on the lines: quantity 0 drops the lines, otherwise they are set
      to `q`, and a missing line is created. */
  function UpdateLines(items: seq<LineItem>, id: int, q: int): seq<LineItem> {
    if q == 0 then Others(items, id)
    else if HasId(items, id) then SetQuantity(items, id, q, None)
    else items + [NewLine(id, q, None)]
  }

  /** The cart snapshot after `/cart/update.js`: the new lines and their `item_count`. */
  function ApplyUpdate(c: Cart, id: int, q: int): (r: Cart)
    ensures r.items == UpdateLines(c.items, id, q) && r.itemCount == TotalQuantity(r.items)
  {
    var items := UpdateLines(c.items, id, q);
    Cart(items, TotalQuantity(items), c.discountAmounts)
  }

  /** `/cart/change.js { id, quantity, selling_plan }`: quantity 0 drops the lines, otherwise they are set to `q`;
      an id that is not in the cart changes nothing. */
  function ApplyChange(items: seq<LineItem>, id: int, q: int, plan: Option<int>): seq<LineItem> {
    if q == 0 then Others(items, id) else SetQuantity(items, id, q, plan)
  }

  /** Whether line `line` can absorb an add of variant `id` under plan `plan`. */
  predicate SameVariantAndPlan(line: LineItem, id: int, plan: Option<int>) {
    line.id == id && line.sellingPlanId == plan
  }

  /** `/cart/add.js { id, quantity, selling_plan }`: a positive quantity merges into a line of the same variant
      and plan, or else appends a new line whose catalogue fields the model does not know (zero). */
  function ApplyAdd(items: seq<LineItem>, id: int, q: int, plan: Option<int>): seq<LineItem> {
    if q <= 0 then items
    else if exists k :: 0 <= k < |items| && SameVariantAndPlan(items[k], id, plan) then
      seq(|items|, k requires 0 <= k < |items| =>
        if SameVariantAndPlan(items[k], id, plan) then items[k].(quantity := items[k].quantity + q) else items[k])
    else items + [NewLine(id, q, plan)]
  }

  // ---------------------------------------------------------------------------
  // Facts about lines and the reference semantics.
  // ---------------------------------------------------------------------------

  lemma {:induction false} FirstWithIdFound(items: seq<LineItem>, id: int)
    ensures FirstWithId(items, id) < |items| <==> HasId(items, id)
  {
    if items != [] && items[0].id != id {
      FirstWithIdFound(items[1..], id);
      if HasId(items, id) {
        var k :| 0 <= k < |items| && items[k].id == id;
        assert items[1..][k - 1].id == id;
      }
      if HasId(items[1..], id) {
        var k :| 0 <= k < |items[1..]| && items[1..][k].id == id;
        assert items[k + 1].id == id;
      }
    }
  }

  lemma {:induction false} OthersHasNoId(items: seq<LineItem>, id: int)
    ensures !HasId(Others(items, id), id)
    ensures QuantityOf(Others(items, id), id) == 0
  {
    FirstWithIdFound(Others(items, id), id);
  }

  /** Removing the lines of `id` keeps exactly the other lines: filtering twice is filtering once. */
  lemma {:induction false} OthersIdempotent(items: seq<LineItem>, id: int)
    ensures Others(Others(items, id), id) == Others(items, id)
  {
    if items != [] {
      OthersIdempotent(items[1..], id);
      if items[0].id != id {
        assert ([items[0]] + Others(items[1..], id))[1..] == Others(items[1..], id);
      }
    }
  }

  lemma {:induction false} TotalQuantityAppend(a: seq<LineItem>, b: seq<LineItem>)
    ensures TotalQuantity(a + b) == TotalQuantity(a) + TotalQuantity(b)
  {
    if a == [] {
      assert a + b == b;
    } else {
      assert (a + b)[1..] == a[1..] + b;
      TotalQuantityAppend(a[1..], b);
    }
  }

  /** A cart whose every line has variant id `id` has no other lines. */
  lemma {:induction false} OthersOfUniform(items: seq<LineItem>, id: int)
    requires forall k :: 0 <= k < |items| ==> items[k].id == id
    ensures Others(items, id) == []
  {
    if items != [] {
      assert items[0].id == id;
      OthersOfUniform(items[1..], id);
    }
  }

  /** The filter works line by line: the lines it keeps stay in their order. */
  lemma {:induction false} OthersAppend(a: seq<LineItem>, b: seq<LineItem>, id: int)
    ensures Others(a + b, id) == Others(a, id) + Others(b, id)
  {
    if a == [] {
      assert a + b == b;
    } else {
      assert (a + b)[0] == a[0];
      assert (a + b)[1..] == a[1..] + b;
      OthersAppend(a[1..], b, id);
    }
  }

  /** Setting the quantity of `id` leaves every other line where it was. */
  lemma {:induction false} SetQuantityKeepsOthers(items: seq<LineItem>, id: int, q: int, plan: Option<int>)
    ensures Others(SetQuantity(items, id, q, plan), id) == Others(items, id)
  {
    if items != [] {
      SetQuantityKeepsOthers(items[1..], id, q, plan);
      var r := SetQuantity(items, id, q, plan);
      assert r[1..] == SetQuantity(items[1..], id, q, plan);
    }
  }

  /** A first line of another variant does not change which quantity is read. */
  lemma QuantityOfTail(items: seq<LineItem>, id: int)
    requires items != [] && items[0].id != id
    ensures QuantityOf(items, id) == QuantityOf(items[1..], id)
  {
    assert FirstWithId(items, id) == 1 + FirstWithId(items[1..], id);
  }

  /** Setting the quantity of `id` on a cart that has such a line makes that quantity `q`. */
  lemma {:induction false} SetQuantityReaches(items: seq<LineItem>, id: int, q: int, plan: Option<int>)
    requires HasId(items, id)
    ensures QuantityOf(SetQuantity(items, id, q, plan), id) == q
  {
    var r := SetQuantity(items, id, q, plan);
    if items[0].id != id {
      assert HasId(items[1..], id) by {
        var k :| 0 <= k < |items| && items[k].id == id;
        assert items[1..][k - 1].id == id;
      }
      SetQuantityReaches(items[1..], id, q, plan);
      assert r[1..] == SetQuantity(items[1..], id, q, plan);
      QuantityOfTail(r, id);
    } else {
      assert r[0].id == id && r[0].quantity == q;
      assert FirstWithId(r, id) == 0;
    }
  }

  /** The reference `/cart/update.js` makes the quantity of `id` exactly `q` (for `q >= 0`) and touches no other line. */
  lemma {:induction false} ApplyUpdateReaches(c: Cart, id: int, q: int)
    requires q >= 0
    ensures QuantityOf(ApplyUpdate(c, id, q).items, id) == q
    ensures Others(ApplyUpdate(c, id, q).items, id) == Others(c.items, id)
  {
    if q == 0 {
      OthersHasNoId(c.items, id);
      OthersIdempotent(c.items, id);
    } else if HasId(c.items, id) {
      SetQuantityReaches(c.items, id, q, None);
      SetQuantityKeepsOthers(c.items, id, q, None);
    } else {
      var line := NewLine(id, q, None);
      var s := c.items + [line];
      forall j | 0 <= j < |c.items| ensures s[j].id != id {
        assert s[j] == c.items[j];
      }
      assert s[|c.items|].id == id;
      assert FirstWithId(s, id) == |c.items|;
      OthersAppend(c.items, [line], id);
      assert Others([line], id) == [];
    }
  }
}
