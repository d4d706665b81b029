/**
 * The cart mutations the drawer's buttons perform (cart_drawer.js): the quantity buttons
 * (`updateCartQuantity`, lines 87-115) and the subscription upgrade (lines 130-162), posted
 * against a cart service whose effect is the reference semantics of CartModel.
 */
module CartMutations {
  import opened Wrappers
  import opened CartModel

  /** The three quantity buttons of a drawer line. */
  datatype QuantityAction = Plus | Minus | Remove

  /** Lines 91-94: the quantity posted for a line showing quantity `shown`. */
  function QuantityAfter(action: QuantityAction, shown: int): int {
    match action
    case Plus => shown + 1
    case Minus => shown - 1
    case Remove => 0
  }

  /** The effect of one posted request on the service's lines, when the service accepts it. */
  function Applied(items: seq<LineItem>, r: Request): seq<LineItem> {
    match r
    case Update(id, q) => UpdateLines(items, id, q)
    case Change(id, q, plan) => ApplyChange(items, id, q, plan)
    case Add(id, q, plan) => ApplyAdd(items, id, q, plan)
  }

  /** Lines 141-142: a line that the upgrade treats as the upgrade variant already in the cart: the same variant,
      and either no selling plan or the plan of the button. */
  predicate UpgradeTargetPresent(items: seq<LineItem>, addId: int, plan: Option<int>) {
    exists k :: 0 <= k < |items| && items[k].id == addId && (items[k].sellingPlanId.None? || items[k].sellingPlanId == plan)
  }

  /** `r` is a change or an add of variant `id` to exactly `q` units under `plan`. */
  predicate Targets(r: Request, id: int, q: int, plan: Option<int>) {
    r == Change(id, q, plan) || r == Add(id, q, plan)
  }

  /** What one click of the upgrade button ends with: the requests posted, in order, the lines the service
      holds afterwards, and whether `buildCart()` runs. */
  datatype Outcome = Outcome(requests: seq<Request>, items: seq<LineItem>, rebuild: bool)

  /** The second request of the upgrade, chosen on the cart fetched after the removal. */
  function UpgradeRequest(fetched: seq<LineItem>, addId: int, qty: int, plan: Option<int>): Request {
    if UpgradeTargetPresent(fetched, addId, plan) then Change(addId, qty, plan) else Add(addId, qty, plan)
  }

  /** The upgrade (lines 130-162) on the service's lines `items`: remove `removeId`, fetch the cart, then set or add
      `addId` at `qty`. `removeOk`, `fetchOk` and `lastOk` are the outcomes of the three calls; a failed call throws,
      which skips the rest of the `try` block. */
  function UpgradeRun(items: seq<LineItem>, removeId: int, addId: int, qty: int, plan: Option<int>,
                      removeOk: bool, fetchOk: bool, lastOk: bool): Outcome {
    var removal := Change(removeId, 0, None);
    if !removeOk then Outcome([removal], items, false)
    else
      var fetched := Applied(items, removal);
      if !fetchOk then Outcome([removal], fetched, false)
      else
        var second := UpgradeRequest(fetched, addId, qty, plan);
        Outcome([removal, second], if lastOk then Applied(fetched, second) else fetched, lastOk)
  }

  /** What runs around a `postToCart`: the loading callback, then on success the success callback or, without one,
      `openSlideCart(); buildCart()`, and on failure the failure callback and the alert. */
  datatype FollowUp = FollowUp(loading: bool, successCallback: bool, openAndRebuild: bool, failCallback: bool, alert: bool)

  /** The continuations of `postToCart` for the outcome `accepted` and the callbacks given. */
  function PostFollowUp(accepted: bool, hasSuccess: bool, hasLoading: bool, hasFail: bool): FollowUp {
    if accepted then FollowUp(hasLoading, hasSuccess, !hasSuccess, false, false)
    else FollowUp(hasLoading, false, false, hasFail, true)
  }

  /** After a `postToCart` exactly one of three things happens: the success callback, the default of opening the
      drawer and rebuilding it, or the alert, and the alert exactly when the post fails. The failure callback runs
      only beside the alert and only when given; the loading callback runs exactly when given, whatever the outcome. */
  lemma PostFollowUpExactlyOne(accepted: bool, hasSuccess: bool, hasLoading: bool, hasFail: bool)
    ensures var f := PostFollowUp(accepted, hasSuccess, hasLoading, hasFail);
            && (if f.successCallback then 1 else 0) + (if f.openAndRebuild then 1 else 0) + (if f.alert then 1 else 0) == 1
            && (f.alert <==> !accepted)
            && (f.successCallback <==> accepted && hasSuccess)
            && (f.failCallback <==> f.alert && hasFail)
            && f.loading == hasLoading
  {
  }

  /** The drawer's side of the cart service: the requests posted so far and the lines the service holds. */
  class CartConnection {
    var items: seq<LineItem>
    var posted: seq<Request>

    constructor (items: seq<LineItem>)
      ensures this.items == items && posted == []
    {
      this.items := items;
      posted := [];
    }

    /** One `$.post` of `r`; the service applies it when `accepted`. */
    method Post(r: Request, accepted: bool)
      modifies this
      ensures posted == old(posted) + [r]
      ensures items == if accepted then Applied(old(items), r) else old(items)
    {
      posted := posted + [r];
      if accepted {
        items := Applied(items, r);
      }
    }

    /** `postToCart([{ id, quantity }], successCallback, loadingCallback, failCallback)` (lines 3-8) with a single
        item, where `hasSuccess`, `hasLoading` and `hasFail` say which callbacks are given and `accepted` is the
        outcome of the `/cart/add.js` request. `f` says what runs after the post. */
    method PostToCart(id: int, quantity: int, hasSuccess: bool, hasLoading: bool, hasFail: bool, accepted: bool)
      returns (f: FollowUp)
      modifies this
      ensures posted == old(posted) + [Add(id, quantity, None)]
      ensures items == if accepted then ApplyAdd(old(items), id, quantity, None) else old(items)
      ensures f == PostFollowUp(accepted, hasSuccess, hasLoading, hasFail)
    {
      var loading := false;
      if hasLoading {
        loading := true;
      }
      Post(Add(id, quantity, None), accepted);
      if accepted {
        f := FollowUp(loading, hasSuccess, !hasSuccess, false, false);
      } else {
        f := FollowUp(loading, false, false, hasFail, true);
      }
    }

    /** `updateCartQuantity(action, element)` on the line with variant id `lineId` that shows `shown`;
        `accepted` is the outcome of the request. `rebuild` says whether `buildCart()` follows. */
    method UpdateCartQuantity(action: QuantityAction, lineId: int, shown: int, accepted: bool) returns (rebuild: bool)
      modifies this
      ensures posted == old(posted) + [Change(lineId, QuantityAfter(action, shown), None)]
      ensures items == if accepted then ApplyChange(old(items), lineId, QuantityAfter(action, shown), None) else old(items)
      ensures rebuild == accepted
    {
      var quantity := shown;
      match action {
        case Plus => quantity := quantity + 1;
        case Minus => quantity := quantity - 1;
        case Remove => quantity := 0;
      }
      Post(Change(lineId, quantity, None), accepted);
      rebuild := accepted;
    }

    /** The click handler of `.cd__item-upgrade-sub` (lines 130-162). `existingQty` is read from the button and
        not used. */
    method UpgradeSubscription(removeId: int, addId: int, currentQty: int, existingQty: int, sellingPlan: Option<int>,
                               removeOk: bool, fetchOk: bool, lastOk: bool) returns (rebuild: bool)
      modifies this
      ensures var o := UpgradeRun(old(items), removeId, addId, currentQty, sellingPlan, removeOk, fetchOk, lastOk);
              posted == old(posted) + o.requests && items == o.items && rebuild == o.rebuild
    {
      Post(Change(removeId, 0, None), removeOk);
      if !removeOk {
        return false;
      }
      var totalQty := currentQty;
      if !fetchOk {
        return false;
      }
      var cart := items;
      if UpgradeTargetPresent(cart, addId, sellingPlan) {
        Post(Change(addId, totalQty, sellingPlan), lastOk);
      } else {
        Post(Add(addId, totalQty, sellingPlan), lastOk);
      }
      rebuild := lastOk;
    }
  }

  // ---------------------------------------------------------------------------
  // What the mutations do to the cart
  // ---------------------------------------------------------------------------

  /** Setting the quantity of `id` sets exactly the lines of `id`, and the plan only when one is given. */
  lemma {:induction false} SetQuantityPointwise(items: seq<LineItem>, id: int, q: int, plan: Option<int>, k: nat)
    requires k < |items|
    ensures var r := SetQuantity(items, id, q, plan);
            && (items[k].id == id ==> r[k].quantity == q && r[k].sellingPlanId == (if plan.Some? then plan else items[k].sellingPlanId))
            && (items[k].id != id ==> r[k] == items[k])
  {
    if k > 0 {
      SetQuantityPointwise(items[1..], id, q, plan, k - 1);
      assert SetQuantity(items, id, q, plan)[1..] == SetQuantity(items[1..], id, q, plan);
    }
  }

  /** Setting quantities does not move variant ids: the same variants are in the cart before and after. */
  lemma SetQuantityKeepsIds(items: seq<LineItem>, id: int, q: int, plan: Option<int>, other: int)
    ensures HasId(SetQuantity(items, id, q, plan), other) <==> HasId(items, other)
  {
    var r := SetQuantity(items, id, q, plan);
    if HasId(items, other) {
      var k :| 0 <= k < |items| && items[k].id == other;
      assert r[k].id == other;
    }
    if HasId(r, other) {
      var k :| 0 <= k < |r| && r[k].id == other;
      assert items[k].id == other;
    }
  }

  /** On a line the service holds with quantity `shown` (at least 1), the plus button adds one unit, the minus button
      takes one away and drops the line at 1, the remove button drops it, and no other line changes. */
  lemma QuantityButtonsMoveOneLine(items: seq<LineItem>, id: int, shown: int, action: QuantityAction)
    requires HasId(items, id) && QuantityOf(items, id) == shown && shown >= 1
    ensures var after := ApplyChange(items, id, QuantityAfter(action, shown), None);
            && Others(after, id) == Others(items, id)
            && (action == Plus ==> QuantityOf(after, id) == QuantityOf(items, id) + 1)
            && (action == Minus && shown > 1 ==> QuantityOf(after, id) == QuantityOf(items, id) - 1)
            && (action == Remove || (action == Minus && shown == 1) ==> !HasId(after, id))
  {
    var q := QuantityAfter(action, shown);
    if q == 0 {
      OthersHasNoId(items, id);
      OthersIdempotent(items, id);
    } else {
      SetQuantityReaches(items, id, q, None);
      SetQuantityKeepsOthers(items, id, q, None);
    }
  }

  /** A failed removal posts nothing more and leaves the cart as it was; a failed fetch stops after the removal;
      `buildCart()` runs exactly when all three calls succeed; and the second request always carries exactly
      `qty`, never `qty` plus what the cart already holds. */
  lemma UpgradeFailureHandling(items: seq<LineItem>, removeId: int, addId: int, qty: int, plan: Option<int>,
                               removeOk: bool, fetchOk: bool, lastOk: bool)
    ensures var o := UpgradeRun(items, removeId, addId, qty, plan, removeOk, fetchOk, lastOk);
            && o.requests[0] == Change(removeId, 0, None)
            && (!removeOk ==> o.requests == [Change(removeId, 0, None)] && o.items == items)
            && (|o.requests| == 2 <==> removeOk && fetchOk)
            && (|o.requests| == 2 ==> Targets(o.requests[1], addId, qty, plan))
            && (o.rebuild <==> removeOk && fetchOk && lastOk)
  {
  }

  /** An accepted add merges into a line of the same variant and plan, or else appends one line holding `q`. */
  lemma ApplyAddAppends(items: seq<LineItem>, id: int, q: int, plan: Option<int>)
    requires q > 0 && forall k :: 0 <= k < |items| ==> !SameVariantAndPlan(items[k], id, plan)
    ensures ApplyAdd(items, id, q, plan) == items + [NewLine(id, q, plan)]
  {
  }

  /** The second call when a line of the upgrade variant fits the plan: the quantities of that variant become `qty`. */
  lemma UpgradeMergesIntoPresent(fetched: seq<LineItem>, removeId: int, addId: int, qty: int, plan: Option<int>)
    requires !HasId(fetched, removeId) && UpgradeTargetPresent(fetched, addId, plan)
    ensures var r := SetQuantity(fetched, addId, qty, plan);
            && !HasId(r, removeId)
            && (exists k :: 0 <= k < |r| && r[k].id == addId && r[k].quantity == qty
                 && (plan.Some? ==> r[k].sellingPlanId == plan))
            && forall k :: 0 <= k < |r| && r[k].id == addId ==> r[k].quantity == qty
  {
    var r := SetQuantity(fetched, addId, qty, plan);
    SetQuantityKeepsIds(fetched, addId, qty, plan, removeId);
    var k :| 0 <= k < |fetched| && fetched[k].id == addId && (fetched[k].sellingPlanId.None? || fetched[k].sellingPlanId == plan);
    SetQuantityPointwise(fetched, addId, qty, plan, k);
    forall j | 0 <= j < |r| && r[j].id == addId
      ensures r[j].quantity == qty
    {
      SetQuantityPointwise(fetched, addId, qty, plan, j);
    }
  }

  /** The second call when no line fits: one new line of the upgrade variant holding `qty` is appended. */
  lemma UpgradeAppendsWhenAbsent(fetched: seq<LineItem>, removeId: int, addId: int, qty: int, plan: Option<int>)
    requires removeId != addId && qty > 0
    requires !HasId(fetched, removeId) && !UpgradeTargetPresent(fetched, addId, plan)
    ensures var r := ApplyAdd(fetched, addId, qty, plan);
            && !HasId(r, removeId)
            && (exists k :: 0 <= k < |r| && r[k].id == addId && r[k].quantity == qty
                 && (plan.Some? ==> r[k].sellingPlanId == plan))
  {
    forall k | 0 <= k < |fetched| ensures !SameVariantAndPlan(fetched[k], addId, plan) {
    }
    ApplyAddAppends(fetched, addId, qty, plan);
    var line := NewLine(addId, qty, plan);
    var r := fetched + [line];
    assert r[|fetched|] == line;
    forall k | 0 <= k < |r| ensures r[k].id != removeId {
      if k < |fetched| {
        assert r[k] == fetched[k];
      }
    }
  }

  /** When all three calls succeed, the upgrade variant is in the cart at exactly `qty` under the button's plan,
      and the old variant is gone when the two differ; when a matching line was already there, every line of
      that variant now holds exactly `qty`: the quantity is replaced, not added to. With the same variant on both
      sides (lines 133-134 allow it) the line is moved under the plan at `qty`. */
  lemma UpgradeReplacesVariant(items: seq<LineItem>, removeId: int, addId: int, qty: int, plan: Option<int>)
    requires qty > 0
    ensures var o := UpgradeRun(items, removeId, addId, qty, plan, true, true, true);
            && (removeId != addId ==> !HasId(o.items, removeId))
            && (exists k :: 0 <= k < |o.items| && o.items[k].id == addId && o.items[k].quantity == qty
                 && (plan.Some? ==> o.items[k].sellingPlanId == plan))
            && (UpgradeTargetPresent(Others(items, removeId), addId, plan) ==>
                 forall k :: 0 <= k < |o.items| && o.items[k].id == addId ==> o.items[k].quantity == qty)
  {
    var fetched := Others(items, removeId);
    OthersHasNoId(items, removeId);
    var o := UpgradeRun(items, removeId, addId, qty, plan, true, true, true);
    if UpgradeTargetPresent(fetched, addId, plan) {
      assert o.items == SetQuantity(fetched, addId, qty, plan);
      UpgradeMergesIntoPresent(fetched, removeId, addId, qty, plan);
    } else if removeId != addId {
      assert o.items == ApplyAdd(fetched, addId, qty, plan);
      UpgradeAppendsWhenAbsent(fetched, removeId, addId, qty, plan);
    } else {
      forall k | 0 <= k < |fetched| ensures !SameVariantAndPlan(fetched[k], addId, plan) {
      }
      ApplyAddAppends(fetched, addId, qty, plan);
      assert o.items[|fetched|] == NewLine(addId, qty, plan);
    }
  }
}
