/**
 * The shipping-protection reconciler of the cart drawer (cart_drawer.js, lines 188-304):
 * it decides whether the protection line should be at quantity 0 or 1 and posts at most
 * one `/cart/update.js` request to get there.
 */
module ShippingProtection {
  import opened Wrappers
  import opened CartModel
  import opened BrowserStorage

  /** `$('.cd__ship-prot').data('id')` is present and truthy. */
  predicate IdPresent(dataId: Option<int>) {
    dataId.Some? && dataId.value != 0
  }

  /** Line 207: no protection id, or an empty cart, and the pass does nothing. */
  predicate Skips(c: Cart, dataId: Option<int>) {
    !IdPresent(dataId) || c.itemCount == 0
  }

  /** Lines 219-236: the quantity the protection line should have, by the first rule that applies:
      the override, then a cart holding nothing else, then the checkbox or the default. */
  function TargetQuantity(overrideActive: bool, hasOtherItems: bool, checked: bool, enabledDefault: bool): (q: int)
    ensures q == 0 || q == 1
  {
    var shouldHaveProtection :=
      if overrideActive then false
      else if !hasOtherItems then false
      else if checked || enabledDefault then true
      else false;
    if shouldHaveProtection then 1 else 0
  }

  /** The request one pass of `updateShippingProtection` posts on snapshot `c`, if any. */
  function Plan(c: Cart, dataId: Option<int>, checked: bool, enabledDefault: bool, overrideActive: bool): Option<Request> {
    if Skips(c, dataId) then None
    else
      var id := dataId.value;
      var target := TargetQuantity(overrideActive, |Others(c.items, id)| > 0, checked, enabledDefault);
      if QuantityOf(c.items, id) != target then Some(Update(id, target)) else None
  }

  /** The rule order, written as one condition: protection is wanted exactly when no override is active,
      something else is in the cart, and the box is checked or protection is on by default. */
  lemma TargetPriority(overrideActive: bool, hasOtherItems: bool, checked: bool, enabledDefault: bool)
    ensures TargetQuantity(overrideActive, hasOtherItems, checked, enabledDefault) == 1
        <==> !overrideActive && hasOtherItems && (checked || enabledDefault)
    ensures overrideActive ==> TargetQuantity(overrideActive, hasOtherItems, checked, enabledDefault) == 0
    ensures !hasOtherItems ==> TargetQuantity(overrideActive, hasOtherItems, checked, enabledDefault) == 0
  {
  }

  /** A pass posts a request exactly when it does not skip and the current quantity differs from the target,
      and the request sets exactly the protection id to that target. */
  lemma PlanIssuesOnlyWhenNeeded(c: Cart, dataId: Option<int>, checked: bool, enabledDefault: bool, overrideActive: bool)
    ensures Skips(c, dataId) ==> Plan(c, dataId, checked, enabledDefault, overrideActive) == None
    ensures !Skips(c, dataId) ==>
      var target := TargetQuantity(overrideActive, |Others(c.items, dataId.value)| > 0, checked, enabledDefault);
      (Plan(c, dataId, checked, enabledDefault, overrideActive).Some? <==> QuantityOf(c.items, dataId.value) != target) &&
      (Plan(c, dataId, checked, enabledDefault, overrideActive).Some? ==>
         Plan(c, dataId, checked, enabledDefault, overrideActive) == Some(Update(dataId.value, target)))
  {
  }

  /** An active override removes protection, whatever the checkbox and the default say. */
  lemma OverrideWins(c: Cart, dataId: Option<int>, checked: bool, enabledDefault: bool)
    ensures Plan(c, dataId, checked, enabledDefault, true) == None
         || Plan(c, dataId, checked, enabledDefault, true) == Some(Update(dataId.value, 0))
  {
  }

  /** A cart whose only lines are protection lines, with any quantity, is stripped even when protection is on by default. */
  lemma LonelyProtectionRemoved(c: Cart, id: int, checked: bool, overrideActive: bool)
    requires id != 0 && c.itemCount != 0
    requires forall k :: 0 <= k < |c.items| ==> c.items[k].id == id
    requires |c.items| > 0 && c.items[0].quantity > 0
    ensures Plan(c, Some(id), checked, true, overrideActive) == Some(Update(id, 0))
  {
    OthersOfUniform(c.items, id);
    assert FirstWithId(c.items, id) == 0;
  }

  /** Reconciling twice converges: after the service applies the request of one pass, a second pass on the
      new snapshot, reading the store the first read left behind at the same time, posts nothing. */
  lemma ReconcileIdempotent(c: Cart, id: int, checked: bool, enabledDefault: bool, m: Store, now: int)
    requires id != 0
    ensures
      var first := Plan(c, Some(id), checked, enabledDefault, OverrideActive(m, now));
      var next := if first.Some? then ApplyUpdate(c, id, first.value.updateQuantity) else c;
      Plan(next, Some(id), checked, enabledDefault, OverrideActive(AfterRead(m, now), now)) == None
  {
    ReadSettles(m, now);
    var o := OverrideActive(m, now);
    var first := Plan(c, Some(id), checked, enabledDefault, o);
    if first.Some? {
      var target := first.value.updateQuantity;
      ApplyUpdateReaches(c, id, target);
    }
  }

  /** The scenario of a cart with two other lines and no protection line, the box unchecked, protection off
      by default and no override: nothing is posted. */
  lemma NothingToDoScenario(a: LineItem, b: LineItem, id: int)
    requires id != 0 && a.id != id && b.id != id && a.quantity + b.quantity > 0
    ensures Plan(Cart([a, b], a.quantity + b.quantity, []), Some(id), false, false, false) == None
  {
    var items := [a, b];
    assert FirstWithId(items, id) == 2;
  }

  /** The checkbox and reconciler of the cart drawer: the checkbox state (`.cd__ship-prot-checking.disabled`),
      the static configuration read from the markup, and the browser storage holding the override. */
  class ProtectionPanel {
    const dataId: Option<int>
    const enabledDefault: bool
    const storage: LocalStorage
    var checkboxDisabled: bool

    /** The document-ready handler (lines 277-289): the box starts unchecked when protection is off by default
        or an override is active. */
    constructor (dataId: Option<int>, enabledDefault: bool, storage: LocalStorage, disabledInMarkup: bool, now: int)
      modifies storage
      ensures this.dataId == dataId && this.enabledDefault == enabledDefault && this.storage == storage
      ensures checkboxDisabled == (disabledInMarkup || !enabledDefault || OverrideActive(old(storage.entries), now))
      ensures storage.entries == AfterRead(old(storage.entries), now)
    {
      this.dataId := dataId;
      this.enabledDefault := enabledDefault;
      this.storage := storage;
      var disabled := disabledInMarkup;
      if !enabledDefault {
        disabled := true;
      }
      var overridden := storage.IsProtectionDisabled(now);
      if overridden {
        disabled := true;
      }
      checkboxDisabled := disabled;
    }

    /** `applyShippingProtectionState()` (lines 299-303): an active override unchecks the box. */
    method ApplyStoredState(now: int)
      modifies this, storage
      ensures checkboxDisabled == (old(checkboxDisabled) || OverrideActive(old(storage.entries), now))
      ensures storage.entries == AfterRead(old(storage.entries), now)
    {
      var overridden := storage.IsProtectionDisabled(now);
      if overridden {
        checkboxDisabled := true;
      }
    }

    /** A markup swap of the drawer (`refetchCartHtml`, lines 21-25) renders the box as the new markup has it. */
    method Rerender(disabledInMarkup: bool)
      modifies this
      ensures checkboxDisabled == disabledInMarkup
    {
      checkboxDisabled := disabledInMarkup;
    }

    /** Removing protection from the cart page (lines 292-296) unchecks the box and writes the override. */
    method RemovedOnCartPage(now: int)
      modifies this, storage
      ensures checkboxDisabled
      ensures storage.entries == old(storage.entries)[ProtectionKey := DisabledEntry(now)]
    {
      checkboxDisabled := true;
      storage.SetProtectionDisabled(now);
    }

    /** `updateShippingProtection(cart, dontBuildCart)` (lines 204-252) on snapshot `c` at time `now`;
        `postSucceeds` is the outcome of the request, if one is posted. The returned promise always resolves:
        the method always returns. `rebuild` says whether `buildCart()` follows. */
    method UpdateShippingProtection(c: Cart, dontBuildCart: bool, now: int, postSucceeds: bool)
      returns (request: Option<Request>, rebuild: bool)
      modifies storage
      ensures request == Plan(c, dataId, !checkboxDisabled, enabledDefault, OverrideActive(old(storage.entries), now))
      ensures rebuild <==> request.Some? && postSucceeds && !dontBuildCart
      ensures storage.entries == if Skips(c, dataId) then old(storage.entries) else AfterRead(old(storage.entries), now)
    {
      if !IdPresent(dataId) || c.itemCount == 0 {
        return None, false;
      }
      var id := dataId.value;
      var hasOtherItems := |Others(c.items, id)| > 0;
      var isChecked := !checkboxDisabled;
      var shouldBeDisabled := storage.IsProtectionDisabled(now);

      var shouldHaveProtection := false;
      if shouldBeDisabled {
        shouldHaveProtection := false;
      } else if !hasOtherItems {
        shouldHaveProtection := false;
      } else if isChecked || enabledDefault {
        shouldHaveProtection := true;
      } else {
        shouldHaveProtection := false;
      }

      var currentQty := QuantityOf(c.items, id);
      var targetQty := if shouldHaveProtection then 1 else 0;
      if currentQty != targetQty {
        request := Some(Update(id, targetQty));
        rebuild := postSucceeds && !dontBuildCart;
      } else {
        request, rebuild := None, false;
      }
    }

    /** The checkbox click handler (lines 188-202): flip the box, write the override when protection is
        switched off at `now` and delete it when switched back on, then fetch the cart (`fetchOk` is whether that
        succeeds) and reconcile the snapshot `c` it returns at time `later`, with a rebuild allowed. A failed
        fetch never calls its callback: nothing is reconciled. */
    method Toggle(now: int, fetchOk: bool, c: Cart, later: int, postSucceeds: bool) returns (request: Option<Request>, rebuild: bool)
      modifies this, storage
      ensures checkboxDisabled == !old(checkboxDisabled)
      ensures
        var written := if !old(checkboxDisabled) then old(storage.entries)[ProtectionKey := DisabledEntry(now)]
                       else old(storage.entries) - {ProtectionKey};
        && request == (if fetchOk then Plan(c, dataId, old(checkboxDisabled), enabledDefault, OverrideActive(written, later)) else None)
        && storage.entries == if !fetchOk || Skips(c, dataId) then written else AfterRead(written, later)
      ensures rebuild <==> request.Some? && postSucceeds
    {
      var isDisabled := checkboxDisabled;
      checkboxDisabled := !checkboxDisabled;
      if !isDisabled {
        storage.SetProtectionDisabled(now);
      } else {
        storage.RemoveItem(ProtectionKey);
      }
      if fetchOk {
        request, rebuild := UpdateShippingProtection(c, false, later, postSucceeds);
      } else {
        request, rebuild := None, false;
      }
    }
  }

  /** Switching protection off makes every pass within the next hour post nothing or the removal of the
      protection line, whatever the default says, and switching it on removes the override entirely. */
  lemma ToggleOffHoldsForAnHour(m: Store, c: Cart, id: int, enabledDefault: bool, now: int, later: int)
    requires now <= later < now + OverrideLifetimeMs
    ensures OverrideActive(m[ProtectionKey := DisabledEntry(now)], later)
    ensures !OverrideActive(m - {ProtectionKey}, later)
    ensures var p := Plan(c, Some(id), false, enabledDefault, OverrideActive(m[ProtectionKey := DisabledEntry(now)], later));
            p == None || p == Some(Update(id, 0))
  {
    WrittenOverrideExpires(m, now, later);
  }
}
