/**
 * One run of `buildCart()` (cart_drawer.js, lines 11-82): fetch the cart, swap in fresh drawer markup, restore
 * the checkbox from storage, reconcile shipping protection without asking for a rebuild, fetch the cart again
 * and, when it is empty, swap the markup once more, then count the lines of the first snapshot for the bubble.
 * Every fetch can fail; a failed `$.getJSON` never calls its callback, and a failed `await` throws out of it.
 */
module CartDrawer {
  import opened Wrappers
  import opened CartModel
  import opened BrowserStorage
  import opened ShippingProtection
  import opened CartCounts

  /** The counts of lines 40-46: the cart-count bubble and the true item count. */
  datatype Counts = Counts(bubble: int, trueItemCount: int)

  /** What the run ends with. `rebuildsAgain` is whether the reconcile asked for another `buildCart()`;
      `refetchHtml` is whether the second markup fetch of line 38 is made; `counts` is None when the callback
      stopped before the counts (a fetch that threw). */
  datatype BuildOutcome = BuildOutcome(protectionRequest: Option<Request>, rebuildsAgain: bool, refetchHtml: bool,
                                       counts: Option<Counts>)

  /** The run that does nothing: the cart fetch or the first markup fetch failed. */
  const Stopped := BuildOutcome(None, false, false, None)

  /** `buildCart()` at time `now`. The inputs are the outcomes of its calls, in order:
      `fetched`, the snapshot `/cart.js` returns (None when that fails);
      `markup`, whether the box is disabled in the drawer markup of the first refetch (None when it fails);
      `postSucceeds`, the outcome of the protection request, if one is posted;
      `latestItemCount`, the `item_count` of the second `/cart.js` fetch (None when it fails); and
      `emptyMarkup`, the box in the markup of the refetch for an empty cart (None when it fails). */
  method BuildCart(panel: ProtectionPanel, now: int, fetched: Option<Cart>, markup: Option<bool>, postSucceeds: bool,
                   latestItemCount: Option<int>, emptyMarkup: Option<bool>)
    returns (r: BuildOutcome)
    modifies panel, panel.storage
    ensures fetched.None? || markup.None? ==>
              r == Stopped && panel.checkboxDisabled == old(panel.checkboxDisabled)
              && panel.storage.entries == old(panel.storage.entries)
    ensures fetched.Some? && markup.Some? ==>
              var c := fetched.value;
              var o := OverrideActive(old(panel.storage.entries), now);
              var restored := markup.value || o;
              && r.protectionRequest == Plan(c, panel.dataId, !restored, panel.enabledDefault, o)
              && !r.rebuildsAgain
              && panel.storage.entries == AfterRead(old(panel.storage.entries), now)
              && (r.refetchHtml <==> latestItemCount == Some(0))
              && panel.checkboxDisabled == (if r.refetchHtml && emptyMarkup.Some? then emptyMarkup.value else restored)
              && r.counts == if latestItemCount.None? || (r.refetchHtml && emptyMarkup.None?) then None
                             else Some(Counts(BubbleCount(c.items), TrueItemCount(c.items)))
  {
    if fetched.None? || markup.None? {
      return Stopped;
    }
    var cart := fetched.value;
    ReadSettles(panel.storage.entries, now);
    panel.Rerender(markup.value);
    panel.ApplyStoredState(now);
    var request, rebuild := panel.UpdateShippingProtection(cart, true, now, postSucceeds);
    if latestItemCount.None? {
      return BuildOutcome(request, rebuild, false, None);
    }
    var refetch := latestItemCount.value == 0;
    if refetch {
      if emptyMarkup.None? {
        return BuildOutcome(request, rebuild, true, None);
      }
      panel.Rerender(emptyMarkup.value);
    }
    var filteredItemCount, trueItemCount := CountItems(cart.items);
    r := BuildOutcome(request, rebuild, refetch, Some(Counts(filteredItemCount, trueItemCount)));
  }
}
