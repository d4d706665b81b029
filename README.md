# Storefront cart drawer and sitewide widgets, modelled in Dafny

This project models the decision logic in the browser code of a Shopify storefront theme. It proves properties of that logic. Two script files are covered.

`assets/cart_drawer.js` runs the slide-out cart:
- the shipping-protection reconciler. It keeps a protection line at quantity 0 or 1 from a fixed rule order. A one-hour "switched off" override is kept in `localStorage`;
- the discount and free-gift progress bar. It computes the cart total in cents and walks the ordered thresholds to set the fill percentage, the unlocked flags and the gift id. It sets the `filled` class on each threshold reached, and then either opens the gift selector or posts the quantity-0 `/cart/add.js` request the code uses to remove the gift. Nothing in the shown source calls `updateDiscountProgressBar`: its one call, at cart_drawer.js:80 inside `buildCart()`, is commented out, so the bar is modelled on its own and is not part of a `buildCart()` pass;
- the two counts computed by `buildCart()`, the cart-count bubble and the "true" item count. Both skip one excluded product;
- the quantity buttons and the subscription upgrade. The upgrade removes a variant, then sets or adds its replacement.

`assets/custom_sitewide.js` adds small page widgets:
- a carousel that is re-initialised only when the window crosses the breakpoint;
- an hh:mm:ss countdown;
- text truncation with a read-more toggle;
- a one-open-at-a-time accordion;
- image-content tabs.

The model has three kinds of members:
- Pure logic becomes Dafny functions, with lemmas about them.
- Code that updates state becomes classes with `modifies` clauses. This covers the override storage, the protection checkbox, the cart connection, the carousel's `currentView`, the timer, the read-more element, the accordion items and the tab section.
- Loops become methods with loop invariants: the count fold, the threshold scan and walk, and the accordion and tab sweeps. Two more methods feed a class a sequence of events, the window widths of `Carousel.Resize` and the clicks of `Truncation.ClickN`. The fold, the scan, the walk, the accordion sweep and the two drivers are proved equal to a specification function. The tab sweep is characterised by what it leaves active and shown.
- The subscription upgrade has no loop. It is a method of awaited steps proved equal to the function `UpgradeRun`.

HTTP calls are outputs: a recorded request or an ordered log of requests. Their outcomes (success or failure, and the snapshot a fetch returns) are inputs, and a failed call ends the handler where the code's callback is never called or its `await` throws. The clock is a `now` parameter.

What the cart service does with a request is not part of the storefront's code. `CartModel` therefore states a reference semantics for `/cart/update.js`, `/cart/change.js` and `/cart/add.js` (`ApplyUpdate`, `ApplyChange`, `ApplyAdd`). Two kinds of members use it: the contracts of the cart connection (`CartMutations.CartConnection` and `DiscountProgress.PerformGiftAction`), which record what the service holds after each accepted post, and the lemmas that relate several steps (the idempotence of the reconciler and the effect of the upgrade and the quantity buttons). `/cart/update.js` has one meaning, `UpdateLines`, in both. It is an assumption about the service, not a claim about it.

The modules are:
- `Wrappers`: the `Option` type.
- `CartModel`: lines, cart snapshots, requests, and the reference semantics.
- `Decimal`: `toString`, `padStart` and `parseInt` on decimal text.
- `BrowserStorage`: the override record.
- `ShippingProtection`: the reconciler.
- `DiscountProgress`: the progress bar.
- `CartCounts`: the two counts.
- `CartMutations`: the quantity buttons and the upgrade.
- `CartDrawer`: one `buildCart()` pass.
- `Carousel`, `Countdown`, `Truncation`, `Accordion`, `ImageTabs`: the widgets.

Where the code and its evident description differ, the model follows the code:
- The excluded product 10280370667830 is skipped before the bubble count is incremented (line 41 comes before line 46), so the bubble count excludes it too.
- The cart total is never clamped at 0. Discounts larger than the lines give a negative total (`TotalNotClamped`).
- When free shipping is not unlocked and no threshold is a free-shipping one, zero thresholds included, `formatRemaining(undefined)` throws at line 372. The fill is already written, and the gift line is never reconciled (`BarUpdate.StatusFailed`).
- The gift is "removed" through `postToCart`, that is `/cart/add.js` with quantity 0, not `/cart/change.js`. Under the reference semantics a quantity-0 add changes nothing, so an accepted post leaves the gift line in the cart (`AcceptedGiftRemovalKeepsGift`, and the `conn.items == old(conn.items)` clause of `PerformGiftAction`). The id posted is also the product id that `find` matched at line 380, sent where `/cart/add.js` reads a variant id. The model keeps both as written; nothing was run against the service, so whether the service removes the line is not claimed either way.
- The upgrade reads `existingQty` and never uses it. The upgrade variant ends at exactly `currentQty`; nothing is added to what the cart already held.
- `buildCart()` counts the snapshot it fetched before the protection reconcile, not the one fetched after it.

## Model

| member | source | states |
|---|---|---|
| CartModel.FirstWithId | assets/cart_drawer.js:209 | the index of the first line with the given variant id: every earlier line has another id; `|items|` when there is none |
| CartModel.FirstWithIdFound | assets/cart_drawer.js:209 | `find` returns a line exactly when some line has the id |
| CartModel.QuantityOf | assets/cart_drawer.js:235 | `shippingProtectionItem?.quantity \|\| 0`: the quantity of the first line of the id, 0 when there is none; the `Plan` body compares it with the target; used by the `PlanIssuesOnlyWhenNeeded` and `QuantityButtonsMoveOneLine` contracts |
| CartModel.Others | assets/cart_drawer.js:210-211 | the filter's lines all come from the cart and have other ids; every line of the cart with another id is among them; it keeps every line exactly when the id is absent |
| CartModel.OthersAppend | assets/cart_drawer.js:210-211 | the filter distributes over concatenation, so the kept lines stay in their order |
| CartModel.OthersIdempotent | assets/cart_drawer.js:210 | filtering the protection id out twice is filtering it once |
| CartModel.ApplyUpdateReaches | assets/cart_drawer.js:239 | under the reference semantics, `/cart/update.js { id: q }` with `q >= 0` leaves the id at quantity `q` and every other line unchanged |
| CartModel.SetQuantityReaches | assets/cart_drawer.js:239 | setting the quantity of an id present in the cart makes its first line hold that quantity |
| CartModel.SetQuantityKeepsOthers | assets/cart_drawer.js:239 | setting the quantity of one id leaves the lines of every other id in place |
| CartModel.TotalQuantityAppend | assets/cart_drawer.js:46 | the unit total of two runs of lines is the sum of their totals |
| CartModel.UpdateLines | assets/cart_drawer.js:239 | the reference semantics of `/cart/update.js`: 0 drops the lines of the id, a present id has its first line set, an absent one gets a new line; characterised by `ApplyUpdateReaches`, `SetQuantityReaches` and `SetQuantityKeepsOthers` |
| CartModel.ApplyChange | assets/cart_drawer.js:102 | the reference semantics of `/cart/change.js`: every line of the variant takes the quantity; characterised by `CartMutations.SetQuantityPointwise` and `SetQuantityKeepsIds` |
| CartModel.ApplyAdd | assets/cart_drawer.js:5 | the reference semantics of `/cart/add.js`: a positive quantity merges into the same variant and plan or appends a line, and 0 changes nothing; characterised by `CartMutations.ApplyAddAppends`, `UpgradeAppendsWhenAbsent` and `DiscountProgress.AcceptedGiftRemovalKeepsGift` |
| Decimal.ShowNat | assets/custom_sitewide.js:513 | `n.toString()` is a non-empty all-digit string, one character exactly when `n < 10` |
| Decimal.ShowNatValue | assets/custom_sitewide.js:513 | the decimal text of `n` reads back as `n` |
| Decimal.PadStart2Value | assets/custom_sitewide.js:513 | `padStart(2, '0')` keeps the digits and the value |
| Decimal.ParseShowNat | assets/cart_drawer.js:43 | `parseInt` of the decimal text of `n`, followed by anything that does not start with a digit, is `n` |
| Decimal.ParseUnsigned | assets/cart_drawer.js:43 | text that starts with a digit is read by `parseInt` as the value of its leading digit run |
| Decimal.DigitRun | assets/cart_drawer.js:43 | the digit run `parseInt` reads is all digits, and any character after it is not a digit |
| Decimal.TrimStart | assets/cart_drawer.js:43 | the white space `parseInt` skips: a suffix of the text, all removed characters white space, and the rest not starting with it |
| Decimal.ParseIntPrefix | assets/cart_drawer.js:43 | `parseInt(s, 10)`: NaN as None, otherwise the signed leading integer after white space; characterised by `ParseUnsigned`, `ParseShowNat` and `ParseNoNumber` |
| Decimal.ParseNoNumber | assets/cart_drawer.js:43 | text that is empty or starts with neither a digit, a sign nor white space reads as NaN |
| BrowserStorage.LocalStorage.SetProtectionDisabled | assets/cart_drawer.js:255-261 | the override key now holds `{ value: 'true', expiry: now + 3600000 }`, and no other key changes |
| BrowserStorage.DisabledEntry | assets/cart_drawer.js:256-260 | the record written: value 'true' and expiry `now + 3600000`; used by the `SetProtectionDisabled` and `WrittenOverrideExpires` contracts |
| BrowserStorage.LocalStorage.IsProtectionDisabled | assets/cart_drawer.js:263-274 | the read answers true exactly when the stored value is 'true' and `now < expiry`; any other stored record is deleted; other keys are untouched |
| BrowserStorage.LocalStorage.RemoveItem | assets/cart_drawer.js:196 | exactly the given key is removed |
| BrowserStorage.WrittenOverrideExpires | assets/cart_drawer.js:255-274 | a written override is honoured exactly before `now + 3600000` and deleted by the first read after that |
| BrowserStorage.ReadSettles | assets/cart_drawer.js:263-274 | a second read at the same time gives the same answer and deletes nothing; only the override key is ever affected |
| BrowserStorage.ExpiryIsFinal | assets/cart_drawer.js:267 | an override found stale is never honoured later, and one active later was active earlier |
| BrowserStorage.OverrideActive | assets/cart_drawer.js:263-274 | the answer of `isShippingProtectionDisabled()`: a record with value "true" read before its expiry; characterised by `WrittenOverrideExpires` and `ExpiryIsFinal` |
| BrowserStorage.AfterRead | assets/cart_drawer.js:263-274 | the storage after that read: a present record that is not honoured is deleted, and nothing else changes; characterised by `ReadSettles` |
| ShippingProtection.TargetQuantity | assets/cart_drawer.js:219-236 | the target quantity is 0 or 1 |
| ShippingProtection.Plan | assets/cart_drawer.js:207-240 | the reconciler's decision: nothing when the id is missing or the cart empty, otherwise one `/cart/update.js` request exactly when the current quantity differs from the target; characterised by `PlanIssuesOnlyWhenNeeded`, `OverrideWins`, `LonelyProtectionRemoved` and `ReconcileIdempotent` |
| ShippingProtection.Skips | assets/cart_drawer.js:207 | the early return: no protection id, or `item_count === 0`; the first test of `Plan`; used by the `PlanIssuesOnlyWhenNeeded`, `UpdateShippingProtection` and `Toggle` contracts |
| ShippingProtection.TargetPriority | assets/cart_drawer.js:219-236 | the target is 1 exactly when no override is active and other lines exist, and the box is checked or protection is on by default; each earlier rule gives 0 whatever the later ones say |
| ShippingProtection.PlanIssuesOnlyWhenNeeded | assets/cart_drawer.js:207-250 | a missing or zero protection id, or `item_count == 0`, posts nothing; otherwise one update is posted exactly when the current quantity (0 when the line is absent) differs from the target, and it sets exactly the protection id to the target |
| ShippingProtection.OverrideWins | assets/cart_drawer.js:221-222 | with an active override the pass posts nothing or the removal of the protection line |
| ShippingProtection.LonelyProtectionRemoved | assets/cart_drawer.js:223-225 | a cart holding only protection lines has them removed, even when protection is on by default |
| ShippingProtection.ReconcileIdempotent | assets/cart_drawer.js:204-252 | after the service applies one pass's request, a second pass on the new snapshot posts nothing |
| ShippingProtection.NothingToDoScenario | assets/cart_drawer.js:229-249 | two ordinary lines, the box unchecked, protection off by default and no override: nothing is posted |
| ShippingProtection.ProtectionPanel.UpdateShippingProtection | assets/cart_drawer.js:204-252 | posts exactly the planned request for the checkbox and override state; `buildCart()` follows exactly when a request was posted, succeeded and `dontBuildCart` is false; the method always returns, which is the promise always resolving; storage is read only when the pass does not skip |
| ShippingProtection.ProtectionPanel.Toggle | assets/cart_drawer.js:188-202 | the checkbox flips; switching protection off writes the override and switching it on deletes it; when the cart fetch succeeds, the pass that follows sees the written state and may rebuild; when it fails, nothing is reconciled and storage holds only the write |
| ShippingProtection.ProtectionPanel.Rerender | assets/cart_drawer.js:21-25 | after a markup swap the box's class is the one in the new markup |
| ShippingProtection.ProtectionPanel.constructor | assets/cart_drawer.js:277-289 | the box starts unchecked when protection is off by default or an override is active |
| ShippingProtection.ProtectionPanel.ApplyStoredState | assets/cart_drawer.js:299-303 | an active override unchecks the box; otherwise the box is left alone |
| ShippingProtection.ProtectionPanel.RemovedOnCartPage | assets/cart_drawer.js:292-296 | removal on the cart page unchecks the box and writes the override |
| ShippingProtection.ToggleOffHoldsForAnHour | assets/cart_drawer.js:188-197 | for an hour after switching off, every pass posts nothing or the removal, whatever the default; switching on leaves no override |
| CartCounts.UnitsPerPiece | assets/cart_drawer.js:43 | `parseInt(variant_options[0], 10) \|\| 1` is never 0; the fallback to 1 is stated by `UnitsFallBackToOne`, the leading integer by `UnitsFromOption` |
| CartCounts.UnitsFromOption | assets/cart_drawer.js:43 | an option text that starts with the decimal text of a non-zero `n` gives `n` units per piece |
| CartCounts.UnitsFallBackToOne | assets/cart_drawer.js:43 | the `\|\| 1` fallback: no option, an option that reads as NaN, or one that reads as 0 gives 1 unit per piece |
| CartCounts.BubbleCount | assets/cart_drawer.js:40-46 | the bubble count: the quantities of the lines not excluded; characterised by `BubbleCountExcludes` and computed by `CountItems` |
| CartCounts.TrueItemCount | assets/cart_drawer.js:40-46 | the true item count: units per piece times quantity over the lines not excluded and with a positive final price; characterised by `TrueItemCountIgnores` and computed by `CountItems` |
| CartCounts.CountItems | assets/cart_drawer.js:40-46 | the loop computes the bubble fold and the true-count fold of the lines |
| CartCounts.BubbleCountExcludes | assets/cart_drawer.js:15-46 | the bubble count is the unit total of the lines not of the excluded product; with the excluded units it adds up to the whole cart |
| CartCounts.KeptAppend | assets/cart_drawer.js:41 | the lines kept for the bubble count of two runs are the kept lines of each, in order |
| CartCounts.SkippedAppend | assets/cart_drawer.js:41 | the excluded lines of two runs are the excluded lines of each, in order |
| CartCounts.TrueItemCountIgnores | assets/cart_drawer.js:41-45 | lines of the excluded product, and lines with a final price of 0 or less, add nothing to the true count |
| DiscountProgress.TotalNotClamped | assets/cart_drawer.js:324-328 | a $10.00 line with a $15.00 discount gives a total of -500 cents |
| DiscountProgress.CartTotal | assets/cart_drawer.js:324-328 | the total in cents: the lines' final prices less the cart-level discounts; characterised by `CartTotalAdditive` and `TotalNotClamped` |
| DiscountProgress.CartTotalAdditive | assets/cart_drawer.js:324-328 | the total of two carts together is the sum of their totals: each line adds its final price and each discount takes off its amount |
| DiscountProgress.ScanThresholds | assets/cart_drawer.js:331-340 | the threshold scan leaves `giftId` at the id of the last threshold with a truthy id, or null |
| DiscountProgress.WalkThresholds | assets/cart_drawer.js:331-363 | the scan and the walk loop compute the walk function after all thresholds, and the threshold classes |
| DiscountProgress.WalkStep | assets/cart_drawer.js:351-363 | one iteration of the walk; characterised by `StepFlags`, `StepFillBounds` and `StepFillMonotone` |
| DiscountProgress.WalkPrefix | assets/cart_drawer.js:351-363 | the walk after the first `n` thresholds; characterised by `FillBounds`, `FillMonotone`, `UnlockedIffMet`, `GiftIdIsLastMetGift` and `NextIsFirstUnmet` |
| DiscountProgress.FilledClasses | assets/cart_drawer.js:349-355 | the `discount-bar__threshold--filled` classes: cleared on every threshold, then set on each one the total reaches, one per threshold |
| DiscountProgress.FilledIsReachedPrefix | assets/cart_drawer.js:349-355 | a threshold is filled exactly when the total reaches it; for ascending thresholds the filled ones are a prefix |
| DiscountProgress.FlagsFollowClasses | assets/cart_drawer.js:353-357 | the gift is unlocked exactly when a filled threshold is a gift one, free shipping exactly when a filled threshold is a free-shipping one |
| DiscountProgress.FillBounds | assets/cart_drawer.js:351-363 | for any thresholds, after `n` thresholds the fill lies between 0 and `n` shares |
| DiscountProgress.FillIsPercentage | assets/cart_drawer.js:347-363 | for any thresholds the fill, computed over exact reals, lies in [0, 100]; the double the code computes can round past 100 (see "## Left out") |
| DiscountProgress.FillFullAtLastThreshold | assets/cart_drawer.js:353-354 | a total at or above the last threshold fills the bar to exactly 100 over exact reals; in doubles the code can give 100.00000000000001 (see "## Left out") |
| DiscountProgress.FillEmptyWithoutThresholds | assets/cart_drawer.js:343-351 | with no thresholds the fill is 0 |
| DiscountProgress.FillZeroForNonPositiveTotal | assets/cart_drawer.js:351-363 | a total of 0 or less leaves an ascending bar empty |
| DiscountProgress.FillMonotone | assets/cart_drawer.js:351-363 | for ascending thresholds the fill never decreases as the total grows |
| DiscountProgress.PartialShareBounds | assets/cart_drawer.js:358-360 | a partly reached threshold fills strictly between its neighbours' full shares |
| DiscountProgress.StepFillBounds | assets/cart_drawer.js:351-363 | one step keeps the fill between 0 and the shares of the thresholds seen so far |
| DiscountProgress.PartialFillMonotone | assets/cart_drawer.js:358-360 | inside one threshold's gap the partial fill grows with the total |
| DiscountProgress.StepFillMonotone | assets/cart_drawer.js:351-363 | one step at two totals keeps the fills in the order of the totals |
| DiscountProgress.UnlockedIffMet | assets/cart_drawer.js:353-357 | the gift is unlocked exactly when some gift threshold is met, and free shipping exactly when some other threshold is met |
| DiscountProgress.InitialGiftIdIsLastTruthy | assets/cart_drawer.js:331-333 | before the walk, `giftId` is the id of the last threshold with a truthy id, of any type, or null when there is none |
| DiscountProgress.GiftIdIsLastMetGift | assets/cart_drawer.js:333-356 | after the walk, `giftId` is the id of the last met gift threshold, or what the scan left when none is met |
| DiscountProgress.NextIsFirstUnmet | assets/cart_drawer.js:358-362 | `nextThreshold` is the first threshold not met, or null when all are met |
| DiscountProgress.FirstOfKind | assets/cart_drawer.js:372-375 | `find` by type returns the first threshold of that type, or none |
| DiscountProgress.UpdateDiscountProgressBar | assets/cart_drawer.js:315-392 | the pass computes the outcome function: the threshold classes, the fill, the two status lines, and the gift action, or the failure at line 372 |
| DiscountProgress.BarFor | assets/cart_drawer.js:315-391 | the outcome of one pass: the classes, the fill, the two status lines and the gift action, or the failure at line 372; characterised by `StatusFailsWithoutFreeShipping`, `GiftPassRuns` and the fill lemmas |
| DiscountProgress.GiftReconcile | assets/cart_drawer.js:380-390 | the gift decision; characterised by `GiftReconcileExactlyOne` |
| DiscountProgress.GiftReconcileExactlyOne | assets/cart_drawer.js:380-390 | unlocked and absent opens the selector; locked and present posts a quantity-0 `/cart/add.js` request for `giftId`; otherwise nothing happens |
| DiscountProgress.PerformGiftAction | assets/cart_drawer.js:384-390 | opening the selector posts nothing; the removal request posts exactly one `/cart/add.js` request with quantity 0 for `giftId` through `postToCart` with `buildCart` as its success callback, and leaves the cart's lines as they were; no action posts nothing |
| DiscountProgress.AcceptedGiftRemovalKeepsGift | assets/cart_drawer.js:380-389 | an accepted quantity-0 add for the gift id leaves every line in place, so the gift line `find` matched is still there |
| DiscountProgress.GiftRemovalRebuildsOnSuccess | assets/cart_drawer.js:389 | the gift removal request rebuilds the drawer exactly when its post succeeds, never through the default open-and-rebuild, and alerts exactly when it fails |
| DiscountProgress.StatusFailsWithoutFreeShipping | assets/cart_drawer.js:370-373 | the pass fails on its status line exactly when every threshold is a gift threshold, zero thresholds included |
| DiscountProgress.GiftPassRuns | assets/cart_drawer.js:375-391 | with a free-shipping and a gift threshold, the pass renders and reconciles the gift against the walk's flag and id |
| DiscountProgress.ThreeQuartersScenario | assets/cart_drawer.js:351-373 | a $15.00 cart with one $20.00 free-shipping threshold leaves it unfilled, is 75% filled and $5.00 away |
| DiscountProgress.GiftUnlockedScenario | assets/cart_drawer.js:351-386 | a $12.00 cart over the tiers $5.00 (shipping) and $10.00 (gift 42), without the gift, fills both thresholds, is 100% filled and opens the selector |
| DiscountProgress.GiftRemovedScenario | assets/cart_drawer.js:351-389 | a $4.00 cart still holding gift 42 has no filled threshold, is 40% filled, is $1.00 and $6.00 away, and posts one quantity-0 add for 42 |
| CartMutations.CartConnection.Post | assets/cart_drawer.js:102-104 | one `$.post` is recorded; the service applies it only when accepted |
| CartMutations.CartConnection.PostToCart | assets/cart_drawer.js:3-8 | posts one `/cart/add.js` request for the item, applied only when accepted, and then runs the continuations of `PostFollowUp` |
| CartMutations.PostFollowUpExactlyOne | assets/cart_drawer.js:3-8 | after `postToCart` exactly one of the success callback, `openSlideCart(); buildCart()` or the alert happens; the alert exactly on failure, with the failure callback beside it when given; the loading callback exactly when given |
| CartMutations.PostFollowUp | assets/cart_drawer.js:3-8 | which continuations of `postToCart` run; characterised by `PostFollowUpExactlyOne` |
| CartMutations.QuantityAfter | assets/cart_drawer.js:91-94 | the quantity posted: the shown quantity plus 1, minus 1, or 0; used by the `UpdateCartQuantity` and `QuantityButtonsMoveOneLine` contracts |
| CartMutations.CartConnection.UpdateCartQuantity | assets/cart_drawer.js:87-105 | posts `/cart/change.js` with the line id and the shown quantity plus 1, minus 1, or 0; `buildCart()` follows exactly on success |
| CartMutations.QuantityButtonsMoveOneLine | assets/cart_drawer.js:91-99 | plus adds one unit, minus takes one away and drops the line at 1, remove drops the line, and no other line changes |
| CartMutations.CartConnection.UpgradeSubscription | assets/cart_drawer.js:130-162 | posts the removal, then, on the cart fetched after it, a change when a line of the upgrade variant with no plan or the same plan exists and an add otherwise; `existingQty` has no effect |
| CartMutations.UpgradeTargetPresent | assets/cart_drawer.js:149 | the `find` of the upgrade variant with no plan or the button's plan; it decides between change and add in `UpgradeRun`, `UpgradeMergesIntoPresent` and `UpgradeAppendsWhenAbsent` |
| CartMutations.UpgradeRun | assets/cart_drawer.js:139-161 | the upgrade handler on values: the requests, the lines the service ends with, and whether `buildCart()` runs; characterised by `UpgradeFailureHandling`, `UpgradeReplacesVariant`, `UpgradeMergesIntoPresent` and `UpgradeAppendsWhenAbsent` |
| CartMutations.UpgradeFailureHandling | assets/cart_drawer.js:140-161 | the first request always removes the old variant; a failed removal posts nothing more; a failed fetch stops after the removal; `buildCart()` runs exactly when all three calls succeed; the second request carries exactly `currentQty` |
| CartMutations.UpgradeReplacesVariant | assets/cart_drawer.js:133-157 | when all calls succeed, the upgrade variant holds exactly `currentQty` under the button's plan, and the old variant is gone when the two variants differ; a matching line already present is set to that quantity, not added to; with the same variant on both sides the line is moved under the plan at `currentQty` |
| CartMutations.UpgradeMergesIntoPresent | assets/cart_drawer.js:148-152 | when a matching line exists, the change leaves every line of the upgrade variant at exactly `currentQty` and brings back no removed variant |
| CartMutations.UpgradeAppendsWhenAbsent | assets/cart_drawer.js:148-155 | when no matching line exists, the add leaves a line of the upgrade variant at `currentQty` under the button's plan and brings back no removed variant |
| CartMutations.SetQuantityPointwise | assets/cart_drawer.js:152 | a change sets exactly the lines of its variant, and their plan only when one is given |
| CartMutations.SetQuantityKeepsIds | assets/cart_drawer.js:152 | a change keeps the set of variants in the cart |
| CartMutations.ApplyAddAppends | assets/cart_drawer.js:155 | an add with no line of the same variant and plan appends one line holding the quantity |
| CartDrawer.BuildCart | assets/cart_drawer.js:11-82 | a failed cart fetch or first markup fetch does nothing; otherwise the box takes the class of the new markup, disabled again by an active override, protection is reconciled against that box without a rebuild (so the run never calls itself), the markup is fetched again exactly when the later snapshot is empty (and then the box takes that markup's class), and the first snapshot is counted unless the later fetch or that second markup fetch fails |
| Carousel.ViewFor | assets/custom_sitewide.js:51-53 | desktop exactly when the width is at least the breakpoint minus 15 |
| Carousel.ResponsiveCarousel.constructor | assets/custom_sitewide.js:49-51 | the call of `handleResponsiveCarousel`: the breakpoint less the 15-pixel padding, no current view yet, the carousel as the page left it and no rebuilds |
| Carousel.ResponsiveCarousel.InitializeCarousel | assets/custom_sitewide.js:52-70 | ends in the computed view; re-initialises exactly when that differs from `currentView`, so calls on the same side change nothing; a switch to mobile ends with the mobile options, a switch to desktop with the desktop options or uninitialised when there are none |
| Carousel.Resize | assets/custom_sitewide.js:72-75 | the load call and the resize events end in the view of the last width, with one re-initialisation per change of side |
| Carousel.DefaultSwitchWidth | assets/custom_sitewide.js:49-53 | with the default breakpoint of 1024 the view is desktop exactly from 1009 pixels |
| Carousel.SameSideNoRebuild | assets/custom_sitewide.js:56-67 | widths all on the side already shown never re-initialise |
| Carousel.SwitchesBounded | assets/custom_sitewide.js:50-76 | the first call always initialises, and each call costs at most one re-initialisation |
| Carousel.ViewAfter | assets/custom_sitewide.js:72-75 | the view after a sequence of resizes; characterised by `SameSideNoRebuild` and reached by `Resize` |
| Carousel.Switches | assets/custom_sitewide.js:72-75 | the number of re-initialisations over a sequence of resizes; characterised by `SameSideNoRebuild` and `SwitchesBounded` |
| Countdown.PartsRecombine | assets/custom_sitewide.js:512 | minutes and seconds are below 60, and hours times 3600 plus minutes times 60 plus seconds give back `t` |
| Countdown.FormatShape | assets/custom_sitewide.js:512-513 | the text has at least 8 characters, and exactly 8 below 100 hours |
| Countdown.FormatRoundTrip | assets/custom_sitewide.js:512-513 | the hh:mm:ss text reads back as exactly the seconds shown |
| Countdown.ParseJoined | assets/custom_sitewide.js:513 | digit groups joined by ':' read back as their clock value |
| Countdown.CountsDown | assets/custom_sitewide.js:508-518 | a positive start renders `start`, then one second less per tick down to 00:00:00, and the next tick hides the bar for good |
| Countdown.AnnouncementTimer.constructor | assets/custom_sitewide.js:493-518 | a start of 0 or less hides the bar without rendering or starting the interval; otherwise the first update runs and the interval starts |
| Countdown.PartText | assets/custom_sitewide.js:512-513 | a minutes or seconds part is shown as exactly two digits that read back as the part |
| Countdown.HoursText | assets/custom_sitewide.js:512-513 | the hours are shown as at least two digits that read back as the hours |
| Countdown.AnnouncementTimer.Update | assets/custom_sitewide.js:510-515 | a negative count hides the bar; otherwise the timer text becomes the hh:mm:ss of the count, then the count is decremented; the interval keeps running |
| Countdown.Format | assets/custom_sitewide.js:512-513 | the hh:mm:ss text; characterised by `FormatShape` and `FormatRoundTrip` |
| Countdown.Start | assets/custom_sitewide.js:508-517 | the state before the interval: hidden for a start of 0 or less, otherwise one update; characterised by `CountsDown` |
| Countdown.Tick | assets/custom_sitewide.js:510-515 | one `update()`; characterised by `CountsDown` and carried out by `AnnouncementTimer.Update` |
| Truncation.Trim | assets/custom_sitewide.js:605 | the trimmed text is a slice of the text with only white space before and after it, it has no white space at either end, and text without white space at its ends is kept |
| Truncation.TrimCutsOnlyEnds | assets/custom_sitewide.js:605 | the two passes cut out a slice with only white space before and after it |
| Truncation.TrimKeepsTrimmed | assets/custom_sitewide.js:605 | text that neither starts nor ends with white space is kept as it is |
| Truncation.DefaultLimitCut | assets/custom_sitewide.js:602-608 | with the default limit of 500, trimmed text of at most 500 characters is left alone and longer text is cut to 503 characters |
| Truncation.TrimIdempotent | assets/custom_sitewide.js:605 | trimming twice is trimming once |
| Truncation.TruncatedShape | assets/custom_sitewide.js:608 | the cut text is the first `charLimit` characters followed by "...", `charLimit + 3` long, so longer than a text at most two characters over the limit |
| Truncation.Truncated | assets/custom_sitewide.js:608 | the cut text; characterised by `TruncatedShape` |
| Truncation.Initial | assets/custom_sitewide.js:605-611 | what the element shows after initialisation; characterised by `InitialCutsOnlyLongText` and `DefaultLimitCut` |
| Truncation.ReadMore.constructor | assets/custom_sitewide.js:605-611 | a long text starts cut with a collapsed "read more" button, the view that `AfterClicks` starts from |
| Truncation.InitialCutsOnlyLongText | assets/custom_sitewide.js:602-611 | a trimmed text longer than the limit starts cut with a "read more" button; a shorter one keeps its markup, untrimmed and with no button |
| Truncation.ReadMore.Click | assets/custom_sitewide.js:613-618 | each click flips the expanded flag and swaps between the cut and the full text, with the caption swapped to match: one `ClickStep` |
| Truncation.NextButton | assets/custom_sitewide.js:614-615 | the replacement button: `expanded` flipped, captioned "read less" when it expands and "read more" when it collapses; used by `ClickStep` and the `ReadMore.Click` contract |
| Truncation.ClickStep | assets/custom_sitewide.js:613-618 | one click on a view, shared by `ReadMore.Click` and `AfterClicks`; characterised by `ClicksAlternate` |
| Truncation.ClickN | assets/custom_sitewide.js:613-618 | clicking a fresh element `k` times leaves it showing `AfterClicks` of `k` |
| Truncation.ClicksAlternate | assets/custom_sitewide.js:613-618 | after an odd number of clicks the full text shows with "read less"; after an even number the cut text shows with "read more", which by `ClickN` is what the element shows |
| Accordion.AccordionItems.constructor | assets/custom_sitewide.js:541-542 | the panels start open exactly for the items marked active |
| Accordion.AccordionItems.Click | assets/custom_sitewide.js:543-546 | every sibling is cleared and closed, the clicked item toggles, at most one item stays active, and panels that matched their classes still match |
| Accordion.ClickIsExclusive | assets/custom_sitewide.js:543-546 | after a click at most one item is active; clicking an active item closes the whole accordion; a second click restores the clicked item and keeps the siblings closed |
| Accordion.AfterClick | assets/custom_sitewide.js:544-545 | the active flags after a click: the siblings cleared and the clicked item toggled; characterised by `ClickIsExclusive` and reached by `AccordionItems.Click` |
| ImageTabs.ImageContentSection.constructor | assets/custom_sitewide.js:474-481 | without tabs nothing changes; otherwise only the first tab is active and only the first card is shown |
| ImageTabs.ImageContentSection.Click | assets/custom_sitewide.js:483-489 | exactly the clicked tab is active, and exactly the cards whose key matches it are shown |

## Left out

- All HTTP and its asynchrony. `$.post`, `$.getJSON` and `fetch` become recorded requests with their outcomes as inputs. Overlapping `buildCart()` runs and promise interleavings are not modelled.
- `refetchCartHtml` and every markup swap (cart_drawer.js lines 21-25). The model keeps only whether each fetch succeeds and the class the new markup gives the protection checkbox.
- CartDrawer.BuildCart: the protection id and `data-protection` default are taken as the same in every markup swap, and the DOM work after the counts (the bubble text, the upsell refresh, the reserved timer) is not modelled.
- CartMutations.CartConnection.PostToCart: it posts a one-item list, the only kind the drawer's core posts; longer item lists are not modelled.
- CartModel.NewLine: a line the service creates has its catalogue fields (product, price, options) set to zero, for `/cart/update.js` and `/cart/add.js` alike.
- The cart service. Its effect on a request is the reference semantics stated in `CartModel`, used by the cart connection's contracts and by the lemmas that relate several steps; it is an assumption, not a claim.
- Logging (`log`, `log.table`, `log.collapse`), both files' price and saved-percentage logging, and the text of `alert`. They are console output; whether `alert` is called is modelled.
- DiscountProgress.UpdateDiscountProgressBar: the fill width, the status HTML and the threshold classes are fields of its outcome; the jQuery writes that put them on the page are not modelled.
- DiscountProgress.Fill: the fill is computed over exact reals. The code computes it in IEEE doubles (cart_drawer.js:347, 354 and 360), which round. With 11 thresholds all reached, line 354 gives `11 * (100 / 11)`, which is 100.00000000000001 in doubles. `FillBounds`, `FillIsPercentage`, `FillFullAtLastThreshold`, `FillMonotone` and the step lemmas hold of the exact fill, not of the rounded double.
- Float price display: `toFixed`, `parseFloat` of compare prices, the currency symbol and the `formatRemaining` text. The status lines carry the remaining amount in cents instead.
- Threshold values are modelled as integers (cents). `parseFloat` of a fractional or non-numeric `data-value` is not modelled.
- The quantity shown on a line is modelled as an integer. `parseFloat` of non-numeric markup, which gives NaN, is not modelled. The same holds for the upgrade button's `currentQty = +$btn.data("quantity")` at cart_drawer.js:135: `CartMutations.CartConnection.UpgradeSubscription` and `UpgradeRun` take it as an integer, so the NaN of a missing or non-numeric attribute is not modelled.
- `JSON.parse` of a malformed stored record, which throws, and a record whose value is not a string are not modelled.
- The plan-switch button (cart_drawer.js lines 121-128). It posts a selling-plan change without quantity logic.
- The cart-drawer open and close handlers, the reserved-cart timer `startCountdown`, the upsell carousel and prices, and the gift selector modal. They are DOM wiring, timers, or float display.
- The timer's date parsing (`new Date(timerDate + "T00:00:00")`) and the `setInterval` clock. The start value is an input, and each tick is one `Update` call.
- Countdown.AnnouncementTimer.constructor: a start value of NaN (an unparsable `data-time`) does not hide the bar and renders "NaN" forever. It is not modelled; the start is an integer.
- Slick, modal, clipboard, chat, drag-scroll, scrolling, video and mega-menu code in custom_sitewide.js, and its logging utility. These are configuration or UI wiring over libraries that are not shown.
- assets/dev-mode.js is not part of this model. It only detects the environment and injects styles.
- Truncation.Trim: white space is the ASCII and Latin-1 set plus the byte-order mark. Other Unicode space separators and line terminators that `trim` also removes are not modelled.
- Decimal.ParseIntPrefix: the white space `parseInt` skips is the same narrowed set, so text led by another Unicode space is read as NaN here.
- CartCounts.UnitsPerPiece: it reads the option through `Decimal.ParseIntPrefix` and inherits the same narrowed white-space set.
- Truncation.Truncated: lengths count Dafny characters, not UTF-16 code units, and the markup the cut text is written into (`.html`) is not interpreted.
- Carousel.ResponsiveCarousel.InitializeCarousel: the Slick options themselves, and what `unslick` tears down, are represented only by which option set is active.
- ImageTabs.ImageContentSection.Click: the keys are compared as strings. jQuery's conversion of `data-tab` values to numbers and back is not modelled.
