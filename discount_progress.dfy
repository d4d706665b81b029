/**
 * The discount / free-gift progress bar of the cart drawer (`updateDiscountProgressBar`,
 * cart_drawer.js, lines 315-392): the cart total, the walk over the ordered thresholds that
 * sets the fill and the unlocked flags, the status lines, and the reconciliation of the gift line.
 */
module DiscountProgress {
  import opened Wrappers
  import opened CartModel
  import opened CartMutations

  /** A `.discount-bar__threshold` element: `data-value` in cents, `data-type == "gift"`, and `data-id`. */
  datatype Threshold = Threshold(value: int, isGift: bool, id: Option<int>)

  // ---------------------------------------------------------------------------
  // The cart total (lines 324-328)
  // ---------------------------------------------------------------------------

  function SumFinalPrices(items: seq<LineItem>): int {
    if items == [] then 0 else items[0].finalLinePrice + SumFinalPrices(items[1..])
  }

  function SumAmounts(amounts: seq<int>): int {
    if amounts == [] then 0 else amounts[0] + SumAmounts(amounts[1..])
  }

  /** The sum of the lines' final prices minus the sum of the cart-level discount amounts, in cents.
      Nothing clamps it at 0. */
  function CartTotal(c: Cart): int {
    SumFinalPrices(c.items) - SumAmounts(c.discountAmounts)
  }

  /** The total is not clamped: discounts larger than the lines make it negative. */
  lemma TotalNotClamped(line: LineItem)
    requires line.finalLinePrice == 1000
    ensures CartTotal(Cart([line], line.quantity, [1500])) == -500
  {
    assert SumFinalPrices([line]) == 1000 by {
      assert [line][1..] == [];
    }
    assert SumAmounts([1500]) == 1500 by {
      assert [1500][1..] == [];
      assert SumAmounts([]) == 0;
    }
  }

  lemma {:induction false} SumFinalPricesAppend(a: seq<LineItem>, b: seq<LineItem>)
    ensures SumFinalPrices(a + b) == SumFinalPrices(a) + SumFinalPrices(b)
  {
    if a == [] {
      assert a + b == b;
    } else {
      assert (a + b)[0] == a[0];
      assert (a + b)[1..] == a[1..] + b;
      SumFinalPricesAppend(a[1..], b);
    }
  }

  lemma {:induction false} SumAmountsAppend(a: seq<int>, b: seq<int>)
    ensures SumAmounts(a + b) == SumAmounts(a) + SumAmounts(b)
  {
    if a == [] {
      assert a + b == b;
    } else {
      assert (a + b)[0] == a[0];
      assert (a + b)[1..] == a[1..] + b;
      SumAmountsAppend(a[1..], b);
    }
  }

  /** Both `reduce`s are sums: the total of two carts' lines and discounts together is the sum of their totals,
      so each line adds its final price and each discount takes off its amount, in any order of the lines. */
  lemma CartTotalAdditive(c1: Cart, c2: Cart, c: Cart)
    requires c.items == c1.items + c2.items && c.discountAmounts == c1.discountAmounts + c2.discountAmounts
    ensures CartTotal(c) == CartTotal(c1) + CartTotal(c2)
  {
    SumFinalPricesAppend(c1.items, c2.items);
    SumAmountsAppend(c1.discountAmounts, c2.discountAmounts);
  }

  // ---------------------------------------------------------------------------
  // The threshold walk (lines 331-363)
  // ---------------------------------------------------------------------------

  /** `if (id)`: the id is present and not 0. */
  predicate Truthy(id: Option<int>) {
    id.Some? && id.value != 0
  }

  /** `giftId` after the scan of the threshold elements (lines 331-340): the id of the last threshold
      that carries a truthy id, of any type, or None. */
  function InitialGiftId(ts: seq<Threshold>): Option<int> {
    if ts == [] then None
    else if Truthy(ts[|ts| - 1].id) then ts[|ts| - 1].id
    else InitialGiftId(ts[..|ts| - 1])
  }

  /** The variables the walk updates: `fillPercentage`, `freeShippingUnlocked`, `giftUnlocked`, `giftId`
      and `nextThreshold` (an index into the thresholds). */
  datatype Walk = Walk(fill: real, freeShippingUnlocked: bool, giftUnlocked: bool, giftId: Option<int>, next: Option<nat>)

  /** `progressStep = 100 / thresholds.length`; it is never used when there are no thresholds. */
  function ProgressStep(ts: seq<Threshold>): real {
    if |ts| == 0 then 0.0 else 100.0 / (|ts| as real)
  }

  /** `thresholds[index - 1]?.value || 0`. */
  function PrevValue(ts: seq<Threshold>, i: nat): int
    requires i < |ts|
  {
    if i == 0 then 0 else ts[i - 1].value
  }

  /** The fill inside threshold `i`, reached part of the way from `prev` to `value`: `i` full shares plus the
      fraction of the gap covered, times one share. */
  function PartialFill(i: nat, step: real, total: int, prev: int, value: int): real
    requires prev < value
  {
    i as real * step + ((total - prev) as real / (value - prev) as real) * step
  }

  /** One iteration of the walk, at threshold `i`. */
  function WalkStep(w: Walk, ts: seq<Threshold>, i: nat, total: int): Walk
    requires i < |ts|
  {
    var t := ts[i];
    var prev := PrevValue(ts, i);
    var step := ProgressStep(ts);
    if total >= t.value then
      w.(fill := (i + 1) as real * step,
         giftUnlocked := w.giftUnlocked || t.isGift,
         giftId := if t.isGift then t.id else w.giftId,
         freeShippingUnlocked := w.freeShippingUnlocked || !t.isGift)
    else if total > prev then
      w.(fill := PartialFill(i, step, total, prev, t.value),
         next := if w.next.None? then Some(i) else w.next)
    else
      w.(next := if w.next.None? then Some(i) else w.next)
  }

  /** The walk's variables after the first `n` thresholds. */
  function WalkPrefix(ts: seq<Threshold>, total: int, n: nat): Walk
    requires n <= |ts|
  {
    if n == 0 then Walk(0.0, false, false, InitialGiftId(ts), None)
    else WalkStep(WalkPrefix(ts, total, n - 1), ts, n - 1, total)
  }

  /** The fill percentage after the whole walk. */
  function Fill(ts: seq<Threshold>, total: int): real {
    WalkPrefix(ts, total, |ts|).fill
  }

  /** Which thresholds carry the class `discount-bar__threshold--filled` after the walk: the class is cleared on
      every threshold (line 349) and set on each one the total reaches (line 355). */
  function FilledClasses(ts: seq<Threshold>, total: int): (f: seq<bool>)
    ensures |f| == |ts|
  {
    seq(|ts|, i requires 0 <= i < |ts| => total >= ts[i].value)
  }

  /** The threshold scan (lines 331-340): each element with a truthy id overwrites `giftId`. */
  method ScanThresholds(ts: seq<Threshold>) returns (giftId: Option<int>)
    ensures giftId == InitialGiftId(ts)
  {
    giftId := None;
    for i := 0 to |ts|
      invariant giftId == InitialGiftId(ts[..i])
    {
      assert ts[..i + 1][..i] == ts[..i];
      if Truthy(ts[i].id) {
        giftId := ts[i].id;
      }
    }
    assert ts[..|ts|] == ts;
  }

  /** The threshold scan and the walk (lines 331-363), as the source runs them; `filled` is the threshold
      classes the walk leaves. */
  method WalkThresholds(ts: seq<Threshold>, total: int) returns (w: Walk, filled: seq<bool>)
    ensures w == WalkPrefix(ts, total, |ts|)
    ensures filled == FilledClasses(ts, total)
  {
    var giftId := ScanThresholds(ts);
    filled := seq(|ts|, _ => false);

    var fillPercentage: real := 0.0;
    var freeShippingUnlocked, giftUnlocked := false, false;
    var nextThreshold: Option<nat> := None;
    var progressStep := ProgressStep(ts);
    for index := 0 to |ts|
      invariant Walk(fillPercentage, freeShippingUnlocked, giftUnlocked, giftId, nextThreshold) == WalkPrefix(ts, total, index)
      invariant |filled| == |ts|
      invariant forall k :: 0 <= k < index ==> filled[k] == (total >= ts[k].value)
      invariant forall k :: index <= k < |ts| ==> !filled[k]
    {
      ghost var before := Walk(fillPercentage, freeShippingUnlocked, giftUnlocked, giftId, nextThreshold);
      assert WalkPrefix(ts, total, index + 1) == WalkStep(before, ts, index, total);
      var threshold := ts[index];
      var prevValue := if index == 0 then 0 else ts[index - 1].value;
      assert prevValue == PrevValue(ts, index);
      if total >= threshold.value {
        fillPercentage := (index + 1) as real * progressStep;
        filled := filled[index := true];
        if threshold.isGift {
          giftUnlocked := true;
          giftId := threshold.id;
        } else {
          freeShippingUnlocked := true;
        }
      } else if total > prevValue {
        fillPercentage := PartialFill(index, progressStep, total, prevValue, threshold.value);
        if nextThreshold.None? {
          nextThreshold := Some(index);
        }
      } else if nextThreshold.None? {
        nextThreshold := Some(index);
      }
    }
    w := Walk(fillPercentage, freeShippingUnlocked, giftUnlocked, giftId, nextThreshold);
    assert forall k :: 0 <= k < |ts| ==> filled[k] == FilledClasses(ts, total)[k];
  }

  // ---------------------------------------------------------------------------
  // What the walk computes
  // ---------------------------------------------------------------------------

  /** Thresholds that are positive and strictly ascending: each is above the one before it (above 0 for the first). */
  predicate Ascending(ts: seq<Threshold>) {
    forall i :: 0 <= i < |ts| ==> PrevValue(ts, i) < ts[i].value
  }

  lemma MulMonotone(a: real, b: real, s: real)
    requires a <= b && s >= 0.0
    ensures a * s <= b * s
  {
  }

  lemma DivMonotone(a: real, b: real, d: real)
    requires a <= b && d > 0.0
    ensures a / d <= b / d
  {
    assert b / d - a / d == (b - a) / d;
  }

  /** The part of a gap from `prev` to `value` that a total strictly inside it covers is a proper fraction. */
  lemma GapFraction(total: int, prev: int, value: int)
    requires prev < total < value
    ensures 0.0 < (total - prev) as real / (value - prev) as real < 1.0
  {
    var covered, gap := (total - prev) as real, (value - prev) as real;
    var frac := covered / gap;
    assert frac * gap == covered;
    if frac <= 0.0 {
      MulMonotone(frac, 0.0, gap);
    }
    if frac >= 1.0 {
      MulMonotone(1.0, frac, gap);
    }
  }

  /** A proper fraction of a positive share is positive and less than the share. */
  lemma ShareOfFraction(frac: real, step: real)
    requires 0.0 < frac < 1.0 && step > 0.0
    ensures 0.0 < frac * step < step
  {
    MulMonotone(0.0, frac, step);
    MulMonotone(frac, 1.0, step);
    assert frac * step != 0.0;
    assert frac * step != step;
  }

  /** The partial share of one threshold lies strictly between its two neighbours' full shares. */
  lemma PartialShareBounds(i: nat, step: real, total: int, prev: int, value: int)
    requires prev < total < value && step > 0.0
    ensures i as real * step < PartialFill(i, step, total, prev, value) < (i + 1) as real * step
  {
    var frac := (total - prev) as real / (value - prev) as real;
    GapFraction(total, prev, value);
    ShareOfFraction(frac, step);
    assert (i + 1) as real * step == i as real * step + step;
  }

  /** How one step changes the walk's flags, id and next index. */
  lemma StepFlags(w: Walk, ts: seq<Threshold>, i: nat, total: int)
    requires i < |ts|
    ensures WalkStep(w, ts, i, total).giftUnlocked == (w.giftUnlocked || MetGift(ts, total, i))
    ensures WalkStep(w, ts, i, total).freeShippingUnlocked == (w.freeShippingUnlocked || MetFreeShipping(ts, total, i))
    ensures WalkStep(w, ts, i, total).giftId == if MetGift(ts, total, i) then ts[i].id else w.giftId
    ensures WalkStep(w, ts, i, total).next == if total >= ts[i].value || w.next.Some? then w.next else Some(i)
  {
  }

  /** How one step changes the fill, with the share `s` of one threshold. */
  lemma StepFill(w: Walk, ts: seq<Threshold>, i: nat, total: int, s: real)
    requires i < |ts| && s == ProgressStep(ts)
    ensures var f := WalkStep(w, ts, i, total).fill;
            var prev, value := PrevValue(ts, i), ts[i].value;
            && (total >= value ==> f == (i + 1) as real * s)
            && (prev < total < value ==> f == PartialFill(i, s, total, prev, value))
            && (total <= prev && total < value ==> f == w.fill)
  {
  }

  /** One step keeps the fill between 0 and the shares of the thresholds seen so far. */
  lemma StepFillBounds(w: Walk, ts: seq<Threshold>, i: nat, n: nat, total: int)
    requires i < |ts| && n == i + 1
    requires 0.0 <= w.fill <= i as real * ProgressStep(ts)
    ensures 0.0 <= WalkStep(w, ts, i, total).fill <= n as real * ProgressStep(ts)
  {
    var s := ProgressStep(ts);
    var prev, value := PrevValue(ts, i), ts[i].value;
    StepFill(w, ts, i, total, s);
    assert (i + 1) as real == n as real;
    MulMonotone(i as real, n as real, s);
    MulMonotone(0.0, i as real, s);
    if prev < total < value {
      PartialShareBounds(i, s, total, prev, value);
    }
  }

  /** After n thresholds the fill lies between 0 and n shares. */
  lemma {:induction false} FillBounds(ts: seq<Threshold>, total: int, n: nat)
    requires n <= |ts|
    ensures 0.0 <= WalkPrefix(ts, total, n).fill <= n as real * ProgressStep(ts)
  {
    if n > 0 {
      var i := n - 1;
      FillBounds(ts, total, i);
      StepFillBounds(WalkPrefix(ts, total, i), ts, i, n, total);
    } else {
      var s := ProgressStep(ts);
      assert 0.0 * s == 0.0;
    }
  }

  /** Whatever the thresholds, the fill is a percentage. */
  lemma FillIsPercentage(ts: seq<Threshold>, total: int)
    ensures 0.0 <= Fill(ts, total) <= 100.0
  {
    FillBounds(ts, total, |ts|);
    if |ts| > 0 {
      assert |ts| as real * (100.0 / |ts| as real) == 100.0;
    }
  }

  /** Reaching the last threshold fills the bar completely. */
  lemma FillFullAtLastThreshold(ts: seq<Threshold>, total: int)
    requires |ts| > 0 && total >= ts[|ts| - 1].value
    ensures Fill(ts, total) == 100.0
  {
    assert |ts| as real * (100.0 / |ts| as real) == 100.0;
  }

  /** With no thresholds the bar stays empty. */
  lemma FillEmptyWithoutThresholds(total: int)
    ensures Fill([], total) == 0.0
  {
  }

  /** A total of 0 or less (possible, as the total is not clamped) leaves ascending bars empty. */
  lemma {:induction false} FillZeroForNonPositiveTotal(ts: seq<Threshold>, total: int, n: nat)
    requires Ascending(ts) && n <= |ts| && total <= 0
    ensures WalkPrefix(ts, total, n).fill == 0.0
  {
    if n > 0 {
      var i := n - 1;
      FillZeroForNonPositiveTotal(ts, total, i);
      AscendingPositive(ts, i);
      if i > 0 {
        AscendingPositive(ts, i - 1);
      }
      StepFill(WalkPrefix(ts, total, i), ts, i, total, ProgressStep(ts));
    }
  }

  /** Ascending thresholds are all positive. */
  lemma {:induction false} AscendingPositive(ts: seq<Threshold>, i: nat)
    requires Ascending(ts) && i < |ts|
    ensures ts[i].value > 0
  {
    assert PrevValue(ts, i) < ts[i].value;
    if i > 0 {
      AscendingPositive(ts, i - 1);
    }
  }

  /** Inside one threshold's gap the partial fill grows with the total. */
  lemma PartialFillMonotone(i: nat, s: real, t1: int, t2: int, prev: int, value: int)
    requires prev < t1 <= t2 < value && s >= 0.0
    ensures PartialFill(i, s, t1, prev, value) <= PartialFill(i, s, t2, prev, value)
  {
    var d := (value - prev) as real;
    DivMonotone((t1 - prev) as real, (t2 - prev) as real, d);
    MulMonotone((t1 - prev) as real / d, (t2 - prev) as real / d, s);
  }

  /** The fill after one step, on reals alone: `a` before it, `s` the share, `prev` and `value` the gap. */
  function FillAfter(a: real, s: real, i: nat, prev: int, value: int, total: int): real {
    if total >= value then (i + 1) as real * s
    else if total > prev then PartialFill(i, s, total, prev, value)
    else a
  }

  /** The fill `WalkStep` computes is `FillAfter` of the fill before it. */
  lemma StepFillIs(w: Walk, ts: seq<Threshold>, i: nat, total: int)
    requires i < |ts|
    ensures WalkStep(w, ts, i, total).fill == FillAfter(w.fill, ProgressStep(ts), i, PrevValue(ts, i), ts[i].value, total)
  {
  }

  /** Inside one gap, `FillAfter` keeps the order of the fills before it and of the totals. */
  lemma FillAfterMonotone(a1: real, a2: real, s: real, i: nat, prev: int, value: int, t1: int, t2: int)
    requires prev < value && t1 <= t2 && s > 0.0
    requires 0.0 <= a1 <= a2 <= i as real * s
    ensures FillAfter(a1, s, i, prev, value, t1) <= FillAfter(a2, s, i, prev, value, t2)
  {
    MulMonotone(i as real, (i + 1) as real, s);
    if t2 >= value {
      if prev < t1 < value {
        PartialShareBounds(i, s, t1, prev, value);
      }
    } else if t2 > prev {
      PartialShareBounds(i, s, t2, prev, value);
      if t1 > prev {
        PartialFillMonotone(i, s, t1, t2, prev, value);
      }
    }
  }

  /** One step at two totals keeps the fills in the order of the totals. */
  lemma StepFillMonotone(w1: Walk, w2: Walk, ts: seq<Threshold>, i: nat, n: nat, t1: int, t2: int)
    requires i < |ts| && n == i + 1 && PrevValue(ts, i) < ts[i].value && t1 <= t2
    requires 0.0 <= w1.fill <= w2.fill <= i as real * ProgressStep(ts)
    ensures WalkStep(w1, ts, i, t1).fill <= WalkStep(w2, ts, i, t2).fill
  {
    StepFillIs(w1, ts, i, t1);
    StepFillIs(w2, ts, i, t2);
    FillAfterMonotone(w1.fill, w2.fill, ProgressStep(ts), i, PrevValue(ts, i), ts[i].value, t1, t2);
  }

  /** More money in the cart never empties the bar: for ascending thresholds the fill is non-decreasing in the total. */
  lemma {:induction false} FillMonotone(ts: seq<Threshold>, t1: int, t2: int, n: nat)
    requires Ascending(ts) && n <= |ts| && t1 <= t2
    ensures WalkPrefix(ts, t1, n).fill <= WalkPrefix(ts, t2, n).fill
  {
    if n > 0 {
      var i := n - 1;
      FillMonotone(ts, t1, t2, i);
      FillBounds(ts, t1, i);
      FillBounds(ts, t2, i);
      assert PrevValue(ts, i) < ts[i].value;
      StepFillMonotone(WalkPrefix(ts, t1, i), WalkPrefix(ts, t2, i), ts, i, n, t1, t2);
    }
  }

  predicate MetGift(ts: seq<Threshold>, total: int, i: nat)
    requires i < |ts|
  {
    ts[i].isGift && total >= ts[i].value
  }

  predicate MetFreeShipping(ts: seq<Threshold>, total: int, i: nat)
    requires i < |ts|
  {
    !ts[i].isGift && total >= ts[i].value
  }

  /** A threshold is filled exactly when the total reaches it; for ascending thresholds the filled ones are a
      prefix: a filled threshold has every earlier one filled. */
  lemma FilledIsReachedPrefix(ts: seq<Threshold>, total: int)
    ensures forall i :: 0 <= i < |ts| ==> (FilledClasses(ts, total)[i] <==> total >= ts[i].value)
    ensures Ascending(ts) ==>
              forall i, j :: 0 <= i <= j < |ts| && FilledClasses(ts, total)[j] ==> FilledClasses(ts, total)[i]
  {
    if Ascending(ts) {
      forall i, j | 0 <= i <= j < |ts|
        ensures ts[i].value <= ts[j].value
      {
        AscendingOrdered(ts, i, j);
      }
    }
  }

  /** Ascending thresholds have ascending values. */
  lemma {:induction false} AscendingOrdered(ts: seq<Threshold>, i: nat, j: nat)
    requires Ascending(ts) && i <= j < |ts|
    ensures ts[i].value <= ts[j].value
  {
    if i < j {
      AscendingOrdered(ts, i, j - 1);
      assert PrevValue(ts, j) < ts[j].value;
    }
  }

  /** The unlocked flags agree with the classes: the gift is unlocked exactly when a filled threshold is a gift
      one, free shipping exactly when a filled threshold is a free-shipping one. */
  lemma FlagsFollowClasses(ts: seq<Threshold>, total: int)
    ensures WalkPrefix(ts, total, |ts|).giftUnlocked <==>
              exists i :: 0 <= i < |ts| && FilledClasses(ts, total)[i] && ts[i].isGift
    ensures WalkPrefix(ts, total, |ts|).freeShippingUnlocked <==>
              exists i :: 0 <= i < |ts| && FilledClasses(ts, total)[i] && !ts[i].isGift
  {
    UnlockedIffMet(ts, total, |ts|);
    FilledIsReachedPrefix(ts, total);
    assert forall i :: 0 <= i < |ts| ==> (MetGift(ts, total, i) <==> FilledClasses(ts, total)[i] && ts[i].isGift);
    assert forall i :: 0 <= i < |ts| ==> (MetFreeShipping(ts, total, i) <==> FilledClasses(ts, total)[i] && !ts[i].isGift);
  }

  /** The gift is unlocked exactly when some gift threshold is met, free shipping exactly when some other one is. */
  lemma {:induction false} UnlockedIffMet(ts: seq<Threshold>, total: int, n: nat)
    requires n <= |ts|
    ensures WalkPrefix(ts, total, n).giftUnlocked <==> exists i :: 0 <= i < n && MetGift(ts, total, i)
    ensures WalkPrefix(ts, total, n).freeShippingUnlocked <==> exists i :: 0 <= i < n && MetFreeShipping(ts, total, i)
  {
    if n > 0 {
      var i := n - 1;
      UnlockedIffMet(ts, total, i);
      StepFlags(WalkPrefix(ts, total, i), ts, i, total);
      if exists k :: 0 <= k < n && MetGift(ts, total, k) {
        var k :| 0 <= k < n && MetGift(ts, total, k);
        if k < i {
          assert exists k' :: 0 <= k' < i && MetGift(ts, total, k');
        }
      }
      if exists k :: 0 <= k < n && MetFreeShipping(ts, total, k) {
        var k :| 0 <= k < n && MetFreeShipping(ts, total, k);
        if k < i {
          assert exists k' :: 0 <= k' < i && MetFreeShipping(ts, total, k');
        }
      }
    }
  }

  /** The scan leaves `giftId` at the id of the last threshold whose id is truthy, and at None when there is none. */
  lemma {:induction false} InitialGiftIdIsLastTruthy(ts: seq<Threshold>)
    ensures InitialGiftId(ts).None? <==> forall i :: 0 <= i < |ts| ==> !Truthy(ts[i].id)
    ensures InitialGiftId(ts).Some? ==>
      exists i :: 0 <= i < |ts| && ts[i].id == InitialGiftId(ts) && Truthy(ts[i].id)
        && forall j :: i < j < |ts| ==> !Truthy(ts[j].id)
  {
    if ts != [] {
      var init := ts[..|ts| - 1];
      InitialGiftIdIsLastTruthy(init);
      if !Truthy(ts[|ts| - 1].id) && InitialGiftId(init).Some? {
        var i :| 0 <= i < |init| && init[i].id == InitialGiftId(init) && Truthy(init[i].id)
          && forall j :: i < j < |init| ==> !Truthy(init[j].id);
        assert ts[i] == init[i];
        assert forall j :: i < j < |ts| ==> !Truthy(ts[j].id) by {
          forall j | i < j < |ts| ensures !Truthy(ts[j].id) {
            if j < |init| {
              assert ts[j] == init[j];
            }
          }
        }
      }
    }
  }

  /** After the walk, `giftId` is the id of the last met gift threshold, or, when no gift threshold is met,
      what the scan left. */
  lemma {:induction false} GiftIdIsLastMetGift(ts: seq<Threshold>, total: int, n: nat)
    requires n <= |ts|
    ensures (forall i :: 0 <= i < n ==> !MetGift(ts, total, i)) ==> WalkPrefix(ts, total, n).giftId == InitialGiftId(ts)
    ensures forall i :: 0 <= i < n && MetGift(ts, total, i) && (forall j :: i < j < n ==> !MetGift(ts, total, j))
               ==> WalkPrefix(ts, total, n).giftId == ts[i].id
  {
    if n > 0 {
      var i := n - 1;
      GiftIdIsLastMetGift(ts, total, i);
      StepFlags(WalkPrefix(ts, total, i), ts, i, total);
    }
  }

  /** `nextThreshold` ends at the first threshold not met, or None when all are met. */
  lemma {:induction false} NextIsFirstUnmet(ts: seq<Threshold>, total: int, n: nat)
    requires n <= |ts|
    ensures WalkPrefix(ts, total, n).next.None? <==> forall i :: 0 <= i < n ==> total >= ts[i].value
    ensures WalkPrefix(ts, total, n).next.Some? ==>
      var k := WalkPrefix(ts, total, n).next.value;
      k < n && total < ts[k].value && forall j :: 0 <= j < k ==> total >= ts[j].value
  {
    if n > 0 {
      NextIsFirstUnmet(ts, total, n - 1);
      StepFlags(WalkPrefix(ts, total, n - 1), ts, n - 1, total);
    }
  }

  // ---------------------------------------------------------------------------
  // Status lines and the gift line (lines 365-391)
  // ---------------------------------------------------------------------------

  /** The free-shipping line: unlocked, or the cents still missing to the first free-shipping threshold. */
  datatype ShippingStatus = ShippingUnlocked | ShippingAway(remaining: int)

  /** The gift line: included, or the cents still missing to the first gift threshold. */
  datatype GiftStatus = GiftIncluded | GiftAway(remaining: int)

  /** What the pass does about the gift line. `RemoveGift` is the request the code logs as "Removing gift from
      cart": a quantity-0 `/cart/add.js` post for `giftId`. */
  datatype GiftAction = NoGiftAction | OpenGiftSelector | RemoveGift(giftId: int)

  /** The outcome of one pass: the threshold classes, the fill and the rest. `StatusFailed` is the pass that
      throws at line 372: there is no free-shipping threshold, `thresholds.find(t => !t.isGift)` is undefined and
      `formatRemaining` reads its `value`; the classes and the fill are already set and the gift line is not
      reconciled. */
  datatype BarUpdate =
    | Rendered(filled: seq<bool>, fill: real, shipping: ShippingStatus, gift: Option<GiftStatus>, action: GiftAction)
    | StatusFailed(filled: seq<bool>, fill: real)

  /** Index of the first threshold whose type is `gift` (true) or free shipping (false), or `|ts|`. */
  function FirstOfKind(ts: seq<Threshold>, gift: bool): (k: nat)
    ensures k <= |ts|
    ensures k < |ts| ==> ts[k].isGift == gift
    ensures forall j :: 0 <= j < k ==> ts[j].isGift != gift
  {
    if ts == [] then 0 else if ts[0].isGift == gift then 0 else 1 + FirstOfKind(ts[1..], gift)
  }

  /** `cart.items.find(item => item.product_id === giftId)` finds a line. */
  predicate GiftLinePresent(items: seq<LineItem>, giftId: Option<int>) {
    giftId.Some? && exists k :: 0 <= k < |items| && items[k].productId == giftId.value
  }

  /** Lines 384-390: open the selector when the gift is unlocked but not in the cart; when it is in the cart but
      locked, post `postToCart([{ id: giftId, quantity: 0 }])`. */
  function GiftReconcile(giftUnlocked: bool, giftId: Option<int>, items: seq<LineItem>): (a: GiftAction)
  {
    if giftUnlocked && !GiftLinePresent(items, giftId) then OpenGiftSelector
    else if !giftUnlocked && GiftLinePresent(items, giftId) then RemoveGift(giftId.value)
    else NoGiftAction
  }

  /** The whole pass on snapshot `c` with thresholds `ts`. */
  function BarFor(c: Cart, ts: seq<Threshold>): BarUpdate {
    var total := CartTotal(c);
    var w := WalkPrefix(ts, total, |ts|);
    var filled := FilledClasses(ts, total);
    var fs := FirstOfKind(ts, false);
    if !w.freeShippingUnlocked && fs == |ts| then StatusFailed(filled, w.fill)
    else
      var shipping := if w.freeShippingUnlocked then ShippingUnlocked else ShippingAway(ts[fs].value - total);
      var g := FirstOfKind(ts, true);
      if g == |ts| then Rendered(filled, w.fill, shipping, None, NoGiftAction)
      else
        var giftStatus := if w.giftUnlocked then GiftIncluded else GiftAway(ts[g].value - total);
        Rendered(filled, w.fill, shipping, Some(giftStatus), GiftReconcile(w.giftUnlocked, w.giftId, c.items))
  }

  /** `updateDiscountProgressBar(cart)` on snapshot `c` with the thresholds of the page. */
  method UpdateDiscountProgressBar(c: Cart, ts: seq<Threshold>) returns (u: BarUpdate)
    ensures u == BarFor(c, ts)
  {
    var totalPrice := SumFinalPrices(c.items);
    totalPrice := totalPrice - SumAmounts(c.discountAmounts);
    var w, filled := WalkThresholds(ts, totalPrice);
    var firstShipping := FirstOfKind(ts, false);
    if !w.freeShippingUnlocked && firstShipping == |ts| {
      return StatusFailed(filled, w.fill);
    }
    var shipping := if w.freeShippingUnlocked then ShippingUnlocked else ShippingAway(ts[firstShipping].value - totalPrice);
    var giftThreshold := FirstOfKind(ts, true);
    if giftThreshold == |ts| {
      return Rendered(filled, w.fill, shipping, None, NoGiftAction);
    }
    var giftStatus := if w.giftUnlocked then GiftIncluded else GiftAway(ts[giftThreshold].value - totalPrice);
    var action := GiftReconcile(w.giftUnlocked, w.giftId, c.items);
    u := Rendered(filled, w.fill, shipping, Some(giftStatus), action);
  }

  /** Lines 384-390 carried out on the cart connection: the selector opens, or
      `postToCart([{ id: giftId, quantity: 0 }], buildCart)` is posted, with outcome `postOk`. `removal` is what
      runs after that post: `buildCart()` as its success callback, or the alert. Under the reference semantics a
      quantity-0 add changes nothing, so the cart's lines stay as they were whatever the outcome. */
  method PerformGiftAction(conn: CartConnection, a: GiftAction, postOk: bool) returns (selectorOpened: bool, removal: Option<FollowUp>)
    modifies conn
    ensures selectorOpened <==> a == OpenGiftSelector
    ensures a.RemoveGift? ==>
              && conn.posted == old(conn.posted) + [Add(a.giftId, 0, None)]
              && conn.items == (if postOk then ApplyAdd(old(conn.items), a.giftId, 0, None) else old(conn.items))
              && conn.items == old(conn.items)
              && removal == Some(PostFollowUp(postOk, true, false, false))
    ensures !a.RemoveGift? ==> conn.posted == old(conn.posted) && conn.items == old(conn.items) && removal == None
  {
    selectorOpened, removal := false, None;
    match a {
      case OpenGiftSelector =>
        selectorOpened := true;
      case RemoveGift(id) =>
        var f := conn.PostToCart(id, 0, true, false, false, postOk);
        removal := Some(f);
      case NoGiftAction =>
    }
  }

  /** The removal request does not remove the gift: under the reference semantics an accepted `/cart/add.js`
      post with quantity 0 leaves every line in place, so a gift line the pass found is still found afterwards.
      (The id posted is also the product id that `find` matched at line 380, sent where a variant id is read.) */
  lemma AcceptedGiftRemovalKeepsGift(items: seq<LineItem>, giftId: Option<int>)
    requires GiftLinePresent(items, giftId)
    ensures Applied(items, Add(giftId.value, 0, None)) == items
    ensures GiftLinePresent(Applied(items, Add(giftId.value, 0, None)), giftId)
  {
  }

  /** The removal request rebuilds the drawer exactly when the post succeeds, through the `buildCart` callback and
      never through the default `openSlideCart(); buildCart()`, and alerts exactly when it fails. */
  lemma GiftRemovalRebuildsOnSuccess(postOk: bool)
    ensures PostFollowUp(postOk, true, false, false).successCallback <==> postOk
    ensures PostFollowUp(postOk, true, false, false).alert <==> !postOk
    ensures !PostFollowUp(postOk, true, false, false).openAndRebuild
  {
    PostFollowUpExactlyOne(postOk, true, false, false);
  }

  /** The gift reconciliation does exactly one thing: it opens the selector exactly when the gift is unlocked
      and absent, posts exactly one quantity-0 request for `giftId` exactly when it is locked and present,
      and otherwise nothing. */
  lemma GiftReconcileExactlyOne(giftUnlocked: bool, giftId: Option<int>, items: seq<LineItem>)
    ensures GiftReconcile(giftUnlocked, giftId, items) == OpenGiftSelector
        <==> giftUnlocked && !GiftLinePresent(items, giftId)
    ensures GiftReconcile(giftUnlocked, giftId, items).RemoveGift?
        <==> !giftUnlocked && GiftLinePresent(items, giftId)
    ensures GiftReconcile(giftUnlocked, giftId, items).RemoveGift? ==>
        GiftReconcile(giftUnlocked, giftId, items).giftId == giftId.value
    ensures GiftReconcile(giftUnlocked, giftId, items) == NoGiftAction
        <==> (giftUnlocked <==> GiftLinePresent(items, giftId))
  {
  }

  /** The pass fails on its status line exactly when no threshold is a free-shipping one, zero thresholds included. */
  lemma StatusFailsWithoutFreeShipping(c: Cart, ts: seq<Threshold>)
    ensures BarFor(c, ts).StatusFailed? <==> forall i :: 0 <= i < |ts| ==> ts[i].isGift
  {
    var total := CartTotal(c);
    UnlockedIffMet(ts, total, |ts|);
    var fs := FirstOfKind(ts, false);
    if fs < |ts| {
      assert !ts[fs].isGift;
    }
  }

  /** The gift pass runs exactly when the pass does not fail and some threshold is a gift one, and then it
      reconciles against the gift id and unlocked flag of the walk. */
  lemma GiftPassRuns(c: Cart, ts: seq<Threshold>)
    requires exists i :: 0 <= i < |ts| && !ts[i].isGift
    requires exists i :: 0 <= i < |ts| && ts[i].isGift
    ensures var w := WalkPrefix(ts, CartTotal(c), |ts|);
            BarFor(c, ts).Rendered? && BarFor(c, ts).action == GiftReconcile(w.giftUnlocked, w.giftId, c.items)
  {
    StatusFailsWithoutFreeShipping(c, ts);
    var g := FirstOfKind(ts, true);
    var i :| 0 <= i < |ts| && ts[i].isGift;
    assert g <= i;
  }

  // ---------------------------------------------------------------------------
  // Scenarios
  // ---------------------------------------------------------------------------

  /** One free-shipping threshold at $20.00 and a $15.00 cart: 75% filled, $5.00 to go. */
  lemma ThreeQuartersScenario(line: LineItem)
    requires line.finalLinePrice == 1500
    ensures BarFor(Cart([line], line.quantity, []), [Threshold(2000, false, None)])
         == Rendered([false], 75.0, ShippingAway(500), None, NoGiftAction)
  {
    var ts := [Threshold(2000, false, None)];
    var c := Cart([line], line.quantity, []);
    assert SumFinalPrices([line]) == 1500 by {
      assert [line][1..] == [];
    }
    assert CartTotal(c) == 1500;
    assert ProgressStep(ts) == 100.0;
    assert 1500 as real / 2000 as real == 0.75;
    var w0 := WalkPrefix(ts, 1500, 0);
    assert WalkPrefix(ts, 1500, 1) == WalkStep(w0, ts, 0, 1500);
    assert WalkPrefix(ts, 1500, 1).fill == 75.0;
    assert !WalkPrefix(ts, 1500, 1).freeShippingUnlocked;
    assert FirstOfKind(ts, false) == 0;
    assert FirstOfKind(ts, true) == 1;
  }

  function GiftTiers(): seq<Threshold> {
    [Threshold(500, false, None), Threshold(1000, true, Some(42))]
  }

  lemma GiftTiersFacts()
    ensures ProgressStep(GiftTiers()) == 50.0
    ensures FirstOfKind(GiftTiers(), false) == 0
    ensures FirstOfKind(GiftTiers(), true) == 1
    ensures InitialGiftId(GiftTiers()) == Some(42)
  {
    var ts := GiftTiers();
    assert ts[1..][0].isGift;
    assert FirstOfKind(ts[1..], true) == 0;
  }

  /** A $12.00 cart without product 42 unlocks the gift and opens the selector; nothing is added. */
  lemma GiftUnlockedScenario(line: LineItem)
    requires line.finalLinePrice == 1200 && line.productId != 42
    ensures BarFor(Cart([line], line.quantity, []), GiftTiers())
         == Rendered([true, true], 100.0, ShippingUnlocked, Some(GiftIncluded), OpenGiftSelector)
  {
    var ts := GiftTiers();
    var c := Cart([line], line.quantity, []);
    assert SumFinalPrices([line]) == 1200 by {
      assert [line][1..] == [];
    }
    assert CartTotal(c) == 1200;
    GiftTiersFacts();
    var w0 := WalkPrefix(ts, 1200, 0);
    var w1 := WalkStep(w0, ts, 0, 1200);
    assert WalkPrefix(ts, 1200, 1) == w1;
    assert w1.freeShippingUnlocked;
    var w2 := WalkStep(w1, ts, 1, 1200);
    assert WalkPrefix(ts, 1200, 2) == w2;
    assert w2.fill == 2 as real * 50.0 == 100.0;
    assert w2.giftUnlocked && w2.freeShippingUnlocked && w2.giftId == Some(42);
    assert !GiftLinePresent([line], Some(42));
  }

  /** A $4.00 cart that still holds product 42 loses the gift: one quantity-0 request for 42. */
  lemma GiftRemovedScenario(line: LineItem, gift: LineItem)
    requires line.finalLinePrice == 400 && gift.finalLinePrice == 0 && gift.productId == 42
    ensures BarFor(Cart([line, gift], line.quantity + gift.quantity, []), GiftTiers())
         == Rendered([false, false], 40.0, ShippingAway(100), Some(GiftAway(600)), RemoveGift(42))
  {
    var ts := GiftTiers();
    var items := [line, gift];
    var c := Cart(items, line.quantity + gift.quantity, []);
    assert items[1..][1..] == [];
    assert SumFinalPrices(items[1..]) == 0;
    assert CartTotal(c) == 400;
    GiftTiersFacts();
    assert 400 as real / 500 as real == 0.8;
    var w0 := WalkPrefix(ts, 400, 0);
    var w1 := WalkStep(w0, ts, 0, 400);
    assert WalkPrefix(ts, 400, 1) == w1;
    assert w1.fill == 0 as real * 50.0 + 0.8 * 50.0 == 40.0;
    var w2 := WalkStep(w1, ts, 1, 400);
    assert WalkPrefix(ts, 400, 2) == w2;
    assert w2.fill == 40.0 && !w2.giftUnlocked && !w2.freeShippingUnlocked && w2.giftId == Some(42);
    assert items[1].productId == 42;
    assert GiftLinePresent(items, Some(42));
  }
}
