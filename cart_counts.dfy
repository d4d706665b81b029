/**
 * The counts `buildCart` shows after each rebuild (cart_drawer.js, lines 15-46 and 76):
 * the cart-count bubble and the "true" item count, both folds over the cart's lines that
 * skip one excluded product.
 */
module CartCounts {
  import opened CartModel
  import opened Decimal

  /** The products left out of both counts (line 15). */
  const ExcludedProductIds: seq<int> := [10280370667830]

  predicate Excluded(line: LineItem) {
    line.productId in ExcludedProductIds
  }

  /** Units one piece of a line stands for: the leading integer of its first variant option,
      `parseInt(item.variant_options[0], 10) || 1`, where NaN and 0 both fall back to 1. */
  function UnitsPerPiece(line: LineItem): (u: int)
    ensures u != 0
  {
    if |line.variantOptions| == 0 then 1
    else match ParseIntPrefix(line.variantOptions[0])
      case None => 1
      case Some(n) => if n == 0 then 1 else n
  }

  /** The bubble count after the lines `items`, folded left to right: every line not skipped adds its quantity. */
  function BubbleCount(items: seq<LineItem>): int {
    if items == [] then 0
    else
      var last := items[|items| - 1];
      BubbleCount(items[..|items| - 1]) + (if Excluded(last) then 0 else last.quantity)
  }

  /** `trueItemCount` after the lines `items`: every line not skipped and with a positive final price adds
      its units per piece times its quantity. */
  function TrueItemCount(items: seq<LineItem>): int {
    if items == [] then 0
    else
      var last := items[|items| - 1];
      TrueItemCount(items[..|items| - 1])
        + (if Excluded(last) || last.finalLinePrice <= 0 then 0 else UnitsPerPiece(last) * last.quantity)
  }

  /** The `forEach` over `cart.items` (lines 40-46). */
  method CountItems(items: seq<LineItem>) returns (filteredItemCount: int, trueItemCount: int)
    ensures filteredItemCount == BubbleCount(items)
    ensures trueItemCount == TrueItemCount(items)
  {
    filteredItemCount, trueItemCount := 0, 0;
    for i := 0 to |items|
      invariant filteredItemCount == BubbleCount(items[..i])
      invariant trueItemCount == TrueItemCount(items[..i])
    {
      assert items[..i + 1][..i] == items[..i];
      var item := items[i];
      if item.productId in ExcludedProductIds {
        continue;
      }
      if item.finalLinePrice > 0 {
        var trueCount := UnitsPerPiece(item);
        trueItemCount := trueItemCount + trueCount * item.quantity;
      }
      filteredItemCount := filteredItemCount + item.quantity;
    }
    assert items[..|items|] == items;
  }

  /** The lines of `items` that are not excluded, and those that are. */
  function Kept(items: seq<LineItem>): seq<LineItem> {
    if items == [] then []
    else (if Excluded(items[0]) then [] else [items[0]]) + Kept(items[1..])
  }

  function Skipped(items: seq<LineItem>): seq<LineItem> {
    if items == [] then []
    else (if Excluded(items[0]) then [items[0]] else []) + Skipped(items[1..])
  }

  lemma {:induction false} KeptAppend(a: seq<LineItem>, b: seq<LineItem>)
    ensures Kept(a + b) == Kept(a) + Kept(b)
  {
    if a == [] {
      assert a + b == b;
    } else {
      var head := if Excluded(a[0]) then [] else [a[0]];
      assert (a + b)[0] == a[0];
      assert (a + b)[1..] == a[1..] + b;
      KeptAppend(a[1..], b);
      calc {
        Kept(a + b);
        head + Kept(a[1..] + b);
        head + (Kept(a[1..]) + Kept(b));
        (head + Kept(a[1..])) + Kept(b);
      }
    }
  }

  lemma {:induction false} SkippedAppend(a: seq<LineItem>, b: seq<LineItem>)
    ensures Skipped(a + b) == Skipped(a) + Skipped(b)
  {
    if a == [] {
      assert a + b == b;
    } else {
      var head := if Excluded(a[0]) then [a[0]] else [];
      assert (a + b)[0] == a[0];
      assert (a + b)[1..] == a[1..] + b;
      SkippedAppend(a[1..], b);
      calc {
        Skipped(a + b);
        head + Skipped(a[1..] + b);
        head + (Skipped(a[1..]) + Skipped(b));
        (head + Skipped(a[1..])) + Skipped(b);
      }
    }
  }

  /** The bubble is the total quantity of the lines that are not excluded, and together with the excluded
      lines' quantity it makes up the cart's total quantity: the excluded product never shows in the bubble. */
  lemma {:induction false} BubbleCountExcludes(items: seq<LineItem>)
    ensures BubbleCount(items) == TotalQuantity(Kept(items))
    ensures BubbleCount(items) + TotalQuantity(Skipped(items)) == TotalQuantity(items)
  {
    if items != [] {
      var init, last := items[..|items| - 1], items[|items| - 1];
      assert items == init + [last];
      BubbleCountExcludes(init);
      KeptAppend(init, [last]);
      SkippedAppend(init, [last]);
      TotalQuantityAppend(Kept(init), Kept([last]));
      TotalQuantityAppend(Skipped(init), Skipped([last]));
      TotalQuantityAppend(init, [last]);
      assert Kept([last]) == (if Excluded(last) then [] else [last]);
      assert Skipped([last]) == (if Excluded(last) then [last] else []);
    }
  }

  /** A line whose first option reads "<n><rest>", such as "3 Pack", stands for n units per piece. */
  lemma UnitsFromOption(line: LineItem, n: nat, rest: string)
    requires n != 0 && (rest == [] || !IsDigit(rest[0]))
    requires |line.variantOptions| > 0 && line.variantOptions[0] == ShowNat(n) + rest
    ensures UnitsPerPiece(line) == n
  {
    ParseShowNat(n, rest);
  }

  /** The `|| 1` fallback: a line stands for one unit per piece when it has no variant option, when its first
      option reads as NaN (it is empty, or starts with neither a digit, a sign nor white space), and when it
      reads as 0, such as "0 Pack". */
  lemma UnitsFallBackToOne(line: LineItem, rest: string)
    ensures line.variantOptions == [] ==> UnitsPerPiece(line) == 1
    ensures line.variantOptions != [] && StartsWithoutNumber(line.variantOptions[0]) ==> UnitsPerPiece(line) == 1
    ensures (line.variantOptions != [] && line.variantOptions[0] == ShowNat(0) + rest && (rest == [] || !IsDigit(rest[0])))
            ==> UnitsPerPiece(line) == 1
  {
    if line.variantOptions != [] {
      var option := line.variantOptions[0];
      if StartsWithoutNumber(option) {
        ParseNoNumber(option);
      }
      if option == ShowNat(0) + rest && (rest == [] || !IsDigit(rest[0])) {
        ParseShowNat(0, rest);
      }
    }
  }

  /** Lines that are excluded or free add nothing to the true item count. */
  lemma {:induction false} TrueItemCountIgnores(items: seq<LineItem>)
    requires forall k :: 0 <= k < |items| ==> Excluded(items[k]) || items[k].finalLinePrice <= 0
    ensures TrueItemCount(items) == 0
  {
    if items != [] {
      TrueItemCountIgnores(items[..|items| - 1]);
    }
  }
}
