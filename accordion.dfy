/**
 * The accordion (custom_sitewide.js, lines 541-546): the items of one `.accordion`, each with an
 * `is-active` class and a panel that slides open or shut. A click closes every sibling and toggles
 * the clicked item.
 */
module Accordion {

  /** At most one of the flags is set. */
  predicate AtMostOne(flags: seq<bool>) {
    forall j, k :: 0 <= j < |flags| && 0 <= k < |flags| && flags[j] && flags[k] ==> j == k
  }

  /** The items of one accordion: `active[j]` is the `is-active` class of item j, `open[j]` whether its panel is down. */
  class AccordionItems {
    var active: seq<bool>
    var open: seq<bool>

    /** Every panel is shown exactly when its item's class says so. */
    predicate PanelsMatch()
      reads this
    {
      active == open
    }

    /** Lines 541-542: every panel slides up, then the panels of the items marked active in the markup slide down. */
    constructor (markupActive: seq<bool>)
      ensures active == markupActive && open == markupActive
      ensures PanelsMatch()
    {
      active := markupActive;
      open := markupActive;
    }

    /** The click handler on item `i` (lines 543-546): every sibling loses `is-active` and its panel slides up;
        item `i` toggles its class and its panel. */
    method Click(i: nat)
      requires i < |active| && |open| == |active|
      modifies this
      ensures active == AfterClick(old(active), i) && open == AfterClick(old(open), i)
      ensures AtMostOne(active)
      ensures old(PanelsMatch()) ==> PanelsMatch()
    {
      var wasActive, wasOpen := active[i], open[i];
      var n := |active|;
      var newActive, newOpen: seq<bool> := [], [];
      for j := 0 to n
        invariant |newActive| == j && |newOpen| == j
        invariant forall k :: 0 <= k < j ==> newActive[k] == (k == i && !wasActive)
        invariant forall k :: 0 <= k < j ==> newOpen[k] == (k == i && !wasOpen)
      {
        if j == i {
          newActive, newOpen := newActive + [!wasActive], newOpen + [!wasOpen];
        } else {
          newActive, newOpen := newActive + [false], newOpen + [false];
        }
      }
      active, open := newActive, newOpen;
      ClickIsExclusive(old(active), i);
    }
  }

  /** The accordion as seen after a click: the clicked item is open exactly when it was closed, all others are closed. */
  function AfterClick(flags: seq<bool>, i: nat): (r: seq<bool>)
    requires i < |flags|
    ensures |r| == |flags|
  {
    seq(|flags|, j requires 0 <= j < |flags| => j == i && !flags[i])
  }

  /** A click leaves at most one item active: the clicked one, exactly when it was not active before, so clicking
      an open item closes the whole accordion. Clicking the same item again restores it and keeps its siblings closed. */
  lemma ClickIsExclusive(flags: seq<bool>, i: nat)
    requires i < |flags|
    ensures AtMostOne(AfterClick(flags, i))
    ensures AfterClick(flags, i)[i] == !flags[i]
    ensures flags[i] ==> forall j :: 0 <= j < |flags| ==> !AfterClick(flags, i)[j]
    ensures forall j :: 0 <= j < |flags| ==> AfterClick(AfterClick(flags, i), i)[j] == (j == i && flags[i])
  {
  }
}
