/**
 * The tabs of an image-content section (`initImageContentSection`, custom_sitewide.js, lines 473-490):
 * tabs and cards carry a `data-tab` key; the first tab and the first card start selected, and a click
 * on a tab selects it and shows exactly the cards with its key.
 */
module ImageTabs {

  /** Exactly the flag at `i` is set. */
  predicate OnlyAt(flags: seq<bool>, i: nat) {
    forall j :: 0 <= j < |flags| ==> (flags[j] <==> j == i)
  }

  /** One section: the keys of its tabs and cards, the `active` class of each tab, and whether each card is shown. */
  class ImageContentSection {
    const tabKeys: seq<string>
    const cardKeys: seq<string>
    var tabActive: seq<bool>
    var cardShown: seq<bool>

    predicate Shaped()
      reads this
    {
      |tabActive| == |tabKeys| && |cardShown| == |cardKeys|
    }

    /** The section as the markup has it, then the `each` body of lines 476-481: without tabs nothing happens;
        otherwise only the first tab is active and only the first card is shown. */
    constructor (tabKeys: seq<string>, cardKeys: seq<string>, markupActive: seq<bool>, markupShown: seq<bool>)
      requires |markupActive| == |tabKeys| && |markupShown| == |cardKeys|
      ensures this.tabKeys == tabKeys && this.cardKeys == cardKeys && Shaped()
      ensures tabKeys == [] ==> tabActive == markupActive && cardShown == markupShown
      ensures tabKeys != [] ==> OnlyAt(tabActive, 0) && OnlyAt(cardShown, 0)
    {
      this.tabKeys := tabKeys;
      this.cardKeys := cardKeys;
      tabActive := markupActive;
      cardShown := markupShown;
      new;
      if |tabKeys| == 0 {
        return;
      }
      tabActive := seq(|tabKeys|, j => j == 0);
      cardShown := seq(|cardKeys|, j => j == 0);
    }

    /** The click handler on tab `i` (lines 483-489): clear every tab, activate tab `i`, hide every card, then show
        the cards whose key is the clicked tab's. */
    method Click(i: nat)
      requires Shaped() && i < |tabKeys|
      modifies this
      ensures Shaped()
      ensures OnlyAt(tabActive, i)
      ensures forall j :: 0 <= j < |cardShown| ==> (cardShown[j] <==> cardKeys[j] == tabKeys[i])
    {
      var tab := tabKeys[i];
      var tabs: seq<bool> := [];
      for j := 0 to |tabKeys|
        invariant |tabs| == j
        invariant forall k :: 0 <= k < j ==> (tabs[k] <==> k == i)
      {
        tabs := tabs + [j == i];
      }
      tabActive := tabs;
      var cards: seq<bool> := [];
      for j := 0 to |cardKeys|
        invariant |cards| == j
        invariant forall k :: 0 <= k < j ==> (cards[k] <==> cardKeys[k] == tab)
      {
        cards := cards + [cardKeys[j] == tab];
      }
      cardShown := cards;
    }
  }
}
