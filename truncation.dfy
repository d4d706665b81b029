/**
 * Text truncation with a read-more toggle (`initTextTruncation`, custom_sitewide.js, lines 602-621):
 * a text longer than the limit is cut to its first `charLimit` characters plus "...", and a button
 * swaps between the cut and the full text.
 */
module Truncation {
  import opened Decimal

  /** The default `charLimit` of the function's signature. */
  const DefaultCharLimit: nat := 500

  /** The ellipsis appended to the cut text. */
  const Ellipsis: string := "..."

  /** `s` without its trailing white space: what is removed is all white space, and what stays does not end in it. */
  function TrimEnd(s: string): (r: string)
    ensures |r| <= |s| && r == s[..|r|]
    ensures forall k :: |r| <= k < |s| ==> IsJsWhiteSpace(s[k])
    ensures r == [] || !IsJsWhiteSpace(r[|r| - 1])
  {
    if s != [] && IsJsWhiteSpace(s[|s| - 1]) then TrimEnd(s[..|s| - 1]) else s
  }

  /** `r` is the slice `s[a..b]`, and everything before and after it is white space. */
  predicate CutOfWhiteSpace(s: string, r: string, a: nat, b: nat) {
    a <= b <= |s| && r == s[a..b]
    && (forall k :: 0 <= k < a ==> IsJsWhiteSpace(s[k]))
    && (forall k :: b <= k < |s| ==> IsJsWhiteSpace(s[k]))
  }

  /** `String.prototype.trim()`: the result is a slice of `s` with only white space cut off before and after it,
      and it neither starts nor ends with white space. */
  function Trim(s: string): (r: string)
    ensures exists a: nat, b: nat :: CutOfWhiteSpace(s, r, a, b)
    ensures r == [] || (!IsJsWhiteSpace(r[0]) && !IsJsWhiteSpace(r[|r| - 1]))
    ensures |r| <= |s| && (s == [] || (!IsJsWhiteSpace(s[0]) && !IsJsWhiteSpace(s[|s| - 1])) ==> r == s)
  {
    TrimCutsOnlyEnds(s);
    TrimKeepsTrimmed(s);
    TrimEnd(TrimStart(s))
  }

  /** Text that neither starts nor ends with white space is kept as it is. */
  lemma TrimKeepsTrimmed(s: string)
    ensures s == [] || (!IsJsWhiteSpace(s[0]) && !IsJsWhiteSpace(s[|s| - 1])) ==> TrimEnd(TrimStart(s)) == s
  {
    if s != [] && !IsJsWhiteSpace(s[0]) && !IsJsWhiteSpace(s[|s| - 1]) {
      assert TrimStart(s) == s;
    }
  }

  /** The two passes of `Trim` cut a slice out of `s`, with white space before it and after it. */
  lemma TrimCutsOnlyEnds(s: string)
    ensures exists a: nat, b: nat :: CutOfWhiteSpace(s, TrimEnd(TrimStart(s)), a, b)
  {
    var t := TrimStart(s);
    var r := TrimEnd(t);
    var a := |s| - |t|;
    PrefixOfSuffix(s, a, |r|);
    TailOfSuffix(s, a, |r|);
    assert CutOfWhiteSpace(s, r, a, a + |r|);
  }

  /** The first `n` characters of `s[a..]` are `s[a..a + n]`. */
  lemma PrefixOfSuffix(s: string, a: nat, n: nat)
    requires a + n <= |s|
    ensures s[a..][..n] == s[a..a + n]
  {
  }

  /** Past its first `n` characters, `s[a..]` is the rest of `s`: white space there is white space in `s`. */
  lemma TailOfSuffix(s: string, a: nat, n: nat)
    requires a + n <= |s| && forall k :: n <= k < |s[a..]| ==> IsJsWhiteSpace(s[a..][k])
    ensures forall k :: a + n <= k < |s| ==> IsJsWhiteSpace(s[k])
  {
    forall k | a + n <= k < |s|
      ensures IsJsWhiteSpace(s[k])
    {
      assert s[k] == s[a..][k - a];
    }
  }

  /** White space already trimmed stays: trimming twice is trimming once. */
  lemma TrimIdempotent(s: string)
    ensures Trim(Trim(s)) == Trim(s)
  {
  }

  /** Line 608: the first `limit` characters followed by "...". */
  function Truncated(text: string, limit: nat): (r: string)
    requires |text| > limit
  {
    text[..limit] + Ellipsis
  }

  /** The cut text keeps exactly the first `limit` characters and ends in the ellipsis; it is three characters longer
      than the limit, so a text at most two characters over the limit gets longer. */
  lemma TruncatedShape(text: string, limit: nat)
    requires |text| > limit
    ensures |Truncated(text, limit)| == limit + 3
    ensures Truncated(text, limit)[..limit] == text[..limit]
    ensures Truncated(text, limit)[limit..] == "..."
    ensures |text| <= limit + 2 ==> |Truncated(text, limit)| > |text|
  {
  }

  /** With the default limit, text of up to 500 characters after trimming is left alone, and longer text is cut
      to 503 characters. */
  lemma DefaultLimitCut(markup: string)
    ensures Initial(markup, DefaultCharLimit).Unchanged? <==> |Trim(markup)| <= 500
    ensures |Trim(markup)| > 500 ==> |Initial(markup, DefaultCharLimit).text| == 503
  {
    InitialCutsOnlyLongText(markup, DefaultCharLimit);
  }

  /** The read-more button: its `expanded` class and its caption. */
  datatype Button = Button(expanded: bool, caption: string)

  /** Lines 614-615: the button that replaces one with class `expanded` set to `wasExpanded`. */
  function NextButton(wasExpanded: bool): Button {
    Button(!wasExpanded, if wasExpanded then "read more" else "read less")
  }

  /** One click (lines 613-618) on an element showing `view`: the text swaps between the cut and the full version,
      the button is replaced. */
  function ClickStep(original: string, truncated: string, view: (string, Button)): (string, Button) {
    (if view.1.expanded then truncated else original, NextButton(view.1.expanded))
  }

  /** What the element shows: its text and, for a cut text, the button after it. */
  datatype Shown = Unchanged | WithButton(text: string, button: Button)

  /** Lines 605-611: what the element with text `markup` shows after `initTextTruncation(selector, limit)`. */
  function Initial(markup: string, limit: nat): Shown {
    var original := Trim(markup);
    if |original| > limit then WithButton(Truncated(original, limit), Button(false, "read more")) else Unchanged
  }

  /** A long text starts cut, with a read-more button; a text of at most `limit` characters after trimming keeps
      its markup as it was, untrimmed and without a button. */
  lemma InitialCutsOnlyLongText(markup: string, limit: nat)
    ensures Initial(markup, limit).Unchanged? <==> |Trim(markup)| <= limit
    ensures |Trim(markup)| > limit ==>
              Initial(markup, limit).text[..limit] == Trim(markup)[..limit] && |Initial(markup, limit).text| == limit + 3
              && !Initial(markup, limit).button.expanded && Initial(markup, limit).button.caption == "read more"
  {
  }

  /** One cut text element after initialisation, with the click handler bound. */
  class ReadMore {
    const original: string
    const truncated: string
    var shown: string
    var button: Button

    /** The `each` body of lines 605-611 for a text whose trimmed length exceeds `limit`. */
    constructor (markup: string, limit: nat)
      requires |Trim(markup)| > limit
      ensures original == Trim(markup) && truncated == Truncated(original, limit)
      ensures WithButton(shown, button) == Initial(markup, limit)
      ensures (shown, button) == AfterClicks(original, truncated, 0)
    {
      var originalText := Trim(markup);
      original := originalText;
      truncated := Truncated(originalText, limit);
      shown := Truncated(originalText, limit);
      button := Button(false, "read more");
    }

    /** The click handler (lines 613-618): the text and the button swap between their cut and full versions. */
    method Click()
      modifies this
      ensures button == NextButton(old(button.expanded))
      ensures shown == if old(button.expanded) then truncated else original
      ensures (shown, button) == ClickStep(original, truncated, old((shown, button)))
    {
      var isExpanded := button.expanded;
      button := NextButton(isExpanded);
      shown := if isExpanded then truncated else original;
    }
  }

  /** What a freshly cut element shows after `k` clicks: the constructor's view with `ClickStep` applied `k` times. */
  function AfterClicks(original: string, truncated: string, k: nat): (string, Button)
  {
    if k == 0 then (truncated, Button(false, "read more"))
    else ClickStep(original, truncated, AfterClicks(original, truncated, k - 1))
  }

  /** Clicking `k` times: by the constructor's and `Click`'s contracts the element shows `AfterClicks` after each
      click, so it alternates as `ClicksAlternate` states. */
  method ClickN(e: ReadMore, k: nat)
    requires (e.shown, e.button) == AfterClicks(e.original, e.truncated, 0)
    modifies e
    ensures (e.shown, e.button) == AfterClicks(e.original, e.truncated, k)
  {
    for i := 0 to k
      invariant (e.shown, e.button) == AfterClicks(e.original, e.truncated, i)
    {
      e.Click();
    }
  }

  /** After an odd number of clicks the full text shows with an expanded "read less" button, after an even number the
      cut text with "read more". */
  lemma {:induction false} ClicksAlternate(original: string, truncated: string, k: nat)
    ensures AfterClicks(original, truncated, k).1.expanded <==> k % 2 == 1
    ensures AfterClicks(original, truncated, k).0 == if k % 2 == 1 then original else truncated
    ensures AfterClicks(original, truncated, k).1.caption == if k % 2 == 1 then "read less" else "read more"
  {
    if k > 0 {
      ClicksAlternate(original, truncated, k - 1);
    }
  }
}
