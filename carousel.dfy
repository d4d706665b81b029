/**
 * The responsive carousel (`handleResponsiveCarousel`, custom_sitewide.js, lines 49-76): a view variable
 * kept in a closure, and a carousel that is torn down and re-initialised only when the window crosses
 * the breakpoint.
 */
module Carousel {
  import opened Wrappers

  /** `currentView`: null before the first call, then 'mobile' or 'desktop'. */
  datatype View = NoView | Mobile | Desktop

  /** The Slick options a carousel can be initialised with; the configuration itself is not modelled. */
  datatype Options = MobileOptions | DesktopOptions

  /** The default breakpoint of the function's signature, in pixels. */
  const DefaultBreakpoint: int := 1024

  /** Line 51: 15 pixels of padding come off the breakpoint. */
  const Padding: int := 15

  /** Line 53: the view a window of `width` pixels calls for. */
  function ViewFor(width: int, breakpoint: int): (v: View)
    ensures v != NoView
    ensures v == Desktop <==> width >= breakpoint - Padding
  {
    if width >= breakpoint - Padding then Desktop else Mobile
  }

  /** With the default breakpoint the carousel switches to desktop at 1009 pixels. */
  lemma DefaultSwitchWidth(width: int)
    ensures ViewFor(width, DefaultBreakpoint) == Desktop <==> width >= 1009
  {
  }

  /** One carousel element with its Slick state: None when not initialised (no `slick-slider` class),
      or the options it was initialised with. */
  class ResponsiveCarousel {
    const breakpoint: int
    const hasDesktopOptions: bool
    var currentView: View
    var slick: Option<Options>
    /** How many times the carousel has been torn down and re-initialised. */
    var rebuilds: nat

    /** The call of `handleResponsiveCarousel` (lines 49-51), before its first `initializeCarousel()`;
        the carousel may already be initialised by the page. */
    constructor (breakpoint: int, hasDesktopOptions: bool, initial: Option<Options>)
      ensures this.breakpoint == breakpoint - Padding && this.hasDesktopOptions == hasDesktopOptions
      ensures currentView == NoView && slick == initial && rebuilds == 0
    {
      this.breakpoint := breakpoint - Padding;
      this.hasDesktopOptions := hasDesktopOptions;
      currentView := NoView;
      slick := initial;
      rebuilds := 0;
    }

    /** `initializeCarousel()` (lines 52-70) at window width `width`, on the load and on every resize. */
    method InitializeCarousel(width: int)
      modifies this
      ensures currentView == (if width >= breakpoint then Desktop else Mobile)
      ensures old(currentView) == currentView ==> slick == old(slick) && rebuilds == old(rebuilds)
      ensures old(currentView) != currentView ==> rebuilds == old(rebuilds) + 1
      ensures old(currentView) != currentView && currentView == Mobile ==> slick == Some(MobileOptions)
      ensures old(currentView) != currentView && currentView == Desktop ==>
                slick == if hasDesktopOptions then Some(DesktopOptions) else None
    {
      var isDesktop := width >= breakpoint;
      if isDesktop {
        if currentView != Desktop {
          if slick.Some? {
            slick := None;
          }
          if hasDesktopOptions {
            slick := Some(DesktopOptions);
          }
          currentView := Desktop;
          rebuilds := rebuilds + 1;
        }
      } else {
        if currentView != Mobile {
          if slick.Some? {
            slick := None;
          }
          slick := Some(MobileOptions);
          currentView := Mobile;
          rebuilds := rebuilds + 1;
        }
      }
    }
  }

  /** The view the carousel is in after a sequence of window widths, starting from `start`. */
  function ViewAfter(start: View, widths: seq<int>, breakpoint: int): View {
    if widths == [] then start else ViewFor(widths[|widths| - 1], breakpoint)
  }

  /** The number of re-initialisations a sequence of window widths causes from view `start`: one per change of side. */
  function Switches(start: View, widths: seq<int>, breakpoint: int): nat {
    if widths == [] then 0
    else
      var before := ViewAfter(start, widths[..|widths| - 1], breakpoint);
      Switches(start, widths[..|widths| - 1], breakpoint) + (if ViewFor(widths[|widths| - 1], breakpoint) != before then 1 else 0)
  }

  /** Resizing within one side of the breakpoint never re-initialises the carousel after the first call. */
  lemma {:induction false} SameSideNoRebuild(start: View, widths: seq<int>, breakpoint: int, v: View)
    requires |widths| > 0 && start == v
    requires forall i :: 0 <= i < |widths| ==> ViewFor(widths[i], breakpoint) == v
    ensures Switches(start, widths, breakpoint) == 0
    ensures ViewAfter(start, widths, breakpoint) == v
  {
    var init := widths[..|widths| - 1];
    if |init| > 0 {
      SameSideNoRebuild(start, init, breakpoint, v);
    }
  }

  /** From no view, the first call always initialises, and any width sequence causes at least one rebuild
      and at most one per call. */
  lemma {:induction false} SwitchesBounded(widths: seq<int>, breakpoint: int)
    ensures |widths| > 0 ==> Switches(NoView, widths, breakpoint) >= 1
    ensures Switches(NoView, widths, breakpoint) <= |widths|
  {
    if widths != [] {
      var init := widths[..|widths| - 1];
      SwitchesBounded(init, breakpoint);
      if init == [] {
        assert ViewAfter(NoView, init, breakpoint) == NoView;
      }
    }
  }

  /** Driving the carousel through a sequence of widths counts exactly `Switches` rebuilds and ends in `ViewAfter`. */
  method Resize(carousel: ResponsiveCarousel, widths: seq<int>)
    modifies carousel
    ensures carousel.currentView == ViewAfter(old(carousel.currentView), widths, carousel.breakpoint + Padding)
    ensures carousel.rebuilds == old(carousel.rebuilds) + Switches(old(carousel.currentView), widths, carousel.breakpoint + Padding)
  {
    var start := carousel.currentView;
    var b := carousel.breakpoint + Padding;
    for i := 0 to |widths|
      invariant carousel.currentView == ViewAfter(start, widths[..i], b)
      invariant carousel.rebuilds == old(carousel.rebuilds) + Switches(start, widths[..i], b)
    {
      assert widths[..i + 1][..i] == widths[..i];
      carousel.InitializeCarousel(widths[i]);
    }
    assert widths[..|widths|] == widths;
  }
}
