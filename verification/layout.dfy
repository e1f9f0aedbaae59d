/** The layout arbiter: after every re-render or resize it resets the
    mode-specific styling, picks one of four display modes from the measured
    heights, and configures the frame, the scrollable area, the song list
    and the current-song slot for it. Styles are values, not DOM writes. */
module Layout {
  import Config
  import AutoScroll

  /** An inline style value: cleared (`''`), `auto`, `none`, or pixels. */
  datatype Style = Unset | Auto | NoneValue | Px(px: int)

  /** The four mode marker classes of the list frame. */
  datatype ModeClass = NaturalModeClass | FixedModeClass | OnlyCurrentModeClass | EmptyModeClass

  /** The values assigned to `STATE.displayMode`. */
  datatype DisplayMode = Natural | Fixed | Empty | OnlyCurrent

  /** The text stored in `STATE.displayMode` for each mode. */
  function ModeName(m: DisplayMode): string {
    match m
    case Natural => "natural"
    case Fixed => "fixed"
    case Empty => "empty"
    case OnlyCurrent => "only-current"
  }

  /** The styling this core owns.
      - `mode`: `STATE.displayMode`;
      - `classes`: which of the four mode classes the frame carries;
      - `frameHidden`: the frame's inline `display: none`;
      - `frameHeight`, `frameMaxHeight`: the frame's inline heights;
      - `areaHeight`, `areaMaxHeight`, `areaPaddingBottom`: the scrollable area;
      - `listPaddingBottom`: the song list's bottom padding;
      - `currentPinned`: the current-song slot's `fixed` class;
      - `currentMarginTop`: the current-song slot's top margin;
      - `scroll`: the bounce-scroll controller. */
  datatype Frame = Frame(
    mode: DisplayMode,
    classes: set<ModeClass>,
    frameHidden: bool,
    frameHeight: Style,
    frameMaxHeight: Style,
    areaHeight: Style,
    areaMaxHeight: Style,
    areaPaddingBottom: Style,
    listPaddingBottom: Style,
    currentPinned: bool,
    currentMarginTop: Style,
    scroll: AutoScroll.State)

  /** The page as loaded: natural mode, nothing styled, no scrolling. */
  const Initial: Frame :=
    Frame(Natural, {}, false, Unset, Unset, Unset, Unset, Unset, Unset, false, Unset, AutoScroll.Initial)

  /** One rendered list item's box (`offsetTop`, `offsetHeight`). */
  datatype ItemBox = ItemBox(offsetTop: int, offsetHeight: int)

  /** What the arbiter measures once the content has been rendered:
      the song list's scroll height, the current-song slot's height with its
      vertical margins, the frame's maximum height, and the list items. */
  datatype Measure = Measure(
    sungHeight: int,
    currentBoxHeight: int,
    maxFrameHeight: int,
    items: seq<ItemBox>)

  /** `getCurrentSongHeight`: 0 while the slot is hidden, else its box. */
  function CurrentSongHeight(hasCurrent: bool, box: int): int {
    if hasCurrent then box else 0
  }

  /** `resetStyles`: stop scrolling and clear every inline style and mode
      class this core sets. The mode name survives, and so does everything
      `stopAutoScroll` leaves alone: the scroll position, direction, pause
      flag and the pause timeouts already scheduled. */
  function ResetStyles(f: Frame): (r: Frame)
    ensures r.classes == {} && !r.frameHidden && !r.currentPinned
    ensures r.frameHeight == r.frameMaxHeight == r.areaHeight == r.areaMaxHeight == Unset
    ensures r.areaPaddingBottom == r.listPaddingBottom == r.currentMarginTop == Unset
    ensures !r.scroll.active && r.scroll.scrollTop == 0
    ensures r.mode == f.mode && r.scroll.position == f.scroll.position
    ensures r.scroll.direction == f.scroll.direction && r.scroll.paused == f.scroll.paused
    ensures r.scroll.pending == f.scroll.pending
  {
    Frame(f.mode, {}, false, Unset, Unset, Unset, Unset, Unset, Unset, false, Unset, AutoScroll.Stop(f.scroll))
  }

  /** `setOnlyCurrentSongMode`: hide the frame, mark it `only-current-mode`. */
  function SetOnlyCurrentSongMode(f: Frame): (r: Frame)
    ensures r.frameHidden && r.classes == f.classes + {OnlyCurrentModeClass}
    ensures r.(frameHidden := f.frameHidden, classes := f.classes) == f
  {
    f.(frameHidden := true, classes := f.classes + {OnlyCurrentModeClass})
  }

  /** `setEmptyMode`: mark the frame `empty-mode` and pull the current song
      up by the configured offset. */
  function SetEmptyMode(f: Frame): (r: Frame)
    ensures r.classes == f.classes + {EmptyModeClass}
    ensures r.currentMarginTop == Px(-Config.OnlyCurrentSongTopMargin)
    ensures r.(classes := f.classes, currentMarginTop := f.currentMarginTop) == f
  {
    f.(classes := f.classes + {EmptyModeClass}, currentMarginTop := Px(-Config.OnlyCurrentSongTopMargin))
  }

  /** The scrollable area's height in fixed mode with a current song. */
  function AvailableHeight(maxFrameHeight: int, currentHeight: int): int {
    maxFrameHeight - currentHeight - Config.ExtraSpaceBuffer
  }

  /** The bottom edge of a list item. */
  function ItemBottom(b: ItemBox): int {
    b.offsetTop + b.offsetHeight
  }

  /** An item whose bottom edge, pushed down by the visibility offset, lies
      below the available height. */
  predicate ItemCut(b: ItemBox, available: int) {
    ItemBottom(b) + Config.ScrollVisibilityOffset > available
  }

  /** The result of `checkScrollingRequirement`: the list is taller than the
      available height less the safety margin, or some item would be cut. */
  predicate ScrollNeeded(sungHeight: int, available: int, items: seq<ItemBox>) {
    || sungHeight > available - Config.SafetyMargin
    || exists i :: 0 <= i < |items| && ItemCut(items[i], available)
  }

  /** `checkScrollingRequirement` as written: the height test first, then a
      scan of the items in order that stops at the first cut one. */
  method CheckScrollingRequirement(sungHeight: int, available: int, items: seq<ItemBox>)
    returns (shouldScroll: bool)
    ensures shouldScroll <==> ScrollNeeded(sungHeight, available, items)
  {
    shouldScroll := false;
    if sungHeight > available - Config.SafetyMargin {
      shouldScroll := true;
    }
    if !shouldScroll && |items| > 0 {
      var i := 0;
      while i < |items|
        invariant 0 <= i <= |items|
        invariant !shouldScroll ==> forall k :: 0 <= k < i ==> !ItemCut(items[k], available)
        invariant shouldScroll ==> ScrollNeeded(sungHeight, available, items)
        invariant !shouldScroll ==> sungHeight <= available - Config.SafetyMargin
      {
        if ItemBottom(items[i]) + Config.ScrollVisibilityOffset > available {
          shouldScroll := true;
          break;
        }
        i := i + 1;
      }
    }
  }

  /** `setFixedMode`: pin the frame to the maximum height. With a current
      song, pin the slot, shrink the scrollable area to the available height,
      pad the list by the slot's height plus half the buffer, and scroll only
      if needed. Without one, the area takes the whole height, the list is
      padded by the safety margin, and scrolling starts unconditionally. */
  function SetFixedMode(f: Frame, sungHeight: int, currentHeight: int, maxHeight: int,
                        hasCurrent: bool, items: seq<ItemBox>): (r: Frame)
    ensures r.frameHeight == Px(maxHeight) && r.classes == f.classes + {FixedModeClass}
    ensures hasCurrent ==>
      var available := maxHeight - currentHeight - Config.ExtraSpaceBuffer;
      && r.currentPinned
      && r.areaHeight == r.areaMaxHeight == Px(available)
      && r.listPaddingBottom == Px(currentHeight + Config.ExtraSpaceBuffer / 2)
      && (r.scroll.active <==> f.scroll.active || ScrollNeeded(sungHeight, available, items))
      && (ScrollNeeded(sungHeight, available, items) ==>
            r.scroll.position == 0 && r.scroll.direction == AutoScroll.Down && !r.scroll.paused
            && r.scroll.scrollTop == 0 && r.scroll.pending == f.scroll.pending)
      && (!ScrollNeeded(sungHeight, available, items) ==> r.scroll == f.scroll)
    ensures !hasCurrent ==>
      && r.currentPinned == f.currentPinned
      && r.areaHeight == r.areaMaxHeight == Px(maxHeight)
      && r.listPaddingBottom == Px(Config.SafetyMargin)
      && r.scroll.active && r.scroll.position == 0 && r.scroll.direction == AutoScroll.Down
      && !r.scroll.paused && r.scroll.scrollTop == 0 && r.scroll.pending == f.scroll.pending
    ensures r.mode == f.mode && r.frameHidden == f.frameHidden && r.currentMarginTop == f.currentMarginTop
    ensures r.areaPaddingBottom == f.areaPaddingBottom && r.frameMaxHeight == f.frameMaxHeight
  {
    var g := f.(frameHeight := Px(maxHeight), classes := f.classes + {FixedModeClass});
    if hasCurrent then
      var available := AvailableHeight(maxHeight, currentHeight);
      var h := g.(currentPinned := true, areaHeight := Px(available), areaMaxHeight := Px(available),
                  listPaddingBottom := Px(currentHeight + Config.ExtraSpaceBuffer / 2));
      if ScrollNeeded(sungHeight, available, items) then h.(scroll := AutoScroll.Start(h.scroll)) else h
    else
      g.(areaHeight := Px(maxHeight), areaMaxHeight := Px(maxHeight),
         listPaddingBottom := Px(Config.SafetyMargin), scroll := AutoScroll.Start(g.scroll))
  }

  /** `setNaturalMode`: frame and area fit their content, the slot follows
      the list, the list has no padding, and the area keeps a bottom padding
      only when there is no current song. */
  function SetNaturalMode(f: Frame, hasCurrent: bool): (r: Frame)
    ensures r.frameHeight == Auto && r.classes == f.classes + {NaturalModeClass}
    ensures r.areaHeight == Auto && r.areaMaxHeight == NoneValue
    ensures !r.currentPinned && r.listPaddingBottom == Px(0)
    ensures !hasCurrent ==> r.areaPaddingBottom == Px(Config.NaturalModeBottomPadding)
    ensures hasCurrent ==> r.areaPaddingBottom == Px(0)
    ensures r.scroll == f.scroll && r.mode == f.mode && r.frameHidden == f.frameHidden
  {
    f.(frameHeight := Auto, classes := f.classes + {NaturalModeClass},
       areaHeight := Auto, areaMaxHeight := NoneValue, currentPinned := false,
       listPaddingBottom := Px(0),
       areaPaddingBottom := if hasCurrent then Px(0) else Px(Config.NaturalModeBottomPadding))
  }

  /** Content plus safety margin exceeds the frame: the overflow test with
      its hysteresis margin. */
  predicate Overflows(sungHeight: int, currentHeight: int, maxFrameHeight: int) {
    sungHeight + currentHeight + Config.SafetyMargin > maxFrameHeight
  }

  /** The class each mode ends up with. The two content-free cases carry
      each other's class: the current-song-only case is marked `empty-mode`
      and the nothing-at-all case `only-current-mode`. */
  function ClassOf(m: DisplayMode): ModeClass {
    match m
    case Natural => NaturalModeClass
    case Fixed => FixedModeClass
    case OnlyCurrent => EmptyModeClass
    case Empty => OnlyCurrentModeClass
  }

  /** `adjustDisplayMode`. */
  function AdjustDisplayMode(f: Frame, hasSung: bool, hasCurrent: bool, m: Measure): (r: Frame)
    // exactly one mode class, the one of the chosen mode
    ensures r.classes == {ClassOf(r.mode)}
    // a current song and no list: pulled up, frame still shown
    ensures !hasSung && hasCurrent ==>
      && r.mode == OnlyCurrent && !r.frameHidden
      && r.currentMarginTop == Px(-Config.OnlyCurrentSongTopMargin)
    // nothing at all: the frame is hidden
    ensures !hasSung && !hasCurrent ==> r.mode == Empty && r.frameHidden
    // otherwise fixed exactly on overflow
    ensures hasSung ==>
      (r.mode == Fixed <==> Overflows(m.sungHeight, CurrentSongHeight(hasCurrent, m.currentBoxHeight), m.maxFrameHeight))
    ensures hasSung ==> r.mode == Fixed || r.mode == Natural
    // scrolling is only ever left running in fixed mode
    ensures r.scroll.active ==> r.mode == Fixed
    // entering fixed mode with scrolling restarts the controller from the top, moving down;
    // the pause timeouts already scheduled survive
    ensures r.mode == Fixed && !hasCurrent ==> r.scroll.active
    ensures r.scroll.active ==>
      && r.scroll.position == 0 && r.scroll.direction == AutoScroll.Down && !r.scroll.paused
      && r.scroll.scrollTop == 0 && r.scroll.pending == f.scroll.pending
    // otherwise the controller is stopped where it was
    ensures !r.scroll.active ==>
      && r.scroll.scrollTop == 0 && r.scroll.position == f.scroll.position
      && r.scroll.direction == f.scroll.direction && r.scroll.paused == f.scroll.paused
      && r.scroll.pending == f.scroll.pending
    ensures r.mode == Fixed ==> r.frameHeight == Px(m.maxFrameHeight) && !r.frameHidden
    ensures r.mode == Fixed && hasCurrent ==>
      var available := AvailableHeight(m.maxFrameHeight, m.currentBoxHeight);
      && r.currentPinned && r.areaHeight == Px(available)
      && r.listPaddingBottom == Px(m.currentBoxHeight + Config.ExtraSpaceBuffer / 2)
      && (r.scroll.active <==> ScrollNeeded(m.sungHeight, available, m.items))
    ensures r.mode == Fixed && !hasCurrent ==>
      r.areaHeight == Px(m.maxFrameHeight) && r.listPaddingBottom == Px(Config.SafetyMargin)
    ensures r.mode == Natural ==>
      && !r.currentPinned && !r.frameHidden
      && r.frameHeight == Auto && r.areaHeight == Auto && r.areaMaxHeight == NoneValue
      && r.listPaddingBottom == Px(0)
      && r.areaPaddingBottom == (if hasCurrent then Px(0) else Px(Config.NaturalModeBottomPadding))
  {
    var g := ResetStyles(f);
    if hasCurrent && !hasSung then
      SetEmptyMode(g.(mode := OnlyCurrent))
    else if !hasCurrent && !hasSung then
      SetOnlyCurrentSongMode(g.(mode := Empty))
    else
      var currentHeight := CurrentSongHeight(hasCurrent, m.currentBoxHeight);
      if Overflows(m.sungHeight, currentHeight, m.maxFrameHeight) then
        SetFixedMode(g.(mode := Fixed), m.sungHeight, currentHeight, m.maxFrameHeight, hasCurrent, m.items)
      else
        SetNaturalMode(g.(mode := Natural), hasCurrent)
  }

  /** Everything the arbiter styles, with the scroll controller reduced to
      whether it runs and where the area is scrolled to. */
  predicate SameStyling(a: Frame, b: Frame) {
    && a.mode == b.mode && a.classes == b.classes && a.frameHidden == b.frameHidden
    && a.frameHeight == b.frameHeight && a.frameMaxHeight == b.frameMaxHeight
    && a.areaHeight == b.areaHeight && a.areaMaxHeight == b.areaMaxHeight
    && a.areaPaddingBottom == b.areaPaddingBottom && a.listPaddingBottom == b.listPaddingBottom
    && a.currentPinned == b.currentPinned && a.currentMarginTop == b.currentMarginTop
    && a.scroll.active == b.scroll.active && a.scroll.scrollTop == b.scroll.scrollTop
  }

  /** Because every decision starts from `resetStyles`, nothing of the
      previous mode leaks into the next one: two frames styled differently
      come out styled the same. */
  lemma AdjustForgetsPrevious(f1: Frame, f2: Frame, hasSung: bool, hasCurrent: bool, m: Measure)
    ensures SameStyling(AdjustDisplayMode(f1, hasSung, hasCurrent, m), AdjustDisplayMode(f2, hasSung, hasCurrent, m))
  {
  }

  /** Without sung songs the outcome does not depend on any measurement. */
  lemma ContentFreeIgnoresHeights(f: Frame, hasCurrent: bool, m1: Measure, m2: Measure)
    ensures AdjustDisplayMode(f, false, hasCurrent, m1) == AdjustDisplayMode(f, false, hasCurrent, m2)
  {
  }

  /** A hidden current-song slot is never measured: with no current song
      the slot's box has no influence on the layout. */
  lemma HiddenSlotNotMeasured(f: Frame, hasSung: bool, m: Measure, box: int)
    ensures AdjustDisplayMode(f, hasSung, false, m)
      == AdjustDisplayMode(f, hasSung, false, m.(currentBoxHeight := box))
  {
  }

  /** Growing the content never turns a fixed layout back into a natural one
      (the overflow test is monotone in the measured heights). */
  lemma FixedIsMonotone(f: Frame, hasCurrent: bool, m: Measure, extra: nat)
    requires AdjustDisplayMode(f, true, hasCurrent, m).mode == Fixed
    ensures AdjustDisplayMode(f, true, hasCurrent, m.(sungHeight := m.sungHeight + extra)).mode == Fixed
  {
  }
}
