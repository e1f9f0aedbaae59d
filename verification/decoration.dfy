/** The decoration synchroniser: the cosmetic overlay beside the list frame
    is repositioned from the frame's and its container's bounding boxes.
    The hide branch compares the display mode with a name no mode carries,
    so the decoration is always made visible, even while the frame is hidden. */
module Decoration {
  import Config
  import Layout

  /** A bounding box in integer pixels. */
  datatype Rect = Rect(top: int, right: int, bottom: int, left: int)

  /** The decoration's styling: hidden (opacity 0), or visible with the
      `right` and `top` offsets it is placed at. */
  datatype Placement = Hidden | Visible(right: int, top: int)

  /** An optional result. */
  datatype Option<T> = None | Some(value: T)

  /** The name the hide branch tests for. */
  const HiddenModeName: string := "only-current-mode"

  /** `updateDecorationPosition`. `None` when the decoration element or the
      frame is missing, in which case nothing is touched. Otherwise the CSS
      `right` offset, measured from the container's right edge, puts the
      decoration's right edge `DecorationRightOverhang` pixels beyond the
      frame's right edge, and its top is the frame's bottom relative to the
      container, less `DecorationTopOverlap`. */
  function UpdateDecorationPosition(present: bool, mode: Layout.DisplayMode, frame: Rect, parent: Rect)
    : (p: Option<Placement>)
    ensures !present ==> p.None?
    ensures present && Layout.ModeName(mode) != HiddenModeName ==>
      p == Some(Visible(parent.right - frame.right - Config.DecorationRightOverhang,
                        frame.bottom - parent.top - Config.DecorationTopOverlap))
  {
    if !present then None
    else if Layout.ModeName(mode) == HiddenModeName then Some(Hidden)
    else
      var relativeBottom := frame.bottom - parent.top;
      Some(Visible(parent.right - frame.right - Config.DecorationRightOverhang,
                   relativeBottom - Config.DecorationTopOverlap))
  }

  /** No display mode is named `only-current-mode`, so whenever the element
      exists the decoration is visible, whatever the mode. */
  lemma {:induction false} DecorationAlwaysVisible(mode: Layout.DisplayMode, frame: Rect, parent: Rect)
    ensures UpdateDecorationPosition(true, mode, frame, parent).Some?
    ensures UpdateDecorationPosition(true, mode, frame, parent).value.Visible?
  {
    match mode
    case Natural => assert Layout.ModeName(mode)[0] != HiddenModeName[0];
    case Fixed => assert Layout.ModeName(mode)[0] != HiddenModeName[0];
    case Empty => assert Layout.ModeName(mode)[0] != HiddenModeName[0];
    case OnlyCurrent => assert |Layout.ModeName(mode)| != |HiddenModeName|;
  }

  /** Moving the frame and its container together leaves the placement
      unchanged: it depends only on their relative geometry. */
  lemma PlacementIsRelative(present: bool, mode: Layout.DisplayMode, frame: Rect, parent: Rect, dx: int, dy: int)
    ensures
      var shift := (r: Rect) => Rect(r.top + dy, r.right + dx, r.bottom + dy, r.left + dx);
      UpdateDecorationPosition(present, mode, shift(frame), shift(parent))
        == UpdateDecorationPosition(present, mode, frame, parent)
  {
  }
}
