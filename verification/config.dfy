/** The display's tunable constants, in pixels and milliseconds. The timer
    periods are named for completeness; time itself is not modelled, so they
    appear only in documentation. */
module Config {
  const ScrollSpeed: int := 1
  const ScrollPauseTime: int := 1000
  const UpdateInterval: int := 500
  const ScrollInterval: int := 50
  const CurrentSongDefaultHeight: int := 86
  const ExtraSpaceBuffer: int := 30
  const ScrollVisibilityOffset: int := 180
  const SafetyMargin: int := 80
  const NaturalModeBottomPadding: int := 40
  const ExtraScrollSpace: int := 20
  const BottomScrollBuffer: int := 5
  const OnlyCurrentSongTopMargin: int := 40

  /** Literal offsets of the frame decoration: how far its right edge reaches
      past the frame's right edge, and how far its top sits above the frame's
      bottom. */
  const DecorationRightOverhang: int := 40
  const DecorationTopOverlap: int := 100

  /** Scroll distance between two opportunistic decoration refreshes. */
  const DecorationRefreshStep: int := 50
}
