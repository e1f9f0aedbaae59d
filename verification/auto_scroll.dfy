/** The bounce-scroll controller: a periodic tick moves the list one pixel
    in the current direction, pauses at either boundary, and a pause timeout
    later flips the direction and resumes. Time is not modelled: the tick and
    the expiry of a pause timeout are events that may arrive in any order. */
module AutoScroll {
  import Config

  /** `STATE.scrollDirection`: `Down` is +1, `Up` is -1. */
  datatype Direction = Down | Up

  function Step(d: Direction): (k: int)
    ensures k == 1 || k == -1
    ensures k > 0 <==> d == Down
  {
    match d
    case Down => 1
    case Up => -1
  }

  /** The controller's state.
      - `position`: `STATE.scrollPosition`;
      - `direction`, `paused`: `STATE.scrollDirection`, `STATE.isPaused`;
      - `active`: whether the tick interval is installed;
      - `scrollTop`: the offset applied to the scrollable area;
      - `pending`: pause timeouts scheduled and not yet fired, oldest first,
        each holding the direction it will set. Stopping the controller does
        not cancel them. */
  datatype State = State(
    position: int,
    direction: Direction,
    paused: bool,
    active: bool,
    scrollTop: int,
    pending: seq<Direction>)

  /** The state before any scrolling has been started. */
  const Initial: State := State(0, Down, false, false, 0, [])

  /** `stopAutoScroll`: the interval is cleared and the offset reset; the
      position, the direction and pending timeouts are left as they are. */
  function Stop(s: State): (r: State)
    ensures !r.active && r.scrollTop == 0
    ensures r.position == s.position && r.direction == s.direction
    ensures r.paused == s.paused && r.pending == s.pending
  {
    s.(active := false, scrollTop := 0)
  }

  /** `startAutoScroll`: stop, then restart from the top moving down. */
  function Start(s: State): (r: State)
    ensures r.active && !r.paused && r.direction == Down
    ensures r.position == 0 && r.scrollTop == 0
    ensures r.pending == s.pending
  {
    Stop(s).(position := 0, direction := Down, paused := false, active := true, scrollTop := 0)
  }

  /** `Math.max(0, listHeight + extraScrollSpace - clientHeight)`. */
  function MaxScroll(listScrollHeight: int, clientHeight: int): (m: int)
    ensures m >= 0 && m >= listScrollHeight + Config.ExtraScrollSpace - clientHeight
    ensures m == 0 || m == listScrollHeight + Config.ExtraScrollSpace - clientHeight
  {
    var h := listScrollHeight + Config.ExtraScrollSpace - clientHeight;
    if h > 0 then h else 0
  }

  /** The lowest position the list can rest at. */
  function Bottom(maxScroll: int): int {
    maxScroll + Config.BottomScrollBuffer
  }

  /** `handleScrollBoundaries`: past the bottom, clamp and pause with an
      upward resume scheduled; at or above the top, clamp to 0 and pause with
      a downward resume scheduled; otherwise nothing. */
  function HandleBoundaries(s: State, maxScroll: int): (r: State)
    ensures r.direction == s.direction && r.active == s.active && r.scrollTop == s.scrollTop
    ensures s.position >= Bottom(maxScroll) && !s.paused ==>
      r.position == Bottom(maxScroll) && r.paused && r.pending == s.pending + [Up]
    ensures s.position <= 0 && s.position < Bottom(maxScroll) && !s.paused ==>
      r.position == 0 && r.paused && r.pending == s.pending + [Down]
    ensures 0 < s.position < Bottom(maxScroll) ==> r == s
  {
    if s.position >= Bottom(maxScroll) then
      if !s.paused then s.(paused := true, position := Bottom(maxScroll), pending := s.pending + [Up])
      else s
    else if s.position <= 0 then
      if !s.paused then s.(paused := true, position := 0, pending := s.pending + [Down])
      else s
    else s
  }

  /** One period of the scroll interval, given the list's scroll height and
      the area's client height at that moment. */
  function Tick(s: State, listScrollHeight: int, clientHeight: int): (r: State)
    // no interval installed, or paused: nothing happens
    ensures !s.active || s.paused ==> r == s
    // nothing to scroll: the controller stops
    ensures s.active && !s.paused && MaxScroll(listScrollHeight, clientHeight) <= 0 ==>
      r == Stop(s)
    // otherwise the list moves one step, stays in range, and pauses exactly at a boundary
    ensures s.active && !s.paused && MaxScroll(listScrollHeight, clientHeight) > 0 ==>
      var m := MaxScroll(listScrollHeight, clientHeight);
      var moved := s.position + Step(s.direction) * Config.ScrollSpeed;
      && r.active && r.direction == s.direction
      && 0 <= r.position <= Bottom(m)
      && r.scrollTop == r.position
      && (r.paused <==> moved >= Bottom(m) || moved <= 0)
      && (moved >= Bottom(m) ==> r.position == Bottom(m) && r.pending == s.pending + [Up])
      && (0 < moved < Bottom(m) ==> r.position == moved && r.pending == s.pending)
      && (moved <= 0 ==> r.position == 0 && r.pending == s.pending + [Down])
  {
    if !s.active || s.paused then s
    else
      var m := MaxScroll(listScrollHeight, clientHeight);
      if m <= 0 then Stop(s)
      else
        var moved := s.(position := s.position + Step(s.direction) * Config.ScrollSpeed);
        var b := HandleBoundaries(moved, m);
        b.(scrollTop := b.position)
  }

  /** Whether this tick also refreshes the decoration. A tick that returns
      early (stopped, paused, or nothing to scroll) never does; a tick that
      moves does so exactly when the position it lands on, after clamping
      into the range, is a multiple of the refresh step. Positions are never
      negative here, so the host's remainder and Dafny's agree. */
  function TickRefreshesDecoration(s: State, listScrollHeight: int, clientHeight: int): (b: bool)
    ensures !(s.active && !s.paused && MaxScroll(listScrollHeight, clientHeight) > 0) ==> !b
    ensures s.active && !s.paused && MaxScroll(listScrollHeight, clientHeight) > 0 ==>
      var m := MaxScroll(listScrollHeight, clientHeight);
      var moved := s.position + Step(s.direction) * Config.ScrollSpeed;
      var landed := if moved >= Bottom(m) then Bottom(m) else if moved <= 0 then 0 else moved;
      (b <==> landed % Config.DecorationRefreshStep == 0)
    // reaching the top lands on 0, which always triggers a refresh
    ensures (&& s.active && !s.paused && MaxScroll(listScrollHeight, clientHeight) > 0
             && s.position + Step(s.direction) * Config.ScrollSpeed <= 0) ==> b
  {
    s.active && !s.paused && MaxScroll(listScrollHeight, clientHeight) > 0
    && Tick(s, listScrollHeight, clientHeight).position % Config.DecorationRefreshStep == 0
  }

  /** The oldest pending pause timeout fires: it sets its direction and
      unpauses, whether or not the controller is still running. With no
      timeout pending nothing happens. */
  function Resume(s: State): (r: State)
    ensures |s.pending| == 0 ==> r == s
    ensures |s.pending| > 0 ==>
      && r.direction == s.pending[0] && !r.paused && r.pending == s.pending[1..]
      && r.position == s.position && r.active == s.active && r.scrollTop == s.scrollTop
  {
    if |s.pending| == 0 then s
    else s.(direction := s.pending[0], paused := false, pending := s.pending[1..])
  }

  /** The controller's events. */
  datatype Event = TickEvent | ResumeEvent

  /** Applies a sequence of events while the measured heights stay fixed. */
  function Run(s: State, events: seq<Event>, listScrollHeight: int, clientHeight: int): State
    decreases |events|
  {
    if |events| == 0 then s
    else
      var next := match events[0]
        case TickEvent => Tick(s, listScrollHeight, clientHeight)
        case ResumeEvent => Resume(s);
      Run(next, events[1..], listScrollHeight, clientHeight)
  }

  /** The position lies between the top and the lowest resting position. */
  predicate InRange(s: State, maxScroll: int) {
    0 <= s.position <= Bottom(maxScroll)
  }

  /** Reaching the bottom schedules an upward resume: when it fires the list
      moves up again. */
  lemma ResumeAfterBottom(s: State, listScrollHeight: int, clientHeight: int)
    requires s.active && !s.paused && |s.pending| == 0
    requires s.position + Step(s.direction) >= Bottom(MaxScroll(listScrollHeight, clientHeight))
    requires MaxScroll(listScrollHeight, clientHeight) > 0
    ensures var r := Resume(Tick(s, listScrollHeight, clientHeight));
      r.direction == Up && !r.paused && r.pending == []
  {
  }

  /** Reaching the top schedules a downward resume. */
  lemma ResumeAfterTop(s: State, listScrollHeight: int, clientHeight: int)
    requires s.active && !s.paused && |s.pending| == 0
    requires s.position + Step(s.direction) <= 0
    requires MaxScroll(listScrollHeight, clientHeight) > 0
    ensures var r := Resume(Tick(s, listScrollHeight, clientHeight));
      r.direction == Down && !r.paused && r.pending == []
  {
  }

  /** With the heights held fixed, a tick never moves the list up while the
      direction is down, nor down while it is up. */
  lemma TickMonotone(s: State, listScrollHeight: int, clientHeight: int)
    requires InRange(s, MaxScroll(listScrollHeight, clientHeight))
    ensures var r := Tick(s, listScrollHeight, clientHeight);
      && (s.direction == Down ==> r.position >= s.position)
      && (s.direction == Up ==> r.position <= s.position)
  {
  }

  /** With the heights held fixed, every run of ticks and resumes from a
      state in range stays in range. */
  lemma {:induction false} RunStaysInRange(s: State, events: seq<Event>, listScrollHeight: int, clientHeight: int)
    requires InRange(s, MaxScroll(listScrollHeight, clientHeight))
    ensures InRange(Run(s, events, listScrollHeight, clientHeight), MaxScroll(listScrollHeight, clientHeight))
    decreases |events|
  {
    if |events| > 0 {
      var next := match events[0]
        case TickEvent => Tick(s, listScrollHeight, clientHeight)
        case ResumeEvent => Resume(s);
      RunStaysInRange(next, events[1..], listScrollHeight, clientHeight);
    }
  }

  /** A run that only ticks never changes the direction: reversals come only
      from pause timeouts. */
  lemma {:induction false} TicksKeepDirection(s: State, n: nat, listScrollHeight: int, clientHeight: int)
    ensures Run(s, seq(n, _ => TickEvent), listScrollHeight, clientHeight).direction == s.direction
    decreases n
  {
    if n > 0 {
      var events := seq(n, _ => TickEvent);
      assert events[1..] == seq(n - 1, _ => TickEvent);
      TicksKeepDirection(Tick(s, listScrollHeight, clientHeight), n - 1, listScrollHeight, clientHeight);
    }
  }

  /** Starting always puts the list in range, whatever came before. */
  lemma StartInRange(s: State, maxScroll: int)
    requires maxScroll >= 0
    ensures InRange(Start(s), maxScroll)
  {
  }
}
