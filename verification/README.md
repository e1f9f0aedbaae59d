# Karaoke "now singing / already sung" display — a Dafny model

This project models the core of `display.js`. That script shows a karaoke venue's list of songs already sung, plus the song being sung now, inside a bounded frame. It chooses a layout from measured heights and bounces the list up and down when it overflows.

The model covers these parts:

- **Change gate** (`ChangeGate`). The two stored texts are read, and a missing key reads as the empty text. The pipeline runs only when either text differs from the last one seen.
- **Content renderer** (`SongList`):
  - The sung-songs text is split on line feeds, and blank lines are dropped.
  - A line that starts with `//` becomes an unnumbered special entry, with its marker stripped.
  - Every other line is numbered from 1 by a counter that special lines do not advance.
  - The current-song slot is shown exactly when its text has a non-whitespace character.
- **Text normaliser** (`ZeroWidth`). `insertZeroWidthSpace` places the entity `&#8203;` between every pair of adjacent characters.
- **Layout arbiter** (`Layout`). `adjustDisplayMode` first calls `resetStyles`, then selects one of four modes:
  - current song only;
  - nothing at all;
  - natural;
  - fixed, entered when content plus the 80 px safety margin exceeds the maximum frame height.

  Each mode styles the frame, the scrollable area, the list and the current-song slot.
- **Scroll check** (`Layout.CheckScrollingRequirement`). The loop over the list items, which stops at the first item that would be cut.
- **Bounce-scroll controller** (`AutoScroll`). Start, tick, boundary handling, pause-timeout expiry, and stop.
- **Decoration synchroniser** (`Decoration`). The overlay's placement relative to the frame.
- **Pipeline** (`Display`). The pipeline is gate, then render, then arbiter, then decoration. The resize path is the arbiter followed by the decoration.

Quirks of the code that the model keeps as written:

- **Swapped mode classes in the content-free cases.** With a current song and no list, the mode is `only-current`, but the frame gets the `empty-mode` class and the slot is pulled up by 40 px. With nothing at all, the mode is `empty`, but the frame is hidden and gets the `only-current-mode` class (`Layout.ClassOf`).
- **The decoration is never hidden.** The comment on the hide branch (display.js:218) says the decoration should hide along with the frame. But the branch compares the mode with `'only-current-mode'` (display.js:217), and no mode has that name. So the decoration is made visible in every mode, including while the frame is hidden (`Decoration.DecorationAlwaysVisible`).
- **`stopAutoScroll` only partly resets.** It clears the interval and the scroll offset. It does not reset the scroll position, direction or pause flag, and it does not cancel pause timeouts that are already scheduled. A pending timeout is kept as a queue in `AutoScroll.State.pending`. When the timeout fires, it sets its direction and unpauses, even if the controller has been stopped.
- **Two ways into scrolling.** `setFixedMode` starts scrolling unconditionally when there is no current song. With a current song, it starts scrolling only when `checkScrollingRequirement` says so.

Time is not modelled. A tick and a pause-timeout expiry are events, and they may arrive in any order. Heights and bounding boxes are measurements made by the rendering surface, and they are passed in as integer parameters.

## Model

| member | source | states |
|---|---|---|
| ChangeGate.Observe | display.js:59-62 | A render happens iff the song-list text or the current-song text differs from the remembered one; afterwards both observed texts are remembered. |
| ChangeGate.ObserveIdempotent | display.js:54-79 | Observing the same texts a second time never triggers a render. |
| ChangeGate.NothingStoredRendersNothing | display.js:55-59 | With both keys missing, the very first update renders nothing. |
| Text.TrimSpec | display.js:87 | The trimmed line has no whitespace at either end, and it is empty iff the line is all whitespace, which is the blank-line filter's test. |
| Text.JoinLines | display.js:87 | Splitting on line feeds loses nothing: joining the pieces with line feeds gives back the text. |
| Text.LinesJoin | display.js:87 | Line-feed-free pieces joined by line feeds split back into exactly those pieces. |
| ZeroWidth.Insert | display.js:165-167 | The empty text stays empty; n ≥ 1 characters give n characters plus n − 1 separators of 7 characters each. |
| ZeroWidth.InsertLayout | display.js:165-167 | Input character i sits at output position 8i, and every gap between adjacent input characters holds exactly `&#8203;`. |
| ZeroWidth.RemoveAfterInsert | display.js:165-167 | Deleting the separators recovers the input, for every input. |
| ZeroWidth.SeparatorCount | display.js:165-167 | A text of n ≥ 1 characters gets exactly n − 1 separators, even when the text itself holds separator characters. |
| SongList.NonBlankKeepsNoBlank | display.js:87 | Every kept line is non-blank. |
| SongList.NonBlankSingle | display.js:87 | A single line is kept exactly when it is not blank. |
| SongList.NonBlankAppend | display.js:87 | Filtering a concatenation gives the concatenation of the filtered parts. Together with `NonBlankSingle`, this says the kept lines are exactly the non-blank ones, in their original order. |
| SongList.MakeEntry | display.js:98-106 | A `//` line becomes a special entry with the marker removed, and it leaves the counter alone. Any other line takes the counter's number and advances the counter by one. |
| SongList.NumberEntry | display.js:89-106 | Item i belongs to kept line i. A `//` line carries no number. An ordinary line's number is the start value plus the count of ordinary lines before it, so `//` lines do not advance the counter. |
| SongList.NumbersAreConsecutive | display.js:89-106 | The numbers handed out are exactly start, start+1, …, one per ordinary line, in list order. |
| SongList.ShowKeepsNumbers | display.js:98-110 | Building the list items keeps every number, in order, and adds none: a number span is filled exactly for a numbered item. |
| SongList.RenderEntry | display.js:87-106 | List item i belongs to kept line i: it is special exactly when the line starts with `//`, its text span holds that line's markup (marker stripped, trimmed, separators inserted), and a numbered item shows 1 plus the number of ordinary lines before it. |
| SongList.EntryOfLine | display.js:89-106 | For any lines and any start value of the counter, list item i is special exactly for a `//` line, holds line i's markup, and a numbered one shows the start value plus the ordinary lines before it. |
| SongList.ShowAllAt | display.js:89-110 | List item i is built from the line handled at step i of the loop, one item per step, in order. |
| SongList.RenderNumbering | display.js:85-106 | The number spans of a rendered list show 1..k in list order, where k is the number of non-blank lines less the special ones. |
| SongList.BlankLinesYieldNothing | display.js:87 | A text whose lines are all blank renders no entry. |
| SongList.UpdateSongList | display.js:85-112 | The loop with its mutable counter builds exactly the list that the positional numbering describes. |
| SongList.CurrentSong | display.js:126-147 | The slot is shown iff the text has a non-whitespace character. Its markup, with the separators removed, is the trimmed text. |
| Layout.HiddenSlotNotMeasured | display.js:173-176 | While the current-song slot is hidden, its box has no influence on the chosen mode or geometry: it counts as height 0. |
| Layout.ResetStyles | display.js:307-333 | Scrolling stops and the offset is 0, and every inline style and mode class that the arbiter sets is cleared. The mode name survives. So do the scroll position, direction, pause flag and the pause timeouts already scheduled. |
| Layout.SetOnlyCurrentSongMode | display.js:339-346 | The frame is hidden and gains the `only-current-mode` class. Nothing else changes. |
| Layout.SetEmptyMode | display.js:352-362 | The frame gains the `empty-mode` class, and the current-song slot's top margin becomes −40 px. Nothing else changes. |
| Layout.SetFixedMode | display.js:371-411 | The frame takes the maximum height. With a current song, the slot is pinned, the area gets the maximum height less the slot less 30, the list is padded by the slot plus 15, and scrolling starts iff it is needed. When it starts, the controller restarts from 0, moving down and unpaused; when it does not, the controller is untouched. Without a current song, the area takes the full height, the list is padded by 80, and scrolling always restarts the same way. Scheduled pause timeouts survive. |
| Layout.CheckScrollingRequirement | display.js:418-448 | The loop answers true iff the list is taller than the available height less 80, or some item's bottom plus 180 lies below the available height. |
| Layout.SetNaturalMode | display.js:455-477 | Frame and area fit their content, the slot is unpinned, and the list has no padding. The area has a 40 px bottom padding only when there is no current song. |
| Layout.AdjustDisplayMode | display.js:257-302 | Exactly one mode class is left, the one of the chosen mode. Current-only and nothing-at-all are told apart by content alone. With songs, fixed is chosen iff content plus 80 exceeds the maximum height. Scrolling runs only in fixed mode. When it runs, it was restarted from 0, moving down and unpaused; otherwise the controller is stopped where it was. The contract also gives the geometry of the fixed and natural modes (frame, area and list heights and paddings, slot pinning). |
| Layout.AdjustForgetsPrevious | display.js:307-333 | Because the arbiter starts from a reset, two differently styled frames come out styled identically for the same content and measurements. |
| Layout.ContentFreeIgnoresHeights | display.js:262-277 | Without sung songs the outcome does not depend on any measurement. |
| Layout.FixedIsMonotone | display.js:280-293 | Making the list taller never turns a fixed layout into a natural one. |
| Decoration.UpdateDecorationPosition | display.js:213-251 | Without the element nothing happens. Otherwise its CSS `right` is the container's right less the frame's right less 40, so its right edge lies 40 px beyond the frame's right edge. Its `top` is the frame's bottom, measured from the container's top, less 100. |
| Decoration.DecorationAlwaysVisible | display.js:217-224 | The hide branch never fires: with the element present the decoration is visible in every mode. |
| Decoration.PlacementIsRelative | display.js:227-241 | Moving frame and container together leaves the placement unchanged. |
| AutoScroll.Start | display.js:483-491 | After a start the controller runs unpaused from position 0, moving down, with the offset at 0. |
| AutoScroll.Stop | display.js:557-563 | The interval is gone and the offset is 0. Position, direction, pause flag and pending timeouts are unchanged. |
| AutoScroll.MaxScroll | display.js:497-499 | The scroll range is the list height plus 20 less the visible height, or 0 when that is negative. |
| AutoScroll.HandleBoundaries | display.js:527-552 | At or past the bottom (range + 5), an unpaused controller clamps there, pauses and schedules an upward resume. At or above the top, it clamps to 0, pauses and schedules a downward resume. In between, nothing changes. |
| AutoScroll.Tick | display.js:493-514 | A paused or stopped controller is untouched, and an empty range stops it. Otherwise it moves one pixel, stays within [0, range + 5], and pauses exactly when it reaches a boundary, scheduling the reverse direction. The offset follows the position. |
| AutoScroll.TickRefreshesDecoration | display.js:517-519 | A tick that returns early never refreshes the decoration. A tick that moves refreshes it iff the clamped position it lands on is a multiple of 50. So reaching the top always refreshes. |
| AutoScroll.Resume | display.js:535-549 | The oldest pending timeout sets its direction and unpauses, whether or not the controller still runs. With none pending nothing happens. |
| AutoScroll.ResumeAfterBottom | display.js:528-538 | With no earlier pause timeout pending, reaching the bottom and then letting the pause expire leaves the list moving up, unpaused. |
| AutoScroll.ResumeAfterTop | display.js:540-549 | With no earlier pause timeout pending, reaching the top and then letting the pause expire leaves the list moving down, unpaused. |
| AutoScroll.TickMonotone | display.js:508-511 | From a position in range, a tick never moves against the current direction. |
| AutoScroll.RunStaysInRange | display.js:493-552 | With fixed heights, any sequence of ticks and timeout expiries keeps the position within [0, range + 5]. |
| AutoScroll.TicksKeepDirection | display.js:493-514 | Ticks alone never reverse the direction; only a pause timeout does. |
| AutoScroll.StartInRange | display.js:487-491 | A start always puts the position in range. |
| Display.Relayout | display.js:576-580 | The settle or resize step re-runs the arbiter on the current content and the new measurements, so its frame and geometry are `AdjustDisplayMode`'s and exactly one mode class is left. Without songs the mode follows from the slot. With songs the measurements decide: fixed exactly when the list and the slot overflow the new maximum height, natural otherwise. Scrolling runs only in fixed mode. A present decoration is visible: its right edge lies 40 px beyond the frame's right edge and its top 100 px above the frame's bottom. An absent decoration leaves the last placement. Gate, entries and render count are unchanged. |
| Display.UpdateDisplay | display.js:54-79 | When either stored text changed, the gate remembers both, the list and the slot are re-rendered from them, and one render is counted. The arbiter then runs on the new content: one mode class is left, the mode follows from the entries and the slot, and scrolling runs only in fixed mode. The decoration is placed from the settled surface. Otherwise the whole display is unchanged. |
| Display.UpdateIdempotent | display.js:59-62 | A second update with the same stored values changes nothing, whatever the surface reports. |
| Display.CurrentOnlyScenario | display.js:262-267 | An empty list with a current song gives the current-only mode, a −40 px top margin and a shown slot. |
| Display.SongListScenario | display.js:85-106 | Two titles, a `//` line and a third title render as entries 1, 2, an unnumbered entry without the marker, and 3. |
| Display.MarkupOfSpecial | display.js:98-101 | A title prefixed with `//` is special, and its text span holds the title without the marker, separators inserted. |

## Left out

- DOM access. Element lookups, `innerHTML`, class lists and computed styles are not modelled. Heights, item boxes and bounding rectangles are integer parameters supplied by the rendering surface (`Layout.Measure`, `Display.Surface`).
- `getMaxFrameHeight` (display.js:191-207). It reads a CSS value and the window height, so the maximum frame height is a measurement parameter.
- Timers. The 500 ms poll, the 50 ms settle delay, the 100 ms decoration refresh after `updateCurrentSong`, the 250 ms resize debounce and the 1000 ms pause are all left out. Ticks and timeout expiries are events, and the pending timeouts fire in order. Only the last decoration update of a render is kept, because the earlier ones use the same geometry.
- Event listeners and `init` (display.js:584-615). The storage events, custom events, scroll events and startup are left out, because they only call the modelled operations.
- The ECG container and `console.log` calls in `updateCurrentSong` and `updateDecorationPosition`. They are cosmetic or diagnostic. That includes the logged right offset with its different constant of 20.
- Class bookkeeping outside the arbiter. The `special-format` class on list items and the slot's span structure are not modelled; an entry's kind and markup stand for them.
- The current-song slot before the first render. `adjustDisplayMode` tests the slot's inline `style.display` (display.js:263), which is empty until `updateCurrentSong` first runs. `Display.Initial` starts with the slot hidden. That is an assumption about the page: it must mark the slot `display: none` inline. Otherwise a resize before the first render would take the current-only branch.
- Characters. `split('')` works on UTF-16 code units, but the model splits into Dafny characters (Unicode scalar values). The browser therefore puts a separator between the two halves of a character outside the Basic Multilingual Plane, and the model does not.
- Numbers. Bounding rectangles and heights are fractional in a browser but are integers here. `parseInt` of the margins is folded into the measured slot height. The browser's clamping of `scrollTop` to the scrollable range is not modelled, so the model's offset is the value the code assigns.
- AutoScroll.Tick: a tick of a stopped controller is a no-op, standing for the interval that no longer exists.
