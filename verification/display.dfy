/** The display pipeline: the change gate, then the renderer, then (once
    the surface has settled) the layout arbiter and the decoration
    synchroniser. Measurements of the rendered surface arrive as values. */
module Display {
  import opened ChangeGate
  import opened SongList
  import Layout
  import Decoration
  import Text
  import ZeroWidth
  import Config

  /** What the rendering surface reports once it has laid out the content. */
  datatype Surface = Surface(
    measure: Layout.Measure,
    frameRect: Decoration.Rect,
    parentRect: Decoration.Rect,
    hasDecoration: bool)

  /** Everything the display holds: the gate, the rendered list and slot,
      the frame's styling, the decoration, and how many renders ran. */
  datatype Display = Display(
    gate: Gate,
    entries: seq<Entry>,
    current: CurrentView,
    frame: Layout.Frame,
    decoration: Decoration.Option<Decoration.Placement>,
    renders: nat)

  /** Before the first render: nothing listed, the slot hidden. */
  const Initial: Display :=
    Display(ChangeGate.Initial, [], Hidden, Layout.Initial, Decoration.None, 0)

  /** Where the decoration is placed for a surface: visible, its right edge
      40 px beyond the frame's right edge and its top 100 px above the frame's
      bottom, both relative to the container. */
  function DecorationAt(s: Surface): Decoration.Option<Decoration.Placement> {
    Decoration.Some(Decoration.Visible(
      s.parentRect.right - s.frameRect.right - Config.DecorationRightOverhang,
      s.frameRect.bottom - s.parentRect.top - Config.DecorationTopOverlap))
  }

  /** The settled-surface step: `adjustDisplayMode` followed by
      `updateDecorationPosition`. Also what a (debounced) resize runs. */
  function Relayout(d: Display, s: Surface): (r: Display)
    ensures r.frame.classes == {Layout.ClassOf(r.frame.mode)}
    ensures r.frame.scroll.active ==> r.frame.mode == Layout.Fixed
    ensures |d.entries| == 0 && d.current.Shown? ==> r.frame.mode == Layout.OnlyCurrent
    ensures |d.entries| == 0 && d.current.Hidden? ==> r.frame.mode == Layout.Empty && r.frame.frameHidden
    ensures |d.entries| > 0 ==> r.frame.mode in {Layout.Natural, Layout.Fixed}
    // with songs listed, the new measurements decide: fixed exactly on overflow
    ensures |d.entries| > 0 ==>
      (r.frame.mode == Layout.Fixed <==>
       Layout.Overflows(s.measure.sungHeight,
                        Layout.CurrentSongHeight(d.current.Shown?, s.measure.currentBoxHeight),
                        s.measure.maxFrameHeight))
    // the frame, geometry included, is the arbiter's on the current content and new measurements
    ensures r.frame == Layout.AdjustDisplayMode(d.frame, |d.entries| > 0, d.current.Shown?, s.measure)
    ensures s.hasDecoration ==> r.decoration == DecorationAt(s)
    ensures !s.hasDecoration ==> r.decoration == d.decoration
    ensures r.gate == d.gate && r.entries == d.entries && r.current == d.current && r.renders == d.renders
  {
    var frame := Layout.AdjustDisplayMode(d.frame, |d.entries| > 0, d.current.Shown?, s.measure);
    Decoration.DecorationAlwaysVisible(frame.mode, s.frameRect, s.parentRect);
    var decoration := Decoration.UpdateDecorationPosition(s.hasDecoration, frame.mode, s.frameRect, s.parentRect);
    d.(frame := frame, decoration := if decoration.Some? then decoration else d.decoration)
  }

  /** `updateDisplay`: read both keys; when either text changed, remember
      them, rebuild the list and the slot, and lay the frame out again.
      When neither changed, nothing at all happens. */
  function UpdateDisplay(d: Display, sung: Stored, current: Stored, s: Surface): (r: Display)
    ensures var changed := ReadStored(sung) != d.gate.lastSung || ReadStored(current) != d.gate.lastCurrent;
      && r.gate == Gate(ReadStored(sung), ReadStored(current))
      && r.renders == d.renders + (if changed then 1 else 0)
      && (!changed ==> r == d)
      && (changed ==> r.entries == Render(ReadStored(sung)) && r.current == CurrentSong(ReadStored(current)))
      // after a change the arbiter and the decoration run on the new content
      && (changed ==>
            && r.frame == Layout.AdjustDisplayMode(d.frame, |r.entries| > 0, r.current.Shown?, s.measure)
            && r.frame.classes == {Layout.ClassOf(r.frame.mode)}
            && (|r.entries| == 0 && r.current.Shown? ==> r.frame.mode == Layout.OnlyCurrent)
            && (|r.entries| == 0 && r.current.Hidden? ==> r.frame.mode == Layout.Empty && r.frame.frameHidden)
            && (|r.entries| > 0 ==> r.frame.mode in {Layout.Natural, Layout.Fixed})
            && (r.frame.scroll.active ==> r.frame.mode == Layout.Fixed)
            && (s.hasDecoration ==> r.decoration == DecorationAt(s))
            && (!s.hasDecoration ==> r.decoration == d.decoration))
  {
    var sungText := ReadStored(sung);
    var currentText := ReadStored(current);
    var o := Observe(d.gate, sungText, currentText);
    if !o.render then d
    else
      var rendered := d.(gate := o.gate, entries := Render(sungText), current := CurrentSong(currentText),
                         renders := d.renders + 1);
      Relayout(rendered, s)
  }

  /** Calling the pipeline twice with unchanged stored values renders once:
      the second call changes nothing, whatever the surface reports. */
  lemma UpdateIdempotent(d: Display, sung: Stored, current: Stored, s1: Surface, s2: Surface)
    ensures var once := UpdateDisplay(d, sung, current, s1);
      UpdateDisplay(once, sung, current, s2) == once
  {
  }

  /** A current song with an empty list always selects the current-only
      mode, pulled up by the configured offset, never the empty mode. */
  lemma CurrentOnlyScenario(d: Display, s: Surface)
    requires d.gate.lastCurrent != "Song X"
    ensures var r := UpdateDisplay(d, Present([]), Present("Song X"), s);
      && r.frame.mode == Layout.OnlyCurrent
      && r.frame.currentMarginTop == Layout.Px(-40)
      && r.current.Shown?
  {
    var r := UpdateDisplay(d, Present([]), Present("Song X"), s);
    assert Text.Lines([]) == [[]];
    Text.TrimSpec([]);
    assert NonBlank([[]]) == [];
    assert !Text.IsWhitespace("Song X"[0]);
  }

  /** A plain title: one line, no whitespace at either end. */
  predicate Title(t: string) {
    && |t| > 0 && '\n' !in t
    && !Text.IsWhitespace(t[0]) && !Text.IsWhitespace(t[|t| - 1])
  }

  /** Two songs, an intermission line marked `//`, a third song, one per
      line (for instance "Song A", "Song B", "//Intermission", "Song C"):
      the songs are numbered 1, 2 and 3, and the intermission carries no
      number and loses its marker. */
  lemma SongListScenario(a: string, b: string, m: string, c: string)
    requires Title(a) && Title(b) && Title(m) && Title(c)
    requires !IsSpecial(a) && !IsSpecial(b) && !IsSpecial(c)
    ensures Render(Text.Join([a, b, Marker + m, c]))
      == [Numbered(1, ZeroWidth.Insert(a)), Numbered(2, ZeroWidth.Insert(b)),
          Special(ZeroWidth.Insert(m)), Numbered(3, ZeroWidth.Insert(c))]
  {
    var ls := [a, b, Marker + m, c];
    assert '\n' !in Marker + m;
    Text.LinesJoin(ls);
    ScenarioKept(a, b, m, c);
    ScenarioShown(a, b, m, c);
  }

  /** Numbering two songs, a special line and a song, then building their
      list items from the lines' markup. */
  lemma ScenarioShown(a: string, b: string, m: string, c: string)
    requires Title(a) && Title(b) && Title(m) && Title(c)
    requires !IsSpecial(a) && !IsSpecial(b) && !IsSpecial(c)
    ensures ShowAll(Number([a, b, Marker + m, c], 1))
      == [Numbered(1, ZeroWidth.Insert(a)), Numbered(2, ZeroWidth.Insert(b)),
          Special(ZeroWidth.Insert(m)), Numbered(3, ZeroWidth.Insert(c))]
  {
    MarkupOfSpecial(m);
    NumberFour(a, b, Marker + m, c);
    ShowFour(NumberedLine(1, a), NumberedLine(2, b), SpecialLine(Marker + m), NumberedLine(3, c));
    MarkupOfSong(a);
    MarkupOfSong(b);
    MarkupOfSong(c);
  }

  /** The markup of a plain song title is the title with separators inserted. */
  lemma MarkupOfSong(t: string)
    requires Title(t) && !IsSpecial(t)
    ensures Markup(t) == ZeroWidth.Insert(t)
  {
    Text.TrimUntouched(t);
  }

  /** A marked title is special, and its markup is the title without the
      marker, separators inserted. */
  lemma MarkupOfSpecial(t: string)
    requires Title(t)
    ensures IsSpecial(Marker + t)
    ensures Markup(Marker + t) == ZeroWidth.Insert(t)
  {
    assert (Marker + t)[..|Marker|] == Marker && (Marker + t)[|Marker|..] == t;
    Text.TrimUntouched(t);
  }

  /** Building the list items of four items, one by one. */
  lemma ShowFour(i1: Item, i2: Item, i3: Item, i4: Item)
    ensures ShowAll([i1, i2, i3, i4]) == [Show(i1), Show(i2), Show(i3), Show(i4)]
  {
    assert [i4][1..] == [];
    assert ShowAll([i4]) == [Show(i4)];
    assert [i3, i4][1..] == [i4];
    assert ShowAll([i3, i4]) == [Show(i3)] + ShowAll([i4]);
    assert [i2, i3, i4][1..] == [i3, i4];
    assert ShowAll([i2, i3, i4]) == [Show(i2)] + ShowAll([i3, i4]);
    assert [i1, i2, i3, i4][1..] == [i2, i3, i4];
    assert ShowAll([i1, i2, i3, i4]) == [Show(i1)] + ShowAll([i2, i3, i4]);
  }

  /** No line of the scenario is blank: trimming leaves every title as it is. */
  lemma ScenarioKept(a: string, b: string, m: string, c: string)
    requires Title(a) && Title(b) && Title(m) && Title(c)
    ensures NonBlank([a, b, Marker + m, c]) == [a, b, Marker + m, c]
  {
    var ls := [a, b, Marker + m, c];
    Text.TrimUntouched(a);
    Text.TrimUntouched(b);
    Text.TrimUntouched(c);
    Text.TrimUntouched(Marker + m);
    assert NonBlank(ls[3..]) == ls[3..];
    assert NonBlank(ls[2..]) == ls[2..];
    assert NonBlank(ls[1..]) == ls[1..];
  }

  /** Numbering two songs, a special line and a song. */
  lemma NumberFour(a: string, b: string, c: string, e: string)
    requires !IsSpecial(a) && !IsSpecial(b) && IsSpecial(c) && !IsSpecial(e)
    ensures Number([a, b, c, e], 1)
      == [NumberedLine(1, a), NumberedLine(2, b), SpecialLine(c), NumberedLine(3, e)]
  {
    assert [e][1..] == [];
    assert Number([e], 3) == [NumberedLine(3, e)];
    assert [c, e][1..] == [e];
    assert Number([c, e], 3) == [SpecialLine(c)] + Number([e], 3);
    assert [b, c, e][1..] == [c, e];
    assert Number([b, c, e], 2) == [NumberedLine(2, b)] + Number([c, e], 3);
    assert [a, b, c, e][1..] == [b, c, e];
    assert Number([a, b, c, e], 1) == [NumberedLine(1, a)] + Number([b, c, e], 2);
  }
}
