/** The content renderer: the sung-songs text becomes a list of entries,
    and the current-song text becomes a shown or hidden slot. */
module SongList {
  import opened Text
  import ZeroWidth

  /** One rendered list item: a numbered song, or a special-format line that
      carries no number. `html` is the markup placed in the text span. */
  datatype Entry = Numbered(number: nat, html: string) | Special(html: string)

  /** The current-song slot: hidden (`display: none`) or shown with markup. */
  datatype CurrentView = Hidden | Shown(html: string)

  /** The two-character prefix that marks a special-format line. */
  const Marker: string := "//"

  /** The prefix test is made on the untrimmed line. */
  predicate IsSpecial(line: string) {
    StartsWith(line, Marker)
  }

  /** The text-span markup of a line: marker stripped (special lines only),
      trimmed, separators inserted. */
  function Markup(line: string): string {
    if IsSpecial(line) then ZeroWidth.Insert(Trim(line[|Marker|..]))
    else ZeroWidth.Insert(Trim(line))
  }

  /** The lines kept by `filter(song => song.trim() !== '')`, in order.
      `NonBlankKeepsNoBlank`, `NonBlankSingle` and `NonBlankAppend` say
      which lines are kept and that their order is preserved. */
  function NonBlank(lines: seq<string>): (r: seq<string>)
    ensures |r| <= |lines|
  {
    if |lines| == 0 then []
    else if IsBlank(lines[0]) then NonBlank(lines[1..])
    else [lines[0]] + NonBlank(lines[1..])
  }

  /** No kept line is blank. */
  lemma {:induction false} NonBlankKeepsNoBlank(lines: seq<string>)
    ensures forall k :: 0 <= k < |NonBlank(lines)| ==> !IsBlank(NonBlank(lines)[k])
  {
    if |lines| > 0 {
      NonBlankKeepsNoBlank(lines[1..]);
    }
  }

  /** A single line is kept exactly when it is not blank. */
  lemma NonBlankSingle(line: string)
    ensures NonBlank([line]) == if IsBlank(line) then [] else [line]
  {
    assert [line][1..] == [];
  }

  /** The filter works line by line: filtering a concatenation is the
      concatenation of the filtered parts, so kept lines keep their order. */
  lemma {:induction false} NonBlankAppend(a: seq<string>, b: seq<string>)
    ensures NonBlank(a + b) == NonBlank(a) + NonBlank(b)
  {
    if |a| == 0 {
      assert a + b == b;
    } else {
      assert (a + b)[0] == a[0];
      assert (a + b)[1..] == a[1..] + b;
      NonBlankAppend(a[1..], b);
    }
  }

  /** Number of special-format lines. */
  function SpecialCount(lines: seq<string>): nat {
    if |lines| == 0 then 0
    else (if IsSpecial(lines[0]) then 1 else 0) + SpecialCount(lines[1..])
  }

  /** Number of ordinary (numbered) lines. */
  function OrdinaryCount(lines: seq<string>): nat {
    if |lines| == 0 then 0
    else (if IsSpecial(lines[0]) then 0 else 1) + OrdinaryCount(lines[1..])
  }

  /** Every line is either special or ordinary. */
  lemma {:induction false} CountsPartition(lines: seq<string>)
    ensures OrdinaryCount(lines) + SpecialCount(lines) == |lines|
  {
    if |lines| > 0 {
      CountsPartition(lines[1..]);
    }
  }

  /** Appending one line adds one to the ordinary count unless it is special. */
  lemma {:induction false} OrdinaryCountSnoc(lines: seq<string>, line: string)
    ensures OrdinaryCount(lines + [line]) == OrdinaryCount(lines) + (if IsSpecial(line) then 0 else 1)
  {
    if |lines| == 0 {
      assert lines + [line] == [line];
    } else {
      assert (lines + [line])[1..] == lines[1..] + [line];
      OrdinaryCountSnoc(lines[1..], line);
    }
  }

  /** A kept line with what the loop gives it: the counter's value for an
      ordinary line, no number for a special one. */
  datatype Item = NumberedLine(number: nat, line: string) | SpecialLine(line: string)

  /** The item for one line, given the counter value when it is reached. */
  function ItemFor(line: string, counter: nat): Item {
    if IsSpecial(line) then SpecialLine(line) else NumberedLine(counter, line)
  }

  /** The `forEach` over the kept lines, with the counter starting at
      `counter`: one item per line, in order. */
  function Number(lines: seq<string>, counter: nat): (r: seq<Item>)
    ensures |r| == |lines|
  {
    if |lines| == 0 then []
    else
      var next := if IsSpecial(lines[0]) then counter else counter + 1;
      [ItemFor(lines[0], counter)] + Number(lines[1..], next)
  }

  /** Counting the ordinary lines of a prefix one line at a time. */
  lemma OrdinaryCountOfPrefix(lines: seq<string>, i: nat)
    requires 0 < i <= |lines|
    ensures OrdinaryCount(lines[..i]) ==
      (if IsSpecial(lines[0]) then 0 else 1) + OrdinaryCount(lines[1..][..i - 1])
  {
    assert lines[..i][1..] == lines[1..][..i - 1];
  }

  /** Item `i` is the item of line `i`: special lines carry no number, and
      an ordinary line gets `counter` plus the number of ordinary lines
      before it, so special lines do not advance the counter. */
  lemma {:induction false} NumberEntry(lines: seq<string>, counter: nat, i: nat)
    requires i < |lines|
    ensures Number(lines, counter)[i] == ItemFor(lines[i], counter + OrdinaryCount(lines[..i]))
  {
    var next := if IsSpecial(lines[0]) then counter else counter + 1;
    if i == 0 {
      assert lines[..0] == [];
    } else {
      var rest := Number(lines[1..], next);
      NumberEntry(lines[1..], next, i - 1);
      assert Number(lines, counter) == [ItemFor(lines[0], counter)] + rest;
      assert Number(lines, counter)[i] == rest[i - 1];
      OrdinaryCountOfPrefix(lines, i);
      assert lines[1..][i - 1] == lines[i];
      assert counter + OrdinaryCount(lines[..i]) == next + OrdinaryCount(lines[1..][..i - 1]);
    }
  }

  /** `Number` is the only list that has the item of every line at its
      index. */
  lemma NumberUnique(lines: seq<string>, counter: nat, items: seq<Item>)
    requires |items| == |lines|
    requires forall k :: 0 <= k < |lines| ==>
      items[k] == ItemFor(lines[k], counter + OrdinaryCount(lines[..k]))
    ensures items == Number(lines, counter)
  {
    forall k | 0 <= k < |lines|
      ensures items[k] == Number(lines, counter)[k]
    {
      NumberEntry(lines, counter, k);
    }
  }

  /** The numbers carried by the numbered items, in list order. */
  function Numbers(items: seq<Item>): seq<nat> {
    if |items| == 0 then []
    else if items[0].NumberedLine? then [items[0].number] + Numbers(items[1..])
    else Numbers(items[1..])
  }

  /** The consecutive run `from, from + 1, ..., from + n - 1`. */
  function Range(from: nat, n: nat): (r: seq<nat>)
    ensures |r| == n
    ensures forall i :: 0 <= i < n ==> r[i] == from + i
    decreases n
  {
    if n == 0 then [] else [from] + Range(from + 1, n - 1)
  }

  /** The numbers handed out are exactly `counter .. counter + k - 1` for k
      ordinary lines, consecutive and in order. */
  lemma {:induction false} NumbersAreConsecutive(lines: seq<string>, counter: nat)
    ensures Numbers(Number(lines, counter)) == Range(counter, OrdinaryCount(lines))
  {
    if |lines| > 0 {
      var next := if IsSpecial(lines[0]) then counter else counter + 1;
      NumbersAreConsecutive(lines[1..], next);
      var r := Number(lines, counter);
      assert r[1..] == Number(lines[1..], next);
    }
  }

  /** The list item built for an item: the number span holds its number
      (empty for a special line) and the text span its markup. */
  function Show(item: Item): Entry {
    match item
    case NumberedLine(n, l) => Numbered(n, Markup(l))
    case SpecialLine(l) => Special(Markup(l))
  }

  /** The list items built for a sequence of items, in order. */
  function ShowAll(items: seq<Item>): (r: seq<Entry>)
    ensures |r| == |items|
  {
    if |items| == 0 then [] else [Show(items[0])] + ShowAll(items[1..])
  }

  /** Building one more list item appends it at the end. */
  lemma {:induction false} ShowAllSnoc(items: seq<Item>, item: Item)
    ensures ShowAll(items + [item]) == ShowAll(items) + [Show(item)]
  {
    if |items| == 0 {
      assert items + [item] == [item];
    } else {
      assert (items + [item])[0] == items[0];
      assert (items + [item])[1..] == items[1..] + [item];
      ShowAllSnoc(items[1..], item);
    }
  }

  /** List item `i` is built from item `i`. */
  lemma {:induction false} ShowAllAt(items: seq<Item>, i: nat)
    requires i < |items|
    ensures ShowAll(items)[i] == Show(items[i])
  {
    if i > 0 {
      ShowAllAt(items[1..], i - 1);
    }
  }

  /** The numbers shown in the number spans of a list, in order. */
  function ShownNumbers(entries: seq<Entry>): seq<nat> {
    if |entries| == 0 then []
    else if entries[0].Numbered? then [entries[0].number] + ShownNumbers(entries[1..])
    else ShownNumbers(entries[1..])
  }

  /** Building the list items neither adds, drops nor reorders numbers. */
  lemma {:induction false} ShowKeepsNumbers(items: seq<Item>)
    ensures ShownNumbers(ShowAll(items)) == Numbers(items)
  {
    if |items| > 0 {
      ShowKeepsNumbers(items[1..]);
      var r := ShowAll(items);
      assert r[0] == Show(items[0]);
      assert r[1..] == ShowAll(items[1..]);
      assert r[0].Numbered? == items[0].NumberedLine?;
      assert r[0].Numbered? ==> r[0].number == items[0].number;
    }
  }

  /** `updateSongList` as a pure function of the stored text. */
  function Render(text: string): (r: seq<Entry>)
    ensures |r| == |NonBlank(Lines(text))|
  {
    ShowAll(Number(NonBlank(Lines(text)), 1))
  }

  /** List item `i` belongs to kept line `i`: it is special exactly when the
      line starts with `//`, its text span holds the line's markup, and a
      numbered item shows one more than the ordinary lines before it. */
  lemma RenderEntry(text: string, i: nat)
    requires i < |NonBlank(Lines(text))|
    ensures var kept := NonBlank(Lines(text));
      var e := Render(text)[i];
      && (e.Special? <==> IsSpecial(kept[i]))
      && e.html == Markup(kept[i])
      && (e.Numbered? ==> e.number == 1 + OrdinaryCount(kept[..i]))
  {
    EntryOfLine(NonBlank(Lines(text)), 1, i);
  }

  /** The same for any list of lines and any start value of the counter. */
  lemma EntryOfLine(lines: seq<string>, counter: nat, i: nat)
    requires i < |lines|
    ensures var e := ShowAll(Number(lines, counter))[i];
      && (e.Special? <==> IsSpecial(lines[i]))
      && e.html == Markup(lines[i])
      && (e.Numbered? ==> e.number == counter + OrdinaryCount(lines[..i]))
  {
    NumberEntry(lines, counter, i);
    ShowAllAt(Number(lines, counter), i);
    ShowItemFor(lines[i], counter + OrdinaryCount(lines[..i]));
  }

  /** The list item of one line: special exactly for a `//` line, holding the
      line's markup, and numbered with the counter otherwise. */
  lemma ShowItemFor(line: string, counter: nat)
    ensures var e := Show(ItemFor(line, counter));
      && (e.Special? <==> IsSpecial(line))
      && e.html == Markup(line)
      && (e.Numbered? ==> e.number == counter)
  {
  }

  /** Every non-blank line yields one list item, in order; the numbered ones
      show 1..k with k = non-blank lines minus special lines. */
  lemma RenderNumbering(text: string)
    ensures var kept := NonBlank(Lines(text));
      && ShownNumbers(Render(text)) == Range(1, OrdinaryCount(kept))
      && OrdinaryCount(kept) == |kept| - SpecialCount(kept)
  {
    var kept := NonBlank(Lines(text));
    ShowKeepsNumbers(Number(kept, 1));
    NumbersAreConsecutive(kept, 1);
    CountsPartition(kept);
  }

  /** A whitespace-only (or empty) text renders no entry at all. */
  lemma {:induction false} BlankLinesYieldNothing(lines: seq<string>)
    requires forall k :: 0 <= k < |lines| ==> IsBlank(lines[k])
    ensures NonBlank(lines) == []
  {
    if |lines| > 0 {
      BlankLinesYieldNothing(lines[1..]);
    }
  }

  /** Every prefix of the item list holds the item of each line at its
      index, with the running counter. */
  ghost predicate ItemsUpTo(lines: seq<string>, i: nat, items: seq<Item>)
    requires i <= |lines|
  {
    && |items| == i
    && forall k :: 0 <= k < i ==> items[k] == ItemFor(lines[k], 1 + OrdinaryCount(lines[..k]))
  }

  /** A prefix one longer is the shorter prefix plus the next element. */
  lemma PrefixSnoc<T>(s: seq<T>, i: nat)
    requires i < |s|
    ensures s[..i + 1] == s[..i] + [s[i]]
  {
  }

  /** One step of the loop below: appending the item of line `i`, made with
      the counter value of line `i`, extends the prefix by one. */
  lemma ItemsExtend(lines: seq<string>, i: nat, items: seq<Item>, item: Item)
    requires i < |lines| && ItemsUpTo(lines, i, items)
    requires item == ItemFor(lines[i], 1 + OrdinaryCount(lines[..i]))
    ensures ItemsUpTo(lines, i + 1, items + [item])
    ensures OrdinaryCount(lines[..i + 1]) == OrdinaryCount(lines[..i]) + (if IsSpecial(lines[i]) then 0 else 1)
  {
    OrdinaryCountSnoc(lines[..i], lines[i]);
    PrefixSnoc(lines, i);
    var extended := items + [item];
    forall k | 0 <= k < i + 1
      ensures extended[k] == ItemFor(lines[k], 1 + OrdinaryCount(lines[..k]))
    {
      if k < i {
        assert extended[k] == items[k];
      }
    }
  }

  /** The body of the `forEach` callback for one line: a special line gets
      no number and leaves the counter alone; any other line takes the
      counter's value and advances it. */
  method MakeEntry(song: string, counter: nat) returns (entry: Entry, next: nat)
    ensures entry.Special? <==> IsSpecial(song)
    ensures entry.Special? ==> next == counter && entry.html == ZeroWidth.Insert(Trim(song[|Marker|..]))
    ensures entry.Numbered? ==> next == counter + 1 && entry.number == counter && entry.html == ZeroWidth.Insert(Trim(song))
    ensures entry == Show(ItemFor(song, counter))
  {
    if StartsWith(song, Marker) {
      entry := Special(ZeroWidth.Insert(Trim(song[|Marker|..])));
      next := counter;
    } else {
      entry := Numbered(counter, ZeroWidth.Insert(Trim(song)));
      next := counter + 1;
    }
  }

  /** `updateSongList` as written: a loop over the kept lines with a mutable
      counter that only ordinary lines advance. It agrees with `Render`. */
  method UpdateSongList(text: string) returns (entries: seq<Entry>)
    ensures entries == Render(text)
  {
    var all := NonBlank(Lines(text));
    var counter: nat := 1;
    entries := [];
    ghost var items: seq<Item> := [];
    var i := 0;
    while i < |all|
      invariant 0 <= i <= |all|
      invariant counter == 1 + OrdinaryCount(all[..i])
      invariant ItemsUpTo(all, i, items)
      invariant entries == ShowAll(items)
    {
      var entry, next := MakeEntry(all[i], counter);
      ghost var item := ItemFor(all[i], counter);
      ItemsExtend(all, i, items, item);
      ShowAllSnoc(items, item);
      items := items + [item];
      entries := entries + [entry];
      counter := next;
      i := i + 1;
    }
    NumberUnique(all, 1, items);
  }

  /** `updateCurrentSong`: the slot is shown exactly when the text holds a
      non-whitespace character, and then carries the trimmed, separated text. */
  function CurrentSong(text: string): (v: CurrentView)
    ensures v.Shown? <==> exists i :: 0 <= i < |text| && !IsWhitespace(text[i])
    ensures v.Shown? ==> ZeroWidth.RemoveSeparators(v.html) == Trim(text)
  {
    var t := Trim(text);
    TrimSpec(text);
    if t != [] then
      ZeroWidth.RemoveAfterInsert(t);
      Shown(ZeroWidth.Insert(t))
    else Hidden
  }
}
