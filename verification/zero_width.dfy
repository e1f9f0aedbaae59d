/** The text normaliser: `insertZeroWidthSpace` puts the HTML entity for a
    zero-width space between every pair of adjacent characters, so that long
    unbroken titles may wrap anywhere. */
module ZeroWidth {

  /** The separator as it appears in the generated markup. */
  const Separator: string := "&#8203;"

  /** Width of one input character plus the separator that follows it. */
  const Stride: nat := 8

  /** `text.split('').join('&#8203;')`. The output is as long as the input
      plus one separator per gap between adjacent characters (`Stride` is
      one character plus one separator). */
  function Insert(s: string): (r: string)
    ensures |s| == 0 ==> r == []
    ensures |s| >= 1 ==> |r| == Stride * |s| - |Separator|
  {
    if |s| <= 1 then s else [s[0]] + Separator + Insert(s[1..])
  }

  /** Input character `i` sits at output position `Stride * i`, and every
      gap between two input characters holds exactly the separator. */
  lemma {:induction false} InsertLayout(s: string, i: nat)
    requires i < |s|
    ensures Stride * i < |Insert(s)| && Insert(s)[Stride * i] == s[i]
    ensures i < |s| - 1 ==> Insert(s)[Stride * i + 1 .. Stride * i + Stride] == Separator
  {
    if i > 0 {
      var rest := Insert(s[1..]);
      InsertLayout(s[1..], i - 1);
      var k := Stride * (i - 1);
      assert Insert(s) == [s[0]] + Separator + rest;
      assert Insert(s)[Stride..] == rest;
      assert Stride * i == Stride + k;
      assert Insert(s)[Stride * i] == rest[k];
      if i < |s| - 1 {
        assert Insert(s)[Stride * i + 1 .. Stride * i + Stride] == rest[k + 1 .. k + Stride];
      }
    } else if |s| > 1 {
      assert Insert(s) == [s[0]] + Separator + Insert(s[1..]);
    }
  }

  /** Deletes every occurrence of the separator, scanning left to right. */
  function RemoveSeparators(t: string): (r: string)
    ensures |r| <= |t|
  {
    if |t| >= |Separator| && t[..|Separator|] == Separator then RemoveSeparators(t[|Separator|..])
    else if |t| == 0 then []
    else [t[0]] + RemoveSeparators(t[1..])
  }

  /** Number of positions at which the separator starts (overlaps included). */
  function Occurrences(t: string): nat {
    if |t| < |Separator| then 0
    else (if t[..|Separator|] == Separator then 1 else 0) + Occurrences(t[1..])
  }

  /** A character followed by a separator never starts one itself, because
      the separator holds its ampersand only at its first position. */
  lemma NoSeparatorAtCharacter(c: char, rest: string)
    ensures ([c] + Separator + rest)[..|Separator|] != Separator
  {
    assert ([c] + Separator + rest)[1] == '&';
  }

  /** Removing the separators undoes the insertion, for every input (even
      one that itself contains the separator text). */
  lemma {:induction false} RemoveAfterInsert(s: string)
    ensures RemoveSeparators(Insert(s)) == s
  {
    if |s| == 0 {
    } else if |s| == 1 {
      assert Insert(s)[..0] == [];
    } else {
      var rest := Insert(s[1..]);
      var t := [s[0]] + Separator + rest;
      NoSeparatorAtCharacter(s[0], rest);
      assert t[1..] == Separator + rest;
      assert (Separator + rest)[..|Separator|] == Separator;
      assert (Separator + rest)[|Separator|..] == rest;
      RemoveAfterInsert(s[1..]);
      assert s == [s[0]] + s[1..];
    }
  }

  /** A string that does not start with an ampersand has no occurrence at
      its first position. */
  lemma NoOccurrenceAtHead(t: string)
    requires |t| > 0 && t[0] != '&'
    ensures Occurrences(t) == Occurrences(t[1..])
  {
    if |t| >= |Separator| {
      assert t[..|Separator|][0] != Separator[0];
    }
  }

  /** The tail of the separator (without its ampersand) adds no occurrence
      in front of a string. */
  lemma SeparatorTailAddsNothing(rest: string)
    ensures Occurrences(Separator[1..] + rest) == Occurrences(rest)
  {
    var k := 1;
    while k < |Separator|
      invariant 1 <= k <= |Separator|
      invariant Occurrences(Separator[1..] + rest) == Occurrences(Separator[k..] + rest)
    {
      var u := Separator[k..] + rest;
      assert u[0] == Separator[k] && Separator[k] != '&';
      NoOccurrenceAtHead(u);
      assert u[1..] == Separator[k + 1..] + rest;
      k := k + 1;
    }
    assert Separator[|Separator|..] + rest == rest;
  }

  /** For a non-empty input of n characters the separator appears exactly
      n - 1 times; the empty input gives the empty output. */
  lemma {:induction false} SeparatorCount(s: string)
    requires |s| >= 1
    ensures Occurrences(Insert(s)) == |s| - 1
  {
    if |s| == 1 {
    } else {
      var rest := Insert(s[1..]);
      var t := [s[0]] + Separator + rest;
      NoSeparatorAtCharacter(s[0], rest);
      assert t[1..] == Separator + rest;
      var u := Separator + rest;
      assert u[..|Separator|] == Separator;
      assert u[1..] == Separator[1..] + rest;
      SeparatorTailAddsNothing(rest);
      SeparatorCount(s[1..]);
    }
  }
}
