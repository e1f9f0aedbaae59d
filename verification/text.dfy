/** String helpers the song list relies on: whitespace trimming, splitting a
    text blob on line feeds, and prefix tests. Strings are sequences of
    characters; the exact Unicode whitespace set of the host language is
    abstracted by `IsWhitespace`. */
module Text {

  /** The characters `trim()` removes: the white space and line terminators
      of sections 12.2 and 12.3 of ECMA-262: space, tab through carriage
      return (tab, line feed, vertical tab, form feed, carriage return), the
      no-break space, the other space separators, the line and paragraph
      separators, and the byte-order mark. */
  predicate IsWhitespace(c: char) {
    if c < '\U{0080}' then
      c == ' ' || '\t' <= c <= '\r'
    else
      || c == '\U{00A0}' || c == '\U{1680}' || '\U{2000}' <= c <= '\U{200A}'
      || '\U{2028}' <= c <= '\U{2029}' || c == '\U{202F}' || c == '\U{205F}'
      || c == '\U{3000}' || c == '\U{FEFF}'
  }

  /** True iff every character of `s` is whitespace (the empty string included). */
  predicate AllWhitespace(s: string) {
    forall i :: 0 <= i < |s| ==> IsWhitespace(s[i])
  }

  /** Drops the leading whitespace. */
  function TrimStart(s: string): (r: string)
    ensures |r| <= |s|
  {
    if |s| > 0 && IsWhitespace(s[0]) then TrimStart(s[1..]) else s
  }

  /** Drops the trailing whitespace. */
  function TrimEnd(s: string): (r: string)
    ensures |r| <= |s|
  {
    if |s| > 0 && IsWhitespace(s[|s| - 1]) then TrimEnd(s[..|s| - 1]) else s
  }

  /** `TrimStart` keeps a suffix, removes only whitespace, and stops at the
      first non-whitespace character. */
  lemma {:induction false} TrimStartSpec(s: string)
    ensures var r := TrimStart(s);
      && r == s[|s| - |r|..]
      && AllWhitespace(s[..|s| - |r|])
      && (|r| > 0 ==> !IsWhitespace(r[0]))
  {
    if |s| > 0 && IsWhitespace(s[0]) {
      TrimStartSpec(s[1..]);
      var r := TrimStart(s);
      assert s[1..][..|s| - 1 - |r|] == s[1..|s| - |r|];
    }
  }

  /** `TrimEnd` keeps a prefix, removes only whitespace, and stops at the
      last non-whitespace character. */
  lemma {:induction false} TrimEndSpec(s: string)
    ensures var r := TrimEnd(s);
      && r == s[..|r|]
      && AllWhitespace(s[|r|..])
      && (|r| > 0 ==> !IsWhitespace(r[|r| - 1]))
  {
    if |s| > 0 && IsWhitespace(s[|s| - 1]) {
      TrimEndSpec(s[..|s| - 1]);
      var r := TrimEnd(s);
      assert s[..|s| - 1][|r|..] == s[|r|..|s| - 1];
    }
  }

  /** `String.prototype.trim`: whitespace removed at both ends. */
  function Trim(s: string): (r: string)
    ensures |r| <= |s|
  {
    TrimEnd(TrimStart(s))
  }

  /** The trimmed text neither starts nor ends with whitespace, and it is
      empty exactly when the input holds nothing but whitespace. */
  lemma TrimSpec(s: string)
    ensures var r := Trim(s);
      && (|r| > 0 ==> !IsWhitespace(r[0]) && !IsWhitespace(r[|r| - 1]))
      && (r == [] <==> AllWhitespace(s))
  {
    var t := TrimStart(s);
    var r := TrimEnd(t);
    TrimStartSpec(s);
    TrimEndSpec(t);
    assert s == s[..|s| - |t|] + t;
    if r == [] {
      assert t == t[..0] + t[0..];
    } else {
      assert !IsWhitespace(s[|s| - |t|]);
    }
  }

  /** Text with no whitespace at either end is left as it is. */
  lemma TrimUntouched(s: string)
    requires |s| > 0 && !IsWhitespace(s[0]) && !IsWhitespace(s[|s| - 1])
    ensures Trim(s) == s
  {
  }

  /** A line that `trim()` turns into the empty string. */
  predicate IsBlank(line: string) {
    Trim(line) == []
  }

  /** `s.startsWith(p)`. */
  predicate StartsWith(s: string, p: string) {
    |p| <= |s| && s[..|p|] == p
  }

  /** `s.split('\n')`: the maximal line-feed-free pieces of `s`, in order.
      Like the host's split, the empty text yields one empty piece. */
  function Lines(s: string): (r: seq<string>)
    ensures |r| >= 1
    ensures forall k :: 0 <= k < |r| ==> '\n' !in r[k]
  {
    if |s| == 0 then [[]]
    else if s[0] == '\n' then [[]] + Lines(s[1..])
    else
      var t := Lines(s[1..]);
      [[s[0]] + t[0]] + t[1..]
  }

  /** `lines.join('\n')`, the inverse of `Lines`. */
  function Join(ls: seq<string>): string {
    if |ls| == 0 then []
    else if |ls| == 1 then ls[0]
    else ls[0] + "\n" + Join(ls[1..])
  }

  /** Splitting and re-joining gives back the text. */
  lemma {:induction false} JoinLines(s: string)
    ensures Join(Lines(s)) == s
  {
    if |s| == 0 {
    } else if s[0] == '\n' {
      JoinLines(s[1..]);
      assert s == "\n" + s[1..];
    } else {
      var t := Lines(s[1..]);
      JoinLines(s[1..]);
      if |t| == 1 {
        assert s == [s[0]] + s[1..];
      } else {
        var r := Lines(s);
        assert r[1..] == t[1..];
        assert Join(t) == t[0] + "\n" + Join(t[1..]);
        assert s == [s[0]] + (t[0] + "\n" + Join(t[1..]));
      }
    }
  }

  /** A line-feed-free prefix joins the first piece of what follows it. */
  lemma {:induction false} LinesOfPrefix(l: string, tail: string)
    requires '\n' !in l
    ensures Lines(l + tail) == [l + Lines(tail)[0]] + Lines(tail)[1..]
  {
    if |l| == 0 {
      var t := Lines(tail);
      assert l + tail == tail && l + t[0] == t[0];
      assert t == [t[0]] + t[1..];
    } else {
      assert (l + tail)[0] == l[0];
      assert (l + tail)[1..] == l[1..] + tail;
      LinesOfPrefix(l[1..], tail);
      assert [l[0]] + (l[1..] + Lines(tail)[0]) == l + Lines(tail)[0];
    }
  }

  /** Joining line-feed-free pieces and splitting again gives back the pieces. */
  lemma {:induction false} LinesJoin(ls: seq<string>)
    requires |ls| >= 1
    requires forall k :: 0 <= k < |ls| ==> '\n' !in ls[k]
    ensures Lines(Join(ls)) == ls
  {
    if |ls| == 1 {
      LinesOfPrefix(ls[0], []);
      assert ls[0] + [] == ls[0];
    } else {
      var rest := Join(ls[1..]);
      LinesJoin(ls[1..]);
      var tail := "\n" + rest;
      assert tail[0] == '\n' && tail[1..] == rest;
      assert Lines(tail) == [[]] + ls[1..];
      LinesOfPrefix(ls[0], tail);
      assert ls[0] + tail == Join(ls);
      assert ls[0] + [] == ls[0];
      assert ls == [ls[0]] + ls[1..];
    }
  }
}
