/** The pieces of Python's `str` behaviour the decoders rely on: `isspace`,
    `strip()`, `split()` with no argument, `startswith` and `sep.join(...)`.
    Strings are sequences of Unicode code points, as in Python 3. */
module Text {

  /** Python's `str.isspace` for one code point: the ASCII controls 9-13 and
      28-31, the space, NEL, NO-BREAK SPACE and the Unicode space separators. */
  predicate IsSpace(c: char)
  {
    var n := c as int;
    (9 <= n <= 13) || (28 <= n <= 32) || n == 0x85 || n == 0xA0 || n == 0x1680
    || (0x2000 <= n <= 0x200A) || n == 0x2028 || n == 0x2029 || n == 0x202F
    || n == 0x205F || n == 0x3000
  }

  predicate AllSpace(s: string)
  {
    forall k :: 0 <= k < |s| ==> IsSpace(s[k])
  }

  predicate NoSpace(s: string)
  {
    forall k :: 0 <= k < |s| ==> !IsSpace(s[k])
  }

  /** A string `strip()` leaves unchanged: no whitespace at either end. */
  predicate IsStripped(s: string)
  {
    s == [] || (!IsSpace(s[0]) && !IsSpace(s[|s| - 1]))
  }

  /** A whole word as `split()` produces it: non-empty, without whitespace. */
  predicate IsWord(w: string)
  {
    w != [] && NoSpace(w)
  }

  predicate StartsWith(s: string, prefix: string)
  {
    |prefix| <= |s| && s[..|prefix|] == prefix
  }

  /** The number of whitespace characters `lstrip()` removes. */
  function LeadingSpaces(s: string): (n: nat)
    ensures n <= |s| && AllSpace(s[..n])
    ensures n == |s| || !IsSpace(s[n])
  {
    if s != [] && IsSpace(s[0]) then
      var n := 1 + LeadingSpaces(s[1..]);
      assert forall k :: 1 <= k < n ==> s[k] == s[1..][k - 1];
      n
    else 0
  }

  /** The length `rstrip()` keeps: everything after it is whitespace. */
  function KeptByRstrip(s: string): (n: nat)
    ensures n <= |s| && AllSpace(s[n..])
    ensures n == 0 || !IsSpace(s[n - 1])
  {
    if s != [] && IsSpace(s[|s| - 1]) then KeptByRstrip(s[..|s| - 1]) else |s|
  }

  /** Where `strip()` cuts: either the whole string is whitespace, or the
      first kept character and the last kept character are not whitespace
      and everything outside them is. */
  lemma StripCuts(s: string)
    ensures var i := LeadingSpaces(s); var j := KeptByRstrip(s);
      && (j <= i ==> i == |s| && AllSpace(s))
      && (i < j ==> !IsSpace(s[i]) && !IsSpace(s[j - 1]) && AllSpace(s[..i]) && AllSpace(s[j..]))
      && (IsStripped(s) && s != [] ==> i == 0 && j == |s|)
  {
    var i := LeadingSpaces(s);
    var j := KeptByRstrip(s);
    if i == |s| {
      assert s[..i] == s;
    }
  }

  /** `strip()`: the result is the slice of `s` left after removing whitespace
      from both ends; it is empty exactly when `s` is all whitespace, and it
      leaves an already stripped string alone. */
  function Strip(s: string): (r: string)
    ensures IsStripped(r)
    ensures exists i :: 0 <= i <= |s| - |r| && r == s[i..i + |r|] && AllSpace(s[..i]) && AllSpace(s[i + |r|..])
    ensures r == [] <==> AllSpace(s)
    ensures IsStripped(s) ==> r == s
  {
    var i := LeadingSpaces(s);
    var j := KeptByRstrip(s);
    StripCuts(s);
    if j <= i then
      assert s[..0] == [] && s[0..] == s;
      []
    else
      assert s[i..j] == s[i..i + (j - i)];
      assert !AllSpace(s) by {
        assert !IsSpace(s[i]);
      }
      assert IsStripped(s) ==> s[i..j] == s;
      s[i..j]
  }

  /** Python's `sep.join(xs)`. */
  function Join(sep: string, xs: seq<string>): string
  {
    if |xs| == 0 then ""
    else if |xs| == 1 then xs[0]
    else xs[0] + sep + Join(sep, xs[1..])
  }

  /** The length of the longest prefix of `s` that holds no whitespace. */
  function WordLength(s: string): (n: nat)
    ensures n <= |s| && NoSpace(s[..n])
    ensures n == |s| || IsSpace(s[n])
  {
    if s == [] || IsSpace(s[0]) then 0
    else
      var n := 1 + WordLength(s[1..]);
      assert forall k :: 1 <= k < n ==> s[k] == s[1..][k - 1];
      n
  }

  /** `str.split()` with no separator: the maximal runs of non-whitespace,
      in order. */
  function Split(s: string): (r: seq<string>)
    ensures forall k :: 0 <= k < |r| ==> IsWord(r[k])
    decreases |s|
  {
    var i := LeadingSpaces(s);
    if i == |s| then []
    else
      var t := s[i..];
      var n := WordLength(t);
      assert n > 0 by {
        assert t[0] == s[i];
      }
      [t[..n]] + Split(t[n..])
  }

  /** `split()` finds no word exactly when the text is empty or all whitespace. */
  lemma SplitEmptyIff(s: string)
    ensures Split(s) == [] <==> AllSpace(s)
  {
    var i := LeadingSpaces(s);
    if i == |s| {
      assert s[..i] == s;
    }
  }

  lemma SplitSkipsLeadingSpace(c: char, s: string)
    requires IsSpace(c)
    ensures Split([c] + s) == Split(s)
  {
    assert ([c] + s)[1..] == s;
    var n := LeadingSpaces(s);
    assert LeadingSpaces([c] + s) == 1 + n;
    assert ([c] + s)[1 + n..] == s[n..];
  }

  lemma SplitTakesFirstWord(w: string, rest: string)
    requires IsWord(w)
    requires rest == [] || IsSpace(rest[0])
    ensures Split(w + rest) == [w] + Split(rest)
  {
    var s := w + rest;
    assert s[0] == w[0];
    assert LeadingSpaces(s) == 0;
    assert s[0..] == s;
    WordLengthOf(w, rest);
    assert s[..|w|] == w;
    assert s[|w|..] == rest;
  }

  lemma {:induction false} WordLengthOf(w: string, rest: string)
    requires NoSpace(w)
    requires rest == [] || IsSpace(rest[0])
    ensures WordLength(w + rest) == |w|
    decreases |w|
  {
    if w == [] {
      assert w + rest == rest;
    } else {
      assert (w + rest)[0] == w[0];
      assert (w + rest)[1..] == w[1..] + rest;
      WordLengthOf(w[1..], rest);
    }
  }

  lemma JoinCons(sep: string, w: string, tail: seq<string>)
    requires tail != []
    ensures Join(sep, [w] + tail) == w + (sep + Join(sep, tail))
  {
    assert ([w] + tail)[1..] == tail;
  }

  lemma SplitOfEmpty()
    ensures Split("") == []
  {
    assert LeadingSpaces("") == 0;
  }

  /** Splitting undoes joining with one space, for words as `split()` makes them. */
  lemma {:induction false} SplitJoinRoundTrip(ws: seq<string>)
    requires forall k :: 0 <= k < |ws| ==> IsWord(ws[k])
    ensures Split(Join(" ", ws)) == ws
  {
    if |ws| == 0 {
      SplitOfEmpty();
    } else if |ws| == 1 {
      var w := ws[0];
      assert IsWord(w);
      SplitTakesFirstWord(w, "");
      assert w + "" == w;
      SplitOfEmpty();
      assert ws == [w];
    } else {
      var w := ws[0];
      var tail := ws[1..];
      assert IsWord(w);
      assert forall k :: 0 <= k < |tail| ==> IsWord(tail[k]) by {
        forall k | 0 <= k < |tail|
          ensures IsWord(tail[k])
        {
          assert tail[k] == ws[k + 1];
        }
      }
      assert ws == [w] + tail;
      var rest := Join(" ", tail);
      SplitJoinRoundTrip(tail);
      JoinCons(" ", w, tail);
      SplitTakesFirstWord(w, " " + rest);
      assert " " + rest == [' '] + rest;
      SplitSkipsLeadingSpace(' ', rest);
    }
  }
}
