/** The Python string methods the parameter parser relies on: `str.split(sep)`,
    `str.strip(chars)` (as `lstrip` then `rstrip`) and ASCII `str.upper()`. */
module Text {

  /** `s.split(sep)` with an explicit separator: one more part than there are separators,
      empty parts kept, no part containing the separator. */
  function Split(s: string, sep: char): (parts: seq<string>)
    ensures parts != []
    ensures forall k :: 0 <= k < |parts| ==> sep !in parts[k]
  {
    if s == [] then [""]
    else
      var rest := Split(s[1..], sep);
      if s[0] == sep then [""] + rest
      else [[s[0]] + rest[0]] + rest[1..]
  }

  /** There is one more part than there are separators. */
  lemma {:induction false} SplitCount(s: string, sep: char)
    ensures |Split(s, sep)| == multiset(s)[sep] + 1
  {
    if s != [] {
      SplitCount(s[1..], sep);
      assert s == [s[0]] + s[1..];
    }
  }

  /** `sep.join(parts)`. */
  function Join(parts: seq<string>, sep: char): string
    requires parts != []
  {
    if |parts| == 1 then parts[0] else parts[0] + [sep] + Join(parts[1..], sep)
  }

  /** Putting a character in front of the first part puts it in front of the join. */
  lemma JoinConsFirst(c: char, first: string, tail: seq<string>, sep: char)
    ensures Join([[c] + first] + tail, sep) == [c] + Join([first] + tail, sep)
  {
    var parts := [[c] + first] + tail;
    if tail != [] {
      assert parts[1..] == tail && ([first] + tail)[1..] == tail;
      assert ([c] + first) + [sep] + Join(tail, sep) == [c] + (first + [sep] + Join(tail, sep));
    }
  }

  /** Joining the parts of a split gives back the string: `split` loses nothing. */
  lemma {:induction false} JoinSplit(s: string, sep: char)
    ensures Join(Split(s, sep), sep) == s
  {
    if s != [] {
      JoinSplit(s[1..], sep);
      if s[0] == sep {
        JoinSplitAtSeparator(s, sep);
      } else {
        JoinSplitInsidePart(s, sep);
      }
    }
  }

  /** A leading separator starts a new, empty, first part. */
  lemma JoinSplitAtSeparator(s: string, sep: char)
    requires s != [] && s[0] == sep
    requires Join(Split(s[1..], sep), sep) == s[1..]
    ensures Join(Split(s, sep), sep) == s
  {
    var rest := Split(s[1..], sep);
    assert Split(s, sep) == [""] + rest;
    assert ([""] + rest)[1..] == rest;
    assert s == [s[0]] + s[1..];
  }

  /** Any other leading character goes in front of the first part. */
  lemma JoinSplitInsidePart(s: string, sep: char)
    requires s != [] && s[0] != sep
    requires Join(Split(s[1..], sep), sep) == s[1..]
    ensures Join(Split(s, sep), sep) == s
  {
    var rest := Split(s[1..], sep);
    assert Split(s, sep) == [[s[0]] + rest[0]] + rest[1..];
    assert rest == [rest[0]] + rest[1..];
    JoinConsFirst(s[0], rest[0], rest[1..], sep);
    assert s == [s[0]] + s[1..];
  }

  /** Splitting a string on a separator it does not contain gives the string alone. */
  lemma {:induction false} SplitWithoutSeparator(s: string, sep: char)
    requires sep !in s
    ensures Split(s, sep) == [s]
  {
    if s != [] {
      assert s[0] in s;
      assert forall k :: 0 <= k < |s[1..]| ==> s[1..][k] == s[k + 1];
      SplitWithoutSeparator(s[1..], sep);
      assert [s[0]] + s[1..] == s;
    }
  }

  /** `s.lstrip(chars)`: the suffix left after dropping every leading character in `cs`. */
  function LStrip(s: string, cs: set<char>): (r: string)
    ensures |r| <= |s| && r == s[|s| - |r|..]
    ensures r != [] ==> r[0] !in cs
    ensures forall k :: 0 <= k < |s| - |r| ==> s[k] in cs
  {
    if s != [] && s[0] in cs then LStrip(s[1..], cs) else s
  }

  /** `s.rstrip(chars)`: the prefix left after dropping every trailing character in `cs`. */
  function RStrip(s: string, cs: set<char>): (r: string)
    ensures |r| <= |s| && r == s[..|r|]
    ensures r != [] ==> r[|r| - 1] !in cs
    ensures forall k :: |r| <= k < |s| ==> s[k] in cs
  {
    if s != [] && s[|s| - 1] in cs then RStrip(s[..|s| - 1], cs) else s
  }

  /** `s.strip(chars)`. */
  function Strip(s: string, cs: set<char>): string
  {
    RStrip(LStrip(s, cs), cs)
  }

  /** What `strip` leaves: a piece of `s` with no character of `cs` at either end, and
      every character it dropped is one of `cs`. */
  lemma StripIsTrimmedSlice(s: string, cs: set<char>)
    ensures |Strip(s, cs)| <= |LStrip(s, cs)| <= |s|
    ensures Strip(s, cs) == s[|s| - |LStrip(s, cs)|..][..|Strip(s, cs)|]
    ensures Strip(s, cs) != [] ==> Strip(s, cs)[0] !in cs && Strip(s, cs)[|Strip(s, cs)| - 1] !in cs
    ensures forall k :: 0 <= k < |s| - |LStrip(s, cs)| ==> s[k] in cs
    ensures forall k :: |s| - |LStrip(s, cs)| + |Strip(s, cs)| <= k < |s| ==> s[k] in cs
  {
    var l := LStrip(s, cs);
    var r := RStrip(l, cs);
    assert Strip(s, cs) == r;
    TrimmedSlice(s, l, r, cs);
  }

  /** A prefix `r` of a suffix `l` of `s`, each cut only at characters of `cs`, is a
      slice of `s` cut only at characters of `cs`. */
  lemma TrimmedSlice(s: string, l: string, r: string, cs: set<char>)
    requires |l| <= |s| && l == s[|s| - |l|..] && (l != [] ==> l[0] !in cs)
    requires forall k :: 0 <= k < |s| - |l| ==> s[k] in cs
    requires |r| <= |l| && r == l[..|r|] && (r != [] ==> r[|r| - 1] !in cs)
    requires forall k :: |r| <= k < |l| ==> l[k] in cs
    ensures r == s[|s| - |l|..|s| - |l| + |r|]
    ensures r != [] ==> r[0] !in cs && r[|r| - 1] !in cs
    ensures forall k :: |s| - |l| + |r| <= k < |s| ==> s[k] in cs
  {
    var i := |s| - |l|;
    forall k | 0 <= k < |r|
      ensures r[k] == s[i + k]
    {
      assert r[k] == l[k] && l[k] == s[i + k];
    }
    if r != [] {
      assert r[0] == l[0];
    }
    forall k | i + |r| <= k < |s|
      ensures s[k] in cs
    {
      assert s[k] == l[k - i];
    }
  }

  /** Text added at the back of a string holding a character outside `cs` is kept
      whole by `lstrip`. */
  lemma {:induction false} LStripAppend(s: string, t: string, cs: set<char>, k: nat)
    requires k < |s| && s[k] !in cs
    ensures LStrip(s + t, cs) == LStrip(s, cs) + t
  {
    assert (s + t)[0] == s[0];
    if s[0] in cs {
      assert s[1..][k - 1] == s[k];
      assert (s + t)[1..] == s[1..] + t;
      LStripAppend(s[1..], t, cs, k - 1);
    }
  }

  /** `strip` ignores one more stripped character at the front. */
  lemma StripIgnoresExtraFront(s: string, c: char, cs: set<char>)
    requires c in cs
    ensures Strip([c] + s, cs) == Strip(s, cs)
  {
    assert ([c] + s)[1..] == s;
    assert LStrip([c] + s, cs) == LStrip(s, cs);
  }

  /** `strip` ignores one more stripped character at the back. */
  lemma StripIgnoresExtraBack(s: string, c: char, cs: set<char>)
    requires c in cs
    ensures Strip(s + [c], cs) == Strip(s, cs)
  {
    if forall k :: 0 <= k < |s| ==> s[k] in cs {
      AllStrippedLeft(s, cs);
      assert forall k :: 0 <= k < |s + [c]| ==> (s + [c])[k] in cs;
      AllStrippedLeft(s + [c], cs);
    } else {
      var k :| 0 <= k < |s| && s[k] !in cs;
      StripIgnoresExtraBackAfter(s, c, cs, k);
    }
  }

  /** The case where `s` holds a character `s[k]` that `strip` keeps: `lstrip` stops at
      or before it, and `rstrip` then drops `c` first. */
  lemma StripIgnoresExtraBackAfter(s: string, c: char, cs: set<char>, k: nat)
    requires c in cs && k < |s| && s[k] !in cs
    ensures Strip(s + [c], cs) == Strip(s, cs)
  {
    LStripAppend(s, [c], cs, k);
    var l := LStrip(s, cs);
    var lc := l + [c];
    assert lc[|lc| - 1] == c && lc[..|lc| - 1] == l;
  }

  lemma {:induction false} AllStrippedLeft(s: string, cs: set<char>)
    requires forall k :: 0 <= k < |s| ==> s[k] in cs
    ensures LStrip(s, cs) == []
  {
    if s != [] {
      AllStrippedLeft(s[1..], cs);
    }
  }

  /** ASCII case mapping of `str.upper()`. */
  function Upper(c: char): (u: char)
    ensures !('a' <= u <= 'z')
    ensures u != c <==> 'a' <= c <= 'z'
  {
    if 'a' <= c <= 'z' then (c as int - 32) as char else c
  }

  /** Upper-casing twice is upper-casing once. */
  lemma UpperIdempotent(c: char)
    ensures Upper(Upper(c)) == Upper(c)
  {
  }

  function UpperString(s: string): (u: string)
    ensures |u| == |s| && forall k :: 0 <= k < |s| ==> u[k] == Upper(s[k])
  {
    if s == [] then [] else [Upper(s[0])] + UpperString(s[1..])
  }
}
