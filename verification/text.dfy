/** String helpers with Python's and JavaScript's meaning: splitting on a
    separator, stripping white space, ASCII upper-casing, suffix tests. */
module Text {

  predicate EndsWith(s: string, suffix: string) {
    |suffix| <= |s| && s[|s| - |suffix|..] == suffix
  }

  /** Pieces of `s` between occurrences of `sep`, as `str.split(sep)`:
      always at least one piece, none holding `sep`. */
  function Split(s: string, sep: char): (parts: seq<string>)
    ensures |parts| >= 1
    ensures forall k :: 0 <= k < |parts| ==> sep !in parts[k]
    decreases |s|
  {
    if |s| == 0 then [""]
    else
      var rest := Split(s[1..], sep);
      if s[0] == sep then [""] + rest
      else [[s[0]] + rest[0]] + rest[1..]
  }

  /** `sep.join(parts)`. */
  function Join(parts: seq<string>, sep: char): string
    requires |parts| >= 1
    decreases |parts|
  {
    if |parts| == 1 then parts[0] else parts[0] + [sep] + Join(parts[1..], sep)
  }

  /** Joining the pieces gives the string back. */
  lemma {:induction false} JoinSplit(s: string, sep: char)
    ensures Join(Split(s, sep), sep) == s
    decreases |s|
  {
    if |s| > 0 {
      var rest := Split(s[1..], sep);
      JoinSplit(s[1..], sep);
      if s[0] != sep {
        var parts := Split(s, sep);
        assert parts[1..] == rest[1..];
        if |rest| > 1 {
          assert Join(rest, sep) == rest[0] + [sep] + Join(rest[1..], sep);
        }
      }
    }
  }

  /** Splitting a join of pieces free of the separator gives the pieces back. */
  lemma {:induction false} SplitJoin(parts: seq<string>, sep: char)
    requires |parts| >= 1
    requires forall k :: 0 <= k < |parts| ==> sep !in parts[k]
    ensures Split(Join(parts, sep), sep) == parts
    decreases |parts|, |parts[0]|
  {
    if |parts[0]| > 0 {
      var p := parts[0];
      var tail := parts[0 := p[1..]];
      assert forall k :: 0 <= k < |tail| ==> sep !in tail[k] by {
        forall k | 0 <= k < |tail| ensures sep !in tail[k] {
          if k == 0 {
            assert forall c :: c in p[1..] ==> c in p;
          }
        }
      }
      SplitJoin(tail, sep);
      var s := Join(parts, sep);
      assert s == [p[0]] + Join(tail, sep) by {
        if |parts| == 1 {
          assert s == p;
        } else {
          assert tail[1..] == parts[1..];
        }
      }
      assert s[1..] == Join(tail, sep);
      assert p[0] in p;
      assert tail[1..] == parts[1..];
      assert [p[0]] + p[1..] == p;
    } else if |parts| > 1 {
      SplitJoin(parts[1..], sep);
      var s := Join(parts, sep);
      assert s == [sep] + Join(parts[1..], sep);
      assert s[1..] == Join(parts[1..], sep);
      assert parts == [""] + parts[1..];
    }
  }

  /** How the pieces of `s` relate to those of its tail: one piece when the
      first character is not a separator and the tail is one piece,
      otherwise several pieces with the tail's last one at the end. */
  lemma SplitLastStep(s: string, sep: char)
    requires |s| > 0
    ensures var parts, rest := Split(s, sep), Split(s[1..], sep);
            (s[0] != sep && |rest| == 1 ==> parts == [s])
            && (s[0] == sep || |rest| > 1 ==> |parts| > 1 && parts[|parts| - 1] == rest[|rest| - 1])
  {
    var rest := Split(s[1..], sep);
    if s[0] != sep && |rest| == 1 {
      JoinSplit(s[1..], sep);
      assert [s[0]] + s[1..] == s;
    }
  }

  /** The last piece of a split is a suffix of the string, preceded by the
      separator unless it is the whole string, which it is not when there
      are several pieces. */
  lemma {:induction false} LastPieceIsSuffix(s: string, sep: char)
    ensures var parts := Split(s, sep);
            var last := parts[|parts| - 1];
            |last| <= |s| && s[|s| - |last|..] == last && (|last| == |s| || s[|s| - |last| - 1] == sep)
            && (|parts| > 1 ==> |last| < |s|)
    decreases |s|
  {
    if |s| > 0 {
      var rest := Split(s[1..], sep);
      var last := rest[|rest| - 1];
      LastPieceIsSuffix(s[1..], sep);
      SplitLastStep(s, sep);
      if s[0] == sep || |rest| > 1 {
        assert s[1..][|s[1..]| - |last|..] == s[|s| - |last|..];
        if |last| < |s| - 1 {
          assert s[1..][|s[1..]| - |last| - 1] == s[|s| - |last| - 1];
        }
      }
    }
  }

  /** `s.split(sep)[-1]`: the text after the last separator, or all of `s`
      when it holds none. */
  function AfterLast(s: string, sep: char): (r: string)
    ensures sep !in r
    ensures EndsWith(s, r)
    ensures |r| == |s| || s[|s| - |r| - 1] == sep
  {
    LastPieceIsSuffix(s, sep);
    var parts := Split(s, sep);
    parts[|parts| - 1]
  }

  /** A string free of the separator is one piece. */
  lemma {:induction false} SplitNoSeparator(s: string, sep: char)
    requires sep !in s
    ensures Split(s, sep) == [s]
    decreases |s|
  {
    if |s| > 0 {
      assert sep !in s[1..] by {
        assert forall c :: c in s[1..] ==> c in s;
      }
      SplitNoSeparator(s[1..], sep);
      assert [s[0]] + s[1..] == s;
    }
  }

  /** After a last separator comes the last piece. */
  lemma {:induction false} SplitLastPiece(a: string, sep: char, b: string)
    requires sep !in b
    ensures var parts := Split(a + [sep] + b, sep);
            |parts| >= 2 && parts[|parts| - 1] == b
    decreases |a|
  {
    var s := a + [sep] + b;
    if |a| == 0 {
      assert s == [sep] + b;
      assert s[1..] == b;
      SplitNoSeparator(b, sep);
    } else {
      assert s[1..] == a[1..] + [sep] + b;
      SplitLastPiece(a[1..], sep, b);
    }
  }

  /** A string free of the separator is its own last piece. */
  lemma AfterLastNoSeparator(s: string, sep: char)
    requires sep !in s
    ensures AfterLast(s, sep) == s
  {
  }

  /** The white space `str.strip()` removes (the ASCII and Latin-1 part of
      Python's `str.isspace`). */
  predicate IsSpace(c: char) {
    c == ' ' || c == '\t' || c == '\n' || c == '\r' || c == '\U{000B}' || c == '\U{000C}'
    || ('\U{001C}' <= c <= '\U{001F}') || c == '\U{0085}' || c == '\U{00A0}'
  }

  predicate AllSpace(s: string) {
    forall k :: 0 <= k < |s| ==> IsSpace(s[k])
  }

  /** `s` with its leading white space removed. */
  function StripStart(s: string): (r: string)
    ensures |r| <= |s| && r == s[|s| - |r|..]
    ensures AllSpace(s[..|s| - |r|])
    ensures r == "" || !IsSpace(r[0])
    decreases |s|
  {
    if |s| > 0 && IsSpace(s[0]) then
      var r := StripStart(s[1..]);
      SpaceBeforeSuffix(s, r);
      r
    else s
  }

  /** One more leading space in front of a suffix preceded by white space. */
  lemma SpaceBeforeSuffix(s: string, r: string)
    requires |s| > 0 && IsSpace(s[0])
    requires |r| <= |s| - 1 && r == s[1..][|s| - 1 - |r|..]
    requires AllSpace(s[1..][..|s| - 1 - |r|])
    ensures r == s[|s| - |r|..]
    ensures AllSpace(s[..|s| - |r|])
  {
    assert s[1..][..|s| - 1 - |r|] == s[1..|s| - |r|];
  }

  /** `s` with its trailing white space removed. */
  function StripEnd(s: string): (r: string)
    ensures |r| <= |s| && r == s[..|r|]
    ensures AllSpace(s[|r|..])
    ensures r == "" || !IsSpace(r[|r| - 1])
    decreases |s|
  {
    if |s| > 0 && IsSpace(s[|s| - 1]) then
      var r := StripEnd(s[..|s| - 1]);
      SpaceAfterPrefix(s, r);
      r
    else s
  }

  /** One more trailing space behind a prefix followed by white space. */
  lemma SpaceAfterPrefix(s: string, r: string)
    requires |s| > 0 && IsSpace(s[|s| - 1])
    requires |r| <= |s| - 1 && r == s[..|s| - 1][..|r|]
    requires AllSpace(s[..|s| - 1][|r|..])
    ensures r == s[..|r|]
    ensures AllSpace(s[|r|..])
  {
    assert s[..|s| - 1][|r|..] == s[|r|..|s| - 1];
  }

  /** `str.strip()`: white space cut from both ends, so the result neither
      starts nor ends with it. */
  function Strip(s: string): (r: string)
    ensures |r| <= |s|
    ensures r == "" || (!IsSpace(r[0]) && !IsSpace(r[|r| - 1]))
  {
    var a := StripStart(s);
    var r := StripEnd(a);
    assert r != "" ==> r[0] == a[0];
    r
  }

  /** How much leading white space `str.strip()` cuts. */
  function LeadingSpace(s: string): nat
    ensures LeadingSpace(s) <= |s|
  {
    |s| - |StripStart(s)|
  }

  /** The stripped text is the slice of `s` behind its leading white space,
      and only white space lies on either side of it. */
  lemma StripIsMiddleSlice(s: string)
    ensures var i, r := LeadingSpace(s), Strip(s);
            i + |r| <= |s| && r == s[i..i + |r|] && AllSpace(s[..i]) && AllSpace(s[i + |r|..])
  {
    var a := StripStart(s);
    var r := StripEnd(a);
    assert LeadingSpace(s) == |s| - |a| && Strip(s) == r;
    MiddleSlice(s, a, r);
  }

  /** A prefix `r` of a suffix `a` of `s`, with white space before `a` and
      after `r` in `a`, is a slice of `s` with white space on both sides. */
  lemma MiddleSlice(s: string, a: string, r: string)
    requires |a| <= |s| && a == s[|s| - |a|..] && AllSpace(s[..|s| - |a|])
    requires |r| <= |a| && r == a[..|r|] && AllSpace(a[|r|..])
    ensures var i := |s| - |a|;
            i + |r| <= |s| && r == s[i..i + |r|] && AllSpace(s[..i]) && AllSpace(s[i + |r|..])
  {
    var i := |s| - |a|;
    assert r == s[i..i + |r|];
    assert s[i + |r|..] == a[|r|..];
  }

  /** White space alone strips to the empty string, and only it does. */
  lemma StripEmpty(s: string)
    ensures Strip(s) == "" <==> AllSpace(s)
  {
    var a := StripStart(s);
    if a != "" {
      assert a[0] == s[|s| - |a|];
    }
  }

  predicate IsLowerAscii(c: char) {
    'a' <= c <= 'z'
  }

  /** `str.upper()` on one character, for the ASCII letters. */
  function UpperChar(c: char): (u: char)
    ensures IsLowerAscii(c) ==> u as int == c as int - 32
    ensures !IsLowerAscii(c) ==> u == c
    ensures !IsLowerAscii(u)
  {
    if IsLowerAscii(c) then (c as int - 32) as char else c
  }

  /** `str.upper()`, for the ASCII letters. */
  function Upper(s: string): (r: string)
    ensures |r| == |s|
    ensures forall k :: 0 <= k < |s| ==> r[k] == UpperChar(s[k])
    decreases |s|
  {
    if |s| == 0 then "" else [UpperChar(s[0])] + Upper(s[1..])
  }

  /** Upper-casing twice is upper-casing once. */
  lemma UpperIdempotent(s: string)
    ensures Upper(Upper(s)) == Upper(s)
  {
  }

  /** White space is not a letter, so upper-casing keeps the strip. */
  lemma UpperKeepsSpace(c: char)
    ensures IsSpace(UpperChar(c)) <==> IsSpace(c)
  {
  }

}
