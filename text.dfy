/** String helpers with Java's semantics: identifier segments, joining and String.split. */
module Text {

  /** The text after the last '/' of s (all of s when it holds no '/'). */
  function LastSegment(s: string): (r: string)
  {
    if |s| == 0 then ""
    else if s[|s| - 1] == '/' then ""
    else LastSegment(s[..|s| - 1]) + [s[|s| - 1]]
  }

  /** The last segment is the suffix of s that follows its last '/': it holds
      no '/', and it is either all of s or preceded by a '/'. */
  lemma {:induction false} LastSegmentIsLastSegment(s: string)
    ensures '/' !in LastSegment(s)
    ensures |LastSegment(s)| <= |s| && LastSegment(s) == s[|s| - |LastSegment(s)|..]
    ensures |LastSegment(s)| == |s| || s[|s| - |LastSegment(s)| - 1] == '/'
  {
    if |s| > 0 && s[|s| - 1] != '/' {
      var t := s[..|s| - 1];
      LastSegmentIsLastSegment(t);
      var r := LastSegment(t);
      assert LastSegment(s) == r + [s[|s| - 1]];
      assert s[|s| - |r| - 1..] == t[|t| - |r|..] + [s[|s| - 1]];
      if |r| < |t| {
        assert s[|s| - |r| - 2] == t[|t| - |r| - 1];
      }
    }
  }

  /** A prefix ending in '/' does not change the last segment: an absolute
      reference and its relative form have the same last segment. */
  lemma {:induction false} LastSegmentIgnoresPrefix(prefix: string, s: string)
    ensures LastSegment(prefix + "/" + s) == LastSegment(s)
  {
    if |s| == 0 {
      assert (prefix + "/" + s)[|prefix + "/" + s| - 1] == '/';
    } else {
      var t := prefix + "/" + s;
      assert t[..|t| - 1] == prefix + "/" + s[..|s| - 1];
      assert t[|t| - 1] == s[|s| - 1];
      LastSegmentIgnoresPrefix(prefix, s[..|s| - 1]);
    }
  }

  /** Collectors.joining with a one-character delimiter. */
  function Join(xs: seq<string>, sep: char): (r: string)
    ensures |xs| == 1 ==> r == xs[0]
  {
    if |xs| == 0 then ""
    else if |xs| == 1 then xs[0]
    else xs[0] + [sep] + Join(xs[1..], sep)
  }

  /** Every field of s between occurrences of sep, empty ones included:
      the inverse of Join. */
  function Fields(s: string, sep: char): (r: seq<string>)
    ensures |r| >= 1
    ensures forall i :: 0 <= i < |r| ==> sep !in r[i]
    ensures Join(r, sep) == s
  {
    if |s| == 0 then [""]
    else
      var rest := Fields(s[1..], sep);
      if s[0] == sep then [""] + rest
      else
        assert [s[0]] + rest[0] + Join(rest, sep)[|rest[0]|..] == s by {
          if |rest| > 1 {
            assert Join(rest, sep) == rest[0] + [sep] + Join(rest[1..], sep);
          }
        }
        [[s[0]] + rest[0]] + rest[1..]
  }

  /** A field holding no separator is its own single field. */
  lemma {:induction false} FieldsOfField(s: string, sep: char)
    requires sep !in s
    ensures Fields(s, sep) == [s]
  {
    if |s| > 0 {
      FieldsOfField(s[1..], sep);
    }
  }

  /** Splitting at the first separator peels off the text before it. */
  lemma {:induction false} FieldsCons(x: string, sep: char, rest: string)
    requires sep !in x
    ensures Fields(x + [sep] + rest, sep) == [x] + Fields(rest, sep)
  {
    if |x| > 0 {
      var t := x + [sep] + rest;
      assert t[0] == x[0] && t[0] != sep;
      assert t[1..] == x[1..] + [sep] + rest;
      FieldsCons(x[1..], sep, rest);
      assert [x[0]] + x[1..] == x;
    } else {
      assert x + [sep] + rest == [sep] + rest;
    }
  }

  /** Joining fields that hold no separator and splitting again gives the fields back. */
  lemma {:induction false} FieldsOfJoin(xs: seq<string>, sep: char)
    requires |xs| >= 1
    requires forall i :: 0 <= i < |xs| ==> sep !in xs[i]
    ensures Fields(Join(xs, sep), sep) == xs
  {
    if |xs| == 1 {
      FieldsOfField(xs[0], sep);
    } else {
      FieldsCons(xs[0], sep, Join(xs[1..], sep));
      FieldsOfJoin(xs[1..], sep);
    }
  }

  /** Fields without the empty fields at the end (what split drops). */
  function DropTrailingEmpty(xs: seq<string>): (r: seq<string>)
    ensures |r| <= |xs| && r == xs[..|r|]
    ensures |r| > 0 ==> r[|r| - 1] != ""
    ensures forall i :: |r| <= i < |xs| ==> xs[i] == ""
  {
    if |xs| == 0 then []
    else if xs[|xs| - 1] == "" then DropTrailingEmpty(xs[..|xs| - 1])
    else xs
  }

  /** Java's String.split with a one-character, non-regex delimiter and no
      limit: no field holds the delimiter; joined again they give s up to a
      tail made only of delimiters; and unless the delimiter does not occur
      at all (when s itself is the one field), the last field is not empty. */
  function JavaSplit(s: string, sep: char): (r: seq<string>)
    ensures sep !in s ==> r == [s]
    ensures forall i :: 0 <= i < |r| ==> sep !in r[i]
    ensures |Join(r, sep)| <= |s| && s[..|Join(r, sep)|] == Join(r, sep)
    ensures forall i :: |Join(r, sep)| <= i < |s| ==> s[i] == sep
    ensures sep in s && |r| > 0 ==> r[|r| - 1] != ""
  {
    if sep !in s then [s]
    else
      var fs := Fields(s, sep);
      JoinDropTrailingEmpty(fs, sep);
      DropTrailingEmpty(fs)
  }

  /** Dropping trailing empty fields removes only separators from the end of
      the join. */
  lemma {:induction false} JoinDropTrailingEmpty(xs: seq<string>, sep: char)
    ensures var j, d := Join(xs, sep), Join(DropTrailingEmpty(xs), sep);
            |d| <= |j| && j[..|d|] == d && forall i :: |d| <= i < |j| ==> j[i] == sep
  {
    if |xs| > 0 && xs[|xs| - 1] == "" {
      var init := xs[..|xs| - 1];
      JoinDropTrailingEmpty(init, sep);
      if |init| > 0 {
        JoinAppend(init, [""], sep);
        assert init + [""] == xs;
      }
    }
  }

  /** Splitting fields joined by the delimiter gives them back, provided the
      last one is not empty (split drops trailing empty fields). */
  lemma {:induction false} JavaSplitOfJoin(xs: seq<string>, sep: char)
    requires |xs| >= 2
    requires forall i :: 0 <= i < |xs| ==> sep !in xs[i]
    requires xs[|xs| - 1] != ""
    ensures JavaSplit(Join(xs, sep), sep) == xs
  {
    FieldsOfJoin(xs, sep);
    var s := Join(xs, sep);
    assert s == xs[0] + [sep] + Join(xs[1..], sep);
    assert s[|xs[0]|] == sep;
  }

  /** Splitting after the last field was emptied drops it. */
  lemma JavaSplitOfJoinEmptyLast(xs: seq<string>, sep: char)
    requires |xs| >= 2
    requires forall i :: 0 <= i < |xs| ==> sep !in xs[i]
    requires xs[|xs| - 1] == ""
    ensures |JavaSplit(Join(xs, sep), sep)| < |xs|
  {
    FieldsOfJoin(xs, sep);
    var s := Join(xs, sep);
    assert s == xs[0] + [sep] + Join(xs[1..], sep);
    assert s[|xs[0]|] == sep;
  }

  /** Joining a concatenation puts one delimiter between the two joins. */
  lemma {:induction false} JoinAppend(a: seq<string>, b: seq<string>, sep: char)
    requires |a| >= 1 && |b| >= 1
    ensures Join(a + b, sep) == Join(a, sep) + [sep] + Join(b, sep)
  {
    if |a| == 1 {
      assert (a + b)[1..] == b;
    } else {
      assert (a + b)[1..] == a[1..] + b;
      JoinAppend(a[1..], b, sep);
    }
  }

  /** Three fields joined. */
  lemma JoinThree(p: string, q: string, r: string, sep: char)
    ensures Join([p, q, r], sep) == p + [sep] + q + [sep] + r
  {
    assert [p, q, r][1..] == [q, r];
    assert [q, r][1..] == [r];
  }
}
