/** Splitting text into pieces at a separator character, as Foundation's
    `components(separatedBy:)` does for the single-character separators the
    parser uses (`"\n"` between lines, `","` between fields). */
module Text {

  /** The pieces of `s` between occurrences of `sep`: one more piece than
      there are separators, empty pieces kept, and `[""]` for empty `s`. */
  function SplitOn(s: string, sep: char): (parts: seq<string>)
    ensures |parts| > 0
    ensures forall i :: 0 <= i < |parts| ==> sep !in parts[i]
  {
    if |s| == 0 then [""]
    else
      var rest := SplitOn(s[1..], sep);
      if s[0] == sep then [""] + rest
      else [[s[0]] + rest[0]] + rest[1..]
  }

  /** There is one more piece than there are separators. */
  lemma {:induction false} SplitCount(s: string, sep: char)
    ensures |SplitOn(s, sep)| == multiset(s)[sep] + 1
  {
    if |s| > 0 {
      SplitCount(s[1..], sep);
      assert s == [s[0]] + s[1..];
    }
  }

  /** The pieces glued back together with `sep` between neighbours. */
  function JoinWith(parts: seq<string>, sep: char): (s: string)
    requires |parts| > 0
    ensures |s| >= |parts| - 1
  {
    if |parts| == 1 then parts[0]
    else parts[0] + [sep] + JoinWith(parts[1..], sep)
  }

  /** Prepending a character to the first piece prepends it to the join. */
  lemma JoinHead(c: char, p: string, ps: seq<string>, sep: char)
    ensures JoinWith([[c] + p] + ps, sep) == [c] + JoinWith([p] + ps, sep)
  {
    assert ([[c] + p] + ps)[1..] == ps == ([p] + ps)[1..];
  }

  /** Joining the pieces gives back the text that was split. */
  lemma {:induction false} JoinSplit(s: string, sep: char)
    ensures JoinWith(SplitOn(s, sep), sep) == s
  {
    if |s| > 0 {
      JoinSplit(s[1..], sep);
      var rest := SplitOn(s[1..], sep);
      assert s == [s[0]] + s[1..];
      if s[0] != sep {
        assert SplitOn(s, sep) == [[s[0]] + rest[0]] + rest[1..];
        assert rest == [rest[0]] + rest[1..];
        JoinHead(s[0], rest[0], rest[1..], sep);
        assert JoinWith(SplitOn(s, sep), sep) == [s[0]] + JoinWith(rest, sep) == [s[0]] + s[1..];
      } else {
        assert SplitOn(s, sep) == [""] + rest;
        assert ([""] + rest)[1..] == rest;
        assert JoinWith(SplitOn(s, sep), sep) == "" + [sep] + JoinWith(rest, sep);
      }
    }
  }

  /** Splitting undoes joining when no piece contains the separator. */
  lemma {:induction false} SplitJoin(parts: seq<string>, sep: char)
    requires |parts| > 0
    requires forall i :: 0 <= i < |parts| ==> sep !in parts[i]
    ensures SplitOn(JoinWith(parts, sep), sep) == parts
  {
    if |parts| == 1 {
      SplitNoSeparator(parts[0], sep);
    } else {
      SplitJoin(parts[1..], sep);
      SplitAtSeparator(parts[0], JoinWith(parts[1..], sep), sep);
      assert parts == [parts[0]] + parts[1..];
    }
  }

  /** A separator-free text is a single piece. */
  lemma {:induction false} SplitNoSeparator(p: string, sep: char)
    requires sep !in p
    ensures SplitOn(p, sep) == [p]
  {
    if |p| > 0 {
      SplitNoSeparator(p[1..], sep);
      assert p == [p[0]] + p[1..];
    }
  }

  /** A separator-free prefix followed by `sep` becomes the first piece. */
  lemma {:induction false} SplitAtSeparator(p: string, t: string, sep: char)
    requires sep !in p
    ensures SplitOn(p + [sep] + t, sep) == [p] + SplitOn(t, sep)
  {
    if |p| == 0 {
      assert p + [sep] + t == [sep] + t;
      assert ([sep] + t)[1..] == t;
    } else {
      SplitAtSeparator(p[1..], t, sep);
      assert (p + [sep] + t)[1..] == p[1..] + [sep] + t;
      assert p == [p[0]] + p[1..];
    }
  }

  /** The first piece is the longest separator-free prefix of `s`. */
  lemma {:induction false} FirstPiece(s: string, sep: char)
    ensures |SplitOn(s, sep)[0]| <= |s|
    ensures SplitOn(s, sep)[0] == s[..|SplitOn(s, sep)[0]|]
    ensures |SplitOn(s, sep)[0]| == |s| || s[|SplitOn(s, sep)[0]|] == sep
  {
    if |s| > 0 && s[0] != sep {
      FirstPiece(s[1..], sep);
    }
  }

  /** The first piece is empty exactly when `s` is empty or starts with `sep`. */
  lemma FirstPieceEmpty(s: string, sep: char)
    ensures SplitOn(s, sep)[0] == "" <==> |s| == 0 || s[0] == sep
  {
    FirstPiece(s, sep);
  }

  /** A trailing separator adds one empty last piece. */
  lemma {:induction false} SplitTrailingSeparator(t: string, sep: char)
    ensures SplitOn(t + [sep], sep) == SplitOn(t, sep) + [""]
  {
    if |t| > 0 {
      SplitTrailingSeparator(t[1..], sep);
      assert (t + [sep])[1..] == t[1..] + [sep];
    } else {
      assert t + [sep] == [sep];
    }
  }
}
