/**
 * The optional value that stands for Java's nullable references.
 */
module Options {

  datatype Option<T> = None | Some(value: T)

  /** The elements of an optional value as a sequence of length at most one. */
  function ToSeq<T>(o: Option<T>): (s: seq<T>)
    ensures |s| <= 1
    ensures o.None? <==> s == []
    ensures o.Some? ==> s == [o.value]
  {
    match o
    case None => []
    case Some(v) => [v]
  }
}

/**
 * The few IntelliJ `StringUtil` / `ContainerUtil` helpers whose behaviour the
 * inspection and the create-file action depend on.
 */
module JavaStrings {
  import opened Options

  /**
   * `StringUtil.isEmptyOrSpaces`: the string is empty once Java's `trim()` has
   * removed every leading and trailing character at or below U+0020.
   */
  predicate IsEmptyOrSpaces(s: string) {
    forall i | 0 <= i < |s| :: s[i] <= ' '
  }

  /** `StringUtil.join(list, separator)`: the elements with `sep` between neighbours. */
  function Join(xs: seq<string>, sep: string): string
    decreases |xs|
  {
    if |xs| == 0 then ""
    else if |xs| == 1 then xs[0]
    else xs[0] + sep + Join(xs[1..], sep)
  }

  /**
   * Cutting a string at every `sep`, keeping empty pieces: the inverse of
   * `Join` with a one-character separator. IntelliJ has no such helper; only
   * the round-trip lemma uses it.
   */
  function SplitKeepingEmpty(s: string, sep: char): (r: seq<string>)
    ensures |r| >= 1
    decreases |s|
  {
    if |s| == 0 then [""]
    else if s[0] == sep then [""] + SplitKeepingEmpty(s[1..], sep)
    else
      var rest := SplitKeepingEmpty(s[1..], sep);
      [[s[0]] + rest[0]] + rest[1..]
  }

  lemma {:induction false} SplitPiece(a: string, b: string, sep: char)
    requires sep !in a
    ensures SplitKeepingEmpty(a + [sep] + b, sep) == [a] + SplitKeepingEmpty(b, sep)
    decreases |a|
  {
    if |a| == 0 {
      assert a + [sep] + b == [sep] + b;
      assert ([sep] + b)[1..] == b;
    } else {
      assert (a + [sep] + b)[0] == a[0];
      assert (a + [sep] + b)[1..] == a[1..] + [sep] + b;
      SplitPiece(a[1..], b, sep);
      assert [a[0]] + a[1..] == a;
    }
  }

  lemma {:induction false} SplitWhole(a: string, sep: char)
    requires sep !in a
    ensures SplitKeepingEmpty(a, sep) == [a]
    decreases |a|
  {
    if |a| > 0 {
      SplitWhole(a[1..], sep);
      assert [a[0]] + a[1..] == a;
    }
  }

  /** Joining lines that hold no separator and cutting the result again gives back the lines. */
  lemma {:induction false} JoinSplitRoundTrip(xs: seq<string>, sep: char)
    requires |xs| >= 1
    requires forall i | 0 <= i < |xs| :: sep !in xs[i]
    ensures SplitKeepingEmpty(Join(xs, [sep]), sep) == xs
    decreases |xs|
  {
    if |xs| == 1 {
      SplitWhole(xs[0], sep);
    } else {
      JoinSplitRoundTrip(xs[1..], sep);
      SplitPiece(xs[0], Join(xs[1..], [sep]), sep);
      assert [xs[0]] + xs[1..] == xs;
    }
  }

  /**
   * `StringUtil.split(s, separator)` for a one-character separator, with that
   * method's defaults: separators are dropped and so are empty pieces.
   */
  function Split(s: string, sep: char): seq<string> {
    SplitFrom(s, sep, "")
  }

  /** Scans `s` left to right; `cur` is the piece read since the last separator. */
  function SplitFrom(s: string, sep: char, cur: string): seq<string>
    decreases |s|
  {
    if |s| == 0 then ToSeq(NonEmpty(cur))
    else if s[0] == sep then ToSeq(NonEmpty(cur)) + SplitFrom(s[1..], sep, "")
    else SplitFrom(s[1..], sep, cur + [s[0]])
  }

  function NonEmpty(s: string): (r: Option<string>)
    ensures r.None? <==> s == []
    ensures r.Some? ==> r.value == s
  {
    if s == [] then None else Some(s)
  }

  /** `ContainerUtil.getLastItem`: the last element, or null for an empty list. */
  function LastItem<T>(xs: seq<T>): (r: Option<T>)
    ensures r.None? <==> xs == []
    ensures r.Some? ==> r.value == xs[|xs| - 1]
  {
    if xs == [] then None else Some(xs[|xs| - 1])
  }

  /** The pieces `Split` produces are never empty and never hold the separator. */
  lemma {:induction false} SplitPiecesAreClean(s: string, sep: char, cur: string)
    requires sep !in cur
    ensures forall i | 0 <= i < |SplitFrom(s, sep, cur)| ::
      SplitFrom(s, sep, cur)[i] != [] && sep !in SplitFrom(s, sep, cur)[i]
    decreases |s|
  {
    if |s| > 0 {
      if s[0] == sep {
        SplitPiecesAreClean(s[1..], sep, "");
      } else {
        SplitPiecesAreClean(s[1..], sep, cur + [s[0]]);
      }
    }
  }

  /** `Split` produces nothing exactly when the string holds nothing but separators. */
  lemma {:induction false} SplitEmptyIff(s: string, sep: char, cur: string)
    ensures SplitFrom(s, sep, cur) == [] <==> cur == [] && forall i | 0 <= i < |s| :: s[i] == sep
    decreases |s|
  {
    if |s| > 0 {
      if s[0] == sep {
        SplitEmptyIff(s[1..], sep, "");
        assert forall i | 1 <= i < |s| :: s[i] == s[1..][i - 1];
      } else {
        SplitEmptyIff(s[1..], sep, cur + [s[0]]);
      }
    }
  }

  /** A trailing separator adds no piece. */
  lemma {:induction false} SplitTrailingSeparator(s: string, sep: char, cur: string)
    ensures SplitFrom(s + [sep], sep, cur) == SplitFrom(s, sep, cur)
    decreases |s|
  {
    if |s| == 0 {
      assert s + [sep] == [sep];
      assert SplitFrom([sep], sep, cur) == ToSeq(NonEmpty(cur)) + SplitFrom([], sep, "");
    } else {
      assert (s + [sep])[0] == s[0];
      assert (s + [sep])[1..] == s[1..] + [sep];
      if s[0] == sep {
        SplitTrailingSeparator(s[1..], sep, "");
      } else {
        SplitTrailingSeparator(s[1..], sep, cur + [s[0]]);
      }
    }
  }

  /** Any number of trailing separators adds no piece. */
  lemma {:induction false} SplitTrailingSeparators(s: string, sep: char, n: nat)
    ensures SplitFrom(s + Repeat(sep, n), sep, "") == SplitFrom(s, sep, "")
    decreases n
  {
    if n == 0 {
      assert s + Repeat(sep, n) == s;
    } else {
      assert s + Repeat(sep, n) == (s + Repeat(sep, n - 1)) + [sep];
      SplitTrailingSeparator(s + Repeat(sep, n - 1), sep, "");
      SplitTrailingSeparators(s, sep, n - 1);
    }
  }

  function Repeat(c: char, n: nat): (r: string)
    ensures |r| == n && forall i | 0 <= i < n :: r[i] == c
  {
    if n == 0 then "" else Repeat(c, n - 1) + [c]
  }

  /** A piece free of separators, read after `cur`, is the one last piece. */
  lemma {:induction false} SplitLastPiece(p: string, sep: char, cur: string)
    requires sep !in p && cur + p != []
    ensures SplitFrom(p, sep, cur) == [cur + p]
    decreases |p|
  {
    if |p| == 0 {
      assert cur + p == cur;
    } else {
      assert p[0] in p;
      SplitLastPiece(p[1..], sep, cur + [p[0]]);
      assert cur + [p[0]] + p[1..] == cur + p;
    }
  }

  /** Whatever precedes the last separator, the piece after it is the last piece. */
  lemma {:induction false} SplitEndsWithPiece(pre: string, p: string, sep: char, cur: string)
    requires sep !in p && p != []
    ensures |SplitFrom(pre + [sep] + p, sep, cur)| >= 1
    ensures LastItem(SplitFrom(pre + [sep] + p, sep, cur)) == Some(p)
    decreases |pre|
  {
    if |pre| == 0 {
      assert pre + [sep] + p == [sep] + p;
      assert ([sep] + p)[1..] == p;
      SplitLastPiece(p, sep, "");
      assert "" + p == p;
    } else {
      assert (pre + [sep] + p)[0] == pre[0];
      assert (pre + [sep] + p)[1..] == pre[1..] + [sep] + p;
      if pre[0] == sep {
        SplitEndsWithPiece(pre[1..], p, sep, "");
      } else {
        SplitEndsWithPiece(pre[1..], p, sep, cur + [pre[0]]);
      }
    }
  }
}
