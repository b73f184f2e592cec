/** String helpers used by the history engine: the first item of a
    comma-separated metadata list, and the shape of a series tag id. */
module Text {

  /** The part of `s` before the first occurrence of `sep`, or all of `s`
      when `sep` does not occur in it. */
  function Before(s: string, sep: char): (r: string)
    ensures r <= s
    ensures sep !in r
    ensures r == s || s[|r|] == sep
  {
    if s == [] || s[0] == sep then [] else [s[0]] + Before(s[1..], sep)
  }

  /** Splitting at the first separator recovers the part before it. */
  lemma {:induction false} BeforeJoin(a: string, sep: char, b: string)
    requires sep !in a
    ensures Before(a + [sep] + b, sep) == a
  {
    var s := a + [sep] + b;
    assert s[..|a|] == a && s[|a|] == sep;
  }

  /** A string without the separator is its own first part. */
  lemma BeforeNoSep(s: string, sep: char)
    requires sep !in s
    ensures Before(s, sep) == s
  {
  }

  /** The first element of a comma-separated metadata list such as
      `keywordIds` or `author`; later elements are ignored. */
  function FirstOfList(s: string): (r: string)
    ensures r <= s && ',' !in r
    ensures r == s || s[|r|] == ','
  {
    Before(s, ',')
  }

  /** `t` is `a/series/b` with a non-empty first segment `a` and a non-empty rest `b`. */
  ghost predicate SeriesShaped(t: string, a: string, b: string)
  {
    && t == a + "/series/" + b
    && a != []
    && '/' !in a
    && b != []
  }

  /** Tag ids of series pages: the second path segment is `series`. */
  predicate IsSeriesTag(t: string)
  {
    var head := Before(t, '/');
    && 0 < |head|
    && |head| + 8 < |t|
    && t[|head|..|head| + 8] == "/series/"
  }

  /** The series test accepts exactly the ids of the shape `a/series/b`. */
  lemma SeriesTagShape(t: string)
    ensures IsSeriesTag(t) <==> exists a, b :: SeriesShaped(t, a, b)
  {
    if IsSeriesTag(t) {
      SeriesTagParts(t);
    }
    if exists a, b :: SeriesShaped(t, a, b) {
      var a, b :| SeriesShaped(t, a, b);
      ShapedIsSeriesTag(t, a, b);
    }
  }

  /** A series tag splits at its first `/` into the two parts of its shape. */
  lemma SeriesTagParts(t: string)
    requires IsSeriesTag(t)
    ensures SeriesShaped(t, Before(t, '/'), t[|Before(t, '/')| + 8..])
  {
    var head := Before(t, '/');
    var rest := t[|head| + 8..];
    assert t == head + "/series/" + rest;
  }

  /** An id of the shape `a/series/b` passes the series test. */
  lemma ShapedIsSeriesTag(t: string, a: string, b: string)
    requires SeriesShaped(t, a, b)
    ensures IsSeriesTag(t)
  {
    assert t == a + ['/'] + ("series/" + b);
    BeforeJoin(a, '/', "series/" + b);
    assert t[|a|..|a| + 8] == "/series/";
  }
}
