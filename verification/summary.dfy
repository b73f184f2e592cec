/** The interest summary: per tag, a display name and day-bucketed view
    counts whose ages are relative to the summary's `periodEnd` day. */
module Summaries {
  import opened Options
  import opened Pages

  /** The lengths of retention window the observable behaviour allows: a
      5-day-old point is kept and a 500-day-old point is dropped. */
  type Window = w: nat | 5 < w <= 500 witness 90

  /** A data point is dropped once its age reaches this many days. The value
      is left open: every proof holds for any window the bounds allow. */
  const RetentionDays: Window

  /** `count` views, `age` days before the summary's `periodEnd`. */
  datatype Point = Point(age: nat, count: nat)

  /** A tag's display name, its data points (youngest first) and the sequence
      number of the latest view counted under it, used to break ranking ties. */
  datatype TagRecord = TagRecord(name: string, points: seq<Point>, stamp: nat)

  /** The whole summary document. `nextStamp` is the sequence number the next
      tag update receives. */
  datatype Summary = Summary(periodEnd: int, tags: map<string, TagRecord>, nextStamp: nat)

  /** The summary an absent document stands for: no tags, reckoned from `day`. */
  function Empty(day: int): (s: Summary)
    ensures s.tags == map[] && s.periodEnd == day
  {
    Summary(day, map[], 0)
  }

  /** The number of views the data points record. */
  function Total(ps: seq<Point>): nat
  {
    if ps == [] then 0 else ps[0].count + Total(ps[1..])
  }

  /** Data points ordered by strictly increasing age: one point per day. */
  predicate Ascending(ps: seq<Point>)
  {
    forall i, j :: 0 <= i < j < |ps| ==> ps[i].age < ps[j].age
  }

  /** Data points as the summary keeps them: one per day, youngest first,
      each counting at least one view, none beyond the retention window. */
  predicate ValidPoints(ps: seq<Point>)
  {
    && Ascending(ps)
    && (forall i :: 0 <= i < |ps| ==> ps[i].count >= 1 && ps[i].age < RetentionDays)
  }

  /** The summary invariant: every tag has valid, non-empty points and a
      stamp below `nextStamp`, and no two tags share a stamp. */
  ghost predicate WellFormed(s: Summary)
  {
    && (forall t :: t in s.tags ==> ValidPoints(s.tags[t].points) && s.tags[t].points != [] && s.tags[t].stamp < s.nextStamp)
    && (forall t, u :: t in s.tags && u in s.tags && t != u ==> s.tags[t].stamp != s.tags[u].stamp)
  }

  // ---------------------------------------------------------------------------
  // Aging and pruning

  /** The points `delta` days older, without those that reach the retention
      window. */
  function AgePoints(ps: seq<Point>, delta: nat): (r: seq<Point>)
    ensures |r| <= |ps|
    ensures forall i :: 0 <= i < |r| ==> r[i].age < RetentionDays
  {
    if ps == [] then []
    else if ps[0].age + delta < RetentionDays then [Point(ps[0].age + delta, ps[0].count)] + AgePoints(ps[1..], delta)
    else AgePoints(ps[1..], delta)
  }

  /** The point the `i`-th aged point comes from: aging only shifts ages and
      never invents or merges points. */
  function Origin(ps: seq<Point>, delta: nat, i: nat): (j: nat)
    requires i < |AgePoints(ps, delta)|
    ensures i <= j < |ps|
    ensures AgePoints(ps, delta)[i] == Point(ps[j].age + delta, ps[j].count)
    decreases |ps|
  {
    if ps[0].age + delta < RetentionDays then
      if i == 0 then 0 else 1 + Origin(ps[1..], delta, i - 1)
    else
      1 + Origin(ps[1..], delta, i)
  }

  /** Where a point that stays inside the window ends up after aging: every
      such point is kept. */
  function Kept(ps: seq<Point>, delta: nat, j: nat): (i: nat)
    requires j < |ps| && ps[j].age + delta < RetentionDays
    ensures i <= j && i < |AgePoints(ps, delta)|
    ensures AgePoints(ps, delta)[i] == Point(ps[j].age + delta, ps[j].count)
    decreases |ps|
  {
    if j == 0 then 0
    else
      assert ps[1..][j - 1] == ps[j];
      if ps[0].age + delta < RetentionDays then 1 + Kept(ps[1..], delta, j - 1)
      else Kept(ps[1..], delta, j - 1)
  }

  /** Aging keeps every point that ends up at most 5 days old, with its
      count, and keeps none that would be 500 days old or more. */
  lemma RetentionBounds(ps: seq<Point>, delta: nat)
    ensures forall j :: 0 <= j < |ps| && ps[j].age + delta <= 5 ==>
      Point(ps[j].age + delta, ps[j].count) in AgePoints(ps, delta)
    ensures forall p :: p in AgePoints(ps, delta) ==> p.age < 500
  {
    forall j | 0 <= j < |ps| && ps[j].age + delta <= 5
      ensures Point(ps[j].age + delta, ps[j].count) in AgePoints(ps, delta)
    {
      var i := Kept(ps, delta, j);
    }
  }

  /** Aging keeps the points ordered. */
  lemma {:induction false} AgePointsAscending(ps: seq<Point>, delta: nat)
    requires Ascending(ps)
    ensures Ascending(AgePoints(ps, delta))
    decreases |ps|
  {
    if ps != [] {
      AgePointsAscending(ps[1..], delta);
      var rest := AgePoints(ps[1..], delta);
      if ps[0].age + delta < RetentionDays {
        var r := AgePoints(ps, delta);
        assert r == [Point(ps[0].age + delta, ps[0].count)] + rest;
        forall i | 0 <= i < |rest|
          ensures rest[i].age > ps[0].age + delta
        {
          var j := Origin(ps[1..], delta, i);
          assert ps[1..][j] == ps[j + 1];
        }
        forall i, k | 0 <= i < k < |r|
          ensures r[i].age < r[k].age
        {
          assert r[k] == rest[k - 1];
          if i > 0 {
            assert r[i] == rest[i - 1];
          }
        }
      }
    }
  }

  /** How many days `day` lies after the summary's `periodEnd`; a day at or
      before it does not age the summary. */
  function Delta(s: Summary, day: int): (d: nat)
    ensures s.periodEnd + d >= day
    ensures d > 0 ==> s.periodEnd + d == day
  {
    if day > s.periodEnd then day - s.periodEnd else 0
  }

  /** Rebases every data point against `day` and drops those beyond the
      retention window; a tag left without points is removed. */
  function Prune(s: Summary, day: int): (r: Summary)
    ensures r.periodEnd == s.periodEnd + Delta(s, day)
    ensures r.nextStamp == s.nextStamp
    ensures r.tags.Keys <= s.tags.Keys
    ensures forall t :: t in r.tags ==>
      && r.tags[t].name == s.tags[t].name
      && r.tags[t].stamp == s.tags[t].stamp
      && r.tags[t].points == AgePoints(s.tags[t].points, Delta(s, day))
      && r.tags[t].points != []
    ensures forall t :: t in s.tags && AgePoints(s.tags[t].points, Delta(s, day)) != [] ==> t in r.tags
  {
    var delta := Delta(s, day);
    Summary(
      s.periodEnd + delta,
      map t | t in s.tags && AgePoints(s.tags[t].points, delta) != [] :: s.tags[t].(points := AgePoints(s.tags[t].points, delta)),
      s.nextStamp)
  }

  /** Tag `t` records `count` views on absolute day `day`. */
  ghost predicate ViewsOn(s: Summary, t: string, day: int, count: nat)
  {
    && t in s.tags
    && exists i :: 0 <= i < |s.tags[t].points| && s.periodEnd - s.tags[t].points[i].age == day && s.tags[t].points[i].count == count
  }

  /** Pruning is only a change of reference day plus the retention cut: every
      view keeps its absolute day, and exactly the views of the last
      `RetentionDays` days survive. */
  lemma PruneKeepsDays(s: Summary, today: int, t: string, day: int, count: nat)
    ensures ViewsOn(Prune(s, today), t, day, count)
        <==> ViewsOn(s, t, day, count) && day > Prune(s, today).periodEnd - RetentionDays
  {
    if ViewsOn(Prune(s, today), t, day, count) {
      PrunedViewsWereThere(s, today, t, day, count);
    }
    if ViewsOn(s, t, day, count) && day > Prune(s, today).periodEnd - RetentionDays {
      RecentViewsStay(s, today, t, day, count);
    }
  }

  /** `PruneKeepsDays`, from the pruned summary back to the stored one. */
  lemma PrunedViewsWereThere(s: Summary, today: int, t: string, day: int, count: nat)
    requires ViewsOn(Prune(s, today), t, day, count)
    ensures ViewsOn(s, t, day, count) && day > Prune(s, today).periodEnd - RetentionDays
  {
    var r := Prune(s, today);
    var ps := r.tags[t].points;
    var i :| 0 <= i < |ps| && r.periodEnd - ps[i].age == day && ps[i].count == count;
    var j := Origin(s.tags[t].points, Delta(s, today), i);
    assert s.periodEnd - s.tags[t].points[j].age == day;
  }

  /** `PruneKeepsDays`, from the stored summary to the pruned one. */
  lemma RecentViewsStay(s: Summary, today: int, t: string, day: int, count: nat)
    requires ViewsOn(s, t, day, count) && day > Prune(s, today).periodEnd - RetentionDays
    ensures ViewsOn(Prune(s, today), t, day, count)
  {
    var r := Prune(s, today);
    var delta := Delta(s, today);
    var ps := s.tags[t].points;
    var i :| 0 <= i < |ps| && s.periodEnd - ps[i].age == day && ps[i].count == count;
    var k := Kept(ps, delta, i);
    assert t in r.tags;
    assert r.tags[t].points[k] == Point(ps[i].age + delta, ps[i].count);
  }

  /** Pruning keeps the summary invariant. */
  lemma PruneWellFormed(s: Summary, day: int)
    requires WellFormed(s)
    ensures WellFormed(Prune(s, day))
  {
    var r := Prune(s, day);
    forall t | t in r.tags
      ensures ValidPoints(r.tags[t].points)
    {
      var ps := r.tags[t].points;
      AgePointsAscending(s.tags[t].points, Delta(s, day));
      forall i | 0 <= i < |ps|
        ensures ps[i].count >= 1
      {
        var j := Origin(s.tags[t].points, Delta(s, day), i);
      }
    }
  }

  /** Aging twice is aging once by the sum. */
  lemma {:induction false} AgePointsTwice(ps: seq<Point>, a: nat, b: nat)
    ensures AgePoints(AgePoints(ps, a), b) == AgePoints(ps, a + b)
  {
    if ps != [] {
      AgePointsTwice(ps[1..], a, b);
    }
  }

  /** Aging by zero days keeps points already inside the window. */
  lemma {:induction false} AgePointsZero(ps: seq<Point>)
    requires forall i :: 0 <= i < |ps| ==> ps[i].age < RetentionDays
    ensures AgePoints(ps, 0) == ps
  {
    if ps != [] {
      AgePointsZero(ps[1..]);
    }
  }

  /** Lazy aging is consistent: pruning at an intermediate day and then at a
      later one is the same as pruning once at the later day. */
  lemma PruneTwice(s: Summary, d1: int, d2: int)
    requires d1 <= d2
    ensures Prune(Prune(s, d1), d2) == Prune(s, d2)
  {
    var lhs := Prune(Prune(s, d1), d2);
    var rhs := Prune(s, d2);
    forall t | t in s.tags
      ensures t in lhs.tags <==> t in rhs.tags
      ensures t in lhs.tags ==> lhs.tags[t] == rhs.tags[t]
    {
      PruneTwiceTag(s, d1, d2, t);
    }
    SameTags(lhs.tags, rhs.tags, s.tags.Keys);
  }

  /** `PruneTwice`, for one tag. */
  lemma PruneTwiceTag(s: Summary, d1: int, d2: int, t: string)
    requires d1 <= d2 && t in s.tags
    ensures t in Prune(Prune(s, d1), d2).tags <==> t in Prune(s, d2).tags
    ensures t in Prune(s, d2).tags ==> Prune(Prune(s, d1), d2).tags[t] == Prune(s, d2).tags[t]
  {
    var p1 := Prune(s, d1);
    var a := Delta(s, d1);
    var b := Delta(p1, d2);
    assert a + b == Delta(s, d2);
    var lhs := Prune(p1, d2);
    var rhs := Prune(s, d2);
    var ps := s.tags[t].points;
    AgePointsTwice(ps, a, b);
    if t in p1.tags {
      assert p1.tags[t].points == AgePoints(ps, a);
      if t in lhs.tags {
        var want := TagRecord(s.tags[t].name, AgePoints(ps, a + b), s.tags[t].stamp);
        assert lhs.tags[t] == want;
        assert rhs.tags[t] == want;
      }
    } else {
      assert AgePoints(ps, a) == [];
      assert AgePoints(ps, a + b) == AgePoints([], b) == [];
    }
  }

  /** Two tag maps over keys of `keys` that agree on every key of `keys`. */
  lemma SameTags(m1: map<string, TagRecord>, m2: map<string, TagRecord>, keys: set<string>)
    requires m1.Keys <= keys && m2.Keys <= keys
    requires forall t :: t in keys ==> (t in m1 <==> t in m2)
    requires forall t :: t in keys && t in m1 ==> m1[t] == m2[t]
    ensures m1 == m2
  {
  }

  /** Reading a well-formed summary on or before its `periodEnd` changes
      nothing; in particular pruning is idempotent. */
  lemma PruneIdle(s: Summary, day: int)
    requires WellFormed(s) && day <= s.periodEnd
    ensures Prune(s, day) == s
  {
    forall t | t in s.tags
      ensures AgePoints(s.tags[t].points, 0) == s.tags[t].points
    {
      AgePointsZero(s.tags[t].points);
    }
    var r := Prune(s, day);
    SameTags(r.tags, s.tags, s.tags.Keys);
  }

  // ---------------------------------------------------------------------------
  // Logging a page view

  /** The position of the first point of age 0, if there is one. */
  function FindToday(ps: seq<Point>): (r: Option<nat>)
    ensures r.Some? ==> r.value < |ps| && ps[r.value].age == 0
    ensures r.Some? ==> forall i :: 0 <= i < r.value ==> ps[i].age != 0
    ensures r.None? ==> forall i :: 0 <= i < |ps| ==> ps[i].age != 0
  {
    if ps == [] then None
    else if ps[0].age == 0 then Some(0)
    else match FindToday(ps[1..])
      case None => None
      case Some(k) => Some(k + 1)
  }

  /** Replacing one point's count changes the total by the difference. */
  lemma {:induction false} TotalUpdate(ps: seq<Point>, i: nat, p: Point)
    requires i < |ps|
    ensures Total(ps[i := p]) + ps[i].count == Total(ps) + p.count
  {
    if i > 0 {
      TotalUpdate(ps[1..], i - 1, p);
      assert ps[i := p][1..] == ps[1..][i - 1 := p];
    }
  }

  /** One more view today: the first age-0 point counts one more and every
      other point stays where it is, or, when no point has age 0, a new point
      `(0, 1)` is put in front of the unchanged list. */
  function LogToday(ps: seq<Point>): (r: seq<Point>)
    ensures FindToday(ps).Some? ==>
      var k := FindToday(ps).value;
      |r| == |ps| && r[k] == Point(0, ps[k].count + 1) &&
      forall i :: 0 <= i < |ps| && i != k ==> r[i] == ps[i]
    ensures FindToday(ps).None? ==> |r| == |ps| + 1 && r[0] == Point(0, 1) && r[1..] == ps
    ensures Total(r) == Total(ps) + 1
    ensures exists i :: 0 <= i < |r| && r[i].age == 0
    ensures ValidPoints(ps) ==> ValidPoints(r) && r != []
  {
    match FindToday(ps)
    case Some(i) =>
      TotalUpdate(ps, i, Point(0, ps[i].count + 1));
      var r := ps[i := Point(0, ps[i].count + 1)];
      assert r[i].age == 0;
      r
    case None =>
      var r := [Point(0, 1)] + ps;
      assert r[0].age == 0;
      r
  }

  /** The points recorded for `t`, none if it is not in the summary. */
  function PointsOf(s: Summary, t: string): seq<Point>
  {
    if t in s.tags then s.tags[t].points else []
  }

  /** The record `tag` gets when a view is counted under it with stamp `stamp`:
      an existing tag keeps its display name. */
  function Bumped(s: Summary, tag: Tag, stamp: nat): TagRecord
  {
    TagRecord(if tag.id in s.tags then s.tags[tag.id].name else tag.name, LogToday(PointsOf(s, tag.id)), stamp)
  }

  /** Counts one view today under `tag`, stamped with the next sequence number;
      a tag already in the summary keeps its display name, a new one takes
      the page's. */
  function LogTag(s: Summary, tag: Tag): (r: Summary)
    ensures r.periodEnd == s.periodEnd && r.nextStamp == s.nextStamp + 1
    ensures r.tags.Keys == s.tags.Keys + {tag.id}
    ensures r.tags[tag.id].stamp == s.nextStamp
    ensures r.tags[tag.id].name == (if tag.id in s.tags then s.tags[tag.id].name else tag.name)
    ensures r.tags[tag.id].points == LogToday(PointsOf(s, tag.id))
    ensures Total(r.tags[tag.id].points) == Total(PointsOf(s, tag.id)) + 1
    ensures forall t :: t in s.tags && t != tag.id ==> r.tags[t] == s.tags[t]
  {
    s.(tags := s.tags[tag.id := Bumped(s, tag, s.nextStamp)], nextStamp := s.nextStamp + 1)
  }

  /** Counts one view today under each of `tags`, in order. */
  function LogTags(s: Summary, tags: seq<Tag>): (r: Summary)
    ensures r.periodEnd == s.periodEnd && r.nextStamp == s.nextStamp + |tags|
    ensures r.tags.Keys == s.tags.Keys + IdSet(tags)
    decreases |tags|
  {
    if tags == [] then s
    else
      IdSetCons(tags);
      LogTags(LogTag(s, tags[0]), tags[1..])
  }

  /** The `i`-th tag of a page view gets the `i`-th new stamp and one more
      view today, and keeps an existing display name. */
  lemma {:induction false} LogTagsAt(s: Summary, tags: seq<Tag>, i: nat, stamp: nat)
    requires DistinctIds(tags) && i < |tags| && stamp == s.nextStamp + i
    ensures LogTags(s, tags).tags[tags[i].id] == Bumped(s, tags[i], stamp)
    decreases |tags|
  {
    if i == 0 {
      LogTagsHead(s, tags);
    } else {
      var s1 := LogTag(s, tags[0]);
      assert LogTags(s, tags) == LogTags(s1, tags[1..]);
      DistinctIdsTail(tags, i);
      LogTagsAt(s1, tags[1..], i - 1, stamp);
      BumpedOther(s, tags[0], tags[i], stamp);
    }
  }

  /** The tail of distinct tags is distinct, and its `i - 1`-th tag is the
      `i`-th tag, whose id differs from the head's. */
  lemma DistinctIdsTail(tags: seq<Tag>, i: nat)
    requires DistinctIds(tags) && 0 < i < |tags|
    ensures DistinctIds(tags[1..]) && tags[1..][i - 1] == tags[i] && tags[i].id != tags[0].id
  {
    assert forall k :: 0 <= k < |tags| - 1 ==> tags[1..][k] == tags[k + 1];
  }

  /** Counting a view under `tag` does not change how another tag is bumped. */
  lemma BumpedOther(s: Summary, tag: Tag, other: Tag, stamp: nat)
    requires other.id != tag.id
    ensures Bumped(LogTag(s, tag), other, stamp) == Bumped(s, other, stamp)
  {
    var s1 := LogTag(s, tag);
    assert other.id in s1.tags <==> other.id in s.tags;
    assert PointsOf(s1, other.id) == PointsOf(s, other.id);
  }

  /** `LogTagsAt` for the first tag: later tags do not touch it. */
  lemma LogTagsHead(s: Summary, tags: seq<Tag>)
    requires DistinctIds(tags) && tags != []
    ensures LogTags(s, tags).tags[tags[0].id] == Bumped(s, tags[0], s.nextStamp)
  {
    var s1 := LogTag(s, tags[0]);
    assert tags[0].id !in IdSet(tags[1..]);
    LogTagsOther(s1, tags[1..], tags[0].id);
  }

  /** Tags a page view does not mention are left as they were. */
  lemma {:induction false} LogTagsOther(s: Summary, tags: seq<Tag>, t: string)
    requires t in s.tags && t !in IdSet(tags)
    ensures LogTags(s, tags).tags[t] == s.tags[t]
    decreases |tags|
  {
    if tags != [] {
      IdSetCons(tags);
      LogTagsOther(LogTag(s, tags[0]), tags[1..], t);
    }
  }

  /** The summary before a write on `day`: the stored one, or an empty one. */
  function Load(stored: Option<Summary>, day: int): Summary
  {
    match stored
    case Some(s) => s
    case None => Empty(day)
  }

  /** Records a page view on `day`: ages and prunes the stored summary
      against `day`, then counts one view under each tag of the page. */
  function LogSummary(stored: Option<Summary>, page: Page, day: int): (r: Summary)
    ensures var pruned := Prune(Load(stored, day), day);
      && r.periodEnd == pruned.periodEnd >= day
      && r.nextStamp == pruned.nextStamp + |ExtractTags(page)|
      && r.tags.Keys == pruned.tags.Keys + IdSet(ExtractTags(page))
  {
    LogTags(Prune(Load(stored, day), day), ExtractTags(page))
  }

  /** Each tag of the page gains exactly one view, the `i`-th of them the
      `i`-th new stamp; every other tag keeps its pruned record. */
  lemma LogSummaryEffect(stored: Option<Summary>, page: Page, day: int)
    ensures var pruned := Prune(Load(stored, day), day);
      var r := LogSummary(stored, page, day);
      var tags := ExtractTags(page);
      && (forall i :: 0 <= i < |tags| ==>
            && r.tags[tags[i].id].points == LogToday(PointsOf(pruned, tags[i].id))
            && Total(r.tags[tags[i].id].points) == Total(PointsOf(pruned, tags[i].id)) + 1
            && r.tags[tags[i].id].stamp == pruned.nextStamp + i
            && r.tags[tags[i].id].name == (if tags[i].id in pruned.tags then pruned.tags[tags[i].id].name else tags[i].name))
      && (forall t :: t in pruned.tags && t !in IdSet(tags) ==> r.tags[t] == pruned.tags[t])
  {
    var pruned := Prune(Load(stored, day), day);
    var tags := ExtractTags(page);
    forall i | 0 <= i < |tags|
      ensures LogTags(pruned, tags).tags[tags[i].id] == Bumped(pruned, tags[i], pruned.nextStamp + i)
    {
      LogTagsAt(pruned, tags, i, pruned.nextStamp + i);
    }
    forall t | t in pruned.tags && t !in IdSet(tags)
      ensures LogTags(pruned, tags).tags[t] == pruned.tags[t]
    {
      LogTagsOther(pruned, tags, t);
    }
  }

  /** Counting a view under one tag keeps the summary invariant. */
  lemma LogTagWellFormed(s: Summary, tag: Tag)
    requires WellFormed(s)
    ensures WellFormed(LogTag(s, tag))
  {
    assert ValidPoints(PointsOf(s, tag.id));
  }

  /** Counting a view under each of several tags keeps the summary invariant. */
  lemma {:induction false} LogTagsWellFormed(s: Summary, tags: seq<Tag>)
    requires WellFormed(s)
    ensures WellFormed(LogTags(s, tags))
    decreases |tags|
  {
    if tags != [] {
      LogTagWellFormed(s, tags[0]);
      LogTagsWellFormed(LogTag(s, tags[0]), tags[1..]);
    }
  }

  /** Logging keeps the summary invariant, starting from an absent or a
      well-formed document. */
  lemma LogSummaryWellFormed(stored: Option<Summary>, page: Page, day: int)
    requires stored.Some? ==> WellFormed(stored.value)
    ensures WellFormed(LogSummary(stored, page, day))
  {
    PruneWellFormed(Load(stored, day), day);
    LogTagsWellFormed(Prune(Load(stored, day), day), ExtractTags(page));
  }

  // ---------------------------------------------------------------------------
  // Summaries whose points all stay inside the retention window

  /** No point of `ps` is older than `k` days. */
  predicate PointsAtMost(ps: seq<Point>, k: nat)
  {
    forall i :: 0 <= i < |ps| ==> ps[i].age <= k
  }

  /** No data point of `s` is older than `k` days. */
  ghost predicate AgesAtMost(s: Summary, k: nat)
  {
    forall t :: t in s.tags ==> PointsAtMost(s.tags[t].points, k)
  }

  /** The views recorded for `t`, 0 if it is not in the summary. */
  function TotalOf(s: Summary, t: string): nat
  {
    Total(PointsOf(s, t))
  }

  /** Aging points that stay inside the window drops none of them. */
  lemma {:induction false} AgePointsAllKept(ps: seq<Point>, delta: nat, k: nat)
    requires PointsAtMost(ps, k) && k + delta < RetentionDays
    ensures |AgePoints(ps, delta)| == |ps|
    ensures Total(AgePoints(ps, delta)) == Total(ps)
    ensures PointsAtMost(AgePoints(ps, delta), k + delta)
  {
    if ps != [] {
      AgePointsAllKept(ps[1..], delta, k);
      var r := AgePoints(ps, delta);
      assert r[1..] == AgePoints(ps[1..], delta);
    }
  }

  /** Pruning a summary whose points all stay inside the window keeps every
      tag with its views and stamp, only older. */
  lemma PruneWithinWindow(s: Summary, day: int, k: nat)
    requires WellFormed(s) && AgesAtMost(s, k) && k + Delta(s, day) < RetentionDays
    ensures Prune(s, day).tags.Keys == s.tags.Keys
    ensures forall t :: t in s.tags ==> TotalOf(Prune(s, day), t) == TotalOf(s, t) && Prune(s, day).tags[t].stamp == s.tags[t].stamp
    ensures AgesAtMost(Prune(s, day), k + Delta(s, day))
  {
    var r := Prune(s, day);
    forall t | t in s.tags
      ensures t in r.tags && TotalOf(r, t) == TotalOf(s, t)
      ensures PointsAtMost(r.tags[t].points, k + Delta(s, day))
    {
      AgePointsAllKept(s.tags[t].points, Delta(s, day), k);
    }
  }

  /** Counting a view today adds no older point. */
  lemma LogTodayAtMost(ps: seq<Point>, k: nat)
    requires PointsAtMost(ps, k)
    ensures PointsAtMost(LogToday(ps), k)
  {
  }

  /** Counting views today adds no older point. */
  lemma {:induction false} LogTagsAtMost(s: Summary, tags: seq<Tag>, k: nat)
    requires AgesAtMost(s, k)
    ensures AgesAtMost(LogTags(s, tags), k)
    decreases |tags|
  {
    if tags != [] {
      LogTodayAtMost(PointsOf(s, tags[0].id), k);
      LogTagsAtMost(LogTag(s, tags[0]), tags[1..], k);
    }
  }
}
