/** Views derived from the pruned summary: the popularity ranking of all tags,
    and the per-series view counts with the most viewed series. */
module Ranking {
  import opened Options
  import opened Text
  import opened Pages
  import opened Summaries

  /** `a` ranks above `b`: it has more views, or as many and was logged later. */
  predicate Outranks(a: TagRecord, b: TagRecord)
  {
    || Total(a.points) > Total(b.points)
    || (Total(a.points) == Total(b.points) && a.stamp > b.stamp)
  }

  /** Every entry of `r` is a tag of `tags`. */
  ghost predicate Within(tags: map<string, TagRecord>, r: seq<string>)
  {
    forall i :: 0 <= i < |r| ==> r[i] in tags
  }

  /** No entry of `r` is ranked below a later entry. */
  ghost predicate Sorted(tags: map<string, TagRecord>, r: seq<string>)
    requires Within(tags, r)
  {
    forall i, j :: 0 <= i < j < |r| ==> !Outranks(tags[r[j]], tags[r[i]])
  }

  /** Every tag occurs in `r` at most once. */
  ghost predicate NoRepeats(r: seq<string>)
  {
    forall i, j :: 0 <= i < j < |r| ==> r[i] != r[j]
  }

  /** `r` lists every tag of `tags` exactly once, most popular first. */
  ghost predicate IsRanking(tags: map<string, TagRecord>, r: seq<string>)
  {
    && Within(tags, r)
    && (forall t :: t in tags ==> t in r)
    && NoRepeats(r)
    && Sorted(tags, r)
  }

  /** No two tags share a stamp, so that ties in views are always broken. */
  ghost predicate DistinctStamps(tags: map<string, TagRecord>)
  {
    forall t, u :: t in tags && u in tags && t != u ==> tags[t].stamp != tags[u].stamp
  }

  /** Puts `t` into the sorted `r` in front of the first tag it outranks. */
  function Insert(tags: map<string, TagRecord>, r: seq<string>, t: string): (r': seq<string>)
    requires t in tags && Within(tags, r) && Sorted(tags, r)
    ensures Within(tags, r') && Sorted(tags, r')
    ensures |r'| == |r| + 1
    ensures forall x :: x in r' <==> x in r || x == t
    ensures t !in r && NoRepeats(r) ==> NoRepeats(r')
  {
    if r == [] || Outranks(tags[t], tags[r[0]]) then
      InsertFront(tags, r, t);
      [t] + r
    else
      SortedTail(tags, r);
      var rest := Insert(tags, r[1..], t);
      InsertBehind(tags, r, t, rest);
      [r[0]] + rest
  }

  /** A sorted ranking without its head is still sorted. */
  lemma SortedTail(tags: map<string, TagRecord>, r: seq<string>)
    requires Within(tags, r) && Sorted(tags, r) && r != []
    ensures Within(tags, r[1..]) && Sorted(tags, r[1..])
    ensures NoRepeats(r) ==> NoRepeats(r[1..]) && r[0] !in r[1..]
  {
    assert forall i :: 0 <= i < |r| - 1 ==> r[1..][i] == r[i + 1];
  }

  /** `t`, outranking the head of `r`, may go in front of it. */
  lemma InsertFront(tags: map<string, TagRecord>, r: seq<string>, t: string)
    requires t in tags && Within(tags, r) && Sorted(tags, r)
    requires r == [] || Outranks(tags[t], tags[r[0]])
    ensures Within(tags, [t] + r) && Sorted(tags, [t] + r)
    ensures t !in r && NoRepeats(r) ==> NoRepeats([t] + r)
  {
    var r' := [t] + r;
    assert forall i :: 1 <= i < |r'| ==> r'[i] == r[i - 1];
    forall j | 1 <= j < |r'|
      ensures !Outranks(tags[r'[j]], tags[t])
    {
      OutranksChain(tags[r'[j]], tags[r[0]], tags[t]);
    }
  }

  /** Ranking is transitive across a strict step: what does not outrank `b`
      does not outrank anything that outranks `b`. */
  lemma OutranksChain(a: TagRecord, b: TagRecord, c: TagRecord)
    requires !Outranks(a, b) && Outranks(c, b)
    ensures !Outranks(a, c)
  {
  }

  /** The head of `r`, which `t` does not outrank, stays in front of the rest
      with `t` inserted. */
  lemma InsertBehind(tags: map<string, TagRecord>, r: seq<string>, t: string, rest: seq<string>)
    requires t in tags && Within(tags, r) && Sorted(tags, r) && r != []
    requires !Outranks(tags[t], tags[r[0]])
    requires Within(tags, rest) && Sorted(tags, rest) && |rest| == |r|
    requires forall x :: x in rest <==> x in r[1..] || x == t
    requires t !in r[1..] && NoRepeats(r[1..]) ==> NoRepeats(rest)
    ensures Within(tags, [r[0]] + rest) && Sorted(tags, [r[0]] + rest)
    ensures forall x :: x in [r[0]] + rest <==> x in r || x == t
    ensures t !in r && NoRepeats(r) ==> NoRepeats([r[0]] + rest)
  {
    var r' := [r[0]] + rest;
    assert forall i :: 1 <= i < |r'| ==> r'[i] == rest[i - 1];
    assert forall x :: x in r <==> x == r[0] || x in r[1..];
    forall j | 1 <= j < |r'|
      ensures !Outranks(tags[r'[j]], tags[r[0]])
    {
      assert r'[j] in rest;
      if r'[j] != t {
        var k :| 1 <= k < |r| && r[k] == r'[j];
      }
    }
    if t !in r && NoRepeats(r) {
      SortedTail(tags, r);
    }
  }

  /** Lists the tags of `tags`, most popular first. */
  method Rank(tags: map<string, TagRecord>) returns (r: seq<string>)
    ensures IsRanking(tags, r)
  {
    var rest := tags.Keys;
    r := [];
    while rest != {}
      invariant rest <= tags.Keys
      invariant Within(tags, r) && Sorted(tags, r) && NoRepeats(r)
      invariant forall x :: x in r ==> x !in rest
      invariant forall t :: t in tags ==> t in r || t in rest
      decreases |rest|
    {
      var t :| t in rest;
      r := Insert(tags, r, t);
      rest := rest - {t};
    }
  }

  /** `getPopular`: every tag of the summary pruned against `today`, most
      viewed first, ties broken in favour of the tag logged last. */
  method Popular(s: Summary, today: int) returns (r: seq<string>)
    ensures IsRanking(Prune(s, today).tags, r)
  {
    r := Rank(Prune(s, today).tags);
  }

  /** With distinct stamps the ranking is unique: it is fully determined by
      view counts and the last-logged order. */
  lemma {:induction false} RankingUnique(tags: map<string, TagRecord>, r1: seq<string>, r2: seq<string>)
    requires DistinctStamps(tags) && IsRanking(tags, r1) && IsRanking(tags, r2)
    ensures r1 == r2
    decreases |r1|
  {
    if r1 == [] {
      assert r2 == [];
    } else {
      HeadsAgree(tags, r1, r2);
      var rest := tags - {r1[0]};
      RankingTail(tags, r1, rest);
      RankingTail(tags, r2, rest);
      RankingUnique(rest, r1[1..], r2[1..]);
      assert r1 == [r1[0]] + r1[1..] && r2 == [r2[0]] + r2[1..];
    }
  }

  /** Two rankings of tags with distinct stamps start with the same tag. */
  lemma HeadsAgree(tags: map<string, TagRecord>, r1: seq<string>, r2: seq<string>)
    requires DistinctStamps(tags) && IsRanking(tags, r1) && IsRanking(tags, r2) && r1 != []
    ensures r2 != [] && r1[0] == r2[0]
  {
    assert r1[0] in tags;
    var i :| 0 <= i < |r2| && r2[i] == r1[0];
    assert r2[0] in tags;
    var j :| 0 <= j < |r1| && r1[j] == r2[0];
    assert !Outranks(tags[r1[j]], tags[r1[0]]) || j == 0;
    assert !Outranks(tags[r2[i]], tags[r2[0]]) || i == 0;
  }

  /** Without its head, a ranking ranks the remaining tags. */
  lemma RankingTail(tags: map<string, TagRecord>, r: seq<string>, rest: map<string, TagRecord>)
    requires IsRanking(tags, r) && r != []
    requires rest == tags - {r[0]}
    ensures IsRanking(rest, r[1..])
    ensures DistinctStamps(tags) ==> DistinctStamps(rest)
  {
    var tl := r[1..];
    assert forall i :: 0 <= i < |tl| ==> tl[i] == r[i + 1] && r[i + 1] != r[0];
    forall t | t in rest
      ensures t in tl
    {
      var k :| 0 <= k < |r| && r[k] == t;
      assert k != 0;
      assert tl[k - 1] == t;
    }
  }

  /** `seriesSummary`: the view count of every series tag of the summary
      pruned against `today`. */
  function SeriesSummary(s: Summary, today: int): (r: map<string, nat>)
    ensures forall t :: t in r <==> t in Prune(s, today).tags && IsSeriesTag(t)
    ensures forall t :: t in r ==> r[t] == Total(Prune(s, today).tags[t].points)
  {
    var tags := Prune(s, today).tags;
    map t | t in tags && IsSeriesTag(t) :: Total(tags[t].points)
  }

  /** `t` is a series tag no other series tag outranks. */
  ghost predicate MostViewed(s: Summary, today: int, t: string)
  {
    var tags := Prune(s, today).tags;
    && t in tags && IsSeriesTag(t)
    && forall u :: u in tags && IsSeriesTag(u) ==> !Outranks(tags[u], tags[t])
  }

  /** In a well-formed summary stamps are distinct, so there is at most one
      most viewed series: the ranking order breaks every tie. */
  lemma MostViewedUnique(s: Summary, today: int, t: string, u: string)
    requires Summaries.WellFormed(s) && MostViewed(s, today, t) && MostViewed(s, today, u)
    ensures t == u
  {
  }

  /** A tag of `keys` that no other tag of `keys` outranks; none when `keys`
      is empty. */
  method Top(tags: map<string, TagRecord>, keys: set<string>) returns (r: Option<string>)
    requires keys <= tags.Keys
    ensures r.None? <==> keys == {}
    ensures r.Some? ==> r.value in keys && forall u :: u in keys ==> !Outranks(tags[u], tags[r.value])
  {
    var rest := keys;
    r := None;
    while rest != {}
      invariant rest <= keys
      invariant r.None? ==> rest == keys
      invariant r.Some? ==> r.value in keys
      invariant r.Some? ==> forall u :: u in keys && u !in rest ==> !Outranks(tags[u], tags[r.value])
      decreases |rest|
    {
      var t :| t in rest;
      if r.None? || Outranks(tags[t], tags[r.value]) {
        r := Some(t);
      }
      rest := rest - {t};
    }
  }

  /** `mostViewedSeries`: the series tag with the most views, the one logged
      last among equals; none when the summary holds no series tag. */
  method MostViewedSeries(s: Summary, today: int) returns (r: Option<string>)
    ensures r.None? <==> |SeriesSummary(s, today)| == 0
    ensures r.Some? ==> MostViewed(s, today, r.value)
    ensures r.Some? ==> var counts := SeriesSummary(s, today);
      r.value in counts && forall u :: u in counts ==> counts[u] <= counts[r.value]
  {
    var counts := SeriesSummary(s, today);
    r := Top(Prune(s, today).tags, counts.Keys);
  }

  /** The most viewed series is the first series tag of the popularity
      ranking. */
  lemma FirstSeriesIsMostViewed(s: Summary, today: int, r: seq<string>, i: nat)
    requires IsRanking(Prune(s, today).tags, r)
    requires i < |r| && IsSeriesTag(r[i])
    requires forall j :: 0 <= j < i ==> !IsSeriesTag(r[j])
    ensures MostViewed(s, today, r[i])
  {
    var tags := Prune(s, today).tags;
    forall u | u in tags && IsSeriesTag(u)
      ensures !Outranks(tags[u], tags[r[i]])
    {
      var k :| 0 <= k < |r| && r[k] == u;
      assert k >= i;
    }
  }

  /** A series tag with strictly more views than every other series tag is
      the one and only most viewed series. */
  lemma StrictMaxIsMostViewed(s: Summary, today: int, t: string)
    requires var counts := SeriesSummary(s, today);
      t in counts && forall u :: u in counts && u != t ==> counts[u] < counts[t]
    ensures forall u :: MostViewed(s, today, u) <==> u == t
  {
    var tags := Prune(s, today).tags;
    var counts := SeriesSummary(s, today);
    forall u
      ensures MostViewed(s, today, u) <==> u == t
    {
      if u == t {
        forall v | v in tags && IsSeriesTag(v)
          ensures !Outranks(tags[v], tags[t])
        {
          assert v in counts;
        }
      }
    }
  }

  /** Each view of a page under a series tag adds exactly one to that
      series' count as read on the day of the view: the counts are view counts. */
  lemma SeriesCountsViews(s: Summary, page: Page, day: int, k: nat)
    requires WellFormed(s)
    requires k < |ExtractTags(page)| && IsSeriesTag(ExtractTags(page)[k].id)
    ensures var t := ExtractTags(page)[k].id;
      var before := SeriesSummary(s, day);
      var after := SeriesSummary(LogSummary(Some(s), page, day), day);
      t in after && after[t] == (if t in before then before[t] else 0) + 1
  {
    var t := ExtractTags(page)[k].id;
    var pruned := Prune(s, day);
    var r := LogSummary(Some(s), page, day);
    LogSummaryWellFormed(Some(s), page, day);
    PruneIdle(r, day);
    LogSummaryEffect(Some(s), page, day);
    assert Total(r.tags[t].points) == Total(PointsOf(pruned, t)) + 1;
    var before := SeriesSummary(s, day);
    assert t in before <==> t in pruned.tags;
    assert t in before ==> before[t] == Total(PointsOf(pruned, t));
  }
}
