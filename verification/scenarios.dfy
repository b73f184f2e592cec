/** The documented behaviour of the history engine, one lemma per scenario.
    Each scenario is proved for arbitrary pages of the right shape and then
    instantiated with the fixture pages, for every `today`. */
module Scenarios {
  import opened Options
  import opened Text
  import opened Pages
  import opened VisitLog
  import opened Summaries
  import opened Ranking
  import opened Engine

  // ---------------------------------------------------------------------------
  // Fixtures

  /** The article page with every kind of tag, two keywords and two authors.
      Its two-item lists are written as `first + "," + second`, the shape
      `FirstOfPair` reads the first item from. */
  function ArticlePage(): Page
  {
    Page(
      "/p/3jbcb",
      "foobar", "Foobar Section",
      "foo/bar" + "," + "baz/poo", "Foobar Tag" + "," + "Bazpoo Tag",
      "foo/series/bar", "Foobar Series",
      "profile/finbarrsaunders" + "," + "profile/rogermellie", "Finbarr Saunders" + "," + " Roger Mellie")
  }

  /** A page carrying only a section. */
  function SectionPage(pageId: string, section: string, name: string): Page
  {
    Page(pageId, section, name, "", "", "", "", "", "")
  }

  function OftenVisited(): Page
  {
    SectionPage("123", "often/visited", "Often Visited Section")
  }

  function LessVisited(): Page
  {
    SectionPage("456", "less/visited", "Less Visited Section")
  }

  // ---------------------------------------------------------------------------
  // Tags of the fixtures

  /** The first item of a two-item list. */
  lemma FirstOfPair(a: string, b: string)
    requires ',' !in a
    ensures FirstOfList(a + "," + b) == a
  {
    BeforeJoin(a, ',', b);
  }

  /** A page whose four fields give four distinct non-empty ids is counted
      under all four, in section, keyword, series, author order. */
  lemma FourTags(p: Page, s: string, sn: string, k: string, kn: string, r: string, rn: string, a: string, an: string)
    requires ',' !in r && ',' !in rn
    requires p.section == s && p.sectionName == sn && p.seriesId == r && p.series == rn
    requires FirstOfList(p.keywordIds) == k && FirstOfList(p.keywords) == kn
    requires FirstOfList(p.authorIds) == a && FirstOfList(p.author) == an
    requires s != "" && k != "" && r != "" && a != ""
    requires s != k && s != r && s != a && k != r && k != a && r != a
    ensures ExtractTags(p) == [Tag(s, sn), Tag(k, kn), Tag(r, rn), Tag(a, an)]
  {
    BeforeNoSep(r, ',');
    BeforeNoSep(rn, ',');
    var cs := Candidates(p);
    assert cs == [Tag(s, sn), Tag(k, kn), Tag(r, rn), Tag(a, an)];
    KeepFirstDistinct(cs);
  }

  /** A page whose keyword and author fields are two-item lists is counted
      under its section, first keyword, series and first author. */
  lemma ListPageTags(p: Page, s: string, sn: string, k: string, k2: string, kn: string, kn2: string,
                     r: string, rn: string, a: string, a2: string, an: string, an2: string)
    requires p.section == s && p.sectionName == sn && p.seriesId == r && p.series == rn
    requires p.keywordIds == k + "," + k2 && p.keywords == kn + "," + kn2
    requires p.authorIds == a + "," + a2 && p.author == an + "," + an2
    requires ',' !in r && ',' !in rn
    requires ',' !in k && ',' !in kn && ',' !in a && ',' !in an
    requires s != "" && k != "" && r != "" && a != ""
    requires s != k && s != r && s != a && k != r && k != a && r != a
    ensures ExtractTags(p) == [Tag(s, sn), Tag(k, kn), Tag(r, rn), Tag(a, an)]
  {
    FirstOfPair(k, k2);
    FirstOfPair(kn, kn2);
    FirstOfPair(a, a2);
    FirstOfPair(an, an2);
    FourTags(p, s, sn, k, kn, r, rn, a, an);
  }

  /** The article page yields its section, first keyword, series and first
      author; the second keyword and author are ignored. */
  lemma ArticleTags()
    ensures ExtractTags(ArticlePage()) == [
      Tag("foobar", "Foobar Section"),
      Tag("foo/bar", "Foobar Tag"),
      Tag("foo/series/bar", "Foobar Series"),
      Tag("profile/finbarrsaunders", "Finbarr Saunders")]
  {
    ListPageTags(ArticlePage(), "foobar", "Foobar Section", "foo/bar", "baz/poo", "Foobar Tag", "Bazpoo Tag",
      "foo/series/bar", "Foobar Series", "profile/finbarrsaunders", "profile/rogermellie",
      "Finbarr Saunders", " Roger Mellie");
  }

  /** A page is counted under its section alone. */
  predicate SectionOnly(p: Page)
  {
    ExtractTags(p) == [Tag(p.section, p.sectionName)]
  }

  /** A section-only page is counted under its section. */
  lemma SectionTags(pageId: string, section: string, name: string)
    requires section != ""
    ensures SectionOnly(SectionPage(pageId, section, name))
  {
    var p := SectionPage(pageId, section, name);
    var blank := Tag("", "");
    var cs := Candidates(p);
    assert cs == [Tag(section, name), blank, blank, blank];
    WithoutAbsent(cs[1..], section);
    assert KeepFirst([blank]) == [];
    assert KeepFirst([blank, blank]) == [];
    assert KeepFirst([blank, blank, blank]) == [];
  }

  // ---------------------------------------------------------------------------
  // Recent-visit log

  /** Starting from any well-formed log the page is not in (the `contains`
      fixture, or the empty log after `reset`), a first log puts the page in
      front with count 1; a second log keeps it in front with count 2 and
      leaves the rest of the log as the first log left it. */
  lemma LogSetsFrontAndCount(h: seq<Visit>, page: Page)
    requires VisitLog.WellFormed(h) && !Logged(h, page.pageId)
    ensures LogHistory(h, page)[0] == Visit(page.pageId, 1)
    ensures LogHistory(LogHistory(h, page), page)[0] == Visit(page.pageId, 2)
    ensures LogHistory(LogHistory(h, page), page)[1..] == LogHistory(h, page)[1..]
  {
    var h1 := LogHistory(h, page);
    LogHistoryWellFormed(h, page);
    assert CountOf(h1, page.pageId) == 1;
    assert !Logged(h1[1..], page.pageId) by {
      forall i | 0 <= i < |h1[1..]|
        ensures h1[1..][i].pageId != page.pageId
      {
        assert h1[1..][i] == h1[i + 1];
      }
    }
    RemoveAbsent(h1[1..], page.pageId);
    assert Remove(h1, page.pageId) == h1[1..];
  }

  /** Starting from any well-formed log the page is not in, the page is not
      a revisit after one log and is one after the second. */
  lemma RevisitAfterSecondLog(h: seq<Visit>, page: Page)
    requires VisitLog.WellFormed(h) && !Logged(h, page.pageId)
    ensures !IsRevisit(LogHistory(h, page), page.pageId)
    ensures IsRevisit(LogHistory(LogHistory(h, page), page), page.pageId)
  {
    RevisitAfterLog(h, page);
    LogHistoryWellFormed(h, page);
    assert LogHistory(h, page)[0].pageId == page.pageId;
    RevisitAfterLog(LogHistory(h, page), page);
  }

  /** Views of more distinct pages than the log holds leave the latest
      `Capacity` of them, newest first, with one view each. */
  lemma KeepsLatest(pages: seq<Page>)
    requires |pages| > Capacity && DistinctPages(pages)
    ensures |LogAll([], pages)| == Capacity
    ensures forall i :: 0 <= i < Capacity ==> LogAll([], pages)[i] == Visit(pages[|pages| - 1 - i].pageId, 1)
  {
    LogAllKeepsMostRecent(pages);
    var fv := FirstVisits(pages);
    assert LogAll([], pages) == fv[..Capacity];
  }

  /** Fifty-one views of distinct pages leave the latest fifty (`Capacity`),
      newest first. */
  lemma KeepsFiftyLatest(pages: seq<Page>)
    requires |pages| == Capacity + 1 && DistinctPages(pages)
    ensures |LogAll([], pages)| == Capacity
    ensures forall i :: 0 <= i < Capacity ==> LogAll([], pages)[i] == Visit(pages[Capacity - i].pageId, 1)
  {
    KeepsLatest(pages);
  }

  // ---------------------------------------------------------------------------
  // Interest summary

  /** The first log into an absent summary creates one record per tag of the
      page, with the tag's display name, one view today and its position as
      stamp. */
  lemma FirstLog(p: Page, today: int)
    ensures var s := LogSummary(None, p, today);
      var tags := ExtractTags(p);
      && s.tags.Keys == IdSet(tags)
      && forall i :: 0 <= i < |tags| ==> s.tags[tags[i].id] == TagRecord(tags[i].name, [Point(0, 1)], i)
  {
    AfterReset(p, today);
    LogSummaryEffect(None, p, today);
    assert LogToday([]) == [Point(0, 1)];
  }

  /** The ids of four tags. */
  lemma IdSetFour(a: Tag, b: Tag, c: Tag, d: Tag)
    ensures IdSet([a, b, c, d]) == {a.id, b.id, c.id, d.id}
  {
    var ts := [a, b, c, d];
    assert ts[0] == a && ts[1] == b && ts[2] == c && ts[3] == d;
  }

  /** `FirstLog` for a page counted under four tags. */
  lemma FourRecords(p: Page, today: int, a: Tag, b: Tag, c: Tag, d: Tag)
    requires ExtractTags(p) == [a, b, c, d]
    ensures LogSummary(None, p, today).tags.Keys == {a.id, b.id, c.id, d.id}
    ensures LogSummary(None, p, today).tags[a.id] == TagRecord(a.name, [Point(0, 1)], 0)
    ensures LogSummary(None, p, today).tags[b.id] == TagRecord(b.name, [Point(0, 1)], 1)
    ensures LogSummary(None, p, today).tags[c.id] == TagRecord(c.name, [Point(0, 1)], 2)
    ensures LogSummary(None, p, today).tags[d.id] == TagRecord(d.name, [Point(0, 1)], 3)
  {
    var tags := ExtractTags(p);
    FirstLog(p, today);
    assert tags[0] == a && tags[1] == b && tags[2] == c && tags[3] == d;
    IdSetFour(a, b, c, d);
  }

  /** After `reset`, one log of the article page creates exactly the section,
      first keyword, series and first author tags, each with its display name,
      one view today and its stamp; the second keyword and author get no tag. */
  lemma SummaryTakesFirstValues(today: int)
    ensures LogSummary(Reset().summary, ArticlePage(), today).tags.Keys
         == {"foobar", "foo/bar", "foo/series/bar", "profile/finbarrsaunders"}
    ensures LogSummary(Reset().summary, ArticlePage(), today).tags["foobar"]
         == TagRecord("Foobar Section", [Point(0, 1)], 0)
    ensures LogSummary(Reset().summary, ArticlePage(), today).tags["foo/bar"]
         == TagRecord("Foobar Tag", [Point(0, 1)], 1)
    ensures LogSummary(Reset().summary, ArticlePage(), today).tags["foo/series/bar"]
         == TagRecord("Foobar Series", [Point(0, 1)], 2)
    ensures LogSummary(Reset().summary, ArticlePage(), today).tags["profile/finbarrsaunders"]
         == TagRecord("Finbarr Saunders", [Point(0, 1)], 3)
  {
    ArticleTags();
    FourRecords(ArticlePage(), today,
      Tag("foobar", "Foobar Section"), Tag("foo/bar", "Foobar Tag"),
      Tag("foo/series/bar", "Foobar Series"), Tag("profile/finbarrsaunders", "Finbarr Saunders"));
  }

  /** Logging a page again on the same day adds one view to today's point of
      each of its tags, and an existing tag keeps its display name. */
  lemma SameDayAgain(s: Summary, p: Page, today: int, i: nat)
    requires Summaries.WellFormed(s) && today <= s.periodEnd
    requires i < |ExtractTags(p)| && ExtractTags(p)[i].id in s.tags
    ensures var t := ExtractTags(p)[i].id;
      var r := LogSummary(Some(s), p, today);
      && r.tags[t].name == s.tags[t].name
      && r.tags[t].points == LogToday(s.tags[t].points)
  {
    PruneIdle(s, today);
    LogSummaryEffect(Some(s), p, today);
  }

  /** One more view today on a single point of today. */
  lemma LogTodaySingle(c: nat)
    ensures LogToday([Point(0, c)]) == [Point(0, c + 1)]
  {
    assert FindToday([Point(0, c)]) == Some(0);
  }

  /** Three logs of a page on one day after `reset` leave its first tag with
      a single point of three views and its display name. */
  lemma ThreeLogsSameDay(p: Page, today: int)
    requires ExtractTags(p) != []
    ensures var t := ExtractTags(p)[0];
      var s1 := LogSummary(None, p, today);
      var s3 := LogSummary(Some(LogSummary(Some(s1), p, today)), p, today);
      && t.id in s3.tags
      && s3.tags[t.id].name == t.name
      && s3.tags[t.id].points == [Point(0, 3)]
  {
    var t := ExtractTags(p)[0];
    var s1 := LogSummary(None, p, today);
    FirstLog(p, today);
    assert s1.tags[t.id] == TagRecord(t.name, [Point(0, 1)], 0);
    LogSummaryWellFormed(None, p, today);
    SameDayAgain(s1, p, today, 0);
    var s2 := LogSummary(Some(s1), p, today);
    LogTodaySingle(1);
    LogSummaryWellFormed(Some(s1), p, today);
    SameDayAgain(s2, p, today, 0);
    LogTodaySingle(2);
  }

  /** Three logs of the article page on one day leave the section with a
      single point of three views and its display name. */
  lemma SameDayIncrements(today: int)
    ensures var s1 := LogSummary(Reset().summary, ArticlePage(), today);
      var s3 := LogSummary(Some(LogSummary(Some(s1), ArticlePage(), today)), ArticlePage(), today);
      && "foobar" in s3.tags
      && s3.tags["foobar"].name == "Foobar Section"
      && s3.tags["foobar"].points == [Point(0, 3)]
  {
    var p := ArticlePage();
    ArticleTags();
    assert ExtractTags(p)[0] == Tag("foobar", "Foobar Section");
    ThreeLogsSameDay(p, today);
  }

  /** The one-point summary of the pruning scenarios, last written `days`
      days before `today`. */
  function FooSummary(today: int, days: int, stamp: nat, nextStamp: nat): Summary
  {
    Summary(today - days, map["foo" := TagRecord("Foo", [Point(0, 1)], stamp)], nextStamp)
  }

  /** Pruning rebases ages against today: a point of today stays at age 0, a
      point logged 5 days ago becomes 5 days old and is kept. */
  lemma PruneAgesPoints(today: int, stamp: nat, nextStamp: nat)
    ensures Prune(FooSummary(today, 0, stamp, nextStamp), today).tags["foo"].points == [Point(0, 1)]
    ensures Prune(FooSummary(today, 5, stamp, nextStamp), today).tags["foo"].points == [Point(5, 1)]
  {
    assert AgePoints([Point(0, 1)], 0) == [Point(0, 1)];
    assert AgePoints([Point(0, 1)], 5) == [Point(5, 1)];
  }

  /** A point logged 500 days ago is dropped, and its tag with it. */
  lemma PruneDropsObsolete(today: int, stamp: nat, nextStamp: nat)
    ensures "foo" !in Prune(FooSummary(today, 500, stamp, nextStamp), today).tags
  {
    assert AgePoints([Point(0, 1)], 500) == [];
  }

  // ---------------------------------------------------------------------------
  // Ranking

  /** One view counted under the single tag `tag` on `day`. */
  function Step(s: Summary, tag: Tag, day: int): Summary
  {
    LogTag(Prune(s, day), tag)
  }

  /** A view of a section-only page is a single tag update. */
  lemma SingleTagLog(s: Summary, p: Page, day: int)
    requires SectionOnly(p)
    ensures LogSummary(Some(s), p, day) == Step(s, SectionTag(p), day)
  {
    var tag := SectionTag(p);
    var pruned := Prune(s, day);
    assert [tag][1..] == [];
    assert LogTags(pruned, [tag]) == LogTags(LogTag(pruned, tag), []);
  }

  /** The tag of a section-only page. */
  function SectionTag(p: Page): Tag
  {
    Tag(p.section, p.sectionName)
  }

  /** A view on `day`, not before the summary's `periodEnd` and with every
      point staying inside the window, keeps the summary well-formed and
      within the window and adds its tag. */
  lemma StepShape(s: Summary, tag: Tag, day: int, k: nat, k': nat)
    requires Summaries.WellFormed(s) && AgesAtMost(s, k)
    requires s.periodEnd <= day && k' == k + (day - s.periodEnd) < RetentionDays
    ensures var r := Step(s, tag, day);
      && Summaries.WellFormed(r) && AgesAtMost(r, k') && r.periodEnd == day
      && r.tags.Keys == s.tags.Keys + {tag.id}
  {
    var pruned := Prune(s, day);
    PruneWithinWindow(s, day, k);
    PruneWellFormed(s, day);
    LogTagWellFormed(pruned, tag);
    LogTagsAtMost(pruned, [tag], k');
    assert LogTags(pruned, [tag]) == LogTags(LogTag(pruned, tag), []) by {
      assert [tag][1..] == [];
    }
  }

  /** The same view adds one view to its own tag and none to any other. */
  lemma StepTotal(s: Summary, tag: Tag, day: int, k: nat, t: string)
    requires Summaries.WellFormed(s) && AgesAtMost(s, k)
    requires s.periodEnd <= day && k + (day - s.periodEnd) < RetentionDays
    ensures TotalOf(Step(s, tag, day), t) == TotalOf(s, t) + (if t == tag.id then 1 else 0)
  {
    PruneWithinWindow(s, day, k);
    if t != tag.id && t !in s.tags {
      assert t !in Step(s, tag, day).tags;
    }
  }

  /** The same view stamps its tag latest. */
  lemma StepLast(s: Summary, tag: Tag, day: int)
    requires Summaries.WellFormed(s)
    ensures LoggedLast(Step(s, tag, day), tag.id)
  {
    PruneWellFormed(s, day);
  }

  /** `t` carries the latest stamp of the summary. */
  ghost predicate LoggedLast(s: Summary, t: string)
  {
    t in s.tags && forall u :: u in s.tags && u != t ==> s.tags[u].stamp < s.tags[t].stamp
  }

  /** Days that never go backwards. */
  predicate Chronological(days: seq<int>)
  {
    forall i, j :: 0 <= i < j < |days| ==> days[i] <= days[j]
  }

  /** A chronological run stays chronological without its first day. */
  lemma ChronologicalTail(days: seq<int>)
    requires Chronological(days) && days != []
    ensures Chronological(days[1..])
  {
    var later := days[1..];
    forall i, j | 0 <= i < j < |later|
      ensures later[i] <= later[j]
    {
      assert later[i] == days[i + 1] && later[j] == days[j + 1];
    }
  }

  /** How many of `tags` have id `id`. */
  function Occurrences(tags: seq<Tag>, id: string): nat
  {
    if tags == [] then 0 else (if tags[0].id == id then 1 else 0) + Occurrences(tags[1..], id)
  }

  /** Views counted one by one, the `i`-th under `tags[i]` on `days[i]`. */
  function Walk(s: Summary, tags: seq<Tag>, days: seq<int>): Summary
    requires |tags| == |days|
    decreases |tags|
  {
    if tags == [] then s else Walk(Step(s, tags[0], days[0]), tags[1..], days[1..])
  }

  /** One view, then the rest. */
  lemma WalkUnfold(s: Summary, tags: seq<Tag>, days: seq<int>)
    requires |tags| == |days| && tags != []
    ensures Walk(s, tags, days) == Walk(Step(s, tags[0], days[0]), tags[1..], days[1..])
  {
  }

  /** A run of views keeps the summary well-formed. */
  lemma {:induction false} WalkWellFormed(s: Summary, tags: seq<Tag>, days: seq<int>)
    requires Summaries.WellFormed(s) && |tags| == |days|
    ensures Summaries.WellFormed(Walk(s, tags, days))
    decreases |tags|
  {
    if tags == [] {
      assert Walk(s, tags, days) == s;
    } else {
      WalkUnfold(s, tags, days);
      PruneWellFormed(s, days[0]);
      LogTagWellFormed(Prune(s, days[0]), tags[0]);
      WalkWellFormed(Step(s, tags[0], days[0]), tags[1..], days[1..]);
    }
  }

  /** A run of views in chronological order, none before the summary's
      `periodEnd`, ends on its last day. */
  lemma {:induction false} WalkEnd(s: Summary, tags: seq<Tag>, days: seq<int>)
    requires |tags| == |days| && Chronological(days) && tags != [] && s.periodEnd <= days[0]
    ensures Walk(s, tags, days).periodEnd == days[|days| - 1]
    decreases |tags|
  {
    WalkUnfold(s, tags, days);
    var s1 := Step(s, tags[0], days[0]);
    assert s1.periodEnd == days[0];
    if |tags| == 1 {
      assert Walk(s1, tags[1..], days[1..]) == s1;
    } else {
      ChronologicalTail(days);
      WalkEnd(s1, tags[1..], days[1..]);
      assert days[1..][|days| - 2] == days[|days| - 1];
    }
  }

  /** A run of views in chronological order with no point leaving the
      retention window keeps every point within the window. */
  lemma {:induction false} WalkAges(s: Summary, tags: seq<Tag>, days: seq<int>, k: nat, k': nat)
    requires Summaries.WellFormed(s) && AgesAtMost(s, k)
    requires |tags| == |days| && Chronological(days) && k <= k' < RetentionDays
    requires days != [] ==> s.periodEnd <= days[0] && k + (days[|days| - 1] - s.periodEnd) <= k'
    ensures AgesAtMost(Walk(s, tags, days), k')
    decreases |tags|
  {
    if tags == [] {
      assert Walk(s, tags, days) == s;
      AgesAtMostMonotone(s, k, k');
    } else {
      WalkUnfold(s, tags, days);
      var day := days[0];
      var k1 := k + (day - s.periodEnd);
      assert day <= days[|days| - 1];
      StepShape(s, tags[0], day, k, k1);
      var s1 := Step(s, tags[0], day);
      var later := days[1..];
      assert s1.periodEnd == day;
      assert later != [] ==> later[|later| - 1] == days[|days| - 1] && day <= later[0];
      assert Chronological(later) by {
        ChronologicalTail(days);
      }
      WalkAges(s1, tags[1..], later, k1, k');
    }
  }

  /** In a well-formed summary a tag is present exactly when it has views. */
  lemma PresentIffViewed(s: Summary, t: string)
    requires Summaries.WellFormed(s)
    ensures t in s.tags <==> TotalOf(s, t) > 0
  {
    if t in s.tags {
      var ps := s.tags[t].points;
      assert ps[0].count >= 1;
    }
  }

  /** The same run drops no tag and adds exactly the tags viewed. */
  lemma WalkMember(s: Summary, tags: seq<Tag>, days: seq<int>, k: nat, t: string)
    requires Summaries.WellFormed(s) && AgesAtMost(s, k)
    requires |tags| == |days| && Chronological(days)
    requires days != [] ==> s.periodEnd <= days[0] && k + (days[|days| - 1] - s.periodEnd) < RetentionDays
    ensures t in Walk(s, tags, days).tags <==> t in s.tags || Occurrences(tags, t) > 0
  {
    WalkWellFormed(s, tags, days);
    WalkTotal(s, tags, days, k, t);
    PresentIffViewed(s, t);
    PresentIffViewed(Walk(s, tags, days), t);
  }

  /** A bound on the ages of the points is also any larger bound. */
  lemma AgesAtMostMonotone(s: Summary, k: nat, k': nat)
    requires AgesAtMost(s, k) && k <= k'
    ensures AgesAtMost(s, k')
  {
    forall t | t in s.tags
      ensures PointsAtMost(s.tags[t].points, k')
    {
      assert PointsAtMost(s.tags[t].points, k);
    }
  }

  /** The same run adds exactly one view to a tag per occurrence of it. */
  lemma {:induction false} WalkTotal(s: Summary, tags: seq<Tag>, days: seq<int>, k: nat, t: string)
    requires Summaries.WellFormed(s) && AgesAtMost(s, k)
    requires |tags| == |days| && Chronological(days)
    requires days != [] ==> s.periodEnd <= days[0] && k + (days[|days| - 1] - s.periodEnd) < RetentionDays
    ensures TotalOf(Walk(s, tags, days), t) == TotalOf(s, t) + Occurrences(tags, t)
    decreases |tags|
  {
    if tags == [] {
      assert Walk(s, tags, days) == s;
    } else {
      WalkUnfold(s, tags, days);
      var day := days[0];
      var k1 := k + (day - s.periodEnd);
      assert day <= days[|days| - 1];
      StepShape(s, tags[0], day, k, k1);
      StepTotal(s, tags[0], day, k, t);
      var s1 := Step(s, tags[0], day);
      var later := days[1..];
      assert s1.periodEnd == day;
      assert later != [] ==> later[|later| - 1] == days[|days| - 1] && day <= later[0];
      assert Chronological(later) by {
        ChronologicalTail(days);
      }
      WalkTotal(s1, tags[1..], later, k1, t);
    }
  }

  /** The same run, when not empty, ends with its last tag stamped latest. */
  lemma {:induction false} WalkLast(s: Summary, tags: seq<Tag>, days: seq<int>)
    requires Summaries.WellFormed(s)
    requires |tags| == |days| && tags != []
    ensures LoggedLast(Walk(s, tags, days), tags[|tags| - 1].id)
    decreases |tags|
  {
    WalkUnfold(s, tags, days);
    var s1 := Step(s, tags[0], days[0]);
    var rest := tags[1..];
    if rest == [] {
      StepLast(s, tags[0], days[0]);
      assert Walk(s1, rest, days[1..]) == s1;
      assert tags[|tags| - 1] == tags[0];
    } else {
      PruneWellFormed(s, days[0]);
      LogTagWellFormed(Prune(s, days[0]), tags[0]);
      WalkLast(s1, rest, days[1..]);
      assert rest[|rest| - 1] == tags[|tags| - 1];
    }
  }

  /** The page views `pages`, the `i`-th on `days[i]`, logged into `s`. */
  function Replay(s: Summary, pages: seq<Page>, days: seq<int>): Summary
    requires |pages| == |days|
    decreases |pages|
  {
    if pages == [] then s else Replay(LogSummary(Some(s), pages[0], days[0]), pages[1..], days[1..])
  }

  /** Every page is counted under its section alone. */
  ghost predicate AllSectionOnly(pages: seq<Page>)
  {
    forall i :: 0 <= i < |pages| ==> SectionOnly(pages[i])
  }

  /** The section tags of `pages`. */
  function SectionTagsOf(pages: seq<Page>): (r: seq<Tag>)
    ensures |r| == |pages|
    ensures forall i :: 0 <= i < |pages| ==> r[i] == SectionTag(pages[i])
  {
    if pages == [] then [] else [SectionTag(pages[0])] + SectionTagsOf(pages[1..])
  }

  /** Replaying views of section-only pages is walking their section tags. */
  lemma {:induction false} ReplayIsWalk(s: Summary, pages: seq<Page>, days: seq<int>)
    requires |pages| == |days| && AllSectionOnly(pages)
    ensures Replay(s, pages, days) == Walk(s, SectionTagsOf(pages), days)
    decreases |pages|
  {
    if pages != [] {
      var tags := SectionTagsOf(pages);
      SingleTagLog(s, pages[0], days[0]);
      var s1 := LogSummary(Some(s), pages[0], days[0]);
      assert AllSectionOnly(pages[1..]) by {
        forall i | 0 <= i < |pages[1..]|
          ensures SectionOnly(pages[1..][i])
        {
          assert pages[1..][i] == pages[i + 1];
        }
      }
      ReplayIsWalk(s1, pages[1..], days[1..]);
      assert tags[1..] == SectionTagsOf(pages[1..]);
      WalkUnfold(s, tags, days);
    }
  }

  /** A tag no entry of `tags` carries does not occur in it. */
  lemma {:induction false} OccurrencesAbsent(tags: seq<Tag>, t: string)
    requires forall i :: 0 <= i < |tags| ==> tags[i].id != t
    ensures Occurrences(tags, t) == 0
    decreases |tags|
  {
    if tags != [] {
      assert forall i :: 0 <= i < |tags[1..]| ==> tags[1..][i] == tags[i + 1];
      OccurrencesAbsent(tags[1..], t);
    }
  }

  /** Views under two tags `a` and `b` only, in chronological order,
      starting from the summary an absent document stands for on the first
      day and spanning less than the retention window: the summary holds
      exactly the two tags, each with one view per occurrence, and the tag
      viewed last carries the latest stamp. */
  lemma TwoTagRun(a: Tag, b: Tag, tags: seq<Tag>, days: seq<int>, ca: nat, cb: nat)
    requires a.id != b.id
    requires |tags| == |days| && tags != [] && Chronological(days)
    requires days[|days| - 1] - days[0] < RetentionDays
    requires ca == Occurrences(tags, a.id) && cb == Occurrences(tags, b.id)
    ensures var r := Walk(Empty(days[0]), tags, days);
      && Summaries.WellFormed(r)
      && TotalOf(r, a.id) == ca && TotalOf(r, b.id) == cb
      && LoggedLast(r, tags[|tags| - 1].id)
      && r.periodEnd == days[|days| - 1]
  {
    var e := Empty(days[0]);
    WalkWellFormed(e, tags, days);
    WalkEnd(e, tags, days);
    WalkLast(e, tags, days);
    assert AgesAtMost(e, 0);
    WalkTotal(e, tags, days, 0, a.id);
    WalkTotal(e, tags, days, 0, b.id);
  }

  /** The same run holds exactly the tags viewed, when only `a` and `b` are. */
  lemma TwoTagKeys(a: Tag, b: Tag, tags: seq<Tag>, days: seq<int>, t: string)
    requires |tags| == |days| && tags != [] && Chronological(days)
    requires days[|days| - 1] - days[0] < RetentionDays
    requires forall i :: 0 <= i < |tags| ==> tags[i] == a || tags[i] == b
    requires Occurrences(tags, a.id) > 0 && Occurrences(tags, b.id) > 0
    ensures t in Walk(Empty(days[0]), tags, days).tags <==> t == a.id || t == b.id
  {
    var e := Empty(days[0]);
    assert AgesAtMost(e, 0);
    WalkMember(e, tags, days, 0, t);
    if t != a.id && t != b.id {
      OccurrencesAbsent(tags, t);
    }
  }

  /** Counting occurrences distributes over concatenation. */
  lemma {:induction false} OccurrencesAppend(x: seq<Tag>, y: seq<Tag>, id: string)
    ensures Occurrences(x + y, id) == Occurrences(x, id) + Occurrences(y, id)
    decreases |x|
  {
    if x == [] {
      assert x + y == y;
    } else {
      assert (x + y)[0] == x[0] && (x + y)[1..] == x[1..] + y;
      OccurrencesAppend(x[1..], y, id);
    }
  }

  /** A view of `p` and then of `q`, on one day. */
  function Pair(p: Page, q: Page): seq<Page>
  {
    [p, q]
  }

  /** The views of the tie scenario: `p` and `q` alternately, once each on
      three successive days. */
  function EqualViews(p: Page, q: Page): seq<Page>
  {
    Pair(p, q) + Pair(p, q) + Pair(p, q)
  }

  function EqualDays(today: int): seq<int>
  {
    [today, today, today + 1, today + 1, today + 2, today + 2]
  }

  /** The same views with one extra view of `p` first. */
  function MoreViews(p: Page, q: Page): seq<Page>
  {
    [p] + EqualViews(p, q)
  }

  function MoreDays(today: int): seq<int>
  {
    [today] + EqualDays(today)
  }

  /** Two tags, `first` ranked above `second`: the only ranking lists them in
      that order. */
  lemma RankTwo(tags: map<string, TagRecord>, first: string, second: string)
    requires forall t :: t in tags <==> t == first || t == second
    requires first != second && DistinctStamps(tags) && !Outranks(tags[second], tags[first])
    ensures IsRanking(tags, [first, second])
    ensures forall r :: IsRanking(tags, r) ==> r == [first, second]
  {
    var r0 := [first, second];
    assert Within(tags, r0);
    forall r | IsRanking(tags, r)
      ensures r == r0
    {
      RankingUnique(tags, r, r0);
    }
  }

  /** A run of views under two tags only, read on its first day, ranks
      `first` before `second` when it has more views, or as many and was
      viewed last; no other ranking exists. */
  lemma TwoTagRanking(tags: seq<Tag>, days: seq<int>, first: Tag, second: Tag, cf: nat, cs: nat)
    requires |tags| == |days| && tags != [] && Chronological(days) && days[|days| - 1] - days[0] < RetentionDays
    requires first.id != second.id
    requires forall i :: 0 <= i < |tags| ==> tags[i] == first || tags[i] == second
    requires cf == Occurrences(tags, first.id) && cs == Occurrences(tags, second.id) && cs > 0
    requires cf > cs || (cf == cs && tags[|tags| - 1] == first)
    ensures var s := Walk(Empty(days[0]), tags, days);
      && IsRanking(Prune(s, days[0]).tags, [first.id, second.id])
      && forall r :: IsRanking(Prune(s, days[0]).tags, r) ==> r == [first.id, second.id]
  {
    var today := days[0];
    var s := Walk(Empty(today), tags, days);
    TwoTagRun(first, second, tags, days, cf, cs);
    assert today <= s.periodEnd;
    PruneIdle(s, today);
    forall t
      ensures t in s.tags <==> t == first.id || t == second.id
    {
      TwoTagKeys(first, second, tags, days, t);
    }
    RankTwo(s.tags, first.id, second.id);
  }

  /** Each of two distinct tags occurs once in their pair. */
  lemma PairCounts(a: Tag, b: Tag)
    requires a.id != b.id
    ensures Occurrences([a, b], a.id) == 1 && Occurrences([a, b], b.id) == 1
  {
    assert [a, b][1..] == [b] && [b][1..] == [];
    assert Occurrences([], a.id) == 0 && Occurrences([], b.id) == 0;
    assert Occurrences([b], a.id) == 0 && Occurrences([b], b.id) == 1;
  }

  /** The tie run under tags `a` and `b`: `b`, viewed last, ranks first. */
  lemma EqualRun(a: Tag, b: Tag, today: int)
    requires a.id != b.id
    ensures var s := Walk(Empty(today), [a, b] + [a, b] + [a, b], EqualDays(today));
      && IsRanking(Prune(s, today).tags, [b.id, a.id])
      && forall r :: IsRanking(Prune(s, today).tags, r) ==> r == [b.id, a.id]
  {
    var ab := [a, b];
    var tags := ab + ab + ab;
    PairCounts(a, b);
    OccurrencesAppend(ab, ab, a.id);
    OccurrencesAppend(ab, ab, b.id);
    OccurrencesAppend(ab + ab, ab, a.id);
    OccurrencesAppend(ab + ab, ab, b.id);
    assert tags == [a, b, a, b, a, b];
    TwoTagRanking(tags, EqualDays(today), b, a, 3, 3);
  }

  /** The most-visited run: `a`, with one view more, ranks first. */
  lemma MoreRun(a: Tag, b: Tag, today: int)
    requires a.id != b.id
    ensures var s := Walk(Empty(today), [a] + ([a, b] + [a, b] + [a, b]), MoreDays(today));
      && IsRanking(Prune(s, today).tags, [a.id, b.id])
      && forall r :: IsRanking(Prune(s, today).tags, r) ==> r == [a.id, b.id]
  {
    var ab := [a, b];
    var rest := ab + ab + ab;
    var tags := [a] + rest;
    PairCounts(a, b);
    OccurrencesAppend(ab, ab, a.id);
    OccurrencesAppend(ab, ab, b.id);
    OccurrencesAppend(ab + ab, ab, a.id);
    OccurrencesAppend(ab + ab, ab, b.id);
    OccurrencesAppend([a], rest, a.id);
    OccurrencesAppend([a], rest, b.id);
    assert tags == [a, a, b, a, b, a, b];
    TwoTagRanking(tags, MoreDays(today), a, b, 4, 3);
  }

  /** The section tags of the tie views. */
  lemma EqualViewTags(p: Page, q: Page)
    ensures var a, b := SectionTag(p), SectionTag(q);
      SectionTagsOf(EqualViews(p, q)) == [a, b] + [a, b] + [a, b]
  {
    var pages := EqualViews(p, q);
    assert pages == [p, q, p, q, p, q];
    var r := SectionTagsOf(pages);
    var a, b := SectionTag(p), SectionTag(q);
    assert r == [a, b, a, b, a, b] by {
      assert r[0] == a && r[1] == b && r[2] == a && r[3] == b && r[4] == a && r[5] == b;
    }
  }

  /** Views of two section-only pages are views of section-only pages. */
  lemma TwoPagesSectionOnly(p: Page, q: Page, pages: seq<Page>)
    requires SectionOnly(p) && SectionOnly(q)
    requires forall i :: 0 <= i < |pages| ==> pages[i] == p || pages[i] == q
    ensures AllSectionOnly(pages)
  {
    forall i | 0 <= i < |pages|
      ensures SectionOnly(pages[i])
    {
      if pages[i] == p {
        assert SectionOnly(p);
      } else {
        assert SectionOnly(q);
      }
    }
  }

  /** The tie views are views of `p` and `q` only. */
  lemma EqualViewsOfTwo(p: Page, q: Page)
    ensures forall i :: 0 <= i < |EqualViews(p, q)| ==> EqualViews(p, q)[i] == p || EqualViews(p, q)[i] == q
    ensures forall i :: 0 <= i < |MoreViews(p, q)| ==> MoreViews(p, q)[i] == p || MoreViews(p, q)[i] == q
  {
    assert EqualViews(p, q) == [p, q, p, q, p, q];
    assert MoreViews(p, q) == [p, p, q, p, q, p, q];
  }

  /** Equally visited sections are returned last-in-first-out: after views
      of `p` and `q` alternating over three days, `q`, viewed last, ranks
      first. */
  lemma LastInFirstOut(p: Page, q: Page, today: int)
    requires SectionOnly(p) && SectionOnly(q) && p.section != q.section
    ensures var s := Replay(Empty(today), EqualViews(p, q), EqualDays(today));
      && IsRanking(Prune(s, today).tags, [q.section, p.section])
      && forall r :: IsRanking(Prune(s, today).tags, r) ==> r == [q.section, p.section]
  {
    EqualViewTags(p, q);
    EqualViewsOfTwo(p, q);
    TwoPagesSectionOnly(p, q, EqualViews(p, q));
    ReplayIsWalk(Empty(today), EqualViews(p, q), EqualDays(today));
    EqualRun(SectionTag(p), SectionTag(q), today);
  }

  /** The most visited section is returned first: with one view more, `p`
      ranks first although `q` was viewed last. */
  lemma MostVisitedFirst(p: Page, q: Page, today: int)
    requires SectionOnly(p) && SectionOnly(q) && p.section != q.section
    ensures var s := Replay(Empty(today), MoreViews(p, q), MoreDays(today));
      && IsRanking(Prune(s, today).tags, [p.section, q.section])
      && forall r :: IsRanking(Prune(s, today).tags, r) ==> r == [p.section, q.section]
  {
    var pages := MoreViews(p, q);
    EqualViewTags(p, q);
    EqualViewsOfTwo(p, q);
    TwoPagesSectionOnly(p, q, pages);
    assert SectionTagsOf(pages) == [SectionTag(p)] + SectionTagsOf(EqualViews(p, q));
    ReplayIsWalk(Empty(today), pages, MoreDays(today));
    MoreRun(SectionTag(p), SectionTag(q), today);
  }

  /** The two fixture sections are counted alone. */
  lemma FixtureSections()
    ensures SectionOnly(OftenVisited()) && SectionOnly(LessVisited())
  {
    SectionTags("123", "often/visited", "Often Visited Section");
    SectionTags("456", "less/visited", "Less Visited Section");
  }

  /** The tie scenario on the fixture pages: "less/visited" ranks first. */
  lemma PopularLastInFirstOut(today: int)
    ensures var s := Replay(Empty(today), EqualViews(OftenVisited(), LessVisited()), EqualDays(today));
      && IsRanking(Prune(s, today).tags, ["less/visited", "often/visited"])
      && forall r :: IsRanking(Prune(s, today).tags, r) ==> r == ["less/visited", "often/visited"]
  {
    FixtureSections();
    LastInFirstOut(OftenVisited(), LessVisited(), today);
  }

  /** The most-visited scenario on the fixture pages: "often/visited" ranks
      first. */
  lemma PopularMostVisitedFirst(today: int)
    ensures var s := Replay(Empty(today), MoreViews(OftenVisited(), LessVisited()), MoreDays(today));
      && IsRanking(Prune(s, today).tags, ["often/visited", "less/visited"])
      && forall r :: IsRanking(Prune(s, today).tags, r) ==> r == ["often/visited", "less/visited"]
  {
    FixtureSections();
    MostVisitedFirst(OftenVisited(), LessVisited(), today);
  }

  // ---------------------------------------------------------------------------
  // Series

  /** The series scenario: one section page a day, two views of the series
      `a/series/b`, one each of three other series, one of a sport section. */
  function SeriesPages(): seq<Page>
  {
    [ SectionPage("111", "a/series/b", "A series (two views)"),
      SectionPage("112", "a/series/b", "A series (two views)"),
      SectionPage("222", "g/series/h", "Another series"),
      SectionPage("333", "j/series/k", "A different series"),
      SectionPage("444", "x/series/y", "A really different series"),
      SectionPage("555", "a/sport/z", "Not a series") ]
  }

  function SeriesTags(): seq<Tag>
  {
    TwiceThenOnce(
      Tag("a/series/b", "A series (two views)"),
      Tag("g/series/h", "Another series"),
      Tag("j/series/k", "A different series"),
      Tag("x/series/y", "A really different series"),
      Tag("a/sport/z", "Not a series"))
  }

  /** The `i`-th page is viewed `i` days after `today`. */
  function SeriesDays(today: int): seq<int>
  {
    [today, today + 1, today + 2, today + 3, today + 4, today + 5]
  }

  /** A page with a non-empty section and no other tag field. */
  predicate Plain(p: Page)
  {
    && p == SectionPage(p.pageId, p.section, p.sectionName)
    && p.section != ""
  }

  ghost predicate AllPlain(pages: seq<Page>)
  {
    forall i :: 0 <= i < |pages| ==> Plain(pages[i])
  }

  lemma PlainSectionOnly(p: Page)
    requires Plain(p)
    ensures SectionOnly(p)
  {
    SectionTags(p.pageId, p.section, p.sectionName);
  }

  lemma PlainCons(p: Page, rest: seq<Page>)
    requires Plain(p) && AllPlain(rest)
    ensures AllPlain([p] + rest)
  {
    forall i | 0 < i < |[p] + rest|
      ensures Plain(([p] + rest)[i])
    {
      assert ([p] + rest)[i] == rest[i - 1];
    }
  }

  /** Views of plain section pages replay as the views of their sections. */
  lemma ReplayPlain(s: Summary, pages: seq<Page>, days: seq<int>)
    requires |pages| == |days| && AllPlain(pages)
    ensures Replay(s, pages, days) == Walk(s, SectionTagsOf(pages), days)
  {
    forall i | 0 <= i < |pages|
      ensures SectionOnly(pages[i])
    {
      PlainSectionOnly(pages[i]);
    }
    ReplayIsWalk(s, pages, days);
  }

  /** The series pages are plain section pages. */
  lemma SeriesPagesPlain()
    ensures AllPlain(SeriesPages())
  {
    var ps := SeriesPages();
    PlainCons(ps[5], []);
    assert ps[5..] == [ps[5]] + [];
    PlainCons(ps[4], ps[5..]);
    assert ps[4..] == [ps[4]] + ps[5..];
    PlainCons(ps[3], ps[4..]);
    assert ps[3..] == [ps[3]] + ps[4..];
    PlainCons(ps[2], ps[3..]);
    assert ps[2..] == [ps[2]] + ps[3..];
    PlainCons(ps[1], ps[2..]);
    assert ps[1..] == [ps[1]] + ps[2..];
    PlainCons(ps[0], ps[1..]);
    assert ps == [ps[0]] + ps[1..];
  }

  lemma SeriesPagesTags()
    ensures SectionTagsOf(SeriesPages()) == SeriesTags()
  {
    var r := SectionTagsOf(SeriesPages());
    assert r[0] == SeriesTags()[0] && r[1] == SeriesTags()[1] && r[2] == SeriesTags()[2];
    assert r[3] == SeriesTags()[3] && r[4] == SeriesTags()[4] && r[5] == SeriesTags()[5];
  }

  /** Five tags with different ids. */
  predicate FiveIds(a: Tag, b: Tag, c: Tag, d: Tag, e: Tag)
  {
    && a.id != b.id && a.id != c.id && a.id != d.id && a.id != e.id
    && b.id != c.id && b.id != d.id && b.id != e.id
    && c.id != d.id && c.id != e.id
    && d.id != e.id
  }

  /** Two views under `a`, then one under each of the others. */
  function TwiceThenOnce(a: Tag, b: Tag, c: Tag, d: Tag, e: Tag): seq<Tag>
  {
    [a, a, b, c, d, e]
  }

  /** One view under `x`, if its id is `id`. */
  function Hit(x: Tag, id: string): nat
  {
    if x.id == id then 1 else 0
  }

  lemma OccurrencesCons(x: Tag, rest: seq<Tag>, id: string)
    ensures Occurrences([x] + rest, id) == Hit(x, id) + Occurrences(rest, id)
  {
    assert ([x] + rest)[1..] == rest;
  }

  /** Six views counted one by one. */
  lemma OccurrencesSix(x1: Tag, x2: Tag, x3: Tag, x4: Tag, x5: Tag, x6: Tag, id: string)
    ensures Occurrences([x1, x2, x3, x4, x5, x6], id)
      == Hit(x1, id) + Hit(x2, id) + Hit(x3, id) + Hit(x4, id) + Hit(x5, id) + Hit(x6, id)
  {
    OccurrencesCons(x6, [], id);
    assert [x6] == [x6] + [];
    OccurrencesCons(x5, [x6], id);
    assert [x5, x6] == [x5] + [x6];
    OccurrencesCons(x4, [x5, x6], id);
    assert [x4, x5, x6] == [x4] + [x5, x6];
    OccurrencesCons(x3, [x4, x5, x6], id);
    assert [x3, x4, x5, x6] == [x3] + [x4, x5, x6];
    OccurrencesCons(x2, [x3, x4, x5, x6], id);
    assert [x2, x3, x4, x5, x6] == [x2] + [x3, x4, x5, x6];
    OccurrencesCons(x1, [x2, x3, x4, x5, x6], id);
    assert [x1, x2, x3, x4, x5, x6] == [x1] + [x2, x3, x4, x5, x6];
  }

  lemma TwiceThenOnceCounts(a: Tag, b: Tag, c: Tag, d: Tag, e: Tag)
    requires FiveIds(a, b, c, d, e)
    ensures var tags := TwiceThenOnce(a, b, c, d, e);
      && Occurrences(tags, a.id) == 2
      && Occurrences(tags, b.id) == 1 && Occurrences(tags, c.id) == 1
      && Occurrences(tags, d.id) == 1 && Occurrences(tags, e.id) == 1
  {
    OccurrencesSix(a, a, b, c, d, e, a.id);
    OccurrencesSix(a, a, b, c, d, e, b.id);
    OccurrencesSix(a, a, b, c, d, e, c.id);
    OccurrencesSix(a, a, b, c, d, e, d.id);
    OccurrencesSix(a, a, b, c, d, e, e.id);
  }

  /** The series run stays well-formed and ends on its last day. */
  lemma SeriesWalkShape(tags: seq<Tag>, today: int)
    requires |tags| == 6
    ensures var s := Walk(Empty(today), tags, SeriesDays(today));
      Summaries.WellFormed(s) && s.periodEnd == today + 5
  {
    WalkWellFormed(Empty(today), tags, SeriesDays(today));
    WalkEnd(Empty(today), tags, SeriesDays(today));
  }

  /** Every tag of a run over the series days counts its views. */
  lemma SeriesWalkTotal(tags: seq<Tag>, today: int, t: string)
    requires |tags| == 6
    ensures TotalOf(Walk(Empty(today), tags, SeriesDays(today)), t) == Occurrences(tags, t)
    ensures t in Walk(Empty(today), tags, SeriesDays(today)).tags <==> Occurrences(tags, t) > 0
  {
    assert AgesAtMost(Empty(today), 0);
    WalkTotal(Empty(today), tags, SeriesDays(today), 0, t);
    WalkMember(Empty(today), tags, SeriesDays(today), 0, t);
  }

  /** Only the five tags are viewed. */
  lemma TwiceThenOnceOnly(a: Tag, b: Tag, c: Tag, d: Tag, e: Tag, t: string)
    requires t != a.id && t != b.id && t != c.id && t != d.id && t != e.id
    ensures Occurrences(TwiceThenOnce(a, b, c, d, e), t) == 0
  {
    OccurrencesAbsent(TwiceThenOnce(a, b, c, d, e), t);
  }

  /** Over the series days, views of series `a` (twice), `b`, `c`, `d` and of
      the non-series tag `e` (once each) leave a series summary, read on the
      first day, of the four series with `a` at two views and the others at
      one. */
  lemma SeriesRunKeys(tags: seq<Tag>, today: int, a: string, b: string, c: string, d: string, e: string, t: string)
    requires |tags| == 6
    requires Occurrences(tags, t) > 0 <==> t == a || t == b || t == c || t == d || t == e
    requires IsSeriesTag(a) && IsSeriesTag(b) && IsSeriesTag(c) && IsSeriesTag(d) && !IsSeriesTag(e)
    ensures t in SeriesSummary(Walk(Empty(today), tags, SeriesDays(today)), today)
      <==> t == a || t == b || t == c || t == d
  {
    var s := Walk(Empty(today), tags, SeriesDays(today));
    SeriesWalkShape(tags, today);
    PruneIdle(s, today);
    SeriesWalkTotal(tags, today, t);
  }

  lemma SeriesRunCount(tags: seq<Tag>, today: int, t: string, n: nat)
    requires |tags| == 6 && IsSeriesTag(t) && Occurrences(tags, t) == n > 0
    ensures var counts := SeriesSummary(Walk(Empty(today), tags, SeriesDays(today)), today);
      t in counts && counts[t] == n
  {
    var s := Walk(Empty(today), tags, SeriesDays(today));
    SeriesWalkShape(tags, today);
    PruneIdle(s, today);
    SeriesWalkTotal(tags, today, t);
  }

  /** Ids `a/series/b` with a one-letter first segment are series tags. */
  lemma ShortSeriesId(a: char, b: string)
    requires a != '/' && b != []
    ensures IsSeriesTag([a] + "/series/" + b)
  {
    var t := [a] + "/series/" + b;
    assert t == [a] + ['/'] + ("series/" + b);
    BeforeJoin([a], '/', "series/" + b);
    assert t[1..9] == "/series/";
  }

  lemma SeriesIdB()
    ensures IsSeriesTag("a/series/b")
  {
    ShortSeriesId('a', "b");
    assert ['a'] + "/series/" + "b" == "a/series/b";
  }

  lemma SeriesIdH()
    ensures IsSeriesTag("g/series/h")
  {
    ShortSeriesId('g', "h");
    assert ['g'] + "/series/" + "h" == "g/series/h";
  }

  lemma SeriesIdK()
    ensures IsSeriesTag("j/series/k")
  {
    ShortSeriesId('j', "k");
    assert ['j'] + "/series/" + "k" == "j/series/k";
  }

  lemma SeriesIdY()
    ensures IsSeriesTag("x/series/y")
  {
    ShortSeriesId('x', "y");
    assert ['x'] + "/series/" + "y" == "x/series/y";
  }

  /** "a/sport/z" is too short to hold "/series/" after its first segment. */
  lemma SportIsNoSeries()
    ensures !IsSeriesTag("a/sport/z")
  {
    assert |"a/sport/z"| == 9;
  }

  /** Which of the scenario's ids are series tags. */
  lemma SeriesIds()
    ensures IsSeriesTag("a/series/b") && IsSeriesTag("g/series/h")
    ensures IsSeriesTag("j/series/k") && IsSeriesTag("x/series/y")
    ensures !IsSeriesTag("a/sport/z")
  {
    SeriesIdB();
    SeriesIdH();
    SeriesIdK();
    SeriesIdY();
    SportIsNoSeries();
  }

  /** Six plain section pages whose sections are the series scenario's tags,
      as the fixture pages are. */
  ghost predicate SeriesScenarioPages(pages: seq<Page>)
  {
    |pages| == 6 && AllPlain(pages) && SectionTagsOf(pages) == SeriesTags()
  }

  /** The fixture pages have the series scenario's shape. */
  lemma SeriesPagesShaped()
    ensures SeriesScenarioPages(SeriesPages())
  {
    SeriesPagesPlain();
    SeriesPagesTags();
  }

  /** Pages of the series scenario's shape replay as their section tags. */
  lemma SeriesFixtureWalk(pages: seq<Page>, today: int)
    requires SeriesScenarioPages(pages)
    ensures Replay(Empty(today), pages, SeriesDays(today)) == Walk(Empty(today), SeriesTags(), SeriesDays(today))
  {
    ReplayPlain(Empty(today), pages, SeriesDays(today));
  }

  /** How often each id is viewed in the fixture tags. */
  lemma SeriesTagViews(t: string)
    ensures Occurrences(SeriesTags(), t) > 0
      <==> t == "a/series/b" || t == "g/series/h" || t == "j/series/k" || t == "x/series/y" || t == "a/sport/z"
    ensures Occurrences(SeriesTags(), "a/series/b") == 2
    ensures Occurrences(SeriesTags(), "g/series/h") == 1 && Occurrences(SeriesTags(), "j/series/k") == 1
    ensures Occurrences(SeriesTags(), "x/series/y") == 1
  {
    var a := Tag("a/series/b", "A series (two views)");
    var b := Tag("g/series/h", "Another series");
    var c := Tag("j/series/k", "A different series");
    var d := Tag("x/series/y", "A really different series");
    var e := Tag("a/sport/z", "Not a series");
    TwiceThenOnceCounts(a, b, c, d, e);
    if t != a.id && t != b.id && t != c.id && t != d.id && t != e.id {
      TwiceThenOnceOnly(a, b, c, d, e, t);
    }
  }

  /** The count map `m` holds `t`, at `n`. */
  predicate Counts(m: map<string, nat>, t: string, n: nat)
  {
    t in m && m[t] == n
  }

  /** The series summary of the scenario, for the fixture pages and any
      others of their shape: the four series with "a/series/b" at two views
      and the other three at one; "a/sport/z" is not a series. */
  lemma SeriesSummaryCounts(pages: seq<Page>, today: int)
    requires SeriesScenarioPages(pages)
    ensures var counts := SeriesSummary(Replay(Empty(today), pages, SeriesDays(today)), today);
      && (forall t :: t in counts <==> t == "a/series/b" || t == "g/series/h" || t == "j/series/k" || t == "x/series/y")
      && Counts(counts, "a/series/b", 2)
      && Counts(counts, "g/series/h", 1) && Counts(counts, "j/series/k", 1) && Counts(counts, "x/series/y", 1)
  {
    SeriesFixtureWalk(pages, today);
    SeriesWalkCounts(today);
  }

  /** The series summary of the scenario's tag views. */
  lemma SeriesWalkCounts(today: int)
    ensures var counts := SeriesSummary(Walk(Empty(today), SeriesTags(), SeriesDays(today)), today);
      && (forall t :: t in counts <==> t == "a/series/b" || t == "g/series/h" || t == "j/series/k" || t == "x/series/y")
      && Counts(counts, "a/series/b", 2)
      && Counts(counts, "g/series/h", 1) && Counts(counts, "j/series/k", 1) && Counts(counts, "x/series/y", 1)
  {
    SeriesIds();
    forall t
      ensures t in SeriesSummary(Walk(Empty(today), SeriesTags(), SeriesDays(today)), today)
        <==> t == "a/series/b" || t == "g/series/h" || t == "j/series/k" || t == "x/series/y"
    {
      SeriesTagViews(t);
      SeriesRunKeys(SeriesTags(), today, "a/series/b", "g/series/h", "j/series/k", "x/series/y", "a/sport/z", t);
    }
    SeriesTagViews("a/series/b");
    SeriesRunCount(SeriesTags(), today, "a/series/b", 2);
    SeriesRunCount(SeriesTags(), today, "g/series/h", 1);
    SeriesRunCount(SeriesTags(), today, "j/series/k", 1);
    SeriesRunCount(SeriesTags(), today, "x/series/y", 1);
  }

  /** A series summary of four series, one of them at two views and the
      others at one, has that one as its only most viewed series. */
  lemma TwiceViewedIsMostViewed(s: Summary, today: int, a: string, b: string, c: string, d: string)
    requires var counts := SeriesSummary(s, today);
      && (forall t :: t in counts <==> t == a || t == b || t == c || t == d)
      && Counts(counts, a, 2) && Counts(counts, b, 1) && Counts(counts, c, 1) && Counts(counts, d, 1)
    ensures |SeriesSummary(s, today)| > 0
    ensures forall t :: MostViewed(s, today, t) <==> t == a
  {
    var counts := SeriesSummary(s, today);
    assert a in counts.Keys;
    forall u | u in counts && u != a
      ensures counts[u] < counts[a]
    {
      assert u == b || u == c || u == d;
    }
    StrictMaxIsMostViewed(s, today, a);
  }

  /** The most viewed series of the scenario, for the fixture pages and any
      others of their shape, is "a/series/b", and no other. */
  lemma MostViewedIsTwiceViewed(pages: seq<Page>, today: int)
    requires SeriesScenarioPages(pages)
    ensures var s := Replay(Empty(today), pages, SeriesDays(today));
      && |SeriesSummary(s, today)| > 0
      && forall t :: MostViewed(s, today, t) <==> t == "a/series/b"
  {
    SeriesSummaryCounts(pages, today);
    TwiceViewedIsMostViewed(Replay(Empty(today), pages, SeriesDays(today)), today,
      "a/series/b", "g/series/h", "j/series/k", "x/series/y");
  }
}
