# Browsing history engine — a Dafny model

This project models the browsing-history engine of the frontend's "onward"
journey module (`common/modules/onward/history`) as its test suite pins it
down. The engine keeps two documents in the browser's local storage:

- **The recent-visit log.** This is an ordered list of `(pageId, count)`
  pairs, most recently visited first, with at most 50 entries.
  - `logHistory` moves the page to the front and raises its count, or
    inserts it with count 1.
  - `isRevisit` answers whether a page's entry counts two or more views.
- **The interest summary.** This is a map from tag id to a display name and
  day-bucketed data points `(ageInDays, count)`, plus the `periodEnd` day the
  ages are reckoned from.
  - `logSummary(page, day)` counts one view under the page's section, first
    keyword, series and first author.
  - `pruneSummary` rebases ages against today and drops points too old to
    keep.
  - `getPopular` ranks all tags by views. Among tags with equal views, the
    one logged last ranks first.
  - `seriesSummary` and `mostViewedSeries` restrict the view to series tags,
    that is, ids of the shape `a/series/b`.

The state is an immutable value (`Engine.Store`), and every operation is a
pure function or a method over it. The current day is an explicit parameter.

Modules:

- `Options`: `Option<T>`, used for an absent document and for an answer that
  may not exist.
- `Text`: the first item of a comma list, and the series-id test.
- `Pages`: page metadata and the tags a page view is counted under.
- `VisitLog`: the recent-visit log.
- `Summaries`: the interest summary, with aging, pruning and logging.
- `Ranking`: the popularity ranking and the series views.
- `Engine`: the stored state and `reset`.
- `Scenarios`: each test scenario, proved for arbitrary pages of the right
  shape and instantiated with the fixture pages, for every `today`.

Design choices the tests leave open:

- **Retention window.** `RetentionDays` has no fixed value. It is any
  length of type `Window`: more than 5 days and at most 500, because the tests
  only require that a 5-day-old point is kept and a 500-day-old one is dropped
  (`Summaries.RetentionBounds` states this for any list of points). Every proof holds for each such window. A
  point is kept while its age is below the window.
- **Aging only moves forward.** Reading or writing on a day at or before
  `periodEnd` does not age the summary. The popularity and series scenarios
  log on `today + 1` and `today + 2`, then read on `today`, and still see
  every view.
- **Tie-break.** Each tag update takes the next value of a per-summary
  sequence number (`stamp`). A page's tags are stamped in section, keyword,
  series, author order.
- **Tag extraction.** The section and its name are used whole. The keyword,
  series and author fields count only their first comma-separated item. Empty
  ids are skipped. A page counts at most once per tag id. When two fields give
  the same id, the earlier field wins, and the tags keep the field order
  (`Pages.ExtractTagsInOrder`). Only the id must be non-empty: a tag whose
  display name is empty is kept with the name `""`. For example, a page with a
  `seriesId` and no `series` gets a series tag with an empty name.
- **Series ids.** The series test accepts `series` only as the second path
  segment: `a/series/b/c` is a series id and `a/b/series/c` is not.
- **Display names.** An existing tag keeps the display name it was created
  with.

## Model

| member | source | states |
|---|---|---|
| VisitLog.CountOf | static/test/javascripts/spec/common/onward/history.spec.js:57-63 | the count a page has in the log: 0 when it has no entry, otherwise the count of its first entry |
| VisitLog.Remove | static/test/javascripts/spec/common/onward/history.spec.js:51-63 | dropping a page's entries keeps exactly the other entries; it shortens the log when the page was logged and keeps ids unique (their order is stated by `VisitLog.RemoveAt`) |
| VisitLog.RemoveAt | static/test/javascripts/spec/common/onward/history.spec.js:51-63 | in a log with one entry per page, dropping the page of entry `k` leaves the entries before `k` and after `k`, in their order |
| VisitLog.LogHistory | static/test/javascripts/spec/common/onward/history.spec.js:51-63 | the logged page is entry 0 with its previous count plus one; the other entries are the old log without it, in order, truncated to one less than 50 |
| VisitLog.LogHistoryWellFormed | static/test/javascripts/spec/common/onward/history.spec.js:51-78 | logging keeps one entry per page, every count at least 1 and at most 50 entries |
| VisitLog.LogHistoryCount | static/test/javascripts/spec/common/onward/history.spec.js:57-63 | after a log, a new page counts exactly 1 view and a logged page at least 2 |
| VisitLog.RevisitAfterLog | static/test/javascripts/spec/common/onward/history.spec.js:65-71 | after a log, `isRevisit` holds exactly when the page was in the log before |
| VisitLog.IsRevisit | static/test/javascripts/spec/common/onward/history.spec.js:65-71 | in a log with one entry per page, `isRevisit` holds exactly when the page's count is at least 2 |
| VisitLog.LogHistoryAtCapacity | static/test/javascripts/spec/common/onward/history.spec.js:73-78 | logging any page onto a full log of 50 distinct pages leaves 50 entries. A page already in the log moves to the front, nothing is evicted and the others keep their order; a new page goes in front of the old first 49 |
| VisitLog.LogLoggedPage | static/test/javascripts/spec/common/onward/history.spec.js:51-63 | logging a page already in the log puts it in front with its count plus one, followed by every other entry in its old order; nothing is evicted |
| VisitLog.LoggedFront | static/test/javascripts/spec/common/onward/history.spec.js:57-63 | for a page in a log of at most 50 entries, logging truncates nothing: the result is the page with its count plus one in front of the log without it |
| VisitLog.LogNewPage | static/test/javascripts/spec/common/onward/history.spec.js:57-59 | a page not in the log goes in front with count 1 and nothing else moves |
| VisitLog.LogAllKeepsMostRecent | static/test/javascripts/spec/common/onward/history.spec.js:73-78 | views of distinct pages on an empty log leave the last 50 of them, newest first, once each |
| Engine.Reset | static/test/javascripts/spec/common/onward/history.spec.js:42-45 | `reset` leaves an empty, well-formed log and no summary |
| Engine.AfterReset | static/test/javascripts/spec/common/onward/history.spec.js:42-71 | after `reset` no page is a revisit, a first view is the only log entry, and the first summary write starts from an empty summary on its own day |
| Text.FirstOfList | static/test/javascripts/spec/common/onward/history.spec.js:20-27 | the first item of a comma list is a prefix with no comma that ends where the first comma is |
| Text.BeforeJoin | static/test/javascripts/spec/common/onward/history.spec.js:20-27 | splitting `a`, a separator and `b` at the first separator gives back `a` when `a` does not contain the separator |
| Text.SeriesTagShape | static/test/javascripts/spec/common/onward/history.spec.js:181-227 | an id passes the series test exactly when it has the shape `a/series/b` with `a` non-empty and slash-free and `b` non-empty |
| Pages.KeepFirst | static/test/javascripts/spec/common/onward/history.spec.js:80-97 | the kept tags come from the candidates, have non-empty, pairwise distinct ids, and cover every non-empty candidate id |
| Pages.KeepFirstInOrder | static/test/javascripts/spec/common/onward/history.spec.js:80-97 | each kept tag is the first candidate with its id, and the kept tags come in the order of those first candidates |
| Pages.ExtractTags | static/test/javascripts/spec/common/onward/history.spec.js:80-97 | a page is counted under tags drawn from its whole section, first keyword, first series and first author, one per non-empty distinct id |
| Pages.ExtractTagsInOrder | static/test/javascripts/spec/common/onward/history.spec.js:80-97 | a page's tags come in section, keyword, series, author order, and a repeated id keeps its earliest field's tag |
| Pages.KeepFirstDistinct | static/test/javascripts/spec/common/onward/history.spec.js:80-97 | when the four candidate ids are non-empty and distinct, every one is a tag of the page, in order, with its name |
| Summaries.RetentionBounds | static/test/javascripts/spec/common/onward/history.spec.js:118-138 | aging any list of points keeps each point that ends up at most 5 days old, with its count, and keeps no point of age 500 days or more |
| Summaries.Origin | static/test/javascripts/spec/common/onward/history.spec.js:108-126 | every aged point is a stored point at or after the same position, with its age shifted by the elapsed days and its count unchanged |
| Summaries.Kept | static/test/javascripts/spec/common/onward/history.spec.js:108-126 | every stored point whose shifted age is still inside the window survives aging, with its count |
| Summaries.AgePointsAscending | static/test/javascripts/spec/common/onward/history.spec.js:108-126 | aging keeps one point per day, youngest first |
| Summaries.Delta | static/test/javascripts/spec/common/onward/history.spec.js:108-126 | the elapsed days bring `periodEnd` up to the day read, and are 0 when that day is not later |
| Summaries.Prune | static/test/javascripts/spec/common/onward/history.spec.js:108-138 | pruning moves `periodEnd` up to the day read, keeps every tag's name and stamp, ages its points and drops exactly the tags left with no point in the window |
| Summaries.PruneKeepsDays | static/test/javascripts/spec/common/onward/history.spec.js:108-138 | pruning keeps every view on its absolute day, and keeps exactly the views of the last `RetentionDays` days |
| Summaries.PruneWellFormed | static/test/javascripts/spec/common/onward/history.spec.js:108-138 | pruning keeps the summary invariant: valid, non-empty points per tag and distinct stamps below `nextStamp` |
| Summaries.PruneTwice | static/test/javascripts/spec/common/onward/history.spec.js:108-126 | pruning at one day and then a later one is the same as pruning once at the later day |
| Summaries.PruneIdle | static/test/javascripts/spec/common/onward/history.spec.js:110-116 | pruning a well-formed summary on or before its `periodEnd` changes nothing, so pruning is idempotent |
| Summaries.PruneWithinWindow | static/test/javascripts/spec/common/onward/history.spec.js:140-178 | when no point leaves the window, pruning keeps every tag with its views and stamp, only older |
| Summaries.FindToday | static/test/javascripts/spec/common/onward/history.spec.js:99-105 | finds the first point of today when there is one, and reports none only when no point has age 0 |
| Summaries.LogToday | static/test/javascripts/spec/common/onward/history.spec.js:99-105 | one more view today raises the first point of today by one and leaves every other point in place; without a point of today it puts `(0, 1)` in front of the unchanged points. The total rises by one and valid points stay valid |
| Summaries.LogTag | static/test/javascripts/spec/common/onward/history.spec.js:80-105 | a view under one tag adds that tag and gives it the next stamp and its old points with one more view today. It keeps an existing display name or takes the page's for a new tag, and leaves every other tag alone |
| Summaries.LogTagsOther | static/test/javascripts/spec/common/onward/history.spec.js:80-97 | tags a page view does not mention keep their records |
| Summaries.LogSummary | static/test/javascripts/spec/common/onward/history.spec.js:80-105 | a write prunes against its day, adds exactly the page's tags and uses one stamp per tag |
| Summaries.LogSummaryEffect | static/test/javascripts/spec/common/onward/history.spec.js:80-105 | each tag of the page gains exactly one view today and the next stamp in order, keeping an existing display name; every other tag keeps its pruned record |
| Summaries.LogSummaryWellFormed | static/test/javascripts/spec/common/onward/history.spec.js:80-105 | writing into an absent or well-formed summary leaves it well-formed |
| Ranking.Insert | static/test/javascripts/spec/common/onward/history.spec.js:140-178 | inserting a tag into a sorted ranking keeps it sorted, adds exactly that tag and repeats none |
| Ranking.Rank | static/test/javascripts/spec/common/onward/history.spec.js:140-178 | lists every tag exactly once, none below a tag it outranks |
| Ranking.Popular | static/test/javascripts/spec/common/onward/history.spec.js:140-178 | `getPopular` is a ranking of the tags of the summary pruned against today |
| Ranking.RankingUnique | static/test/javascripts/spec/common/onward/history.spec.js:140-178 | with distinct stamps there is only one ranking: views, then last logged, fix the order |
| Ranking.SeriesSummary | static/test/javascripts/spec/common/onward/history.spec.js:214-227 | the series summary holds exactly the series-shaped tags of the summary pruned against today, each with its total views |
| Ranking.Top | static/test/javascripts/spec/common/onward/history.spec.js:229-231 | picks a key no other key outranks, and none exactly when there are no keys |
| Ranking.MostViewedSeries | static/test/javascripts/spec/common/onward/history.spec.js:229-231 | the answer is absent exactly when there is no series tag; otherwise it is a most viewed series, and no series count exceeds its count |
| Ranking.FirstSeriesIsMostViewed | static/test/javascripts/spec/common/onward/history.spec.js:229-231 | the first series tag of the popularity ranking is a most viewed series |
| Ranking.MostViewedUnique | static/test/javascripts/spec/common/onward/history.spec.js:229-231 | in a well-formed summary there is at most one most viewed series: the ranking order leaves no ties |
| Ranking.StrictMaxIsMostViewed | static/test/javascripts/spec/common/onward/history.spec.js:229-231 | a series with strictly more views than every other series is the one and only most viewed series |
| Ranking.SeriesCountsViews | static/test/javascripts/spec/common/onward/history.spec.js:214-227 | a view of a page under a series tag adds exactly one to that series' count, as read on the day of the view |
| Scenarios.ArticleTags | static/test/javascripts/spec/common/onward/history.spec.js:14-28 | the article page is counted under `foobar`, `foo/bar`, `foo/series/bar` and `profile/finbarrsaunders`, with their display names, in that order |
| Scenarios.LogSetsFrontAndCount | static/test/javascripts/spec/common/onward/history.spec.js:42-63 | from any well-formed log without the page, such as the `contains` fixture or the empty log, a first log puts the page in front with count 1. A second keeps it in front with count 2 and leaves the other entries as they were |
| Scenarios.RevisitAfterSecondLog | static/test/javascripts/spec/common/onward/history.spec.js:42-71 | from any well-formed log without the page, the page is not a revisit after one log and is one after the second |
| Scenarios.KeepsLatest | static/test/javascripts/spec/common/onward/history.spec.js:73-78 | views of more distinct pages than the log holds leave exactly 50 entries: the latest pages, newest first |
| Scenarios.KeepsFiftyLatest | static/test/javascripts/spec/common/onward/history.spec.js:73-78 | fifty-one views of distinct pages leave the latest fifty, newest first |
| Scenarios.FirstLog | static/test/javascripts/spec/common/onward/history.spec.js:80-97 | the first write creates exactly one record per tag of the page, with its display name, a single point `(0, 1)` and its position as stamp |
| Scenarios.SummaryTakesFirstValues | static/test/javascripts/spec/common/onward/history.spec.js:80-97 | after `reset`, one write of the article page creates exactly the section, first keyword, series and first author tags with their names and one view; `baz/poo` and `profile/rogermellie` get none |
| Scenarios.SameDayAgain | static/test/javascripts/spec/common/onward/history.spec.js:99-105 | a second write on the same day adds the view to today's point and keeps the display name |
| Scenarios.ThreeLogsSameDay | static/test/javascripts/spec/common/onward/history.spec.js:99-105 | three writes of a page on one day leave its first tag with a single point of three views and its name |
| Scenarios.SameDayIncrements | static/test/javascripts/spec/common/onward/history.spec.js:99-105 | three writes of the article page leave `foobar` as "Foobar Section" with a single point of three views |
| Scenarios.PruneAgesPoints | static/test/javascripts/spec/common/onward/history.spec.js:108-126 | a point of today read today stays at age 0; read 5 days later it is at age 5 and kept |
| Scenarios.PruneDropsObsolete | static/test/javascripts/spec/common/onward/history.spec.js:128-138 | a point 500 days old is dropped, and its tag with it |
| Scenarios.WalkMember | static/test/javascripts/spec/common/onward/history.spec.js:140-178 | a chronological run of views inside the window drops no tag and adds exactly the tags viewed |
| Scenarios.WalkTotal | static/test/javascripts/spec/common/onward/history.spec.js:140-178 | the same run adds exactly one view to a tag per view of it |
| Scenarios.WalkLast | static/test/javascripts/spec/common/onward/history.spec.js:140-157 | the same run ends with its last tag carrying the latest stamp |
| Scenarios.TwoTagRanking | static/test/javascripts/spec/common/onward/history.spec.js:140-178 | of two tags, the one with more views, or with as many and viewed last, is ranked first, and no other ranking exists |
| Scenarios.LastInFirstOut | static/test/javascripts/spec/common/onward/history.spec.js:140-157 | two section pages viewed alternately over three days: the one viewed last ranks first, and that is the only ranking |
| Scenarios.MostVisitedFirst | static/test/javascripts/spec/common/onward/history.spec.js:159-178 | with one extra view, the more visited section ranks first although the other was viewed last |
| Scenarios.PopularLastInFirstOut | static/test/javascripts/spec/common/onward/history.spec.js:140-157 | on the fixture pages the only ranking is `less/visited`, then `often/visited` |
| Scenarios.PopularMostVisitedFirst | static/test/javascripts/spec/common/onward/history.spec.js:159-178 | on the fixture pages the only ranking is `often/visited`, then `less/visited` |
| Scenarios.SeriesIds | static/test/javascripts/spec/common/onward/history.spec.js:181-212 | the four `x/series/y` ids are series tags and `a/sport/z` is not |
| Scenarios.SeriesPagesShaped | static/test/javascripts/spec/common/onward/history.spec.js:181-218 | the six fixture pages are plain section pages whose sections are `a/series/b` twice, then `g/series/h`, `j/series/k`, `x/series/y` and `a/sport/z` |
| Scenarios.SeriesSummaryCounts | static/test/javascripts/spec/common/onward/history.spec.js:214-227 | after the six views of the fixture pages, or of any pages of their shape, the series summary holds exactly the four series, `a/series/b` at 2 and the others at 1 |
| Scenarios.TwiceViewedIsMostViewed | static/test/javascripts/spec/common/onward/history.spec.js:229-231 | a series summary with one series at two views and three at one has that series as its only most viewed |
| Scenarios.MostViewedIsTwiceViewed | static/test/javascripts/spec/common/onward/history.spec.js:214-231 | after the six views of the fixture pages, or of any pages of their shape, `a/series/b` is the one and only most viewed series |

## Left out

- Local storage and the `gu.history` key are not modelled. The two documents
  are fields of a value, and `reset` yields the empty value.
- `getHistory` and `getSummary` only read the stored documents, so the model
  has no separate member for them. The fixtures `contains` and `max` are not
  part of this model; `max` is stood for by any full log of 50 distinct
  pages.
- The current day, computed from `Date.now()`, is a parameter (`today`,
  `day`).
- Any weighting or decay that `getPopular` might apply beyond plain view
  counts is not modelled, because only its order is observable.
- `getPopular` returns tag ids only, not their display names.
- `Popular`, `Rank`, `Top` and `MostViewedSeries` pick from a set of keys.
  Their contracts say which answers are allowed. `RankingUnique` shows that
  the ranking is fully determined when stamps are distinct.
- Summaries.RetentionDays: the window's exact length is not modelled. The
  tests only bound it between 5 and 500 days, and the model proves its
  properties for every length in those bounds.
- Summaries.Delta: a day before `periodEnd` does not move the summary back.
  Reading an earlier day is not modelled as un-aging.
- Summaries.Bumped: an existing tag keeps its display name. A later page
  that names the tag differently does not rename it.
- Scenarios.LastInFirstOut and the other popularity and series scenarios
  start from `Empty(today)`, the summary an absent document stands for.
  They do not start from whatever the previous scenario left behind.
- Scenarios.KeepsFiftyLatest states the fixture's 51 pages as
  `Capacity + 1`, with `Capacity` equal to 50.
- Ranking.MostViewedSeries: a tie between series is broken by the ranking
  order, views then last logged, so the answer is unique
  (`Ranking.MostViewedUnique`). The tests exercise no tie.
