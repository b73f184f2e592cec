/** The recent-visit log: (pageId, count) pairs, most recently visited first,
    one entry per page, at most `Capacity` entries. */
module VisitLog {
  import opened Pages

  /** The log keeps this many of the most recently visited pages. */
  const Capacity: nat := 50

  datatype Visit = Visit(pageId: string, count: nat)

  /** `id` has an entry in the log. */
  predicate Logged(h: seq<Visit>, id: string)
  {
    exists i :: 0 <= i < |h| && h[i].pageId == id
  }

  /** No two entries are for the same page. */
  predicate UniqueIds(h: seq<Visit>)
  {
    forall i, j :: 0 <= i < j < |h| ==> h[i].pageId != h[j].pageId
  }

  /** The log invariant: one entry per page, every count at least one,
      within capacity. */
  predicate WellFormed(h: seq<Visit>)
  {
    && UniqueIds(h)
    && (forall i :: 0 <= i < |h| ==> h[i].count >= 1)
    && |h| <= Capacity
  }

  /** The count recorded for `id` by its first entry, 0 if it has none. */
  function CountOf(h: seq<Visit>, id: string): (c: nat)
    ensures c > 0 ==> Logged(h, id)
    ensures !Logged(h, id) ==> c == 0
    ensures Logged(h, id) ==> c == h[FirstIndex(h, id)].count
  {
    if h == [] then 0
    else if h[0].pageId == id then h[0].count
    else (LoggedTail(h, id); CountOf(h[1..], id))
  }

  /** An entry for `id` behind a newest entry for another page is in the tail. */
  lemma LoggedTail(h: seq<Visit>, id: string)
    requires h != [] && h[0].pageId != id
    ensures Logged(h, id) <==> Logged(h[1..], id)
  {
    if Logged(h, id) {
      var i :| 0 <= i < |h| && h[i].pageId == id;
      assert h[1..][i - 1].pageId == id;
    }
    if Logged(h[1..], id) {
      var i :| 0 <= i < |h[1..]| && h[1..][i].pageId == id;
      assert h[i + 1].pageId == id;
    }
  }

  /** The log without the entries of `id`, order kept. */
  function Remove(h: seq<Visit>, id: string): (r: seq<Visit>)
    ensures |r| <= |h|
    ensures forall v :: v in r <==> v in h && v.pageId != id
    ensures Logged(h, id) ==> |r| < |h|
    ensures UniqueIds(h) ==> UniqueIds(r)
  {
    if h == [] then []
    else if h[0].pageId == id then Remove(h[1..], id)
    else [h[0]] + Remove(h[1..], id)
  }

  /** Records a view of `page`: its entry moves to the front with its count
      raised by one (or is created with count 1), and the oldest entries
      beyond `Capacity` are evicted. */
  function LogHistory(h: seq<Visit>, page: Page): (r: seq<Visit>)
    ensures 1 <= |r| <= Capacity
    ensures r[0] == Visit(page.pageId, CountOf(h, page.pageId) + 1)
    ensures r[1..] <= Remove(h, page.pageId)
    ensures |r| == if |Remove(h, page.pageId)| < Capacity then |Remove(h, page.pageId)| + 1 else Capacity
  {
    var front := [Visit(page.pageId, CountOf(h, page.pageId) + 1)] + Remove(h, page.pageId);
    assert front[1..] == Remove(h, page.pageId);
    Take(front, Capacity)
  }

  /** A page has been revisited: some entry for it counts two or more views.
      In a log with one entry per page that is the page's recorded count. */
  predicate IsRevisit(h: seq<Visit>, id: string)
    ensures UniqueIds(h) ==> (IsRevisit(h, id) <==> CountOf(h, id) >= 2)
  {
    exists i :: 0 <= i < |h| && h[i].pageId == id && h[i].count >= 2
  }

  /** Logging keeps the log invariant. */
  lemma LogHistoryWellFormed(h: seq<Visit>, page: Page)
    requires WellFormed(h)
    ensures WellFormed(LogHistory(h, page))
  {
    var r := LogHistory(h, page);
    var rest := Remove(h, page.pageId);
    forall i, j | 0 <= i < j < |r|
      ensures r[i].pageId != r[j].pageId
    {
      assert r[j] == rest[j - 1];
      assert r[j] in rest;
      if i > 0 {
        assert r[i] == rest[i - 1];
      }
    }
    forall i | 0 <= i < |r|
      ensures r[i].count >= 1
    {
      if i > 0 {
        assert r[i] == rest[i - 1];
        assert r[i] in h;
      }
    }
  }

  /** A page already in the log ends up with one more view than before; a
      new page with exactly one. */
  lemma LogHistoryCount(h: seq<Visit>, page: Page)
    requires WellFormed(h)
    ensures Logged(h, page.pageId) ==> CountOf(LogHistory(h, page), page.pageId) >= 2
    ensures !Logged(h, page.pageId) ==> CountOf(LogHistory(h, page), page.pageId) == 1
  {
    if Logged(h, page.pageId) {
      var i :| 0 <= i < |h| && h[i].pageId == page.pageId;
      var k := FirstIndex(h, page.pageId);
      assert h[k].count >= 1;
    }
  }

  /** The position of the first entry for `id`. */
  function FirstIndex(h: seq<Visit>, id: string): (k: nat)
    requires Logged(h, id)
    ensures k < |h| && h[k].pageId == id
    ensures forall j :: 0 <= j < k ==> h[j].pageId != id
  {
    if h[0].pageId == id then 0 else 1 + FirstIndex(h[1..], id)
  }

  /** After a log of `page`, the page is a revisit exactly when it was in
      the log before. */
  lemma RevisitAfterLog(h: seq<Visit>, page: Page)
    requires WellFormed(h)
    ensures IsRevisit(LogHistory(h, page), page.pageId) <==> Logged(h, page.pageId)
  {
    var r := LogHistory(h, page);
    LogHistoryWellFormed(h, page);
    LogHistoryCount(h, page);
    if IsRevisit(r, page.pageId) {
      var i :| 0 <= i < |r| && r[i].pageId == page.pageId && r[i].count >= 2;
      assert i == 0;
    }
  }

  /** A full log stays full: logging any page keeps the length at `Capacity`.
      A page already in the log moves to the front and nothing is evicted; a
      new page evicts exactly the oldest entry. */
  lemma LogHistoryAtCapacity(h: seq<Visit>, page: Page)
    requires WellFormed(h) && |h| == Capacity
    ensures |LogHistory(h, page)| == Capacity
    ensures Logged(h, page.pageId) ==>
      var k := FirstIndex(h, page.pageId);
      LogHistory(h, page)[1..] == h[..k] + h[k + 1..]
    ensures !Logged(h, page.pageId) ==> LogHistory(h, page)[1..] == h[..Capacity - 1]
  {
    if Logged(h, page.pageId) {
      LoggedAtCapacity(h, page);
    } else {
      NewAtCapacity(h, page);
    }
  }

  /** `LogHistoryAtCapacity` for a page in the log. */
  lemma LoggedAtCapacity(h: seq<Visit>, page: Page)
    requires WellFormed(h) && |h| == Capacity && Logged(h, page.pageId)
    ensures |LogHistory(h, page)| == Capacity
    ensures var k := FirstIndex(h, page.pageId);
      LogHistory(h, page)[1..] == h[..k] + h[k + 1..]
  {
    LogLoggedPage(h, page);
  }

  /** `LogHistoryAtCapacity` for a page not in the log. */
  lemma NewAtCapacity(h: seq<Visit>, page: Page)
    requires |h| == Capacity && !Logged(h, page.pageId)
    ensures |LogHistory(h, page)| == Capacity
    ensures LogHistory(h, page)[1..] == h[..Capacity - 1]
  {
    RemoveAbsent(h, page.pageId);
  }

  /** Logging a page already in the log moves its entry to the front with one
      more view; every other entry keeps its order and nothing is evicted. */
  lemma LogLoggedPage(h: seq<Visit>, page: Page)
    requires WellFormed(h) && Logged(h, page.pageId)
    ensures var k := FirstIndex(h, page.pageId);
      LogHistory(h, page) == [Visit(page.pageId, h[k].count + 1)] + (h[..k] + h[k + 1..])
  {
    var k := FirstIndex(h, page.pageId);
    var rest := Remove(h, page.pageId);
    LoggedFront(h, page);
    RemoveAt(h, k);
    SameTail(LogHistory(h, page), Visit(page.pageId, h[k].count + 1), rest, h[..k] + h[k + 1..]);
  }

  /** Replacing the tail behind the newest entry by an equal one. */
  lemma SameTail(r: seq<Visit>, v: Visit, rest: seq<Visit>, rest': seq<Visit>)
    requires r == [v] + rest && rest == rest'
    ensures r == [v] + rest'
  {
  }

  /** For a page in the log, `LogHistory` truncates nothing. */
  lemma LoggedFront(h: seq<Visit>, page: Page)
    requires |h| <= Capacity && Logged(h, page.pageId)
    ensures var k := FirstIndex(h, page.pageId);
      LogHistory(h, page) == [Visit(page.pageId, h[k].count + 1)] + Remove(h, page.pageId)
  {
    var r := LogHistory(h, page);
    var rest := Remove(h, page.pageId);
    assert |rest| < Capacity;
    assert r[1..] == rest;
    assert r == [r[0]] + rest;
    assert r[0] == Visit(page.pageId, h[FirstIndex(h, page.pageId)].count + 1);
  }

  /** In a log with one entry per page, removing the page of entry `k` leaves
      the entries before and after it, in order. */
  lemma {:induction false} RemoveAt(h: seq<Visit>, k: nat)
    requires UniqueIds(h) && k < |h|
    ensures Remove(h, h[k].pageId) == h[..k] + h[k + 1..]
  {
    var id := h[k].pageId;
    UniqueTail(h);
    if k == 0 {
      assert !Logged(h[1..], id) by {
        forall i | 0 <= i < |h[1..]|
          ensures h[1..][i].pageId != id
        {
          assert h[1..][i] == h[i + 1];
        }
      }
      RemoveAbsent(h[1..], id);
    } else {
      assert h[0].pageId != id;
      assert h[1..][k - 1] == h[k];
      RemoveAt(h[1..], k - 1);
      SplitAround(h, k);
    }
  }

  /** Cutting out entry `k > 0` commutes with dropping the newest entry. */
  lemma SplitAround(h: seq<Visit>, k: nat)
    requires 0 < k < |h|
    ensures h[..k] + h[k + 1..] == [h[0]] + (h[1..][..k - 1] + h[1..][k..])
  {
    assert h[..k] == [h[0]] + h[1..][..k - 1];
    assert h[k + 1..] == h[1..][k..];
  }

  /** Dropping the newest entry keeps one entry per page. */
  lemma UniqueTail(h: seq<Visit>)
    requires UniqueIds(h) && h != []
    ensures UniqueIds(h[1..])
  {
    forall i, j | 0 <= i < j < |h[1..]|
      ensures h[1..][i].pageId != h[1..][j].pageId
    {
      assert h[1..][i] == h[i + 1] && h[1..][j] == h[j + 1];
    }
  }

  /** Removing a page from a log with one entry per page drops exactly one entry. */
  lemma {:induction false} RemovePresent(h: seq<Visit>, id: string)
    requires UniqueIds(h) && Logged(h, id)
    ensures |Remove(h, id)| == |h| - 1
  {
    if h[0].pageId == id {
      assert !Logged(h[1..], id) by {
        forall i | 0 <= i < |h[1..]|
          ensures h[1..][i].pageId != id
        {
          assert h[1..][i] == h[i + 1];
        }
      }
      RemoveAbsent(h[1..], id);
    } else {
      var i :| 0 <= i < |h| && h[i].pageId == id;
      assert h[1..][i - 1].pageId == id;
      RemovePresent(h[1..], id);
    }
  }

  /** Logging a page that is not in the log puts it in front with one view. */
  lemma LogNewPage(h: seq<Visit>, page: Page)
    requires !Logged(h, page.pageId)
    ensures LogHistory(h, page) == Take([Visit(page.pageId, 1)] + h, Capacity)
  {
    NewFront(h, page.pageId);
  }

  /** The entry list `LogHistory` truncates, for a page not in the log. */
  lemma NewFront(h: seq<Visit>, id: string)
    requires !Logged(h, id)
    ensures [Visit(id, CountOf(h, id) + 1)] + Remove(h, id) == [Visit(id, 1)] + h
  {
    RemoveAbsent(h, id);
    assert CountOf(h, id) + 1 == 1;
  }

  /** Removing a page that is not in the log changes nothing. */
  lemma {:induction false} RemoveAbsent(h: seq<Visit>, id: string)
    requires !Logged(h, id)
    ensures Remove(h, id) == h
  {
    if h != [] {
      RemoveAbsent(h[1..], id);
    }
  }

  /** Logs the page views of `pages` in order, starting from `h`. */
  function LogAll(h: seq<Visit>, pages: seq<Page>): seq<Visit>
    decreases |pages|
  {
    if pages == [] then h else LogHistory(LogAll(h, pages[..|pages| - 1]), pages[|pages| - 1])
  }

  /** The ids of `pages`, most recent first, each with one view. */
  function FirstVisits(pages: seq<Page>): (r: seq<Visit>)
    ensures |r| == |pages|
    ensures forall i :: 0 <= i < |r| ==> r[i] == Visit(pages[|pages| - 1 - i].pageId, 1)
  {
    if pages == [] then [] else [Visit(pages[|pages| - 1].pageId, 1)] + FirstVisits(pages[..|pages| - 1])
  }

  /** Every page of `pages` is a different page. */
  predicate DistinctPages(pages: seq<Page>)
  {
    forall i, j :: 0 <= i < j < |pages| ==> pages[i].pageId != pages[j].pageId
  }

  /** The first `n` entries of `h`, or all of them when there are fewer. */
  function Take(h: seq<Visit>, n: nat): (r: seq<Visit>)
    ensures r <= h && |r| == if |h| <= n then |h| else n
  {
    if |h| <= n then h else h[..n]
  }

  /** The log is a recency cache: after views of distinct pages on an empty
      log, it holds the last `Capacity` of them, newest first, once each. */
  lemma {:induction false} LogAllKeepsMostRecent(pages: seq<Page>)
    requires DistinctPages(pages)
    ensures LogAll([], pages) == Take(FirstVisits(pages), Capacity)
    decreases |pages|
  {
    if pages != [] {
      var init := pages[..|pages| - 1];
      var p := pages[|pages| - 1];
      var prev := LogAll([], init);
      LogAllKeepsMostRecent(init);
      var all := FirstVisits(init);
      assert LogAll([], pages) == LogHistory(prev, p);
      NewPageNotLogged(pages);
      LogNewPage(prev, p);
      TakeCons(Visit(p.pageId, 1), all, Capacity);
      assert FirstVisits(pages) == [Visit(p.pageId, 1)] + all;
    }
  }

  /** The newest of distinct pages is not among the visits of the older ones. */
  lemma NewPageNotLogged(pages: seq<Page>)
    requires DistinctPages(pages) && pages != []
    ensures !Logged(Take(FirstVisits(pages[..|pages| - 1]), Capacity), pages[|pages| - 1].pageId)
  {
  }

  /** Truncating before and after adding a front entry agree. */
  lemma TakeCons(v: Visit, h: seq<Visit>, n: nat)
    requires n >= 1
    ensures Take([v] + Take(h, n), n) == Take([v] + h, n)
  {
    if |h| > n {
      assert ([v] + h[..n])[..n] == ([v] + h)[..n];
    }
  }
}
