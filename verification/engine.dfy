/** The engine's state: the recent-visit log and the interest summary, as the
    two documents the browser's local storage would hold. */
module Engine {
  import opened Options
  import opened Pages
  import opened VisitLog
  import opened Summaries

  /** An absent summary document is `None`. */
  datatype Store = Store(history: seq<Visit>, summary: Option<Summary>)

  /** `reset`: forgets every visit and every interest. */
  function Reset(): (r: Store)
    ensures VisitLog.WellFormed(r.history) && |r.history| == 0
    ensures r.summary.None?
  {
    Store([], None)
  }

  /** After `reset` no page is a revisit, the first view of any page is the
      only log entry, and the first summary write starts a fresh summary on
      its own day. */
  lemma AfterReset(page: Page, day: int)
    ensures !IsRevisit(Reset().history, page.pageId)
    ensures LogHistory(Reset().history, page) == [Visit(page.pageId, 1)]
    ensures Load(Reset().summary, day) == Empty(day)
    ensures Prune(Load(Reset().summary, day), day) == Empty(day)
  {
    var e := Empty(day);
    assert Prune(e, day).tags == map[];
  }
}
