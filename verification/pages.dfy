/** Page metadata and the interest tags a page view contributes. */
module Pages {
  import opened Text

  /** The metadata of a page view. Every list field is comma-separated and an
      absent field is the empty string; the `*Ids` lists are positionally
      aligned with their display-name lists. */
  datatype Page = Page(
    pageId: string,
    section: string,
    sectionName: string,
    keywordIds: string,
    keywords: string,
    seriesId: string,
    series: string,
    authorIds: string,
    author: string)

  /** An interest tag: its id (the aggregation key) and its display name. */
  datatype Tag = Tag(id: string, name: string)

  /** The four (id, name) field pairs in the order the summary visits them:
      the section as it stands, then the first item of the keyword, series
      and author lists. */
  function Candidates(p: Page): seq<Tag>
  {
    [ Tag(p.section, p.sectionName),
      Tag(FirstOfList(p.keywordIds), FirstOfList(p.keywords)),
      Tag(FirstOfList(p.seriesId), FirstOfList(p.series)),
      Tag(FirstOfList(p.authorIds), FirstOfList(p.author)) ]
  }

  /** The ids of a tag sequence, as a set. */
  function IdSet(ts: seq<Tag>): set<string>
  {
    set i | 0 <= i < |ts| :: ts[i].id
  }

  /** No two tags of `ts` share an id. */
  predicate DistinctIds(ts: seq<Tag>)
  {
    forall i, j :: 0 <= i < j < |ts| ==> ts[i].id != ts[j].id
  }

  /** `ts` without the tags whose id is `id`, order kept. */
  function Without(ts: seq<Tag>, id: string): (r: seq<Tag>)
    ensures |r| <= |ts|
    ensures forall t :: t in r <==> t in ts && t.id != id
    ensures IdSet(r) == IdSet(ts) - {id}
    ensures DistinctIds(ts) ==> DistinctIds(r)
  {
    if ts == [] then []
    else if ts[0].id == id then Without(ts[1..], id)
    else [ts[0]] + Without(ts[1..], id)
  }

  /** The position of the first tag of `ts` whose id is `id`; `|ts|` when
      no tag has that id. */
  function FirstPos(ts: seq<Tag>, id: string): (k: nat)
    ensures k <= |ts|
    ensures k < |ts| ==> ts[k].id == id
    ensures forall j :: 0 <= j < k ==> ts[j].id != id
    decreases |ts|
  {
    if ts == [] then 0
    else if ts[0].id == id then 0
    else 1 + FirstPos(ts[1..], id)
  }

  /** Every tag of `r` is the first tag of `ts` with its id, and `r` lists
      them in the order those first occurrences have in `ts`. */
  predicate FirstsInOrder(r: seq<Tag>, ts: seq<Tag>)
  {
    && (forall i :: 0 <= i < |r| ==> FirstPos(ts, r[i].id) < |ts| && ts[FirstPos(ts, r[i].id)] == r[i])
    && (forall i, j :: 0 <= i < j < |r| ==> FirstPos(ts, r[i].id) < FirstPos(ts, r[j].id))
  }

  /** Keeps the first tag of every non-empty id, dropping empty ids and
      later repeats, so that one page view counts at most once per tag. */
  function KeepFirst(ts: seq<Tag>): (r: seq<Tag>)
    ensures forall t :: t in r ==> t in ts && t.id != ""
    ensures DistinctIds(r)
    ensures IdSet(r) == IdSet(ts) - {""}
    decreases |ts|
  {
    if ts == [] then []
    else if ts[0].id == "" then KeepFirst(ts[1..])
    else
      var rest := KeepFirst(Without(ts[1..], ts[0].id));
      IdSetCons(ts);
      IdSetCons([ts[0]] + rest);
      assert ([ts[0]] + rest)[1..] == rest;
      [ts[0]] + rest
  }

  /** `KeepFirst` keeps, for each id, the first tag carrying it, and keeps
      those tags in the order they come in `ts`. */
  lemma {:induction false} KeepFirstInOrder(ts: seq<Tag>)
    ensures FirstsInOrder(KeepFirst(ts), ts)
    decreases |ts|
  {
    if ts != [] {
      if ts[0].id == "" {
        KeepFirstInOrder(ts[1..]);
        FirstsShift(KeepFirst(ts[1..]), ts);
      } else {
        var w := Without(ts[1..], ts[0].id);
        var rest := KeepFirst(w);
        KeepFirstInOrder(w);
        WithoutFirsts(rest, ts[1..], ts[0].id);
        FirstsShift(rest, ts);
      }
    }
  }

  /** Past a head with another id, the first occurrence of `y` is one
      further on than in the tail. */
  lemma FirstPosTail(ts: seq<Tag>, y: string)
    requires ts != [] && ts[0].id != y
    ensures FirstPos(ts, y) == 1 + FirstPos(ts[1..], y)
    ensures FirstPos(ts, y) < |ts| ==> ts[FirstPos(ts, y)] == ts[1..][FirstPos(ts[1..], y)]
  {
  }

  /** First occurrences in the tail of `ts`, of ids other than its head's,
      are first occurrences in `ts`; the head can go in front of them. */
  lemma FirstsShift(r: seq<Tag>, ts: seq<Tag>)
    requires ts != [] && FirstsInOrder(r, ts[1..])
    requires forall i :: 0 <= i < |r| ==> r[i].id != ts[0].id
    ensures FirstsInOrder(r, ts)
    ensures FirstsInOrder([ts[0]] + r, ts)
  {
    forall i | 0 <= i < |r|
      ensures FirstPos(ts, r[i].id) < |ts| && ts[FirstPos(ts, r[i].id)] == r[i]
      ensures FirstPos(ts, r[i].id) == 1 + FirstPos(ts[1..], r[i].id)
    {
      FirstPosTail(ts, r[i].id);
    }
    var r2 := [ts[0]] + r;
    forall i | 0 < i < |r2|
      ensures r2[i] == r[i - 1]
    {
    }
  }

  /** First occurrences in `ts` without `x`, of ids other than `x`, are
      first occurrences in `ts`, in the same order. */
  lemma WithoutFirsts(r: seq<Tag>, ts: seq<Tag>, x: string)
    requires FirstsInOrder(r, Without(ts, x))
    requires forall t :: t in r ==> t.id != x
    ensures FirstsInOrder(r, ts)
  {
    forall i, j | 0 <= i < |r| && 0 <= j < |r|
      ensures FirstPos(ts, r[i].id) < |ts| && ts[FirstPos(ts, r[i].id)] == r[i]
      ensures i < j ==> FirstPos(ts, r[i].id) < FirstPos(ts, r[j].id)
    {
      WithoutFirstTag(ts, x, r[i].id);
      if i < j {
        WithoutFirstOrder(ts, x, r[i].id, r[j].id);
      }
    }
  }

  /** Dropping the tags of `x` keeps, for any other id, whether it occurs
      and which of its tags comes first. */
  lemma {:induction false} WithoutFirstTag(ts: seq<Tag>, x: string, y: string)
    requires y != x
    ensures FirstPos(Without(ts, x), y) < |Without(ts, x)| <==> FirstPos(ts, y) < |ts|
    ensures FirstPos(Without(ts, x), y) < |Without(ts, x)| ==>
      Without(ts, x)[FirstPos(Without(ts, x), y)] == ts[FirstPos(ts, y)]
    decreases |ts|
  {
    if ts != [] && ts[0].id != y {
      var w := Without(ts[1..], x);
      WithoutFirstTag(ts[1..], x, y);
      if ts[0].id != x {
        var wx := [ts[0]] + w;
        assert Without(ts, x) == wx;
        assert wx[1..] == w;
        assert FirstPos(wx, y) == 1 + FirstPos(w, y);
      }
    }
  }

  /** Dropping the tags of `x` keeps the order of the first occurrences of
      any two other ids. */
  lemma {:induction false} WithoutFirstOrder(ts: seq<Tag>, x: string, y: string, z: string)
    requires y != x && z != x
    requires FirstPos(Without(ts, x), y) < FirstPos(Without(ts, x), z)
    ensures FirstPos(ts, y) < FirstPos(ts, z)
    decreases |ts|
  {
    var w := Without(ts[1..], x);
    if ts[0].id == x {
      WithoutFirstOrder(ts[1..], x, y, z);
    } else if ts[0].id != y {
      var wx := [ts[0]] + w;
      assert Without(ts, x) == wx;
      assert wx[1..] == w;
      WithoutFirstOrder(ts[1..], x, y, z);
    }
  }

  /** The ids of a non-empty sequence: its head's and its tail's. */
  lemma IdSetCons(ts: seq<Tag>)
    requires ts != []
    ensures IdSet(ts) == {ts[0].id} + IdSet(ts[1..])
  {
    forall x | x in IdSet(ts)
      ensures x in {ts[0].id} + IdSet(ts[1..])
    {
      var i :| 0 <= i < |ts| && ts[i].id == x;
      if i > 0 {
        assert ts[1..][i - 1] == ts[i];
      }
    }
  }

  /** The tags a page view is counted under, in section, keyword, series,
      author order. */
  function ExtractTags(p: Page): (r: seq<Tag>)
    ensures DistinctIds(r)
    ensures forall t :: t in r ==> t in Candidates(p) && t.id != ""
    ensures IdSet(r) == IdSet(Candidates(p)) - {""}
  {
    KeepFirst(Candidates(p))
  }

  /** A page's tags come in candidate order, each the first candidate with
      its id: a repeated id keeps the name of its earliest field. */
  lemma ExtractTagsInOrder(p: Page)
    ensures FirstsInOrder(ExtractTags(p), Candidates(p))
  {
    KeepFirstInOrder(Candidates(p));
  }

  /** When the candidate ids are non-empty and distinct, every one of them is
      a tag of the page, in order and with its name. */
  lemma {:induction false} KeepFirstDistinct(ts: seq<Tag>)
    requires DistinctIds(ts)
    requires forall i :: 0 <= i < |ts| ==> ts[i].id != ""
    ensures KeepFirst(ts) == ts
    decreases |ts|
  {
    if ts != [] {
      assert Without(ts[1..], ts[0].id) == ts[1..] by {
        WithoutAbsent(ts[1..], ts[0].id);
      }
      KeepFirstDistinct(ts[1..]);
    }
  }

  /** Removing an id that does not occur changes nothing. */
  lemma {:induction false} WithoutAbsent(ts: seq<Tag>, id: string)
    requires forall i :: 0 <= i < |ts| ==> ts[i].id != id
    ensures Without(ts, id) == ts
  {
    if ts != [] {
      WithoutAbsent(ts[1..], id);
    }
  }
}
