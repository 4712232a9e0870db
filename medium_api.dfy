/** The article source (`MediumAPI` in src/medium_api.py): searching,
    fetching article details, trending and latest feeds, the multi-keyword
    search that merges and orders results, and the language and relevance
    filters. The HTTP endpoints are the fields of `Endpoints`, each answering
    `None` where the request raises. */
module Medium {
  import opened Strings
  import opened Articles
  import opened ContentProcessor
  import opened Store

  // ---------------------------------------------------------------------
  // The remote API
  // ---------------------------------------------------------------------

  /** The article JSON as the API returns it; `None` is a missing key. */
  datatype RawInfo = RawInfo(
    title: Option<string>,
    subtitle: Option<string>,
    author: Option<string>,
    publishedAt: Stamp,
    url: Option<string>,
    tags: Option<seq<string>>,
    topics: Option<seq<string>>,
    claps: Option<int>,
    readingTime: Option<int>,
    imageUrl: Option<string>,
    lang: Option<string>)

  /** The endpoints: search ids for a query, article details, article
      content in a format (the value of its `markdown`/`html` key, "" when
      the key is missing), the top feed for a tag and mode, and the latest
      posts for a topic. */
  datatype Endpoints = Endpoints(
    search: string -> Option<seq<string>>,
    info: string -> Option<RawInfo>,
    content: (string, string) -> Option<string>,
    topfeeds: (string, string) -> Option<seq<string>>,
    latestposts: string -> Option<seq<string>>)

  /** The content of an article: markdown if non-empty, else HTML if
      non-empty, else none (the content and format keys stay absent). */
  function ContentOf(api: Endpoints, id: string): (r: (Option<string>, Option<string>))
    ensures r.0.Some? <==> r.1.Some?
    ensures r.1.Some? ==> r.1.value in {"markdown", "html"} && r.0.value != ""
    ensures Truthy(api.content(id, "markdown")) ==> r == (api.content(id, "markdown"), Some("markdown"))
  {
    var md := api.content(id, "markdown");
    if Truthy(md) then (md, Some("markdown"))
    else
      var html := api.content(id, "html");
      if Truthy(html) then (html, Some("html")) else (None, None)
  }

  /** The article dict `get_article_info` builds: every key present, with
      the documented defaults, plus the content keys when there is
      content. */
  function Project(id: string, raw: RawInfo, body: (Option<string>, Option<string>)): (a: Article)
    ensures a.id == id && !a.translated
    ensures a.lang == Some(OrElse(raw.lang, "en"))
    ensures a.title == Some(OrElse(raw.title, "")) && a.subtitle == Some(OrElse(raw.subtitle, ""))
    ensures a.publishedAt != NoStamp
    ensures a.content == body.0 && a.contentFormat == body.1
  {
    Article(id,
      Some(OrElse(raw.title, "")), Some(OrElse(raw.subtitle, "")),
      body.0, body.1,
      Some(OrElse(raw.author, "")), Some(OrElse(raw.url, "")), Some(OrElse(raw.imageUrl, "")), None,
      if raw.publishedAt == NoStamp then At("") else raw.publishedAt,
      Some(OrElse(raw.tags, [])), Some(OrElse(raw.topics, [])),
      Some(OrElse(raw.claps, 0)), Some(OrElse(raw.readingTime, 0)),
      Some(OrElse(raw.lang, "en")), false, None, None, None)
  }

  /** `get_article_info`: `None` when the details request fails. */
  function Info(api: Endpoints, id: string): (r: Option<Article>)
    ensures r.Some? ==> r.value.id == id && r.value.lang.Some?
    ensures r.None? <==> api.info(id).None?
  {
    match api.info(id)
    case None => None
    case Some(raw) => Some(Project(id, raw, ContentOf(api, id)))
  }

  /** How a feed marks the articles it returns. */
  datatype Mark = Plain | TrendingMark(mode: string, tag: string) | TopicMark(topic: string)

  function Marked(a: Article, mark: Mark): (r: Article)
    ensures r.id == a.id && r.title == a.title && r.subtitle == a.subtitle && r.content == a.content
    ensures mark.TrendingMark? ==> r.trendingType == Some(mark.mode) && r.trendingTag == Some(mark.tag)
    ensures mark.TopicMark? ==> r.topic == Some(mark.topic)
  {
    match mark
    case Plain => a
    case TrendingMark(mode, tag) => a.(trendingType := Some(mode), trendingTag := Some(tag))
    case TopicMark(topic) => a.(topic := Some(topic))
  }

  /** Fetch the details of each id in order, dropping failed fetches and,
      when `filtering`, denylisted articles; mark what is kept. */
  function Collect(api: Endpoints, ids: seq<string>, filtering: bool, mark: Mark): (r: seq<Article>)
    ensures |r| <= |ids|
  {
    if ids == [] then []
    else
      var init := Collect(api, ids[..|ids| - 1], filtering, mark);
      match Info(api, ids[|ids| - 1])
      case None => init
      case Some(a) => if filtering && Blocked(a) then init else init + [Marked(a, mark)]
  }

  /** Everything kept comes from the ids, passes the denylist when
      filtering, and carries the feed's mark. */
  lemma {:induction false} CollectSound(api: Endpoints, ids: seq<string>, filtering: bool, mark: Mark)
    ensures forall a :: a in Collect(api, ids, filtering, mark) ==> a.id in ids
    ensures filtering ==> forall a :: a in Collect(api, ids, filtering, mark) ==> !Blocked(a)
    ensures mark.TrendingMark? ==> forall a :: a in Collect(api, ids, filtering, mark) ==>
      a.trendingType == Some(mark.mode) && a.trendingTag == Some(mark.tag)
    ensures mark.TopicMark? ==> forall a :: a in Collect(api, ids, filtering, mark) ==> a.topic == Some(mark.topic)
    decreases |ids|
  {
    if ids != [] {
      var prefix := ids[..|ids| - 1];
      CollectSound(api, prefix, filtering, mark);
      var init := Collect(api, prefix, filtering, mark);
      assert forall x :: x in prefix ==> x in ids;
      var info := Info(api, ids[|ids| - 1]);
      if info.Some? && !(filtering && Blocked(info.value)) {
        var m := Marked(info.value, mark);
        assert Blocked(m) == Blocked(info.value) by {
          assert TitleText(m) == TitleText(info.value);
          assert SubtitleText(m) == SubtitleText(info.value);
          assert ContentHead(m) == ContentHead(info.value);
        }
        assert Collect(api, ids, filtering, mark) == init + [m];
        assert m.id == ids[|ids| - 1];
      } else {
        assert Collect(api, ids, filtering, mark) == init;
      }
    }
  }

  /** Nothing fetchable is lost: every id whose details arrive (and, when
      filtering, that passes the denylist) is in the result. */
  lemma {:induction false} CollectComplete(api: Endpoints, ids: seq<string>, filtering: bool, mark: Mark, k: nat)
    requires k < |ids| && Info(api, ids[k]).Some?
    requires !(filtering && Blocked(Info(api, ids[k]).value))
    ensures Marked(Info(api, ids[k]).value, mark) in Collect(api, ids, filtering, mark)
    decreases |ids|
  {
    if k < |ids| - 1 {
      assert ids[..|ids| - 1][k] == ids[k];
      CollectComplete(api, ids[..|ids| - 1], filtering, mark, k);
    }
  }

  /** The ids a search uses: the first `limit` results (Python slicing),
      none when the request fails. */
  function SearchIds(api: Endpoints, query: string, limit: int): (ids: seq<string>)
    ensures limit >= 0 ==> |ids| <= limit
  {
    match api.search(query)
    case None => []
    case Some(found) => PyPrefix(found, limit)
  }

  /** What `search_articles` returns. */
  function SearchResult(api: Endpoints, query: string, limit: int): seq<Article> {
    Collect(api, SearchIds(api, query, limit), true, Plain)
  }

  /** The ids a feed uses. */
  function FeedIds(feed: Option<seq<string>>, limit: int): (ids: seq<string>)
    ensures limit >= 0 ==> |ids| <= limit
  {
    match feed
    case None => []
    case Some(found) => PyPrefix(found, limit)
  }

  // ---------------------------------------------------------------------
  // Merging several searches
  // ---------------------------------------------------------------------

  /** Every id occurs once. */
  predicate DistinctIds(s: seq<Article>) {
    forall i, j :: 0 <= i < j < |s| ==> s[i].id != s[j].id
  }

  /** The ids of the articles in `s`. */
  function IdSet(s: seq<Article>): (r: set<string>)
    ensures forall i :: 0 <= i < |s| ==> s[i].id in r
    ensures forall x :: x in r ==> exists i :: 0 <= i < |s| && s[i].id == x
  {
    set i | 0 <= i < |s| :: s[i].id
  }

  lemma IdSetAppend(s: seq<Article>, x: Article)
    ensures IdSet(s + [x]) == IdSet(s) + {x.id}
  {
    var l := IdSet(s + [x]);
    forall y | y in l
      ensures y in IdSet(s) + {x.id}
    {
      var i :| 0 <= i < |s + [x]| && (s + [x])[i].id == y;
      if i < |s| {
        assert s[i].id == y;
      }
    }
    forall i | 0 <= i < |s|
      ensures s[i].id in l
    {
      assert (s + [x])[i] == s[i];
    }
    assert (s + [x])[|s|] == x;
  }

  /** Append the articles of `batch` whose id has not been seen, in order. */
  function Dedup(acc: seq<Article>, batch: seq<Article>): (r: seq<Article>)
    ensures |acc| <= |r| && r[..|acc|] == acc
    ensures forall i :: |acc| <= i < |r| ==> r[i] in batch
  {
    if batch == [] then acc
    else
      var d := Dedup(acc, batch[..|batch| - 1]);
      var x := batch[|batch| - 1];
      assert forall y :: y in batch[..|batch| - 1] ==> y in batch;
      if x.id in IdSet(d) then d
      else
        assert (d + [x])[..|d|] == d;
        assert forall i :: 0 <= i < |d| ==> (d + [x])[i] == d[i];
        d + [x]
  }

  /** Merging keeps ids distinct. */
  lemma {:induction false} DedupDistinct(acc: seq<Article>, batch: seq<Article>)
    requires DistinctIds(acc)
    ensures DistinctIds(Dedup(acc, batch))
    decreases |batch|
  {
    if batch != [] {
      var d := Dedup(acc, batch[..|batch| - 1]);
      DedupDistinct(acc, batch[..|batch| - 1]);
      var x := batch[|batch| - 1];
      if x.id !in IdSet(d) {
        var r := d + [x];
        forall i, j | 0 <= i < j < |r|
          ensures r[i].id != r[j].id
        {
          if j < |d| {
            assert r[i] == d[i] && r[j] == d[j];
          } else {
            assert r[i] == d[i] && r[j] == x;
          }
        }
      }
    }
  }

  /** Every id of the batch is held after merging. */
  lemma {:induction false} DedupCovers(acc: seq<Article>, batch: seq<Article>)
    ensures forall i :: 0 <= i < |batch| ==> batch[i].id in IdSet(Dedup(acc, batch))
    decreases |batch|
  {
    if batch != [] {
      var init := batch[..|batch| - 1];
      var d := Dedup(acc, init);
      DedupCovers(acc, init);
      var r := Dedup(acc, batch);
      forall i | 0 <= i < |batch|
        ensures batch[i].id in IdSet(r)
      {
        if i < |batch| - 1 {
          assert init[i] == batch[i];
          var k :| 0 <= k < |d| && d[k].id == batch[i].id;
          assert r[..|d|] == d || r == d;
          assert r[k] == d[k];
        } else if batch[i].id !in IdSet(d) {
          assert r[|d|] == batch[i];
        }
      }
    }
  }

  /** The first article of a batch with an unseen id is the one kept. */
  lemma {:induction false} DedupKeepsFirst(acc: seq<Article>, batch: seq<Article>, i: nat)
    requires i < |batch| && batch[i].id !in IdSet(acc)
    requires forall j :: 0 <= j < i ==> batch[j].id != batch[i].id
    ensures batch[i] in Dedup(acc, batch)
    decreases |batch|
  {
    var init := batch[..|batch| - 1];
    var d := Dedup(acc, init);
    if i < |batch| - 1 {
      assert init[i] == batch[i];
      DedupKeepsFirst(acc, init, i);
    } else {
      forall k | 0 <= k < |d|
        ensures d[k].id != batch[i].id
      {
        if k < |acc| {
          assert d[k] == acc[k];
        } else {
          assert d[k] in init;
          var j :| 0 <= j < |init| && init[j] == d[k];
          assert init[j] == batch[j];
        }
      }
    }
  }

  /** One keyword's search: the articles it yields and the requests it
      costs (one search plus one details request per id). */
  datatype Batch = Batch(articles: seq<Article>, cost: nat)

  function SearchBatch(api: Endpoints, keyword: string, max: int): (b: Batch)
    ensures b.articles == SearchResult(api, keyword, max)
    ensures b.cost == 1 + |SearchIds(api, keyword, max)|
  {
    Batch(SearchResult(api, keyword, max), 1 + |SearchIds(api, keyword, max)|)
  }

  /** The batch each keyword would yield, keyword by keyword. */
  function Batches(api: Endpoints, kws: seq<string>, max: int): (bs: seq<Batch>)
    ensures |bs| == |kws|
  {
    seq(|kws|, i requires 0 <= i < |kws| => SearchBatch(api, kws[i], max))
  }

  /** Batch `i` is keyword `i`'s search. */
  lemma BatchesAt(api: Endpoints, kws: seq<string>, max: int, i: nat)
    requires i < |kws|
    ensures Batches(api, kws, max)[i].articles == SearchResult(api, kws[i], max)
    ensures Batches(api, kws, max)[i].cost == 1 + |SearchIds(api, kws[i], max)|
  {
  }

  /** The loop of `search_articles_by_keywords` from batch `bs[0]` on, with
      the articles merged so far and the requests spent so far: no further
      keyword is searched once `max` articles are collected. */
  function Gather(bs: seq<Batch>, max: int, acc: seq<Article>, spent: nat): (r: (seq<Article>, nat))
    ensures |acc| <= |r.0| && spent <= r.1
    decreases |bs|
  {
    if bs == [] then (acc, spent)
    else
      var merged := Dedup(acc, bs[0].articles);
      var cost := spent + bs[0].cost;
      if |merged| >= max then (merged, cost)
      else Gather(bs[1..], max, merged, cost)
  }

  /** What the whole keyword search charges. */
  function KeywordSearchCost(api: Endpoints, kws: seq<string>, max: int): nat {
    Gather(Batches(api, kws, max), max, [], 0).1
  }

  /** The merged articles have distinct ids. */
  lemma {:induction false} GatherDistinct(bs: seq<Batch>, max: int, acc: seq<Article>, spent: nat)
    requires DistinctIds(acc)
    ensures DistinctIds(Gather(bs, max, acc, spent).0)
    decreases |bs|
  {
    if bs != [] {
      var merged := Dedup(acc, bs[0].articles);
      DedupDistinct(acc, bs[0].articles);
      if |merged| < max {
        GatherDistinct(bs[1..], max, merged, spent + bs[0].cost);
      }
    }
  }

  /** One step of the keyword loop. */
  lemma GatherStep(bs: seq<Batch>, max: int, acc: seq<Article>, spent: nat, merged: seq<Article>, cost: nat)
    requires bs != []
    requires merged == Dedup(acc, bs[0].articles)
    requires cost == spent + bs[0].cost
    ensures Gather(bs, max, acc, spent) ==
      if |merged| >= max then (merged, cost) else Gather(bs[1..], max, merged, cost)
  {
  }

  /** Where the keyword loop stands after `i` batches: either it stopped
      with the final result in hand, or the rest of the batches still lead
      to it. */
  ghost predicate Pending(bs: seq<Batch>, i: nat, max: int, stop: bool, acc: seq<Article>, spent: nat, target: (seq<Article>, nat)) {
    i <= |bs| &&
    (stop ==> target == (acc, spent)) &&
    (!stop ==> target == Gather(bs[i..], max, acc, spent))
  }

  /** One round of the keyword loop keeps it on course. */
  lemma PendingStep(bs: seq<Batch>, i: nat, max: int, acc: seq<Article>, spent: nat, target: (seq<Article>, nat), merged: seq<Article>, cost: nat)
    requires i < |bs| && Pending(bs, i, max, false, acc, spent, target)
    requires merged == Dedup(acc, bs[i].articles) && cost == spent + bs[i].cost
    ensures Pending(bs, i + 1, max, |merged| >= max, merged, cost, target)
  {
    assert bs[i..][0] == bs[i] && bs[i..][1..] == bs[i + 1..];
    GatherStep(bs[i..], max, acc, spent, merged, cost);
  }

  /** A loop that ran out of batches, or stopped, holds the result. */
  lemma PendingDone(bs: seq<Batch>, i: nat, max: int, stop: bool, acc: seq<Article>, spent: nat, target: (seq<Article>, nat))
    requires Pending(bs, i, max, stop, acc, spent, target)
    requires stop || i == |bs|
    ensures target == (acc, spent)
  {
    if !stop {
      assert bs[i..] == [];
    }
  }

  /** Once `max` articles are held the remaining keywords cost nothing. */
  lemma GatherStopsAtMax(bs: seq<Batch>, max: int, acc: seq<Article>, spent: nat)
    requires bs != [] && |Dedup(acc, bs[0].articles)| >= max
    ensures Gather(bs, max, acc, spent).1 == spent + bs[0].cost
  {
  }

  // ---------------------------------------------------------------------
  // Ordering by publication time
  // ---------------------------------------------------------------------

  /** Python string order `a <= b` (code point by code point). */
  predicate StrLe(a: string, b: string)
    decreases |a|
  {
    a == [] || (b != [] && (a[0] < b[0] || (a[0] == b[0] && StrLe(a[1..], b[1..]))))
  }

  lemma {:induction false} StrLeTotal(a: string, b: string)
    ensures StrLe(a, b) || StrLe(b, a)
    decreases |a|
  {
    if a != [] && b != [] && a[0] == b[0] {
      StrLeTotal(a[1..], b[1..]);
    }
  }

  lemma {:induction false} StrLeTrans(a: string, b: string, c: string)
    requires StrLe(a, b) && StrLe(b, c)
    ensures StrLe(a, c)
    decreases |a|
  {
    if a != [] && a[0] == b[0] && b[0] == c[0] {
      StrLeTrans(a[1..], b[1..], c[1..]);
    }
  }

  /** The sort key: the timestamp, "" when missing. (A `null` timestamp
      has no key: comparing it raises.) */
  function SortKey(a: Article): string {
    match a.publishedAt
    case At(s) => s
    case _ => ""
  }

  /** Newest first. */
  predicate NewestFirst(s: seq<Article>) {
    forall i, j :: 0 <= i < j < |s| ==> StrLe(SortKey(s[j]), SortKey(s[i]))
  }

  /** Insert `x` after every element whose key is at least its own. */
  function InsertByKey(s: seq<Article>, x: Article): (r: seq<Article>)
    ensures |r| == |s| + 1 && multiset(r) == multiset(s) + multiset{x}
  {
    if s == [] then [x]
    else
      var last := s[|s| - 1];
      assert s == s[..|s| - 1] + [last];
      if StrLe(SortKey(x), SortKey(last)) then s + [x]
      else InsertByKey(s[..|s| - 1], x) + [last]
  }

  /** Inserting into a newest-first list keeps it newest first. */
  lemma {:induction false} InsertByKeySorted(s: seq<Article>, x: Article)
    requires NewestFirst(s)
    ensures NewestFirst(InsertByKey(s, x))
    decreases |s|
  {
    if s != [] {
      var last := s[|s| - 1];
      var init := s[..|s| - 1];
      if StrLe(SortKey(x), SortKey(last)) {
        var r := s + [x];
        forall i, j | 0 <= i < j < |r|
          ensures StrLe(SortKey(r[j]), SortKey(r[i]))
        {
          if j == |s| && i < |s| - 1 {
            StrLeTrans(SortKey(x), SortKey(last), SortKey(s[i]));
          }
        }
      } else {
        StrLeTotal(SortKey(x), SortKey(last));
        InsertByKeySorted(init, x);
        var m := InsertByKey(init, x);
        var r := m + [last];
        forall i, j | 0 <= i < j < |r|
          ensures StrLe(SortKey(r[j]), SortKey(r[i]))
        {
          if j == |m| {
            assert r[i] == m[i] && m[i] in multiset(init) + multiset{x};
            if m[i] != x {
              assert m[i] in init;
              var k :| 0 <= k < |init| && init[k] == m[i];
              assert s[k] == m[i];
            }
          } else {
            assert r[i] == m[i] && r[j] == m[j];
          }
        }
      }
    }
  }

  /** The descending sort of `list.sort(key=..., reverse=True)`, built by
      insertion: a permutation, newest first (`SortIsNewestFirst`). */
  function SortNewestFirst(s: seq<Article>): (r: seq<Article>)
    ensures |r| == |s| && multiset(r) == multiset(s)
  {
    if s == [] then []
    else
      assert s == s[..|s| - 1] + [s[|s| - 1]];
      InsertByKey(SortNewestFirst(s[..|s| - 1]), s[|s| - 1])
  }

  /** The sort orders newest first. */
  lemma {:induction false} SortIsNewestFirst(s: seq<Article>)
    ensures NewestFirst(SortNewestFirst(s))
    decreases |s|
  {
    if s != [] {
      SortIsNewestFirst(s[..|s| - 1]);
      InsertByKeySorted(SortNewestFirst(s[..|s| - 1]), s[|s| - 1]);
    }
  }

  /** Inserting an article with a new id keeps ids distinct. */
  lemma {:induction false} InsertByKeyDistinct(s: seq<Article>, x: Article)
    requires DistinctIds(s) && forall k :: 0 <= k < |s| ==> s[k].id != x.id
    ensures DistinctIds(InsertByKey(s, x))
    decreases |s|
  {
    if s != [] {
      var last := s[|s| - 1];
      var init := s[..|s| - 1];
      if StrLe(SortKey(x), SortKey(last)) {
        var r := s + [x];
        forall i, j | 0 <= i < j < |r|
          ensures r[i].id != r[j].id
        {
          assert r[i] == s[i];
        }
      } else {
        InsertByKeyDistinct(init, x);
        var m := InsertByKey(init, x);
        var r := m + [last];
        forall i, j | 0 <= i < j < |r|
          ensures r[i].id != r[j].id
        {
          if j == |m| {
            assert r[i] == m[i] && m[i] in multiset(init) + multiset{x};
            if m[i] != x {
              assert m[i] in init;
              var k :| 0 <= k < |init| && init[k] == m[i];
              assert s[k] == m[i];
            }
          } else {
            assert r[i] == m[i] && r[j] == m[j];
          }
        }
      }
    }
  }

  /** Sorting keeps ids distinct. */
  lemma {:induction false} SortDistinct(s: seq<Article>)
    requires DistinctIds(s)
    ensures DistinctIds(SortNewestFirst(s))
    decreases |s|
  {
    if s != [] {
      var init := s[..|s| - 1];
      var x := s[|s| - 1];
      SortDistinct(init);
      var m := SortNewestFirst(init);
      forall k | 0 <= k < |m|
        ensures m[k].id != x.id
      {
        assert m[k] in multiset(init);
        var p :| 0 <= p < |init| && init[p] == m[k];
        assert s[p] == m[k];
      }
      InsertByKeyDistinct(m, x);
    }
  }

  /** Some article's timestamp is JSON `null`. */
  predicate HasNullStamp(s: seq<Article>) {
    exists i :: 0 <= i < |s| && s[i].publishedAt == NullStamp
  }

  /** What `search_articles_by_keywords` returns: the merged articles,
      newest first, cut to `max`; sorting raises when a timestamp is
      `null` and there are two or more articles to compare. */
  function KeywordSearch(api: Endpoints, kws: seq<string>, max: int): Result<seq<Article>> {
    SortAndCut(Gather(Batches(api, kws, max), max, [], 0).0, max)
  }

  /** The tail of `search_articles_by_keywords`: sort newest first (which
      raises on a `null` timestamp once two articles are compared) and keep
      the first `max`. */
  function SortAndCut(all: seq<Article>, max: int): Result<seq<Article>> {
    if |all| >= 2 && HasNullStamp(all) then Err("TypeError: cannot compare None with str")
    else Ok(PyPrefix(SortNewestFirst(all), max))
  }

  /** The merged result has distinct ids, at most `max` articles, and is
      newest first. */
  lemma KeywordSearchProperties(api: Endpoints, kws: seq<string>, max: int)
    ensures KeywordSearch(api, kws, max).Ok? ==>
      var r := KeywordSearch(api, kws, max).value;
      DistinctIds(r) && (max >= 0 ==> |r| <= max) && NewestFirst(r)
  {
    var all := Gather(Batches(api, kws, max), max, [], 0).0;
    var sorted := SortNewestFirst(all);
    GatherDistinct(Batches(api, kws, max), max, [], 0);
    SortDistinct(all);
    SortIsNewestFirst(all);
    var r := PyPrefix(sorted, max);
    assert r == sorted[..|r|];
  }

  // ---------------------------------------------------------------------
  // Pure filters
  // ---------------------------------------------------------------------

  /** The article's language, "en" when missing. */
  function LangOf(a: Article): string {
    OrElse(a.lang, "en")
  }

  /** Whether `filter_articles_by_language` keeps `a` for `language`
      (other than "both"). */
  predicate LanguageKeeps(language: string, a: Article) {
    (language == "pt" && (LangOf(a) == "pt" || LangOf(a) == "pt-BR")) ||
    (language == "en" && LangOf(a) == "en")
  }

  /** `filter_articles_by_language`. */
  function FilterByLanguage(articles: seq<Article>, language: string): (r: seq<Article>)
    ensures language == "both" ==> r == articles
    ensures language != "both" ==> forall i :: 0 <= i < |r| ==> LanguageKeeps(language, r[i])
    ensures language != "both" && language != "pt" && language != "en" ==> r == []
    ensures |r| <= |articles|
    ensures forall a :: a in r ==> a in articles
  {
    if language == "both" then articles
    else Kept(articles, language)
  }

  function Kept(articles: seq<Article>, language: string): (r: seq<Article>)
    ensures forall i :: 0 <= i < |r| ==> LanguageKeeps(language, r[i])
    ensures |r| <= |articles|
    ensures forall a :: a in r ==> a in articles
    ensures language != "pt" && language != "en" ==> r == []
  {
    if articles == [] then []
    else
      var init := Kept(articles[..|articles| - 1], language);
      var a := articles[|articles| - 1];
      assert forall x :: x in articles[..|articles| - 1] ==> x in articles;
      if LanguageKeeps(language, a) then init + [a] else init
  }

  /** Every article in the chosen language is kept. */
  lemma {:induction false} KeptComplete(articles: seq<Article>, language: string, k: nat)
    requires k < |articles| && LanguageKeeps(language, articles[k])
    ensures articles[k] in Kept(articles, language)
    decreases |articles|
  {
    if k < |articles| - 1 {
      assert articles[..|articles| - 1][k] == articles[k];
      KeptComplete(articles[..|articles| - 1], language, k);
    }
  }

  /** A keyword matches an article when, lower-cased, it occurs in the
      lower-cased title or subtitle, or equals a lower-cased tag or topic. */
  predicate KeywordMatches(a: Article, keyword: string) {
    var k := Lower(keyword);
    var tags := OrElse(a.tags, []);
    var topics := OrElse(a.topics, []);
    Contains(Lower(OrElse(a.title, "")), k) || Contains(Lower(OrElse(a.subtitle, "")), k) ||
    (exists j :: 0 <= j < |tags| && Lower(tags[j]) == k) ||
    (exists j :: 0 <= j < |topics| && Lower(topics[j]) == k)
  }

  /** `is_article_relevant`: scans the keywords in order. */
  function IsArticleRelevant(a: Article, keywords: seq<string>): (b: bool)
    ensures b <==> exists i :: 0 <= i < |keywords| && KeywordMatches(a, keywords[i])
    ensures keywords == [] ==> !b
  {
    if keywords == [] then false
    else if KeywordMatches(a, keywords[0]) then true
    else
      var rest := IsArticleRelevant(a, keywords[1..]);
      assert forall i :: 1 <= i < |keywords| ==> keywords[i] == keywords[1..][i - 1];
      rest
  }

  /** An empty keyword is relevant to every article. */
  lemma EmptyKeywordMatchesAll(a: Article)
    ensures IsArticleRelevant(a, [""])
  {
    assert OccursAt(Lower(OrElse(a.title, "")), "", 0);
    OccursContains(Lower(OrElse(a.title, "")), "", 0);
    assert KeywordMatches(a, [""][0]);
  }

  /** The merge loop: the `seen_ids` set mirrors the ids collected. */
  method MergeBatch(all: seq<Article>, seen: set<string>, batch: seq<Article>) returns (all': seq<Article>, seen': set<string>)
    requires seen == IdSet(all)
    ensures all' == Dedup(all, batch) && seen' == IdSet(all')
  {
    all', seen' := all, seen;
    for j := 0 to |batch|
      invariant all' == Dedup(all, batch[..j])
      invariant seen' == IdSet(all')
    {
      assert batch[..j + 1][..j] == batch[..j];
      if batch[j].id !in seen' {
        IdSetAppend(all', batch[j]);
        seen' := seen' + {batch[j].id};
        all' := all' + [batch[j]];
      }
    }
    assert batch[..|batch|] == batch;
  }

  /** Sort and cut the merged articles. */
  method Finish(all: seq<Article>, max: int) returns (r: Result<seq<Article>>)
    ensures r == SortAndCut(all, max)
  {
    var raises := SortRaises(all);
    if raises {
      return Err("TypeError: cannot compare None with str");
    }
    r := Ok(PyPrefix(SortNewestFirst(all), max));
  }

  /** Whether sorting raises: two or more articles, one with a `null`
      timestamp. */
  method SortRaises(all: seq<Article>) returns (raises: bool)
    ensures raises <==> |all| >= 2 && HasNullStamp(all)
  {
    if |all| < 2 {
      return false;
    }
    raises := false;
    for k := 0 to |all|
      invariant !raises
      invariant forall j :: 0 <= j < k ==> all[j].publishedAt != NullStamp
    {
      if all[k].publishedAt == NullStamp {
        return true;
      }
    }
  }

  // ---------------------------------------------------------------------
  // The client
  // ---------------------------------------------------------------------

  /** The client: the endpoints and the optional usage ledger it charges. */
  class MediumClient {
    const api: Endpoints
    const db: Database?

    constructor(api: Endpoints, db: Database?)
      ensures this.api == api && this.db == db
    {
      this.api := api;
      this.db := db;
    }

    /** The ledger, if any, has been charged `n` requests for `month` and
        nothing else in the store has changed. */
    twostate predicate Billed(month: string, n: nat)
      reads this, db
    {
      db != null ==>
        db.usage == Charged(old(db.usage), month, n) &&
        db.articles == old(db.articles) && db.syncLogs == old(db.syncLogs) && db.automation == old(db.automation)
    }

    /** One `increment_api_usage(1)`, when there is a ledger. */
    method ChargeOne(month: string)
      modifies db
      ensures Billed(month, 1)
    {
      if db != null {
        var _ := db.IncrementApiUsage(month, 1);
      }
    }

    /** `get_article_info`: one request charged, then the details. */
    method GetArticleInfo(id: string, month: string) returns (info: Option<Article>)
      modifies db
      ensures info == Info(api, id)
      ensures Billed(month, 1)
    {
      ChargeOne(month);
      info := Info(api, id);
    }

    /** Fetch the ids one by one, charging each, keeping what `Collect`
        keeps. */
    method CollectIds(ids: seq<string>, filtering: bool, mark: Mark, month: string) returns (articles: seq<Article>)
      modifies db
      ensures articles == Collect(api, ids, filtering, mark)
      ensures Billed(month, |ids|)
    {
      articles := [];
      for i := 0 to |ids|
        invariant articles == Collect(api, ids[..i], filtering, mark)
        invariant Billed(month, i)
      {
        assert ids[..i + 1][..i] == ids[..i];
        var info := GetArticleInfo(ids[i], month);
        if db != null {
          ChargedTwice(old(db.usage), month, i, 1);
        }
        if info.Some? {
          var blocked := false;
          if filtering {
            blocked := ShouldFilterArticle(info.value);
          }
          if !blocked {
            articles := articles + [Marked(info.value, mark)];
          }
        }
      }
      assert ids[..|ids|] == ids;
    }

    /** `search_articles`: one request for the search, then one per id. */
    method SearchArticles(query: string, limit: int, month: string) returns (articles: seq<Article>)
      modifies db
      ensures articles == SearchResult(api, query, limit)
      ensures Billed(month, 1 + |SearchIds(api, query, limit)|)
    {
      ChargeOne(month);
      var ids := SearchIds(api, query, limit);
      articles := CollectIds(ids, true, Plain, month);
      if db != null {
        ChargedTwice(old(db.usage), month, 1, |ids|);
      }
    }

    /** `get_trending_articles`: the feed request is not charged; kept
        articles carry the feed's mode and tag. */
    method GetTrendingArticles(tag: string, mode: string, limit: int, month: string) returns (articles: seq<Article>)
      modifies db
      ensures articles == Collect(api, FeedIds(api.topfeeds(tag, mode), limit), true, TrendingMark(mode, tag))
      ensures Billed(month, |FeedIds(api.topfeeds(tag, mode), limit)|)
    {
      var ids := FeedIds(api.topfeeds(tag, mode), limit);
      articles := CollectIds(ids, true, TrendingMark(mode, tag), month);
    }

    /** `get_latest_posts`: no denylist; kept articles carry the topic. */
    method GetLatestPosts(topic: string, limit: int, month: string) returns (articles: seq<Article>)
      modifies db
      ensures articles == Collect(api, FeedIds(api.latestposts(topic), limit), false, TopicMark(topic))
      ensures Billed(month, |FeedIds(api.latestposts(topic), limit)|)
    {
      var ids := FeedIds(api.latestposts(topic), limit);
      articles := CollectIds(ids, false, TopicMark(topic), month);
    }

    /** One keyword of `search_articles_by_keywords`: search it and merge
        the results; `spent'` adds what it charged to `spent`, charged
        on top of `ledger`. */
    method SearchStep(keyword: string, max: int, month: string, all: seq<Article>, seen: set<string>,
                      ghost ledger: map<string, Usage>, spent: nat)
      returns (all': seq<Article>, seen': set<string>, spent': nat)
      requires seen == IdSet(all)
      requires db != null ==> db.usage == Charged(ledger, month, spent)
      modifies db
      ensures all' == Dedup(all, SearchResult(api, keyword, max)) && seen' == IdSet(all')
      ensures spent' == spent + 1 + |SearchIds(api, keyword, max)|
      ensures Billed(month, spent' - spent)
      ensures db != null ==> db.usage == Charged(ledger, month, spent')
      ensures db != null ==> unchanged(db`articles, db`syncLogs, db`automation)
    {
      var batch := SearchArticles(keyword, max, month);
      all', seen' := MergeBatch(all, seen, batch);
      var cost := 1 + |SearchIds(api, keyword, max)|;
      ChargedTwice(ledger, month, spent, cost);
      spent' := spent + cost;
    }

    /** The keyword loop of `search_articles_by_keywords`: search keyword
        by keyword, merge by id, stop once `max` articles are held. */
    method GatherKeywords(keywords: seq<string>, max: int, month: string) returns (all: seq<Article>, spent: nat)
      modifies db
      ensures (all, spent) == Gather(Batches(api, keywords, max), max, [], 0)
      ensures Billed(month, spent)
    {
      all, spent := [], 0;
      var seen: set<string> := {};
      var i := 0;
      var stop := false;
      ghost var batches := Batches(api, keywords, max);
      ghost var target := Gather(batches, max, [], 0);
      ghost var ledger := if db != null then db.usage else map[];
      while i < |keywords| && !stop
        invariant seen == IdSet(all)
        invariant Pending(batches, i, max, stop, all, spent, target)
        invariant db != null ==> db.usage == Charged(ledger, month, spent)
        invariant db != null ==> unchanged(db`articles, db`syncLogs, db`automation)
      {
        ghost var all0, spent0 := all, spent;
        all, seen, spent := SearchStep(keywords[i], max, month, all, seen, ledger, spent);
        BatchesAt(api, keywords, max, i);
        PendingStep(batches, i, max, all0, spent0, target, all, spent);
        stop := |all| >= max;
        i := i + 1;
      }
      PendingDone(batches, i, max, stop, all, spent, target);
    }

    /** `search_articles_by_keywords`: the keyword loop, then order and
        cut. */
    method SearchArticlesByKeywords(keywords: seq<string>, max: int, month: string) returns (r: Result<seq<Article>>)
      modifies db
      ensures r == KeywordSearch(api, keywords, max)
      ensures Billed(month, KeywordSearchCost(api, keywords, max))
    {
      var all, spent := GatherKeywords(keywords, max, month);
      r := Finish(all, max);
    }
  }

  // ---------------------------------------------------------------------
  // Order of the language filter

  /** The filter on one article: kept exactly when its language matches. */
  lemma KeptSingle(a: Article, language: string)
    ensures Kept([a], language) == if LanguageKeeps(language, a) then [a] else []
  {
    assert [a][..0] == [];
  }

  /** The filter works article by article, in input order: filtering a
      concatenation concatenates the filtered parts. */
  lemma {:induction false} KeptConcat(xs: seq<Article>, ys: seq<Article>, language: string)
    ensures Kept(xs + ys, language) == Kept(xs, language) + Kept(ys, language)
    decreases |ys|
  {
    if ys == [] {
      assert xs + ys == xs;
    } else {
      var init := ys[..|ys| - 1];
      var y := ys[|ys| - 1];
      assert (xs + ys)[..|xs + ys| - 1] == xs + init;
      assert (xs + ys)[|xs + ys| - 1] == y;
      KeptConcat(xs, init, language);
    }
  }

  /** `filter_articles_by_language` keeps the input order for every
      language: it splits over concatenation and, on one article, keeps
      it exactly when the language is "both" or matches. */
  lemma FilterByLanguageInOrder(xs: seq<Article>, ys: seq<Article>, a: Article, language: string)
    ensures FilterByLanguage(xs + ys, language) == FilterByLanguage(xs, language) + FilterByLanguage(ys, language)
    ensures FilterByLanguage([a], language) == if language == "both" || LanguageKeeps(language, a) then [a] else []
  {
    KeptConcat(xs, ys, language);
    KeptSingle(a, language);
  }
}
