/** The local store (`Database` in src/database.py): published articles,
    the monthly API usage ledger, the sync log and the automation switch.
    The SQL tables are in-memory sequences and maps; the clock is a
    parameter (`month` is the current "YYYY-MM", `now` the current time). */
module Store {
  import opened Articles

  // ---------------------------------------------------------------------
  // Rows
  // ---------------------------------------------------------------------

  /** A published-article row. Columns the model does not use (the
      integer key and the creation time) are left out. */
  datatype Row = Row(
    mediumId: string,
    title: string,
    subtitle: string,
    content: string,
    author: string,
    imageUrl: string,
    url: string,
    tags: seq<string>,
    wordpressId: Option<int>,
    wordpressUrl: Option<string>,
    syncedAt: Option<string>)

  /** What the WordPress client returns for a created post. */
  datatype WpPost = WpPost(id: int, link: string, status: string)

  /** The monthly usage record. */
  datatype Usage = Usage(used: int, limit: int)

  /** A sync-log row. */
  datatype SyncLog = SyncLog(status: string, found: int, synced: int, skipped: int, errors: Option<string>)

  /** The record a month starts with. */
  const SeedUsed := 126
  const DefaultLimit := 2500
  const Seed := Usage(SeedUsed, DefaultLimit)

  /** Requests always kept in reserve. */
  const SafetyMargin := 100

  /** At most one row per source article. */
  predicate UniqueIds(rows: seq<Row>) {
    forall i, j :: 0 <= i < j < |rows| ==> rows[i].mediumId != rows[j].mediumId
  }

  /** The position of the row for `id`, if any (the first; with unique
      ids, the only one). */
  function IndexOf(rows: seq<Row>, id: string): (r: Option<nat>)
    ensures r.Some? ==> r.value < |rows| && rows[r.value].mediumId == id
    ensures r.Some? ==> forall k :: 0 <= k < r.value ==> rows[k].mediumId != id
    ensures r.None? <==> forall k :: 0 <= k < |rows| ==> rows[k].mediumId != id
  {
    if rows == [] then None
    else if rows[0].mediumId == id then Some(0)
    else match IndexOf(rows[1..], id)
      case None => None
      case Some(k) => Some(k + 1)
  }

  /** A new row: absent keys default to the empty string or list. */
  function NewRow(a: Article, wp: Option<WpPost>, now: string): (r: Row)
    ensures r.mediumId == a.id
    ensures r.title == OrElse(a.title, "") && r.content == OrElse(a.content, "")
    ensures r.tags == OrElse(a.tags, [])
    ensures wp.None? ==> r.wordpressId.None? && r.wordpressUrl.None? && r.syncedAt.None?
    ensures wp.Some? ==> r.wordpressId == Some(wp.value.id) && r.wordpressUrl == Some(wp.value.link) && r.syncedAt == Some(now)
  {
    Row(a.id, OrElse(a.title, ""), OrElse(a.subtitle, ""), OrElse(a.content, ""),
      OrElse(a.author, ""), OrElse(a.imageUrl, ""), OrElse(a.url, ""), OrElse(a.tags, []),
      if wp.Some? then Some(wp.value.id) else None,
      if wp.Some? then Some(wp.value.link) else None,
      if wp.Some? then Some(now) else None)
  }

  /** An existing row after an update: only title, subtitle, content and
      tags change, each keeping its old value when the key is absent; the
      WordPress columns change only when a post is given. */
  function UpdatedRow(old_: Row, a: Article, wp: Option<WpPost>, now: string): (r: Row)
    ensures r.mediumId == old_.mediumId
    ensures r.author == old_.author && r.imageUrl == old_.imageUrl && r.url == old_.url
    ensures a.title.None? ==> r.title == old_.title
    ensures a.title.Some? ==> r.title == a.title.value
    ensures a.subtitle.None? ==> r.subtitle == old_.subtitle
    ensures a.subtitle.Some? ==> r.subtitle == a.subtitle.value
    ensures a.content.None? ==> r.content == old_.content
    ensures a.content.Some? ==> r.content == a.content.value
    ensures a.tags.None? ==> r.tags == old_.tags
    ensures a.tags.Some? ==> r.tags == a.tags.value
    ensures wp.None? ==> r.wordpressId == old_.wordpressId && r.wordpressUrl == old_.wordpressUrl && r.syncedAt == old_.syncedAt
    ensures wp.Some? ==> r.wordpressId == Some(wp.value.id) && r.wordpressUrl == Some(wp.value.link) && r.syncedAt == Some(now)
  {
    var r := old_.(title := OrElse(a.title, old_.title),
                   subtitle := OrElse(a.subtitle, old_.subtitle),
                   content := OrElse(a.content, old_.content),
                   tags := OrElse(a.tags, old_.tags));
    if wp.Some? then r.(wordpressId := Some(wp.value.id), wordpressUrl := Some(wp.value.link), syncedAt := Some(now))
    else r
  }

  /** The table after `save_article`: update the row for the id in place,
      or append a new one. */
  function Upsert(rows: seq<Row>, a: Article, wp: Option<WpPost>, now: string): (r: seq<Row>)
    ensures IndexOf(rows, a.id).Some? ==> |r| == |rows|
    ensures IndexOf(rows, a.id).None? ==> |r| == |rows| + 1
  {
    match IndexOf(rows, a.id)
    case Some(i) => rows[i := UpdatedRow(rows[i], a, wp, now)]
    case None => rows + [NewRow(a, wp, now)]
  }

  /** The upsert keeps ids unique, leaves a row for the saved id, leaves
      every other article's row as it was, and adds a row exactly when the
      id was not stored yet. */
  lemma UpsertProperties(rows: seq<Row>, a: Article, wp: Option<WpPost>, now: string)
    requires UniqueIds(rows)
    ensures var r := Upsert(rows, a, wp, now);
      UniqueIds(r) &&
      (exists k :: 0 <= k < |r| && r[k].mediumId == a.id) &&
      (forall k :: 0 <= k < |rows| && rows[k].mediumId != a.id ==> r[k] == rows[k]) &&
      ((exists k :: 0 <= k < |rows| && rows[k].mediumId == a.id) <==> |r| == |rows|)
  {
    var r := Upsert(rows, a, wp, now);
    match IndexOf(rows, a.id)
    case Some(i) =>
      assert r[i].mediumId == a.id;
    case None =>
      assert r[|rows|].mediumId == a.id;
  }

  /** Python `remaining = limit - used`. */
  function Remaining(u: Usage): int {
    u.limit - u.used
  }

  /** The gate of `can_make_api_request`: strictly more than the needed
      requests plus the safety margin must remain. */
  predicate BudgetAllows(u: Usage, needed: int) {
    Remaining(u) > needed + SafetyMargin
  }

  /** The record a month has, created on first use. */
  function Current(usage: map<string, Usage>, month: string): (u: Usage)
    ensures month !in usage ==> u == Seed
    ensures month in usage ==> u == usage[month]
  {
    if month in usage then usage[month] else Seed
  }

  /** The ledger after `increment_api_usage(count)`. */
  function Incremented(usage: map<string, Usage>, month: string, count: int): (r: map<string, Usage>)
    ensures month in r && r[month].used == Current(usage, month).used + count
    ensures r[month].limit == Current(usage, month).limit
    ensures r.Keys == usage.Keys + {month}
    ensures forall m :: m in usage && m != month ==> r[m] == usage[m]
  {
    var u := Current(usage, month);
    usage[month := u.(used := u.used + count)]
  }

  /** Two increments of the same month add up. */
  lemma IncrementedTwice(usage: map<string, Usage>, month: string, a: int, b: int)
    ensures Incremented(Incremented(usage, month, a), month, b) == Incremented(usage, month, a + b)
  {
    var l := Incremented(Incremented(usage, month, a), month, b);
    var r := Incremented(usage, month, a + b);
    assert l.Keys == r.Keys;
    forall m | m in l
      ensures l[m] == r[m]
    {
    }
  }

  /** The ledger after `n` single-request increments: unchanged when
      `n` is zero (no record is created then). */
  function Charged(usage: map<string, Usage>, month: string, n: nat): (r: map<string, Usage>)
    ensures n == 0 ==> r == usage
    ensures n > 0 ==> r == Incremented(usage, month, n)
  {
    if n == 0 then usage else Incremented(usage, month, n)
  }

  /** Charges add up. */
  lemma ChargedTwice(usage: map<string, Usage>, month: string, a: nat, b: nat)
    ensures Charged(Charged(usage, month, a), month, b) == Charged(usage, month, a + b)
  {
    if a > 0 && b > 0 {
      IncrementedTwice(usage, month, a, b);
    }
  }

  /** A fresh month counts from 126, against a limit of 2500. */
  lemma IncrementFreshMonth(usage: map<string, Usage>, month: string, count: int)
    requires month !in usage
    ensures Incremented(usage, month, count)[month] == Usage(126 + count, 2500)
  {
  }

  /** For a non-negative count the counter never goes down, and a budget
      that is exhausted stays exhausted. */
  lemma IncrementMonotone(usage: map<string, Usage>, month: string, count: int, needed: int)
    requires count >= 0
    ensures Incremented(usage, month, count)[month].used >= Current(usage, month).used
    ensures BudgetAllows(Current(Incremented(usage, month, count), month), needed) ==>
      BudgetAllows(Current(usage, month), needed)
  {
  }

  /** With the default limit, 2450 used refuses a single request and 2300
      used allows it. */
  lemma BudgetExamples()
    ensures !BudgetAllows(Usage(2450, 2500), 1)
    ensures BudgetAllows(Usage(2300, 2500), 1)
  {
  }

  /** The status a sync log gets: "success" exactly when there is no
      error text. */
  function LogStatus(errors: Option<string>): (s: string)
    ensures s == "success" <==> !Truthy(errors)
    ensures s == "error" <==> Truthy(errors)
  {
    if Truthy(errors) then "error" else "success"
  }

  /** The store, with each table a field the methods update in place. */
  class Database {
    var articles: seq<Row>
    var usage: map<string, Usage>
    var syncLogs: seq<SyncLog>
    /** The automation-settings singleton, absent until first used. */
    var automation: Option<bool>

    ghost predicate Valid()
      reads this
    {
      UniqueIds(articles)
    }

    /** A fresh database: every table empty. */
    constructor()
      ensures Valid()
      ensures articles == [] && usage == map[] && syncLogs == [] && automation == None
    {
      articles := [];
      usage := map[];
      syncLogs := [];
      automation := None;
    }

    /** `get_api_usage`: the current month's record, created with the
        seed values if missing. */
    method GetApiUsage(month: string) returns (u: Usage)
      modifies this
      ensures usage == old(usage)[month := Current(old(usage), month)]
      ensures u == Current(old(usage), month)
      ensures articles == old(articles) && syncLogs == old(syncLogs) && automation == old(automation)
    {
      if month !in usage {
        usage := usage[month := Seed];
      }
      u := usage[month];
    }

    /** `increment_api_usage(count)`: adds `count` to the current month,
        creating the record first if needed. */
    method IncrementApiUsage(month: string, count: int) returns (u: Usage)
      modifies this
      ensures usage == Incremented(old(usage), month, count)
      ensures u == usage[month]
      ensures articles == old(articles) && syncLogs == old(syncLogs) && automation == old(automation)
    {
      var current := Seed;
      if month in usage {
        current := usage[month];
      }
      u := current.(used := current.used + count);
      usage := usage[month := u];
    }

    /** `can_make_api_request(needed)`: reads (and so creates) the current
        month's record and applies the budget gate. */
    method CanMakeApiRequest(month: string, needed: int) returns (ok: bool)
      modifies this
      ensures ok <==> BudgetAllows(Current(old(usage), month), needed)
      ensures usage == old(usage)[month := Current(old(usage), month)]
      ensures articles == old(articles) && syncLogs == old(syncLogs) && automation == old(automation)
    {
      var u := GetApiUsage(month);
      var remaining := u.limit - u.used;
      ok := remaining > needed + SafetyMargin;
    }

    /** `article_exists`: a row for the id is stored. */
    method ArticleExists(id: string) returns (b: bool)
      ensures b <==> exists k :: 0 <= k < |articles| && articles[k].mediumId == id
    {
      b := false;
      for k := 0 to |articles|
        invariant !b
        invariant forall j :: 0 <= j < k ==> articles[j].mediumId != id
      {
        if articles[k].mediumId == id {
          return true;
        }
      }
    }

    /** `save_article`: upsert on the source id. */
    method SaveArticle(a: Article, wp: Option<WpPost>, now: string) returns (row: Row)
      requires Valid()
      modifies this
      ensures Valid()
      ensures articles == Upsert(old(articles), a, wp, now)
      ensures row.mediumId == a.id && row in articles
      ensures usage == old(usage) && syncLogs == old(syncLogs) && automation == old(automation)
    {
      UpsertProperties(articles, a, wp, now);
      var k := 0;
      while k < |articles| && articles[k].mediumId != a.id
        invariant 0 <= k <= |articles|
        invariant forall j :: 0 <= j < k ==> articles[j].mediumId != a.id
      {
        k := k + 1;
      }
      if k < |articles| {
        row := UpdatedRow(articles[k], a, wp, now);
        articles := articles[k := row];
      } else {
        row := NewRow(a, wp, now);
        articles := articles + [row];
      }
    }

    /** `create_sync_log`: appends one log row whose status follows the
        error text. */
    method CreateSyncLog(found: int, synced: int, skipped: int, errors: Option<string>) returns (log: SyncLog)
      modifies this
      ensures log == SyncLog(LogStatus(errors), found, synced, skipped, errors)
      ensures syncLogs == old(syncLogs) + [log]
      ensures articles == old(articles) && usage == old(usage) && automation == old(automation)
    {
      log := SyncLog(if Truthy(errors) then "error" else "success", found, synced, skipped, errors);
      syncLogs := syncLogs + [log];
    }

    /** `get_automation_settings`: the switch, created enabled on first
        read. */
    method GetAutomationSettings() returns (enabled: bool)
      modifies this
      ensures old(automation).None? ==> enabled && automation == Some(true)
      ensures old(automation).Some? ==> enabled == old(automation).value && automation == old(automation)
      ensures articles == old(articles) && usage == old(usage) && syncLogs == old(syncLogs)
    {
      if automation.None? {
        automation := Some(true);
      }
      enabled := automation.value;
    }

    /** `set_automation_enabled`: stores the switch (creating the row if
        needed) and reports success. */
    method SetAutomationEnabled(enabled: bool) returns (ok: bool)
      modifies this
      ensures automation == Some(enabled) && ok
      ensures articles == old(articles) && usage == old(usage) && syncLogs == old(syncLogs)
    {
      automation := Some(enabled);
      ok := true;
    }
  }
}
