/** The synchronisation orchestrator of src/web_interface.py: the
    `run_sync` loop that searches, filters, de-duplicates, translates and
    publishes; the limit clamp and image filter of the trending page; and
    the single-article sync with its duplicate check. Routes, templates and
    flash messages are not modelled. */
module Web {
  import opened Strings
  import opened Articles
  import opened Store
  import opened Medium
  import opened Translator
  import opened Settings
  import opened Configuration

  /** What `create_post` gives back: a post, nothing (a falsy result), or
      an exception with its message. */
  datatype PostOutcome = Created(post: WpPost) | Refused | Raised(msg: string)

  /** The WordPress client: `create_post(article, category, status)` is an
      uninterpreted function; `posted` records every article handed to it. */
  class WordPressClient {
    const createPost: (Article, string, Value) -> PostOutcome
    ghost var posted: seq<Article>

    constructor(createPost: (Article, string, Value) -> PostOutcome)
      ensures this.createPost == createPost && posted == []
    {
      this.createPost := createPost;
      posted := [];
    }

    method CreatePost(a: Article, category: string, status: Value) returns (o: PostOutcome)
      modifies this
      ensures o == createPost(a, category, status)
      ensures posted == old(posted) + [a]
    {
      posted := posted + [a];
      o := createPost(a, category, status);
    }
  }

  // ---------------------------------------------------------------------
  // run_sync, as a specification

  /** Everything a run reads besides the store: the keywords, the category,
      the post status from the settings, the translation switch, the
      translator, the publisher and the clock. */
  datatype SyncEnv = SyncEnv(
    keywords: seq<string>,
    category: string,
    status: Value,
    autoTranslate: bool,
    translator: Translator,
    createPost: (Article, string, Value) -> PostOutcome,
    now: string)

  /** The state of a run after some articles: the store's rows, the two
      counters, the error messages and the articles handed to
      `create_post`. */
  datatype Run = Run(rows: seq<Row>, synced: nat, skipped: nat, errors: seq<string>, posted: seq<Article>)

  /** The store holds a row for `id`. */
  predicate Stored(rows: seq<Row>, id: string) {
    IndexOf(rows, id).Some?
  }

  /** The article as published: translated to "pt" when translation is
      switched on and the translator is enabled. */
  function Prepared(env: SyncEnv, a: Article): (p: Article)
    ensures p.id == a.id
    ensures !(env.autoTranslate && env.translator.enabled) ==> p == a
  {
    if env.autoTranslate && env.translator.enabled then TranslatedArticle(env.translator, a, "pt") else a
  }

  /** The title used in messages (search results always carry one). */
  function TitleText(a: Article): string {
    OrElse(a.title, "Unknown")
  }

  /** The publishing part of one article: hand it to `create_post`; save
      it only when a post was created, otherwise record an error. */
  function Published(env: SyncEnv, r: Run, p: Article): (r': Run)
    ensures r'.synced + r'.skipped == r.synced + r.skipped + 1
    ensures |r'.errors| - |r.errors| <= r'.skipped - r.skipped
    ensures r'.posted == r.posted + [p]
    ensures (forall i :: 0 <= i < |r.errors| ==> r.errors[i] != "") ==>
      forall i :: 0 <= i < |r'.errors| ==> r'.errors[i] != ""
  {
    match env.createPost(p, env.category, env.status)
    case Created(w) => r.(rows := Upsert(r.rows, p, Some(w), env.now), synced := r.synced + 1, posted := r.posted + [p])
    case Refused =>
      r.(skipped := r.skipped + 1, errors := r.errors + ["Failed to create post for: " + TitleText(p)],
         posted := r.posted + [p])
    case Raised(m) =>
      r.(skipped := r.skipped + 1, errors := r.errors + ["Error processing article " + TitleText(p) + ": " + m],
         posted := r.posted + [p])
  }

  /** One article of the loop: already stored, then not relevant, then
      translate and publish. */
  function Step(env: SyncEnv, r: Run, a: Article): (r': Run)
    ensures r'.synced + r'.skipped == r.synced + r.skipped + 1
    ensures |r'.errors| - |r.errors| <= r'.skipped - r.skipped
    ensures |r'.posted| <= |r.posted| + 1
    ensures (forall i :: 0 <= i < |r.errors| ==> r.errors[i] != "") ==>
      forall i :: 0 <= i < |r'.errors| ==> r'.errors[i] != ""
  {
    if Stored(r.rows, a.id) then r.(skipped := r.skipped + 1)
    else if !IsArticleRelevant(a, env.keywords) then r.(skipped := r.skipped + 1)
    else Published(env, r, Prepared(env, a))
  }

  /** The loop of `run_sync` over a list of articles. */
  function SyncAll(env: SyncEnv, rows: seq<Row>, articles: seq<Article>): (r: Run)
    ensures r.synced + r.skipped == |articles|
    ensures |r.errors| <= r.skipped
    ensures |r.posted| <= |articles|
    ensures forall i :: 0 <= i < |r.errors| ==> r.errors[i] != ""
    decreases |articles|
  {
    if articles == [] then Run(rows, 0, 0, [], [])
    else Step(env, SyncAll(env, rows, articles[..|articles| - 1]), articles[|articles| - 1])
  }

  /** The list the loop runs over: filtered by language unless the
      preference is "both". */
  function Filtered(articles: seq<Article>, preference: string): (r: seq<Article>)
    ensures |r| <= |articles|
    ensures preference == "both" ==> r == articles
  {
    if preference != "both" then FilterByLanguage(articles, preference) else articles
  }

  /** `'\n'.join(errors) if errors else None`. */
  function ErrorText(errors: seq<string>): (t: Option<string>)
    ensures errors == [] <==> t.None?
  {
    if errors == [] then None else Some(Join(errors, "\n"))
  }

  /** A stored article is skipped before anything else: no post, no error,
      no new row, whatever the publisher, the keywords or the translator. */
  lemma StoredArticleSkipped(env: SyncEnv, r: Run, a: Article)
    requires Stored(r.rows, a.id)
    ensures Step(env, r, a) == r.(skipped := r.skipped + 1)
    ensures forall f: (Article, string, Value) -> PostOutcome, ks: seq<string> ::
      Step(env.(createPost := f, keywords := ks), r, a) == Step(env, r, a)
  {
  }

  /** An article that is new but not relevant is skipped before it is
      translated or published. */
  lemma IrrelevantArticleSkipped(env: SyncEnv, r: Run, a: Article)
    requires !Stored(r.rows, a.id) && !IsArticleRelevant(a, env.keywords)
    ensures Step(env, r, a) == r.(skipped := r.skipped + 1)
    ensures forall f: (Article, string, Value) -> PostOutcome, t: Translator ::
      Step(env.(createPost := f, translator := t), r, a) == Step(env, r, a)
  {
  }

  /** Rows are only ever appended, one per synced article; every id stored
      before the run stays stored; and no article is published whose id
      was stored before the run. */
  lemma {:induction false} SyncAllEffects(env: SyncEnv, rows: seq<Row>, articles: seq<Article>)
    ensures var r := SyncAll(env, rows, articles);
      |r.rows| == |rows| + r.synced && r.rows[..|rows|] == rows &&
      (forall id :: Stored(rows, id) ==> Stored(r.rows, id)) &&
      (forall i :: 0 <= i < |r.posted| ==> !Stored(rows, r.posted[i].id))
    decreases |articles|
  {
    if articles != [] {
      var init := articles[..|articles| - 1];
      SyncAllEffects(env, rows, init);
      StepEffects(env, rows, SyncAll(env, rows, init), articles[|articles| - 1]);
    }
  }

  /** One step of `SyncAllEffects`. */
  lemma StepEffects(env: SyncEnv, rows: seq<Row>, r0: Run, a: Article)
    requires |r0.rows| == |rows| + r0.synced && r0.rows[..|rows|] == rows
    requires forall id :: Stored(rows, id) ==> Stored(r0.rows, id)
    requires forall i :: 0 <= i < |r0.posted| ==> !Stored(rows, r0.posted[i].id)
    ensures var r := Step(env, r0, a);
      |r.rows| == |rows| + r.synced && r.rows[..|rows|] == rows &&
      (forall id :: Stored(rows, id) ==> Stored(r.rows, id)) &&
      (forall i :: 0 <= i < |r.posted| ==> !Stored(rows, r.posted[i].id))
  {
    var r := Step(env, r0, a);
    if !Stored(r0.rows, a.id) && IsArticleRelevant(a, env.keywords) {
      var p := Prepared(env, a);
      assert !Stored(rows, p.id);
      var o := env.createPost(p, env.category, env.status);
      if o.Created? {
        var row := NewRow(p, Some(o.post), env.now);
        assert r.rows == r0.rows + [row];
        forall id | Stored(rows, id)
          ensures Stored(r.rows, id)
        {
          var k := IndexOf(rows, id).value;
          assert r.rows[k] == rows[k];
        }
      }
    }
  }

  /** `p` is a relevant article of `articles`, as prepared for publishing. */
  predicate FromList(env: SyncEnv, p: Article, articles: seq<Article>) {
    exists k :: 0 <= k < |articles| && p == Prepared(env, articles[k]) && IsArticleRelevant(articles[k], env.keywords)
  }

  /** Every article of `posted` is a relevant article of `articles`, as
      prepared for publishing. */
  predicate AllFromList(env: SyncEnv, posted: seq<Article>, articles: seq<Article>) {
    forall i :: 0 <= i < |posted| ==> FromList(env, posted[i], articles)
  }

  /** Every published article is a relevant article of the list, as
      prepared for publishing. */
  lemma {:induction false} SyncAllPostsFromList(env: SyncEnv, rows: seq<Row>, articles: seq<Article>)
    ensures AllFromList(env, SyncAll(env, rows, articles).posted, articles)
    decreases |articles|
  {
    if articles != [] {
      var init := articles[..|articles| - 1];
      SyncAllPostsFromList(env, rows, init);
      assert articles == init + [articles[|articles| - 1]];
      PostsStep(env, SyncAll(env, rows, init), init, articles[|articles| - 1]);
    }
  }

  /** One step of `SyncAllPostsFromList`. */
  lemma PostsStep(env: SyncEnv, r0: Run, init: seq<Article>, a: Article)
    requires AllFromList(env, r0.posted, init)
    ensures AllFromList(env, Step(env, r0, a).posted, init + [a])
  {
    var r := Step(env, r0, a);
    var articles := init + [a];
    StepPosts(env, r0, a);
    forall j | 0 <= j < |r.posted|
      ensures FromList(env, r.posted[j], articles)
    {
      if j < |r0.posted| {
        assert r.posted[j] == r0.posted[j];
        assert FromList(env, r0.posted[j], init);
        var k :| 0 <= k < |init| && r0.posted[j] == Prepared(env, init[k]) && IsArticleRelevant(init[k], env.keywords);
        assert articles[k] == init[k];
      } else {
        assert r.posted[j] == Prepared(env, articles[|init|]);
      }
    }
  }

  /** One step publishes nothing, or the prepared article when it is
      relevant. */
  lemma StepPosts(env: SyncEnv, r0: Run, a: Article)
    ensures var r := Step(env, r0, a);
      r.posted == r0.posted ||
      (r.posted == r0.posted + [Prepared(env, a)] && IsArticleRelevant(a, env.keywords))
  {
  }

  /** Joining a list whose first piece is non-empty gives a non-empty
      text. */
  lemma JoinNonEmpty(parts: seq<string>, sep: string)
    requires parts != [] && parts[0] != ""
    ensures Join(parts, sep) != ""
  {
    if |parts| > 1 {
      assert |Join(parts, sep)| >= |parts[0]|;
    }
  }

  /** The `run_sync` summary. */
  datatype Summary = Summary(found: nat, synced: nat, skipped: nat, errors: seq<string>)

  const NotConfigured := "APIs not configured. Please check your .env file."

  // ---------------------------------------------------------------------
  // Trending

  /** `max(1, min(6, limit))`. */
  function ClampLimit(limit: int): (r: int)
    ensures 1 <= r <= 6
    ensures 1 <= limit <= 6 ==> r == limit
    ensures limit < 1 ==> r == 1
    ensures limit > 6 ==> r == 6
  {
    if limit < 1 then 1 else if limit > 6 then 6 else limit
  }

  /** A truthy `cover_image` or `image_url`. */
  predicate HasImage(a: Article) {
    Truthy(a.coverImage) || Truthy(a.imageUrl)
  }

  /** The articles with an image, in feed order. */
  function WithImages(s: seq<Article>): (r: seq<Article>)
    ensures |r| <= |s|
    ensures forall i :: 0 <= i < |r| ==> HasImage(r[i]) && r[i] in s
    decreases |s|
  {
    if s == [] then []
    else
      var init := WithImages(s[..|s| - 1]);
      assert forall x :: x in s[..|s| - 1] ==> x in s;
      if HasImage(s[|s| - 1]) then init + [s[|s| - 1]] else init
  }

  /** Filtering a prefix of the feed gives a prefix of the filtered feed. */
  lemma {:induction false} WithImagesPrefix(s: seq<Article>, j: nat)
    requires j <= |s|
    ensures WithImages(s[..j]) <= WithImages(s)
    decreases |s|
  {
    if j < |s| {
      var init := s[..|s| - 1];
      assert s[..j] == init[..j];
      WithImagesPrefix(init, j);
    } else {
      assert s[..j] == s;
    }
  }

  /** An article with an image is kept. */
  lemma {:induction false} WithImagesComplete(s: seq<Article>, k: nat)
    requires k < |s| && HasImage(s[k])
    ensures s[k] in WithImages(s)
    decreases |s|
  {
    if k < |s| - 1 {
      assert s[..|s| - 1][k] == s[k];
      WithImagesComplete(s[..|s| - 1], k);
    }
  }

  // ---------------------------------------------------------------------
  // Single-article sync

  /** The search term taken from an article URL: its last path segment,
      dashes as spaces, at most 50 characters. */
  function SlugQuery(url: string): (q: string)
    ensures |q| <= 50
  {
    var parts := Split(url, '/');
    Take(ReplaceAll(parts[|parts| - 1], "-", " "), 50)
  }

  const NoUrl := "URL não fornecida"
  const ApisMissing := "APIs não configuradas"
  const ArticleNotFound := "Artigo não encontrado. Por favor, busque novamente."
  const AlreadySynced := "Artigo já foi sincronizado anteriormente"
  const PostFailed := "Falha ao criar post no WordPress"

  /** The trending page's picks: the first `limit` articles of the feed
      that have an image. */
  function TrendingPicks(feed: seq<Article>, limit: int): seq<Article> {
    PyPrefix(WithImages(feed), limit)
  }

  /** The picks are at most `limit` articles with an image, taken in feed
      order from the start of the filtered feed; with room to spare, every
      article with an image is picked. */
  lemma TrendingPicksProperties(feed: seq<Article>, limit: int)
    requires limit >= 1
    ensures var r := TrendingPicks(feed, limit);
      |r| <= limit && r <= WithImages(feed) &&
      (forall i :: 0 <= i < |r| ==> HasImage(r[i]) && r[i] in feed) &&
      (|WithImages(feed)| <= limit ==> forall k :: 0 <= k < |feed| && HasImage(feed[k]) ==> feed[k] in r)
  {
    var r := TrendingPicks(feed, limit);
    if |WithImages(feed)| <= limit {
      forall k | 0 <= k < |feed| && HasImage(feed[k])
        ensures feed[k] in r
      {
        WithImagesComplete(feed, k);
      }
    }
  }

  /** The single-article sync once the URL and both clients are present:
      its answer, the rows afterwards and the articles published. */
  function SingleSync(env: SyncEnv, rows: seq<Row>, found: Option<Article>): (o: (Result<string>, seq<Row>, seq<Article>))
    ensures found.None? ==> o == (Err(ArticleNotFound), rows, [])
    ensures found.Some? && found.value.id != "" && Stored(rows, found.value.id) ==> o == (Err(AlreadySynced), rows, [])
    ensures o.0.Ok? ==> found.Some? && o.2 == [Prepared(env, found.value)]
    ensures |o.2| <= 1
  {
    match found
    case None => (Err(ArticleNotFound), rows, [])
    case Some(a) =>
      if a.id != "" && Stored(rows, a.id) then (Err(AlreadySynced), rows, [])
      else
        var p := Prepared(env, a);
        match env.createPost(p, env.category, env.status)
        case Created(w) => (Ok(w.link), Upsert(rows, p, Some(w), env.now), [p])
        case Refused => (Err(PostFailed), rows, [p])
        case Raised(m) => (Err(m), rows, [p])
  }

  /** A successful single-article sync leaves exactly one row for the
      article's id; a failed one leaves the rows as they were. */
  lemma SingleSyncSaves(env: SyncEnv, rows: seq<Row>, found: Option<Article>)
    requires UniqueIds(rows)
    ensures var o := SingleSync(env, rows, found);
      UniqueIds(o.1) &&
      (o.0.Ok? ==> Stored(o.1, found.value.id)) &&
      (o.0.Err? ==> o.1 == rows)
  {
    var o := SingleSync(env, rows, found);
    if o.0.Ok? {
      var p := Prepared(env, found.value);
      var w := env.createPost(p, env.category, env.status).post;
      UpsertProperties(rows, p, Some(w), env.now);
    }
  }

  /** The first search result, if any. */
  function FirstOf(articles: seq<Article>): (r: Option<Article>)
    ensures r.Some? <==> articles != []
  {
    if articles == [] then None else Some(articles[0])
  }

  // ---------------------------------------------------------------------
  // run_sync as a whole

  /** What a whole run produces from the search result: its return value,
      the rows afterwards, its one log and the articles published. */
  datatype Outcome = Outcome(result: Result<Summary>, rows: seq<Row>, log: SyncLog, posted: seq<Article>)

  /** `run_sync` once the clients exist: a failed search logs the failure
      (and is passed on); otherwise the filtered list is settled by
      `SyncAll` and the log records the counts and the joined errors. */
  function SyncRun(env: SyncEnv, search: Result<seq<Article>>, preference: string, rows: seq<Row>): (o: Outcome)
    ensures search.Err? ==>
      (o.result == Err(search.msg) && o.rows == rows && o.posted == [] &&
       o.log == SyncLog("error", 0, 0, 0, Some("Sync process failed: " + search.msg)))
    ensures search.Ok? ==>
      (o.result.Ok? && o.log.found == o.result.value.found == |search.value| &&
       o.log.synced == o.result.value.synced && o.log.skipped == o.result.value.skipped)
  {
    match search
    case Err(m) => Outcome(Err(m), rows, SyncLog("error", 0, 0, 0, Some("Sync process failed: " + m)), [])
    case Ok(found) =>
      var run := SyncAll(env, rows, Filtered(found, preference));
      Outcome(Ok(Summary(|found|, run.synced, run.skipped, run.errors)), run.rows,
              SyncLog(LogStatus(ErrorText(run.errors)), |found|, run.synced, run.skipped, ErrorText(run.errors)),
              run.posted)
  }

  /** A completed run settles every filtered article exactly once, never
      counts more than it found, and logs "success" exactly when no error
      was recorded. */
  lemma SyncRunCounts(env: SyncEnv, found: seq<Article>, preference: string, rows: seq<Row>)
    ensures var o := SyncRun(env, Ok(found), preference, rows);
      o.result.value.synced + o.result.value.skipped == |Filtered(found, preference)| <= |found| &&
      (o.log.status == "success" <==> o.result.value.errors == []) &&
      |o.result.value.errors| <= o.result.value.skipped &&
      |o.rows| == |rows| + o.result.value.synced
  {
    SyncAllEffects(env, rows, Filtered(found, preference));
    var errors := SyncAll(env, rows, Filtered(found, preference)).errors;
    if errors != [] {
      JoinNonEmpty(errors, "\n");
    }
  }

  // ---------------------------------------------------------------------
  // The orchestrator

  class WebInterface {
    const db: Database
    const medium: MediumClient?
    const wordpress: WordPressClient?
    const translator: Translator
    const config: Config
    const settings: SettingsManager

    constructor(db: Database, medium: MediumClient?, wordpress: WordPressClient?, translator: Translator,
                config: Config, settings: SettingsManager)
      ensures this.db == db && this.medium == medium && this.wordpress == wordpress
      ensures this.translator == translator && this.config == config && this.settings == settings
    {
      this.db := db;
      this.medium := medium;
      this.wordpress := wordpress;
      this.translator := translator;
      this.config := config;
      this.settings := settings;
    }

    /** What a run reads besides the store. */
    function Env(now: string): (env: SyncEnv)
      requires wordpress != null
      reads settings
      ensures env.keywords == config.searchKeywords && env.createPost == wordpress.createPost
    {
      SyncEnv(config.searchKeywords, config.categoryName,
              settings.GetValue("wordpress.post_status", Str("draft")),
              config.autoTranslate, translator, wordpress.createPost, now)
    }

    /** `run_sync`. Without both clients it fails before anything else;
        otherwise it searches (charging the ledger) and settles the outcome
        as `SyncRun` says, writing exactly one log. */
    method RunSync(month: string, now: string) returns (r: Result<Summary>)
      requires db.Valid()
      requires medium != null ==> medium.db == db
      modifies db, wordpress
      ensures db.Valid()
      ensures medium == null || wordpress == null ==>
        r == Err(NotConfigured) && db.articles == old(db.articles) && db.usage == old(db.usage) &&
        db.syncLogs == old(db.syncLogs)
      ensures medium != null && wordpress != null ==>
        var o := SyncRun(Env(now), KeywordSearch(medium.api, config.searchKeywords, config.maxArticlesPerRun),
                         config.languagePreference, old(db.articles));
        r == o.result && db.articles == o.rows && db.syncLogs == old(db.syncLogs) + [o.log] &&
        wordpress.posted == old(wordpress.posted) + o.posted &&
        db.usage == Charged(old(db.usage), month, KeywordSearchCost(medium.api, config.searchKeywords, config.maxArticlesPerRun))
    {
      if medium == null || wordpress == null {
        return Err(NotConfigured);
      }
      var search := medium.SearchArticlesByKeywords(config.searchKeywords, config.maxArticlesPerRun, month);
      if search.Err? {
        var _ := db.CreateSyncLog(0, 0, 0, Some("Sync process failed: " + search.msg));
        return Err(search.msg);
      }
      r := SyncFound(search.value, now);
    }

    /** The part of `run_sync` after a successful search: filter by
        language, settle each article, write the log. */
    method SyncFound(found: seq<Article>, now: string) returns (r: Result<Summary>)
      requires db.Valid() && wordpress != null
      modifies db, wordpress
      ensures db.Valid()
      ensures var o := SyncRun(Env(now), Ok(found), config.languagePreference, old(db.articles));
        r == o.result && db.articles == o.rows && db.syncLogs == old(db.syncLogs) + [o.log] &&
        wordpress.posted == old(wordpress.posted) + o.posted
      ensures db.usage == old(db.usage) && db.automation == old(db.automation)
    {
      var articles := found;
      if config.languagePreference != "both" {
        articles := FilterByLanguage(articles, config.languagePreference);
      }
      var synced, skipped, errors := SettleAll(articles, now);
      var _ := db.CreateSyncLog(|found|, synced, skipped, ErrorText(errors));
      r := Ok(Summary(|found|, synced, skipped, errors));
    }

    /** The loop of `run_sync`: settle each article in turn. */
    method SettleAll(articles: seq<Article>, now: string) returns (synced: nat, skipped: nat, errors: seq<string>)
      requires db.Valid() && wordpress != null
      modifies db, wordpress
      ensures db.Valid()
      ensures At(SyncAll(Env(now), old(db.articles), articles), old(wordpress.posted), synced, skipped, errors)
      ensures db.usage == old(db.usage) && db.syncLogs == old(db.syncLogs) && db.automation == old(db.automation)
    {
      ghost var env := Env(now);
      ghost var rows0 := db.articles;
      ghost var posted0 := wordpress.posted;
      synced, skipped, errors := 0, 0, [];
      for i := 0 to |articles|
        invariant db.Valid()
        invariant At(SyncAll(env, rows0, articles[..i]), posted0, synced, skipped, errors)
        invariant db.usage == old(db.usage) && db.syncLogs == old(db.syncLogs) && db.automation == old(db.automation)
      {
        ghost var before := SyncAll(env, rows0, articles[..i]);
        assert articles[..i + 1][..i] == articles[..i];
        assert SyncAll(env, rows0, articles[..i + 1]) == Step(env, before, articles[i]);
        synced, skipped, errors := SyncArticle(articles[i], now, posted0, before, synced, skipped, errors);
      }
      assert articles[..|articles|] == articles;
    }

    /** The trending page: clamp the limit; with a tag, a client and budget
        for one request, fetch twice the limit from the feed and keep the
        first `limit` articles with an image. */
    method Trending(tag: string, mode: string, limitArg: int, month: string) returns (limit: int, articles: seq<Article>)
      requires medium != null ==> medium.db == db
      modifies db
      ensures limit == ClampLimit(limitArg)
      ensures tag == "" ==> articles == [] && db.usage == old(db.usage)
      ensures tag != "" && medium != null && BudgetAllows(Current(old(db.usage), month), 1) ==>
        articles == TrendingPicks(Collect(medium.api, FeedIds(medium.api.topfeeds(tag, mode), limit * 2), true,
                                          TrendingMark(mode, tag)), limit)
      ensures medium == null || !BudgetAllows(Current(old(db.usage), month), 1) ==> articles == []
      ensures medium == null ==> db.usage == old(db.usage)
      ensures tag != "" && medium != null ==>
        var seeded := old(db.usage)[month := Current(old(db.usage), month)];
        db.usage == if BudgetAllows(Current(old(db.usage), month), 1)
                    then Charged(seeded, month, |FeedIds(medium.api.topfeeds(tag, mode), limit * 2)|)
                    else seeded
      ensures db.articles == old(db.articles) && db.syncLogs == old(db.syncLogs) && db.automation == old(db.automation)
    {
      limit := ClampLimit(limitArg);
      articles := [];
      if tag != "" && medium != null {
        var allowed := db.CanMakeApiRequest(month, 1);
        if allowed {
          var all := medium.GetTrendingArticles(tag, mode, limit * 2, month);
          articles := PickWithImages(all, limit);
        }
      }
    }

    /** The image filter of the trending page: walk the feed, keep the
        articles with an image, stop once `limit` are kept. */
    static method PickWithImages(all: seq<Article>, limit: int) returns (picked: seq<Article>)
      requires limit >= 1
      ensures picked == TrendingPicks(all, limit)
    {
      var withImages: seq<Article> := [];
      var i := 0;
      while i < |all| && |withImages| < limit
        invariant 0 <= i <= |all|
        invariant withImages == WithImages(all[..i]) && |withImages| <= limit
      {
        assert all[..i + 1][..i] == all[..i];
        if HasImage(all[i]) {
          withImages := withImages + [all[i]];
        }
        i := i + 1;
      }
      WithImagesPrefix(all, i);
      if i == |all| {
        assert all[..i] == all;
      }
      picked := PyPrefix(withImages, limit);
    }

    /** The single-article sync: a URL and both clients are required; the
        article comes with the request or from a search on the URL's slug;
        an article whose id is already stored is refused before anything is
        published; otherwise it is translated when switched on, published,
        and saved when a post was created. */
    method SyncSingleArticle(url: string, given: Option<Article>, month: string, now: string) returns (r: Result<string>)
      requires db.Valid()
      requires medium != null ==> medium.db == db
      modifies db, wordpress
      ensures db.Valid()
      ensures url == "" ==> r == Err(NoUrl) && db.articles == old(db.articles) && db.usage == old(db.usage)
      ensures url != "" && (medium == null || wordpress == null) ==>
        r == Err(ApisMissing) && db.articles == old(db.articles) && db.usage == old(db.usage)
      ensures url != "" && medium != null && wordpress != null ==>
        var found := if given.Some? then given else FirstOf(SearchResult(medium.api, SlugQuery(url), 1));
        var o := SingleSync(Env(now), old(db.articles), found);
        r == o.0 && db.articles == o.1 && wordpress.posted == old(wordpress.posted) + o.2
      ensures url != "" && medium != null && wordpress != null ==>
        db.usage == if given.Some? then old(db.usage)
                    else Charged(old(db.usage), month, 1 + |SearchIds(medium.api, SlugQuery(url), 1)|)
      ensures db.syncLogs == old(db.syncLogs)
    {
      if url == "" {
        return Err(NoUrl);
      }
      if medium == null || wordpress == null {
        return Err(ApisMissing);
      }
      var article := given;
      if article.None? {
        var results := medium.SearchArticles(SlugQuery(url), 1, month);
        if results != [] {
          article := Some(results[0]);
        }
      }
      if article.None? {
        return Err(ArticleNotFound);
      }
      r := SyncFoundArticle(article.value, now);
    }

    /** The single-article sync once the article is known: refuse a stored
        id, otherwise translate when switched on, publish, and save what was
        created. */
    method SyncFoundArticle(a: Article, now: string) returns (r: Result<string>)
      requires db.Valid() && wordpress != null
      modifies db, wordpress
      ensures db.Valid()
      ensures var o := SingleSync(Env(now), old(db.articles), Some(a));
        r == o.0 && db.articles == o.1 && wordpress.posted == old(wordpress.posted) + o.2
      ensures db.syncLogs == old(db.syncLogs) && db.usage == old(db.usage)
    {
      ghost var env := Env(now);
      r := Err(AlreadySynced);
      var stored := false;
      if a.id != "" {
        stored := db.ArticleExists(a.id);
      }
      if !stored {
        var p := Prepare(a, now);
        var status := settings.GetValue("wordpress.post_status", Str("draft"));
        var outcome := wordpress.CreatePost(p, config.categoryName, status);
        match outcome {
          case Created(w) =>
            var _ := db.SaveArticle(p, Some(w), now);
            r := Ok(w.link);
          case Refused =>
            r := Err(PostFailed);
          case Raised(m) =>
            r := Err(m);
        }
      }
    }

    /** The state of a run so far, as held by the store, the counters and
        the publisher's log. */
    ghost predicate At(r: Run, posted0: seq<Article>, synced: nat, skipped: nat, errors: seq<string>)
      reads db, wordpress
    {
      wordpress != null &&
      db.articles == r.rows && synced == r.synced && skipped == r.skipped && errors == r.errors &&
      wordpress.posted == posted0 + r.posted
    }

    /** One pass of the loop of `run_sync`: skip a stored article, then an
        irrelevant one; otherwise translate when switched on and publish. */
    method SyncArticle(a: Article, now: string, ghost posted0: seq<Article>, ghost before: Run,
                       synced: nat, skipped: nat, errors: seq<string>)
      returns (synced': nat, skipped': nat, errors': seq<string>)
      requires db.Valid() && wordpress != null
      requires At(before, posted0, synced, skipped, errors)
      modifies db, wordpress
      ensures db.Valid()
      ensures At(Step(Env(now), before, a), posted0, synced', skipped', errors')
      ensures db.usage == old(db.usage) && db.syncLogs == old(db.syncLogs) && db.automation == old(db.automation)
    {
      ghost var env := Env(now);
      synced', skipped', errors' := synced, skipped, errors;
      var stored := db.ArticleExists(a.id);
      if stored {
        StoredArticleSkipped(env, before, a);
        skipped' := skipped + 1;
        return;
      }
      if !IsArticleRelevant(a, config.searchKeywords) {
        IrrelevantArticleSkipped(env, before, a);
        skipped' := skipped + 1;
        return;
      }
      var p := Prepare(a, now);
      assert Step(env, before, a) == Published(env, before, p);
      synced', skipped', errors' := Publish(p, now, posted0, before, synced, skipped, errors);
    }

    /** The translation step of both syncs: when automatic translation is
        switched on and the translator is enabled, the article goes through
        `translate_article` into Portuguese; otherwise it is used as found. */
    method Prepare(a: Article, ghost now: string) returns (p: Article)
      requires wordpress != null
      ensures p == Prepared(Env(now), a)
      ensures p.id == a.id
    {
      p := a;
      if config.autoTranslate && translator.enabled {
        var d := new ArticleDict(a);
        TranslateArticle(translator, d, "pt");
        p := d.article;
      }
    }

    /** Publish one article: save it when a post was created, otherwise
        record the error and count it as skipped. */
    method Publish(p: Article, now: string, ghost posted0: seq<Article>, ghost before: Run,
                   synced: nat, skipped: nat, errors: seq<string>)
      returns (synced': nat, skipped': nat, errors': seq<string>)
      requires db.Valid() && wordpress != null
      requires At(before, posted0, synced, skipped, errors)
      modifies db, wordpress
      ensures db.Valid()
      ensures At(Published(Env(now), before, p), posted0, synced', skipped', errors')
      ensures db.usage == old(db.usage) && db.syncLogs == old(db.syncLogs) && db.automation == old(db.automation)
    {
      synced', skipped', errors' := synced, skipped, errors;
      var status := settings.GetValue("wordpress.post_status", Str("draft"));
      var outcome := wordpress.CreatePost(p, config.categoryName, status);
      match outcome {
        case Created(w) =>
          var _ := db.SaveArticle(p, Some(w), now);
          synced' := synced + 1;
        case Refused =>
          errors' := errors + ["Failed to create post for: " + TitleText(p)];
          skipped' := skipped + 1;
        case Raised(m) =>
          errors' := errors + ["Error processing article " + TitleText(p) + ": " + m];
          skipped' := skipped + 1;
      }
    }
  }
}
