/** The article cache (`CacheManager` in src/cache_manager.py): look-ups
    that short-circuit on a cache hit, fetch-and-store on a miss, cached
    translation, search-then-cache, and the cache statistics. The cache
    tables themselves are not part of this model: the store's writes are
    the uninterpreted functions of `StoreOps`, and only what the manager
    decides around them is stated. */
module Cache {
  import opened Articles
  import opened Store
  import opened Medium
  import opened Translator

  /** A cache row as the store hands it back. */
  datatype CacheEntry = CacheEntry(
    id: string,
    originalTitle: Option<string>,
    originalSubtitle: Option<string>,
    originalContent: Option<string>,
    isTranslated: bool,
    translatedTitle: Option<string>,
    translatedSubtitle: Option<string>,
    translatedContent: Option<string>)

  /** The translated fields written back by `translate_cached_article`. */
  datatype Translation = Translation(title: Option<string>, subtitle: Option<string>, content: Option<string>)

  /** The store's operations: `save_cache(article, translation)`, the
      `cache_article` insert (`None` where it raises), and the listing of
      `get_all_cached_articles`. */
  datatype StoreOps = StoreOps(
    save: (map<string, CacheEntry>, Article, Option<Translation>) -> map<string, CacheEntry>,
    insert: (map<string, CacheEntry>, Article) -> Option<map<string, CacheEntry>>,
    listAll: map<string, CacheEntry> -> seq<CacheEntry>)

  /** The cache tables: entries by source id. */
  class CacheStore {
    var entries: map<string, CacheEntry>
    const ops: StoreOps

    constructor(ops: StoreOps)
      ensures entries == map[] && this.ops == ops
    {
      entries := map[];
      this.ops := ops;
    }

    /** `get_cache(id)`: the entry, if any. */
    method GetCache(id: string) returns (e: Option<CacheEntry>)
      ensures e.Some? <==> id in entries
      ensures e.Some? ==> e.value == entries[id]
    {
      if id in entries {
        return Some(entries[id]);
      }
      return None;
    }

    /** `save_cache(article, translation)`. */
    method SaveCache(a: Article, t: Option<Translation>)
      modifies this
      ensures entries == ops.save(old(entries), a, t)
    {
      entries := ops.save(entries, a, t);
    }

    /** `cache_article(...)`: `false` where the insert raises, with nothing
        written. */
    method Insert(a: Article) returns (ok: bool)
      modifies this
      ensures ok <==> ops.insert(old(entries), a).Some?
      ensures ok ==> entries == ops.insert(old(entries), a).value
      ensures !ok ==> entries == old(entries)
    {
      var written := ops.insert(entries, a);
      if written.None? {
        return false;
      }
      entries := written.value;
      ok := true;
    }
  }

  // ---------------------------------------------------------------------
  // Specification functions

  /** The dict `translate_cached_article` hands to the translator: the
      original fields and the language fixed to "en". */
  function SourceData(e: CacheEntry): (a: Article)
    ensures a.lang == Some("en") && SourceLang(a) == "en"
    ensures a.title == e.originalTitle && a.subtitle == e.originalSubtitle && a.content == e.originalContent
  {
    BareArticle("").(title := e.originalTitle, subtitle := e.originalSubtitle,
                     content := e.originalContent, lang := Some("en"))
  }

  /** The fields written back after translating a cached entry. */
  function TranslationOf(t: Translator, e: CacheEntry, target: string): Translation {
    var tr := TranslatedArticle(t, SourceData(e), target);
    Translation(tr.title, tr.subtitle, tr.content)
  }

  /** The translation always treats the cached text as English: a target of
      "en" leaves the originals, and a truthy title is translated from "en". */
  lemma TranslationFromEnglish(t: Translator, e: CacheEntry, target: string)
    ensures target == "en" ==>
      TranslationOf(t, e, target) == Translation(e.originalTitle, e.originalSubtitle, e.originalContent)
    ensures t.enabled && target != "en" && Truthy(e.originalTitle) ==>
      TranslationOf(t, e, target).title == Some(TranslateTitle(t, e.originalTitle.value, "en", target))
    ensures !Truthy(e.originalContent) ==> TranslationOf(t, e, target).content == e.originalContent
  {
  }

  /** The loop of `search_and_cache` over a prefix of the results: the
      store afterwards and the entries collected. */
  function CacheAll(ops: StoreOps, entries: map<string, CacheEntry>, articles: seq<Article>)
    : (r: (map<string, CacheEntry>, seq<CacheEntry>))
    ensures |r.1| <= |articles|
    decreases |articles|
  {
    if articles == [] then (entries, [])
    else
      var init := CacheAll(ops, entries, articles[..|articles| - 1]);
      var a := articles[|articles| - 1];
      if a.id in init.0 then (init.0, init.1 + [init.0[a.id]])
      else
        var saved := ops.save(init.0, a, None);
        if a.id in saved then (saved, init.1 + [saved[a.id]]) else (saved, init.1)
  }

  /** A store whose save of an article adds that article's entry and leaves
      every other entry as it was. */
  ghost predicate WellBehaved(ops: StoreOps) {
    forall m: map<string, CacheEntry>, a: Article, t: Option<Translation> {:trigger ops.save(m, a, t)} ::
      a.id in ops.save(m, a, t) &&
      (forall k :: k in m && k != a.id ==> k in ops.save(m, a, t) && ops.save(m, a, t)[k] == m[k])
  }

  /** What `translate_cached_article` does once it holds an entry: hand it
      back as it is when it is translated already or the translator is
      off; otherwise save the translation under the bare id and read the
      entry back. */
  function Settle(ops: StoreOps, entries: map<string, CacheEntry>, t: Translator, id: string, target: string,
                  entry: CacheEntry): (r: (map<string, CacheEntry>, Option<CacheEntry>))
    ensures entry.isTranslated || !t.enabled ==> r == (entries, Some(entry))
    ensures !entry.isTranslated && t.enabled ==>
      r.0 == ops.save(entries, BareArticle(id), Some(TranslationOf(t, entry, target))) &&
      (r.1.Some? <==> id in r.0) && (r.1.Some? ==> r.1.value == r.0[id])
  {
    if entry.isTranslated || !t.enabled then (entries, Some(entry))
    else
      var saved := ops.save(entries, BareArticle(id), Some(TranslationOf(t, entry, target)));
      (saved, if id in saved then Some(saved[id]) else None)
  }

  /** `translate_cached_article` as a whole: the cache afterwards and the
      result. The entry comes from the cache or, on a miss, from a fetch
      that is stored and read back first. */
  function CachedTranslation(ops: StoreOps, api: Endpoints, entries: map<string, CacheEntry>, t: Translator,
                             id: string, target: string): (r: (map<string, CacheEntry>, Option<CacheEntry>))
    ensures id in entries ==> r == Settle(ops, entries, t, id, target, entries[id])
    ensures id !in entries && Info(api, id).None? ==> r == (entries, None)
    ensures id !in entries && Info(api, id).Some? ==>
      var fetched := ops.save(entries, Info(api, id).value, None);
      r == if id in fetched then Settle(ops, fetched, t, id, target, fetched[id]) else (fetched, None)
  {
    if id in entries then Settle(ops, entries, t, id, target, entries[id])
    else match Info(api, id)
      case None => (entries, None)
      case Some(a) =>
        var fetched := ops.save(entries, a, None);
        if id in fetched then Settle(ops, fetched, t, id, target, fetched[id]) else (fetched, None)
  }

  /** With a well-behaved store, an id that is cached or can be fetched
      always yields the entry stored for it, and every other entry stays
      as it was. */
  lemma CachedTranslationFound(ops: StoreOps, api: Endpoints, entries: map<string, CacheEntry>, t: Translator,
                               id: string, target: string)
    requires WellBehaved(ops)
    requires id in entries || Info(api, id).Some?
    ensures var r := CachedTranslation(ops, api, entries, t, id, target);
      id in r.0 && r.1 == Some(r.0[id]) &&
      (forall k :: k in entries && k != id ==> k in r.0 && r.0[k] == entries[k])
  {
    var e := entries;
    if id !in entries {
      var a := Info(api, id).value;
      e := ops.save(entries, a, None);
      assert a.id == id && id in e;
      assert forall k :: k in entries && k != id ==> k in e && e[k] == entries[k];
    }
    var entry := e[id];
    if !entry.isTranslated && t.enabled {
      var tr := Some(TranslationOf(t, entry, target));
      var saved := ops.save(e, BareArticle(id), tr);
      assert BareArticle(id).id == id && id in saved;
      assert forall k :: k in e && k != id ==> k in saved && saved[k] == e[k];
    }
  }

  /** With a well-behaved store, `search_and_cache` returns one entry per
      search result, in result order, each being the entry stored for that
      result's id when the loop ends. */
  lemma {:induction false} CacheAllComplete(ops: StoreOps, entries: map<string, CacheEntry>, articles: seq<Article>)
    requires WellBehaved(ops)
    ensures var r := CacheAll(ops, entries, articles);
      |r.1| == |articles| &&
      (forall i :: 0 <= i < |articles| ==> articles[i].id in r.0 && r.1[i] == r.0[articles[i].id]) &&
      (forall k :: k in entries ==> k in r.0)
    decreases |articles|
  {
    if articles != [] {
      var prefix := articles[..|articles| - 1];
      CacheAllComplete(ops, entries, prefix);
      var init := CacheAll(ops, entries, prefix);
      var a := articles[|articles| - 1];
      if a.id !in init.0 {
        var saved := ops.save(init.0, a, None);
        assert a.id in saved;
        forall i | 0 <= i < |prefix|
          ensures prefix[i].id in saved && saved[prefix[i].id] == init.0[prefix[i].id]
        {
          assert prefix[i].id in init.0;
        }
      }
      forall i | 0 <= i < |articles| - 1
        ensures articles[i] == prefix[i]
      {
      }
    }
  }

  /** `get_cache_stats`. */
  datatype Stats = Stats(totalCached: int, translated: int, notTranslated: int, cacheSizeMb: int)

  /** `sum(1 for article in all_cached if article.get('is_translated'))`. */
  function CountTranslated(all: seq<CacheEntry>): (n: nat)
    ensures n <= |all|
    ensures (forall i :: 0 <= i < |all| ==> !all[i].isTranslated) ==> n == 0
    decreases |all|
  {
    if all == [] then 0
    else
      var rest := CountTranslated(all[1..]);
      assert forall i :: 1 <= i < |all| ==> all[1..][i - 1] == all[i];
      (if all[0].isTranslated then 1 else 0) + rest
  }

  /** Counting over two listings adds up. */
  lemma {:induction false} CountTranslatedAppend(a: seq<CacheEntry>, b: seq<CacheEntry>)
    ensures CountTranslated(a + b) == CountTranslated(a) + CountTranslated(b)
    decreases |a|
  {
    if a != [] {
      assert (a + b)[1..] == a[1..] + b;
      CountTranslatedAppend(a[1..], b);
    } else {
      assert a + b == b;
    }
  }

  /** A listing where every entry is translated counts them all. */
  lemma {:induction false} AllTranslated(all: seq<CacheEntry>)
    requires forall i :: 0 <= i < |all| ==> all[i].isTranslated
    ensures CountTranslated(all) == |all|
    decreases |all|
  {
    if all != [] {
      assert forall i :: 0 <= i < |all[1..]| ==> all[1..][i] == all[i + 1];
      AllTranslated(all[1..]);
    }
  }

  /** The statistics of a listing: translated and not translated split
      the total. */
  function CacheStats(all: seq<CacheEntry>): (s: Stats)
    ensures s.translated + s.notTranslated == s.totalCached == |all|
    ensures 0 <= s.translated && 0 <= s.notTranslated
  {
    var t := CountTranslated(all);
    Stats(|all|, t, |all| - t, 0)
  }

  // ---------------------------------------------------------------------
  // The manager

  class CacheManager {
    const store: CacheStore
    const medium: MediumClient
    const translator: Translator

    constructor(store: CacheStore, medium: MediumClient, translator: Translator)
      ensures this.store == store && this.medium == medium && this.translator == translator
    {
      this.store := store;
      this.medium := medium;
      this.translator := translator;
    }

    /** `cache_article`: a hit returns `true` without writing; otherwise
        one insert, `false` where it raises. */
    method CacheArticle(a: Article) returns (ok: bool)
      modifies store
      ensures a.id in old(store.entries) ==> ok && store.entries == old(store.entries)
      ensures a.id !in old(store.entries) ==> (ok <==> store.ops.insert(old(store.entries), a).Some?)
      ensures a.id !in old(store.entries) && ok ==> store.entries == store.ops.insert(old(store.entries), a).value
      ensures !ok ==> store.entries == old(store.entries)
    {
      var existing := store.GetCache(a.id);
      if existing.Some? {
        return true;
      }
      ok := store.Insert(a);
    }

    /** `get_or_fetch_article`: a hit (unless refreshing) is returned with
        no request; otherwise the article is fetched (one request charged),
        stored, and read back; nothing is written when the fetch fails. */
    method GetOrFetchArticle(id: string, forceRefresh: bool, month: string) returns (r: Option<CacheEntry>)
      requires medium.db == null || (medium.db as object) != store
      modifies store, medium.db
      ensures !forceRefresh && id in old(store.entries) ==>
        r == Some(old(store.entries)[id]) && store.entries == old(store.entries) &&
        (medium.db != null ==> medium.db.usage == old(medium.db.usage))
      ensures forceRefresh || id !in old(store.entries) ==>
        medium.Billed(month, 1) &&
        (Info(medium.api, id).None? ==> r.None? && store.entries == old(store.entries)) &&
        (Info(medium.api, id).Some? ==>
          store.entries == store.ops.save(old(store.entries), Info(medium.api, id).value, None) &&
          r == (if id in store.entries then Some(store.entries[id]) else None))
    {
      if !forceRefresh {
        var cached := store.GetCache(id);
        if cached.Some? {
          return cached;
        }
      }
      var article := medium.GetArticleInfo(id, month);
      if article.None? {
        return None;
      }
      store.SaveCache(article.value, None);
      r := store.GetCache(id);
    }

    /** `translate_cached_article`: find the entry (fetching on a miss);
        return it as it is when already translated or when the translator
        is off; otherwise translate its originals from "en" and store the
        translation. */
    method TranslateCachedArticle(id: string, target: string, month: string) returns (r: Option<CacheEntry>)
      requires medium.db == null || (medium.db as object) != store
      modifies store, medium.db
      ensures (store.entries, r) == CachedTranslation(store.ops, medium.api, old(store.entries), translator, id, target)
      ensures id in old(store.entries) && (old(store.entries)[id].isTranslated || !translator.enabled) ==>
        r == Some(old(store.entries)[id]) && store.entries == old(store.entries)
      ensures id in old(store.entries) && !old(store.entries)[id].isTranslated && translator.enabled ==>
        store.entries == store.ops.save(old(store.entries), BareArticle(id),
                                        Some(TranslationOf(translator, old(store.entries)[id], target)))
      ensures id in old(store.entries) ==> medium.db != null ==> medium.db.usage == old(medium.db.usage)
      ensures id !in old(store.entries) ==> medium.Billed(month, 1)
    {
      var cached := store.GetCache(id);
      if cached.None? {
        cached := GetOrFetchArticle(id, false, month);
        if cached.None? {
          return None;
        }
      }
      var entry := cached.value;
      if entry.isTranslated {
        return cached;
      }
      if !translator.enabled {
        return cached;
      }
      var data := new ArticleDict(SourceData(entry));
      TranslateArticle(translator, data, target);
      var translated := data.article;
      store.SaveCache(BareArticle(id), Some(Translation(translated.title, translated.subtitle, translated.content)));
      r := store.GetCache(id);
    }

    /** `search_and_cache`: search, then for each result take the cached
        entry, or store the result and take the entry stored. */
    method SearchAndCache(query: string, limit: int, month: string) returns (cached: seq<CacheEntry>)
      requires medium.db == null || (medium.db as object) != store
      modifies store, medium.db
      ensures var results := SearchResult(medium.api, query, limit);
        (store.entries, cached) == CacheAll(store.ops, old(store.entries), results)
      ensures medium.Billed(month, 1 + |SearchIds(medium.api, query, limit)|)
    {
      var articles := medium.SearchArticles(query, limit, month);
      ghost var start := store.entries;
      cached := [];
      for i := 0 to |articles|
        invariant (store.entries, cached) == CacheAll(store.ops, start, articles[..i])
        invariant medium.Billed(month, 1 + |SearchIds(medium.api, query, limit)|)
      {
        assert articles[..i + 1][..i] == articles[..i];
        var hit := store.GetCache(articles[i].id);
        if hit.Some? {
          cached := cached + [hit.value];
        } else {
          store.SaveCache(articles[i], None);
          var stored := store.GetCache(articles[i].id);
          if stored.Some? {
            cached := cached + [stored.value];
          }
        }
      }
      assert articles[..|articles|] == articles;
    }

    /** `get_cache_stats` over the store's listing. */
    method GetCacheStats() returns (s: Stats)
      ensures s == CacheStats(store.ops.listAll(store.entries))
      ensures s.translated + s.notTranslated == s.totalCached
    {
      var all := store.ops.listAll(store.entries);
      var translated := 0;
      for i := 0 to |all|
        invariant translated + CountTranslated(all[i..]) == CountTranslated(all)
      {
        assert all[i..][1..] == all[i + 1..];
        if all[i].isTranslated {
          translated := translated + 1;
        }
      }
      s := Stats(|all|, translated, |all| - translated, 0);
    }
  }
}
