# medium-blog-wordpress, modelled in Dafny

This project models the core of a service that searches a paid
Medium content API for articles, filters and de-duplicates them, has a
language model translate and rewrite them into Portuguese, and publishes
them as WordPress posts. The modelled parts are:

- the content rules (denylist filter, tag normalisation, category
  inference, attribution fields, plain-text-to-HTML, markdown
  pre-processing, HTML post-processing);
- the local store: the usage ledger with its budget gate, the upsert of
  published articles, sync logs and the automation switch;
- keyword search merging and the article filters;
- the translator's control flow, including code-span preservation;
- the `run_sync` orchestrator, the trending page's limit and image
  filter, and the single-article sync;
- the dotted-path settings store and its validator;
- the article cache manager, written against an abstract store;
- the environment configuration and its validator.

One module per source file:

| module | file | source |
|---|---|---|
| `Strings` | strings.dfy | Python string operations used throughout (`lower`, `strip`, `split`, `join`, `replace`, `in`, slicing) |
| `Articles` | articles.dfy | the article dict that flows between the components |
| `Configuration` | config.dfy | src/config.py |
| `Store` | database.dfy | src/database.py |
| `Medium` | medium_api.dfy | src/medium_api.py |
| `ContentProcessor` | content_processor.dfy | src/content_processor.py |
| `Translator` | translator.dfy | src/translator.py |
| `Settings` | settings_manager.dfy | src/settings_manager.py |
| `Cache` | cache_manager.dfy | src/cache_manager.py |
| `Web` | web_interface.dfy | src/web_interface.py |

Code that works by updating state becomes imperative Dafny:

- The database is the class `Store.Database`. Each table is a field that
  its methods reassign.
- The Medium client (`Medium.MediumClient`) charges the ledger as it
  fetches.
- The settings store (`Settings.SettingsManager`) holds the nested
  dictionary.
- The cache manager (`Cache.CacheManager`) works over `Cache.CacheStore`.
- `translate_article` rewrites an `ArticleDict` in place.
- `_translate_html` rewrites an array of text nodes in place.
- The orchestrator is `Web.WebInterface`.

Each method is proved against a specification function, and the
properties the source promises are proved about those functions.

External services are parameters:

- The HTTP endpoints of the Medium API are the functions of
  `Medium.Endpoints`.
- The language model is the functions of `Translator.Llm`. `None` stands
  for a call that raises.
- The HTML parser is `Translator.Soup` and `ContentProcessor.Renderer`.
- WordPress `create_post` is a function parameter of
  `Web.WordPressClient`.
- The cache tables are `Cache.StoreOps`.
- The environment is given as a map or as optional strings.
- The current month and time are string parameters.

## Model

| member | source | states |
|---|---|---|
| Configuration.StrippedNonBlank | src/config.py:26 | every kept part is non-empty with no surrounding white space, and no more parts come out than went in |
| Configuration.ParseKeywords | src/config.py:26 | every parsed keyword is non-empty and stripped; there are at most as many keywords as comma-separated parts |
| Configuration.NoKeywordsByDefault | src/config.py:26 | an unset `SEARCH_KEYWORDS` gives the empty list |
| Configuration.StrippedNonBlankKeepsClean | src/config.py:26 | parts that are already stripped and non-empty are kept unchanged and in order |
| Configuration.KeywordsRoundTrip | src/config.py:26 | a non-empty list of clean keywords without commas, joined with ',', parses back to exactly the same list |
| Configuration.ParsedKeywordsNeverBlank | src/config.py:26 | a parsed keyword list is never `['']`, so for it the keyword check of `validate` is emptiness alone |
| Configuration.AutoTranslate | src/config.py:36 | an unset variable means true; a set value can switch translation on only if it is four characters long, as "true" is in any letter case |
| Configuration.AutoTranslateIgnoresCase | src/config.py:36 | lower-casing the value first does not change the switch |
| Configuration.AutoTranslateSpellings | src/config.py:36 | "TRUE" and "True" switch translation on; "1" and "" switch it off |
| Configuration.Check | src/config.py:55-68 | one check keeps the list when it passes, and otherwise appends exactly its message after the old list |
| Configuration.Validate | src/config.py:52-70 | the step-by-step appends produce the messages of `ValidationErrors`, in the fixed order |
| Configuration.CredentialMessages | src/config.py:55-65 | each credential's message is reported if and only if that credential is missing or empty |
| Configuration.KeywordMessage | src/config.py:67-68 | the keyword message is reported if and only if the list is empty or `['']`; there are at most five messages |
| Configuration.ValidationSteps | src/config.py:52-70 | a message is in the result if and only if its own check failed |
| Configuration.MessagesDistinct | src/config.py:56-68 | the five messages are pairwise different, so each identifies its check |
| Configuration.ValidIff | src/config.py:52-70 | `validate` returns [] if and only if all four credentials are set and some keyword is configured |
| Store.IndexOf | src/database.py:122 | the position of the first row with the id; `None` if and only if no row has it |
| Store.NewRow | src/database.py:137-153 | a new row copies the id, defaults absent title, content and tags to empty, and sets the WordPress fields only when post data is given |
| Store.UpdatedRow | src/database.py:124-133 | an update keeps id, author, image and URL; each of title, subtitle, content and tags is overwritten when the article has it and kept when absent; the WordPress fields are set only when post data is given |
| Store.Upsert | src/database.py:118-156 | the table keeps its length when the id is stored and grows by one otherwise |
| Store.UpsertProperties | src/database.py:118-161 | after the upsert, ids are still unique, the saved id is stored, and every other row is unchanged |
| Store.Current | src/database.py:239-249 | a month without a record reads as the seed record (126 used, limit 2500); otherwise its stored record |
| Store.Incremented | src/database.py:253-272 | exactly `count` is added to the current month; the limit is kept; every other month is unchanged; the month's record now exists |
| Store.IncrementedTwice | src/database.py:253-272 | two increments of the same month equal one increment by their sum |
| Store.Charged | src/medium_api.py:29-31 | `n` single-request charges leave the ledger unchanged for `n = 0` and are one increment by `n` otherwise |
| Store.ChargedTwice | src/database.py:253-272 | charges add up |
| Store.IncrementFreshMonth | src/database.py:259-268 | on a fresh month, `increment_api_usage(c)` yields `126 + c` used against a limit of 2500 |
| Store.IncrementMonotone | src/database.py:259-270 | for `c >= 0` the counter does not decrease, and a budget the new state allows was allowed before |
| Store.BudgetExamples | src/database.py:274-279 | with limit 2500, 2450 used refuses one request and 2300 used allows it |
| Store.LogStatus | src/database.py:196 | the status is "success" if and only if there is no error text, and "error" otherwise |
| Store.Database.constructor | src/database.py:104-109 | a fresh store: every table empty, ids unique |
| Store.Database.GetApiUsage | src/database.py:233-251 | returns the current month's record and creates it when missing; nothing else changes |
| Store.Database.IncrementApiUsage | src/database.py:253-272 | the ledger becomes `Incremented(old, month, count)`; returns the month's new record |
| Store.Database.CanMakeApiRequest | src/database.py:274-279 | true if and only if `limit - used > needed + 100`; as a side effect the month's record is created |
| Store.Database.ArticleExists | src/database.py:158-161 | true if and only if some row has the id |
| Store.Database.SaveArticle | src/database.py:118-156 | the table becomes `Upsert(old, …)`, ids stay unique, and the returned row is stored under the id |
| Store.Database.CreateSyncLog | src/database.py:187-200 | appends exactly one log whose status follows `LogStatus`; the other tables are unchanged |
| Store.Database.GetAutomationSettings | src/database.py:211-219 | creates the switch enabled when absent; otherwise reports the stored value |
| Store.Database.SetAutomationEnabled | src/database.py:221-231 | the switch becomes the given value; a later `GetAutomationSettings` reports it |
| Medium.ContentOf | src/medium_api.py:105-120 | a truthy markdown body wins and is tagged "markdown"; a body and its format come together, the format is "markdown" or "html", and the body is never empty |
| Medium.Project | src/medium_api.py:86-103 | the article carries the id, is not translated, has `lang` defaulting to "en", and has title and subtitle defaulting to "" |
| Medium.Info | src/medium_api.py:71-129 | `None` exactly when the info request fails; otherwise an article with the requested id and a language |
| Medium.Marked | src/medium_api.py:213-225 | a trending article carries `trending_type == mode` and `trending_tag == tag`; a topic article carries its topic; id, title, subtitle and content are unchanged |
| Medium.Collect | src/medium_api.py:46-56 | at most one article per fetched id |
| Medium.CollectSound | src/medium_api.py:213-225 | every collected article has a fetched id; none is blocked when filtering; every trending article carries the mode and tag |
| Medium.CollectComplete | src/medium_api.py:46-56 | every id whose fetch succeeds and that is not filtered out is collected |
| Medium.SearchIds | src/medium_api.py:38 | at most `limit` ids are fetched |
| Medium.FeedIds | src/medium_api.py:205 | at most `limit` feed ids are used |
| Medium.Dedup | src/medium_api.py:171-174 | the merge keeps what was collected as a prefix and only appends articles of the batch |
| Medium.DedupDistinct | src/medium_api.py:165-174 | merging keeps ids distinct |
| Medium.DedupCovers | src/medium_api.py:171-174 | every id of the batch is present after merging |
| Medium.DedupKeepsFirst | src/medium_api.py:171-174 | the first occurrence of a new id is the one kept |
| Medium.SearchBatch | src/medium_api.py:169 | one keyword's search gives `search_articles`' result and costs one request plus one per fetched id |
| Medium.Gather | src/medium_api.py:167-177 | the keyword loop only adds articles and only adds cost |
| Medium.GatherDistinct | src/medium_api.py:165-177 | the merged list never holds two articles with the same id |
| Medium.GatherStep | src/medium_api.py:167-177 | one loop round merges the keyword's batch and pays its cost |
| Medium.PendingStep | src/medium_api.py:167-177 | one round of the keyword loop, merging batch `i` and paying its cost, leaves the loop either stopped with the final result or with the remaining batches still leading to it |
| Medium.PendingDone | src/medium_api.py:167-177 | a loop that stopped or ran out of keywords holds the final merged list and cost |
| Medium.BatchesAt | src/medium_api.py:167-169 | batch `i` is the search of keyword `i`: its articles and its cost |
| Medium.GatherStopsAtMax | src/medium_api.py:176-177 | once `max_articles` are collected, no further keyword is searched or paid for |
| Medium.InsertByKey | src/medium_api.py:182 | insertion adds the one article to the multiset |
| Medium.InsertByKeySorted | src/medium_api.py:182 | insertion keeps the list newest first |
| Medium.SortNewestFirst | src/medium_api.py:182 | the sort is a permutation |
| Medium.SortIsNewestFirst | src/medium_api.py:182 | the sort is descending by `published_at` in string order, with a missing value treated as "" |
| Medium.InsertByKeyDistinct | src/medium_api.py:182 | insertion keeps ids distinct |
| Medium.SortDistinct | src/medium_api.py:182 | sorting keeps ids distinct |
| Medium.KeywordSearchProperties | src/medium_api.py:162-184 | the result has distinct ids, at most `max_articles` entries, and is newest first |
| Medium.FilterByLanguage | src/medium_api.py:319-333 | "both" returns the input; other values keep only matching articles; an unknown value gives []; every kept article comes from the input |
| Medium.Kept | src/medium_api.py:324-333 | for "pt" or "en" only articles of that language are kept, taken from the input |
| Medium.KeptComplete | src/medium_api.py:325-331 | every article of the requested language is kept |
| Medium.KeptSingle | src/medium_api.py:325-331 | one article is kept exactly when its language matches ("pt" or "pt-BR" for "pt", "en" for "en") |
| Medium.KeptConcat | src/medium_api.py:324-333 | filtering a concatenation is the concatenation of the filtered parts, so kept articles stay in input order |
| Medium.FilterByLanguageInOrder | src/medium_api.py:319-333 | the filter splits over concatenation and keeps one article exactly when the language is "both" or matches, so the result is the input's matching articles in input order |
| Medium.IsArticleRelevant | src/medium_api.py:335-351 | true if and only if some keyword, lower-cased, occurs in the lower-cased title or subtitle or equals a lower-cased tag or topic; no keywords gives false |
| Medium.EmptyKeywordMatchesAll | src/medium_api.py:343-349 | the empty keyword matches every article |
| Medium.MergeBatch | src/medium_api.py:171-174 | the loop over one batch computes `Dedup` and keeps `seen_ids` equal to the collected ids |
| Medium.Finish | src/medium_api.py:181-184 | sorts and cuts the merged list, or raises as the Python sort does |
| Medium.SortRaises | src/medium_api.py:182 | the sort raises if and only if at least two articles are compared and one has a null `published_at` |
| Medium.MediumClient.ChargeOne | src/medium_api.py:30-31 | with a database, exactly one request is charged to the month |
| Medium.MediumClient.GetArticleInfo | src/medium_api.py:71-129 | returns `Info(api, id)` and charges one request; the content requests charge nothing |
| Medium.MediumClient.CollectIds | src/medium_api.py:46-56 | returns `Collect` of the ids and charges one request per id |
| Medium.MediumClient.SearchArticles | src/medium_api.py:21-69 | returns `SearchResult` and charges one request for the search plus one per fetched id |
| Medium.MediumClient.GetTrendingArticles | src/medium_api.py:186-231 | the filtered, marked articles of at most `limit` feed ids; the feed request itself charges nothing |
| Medium.MediumClient.GetLatestPosts | src/medium_api.py:233-262 | the topic-marked articles of at most `limit` feed ids, unfiltered; the feed request itself charges nothing |
| Medium.MediumClient.SearchStep | src/medium_api.py:169-174 | one keyword: merge its search result by id, keep `seen_ids` equal to the collected ids, and charge one request plus one per fetched id, on top of what the loop has charged so far; no other table changes |
| Medium.MediumClient.GatherKeywords | src/medium_api.py:164-178 | the keyword loop computes `Gather` over the keywords' batches, stopping at `max_articles`, and charges exactly the requests of the keywords it searched |
| Medium.MediumClient.SearchArticlesByKeywords | src/medium_api.py:162-184 | returns `KeywordSearch` and charges exactly `KeywordSearchCost` |
| ContentProcessor.ShouldFilterArticle | src/content_processor.py:188-200 | true if and only if some blocked phrase occurs in the lower-cased title, subtitle or first 1000 characters of the body |
| ContentProcessor.BlockedIgnoresTail | src/content_processor.py:192 | text after the first 1000 characters of the body never changes the verdict |
| ContentProcessor.BlockedIgnoresCase | src/content_processor.py:190 | lower-casing the title first does not change the verdict |
| ContentProcessor.HiringAdvertIsBlocked | src/content_processor.py:188-200 | "We are hiring Python developers" is filtered by its title alone |
| ContentProcessor.NormalizeTag | src/content_processor.py:423 | same length; each character lower-cased, with spaces and underscores turned into '-' |
| ContentProcessor.NormalizeTagIdempotent | src/content_processor.py:423 | normalising twice is normalising once |
| ContentProcessor.KeepTag | src/content_processor.py:423-427 | one tag contributes at most one entry |
| ContentProcessor.Kept | src/content_processor.py:421-427 | never more tags come out than went in |
| ContentProcessor.KeptRelevant | src/content_processor.py:426-427 | every kept tag is in `RELEVANT_TAGS` and already normalised |
| ContentProcessor.KeptAppend | src/content_processor.py:421-427 | keeping distributes over concatenation: input order is preserved and duplicates are not removed |
| ContentProcessor.PublishedTags | src/content_processor.py:419-434 | 1 to 5 tags, all relevant; the first five kept tags, or `['tech','programming']` when none is kept |
| ContentProcessor.FilterAndNormalizeTags | src/content_processor.py:417-434 | the loop computes `PublishedTags` |
| ContentProcessor.KeptFixed | src/content_processor.py:421-427 | relevant, normalised tags are kept exactly |
| ContentProcessor.DefaultTagsFixed | src/content_processor.py:431 | the default tags are relevant and normalised |
| ContentProcessor.PublishedTagsIdempotent | src/content_processor.py:417-434 | normalising the published tags again changes nothing |
| ContentProcessor.LookupFromFinds | src/content_processor.py:445-446 | the map lookup succeeds if and only if the key is in `CATEGORY_MAP`, and returns that entry's category |
| ContentProcessor.Category | src/content_processor.py:437-454 | the category is "Tecnologia" or one of the map's values |
| ContentProcessor.TagCategoryIsValue | src/content_processor.py:443-446 | a tag match gives a map value |
| ContentProcessor.TitleCategoryIsValue | src/content_processor.py:449-451 | a title match gives a map value |
| ContentProcessor.DetermineCategory | src/content_processor.py:437-454 | the two early-return scans compute `Category` |
| ContentProcessor.FirstTagWins | src/content_processor.py:443-446 | the first tag whose key is in the map decides, whatever the title says |
| ContentProcessor.FirstFoundAt | src/content_processor.py:443-446 | the tag scan stops at the first tag found |
| ContentProcessor.FirstTitleKeyWins | src/content_processor.py:449-451 | without a tag match, the first map key in declaration order that occurs in the title decides |
| ContentProcessor.TitleCategoryAt | src/content_processor.py:449-451 | the title scan stops at the first key found |
| ContentProcessor.ReactLookup | src/content_processor.py:75 | "react" maps to "React" |
| ContentProcessor.AiLookup | src/content_processor.py:69 | "artificial-intelligence" maps to "Inteligência Artificial" |
| ContentProcessor.CategoryExamples | src/content_processor.py:437-454 | sample articles get "Inteligência Artificial" and "React", and a "React" tag beats a "Python" title |
| ContentProcessor.CleanAttributionData | src/content_processor.py:457-477 | only the five attribution keys; a key is present if and only if its field is truthy (counts > 0), and then with the input's value |
| ContentProcessor.EscapeChar | src/content_processor.py:405 | the escape of a character is non-empty, starts with a line feed exactly when the character is one, and holds no other line feed |
| ContentProcessor.Escape | src/content_processor.py:405 | escaping keeps emptiness and a leading line feed |
| ContentProcessor.Body | src/content_processor.py:405-409 | the paragraph body holds no line feed |
| ContentProcessor.ReplaceChainIsBody | src/content_processor.py:405-409 | the two `replace` calls over the escaped text equal the one-pass `Body` |
| ContentProcessor.ChainAtBlankLine | src/content_processor.py:408 | a blank line becomes `</p><p>` |
| ContentProcessor.ChainAtLineBreak | src/content_processor.py:409 | a remaining line feed becomes `<br>` |
| ContentProcessor.ChainAtCharacter | src/content_processor.py:405 | any other character is HTML-escaped |
| ContentProcessor.TextToHtml | src/content_processor.py:402-414 | the result is `<p>` + body + `</p>`, with no line feed left |
| ContentProcessor.EscapeCharBack | src/content_processor.py:405 | an escaped character reads back as itself |
| ContentProcessor.BodyRoundTrip | src/content_processor.py:405-409 | the body reads back to the original text |
| ContentProcessor.ReadBackBlankLine | src/content_processor.py:408 | a paragraph break reads back as a blank line |
| ContentProcessor.ReadBackLineBreak | src/content_processor.py:409 | a `<br>` reads back as a line feed |
| ContentProcessor.TextToHtmlRoundTrip | src/content_processor.py:402-414 | `_text_to_html` loses nothing: its output reads back to the text |
| ContentProcessor.PreprocessCodeBlocks | src/content_processor.py:240-249 | text without backslashes is unchanged |
| ContentProcessor.DemoteH1 | src/content_processor.py:255 | no line of the result starts with "# " |
| ContentProcessor.DemoteH1Fixes | src/content_processor.py:255 | text where no line starts with "# " is unchanged |
| ContentProcessor.DemoteH1Idempotent | src/content_processor.py:255 | demoting twice is demoting once |
| ContentProcessor.HeadingMark | src/content_processor.py:258 | a match of `#{2,6} ` is 3 to 7 characters of '#' ending in a space |
| ContentProcessor.HeadingLine | src/content_processor.py:259 | a heading line match ends in a line feed |
| ContentProcessor.CollapseNewlines | src/content_processor.py:265 | the result has no run of three or more line feeds |
| ContentProcessor.PreprocessMarkdownStructure | src/content_processor.py:252-267 | the pre-processed markdown has no run of three or more line feeds |
| ContentProcessor.ProcessMarkdownToHtml | src/content_processor.py:203-237 | '' gives ''; markdown is pre-processed, converted and post-processed; HTML is only post-processed; other formats go through `_text_to_html` and read back to the input |
| ContentProcessor.PreprocessPlainProse | src/content_processor.py:252-267 | prose without '#' and without triple line feeds is unchanged |
| ContentProcessor.CollapseFixes | src/content_processor.py:265 | text without triple line feeds is unchanged |
| ContentProcessor.DropStyle | src/content_processor.py:279-286 | a truthy style is removed and nothing else changes; otherwise the attributes are unchanged |
| ContentProcessor.Restyle | src/content_processor.py:275-327 | h1 becomes h2 and no other tag becomes h2; an h2 is left with empty text, no children and no `<br>`; h2 to h4, ul and li lose a truthy style; inline code outside `pre` and images get their styles; images load lazily; an `a` whose `href` starts with `http` gets exactly `target="_blank"`, `rel="noopener noreferrer"` and the link style, and any other `a` is left untouched; a blockquote gets exactly the blockquote style; other elements keep their text, depth and parent; elements of other tags are untouched |
| ContentProcessor.RestyleLosesHeadingText | src/content_processor.py:284-286 | an h1 or h2 with text comes out as an h2 whose text is empty (see Findings) |
| ContentProcessor.RestyleIntended | src/content_processor.py:284-286 | the corrected heading edit keeps the text and makes every other edit `Restyle` makes |
| ContentProcessor.CountTagAppend | src/content_processor.py:331 | counting a tag distributes over appending one element |
| ContentProcessor.CountTagConcat | src/content_processor.py:331 | counting a tag distributes over concatenation |
| ContentProcessor.DeeperRunEnds | src/content_processor.py:289-294 | the run of deeper elements is exactly what lies inside an element: every element in it is deeper, the one after it is not |
| ContentProcessor.SubtreeGone | src/content_processor.py:279-370 | nothing inside a cleared heading, a code block in `pre` or a deleted paragraph survives |
| ContentProcessor.PrunedIsSurvivors | src/content_processor.py:279-370 | the walk over the page keeps exactly the elements that survive, in document order: not a deleted paragraph, and inside no cleared heading, code block in `pre` or deleted paragraph |
| ContentProcessor.CleanedOnlySurvivors | src/content_processor.py:279-327 | whatever reaches the page is a surviving element, restyled |
| ContentProcessor.CleanedNoH1 | src/content_processor.py:275-276 | no h1 is left on the page |
| ContentProcessor.RestyleAllMembers | src/content_processor.py:296-327 | the styling passes restyle every element and add none |
| ContentProcessor.RestyleAllCounts | src/content_processor.py:275-286 | restyling turns each h1 or h2 into an h2 and keeps the number of rules |
| ContentProcessor.PrunedCounts | src/content_processor.py:279-294 | pruning never adds an element; on a page without nesting it removes only empty paragraphs |
| ContentProcessor.CleanedCounts | src/content_processor.py:275-294 | at most one h2 per original h1 or h2 and at most the original rules, exactly that many on a page without nesting |
| ContentProcessor.ImageParagraphLost | src/content_processor.py:289-294 | a paragraph holding only an image is deleted with the image (see Findings) |
| ContentProcessor.IntendedKeepsImages | src/content_processor.py:289-294 | with the corrected paragraph rule, every image outside a heading and a code block reaches the page |
| ContentProcessor.CleanedKeeps | src/content_processor.py:279-370 | every element that is not a deleted paragraph and lies inside no cleared heading, code block in `pre` or deleted paragraph reaches the page, restyled |
| ContentProcessor.PrunedCodeBlock | src/content_processor.py:305-370 | on `<h2>…</h2><pre><code><h1>…</h1></code></pre>` the walk keeps the `h2`, the `pre` and the code block, and drops the heading inside the code |
| ContentProcessor.CodeBlockHidesHeading | src/content_processor.py:270-370 | a heading inside a code block adds no section: that page ends with one `h2` and no rule |
| ContentProcessor.CleanedDropsEmpty | src/content_processor.py:289-294 | no empty paragraph survives |
| ContentProcessor.InsertRules | src/content_processor.py:331-337 | with k ≥ 1 h2s exactly k−1 rules are added, and the h2 count is unchanged |
| ContentProcessor.InsertRulesOnlyAddsRules | src/content_processor.py:331-337 | the section pass adds rules before headings and nothing else |
| ContentProcessor.RulesSeparateSections | src/content_processor.py:332-337 | every h2 after the first is directly preceded by its own rule, a sibling at its depth |
| ContentProcessor.PruneElements | src/content_processor.py:279-370 | the heading, paragraph and code block loops compute `Pruned` |
| ContentProcessor.RestyleElements | src/content_processor.py:296-327 | the styling loops compute `RestyleAll` |
| ContentProcessor.AddRules | src/content_processor.py:331-337 | the insertion loop computes `InsertRules` |
| ContentProcessor.PostprocessHtml | src/content_processor.py:270-339 | the page after `_postprocess_html` is `InsertRules(RestyleAll(Pruned(page)))`: headings, code blocks and deleted paragraphs lose what lies inside them before the later passes run |
| ContentProcessor.PostprocessShape | src/content_processor.py:270-339 | no h1 remains; there are at most as many h2s as original h1s and h2s (exactly as many on a page without nesting); k−1 new rules for k sections |
| Translator.MakeTranslator | src/translator.py:11-35 | enabled if and only if a key is given (explicitly or by the environment) and a model loads |
| Translator.TranslateText | src/translator.py:102-210 | short input (stripped length below 10) and a failing call return the input; a change comes from the model |
| Translator.Tag | src/translator.py:74 | the placeholder text is `__CODE_BLOCK_`, then the digits, then `__` |
| Translator.PlaceholderDistinct | src/translator.py:74 | two different placeholders never start at the same position |
| Translator.PlaceholderAfterShort | src/translator.py:74 | no placeholder starts 1 to 12 characters before another |
| Translator.FenceClose | src/translator.py:70 | the lazy fence match finds the nearest closing fence |
| Translator.InlineStop | src/translator.py:70 | an inline span stops at the first backtick or line feed |
| Translator.MatchLen | src/translator.py:70 | a code match starts and ends with a backtick and is at least 3 characters long |
| Translator.Mask | src/translator.py:69-77 | every collected code block is at least three characters long and starts with a backtick |
| Translator.MaskWithoutBackticks | src/translator.py:70-77 | text without backticks is not changed by masking |
| Translator.RestoreSequentially | src/translator.py:83-84 | the restore loop as written computes `RestoreInOrder` |
| Translator.TranslateWithCodePreservationAsWritten | src/translator.py:66-86 | the method as written computes `CodePreservedAsWritten` |
| Translator.SequentialRestoreLosesCode | src/translator.py:66-86 | for "`a``b`CODE_BLOCK_0__" and an identity model, the result as written is not the input (see Findings) |
| Translator.FirstPlaceholder | src/translator.py:84 | the first placeholder that starts the text, if any |
| Translator.RestoreInvertsMask | src/translator.py:77-86 | the one-pass restore undoes masking |
| Translator.RestoreAtBlock | src/translator.py:72-84 | a code span's placeholder is restored to its block verbatim |
| Translator.RestoreAtLiteral | src/translator.py:77-84 | a literal character is copied through |
| Translator.CodePreservationRoundTrip | src/translator.py:66-86 | with an identity (or failing) model and content without `__CODE_BLOCK_`, the content comes back exactly, every code span verbatim |
| Translator.TranslateNode | src/translator.py:93-98 | text under script, style, code or pre, or of stripped length up to 10, is left alone; otherwise it is replaced by the translation of its stripped text |
| Translator.TranslateNodes | src/translator.py:93-98 | every text node is translated as `TranslateNode` says, and the count is unchanged |
| Translator.TranslateHtmlNodes | src/translator.py:88-100 | the in-place loop leaves the nodes equal to `TranslateNodes` of the old nodes |
| Translator.TranslateAndRewrite | src/translator.py:37-64 | disabled returns the content; any backtick takes the code-preservation path, with the corrected one-pass restore (see Findings); otherwise HTML or plain text |
| Translator.FenceHasBacktick | src/translator.py:45 | a fenced block implies a backtick, so the dispatch test is "some backtick" |
| Translator.StripLeakedPrefix | src/translator.py:318 | a suffix of the title; unchanged when no leaked prefix starts it |
| Translator.Unquoted | src/translator.py:322-323 | a title wrapped in matching quotes loses exactly two characters (a lone quote becomes empty); any other title is unchanged |
| Translator.Capped | src/translator.py:326-327 | at most 100 characters; longer titles become the first 97 characters plus "..." |
| Translator.Tidy | src/translator.py:321-329 | stripped and at most 100 characters |
| Translator.CleanTitle | src/translator.py:315-329 | the cleaned title is stripped and at most 100 characters |
| Translator.CleanTitleDropsQuotes | src/translator.py:322-323 | a clean title wrapped in quotes loses exactly that pair |
| Translator.CleanTitleKeepsCleanTitle | src/translator.py:315-329 | a clean title of at most 100 characters is unchanged |
| Translator.CleanTitleCutsLongTitle | src/translator.py:326-327 | a clean title over 100 characters becomes its first 97 characters plus "..." |
| Translator.TranslateTitle | src/translator.py:258-313 | empty or short titles and failing calls return the title; otherwise the model's answer cleaned and de-hyphenated |
| Translator.TranslatedArticle | src/translator.py:331-378 | disabled or same-language articles are returned unchanged; otherwise `lang` becomes the target and `translated` true; fields other than title, subtitle and content are unchanged, and falsy ones of those three are kept; the content goes through `TranslateAndRewrite`, with its corrected restore |
| Translator.TranslateArticle | src/translator.py:331-378 | the in-place rewrite leaves the dict equal to `TranslatedArticle`, so it shares that member's corrected restore |
| Translator.Truncated | src/translator.py:380-408 | the content itself up to the limit, else the first `max_length` characters plus "..." |
| Translator.SummarizeContent | src/translator.py:380-408 | disabled or failing calls fall back to truncation; a longer summary is cut to `max_length - 3` characters plus "..." |
| Settings.Lookup | src/settings_manager.py:87-96 | an empty path gives the value; a missing key or a non-dict gives the default |
| Settings.Keys | src/settings_manager.py:87 | splitting a path gives at least one key |
| Settings.SetIn | src/settings_manager.py:100-110 | `set` succeeds if and only if every existing value along the path is a dict |
| Settings.GetAfterSet | src/settings_manager.py:98-110 | after a successful `set`, `get` on the same path returns the value |
| Settings.SetKeepsOthers | src/settings_manager.py:103-110 | a path that is neither a prefix nor an extension of the set path reads the same before and after |
| Settings.SetKeepsOtherKeys | src/settings_manager.py:103-110 | a path under another top-level key is untouched |
| Settings.EmptyLookup | src/settings_manager.py:90-94 | under a freshly created dict, every path reads the default |
| Settings.Defaults | src/settings_manager.py:42-83 | exactly the six sections, each a dict |
| Settings.DefaultKeywords | src/settings_manager.py:62-64 | the default keyword list is a non-empty list |
| Settings.Validate | src/settings_manager.py:131-161 | `is_valid` if and only if there are no errors; errors are empty if and only if the credentials and keywords are present; there is a warning if and only if auto-translation is on without a Gemini key |
| Settings.Errors | src/settings_manager.py:136-156 | the error list is empty exactly when all five checks pass, and holds at most five messages |
| Settings.ErrorRanks | src/settings_manager.py:137-156 | the five error messages and the warning are pairwise different |
| Settings.ErrorsMembers | src/settings_manager.py:136-156 | each error message is present exactly when its own check fails, and the warning is never among the errors |
| Settings.ErrorsOrdered | src/settings_manager.py:136-156 | the error messages come in the order of the checks: key, URL, username, password, keywords |
| Settings.ValidateMessages | src/settings_manager.py:131-161 | for each of the five settings, its message is among the errors exactly when the setting is falsy; the errors come in the order of the checks; the warnings are exactly the Gemini message when auto-translation is on without a key, and empty otherwise |
| Settings.SettingsManager.constructor | src/settings_manager.py:9-25 | the settings are those loaded, or the defaults |
| Settings.SettingsManager.GetValue | src/settings_manager.py:85-96 | a path that is found gives its value; otherwise the default |
| Settings.SettingsManager.Set | src/settings_manager.py:98-111 | on success the settings become `SetIn(old, path, v)`; a path through a non-dict raises and changes nothing |
| Settings.SettingsManager.UpdateSection | src/settings_manager.py:113-120 | an existing section is merged with data winning; an absent one becomes data; a non-dict section raises |
| Settings.SettingsManager.GetAll | src/settings_manager.py:122-124 | returns the stored top-level dictionary; sections are values here, so the sharing of sections by the source's shallow copy is not captured (see Left out) |
| Settings.SettingsManager.ResetToDefaults | src/settings_manager.py:126-129 | the settings become the defaults |
| Settings.SettingsManager.SaveSettings | src/settings_manager.py:27-40 | a truthy argument replaces the settings; otherwise they are kept |
| Settings.SettingsManager.ValidateSettings | src/settings_manager.py:131-161 | returns `Validate` of the stored settings |
| Settings.Merged | src/settings_manager.py:115-118 | data wins on conflicts, other keys of the section are kept, and an absent section becomes data |
| Settings.FoundLookup | src/settings_manager.py:85-96 | a found path reads the same whatever the default; a missing path reads the default |
| Articles.BareArticle | src/cache_manager.py:110 | the minimal article handed to `save_cache` carries only the id: no title, content or language |
| Cache.CacheStore.GetCache | src/cache_manager.py:43-50 | the abstract store's `get_cache`, as `get_or_fetch_article` calls it: the entry for the id, if any |
| Cache.CacheStore.SaveCache | src/cache_manager.py:109-112 | the store's save is applied once |
| Cache.CacheStore.Insert | src/cache_manager.py:25-37 | a raising insert changes nothing |
| Cache.SourceData | src/cache_manager.py:91-96 | the translator sees the cached originals, marked as English |
| Cache.TranslationFromEnglish | src/cache_manager.py:91-106 | a target of "en" keeps the originals; a truthy title is translated from "en"; a falsy content is kept |
| Cache.CacheAll | src/cache_manager.py:125-138 | at most one entry per search result |
| Cache.CacheAllComplete | src/cache_manager.py:125-138 | with a well-behaved store, one entry per result, in result order, each the stored entry |
| Cache.CountTranslated | src/cache_manager.py:192 | at most the number of entries; zero when none is translated |
| Cache.CountTranslatedAppend | src/cache_manager.py:192 | counting distributes over concatenation |
| Cache.AllTranslated | src/cache_manager.py:192 | when all entries are translated, all are counted |
| Cache.CacheStats | src/cache_manager.py:188-199 | translated + not_translated == total_cached == number of entries |
| Cache.CacheManager.CacheArticle | src/cache_manager.py:16-41 | a cached id returns True without writing; otherwise one insert, True if and only if it did not raise |
| Cache.CacheManager.GetOrFetchArticle | src/cache_manager.py:43-65 | a hit without `force_refresh` returns the entry and charges nothing; otherwise one request is charged, a failed fetch returns None and writes nothing, and a fetched article is saved untranslated |
| Cache.Settle | src/cache_manager.py:78-115 | an entry already translated, or a disabled translator, comes back unchanged with the cache untouched; otherwise the translation of the original fields is saved under the id and the entry is read back, `None` if the store has none |
| Cache.CachedTranslation | src/cache_manager.py:67-76 | a cached entry is settled as it is; a miss whose fetch fails gives `None` and leaves the cache alone; a fetched article is saved and the entry read back before settling |
| Cache.CachedTranslationFound | src/cache_manager.py:67-115 | with a well-behaved store, an id that is cached or can be fetched always yields the entry then stored under it, and every other entry is unchanged |
| Cache.CacheManager.TranslateCachedArticle | src/cache_manager.py:67-115 | the cache afterwards and the result are `CachedTranslation`; a cached entry leaves the usage ledger untouched, a miss charges one request |
| Cache.CacheManager.SearchAndCache | src/cache_manager.py:117-138 | store and result follow `CacheAll` over the search results; the search is charged as `search_articles` |
| Cache.CacheManager.GetCacheStats | src/cache_manager.py:188-199 | returns `CacheStats` of the listed entries |
| Web.WordPressClient.CreatePost | src/web_interface.py:470-474 | the outcome is that of `create_post`, and the article is recorded as handed over |
| Web.Prepared | src/web_interface.py:462-464 | without translation the article is published as found |
| Web.Published | src/web_interface.py:470-483 | the article counts once, as synced or skipped; errors grow by no more than skips and stay non-empty; the article is recorded as handed to WordPress |
| Web.Step | src/web_interface.py:447-489 | every article increments exactly one of synced or skipped; errors never outnumber skips |
| Web.SyncAll | src/web_interface.py:447-489 | synced + skipped equals the length of the list; every error text is non-empty and there are no more errors than skips; at most one post per article |
| Web.Filtered | src/web_interface.py:440-444 | "both" keeps the list; the filter never adds articles |
| Web.ErrorText | src/web_interface.py:492 | `None` if and only if there are no errors |
| Web.StoredArticleSkipped | src/web_interface.py:450-453 | a stored article is skipped before relevance, translation and `create_post` |
| Web.IrrelevantArticleSkipped | src/web_interface.py:456-459 | an irrelevant article is skipped before translation and `create_post` |
| Web.SyncAllEffects | src/web_interface.py:447-489 | rows are only appended, one per synced article; earlier rows stay; nothing stored before the run is published |
| Web.SyncAllPostsFromList | src/web_interface.py:447-474 | every published article is a relevant article of the list, as prepared |
| Web.StepPosts | src/web_interface.py:447-474 | one step publishes nothing, or the prepared article when it is relevant |
| Web.ClampLimit | src/web_interface.py:263 | the limit is clamped to [1, 6] |
| Web.WithImages | src/web_interface.py:276-278 | only articles with a truthy `cover_image` or `image_url`, taken from the feed |
| Web.WithImagesPrefix | src/web_interface.py:276-280 | filtering a prefix of the feed gives a prefix of the filtered feed |
| Web.WithImagesComplete | src/web_interface.py:276-278 | every article with an image is kept |
| Web.TrendingPicksProperties | src/web_interface.py:274-282 | at most `limit` articles, all with an image, in feed order |
| Web.SlugQuery | src/web_interface.py:372 | the search term from a URL is at most 50 characters |
| Web.SingleSync | src/web_interface.py:379-411 | a missing article and an already stored id are errors and publish nothing; success publishes the prepared article |
| Web.SingleSyncSaves | src/web_interface.py:402-411 | success stores the article and keeps ids unique; failure leaves the rows unchanged |
| Web.FirstOf | src/web_interface.py:374-375 | the first result exactly when there is one |
| Web.SyncRun | src/web_interface.py:429-509 | a failed search logs (0, 0, 0, message) and fails; otherwise the log records the found, synced and skipped counts |
| Web.SyncRunCounts | src/web_interface.py:436-493 | synced + skipped equals the filtered list's length and is at most found; the log is "success" if and only if there are no errors |
| Web.WebInterface.constructor | src/web_interface.py:17-53 | the interface holds its store, clients, translator, config and settings |
| Web.WebInterface.Env | src/web_interface.py:456-474 | a run matches against the configured keywords and publishes through the WordPress client's `create_post` |
| Web.WebInterface.RunSync | src/web_interface.py:417-509 | without both clients it fails before any search or log; otherwise it computes `SyncRun`, writes exactly one log, and charges the search |
| Web.WebInterface.SyncFound | src/web_interface.py:436-503 | after the search, the store, log and return value follow `SyncRun` |
| Web.WebInterface.SettleAll | src/web_interface.py:447-489 | the loop's counters, errors and store follow `SyncAll` |
| Web.WebInterface.Trending | src/web_interface.py:257-298 | the limit is clamped; with a tag, a client and budget, the result is the first `limit` feed articles with an image from a fetch of twice the limit; otherwise []; the budget check creates the month's record and the fetch charges one request per feed id; no client charges nothing |
| Web.WebInterface.PickWithImages | src/web_interface.py:275-282 | the loop with break computes `TrendingPicks` |
| Web.WebInterface.SyncSingleArticle | src/web_interface.py:350-415 | no URL, missing clients, a missing article or a stored id are errors that publish nothing; the store follows `SingleSync`; a search on the slug charges one request plus one per result id, an article given with the request charges nothing |
| Web.WebInterface.SyncFoundArticle | src/web_interface.py:382-411 | a stored id is refused before anything is published; otherwise as `SingleSync` |
| Web.WebInterface.SyncArticle | src/web_interface.py:448-489 | one pass of the loop performs `Step` on the store and counters |
| Web.WebInterface.Prepare | src/web_interface.py:462-464 | the article handed on is `Prepared`: translated into Portuguese exactly when automatic translation is on and the translator is enabled, with its id kept |
| Web.WebInterface.Publish | src/web_interface.py:470-483 | publishing one article performs `Published` |

## Left out

- Flask routes, templates, `flash`, `jsonify`, login and the HTTP status
  codes are not modelled. Only `run_sync`, the trending route's clamp and
  filter, and the single-article sync are.
- All network calls are abstract functions, so timeouts, retries and
  `time.sleep` rate limiting are left out. This covers the Medium API,
  WordPress and the language model.
- Exceptions inside `create_post` are modelled as the `Raised` outcome.
  Their message text is a parameter.
- The language model's prompts are not modelled. `_clean_translated_text`
  and `_remove_hyphens` are folded into the abstract model functions
  (`Llm.text` and `Llm.dehyphen`), because they are stacked regular
  expressions with no stated contract.
- The BeautifulSoup and markdown libraries are abstract:
  - `_postprocess_html` is stated over the page's elements in document
    order, each with its depth, so what lies inside an element is the run
    of deeper elements after it. A cleared heading, a code block in `pre`
    replaced by its card, and a deleted paragraph take that run with them.
  - Each loop of `_postprocess_html` walks the element list that
    `find_all` collected before it started. An element detached earlier
    in the same loop (an h2 inside a cleared h2, say) is still edited but
    no longer on the page. The model edits only what is on the page.
  - `_format_code_block`'s card is reduced to a `div` with class
    `codehilite`. Its language detection and HTML escaping are left out.
  - `_translate_html` is stated over the parser's list of text nodes.
- ContentProcessor.DroppedParagraph: judges a paragraph on its text and
  `<br>` as parsed. The source reads them after the heading pass, so a
  paragraph holding a heading would be judged on the heading's emptied
  text. Markdown never nests a heading in a paragraph.
- ContentProcessor.Restyle: a code element inside `pre` becomes the card
  in its own place, and the `pre` element stays. The source replaces the
  whole `pre`.
- ContentProcessor.PostprocessHtml: the card's text is the code element's
  text as parsed. The source reads `code_tag.get_text()` after the heading
  pass (src/content_processor.py:354), so it includes the text of
  elements inside the code, with any heading there already emptied.
  Other children of the `pre` besides the code stay in the model, where
  `replace_with` removes them (line 370). A `pre` holding two code
  elements makes the second `replace_with` run on the detached `pre`,
  which raises `ValueError` in the source; the model returns a page.
- The list-marker rewrite of `_preprocess_markdown_structure` (line 262)
  is the identity and is left out.
- Floating-point statistics are left out: `get_api_usage_statistics`,
  `get_statistics` and usage percentages.
- `get_recent_articles` and `get_sync_logs` are queries that the core
  does not use.
- SQLAlchemy sessions and commits are not modelled. The store's methods
  are atomic.
- The clock is a parameter: the current month and time are strings.
- The cache store (`get_cache`, `save_cache`, `cache_article`,
  `get_all_cached_articles`, `clear_expired_cache`) is abstract.
  `src/database.py` defines none of these methods, so there is no expiry
  behaviour to model. `clear_cache` only forwards to that store, and
  `get_comparison_data` is a view for a page; both are left out.
- Reading and writing the settings file is not modelled. A write's
  success is a `writeOk` parameter, and the result of `load_settings` is
  the constructor's `loaded` parameter. `export_settings` and `import_settings` are JSON
  text I/O and are left out.
- The environment is read once at import time. Its values are parameters.
- `get_related_articles` and `get_user_info` are not used by the core.
- A missing `title` key in an article dict raises `KeyError` in the
  log messages of `run_sync`. Search results always carry a title, so the
  model reads titles with a default instead.
- Web.WebInterface.PickWithImages: requires `limit >= 1`, which the
  route's clamp guarantees before it is called.
- Settings.Defaults: states the sections and that each is a dict. The
  individual default values are written out in the section functions
  beside it, but no lemma restates them.
- Medium.Info: the `except` branch of `get_article_info` that sets
  `content_format` to 'none' is unreachable, because
  `get_article_content` catches its own exceptions. It is not modelled.
- Translator.TranslateAndRewrite: the backtick path restores code spans
  in one pass (`CodePreserved`), not one placeholder after another over
  the whole text as lines 83-84 do. On content that already holds
  placeholder-like text the source loses a code span and the model does
  not (see Findings).
- Translator.TranslatedArticle: its content goes through
  `TranslateAndRewrite`, so it inherits that member's corrected restore.
- Translator.TranslateArticle: equal to `TranslatedArticle`, so it
  inherits the same corrected restore.
- Strings.Lower: maps ASCII and Latin-1 capitals only, and
  Strings.IsSpace knows ASCII and Latin-1 white space only. Python's
  `str.lower()` and `str.strip()` are full Unicode: 'İ' lowers to two
  characters, the Kelvin sign U+212A lowers to 'k', and U+2003 is
  stripped. Strings.LowerChar, Strings.Strip,
  ContentProcessor.NormalizeTag (whose length equality fails for 'İ'),
  ContentProcessor.Blocked, Medium.IsArticleRelevant and
  ContentProcessor.CategoryKey inherit this.
- Settings.SettingsManager.GetAll: sections are values, so the result
  cannot share anything with the store. In the source `copy()` is
  shallow: `get_all()['medium'][key] = v` changes the live section.
- Settings.SettingsManager.UpdateSection: for a new section the source
  stores the caller's `data` dict itself (line 118), so the caller's
  later edits reach the settings. The model stores a copy of the value.
- Medium.Info: a JSON `null` for title, subtitle, tags, topics or `lang` is
  treated like a missing key and gets the default. In the source
  `.get(key, default)` returns `None` for a null value. The `.lower()`
  of `should_filter_article` then raises inside `search_articles`, which
  returns [] (src/medium_api.py:67-69). `is_article_relevant` raises on
  the same values, which `run_sync` records as an error. `reading_time` is a number
  the API may send as a float; the model keeps an integer, which is only
  stored and never computed with.
- Medium.Project: a JSON `null` for `lang` becomes "en" in the model. In
  the source `data.get('lang', 'en')` keeps `None` (src/medium_api.py:102),
  and `filter_articles_by_language` then drops that article under both
  "en" and "pt" (src/medium_api.py:326-331). The model's "en" filter keeps
  it. The same holds for title and subtitle, which the model sets to "".

## Findings

| source | as written | input that shows it | evidently intended | confidence | as-written member | corrected member |
|---|---|---|---|---|---|---|
| src/translator.py:66-86 | the restore loop (lines 83-84) replaces every occurrence of placeholder 0, then of placeholder 1, and so on, over the whole text | content "`a``b`CODE_BLOCK_0__" with a model that returns its input: masking gives "__CODE_BLOCK_0____CODE_BLOCK_1__CODE_BLOCK_0__", whose last fifteen characters form a second placeholder 0. Restoring block 0 then consumes the tail of placeholder 1, giving "`a`__CODE_BLOCK_1`a`": the span "`b`" is lost and "`a`" appears twice | each placeholder the masking produced is restored to its own code span, so the content comes back exactly when nothing was translated | not executed | Translator.SequentialRestoreLosesCode | Translator.CodePreservationRoundTrip |
| src/content_processor.py:284-286 | each h2, including every renamed h1, is cleared with `clear()`, and its string is then set to `get_text()`, which is '' once the children are gone | `<h1>Intro</h1>` comes out as `<h2></h2>`, so every heading of a converted article loses its text | the heading is flattened to its own text, `<h2>Intro</h2>` | not executed | ContentProcessor.RestyleLosesHeadingText | ContentProcessor.RestyleIntended |
| src/content_processor.py:289-294 | a paragraph with no stripped text and no `<br>` is decomposed with everything inside it | a markdown image on a line of its own, `![x](y.png)`, becomes `<p><img alt="x" src="y.png"/></p>`; the paragraph has no text, so the image is deleted | only paragraphs with nothing in them are removed, and images reach the page to be styled at lines 321-323 | not executed | ContentProcessor.ImageParagraphLost | ContentProcessor.IntendedKeepsImages |

The translation path uses the corrected restore: `TranslateAndRewrite`
calls `CodePreserved`, and the restore as written is
`CodePreservedAsWritten`. The post-processing of `_postprocess_html`
follows the code as written, through `Restyle` and `DroppedParagraph`,
because those two defects change the output for ordinary pages. The
corrected `RestyleIntended` and `EmptyParagraph` stand beside it.
