/** Content rules applied to every article before it is published
    (`ContentProcessor` in src/content_processor.py): the denylist filter,
    tag normalisation, category inference, attribution projection, the
    plain-text wrapper, the markdown rewrites and the structural HTML edits. */
module ContentProcessor {
  import opened Strings
  import opened Articles

  // ---------------------------------------------------------------------
  // Constants
  // ---------------------------------------------------------------------

  /** Phrases that mark job ads and sales pitches. */
  const BlockedKeywords: seq<string> := [
    "hiring", "we are hiring", "job opening", "job opportunity",
    "vacancy", "vaga", "vagas", "contratando", "oportunidade de emprego",
    "sale", "discount", "promo", "promotion", "black friday",
    "buy now", "compre agora", "promoção", "desconto",
    "iphone", "samsung galaxy", "smartphone deals"
  ]

  /** The allow-list of normalised tags. */
  const RelevantTags: set<string> := {
    "kubernetes", "devops", "cloud-computing", "docker", "ci-cd",
    "aws", "azure", "gcp", "terraform", "ansible", "jenkins",
    "n8n", "api-integration", "api", "rest", "graphql", "webhook",
    "automation", "microservices", "serverless",
    "full-stack", "full-stack-developer", "backend-development",
    "front-end-development", "frontend", "backend",
    "nextjs", "react", "vue", "angular", "laravel", "spring-boot",
    "django", "express", "fastapi", "rails",
    "javascript", "typescript", "python", "java", "kotlin",
    "swift", "golang", "rust", "php", "ruby", "c#", "c++",
    "programming-languages", "programming", "coding",
    "android", "ios", "react-native", "flutter", "xamarin",
    "artificial-intelligence", "ai", "deep-learning", "llm",
    "machine-learning", "generative-ai", "generative-ai-tools",
    "chatgpt", "neural-networks", "nlp", "computer-vision",
    "web-development", "responsive-design", "pwa", "spa",
    "web-performance", "web-security",
    "database", "postgresql", "mongodb", "redis", "mysql",
    "nosql", "sql", "elasticsearch", "cassandra",
    "tech", "software-development", "data-science", "blockchain",
    "cybersecurity", "iot", "big-data", "analytics"
  }

  /** Tags used when none of an article's tags is relevant. */
  const DefaultTags: seq<string> := ["tech", "programming"]

  /** At most this many tags are published. */
  const MaxTags := 5

  /** Only this many leading characters of the body are scanned. */
  const ContentWindow := 1000

  /** Category of each key, in declaration order (the order in which the
      title is scanned). */
  const CategoryMap: seq<(string, string)> := [
    ("ai", "Inteligência Artificial"),
    ("artificial-intelligence", "Inteligência Artificial"),
    ("machine-learning", "Machine Learning"),
    ("deep-learning", "Deep Learning"),
    ("programming", "Programação"),
    ("javascript", "JavaScript"),
    ("python", "Python"),
    ("react", "React"),
    ("nodejs", "Node.js"),
    ("web-development", "Desenvolvimento Web"),
    ("backend", "Backend"),
    ("frontend", "Frontend"),
    ("devops", "DevOps"),
    ("cloud", "Cloud Computing"),
    ("docker", "Docker"),
    ("kubernetes", "Kubernetes"),
    ("data-science", "Data Science"),
    ("database", "Banco de Dados")
  ]

  const DefaultCategory := "Tecnologia"

  // ---------------------------------------------------------------------
  // Denylist filter
  // ---------------------------------------------------------------------

  /** The lower-cased title. */
  function TitleText(a: Article): string {
    Lower(OrElse(a.title, ""))
  }

  /** The lower-cased subtitle. */
  function SubtitleText(a: Article): string {
    Lower(OrElse(a.subtitle, ""))
  }

  /** The first `ContentWindow` characters of the lower-cased body. */
  function ContentHead(a: Article): string {
    Take(Lower(OrElse(a.content, "")), ContentWindow)
  }

  /** `keyword` occurs in the title, the subtitle or the head of the body. */
  predicate Hits(a: Article, keyword: string) {
    Contains(TitleText(a), keyword) || Contains(SubtitleText(a), keyword)
    || Contains(ContentHead(a), keyword)
  }

  /** Some denylisted phrase occurs in one of the scanned texts. */
  predicate Blocked(a: Article) {
    exists i :: 0 <= i < |BlockedKeywords| && Hits(a, BlockedKeywords[i])
  }

  /** `should_filter_article`: scans the denylist in order and stops at the
      first phrase found. */
  method ShouldFilterArticle(a: Article) returns (filtered: bool)
    ensures filtered <==> Blocked(a)
  {
    var title := TitleText(a);
    var subtitle := SubtitleText(a);
    var content := ContentHead(a);
    for i := 0 to |BlockedKeywords|
      invariant forall j :: 0 <= j < i ==> !Hits(a, BlockedKeywords[j])
    {
      var keyword := BlockedKeywords[i];
      if Contains(title, keyword) || Contains(subtitle, keyword) || Contains(content, keyword) {
        return true;
      }
    }
    return false;
  }

  /** Text after the first thousand characters of the body never changes
      the verdict. */
  lemma BlockedIgnoresTail(a: Article, extra: string)
    requires |OrElse(a.content, "")| >= ContentWindow
    ensures Blocked(a.(content := Some(OrElse(a.content, "") + extra))) <==> Blocked(a)
  {
    var c := OrElse(a.content, "");
    var b := a.(content := Some(c + extra));
    assert ContentHead(b) == ContentHead(a) by {
      assert Lower(c + extra)[..ContentWindow] == Lower(c)[..ContentWindow];
    }
    assert forall k :: Hits(b, k) <==> Hits(a, k);
  }

  /** The filter ignores letter case: lower-casing the title first gives
      the same verdict. */
  lemma BlockedIgnoresCase(a: Article)
    requires a.title.Some?
    ensures Blocked(a.(title := Some(Lower(a.title.value)))) <==> Blocked(a)
  {
    LowerIdempotent(a.title.value);
    var b := a.(title := Some(Lower(a.title.value)));
    assert TitleText(b) == TitleText(a);
    assert forall k :: Hits(b, k) <==> Hits(a, k);
  }

  /** A job advert is filtered by its title alone. */
  lemma HiringAdvertIsBlocked(a: Article)
    requires a.title == Some("We are hiring Python developers")
    ensures Blocked(a)
  {
    var t := TitleText(a);
    var s := "We are hiring Python developers";
    assert s == "We are " + "hiring" + " Python developers";
    assert s[7..13] == "hiring";
    LowerSlice(s, 7, 13);
    LowerOfLower("hiring");
    assert t[7..13] == "hiring";
    OccursContains(t, "hiring", 7);
    assert Hits(a, BlockedKeywords[0]);
  }

  // ---------------------------------------------------------------------
  // Tags
  // ---------------------------------------------------------------------

  /** `tag.lower().replace(' ', '-').replace('_', '-')`. Character by
      character: lower-cased, with spaces and underscores turned into '-'. */
  function NormalizeTag(tag: string): (n: string)
    ensures |n| == |tag|
    ensures forall i :: 0 <= i < |tag| ==>
      n[i] == (if LowerChar(tag[i]) == ' ' || LowerChar(tag[i]) == '_' then '-' else LowerChar(tag[i]))
  {
    var lowered := Lower(tag);
    var spaced := ReplaceAll(lowered, " ", "-");
    ReplaceCharIsMap(lowered, ' ', '-');
    ReplaceCharIsMap(spaced, '_', '-');
    ReplaceAll(spaced, "_", "-")
  }

  /** A normalised tag normalises to itself. */
  lemma NormalizeTagIdempotent(tag: string)
    ensures NormalizeTag(NormalizeTag(tag)) == NormalizeTag(tag)
  {
  }

  /** One tag as `filter_and_normalize_tags` keeps it: its normalised
      form when that is relevant, nothing otherwise. */
  function KeepTag(tag: string): (k: seq<string>)
    ensures |k| <= 1
  {
    var n := NormalizeTag(tag);
    if n in RelevantTags then [n] else []
  }

  /** The relevant normalised tags, in input order, duplicates kept. */
  function Kept(tags: seq<string>): (k: seq<string>)
    ensures |k| <= |tags|
    decreases |tags|
  {
    if tags == [] then []
    else Kept(tags[..|tags| - 1]) + KeepTag(tags[|tags| - 1])
  }

  /** Every kept tag is relevant and already normalised. */
  lemma {:induction false} KeptRelevant(tags: seq<string>)
    ensures forall t :: t in Kept(tags) ==> t in RelevantTags && NormalizeTag(t) == t
    decreases |tags|
  {
    if tags != [] {
      KeptRelevant(tags[..|tags| - 1]);
      NormalizeTagIdempotent(tags[|tags| - 1]);
    }
  }

  /** Keeping distributes over concatenation: order is preserved and
      nothing is de-duplicated. */
  lemma {:induction false} KeptAppend(a: seq<string>, b: seq<string>)
    ensures Kept(a + b) == Kept(a) + Kept(b)
    decreases |b|
  {
    if b == [] {
      assert a + b == a;
    } else {
      InitOfAppend(a, b);
      KeptAppend(a, b[..|b| - 1]);
    }
  }

  /** The tags published for an article. */
  function PublishedTags(tags: seq<string>): (r: seq<string>)
    ensures 1 <= |r| <= MaxTags
    ensures forall t :: t in r ==> t in RelevantTags
    ensures Kept(tags) != [] ==> r == Take(Kept(tags), MaxTags)
    ensures Kept(tags) == [] ==> r == DefaultTags
  {
    var k := Kept(tags);
    KeptRelevant(tags);
    Take(if k == [] then DefaultTags else k, MaxTags)
  }

  /** `filter_and_normalize_tags`. */
  method FilterAndNormalizeTags(tags: seq<string>) returns (r: seq<string>)
    ensures r == PublishedTags(tags)
  {
    var normalized: seq<string> := [];
    for i := 0 to |tags|
      invariant normalized == Kept(tags[..i])
    {
      var n := NormalizeTag(tags[i]);
      assert tags[..i + 1][..i] == tags[..i];
      if n in RelevantTags {
        normalized := normalized + [n];
      }
    }
    assert tags[..|tags|] == tags;
    if normalized == [] {
      normalized := DefaultTags;
    }
    r := Take(normalized, MaxTags);
  }

  /** A list of relevant, already normalised tags is kept as it is. */
  lemma {:induction false} KeptFixed(tags: seq<string>)
    requires forall t :: t in tags ==> t in RelevantTags && NormalizeTag(t) == t
    ensures Kept(tags) == tags
    decreases |tags|
  {
    if tags != [] {
      KeptFixed(tags[..|tags| - 1]);
      assert tags[|tags| - 1] in tags;
      InitLast(tags);
    }
  }

  /** A tag without upper-case letters, spaces or underscores is already
      normalised. */
  lemma NormalizePlainTag(t: string)
    requires forall i :: 0 <= i < |t| ==> !IsUpper(t[i]) && t[i] != ' ' && t[i] != '_'
    ensures NormalizeTag(t) == t
  {
    var n := NormalizeTag(t);
    forall i | 0 <= i < |t|
      ensures n[i] == t[i]
    {
      assert LowerChar(t[i]) == t[i];
    }
  }

  lemma TechTagFixed()
    ensures "tech" in RelevantTags && NormalizeTag("tech") == "tech"
  {
    NormalizePlainTag("tech");
  }

  lemma ProgrammingTagFixed()
    ensures "programming" in RelevantTags && NormalizeTag("programming") == "programming"
  {
    NormalizePlainTag("programming");
  }

  /** The default tags are relevant and already normalised. */
  lemma DefaultTagsFixed()
    ensures forall t :: t in DefaultTags ==> t in RelevantTags && NormalizeTag(t) == t
  {
    TechTagFixed();
    ProgrammingTagFixed();
  }

  /** Normalising published tags again changes nothing. */
  lemma PublishedTagsIdempotent(tags: seq<string>)
    ensures PublishedTags(PublishedTags(tags)) == PublishedTags(tags)
  {
    var r := PublishedTags(tags);
    if Kept(tags) == [] {
      DefaultTagsFixed();
      assert r == DefaultTags;
    } else {
      KeptRelevant(tags);
      assert forall t :: t in r ==> t in Kept(tags);
    }
    KeptFixed(r);
    assert Kept(r) == r != [];
    assert Take(r, MaxTags) == r[..|r|] == r;
  }

  // ---------------------------------------------------------------------
  // Category
  // ---------------------------------------------------------------------

  /** The category a tag is looked up under: lower-cased, spaces to '-'
      (underscores are kept, unlike `NormalizeTag`). */
  function CategoryKey(tag: string): string {
    ReplaceAll(Lower(tag), " ", "-")
  }

  /** `CATEGORY_MAP.get(key)`, scanning from entry `i`. */
  function LookupFrom(key: string, i: nat): (c: Option<string>)
    requires i <= |CategoryMap|
    decreases |CategoryMap| - i
  {
    if i == |CategoryMap| then None
    else if CategoryMap[i].0 == key then Some(CategoryMap[i].1)
    else LookupFrom(key, i + 1)
  }

  /** The lookup finds a value exactly when some entry from `i` on has the
      key, and then the value of such an entry. */
  lemma {:induction false} LookupFromFinds(key: string, i: nat)
    requires i <= |CategoryMap|
    ensures LookupFrom(key, i).Some? <==> exists j :: i <= j < |CategoryMap| && CategoryMap[j].0 == key
    ensures LookupFrom(key, i).Some? ==>
      exists j :: i <= j < |CategoryMap| && CategoryMap[j] == (key, LookupFrom(key, i).value)
    decreases |CategoryMap| - i
  {
    if i < |CategoryMap| && CategoryMap[i].0 != key {
      LookupFromFinds(key, i + 1);
    }
  }

  /** `CATEGORY_MAP.get` on the key of one tag. */
  function TagLookup(tag: string): Option<string> {
    LookupFrom(CategoryKey(tag), 0)
  }

  /** The first value `lookup` finds, scanning `tags` in order. */
  function FirstFound(tags: seq<string>, lookup: string -> Option<string>): Option<string>
    decreases |tags|
  {
    if tags == [] then None
    else if lookup(tags[0]).Some? then lookup(tags[0])
    else FirstFound(tags[1..], lookup)
  }

  /** The category of the first tag whose key is in the map. */
  function TagCategory(tags: seq<string>): Option<string> {
    FirstFound(tags, TagLookup)
  }

  /** The category of the first key, in map order from entry `i`, that
      occurs in the (lower-cased) title. */
  function TitleCategory(title: string, i: nat): Option<string>
    requires i <= |CategoryMap|
    decreases |CategoryMap| - i
  {
    if i == |CategoryMap| then None
    else if Contains(title, CategoryMap[i].0) then Some(CategoryMap[i].1)
    else TitleCategory(title, i + 1)
  }

  /** The category chosen for an article: tags first, then the title, then
      the default. */
  function Category(a: Article): (c: string)
    ensures c == DefaultCategory || exists j :: 0 <= j < |CategoryMap| && c == CategoryMap[j].1
  {
    match TagCategory(OrElse(a.tags, []))
    case Some(c) => TagCategoryIsValue(OrElse(a.tags, [])); c
    case None =>
      match TitleCategory(TitleText(a), 0)
      case Some(c) => TitleCategoryIsValue(TitleText(a), 0); c
      case None => DefaultCategory
  }

  lemma {:induction false} TagCategoryIsValue(tags: seq<string>)
    ensures TagCategory(tags).Some? ==>
      exists j :: 0 <= j < |CategoryMap| && TagCategory(tags).value == CategoryMap[j].1
    decreases |tags|
  {
    if tags != [] {
      LookupFromFinds(CategoryKey(tags[0]), 0);
      if TagLookup(tags[0]).None? {
        TagCategoryIsValue(tags[1..]);
      }
    }
  }

  lemma {:induction false} TitleCategoryIsValue(title: string, i: nat)
    requires i <= |CategoryMap|
    ensures TitleCategory(title, i).Some? ==>
      exists j :: i <= j < |CategoryMap| && TitleCategory(title, i).value == CategoryMap[j].1
    decreases |CategoryMap| - i
  {
    if i < |CategoryMap| && !Contains(title, CategoryMap[i].0) {
      TitleCategoryIsValue(title, i + 1);
    }
  }

  /** `determine_category`: two scans with early return. */
  method DetermineCategory(a: Article) returns (category: string)
    ensures category == Category(a)
  {
    var tags := OrElse(a.tags, []);
    var title := TitleText(a);
    for i := 0 to |tags|
      invariant TagCategory(tags) == TagCategory(tags[i..])
    {
      assert tags[i..][1..] == tags[i + 1..];
      var c := TagLookup(tags[i]);
      if c.Some? {
        return c.value;
      }
    }
    for i := 0 to |CategoryMap|
      invariant TitleCategory(title, 0) == TitleCategory(title, i)
    {
      if Contains(title, CategoryMap[i].0) {
        return CategoryMap[i].1;
      }
    }
    return DefaultCategory;
  }

  /** A tag match beats any title match: the category is that of the first
      tag whose key is in the map, whatever the title says. */
  lemma FirstTagWins(tags: seq<string>, i: nat, a: Article)
    requires i < |tags| && a.tags == Some(tags)
    requires TagLookup(tags[i]).Some?
    requires forall j :: 0 <= j < i ==> TagLookup(tags[j]).None?
    ensures Category(a) == TagLookup(tags[i]).value
  {
    FirstFoundAt(tags, TagLookup, i);
  }

  /** The scan stops at the first tag the lookup finds. */
  lemma {:induction false} FirstFoundAt(tags: seq<string>, lookup: string -> Option<string>, i: nat)
    requires i < |tags|
    requires lookup(tags[i]).Some?
    requires forall j :: 0 <= j < i ==> lookup(tags[j]).None?
    ensures FirstFound(tags, lookup) == lookup(tags[i])
    decreases i
  {
    if i > 0 {
      var rest := tags[1..];
      assert rest[i - 1] == tags[i];
      forall j | 0 <= j < i - 1
        ensures lookup(rest[j]).None?
      {
        assert rest[j] == tags[j + 1];
      }
      assert lookup(tags[0]).None?;
      FirstFoundAt(rest, lookup, i - 1);
    }
  }

  /** Without a tag match, the first map key (in declaration order) found
      in the lower-cased title decides. */
  lemma {:induction false} FirstTitleKeyWins(a: Article, i: nat)
    requires i < |CategoryMap|
    requires TagCategory(OrElse(a.tags, [])).None?
    requires Contains(TitleText(a), CategoryMap[i].0)
    requires forall j :: 0 <= j < i ==> !Contains(TitleText(a), CategoryMap[j].0)
    ensures Category(a) == CategoryMap[i].1
  {
    TitleCategoryAt(TitleText(a), 0, i);
  }

  lemma {:induction false} TitleCategoryAt(title: string, from: nat, i: nat)
    requires from <= i < |CategoryMap|
    requires Contains(title, CategoryMap[i].0)
    requires forall j :: from <= j < i ==> !Contains(title, CategoryMap[j].0)
    ensures TitleCategory(title, from) == Some(CategoryMap[i].1)
    decreases i - from
  {
    if from < i {
      TitleCategoryAt(title, from + 1, i);
    }
  }

  lemma ReactKey()
    ensures CategoryKey("react") == "react" && CategoryKey("React") == "react"
  {
    LowerOfLower("react");
    assert Lower("React") == "react";
    ReplaceAllAbsent("react", " ", "-");
  }

  lemma ReactLookup()
    ensures LookupFrom("react", 0) == Some("React")
  {
  }

  lemma AiKey()
    ensures CategoryKey("artificial-intelligence") == "artificial-intelligence"
  {
    LowerOfLower("artificial-intelligence");
    ReplaceAllAbsent("artificial-intelligence", " ", "-");
  }

  lemma AiLookup()
    ensures LookupFrom("artificial-intelligence", 0) == Some("Inteligência Artificial")
  {
  }

  /** The project's own category examples, and a tag that beats a title
      naming another category. */
  lemma CategoryExamples(ai: Article, js: Article, mixed: Article)
    requires ai.tags == Some(["artificial-intelligence", "pytorch", "deep-learning"])
    requires js.tags == Some(["react", "javascript", "frontend"])
    requires mixed.tags == Some(["React"]) && mixed.title == Some("Python tips")
    ensures Category(ai) == "Inteligência Artificial"
    ensures Category(js) == "React"
    ensures Category(mixed) == "React"
  {
    AiKey();
    AiLookup();
    ReactKey();
    ReactLookup();
  }

  // ---------------------------------------------------------------------
  // Attribution
  // ---------------------------------------------------------------------

  /** An attribution value: a string field or a count. */
  datatype Attr = Text(s: string) | Count(n: int)

  const AttributionKeys: set<string> := {"author", "published_at", "reading_time", "claps", "url"}

  /** The value an attribution key would copy, when the source field is
      usable (truthy, and positive for counts). */
  function Usable(a: Article, key: string): Option<Attr> {
    if key == "author" then (if Truthy(a.author) then Some(Text(a.author.value)) else None)
    else if key == "published_at" then
      (if a.publishedAt.At? && a.publishedAt.at != "" then Some(Text(a.publishedAt.at)) else None)
    else if key == "reading_time" then
      (if a.readingTime.Some? && a.readingTime.value > 0 then Some(Count(a.readingTime.value)) else None)
    else if key == "claps" then
      (if a.claps.Some? && a.claps.value > 0 then Some(Count(a.claps.value)) else None)
    else if key == "url" then (if Truthy(a.url) then Some(Text(a.url.value)) else None)
    else None
  }

  /** `clean_attribution_data`: only the five attribution keys, only when
      usable, each with the input's own value; no empty field is emitted. */
  function CleanAttributionData(a: Article): (m: map<string, Attr>)
    ensures m.Keys <= AttributionKeys
    ensures forall k :: k in AttributionKeys ==> (k in m <==> Usable(a, k).Some?)
    ensures forall k :: k in m ==> Some(m[k]) == Usable(a, k)
    ensures forall k :: k in m ==> (m[k].Text? ==> m[k].s != "") && (m[k].Count? ==> m[k].n > 0)
  {
    map k | k in AttributionKeys && Usable(a, k).Some? :: Usable(a, k).value
  }

  // ---------------------------------------------------------------------
  // Plain text to HTML
  // ---------------------------------------------------------------------

  /** `html.escape` on one character (quotes included). */
  function EscapeChar(c: char): (r: string)
    ensures r != [] && '\n' !in r[1..]
    ensures (r[0] == '\n') <==> (c == '\n')
  {
    if c == '&' then "&amp;"
    else if c == '<' then "&lt;"
    else if c == '>' then "&gt;"
    else if c == '"' then "&quot;"
    else if c == '\'' then "&#x27;"
    else [c]
  }

  /** `html.escape(s)`: the five special characters become entities. */
  function Escape(s: string): (r: string)
    ensures s == [] <==> r == []
    ensures s != [] ==> (r[0] == '\n' <==> s[0] == '\n')
    decreases |s|
  {
    if s == [] then [] else EscapeChar(s[0]) + Escape(s[1..])
  }

  /** The paragraph body as one left-to-right pass: a blank line closes the
      paragraph, a single line break becomes `<br>`, everything else is
      escaped. */
  function Body(t: string): (r: string)
    ensures '\n' !in r
    decreases |t|
  {
    if t == [] then []
    else if |t| >= 2 && t[0] == '\n' && t[1] == '\n' then "</p><p>" + Body(t[2..])
    else if t[0] == '\n' then "<br>" + Body(t[1..])
    else EscapeChar(t[0]) + Body(t[1..])
  }

  /** The two `str.replace` calls of `_text_to_html` over the escaped text. */
  function ReplaceChain(t: string): string {
    ReplaceAll(ReplaceAll(Escape(t), "\n\n", "</p><p>"), "\n", "<br>")
  }

  /** The two `str.replace` calls over the escaped text build exactly the
      one-pass body. */
  lemma {:induction false} ReplaceChainIsBody(t: string)
    ensures ReplaceChain(t) == Body(t)
    decreases |t|
  {
    if t == [] {
    } else if |t| >= 2 && t[0] == '\n' && t[1] == '\n' {
      ChainAtBlankLine(t);
      ReplaceChainIsBody(t[2..]);
    } else if t[0] == '\n' {
      ChainAtLineBreak(t);
      ReplaceChainIsBody(t[1..]);
    } else {
      ChainAtCharacter(t);
      ReplaceChainIsBody(t[1..]);
    }
  }

  /** A blank line becomes a paragraph break. */
  lemma ChainAtBlankLine(t: string)
    requires |t| >= 2 && t[0] == '\n' && t[1] == '\n'
    ensures ReplaceChain(t) == "</p><p>" + ReplaceChain(t[2..])
  {
    var e := Escape(t[2..]);
    assert Escape(t) == "\n\n" + e by {
      assert Escape(t) == "\n" + Escape(t[1..]);
      assert t[1..][1..] == t[2..];
    }
    assert IsPrefix("\n\n", "\n\n" + e);
    assert ("\n\n" + e)[2..] == e;
    var x := ReplaceAll(e, "\n\n", "</p><p>");
    ReplaceAllSkipsHead("</p><p>", x, "\n", "<br>");
  }

  /** A single line break becomes `<br>`. */
  lemma ChainAtLineBreak(t: string)
    requires t != [] && t[0] == '\n' && !(|t| >= 2 && t[1] == '\n')
    ensures ReplaceChain(t) == "<br>" + ReplaceChain(t[1..])
  {
    var e := Escape(t[1..]);
    assert Escape(t) == "\n" + e;
    assert !IsPrefix("\n\n", "\n" + e) by {
      if |"\n" + e| >= 2 {
        assert ("\n" + e)[1] == e[0];
      }
    }
    assert ("\n" + e)[1..] == e;
    var x := ReplaceAll(e, "\n\n", "</p><p>");
    assert ReplaceAll("\n" + e, "\n\n", "</p><p>") == "\n" + x;
    assert IsPrefix("\n", "\n" + x);
    assert ("\n" + x)[1..] == x;
  }

  /** Any other character is escaped. */
  lemma ChainAtCharacter(t: string)
    requires t != [] && t[0] != '\n'
    ensures ReplaceChain(t) == EscapeChar(t[0]) + ReplaceChain(t[1..])
  {
    var h := EscapeChar(t[0]);
    var e := Escape(t[1..]);
    assert '\n' !in h;
    ReplaceAllSkipsHead(h, e, "\n\n", "</p><p>");
    var x := ReplaceAll(e, "\n\n", "</p><p>");
    ReplaceAllSkipsHead(h, x, "\n", "<br>");
  }

  /** `_text_to_html`: escape, turn blank lines into paragraph breaks and
      the remaining line breaks into `<br>`, wrap in one paragraph. */
  function TextToHtml(text: string): (h: string)
    ensures h == "<p>" + Body(text) + "</p>"
    ensures '\n' !in h
  {
    ReplaceChainIsBody(text);
    "<p>" + ReplaceChain(text) + "</p>"
  }

  /** Reads a paragraph body back: the inverse of `Body`. */
  function BodyToText(h: string): string
    decreases |h|
  {
    if h == [] then []
    else if IsPrefix("</p><p>", h) then "\n\n" + BodyToText(h[7..])
    else if IsPrefix("<br>", h) then "\n" + BodyToText(h[4..])
    else if IsPrefix("&amp;", h) then "&" + BodyToText(h[5..])
    else if IsPrefix("&lt;", h) then "<" + BodyToText(h[4..])
    else if IsPrefix("&gt;", h) then ">" + BodyToText(h[4..])
    else if IsPrefix("&quot;", h) then "\"" + BodyToText(h[6..])
    else if IsPrefix("&#x27;", h) then "'" + BodyToText(h[6..])
    else [h[0]] + BodyToText(h[1..])
  }

  /** Reading back one escaped character. */
  lemma EscapeCharBack(c: char, rest: string)
    requires c != '\n'
    ensures BodyToText(EscapeChar(c) + rest) == [c] + BodyToText(rest)
  {
    var h := EscapeChar(c) + rest;
    assert h[..|EscapeChar(c)|] == EscapeChar(c);
    assert h[|EscapeChar(c)|..] == rest;
    if c == '&' {
      NotPrefixAt("</p><p>", h, 0);
      NotPrefixAt("<br>", h, 0);
    } else if c == '<' {
      NotPrefixAt("</p><p>", h, 0);
      NotPrefixAt("<br>", h, 0);
      NotPrefixAt("&amp;", h, 1);
    } else if c == '>' {
      NotPrefixAt("</p><p>", h, 0);
      NotPrefixAt("<br>", h, 0);
      NotPrefixAt("&amp;", h, 1);
      NotPrefixAt("&lt;", h, 1);
    } else if c == '"' {
      NotPrefixAt("</p><p>", h, 0);
      NotPrefixAt("<br>", h, 0);
      NotPrefixAt("&amp;", h, 1);
      NotPrefixAt("&lt;", h, 1);
      NotPrefixAt("&gt;", h, 1);
    } else if c == '\'' {
      NotPrefixAt("</p><p>", h, 0);
      NotPrefixAt("<br>", h, 0);
      NotPrefixAt("&amp;", h, 1);
      NotPrefixAt("&lt;", h, 1);
      NotPrefixAt("&gt;", h, 1);
      NotPrefixAt("&quot;", h, 1);
    } else {
      NotPrefixAt("</p><p>", h, 0);
      NotPrefixAt("<br>", h, 0);
      NotPrefixAt("&amp;", h, 0);
      NotPrefixAt("&lt;", h, 0);
      NotPrefixAt("&gt;", h, 0);
      NotPrefixAt("&quot;", h, 0);
      NotPrefixAt("&#x27;", h, 0);
    }
  }

  /** `BodyToText` undoes `Body`. */
  lemma {:induction false} BodyRoundTrip(t: string)
    ensures BodyToText(Body(t)) == t
    decreases |t|
  {
    if t == [] {
    } else if |t| >= 2 && t[0] == '\n' && t[1] == '\n' {
      ReadBackBlankLine(t);
      BodyRoundTrip(t[2..]);
    } else if t[0] == '\n' {
      ReadBackLineBreak(t);
      BodyRoundTrip(t[1..]);
    } else {
      EscapeCharBack(t[0], Body(t[1..]));
      assert Body(t) == EscapeChar(t[0]) + Body(t[1..]);
      BodyRoundTrip(t[1..]);
      HeadTail(t);
    }
  }

  /** A paragraph break reads back as a blank line. */
  lemma ReadBackBlankLine(t: string)
    requires |t| >= 2 && t[0] == '\n' && t[1] == '\n'
    ensures BodyToText(Body(t)) == "\n\n" + BodyToText(Body(t[2..]))
    ensures "\n\n" + t[2..] == t
  {
    var h := "</p><p>" + Body(t[2..]);
    assert h[..7] == "</p><p>" && h[7..] == Body(t[2..]);
  }

  /** A `<br>` reads back as a line break. */
  lemma ReadBackLineBreak(t: string)
    requires t != [] && t[0] == '\n' && !(|t| >= 2 && t[1] == '\n')
    ensures BodyToText(Body(t)) == "\n" + BodyToText(Body(t[1..]))
    ensures "\n" + t[1..] == t
  {
    var h := "<br>" + Body(t[1..]);
    assert h[..4] == "<br>" && h[4..] == Body(t[1..]);
    NotPrefixAt("</p><p>", h, 1);
  }

  /** Reads the output of `TextToHtml` back into the text. */
  function HtmlToText(h: string): Option<string> {
    if |h| >= 7 && h[..3] == "<p>" && h[|h| - 4..] == "</p>"
    then Some(BodyToText(h[3..|h| - 4]))
    else None
  }

  /** `_text_to_html` loses nothing: the text can be read back. */
  lemma TextToHtmlRoundTrip(text: string)
    ensures HtmlToText(TextToHtml(text)) == Some(text)
  {
    var h := TextToHtml(text);
    var b := Body(text);
    assert h[..3] == "<p>" && h[|h| - 4..] == "</p>" && h[3..|h| - 4] == b;
    BodyRoundTrip(text);
  }

  // ---------------------------------------------------------------------
  // Markdown pre-processing
  // ---------------------------------------------------------------------

  /** `_preprocess_code_blocks`: drops the backslash of an escaped backtick
      and of an escaped double quote. (Its third rewrite, which puts a
      fence's language tag back in place, is the identity.) */
  function PreprocessCodeBlocks(content: string): (r: string)
    ensures '\\' !in content ==> r == content
  {
    var unticked := ReplaceAll(content, "\\`", "`");
    if '\\' !in content then
      ReplaceAllAbsent(content, "\\`", "`");
      ReplaceAllAbsent(content, "\\\"", "\"");
      ReplaceAll(unticked, "\\\"", "\"")
    else
      ReplaceAll(unticked, "\\\"", "\"")
  }

  /** A line starting at `i` opens with "# " (a level-one heading). */
  predicate H1At(s: string, i: int) {
    0 <= i && i + 1 < |s| && s[i] == '#' && s[i + 1] == ' '
  }

  /** Index `i` starts a line of `s`. */
  predicate LineStart(s: string, i: int) {
    i == 0 || (0 < i <= |s| && s[i - 1] == '\n')
  }

  /** `re.sub(r'^# ', '## ', s, flags=re.MULTILINE)`, scanning left to
      right; `atLineStart` says whether the text so far ended a line. */
  function DemoteH1(s: string, atLineStart: bool): (r: string)
    ensures s != [] ==> r != [] && r[0] == s[0]
    ensures forall i :: 0 <= i < |r| && (if i == 0 then atLineStart else r[i - 1] == '\n') ==> !H1At(r, i)
    decreases |s|
  {
    if s == [] then []
    else if atLineStart && H1At(s, 0) then
      var rest := DemoteH1(s[2..], false);
      var r := "## " + rest;
      assert forall i :: 3 <= i < |r| ==> r[i] == rest[i - 3];
      assert forall i :: 4 <= i < |r| ==> H1At(r, i) == H1At(rest, i - 3);
      r
    else
      var rest := DemoteH1(s[1..], s[0] == '\n');
      var r := [s[0]] + rest;
      assert forall i :: 1 <= i < |r| ==> r[i] == rest[i - 1];
      assert forall i :: 2 <= i < |r| ==> H1At(r, i) == H1At(rest, i - 1);
      r
  }

  /** Text in which no line opens with "# " is left as it is. */
  lemma {:induction false} DemoteH1Fixes(s: string, atLineStart: bool)
    requires forall i :: 0 <= i < |s| && (if i == 0 then atLineStart else s[i - 1] == '\n') ==> !H1At(s, i)
    ensures DemoteH1(s, atLineStart) == s
    decreases |s|
  {
    if s != [] {
      assert !(atLineStart && H1At(s, 0));
      forall i | 0 <= i < |s[1..]| && (if i == 0 then s[0] == '\n' else s[1..][i - 1] == '\n')
        ensures !H1At(s[1..], i)
      {
        assert !H1At(s, i + 1);
      }
      DemoteH1Fixes(s[1..], s[0] == '\n');
      assert [s[0]] + s[1..] == s;
    }
  }

  /** Demoting twice is demoting once. */
  lemma DemoteH1Idempotent(s: string)
    ensures DemoteH1(DemoteH1(s, true), true) == DemoteH1(s, true)
  {
    DemoteH1Fixes(DemoteH1(s, true), true);
  }

  /** Length of the run of `c` that opens `s`. */
  function Run(s: string, c: char): (n: nat)
    ensures n <= |s|
    ensures forall i :: 0 <= i < n ==> s[i] == c
    ensures n < |s| ==> s[n] != c
    decreases |s|
  {
    if s != [] && s[0] == c then 1 + Run(s[1..], c) else 0
  }

  /** The length of a match of `#{2,6} ` at the start of `s`, if any: two
      to six '#' (a longer run cannot match) followed by a space. */
  function HeadingMark(s: string): (m: Option<nat>)
    ensures m.Some? ==> 3 <= m.value <= 7 && m.value <= |s| && s[m.value - 1] == ' '
    ensures m.Some? ==> forall i :: 0 <= i < m.value - 1 ==> s[i] == '#'
  {
    var h := Run(s, '#');
    if 2 <= h <= 6 && h < |s| && s[h] == ' ' then Some(h + 1) else None
  }

  /** `re.sub(r'\n(#{2,6} )', r'\n\n\1', s)`: a blank line before every
      heading mark that follows a line break. */
  function BlankBeforeHeadings(s: string): (r: string)
    decreases |s|
  {
    if s == [] then []
    else if s[0] == '\n' && HeadingMark(s[1..]).Some? then
      var m := HeadingMark(s[1..]).value;
      "\n\n" + s[1..1 + m] + BlankBeforeHeadings(s[1 + m..])
    else [s[0]] + BlankBeforeHeadings(s[1..])
  }

  /** Index of the first line break in `s` at or after `i`, or `|s|`. */
  function LineEnd(s: string, i: nat): (e: nat)
    requires i <= |s|
    ensures i <= e <= |s|
    ensures forall j :: i <= j < e ==> s[j] != '\n'
    ensures e < |s| ==> s[e] == '\n'
    decreases |s| - i
  {
    if i == |s| || s[i] == '\n' then i else LineEnd(s, i + 1)
  }

  /** The length of a match of `#{2,6} [^\n]+\n` at the start of `s`. */
  function HeadingLine(s: string): (n: Option<nat>)
    ensures n.Some? ==> 5 <= n.value <= |s| && s[n.value - 1] == '\n'
  {
    match HeadingMark(s)
    case None => None
    case Some(m) =>
      var e := LineEnd(s, m);
      if m < e < |s| then Some(e + 1) else None
  }

  /** `re.sub(r'(#{2,6} [^\n]+)\n', r'\1\n\n', s)`: a blank line after
      every heading line that ends in a line break. */
  function BlankAfterHeadings(s: string): (r: string)
    decreases |s|
  {
    if s == [] then []
    else match HeadingLine(s)
      case Some(n) => s[..n] + "\n" + BlankAfterHeadings(s[n..])
      case None => [s[0]] + BlankAfterHeadings(s[1..])
  }

  /** No three consecutive line breaks. */
  predicate NoTripleNewline(s: string) {
    forall i :: 0 <= i && i + 2 < |s| ==> !(s[i] == '\n' && s[i + 1] == '\n' && s[i + 2] == '\n')
  }

  /** `re.sub(r'\n{3,}', '\n\n', s)`: every run of three or more line
      breaks shrinks to two. */
  function CollapseNewlines(s: string): (r: string)
    ensures NoTripleNewline(r)
    ensures s != [] ==> r != [] && (r[0] == '\n' <==> s[0] == '\n')
    decreases |s|
  {
    if s == [] then []
    else if s[0] == '\n' then
      var n := Run(s, '\n');
      var rest := CollapseNewlines(s[n..]);
      var run := if n >= 3 then "\n\n" else s[..n];
      assert forall i :: 0 <= i < |run| ==> run[i] == '\n';
      assert rest != [] ==> rest[0] != '\n';
      run + rest
    else
      [s[0]] + CollapseNewlines(s[1..])
  }

  /** `_preprocess_markdown_structure`: level-one headings become level
      two, blank lines go around headings, long runs of blank lines are
      collapsed. (Its list rewrite `^([*+-]) ` to `\1 ` is the identity.) */
  function PreprocessMarkdownStructure(content: string): (r: string)
    ensures NoTripleNewline(r)
  {
    var demoted := DemoteH1(content, true);
    var spaced := BlankAfterHeadings(BlankBeforeHeadings(demoted));
    CollapseNewlines(spaced)
  }

  /** The markdown library and the HTML post-processor, as functions on
      text (the post-processor's rules are modelled on elements below). */
  datatype Renderer = Renderer(markdown: string -> string, postprocess: string -> string)

  /** `process_markdown_to_html`: empty input gives empty output; markdown
      is pre-processed, converted and post-processed; HTML is only
      post-processed; anything else is wrapped as plain text. */
  function ProcessMarkdownToHtml(content: string, contentFormat: string, render: Renderer): (html: string)
    ensures content == "" ==> html == ""
    ensures content != "" && contentFormat == "markdown" ==>
      html == render.postprocess(render.markdown(PreprocessMarkdownStructure(PreprocessCodeBlocks(content))))
    ensures content != "" && contentFormat == "html" ==> html == render.postprocess(content)
    ensures content != "" && contentFormat != "markdown" && contentFormat != "html" ==>
      HtmlToText(html) == Some(content)
  {
    if content == "" then ""
    else if contentFormat == "markdown" then
      render.postprocess(render.markdown(PreprocessMarkdownStructure(PreprocessCodeBlocks(content))))
    else if contentFormat == "html" then render.postprocess(content)
    else
      TextToHtmlRoundTrip(content);
      TextToHtml(content)
  }

  /** Markdown with no heading marks and no run of three line breaks comes
      out of the structural rewrites unchanged. */
  lemma PreprocessPlainProse(s: string)
    requires '#' !in s && NoTripleNewline(s)
    ensures PreprocessMarkdownStructure(s) == s
  {
    NoHashDemote(s, true);
    NoHashBlankBefore(s);
    NoHashBlankAfter(s);
    CollapseFixes(s);
  }

  lemma {:induction false} NoHashDemote(s: string, atLineStart: bool)
    requires '#' !in s
    ensures DemoteH1(s, atLineStart) == s
    decreases |s|
  {
    if s != [] {
      assert s[0] != '#';
      assert '#' !in s[1..];
      NoHashDemote(s[1..], s[0] == '\n');
      assert [s[0]] + s[1..] == s;
    }
  }

  lemma {:induction false} NoHashBlankBefore(s: string)
    requires '#' !in s
    ensures BlankBeforeHeadings(s) == s
    decreases |s|
  {
    if s != [] {
      assert '#' !in s[1..];
      if |s[1..]| > 0 {
        assert s[1..][0] != '#';
      }
      assert HeadingMark(s[1..]).None?;
      NoHashBlankBefore(s[1..]);
      assert [s[0]] + s[1..] == s;
    }
  }

  lemma {:induction false} NoHashBlankAfter(s: string)
    requires '#' !in s
    ensures BlankAfterHeadings(s) == s
    decreases |s|
  {
    if s != [] {
      assert s[0] != '#';
      assert HeadingLine(s).None?;
      assert '#' !in s[1..];
      NoHashBlankAfter(s[1..]);
      assert [s[0]] + s[1..] == s;
    }
  }

  lemma NoTripleSuffix(s: string, k: nat)
    requires k <= |s| && NoTripleNewline(s)
    ensures NoTripleNewline(s[k..])
  {
    forall i | 0 <= i && i + 2 < |s[k..]|
      ensures !(s[k..][i] == '\n' && s[k..][i + 1] == '\n' && s[k..][i + 2] == '\n')
    {
      assert s[k..][i] == s[k + i] && s[k..][i + 1] == s[k + i + 1] && s[k..][i + 2] == s[k + i + 2];
    }
  }

  lemma {:induction false} CollapseFixes(s: string)
    requires NoTripleNewline(s)
    ensures CollapseNewlines(s) == s
    decreases |s|
  {
    if s == [] {
    } else if s[0] == '\n' {
      var n := Run(s, '\n');
      if |s| >= 3 {
        assert !(s[0] == '\n' && s[1] == '\n' && s[2] == '\n');
      }
      assert n < 3;
      NoTripleSuffix(s, n);
      CollapseFixes(s[n..]);
      assert s[..n] + s[n..] == s;
    } else {
      NoTripleSuffix(s, 1);
      CollapseFixes(s[1..]);
      assert [s[0]] + s[1..] == s;
    }
  }

  // ---------------------------------------------------------------------
  // HTML post-processing
  // ---------------------------------------------------------------------

  /** One element of the parsed page, in document order: its tag name, its
      attributes, the tag name of its parent, its text (`get_text()`),
      whether it holds a `<br>`, whether it holds child elements, and its
      depth in the tree. The elements inside an element are the run of
      deeper elements right after it. */
  datatype Elem = Elem(tag: string, attrs: map<string, string>, parent: string,
                       text: string, hasBr: bool, nested: bool, depth: nat)

  const InlineCodeStyle := "background-color: #f4f4f4; color: #c7254e; padding: 2px 6px; border-radius: 3px; font-family: monospace; font-size: 90%;"
  const BlockquoteStyle := "border-left: 4px solid #667eea; padding-left: 20px; margin: 20px 0; color: #555; font-style: italic;"
  const ImageStyle := "max-width: 100%; height: auto; border-radius: 8px; margin: 20px auto; display: block; box-shadow: 0 4px 6px rgba(0,0,0,0.1);"
  const LinkStyle := "color: #667eea; text-decoration: none; border-bottom: 1px solid #667eea;"

  /** The separator inserted before a section's heading, as its sibling. */
  function RuleBefore(h: Elem): Elem {
    Elem("hr", map[], h.parent, "", false, false, h.depth)
  }

  /** Python truthiness of `tag.get(key)`. */
  predicate HasTruthy(attrs: map<string, string>, key: string) {
    key in attrs && attrs[key] != ""
  }

  /** `if tag.get('style'): del tag['style']`. */
  function DropStyle(attrs: map<string, string>): (r: map<string, string>)
    ensures HasTruthy(attrs, "style") ==> "style" !in r && r.Keys == attrs.Keys - {"style"}
    ensures !HasTruthy(attrs, "style") ==> r == attrs
    ensures forall k :: k in r && k != "style" ==> k in attrs && r[k] == attrs[k]
  {
    if HasTruthy(attrs, "style") then attrs - {"style"} else attrs
  }

  /** An external link: its `href` is present, non-empty and starts with
      "http". */
  predicate External(attrs: map<string, string>) {
    HasTruthy(attrs, "href") && IsPrefix("http", attrs["href"])
  }

  /** An empty paragraph that `_postprocess_html` removes: no text once
      stripped, no `<br>`, and not a lone non-breaking space. */
  predicate DroppedParagraph(e: Elem) {
    e.tag == "p" && Strip(e.text) == "" && !e.hasBr && e.text != "\U{A0}"
  }

  /** The per-element edits of `_postprocess_html`, as written: `h1`
      becomes `h2`; headings and lists lose a non-empty style; an `h2` is
      cleared before its text is read back, so it ends up empty; a code
      element inside `pre` becomes the highlighted card and any other code
      gets the inline style; blockquotes and images get their styles
      (images also lazy loading); external links open in a new tab. */
  function Restyle(e: Elem): (r: Elem)
    ensures r.tag != "h1"
    ensures r.tag == "h2" <==> e.tag in {"h1", "h2"}
    ensures r.tag == "hr" <==> e.tag == "hr"
    ensures r.tag == "h2" ==> !r.nested && !r.hasBr && r.text == ""
    ensures r.tag in {"h2", "h3", "h4", "ul", "li"} ==> !HasTruthy(r.attrs, "style")
    ensures r.tag == "a" && External(e.attrs) ==>
      "target" in r.attrs && r.attrs["target"] == "_blank" &&
      "rel" in r.attrs && r.attrs["rel"] == "noopener noreferrer"
    ensures r.tag == "img" ==>
      "loading" in r.attrs && r.attrs["loading"] == "lazy" &&
      "style" in r.attrs && r.attrs["style"] == ImageStyle
    ensures e.tag == "code" && e.parent != "pre" ==> "style" in r.attrs && r.attrs["style"] == InlineCodeStyle
    ensures r.tag != "h2" ==> r.text == e.text
    ensures r.depth == e.depth && r.parent == e.parent
    ensures e.tag !in {"h1", "h2", "h3", "h4", "ul", "li", "code", "blockquote", "img", "a"} ==> r == e
    ensures e.tag == "a" && !External(e.attrs) ==> r == e
    ensures e.tag == "a" && External(e.attrs) ==>
      r == e.(attrs := e.attrs["target" := "_blank"]["rel" := "noopener noreferrer"]["style" := LinkStyle])
    ensures e.tag == "blockquote" ==> r == e.(attrs := e.attrs["style" := BlockquoteStyle])
  {
    if e.tag == "h1" || e.tag == "h2" then
      e.(tag := "h2", attrs := DropStyle(e.attrs), text := "", hasBr := false, nested := false)
    else if e.tag in {"h3", "h4", "ul", "li"} then
      e.(attrs := DropStyle(e.attrs))
    else if e.tag == "code" then
      if e.parent == "pre" then Elem("div", map["class" := "codehilite"], e.parent, e.text, false, true, e.depth)
      else e.(attrs := e.attrs["style" := InlineCodeStyle])
    else if e.tag == "blockquote" then
      e.(attrs := e.attrs["style" := BlockquoteStyle])
    else if e.tag == "img" then
      e.(attrs := e.attrs["style" := ImageStyle]["loading" := "lazy"])
    else if e.tag == "a" && External(e.attrs) then
      e.(attrs := e.attrs["target" := "_blank"]["rel" := "noopener noreferrer"]["style" := LinkStyle])
    else e
  }

  /** Every heading with text loses it: `<h1>Intro</h1>` comes out as an
      empty `<h2>`. */
  lemma RestyleLosesHeadingText(e: Elem)
    requires e.tag in {"h1", "h2"} && e.text != ""
    ensures Restyle(e).tag == "h2" && Restyle(e).text == "" && Restyle(e).text != e.text
  {
  }

  /** The heading edit as intended: the `h2` is flattened to its own text,
      which it keeps; every other edit is the one `Restyle` makes. */
  function RestyleIntended(e: Elem): (r: Elem)
    ensures r.text == e.text
    ensures r.tag == Restyle(e).tag && r.attrs == Restyle(e).attrs
    ensures r.tag == "h2" ==> !r.nested && !r.hasBr && !HasTruthy(r.attrs, "style")
    ensures r.tag != "h2" ==> r == Restyle(e)
  {
    Restyle(e).(text := e.text)
  }

  /** The number of elements with tag `tag`. */
  function CountTag(es: seq<Elem>, tag: string): (n: nat)
    ensures n <= |es|
  {
    if es == [] then 0
    else CountTag(es[..|es| - 1], tag) + (if es[|es| - 1].tag == tag then 1 else 0)
  }

  lemma CountTagAppend(es: seq<Elem>, e: Elem, tag: string)
    ensures CountTag(es + [e], tag) == CountTag(es, tag) + (if e.tag == tag then 1 else 0)
  {
    assert (es + [e])[..|es|] == es;
  }

  /** Counting a tag distributes over concatenation. */
  lemma {:induction false} CountTagConcat(a: seq<Elem>, b: seq<Elem>, tag: string)
    ensures CountTag(a + b, tag) == CountTag(a, tag) + CountTag(b, tag)
    decreases |b|
  {
    if b == [] {
      assert a + b == a;
    } else {
      var b' := b[..|b| - 1];
      var last := b[|b| - 1];
      CountTagConcat(a, b', tag);
      assert a + b == (a + b') + [last];
      assert b == b' + [last];
      CountTagAppend(a + b', last, tag);
      CountTagAppend(b', last, tag);
    }
  }

  /** The length of the run of elements at the head of `s` that are deeper
      than `d`. */
  function DeeperRun(s: seq<Elem>, d: nat): (n: nat)
    ensures n <= |s|
    decreases |s|
  {
    if s == [] || s[0].depth <= d then 0 else DeeperRun(s[1..], d) + 1
  }

  /** The run is deeper than `d`, and what follows it is not. */
  lemma {:induction false} DeeperRunEnds(s: seq<Elem>, d: nat)
    ensures forall k :: 0 <= k < DeeperRun(s, d) ==> s[k].depth > d
    ensures DeeperRun(s, d) < |s| ==> s[DeeperRun(s, d)].depth <= d
    decreases |s|
  {
    if s != [] && s[0].depth > d {
      DeeperRunEnds(s[1..], d);
      assert forall k :: 1 <= k < DeeperRun(s, d) ==> s[k] == s[1..][k - 1];
    }
  }

  /** How many elements after `es[0]` lie inside it. */
  function Descendants(es: seq<Elem>): (n: nat)
    requires es != []
    ensures n < |es|
  {
    DeeperRun(es[1..], es[0].depth)
  }

  /** What lies inside `es[0]` is deeper than it; the element after that
      is not. */
  lemma DescendantsEnd(es: seq<Elem>)
    requires es != []
    ensures forall k :: 1 <= k <= Descendants(es) ==> es[k].depth > es[0].depth
    ensures Descendants(es) + 1 < |es| ==> es[Descendants(es) + 1].depth <= es[0].depth
  {
    DeeperRunEnds(es[1..], es[0].depth);
    assert forall k :: 1 <= k <= Descendants(es) ==> es[k] == es[1..][k - 1];
  }

  /** `es[i]` lies inside `es[j]`: every element from just after `es[j]`
      up to `es[i]` is deeper than `es[j]`. */
  predicate Inside(es: seq<Elem>, j: int, i: int) {
    0 <= j < i < |es| && forall k :: j < k <= i ==> es[k].depth > es[j].depth
  }

  /** The element stays but what lies inside it goes: a heading is
      cleared, and a `code` block inside `pre` is replaced by the card,
      which takes the whole `pre` off the page. */
  predicate Sealed(e: Elem) {
    e.tag in {"h1", "h2"} || (e.tag == "code" && e.parent == "pre")
  }

  /** The element loses what lies inside it: it is sealed, or it is a
      paragraph that `drop` selects, deleted with its contents. */
  predicate Prunes(e: Elem, drop: Elem -> bool) {
    Sealed(e) || drop(e)
  }

  /** `es[i]` is still on the page after the heading, paragraph and code
      block passes: it is not a deleted paragraph, and nothing it lies
      inside was cleared, deleted or replaced by a code card. */
  predicate Survives(es: seq<Elem>, drop: Elem -> bool, i: int)
    requires 0 <= i < |es|
  {
    (Sealed(es[i]) || !drop(es[i])) &&
    forall j :: 0 <= j < i && Inside(es, j, i) ==> !Prunes(es[j], drop)
  }

  /** The surviving elements of `es[i..]`, unchanged, in document order. */
  function SurvivorsFrom(es: seq<Elem>, drop: Elem -> bool, i: nat): (r: seq<Elem>)
    requires i <= |es|
    ensures |r| <= |es| - i
    decreases |es| - i
  {
    if i == |es| then []
    else (if Survives(es, drop, i) then [es[i]] else []) + SurvivorsFrom(es, drop, i + 1)
  }

  /** The heading, paragraph and code block passes, in one walk over the
      page: a heading or a code block stays and what lies inside it goes;
      a paragraph that `drop` selects goes with its contents; every other
      element stays. */
  function Pruned(es: seq<Elem>, drop: Elem -> bool): (r: seq<Elem>)
    ensures |r| <= |es|
    decreases |es|
  {
    if es == [] then []
    else
      var n := Descendants(es);
      if Sealed(es[0]) then [es[0]] + Pruned(es[n + 1..], drop)
      else if drop(es[0]) then Pruned(es[n + 1..], drop)
      else [es[0]] + Pruned(es[1..], drop)
  }

  /** What one step of the walk at position `i` keeps: the element,
      unless it is a paragraph that `drop` selects. */
  function StepKept(es: seq<Elem>, drop: Elem -> bool, i: nat): (r: seq<Elem>)
    requires i < |es|
    ensures |r| <= 1 && (r == [] || r == [es[i]])
  {
    if Sealed(es[i]) || !drop(es[i]) then [es[i]] else []
  }

  /** Where the walk resumes after position `i`: past the subtree of an
      element that prunes, otherwise at the next position. */
  function StepNext(es: seq<Elem>, drop: Elem -> bool, i: nat): (r: nat)
    requires i < |es|
    ensures i < r <= |es|
  {
    if Prunes(es[i], drop) then i + Descendants(es[i..]) + 1 else i + 1
  }

  /** One step of the walk, at position `i` of the page. */
  lemma PrunedAt(es: seq<Elem>, drop: Elem -> bool, i: nat)
    requires i < |es|
    ensures Pruned(es[i..], drop) == StepKept(es, drop, i) + Pruned(es[StepNext(es, drop, i)..], drop)
  {
    var n := Descendants(es[i..]);
    assert es[i..][n + 1..] == es[i + n + 1..];
    assert es[i..][1..] == es[i + 1..];
    if !Sealed(es[i]) && drop(es[i]) {
      assert [] + Pruned(es[i + n + 1..], drop) == Pruned(es[i + n + 1..], drop);
    }
  }

  /** Skipping positions that do not survive leaves `SurvivorsFrom`
      unchanged. */
  lemma {:induction false} SurvivorsSkip(es: seq<Elem>, drop: Elem -> bool, a: nat, b: nat)
    requires a <= b <= |es|
    requires forall i :: a <= i < b ==> !Survives(es, drop, i)
    ensures SurvivorsFrom(es, drop, a) == SurvivorsFrom(es, drop, b)
    decreases b - a
  {
    if a < b {
      SurvivorsSkip(es, drop, a + 1, b);
    }
  }

  /** Nothing that position `s` lies inside prunes its contents. */
  predicate Open(es: seq<Elem>, drop: Elem -> bool, s: int) {
    forall j :: 0 <= j < s && Inside(es, j, s) ==> !Prunes(es[j], drop)
  }

  /** An element inside `es[j]` that lies beyond position `s` makes
      position `s` lie inside `es[j]` too. */
  lemma InsideNarrows(es: seq<Elem>, j: nat, s: nat, i: nat)
    requires j < s <= i && Inside(es, j, i)
    ensures Inside(es, j, s)
  {
  }

  /** At an open position, an element survives unless it is a deleted
      paragraph. */
  lemma SurvivesAtOpen(es: seq<Elem>, drop: Elem -> bool, s: nat)
    requires s < |es| && Open(es, drop, s)
    ensures Survives(es, drop, s) <==> Sealed(es[s]) || !drop(es[s])
  {
  }

  /** Nothing inside a pruning element survives. */
  lemma SubtreeGone(es: seq<Elem>, drop: Elem -> bool, s: nat)
    requires s < |es| && Prunes(es[s], drop)
    ensures forall i :: s < i <= s + Descendants(es[s..]) ==> !Survives(es, drop, i)
  {
    var t := es[s..];
    DescendantsEnd(t);
    forall i | s < i <= s + Descendants(t)
      ensures !Survives(es, drop, i)
    {
      forall k | s < k <= i
        ensures es[k].depth > es[s].depth
      {
        assert es[k] == t[k - s];
      }
      assert Inside(es, s, i);
    }
  }

  /** The survivors after a pruning element are those past its subtree. */
  lemma SubtreeSkipped(es: seq<Elem>, drop: Elem -> bool, s: nat)
    requires s < |es| && Prunes(es[s], drop)
    ensures var n := Descendants(es[s..]);
      s + n + 1 <= |es| &&
      SurvivorsFrom(es, drop, s + 1) == SurvivorsFrom(es, drop, s + n + 1)
  {
    SubtreeGone(es, drop, s);
    SurvivorsSkip(es, drop, s + 1, s + Descendants(es[s..]) + 1);
  }

  /** The position just past a subtree is open when the subtree's root
      position is. */
  lemma OpenPastSubtree(es: seq<Elem>, drop: Elem -> bool, s: nat)
    requires s < |es| && Open(es, drop, s)
    ensures Open(es, drop, s + Descendants(es[s..]) + 1)
  {
    var t := es[s..];
    var n := Descendants(t);
    DescendantsEnd(t);
    forall j | 0 <= j < s + n + 1 && Inside(es, j, s + n + 1)
      ensures !Prunes(es[j], drop)
    {
      if j < s {
        InsideNarrows(es, j, s, s + n + 1);
      }
    }
  }

  /** The position after an element that does not prune is open when the
      element's position is. */
  lemma OpenNext(es: seq<Elem>, drop: Elem -> bool, s: nat)
    requires s < |es| && Open(es, drop, s) && !Prunes(es[s], drop)
    ensures Open(es, drop, s + 1)
  {
    forall j | 0 <= j < s + 1 && Inside(es, j, s + 1)
      ensures !Prunes(es[j], drop)
    {
      if j < s {
        InsideNarrows(es, j, s, s + 1);
      }
    }
  }

  /** At an open position whose element prunes, the survivors are the
      element itself when it is a heading, then those past its subtree,
      and the position past the subtree is open. */
  lemma SurvivorsPastSubtree(es: seq<Elem>, drop: Elem -> bool, s: nat)
    requires s < |es| && Open(es, drop, s) && Prunes(es[s], drop)
    ensures var n := Descendants(es[s..]);
      s + n + 1 <= |es| && Open(es, drop, s + n + 1) &&
      SurvivorsFrom(es, drop, s) ==
        (if Sealed(es[s]) then [es[s]] else []) + SurvivorsFrom(es, drop, s + n + 1)
  {
    SurvivesAtOpen(es, drop, s);
    SubtreeSkipped(es, drop, s);
    OpenPastSubtree(es, drop, s);
  }

  /** At an open position whose element does not prune, the element
      survives and the next position is open. */
  lemma SurvivorsPastElement(es: seq<Elem>, drop: Elem -> bool, s: nat)
    requires s < |es| && Open(es, drop, s) && !Prunes(es[s], drop)
    ensures Open(es, drop, s + 1)
    ensures SurvivorsFrom(es, drop, s) == [es[s]] + SurvivorsFrom(es, drop, s + 1)
  {
    SurvivesAtOpen(es, drop, s);
    OpenNext(es, drop, s);
  }

  /** One step of the walk, in terms of survival: from an open position,
      the survivors are what the step keeps and then the survivors from
      where it resumes, which is open too. */
  lemma SurvivorsStep(es: seq<Elem>, drop: Elem -> bool, s: nat)
    requires s < |es| && Open(es, drop, s)
    ensures Open(es, drop, StepNext(es, drop, s))
    ensures SurvivorsFrom(es, drop, s) == StepKept(es, drop, s) + SurvivorsFrom(es, drop, StepNext(es, drop, s))
  {
    if Prunes(es[s], drop) {
      SurvivorsPastSubtree(es, drop, s);
    } else {
      SurvivorsPastElement(es, drop, s);
    }
  }

  /** From an open position on, the walk keeps what `Survives` keeps. */
  lemma {:induction false} PrunedSuffix(es: seq<Elem>, drop: Elem -> bool, s: nat)
    requires s <= |es| && Open(es, drop, s)
    ensures Pruned(es[s..], drop) == SurvivorsFrom(es, drop, s)
    decreases |es| - s
  {
    if s < |es| {
      PrunedAt(es, drop, s);
      SurvivorsStep(es, drop, s);
      PrunedSuffix(es, drop, StepNext(es, drop, s));
    }
  }

  /** The walk keeps exactly the elements `Survives` describes, in
      document order. */
  lemma PrunedIsSurvivors(es: seq<Elem>, drop: Elem -> bool)
    ensures Pruned(es, drop) == SurvivorsFrom(es, drop, 0)
  {
    PrunedSuffix(es, drop, 0);
    assert es[0..] == es;
  }

  lemma {:induction false} SurvivorsHas(es: seq<Elem>, drop: Elem -> bool, a: nat, i: nat)
    requires a <= i < |es| && Survives(es, drop, i)
    ensures es[i] in SurvivorsFrom(es, drop, a)
    decreases i - a
  {
    if a < i {
      SurvivorsHas(es, drop, a + 1, i);
    }
  }

  lemma {:induction false} SurvivorsOnly(es: seq<Elem>, drop: Elem -> bool, a: nat)
    requires a <= |es|
    ensures forall x :: x in SurvivorsFrom(es, drop, a) ==>
      exists i :: a <= i < |es| && Survives(es, drop, i) && x == es[i]
    decreases |es| - a
  {
    if a < |es| {
      SurvivorsOnly(es, drop, a + 1);
    }
  }

  /** The styling passes: every element that stayed, restyled, in order. */
  function RestyleAll(es: seq<Elem>): (r: seq<Elem>)
    ensures |r| == |es|
  {
    if es == [] then [] else RestyleAll(es[..|es| - 1]) + [Restyle(es[|es| - 1])]
  }

  /** `RestyleAll` restyles each element and adds none. */
  lemma {:induction false} RestyleAllMembers(es: seq<Elem>)
    ensures forall y :: y in es ==> Restyle(y) in RestyleAll(es)
    ensures forall x :: x in RestyleAll(es) ==> exists y :: y in es && x == Restyle(y)
    decreases |es|
  {
    if es != [] {
      var init := es[..|es| - 1];
      RestyleAllMembers(init);
      assert es == init + [es[|es| - 1]];
    }
  }

  /** Restyling turns each `h1` or `h2` into an `h2` and keeps the rules. */
  lemma {:induction false} RestyleAllCounts(es: seq<Elem>)
    ensures CountTag(RestyleAll(es), "h2") == CountTag(es, "h1") + CountTag(es, "h2")
    ensures CountTag(RestyleAll(es), "hr") == CountTag(es, "hr")
    decreases |es|
  {
    if es != [] {
      var init := es[..|es| - 1];
      var e := es[|es| - 1];
      RestyleAllCounts(init);
      CountTagAppend(RestyleAll(init), Restyle(e), "h2");
      CountTagAppend(RestyleAll(init), Restyle(e), "hr");
    }
  }

  /** The page after the element passes of `_postprocess_html`. */
  function Cleaned(es: seq<Elem>, drop: Elem -> bool): seq<Elem> {
    RestyleAll(Pruned(es, drop))
  }

  /** Every surviving element reaches the page, restyled. */
  lemma CleanedKeeps(es: seq<Elem>, drop: Elem -> bool, i: nat)
    requires i < |es| && Survives(es, drop, i)
    ensures Restyle(es[i]) in Cleaned(es, drop)
  {
    PrunedIsSurvivors(es, drop);
    SurvivorsHas(es, drop, 0, i);
    RestyleAllMembers(Pruned(es, drop));
  }

  /** Whatever reaches the page is a surviving element, restyled. */
  lemma CleanedOnlySurvivors(es: seq<Elem>, drop: Elem -> bool)
    ensures forall x :: x in Cleaned(es, drop) ==>
      exists i :: 0 <= i < |es| && Survives(es, drop, i) && x == Restyle(es[i])
  {
    PrunedIsSurvivors(es, drop);
    SurvivorsOnly(es, drop, 0);
    RestyleAllMembers(Pruned(es, drop));
  }

  /** No `h1` is left on the page. */
  lemma CleanedNoH1(es: seq<Elem>, drop: Elem -> bool)
    ensures forall x :: x in Cleaned(es, drop) ==> x.tag != "h1"
  {
    RestyleAllMembers(Pruned(es, drop));
  }

  /** No empty paragraph survives. */
  lemma CleanedDropsEmpty(es: seq<Elem>)
    ensures forall e :: e in Cleaned(es, DroppedParagraph) ==> !DroppedParagraph(e)
  {
    CleanedOnlySurvivors(es, DroppedParagraph);
    forall e | e in Cleaned(es, DroppedParagraph)
      ensures !DroppedParagraph(e)
    {
      var i :| 0 <= i < |es| && Survives(es, DroppedParagraph, i) && e == Restyle(es[i]);
      RestyleParagraph(es[i]);
    }
  }

  /** The styling passes leave a paragraph as it was. */
  lemma RestyleParagraph(e: Elem)
    ensures Restyle(e).tag == "p" ==> e.tag == "p" && Restyle(e) == e
  {
  }

  /** Every element sits at the top level of the page. */
  predicate Flat(es: seq<Elem>) {
    forall i :: 0 <= i < |es| ==> es[i].depth == 0
  }

  /** Counting over an element followed by a sequence. */
  lemma CountTagCons(x: Elem, r: seq<Elem>, tag: string)
    ensures CountTag([x] + r, tag) == (if x.tag == tag then 1 else 0) + CountTag(r, tag)
  {
    CountTagConcat([x], r, tag);
    CountTagAppend([], x, tag);
    assert [] + [x] == [x];
  }

  /** Counting over the first element, what lies inside it, and the rest. */
  lemma CountTagSplit(es: seq<Elem>, n: nat, tag: string)
    requires n < |es|
    ensures CountTag(es, tag) == (if es[0].tag == tag then 1 else 0) + CountTag(es[1..n + 1], tag) + CountTag(es[n + 1..], tag)
  {
    assert es == [es[0]] + (es[1..n + 1] + es[n + 1..]);
    CountTagCons(es[0], es[1..n + 1] + es[n + 1..], tag);
    CountTagConcat(es[1..n + 1], es[n + 1..], tag);
  }

  /** Pruning never adds an element of any tag; on a page without nesting
      it removes only empty paragraphs. */
  lemma {:induction false} PrunedCounts(es: seq<Elem>, tag: string)
    ensures CountTag(Pruned(es, DroppedParagraph), tag) <= CountTag(es, tag)
    ensures Flat(es) && tag != "p" ==> CountTag(Pruned(es, DroppedParagraph), tag) == CountTag(es, tag)
    decreases |es|
  {
    if es != [] {
      var e := es[0];
      var n := Descendants(es);
      var skip := if Prunes(e, DroppedParagraph) then n else 0;
      if Flat(es) {
        DescendantsEnd(es);
        assert n == 0;
      }
      PrunedCounts(es[skip + 1..], tag);
      CountTagSplit(es, skip, tag);
      if Sealed(e) || !DroppedParagraph(e) {
        CountTagCons(e, Pruned(es[skip + 1..], DroppedParagraph), tag);
      }
    }
  }

  /** The page keeps at most one `h2` per `h1` or `h2` and at most its
      rules; on a page without nesting it keeps exactly that many. */
  lemma CleanedCounts(es: seq<Elem>)
    ensures CountTag(Cleaned(es, DroppedParagraph), "h2") <= CountTag(es, "h1") + CountTag(es, "h2")
    ensures CountTag(Cleaned(es, DroppedParagraph), "hr") <= CountTag(es, "hr")
    ensures Flat(es) ==> CountTag(Cleaned(es, DroppedParagraph), "h2") == CountTag(es, "h1") + CountTag(es, "h2")
    ensures Flat(es) ==> CountTag(Cleaned(es, DroppedParagraph), "hr") == CountTag(es, "hr")
  {
    RestyleAllCounts(Pruned(es, DroppedParagraph));
    PrunedCounts(es, "h1");
    PrunedCounts(es, "h2");
    PrunedCounts(es, "hr");
  }

  /** A stand-alone image, which markdown wraps in a paragraph of its own,
      is deleted with that paragraph: the paragraph has no text and no
      `<br>`. */
  lemma ImageParagraphLost()
    ensures Cleaned([Elem("p", map[], "", "", false, true, 0),
                     Elem("img", map["src" := "y.png"], "p", "", false, false, 1)], DroppedParagraph) == []
  {
    var es := [Elem("p", map[], "", "", false, true, 0),
               Elem("img", map["src" := "y.png"], "p", "", false, false, 1)];
    assert |Strip(es[0].text)| <= 0;
    assert DroppedParagraph(es[0]);
    var n := Descendants(es);
    DescendantsEnd(es);
    assert es[1].depth > es[0].depth;
    assert n == 1;
    assert es[n + 1..] == [];
    assert Pruned(es, DroppedParagraph) == [];
  }

  /** A code block inside `pre` stays on the page and what lies inside it
      goes: `<h2>…</h2><pre><code><h1>…</h1></code></pre>` keeps the `h2`,
      the `pre` and the code block. */
  lemma PrunedCodeBlock(h: Elem, pre: Elem, code: Elem, inner: Elem)
    requires h.tag == "h2" && h.depth == 0 && pre.tag == "pre" && pre.depth == 0
    requires code.tag == "code" && code.parent == "pre" && code.depth == 1 && inner.depth == 2
    ensures Pruned([h, pre, code, inner], DroppedParagraph) == [h, pre, code]
  {
    var page := [h, pre, code, inner];
    DescendantsEnd(page[2..]);
    assert Descendants(page[2..]) == 1 && page[2..][2..] == [];
    assert Pruned(page[2..], DroppedParagraph) == [code];
    DescendantsEnd(page[1..]);
    assert page[1..][1..] == page[2..];
    assert Pruned(page[1..], DroppedParagraph) == [pre, code];
    DescendantsEnd(page);
    assert Descendants(page) == 0;
  }

  /** A heading inside a code block goes with the block:
      `<h2>A</h2><pre><code><h1>B</h1></code></pre>` keeps one section and
      gets no rule. */
  lemma CodeBlockHidesHeading(h: Elem, pre: Elem, code: Elem, inner: Elem)
    requires h.tag == "h2" && h.depth == 0 && pre.tag == "pre" && pre.depth == 0
    requires code.tag == "code" && code.parent == "pre" && code.depth == 1
    requires inner.tag == "h1" && inner.depth == 2
    ensures CountTag(InsertRules(Cleaned([h, pre, code, inner], DroppedParagraph)), "h2") == 1
    ensures CountTag(InsertRules(Cleaned([h, pre, code, inner], DroppedParagraph)), "hr") == 0
  {
    PrunedCodeBlock(h, pre, code, inner);
    var styled := RestyleAll([h, pre, code]);
    RestyleAllCounts([h, pre, code]);
    assert CountTag(styled, "h2") == CountTag([h, pre, code], "h1") + CountTag([h, pre, code], "h2");
    assert CountTag(styled, "hr") == CountTag([h, pre, code], "hr");
    CountTagCons(h, [pre, code], "h2");
    CountTagCons(pre, [code], "h2");
    CountTagCons(code, [], "h2");
    CountTagCons(h, [pre, code], "h1");
    CountTagCons(pre, [code], "h1");
    CountTagCons(code, [], "h1");
    CountTagCons(h, [pre, code], "hr");
    CountTagCons(pre, [code], "hr");
    CountTagCons(code, [], "hr");
  }

  /** An empty paragraph as intended: no text once stripped, no `<br>`,
      not a spacer, and no child element (an image, say). */
  predicate EmptyParagraph(e: Elem) {
    DroppedParagraph(e) && !e.nested
  }

  /** The `nested` flags agree with the depths: an element followed by a
      deeper one holds a child element. */
  predicate NestingAgrees(es: seq<Elem>) {
    forall j :: 0 <= j < |es| - 1 && es[j + 1].depth > es[j].depth ==> es[j].nested
  }

  /** With the intended paragraph rule, an image reaches the page unless it
      sits inside a heading or a code block. */
  lemma IntendedKeepsImages(es: seq<Elem>, i: nat)
    requires NestingAgrees(es)
    requires i < |es| && es[i].tag == "img"
    requires forall j :: 0 <= j < i && Inside(es, j, i) ==> !Sealed(es[j])
    ensures Restyle(es[i]) in Cleaned(es, EmptyParagraph)
  {
    forall j | 0 <= j < i && Inside(es, j, i)
      ensures !Prunes(es[j], EmptyParagraph)
    {
      assert es[j + 1].depth > es[j].depth;
    }
    CleanedKeeps(es, EmptyParagraph, i);
  }

  /** A rule before every `h2` but the first. */
  function InsertRules(es: seq<Elem>): (r: seq<Elem>)
    ensures CountTag(r, "h2") == CountTag(es, "h2")
    ensures CountTag(r, "hr") == CountTag(es, "hr") + (if CountTag(es, "h2") > 0 then CountTag(es, "h2") - 1 else 0)
    ensures |r| == |es| + (if CountTag(es, "h2") > 0 then CountTag(es, "h2") - 1 else 0)
  {
    if es == [] then []
    else
      var init := InsertRules(es[..|es| - 1]);
      var e := es[|es| - 1];
      if e.tag == "h2" && CountTag(es[..|es| - 1], "h2") > 0 then
        var hr := RuleBefore(e);
        CountTagAppend(init, hr, "h2");
        CountTagAppend(init, hr, "hr");
        CountTagAppend(init + [hr], e, "h2");
        CountTagAppend(init + [hr], e, "hr");
        assert init + [hr, e] == init + [hr] + [e];
        init + [hr, e]
      else
        CountTagAppend(init, e, "h2");
        CountTagAppend(init, e, "hr");
        init + [e]
  }

  /** The section pass adds rules before headings and nothing else. */
  lemma {:induction false} InsertRulesOnlyAddsRules(es: seq<Elem>)
    ensures forall x :: x in InsertRules(es) ==> x in es || exists h :: h in es && x == RuleBefore(h)
    decreases |es|
  {
    if es != [] {
      InsertRulesOnlyAddsRules(es[..|es| - 1]);
      forall x | x in es[..|es| - 1]
        ensures x in es
      {
        var k :| 0 <= k < |es| - 1 && es[..|es| - 1][k] == x;
        assert es[k] == x;
      }
      assert es[|es| - 1] in es;
    }
  }

  /** Every `h2` after the first is directly preceded by its own rule. */
  lemma {:induction false} RulesSeparateSections(es: seq<Elem>, i: nat)
    requires i < |InsertRules(es)| && InsertRules(es)[i].tag == "h2"
    requires CountTag(InsertRules(es)[..i], "h2") > 0
    ensures i > 0 && InsertRules(es)[i - 1] == RuleBefore(InsertRules(es)[i])
    decreases |es|
  {
    assert |InsertRules(es)| == |es| + (if CountTag(es, "h2") > 0 then CountTag(es, "h2") - 1 else 0);
    assert CountTag(es, "h2") <= |es|;
    assert es != [];
    var r := InsertRules(es);
    var init := InsertRules(es[..|es| - 1]);
    var e := es[|es| - 1];
    assert CountTag(init, "h2") == CountTag(es[..|es| - 1], "h2");
    assert r[..|init|] == init;
    if e.tag == "h2" && CountTag(es[..|es| - 1], "h2") > 0 {
      assert r == init + [RuleBefore(e), e];
      if i < |init| {
        assert r[..i] == init[..i];
        RulesSeparateSections(es[..|es| - 1], i);
      }
    } else {
      assert r == init + [e];
      if i < |init| {
        assert r[..i] == init[..i];
        RulesSeparateSections(es[..|es| - 1], i);
      }
    }
  }

  /** The heading, paragraph and code block passes of `_postprocess_html`:
      headings are cleared, empty paragraphs deleted and code blocks
      replaced by their card, each losing what lies inside it. */
  method PruneElements(elems: seq<Elem>) returns (kept: seq<Elem>)
    ensures kept == Pruned(elems, DroppedParagraph)
  {
    kept := [];
    var i := 0;
    assert elems[0..] == elems;
    while i < |elems|
      invariant 0 <= i <= |elems|
      invariant kept + Pruned(elems[i..], DroppedParagraph) == Pruned(elems, DroppedParagraph)
      decreases |elems| - i
    {
      var e := elems[i];
      var inside := Descendants(elems[i..]);
      PruneStep(elems, DroppedParagraph, kept, i);
      var step, next;
      if Sealed(e) {
        step, next := [e], i + inside + 1;
      } else if DroppedParagraph(e) {
        step, next := [], i + inside + 1;
      } else {
        step, next := [e], i + 1;
      }
      assert step == StepKept(elems, DroppedParagraph, i) && next == StepNext(elems, DroppedParagraph, i);
      kept, i := kept + step, next;
    }
  }

  /** One step of `PruneElements`: what is kept so far plus what the rest
      of the walk keeps. */
  lemma PruneStep(es: seq<Elem>, drop: Elem -> bool, kept: seq<Elem>, i: nat)
    requires i < |es|
    ensures kept + Pruned(es[i..], drop) ==
      (kept + StepKept(es, drop, i)) + Pruned(es[StepNext(es, drop, i)..], drop)
  {
    PrunedAt(es, drop, i);
    var step := StepKept(es, drop, i);
    var rest := Pruned(es[StepNext(es, drop, i)..], drop);
    assert (kept + step) + rest == kept + (step + rest);
  }

  /** The per-element styling passes of `_postprocess_html`. */
  method RestyleElements(kept: seq<Elem>) returns (styled: seq<Elem>)
    ensures styled == RestyleAll(kept)
  {
    styled := [];
    for j := 0 to |kept|
      invariant styled == RestyleAll(kept[..j])
    {
      assert kept[..j + 1][..j] == kept[..j];
      styled := styled + [Restyle(kept[j])];
    }
    assert kept[..|kept|] == kept;
  }

  /** The section pass of `_postprocess_html`: a rule before every `h2`
      but the first. */
  method AddRules(page: seq<Elem>) returns (out: seq<Elem>)
    ensures out == InsertRules(page)
  {
    out := [];
    var sections := 0;
    for j := 0 to |page|
      invariant out == InsertRules(page[..j])
      invariant sections == CountTag(page[..j], "h2")
    {
      InsertRulesStep(page, j);
      if page[j].tag == "h2" {
        if sections > 0 {
          out := out + [RuleBefore(page[j])];
        }
        sections := sections + 1;
      }
      out := out + [page[j]];
    }
    assert page[..|page|] == page;
  }

  /** One more element of the page: the rules and the `h2` count grow by
      that element alone. */
  lemma InsertRulesStep(page: seq<Elem>, j: nat)
    requires j < |page|
    ensures InsertRules(page[..j + 1]) ==
      InsertRules(page[..j]) + (if page[j].tag == "h2" && CountTag(page[..j], "h2") > 0 then [RuleBefore(page[j])] else []) + [page[j]]
    ensures CountTag(page[..j + 1], "h2") == CountTag(page[..j], "h2") + (if page[j].tag == "h2" then 1 else 0)
  {
    assert page[..j + 1][..j] == page[..j];
    assert page[..j + 1] == page[..j] + [page[j]];
    CountTagAppend(page[..j], page[j], "h2");
  }

  /** `_postprocess_html` over the page's elements: the element passes,
      then the section rules. */
  method PostprocessHtml(elems: seq<Elem>) returns (out: seq<Elem>)
    ensures out == InsertRules(Cleaned(elems, DroppedParagraph))
  {
    var kept := PruneElements(elems);
    var styled := RestyleElements(kept);
    out := AddRules(styled);
  }

  /** The post-processed page has no `h1`, at most one `h2` per original
      `h1` or `h2` (exactly one on a page without nesting), and one new
      rule per section boundary. */
  lemma PostprocessShape(elems: seq<Elem>)
    ensures var c := Cleaned(elems, DroppedParagraph);
      var out := InsertRules(c);
      var k := CountTag(c, "h2");
      (forall i :: 0 <= i < |out| ==> out[i].tag != "h1") &&
      k <= CountTag(elems, "h1") + CountTag(elems, "h2") &&
      CountTag(out, "h2") == k &&
      CountTag(out, "hr") == CountTag(c, "hr") + (if k > 0 then k - 1 else 0)
    ensures Flat(elems) ==>
      var out := InsertRules(Cleaned(elems, DroppedParagraph));
      var sections := CountTag(elems, "h1") + CountTag(elems, "h2");
      CountTag(out, "h2") == sections &&
      CountTag(out, "hr") == CountTag(elems, "hr") + (if sections > 0 then sections - 1 else 0)
  {
    var cleaned := Cleaned(elems, DroppedParagraph);
    var out := InsertRules(cleaned);
    CleanedCounts(elems);
    CleanedNoH1(elems, DroppedParagraph);
    InsertRulesOnlyAddsRules(cleaned);
    forall i | 0 <= i < |out|
      ensures out[i].tag != "h1"
    {
      assert out[i] in out;
    }
  }
}
