/** The article record that flows through the pipeline (search, filter,
    translate, publish), and the small wrappers shared by every module.

    The source passes articles around as Python dicts built by
    `MediumAPI.get_article_info`; a key that a dict may lack is an
    `Option` here (`None` = the key is absent), so that `dict.get(key,
    default)` can be written out exactly. */
module Articles {

  datatype Option<T> = None | Some(value: T)

  /** The outcome of a call that may raise: `Err` carries the message. */
  datatype Result<T> = Ok(value: T) | Err(msg: string)

  /** Python `d.get(key, default)`. */
  function OrElse<T>(o: Option<T>, default: T): (r: T)
    ensures o.None? ==> r == default
    ensures o.Some? ==> r == o.value
  {
    match o
    case None => default
    case Some(v) => v
  }

  /** Python truthiness of an optional string: present and non-empty. */
  predicate Truthy(o: Option<string>) {
    o.Some? && o.value != ""
  }

  /** The `published_at` entry: missing key, JSON `null`, or a timestamp
      string (ISO 8601, compared as a string). */
  datatype Stamp = NoStamp | NullStamp | At(at: string)

  datatype Article = Article(
    id: string,
    title: Option<string>,
    subtitle: Option<string>,
    content: Option<string>,
    contentFormat: Option<string>,
    author: Option<string>,
    url: Option<string>,
    imageUrl: Option<string>,
    coverImage: Option<string>,
    publishedAt: Stamp,
    tags: Option<seq<string>>,
    topics: Option<seq<string>>,
    claps: Option<int>,
    readingTime: Option<int>,
    lang: Option<string>,
    translated: bool,
    trendingType: Option<string>,
    trendingTag: Option<string>,
    topic: Option<string>)

  /** An article dict that holds only an id. */
  function BareArticle(id: string): (a: Article)
    ensures a.id == id && a.title.None? && a.content.None? && a.lang.None?
  {
    Article(id, None, None, None, None, None, None, None, None, NoStamp,
      None, None, None, None, None, false, None, None, None)
  }

  /** The ids of a list of articles, in order. */
  function Ids(articles: seq<Article>): (ids: seq<string>)
    ensures |ids| == |articles|
    ensures forall i :: 0 <= i < |articles| ==> ids[i] == articles[i].id
  {
    seq(|articles|, i requires 0 <= i < |articles| => articles[i].id)
  }
}
