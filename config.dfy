/** The environment-driven configuration (`Config` in src/config.py): the
    keyword list parsed from `SEARCH_KEYWORDS`, the `AUTO_TRANSLATE` switch
    and the start-up validator. The environment is read once, at import
    time; here its values are parameters. */
module Configuration {
  import opened Strings
  import opened Articles

  /** The class attributes of `Config` that the core reads. */
  datatype Config = Config(
    rapidApiKey: Option<string>,
    wordpressUrl: Option<string>,
    wordpressUsername: Option<string>,
    wordpressPassword: Option<string>,
    categoryName: string,
    searchKeywords: seq<string>,
    maxArticlesPerRun: int,
    languagePreference: string,
    autoTranslate: bool)

  // ---------------------------------------------------------------------
  // SEARCH_KEYWORDS

  /** A keyword as the parser leaves it: non-empty, no surrounding
      whitespace. */
  predicate Clean(k: string) {
    k != [] && !IsSpace(k[0]) && !IsSpace(k[|k| - 1])
  }

  /** A clean keyword is its own stripped form. */
  lemma CleanIsStripped(k: string)
    requires Clean(k)
    ensures Strip(k) == k
  {
    StripOfStripped(k);
  }

  /** The comprehension `[k.strip() for k in parts if k.strip()]`. */
  function StrippedNonBlank(parts: seq<string>): (r: seq<string>)
    ensures |r| <= |parts|
    ensures forall i :: 0 <= i < |r| ==> Clean(r[i])
    decreases |parts|
  {
    if parts == [] then []
    else
      var k := Strip(parts[0]);
      var rest := StrippedNonBlank(parts[1..]);
      if k != [] then StrippedIsClean(parts[0]); CleanCons(k, rest); [k] + rest else rest
  }

  /** A non-empty stripped text is clean. */
  lemma StrippedIsClean(s: string)
    requires Strip(s) != []
    ensures Clean(Strip(s))
  {
  }

  lemma CleanCons(k: string, rest: seq<string>)
    requires Clean(k) && forall i :: 0 <= i < |rest| ==> Clean(rest[i])
    ensures forall i :: 0 <= i < |[k] + rest| ==> Clean(([k] + rest)[i])
  {
  }

  /** `SEARCH_KEYWORDS`: the variable split on ',', each part stripped,
      blank parts dropped. */
  function ParseKeywords(env: Option<string>): (r: seq<string>)
    ensures forall i :: 0 <= i < |r| ==> Clean(r[i])
    ensures |r| <= |Split(OrElse(env, ""), ',')|
  {
    StrippedNonBlank(Split(OrElse(env, ""), ','))
  }

  /** An unset variable gives no keywords. */
  lemma NoKeywordsByDefault()
    ensures ParseKeywords(None) == []
  {
    assert Split("", ',') == [""];
    assert Strip("") == [];
  }

  /** Parts that are already clean are kept as they are. */
  lemma {:induction false} StrippedNonBlankKeepsClean(parts: seq<string>)
    requires forall k :: k in parts ==> Clean(k)
    ensures StrippedNonBlank(parts) == parts
    decreases |parts|
  {
    if parts != [] {
      assert parts[0] in parts;
      CleanIsStripped(parts[0]);
      assert forall k :: k in parts[1..] ==> k in parts;
      StrippedNonBlankKeepsClean(parts[1..]);
      assert StrippedNonBlank(parts) == [parts[0]] + StrippedNonBlank(parts[1..]);
      HeadTail(parts);
    }
  }

  /** Round trip: a list of clean keywords without commas, written
      comma-separated into the variable, is read back exactly. */
  lemma KeywordsRoundTrip(keywords: seq<string>)
    requires |keywords| >= 1
    requires forall k :: k in keywords ==> Clean(k) && ',' !in k
    ensures ParseKeywords(Some(Join(keywords, ","))) == keywords
  {
    SplitJoin(keywords, ',');
    StrippedNonBlankKeepsClean(keywords);
  }

  // ---------------------------------------------------------------------
  // AUTO_TRANSLATE

  /** `AUTO_TRANSLATE`: the variable, default "true", lower-cased, compared
      with "true". */
  function AutoTranslate(env: Option<string>): (b: bool)
    ensures env.None? ==> b
    ensures b ==> |OrElse(env, "")| == 4 || env.None?
  {
    Lower(OrElse(env, "true")) == "true"
  }

  /** The switch ignores case. */
  lemma AutoTranslateIgnoresCase(s: string)
    ensures AutoTranslate(Some(Lower(s))) == AutoTranslate(Some(s))
  {
    LowerIdempotent(s);
  }

  /** "TRUE" and "True" switch translation on, "1" and "" switch it off. */
  lemma AutoTranslateSpellings()
    ensures AutoTranslate(Some("TRUE")) && AutoTranslate(Some("True"))
    ensures !AutoTranslate(Some("1")) && !AutoTranslate(Some(""))
  {
    assert Lower("TRUE") == "true";
    assert Lower("True") == "true";
  }

  // ---------------------------------------------------------------------
  // validate

  const MissingRapidApiKey := "RAPIDAPI_KEY is required"
  const MissingWordpressUrl := "WORDPRESS_URL is required"
  const MissingWordpressUsername := "WORDPRESS_USERNAME is required"
  const MissingWordpressPassword := "WORDPRESS_PASSWORD is required"
  const MissingKeywords := "At least one SEARCH_KEYWORD is required"

  /** The keyword check of `validate`: an empty list, or the list `['']`. */
  predicate NoKeywords(c: Config) {
    c.searchKeywords == [] || c.searchKeywords == [""]
  }

  /** One check of `validate`: append `msg` when the check fails. */
  function Check(errors: seq<string>, ok: bool, msg: string): (r: seq<string>)
    ensures ok ==> r == errors
    ensures !ok ==> |r| == |errors| + 1 && r[..|errors|] == errors && r[|errors|] == msg
  {
    if ok then errors else errors + [msg]
  }

  /** The messages `validate` collects, in its fixed order. */
  function ValidationErrors(c: Config): seq<string> {
    var e1 := Check([], Truthy(c.rapidApiKey), MissingRapidApiKey);
    var e2 := Check(e1, Truthy(c.wordpressUrl), MissingWordpressUrl);
    var e3 := Check(e2, Truthy(c.wordpressUsername), MissingWordpressUsername);
    var e4 := Check(e3, Truthy(c.wordpressPassword), MissingWordpressPassword);
    Check(e4, !NoKeywords(c), MissingKeywords)
  }

  /** `Config.validate`: one check after the other, appending a message for
      each that fails. */
  method Validate(c: Config) returns (errors: seq<string>)
    ensures errors == ValidationErrors(c)
  {
    errors := [];
    if !Truthy(c.rapidApiKey) {
      errors := errors + [MissingRapidApiKey];
    }
    if !Truthy(c.wordpressUrl) {
      errors := errors + [MissingWordpressUrl];
    }
    if !Truthy(c.wordpressUsername) {
      errors := errors + [MissingWordpressUsername];
    }
    if !Truthy(c.wordpressPassword) {
      errors := errors + [MissingWordpressPassword];
    }
    if c.searchKeywords == [] || c.searchKeywords == [""] {
      errors := errors + [MissingKeywords];
    }
  }

  /** Each credential message is reported exactly when that credential is
      missing. */
  lemma CredentialMessages(c: Config)
    ensures MissingRapidApiKey in ValidationErrors(c) <==> !Truthy(c.rapidApiKey)
    ensures MissingWordpressUrl in ValidationErrors(c) <==> !Truthy(c.wordpressUrl)
    ensures MissingWordpressUsername in ValidationErrors(c) <==> !Truthy(c.wordpressUsername)
    ensures MissingWordpressPassword in ValidationErrors(c) <==> !Truthy(c.wordpressPassword)
  {
    MessagesDistinct();
    ValidationSteps(c);
  }

  /** The keyword message is reported exactly when no keyword is
      configured, and there are at most five messages. */
  lemma KeywordMessage(c: Config)
    ensures MissingKeywords in ValidationErrors(c) <==> NoKeywords(c)
    ensures |ValidationErrors(c)| <= 5
  {
    MessagesDistinct();
    ValidationSteps(c);
  }

  /** The messages of `validate`, check by check. */
  lemma ValidationSteps(c: Config)
    ensures forall m :: m in ValidationErrors(c) <==>
      (!Truthy(c.rapidApiKey) && m == MissingRapidApiKey) ||
      (!Truthy(c.wordpressUrl) && m == MissingWordpressUrl) ||
      (!Truthy(c.wordpressUsername) && m == MissingWordpressUsername) ||
      (!Truthy(c.wordpressPassword) && m == MissingWordpressPassword) ||
      (NoKeywords(c) && m == MissingKeywords)
    ensures |ValidationErrors(c)| <= 5
  {
    var c1, c2, c3, c4 := Truthy(c.rapidApiKey), Truthy(c.wordpressUrl),
      Truthy(c.wordpressUsername), Truthy(c.wordpressPassword);
    var e1 := Check([], c1, MissingRapidApiKey);
    var e2 := Check(e1, c2, MissingWordpressUrl);
    var e3 := Check(e2, c3, MissingWordpressUsername);
    var e4 := Check(e3, c4, MissingWordpressPassword);
    CheckMembers([], c1, MissingRapidApiKey);
    CheckMembers(e1, c2, MissingWordpressUrl);
    CheckMembers(e2, c3, MissingWordpressUsername);
    CheckMembers(e3, c4, MissingWordpressPassword);
    CheckMembers(e4, !NoKeywords(c), MissingKeywords);
  }

  /** What a check adds: its message, and only when it fails. */
  lemma CheckMembers(errors: seq<string>, ok: bool, msg: string)
    ensures forall m :: m in Check(errors, ok, msg) <==> m in errors || (!ok && m == msg)
  {
  }

  /** The five messages are pairwise different. */
  lemma MessagesDistinct()
    ensures MissingRapidApiKey != MissingWordpressUrl && MissingRapidApiKey != MissingWordpressUsername
    ensures MissingRapidApiKey != MissingWordpressPassword && MissingRapidApiKey != MissingKeywords
    ensures MissingWordpressUrl != MissingWordpressUsername && MissingWordpressUrl != MissingWordpressPassword
    ensures MissingWordpressUrl != MissingKeywords && MissingWordpressUsername != MissingWordpressPassword
    ensures MissingWordpressUsername != MissingKeywords && MissingWordpressPassword != MissingKeywords
  {
    assert MissingRapidApiKey[0] == 'R' && MissingKeywords[0] == 'A';
    assert MissingWordpressUrl[0] == 'W' && MissingWordpressUsername[0] == 'W' && MissingWordpressPassword[0] == 'W';
    assert MissingWordpressUrl[11] == 'R' && MissingWordpressUsername[11] == 'S';
    assert MissingWordpressUrl[10] == 'U' && MissingWordpressPassword[10] == 'P';
    assert MissingWordpressUsername[10] == 'U';
  }

  /** The configuration is valid exactly when the four credentials are set
      and some keyword is configured. */
  lemma ValidIff(c: Config)
    ensures ValidationErrors(c) == [] <==>
      Truthy(c.rapidApiKey) && Truthy(c.wordpressUrl) && Truthy(c.wordpressUsername) &&
      Truthy(c.wordpressPassword) && !NoKeywords(c)
  {
  }

  /** Keywords parsed from the environment are never `['']`, so for them
      the keyword check is emptiness alone. */
  lemma ParsedKeywordsNeverBlank(env: Option<string>)
    ensures ParseKeywords(env) != [""]
  {
    CleanListNotBlank(ParseKeywords(env));
  }

  lemma CleanListNotBlank(r: seq<string>)
    requires forall i :: 0 <= i < |r| ==> Clean(r[i])
    ensures r != [""]
  {
    if |r| == 1 {
      assert Clean(r[0]);
      assert r[0] != [""][0];
    }
  }
}
