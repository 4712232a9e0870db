/** The settings store (`SettingsManager` in src/settings_manager.py): a
    JSON-like dictionary read and written through '.'-separated key paths,
    whole-section merges, defaults built from the environment, and the
    validator. The settings file is not modelled; each write reports the
    outcome of the file write it would trigger, given as a parameter. */
module Settings {
  import opened Strings
  import opened Articles

  /** A JSON value as `json.load` produces it. */
  datatype Value =
    | Null
    | Bool(b: bool)
    | Int(i: int)
    | Str(s: string)
    | List(items: seq<Value>)
    | Dict(entries: map<string, Value>)

  /** Python truthiness of a JSON value. */
  predicate IsTruthy(v: Value) {
    match v
    case Null => false
    case Bool(b) => b
    case Int(i) => i != 0
    case Str(s) => s != ""
    case List(items) => items != []
    case Dict(entries) => entries != map[]
  }

  // ---------------------------------------------------------------------
  // get

  /** The walk of `get`: follow the keys through nested dictionaries; the
      default as soon as a key is missing or the value reached is not a
      dictionary. */
  function Lookup(v: Value, keys: seq<string>, default: Value): (r: Value)
    ensures keys == [] ==> r == v
    ensures keys != [] && !(v.Dict? && keys[0] in v.entries) ==> r == default
    decreases |keys|
  {
    if keys == [] then v
    else if v.Dict? && keys[0] in v.entries then Lookup(v.entries[keys[0]], keys[1..], default)
    else default
  }

  /** The key path of a dotted name. */
  function Keys(path: string): (keys: seq<string>)
    ensures |keys| >= 1
  {
    Split(path, '.')
  }

  /** Every key of the path is found, each in a dictionary. */
  predicate Found(v: Value, keys: seq<string>)
    decreases |keys|
  {
    keys == [] || (v.Dict? && keys[0] in v.entries && Found(v.entries[keys[0]], keys[1..]))
  }

  // ---------------------------------------------------------------------
  // set

  /** Along the path, every value that already exists before the last key
      is a dictionary: the condition under which `set` does not raise. */
  predicate DictsAlong(m: map<string, Value>, keys: seq<string>)
    decreases |keys|
  {
    |keys| <= 1 ||
    (keys[0] !in m) ||
    (m[keys[0]].Dict? && DictsAlong(m[keys[0]].entries, keys[1..]))
  }

  /** `set` on a dictionary: walk the keys but the last, creating an empty
      dictionary for each missing one, and store the value under the last.
      `None` where the walk meets a value that is not a dictionary: Python
      raises `TypeError` there, before anything has been written. */
  function SetIn(m: map<string, Value>, keys: seq<string>, v: Value): (r: Option<map<string, Value>>)
    requires |keys| >= 1
    ensures r.Some? <==> DictsAlong(m, keys)
    ensures r.Some? ==> keys[0] in r.value
    decreases |keys|
  {
    if |keys| == 1 then Some(m[keys[0] := v])
    else
      var child := if keys[0] in m then m[keys[0]] else Dict(map[]);
      if !child.Dict? then None
      else match SetIn(child.entries, keys[1..], v)
        case None => None
        case Some(c) => Some(m[keys[0] := Dict(c)])
  }

  /** After a successful `set`, `get` on the same path gives the value
      stored. */
  lemma {:induction false} GetAfterSet(m: map<string, Value>, keys: seq<string>, v: Value, default: Value)
    requires |keys| >= 1 && SetIn(m, keys, v).Some?
    ensures Lookup(Dict(SetIn(m, keys, v).value), keys, default) == v
    decreases |keys|
  {
    if |keys| > 1 {
      var child := if keys[0] in m then m[keys[0]] else Dict(map[]);
      GetAfterSet(child.entries, keys[1..], v, default);
    }
  }

  /** `p` and `q` share no prefix relation: they part ways at some index
      where both have a key. */
  predicate Diverge(p: seq<string>, q: seq<string>) {
    exists i :: 0 <= i < |p| && i < |q| && p[..i] == q[..i] && p[i] != q[i]
  }

  /** `set` changes nothing outside its path: a path that neither is a
      prefix of the path set nor extends it reads as before. */
  lemma {:induction false} SetKeepsOthers(m: map<string, Value>, keys: seq<string>, v: Value,
                                          p: seq<string>, default: Value)
    requires |keys| >= 1 && SetIn(m, keys, v).Some? && Diverge(p, keys)
    ensures Lookup(Dict(SetIn(m, keys, v).value), p, default) == Lookup(Dict(m), p, default)
    decreases |keys|
  {
    var i :| 0 <= i < |p| && i < |keys| && p[..i] == keys[..i] && p[i] != keys[i];
    if i == 0 {
      SetKeepsOtherKeys(m, keys, v, p, default);
    } else {
      DivergeTails(p, keys, i);
      var child := if keys[0] in m then m[keys[0]] else Dict(map[]);
      SetKeepsOthers(child.entries, keys[1..], v, p[1..], default);
      SetBelowSameKey(m, keys, v, p, default);
    }
  }

  /** A path that starts with another key is untouched by `set`. */
  lemma SetKeepsOtherKeys(m: map<string, Value>, keys: seq<string>, v: Value, p: seq<string>, default: Value)
    requires |keys| >= 1 && SetIn(m, keys, v).Some? && p != [] && p[0] != keys[0]
    ensures Lookup(Dict(SetIn(m, keys, v).value), p, default) == Lookup(Dict(m), p, default)
  {
    var r := SetIn(m, keys, v).value;
    assert p[0] in r <==> p[0] in m;
    if p[0] in m {
      assert r[p[0]] == m[p[0]];
    }
  }

  /** Paths that part ways after a common first key still part ways below
      it. */
  lemma DivergeTails(p: seq<string>, q: seq<string>, i: nat)
    requires 0 < i < |p| && i < |q| && p[..i] == q[..i] && p[i] != q[i]
    ensures p[0] == q[0] && Diverge(p[1..], q[1..])
  {
    assert p[0] == p[..i][0] == q[..i][0] == q[0];
    assert p[1..][..i - 1] == p[1..i] == q[1..i] == q[1..][..i - 1];
    assert p[1..][i - 1] == p[i] && q[1..][i - 1] == q[i];
  }

  /** Below the shared first key, the lookup in the updated dictionary is
      the lookup in the updated child. */
  lemma SetBelowSameKey(m: map<string, Value>, keys: seq<string>, v: Value, p: seq<string>, default: Value)
    requires |keys| >= 2 && SetIn(m, keys, v).Some? && |p| >= 1 && p[0] == keys[0]
    ensures var child := if keys[0] in m then m[keys[0]] else Dict(map[]);
      child.Dict? && SetIn(child.entries, keys[1..], v).Some? &&
      Lookup(Dict(SetIn(m, keys, v).value), p, default)
        == Lookup(Dict(SetIn(child.entries, keys[1..], v).value), p[1..], default) &&
      (keys[0] in m ==> Lookup(Dict(m), p, default) == Lookup(child, p[1..], default)) &&
      (keys[0] !in m ==> Lookup(Dict(m), p, default) == default)
  {
  }

  /** Below an empty dictionary, any non-empty path reads the default. */
  lemma EmptyLookup(p: seq<string>, default: Value)
    requires |p| >= 1
    ensures Lookup(Dict(map[]), p, default) == default
  {
  }

  // ---------------------------------------------------------------------
  // Defaults and validation

  /** `get_default_settings`: the sections and their values, the
      environment's where it has one. The integer variables are given
      already converted. */
  function Defaults(env: map<string, string>, maxArticles: int, hour: int, minute: int): (d: map<string, Value>)
    ensures d.Keys == {"medium_api", "wordpress", "gemini", "search", "schedule", "content"}
    ensures forall k :: k in d ==> d[k].Dict?
  {
    var autoTranslate := Lower(EnvOr(env, "AUTO_TRANSLATE", "true")) == "true";
    map[
      "medium_api" := MediumApiDefaults(env),
      "wordpress" := WordpressDefaults(env),
      "gemini" := GeminiDefaults(env, autoTranslate),
      "search" := SearchDefaults(env, maxArticles),
      "schedule" := ScheduleDefaults(env, hour, minute),
      "content" := ContentDefaults(autoTranslate)]
  }

  function MediumApiDefaults(env: map<string, string>): Value {
    Dict(map[
      "rapidapi_key" := Str(EnvOr(env, "RAPIDAPI_KEY", "")),
      "rapidapi_host" := Str(EnvOr(env, "RAPIDAPI_HOST", "medium2.p.rapidapi.com"))])
  }

  function WordpressDefaults(env: map<string, string>): Value {
    Dict(map[
      "url" := Str(EnvOr(env, "WORDPRESS_URL", "")),
      "username" := Str(EnvOr(env, "WORDPRESS_USERNAME", "")),
      "password" := Str(EnvOr(env, "WORDPRESS_PASSWORD", "")),
      "author_name" := Str(EnvOr(env, "AUTHOR_NAME", "Demandei")),
      "default_category" := Str(EnvOr(env, "CATEGORY_NAME", "Technology")),
      "post_status" := Str(EnvOr(env, "POST_STATUS", "draft"))])
  }

  function GeminiDefaults(env: map<string, string>, autoTranslate: bool): Value {
    Dict(map[
      "api_key" := Str(EnvOr(env, "GEMINI_API_KEY", "")),
      "enabled" := Bool(autoTranslate)])
  }

  function SearchDefaults(env: map<string, string>, maxArticles: int): Value {
    Dict(map[
      "keywords" := DefaultKeywords(env),
      "max_articles" := Int(maxArticles),
      "language_preference" := Str(EnvOr(env, "LANGUAGE_PREFERENCE", "both")),
      "min_claps" := Int(0),
      "recent_days" := Int(30)])
  }

  function ScheduleDefaults(env: map<string, string>, hour: int, minute: int): Value {
    Dict(map[
      "enabled" := Bool(true),
      "hour" := Int(hour),
      "minute" := Int(minute),
      "timezone" := Str(EnvOr(env, "TIMEZONE", "America/Sao_Paulo"))])
  }

  function ContentDefaults(autoTranslate: bool): Value {
    Dict(map[
      "auto_translate" := Bool(autoTranslate),
      "target_language" := Str("pt"),
      "preserve_formatting" := Bool(true),
      "add_source_link" := Bool(true),
      "add_author_credit" := Bool(true)])
  }

  /** `os.getenv(name, default)`. */
  function EnvOr(env: map<string, string>, name: string, default: string): string {
    if name in env then env[name] else default
  }

  /** The default keyword list: the variable split on ',' (not stripped)
      when it is set and non-empty, else six built-in topics. */
  function DefaultKeywords(env: map<string, string>): (v: Value)
    ensures v.List? && v.items != []
  {
    if "SEARCH_KEYWORDS" in env && env["SEARCH_KEYWORDS"] != "" then
      var parts := Split(env["SEARCH_KEYWORDS"], ',');
      List(seq(|parts|, i requires 0 <= i < |parts| => Str(parts[i])))
    else
      List([Str("python"), Str("javascript"), Str("react"), Str("nodejs"), Str("AI"), Str("machine learning")])
  }

  datatype Report = Report(errors: seq<string>, warnings: seq<string>, isValid: bool)

  /** The value at a dotted path of the settings, `None` (JSON null) when
      absent. */
  function Get(settings: map<string, Value>, path: string, default: Value): Value {
    Lookup(Dict(settings), Keys(path), default)
  }

  const RapidApiKeyMissing := "RapidAPI key is missing"
  const WordpressUrlMissing := "WordPress URL is missing"
  const WordpressUsernameMissing := "WordPress username is missing"
  const WordpressPasswordMissing := "WordPress password is missing"
  const KeywordsMissing := "No search keywords configured"
  const GeminiKeyMissing := "Translation enabled but Gemini API key is missing"

  /** `validate_settings`: one error per missing credential and for an
      empty keyword list, a warning (not an error) when translation is on
      without a Gemini key; valid exactly when there is no error. */
  function Validate(settings: map<string, Value>): (r: Report)
    ensures r.isValid <==> r.errors == []
    ensures r.warnings == [] <==>
      !(IsTruthy(Get(settings, "content.auto_translate", Null)) && !IsTruthy(Get(settings, "gemini.api_key", Null)))
    ensures r.errors == [] <==>
      IsTruthy(Get(settings, "medium_api.rapidapi_key", Null)) &&
      IsTruthy(Get(settings, "wordpress.url", Null)) &&
      IsTruthy(Get(settings, "wordpress.username", Null)) &&
      IsTruthy(Get(settings, "wordpress.password", Null)) &&
      IsTruthy(Get(settings, "search.keywords", List([])))
    ensures |r.errors| <= 5 && |r.warnings| <= 1
  {
    var errors := Errors(
      IsTruthy(Get(settings, "medium_api.rapidapi_key", Null)),
      IsTruthy(Get(settings, "wordpress.url", Null)),
      IsTruthy(Get(settings, "wordpress.username", Null)),
      IsTruthy(Get(settings, "wordpress.password", Null)),
      IsTruthy(Get(settings, "search.keywords", List([]))));
    var warnings :=
      if IsTruthy(Get(settings, "content.auto_translate", Null)) && !IsTruthy(Get(settings, "gemini.api_key", Null))
      then [GeminiKeyMissing] else [];
    Report(errors, warnings, errors == [])
  }

  /** The errors of `validate_settings` from the outcomes of its five
      checks (the rapidapi key, the WordPress URL, username and password,
      the keywords), appended in that order. */
  function Errors(key: bool, url: bool, username: bool, password: bool, keywords: bool): (r: seq<string>)
    ensures r == [] <==> key && url && username && password && keywords
    ensures |r| <= 5
  {
    (if key then [] else [RapidApiKeyMissing]) +
    (if url then [] else [WordpressUrlMissing]) +
    (if username then [] else [WordpressUsernameMissing]) +
    (if password then [] else [WordpressPasswordMissing]) +
    (if keywords then [] else [KeywordsMissing])
  }

  /** Where each error message of `validate_settings` stands in the order
      of its checks; 5 for anything else. */
  function ErrorRank(m: string): (k: nat)
    ensures k <= 5
  {
    if m == RapidApiKeyMissing then 0
    else if m == WordpressUrlMissing then 1
    else if m == WordpressUsernameMissing then 2
    else if m == WordpressPasswordMissing then 3
    else if m == KeywordsMissing then 4
    else 5
  }

  /** The six messages are pairwise different, so each error message has
      its own rank and the warning has none. */
  lemma ErrorRanks()
    ensures ErrorRank(RapidApiKeyMissing) == 0 && ErrorRank(WordpressUrlMissing) == 1
    ensures ErrorRank(WordpressUsernameMissing) == 2 && ErrorRank(WordpressPasswordMissing) == 3
    ensures ErrorRank(KeywordsMissing) == 4 && ErrorRank(GeminiKeyMissing) == 5
  {
    assert |RapidApiKeyMissing| == 23 && |WordpressUrlMissing| == 24;
    assert WordpressUsernameMissing[10] == 'u' && WordpressPasswordMissing[10] == 'p';
    assert KeywordsMissing[0] == 'N' && WordpressUsernameMissing[0] == 'W' && WordpressPasswordMissing[0] == 'W';
    assert |GeminiKeyMissing| == 49;
  }

  /** Messages listed in the order of the checks that produce them. */
  predicate RankOrdered(errors: seq<string>) {
    forall i, j :: 0 <= i < j < |errors| ==> ErrorRank(errors[i]) < ErrorRank(errors[j])
  }

  /** Appending the message of a later check keeps the order. */
  lemma RankOrderedAppend(errors: seq<string>, fails: bool, m: string)
    requires RankOrdered(errors)
    requires forall x :: x in errors ==> ErrorRank(x) < ErrorRank(m)
    ensures RankOrdered(errors + (if fails then [m] else []))
  {
  }

  /** Each check reports its own message exactly when it fails. */
  lemma ErrorsMembers(key: bool, url: bool, username: bool, password: bool, keywords: bool)
    ensures var r := Errors(key, url, username, password, keywords);
      (RapidApiKeyMissing in r <==> !key) && (WordpressUrlMissing in r <==> !url) &&
      (WordpressUsernameMissing in r <==> !username) && (WordpressPasswordMissing in r <==> !password) &&
      (KeywordsMissing in r <==> !keywords) && GeminiKeyMissing !in r
    ensures forall m :: m in Errors(key, url, username, password, keywords) ==> ErrorRank(m) < 5
  {
    ErrorsAre(key, url, username, password, keywords);
    ErrorRanks();
  }

  /** The messages that the checks add, check by check. */
  lemma ErrorsAre(key: bool, url: bool, username: bool, password: bool, keywords: bool)
    ensures forall m :: m in Errors(key, url, username, password, keywords) <==>
      (!key && m == RapidApiKeyMissing) || (!url && m == WordpressUrlMissing) ||
      (!username && m == WordpressUsernameMissing) || (!password && m == WordpressPasswordMissing) ||
      (!keywords && m == KeywordsMissing)
  {
  }

  /** The messages come in the order of the checks. */
  lemma ErrorsOrdered(key: bool, url: bool, username: bool, password: bool, keywords: bool)
    ensures RankOrdered(Errors(key, url, username, password, keywords))
  {
    ErrorRanks();
    var e1: seq<string> := if key then [] else [RapidApiKeyMissing];
    var e2 := e1 + (if url then [] else [WordpressUrlMissing]);
    RankOrderedAppend(e1, !url, WordpressUrlMissing);
    var e3 := e2 + (if username then [] else [WordpressUsernameMissing]);
    RankOrderedAppend(e2, !username, WordpressUsernameMissing);
    var e4 := e3 + (if password then [] else [WordpressPasswordMissing]);
    RankOrderedAppend(e3, !password, WordpressPasswordMissing);
    RankOrderedAppend(e4, !keywords, KeywordsMissing);
  }

  /** Each of the five checks of `validate_settings` reports its own
      message exactly when its value is missing, the errors come in the
      order of the checks, and the warning is the Gemini one exactly when
      translation is on without a key. */
  lemma ValidateMessages(settings: map<string, Value>)
    ensures var r := Validate(settings);
      (RapidApiKeyMissing in r.errors <==> !IsTruthy(Get(settings, "medium_api.rapidapi_key", Null))) &&
      (WordpressUrlMissing in r.errors <==> !IsTruthy(Get(settings, "wordpress.url", Null))) &&
      (WordpressUsernameMissing in r.errors <==> !IsTruthy(Get(settings, "wordpress.username", Null))) &&
      (WordpressPasswordMissing in r.errors <==> !IsTruthy(Get(settings, "wordpress.password", Null))) &&
      (KeywordsMissing in r.errors <==> !IsTruthy(Get(settings, "search.keywords", List([])))) &&
      GeminiKeyMissing !in r.errors
    ensures RankOrdered(Validate(settings).errors)
    ensures forall m :: m in Validate(settings).errors ==> ErrorRank(m) < 5
    ensures var r := Validate(settings);
      r.warnings == if IsTruthy(Get(settings, "content.auto_translate", Null)) && !IsTruthy(Get(settings, "gemini.api_key", Null))
        then [GeminiKeyMissing] else []
  {
    var key, url, username, password, keywords :=
      IsTruthy(Get(settings, "medium_api.rapidapi_key", Null)),
      IsTruthy(Get(settings, "wordpress.url", Null)),
      IsTruthy(Get(settings, "wordpress.username", Null)),
      IsTruthy(Get(settings, "wordpress.password", Null)),
      IsTruthy(Get(settings, "search.keywords", List([])));
    ErrorsMembers(key, url, username, password, keywords);
    ErrorsOrdered(key, url, username, password, keywords);
  }

  // ---------------------------------------------------------------------
  // The manager

  class SettingsManager {
    /** The top-level dictionary of settings. */
    var settings: map<string, Value>

    /** Start from settings loaded from the file, or from the defaults
        when there is none. */
    constructor(loaded: Option<map<string, Value>>, defaults: map<string, Value>)
      ensures loaded.Some? ==> settings == loaded.value
      ensures loaded.None? ==> settings == defaults
    {
      settings := if loaded.Some? then loaded.value else defaults;
    }

    /** `get(path, default)`: a read-only walk. */
    function GetValue(path: string, default: Value): (r: Value)
      reads this
      ensures Found(Dict(settings), Keys(path)) ==> r == Lookup(Dict(settings), Keys(path), Null)
      ensures !Found(Dict(settings), Keys(path)) ==> r == default
    {
      FoundLookup(Dict(settings), Keys(path), default);
      Get(settings, path, default)
    }

    /** `set(path, value)`: `Err` for the `TypeError` of a path through a
        non-dictionary, with nothing changed; otherwise the value is stored
        and the outcome of the file write returned. */
    method Set(path: string, v: Value, writeOk: bool) returns (r: Result<bool>)
      modifies this
      ensures r.Err? <==> !DictsAlong(old(settings), Keys(path))
      ensures r.Err? ==> settings == old(settings)
      ensures r.Ok? ==> settings == SetIn(old(settings), Keys(path), v).value && r.value == writeOk
    {
      var updated := SetIn(settings, Keys(path), v);
      if updated.None? {
        return Err("TypeError");
      }
      settings := updated.value;
      r := Ok(writeOk);
    }

    /** `update_section(section, data)`: merge into an existing section
        (data wins), or add the section; `.update` on a section that is not
        a dictionary raises `AttributeError`. */
    method UpdateSection(section: string, data: map<string, Value>, writeOk: bool) returns (r: Result<bool>)
      modifies this
      ensures r == (if section in old(settings) && !old(settings)[section].Dict? then Err("AttributeError") else Ok(writeOk))
      ensures r.Err? ==> settings == old(settings)
      ensures r.Ok? ==> settings == old(settings)[section := Dict(Merged(old(settings), section, data))]
    {
      if section in settings {
        if !settings[section].Dict? {
          return Err("AttributeError");
        }
        settings := settings[section := Dict(settings[section].entries + data)];
      } else {
        settings := settings[section := Dict(data)];
      }
      r := Ok(writeOk);
    }

    /** `get_all`: a copy of the top-level dictionary. */
    method GetAll() returns (r: map<string, Value>)
      ensures r == settings
    {
      r := settings;
    }

    /** `reset_to_defaults`: the stored settings become the defaults. */
    method ResetToDefaults(defaults: map<string, Value>, writeOk: bool) returns (ok: bool)
      modifies this
      ensures settings == defaults && ok == writeOk
    {
      settings := defaults;
      ok := writeOk;
    }

    /** `save_settings(s)`: a truthy `s` replaces the stored settings; the
        rest is the file write. */
    method SaveSettings(s: Option<map<string, Value>>, writeOk: bool) returns (ok: bool)
      modifies this
      ensures s.Some? && s.value != map[] ==> settings == s.value
      ensures !(s.Some? && s.value != map[]) ==> settings == old(settings)
      ensures ok == writeOk
    {
      if s.Some? && s.value != map[] {
        settings := s.value;
      }
      ok := writeOk;
    }

    /** `validate_settings` on the stored settings. */
    method ValidateSettings() returns (r: Report)
      ensures r == Validate(settings)
    {
      r := Validate(settings);
    }
  }

  /** The section after `update_section` when it succeeds. */
  function Merged(settings: map<string, Value>, section: string, data: map<string, Value>): (r: map<string, Value>)
    requires section !in settings || settings[section].Dict?
    ensures forall k :: k in data ==> k in r && r[k] == data[k]
    ensures section in settings ==> forall k :: k in settings[section].entries && k !in data ==>
      k in r && r[k] == settings[section].entries[k]
    ensures section !in settings ==> r == data
  {
    if section in settings then settings[section].entries + data else data
  }

  /** A path that is found reads the same whatever the default. */
  lemma {:induction false} FoundLookup(v: Value, keys: seq<string>, default: Value)
    ensures Found(v, keys) ==> Lookup(v, keys, default) == Lookup(v, keys, Null)
    ensures !Found(v, keys) ==> Lookup(v, keys, default) == default
    decreases |keys|
  {
    if keys != [] && v.Dict? && keys[0] in v.entries {
      FoundLookup(v.entries[keys[0]], keys[1..], default);
    }
  }
}
