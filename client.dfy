/**
  The caching and credential logic of `ibisworld_client/client.py`.

  The cache directory is a map from file name to file content; a file that
  does not decode is `Corrupt`. The network is two functions fixed when the
  client is made: `server` gives what a POST to the API finally yields (the
  decoded reply, or the error it raised), and `tokenEndpoint` the same for
  the client-credentials exchange. A ghost log records every request sent,
  so that "no fetch" can be stated.
 */
module Client {
  import opened Wrappers
  import opened Json
  import opened Strings

  const BaseUrl: string := "https://api.ibisworld.com/v3"
  const ReportListPath: string := "/industry/v3/reportlist"
  const SectionsPath: string := "/segmentbenchmarking/v3/sections"
  const UpdatedReportsPath: string := "/industry/v3/updatedreports"

  // The two `RuntimeError` messages of `_ensure_token`, in full.
  const NoAccessToken: string := "Token endpoint did not return access_token"
  const NoCredentials: string :=
    "No IBISWorld token or client credentials found. Set IBISWORLD_TOKEN or provide client_id/client_secret/token_url"
  /**
    A label, not a message of the source: `.get` on a reply that is not a
    dict raises an `AttributeError` whose wording the code does not choose.
   */
  const ReplyNotObject: string := "token reply is not an object"

  // ---------------------------------------------------------------- keys

  /** The cache key of `list_reports`. */
  function ReportListKey(country: string, language: string): string {
    "reportlist_" + country + "_" + language
  }

  /** The cache key of `get_segment_sections`: the sections joined in the order given. */
  function SegmentKey(country: string, code: string, sections: seq<string>): string {
    "segment_" + country + "_" + code + "_" + Join("_", sections)
  }

  /** `key.replace("/", "_").replace(" ", "_")`. */
  function Sanitize(key: string): string {
    Replace(Replace(key, '/', '_'), ' ', '_')
  }

  /** The name of the cache file of `key` inside the cache directory. */
  function CachePath(key: string): string {
    Sanitize(key) + ".json"
  }

  predicate Unsafe(c: char) {
    c == '/' || c == ' '
  }

  /**
    The file name keeps the key's length and characters, except that each
    `/` and each space becomes `_`, and ends in `.json`; it holds neither
    `/` nor a space.
   */
  lemma CachePathSpec(key: string)
    ensures |CachePath(key)| == |key| + 5
    ensures CachePath(key)[|key|..] == ".json"
    ensures forall i :: 0 <= i < |key| ==> CachePath(key)[i] == if Unsafe(key[i]) then '_' else key[i]
    ensures forall i :: 0 <= i < |CachePath(key)| ==> !Unsafe(CachePath(key)[i])
  {
    var p := CachePath(key);
    forall i | 0 <= i < |p|
      ensures !Unsafe(p[i])
    {
      if i >= |key| {
        assert p[i] == ".json"[i - |key|];
      }
    }
  }

  /** Sanitising twice is sanitising once. */
  lemma SanitizeIdempotent(key: string)
    ensures Sanitize(Sanitize(key)) == Sanitize(key)
  {
    var s := Sanitize(key);
    assert forall i :: 0 <= i < |s| ==> s[i] == if Unsafe(key[i]) then '_' else key[i];
  }

  /** On keys without `/` or spaces the file name determines the key. */
  lemma CachePathInjectiveOnSafeKeys(a: string, b: string)
    requires forall i :: 0 <= i < |a| ==> !Unsafe(a[i])
    requires forall i :: 0 <= i < |b| ==> !Unsafe(b[i])
    requires CachePath(a) == CachePath(b)
    ensures a == b
  {
    CachePathSpec(a);
    CachePathSpec(b);
    assert |a| == |b|;
    forall i | 0 <= i < |a|
      ensures a[i] == b[i]
    {
      assert CachePath(a)[i] == a[i] && CachePath(b)[i] == b[i];
    }
  }

  /** Different keys can share a file: `"a/b"` and `"a_b"` both become `a_b.json`. */
  lemma CachePathCollision()
    ensures "a/b" != "a_b" && CachePath("a/b") == CachePath("a_b")
  {
    assert "a/b"[1] != "a_b"[1];
  }

  /** Different segment requests can share a key: code `1_2` with `[a]`, and code `1` with `[2, a]`. */
  lemma SegmentKeyCollision()
    ensures SegmentKey("US", "1_2", ["a"]) == SegmentKey("US", "1", ["2", "a"])
  {
  }

  /** The key depends on the order of the sections; they are not sorted first. */
  lemma SegmentKeyOrder()
    ensures SegmentKey("US", "1", ["a", "b"]) != SegmentKey("US", "1", ["b", "a"])
  {
    var k1 := SegmentKey("US", "1", ["a", "b"]);
    var k2 := SegmentKey("US", "1", ["b", "a"]);
    assert k1 == "segment_US_1_a_b" && k2 == "segment_US_1_b_a";
    assert k1[13] != k2[13];
  }

  /** A report list and a segment never share a cache file. */
  lemma ReportListAndSegmentApart(country: string, language: string, country': string, code: string, sections: seq<string>)
    ensures CachePath(ReportListKey(country, language)) != CachePath(SegmentKey(country', code, sections))
  {
    var r := ReportListKey(country, language);
    var s := SegmentKey(country', code, sections);
    CachePathSpec(r);
    CachePathSpec(s);
    assert r[0] == 'r' && s[0] == 's';
    assert CachePath(r)[0] != CachePath(s)[0];
  }

  // --------------------------------------------------------------- cache

  /** A file in the cache directory: decodable JSON, or content that fails to decode. */
  datatype CacheFile = Stored(data: Json) | Corrupt

  type Files = map<string, CacheFile>

  /** What `_load_cache(key)` gives; `None` (a missing or undecodable file) is `Null`. */
  function Load(files: Files, key: string): Json {
    var p := CachePath(key);
    if p in files && files[p].Stored? then files[p].data else Null
  }

  /** The directory after `_save_cache(key, data)`. */
  function Save(files: Files, key: string, data: Json): Files {
    files[CachePath(key) := Stored(data)]
  }

  /** Loading right after saving gives back the saved value. */
  lemma LoadSaved(files: Files, key: string, data: Json)
    ensures Load(Save(files, key, data), key) == data
  {
  }

  /** Saving leaves every key with another file name as it was. */
  lemma SaveKeepsOthers(files: Files, key: string, data: Json, other: string)
    requires CachePath(other) != CachePath(key)
    ensures Load(Save(files, key, data), other) == Load(files, other)
  {
  }

  /** Saving under `"a/b"` overwrites what `"a_b"` loads. */
  lemma SaveCollision(files: Files, data: Json)
    ensures Load(Save(files, "a/b", data), "a_b") == data
  {
    CachePathCollision();
  }

  /** A missing or undecodable file loads as nothing. */
  lemma LoadAbsent(files: Files, key: string)
    requires CachePath(key) !in files || files[CachePath(key)] == Corrupt
    ensures Load(files, key) == Null
  {
  }

  /** The value a lookup returns without fetching, if any: only a truthy cached value counts. */
  function CacheHit(files: Files, key: string, useCache: bool): Option<Json> {
    if useCache && Truthy(Load(files, key)) then Some(Load(files, key)) else None
  }

  /** An empty cached value, or caching switched off, means a fetch. */
  lemma CacheMisses(files: Files, key: string, useCache: bool)
    requires !useCache || !Truthy(Load(files, key))
    ensures CacheHit(files, key, useCache) == None
  {
  }

  /** After fetching and saving `data`, the next cached lookup returns it, unless it is falsy. */
  lemma SavedThenHit(files: Files, key: string, data: Json)
    ensures CacheHit(Save(files, key, data), key, true) == if Truthy(data) then Some(data) else None
  {
    LoadSaved(files, key, data);
  }

  // --------------------------------------------------------------- token

  /** The client-credentials exchange: a POST to `url` authenticated as `clientId`. */
  datatype Exchange = Exchange(url: string, clientId: string, clientSecret: string)

  /** One POST to the API: the URL, the bearer token in its header, and the JSON body. */
  datatype ApiCall = ApiCall(url: string, bearer: Json, payload: Json)

  datatype Outbound = TokenPost(exchange: Exchange) | ApiPost(call: ApiCall)

  /** Truthiness of an optional string setting. */
  predicate Given(o: Option<string>) {
    o.Some? && o.value != ""
  }

  /** `data.get("access_token")`; `None` when the reply is not an object and `.get` raises. */
  function AccessToken(data: Json): Option<Json> {
    match data
    case Obj(fields) => Some(if "access_token" in fields then fields["access_token"] else Null)
    case _ => None
  }

  /** The token held afterwards, what `_ensure_token` returns or raises, and the exchange it made. */
  datatype TokenStep = TokenStep(token: Json, result: Result<Json, string>, exchanged: Option<Exchange>)

  function EnsureTokenOf(token: Json, clientId: Option<string>, clientSecret: Option<string>,
                         tokenUrl: Option<string>, endpoint: Exchange -> Result<Json, string>): TokenStep
  {
    if Truthy(token) then TokenStep(token, Ok(token), None)
    else if Given(clientId) && Given(clientSecret) && Given(tokenUrl) then
      var ex := Exchange(tokenUrl.value, clientId.value, clientSecret.value);
      match endpoint(ex)
      case Err(e) => TokenStep(token, Err(e), Some(ex))
      case Ok(data) =>
        match AccessToken(data)
        case None => TokenStep(token, Err(ReplyNotObject), Some(ex))
        case Some(t) => TokenStep(t, if Truthy(t) then Ok(t) else Err(NoAccessToken), Some(ex))
    else TokenStep(token, Err(NoCredentials), None)
  }

  /** A held truthy token is returned as it is, with no exchange. */
  lemma HeldTokenKept(token: Json, clientId: Option<string>, clientSecret: Option<string>,
                      tokenUrl: Option<string>, endpoint: Exchange -> Result<Json, string>)
    requires Truthy(token)
    ensures EnsureTokenOf(token, clientId, clientSecret, tokenUrl, endpoint) == TokenStep(token, Ok(token), None)
  {
  }

  /** Without a token, a missing credential is an error and nothing is sent. */
  lemma CredentialsRequired(token: Json, clientId: Option<string>, clientSecret: Option<string>,
                            tokenUrl: Option<string>, endpoint: Exchange -> Result<Json, string>)
    requires !Truthy(token)
    ensures var s := EnsureTokenOf(token, clientId, clientSecret, tokenUrl, endpoint);
      s.exchanged.Some? <==> Given(clientId) && Given(clientSecret) && Given(tokenUrl)
    ensures var s := EnsureTokenOf(token, clientId, clientSecret, tokenUrl, endpoint);
      s.exchanged.None? ==> s == TokenStep(token, Err(NoCredentials), None)
  {
  }

  /**
    An exchange succeeds exactly when the endpoint answers with an object whose
    `access_token` is truthy; the token held afterwards is that value even when
    it is falsy and the call fails.
   */
  lemma ExchangeOutcome(token: Json, clientId: Option<string>, clientSecret: Option<string>,
                        tokenUrl: Option<string>, endpoint: Exchange -> Result<Json, string>)
    requires !Truthy(token) && Given(clientId) && Given(clientSecret) && Given(tokenUrl)
    ensures var ex := Exchange(tokenUrl.value, clientId.value, clientSecret.value);
      var s := EnsureTokenOf(token, clientId, clientSecret, tokenUrl, endpoint);
      s.exchanged == Some(ex) &&
      (s.result.Ok? <==>
        endpoint(ex).Ok? && AccessToken(endpoint(ex).value).Some? && Truthy(AccessToken(endpoint(ex).value).value))
    ensures var ex := Exchange(tokenUrl.value, clientId.value, clientSecret.value);
      var s := EnsureTokenOf(token, clientId, clientSecret, tokenUrl, endpoint);
      endpoint(ex).Ok? && AccessToken(endpoint(ex).value).Some? ==>
        s.token == AccessToken(endpoint(ex).value).value &&
        (s.result.Err? ==> s.result.error == NoAccessToken)
    ensures var ex := Exchange(tokenUrl.value, clientId.value, clientSecret.value);
      var s := EnsureTokenOf(token, clientId, clientSecret, tokenUrl, endpoint);
      endpoint(ex).Err? || AccessToken(endpoint(ex).value).None? ==>
        s.token == token && s.result.Err?
  {
  }

  /** A success returns the token now held, and it is truthy; so a second call makes no exchange. */
  lemma EnsureTokenStable(token: Json, clientId: Option<string>, clientSecret: Option<string>,
                          tokenUrl: Option<string>, endpoint: Exchange -> Result<Json, string>)
    ensures var s := EnsureTokenOf(token, clientId, clientSecret, tokenUrl, endpoint);
      s.result.Ok? ==> (s.result.value == s.token && Truthy(s.token) &&
        EnsureTokenOf(s.token, clientId, clientSecret, tokenUrl, endpoint) == TokenStep(s.token, Ok(s.token), None))
  {
  }

  // ---------------------------------------------------------------- post

  /** The token held afterwards, the reply or error, and the requests sent by one `_post`. */
  datatype PostStep = PostStep(token: Json, result: Result<Json, string>, sent: seq<Outbound>)

  function PostOf(token: Json, clientId: Option<string>, clientSecret: Option<string>, tokenUrl: Option<string>,
                  endpoint: Exchange -> Result<Json, string>, server: ApiCall -> Result<Json, string>,
                  path: string, payload: Json): PostStep
  {
    var s := EnsureTokenOf(token, clientId, clientSecret, tokenUrl, endpoint);
    var ex := if s.exchanged.Some? then [TokenPost(s.exchanged.value)] else [];
    match s.result
    case Err(e) => PostStep(s.token, Err(e), ex)
    case Ok(t) =>
      var call := ApiCall(BaseUrl + path, t, payload);
      PostStep(s.token, server(call), ex + [ApiPost(call)])
  }

  /**
    A post sends at most an exchange and then one API request, which carries a
    truthy bearer token and is the last request; any reply comes from that
    request. With a held token it is the only request.
   */
  lemma PostNeedsToken(token: Json, clientId: Option<string>, clientSecret: Option<string>, tokenUrl: Option<string>,
                       endpoint: Exchange -> Result<Json, string>, server: ApiCall -> Result<Json, string>,
                       path: string, payload: Json)
    ensures var p := PostOf(token, clientId, clientSecret, tokenUrl, endpoint, server, path, payload);
      |p.sent| <= 2 && (p.result.Ok? ==> p.sent != [] && p.sent[|p.sent| - 1].ApiPost?)
    ensures var p := PostOf(token, clientId, clientSecret, tokenUrl, endpoint, server, path, payload);
      forall i :: 0 <= i < |p.sent| && p.sent[i].ApiPost? ==>
        i == |p.sent| - 1 && Truthy(p.sent[i].call.bearer) && p.sent[i].call.url == BaseUrl + path
        && p.sent[i].call.payload == payload && p.result == server(p.sent[i].call)
    ensures Truthy(token) ==>
      PostOf(token, clientId, clientSecret, tokenUrl, endpoint, server, path, payload)
        == PostStep(token, server(ApiCall(BaseUrl + path, token, payload)), [ApiPost(ApiCall(BaseUrl + path, token, payload))])
  {
    EnsureTokenStable(token, clientId, clientSecret, tokenUrl, endpoint);
  }

  /** The body of a `list_reports` request. */
  function ReportListBody(country: string, language: string): Json {
    Obj(map["Country" := Str(country), "Language" := Str(language)])
  }

  /** The body of a `get_segment_sections` request. */
  function SectionsBody(code: string, sections: seq<string>, country: string, language: string): Json {
    Obj(map["Country" := Str(country), "Code" := Str(code), "Language" := Str(language),
            "ReportSections" := Arr(seq(|sections|, i requires 0 <= i < |sections| => Str(sections[i])))])
  }

  /** The body of a `get_updated_reports` request. */
  function UpdatedReportsBody(startDate: string, endDate: string, country: string, language: string): Json {
    Obj(map["StartDate" := Str(startDate), "EndDate" := Str(endDate), "Country" := Str(country), "Language" := Str(language)])
  }

  // -------------------------------------------------------------- client

  class IbisWorldClient {
    var token: Json
    const clientId: Option<string>
    const clientSecret: Option<string>
    const tokenUrl: Option<string>
    /** The cache directory. */
    var files: Files
    const server: ApiCall -> Result<Json, string>
    const tokenEndpoint: Exchange -> Result<Json, string>
    /** Every request sent so far, in order. */
    ghost var log: seq<Outbound>

    /** `token`, `clientId`, `clientSecret` and `tokenUrl` are the values after the environment fallback. */
    constructor (token: Json, clientId: Option<string>, clientSecret: Option<string>, tokenUrl: Option<string>,
                 files: Files, server: ApiCall -> Result<Json, string>, tokenEndpoint: Exchange -> Result<Json, string>)
      ensures this.token == token && this.clientId == clientId && this.clientSecret == clientSecret
      ensures this.tokenUrl == tokenUrl && this.files == files
      ensures this.server == server && this.tokenEndpoint == tokenEndpoint && log == []
    {
      this.token := token;
      this.clientId := clientId;
      this.clientSecret := clientSecret;
      this.tokenUrl := tokenUrl;
      this.files := files;
      this.server := server;
      this.tokenEndpoint := tokenEndpoint;
      log := [];
    }

    /** `_ensure_token`: the new token is stored before it is checked. */
    method EnsureToken() returns (r: Result<Json, string>)
      modifies this
      ensures var s := EnsureTokenOf(old(token), clientId, clientSecret, tokenUrl, tokenEndpoint);
        r == s.result && token == s.token &&
        log == old(log) + (if s.exchanged.Some? then [TokenPost(s.exchanged.value)] else [])
      ensures files == old(files)
    {
      if Truthy(token) {
        return Ok(token);
      }
      if Given(clientId) && Given(clientSecret) && Given(tokenUrl) {
        var ex := Exchange(tokenUrl.value, clientId.value, clientSecret.value);
        log := log + [TokenPost(ex)];
        var resp := tokenEndpoint(ex);
        if resp.Err? {
          return Err(resp.error);
        }
        var got := AccessToken(resp.value);
        if got.None? {
          return Err(ReplyNotObject);
        }
        token := got.value;
        if !Truthy(token) {
          return Err(NoAccessToken);
        }
        return Ok(token);
      }
      return Err(NoCredentials);
    }

    /** `_post`: fetch the headers (and so the token), then send the body. */
    method Post(path: string, payload: Json) returns (r: Result<Json, string>)
      modifies this
      ensures var p := PostOf(old(token), clientId, clientSecret, tokenUrl, tokenEndpoint, server, path, payload);
        r == p.result && token == p.token && log == old(log) + p.sent
      ensures files == old(files)
    {
      var t := EnsureToken();
      if t.Err? {
        return Err(t.error);
      }
      var call := ApiCall(BaseUrl + path, t.value, payload);
      log := log + [ApiPost(call)];
      r := server(call);
    }

    /** `_save_cache`. */
    method SaveCache(key: string, data: Json)
      modifies this
      ensures files == Save(old(files), key, data)
      ensures token == old(token) && log == old(log)
    {
      files := files[CachePath(key) := Stored(data)];
    }

    /** `_load_cache`: a missing file or one that fails to decode gives nothing. */
    method LoadCache(key: string) returns (r: Json)
      ensures r == Load(files, key)
      ensures CachePath(key) in files && files[CachePath(key)].Stored? ==> r == files[CachePath(key)].data
    {
      var p := CachePath(key);
      if p in files {
        match files[p]
        case Stored(data) => return data;
        case Corrupt => return Null;
      }
      return Null;
    }

    /**
      The cache-then-fetch flow shared by `list_reports` and
      `get_segment_sections`: a truthy cached value is returned with no
      request and no write; otherwise the reply is saved under the key and
      returned, and an error leaves the cache as it was.
     */
    method CachedPost(key: string, useCache: bool, path: string, payload: Json) returns (r: Result<Json, string>)
      modifies this
      ensures match CacheHit(old(files), key, useCache)
        case Some(v) => r == Ok(v) && files == old(files) && token == old(token) && log == old(log)
        case None =>
          var p := PostOf(old(token), clientId, clientSecret, tokenUrl, tokenEndpoint, server, path, payload);
          r == p.result && token == p.token && log == old(log) + p.sent &&
          files == if r.Ok? then Save(old(files), key, r.value) else old(files)
    {
      if useCache {
        var cached := LoadCache(key);
        if Truthy(cached) {
          return Ok(cached);
        }
      }
      r := Post(path, payload);
      if r.Err? {
        return;
      }
      SaveCache(key, r.value);
    }

    method ListReports(country: string, language: string, useCache: bool) returns (r: Result<Json, string>)
      modifies this
      ensures var key := ReportListKey(country, language);
        match CacheHit(old(files), key, useCache)
        case Some(v) => r == Ok(v) && files == old(files) && token == old(token) && log == old(log)
        case None =>
          var p := PostOf(old(token), clientId, clientSecret, tokenUrl, tokenEndpoint, server,
                          ReportListPath, ReportListBody(country, language));
          r == p.result && token == p.token && log == old(log) + p.sent &&
          files == if r.Ok? then Save(old(files), key, r.value) else old(files)
    {
      r := CachedPost(ReportListKey(country, language), useCache, ReportListPath, ReportListBody(country, language));
    }

    method GetSegmentSections(code: string, sections: seq<string>, country: string, language: string, useCache: bool)
      returns (r: Result<Json, string>)
      modifies this
      ensures var key := SegmentKey(country, code, sections);
        match CacheHit(old(files), key, useCache)
        case Some(v) => r == Ok(v) && files == old(files) && token == old(token) && log == old(log)
        case None =>
          var p := PostOf(old(token), clientId, clientSecret, tokenUrl, tokenEndpoint, server,
                          SectionsPath, SectionsBody(code, sections, country, language));
          r == p.result && token == p.token && log == old(log) + p.sent &&
          files == if r.Ok? then Save(old(files), key, r.value) else old(files)
    {
      r := CachedPost(SegmentKey(country, code, sections), useCache, SectionsPath,
                      SectionsBody(code, sections, country, language));
    }

    /** `get_updated_reports`: a plain post; the cache is neither read nor written. */
    method GetUpdatedReports(startDate: string, endDate: string, country: string, language: string)
      returns (r: Result<Json, string>)
      modifies this
      ensures var p := PostOf(old(token), clientId, clientSecret, tokenUrl, tokenEndpoint, server,
                              UpdatedReportsPath, UpdatedReportsBody(startDate, endDate, country, language));
        r == p.result && token == p.token && log == old(log) + p.sent
      ensures files == old(files)
    {
      r := Post(UpdatedReportsPath, UpdatedReportsBody(startDate, endDate, country, language));
    }
  }
}
