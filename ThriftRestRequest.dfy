/**
 * The adapter that presents a Thrift-decoded request to the search server as
 * one of its REST requests: the URI is split once into the raw path and the
 * query string, the query string is decoded into the parameter map, and
 * everything else is a read of the Thrift request's fields.
 */
module ThriftRest {
  import opened Wrappers
  import opened JavaLang

  type byte = bv8

  /** The Thrift IDL's method enumeration. */
  datatype ThriftMethod = GET | PUT | POST | DELETE | HEAD | OPTIONS {
    function Name(): string {
      match this
      case GET => "GET"
      case PUT => "PUT"
      case POST => "POST"
      case DELETE => "DELETE"
      case HEAD => "HEAD"
      case OPTIONS => "OPTIONS"
    }
  }

  /** The server's own REST method enumeration. */
  datatype RestMethod = GET | POST | PUT | DELETE | OPTIONS | HEAD {
    function Name(): string {
      match this
      case GET => "GET"
      case POST => "POST"
      case PUT => "PUT"
      case DELETE => "DELETE"
      case OPTIONS => "OPTIONS"
      case HEAD => "HEAD"
    }
  }

  /**
   * The fields of the Thrift-generated request that the adapter reads. An
   * unset field is `None`. The parameter map is an object: the adapter keeps
   * a reference to it rather than a copy.
   */
  datatype ThriftRequest = ThriftRequest(
    httpMethod: Option<ThriftMethod>,
    uri: string,
    headers: Option<StringEntries>,
    body: Option<seq<byte>>,
    parameters: Option<StringMap>)

  /**
   * The query-string decoder of the REST support library: given the whole
   * URI, the offset at which the query string starts and the current
   * parameter map, it yields the parameter map after decoding. Its rules are
   * not part of this model, so it is a parameter of the adapter.
   */
  type QueryStringDecoder = (string, nat, StringEntries) -> StringEntries

  /** The raw path: `uri` up to its first `?`, or all of `uri` when there is none. */
  function SplitPath(uri: string): (r: string)
    ensures r <= uri
    ensures '?' !in r
    ensures '?' !in uri ==> r == uri
    ensures '?' in uri ==> |r| < |uri| && uri[|r|] == '?'
  {
    var pathEndPos := IndexOf(uri, '?');
    if pathEndPos < 0 then uri else uri[..pathEndPos]
  }

  /**
   * The offset handed to the query-string decoder: just after the first `?`,
   * or `None` when `uri` has no `?` and the decoder is not called.
   */
  function QueryOffset(uri: string): (r: Option<nat>)
    ensures r.None? <==> '?' !in uri
    ensures r.Some? ==> r.value == |SplitPath(uri)| + 1 <= |uri|
    ensures r.Some? ==> uri == SplitPath(uri) + "?" + uri[r.value..]
  {
    var pathEndPos := IndexOf(uri, '?');
    if pathEndPos < 0 then None
    else
      assert uri == uri[..pathEndPos] + [uri[pathEndPos]] + uri[pathEndPos + 1..];
      Some(pathEndPos + 1)
  }

  /**
   * The split is the only one of its kind: if `uri` is a `?`-free path, a
   * `?` and any rest, the raw path is that path and the decoder starts at
   * that rest.
   */
  lemma {:induction false} SplitIsUnique(path: string, rest: string)
    requires '?' !in path
    ensures SplitPath(path + "?" + rest) == path
    ensures QueryOffset(path + "?" + rest) == Some(|path| + 1)
  {
    var uri := path + "?" + rest;
    assert uri[|path|] == '?';
    assert forall i :: 0 <= i < |path| ==> uri[i] == path[i];
    var p := IndexOf(uri, '?');
    assert |path| <= p by {
      assert forall i :: 0 <= i < |path| ==> uri[i] != '?';
    }
    assert uri[..p] == path;
  }

  /** The objects that building an adapter for `request` may change. */
  ghost function SeedFootprint(request: ThriftRequest): set<object>
  {
    if request.parameters.Some? then {request.parameters.value} else {}
  }

  /** The entries of the Thrift request's own parameter map, or none when it has none. */
  ghost function SeedEntries(request: ThriftRequest): (r: StringEntries)
    reads SeedFootprint(request)
  {
    if request.parameters.Some? then request.parameters.value.entries else map[]
  }

  class ThriftRestRequest {
    const request: ThriftRequest
    const rawPath: string
    const params: StringMap

    /**
     * What construction establishes and nothing afterwards changes: the raw
     * path is the split of the URI and the parameter map is the request's
     * own whenever the request has one.
     */
    ghost predicate Valid() {
      && rawPath == SplitPath(request.uri)
      && (request.parameters.Some? ==> params == request.parameters.value)
    }

    /**
     * Seeds the parameter map with the request's own map (the same object)
     * or a new empty map, takes the raw path up to the first `?`, and only
     * when there is a `?` runs the decoder from just after it, over that map.
     */
    constructor (request: ThriftRequest, decodeQueryString: QueryStringDecoder)
      modifies SeedFootprint(request)
      ensures Valid()
      ensures this.request == request
      ensures request.parameters.Some? ==> params == request.parameters.value
      ensures request.parameters.None? ==> fresh(params)
      ensures '?' !in request.uri ==>
                rawPath == request.uri && params.entries == old(SeedEntries(request))
      ensures '?' in request.uri ==>
                var p := IndexOf(request.uri, '?');
                && rawPath == request.uri[..p]
                && QueryOffset(request.uri) == Some(p + 1)
                && params.entries == decodeQueryString(request.uri, p + 1, old(SeedEntries(request)))
    {
      this.request := request;
      var seed: StringMap;
      if request.parameters.None? {
        seed := new StringMap();
      } else {
        seed := request.parameters.value;
      }
      this.params := seed;
      this.rawPath := SplitPath(request.uri);
      new;
      var queryStart := QueryOffset(request.uri);
      if queryStart.Some? {
        seed.entries := decodeQueryString(request.uri, queryStart.value, seed.entries);
      }
    }

    /**
     * `method()`: the REST method of the same name. Both enumerations have
     * the same six members, so the fallback `null` is never produced.
     */
    function Method(): (r: Option<RestMethod>)
      requires request.httpMethod.Some?
      ensures r.Some? && r.value.Name() == request.httpMethod.value.Name()
    {
      match request.httpMethod.value
      case GET => Some(RestMethod.GET)
      case POST => Some(RestMethod.POST)
      case PUT => Some(RestMethod.PUT)
      case DELETE => Some(RestMethod.DELETE)
      case HEAD => Some(RestMethod.HEAD)
      case OPTIONS => Some(RestMethod.OPTIONS)
    }

    /** `uri()`: the URI as received, which the raw path and the query string rebuild. */
    function Uri(): (r: string)
      requires Valid()
      ensures r == request.uri
      ensures '?' !in r ==> r == rawPath
      ensures '?' in r ==> |rawPath| < |r| && r == rawPath + "?" + r[|rawPath| + 1..]
    {
      request.uri
    }

    /** `rawPath()`: the URI up to its first `?`, all of it when it has no `?`. */
    function RawPath(): (r: string)
      requires Valid()
      ensures r <= request.uri && '?' !in r
      ensures '?' !in request.uri ==> r == request.uri
      ensures '?' in request.uri ==> |r| < |request.uri| && request.uri[|r|] == '?'
    {
      rawPath
    }

    /** `hasContent()`: a body is set and it holds at least one byte. */
    function HasContent(): (r: bool)
      ensures r <==> request.body.Some? && request.body.value != []
    {
      request.body.Some? && |request.body.value| > 0
    }

    /** `content()`: the body's bytes, empty (never absent) when no body is set. */
    function Content(): (r: seq<byte>)
      ensures request.body.Some? ==> r == request.body.value
      ensures request.body.None? ==> r == []
    {
      if request.body.None? then [] else request.body.value
    }

    /** `header(name)`: a case-sensitive lookup, `null` when there is no header map. */
    function Header(name: string): (r: NullableString)
      ensures request.headers.None? ==> r.None?
      ensures r.Some? <==> request.headers.Some? && name in request.headers.value
                           && request.headers.value[name].Some?
      ensures r.Some? ==> r == request.headers.value[name]
    {
      if request.headers.None? then None else Get(request.headers.value, name)
    }

    /** `headers()`: every header entry, or `null` when there is no header map. */
    function Headers(): (r: Option<set<(string, NullableString)>>)
      ensures r.None? <==> request.headers.None?
      ensures r.Some? ==> forall n, v :: (n, v) in r.value <==>
                            n in request.headers.value && request.headers.value[n] == v
    {
      if request.headers.None? then None else Some(EntrySet(request.headers.value))
    }

    /** `hasParam(key)`: `key` is a key of the parameter map, whatever it is mapped to. */
    function HasParam(key: string): (r: bool)
      reads params
      ensures r <==> key in params.entries
    {
      key in params.entries
    }

    /** `param(key)`: the mapped string; `null` for a missing key or a key mapped to `null`. */
    function Param(key: string): (r: NullableString)
      reads params
      ensures r.Some? ==> HasParam(key) && params.entries[key] == r
      ensures HasParam(key) && params.entries[key].Some? ==> r.Some?
    {
      Get(params.entries, key)
    }

    /**
     * `param(key, defaultValue)`: `param(key)` unless that is `null`, then the
     * default, which may itself be `null`.
     */
    function ParamOr(key: string, defaultValue: NullableString): (r: NullableString)
      reads params
      ensures Param(key).Some? ==> r == Param(key)
      ensures Param(key).None? ==> r == defaultValue
    {
      var value := Get(params.entries, key);
      if value.None? then defaultValue else value
    }

    /** `params()`: the live parameter map itself, the request's own when it has one. */
    function Params(): (r: StringMap)
      requires Valid()
      ensures r == params
      ensures request.parameters.Some? ==> r == request.parameters.value
      ensures forall k :: k in r.entries <==> HasParam(k)
    {
      params
    }
  }

  /** `hasContent()` holds exactly when `content()` is not empty. */
  lemma HasContentIffContentNonEmpty(req: ThriftRestRequest)
    ensures req.HasContent() <==> req.Content() != []
  {
  }

  /** `header(name)` finds a value exactly when `headers()` lists that entry. */
  lemma HeaderAgreesWithHeaders(req: ThriftRestRequest, name: string, value: string)
    ensures req.Header(name) == Some(value) <==>
              req.Headers().Some? && (name, Some(value)) in req.Headers().value
  {
  }

  /** A key mapped to `null` is present for `hasParam` but `param(key, d)` yields `d`. */
  lemma NullParamFallsBackToDefault(req: ThriftRestRequest, key: string, defaultValue: NullableString)
    requires key in req.params.entries && req.params.entries[key].None?
    ensures req.HasParam(key) && req.Param(key).None?
    ensures req.ParamOr(key, defaultValue) == defaultValue
  {
  }

  /** Distinct REST methods have distinct names, so `method()` is fixed by its name clause. */
  lemma RestMethodNamesDistinct(a: RestMethod, b: RestMethod)
    ensures a.Name() == b.Name() ==> a == b
  {
  }

  /** `method()` is one-to-one: different Thrift methods give different REST methods. */
  lemma MethodIsInjective(x: ThriftRestRequest, y: ThriftRestRequest)
    requires x.request.httpMethod.Some? && y.request.httpMethod.Some?
    ensures x.Method() == y.Method() ==> x.request.httpMethod == y.request.httpMethod
  {
  }

  /** A search request whose URI carries a query string. */
  method SearchWithQueryExample(decode: QueryStringDecoder)
  {
    var path, query := "/index/_search", "pretty=true";
    SplitIsUnique(path, query);
    var a := new ThriftRestRequest(ThriftRequest(Some(ThriftMethod.GET), path + "?" + query, None, None, None), decode);
    assert a.rawPath == path;
    assert a.params.entries == decode(path + "?" + query, |path| + 1, map[]);
    assert a.Method() == Some(RestMethod.GET);
  }

  /** A search request without a query string and with a parameter of its own. */
  method SearchWithParameterExample(decode: QueryStringDecoder)
  {
    var seeded := new StringMap();
    seeded.entries := map["routing" := Some("shard1")];
    var path := "/index/_search";
    assert '?' !in path;
    var b := new ThriftRestRequest(ThriftRequest(Some(ThriftMethod.GET), path, None, Some([]), Some(seeded)), decode);
    assert b.rawPath == path;
    assert b.params == seeded && b.params.entries == map["routing" := Some("shard1")];
    assert b.ParamOr("routing", Some("none")) == Some("shard1") && !b.HasContent();
    assert b.ParamOr("pretty", None) == None;
  }
}
