# Thrift REST request adapter

A model of `ThriftRestRequest`, the class of the Elasticsearch Thrift transport
that wraps a request decoded from the Thrift wire format and presents it to the
server as one of its own REST requests.

- `Wrappers.dfy` — `Option`, standing for Java `null` and for unset Thrift fields.
- `JavaLang.dfy` — the Java platform pieces the adapter calls: `String.indexOf`,
  `Map.get` over a map whose values may be `null`, `Map.entrySet`, and
  `HashMap<String, String>` as a class `StringMap` whose `entries` change in place.
- `ThriftRestRequest.dfy` — module `ThriftRest`: the two method enumerations,
  the fields of the Thrift request that the adapter reads (`ThriftRequest`), the
  URI split (`SplitPath`, `QueryOffset`), and the adapter class
  `ThriftRestRequest`. Its constructor seeds the parameter map and splits the
  URI, as the Java constructor does. Its accessors are functions over its fields.

The query-string decoder of the REST support library (`RestUtils.decodeQueryString`)
is a constructor parameter of type `QueryStringDecoder`. It takes the URI, the
start offset and the current entries, and returns the new entries. Every
property below therefore holds whatever entries that decoder returns; a decoder
that throws or does not return is outside the model. The constructor's
contract says when the decoder is applied, at which offset, and to which map.

The parameter map keeps Java's sharing. `ThriftRequest.parameters` is a
reference to a `StringMap`. When it is present, the adapter's `params` is that
same object, and decoding updates it in place. When it is absent, `params` is a
fresh map, empty before decoding.

On an unset method the Java `switch` on `null` throws, so `Method()` requires
the method to be set. The Thrift and REST enumerations both have exactly the
six verbs, so the trailing `return null` of `method()` is unreachable, and
`Method()` is proved always to return `Some`.

## Model

| member | source | states |
|---|---|---|
| `JavaLang.IndexOf` | src/main/java/org/elasticsearch/thrift/ThriftRestRequest.java:44 | the result is -1 exactly when the character does not occur; otherwise it is an index holding the character, with no occurrence before it |
| `JavaLang.Get` | src/main/java/org/elasticsearch/thrift/ThriftRestRequest.java:119 | `get` yields a string exactly when the key is present and not mapped to `null`, and then it is the mapped value |
| `JavaLang.EntrySet` | src/main/java/org/elasticsearch/thrift/ThriftRestRequest.java:109 | a pair is in the entry set exactly when its key maps to its value |
| `JavaLang.StringMap.constructor` | src/main/java/org/elasticsearch/thrift/ThriftRestRequest.java:42 | a new `HashMap` has no entries |
| `ThriftRest.SplitPath` | src/main/java/org/elasticsearch/thrift/ThriftRestRequest.java:44-48 | the raw path is a prefix of the URI with no `?`; it is the whole URI when there is no `?`, and otherwise the URI has a `?` right after it |
| `ThriftRest.QueryOffset` | src/main/java/org/elasticsearch/thrift/ThriftRestRequest.java:44-49 | the decoder offset is absent exactly when the URI has no `?`; otherwise it is one past the raw path, and raw path + `?` + the rest from that offset rebuilds the URI |
| `ThriftRest.SplitIsUnique` | src/main/java/org/elasticsearch/thrift/ThriftRestRequest.java:44-49 | for any `?`-free path and any rest, the URI path + `?` + rest splits into exactly that path, with the decoder starting after the `?` |
| `ThriftRest.ThriftRestRequest.constructor` | src/main/java/org/elasticsearch/thrift/ThriftRestRequest.java:40-51 | `params` is the request's own map object when it has one, else a fresh map; without `?` the raw path is the URI and the entries are the seed's, untouched; with the first `?` at p the raw path is `uri[..p]` and the entries are the decoder's result from offset p+1 over the seed |
| `ThriftRest.ThriftRestRequest.Method` | src/main/java/org/elasticsearch/thrift/ThriftRestRequest.java:54-70 | a set Thrift method always maps to a REST method, and it is the one with the same name |
| `ThriftRest.RestMethodNamesDistinct` | src/main/java/org/elasticsearch/thrift/ThriftRestRequest.java:54-70 | REST methods with the same name are equal, so the name clause of `Method` fixes its result |
| `ThriftRest.MethodIsInjective` | src/main/java/org/elasticsearch/thrift/ThriftRestRequest.java:54-70 | two requests with the same REST method have the same Thrift method |
| `ThriftRest.ThriftRestRequest.Uri` | src/main/java/org/elasticsearch/thrift/ThriftRestRequest.java:72-75 | the URI is passed through unchanged, and it is the raw path, or the raw path + `?` + the query string |
| `ThriftRest.ThriftRestRequest.RawPath` | src/main/java/org/elasticsearch/thrift/ThriftRestRequest.java:77-80 | the raw path is a `?`-free prefix of the URI: all of it when the URI has no `?`, and otherwise exactly the part before the first `?` |
| `ThriftRest.ThriftRestRequest.HasContent` | src/main/java/org/elasticsearch/thrift/ThriftRestRequest.java:83-85 | true exactly when a body is set and holds at least one byte |
| `ThriftRest.ThriftRestRequest.Content` | src/main/java/org/elasticsearch/thrift/ThriftRestRequest.java:88-93 | the body's bytes when one is set, and the empty sequence (not absent) otherwise |
| `ThriftRest.HasContentIffContentNonEmpty` | src/main/java/org/elasticsearch/thrift/ThriftRestRequest.java:83-93 | `hasContent()` holds exactly when `content()` is non-empty |
| `ThriftRest.ThriftRestRequest.Header` | src/main/java/org/elasticsearch/thrift/ThriftRestRequest.java:96-101 | `null` when there is no header map; otherwise an exact, case-sensitive lookup that finds a value only for a present, non-`null` entry |
| `ThriftRest.ThriftRestRequest.Headers` | src/main/java/org/elasticsearch/thrift/ThriftRestRequest.java:104-110 | `null` exactly when there is no header map; otherwise it holds exactly the map's entries |
| `ThriftRest.HeaderAgreesWithHeaders` | src/main/java/org/elasticsearch/thrift/ThriftRestRequest.java:96-110 | `header(name)` returns a value exactly when `headers()` lists that name with that value |
| `ThriftRest.ThriftRestRequest.HasParam` | src/main/java/org/elasticsearch/thrift/ThriftRestRequest.java:113-115 | key membership in the parameter map, whatever the key is mapped to |
| `ThriftRest.ThriftRestRequest.Param` | src/main/java/org/elasticsearch/thrift/ThriftRestRequest.java:118-120 | a value is returned only for a present key and is its mapped value; every present, non-`null` entry is returned |
| `ThriftRest.ThriftRestRequest.ParamOr` | src/main/java/org/elasticsearch/thrift/ThriftRestRequest.java:128-134 | the value `param(key)` returns when it is not `null`, and otherwise the default, which may itself be `null` |
| `ThriftRest.NullParamFallsBackToDefault` | src/main/java/org/elasticsearch/thrift/ThriftRestRequest.java:113-134 | a key mapped to `null` counts for `hasParam`, `param` gives `null`, and `param(key, d)` gives `d` |
| `ThriftRest.ThriftRestRequest.Params` | src/main/java/org/elasticsearch/thrift/ThriftRestRequest.java:123-125 | the adapter's live `params` object itself (not a copy), which is the request's own map when it has one, and whose keys are exactly those `hasParam` accepts |

`SearchWithQueryExample` and `SearchWithParameterExample` are client methods.
They derive two examples (a search URI with `?pretty=true`, and a
search URI with its own `routing` parameter) from the contracts alone.

## Left out

- The rules of `RestUtils.decodeQueryString` (percent-decoding, `&`/`=` splitting, which value wins when a key repeats): that code is not part of this model. The decoder is an arbitrary function parameter, so nothing is claimed about the decoded pairs.
- ThriftRest.ThriftRestRequest.Headers: returns the entries as a set. The order of the `ImmutableList` copied from the `HashMap`'s iteration is not modelled, because `HashMap` iteration order is unspecified.
- ThriftRest.ThriftRestRequest.Method: requires the Thrift method to be set. On an unset method the Java switch throws a `NullPointerException`, and that runtime failure is not modelled.
- `BytesArray`, `BytesReference` and the `ByteBuffer` behind `bufferForBody()`: the body is a byte sequence, and `remaining() > 0` is read as "non-empty".
- A `null` request or a `null` URI: both make the Java constructor throw. The model's types rule them out.
- The other members of the framework's `RestRequest` superclass and of the generated Thrift request class: the adapter does not use them.
- Java `String` indices count UTF-16 code units; here a string is a sequence of Unicode characters, so the raw-path length and the decoder offset count characters. The two agree on URIs without characters outside the Basic Multilingual Plane.
- A `null` key passed to `header`, `hasParam` or `param`: Java's `HashMap` accepts it, but keys here are always strings.
- Later changes to the Thrift request: every field other than the parameter map (method, URI, header map, body) is a value fixed at construction. In Java the adapter keeps a reference to the request and re-reads these fields on every call, so a later `setUri` would make `uri()` and `rawPath()` disagree, and later changes to the header map would show in `header()` and `headers()`. The model's agreement of `Uri()` with `rawPath` relies on this.
- The transport and the server that produce the Thrift request, and threading: none of that is in this class.
