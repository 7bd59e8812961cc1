/**
 * The few pieces of the Java platform that the adapter relies on:
 * `String.indexOf(char)`, `Map.get` on a map whose values may be `null`,
 * and a mutable `HashMap<String, String>` whose identity can be shared.
 */
module JavaLang {
  import opened Wrappers

  /** A Java `String` value that may be `null` is an `Option<string>`. */
  type NullableString = Option<string>

  /** The contents of a `Map<String, String>`: a key may be mapped to `null`. */
  type StringEntries = map<string, NullableString>

  /** `s.indexOf(c)`: the index of the first occurrence of `c` in `s`, or -1. */
  function IndexOf(s: string, c: char): (r: int)
    ensures -1 <= r < |s|
    ensures r == -1 <==> c !in s
    ensures 0 <= r < |s| ==> s[r] == c
    ensures forall i :: 0 <= i < r ==> s[i] != c
  {
    if |s| == 0 then -1
    else if s[0] == c then 0
    else
      var k := IndexOf(s[1..], c);
      if k < 0 then -1 else k + 1
  }

  /**
   * `m.get(key)`: `null` both when `key` is absent and when it is mapped to
   * `null`; otherwise the mapped string.
   */
  function Get(m: StringEntries, key: string): (r: NullableString)
    ensures r.Some? <==> key in m && m[key].Some?
    ensures r.Some? ==> m[key] == r
  {
    if key in m then m[key] else None
  }

  /** `m.entrySet()` as a value: every (key, value) pair of the map. */
  function EntrySet(m: StringEntries): (r: set<(string, NullableString)>)
    ensures forall k, v :: (k, v) in r <==> k in m && m[k] == v
  {
    set k | k in m :: (k, m[k])
  }

  /** A `java.util.HashMap<String, String>`: an object whose entries change in place. */
  class StringMap {
    var entries: StringEntries

    /** `new HashMap<String, String>()`. */
    constructor ()
      ensures entries == map[]
    {
      entries := map[];
    }
  }
}
