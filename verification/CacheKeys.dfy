/** The two session tables share their keys and the test for a usable prompt cache key. */
module CacheKeys {
  import opened Json
  import opened Text

  /** The value that is hashed to identify a session. */
  type Scope = string

  predicate HasCacheKey(cacheKey: Option<string>) {
    cacheKey.Some? && Strip(cacheKey.value) != ""
  }

  /** A usable key is one with a character other than white space. */
  lemma HasKeyIs(cacheKey: Option<string>)
    ensures HasCacheKey(cacheKey) <==>
            cacheKey.Some? && exists i :: 0 <= i < |cacheKey.value| && !IsSpace(cacheKey.value[i])
  {
    if cacheKey.Some? {
      var s := cacheKey.value;
      StripIs(s);
      var before, behind :| s == before + Strip(s) + behind && AllSpace(before) && AllSpace(behind);
      if Strip(s) != "" {
        assert s[|before|] == Strip(s)[0];
      } else {
        assert s == before + behind;
      }
    }
  }
}
