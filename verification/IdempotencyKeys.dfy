/** The strings under which the idempotency middleware stores responses and locks. */
module IdempotencyKeys {
  import opened Common

  const LOCK_SUFFIX := ":lock"

  function CacheKey(prefix: string, verb: string, path: string, key: string): string {
    prefix + verb + ":" + path + ":" + key
  }

  function LockKey(prefix: string, verb: string, path: string, key: string): string {
    CacheKey(prefix, verb, path, key) + LOCK_SUFFIX
  }

  /** Upper case over ASCII; HTTP methods are ASCII tokens (section 9.1 of RFC 9110). */
  function ToUpper(s: string): (r: string)
    ensures |r| == |s|
    ensures forall i :: 0 <= i < |s| ==> r[i] == if 'a' <= s[i] <= 'z' then s[i] - 'a' + 'A' else s[i]
  {
    seq(|s|, i requires 0 <= i < |s| => if 'a' <= s[i] <= 'z' then s[i] - 'a' + 'A' else s[i])
  }

  predicate Mutating(verb: string) {
    ToUpper(verb) in ["POST", "PUT", "PATCH", "DELETE"]
  }

  /** Equal but for the case of ASCII letters. */
  predicate SameButCase(s: string, upper: string) {
    |s| == |upper| && forall i :: 0 <= i < |s| ==>
      s[i] == upper[i] || ('A' <= upper[i] <= 'Z' && s[i] as int == upper[i] as int + 32)
  }

  /** Exactly four methods are handled, in any case. */
  lemma MutatingExactly(verb: string)
    ensures Mutating(verb) <==> SameButCase(verb, "POST") || SameButCase(verb, "PUT")
                                || SameButCase(verb, "PATCH") || SameButCase(verb, "DELETE")
    ensures Mutating("POST") && Mutating("put") && !Mutating("GET") && !Mutating("HEAD") && !Mutating("OPTIONS")
  {
    UpperIs(verb, "POST");
    UpperIs(verb, "PUT");
    UpperIs(verb, "PATCH");
    UpperIs(verb, "DELETE");
    UpperIs("POST", "POST");
    UpperIs("put", "PUT");
    assert |ToUpper("GET")| == 3 && ToUpper("GET")[0] == 'G';
    assert |ToUpper("HEAD")| == 4 && ToUpper("HEAD")[0] == 'H';
    assert |ToUpper("OPTIONS")| == 7;
    hide ToUpper;
  }

  lemma UpperIs(s: string, upper: string)
    requires forall i :: 0 <= i < |upper| ==> 'A' <= upper[i] <= 'Z'
    ensures ToUpper(s) == upper <==> SameButCase(s, upper)
  {
    var u := ToUpper(s);
    if SameButCase(s, upper) {
      assert u == upper;
    }
    if u == upper {
      forall i | 0 <= i < |s|
        ensures s[i] == upper[i] || s[i] as int == upper[i] as int + 32
      {
        assert u[i] == upper[i];
      }
    }
  }

  predicate ColonFree(s: string) {
    forall i :: 0 <= i < |s| ==> s[i] != ':'
  }

  lemma MutatingMethodsAreColonFree(verb: string)
    requires Mutating(verb)
    ensures ColonFree(verb) && verb != ""
  {
    var upper := ToUpper(verb);
    assert ColonFree(upper);
    forall i | 0 <= i < |verb|
      ensures verb[i] != ':'
    {
      assert upper[i] != ':';
    }
  }

  /** A string with a colon-free head determines the head and the rest. */
  lemma FirstColonSplits(a: string, x: string, b: string, y: string)
    requires ColonFree(a) && ColonFree(b) && a + ":" + x == b + ":" + y
    ensures a == b && x == y
  {
    var s := a + ":" + x;
    assert s[|a|] == ':' && (b + ":" + y)[|b|] == ':';
    assert a == s[..|a|] == b;
    assert x == s[|a| + 1..] == y;
  }

  /** Two requests share a cache key exactly when they agree on the method and on path:key. */
  lemma CacheKeysCollide(prefix: string, m1: string, p1: string, k1: string, m2: string, p2: string, k2: string)
    requires Mutating(m1) && Mutating(m2)
    ensures CacheKey(prefix, m1, p1, k1) == CacheKey(prefix, m2, p2, k2)
            <==> m1 == m2 && p1 + ":" + k1 == p2 + ":" + k2
  {
    MutatingMethodsAreColonFree(m1);
    MutatingMethodsAreColonFree(m2);
    var r1, r2 := p1 + ":" + k1, p2 + ":" + k2;
    var c1, c2 := CacheKey(prefix, m1, p1, k1), CacheKey(prefix, m2, p2, k2);
    assert c1 == prefix + (m1 + ":" + r1);
    assert c2 == prefix + (m2 + ":" + r2);
    assert c1[|prefix|..] == m1 + ":" + r1 && c2[|prefix|..] == m2 + ":" + r2;
    if c1 == c2 {
      FirstColonSplits(m1, r1, m2, r2);
    }
  }

  /** On paths without a colon the cache key is injective. */
  lemma CacheKeyInjective(prefix: string, m1: string, p1: string, k1: string, m2: string, p2: string, k2: string)
    requires Mutating(m1) && Mutating(m2) && ColonFree(p1) && ColonFree(p2)
    requires CacheKey(prefix, m1, p1, k1) == CacheKey(prefix, m2, p2, k2)
    ensures m1 == m2 && p1 == p2 && k1 == k2
  {
    CacheKeysCollide(prefix, m1, p1, k1, m2, p2, k2);
    FirstColonSplits(p1, k1, p2, k2);
  }

  predicate EndsWith(s: string, suffix: string) {
    |s| >= |suffix| && s[|s| - |suffix|..] == suffix
  }

  /** A request reaches the protocol only with a mutating method and a key. */
  predicate Eligible(verb: string, key: string) {
    key != "" && Mutating(verb)
  }

  /** The cache key of one request is the lock key of another. */
  ghost predicate Aliased(prefix: string, cacheKey: string) {
    exists m, p, k :: Eligible(m, k) && LockKey(prefix, m, p, k) == cacheKey
  }

  /** A cache key can be a lock key only if the client's key is "lock" or ends in ":lock". */
  lemma AliasedNeedsLockSuffix(prefix: string, verb: string, path: string, key: string)
    requires Aliased(prefix, CacheKey(prefix, verb, path, key))
    ensures EndsWith(":" + key, LOCK_SUFFIX)
  {
    var c := CacheKey(prefix, verb, path, key);
    assert c == prefix + verb + ":" + path + (":" + key);
    assert c[|c| - |key| - 1] == ':';
    var m, p, k :| Eligible(m, k) && LockKey(prefix, m, p, k) == c;
    var tail := c[|c| - 5..];
    assert tail == LOCK_SUFFIX;
    var colon := Max(0, 4 - |key|);
    assert tail[colon] == c[|c| - 5 + colon];
    if |key| >= 4 {
      assert (":" + key)[|key| - 4..] == tail;
    }
  }

  /** Exactly: a cache key is the lock key of some request if and only if path:key ends in ":lock" and
      has a colon before that which leaves room for the other request's key. */
  lemma AliasedExactly(prefix: string, verb: string, path: string, key: string)
    requires Eligible(verb, key)
    ensures var t := path + ":" + key;
      Aliased(prefix, CacheKey(prefix, verb, path, key))
      <==> EndsWith(t, LOCK_SUFFIX) && exists i :: 0 <= i < |t| - 6 && t[i] == ':'
  {
    var t := path + ":" + key;
    hide CacheKey, LockKey;
    if Aliased(prefix, CacheKey(prefix, verb, path, key)) {
      var m, p, k :| Eligible(m, k) && LockKey(prefix, m, p, k) == CacheKey(prefix, verb, path, key);
      AliasHas(prefix, m, p, k, verb, path, key);
      assert t[|p|] == ':' by {
        assert t == p + (":" + k + LOCK_SUFFIX);
      }
    }
    if i :| EndsWith(t, LOCK_SUFFIX) && 0 <= i < |t| - 6 && t[i] == ':' {
      var p, k := t[..i], t[i + 1..|t| - 5];
      assert t == p + ":" + k + LOCK_SUFFIX;
      AliasHas(prefix, verb, p, k, verb, path, key);
    }
  }

  /** A lock key is the cache key of the request with a longer key. */
  lemma AliasHas(prefix: string, m: string, p: string, k: string, verb: string, path: string, key: string)
    requires Mutating(m) && Mutating(verb)
    ensures LockKey(prefix, m, p, k) == CacheKey(prefix, verb, path, key)
            <==> m == verb && path + ":" + key == p + ":" + k + LOCK_SUFFIX
  {
    assert LockKey(prefix, m, p, k) == CacheKey(prefix, m, p, k + LOCK_SUFFIX);
    CacheKeysCollide(prefix, m, p, k + LOCK_SUFFIX, verb, path, key);
    assert p + ":" + (k + LOCK_SUFFIX) == p + ":" + k + LOCK_SUFFIX;
    hide CacheKey, LockKey, Mutating;
  }

  /** On a path without a colon it is the lock key of some request, on whatever path, exactly when the
      client's key is some other key + ":lock". */
  lemma AliasedOnPlainPaths(prefix: string, verb: string, path: string, key: string)
    requires Eligible(verb, key) && ColonFree(path)
    ensures Aliased(prefix, CacheKey(prefix, verb, path, key)) <==> |key| > 5 && EndsWith(key, LOCK_SUFFIX)
    ensures Aliased(prefix, CacheKey(prefix, verb, path, key)) <==> exists k :: k != "" && key == k + ":lock"
  {
    if |key| > 5 && EndsWith(key, LOCK_SUFFIX) {
      assert key == key[..|key| - 5] + ":lock";
    }
    if k :| k != "" && key == k + ":lock" {
      assert key[|key| - 5..] == ":lock";
    }
    AliasedExactly(prefix, verb, path, key);
    hide Aliased, CacheKey;
    var t := path + ":" + key;
    assert t[|path|] == ':';
    assert |key| >= 5 ==> t[|t| - 5..] == key[|key| - 5..];
  }
}
