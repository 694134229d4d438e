/** The preimage of a cache key (buildLLMCacheKey in internal/middleware/cache.go). */
module CacheKey {
  /** What an answer is cached under: the first candidate provider, the model and the upstream body. */
  datatype Route = Route(provider: string, model: string, body: string)

  const NUL: char := '\0'

  /** What is hashed. */
  function Preimage(r: Route): string {
    r.provider + [NUL] + r.model + [NUL] + r.body
  }

  predicate NulFree(r: Route) {
    NUL !in r.provider && NUL !in r.model
  }

  lemma SplitsOnce(a: string, x: string, b: string, y: string)
    requires NUL !in a && NUL !in b
    requires a + [NUL] + x == b + [NUL] + y
    ensures a == b && x == y
  {
    var s := a + [NUL] + x;
    assert s[|a|] == NUL && s[|b|] == NUL;
    assert s[..|a|] == a && s[..|b|] == b;
    assert s[|a| + 1..] == x && s[|b| + 1..] == y;
  }

  /** Routes whose provider and model hold no NUL character have distinct preimages. */
  lemma PreimageInjective(r: Route, q: Route)
    requires NulFree(r) && NulFree(q) && Preimage(r) == Preimage(q)
    ensures r == q
  {
    Grouped(r);
    Grouped(q);
    SplitsOnce(r.provider, r.model + [NUL] + r.body, q.provider, q.model + [NUL] + q.body);
    SplitsOnce(r.model, r.body, q.model, q.body);
  }

  lemma Grouped(r: Route)
    ensures Preimage(r) == r.provider + [NUL] + (r.model + [NUL] + r.body)
  {
  }

  /** Any route whose provider or model holds a NUL character shares its preimage with another route. */
  lemma NulCollides(r: Route) returns (q: Route)
    requires !NulFree(r)
    ensures q != r && Preimage(q) == Preimage(r)
  {
    if NUL in r.provider {
      var i :| 0 <= i < |r.provider| && r.provider[i] == NUL;
      var a, b := r.provider[..i], r.provider[i + 1..];
      assert r.provider == a + [NUL] + b;
      q := Route(a, b, r.model + [NUL] + r.body);
      Regrouped(a, b, r.model, r.body);
    } else {
      var i :| 0 <= i < |r.model| && r.model[i] == NUL;
      var a, b := r.model[..i], r.model[i + 1..];
      assert r.model == a + [NUL] + b;
      q := Route(r.provider, a, b + [NUL] + r.body);
      Regrouped(r.provider, a, b, r.body);
      assert r.provider + [NUL] + (a + [NUL] + b) == r.provider + [NUL] + a + [NUL] + b;
    }
  }

  lemma Regrouped(a: string, b: string, c: string, d: string)
    ensures Preimage(Route(a, b, c + [NUL] + d)) == a + [NUL] + b + [NUL] + c + [NUL] + d
  {
  }
}
