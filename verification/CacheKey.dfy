/** The tenant-namespaced key of a cached explanation. */
module CacheKey {

  function BuildCacheKey(tenant: string, resourceType: string, resourceId: string,
                         recordHash: string, model: string, promptVersion: string): string
  {
    "ai:explain:" + tenant + ":" + resourceType + ":" + resourceId + ":" + recordHash + ":" + model + ":"
        + promptVersion
  }

  ghost predicate ColonFree(s: string) {
    forall i :: 0 <= i < |s| ==> s[i] != ':'
  }

  /** The text before the first colon, and what follows it, are determined. */
  lemma FirstSegment(a: string, rest: string, b: string, rest': string)
    requires ColonFree(a) && ColonFree(b)
    requires a + ":" + rest == b + ":" + rest'
    ensures a == b && rest == rest'
  {
    var s, t := a + ":" + rest, b + ":" + rest';
    assert s[|a|] == ':' && t[|b|] == ':';
    assert forall i :: 0 <= i < |a| ==> s[i] == a[i];
    assert forall i :: 0 <= i < |b| ==> t[i] == b[i];
    assert |a| == |b|;
    assert a == s[..|a|] && b == t[..|b|];
    assert rest == s[|a| + 1..] && rest' == t[|b| + 1..];
  }

  /** The key as its first segment and the rest. */
  function Tail(resourceType: string, resourceId: string, recordHash: string, model: string,
                promptVersion: string): string {
    resourceType + ":" + (resourceId + ":" + (recordHash + ":" + (model + ":" + promptVersion)))
  }

  lemma KeyShape(tenant: string, resourceType: string, resourceId: string, recordHash: string, model: string,
                 promptVersion: string)
    ensures BuildCacheKey(tenant, resourceType, resourceId, recordHash, model, promptVersion)
         == "ai:explain:" + (tenant + ":" + Tail(resourceType, resourceId, recordHash, model, promptVersion))
  {
  }

  lemma KeyTails(t: string, a: string, b: string, c: string, d: string, e: string,
                 t': string, a': string, b': string, c': string, d': string, e': string)
    requires BuildCacheKey(t, a, b, c, d, e) == BuildCacheKey(t', a', b', c', d', e')
    ensures t + ":" + Tail(a, b, c, d, e) == t' + ":" + Tail(a', b', c', d', e')
  {
    KeyShape(t, a, b, c, d, e);
    KeyShape(t', a', b', c', d', e');
    var p, x, y := "ai:explain:", t + ":" + Tail(a, b, c, d, e), t' + ":" + Tail(a', b', c', d', e');
    assert (p + x)[|p|..] == x && (p + y)[|p|..] == y;
  }

  /** Two tenants never share a key, whatever the other segments contain. */
  lemma TenantsNeverShareKeys(t: string, a: string, b: string, c: string, d: string, e: string,
                              t': string, a': string, b': string, c': string, d': string, e': string)
    requires ColonFree(t) && ColonFree(t')
    requires BuildCacheKey(t, a, b, c, d, e) == BuildCacheKey(t', a', b', c', d', e')
    ensures t == t' && Tail(a, b, c, d, e) == Tail(a', b', c', d', e')
  {
    KeyTails(t, a, b, c, d, e, t', a', b', c', d', e');
    FirstSegment(t, Tail(a, b, c, d, e), t', Tail(a', b', c', d', e'));
  }

  function Colons(s: string): nat {
    multiset(s)[':']
  }

  lemma ColonsOfPair(d: string, e: string)
    ensures Colons(d + ":" + e) == Colons(d) + 1 + Colons(e)
  {
  }

  lemma NoColons(s: string)
    requires ColonFree(s)
    ensures Colons(s) == 0
  {
    assert ':' !in s;
  }

  /** A text up to its colon counts fewer colons than any longer beginning. */
  lemma LongerHasMoreColons(a: string, rest: string, b: string, rest': string)
    requires a + ":" + rest == b + ":" + rest' && |a| < |b|
    ensures Colons(a) < Colons(b)
  {
    var s, more := a + ":" + rest, b[|a| + 1..];
    assert s[..|b|] == b && s[..|a|] == a && s[|a|] == ':';
    assert b == a + ":" + more;
    ColonsOfPair(a, more);
  }

  /** How many colons a segment holds says where it ends. */
  lemma CountedSegment(a: string, rest: string, b: string, rest': string)
    requires a + ":" + rest == b + ":" + rest' && Colons(a) == Colons(b)
    ensures a == b && rest == rest'
  {
    if |a| < |b| {
      LongerHasMoreColons(a, rest, b, rest');
    } else if |b| < |a| {
      LongerHasMoreColons(b, rest', a, rest);
    }
    var s := a + ":" + rest;
    assert a == s[..|a|] && b == s[..|b|];
    assert rest == s[|a| + 1..] && rest' == s[|b| + 1..];
  }

  /** The last two segments: if either holds as many colons in both, so does the other. */
  lemma LastTwoSegments(d: string, e: string, d': string, e': string)
    requires d + ":" + e == d' + ":" + e'
    requires Colons(d) == Colons(d') || Colons(e) == Colons(e')
    ensures d == d' && e == e'
  {
    ColonsOfPair(d, e);
    ColonsOfPair(d', e');
    CountedSegment(d, e, d', e');
  }

  lemma TailSegments(a: string, b: string, c: string, d: string, e: string,
                     a': string, b': string, c': string, d': string, e': string)
    requires Tail(a, b, c, d, e) == Tail(a', b', c', d', e')
    requires Colons(a) == Colons(a') && Colons(b) == Colons(b') && Colons(c) == Colons(c')
    requires Colons(d) == Colons(d') || Colons(e) == Colons(e')
    ensures a == a' && b == b' && c == c' && d == d' && e == e'
  {
    CountedSegment(a, b + ":" + (c + ":" + (d + ":" + e)), a', b' + ":" + (c' + ":" + (d' + ":" + e')));
    CountedSegment(b, c + ":" + (d + ":" + e), b', c' + ":" + (d' + ":" + e'));
    CountedSegment(c, d + ":" + e, c', d' + ":" + e');
    LastTwoSegments(d, e, d', e');
  }

  /** Two equal keys are keys of the same six segments exactly when the segments hold equally many
      colons each; the model's count, or the prompt version's, follows from the others. */
  lemma KeysCollideOnlyByColons(t: string, a: string, b: string, c: string, d: string, e: string,
                                t': string, a': string, b': string, c': string, d': string, e': string)
    requires BuildCacheKey(t, a, b, c, d, e) == BuildCacheKey(t', a', b', c', d', e')
    ensures t == t' && a == a' && b == b' && c == c' && d == d' && e == e' <==>
              && Colons(t) == Colons(t') && Colons(a) == Colons(a') && Colons(b) == Colons(b')
              && Colons(c) == Colons(c') && (Colons(d) == Colons(d') || Colons(e) == Colons(e'))
  {
    KeyTails(t, a, b, c, d, e, t', a', b', c', d', e');
    if && Colons(t) == Colons(t') && Colons(a) == Colons(a') && Colons(b) == Colons(b')
       && Colons(c) == Colons(c') && (Colons(d) == Colons(d') || Colons(e) == Colons(e'))
    {
      CountedSegment(t, Tail(a, b, c, d, e), t', Tail(a', b', c', d', e'));
      TailSegments(a, b, c, d, e, a', b', c', d', e');
    }
  }

  /** With the ids, digests and version the application builds keys from, which hold no colon, the
      key determines all six segments, whatever a tenant configures as its model. */
  lemma KeyIsInjective(t: string, a: string, b: string, c: string, d: string, e: string,
                       t': string, a': string, b': string, c': string, d': string, e': string)
    requires ColonFree(t) && ColonFree(a) && ColonFree(b) && ColonFree(c) && ColonFree(e)
    requires ColonFree(t') && ColonFree(a') && ColonFree(b') && ColonFree(c') && ColonFree(e')
    requires BuildCacheKey(t, a, b, c, d, e) == BuildCacheKey(t', a', b', c', d', e')
    ensures t == t' && a == a' && b == b' && c == c' && d == d' && e == e'
  {
    NoColons(t);
    NoColons(t');
    NoColons(a);
    NoColons(a');
    NoColons(b);
    NoColons(b');
    NoColons(c);
    NoColons(c');
    NoColons(e);
    NoColons(e');
    KeysCollideOnlyByColons(t, a, b, c, d, e, t', a', b', c', d', e');
  }

  /** A colon inside a segment lets two different resources of one tenant share a key: the counts
      of the two segments differ. */
  lemma ColonsMakeKeysAmbiguous(t: string, a: string, b: string, x: string, c: string, d: string, e: string)
    ensures BuildCacheKey(t, a + ":" + x, b, c, d, e) == BuildCacheKey(t, a, x + ":" + b, c, d, e)
  {
    KeyShape(t, a + ":" + x, b, c, d, e);
    KeyShape(t, a, x + ":" + b, c, d, e);
    var rest := c + ":" + (d + ":" + e);
    assert (a + ":" + x) + ":" + (b + ":" + rest) == a + ":" + ((x + ":" + b) + ":" + rest);
  }
}
