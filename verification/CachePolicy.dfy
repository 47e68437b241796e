/** What a cache step remembers of the query it saw, and what may be stored for it later. */
module CachePolicy {
  import opened Wrappers
  import opened DnsMessage
  import opened Context
  import opened Steps
  import opened Invariants
  import opened CacheKey
  import Aliases

  /** The request state at a cache step that was actually executed. */
  datatype Lookup = Lookup(key: Key, query: Message, rewriteStart: nat)

  function Snapshot(c: Ctx, everything: bool, encodes: Encoder): Option<Lookup> {
    match KeyOf(c.query, everything, encodes)
    case None => None
    case Some(key) => Some(Lookup(key, c.query, |c.rewrites|))
  }

  predicate Storable(m: Message, encodes: Encoder) {
    m.rcode == NO_ERROR && !m.truncated && CacheableEdns(m) && encodes(m) && MinTtl(m) > 0
  }

  /** The message `store_lookup` writes for a lookup, if any. */
  function StoreLookup(c: Ctx, lookup: Lookup, encodes: Encoder): Option<Message> {
    if c.served || (c.response.Some? && !CacheableEdns(c.response.value)) then None
    else match ResponseForQuery(c, lookup.query, lookup.rewriteStart)
         case None => None
         case Some(m) => if Storable(m, encodes) then Some(m) else None
  }

  /** Queries with the same key agree on the class of their question and on carrying EDNS. */
  lemma SameKeyAgrees(a: Message, b: Message, everything: bool, encodes: Encoder)
    requires KeyOf(a, everything, encodes).Some?
    requires KeyOf(a, everything, encodes) == KeyOf(b, everything, encodes)
    ensures AliasClass(a) == AliasClass(b)
    ensures a.edns.Some? <==> b.edns.Some?
  {
    if IsSimple(a) {
      assert IsSimple(b);
    } else {
      var x, y := a.(id := 0), b.(id := 0);
      assert x == y;
      assert x.questions == a.questions && y.questions == b.questions;
      assert x.edns == a.edns && y.edns == b.edns;
    }
  }

  /** `d` with what the storing run `c` ended with: its answer, and the rewrites after the lookup.
      That this is how `d` would itself have ended is for `EndToEnd.OwnRunEndsAlike` to say. */
  function Uncached(c: Ctx, lookup: Lookup, d: Ctx): Ctx {
    d.(response := c.response, rewrites := d.rewrites + From(c.rewrites, lookup.rewriteStart))
  }

  lemma FinalizedHit(d: Ctx, m: Message)
    ensures FinalizeResponse(Apply(d, ServeHit(m))).response
         == Some(Aliases.Finished(Rebind(m, d.query), d.original, d.rewrites))
  {
    assert From(d.rewrites, 0) == d.rewrites;
  }

  lemma FinalizedUncached(c: Ctx, lookup: Lookup, d: Ctx)
    requires c.response.Some?
    ensures FinalizeResponse(Uncached(c, lookup, d)).response
         == Some(Aliases.Finished(c.response.value, d.original, d.rewrites + From(c.rewrites, lookup.rewriteStart)))
  {
    var all := d.rewrites + From(c.rewrites, lookup.rewriteStart);
    assert From(all, 0) == all;
  }

  lemma StoredShape(c: Ctx, lookup: Lookup, encodes: Encoder)
    requires StoreLookup(c, lookup, encodes).Some?
    ensures c.response.Some? && !c.served
    ensures var suffix := From(c.rewrites, lookup.rewriteStart);
            StoreLookup(c, lookup, encodes).value == Aliases.StoredForm(c.response.value, lookup.query, suffix)
    ensures c.response.value.rcode == NO_ERROR
    ensures Timed(c.response.value) != []
  {
    var suffix := From(c.rewrites, lookup.rewriteStart);
    Aliases.AliasesKeepMinTtl(Rebind(c.response.value, lookup.query), suffix, AliasClass(lookup.query));
    assert MinTtl(Rebind(c.response.value, lookup.query)) == MinTtl(c.response.value);
  }

  /** A reply stored by one run and served to any sound query under the same key is, after
      finalising, the storing run's reply continued for that query and aged by the time it spent in
      the cache: exactly when no missing alias of the hitting query is repeated after the lookup,
      and the least TTL ages or the hitting query adds no alias. */
  lemma CachedReplyIsUncachedReply(
    c: Ctx, lookup: Lookup, d: Ctx, everything: bool, encodes: Encoder, e: u32)
    requires Inv(d)
    requires StoreLookup(c, lookup, encodes).Some?
    requires KeyOf(lookup.query, everything, encodes) == Some(lookup.key)
    requires KeyOf(d.query, everything, encodes) == Some(lookup.key)
    ensures c.response.Some? && FinalizeResponse(Uncached(c, lookup, d)).response.Some?
    ensures FinalizeResponse(Apply(d, ServeHit(Aged(StoreLookup(c, lookup, encodes).value, e)))).response
            == Some(Aged(FinalizeResponse(Uncached(c, lookup, d)).response.value, e))
       <==> ServesExactly(c, lookup, d, StoreLookup(c, lookup, encodes).value, e)
    ensures LeastDecays(c.response.value) ==> LeastTtlAges(StoreLookup(c, lookup, encodes).value, e)
  {
    var r, suffix := c.response.value, From(c.rewrites, lookup.rewriteStart);
    SameKeyAgrees(lookup.query, d.query, everything, encodes);
    StoredShape(c, lookup, encodes);
    FinalizedHit(d, Aged(StoreLookup(c, lookup, encodes).value, e));
    FinalizedUncached(c, lookup, d);
    Aliases.CommutationAt(r, lookup.query, d.query, d.original, d.rewrites, suffix, e);
    Aliases.StoredFormDecays(r, lookup.query, suffix);
    if LeastDecays(r) { MinTtlOfAged(StoreLookup(c, lookup, encodes).value, e); }
  }

  /** No missing alias of `d` is repeated after the lookup, and the stored least TTL ages by `e` or
      is not needed because `d` adds no alias. */
  predicate ServesExactly(c: Ctx, lookup: Lookup, d: Ctx, stored: Message, e: u32)
    requires c.response.Some?
  {
    var answers := c.response.value.answers;
    && !Aliases.Repeats(d.rewrites, From(c.rewrites, lookup.rewriteStart), answers)
    && (Aliases.AllPresent(d.rewrites, answers) || LeastTtlAges(stored, e))
  }

  /** The same for a lazy hit, whose TTLs are all set to the configured reply TTL. */
  lemma LazyReplyIsUncachedReply(
    c: Ctx, lookup: Lookup, d: Ctx, everything: bool, encodes: Encoder, l: u32)
    requires Inv(d)
    requires StoreLookup(c, lookup, encodes).Some?
    requires KeyOf(lookup.query, everything, encodes) == Some(lookup.key)
    requires KeyOf(d.query, everything, encodes) == Some(lookup.key)
    ensures c.response.Some? && FinalizeResponse(Uncached(c, lookup, d)).response.Some?
    ensures FinalizeResponse(Apply(d, ServeHit(Retimed(StoreLookup(c, lookup, encodes).value, l)))).response
            == Some(Retimed(FinalizeResponse(Uncached(c, lookup, d)).response.value, l))
       <==> !Aliases.Repeats(d.rewrites, From(c.rewrites, lookup.rewriteStart), c.response.value.answers)
  {
    var r, suffix := c.response.value, From(c.rewrites, lookup.rewriteStart);
    SameKeyAgrees(lookup.query, d.query, everything, encodes);
    StoredShape(c, lookup, encodes);
    FinalizedHit(d, Retimed(StoreLookup(c, lookup, encodes).value, l));
    FinalizedUncached(c, lookup, d);
    Aliases.LazyAliasCommutation(r, lookup.query, d.query, d.original, d.rewrites, suffix, l);
  }

  /** The condition is needed already for as many answers with the same TTLs. */
  lemma CachedReplyByShape(
    c: Ctx, lookup: Lookup, d: Ctx, everything: bool, encodes: Encoder, e: u32)
    requires Inv(d)
    requires StoreLookup(c, lookup, encodes).Some?
    requires KeyOf(lookup.query, everything, encodes) == Some(lookup.key)
    requires KeyOf(d.query, everything, encodes) == Some(lookup.key)
    requires c.response.Some? && FinalizeResponse(Uncached(c, lookup, d)).response.Some?
    requires FinalizeResponse(Apply(d, ServeHit(Aged(StoreLookup(c, lookup, encodes).value, e)))).response.Some?
    requires Aliases.Ttls(FinalizeResponse(Apply(d, ServeHit(Aged(StoreLookup(c, lookup, encodes).value, e)))).response.value.answers)
          == Aliases.Ttls(Aged(FinalizeResponse(Uncached(c, lookup, d)).response.value, e).answers)
    ensures ServesExactly(c, lookup, d, StoreLookup(c, lookup, encodes).value, e)
  {
    var r, suffix := c.response.value, From(c.rewrites, lookup.rewriteStart);
    SameKeyAgrees(lookup.query, d.query, everything, encodes);
    StoredShape(c, lookup, encodes);
    FinalizedHit(d, Aged(StoreLookup(c, lookup, encodes).value, e));
    FinalizedUncached(c, lookup, d);
    CachedReplyIsUncachedReply(c, lookup, d, everything, encodes, e);
    hide Aliases.Finished, Aliases.StoredForm, Aliases.Ttls, ServesExactly, StoreLookup, FinalizeResponse, Apply, KeyOf;
    Aliases.CommutationByShape(r, lookup.query, d.query, d.original, d.rewrites, suffix, e);
  }

  lemma LazyReplyByShape(
    c: Ctx, lookup: Lookup, d: Ctx, everything: bool, encodes: Encoder, l: u32)
    requires Inv(d)
    requires StoreLookup(c, lookup, encodes).Some?
    requires KeyOf(lookup.query, everything, encodes) == Some(lookup.key)
    requires KeyOf(d.query, everything, encodes) == Some(lookup.key)
    requires c.response.Some? && FinalizeResponse(Uncached(c, lookup, d)).response.Some?
    requires FinalizeResponse(Apply(d, ServeHit(Retimed(StoreLookup(c, lookup, encodes).value, l)))).response.Some?
    requires |FinalizeResponse(Apply(d, ServeHit(Retimed(StoreLookup(c, lookup, encodes).value, l)))).response.value.answers|
          == |Retimed(FinalizeResponse(Uncached(c, lookup, d)).response.value, l).answers|
    ensures !Aliases.Repeats(d.rewrites, From(c.rewrites, lookup.rewriteStart), c.response.value.answers)
  {
    var r, suffix := c.response.value, From(c.rewrites, lookup.rewriteStart);
    SameKeyAgrees(lookup.query, d.query, everything, encodes);
    StoredShape(c, lookup, encodes);
    FinalizedHit(d, Retimed(StoreLookup(c, lookup, encodes).value, l));
    FinalizedUncached(c, lookup, d);
    hide Aliases.Finished, Aliases.StoredForm, Aliases.Repeats, StoreLookup, FinalizeResponse, Apply, KeyOf;
    Aliases.LazyCommutationByShape(r, lookup.query, d.query, d.original, d.rewrites, suffix, l);
  }

  /** The store side of subnets: an entry carries one exactly when the reply does and the query at
      the lookup has EDNS, whether or not that query had the subnet that its key stands for. */
  lemma StoredSubnet(c: Ctx, lookup: Lookup, encodes: Encoder)
    requires StoreLookup(c, lookup, encodes).Some?
    ensures c.response.Some?
    ensures EcsOf(StoreLookup(c, lookup, encodes).value).Some?
       <==> lookup.query.edns.Some? && EcsOf(c.response.value).Some?
    ensures lookup.query.edns.Some? ==> EcsOf(StoreLookup(c, lookup, encodes).value) == EcsOf(c.response.value)
  {
    hide MissingAliases, MinTtl;
    StoredShape(c, lookup, encodes);
    assert StoreLookup(c, lookup, encodes).value.edns == RebindEdns(c.response.value.edns, lookup.query.edns);
  }

  /** Redirecting a name back and forth across the cache makes the property fail: the cached
      reply lacks the first of the two equal aliases. */
  lemma RepeatedAliasIsLost()
    ensures var a, b := Name("a", true), Name("b", true);
            var m := EMPTY_MESSAGE.(kind := Response, answers := [Record(b, CLASS_IN, 60, A(V4(1)))]);
            var q := EMPTY_MESSAGE.(questions := [Question(a, A_CODE, CLASS_IN)]);
            Aliases.Repeats([(a, b), (b, a)], [(a, b)], m.answers)
            && |Aliases.Finished(Aliases.StoredForm(m, q, [(a, b)]), q, [(a, b), (b, a)]).answers|
               < |Aliases.Finished(m, q, [(a, b), (b, a), (a, b)]).answers|
  {
    var a, b := Name("a", true), Name("b", true);
    var m := EMPTY_MESSAGE.(kind := Response, answers := [Record(b, CLASS_IN, 60, A(V4(1)))]);
    var p, s: seq<Link> := [(a, b), (b, a)], [(a, b)];
    assert Aliases.SameLink(p[0], s[0]) && !Present(m.answers, p[0]);
    Aliases.MissingAfterStored(p, s, m.answers, 60, CLASS_IN, 60, CLASS_IN);
    Aliases.MissingOfConcat(p, s, m.answers, 60, CLASS_IN);
    assert p + s == [(a, b), (b, a), (a, b)];
    assert Timed(m) == m.answers;
    var q := EMPTY_MESSAGE.(questions := [Question(a, A_CODE, CLASS_IN)]);
    Aliases.AliasesKeepMinTtl(Rebind(m, q), s, CLASS_IN);
  }
}
