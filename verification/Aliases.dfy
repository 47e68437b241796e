/** Alias synthesis commutes with caching.

A reply stored with the aliases made after its cache lookup, aged, served to another
query under the same key and finalised with that query's own earlier aliases is the
reply that query would have got without the cache, aged by the same time.
*/
module Aliases {
  import opened DnsMessage
  import opened Context

  predicate SameLink(a: Link, b: Link) { SameName(a.0, b.0) && SameName(a.1, b.1) }

  // ---------- The shape of synthesised answers ----------

  lemma {:induction false} MissingOfConcat(p: seq<Link>, s: seq<Link>, answers: seq<Record>, ttl: u32, rclass: u16)
    ensures MissingAliases(p + s, answers, ttl, rclass)
         == MissingAliases(p, answers, ttl, rclass) + MissingAliases(s, answers, ttl, rclass)
  {
    hide Present, AliasRecord;
    if p == [] {
      assert p + s == s;
    } else {
      MissingOfConcat(p[1..], s, answers, ttl, rclass);
      assert (p + s)[1..] == p[1..] + s && (p + s)[0] == p[0];
      var first := if Present(answers, p[0]) then [] else [AliasRecord(p[0], ttl, rclass)];
      var x, y := MissingAliases(p[1..], answers, ttl, rclass), MissingAliases(s, answers, ttl, rclass);
      assert MissingAliases(p + s, answers, ttl, rclass) == first + (x + y);
      assert MissingAliases(p, answers, ttl, rclass) == first + x;
      assert first + (x + y) == first + x + y;
    }
  }

  /** Every link is in the answers afterwards, whether it was there or is added. */
  lemma {:induction false} EveryLinkPresent(links: seq<Link>, answers: seq<Record>, ttl: u32, rclass: u16, k: nat)
    requires k < |links|
    ensures Present(MissingAliases(links, answers, ttl, rclass) + answers, links[k])
  {
    var added := MissingAliases(links, answers, ttl, rclass);
    if Present(answers, links[k]) {
      var i :| 0 <= i < |answers| && IsAlias(answers[i], links[k]);
      assert (added + answers)[|added| + i] == answers[i];
    } else if k == 0 {
      assert (added + answers)[0] == AliasRecord(links[0], ttl, rclass);
    } else {
      var rest := MissingAliases(links[1..], answers, ttl, rclass);
      EveryLinkPresent(links[1..], answers, ttl, rclass, k - 1);
      var i :| 0 <= i < |rest + answers| && IsAlias((rest + answers)[i], links[1..][k - 1]);
      var shift := |added| - |rest|;
      assert (added + answers)[i + shift] == (rest + answers)[i];
    }
  }

  /** Only missing links are added, each with the given TTL and class. */
  lemma {:induction false} AddedRecords(links: seq<Link>, answers: seq<Record>, ttl: u32, rclass: u16)
    ensures forall r | r in MissingAliases(links, answers, ttl, rclass) ::
              exists k | 0 <= k < |links| :: r == AliasRecord(links[k], ttl, rclass) && !Present(answers, links[k])
  {
    if links != [] {
      AddedRecords(links[1..], answers, ttl, rclass);
      forall r | r in MissingAliases(links, answers, ttl, rclass)
        ensures exists k | 0 <= k < |links| :: r == AliasRecord(links[k], ttl, rclass) && !Present(answers, links[k])
      {
        if r in MissingAliases(links[1..], answers, ttl, rclass) {
          var k :| 0 <= k < |links[1..]| && r == AliasRecord(links[1..][k], ttl, rclass) && !Present(answers, links[1..][k]);
          assert links[k + 1] == links[1..][k];
        } else {
          assert r == AliasRecord(links[0], ttl, rclass) && !Present(answers, links[0]);
        }
      }
    }
  }

  // ---------- Ageing ----------

  lemma PresentAfterAgeing(answers: seq<Record>, e: u32, link: Link)
    ensures Present(AgedRecords(answers, e), link) <==> Present(answers, link)
  {
    var aged := AgedRecords(answers, e);
    assert forall i | 0 <= i < |answers| :: aged[i] == AgedRecord(answers[i], e);
    assert forall i | 0 <= i < |answers| :: IsAlias(aged[i], link) <==> IsAlias(answers[i], link);
  }

  lemma {:induction false} AgedAliases(links: seq<Link>, answers: seq<Record>, ttl: u32, rclass: u16, e: u32)
    ensures AgedRecords(MissingAliases(links, answers, ttl, rclass), e)
         == MissingAliases(links, AgedRecords(answers, e), SaturatingSub(ttl, e), rclass)
  {
    if links != [] {
      AgedAliases(links[1..], answers, ttl, rclass, e);
      PresentAfterAgeing(answers, e, links[0]);
    }
  }

  lemma PresentAfterRetiming(answers: seq<Record>, ttl: u32, link: Link)
    ensures Present(RetimedRecords(answers, ttl), link) <==> Present(answers, link)
  {
    var timed := RetimedRecords(answers, ttl);
    assert forall i | 0 <= i < |answers| :: timed[i] == answers[i].(ttl := ttl);
    assert forall i | 0 <= i < |answers| :: IsAlias(timed[i], link) <==> IsAlias(answers[i], link);
  }

  lemma {:induction false} RetimedAliases(links: seq<Link>, answers: seq<Record>, ttl: u32, rclass: u16, l: u32)
    ensures RetimedRecords(MissingAliases(links, answers, ttl, rclass), l)
         == MissingAliases(links, RetimedRecords(answers, l), l, rclass)
  {
    if links != [] {
      RetimedAliases(links[1..], answers, ttl, rclass, l);
      PresentAfterRetiming(answers, l, links[0]);
    }
  }

  // ---------- The least TTL ----------

  /** Synthesised aliases never change a message's least TTL, nor who attains it. */
  lemma AliasesKeepMinTtl(m: Message, links: seq<Link>, rclass: u16)
    ensures MinTtl(WithAliases(m, links, rclass)) == MinTtl(m)
    ensures LeastDecays(m) ==> LeastDecays(WithAliases(m, links, rclass))
  {
    var w := WithAliases(m, links, rclass);
    if w != m {
      var added := MissingAliases(links, m.answers, MinTtl(m), rclass);
      AddedRecords(links, m.answers, MinTtl(m), rclass);
      var rs := Timed(m);
      assert Timed(w) == added + rs;
      forall i | 0 <= i < |added| ensures added[i].ttl == MinTtl(m) && Decays(added[i]) {
        assert added[i] in added;
      }
      if added == [] {
        assert Timed(w) == rs;
      } else if rs == [] {
        assert Timed(w) == added;
        assert added[0].ttl == 0;
        LeastTtlIsUnique(added, 0);
      } else {
        LeastTtlIsAttained(rs);
        var k :| 0 <= k < |rs| && rs[k].ttl == MinTtl(m);
        assert (added + rs)[0].ttl == MinTtl(m);
        LeastTtlIsUnique(added + rs, MinTtl(m));
        assert Decays(added[0]) && Timed(w)[0] == added[0];
      }
    }
  }

  lemma RetimedMinTtl(m: Message, l: u32)
    requires Timed(m) != []
    ensures MinTtl(Retimed(m, l)) == l
  {
    var rs := Timed(Retimed(m, l));
    assert |rs| == |Timed(m)|;
    assert forall i | 0 <= i < |rs| :: rs[i].ttl == l;
    assert rs[0].ttl == l;
    LeastTtlIsUnique(rs, l);
  }

  // ---------- Repeated links ----------

  /** A link made before the lookup is made again after it, and the reply did not carry it. */
  predicate Repeats(p: seq<Link>, s: seq<Link>, answers: seq<Record>) {
    exists i, j | 0 <= i < |p| && 0 <= j < |s| :: SameLink(p[i], s[j]) && !Present(answers, p[i])
  }

  lemma PresentRespectsSameLink(answers: seq<Record>, a: Link, b: Link)
    requires SameLink(a, b)
    ensures Present(answers, a) <==> Present(answers, b)
  {
    assert forall i | 0 <= i < |answers| :: IsAlias(answers[i], a) <==> IsAlias(answers[i], b);
  }

  /** What the stored aliases make present: their own links, up to name case. */
  lemma PresentWithStored(s: seq<Link>, answers: seq<Record>, ttl: u32, rclass: u16, link: Link)
    ensures Present(MissingAliases(s, answers, ttl, rclass) + answers, link)
       <==> Present(answers, link) || exists j | 0 <= j < |s| :: SameLink(link, s[j])
  {
    var added := MissingAliases(s, answers, ttl, rclass);
    var all := added + answers;
    AddedRecords(s, answers, ttl, rclass);
    if Present(all, link) && !Present(answers, link) {
      assert forall i | |added| <= i < |all| :: all[i] == answers[i - |added|];
      var i :| 0 <= i < |all| && IsAlias(all[i], link);
      assert added[i] in added;
    }
    if Present(answers, link) {
      var i :| 0 <= i < |answers| && IsAlias(answers[i], link);
      assert all[|added| + i] == answers[i];
    }
    if j :| 0 <= j < |s| && SameLink(link, s[j]) {
      EveryLinkPresent(s, answers, ttl, rclass, j);
      PresentRespectsSameLink(all, link, s[j]);
    }
  }

  /** The served reply lacks exactly the same links as the original, unless one repeats. */
  lemma {:induction false} MissingAfterStored(
    p: seq<Link>, s: seq<Link>, answers: seq<Record>, ttl: u32, rclass: u16, ttl': u32, rclass': u16)
    ensures var all := MissingAliases(s, answers, ttl', rclass') + answers;
            && |MissingAliases(p, all, ttl, rclass)| <= |MissingAliases(p, answers, ttl, rclass)|
            && (Repeats(p, s, answers) ==>
                |MissingAliases(p, all, ttl, rclass)| < |MissingAliases(p, answers, ttl, rclass)|)
            && (!Repeats(p, s, answers) ==>
                MissingAliases(p, all, ttl, rclass) == MissingAliases(p, answers, ttl, rclass))
  {
    if p != [] {
      MissingAfterStored(p[1..], s, answers, ttl, rclass, ttl', rclass');
      PresentWithStored(s, answers, ttl', rclass', p[0]);
      if Repeats(p[1..], s, answers) {
        var i, j :| 0 <= i < |p[1..]| && 0 <= j < |s| && SameLink(p[1..][i], s[j]) && !Present(answers, p[1..][i]);
        assert p[i + 1] == p[1..][i];
        assert Repeats(p, s, answers);
      }
      if Repeats(p, s, answers) && !Repeats(p[1..], s, answers) {
        assert forall i | 1 <= i < |p| :: p[i] == p[1..][i - 1];
        var i, j :| 0 <= i < |p| && 0 <= j < |s| && SameLink(p[i], s[j]) && !Present(answers, p[i]);
        assert i == 0;
      }
    }
  }

  // ---------- Message level ----------

  /** The stored form of `r`: bound to the lookup's query, with the aliases made after it. */
  function StoredForm(r: Message, lookup: Message, suffix: seq<Link>): Message {
    WithAliases(Rebind(r, lookup), suffix, AliasClass(lookup))
  }

  function Finished(m: Message, original: Message, links: seq<Link>): Message {
    WithAliases(Rebind(m, original), links, AliasClass(original))
  }

  /** Binding to an intermediate query is invisible after binding to the client's own. */
  lemma RebindTwice(m: Message, q: Message, o: Message)
    requires o.edns.Some? ==> q.edns.Some?
    ensures Rebind(Rebind(m, q), o) == Rebind(m, o)
  {
  }

  lemma WithAliasesRebind(m: Message, links: seq<Link>, rclass: u16, q: Message)
    ensures Rebind(WithAliases(m, links, rclass), q) == WithAliases(Rebind(m, q), links, rclass)
  {
  }

  lemma AgedWithAliases(m: Message, links: seq<Link>, rclass: u16, e: u32)
    requires LeastDecays(m)
    ensures Aged(WithAliases(m, links, rclass), e) == WithAliases(Aged(m, e), links, rclass)
  {
    MinTtlOfAged(m, e);
    AgedAliases(links, m.answers, MinTtl(m), rclass, e);
    var added := MissingAliases(links, m.answers, MinTtl(m), rclass);
    assert AgedRecords(added + m.answers, e) == AgedRecords(added, e) + AgedRecords(m.answers, e);
  }

  lemma RetimedWithAliases(m: Message, links: seq<Link>, rclass: u16, l: u32)
    requires Timed(m) != []
    ensures Retimed(WithAliases(m, links, rclass), l) == WithAliases(Retimed(m, l), links, rclass)
  {
    RetimedMinTtl(m, l);
    RetimedAliases(links, m.answers, MinTtl(m), rclass, l);
    var added := MissingAliases(links, m.answers, MinTtl(m), rclass);
    assert RetimedRecords(added + m.answers, l) == RetimedRecords(added, l) + RetimedRecords(m.answers, l);
  }

  /** Adding the later aliases first and the earlier ones on the way out is adding all of them
      at once, exactly when no missing link is repeated across the lookup. */
  lemma AliasesInTwoSteps(m: Message, p: seq<Link>, s: seq<Link>, rclass: u16)
    requires m.rcode == NO_ERROR
    ensures WithAliases(WithAliases(m, s, rclass), p, rclass) == WithAliases(m, p + s, rclass)
       <==> !Repeats(p, s, m.answers)
  {
    var ttl := MinTtl(m);
    var stored := WithAliases(m, s, rclass);
    AliasesKeepMinTtl(m, s, rclass);
    MissingOfConcat(p, s, m.answers, ttl, rclass);
    MissingAfterStored(p, s, m.answers, ttl, rclass, ttl, rclass);
    var added := MissingAliases(s, m.answers, ttl, rclass);
    var again := MissingAliases(p, added + m.answers, ttl, rclass);
    var direct := MissingAliases(p, m.answers, ttl, rclass);
    if p == [] {
      assert p + s == s;
    } else if s == [] {
      assert p + s == p;
    } else {
      assert stored.answers == added + m.answers;
      assert WithAliases(stored, p, rclass).answers == again + (added + m.answers);
      assert WithAliases(m, p + s, rclass).answers == (direct + added) + m.answers;
      assert (direct + added) + m.answers == direct + (added + m.answers);
      if |again| < |direct| {
        assert |again + (added + m.answers)| < |direct + (added + m.answers)|;
      }
    }
  }

  /** A fresh hit: ageing in the cache and synthesising around it commute, exactly when no
      missing link is repeated. */
  lemma CacheAliasCommutation(
    r: Message, lookup: Message, hitQuery: Message, original: Message, p: seq<Link>, s: seq<Link>, e: u32)
    requires r.rcode == NO_ERROR
    requires LeastDecays(r)
    requires original.edns.Some? ==> lookup.edns.Some? && hitQuery.edns.Some?
    requires AliasClass(lookup) == AliasClass(original)
    ensures Finished(Rebind(Aged(StoredForm(r, lookup, s), e), hitQuery), original, p)
            == Aged(Finished(r, original, p + s), e)
       <==> !Repeats(p, s, r.answers)
  {
    var rclass := AliasClass(original);
    var bound := Rebind(r, original);
    var aged := Aged(bound, e);
    AgedWithAliases(Rebind(r, lookup), s, rclass, e);
    var stored := WithAliases(Aged(Rebind(r, lookup), e), s, rclass);
    WithAliasesRebind(Aged(Rebind(r, lookup), e), s, rclass, hitQuery);
    WithAliasesRebind(Rebind(Aged(Rebind(r, lookup), e), hitQuery), s, rclass, original);
    assert Rebind(Rebind(Aged(Rebind(r, lookup), e), hitQuery), original) == aged;
    AgedWithAliases(bound, p + s, rclass, e);
    AliasesInTwoSteps(aged, p, s, rclass);
    forall link: Link ensures Present(aged.answers, link) <==> Present(r.answers, link) {
      PresentAfterAgeing(r.answers, e, link);
    }
    assert Repeats(p, s, aged.answers) <==> Repeats(p, s, r.answers);
  }

  /** The same for a lazy hit, whose TTLs are all overwritten. */
  lemma LazyAliasCommutation(
    r: Message, lookup: Message, hitQuery: Message, original: Message, p: seq<Link>, s: seq<Link>, l: u32)
    requires r.rcode == NO_ERROR
    requires Timed(r) != []
    requires original.edns.Some? ==> lookup.edns.Some? && hitQuery.edns.Some?
    requires AliasClass(lookup) == AliasClass(original)
    ensures Finished(Rebind(Retimed(StoredForm(r, lookup, s), l), hitQuery), original, p)
            == Retimed(Finished(r, original, p + s), l)
       <==> !Repeats(p, s, r.answers)
  {
    var rclass := AliasClass(original);
    var bound := Rebind(r, original);
    var timed := Retimed(bound, l);
    RetimedWithAliases(Rebind(r, lookup), s, rclass, l);
    WithAliasesRebind(Retimed(Rebind(r, lookup), l), s, rclass, hitQuery);
    WithAliasesRebind(Rebind(Retimed(Rebind(r, lookup), l), hitQuery), s, rclass, original);
    assert Rebind(Rebind(Retimed(Rebind(r, lookup), l), hitQuery), original) == timed;
    RetimedWithAliases(bound, p + s, rclass, l);
    AliasesInTwoSteps(timed, p, s, rclass);
    forall link: Link ensures Present(timed.answers, link) <==> Present(r.answers, link) {
      PresentAfterRetiming(r.answers, l, link);
    }
    assert Repeats(p, s, timed.answers) <==> Repeats(p, s, r.answers);
  }

  // ---------- Replies whose least TTL does not decay ----------

  predicate AllPresent(links: seq<Link>, answers: seq<Record>) {
    forall k | 0 <= k < |links| :: Present(answers, links[k])
  }

  lemma {:induction false} NoneMissing(links: seq<Link>, answers: seq<Record>, ttl: u32, rclass: u16)
    ensures MissingAliases(links, answers, ttl, rclass) == [] <==> AllPresent(links, answers)
  {
    if links != [] {
      NoneMissing(links[1..], answers, ttl, rclass);
      assert forall k | 1 <= k < |links| :: links[k] == links[1..][k - 1];
    }
  }

  lemma AgedAliasedAt(m: Message, links: seq<Link>, rclass: u16, ttl: u32, e: u32)
    ensures Aged(AliasedAt(m, links, rclass, ttl), e) == AliasedAt(Aged(m, e), links, rclass, SaturatingSub(ttl, e))
  {
    AgedAliases(links, m.answers, ttl, rclass, e);
    var added := MissingAliases(links, m.answers, ttl, rclass);
    assert AgedRecords(added + m.answers, e) == AgedRecords(added, e) + AgedRecords(m.answers, e);
  }

  /** Adding a stored message's aliases makes the least TTL decay if any is missing. */
  lemma StoredLeastDecays(m: Message, s: seq<Link>, rclass: u16)
    requires m.rcode == NO_ERROR
    ensures LeastDecays(WithAliases(m, s, rclass)) <==> LeastDecays(m) || !AllPresent(s, m.answers)
  {
    var w := WithAliases(m, s, rclass);
    AliasesKeepMinTtl(m, s, rclass);
    NoneMissing(s, m.answers, MinTtl(m), rclass);
    AddedRecords(s, m.answers, MinTtl(m), rclass);
    var added := MissingAliases(s, m.answers, MinTtl(m), rclass);
    if added != [] {
      assert added[0] in added;
      assert Timed(w)[0] == added[0];
      assert Decays(Timed(w)[0]) && Timed(w)[0].ttl == MinTtl(w);
    } else {
      assert w.answers == m.answers;
      assert Timed(w) == Timed(m);
    }
  }

  /** Two steps of aliases with TTLs `inner` and `outer` are one step with `inner`, exactly when no
      missing link repeats and the outer TTL is right or unused. */
  lemma TwoTtls(m: Message, p: seq<Link>, s: seq<Link>, rclass: u16, inner: u32, outer: u32)
    requires m.rcode == NO_ERROR
    ensures AliasedAt(AliasedAt(m, s, rclass, inner), p, rclass, outer) == AliasedAt(m, p + s, rclass, inner)
       <==> !Repeats(p, s, m.answers) && (AllPresent(p, m.answers) || outer == inner)
  {
    MissingOfConcat(p, s, m.answers, inner, rclass);
    MissingAfterStored(p, s, m.answers, outer, rclass, inner, rclass);
    MissingLengths(p, m.answers, outer, inner, rclass);
    NoneMissing(p, m.answers, inner, rclass);
    var added := MissingAliases(s, m.answers, inner, rclass);
    var again := MissingAliases(p, added + m.answers, outer, rclass);
    var direct := MissingAliases(p, m.answers, inner, rclass);
    if p == [] {
      assert p + s == s;
    } else if s == [] {
      assert p + s == p;
      assert added + m.answers == m.answers;
      PrependedDiffer(again, direct, m.answers);
    } else {
      assert AliasedAt(m, p + s, rclass, inner).answers == (direct + added) + m.answers == direct + (added + m.answers);
      assert AliasedAt(AliasedAt(m, s, rclass, inner), p, rclass, outer).answers == again + (added + m.answers);
      PrependedDiffer(again, direct, added + m.answers);
    }
  }

  lemma PrependedDiffer(a: seq<Record>, b: seq<Record>, tail: seq<Record>)
    ensures a + tail == b + tail <==> a == b
  {
    if a + tail == b + tail {
      assert (a + tail)[..|a|] == a && (b + tail)[..|b|] == b;
    }
  }

  /** The missing links are the same at any TTL; their records are, unless there are none, not. */
  lemma {:induction false} MissingLengths(links: seq<Link>, answers: seq<Record>, t: u32, u: u32, rclass: u16)
    ensures |MissingAliases(links, answers, t, rclass)| == |MissingAliases(links, answers, u, rclass)|
    ensures MissingAliases(links, answers, t, rclass) == MissingAliases(links, answers, u, rclass)
       <==> t == u || MissingAliases(links, answers, t, rclass) == []
  {
    if links != [] {
      MissingLengths(links[1..], answers, t, u, rclass);
      var a, b := MissingAliases(links, answers, t, rclass), MissingAliases(links, answers, u, rclass);
      var x, y := MissingAliases(links[1..], answers, t, rclass), MissingAliases(links[1..], answers, u, rclass);
      if Present(answers, links[0]) {
        assert a == x && b == y;
      } else {
        assert a == [AliasRecord(links[0], t, rclass)] + x && b == [AliasRecord(links[0], u, rclass)] + y;
        assert a[0].ttl == t && b[0].ttl == u;
      }
    }
  }

  /** For every reply, including one whose least TTL sits on a record that never decays: caching
      for any time commutes with alias synthesis exactly when no missing link repeats across the
      lookup, and the least TTL decays, or an alias stored with the reply decays in its place, or
      the hitting query has no alias to add. */
  lemma CommutationIsExact(
    r: Message, lookup: Message, hitQuery: Message, original: Message, p: seq<Link>, s: seq<Link>)
    requires r.rcode == NO_ERROR
    requires original.edns.Some? ==> lookup.edns.Some? && hitQuery.edns.Some?
    requires AliasClass(lookup) == AliasClass(original)
    ensures (forall e: u32 :: Finished(Rebind(Aged(StoredForm(r, lookup, s), e), hitQuery), original, p)
                              == Aged(Finished(r, original, p + s), e))
       <==> !Repeats(p, s, r.answers)
            && (LeastDecays(r) || !AllPresent(s, r.answers) || AllPresent(p, r.answers))
  {
    hide MissingAliases, Repeats, AllPresent, Finished, LeastDecays, MinTtl;
    var stored := StoredForm(r, lookup, s);
    StoredFormDecays(r, lookup, s);
    forall e: u32
      ensures Finished(Rebind(Aged(stored, e), hitQuery), original, p) == Aged(Finished(r, original, p + s), e)
         <==> !Repeats(p, s, r.answers)
              && (AllPresent(p, r.answers) || MinTtl(Aged(stored, e)) == SaturatingSub(MinTtl(stored), e))
    {
      CommutationAt(r, lookup, hitQuery, original, p, s, e);
    }
    MinTtlCommutesWithAgeing(stored);
    if !LeastDecays(stored) {
      var e: u32 :| MinTtl(Aged(stored, e)) != SaturatingSub(MinTtl(stored), e);
      assert Finished(Rebind(Aged(stored, e), hitQuery), original, p) == Aged(Finished(r, original, p + s), e)
        ==> AllPresent(p, r.answers);
    } else {
      assert forall e: u32 :: MinTtl(Aged(stored, e)) == SaturatingSub(MinTtl(stored), e);
    }
    assert Finished(Rebind(Aged(stored, 0), hitQuery), original, p) == Aged(Finished(r, original, p + s), 0)
      ==> !Repeats(p, s, r.answers);
  }

  lemma StoredFormDecays(r: Message, lookup: Message, s: seq<Link>)
    requires r.rcode == NO_ERROR
    ensures MinTtl(StoredForm(r, lookup, s)) == MinTtl(r)
    ensures LeastDecays(StoredForm(r, lookup, s)) <==> LeastDecays(r) || !AllPresent(s, r.answers)
  {
    hide MissingAliases, AllPresent;
    RebindKeepsTtl(r, lookup);
    AliasesKeepMinTtl(Rebind(r, lookup), s, AliasClass(lookup));
    StoredLeastDecays(Rebind(r, lookup), s, AliasClass(lookup));
    assert Timed(Rebind(r, lookup)) == Timed(r);
  }

  lemma AgedPresence(links: seq<Link>, other: seq<Link>, answers: seq<Record>, e: u32)
    ensures AllPresent(links, AgedRecords(answers, e)) <==> AllPresent(links, answers)
    ensures Repeats(links, other, AgedRecords(answers, e)) <==> Repeats(links, other, answers)
  {
    forall link: Link ensures Present(AgedRecords(answers, e), link) <==> Present(answers, link) {
      PresentAfterAgeing(answers, e, link);
    }
  }

  /** The finished hit and the aged uncached reply, each as aliases with explicit TTLs. */
  lemma FinishedShapes(
    r: Message, lookup: Message, hitQuery: Message, original: Message, p: seq<Link>, s: seq<Link>, e: u32)
    requires r.rcode == NO_ERROR
    requires original.edns.Some? ==> lookup.edns.Some? && hitQuery.edns.Some?
    requires AliasClass(lookup) == AliasClass(original)
    ensures var rclass, aged, stored := AliasClass(original), Aged(Rebind(r, original), e), StoredForm(r, lookup, s);
            var inner, outer := SaturatingSub(MinTtl(r), e), MinTtl(Aged(stored, e));
            && Finished(Rebind(Aged(stored, e), hitQuery), original, p)
               == AliasedAt(AliasedAt(aged, s, rclass, inner), p, rclass, outer)
            && Aged(Finished(r, original, p + s), e) == AliasedAt(aged, p + s, rclass, inner)
  {
    hide MissingAliases, MinTtl, Aged, AgedRecords;
    var rclass := AliasClass(original);
    var stored := StoredForm(r, lookup, s);
    RebindKeepsTtl(r, lookup);
    RebindKeepsTtl(r, original);
    RebindKeepsTtl(Aged(stored, e), hitQuery);
    RebindKeepsTtl(Rebind(Aged(stored, e), hitQuery), original);
    assert stored == AliasedAt(Rebind(r, lookup), s, rclass, MinTtl(r));
    AgedAliasedAt(Rebind(r, lookup), s, rclass, MinTtl(r), e);
    AgedAliasedAt(Rebind(r, original), p + s, rclass, MinTtl(r), e);
    AliasedAtRebinds(r, lookup, hitQuery, original, s, rclass, SaturatingSub(MinTtl(r), e), e);
  }

  lemma AliasedAtRebinds(
    r: Message, lookup: Message, hitQuery: Message, original: Message, s: seq<Link>, rclass: u16, ttl: u32, e: u32)
    requires original.edns.Some? ==> lookup.edns.Some? && hitQuery.edns.Some?
    ensures Rebind(Rebind(AliasedAt(Aged(Rebind(r, lookup), e), s, rclass, ttl), hitQuery), original)
         == AliasedAt(Aged(Rebind(r, original), e), s, rclass, ttl)
  {
    hide Rebind, AliasedAt, Aged;
    AgedRebind(r, lookup, e);
    AgedRebind(r, original, e);
    var m := Aged(r, e);
    var a := AliasedAt(m, s, rclass, ttl);
    AliasedAtRebind(m, lookup, s, rclass, ttl);
    AliasedAtRebind(m, original, s, rclass, ttl);
    RebindTwice(Rebind(a, lookup), hitQuery, original);
    RebindTwice(a, lookup, original);
  }

  lemma AgedRebind(m: Message, q: Message, e: u32)
    ensures Aged(Rebind(m, q), e) == Rebind(Aged(m, e), q)
  {
  }

  lemma AliasedAtRebind(m: Message, q: Message, s: seq<Link>, rclass: u16, ttl: u32)
    ensures AliasedAt(Rebind(m, q), s, rclass, ttl) == Rebind(AliasedAt(m, s, rclass, ttl), q)
  {
    hide MissingAliases;
  }

  lemma CommutationAt(
    r: Message, lookup: Message, hitQuery: Message, original: Message, p: seq<Link>, s: seq<Link>, e: u32)
    requires r.rcode == NO_ERROR
    requires original.edns.Some? ==> lookup.edns.Some? && hitQuery.edns.Some?
    requires AliasClass(lookup) == AliasClass(original)
    ensures var stored := StoredForm(r, lookup, s);
            Finished(Rebind(Aged(stored, e), hitQuery), original, p) == Aged(Finished(r, original, p + s), e)
            <==> !Repeats(p, s, r.answers)
                 && (AllPresent(p, r.answers) || MinTtl(Aged(stored, e)) == SaturatingSub(MinTtl(r), e))
  {
    hide MissingAliases, MinTtl, Repeats, AllPresent, Finished, AgedRecords, StoredForm, AliasedAt;
    var aged := Aged(Rebind(r, original), e);
    FinishedShapes(r, lookup, hitQuery, original, p, s, e);
    TwoTtls(aged, p, s, AliasClass(original), SaturatingSub(MinTtl(r), e), MinTtl(Aged(StoredForm(r, lookup, s), e)));
    assert aged.answers == AgedRecords(r.answers, e);
    AgedPresence(p, s, r.answers, e);
  }

  // ---------- The same, looking only at how many answers there are and at their TTLs ----------

  function Ttls(rs: seq<Record>): (r: seq<u32>)
    ensures |r| == |rs|
  {
    seq(|rs|, i requires 0 <= i < |rs| => rs[i].ttl)
  }

  lemma {:induction false} MissingTtls(links: seq<Link>, answers: seq<Record>, ttl: u32, rclass: u16)
    ensures forall i | 0 <= i < |MissingAliases(links, answers, ttl, rclass)| ::
              MissingAliases(links, answers, ttl, rclass)[i].ttl == ttl
  {
    if links != [] {
      MissingTtls(links[1..], answers, ttl, rclass);
    }
  }

  lemma AliasedAnswers(m: Message, links: seq<Link>, rclass: u16, ttl: u32)
    requires m.rcode == NO_ERROR
    ensures AliasedAt(m, links, rclass, ttl).answers == MissingAliases(links, m.answers, ttl, rclass) + m.answers
    ensures AliasedAt(m, links, rclass, ttl).rcode == NO_ERROR
  {
    hide Present;
  }

  lemma TwoTtlsByShape(m: Message, p: seq<Link>, s: seq<Link>, rclass: u16, inner: u32, outer: u32)
    requires m.rcode == NO_ERROR
    requires Ttls(AliasedAt(AliasedAt(m, s, rclass, inner), p, rclass, outer).answers)
          == Ttls(AliasedAt(m, p + s, rclass, inner).answers)
    ensures !Repeats(p, s, m.answers) && (AllPresent(p, m.answers) || outer == inner)
  {
    AliasedAnswers(m, s, rclass, inner);
    AliasedAnswers(AliasedAt(m, s, rclass, inner), p, rclass, outer);
    AliasedAnswers(m, p + s, rclass, inner);
    hide MissingAliases, AliasedAt, Repeats, AllPresent, Ttls;
    MissingOfConcat(p, s, m.answers, inner, rclass);
    MissingAfterStored(p, s, m.answers, outer, rclass, inner, rclass);
    MissingLengths(p, m.answers, outer, inner, rclass);
    NoneMissing(p, m.answers, inner, rclass);
    var added := MissingAliases(s, m.answers, inner, rclass);
    var again := MissingAliases(p, added + m.answers, outer, rclass);
    var direct := MissingAliases(p, m.answers, inner, rclass);
    MissingTtls(p, added + m.answers, outer, rclass);
    MissingTtls(p, m.answers, inner, rclass);
    SameShape(again, direct, added, m.answers);
  }

  lemma SameShape(a: seq<Record>, b: seq<Record>, c: seq<Record>, d: seq<Record>)
    requires Ttls(a + (c + d)) == Ttls(b + c + d)
    ensures |a| == |b| && (a != [] ==> a[0].ttl == b[0].ttl)
  {
    var x, y := a + (c + d), b + c + d;
    assert |Ttls(x)| == |a| + |c| + |d| && |Ttls(y)| == |b| + |c| + |d|;
    if a != [] {
      assert Ttls(x)[0] == x[0].ttl == a[0].ttl && Ttls(y)[0] == y[0].ttl == b[0].ttl;
    }
  }

  lemma CommutationByShape(
    r: Message, lookup: Message, hitQuery: Message, original: Message, p: seq<Link>, s: seq<Link>, e: u32)
    requires r.rcode == NO_ERROR
    requires original.edns.Some? ==> lookup.edns.Some? && hitQuery.edns.Some?
    requires AliasClass(lookup) == AliasClass(original)
    requires Ttls(Finished(Rebind(Aged(StoredForm(r, lookup, s), e), hitQuery), original, p).answers)
          == Ttls(Aged(Finished(r, original, p + s), e).answers)
    ensures Finished(Rebind(Aged(StoredForm(r, lookup, s), e), hitQuery), original, p) == Aged(Finished(r, original, p + s), e)
  {
    hide MissingAliases, MinTtl, Repeats, AllPresent, Finished, AgedRecords, StoredForm, AliasedAt, Ttls;
    var aged := Aged(Rebind(r, original), e);
    FinishedShapes(r, lookup, hitQuery, original, p, s, e);
    TwoTtlsByShape(aged, p, s, AliasClass(original), SaturatingSub(MinTtl(r), e), MinTtl(Aged(StoredForm(r, lookup, s), e)));
    TwoTtls(aged, p, s, AliasClass(original), SaturatingSub(MinTtl(r), e), MinTtl(Aged(StoredForm(r, lookup, s), e)));
  }

  lemma LazyCommutationByShape(
    r: Message, lookup: Message, hitQuery: Message, original: Message, p: seq<Link>, s: seq<Link>, l: u32)
    requires r.rcode == NO_ERROR && Timed(r) != []
    requires original.edns.Some? ==> lookup.edns.Some? && hitQuery.edns.Some?
    requires AliasClass(lookup) == AliasClass(original)
    requires |Finished(Rebind(Retimed(StoredForm(r, lookup, s), l), hitQuery), original, p).answers|
          == |Retimed(Finished(r, original, p + s), l).answers|
    ensures !Repeats(p, s, r.answers)
  {
    var rclass := AliasClass(original);
    var ttl := MinTtl(r);
    var stored := Retimed(StoredForm(r, lookup, s), l);
    var added := MissingAliases(s, r.answers, MinTtl(Rebind(r, lookup)), rclass);
    var all := RetimedRecords(added + r.answers, l);
    forall link: Link ensures Present(all, link) <==> Present(added + r.answers, link) {
      PresentAfterRetiming(added + r.answers, l, link);
    }
    MissingAfterStored(p, s, r.answers, 0, rclass, MinTtl(Rebind(r, lookup)), rclass);
    MissingOfConcat(p, s, r.answers, MinTtl(Rebind(r, original)), rclass);
    MissingLengths(p, r.answers, 0, MinTtl(Rebind(r, original)), rclass);
    MissingLengths(s, r.answers, MinTtl(Rebind(r, lookup)), MinTtl(Rebind(r, original)), rclass);
    var hit := Rebind(Rebind(stored, hitQuery), original);
    if p != [] && s != [] {
      assert hit.answers == all;
      SamePresence(p, all, added + r.answers, MinTtl(hit), 0, rclass);
    }
  }

  /** How many links are missing depends on what is present only. */
  lemma {:induction false} SamePresence(p: seq<Link>, a: seq<Record>, b: seq<Record>, t: u32, u: u32, rclass: u16)
    requires forall link: Link :: Present(a, link) <==> Present(b, link)
    ensures |MissingAliases(p, a, t, rclass)| == |MissingAliases(p, b, u, rclass)|
  {
    if p != [] {
      SamePresence(p[1..], a, b, t, u, rclass);
    }
  }

  lemma RebindKeepsTtl(m: Message, q: Message)
    ensures MinTtl(Rebind(m, q)) == MinTtl(m)
  {
    assert Timed(Rebind(m, q)) == Timed(m);
  }
}
