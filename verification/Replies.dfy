/** Replies field by field: what finalising, a cache hit and a cache write leave alone, and what they set. */
module Replies {
  import opened Wrappers
  import opened DnsMessage
  import opened Context
  import opened Steps
  import opened CacheKey
  import opened CachePolicy
  import opened Pipeline
  import opened Server
  import Aliases

  /** What no rebinding touches: AA, TC and RA, the code, and the authority and additional sections. */
  predicate KeepsFlags(reply: Message, m: Message) {
    && reply.authoritative == m.authoritative
    && reply.truncated == m.truncated
    && reply.recursionAvailable == m.recursionAvailable
    && reply.rcode == m.rcode
    && reply.nameServers == m.nameServers
    && reply.additionals == m.additionals
  }

  /** EDNS is in the reply if both sides have it: version and options of `m`, payload and DO bit of `q`. */
  predicate EdnsOfBoth(reply: Option<Edns>, m: Option<Edns>, q: Option<Edns>) {
    && (reply.Some? <==> m.Some? && q.Some?)
    && (reply.Some? ==>
          && reply.value.version == m.value.version && reply.value.options == m.value.options
          && reply.value.payload == q.value.payload && reply.value.dnssecOk == q.value.dnssecOk)
  }

  /** The same, except that subnets are gone. */
  ghost predicate EdnsWithoutSubnet(reply: Option<Edns>, m: Option<Edns>, q: Option<Edns>) {
    && (reply.Some? <==> m.Some? && q.Some?)
    && (reply.Some? ==>
          && reply.value.version == m.value.version
          && (forall o :: o in reply.value.options <==> o in m.value.options && o.OtherOption?)
          && reply.value.payload == q.value.payload && reply.value.dnssecOk == q.value.dnssecOk)
  }

  /** `r` shows a rewrite as a CNAME of the question's class that lives as long as the shortest-lived
      answer or authority record of `m`. */
  predicate ShowsLink(r: Record, m: Message, q: Message, links: seq<Link>) {
    && (exists k | 0 <= k < |links| :: r.name == links[k].0 && r.data == CNAME(links[k].1))
    && r.rclass == (if q.questions == [] then 1 else q.questions[0].qclass)
    && (forall i | 0 <= i < |m.answers| :: r.ttl <= m.answers[i].ttl)
    && (forall i | 0 <= i < |m.nameServers| :: r.ttl <= m.nameServers[i].ttl)
    && (r.ttl == 0 || (exists i | 0 <= i < |m.answers| :: r.ttl == m.answers[i].ttl)
        || exists i | 0 <= i < |m.nameServers| :: r.ttl == m.nameServers[i].ttl)
  }

  /** Nothing changes in the answers but that rewrites may be shown in front; and then, if there was any
      rewrite to show, the reply is no longer authenticated. */
  predicate AnswersWithLinks(reply: Message, m: Message, q: Message, links: seq<Link>) {
    var shows := links != [] && (m.rcode == 0 || m.rcode == 3);
    && reply.authenticData == (m.authenticData && !shows)
    && (!shows ==> reply.answers == m.answers)
    && exists n | 0 <= n <= |reply.answers| ::
         && reply.answers[n..] == m.answers
         && forall i | 0 <= i < n :: ShowsLink(reply.answers[i], m, q, links)
  }

  // ---------- One binding ----------

  lemma BoundFields(m: Message, q: Message)
    ensures var b := Rebind(m, q);
            && KeepsFlags(b, m) && Answers(b, q) && EdnsOfBoth(b.edns, m.edns, q.edns)
            && b.answers == m.answers && b.authenticData == m.authenticData
  {
  }

  lemma LeastTtlOf(m: Message)
    ensures forall i | 0 <= i < |m.answers| :: MinTtl(m) <= m.answers[i].ttl
    ensures forall i | 0 <= i < |m.nameServers| :: MinTtl(m) <= m.nameServers[i].ttl
    ensures MinTtl(m) == 0 || (exists i | 0 <= i < |m.answers| :: MinTtl(m) == m.answers[i].ttl)
            || exists i | 0 <= i < |m.nameServers| :: MinTtl(m) == m.nameServers[i].ttl
  {
    var rs := Timed(m);
    if rs != [] {
      LeastTtlIsAttained(rs);
      forall i | 0 <= i < |m.answers| ensures MinTtl(m) <= m.answers[i].ttl { assert rs[i] == m.answers[i]; }
      forall i | 0 <= i < |m.nameServers| ensures MinTtl(m) <= m.nameServers[i].ttl {
        assert rs[|m.answers| + i] == m.nameServers[i];
      }
      var k :| 0 <= k < |rs| && rs[k].ttl == MinTtl(m);
      assert rs[k] == if k < |m.answers| then m.answers[k] else m.nameServers[k - |m.answers|];
    }
  }

  lemma LinksFields(b: Message, q: Message, links: seq<Link>)
    ensures var r := WithAliases(b, links, AliasClass(q));
            && KeepsFlags(r, b) && AnswersWithLinks(r, b, q, links)
            && r.(answers := b.answers, authenticData := b.authenticData) == b
  {
    LeastTtlOf(b);
    hide MinTtl;
    var rclass := AliasClass(q);
    var added := MissingAliases(links, b.answers, MinTtl(b), rclass);
    Aliases.AddedRecords(links, b.answers, MinTtl(b), rclass);
    forall i | 0 <= i < |added| ensures ShowsLink(added[i], b, q, links) {
      assert added[i] in added;
    }
    hide ShowsLink, MissingAliases;
    var r := WithAliases(b, links, rclass);
    if r == b {
      assert r.answers[0..] == b.answers;
    } else {
      assert r.answers == added + b.answers && r.answers[|added|..] == b.answers;
      assert forall i | 0 <= i < |added| :: r.answers[i] == added[i];
    }
  }

  /** A reply bound to `q`, with `links` shown, against the message it was made from. */
  lemma BuiltFields(m: Message, q: Message, links: seq<Link>)
    ensures var r := WithAliases(Rebind(m, q), links, AliasClass(q));
            KeepsFlags(r, m) && Answers(r, q) && EdnsOfBoth(r.edns, m.edns, q.edns) && AnswersWithLinks(r, m, q, links)
  {
    BoundFields(m, q);
    LinksFields(Rebind(m, q), q, links);
    SameShown(WithAliases(Rebind(m, q), links, AliasClass(q)), Rebind(m, q), m, q, links);
    hide Rebind, WithAliases, AnswersWithLinks, EdnsOfBoth;
  }

  lemma SameShown(r: Message, b: Message, m: Message, q: Message, links: seq<Link>)
    requires AnswersWithLinks(r, b, q, links)
    requires b.answers == m.answers && b.nameServers == m.nameServers && b.rcode == m.rcode && b.authenticData == m.authenticData
    ensures AnswersWithLinks(r, m, q, links)
  {
    var n :| 0 <= n <= |r.answers| && r.answers[n..] == b.answers && forall i | 0 <= i < n :: ShowsLink(r.answers[i], b, q, links);
    forall i | 0 <= i < n ensures ShowsLink(r.answers[i], m, q, links) {
      assert ShowsLink(r.answers[i], b, q, links);
    }
    assert r.answers[n..] == m.answers;
  }

  // ---------- What is sent ----------

  lemma SentFields(c: Ctx)
    requires c.response.Some?
    ensures Sent(c).response.Some?
    ensures var m, reply := c.response.value, Sent(c).response.value;
            && KeepsFlags(reply, m) && Answers(reply, c.original) && AnswersWithLinks(reply, m, c.original, c.rewrites)
            && (!c.stripEcs ==> EdnsOfBoth(reply.edns, m.edns, c.original.edns))
            && (c.stripEcs ==> EdnsWithoutSubnet(reply.edns, m.edns, c.original.edns))
  {
    var m, q := c.response.value, c.original;
    assert From(c.rewrites, 0) == c.rewrites;
    BuiltFields(m, q, c.rewrites);
    var r := WithAliases(Rebind(m, q), c.rewrites, AliasClass(q));
    hide Rebind, WithAliases, ShowsLink;
    assert Sent(c).response == Some(if c.stripEcs then RemoveEcs(r) else r);
    if c.stripEcs {
      WithoutSubnetFields(r, m, q);
      var n :| 0 <= n <= |r.answers| && r.answers[n..] == m.answers
               && forall i | 0 <= i < n :: ShowsLink(r.answers[i], m, q, c.rewrites);
      assert RemoveEcs(r).answers[n..] == m.answers;
    }
  }

  lemma WithoutSubnetFields(r: Message, m: Message, q: Message)
    requires EdnsOfBoth(r.edns, m.edns, q.edns)
    ensures RemoveEcs(r) == r.(edns := RemoveEcs(r).edns) && EdnsWithoutSubnet(RemoveEcs(r).edns, m.edns, q.edns)
  {
  }

  /** Every reply, whatever made it: compared with the one the run left, AA, TC, RA, the code, the
      authority and additional records are the same; so are the answers, but for rewrites shown in front;
      AD stays unless rewrites are to be shown; id, opcode, question, RD and CD are the client's; EDNS is
      there if both have it, with the reply's version and options, less its subnet if it is to be stripped,
      and the client's payload size and DO bit. */
  lemma ReplyFields(reg: Registry, entry: Tag, c: Ctx, w: World)
    requires Ranked(reg)
    ensures var h, left := HandleQuery(reg, entry, c, w), BeforeSending(reg, entry, c, w);
            h.counted ==>
              && (h.ctx.response.Some? <==> left.response.Some?)
              && (left.response.Some? ==>
                    var reply, m := h.ctx.response.value, left.response.value;
                    && reply.authoritative == m.authoritative && reply.truncated == m.truncated
                    && reply.recursionAvailable == m.recursionAvailable && reply.rcode == m.rcode
                    && reply.nameServers == m.nameServers && reply.additionals == m.additionals
                    && AnswersWithLinks(reply, m, left.original, left.rewrites)
                    && Answers(reply, left.original)
                    && (if left.stripEcs then EdnsWithoutSubnet(reply.edns, m.edns, left.original.edns)
                        else EdnsOfBoth(reply.edns, m.edns, left.original.edns)))
  {
    hide Exec, Ranked, Sent, AnswersWithLinks, Answers, EdnsOfBoth, EdnsWithoutSubnet;
    SubnetShownExactly(reg, entry, c, w);
    var left := BeforeSending(reg, entry, c, w);
    if left.response.Some? {
      SentFields(left);
    } else {
      NothingSent(left);
    }
  }

  /** Replies the server makes up itself, for an opcode it does not implement and after a timeout: the
      client's question and mode, RA set, nothing else. */
  lemma MadeUpReply(reg: Registry, entry: Tag, c: Ctx, w: World)
    requires Ranked(reg) && HandleQuery(reg, entry, c, w).counted
    requires c.query.opcode != OPCODE_QUERY || Exec(reg, entry, BeginPipeline(c, entry), w, 0, 0).out.Cancelled?
    ensures var reply := HandleQuery(reg, entry, c, w).ctx.response;
            && reply.Some?
            && reply.value.rcode == (if c.query.opcode != OPCODE_QUERY then 4 else 2)
            && !reply.value.authoritative && !reply.value.truncated && reply.value.recursionAvailable
            && !reply.value.authenticData
            && reply.value.answers == [] && reply.value.nameServers == [] && reply.value.additionals == []
  {
    var left := BeforeSending(reg, entry, c, w);
    ReplyFields(reg, entry, c, w);
    hide Exec, Ranked, Sent, Answers, EdnsOfBoth, EdnsWithoutSubnet, ShowsLink;
    if c.query.opcode == OPCODE_QUERY {
      assert left == Reject(Exec(reg, entry, BeginPipeline(c, entry), w, 0, 0).ctx, SERV_FAIL);
    }
  }

  // ---------- Hits and writes ----------

  /** A hit: the cached message with the id, opcode, question, RD and CD of the query at the cache step,
      its payload size and DO bit, and nothing else changed; the rest of the context stays. */
  lemma HitFields(reg: Registry, tag: Tag, everything: bool, c: Ctx, ch: Choice, w: World)
    requires KeyOf(c.query, everything, reg.encodes).Some? && !c.skipCache && ch.hit.Some?
    ensures var d, m := ExecCache(reg, tag, everything, c, ch, w).ctx, ch.hit.value.msg;
            && d == c.(response := d.response, served := true) && d.response.Some?
            && (var reply := d.response.value;
                && reply.authoritative == m.authoritative && reply.truncated == m.truncated
                && reply.recursionAvailable == m.recursionAvailable && reply.rcode == m.rcode
                && reply.authenticData == m.authenticData
                && reply.answers == m.answers && reply.nameServers == m.nameServers && reply.additionals == m.additionals
                && Answers(reply, c.query) && EdnsOfBoth(reply.edns, m.edns, c.query.edns))
  {
    BoundFields(ch.hit.value.msg, c.query);
    hide KeyOf, Rebind, EdnsOfBoth;
  }

  predicate OnlySubnets(e: Option<Edns>) { e.Some? ==> forall o | o in e.value.options :: o.Subnet? }

  /** What is stored for a lookup: exactly for a NOERROR reply that no cache supplied, that is complete,
      has no option but subnets and an answer or authority record, none of which has TTL 0, if it can be
      encoded; and then the reply bound to the lookup's query, with the rewrites since then shown. */
  lemma StoredFields(c: Ctx, lookup: Lookup, encodes: Encoder)
    ensures var built := ResponseForQuery(c, lookup.query, lookup.rewriteStart);
            StoreLookup(c, lookup, encodes).Some? <==>
              && !c.served && c.response.Some?
              && (var m := c.response.value;
                  && m.rcode == 0 && !m.truncated && OnlySubnets(m.edns)
                  && (m.answers != [] || m.nameServers != [])
                  && (forall i | 0 <= i < |m.answers| :: m.answers[i].ttl > 0)
                  && (forall i | 0 <= i < |m.nameServers| :: m.nameServers[i].ttl > 0))
              && built.Some? && encodes(built.value)
    ensures StoreLookup(c, lookup, encodes).Some? ==>
              var m, stored := c.response.value, StoreLookup(c, lookup, encodes).value;
              && KeepsFlags(stored, m) && Answers(stored, lookup.query)
              && EdnsOfBoth(stored.edns, m.edns, lookup.query.edns)
              && AnswersWithLinks(stored, m, lookup.query,
                                  if lookup.rewriteStart <= |c.rewrites| then c.rewrites[lookup.rewriteStart..] else [])
  {
    if c.response.Some? {
      var m, q := c.response.value, lookup.query;
      var links := From(c.rewrites, lookup.rewriteStart);
      BuiltFields(m, q, links);
      Aliases.RebindKeepsTtl(m, q);
      Aliases.AliasesKeepMinTtl(Rebind(m, q), links, AliasClass(q));
      PositiveTtl(m);
      hide Rebind, WithAliases, MinTtl, AnswersWithLinks;
    }
  }

  lemma PositiveTtl(m: Message)
    ensures MinTtl(m) > 0 <==>
              && (m.answers != [] || m.nameServers != [])
              && (forall i | 0 <= i < |m.answers| :: m.answers[i].ttl > 0)
              && (forall i | 0 <= i < |m.nameServers| :: m.nameServers[i].ttl > 0)
  {
    LeastTtlOf(m);
    if m.answers != [] || m.nameServers != [] {
      LeastTtlIsAttained(Timed(m));
      var k :| 0 <= k < |Timed(m)| && Timed(m)[k].ttl == MinTtl(m);
      assert Timed(m)[k] == if k < |m.answers| then m.answers[k] else m.nameServers[k - |m.answers|];
    }
  }
}
