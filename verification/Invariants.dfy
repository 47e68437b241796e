/** What every context keeps from its first step to its reply, and the induction over steps. */
module Invariants {
  import opened Wrappers
  import opened DnsMessage
  import opened Context
  import opened Steps

  /** `links` leads from one name to another without a gap. */
  predicate Path(links: seq<Link>, from: Name, to: Name) {
    if links == [] then from == to
    else && links[0].0 == from
         && links[|links| - 1].1 == to
         && forall i | 0 <= i < |links| - 1 :: links[i].1 == links[i + 1].0
  }

  /** Rewriting may rename the first question and nothing else in the question section. */
  predicate QuestionsDerived(o: seq<Question>, q: seq<Question>) {
    && |o| == |q|
    && (o != [] ==> q[0] == o[0].(name := q[0].name) && q[1..] == o[1..])
  }

  /** Steps add or remove client subnets, and may create EDNS for one; they never remove EDNS. */
  predicate EdnsDerived(o: Option<Edns>, q: Option<Edns>) {
    match (o, q)
    case (None, None) => true
    case (None, Some(e)) => e == Edns(ECS_PAYLOAD, 0, false, e.options) && WithoutSubnet(e.options) == []
    case (Some(_), None) => false
    case (Some(e), Some(f)) => f == e.(options := f.options) && WithoutSubnet(f.options) == WithoutSubnet(e.options)
  }

  predicate QueryDerived(o: Message, q: Message) {
    && q == o.(questions := q.questions, edns := q.edns)
    && QuestionsDerived(o.questions, q.questions)
    && EdnsDerived(o.edns, q.edns)
  }

  /** The recorded rewrites lead from the client's question name to the working one. */
  predicate AliasChain(o: Message, q: Message, links: seq<Link>) {
    if o.questions == [] || q.questions == [] then links == []
    else Path(links, o.questions[0].name, q.questions[0].name)
  }

  /** A subnet the client did not send is on the query only if it will be stripped. */
  predicate EcsHidden(o: Message, q: Message, stripEcs: bool) {
    EcsOf(o).None? && EcsOf(q).Some? ==> stripEcs
  }

  predicate Sound(o: Message, q: Message, links: seq<Link>, stripEcs: bool) {
    QueryDerived(o, q) && AliasChain(o, q, links) && EcsHidden(o, q, stripEcs)
  }

  /** The invariant of every context reachable from a client query. */
  predicate Inv(c: Ctx) {
    && Sound(c.original, c.query, c.rewrites, c.stripEcs)
    && (c.entry.Some? ==> Sound(c.original, c.entry.value.query, [], c.entry.value.stripEcs))
  }

  lemma NewIsSound(query: Message, client: Option<IpAddr>)
    ensures Inv(New(query, client))
  {
  }

  lemma BeginKeepsInv(c: Ctx, tag: string)
    requires Inv(c)
    requires c.entry.None? ==> c.rewrites == []
    ensures Inv(BeginPipeline(c, tag))
  {
  }

  /** A background refresh starts from a sound context, whatever the foreground run did. */
  lemma CloneIsSound(c: Ctx)
    requires Inv(c)
    ensures Inv(CloneForLazy(c)) && CloneForLazy(c).rewrites == []
  {
  }

  lemma PathExtends(links: seq<Link>, from: Name, mid: Name, to: Name)
    requires Path(links, from, mid)
    ensures Path(links + [(mid, to)], from, to)
  {
  }

  lemma RewriteKeepsSound(c: Ctx, target: Name)
    requires Sound(c.original, c.query, c.rewrites, c.stripEcs)
    ensures var d := RewriteName(c, target); Sound(d.original, d.query, d.rewrites, d.stripEcs)
  {
    var d := RewriteName(c, target);
    if d != c {
      PathExtends(c.rewrites, c.original.questions[0].name, c.query.questions[0].name, d.query.questions[0].name);
    }
  }

  lemma AttachKeepsSound(c: Ctx, cs: ClientSubnet)
    requires Sound(c.original, c.query, c.rewrites, c.stripEcs)
    ensures var d := Apply(c, AttachEcs(cs)); Sound(d.original, d.query, d.rewrites, d.stripEcs)
  {
    var before := match c.query.edns case Some(e) => e.options case None => [];
    WithoutSubnetIdempotent(before);
    SubnetAppended(WithoutSubnet(before), cs);
  }

  lemma StripKeepsSound(c: Ctx)
    requires Sound(c.original, c.query, c.rewrites, c.stripEcs)
    ensures var d := Apply(c, StripEcs); Sound(d.original, d.query, d.rewrites, d.stripEcs)
  {
    if c.query.edns.Some? { WithoutSubnetIdempotent(c.query.edns.value.options); }
  }

  /** Every update keeps the invariant, and leaves alone what only the request boundary may set. */
  lemma ApplyKeepsInv(c: Ctx, op: Op)
    requires Inv(c)
    ensures Inv(Apply(c, op))
  {
    hide Sound, SetEcs, RemoveEcs, SetResponse, ClampTtl, FilterAnswers;
    match op
    case RewriteTo(target) => RewriteKeepsSound(c, target);
    case AttachEcs(cs) => AttachKeepsSound(c, cs);
    case StripEcs => StripKeepsSound(c);
    case _ => AnswerKeepsSound(c, op);
  }

  /** All other updates leave the query alone. */
  lemma AnswerKeepsSound(c: Ctx, op: Op)
    requires !op.RewriteTo? && !op.AttachEcs? && !op.StripEcs?
    ensures var d := Apply(c, op);
            d.query == c.query && d.original == c.original && d.rewrites == c.rewrites
            && d.stripEcs == c.stripEcs && d.entry == c.entry
  {
    hide ReplySkeleton, Rebind, WithoutType, ClampedRecords;
  }

  lemma ApplyFrame(c: Ctx, op: Op)
    ensures Apply(c, op).original == c.original && Apply(c, op).entry == c.entry
    ensures Apply(c, op).skipCache == c.skipCache && Apply(c, op).client == c.client
    ensures c.stripEcs ==> Apply(c, op).stripEcs
    ensures c.rewrites <= Apply(c, op).rewrites
  {
  }

  lemma ForkKeepsInv(c: Ctx)
    requires Inv(c)
    ensures Inv(Fork(c))
  {
  }

  lemma AbsorbKeepsInv(c: Ctx, branch: Ctx)
    requires Inv(c) && Inv(branch) && branch.original == c.original
    ensures Inv(Absorb(c, branch))
  {
  }
}
