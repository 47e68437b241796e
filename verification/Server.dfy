/** One client request: `handle` of `src/server.rs`, and what is true of every reply it leaves. */
module Server {
  import opened Wrappers
  import opened DnsMessage
  import opened Context
  import opened Steps
  import opened Invariants
  import opened Pipeline
  import opened PipelineInvariants
  import Aliases

  class Metrics {
    var queries: nat
    var responses: nat
    var dropped: nat

    constructor ()
      ensures Balanced()
    {
      queries, responses, dropped := 0, 0, 0;
    }

    /** Every query counted was either answered or dropped. */
    predicate Balanced()
      reads this
    {
      queries == responses + dropped
    }
  }

  /** How the pipeline's outcome is turned into a reply: errors keep an existing reply, the
      request timeout replaces it. */
  function Settled(out: Outcome, c: Ctx): Ctx {
    match out
    case Done(_) => c
    case Failed(_) => if c.response.Some? then c else Reject(c, SERV_FAIL)
    case Cancelled => Reject(c, SERV_FAIL)
  }

  /** Finalising and stripping, the last two changes before a reply is sent. */
  function Sent(c: Ctx): Ctx {
    var d := FinalizeResponse(c);
    if d.stripEcs && d.response.Some? then d.(response := Some(RemoveEcs(d.response.value))) else d
  }

  datatype Handled = Handled(result: Result<(), Failure>, ctx: Ctx, w: World, counted: bool)

  function HandleQuery(reg: Registry, entry: Tag, c: Ctx, w: World): Handled
    requires Ranked(reg)
  {
    match ClassifyIncoming(c.query)
    case Drop => Handled(Ok(()), c, w, false)
    case NotImp => Handled(Ok(()), Sent(Reject(c, NOT_IMP)), w, true)
    case Accepted =>
      var begun := BeginPipeline(c, entry);
      if entry !in reg.plugins then Handled(Err(UnknownTag(entry)), begun, w, false)
      else
        var r := Exec(reg, entry, begun, w, 0, 0);
        Handled(Ok(()), Sent(Settled(r.out, r.ctx)), r.w, true)
  }

  method Handle(reg: Registry, entry: Tag, ctx: QueryContext, metrics: Metrics, w: World)
    returns (result: Result<(), Failure>, w': World)
    requires Ranked(reg)
    modifies ctx, metrics
    ensures var h := HandleQuery(reg, entry, old(ctx.State()), w);
            && result == h.result && ctx.State() == h.ctx && w' == h.w
            && metrics.queries == old(metrics.queries) + (if h.counted then 1 else 0)
            && metrics.responses == old(metrics.responses) + (if h.counted && h.ctx.response.Some? then 1 else 0)
    ensures old(metrics.Balanced()) ==> metrics.Balanced()
  {
    hide Exec;
    w' := w;
    match ClassifyIncoming(ctx.query)
    case Drop => return Ok(()), w;
    case NotImp =>
      ctx.DoReject(NOT_IMP);
      Send(ctx, metrics);
      return Ok(()), w;
    case Accepted =>
      ctx.DoBeginPipeline(entry);
      if entry !in reg.plugins {
        return Err(UnknownTag(entry)), w;
      }
      var out;
      out, w' := DoExec(reg, entry, ctx, w, 0, 0);
      if out.Cancelled? || (out.Failed? && ctx.response.None?) {
        ctx.DoReject(SERV_FAIL);
      }
      Send(ctx, metrics);
      return Ok(()), w';
  }

  method Send(ctx: QueryContext, metrics: Metrics)
    modifies ctx, metrics
    ensures ctx.State() == Sent(old(ctx.State()))
    ensures metrics.queries == old(metrics.queries) + 1
    ensures metrics.responses == old(metrics.responses) + (if ctx.response.Some? then 1 else 0)
    ensures metrics.dropped == old(metrics.dropped) + (if ctx.response.Some? then 0 else 1)
  {
    ctx.DoFinalizeResponse();
    if ctx.stripEcs && ctx.response.Some? {
      ctx.response := Some(RemoveEcs(ctx.response.value));
    }
    if ctx.response.Some? {
      metrics.responses := metrics.responses + 1;
    } else {
      metrics.dropped := metrics.dropped + 1;
    }
    metrics.queries := metrics.queries + 1;
  }

  // ---------- What every reply satisfies ----------

  /** The reply answers the client's own message: its id, opcode, question section, RD and CD. */
  predicate Answers(reply: Message, original: Message) {
    && reply.kind == Response
    && reply.id == original.id
    && reply.opcode == original.opcode
    && reply.questions == original.questions
    && reply.recursionDesired == original.recursionDesired
    && reply.checkingDisabled == original.checkingDisabled
  }

  /** The reply carries EDNS only for a client that sent it, in the client's own mode. */
  predicate EdnsAnswers(reply: Message, original: Message) {
    reply.edns.Some? ==>
      && original.edns.Some?
      && reply.edns.value.payload == original.edns.value.payload
      && reply.edns.value.dnssecOk == original.edns.value.dnssecOk
  }

  /** Every rewrite appears in the answer as a CNAME. */
  predicate LinksShown(reply: Message, links: seq<Link>) {
    reply.rcode == NO_ERROR || reply.rcode == NX_DOMAIN ==>
      forall k | 0 <= k < |links| :: Present(reply.answers, links[k])
  }

  /** The answers before finalising are kept, in order, at the end. */
  predicate EndsWithAnswers(reply: Message, before: Message) {
    && |before.answers| <= |reply.answers|
    && reply.answers[|reply.answers| - |before.answers|..] == before.answers
  }

  lemma FinalizedAnswers(c: Ctx)
    requires c.response.Some?
    ensures var d := FinalizeResponse(c);
            && d.response.Some?
            && d.response.value.rcode == c.response.value.rcode
            && LinksShown(d.response.value, c.rewrites)
            && EndsWithAnswers(d.response.value, c.response.value)
  {
    hide Rebind;
    var m := Rebind(c.response.value, c.original);
    assert m.rcode == c.response.value.rcode && m.answers == c.response.value.answers by { RebindFrame(c.response.value, c.original); }
    var reply := WithAliases(m, c.rewrites, AliasClass(c.original));
    assert From(c.rewrites, 0) == c.rewrites;
    assert FinalizeResponse(c).response == Some(reply);
    if m.rcode == NO_ERROR || m.rcode == NX_DOMAIN {
      forall k | 0 <= k < |c.rewrites| ensures Present(reply.answers, c.rewrites[k]) {
        Aliases.EveryLinkPresent(c.rewrites, m.answers, MinTtl(m), AliasClass(c.original), k);
      }
    }
  }

  lemma RebindFrame(m: Message, q: Message)
    ensures Rebind(m, q).rcode == m.rcode && Rebind(m, q).answers == m.answers
  {
  }

  lemma FinalizedIdentity(c: Ctx)
    requires c.response.Some?
    ensures var d := FinalizeResponse(c);
            && d == c.(response := d.response) && d.response.Some?
            && Answers(d.response.value, c.original) && EdnsAnswers(d.response.value, c.original)
  {
    hide MissingAliases, MinTtl;
  }

  lemma SentReply(c: Ctx)
    requires c.response.Some?
    ensures var d := Sent(c);
            && d == c.(response := d.response) && d.response.Some?
            && Answers(d.response.value, c.original) && EdnsAnswers(d.response.value, c.original)
            && d.response.value.rcode == c.response.value.rcode
            && LinksShown(d.response.value, c.rewrites)
            && EndsWithAnswers(d.response.value, c.response.value)
            && (c.stripEcs ==> EcsOf(d.response.value).None?)
  {
    hide FinalizeResponse;
    FinalizedAnswers(c);
    FinalizedIdentity(c);
  }

  lemma SettledContinues(c: Ctx, out: Outcome, d: Ctx)
    requires Continues(c, d)
    ensures Continues(c, Settled(out, d))
  {
    ApplyContinues(c, d, RejectWith(SERV_FAIL));
  }

  lemma RejectContinues(c: Ctx)
    requires Inv(c)
    ensures Continues(c, Reject(c, NOT_IMP))
  {
    ApplyContinues(c, c, RejectWith(NOT_IMP));
  }

  /** For every pipeline, tape and outcome, including errors and timeouts anywhere: the reply
      answers the client, shows the whole alias path from the client's name to the name finally
      asked, and carries no subnet if this run attached one to the query or was told to strip it.
      (What it carries otherwise is for `SubnetShownExactly` to say.) */
  lemma EveryReplyIsTheClients(reg: Registry, entry: Tag, c: Ctx, w: World)
    requires Ranked(reg) && Inv(c) && (c.entry.None? ==> c.rewrites == [])
    ensures var h := HandleQuery(reg, entry, c, w);
            && Inv(h.ctx) && h.ctx.original == c.original
            && (h.counted && h.ctx.response.Some? ==>
                  var reply := h.ctx.response.value;
                  && Answers(reply, c.original) && EdnsAnswers(reply, c.original)
                  && AliasChain(c.original, h.ctx.query, h.ctx.rewrites)
                  && LinksShown(reply, h.ctx.rewrites)
                  && (EcsOf(c.original).None? && EcsOf(h.ctx.query).Some? ==> EcsOf(reply).None?)
                  && (h.ctx.stripEcs ==> EcsOf(reply).None?))
  {
    hide Exec, Ranked, Sent, Answers, EdnsAnswers, LinksShown, Present, QueryDerived, Path;
    match ClassifyIncoming(c.query)
    case Drop =>
    case NotImp =>
      RejectContinues(c);
      SentReply(Reject(c, NOT_IMP));
    case Accepted =>
      var begun := BeginPipeline(c, entry);
      BeginKeepsInv(c, entry);
      if entry in reg.plugins {
        var r := Exec(reg, entry, begun, w, 0, 0);
        RunKeepsContext(reg, entry, begun, w, 0, 0);
        SettledContinues(begun, r.out, r.ctx);
        var d := Settled(r.out, r.ctx);
        if d.response.Some? {
          SentReply(d);
        } else {
          NothingSent(d);
        }
      }
  }

  lemma NothingSent(c: Ctx)
    requires c.response.None?
    ensures Sent(c) == c
  {
  }

  /** The context whose reply is finalised and sent. */
  function BeforeSending(reg: Registry, entry: Tag, c: Ctx, w: World): Ctx
    requires Ranked(reg)
  {
    match ClassifyIncoming(c.query)
    case Drop => c
    case NotImp => Reject(c, NOT_IMP)
    case Accepted =>
      if entry !in reg.plugins then BeginPipeline(c, entry)
      else
        var r := Exec(reg, entry, BeginPipeline(c, entry), w, 0, 0);
        Settled(r.out, r.ctx)
  }

  lemma SentSubnet(c: Ctx)
    requires c.response.Some?
    ensures var reply := Sent(c).response.value;
            && (EcsOf(reply).Some? <==> c.original.edns.Some? && !c.stripEcs && EcsOf(c.response.value).Some?)
            && (EcsOf(reply).Some? ==> EcsOf(reply) == EcsOf(c.response.value))
  {
    hide MissingAliases, MinTtl;
    var m := FinalizeResponse(c).response.value;
    assert m.edns == RebindEdns(c.response.value.edns, c.original.edns);
  }

  /** A reply carries a subnet exactly when the client sent EDNS, the strip flag is not set, and the
      reply that is finalised carries one; and then it is that one. */
  lemma SubnetShownExactly(reg: Registry, entry: Tag, c: Ctx, w: World)
    requires Ranked(reg)
    ensures var h := HandleQuery(reg, entry, c, w);
            h.counted ==>
              && h.ctx == Sent(BeforeSending(reg, entry, c, w))
              && (h.ctx.response.Some? ==>
                    var left := BeforeSending(reg, entry, c, w).response;
                    && left.Some?
                    && (EcsOf(h.ctx.response.value).Some? <==>
                          h.ctx.original.edns.Some? && !h.ctx.stripEcs && EcsOf(left.value).Some?)
                    && (EcsOf(h.ctx.response.value).Some? ==> EcsOf(h.ctx.response.value) == EcsOf(left.value)))
  {
    hide Exec, Ranked;
    var d := BeforeSending(reg, entry, c, w);
    if d.response.Some? {
      SentSubnet(d);
    }
  }

  /** An upstream's answer carries a subnet only if it was sent one. */
  ghost predicate Honest(tape: nat -> Choice) {
    forall n, q :: tape(n).reply(q).Some? && EcsOf(tape(n).reply(q).value).Some? ==> EcsOf(q).Some?
  }

  /** Some cache entry the run may meet carries this subnet. */
  ghost predicate InEntry(tape: nat -> Choice, cs: ClientSubnet) {
    exists n :: tape(n).hit.Some? && EcsOf(tape(n).hit.value.msg) == Some(cs)
  }

  /** If the client sent no subnet, the reply's subnet is to be stripped or came from a cache entry. */
  ghost predicate SubnetIsOwn(tape: nat -> Choice, c: Ctx) {
    && Inv(c) && EcsOf(c.original).None?
    && (c.response.Some? && EcsOf(c.response.value).Some? && !c.stripEcs ==>
          c.served && InEntry(tape, EcsOf(c.response.value).value))
  }

  /** What a step may do to a reply's subnet if upstreams are honest. */
  ghost predicate Traceable(tape: nat -> Choice, c: Ctx, op: Op) {
    && (op.Answer? && EcsOf(op.m).Some? ==> EcsOf(c.query).Some?)
    && (op.ServeHit? && EcsOf(op.m).Some? ==> InEntry(tape, EcsOf(op.m).value))
  }

  lemma ApplyKeepsOwn(tape: nat -> Choice, c: Ctx, op: Op)
    requires SubnetIsOwn(tape, c) && Traceable(tape, c, op)
    ensures SubnetIsOwn(tape, Apply(c, op))
  {
    ApplyKeepsInv(c, op);
    ApplyFrame(c, op);
    assert EcsOf(c.query).Some? ==> c.stripEcs;
    hide Sound, SetEcs, RemoveEcs, InEntry;
  }

  lemma ForkKeepsOwn(tape: nat -> Choice, c: Ctx, d: Ctx)
    requires SubnetIsOwn(tape, c) && SubnetIsOwn(tape, d) && d.original == c.original
    ensures SubnetIsOwn(tape, Fork(c)) && SubnetIsOwn(tape, Absorb(c, d)) && SubnetIsOwn(tape, Unskipped(c))
  {
    hide Sound, InEntry;
  }

  /** What is finalised for a client that sent no subnet, with honest upstreams. */
  lemma BeforeSendingIsOwn(reg: Registry, entry: Tag, query: Message, client: Option<IpAddr>, tape: nat -> Choice)
    requires Ranked(reg) && EcsOf(query).None? && Honest(tape)
    ensures var d := BeforeSending(reg, entry, New(query, client), World(tape, 0, []));
            SubnetIsOwn(tape, d) && d.original == query
  {
    var c, w := New(query, client), World(tape, 0, []);
    var begun := BeginPipeline(c, entry);
    NewIsSound(query, client);
    BeginKeepsInv(c, entry);
    assert SubnetIsOwn(tape, c) && SubnetIsOwn(tape, begun);
    var p := (d: Ctx) => SubnetIsOwn(tape, d) && d.original == query;
    var allowed := (d: Ctx, op: Op) => Traceable(tape, d, op);
    hide SubnetIsOwn, Exec, Ranked;
    ApplyKeepsOwn(tape, c, RejectWith(NOT_IMP));
    if ClassifyIncoming(c.query) == Accepted && entry in reg.plugins {
      forall d, op | p(d) && allowed(d, op) ensures p(Apply(d, op)) {
        ApplyKeepsOwn(tape, d, op);
        ApplyFrame(d, op);
      }
      forall d | p(d) ensures p(Fork(d)) && p(Unskipped(d)) { ForkKeepsOwn(tape, d, d); }
      forall d, e | p(d) && p(e) ensures p(Absorb(d, e)) { ForkKeepsOwn(tape, d, e); }
      ExecKeeps(p, allowed, reg, entry, begun, w, 0, 0);
      var r := Exec(reg, entry, begun, w, 0, 0);
      ApplyKeepsOwn(tape, r.ctx, RejectWith(SERV_FAIL));
    }
  }

  /** With upstreams that echo a subnet only when they were sent one, a client that sent none is shown
      one exactly when it sent EDNS and its run ends, with the strip flag unset, on a hit that carries
      one; and then that one, which some cache entry held. */
  lemma ShownSubnetIsCached(reg: Registry, entry: Tag, query: Message, client: Option<IpAddr>, tape: nat -> Choice)
    requires Ranked(reg) && EcsOf(query).None? && Honest(tape)
    ensures var c, w := New(query, client), World(tape, 0, []);
            var h, left := HandleQuery(reg, entry, c, w), BeforeSending(reg, entry, c, w);
            h.counted && h.ctx.response.Some? ==>
              && left.response.Some?
              && (EcsOf(h.ctx.response.value).Some? <==>
                    query.edns.Some? && !left.stripEcs && left.served && EcsOf(left.response.value).Some?)
              && (EcsOf(h.ctx.response.value).Some? ==>
                    EcsOf(h.ctx.response.value) == EcsOf(left.response.value)
                    && InEntry(tape, EcsOf(left.response.value).value))
  {
    hide Exec, Ranked;
    var c, w := New(query, client), World(tape, 0, []);
    SubnetShownExactly(reg, entry, c, w);
    BeforeSendingIsOwn(reg, entry, query, client, tape);
    SentFrame(BeforeSending(reg, entry, c, w));
    hide HandleQuery, BeforeSending, Sent;
  }

  lemma SentFrame(c: Ctx)
    ensures Sent(c).original == c.original && Sent(c).stripEcs == c.stripEcs
  {
    hide ResponseForQuery;
  }

  /** In particular: with honest upstreams and no cache entry that carries a subnet, a client that sent
      none is shown none. */
  lemma DisclosedSubnetWasSupplied(reg: Registry, entry: Tag, query: Message, client: Option<IpAddr>, tape: nat -> Choice)
    requires Ranked(reg) && EcsOf(query).None? && Honest(tape)
    requires forall n :: tape(n).hit.Some? ==> EcsOf(tape(n).hit.value.msg).None?
    ensures var h := HandleQuery(reg, entry, New(query, client), World(tape, 0, []));
            h.counted && h.ctx.response.Some? ==> EcsOf(h.ctx.response.value).None?
  {
    hide Exec, Ranked, HandleQuery, BeforeSending;
    ShownSubnetIsCached(reg, entry, query, client, tape);
  }

  /** The log of one request, from the client's fresh query. */
  function RequestLog(reg: Registry, entry: Tag, query: Message, client: Option<IpAddr>, tape: nat -> Choice): seq<Event>
    requires Ranked(reg)
  {
    HandleQuery(reg, entry, New(query, client), World(tape, 0, [])).w.log
  }

  /** A client's own fresh query starts in a state the theorems above cover; so does every
      background refresh its run starts, namely in the state the pipeline was entered with. */
  lemma RequestsStartSound(query: Message, client: Option<IpAddr>, reg: Registry, entry: Tag, tape: nat -> Choice)
    requires Ranked(reg)
    ensures Inv(New(query, client)) && New(query, client).rewrites == []
    ensures var log := RequestLog(reg, entry, query, client, tape);
            forall k | 0 <= k < |log| && LoggedContext(log[k]).Some? ::
              var at := LoggedContext(log[k]).value;
              && Inv(at) && at.original == query
              && at.pipelineEntry == Some(entry)
              && Inv(CloneForLazy(at)) && CloneForLazy(at).rewrites == []
              && CloneForLazy(at) == BeginPipeline(New(query, client), entry).(skipCache := true)
  {
    hide Exec, Ranked, Sound;
    var begun := BeginPipeline(New(query, client), entry);
    NewIsSound(query, client);
    BeginKeepsInv(New(query, client), entry);
    var w := World(tape, 0, []);
    RunKeepsContext(reg, entry, begun, w, 0, 0);
    var log := RequestLog(reg, entry, query, client, tape);
    forall k | 0 <= k < |log| && LoggedContext(log[k]).Some?
      ensures Continues(begun, LoggedContext(log[k]).value)
      ensures Inv(CloneForLazy(LoggedContext(log[k]).value)) && CloneForLazy(LoggedContext(log[k]).value).rewrites == []
    {
      CloneIsSound(LoggedContext(log[k]).value);
    }
  }

  /** Who gets which reply: a response is ignored, an unknown opcode is NOTIMP without running
      anything, a timeout is SERVFAIL whatever reply there was, an error is SERVFAIL only without
      one, and otherwise the client gets the pipeline's reply or, if there is none, nothing. */
  lemma OutcomeDecidesReply(reg: Registry, entry: Tag, c: Ctx, w: World)
    requires Ranked(reg)
    ensures var h := HandleQuery(reg, entry, c, w);
            && (h.counted <==> c.query.kind == Query && (c.query.opcode != OPCODE_QUERY || entry in reg.plugins))
            && (!h.counted ==> h.ctx.response == c.response && h.w == w)
    ensures var h := HandleQuery(reg, entry, c, w);
            h.counted && c.query.opcode != OPCODE_QUERY ==>
              h.ctx.response.Some? && h.ctx.response.value.rcode == NOT_IMP && h.w == w
    ensures var h := HandleQuery(reg, entry, c, w);
            h.counted && c.query.opcode == OPCODE_QUERY ==>
              var r := Exec(reg, entry, BeginPipeline(c, entry), w, 0, 0);
              var fails := r.out.Cancelled? || (r.out.Failed? && r.ctx.response.None?);
              && (h.ctx.response.Some? <==> fails || r.ctx.response.Some?)
              && (h.ctx.response.Some? ==>
                    h.ctx.response.value.rcode == if fails then SERV_FAIL else r.ctx.response.value.rcode)
  {
    hide Exec, Ranked, Sent, LinksShown, EndsWithAnswers;
    match ClassifyIncoming(c.query)
    case Drop =>
    case NotImp => SentReply(Reject(c, NOT_IMP));
    case Accepted =>
      if entry in reg.plugins {
        var r := Exec(reg, entry, BeginPipeline(c, entry), w, 0, 0);
        var d := Settled(r.out, r.ctx);
        if d.response.Some? {
          SentReply(d);
        } else {
          NothingSent(d);
        }
      }
  }

  /** Answers are only ever prepended to at the end: what the pipeline left stays the tail. */
  lemma ReplyKeepsAnswers(reg: Registry, entry: Tag, c: Ctx, w: World)
    requires Ranked(reg) && ClassifyIncoming(c.query) == Accepted && entry in reg.plugins
    ensures var r := Exec(reg, entry, BeginPipeline(c, entry), w, 0, 0);
            var h := HandleQuery(reg, entry, c, w);
            r.ctx.response.Some? && !r.out.Cancelled? ==>
              && h.ctx.response.Some?
              && h.ctx.response.value.rcode == r.ctx.response.value.rcode
              && EndsWithAnswers(h.ctx.response.value, r.ctx.response.value)
  {
    hide Exec, Ranked, Sent;
    var r := Exec(reg, entry, BeginPipeline(c, entry), w, 0, 0);
    if r.ctx.response.Some? && !r.out.Cancelled? {
      SentReply(r.ctx);
    }
  }
}
