/** What a shared cache does not keep, each as a pair of requests to a small configuration. */
module CacheFailures {
  import opened Wrappers
  import opened DnsMessage
  import opened Context
  import opened Steps
  import opened CacheKey
  import opened CachePolicy
  import opened Pipeline
  import opened Server

  function Pipe(third: Step, cfg: EcsConfig): Registry {
    Registry(
      map["main" := Sequence([Step([], Call("cache")), Step([HasResp], Run(DoAccept)), third, Step([], Call("up"))]),
          "cache" := CacheStep(false),
          "ecs" := EcsStep(cfg),
          "up" := Source],
      map["main" := 2, "cache" := 1, "ecs" := 1, "up" := 1],
      ALL)
  }

  /** Every message can be encoded. */
  const ALL: Encoder := (m: Message) => true

  const QUERY := EMPTY_MESSAGE.(
    recursionDesired := true,
    questions := [Question(Name("a", true), A_CODE, CLASS_IN)],
    edns := Some(Edns(1232, 0, false, [])))

  /** What upstream answers, echoing the subnet it was sent, if any. */
  function Upstream(options: seq<EdnsOption>): Message {
    EMPTY_MESSAGE.(
      kind := Response,
      questions := QUERY.questions,
      answers := [Record(Name("a", true), CLASS_IN, 60, A(V4(1)))],
      edns := Some(Edns(1232, 0, false, options)))
  }

  /** The cache misses and upstream answers `m`. */
  function Misses(m: Message): nat -> Choice { (n: nat) => Choice(false, (q: Message) => Some(m), None) }

  /** The cache holds `m`. */
  function Holds(m: Message): nat -> Choice { (n: nat) => Choice(false, (q: Message) => None, Some(Hit(m, false))) }

  lemma MainCalls(third: Step, cfg: EcsConfig)
    requires StepTarget(third) in [None, Some("ecs")]
    ensures forall t | t in Calls(Pipe(third, cfg).plugins["main"]) :: t in ["cache", "ecs", "up"]
  {
    var steps := Pipe(third, cfg).plugins["main"].steps;
    assert steps[1..][1..][1..] == [steps[3]] && steps[1..][1..] == [third, steps[3]];
    assert StepCalls([steps[3]]) == ["up"] by { assert [steps[3]][1..] == []; }
    assert StepCalls(steps[1..]) == StepCalls([third, steps[3]]);
    assert StepCalls(steps) == ["cache"] + StepCalls(steps[1..]);
  }

  lemma PipeIsRanked(third: Step, cfg: EcsConfig)
    requires StepTarget(third) in [None, Some("ecs")]
    ensures Ranked(Pipe(third, cfg))
  {
    MainCalls(third, cfg);
    hide StepCalls;
  }

  predicate Simply(c: Ctx) {
    c.response.None? && !c.skipCache && !c.served && c.rewrites == [] && IsSimple(c.query) && CacheableEdns(c.query)
  }

  /** A sequence that looks up first and accepts a hit. */
  ghost predicate LooksUpFirst(reg: Registry, tag: Tag) {
    && Ranked(reg) && tag in reg.plugins && reg.plugins[tag].Sequence? && |reg.plugins[tag].steps| >= 2
    && reg.plugins[tag].steps[0] == Step([], Call("cache"))
    && reg.plugins[tag].steps[1] == Step([HasResp], Run(DoAccept))
    && "cache" in reg.plugins && reg.plugins["cache"] == CacheStep(false)
  }

  /** A hit ends the sequence with what the cache holds. */
  lemma HitRun(reg: Registry, tag: Tag, c: Ctx, m: Message)
    requires LooksUpFirst(reg, tag) && Simply(c)
    ensures var r := Exec(reg, tag, c, World(Holds(m), 0, []), 0, 0);
            r.out == Done(Accept) && r.ctx == Apply(c, ServeHit(m))
  {
    hide Ranked, Apply;
    var w := World(Holds(m), 0, []);
    var w1 := Note(Advance(w), Enter(tag, 0));
    StepDescends(reg, tag, 0);
    var snap := SnapshotAt(reg, "cache", c);
    var w2 := Note(w1, StepTaken(0, 0, 0));
    var w3 := NoteSnap(w2, 0, "cache", snap, Here(tag, 0, c, w2));
    var x := Exec(reg, "cache", c, w3, 1, 0);
    assert x.out == Done(Continue) && x.ctx == Apply(c, ServeHit(m));
    assert x.ctx.response.Some? by { ServedHasReply(c, m); }
    assert Matches(HasResp, x.ctx) && MatchesAll([HasResp], x.ctx);
    var writes := AddWrite([], "cache", snap);
    var r2 := RunSteps(reg, tag, 0, 1, x.ctx, writes, x.w, 0, 0);
    var w4 := Note(x.w, StepTaken(0, 1, 0));
    assert r2 == AfterAction(reg, tag, 0, 1, DoAccept, x.ctx, writes, w4, 0, 0);
    assert r2 == End(reg, 0, Accept, x.ctx, writes, Note(w4, AcceptTaken(0)));
    assert r2.out == Done(Accept) && r2.ctx == x.ctx;
    assert RunSteps(reg, tag, 0, 0, c, [], w1, 0, 0) == r2;
  }

  lemma ServedHasReply(c: Ctx, m: Message)
    ensures Apply(c, ServeHit(m)).response.Some?
  {
  }

  function LookupOf(c: Ctx): Lookup
    requires IsSimple(c.query)
  {
    Lookup(SimpleKey(c.query), c.query, |c.rewrites|)
  }

  /** After a miss the run goes on at the third step with the lookup remembered. */
  lemma MissRun(reg: Registry, tag: Tag, c: Ctx, m: Message) returns (w: World)
    requires LooksUpFirst(reg, tag) && Simply(c)
    ensures w.tape == Misses(m)
    ensures Exec(reg, tag, c, World(Misses(m), 0, []), 0, 0) == RunSteps(reg, tag, 0, 2, c, [("cache", LookupOf(c))], w, 0, 0)
  {
    hide Ranked, Apply;
    var w0 := World(Misses(m), 0, []);
    var w1 := Note(Advance(w0), Enter(tag, 0));
    StepDescends(reg, tag, 0);
    var snap := SnapshotAt(reg, "cache", c);
    assert snap == Some(LookupOf(c));
    var w2 := Note(w1, StepTaken(0, 0, 0));
    var x := Exec(reg, "cache", c, NoteSnap(w2, 0, "cache", snap, Here(tag, 0, c, w2)), 1, 0);
    assert x.out == Done(Continue) && x.ctx == c && x.w.tape == Misses(m);
    w := x.w;
    var writes := AddWrite([], "cache", snap);
    assert writes == [("cache", LookupOf(c))];
    assert !Matches([HasResp][0], c);
    assert RunSteps(reg, tag, 0, 1, c, writes, w, 0, 0) == RunSteps(reg, tag, 0, 2, c, writes, w, 0, 0);
    assert RunSteps(reg, tag, 0, 0, c, [], w1, 0, 0) == RunSteps(reg, tag, 0, 1, c, writes, w, 0, 0);
  }

  ghost predicate LastCalls(reg: Registry, tag: Tag, i: nat, t: Tag) {
    && Ranked(reg) && tag in reg.plugins && reg.plugins[tag].Sequence? && |reg.plugins[tag].steps| == i + 1
    && reg.plugins[tag].steps[i] == Step([], Call(t)) && t in reg.plugins && !reg.plugins[t].CacheStep?
  }

  /** A last step: what it makes of the context is offered to the lookup. */
  lemma LastRun(reg: Registry, tag: Tag, i: nat, t: Tag, c: Ctx, d: Ctx, lookup: Lookup, w: World)
    requires LastCalls(reg, tag, i, t)
    requires forall v: World | v.tape == w.tape && v.pos == w.pos :: Exec(reg, t, c, v, 1, 0).out == Done(Continue) && Exec(reg, t, c, v, 1, 0).ctx == d
    ensures var r := RunSteps(reg, tag, 0, i, c, [("cache", lookup)], w, 0, 0);
            && r.out == Done(Continue) && r.ctx == d
            && (StoreLookup(d, lookup, reg.encodes).Some? ==>
                  Stored(0, "cache", lookup.key, StoreLookup(d, lookup, reg.encodes).value) in r.w.log)
  {
    hide Ranked, StoreLookup, Exec;
    StepDescends(reg, tag, i);
    var w1 := Note(w, StepTaken(0, i, 0));
    var x := Exec(reg, t, c, w1, 1, 0);
    var writes := [("cache", lookup)];
    assert SnapshotAt(reg, t, c) == None && NoteSnap(w1, 0, t, None, Here(tag, i, c, w1)) == w1;
    assert AddWrite(writes, t, None) == writes;
    assert MatchesAll([], c);
    var r := RunSteps(reg, tag, 0, i, c, writes, w, 0, 0);
    assert r == RunSteps(reg, tag, 0, i + 1, x.ctx, writes, x.w, 0, 0);
    assert r == End(reg, 0, Continue, x.ctx, writes, x.w);
    assert writes[1..] == [];
    if StoreLookup(d, lookup, reg.encodes).Some? {
      var e := Stored(0, "cache", lookup.key, StoreLookup(d, lookup, reg.encodes).value);
      assert StoreEvents(0, d, writes, reg.encodes) == [e] + StoreEvents(0, d, [], reg.encodes);
      assert r.w.log == x.w.log + [e] + [EndOf(0, d)];
      assert r.w.log[|x.w.log|] == e;
    }
  }

  /** The last step takes the upstream's answer, and the end offers it to the lookup. */
  lemma UpRun(reg: Registry, tag: Tag, i: nat, c: Ctx, m: Message, lookup: Lookup, w: World)
    requires LastCalls(reg, tag, i, "up") && reg.plugins["up"] == Source && w.tape == Misses(m)
    requires StoreLookup(SetResponse(c, m), lookup, reg.encodes).Some?
    ensures var r := RunSteps(reg, tag, 0, i, c, [("cache", lookup)], w, 0, 0);
            && r.out == Done(Continue) && r.ctx == SetResponse(c, m)
            && Stored(0, "cache", lookup.key, StoreLookup(SetResponse(c, m), lookup, reg.encodes).value) in r.w.log
  {
    hide StoreLookup, SetResponse;
    forall v: World | v.tape == w.tape && v.pos == w.pos
      ensures Exec(reg, "up", c, v, 1, 0).out == Done(Continue) && Exec(reg, "up", c, v, 1, 0).ctx == SetResponse(c, m)
    {
      assert Next(v).reply(c.query) == Some(m);
    }
    LastRun(reg, tag, i, "up", c, SetResponse(c, m), lookup, w);
  }

  // ---------- A step that depends on the client ----------

  /** Refuses one client. */
  function RefusesFor(client: IpAddr): Step { Step([ClientIp((ip: IpAddr) => ip == client)], Run(DoReject(REFUSED))) }

  function Arriving(client: IpAddr): Ctx { Entering("main", client) }

  function Entering(tag: Tag, client: IpAddr): Ctx { BeginPipeline(New(QUERY, Some(client)), tag) }

  /** What upstream's answer becomes in the cache, if the run asked for it in context `c`. */
  function Cached(c: Ctx, options: seq<EdnsOption>): Option<Message> {
    StoreLookup(SetResponse(c, Upstream(options)), Lookup(SimpleKey(QUERY), QUERY, 0), ALL)
  }

  lemma CachedIs(c: Ctx, options: seq<EdnsOption>)
    requires c.rewrites == [] && forall o | o in options :: o.Subnet?
    ensures Cached(c, options).Some?
    ensures Cached(c, options).value.rcode == NO_ERROR
    ensures Cached(c, options).value.edns == Some(Edns(1232, 0, false, options))
  {
    var m := Rebind(Upstream(options), QUERY);
    assert Timed(m) == m.answers == [Record(Name("a", true), CLASS_IN, 60, A(V4(1)))];
    assert MinTtl(m) == 60;
    var d := SetResponse(c, Upstream(options));
    assert Rebind(d.response.value, QUERY) == m;
    assert From(d.rewrites, 0) == [];
  }

  /** The key does not name the client, so what one client may have another is given from the cache,
      although its own run, in the same surroundings, refuses it. No alias is involved. */
  lemma ClientDependentStepIsBypassed(a: IpAddr, b: IpAddr, cfg: EcsConfig)
    requires a != b
    ensures var reg := Pipe(RefusesFor(b), cfg);
            && Ranked(reg)
            && KeyOf(Arriving(a).query, false, reg.encodes) == KeyOf(Arriving(b).query, false, reg.encodes)
            && Cached(Arriving(a), []).Some?
            && (var stored := Stored(0, "cache", SimpleKey(QUERY), Cached(Arriving(a), []).value);
                stored in HandleQuery(reg, "main", New(QUERY, Some(a)), World(Misses(Upstream([])), 0, [])).w.log)
            && (var own := HandleQuery(reg, "main", New(QUERY, Some(b)), World(Misses(Upstream([])), 0, [])).ctx.response;
                own.Some? && own.value.rcode == REFUSED)
            && (var hit := HandleQuery(reg, "main", New(QUERY, Some(b)), World(Holds(Cached(Arriving(a), []).value), 0, [])).ctx.response;
                hit.Some? && hit.value.rcode == NO_ERROR)
  {
    hide HandleQuery, Cached;
    RefusingPipe(b, cfg);
    hide LooksUpFirst, LastCalls, Ranked;
    CachedIs(Arriving(a), []);
    AllowedStores(a, b, cfg);
    RefusedAnswer(b, cfg);
    HitAnswers(Pipe(RefusesFor(b), cfg), "main", b, Cached(Arriving(a), []).value);
  }

  lemma RefusingPipe(b: IpAddr, cfg: EcsConfig)
    ensures var reg := Pipe(RefusesFor(b), cfg);
            Ranked(reg) && LooksUpFirst(reg, "main") && LastCalls(reg, "main", 3, "up")
  {
    PipeIsRanked(RefusesFor(b), cfg);
    hide Ranked;
  }

  lemma AllowedStores(a: IpAddr, b: IpAddr, cfg: EcsConfig)
    requires a != b && Ranked(Pipe(RefusesFor(b), cfg))
    ensures Cached(Arriving(a), []).Some?
    ensures Stored(0, "cache", SimpleKey(QUERY), Cached(Arriving(a), []).value)
         in HandleQuery(Pipe(RefusesFor(b), cfg), "main", New(QUERY, Some(a)), World(Misses(Upstream([])), 0, [])).w.log
  {
    hide Exec, RunSteps, HandleQuery, Cached;
    var reg := Pipe(RefusesFor(b), cfg);
    RefusingPipe(b, cfg);
    hide Ranked, LooksUpFirst, LastCalls;
    EnteringIsSimple("main", a);
    var wa := MissRun(reg, "main", Arriving(a), Upstream([]));
    NotRefused(cfg, a, b, Arriving(a), [("cache", LookupOf(Arriving(a)))], wa);
    AskStores(reg, "main", 3, a, wa);
  }

  lemma RefusedAnswer(b: IpAddr, cfg: EcsConfig)
    requires Ranked(Pipe(RefusesFor(b), cfg))
    ensures var own := HandleQuery(Pipe(RefusesFor(b), cfg), "main", New(QUERY, Some(b)), World(Misses(Upstream([])), 0, [])).ctx.response;
            own.Some? && own.value.rcode == REFUSED
  {
    hide Exec, RunSteps, HandleQuery;
    var reg := Pipe(RefusesFor(b), cfg);
    RefusingPipe(b, cfg);
    hide Ranked, LooksUpFirst, LastCalls;
    EnteringIsSimple("main", b);
    var wb := MissRun(reg, "main", Arriving(b), Upstream([]));
    IsRefused(cfg, b, Arriving(b), [("cache", LookupOf(Arriving(b)))], wb);
    CodeAnswers(reg, "main", b, Misses(Upstream([])), REFUSED);
  }

  /** Through any pipeline that looks up first, a hit is answered with the code the cache holds. */
  lemma HitAnswers(reg: Registry, tag: Tag, client: IpAddr, msg: Message)
    requires LooksUpFirst(reg, tag)
    ensures var hit := HandleQuery(reg, tag, New(QUERY, Some(client)), World(Holds(msg), 0, [])).ctx.response;
            hit.Some? && hit.value.rcode == msg.rcode
  {
    hide Exec, RunSteps, Apply, Ranked;
    EnteringIsSimple(tag, client);
    HitRun(reg, tag, Entering(tag, client), msg);
    HitKeepsCode(Entering(tag, client), msg);
    hide HandleQuery;
    OutcomeDecidesReply(reg, tag, New(QUERY, Some(client)), World(Holds(msg), 0, []));
  }

  /** What a run that asks upstream at step `i` writes. */
  lemma AskStores(reg: Registry, tag: Tag, i: nat, client: IpAddr, w: World)
    requires LooksUpFirst(reg, tag) && LastCalls(reg, tag, i, "up") && reg.plugins["up"] == Source
    requires reg.encodes == ALL && w.tape == Misses(Upstream([]))
    requires var c := Entering(tag, client);
             Exec(reg, tag, c, World(Misses(Upstream([])), 0, []), 0, 0) == RunSteps(reg, tag, 0, i, c, [("cache", LookupOf(c))], w, 0, 0)
    ensures Cached(Entering(tag, client), []).Some?
    ensures Stored(0, "cache", SimpleKey(QUERY), Cached(Entering(tag, client), []).value)
         in HandleQuery(reg, tag, New(QUERY, Some(client)), World(Misses(Upstream([])), 0, [])).w.log
  {
    hide Exec, RunSteps, Apply, StoreLookup, Ranked;
    EnteringIsSimple(tag, client);
    CachedIs(Entering(tag, client), []);
    UpRun(reg, tag, i, Entering(tag, client), Upstream([]), LookupOf(Entering(tag, client)), w);
  }

  /** A run that ends with a reply of this code is answered with it. */
  lemma CodeAnswers(reg: Registry, tag: Tag, client: IpAddr, tape: nat -> Choice, rcode: nat)
    requires Ranked(reg) && tag in reg.plugins
    requires var r := Exec(reg, tag, Entering(tag, client), World(tape, 0, []), 0, 0);
             r.out.Done? && r.ctx.response.Some? && r.ctx.response.value.rcode == rcode
    ensures var own := HandleQuery(reg, tag, New(QUERY, Some(client)), World(tape, 0, [])).ctx.response;
            own.Some? && own.value.rcode == rcode
  {
    hide Exec, Ranked;
    EnteringIsSimple(tag, client);
    OutcomeDecidesReply(reg, tag, New(QUERY, Some(client)), World(tape, 0, []));
  }

  lemma HitKeepsCode(c: Ctx, m: Message)
    ensures var r := Apply(c, ServeHit(m)).response; r.Some? && r.value.rcode == m.rcode && r.value.edns == RebindEdns(m.edns, c.query.edns)
  {
  }

  lemma NotRefused(cfg: EcsConfig, a: IpAddr, b: IpAddr, c: Ctx, writes: seq<Write>, w: World)
    requires a != b && c.client == Some(a) && Ranked(Pipe(RefusesFor(b), cfg))
    ensures RunSteps(Pipe(RefusesFor(b), cfg), "main", 0, 2, c, writes, w, 0, 0)
         == RunSteps(Pipe(RefusesFor(b), cfg), "main", 0, 3, c, writes, w, 0, 0)
  {
    hide Ranked;
    assert !Matches(RefusesFor(b).matchers[0], c);
  }

  lemma IsRefused(cfg: EcsConfig, b: IpAddr, c: Ctx, writes: seq<Write>, w: World)
    requires c.client == Some(b) && Ranked(Pipe(RefusesFor(b), cfg))
    ensures var r := RunSteps(Pipe(RefusesFor(b), cfg), "main", 0, 2, c, writes, w, 0, 0);
            r.out == Done(Accept) && r.ctx.response.Some? && r.ctx.response.value.rcode == REFUSED
  {
    hide Ranked, StoreEvents;
    assert Matches(RefusesFor(b).matchers[0], c);
    assert MatchesAll(RefusesFor(b).matchers, c);
  }

  // ---------- A subnet attached behind the cache ----------

  const ATTACH: Step := Step([], Call("ecs"))

  /** `ecs` in auto mode: every client is taken for a public one. */
  const AUTO: EcsConfig := EcsConfig(true, None, None, false, 24, 56, (ip: IpAddr) => true)

  lemma AttachRun(c: Ctx, m: Message, writes: seq<Write>, w: World) returns (v: World)
    requires Ranked(Pipe(ATTACH, AUTO)) && w.tape == Misses(m)
    ensures v.tape == Misses(m)
    ensures RunSteps(Pipe(ATTACH, AUTO), "main", 0, 2, c, writes, w, 0, 0)
         == RunSteps(Pipe(ATTACH, AUTO), "main", 0, 3, AfterEcs(AUTO, c), writes, v, 0, 0)
  {
    hide Ranked, AfterEcs;
    var reg := Pipe(ATTACH, AUTO);
    var w1 := Note(w, StepTaken(0, 2, 0));
    var x := Exec(reg, "ecs", c, w1, 1, 0);
    assert x.out == Done(Continue) && x.ctx == AfterEcs(AUTO, c) && x.w.tape == Misses(m);
    assert SnapshotAt(reg, "ecs", c) == None && NoteSnap(w1, 0, "ecs", None, Here("main", 2, c, w1)) == w1;
    assert AddWrite(writes, "ecs", None) == writes;
    assert reg.plugins["main"].steps[2] == ATTACH && MatchesAll([], c);
    v := x.w;
  }

  /** The network of a client in `AUTO`. */
  function NetOf(client: IpAddr): ClientSubnet {
    var net := Masked(client, 24);
    ClientSubnet(net.0, net.1, 0)
  }

  lemma Attached(client: IpAddr)
    requires client.V4?
    ensures var c := AfterEcs(AUTO, Arriving(client));
            && EcsOf(c.query) == Some(NetOf(client)) && c.stripEcs && c.rewrites == []
            && c.original == QUERY && c.response.None? && c.query == QUERY.(edns := c.query.edns)
  {
    hide Masked;
  }

  /** The client whose run attached the subnet: it is stored, and stripped from its own reply. */
  lemma StoringRun(client: IpAddr)
    requires client.V4? && Ranked(Pipe(ATTACH, AUTO))
    requires Cached(AfterEcs(AUTO, Arriving(client)), [Subnet(NetOf(client))]).Some?
    ensures var options := [Subnet(NetOf(client))];
            var h := HandleQuery(Pipe(ATTACH, AUTO), "main", New(QUERY, Some(client)), World(Misses(Upstream(options)), 0, []));
            && Stored(0, "cache", SimpleKey(QUERY), Cached(AfterEcs(AUTO, Arriving(client)), options).value) in h.w.log
            && h.ctx.response.Some? && EcsOf(h.ctx.response.value).None?
  {
    hide Exec, RunSteps, AfterEcs, Masked, Ranked, Sent, StoreLookup;
    var options := [Subnet(NetOf(client))];
    var up, asked := Upstream(options), AfterEcs(AUTO, Arriving(client));
    EnteringIsSimple("main", client);
    Attached(client);
    var w := MissRun(Pipe(ATTACH, AUTO), "main", Arriving(client), up);
    var v := AttachRun(Arriving(client), up, [("cache", LookupOf(Arriving(client)))], w);
    UpRun(Pipe(ATTACH, AUTO), "main", 3, asked, up, LookupOf(Arriving(client)), v);
    var d := SetResponse(asked, up);
    SentSubnet(d);
    SentHasReply(d);
    assert HandleQuery(Pipe(ATTACH, AUTO), "main", New(QUERY, Some(client)), World(Misses(up), 0, [])).ctx == Sent(d);
  }

  lemma SentHasReply(c: Ctx)
    requires c.response.Some?
    ensures Sent(c).response.Some?
  {
  }

  /** The next client: a hit, and nothing to strip. */
  lemma HittingRun(next: IpAddr, msg: Message, cs: ClientSubnet)
    requires Ranked(Pipe(ATTACH, AUTO)) && msg.edns == Some(Edns(1232, 0, false, [Subnet(cs)]))
    ensures var reply := HandleQuery(Pipe(ATTACH, AUTO), "main", New(QUERY, Some(next)), World(Holds(msg), 0, [])).ctx.response;
            reply.Some? && EcsOf(reply.value) == Some(cs)
  {
    hide Exec, RunSteps, Ranked, Sent;
    EnteringIsSimple("main", next);
    HitRun(Pipe(ATTACH, AUTO), "main", Arriving(next), msg);
    HitKeepsCode(Arriving(next), msg);
    var d := Apply(Arriving(next), ServeHit(msg));
    SentSubnet(d);
    SentHasReply(d);
    assert HandleQuery(Pipe(ATTACH, AUTO), "main", New(QUERY, Some(next)), World(Holds(msg), 0, [])).ctx == Sent(d);
  }

  /** The key was taken before the subnet was attached, and the entry keeps the subnet upstream
      echoed. The client that brought it in does not see it; the next client, whose own run attached
      nothing, does. */
  lemma SubnetLeaksThroughCache(client: IpAddr, next: IpAddr)
    requires client.V4?
    ensures var reg := Pipe(ATTACH, AUTO);
            var up := Upstream([Subnet(NetOf(client))]);
            var asked := AfterEcs(AUTO, Arriving(client));
            && Ranked(reg) && EcsOf(QUERY).None? && EcsOf(asked.query) == Some(NetOf(client))
            && Cached(asked, [Subnet(NetOf(client))]).Some?
            && (var msg := Cached(asked, [Subnet(NetOf(client))]).value;
                var first := HandleQuery(reg, "main", New(QUERY, Some(client)), World(Misses(up), 0, []));
                var second := HandleQuery(reg, "main", New(QUERY, Some(next)), World(Holds(msg), 0, []));
                && Stored(0, "cache", SimpleKey(QUERY), msg) in first.w.log
                && first.ctx.response.Some? && EcsOf(first.ctx.response.value).None?
                && second.ctx.response.Some? && EcsOf(second.ctx.response.value) == Some(NetOf(client)))
  {
    hide HandleQuery, AfterEcs, Masked;
    PipeIsRanked(ATTACH, AUTO);
    Attached(client);
    CachedIs(AfterEcs(AUTO, Arriving(client)), [Subnet(NetOf(client))]);
    StoringRun(client);
    HittingRun(next, Cached(AfterEcs(AUTO, Arriving(client)), [Subnet(NetOf(client))]).value, NetOf(client));
  }

  // ---------- Two sequences with one cache ----------

  /** Two servers' pipelines share a cache; behind it one asks upstream, the other denies the name. */
  const SHARED: Registry :=
    Registry(
      map["asks" := Sequence([Step([], Call("cache")), Step([HasResp], Run(DoAccept)), Step([], Call("up"))]),
          "denies" := Sequence([Step([], Call("cache")), Step([HasResp], Run(DoAccept)), Step([], Call("hole"))]),
          "cache" := CacheStep(false),
          "up" := Source,
          "hole" := Blackhole(NX_DOMAIN)],
      map["asks" := 2, "denies" := 2, "cache" := 1, "up" := 1, "hole" := 1],
      ALL)

  lemma SharedIsRanked()
    ensures Ranked(SHARED)
  {
    var a, d := SHARED.plugins["asks"].steps, SHARED.plugins["denies"].steps;
    assert a[1..][1..] == [a[2]] && d[1..][1..] == [d[2]];
    assert StepCalls([a[2]]) == ["up"] by { assert [a[2]][1..] == []; }
    assert StepCalls([d[2]]) == ["hole"] by { assert [d[2]][1..] == []; }
    assert StepCalls(a[1..]) == ["up"] && StepCalls(d[1..]) == ["hole"];
    assert StepCalls(a) == ["cache", "up"] && StepCalls(d) == ["cache", "hole"];
    hide StepCalls;
  }

  /** The same client, the same query, the same surroundings: through one pipeline the name is denied,
      unless the other has stored an answer. */
  lemma SharedCacheServesOther(client: IpAddr)
    ensures var up := Upstream([]);
            && Ranked(SHARED) && Cached(Entering("asks", client), []).Some?
            && (var stored := Stored(0, "cache", SimpleKey(QUERY), Cached(Entering("asks", client), []).value);
                stored in HandleQuery(SHARED, "asks", New(QUERY, Some(client)), World(Misses(up), 0, [])).w.log)
            && (var own := HandleQuery(SHARED, "denies", New(QUERY, Some(client)), World(Misses(up), 0, [])).ctx.response;
                own.Some? && own.value.rcode == NX_DOMAIN)
            && (var held := Holds(Cached(Entering("asks", client), []).value);
                var hit := HandleQuery(SHARED, "denies", New(QUERY, Some(client)), World(held, 0, [])).ctx.response;
                hit.Some? && hit.value.rcode == NO_ERROR)
  {
    hide HandleQuery, Cached;
    SharedIsRanked();
    SharedLooksUp();
    CachedIs(Entering("asks", client), []);
    hide LooksUpFirst, LastCalls, Ranked;
    AskingStores(client);
    DenyingAnswer(client);
    HitAnswers(SHARED, "denies", client, Cached(Entering("asks", client), []).value);
  }

  lemma SharedLooksUp()
    requires Ranked(SHARED)
    ensures LooksUpFirst(SHARED, "asks") && LooksUpFirst(SHARED, "denies")
    ensures LastCalls(SHARED, "asks", 2, "up") && LastCalls(SHARED, "denies", 2, "hole")
  {
    hide Ranked;
  }

  lemma AskingStores(client: IpAddr)
    requires Ranked(SHARED)
    ensures Cached(Entering("asks", client), []).Some?
    ensures Stored(0, "cache", SimpleKey(QUERY), Cached(Entering("asks", client), []).value)
         in HandleQuery(SHARED, "asks", New(QUERY, Some(client)), World(Misses(Upstream([])), 0, [])).w.log
  {
    hide Exec, RunSteps, HandleQuery, Cached;
    SharedLooksUp();
    hide LooksUpFirst, LastCalls, Ranked;
    EnteringIsSimple("asks", client);
    var w := MissRun(SHARED, "asks", Entering("asks", client), Upstream([]));
    AskStores(SHARED, "asks", 2, client, w);
  }

  lemma DenyingAnswer(client: IpAddr)
    requires Ranked(SHARED)
    ensures var own := HandleQuery(SHARED, "denies", New(QUERY, Some(client)), World(Misses(Upstream([])), 0, [])).ctx.response;
            own.Some? && own.value.rcode == NX_DOMAIN
  {
    hide Exec, RunSteps, HandleQuery;
    SharedLooksUp();
    hide LooksUpFirst, LastCalls, Ranked;
    var c := Entering("denies", client);
    EnteringIsSimple("denies", client);
    var w := MissRun(SHARED, "denies", c, Upstream([]));
    DenyRun(c, LookupOf(c), w);
    CodeAnswers(SHARED, "denies", client, Misses(Upstream([])), NX_DOMAIN);
  }

  lemma EnteringIsSimple(tag: Tag, client: IpAddr)
    ensures Simply(Entering(tag, client)) && ClassifyIncoming(New(QUERY, Some(client)).query) == Accepted
  {
  }

  lemma HoleRun(c: Ctx, v: World)
    requires Ranked(SHARED) && !Next(v).cancel
    ensures var r := Exec(SHARED, "hole", c, v, 1, 0); r.out == Done(Continue) && r.ctx == Reject(c, NX_DOMAIN)
  {
    hide Ranked, Reject;
  }

  lemma DenyRun(c: Ctx, lookup: Lookup, w: World)
    requires Ranked(SHARED) && !Next(w).cancel
    ensures var r := RunSteps(SHARED, "denies", 0, 2, c, [("cache", lookup)], w, 0, 0);
            r.out == Done(Continue) && r.ctx.response.Some? && r.ctx.response.value.rcode == NX_DOMAIN
  {
    hide RunSteps, Exec;
    forall v: World | v.tape == w.tape && v.pos == w.pos
      ensures Exec(SHARED, "hole", c, v, 1, 0).out == Done(Continue)
      ensures Exec(SHARED, "hole", c, v, 1, 0).ctx == Reject(c, NX_DOMAIN)
    {
      HoleRun(c, v);
    }
    SharedLooksUp();
    hide LooksUpFirst, LastCalls, Ranked;
    LastRun(SHARED, "denies", 2, "hole", c, Reject(c, NX_DOMAIN), lookup, w);
  }

  // ---------- Steps after a hit ----------

  /** Every reply, from the cache or not, gets a TTL of 300. */
  const CLAMPED: Registry :=
    Registry(
      map["main" := Sequence([Step([], Call("cache")), Step([Neg(HasResp)], Call("up")), Step([], Run(Ttl(300, 300)))]),
          "cache" := CacheStep(false),
          "up" := Source],
      map["main" := 2, "cache" := 1, "up" := 1],
      ALL)

  lemma ClampedIsRanked()
    ensures Ranked(CLAMPED)
  {
    var s := CLAMPED.plugins["main"].steps;
    assert s[1..][1..] == [s[2]];
    assert StepCalls([s[2]]) == [] by { assert [s[2]][1..] == []; }
    assert StepCalls(s[1..]) == ["up"];
    assert StepCalls(s) == ["cache", "up"];
    hide StepCalls;
  }

  /** The clamp at the end, on whatever reply there is. */
  lemma ClampRun(c: Ctx, writes: seq<Write>, w: World)
    requires Ranked(CLAMPED)
    ensures var r := RunSteps(CLAMPED, "main", 0, 2, c, writes, w, 0, 0);
            r.out == Done(Continue) && r.ctx == ClampTtl(c, 300, 300)
  {
    hide Ranked, StoreEvents, ClampTtl;
    assert MatchesAll([], c);
    var w1 := Note(w, StepTaken(0, 2, 0));
    assert AfterBuiltin(Ttl(300, 300), c) == ClampTtl(c, 300, 300);
    var r := RunSteps(CLAMPED, "main", 0, 2, c, writes, w, 0, 0);
    assert r == AfterAction(CLAMPED, "main", 0, 2, Ttl(300, 300), c, writes, w1, 0, 0);
    assert r == RunSteps(CLAMPED, "main", 0, 3, ClampTtl(c, 300, 300), writes, w1, 0, 0);
  }

  /** After the lookup, with or without a hit: `x` is what the cache step made of the context. */
  lemma ClampedRun(c: Ctx, tape: nat -> Choice) returns (x: Res)
    requires Ranked(CLAMPED) && Simply(c) && forall n :: !tape(n).cancel
    ensures x.w.tape == tape
    ensures x.ctx == if tape(1).hit.Some? then Apply(c, ServeHit(tape(1).hit.value.msg)) else c
    ensures Exec(CLAMPED, "main", c, World(tape, 0, []), 0, 0)
         == RunSteps(CLAMPED, "main", 0, 1, x.ctx, [("cache", LookupOf(c))], x.w, 0, 0)
  {
    hide Ranked, Apply;
    var w0 := World(tape, 0, []);
    var w1 := Note(Advance(w0), Enter("main", 0));
    var snap := SnapshotAt(CLAMPED, "cache", c);
    assert snap == Some(LookupOf(c));
    var w2 := Note(w1, StepTaken(0, 0, 0));
    assert MatchesAll([], c);
    x := Exec(CLAMPED, "cache", c, NoteSnap(w2, 0, "cache", snap, Here("main", 0, c, w2)), 1, 0);
    assert x.out == Done(Continue);
    assert AddWrite([], "cache", snap) == [("cache", LookupOf(c))];
    assert RunSteps(CLAMPED, "main", 0, 0, c, [], w1, 0, 0)
        == RunSteps(CLAMPED, "main", 0, 1, x.ctx, [("cache", LookupOf(c))], x.w, 0, 0);
  }

  lemma AskRun(c: Ctx, m: Message, writes: seq<Write>, w: World) returns (v: World)
    requires Ranked(CLAMPED) && c.response.None? && w.tape == Misses(m)
    ensures RunSteps(CLAMPED, "main", 0, 1, c, writes, w, 0, 0)
         == RunSteps(CLAMPED, "main", 0, 2, SetResponse(c, m), writes, v, 0, 0)
  {
    hide Ranked, SetResponse;
    assert !Matches(HasResp, c) && Matches(Neg(HasResp), c) && MatchesAll([Neg(HasResp)], c);
    var w1 := Note(w, StepTaken(0, 1, 0));
    var x := Exec(CLAMPED, "up", c, w1, 1, 0);
    assert Next(w1).reply(c.query) == Some(m);
    assert x.out == Done(Continue) && x.ctx == SetResponse(c, m);
    assert SnapshotAt(CLAMPED, "up", c) == None && NoteSnap(w1, 0, "up", None, Here("main", 1, c, w1)) == w1;
    assert AddWrite(writes, "up", None) == writes;
    v := x.w;
  }

  lemma PassRun(c: Ctx, writes: seq<Write>, w: World)
    requires Ranked(CLAMPED) && c.response.Some?
    ensures RunSteps(CLAMPED, "main", 0, 1, c, writes, w, 0, 0) == RunSteps(CLAMPED, "main", 0, 2, c, writes, w, 0, 0)
  {
    hide Ranked;
    assert Matches(HasResp, c) && !Matches([Neg(HasResp)][0], c);
  }

  lemma SentTtl(c: Ctx)
    requires c.response.Some? && c.rewrites == [] && |c.response.value.answers| == 1
    ensures Sent(c).response.Some? && |Sent(c).response.value.answers| == 1
    ensures Sent(c).response.value.answers[0] == c.response.value.answers[0]
  {
    assert From(c.rewrites, 0) == [];
  }

  /** A reply clamped to 300 and aged by 10 seconds has TTL 290; a hit on it, clamped again, has 300. */
  lemma StepsAfterHitRunTwice(client: IpAddr)
    ensures Ranked(CLAMPED)
    ensures var own := HandleQuery(CLAMPED, "main", New(QUERY, Some(client)), World(Misses(Upstream([])), 0, [])).ctx.response;
            && own.Some? && |own.value.answers| == 1 && own.value.answers[0].ttl == 300
            && Aged(own.value, 10).answers[0].ttl == 290
            && (var hit := HandleQuery(CLAMPED, "main", New(QUERY, Some(client)), World(Holds(Aged(own.value, 10)), 0, [])).ctx.response;
                hit.Some? && |hit.value.answers| == 1 && hit.value.answers[0].ttl == 300)
  {
    hide Exec, RunSteps, Sent;
    ClampedIsRanked();
    hide Ranked;
    var c, up := Entering("main", client), Upstream([]);
    EnteringIsSimple("main", client);
    var x := ClampedRun(c, Misses(up));
    var v := AskRun(c, up, [("cache", LookupOf(c))], x.w);
    ClampRun(SetResponse(c, up), [("cache", LookupOf(c))], v);
    var d := ClampTtl(SetResponse(c, up), 300, 300);
    assert |d.response.value.answers| == 1 && d.response.value.answers[0].ttl == 300 && d.rewrites == [];
    SentTtl(d);
    var own := HandleQuery(CLAMPED, "main", New(QUERY, Some(client)), World(Misses(up), 0, [])).ctx.response;
    assert own == Sent(d).response;
    assert own.value.answers[0].Type() == A_CODE;
    var held := Aged(own.value, 10);
    var y := ClampedRun(c, Holds(held));
    ServedAnswers(c, held);
    PassRun(y.ctx, [("cache", LookupOf(c))], y.w);
    ClampRun(y.ctx, [("cache", LookupOf(c))], y.w);
    var z := ClampTtl(y.ctx, 300, 300);
    SentTtl(z);
    assert HandleQuery(CLAMPED, "main", New(QUERY, Some(client)), World(Holds(held), 0, [])).ctx.response == Sent(z).response;
  }

  lemma ServedAnswers(c: Ctx, m: Message)
    ensures var d := Apply(c, ServeHit(m));
            d.response.Some? && d.response.value.answers == m.answers && d.rewrites == c.rewrites
  {
  }
}
