/** Two clients of one cache in front of one upstream.

The commonest pipeline looks up first, accepts a hit, and asks upstream otherwise. Any two clients whose
queries have one key, whatever their addresses, ids, payload sizes and letter case, meet what the
results about cache hits ask of them: the second is sent what the upstream would have answered it.
*/
module TwoClients {
  import opened Wrappers
  import opened DnsMessage
  import opened Context
  import opened Steps
  import opened CacheKey
  import opened CachePolicy
  import opened Pipeline
  import opened PipelineWrites
  import opened Twins
  import opened Origins
  import opened Server
  import opened LazyReplay
  import opened EndToEnd
  import opened Upstreams
  import opened CacheFailures

  /** Look up, accept a hit, else ask upstream. */
  ghost predicate AsksBehind(reg: Registry, tag: Tag) {
    LooksUpFirst(reg, tag) && LastCalls(reg, tag, 2, "up") && reg.plugins["up"] == Source
  }

  function Replies(r: Responder): Message -> Option<Message> { (q: Message) => ReplyFrom(r, q) }

  /** No hits, and one upstream or hosts table. */
  function Asking(r: Responder): nat -> Choice { (n: nat) => Choice(false, Replies(r), None) }

  /** The same, but the cache holds `m`. */
  function Holding(r: Responder, m: Message): nat -> Choice { (n: nat) => Choice(false, Replies(r), Some(Hit(m, false))) }

  function Entered(rq: Request): Ctx { BeginPipeline(New(rq.query, rq.client), rq.entry) }

  /** The lookup at the first step, as the context finds it. */
  function First(rq: Request): Point { Point(rq.entry, 0, Entered(rq), 1) }

  predicate Ordinary(rq: Request) {
    && ClassifyIncoming(rq.query) == Accepted && IsSimple(rq.query) && CacheableEdns(rq.query)
    && ProperName(rq.query.questions[0].name) && ProperSubnet(rq.query)
  }

  lemma CacheStays(reg: Registry, c: Ctx, w: World)
    requires Ranked(reg) && "cache" in reg.plugins && reg.plugins["cache"] == CacheStep(false)
    requires Simply(c) && !Next(w).cancel && Next(w).hit.None?
    ensures var x := Exec(reg, "cache", c, w, 1, 0);
            x.out == Done(Continue) && x.ctx == c && x.w.tape == w.tape && x.w.pos == w.pos + 1
  {
    hide Ranked;
  }

  lemma UpAnswers(reg: Registry, c: Ctx, w: World)
    requires Ranked(reg) && "up" in reg.plugins && reg.plugins["up"] == Source && !Next(w).cancel
    ensures var x := Exec(reg, "up", c, w, 1, 0); x.out == Done(Continue) && x.ctx == Answered(c, Next(w).reply(c.query))
  {
    hide Ranked, Apply;
  }

  /** Behind a miss the upstream is asked, and the sequence ends with its answer, stored if it may be. */
  lemma MissAsks(reg: Registry, tag: Tag, c: Ctx, r: Responder, w: World)
    requires AsksBehind(reg, tag) && Simply(c) && w.tape == Asking(r)
    ensures var x, d := RunSteps(reg, tag, 0, 0, c, [], w, 0, 0), Answered(c, ReplyFrom(r, c.query));
            && x.out == Done(Continue) && x.ctx == d
            && (StoreLookup(d, LookupOf(c), reg.encodes).Some? ==>
                  Stored(0, "cache", SimpleKey(c.query), StoreLookup(d, LookupOf(c), reg.encodes).value) in x.w.log)
  {
    hide Ranked, Exec, ReplyFrom, Answered, StoreLookup;
    StepDescends(reg, tag, 0);
    var snap := SnapshotAt(reg, "cache", c);
    var w1 := Note(w, StepTaken(0, 0, 0));
    var w2 := NoteSnap(w1, 0, "cache", snap, Here(tag, 0, c, w1));
    CacheStays(reg, c, w2);
    var x := Exec(reg, "cache", c, w2, 1, 0);
    assert snap == Some(LookupOf(c));
    var writes := AddWrite([], "cache", snap);
    assert writes == [("cache", LookupOf(c))];
    assert MatchesAll([], c);
    assert RunSteps(reg, tag, 0, 0, c, [], w, 0, 0) == RunSteps(reg, tag, 0, 1, c, writes, x.w, 0, 0);
    assert !Matches([HasResp][0], c);
    assert RunSteps(reg, tag, 0, 1, c, writes, x.w, 0, 0) == RunSteps(reg, tag, 0, 2, c, writes, x.w, 0, 0);
    var d := Answered(c, ReplyFrom(r, c.query));
    forall v: World | v.tape == x.w.tape && v.pos == x.w.pos
      ensures Exec(reg, "up", c, v, 1, 0).out == Done(Continue) && Exec(reg, "up", c, v, 1, 0).ctx == d
    {
      UpAnswers(reg, c, v);
    }
    hide RunSteps;
    LastRun(reg, tag, 2, "up", c, d, LookupOf(c), x.w);
  }

  // ---------- The first client ----------

  /** What the first client's run stores, if anything. */
  function Kept(rq: Request, r: Responder, encodes: Encoder): Option<Message>
    requires IsSimple(rq.query)
  {
    StoreLookup(Answered(Entered(rq), ReplyFrom(r, rq.query)), LookupOf(Entered(rq)), encodes)
  }

  function OriginOf(rq: Request, r: Responder, m: Message): Origin
    requires IsSimple(rq.query)
  {
    Origin(First(rq), Asking(r), LookupOf(Entered(rq)), Answered(Entered(rq), ReplyFrom(r, rq.query)), m)
  }

  lemma EnteredIsSimple(rq: Request)
    requires Ordinary(rq)
    ensures Simply(Entered(rq)) && Untouched(Entered(rq)) && Entered(rq).query == rq.query
  {
  }

  lemma AnsweredFrame(c: Ctx, reply: Option<Message>)
    requires !c.served
    ensures !Answered(c, reply).served && Answered(c, reply).rewrites == c.rewrites && Answered(c, reply).stripEcs == c.stripEcs
  {
  }

  lemma FirstTakes(reg: Registry, rq: Request)
    requires AsksBehind(reg, rq.entry) && Ordinary(rq)
    ensures PointTakes(reg, First(rq), "cache")
  {
    hide Ranked;
  }

  lemma FirstClientStores(reg: Registry, rq: Request, r: Responder)
    requires AsksBehind(reg, rq.entry) && Ordinary(rq) && Kept(rq, r, reg.encodes).Some?
    ensures EndToEnd.Source(reg, "cache", false, SimpleKey(rq.query), OriginOf(rq, r, Kept(rq, r, reg.encodes).value))
  {
    EnteredIsSimple(rq);
    FirstTakes(reg, rq);
    MissAsks(reg, rq.entry, Entered(rq), r, World(Asking(r), 1, []));
    AnsweredFrame(Entered(rq), ReplyFrom(r, rq.query));
    hide Ranked, Resumed, ReplyFrom, Answered, StoreLookup, LooksUpFirst, LastCalls, PointTakes;
  }

  lemma FirstClientWrites(reg: Registry, rq: Request, r: Responder)
    requires AsksBehind(reg, rq.entry) && Ordinary(rq) && Kept(rq, r, reg.encodes).Some?
    ensures Stored(0, "cache", SimpleKey(rq.query), Kept(rq, r, reg.encodes).value) in LogOf(reg, rq, Asking(r))
  {
    EnteredIsSimple(rq);
    var w := World(Asking(r), 0, []);
    MissAsks(reg, rq.entry, Entered(rq), r, Note(Advance(w), Enter(rq.entry, 0)));
    assert !Next(w).cancel;
    hide Ranked, RunSteps, ReplyFrom, Answered, StoreLookup, LastCalls, Sent;
  }

  // ---------- The second client ----------

  lemma CacheServes(reg: Registry, c: Ctx, r: Responder, m: Message, w: World)
    requires Ranked(reg) && "cache" in reg.plugins && reg.plugins["cache"] == CacheStep(false)
    requires Simply(c) && w.tape == Holding(r, m)
    ensures var x := Exec(reg, "cache", c, w, 1, 0);
            && x.out == Done(Continue)
            && x.w.log == w.log + [Enter("cache", 1)] + [CacheAsked("cache", SimpleKey(c.query))]
                          + [CacheHit("cache", SimpleKey(c.query), false, c, w.pos + 1)]
  {
    hide Ranked, Apply, SimpleKey, ReplyFrom;
  }

  /** How the second client's run begins. */
  function Beginning(rq: Request): seq<Event>
    requires IsSimple(rq.query)
  {
    var c, key := Entered(rq), SimpleKey(rq.query);
    [Enter(rq.entry, 0), StepTaken(0, 0, 0), Snapped(0, "cache", LookupOf(c), First(rq)), Enter("cache", 1),
     CacheAsked("cache", key), CacheHit("cache", key, false, c, 2)]
  }

  lemma BeginsWith(reg: Registry, rq: Request, r: Responder, m: Message)
    requires AsksBehind(reg, rq.entry) && Ordinary(rq) && Simply(Entered(rq))
    ensures var w := World(Holding(r, m), 1, [Enter(rq.entry, 0)]);
            Beginning(rq) <= RunSteps(reg, rq.entry, 0, 0, Entered(rq), [], w, 0, 0).w.log
  {
    hide Ranked, Exec, Replies, SimpleKey, KeyOf;
    var c, tag := Entered(rq), rq.entry;
    var w := World(Holding(r, m), 1, [Enter(tag, 0)]);
    StepDescends(reg, tag, 0);
    var snap := SnapshotAt(reg, "cache", c);
    KeyIsSimple(reg, c);
    var w1 := Note(w, StepTaken(0, 0, 0));
    assert Here(tag, 0, c, w1) == First(rq);
    var w2 := NoteSnap(w1, 0, "cache", snap, Here(tag, 0, c, w1));
    CacheServes(reg, c, r, m, w2);
    var x := Exec(reg, "cache", c, w2, 1, 0);
    assert MatchesAll([], c);
    assert x.w.log <= RunSteps(reg, tag, 0, 0, c, [], w, 0, 0).w.log;
    assert x.w.log == Beginning(rq);
  }

  lemma KeyIsSimple(reg: Registry, c: Ctx)
    requires "cache" in reg.plugins && reg.plugins["cache"] == CacheStep(false) && Simply(c)
    ensures SnapshotAt(reg, "cache", c) == Some(LookupOf(c))
  {
    hide SimpleKey;
  }

  lemma SecondClientBegins(reg: Registry, rq: Request, r: Responder, m: Message)
    requires AsksBehind(reg, rq.entry) && Ordinary(rq)
    ensures Beginning(rq) <= LogOf(reg, rq, Holding(r, m))
  {
    EnteredIsSimple(rq);
    hide Ranked, RunSteps, Replies, SimpleKey, LogOf, LooksUpFirst;
    BeginsWith(reg, rq, r, m);
    EntryLog(reg, rq, Holding(r, m));
  }

  lemma BeginningHits(rq: Request, log: seq<Event>)
    requires IsSimple(rq.query) && Beginning(rq) <= log
    ensures FirstHit(log, 5) && log[5].pos == 2
    ensures log[2] == Snapped(0, "cache", LookupOf(Entered(rq)), First(rq))
  {
    hide SimpleKey, Entered, LookupOf;
    assert forall k | 0 <= k < 6 :: log[k] == Beginning(rq)[k];
  }

  /** The second client's first hit is at its first step. */
  lemma SecondClientHits(reg: Registry, rq: Request, r: Responder, m: Message)
    requires AsksBehind(reg, rq.entry) && Ordinary(rq)
    ensures HitsAt(reg, rq, Holding(r, m), "cache", 2, 5)
    ensures var e := LogOf(reg, rq, Holding(r, m))[2]; e.from == First(rq) && e.lookup == LookupOf(Entered(rq))
  {
    SecondClientBegins(reg, rq, r, m);
    BeginningHits(rq, LogOf(reg, rq, Holding(r, m)));
    hide LogOf, Holding, Ranked, SimpleKey, LooksUpFirst, LastCalls, FirstHit, Beginning, Ordinary;
  }

  lemma EntryLog(reg: Registry, rq: Request, tape: nat -> Choice)
    requires Ranked(reg) && rq.entry in reg.plugins && reg.plugins[rq.entry].Sequence?
    requires ClassifyIncoming(rq.query) == Accepted && !tape(0).cancel
    ensures LogOf(reg, rq, tape)
         == RunSteps(reg, rq.entry, 0, 0, Entered(rq), [], World(tape, 1, [Enter(rq.entry, 0)]), 0, 0).w.log
  {
    hide Ranked, RunSteps, Sent;
    var w := World(tape, 0, []);
    assert Note(Advance(w), Enter(rq.entry, 0)) == World(tape, 1, [Enter(rq.entry, 0)]);
  }

  lemma HitIsAccepted(reg: Registry, rq: Request, m: Message)
    requires AsksBehind(reg, rq.entry) && Ordinary(rq) && PointTakes(reg, First(rq), "cache")
    ensures HitEnds(reg, "cache", First(rq), m)
  {
    hide Ranked;
    ServedHasReply(Entered(rq), m);
    assert Matches(HasResp, HitReply(Entered(rq), m)) && MatchesAll([HasResp], HitReply(Entered(rq), m));
  }

  const AREA := {"cache", "up"}

  lemma NothingReadsClients(reg: Registry, tag: Tag)
    requires AsksBehind(reg, tag)
    ensures BlindFrom(reg, AREA, reg.plugins[tag].steps, 0)
  {
    hide Ranked;
  }

  /** Any two such clients with one key agree. */
  lemma ClientsAgree(reg: Registry, fold: bool, a: Request, b: Request, r: Responder)
    requires AsksBehind(reg, a.entry) && b.entry == a.entry && Ordinary(a) && Ordinary(b)
    requires SimpleKey(a.query) == SimpleKey(b.query)
    requires fold || a.query.questions[0].name == b.query.questions[0].name
    requires Kept(a, r, reg.encodes).Some?
    ensures Agrees(reg, AREA, Alike(fold), OriginOf(a, r, Kept(a, r, reg.encodes).value), First(b))
  {
    var o := OriginOf(a, r, Kept(a, r, reg.encodes).value);
    EnteredIsSimple(a);
    EnteredIsSimple(b);
    FirstClientStores(reg, a, r);
    FirstTakes(reg, b);
    NothingReadsClients(reg, a.entry);
    RespondersAreImpartial(fold, Asking(r), (n: nat) => r);
    hide Ranked, Resumed, EndToEnd.Source, PointTakes, BlindFrom, Impartial, ReplyFrom, StoreLookup, Answered, Untouched,
         LooksUpFirst, LastCalls, Agrees;
    OneKeyAgrees(reg, AREA, fold, "cache", false, SimpleKey(a.query), o, First(b));
  }

  lemma OwnTapeIs(o: Origin, rq: Request, r: Responder, m: Message)
    requires o.met == Asking(r) && o.from.pos == 1
    ensures OwnTape(o, First(rq), Holding(r, m), false, Asking(r))
  {
    forall n: nat ensures SameChoice(Ahead(World(o.met, 1, []), n), false, Ahead(World(Asking(r), 1, []), n), false) {
    }
  }

  lemma SecondClientMeets(reg: Registry, a: Request, b: Request, r: Responder, e: u32)
    requires AsksBehind(reg, a.entry) && b.entry == a.entry && Ordinary(a) && Ordinary(b)
    requires SimpleKey(a.query) == SimpleKey(b.query) && Kept(a, r, reg.encodes).Some?
    ensures var o := OriginOf(a, r, Kept(a, r, reg.encodes).value);
            var tape := Holding(r, Aged(o.msg, e));
            && HitsAt(reg, b, tape, "cache", 2, 5)
            && LogOf(reg, b, tape)[2].from == First(b) && LogOf(reg, b, tape)[2].lookup.key == SimpleKey(b.query)
            && PointTakes(reg, First(b), "cache") && reg.plugins["cache"] == CacheStep(false)
            && HitEnds(reg, "cache", First(b), Aged(o.msg, e)) && Held(tape, First(b), Aged(o.msg, e))
            && EndToEnd.Source(reg, "cache", false, SimpleKey(b.query), o)
            && OwnTape(o, First(b), tape, false, Asking(r))
  {
    var o := OriginOf(a, r, Kept(a, r, reg.encodes).value);
    hide LastCalls, ReplyFrom, StoreLookup, Answered, HitsAt, HitEnds, OwnTape, PointTakes, EndToEnd.Source, Aged, LogOf,
         SimpleKey, Ranked, BeginPipeline, Kept;
    FirstClientStores(reg, a, r);
    SecondClientHits(reg, b, r, Aged(o.msg, e));
    FirstTakes(reg, b);
    HitIsAccepted(reg, b, Aged(o.msg, e));
    OwnTapeIs(o, b, r, Aged(o.msg, e));
  }

  /** Two clients with one key, however they differ otherwise, and any upstream or hosts table whose
      answer to the first is stored: the second, served from the cache after `e` seconds, is sent what
      it would be sent without the cache, aged; up to the case of names if theirs differs in case. */
  lemma SecondClientIsServed(reg: Registry, fold: bool, a: Request, b: Request, r: Responder, e: u32)
    requires AsksBehind(reg, a.entry) && b.entry == a.entry && Ordinary(a) && Ordinary(b)
    requires SimpleKey(a.query) == SimpleKey(b.query)
    requires fold || a.query.questions[0].name == b.query.questions[0].name
    requires Kept(a, r, reg.encodes).Some?
    ensures var m := Kept(a, r, reg.encodes).value;
            var sent, own := ReplyOf(reg, b, false, Holding(r, Aged(m, e))), ReplyOf(reg, b, false, Asking(r));
            && Stored(0, "cache", SimpleKey(b.query), m) in LogOf(reg, a, Asking(r))
            && sent.Some? && own.Some?
            && Fold(Alike(fold), sent.value) == Fold(Alike(fold), Aged(own.value, e))
  {
    var m := Kept(a, r, reg.encodes).value;
    var o := OriginOf(a, r, m);
    FirstClientWrites(reg, a, r);
    ClientsAgree(reg, fold, a, b, r);
    SecondClientMeets(reg, a, b, r, e);
    NothingRepeats(reg, a, b, r, e);
    hide LastCalls, ReplyFrom, StoreLookup, Answered, HitsAt, HitEnds, Agrees, OwnTape, PointTakes, EndToEnd.Source, Held,
         ServesExactly, StripsMore, Fold, Aged, LogOf, ReplyOf, SimpleKey, Ranked, BeginPipeline, Ordinary, Kept, OriginOf;
    FreshHitOfSource(reg, AREA, Alike(fold), "cache", o, b, Holding(r, Aged(m, e)), 2, 5, false, Asking(r), e);
  }

  /** No rewrites and no hidden subnets: the cases in which a hit differs do not arise. */
  lemma NothingRepeats(reg: Registry, a: Request, b: Request, r: Responder, e: u32)
    requires Ordinary(a) && Ordinary(b) && Kept(a, r, reg.encodes).Some?
    ensures var o := OriginOf(a, r, Kept(a, r, reg.encodes).value);
            && o.end.response.Some? && !StripsMore(o, Entered(b))
            && ServesExactly(o.end, o.lookup, Entered(b), o.msg, e)
  {
    EnteredIsSimple(a);
    EnteredIsSimple(b);
    AnsweredFrame(Entered(a), ReplyFrom(r, a.query));
    StoredShape(Answered(Entered(a), ReplyFrom(r, a.query)), LookupOf(Entered(a)), reg.encodes);
  }

  // ---------- Two clients that spell the name differently ----------

  const LOWER := Request("asks", QUERY.(id := 1), Some(V4(1)))

  const UPPER :=
    Request("asks", QUERY.(id := 2, questions := [Question(Name("A", true), A_CODE, CLASS_IN)],
                           edns := Some(Edns(4096, 0, false, []))), Some(V4(2)))

  /** One address for the name, spelled as asked. */
  const ECHOES := Zone((q: Message) => Some(Upstream([])), true)

  lemma SpellingsHaveOneKey()
    ensures Ordinary(LOWER) && Ordinary(UPPER) && SimpleKey(LOWER.query) == SimpleKey(UPPER.query)
    ensures LOWER.query.questions[0].name != UPPER.query.questions[0].name
  {
    ProperText(Name("a", true));
    ProperText(Name("A", true));
    assert Lower("A") == "a" == Lower("a");
  }

  /** What either client is answered by the upstream itself. */
  lemma EchoAnswers(rq: Request)
    requires rq in {LOWER, UPPER}
    ensures ReplyFrom(ECHOES, rq.query).Some?
    ensures var x := ReplyFrom(ECHOES, rq.query).value;
            && x.answers == [Record(rq.query.questions[0].name, CLASS_IN, 60, A(V4(1)))]
            && x.nameServers == [] && x.rcode == NO_ERROR && !x.truncated && x.edns == Some(Edns(1232, 0, false, []))
  {
    var m := Upstream([]);
    assert Lower("A") == "a" == Lower("a");
    assert Spelled(rq.query, m.answers) == [m.answers[0].(name := rq.query.questions[0].name)];
    assert Spelled(rq.query, []) == [];
  }

  lemma LowerIsKept()
    ensures Kept(LOWER, ECHOES, ALL).Some?
    ensures Kept(LOWER, ECHOES, ALL).value.answers == [Record(Name("a", true), CLASS_IN, 60, A(V4(1)))]
  {
    EchoAnswers(LOWER);
    hide ReplyFrom;
    var d := Answered(Entered(LOWER), ReplyFrom(ECHOES, LOWER.query));
    var m := Rebind(d.response.value, LOWER.query);
    assert Timed(m) == m.answers;
    assert MinTtl(m) == 60;
    assert From(d.rewrites, 0) == [];
  }

  /** All of the above is met by two clients with different addresses, ids, payload sizes and spelling;
      and the case of names is what then differs, so folding it is needed. */
  lemma SpellingShowsThroughCache()
    ensures AsksBehind(SHARED, "asks") && Kept(LOWER, ECHOES, ALL).Some?
    ensures var m := Kept(LOWER, ECHOES, ALL).value;
            var sent, own := ReplyOf(SHARED, UPPER, false, Holding(ECHOES, Aged(m, 10))), ReplyOf(SHARED, UPPER, false, Asking(ECHOES));
            && Stored(0, "cache", SimpleKey(UPPER.query), m) in LogOf(SHARED, LOWER, Asking(ECHOES))
            && sent.Some? && own.Some?
            && Fold(Alike(true), sent.value) == Fold(Alike(true), Aged(own.value, 10))
            && sent.value.answers == [Record(Name("a", true), CLASS_IN, 50, A(V4(1)))]
            && Aged(own.value, 10).answers == [Record(Name("A", true), CLASS_IN, 50, A(V4(1)))]
  {
    SharedIsRanked();
    SharedLooksUp();
    SpellingsHaveOneKey();
    LowerIsKept();
    hide Ranked, LooksUpFirst, LastCalls, ReplyOf, LogOf, Kept, Fold, SimpleKey;
    SecondClientIsServed(SHARED, true, LOWER, UPPER, ECHOES, 10);
    UpperOwn();
    UpperHit(Kept(LOWER, ECHOES, ALL).value);
  }

  lemma SentAnswers(c: Ctx)
    requires c.response.Some? && c.rewrites == []
    ensures Sent(c).response.Some? && Sent(c).response.value.answers == c.response.value.answers
  {
    assert From(c.rewrites, 0) == [];
  }

  lemma AnsweredAnswers(c: Ctx, m: Message)
    ensures var d := Answered(c, Some(m)); d.response.Some? && d.response.value.answers == m.answers && d.rewrites == c.rewrites
  {
  }

  lemma HitShows(c: Ctx, m: Message)
    ensures var d := HitReply(c, m); d.response.Some? && d.response.value.answers == m.answers && d.rewrites == c.rewrites
  {
    ServedAnswers(c, m);
  }

  /** What a request is sent behind a miss. */
  lemma OwnIsSent(reg: Registry, rq: Request, r: Responder)
    requires AsksBehind(reg, rq.entry) && Ordinary(rq)
    requires ReplyFrom(r, rq.query).Some?
    ensures var own := ReplyOf(reg, rq, false, Asking(r));
            own.Some? && own.value.answers == ReplyFrom(r, rq.query).value.answers
  {
    EnteredIsSimple(rq);
    hide ReplyFrom, Ranked, RunSteps, Sent, Answered, Ordinary, Replies;
    var w := World(Asking(r), 0, []);
    MissAsks(reg, rq.entry, Entered(rq), r, Note(Advance(w), Enter(rq.entry, 0)));
    assert !Next(w).cancel && As(false, New(rq.query, rq.client)) == New(rq.query, rq.client);
    AnsweredAnswers(Entered(rq), ReplyFrom(r, rq.query).value);
    SentAnswers(Answered(Entered(rq), ReplyFrom(r, rq.query)));
  }

  /** What a request is sent after a hit. */
  lemma HitIsSent(reg: Registry, rq: Request, r: Responder, m: Message)
    requires AsksBehind(reg, rq.entry) && Ordinary(rq)
    ensures var sent := ReplyOf(reg, rq, false, Holding(r, m)); sent.Some? && sent.value.answers == m.answers
  {
    EnteredIsSimple(rq);
    SecondClientHits(reg, rq, r, m);
    FirstTakes(reg, rq);
    HitIsAccepted(reg, rq, m);
    hide Ranked, Sent, HitReply, LogOf, ReplyOf, HitsAt, HitEnds, PointTakes, LastCalls, LooksUpFirst, BeginPipeline;
    HitReplyIs(reg, rq, Holding(r, m), "cache", 2, 5, m);
    HitShows(Entered(rq), m);
    SentAnswers(HitReply(Entered(rq), m));
  }

  lemma AgedAnswer(m: Message, owner: Name)
    requires m.answers == [Record(owner, CLASS_IN, 60, A(V4(1)))]
    ensures Aged(m, 10).answers == [Record(owner, CLASS_IN, 50, A(V4(1)))]
  {
  }

  lemma UpperOwn()
    requires AsksBehind(SHARED, "asks")
    ensures var own := ReplyOf(SHARED, UPPER, false, Asking(ECHOES));
            own.Some? && Aged(own.value, 10).answers == [Record(Name("A", true), CLASS_IN, 50, A(V4(1)))]
  {
    SpellingsHaveOneKey();
    EchoAnswers(UPPER);
    hide ReplyFrom, ReplyOf, AsksBehind, SimpleKey, Ordinary, Aged;
    OwnIsSent(SHARED, UPPER, ECHOES);
    AgedAnswer(ReplyOf(SHARED, UPPER, false, Asking(ECHOES)).value, Name("A", true));
  }

  lemma UpperHit(m: Message)
    requires AsksBehind(SHARED, "asks") && m.answers == [Record(Name("a", true), CLASS_IN, 60, A(V4(1)))]
    ensures var sent := ReplyOf(SHARED, UPPER, false, Holding(ECHOES, Aged(m, 10)));
            sent.Some? && sent.value.answers == [Record(Name("a", true), CLASS_IN, 50, A(V4(1)))]
  {
    SpellingsHaveOneKey();
    hide ReplyOf, AsksBehind, SimpleKey, Ordinary, Aged;
    HitIsSent(SHARED, UPPER, ECHOES, Aged(m, 10));
    AgedAnswer(m, Name("a", true));
  }
}
