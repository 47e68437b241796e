/** The shared cache and the uncached pipeline.

Any number of runs look up, store and flush concurrently, in any interleaving of their atomic
shard operations. The reply sent to a client whose request takes a hit is compared with the reply to
the same request in surroundings where that lookup misses and the storing run's fortune is met.
*/
module EndToEnd {
  import opened Wrappers
  import opened DnsMessage
  import opened Context
  import opened Steps
  import opened Invariants
  import opened CacheKey
  import opened CachePolicy
  import opened Pipeline
  import opened PipelineInvariants
  import opened PipelineWrites
  import opened Twins
  import opened Origins
  import opened Server
  import opened LazyReplay
  import Aliases
  import Cache
  import Lru

  /** The log of one whole run: any entry plugin, any starting context, any surroundings. */
  function RunLog(reg: Registry, entry: Tag, start: Ctx, tape: nat -> Choice): seq<Event>
    requires Ranked(reg)
  {
    Exec(reg, entry, start, World(tape, 0, []), 0, 0).w.log
  }

  /** `op` is the cache write at position `j` of a run's log, made at time `at`. */
  ghost predicate IsWrite(tag: Tag, p: Printer, lazyTtl: nat, op: Cache.Op, log: seq<Event>, j: nat, at: nat) {
    && j < |log| && log[j].Stored? && log[j].tag == tag
    && op == Cache.Put(Print(p, log[j].key), Cache.EntryFor(log[j].msg, at, lazyTtl))
  }

  ghost predicate StoredByRun(reg: Registry, tag: Tag, p: Printer, lazyTtl: nat, op: Cache.Op)
    requires Ranked(reg)
  {
    exists entry: Tag, start: Ctx, tape: nat -> Choice, j: nat, at: nat ::
      IsWrite(tag, p, lazyTtl, op, RunLog(reg, entry, start, tape), j, at)
  }

  /** Every store into the cache named `tag` was made by some run. */
  ghost predicate WrittenByRuns(reg: Registry, tag: Tag, p: Printer, lazyTtl: nat, ops: seq<Cache.Op>)
    requires Ranked(reg)
  {
    forall i | 0 <= i < |ops| && ops[i].Put? :: StoredByRun(reg, tag, p, lazyTtl, ops[i])
  }

  /** Where a cache entry came from: a sequence run took the step at `from`, meeting `met`, and ended
      in `end`; `msg` is what it wrote for the lookup it remembered there. */
  datatype Origin = Origin(from: Point, met: nat -> Choice, lookup: Lookup, end: Ctx, msg: Message)

  ghost predicate Source(reg: Registry, tag: Tag, everything: bool, key: Key, o: Origin)
    requires Ranked(reg)
  {
    && PointTakes(reg, o.from, tag)
    && Snapshot(o.from.at, everything, reg.encodes) == Some(o.lookup) && o.lookup.key == key
    && Resumed(reg, o.met, o.from).out.Done?
    && SameEnd(Resumed(reg, o.met, o.from).ctx, o.end)
    && !o.end.served
    && StoreLookup(o.end, o.lookup, reg.encodes) == Some(o.msg)
  }

  lemma StoredSource(reg: Registry, tag: Tag, everything: bool, met: nat -> Choice, log: seq<Event>, j: nat) returns (o: Origin)
    requires Ranked(reg) && tag in reg.plugins && reg.plugins[tag] == CacheStep(everything)
    requires j < |log| && log[j].Stored? && log[j].tag == tag && EarnedWrite(reg, log, j) && Resumes(reg, met, log)
    ensures Source(reg, tag, everything, log[j].key, o) && o.msg == log[j].msg
  {
    hide Resumed, SameEnd, StoreLookup, PointTakes, Snapshot;
    var i, n :| i < j < n && Earns(reg, log, i, n) && log[j] == Earned(reg, log, i, n)
                && WellLogged(reg, log[i]) && !log[n].at.served;
    assert LeadsToEnd(reg, met, log[i], log[n]);
    o := Origin(log[i].from, met, log[i].lookup, log[n].at, log[j].msg);
  }

  lemma HitWasPut(size: nat, ops: seq<Cache.Op>, text: string, now: nat, lazyTtl: nat) returns (j: nat, e: Cache.Entry)
    requires Cache.Served(Lru.Find(Cache.AfterOps(size, ops)[Cache.ShardOf(text)], text), now, lazyTtl).Some?
    ensures j < |ops| && ops[j] == Cache.Put(text, e)
    ensures Cache.Served(Lru.Find(Cache.AfterOps(size, ops)[Cache.ShardOf(text)], text), now, lazyTtl)
         == Cache.Served(Some(e), now, lazyTtl)
  {
    hide Cache.AfterOps, Cache.ShardOf, Cache.Served;
    Cache.HitIsLatestStore(size, ops, text, now, lazyTtl);
    j, e :| Cache.IsLatestStore(ops, text, e, j)
            && Cache.Served(Lru.Find(Cache.AfterOps(size, ops)[Cache.ShardOf(text)], text), now, lazyTtl)
            == Cache.Served(Some(e), now, lazyTtl);
  }

  lemma PutHasSource(reg: Registry, tag: Tag, everything: bool, p: Printer, lazyTtl: nat, op: Cache.Op, key: Key)
    returns (o: Origin, at: nat)
    requires Ranked(reg) && Faithful(p) && tag in reg.plugins && reg.plugins[tag] == CacheStep(everything)
    requires StoredByRun(reg, tag, p, lazyTtl, op) && op.Put? && op.key == Print(p, key)
    ensures Source(reg, tag, everything, key, o)
    ensures op.entry == Cache.EntryFor(o.msg, at, lazyTtl)
  {
    hide EarnedWrite, Resumes, Faithful, Print, Cache.EntryFor, Source, RunLog;
    var entry: Tag, start: Ctx, tape: nat -> Choice, j: nat, t: nat :|
      IsWrite(tag, p, lazyTtl, op, RunLog(reg, entry, start, tape), j, t);
    var log := RunLog(reg, entry, start, tape);
    RunWrites(reg, entry, start, tape, j);
    PrintInjective(p, log[j].key, key);
    at := t;
    o := StoredSource(reg, tag, everything, Met(tape, start.skipCache), log, j);
  }

  lemma RunWrites(reg: Registry, entry: Tag, start: Ctx, tape: nat -> Choice, j: nat)
    requires Ranked(reg)
    requires j < |RunLog(reg, entry, start, tape)| && RunLog(reg, entry, start, tape)[j].Stored?
    ensures EarnedWrite(reg, RunLog(reg, entry, start, tape), j)
    ensures Resumes(reg, Met(tape, start.skipCache), RunLog(reg, entry, start, tape))
  {
    hide EarnedWrite, Resumes;
    WritesAreEarned(reg, Unmarked, entry, start, World(tape, 0, []), 0, 0, j);
    RunResumes(reg, entry, start, tape);
  }

  /** What a lookup finds in a cache after a history of operations. */
  function Looked(size: nat, ops: seq<Cache.Op>, text: string, now: nat, lazyTtl: nat): Option<Cache.Found> {
    Cache.Served(Lru.Find(Cache.AfterOps(size, ops)[Cache.ShardOf(text)], text), now, lazyTtl)
  }

  /** A hit under a query's printed key was stored by a run under the very same key. */
  lemma HitHasSource(
    reg: Registry, tag: Tag, everything: bool, p: Printer, size: nat, lazyTtl: nat, ops: seq<Cache.Op>, key: Key, now: nat)
    returns (o: Origin, at: nat)
    requires Ranked(reg) && Faithful(p) && tag in reg.plugins && reg.plugins[tag] == CacheStep(everything)
    requires WrittenByRuns(reg, tag, p, lazyTtl, ops)
    requires Looked(size, ops, Print(p, key), now, lazyTtl).Some?
    ensures Source(reg, tag, everything, key, o)
    ensures Looked(size, ops, Print(p, key), now, lazyTtl) == Cache.Served(Some(Cache.EntryFor(o.msg, at, lazyTtl)), now, lazyTtl)
  {
    hide StoredByRun, Faithful, Print, Cache.ShardOf, Cache.AfterOps, Cache.EntryFor, Cache.Served, Source;
    var j, e := HitWasPut(size, ops, Print(p, key), now, lazyTtl);
    o, at := PutHasSource(reg, tag, everything, p, lazyTtl, ops[j], key);
  }

  lemma SourceKey(reg: Registry, tag: Tag, everything: bool, key: Key, o: Origin)
    requires Ranked(reg) && Source(reg, tag, everything, key, o)
    ensures KeyOf(o.lookup.query, everything, reg.encodes) == Some(key)
    ensures o.lookup.rewriteStart == |o.from.at.rewrites|
  {
  }

  // ---------- A request and its replies ----------

  datatype Request = Request(entry: Tag, query: Message, client: Option<IpAddr>)

  function LogOf(reg: Registry, rq: Request, tape: nat -> Choice): seq<Event>
    requires Ranked(reg)
  {
    RequestLog(reg, rq.entry, rq.query, rq.client, tape)
  }

  /** What is sent to the client, with lookups off or on. */
  function ReplyOf(reg: Registry, rq: Request, skip: bool, tape: nat -> Choice): Option<Message>
    requires Ranked(reg)
  {
    HandleQuery(reg, rq.entry, As(skip, New(rq.query, rq.client)), World(tape, 0, [])).ctx.response
  }

  /** The lookup that the entry sequence remembered at `i` is the request's first hit, at `h`. */
  ghost predicate HitsAt(reg: Registry, rq: Request, tape: nat -> Choice, tag: Tag, i: nat, h: nat)
    requires Ranked(reg)
  {
    var log := LogOf(reg, rq, tape);
    && FirstHit(log, h) && i < h
    && log[i].Snapped? && log[i].run == 0 && log[i].tag == tag
    && log[h].pos == log[i].from.pos + 1
  }

  /** The surroundings hold `m` for the lookup at `from`. */
  predicate Held(tape: nat -> Choice, from: Point, m: Message) {
    !tape(from.pos).cancel && tape(from.pos).hit.Some? && tape(from.pos).hit.value.msg == m
  }

  /** The context a hit leaves behind. */
  function HitReply(d: Ctx, m: Message): Ctx { Apply(d, ServeHit(m)) }

  /** Nothing runs after a hit on `m`: the step jumped to the cache, or the next step accepts. */
  predicate HitEnds(reg: Registry, tag: Tag, from: Point, m: Message)
    requires PointTakes(reg, from, tag)
  {
    var steps := reg.plugins[from.tag].steps;
    || steps[from.step].exec.Run?
    || (from.step + 1 < |steps| && steps[from.step + 1].exec == Run(DoAccept)
        && MatchesAll(steps[from.step + 1].matchers, HitReply(from.at, m)))
  }

  /** The client at its lookup: sound, of this request, with the key it looks up. */
  lemma PointIsSound(reg: Registry, rq: Request, tape: nat -> Choice, tag: Tag, i: nat)
    requires Ranked(reg) && i < |LogOf(reg, rq, tape)| && LogOf(reg, rq, tape)[i].Snapped? && LogOf(reg, rq, tape)[i].tag == tag
    ensures var e := LogOf(reg, rq, tape)[i];
            && PointTakes(reg, e.from, tag) && tag in reg.plugins && reg.plugins[tag].CacheStep?
            && Inv(e.from.at) && e.from.at.original == rq.query && !e.from.at.skipCache
            && Snapshot(e.from.at, reg.plugins[tag].everything, reg.encodes) == Some(e.lookup)
            && KeyOf(e.from.at.query, reg.plugins[tag].everything, reg.encodes) == Some(e.lookup.key)
  {
    hide Ranked, Exec, Inv, KeyOf, Clean, MatchesAll;
    var log := LogOf(reg, rq, tape);
    assert LoggedContext(log[i]) == Some(log[i].from.at);
    RequestsStartSound(rq.query, rq.client, reg, rq.entry, tape);
    NothingIsClean(reg, Unmarked);
    ExecClean(reg, Unmarked, rq.entry, BeginPipeline(New(rq.query, rq.client), rq.entry), World(tape, 0, []), 0, 0);
    CleanEvent(reg, log, i);
  }

  lemma CleanEvent(reg: Registry, log: seq<Event>, h: nat)
    requires Clean(reg, Unmarked, log) && h < |log|
    ensures WellLogged(reg, log[h])
  {
  }

  lemma SentSame(c: Ctx, d: Ctx)
    requires SameEnd(c, d) && c.original == d.original
    ensures Sent(c).response == Sent(d).response
  {
    hide WithAliases, Rebind;
  }

  /** A run's context keeps the client's own message. */
  lemma OriginalStays(reg: Registry, rq: Request, skip: bool, tape: nat -> Choice)
    requires Ranked(reg)
    ensures var s := As(skip, BeginPipeline(New(rq.query, rq.client), rq.entry));
            Exec(reg, rq.entry, s, World(tape, 0, []), 0, 0).ctx.original == rq.query
  {
    var s := As(skip, BeginPipeline(New(rq.query, rq.client), rq.entry));
    NewIsSound(rq.query, rq.client);
    BeginKeepsInv(New(rq.query, rq.client), rq.entry);
    assert Inv(s);
    hide Ranked, Exec, Inv;
    RunKeepsContext(reg, rq.entry, s, World(tape, 0, []), 0, 0);
  }

  /** If the entry sequence remembers a lookup, the request's reply is that of the rest of that
      sequence, unless it fails or is dropped. */
  lemma ReplyOfRest(reg: Registry, rq: Request, skip: bool, tape: nat -> Choice, i: nat, e: Event)
    requires Ranked(reg) && rq.entry in reg.plugins && ClassifyIncoming(rq.query) == Accepted
    requires var log := Exec(reg, rq.entry, As(skip, BeginPipeline(New(rq.query, rq.client), rq.entry)), World(tape, 0, []), 0, 0).w.log;
             i < |log| && log[i] == e && e.Snapped? && e.run == 0
    requires PointTakes(reg, e.from, e.tag)
    requires Resumed(reg, Met(tape, skip), e.from).out.Done?
    requires Resumed(reg, Met(tape, skip), e.from).ctx.original == rq.query
    ensures ReplyOf(reg, rq, skip, tape) == Sent(Resumed(reg, Met(tape, skip), e.from).ctx).response
  {
    hide Ranked, Exec, Sent, SameEnd, Resumed;
    var s := As(skip, BeginPipeline(New(rq.query, rq.client), rq.entry));
    EntryLeads(reg, rq.entry, s, tape, i);
    OriginalStays(reg, rq, skip, tape);
    var r := Exec(reg, rq.entry, s, World(tape, 0, []), 0, 0);
    assert BeginPipeline(As(skip, New(rq.query, rq.client)), rq.entry) == s;
    assert ReplyOf(reg, rq, skip, tape) == Sent(r.ctx).response;
    SentSame(Resumed(reg, Met(tape, skip), e.from).ctx, r.ctx);
  }

  /** Where the hit ends the run, the rest of the sequence is the hit. */
  lemma HitRunEnds(reg: Registry, tag: Tag, from: Point, m: Message, met: nat -> Choice)
    requires Ranked(reg) && PointTakes(reg, from, tag) && tag in reg.plugins && reg.plugins[tag].CacheStep?
    requires KeyOf(from.at.query, reg.plugins[tag].everything, reg.encodes).Some?
    requires Held(met, from, m) && HitEnds(reg, tag, from, m)
    ensures Resumed(reg, met, from).out.Done? && Resumed(reg, met, from).ctx == HitReply(from.at, m)
  {
    hide Ranked, HitReply, KeyOf, StoreEvents, MatchesAll, Apply;
    var steps, c, i := reg.plugins[from.tag].steps, from.at, from.step;
    var w := World(met, from.pos, []);
    var w1 := Note(w, StepTaken(0, i, 0));
    StepDescends(reg, from.tag, i);
    var snap := SnapshotAt(reg, tag, c);
    var w2 := NoteSnap(w1, 0, tag, snap, Here(from.tag, i, c, w1));
    CacheHits(reg, tag, c, m, w2, 1, 0);
    var x := Exec(reg, tag, c, w2, 1, 0);
    var writes := AddWrite([], tag, snap);
    var r := Resumed(reg, met, from);
    if steps[i].exec.Run? {
      var b := steps[i].exec.b;
      assert b == DoGoto(tag) && AfterBuiltin(b, c) == c && ActionOf(b) == Ok(Goto(tag));
      assert r == AfterAction(reg, from.tag, 0, i, b, c, [], w1, 0, 0);
      assert r == Jump(reg, from.tag, 0, Here(from.tag, i, c, w1), tag, c, [], w1, 0, 0);
      assert r == End(reg, 0, Continue, x.ctx, writes, x.w);
    } else {
      assert r == RunSteps(reg, from.tag, 0, i + 1, x.ctx, writes, x.w, 0, 0);
      var w3 := Note(x.w, StepTaken(0, i + 1, 0));
      assert AfterBuiltin(DoAccept, x.ctx) == x.ctx && ActionOf(DoAccept) == Ok(Accept);
      assert r == AfterAction(reg, from.tag, 0, i + 1, DoAccept, x.ctx, writes, w3, 0, 0);
      assert r == End(reg, 0, Accept, x.ctx, writes, Note(w3, AcceptTaken(0)));
    }
  }

  lemma CacheHits(reg: Registry, tag: Tag, c: Ctx, m: Message, w: World, nest: nat, level: nat)
    requires Ranked(reg) && tag in reg.plugins && reg.plugins[tag].CacheStep? && !c.skipCache
    requires KeyOf(c.query, reg.plugins[tag].everything, reg.encodes).Some?
    requires !Next(w).cancel && Next(w).hit.Some? && Next(w).hit.value.msg == m
    ensures var x := Exec(reg, tag, c, w, nest, level); x.out == Done(Continue) && x.ctx == HitReply(c, m)
  {
    hide Ranked, KeyOf, Apply;
  }

  /** What the client that takes the hit is sent. */
  lemma HitReplyIs(reg: Registry, rq: Request, tape: nat -> Choice, tag: Tag, i: nat, h: nat, m: Message)
    requires Ranked(reg) && HitsAt(reg, rq, tape, tag, i, h)
    requires Held(tape, LogOf(reg, rq, tape)[i].from, m)
    requires PointTakes(reg, LogOf(reg, rq, tape)[i].from, tag) && HitEnds(reg, tag, LogOf(reg, rq, tape)[i].from, m)
    ensures ReplyOf(reg, rq, false, tape) == Sent(HitReply(LogOf(reg, rq, tape)[i].from.at, m)).response
  {
    hide Ranked, Exec, Sent, Inv, KeyOf, HitEnds, Resumed, PointTakes, BeginPipeline;
    var e := LogOf(reg, rq, tape)[i];
    PointIsSound(reg, rq, tape, tag, i);
    assert Held(Met(tape, false), e.from, m);
    HitRunEnds(reg, tag, e.from, m, Met(tape, false));
    HitFrame(e.from.at, m);
    LogIsExec(reg, rq, tape, i);
    hide HitReply;
    ReplyOfRest(reg, rq, false, tape, i, e);
  }

  lemma HitFrame(d: Ctx, m: Message)
    ensures HitReply(d, m).original == d.original && HitReply(d, m).stripEcs == d.stripEcs
  {
  }

  /** A request that logs anything was accepted and ran its entry. */
  lemma LogIsExec(reg: Registry, rq: Request, tape: nat -> Choice, i: nat)
    requires Ranked(reg) && i < |LogOf(reg, rq, tape)|
    ensures rq.entry in reg.plugins && ClassifyIncoming(rq.query) == Accepted
    ensures var s := BeginPipeline(New(rq.query, rq.client), rq.entry);
            LogOf(reg, rq, tape) == Exec(reg, rq.entry, s, World(tape, 0, []), 0, 0).w.log && As(false, s) == s
  {
    hide Ranked, Exec;
  }

  // ---------- The client's own run ----------

  /** The client at its lookup and the storing run at its own: what is left of their sequences is the
      same steps, they agree on what those read, and upstreams treat them alike. */
  ghost predicate Agrees(reg: Registry, area: set<Tag>, k: Likeness, o: Origin, from: Point) {
    && o.from.tag in reg.plugins && reg.plugins[o.from.tag].Sequence? && o.from.step <= |reg.plugins[o.from.tag].steps|
    && from.tag in reg.plugins && reg.plugins[from.tag].Sequence? && from.step <= |reg.plugins[from.tag].steps|
    && reg.plugins[o.from.tag].steps[o.from.step..] == reg.plugins[from.tag].steps[from.step..]
    && Twin(k, o.from.at, from.at, |o.from.at.rewrites|, |from.at.rewrites|)
    && RestUnseen(reg, area, reg.plugins[o.from.tag].steps, o.from.step, o.from.at, from.at)
    && Impartial(k, o.met)
  }

  /** `u` is the client's surroundings up to its lookup, and from there on offers what the storing run
      met from its lookup on. */
  ghost predicate OwnTape(o: Origin, from: Point, tape: nat -> Choice, skip: bool, u: nat -> Choice) {
    && Agree(tape, skip, u, from.pos + 1)
    && SameSurroundings(World(o.met, o.from.pos, []), false, World(u, from.pos, []), skip)
  }

  /** The request without the hit reaches the same lookup in the same context. */
  lemma OwnRunReaches(reg: Registry, rq: Request, tape: nat -> Choice, tag: Tag, i: nat, h: nat, skip: bool, u: nat -> Choice)
    requires Ranked(reg) && HitsAt(reg, rq, tape, tag, i, h)
    requires Agree(tape, skip, u, LogOf(reg, rq, tape)[i].from.pos + 1)
    ensures var s := BeginPipeline(New(rq.query, rq.client), rq.entry);
            var own := Exec(reg, rq.entry, As(skip, s), World(u, 0, []), 0, 0).w.log;
            i < |own| && own[i] == LogOf(reg, rq, tape)[i]
  {
    hide Ranked, Exec;
    LogIsExec(reg, rq, tape, i);
    var s := BeginPipeline(New(rq.query, rq.client), rq.entry);
    var fore := LogOf(reg, rq, tape);
    var w := World(tape, 0, []);
    ExecLockstep(reg, fore[h].pos, skip, u, rq.entry, s, w, 0, 0);
    assert On(u, w) == World(u, 0, []);
    var own := Exec(reg, rq.entry, As(skip, s), World(u, 0, []), 0, 0).w.log;
    assert Diverged(0, fore, own);
    var h' :| DivergesAt(0, fore, own, h');
    assert h' == h;
    assert own[i] == fore[..h][i];
  }

  /** There are such surroundings: the client's own before its lookup, the storing run's from there. */
  lemma OwnTapeExists(o: Origin, from: Point, tape: nat -> Choice) returns (u: nat -> Choice)
    requires !tape(from.pos).cancel && !o.met(o.from.pos).cancel && o.met(o.from.pos).hit.None?
    ensures OwnTape(o, from, tape, false, u)
  {
    u := (n: nat) => if n < from.pos then tape(n) else o.met(o.from.pos + n - from.pos);
    forall n: nat ensures SameChoice(Ahead(World(o.met, o.from.pos, []), n), false, Ahead(World(u, from.pos, []), n), false) {
      assert Ahead(World(u, from.pos, []), n) == o.met(o.from.pos + n);
    }
  }

  lemma MetSame(o: Origin, from: Point, skip: bool, u: nat -> Choice)
    requires SameSurroundings(World(o.met, o.from.pos, []), false, World(u, from.pos, []), skip)
    ensures SameSurroundings(World(o.met, o.from.pos, []), false, World(Met(u, skip), from.pos, []), false)
  {
    forall n: nat ensures SameChoice(Ahead(World(o.met, o.from.pos, []), n), false, Ahead(World(Met(u, skip), from.pos, []), n), false) {
      assert SameChoice(Ahead(World(o.met, o.from.pos, []), n), false, Ahead(World(u, from.pos, []), n), skip);
    }
  }

  /** The rest of the client's sequence, in those surroundings, ends as the storing run ended: with a
      like reply, and the client's rewrites followed by like later ones. */
  lemma OwnRunEndsAlike(
    reg: Registry, area: set<Tag>, k: Likeness, tag: Tag, everything: bool, key: Key, o: Origin, from: Point, skip: bool,
    u: nat -> Choice)
    requires Ranked(reg) && Source(reg, tag, everything, key, o)
    requires PointTakes(reg, from, tag) && Inv(from.at) && Agrees(reg, area, k, o, from)
    requires SameSurroundings(World(o.met, o.from.pos, []), false, World(u, from.pos, []), skip)
    ensures var y := Resumed(reg, Met(u, skip), from);
            && y.out.Done? && y.ctx.original == from.at.original
            && SameReply(k, o.end.response, y.ctx.response)
            && from.at.rewrites <= y.ctx.rewrites
            && SameLinks(k, From(o.end.rewrites, o.lookup.rewriteStart), y.ctx.rewrites[|from.at.rewrites|..])
            && y.ctx.stripEcs == o.end.stripEcs
            && (from.at.stripEcs ==> y.ctx.stripEcs)
  {
    var x, y := Resumed(reg, o.met, o.from), Resumed(reg, Met(u, skip), from);
    var n, m := |o.from.at.rewrites|, |from.at.rewrites|;
    SourceKey(reg, tag, everything, key, o);
    MetSame(o, from, skip, u);
    hide RunSteps, Inv, StoreLookup, SameQuery, SameReply, SameLinks, MatchesAll, Impartial, RestUnseen, SameSurroundings, KeyOf;
    RunStepsTwins(k, area, reg, o.from.tag, from.tag, 0, 0, o.from.step, from.step, o.from.at, from.at, n, m, [], [],
                  World(o.met, o.from.pos, []), World(Met(u, skip), from.pos, []), 0, 0, 0, 0);
    RestKeepsContext(reg, from.tag, 0, from.step, from.at, [], World(Met(u, skip), from.pos, []), 0, 0);
  }

  /** What the client is sent in its own surroundings. */
  lemma OwnReplyIs(
    reg: Registry, area: set<Tag>, k: Likeness, tag: Tag, everything: bool, key: Key, o: Origin, rq: Request,
    tape: nat -> Choice, i: nat, h: nat, skip: bool, u: nat -> Choice)
    requires Ranked(reg) && Source(reg, tag, everything, key, o) && HitsAt(reg, rq, tape, tag, i, h)
    requires Agrees(reg, area, k, o, LogOf(reg, rq, tape)[i].from) && OwnTape(o, LogOf(reg, rq, tape)[i].from, tape, skip, u)
    requires PointTakes(reg, LogOf(reg, rq, tape)[i].from, tag)
    ensures ReplyOf(reg, rq, skip, u) == Sent(Resumed(reg, Met(u, skip), LogOf(reg, rq, tape)[i].from).ctx).response
  {
    hide Ranked, Exec, Sent, Inv, KeyOf, Resumed, PointTakes, BeginPipeline, Source, Agrees, Agree, SameSurroundings, SameReply;
    var e := LogOf(reg, rq, tape)[i];
    PointIsSound(reg, rq, tape, tag, i);
    LogIsExec(reg, rq, tape, i);
    OwnRunReaches(reg, rq, tape, tag, i, h, skip, u);
    OwnRunEndsAlike(reg, area, k, tag, everything, key, o, e.from, skip, u);
    ReplyOfRest(reg, rq, skip, u, i, e);
  }

  // ---------- Replies up to the case of names ----------

  lemma FoldedAlias(r: Record, q: Record, s: Link, t: Link)
    requires FoldRecord(r) == FoldRecord(q) && Aliases.SameLink(s, t)
    ensures IsAlias(r, s) <==> IsAlias(q, t)
  {
    assert FoldRecord(r).name == FoldName(r.name) && FoldRecord(q).name == FoldName(q.name);
    assert SameName(r.name, q.name);
    if r.data.CNAME? && q.data.CNAME? {
      assert FoldRecord(r).data.target == FoldName(r.data.target) && FoldRecord(q).data.target == FoldName(q.data.target);
      assert SameName(r.data.target, q.data.target);
    }
  }

  lemma FoldedPresence(a: seq<Record>, b: seq<Record>, s: Link, t: Link)
    requires FoldRecords(a) == FoldRecords(b) && Aliases.SameLink(s, t)
    ensures Present(a, s) <==> Present(b, t)
  {
    FoldedReads(a, b);
    forall i | 0 <= i < |a| ensures IsAlias(a[i], s) <==> IsAlias(b[i], t) {
      FoldedAlias(a[i], b[i], s, t);
    }
  }

  lemma FoldJoins(a: seq<Record>, b: seq<Record>)
    ensures FoldRecords(a + b) == FoldRecords(a) + FoldRecords(b)
  {
  }

  lemma {:induction false} FoldedAliases(
    k: Likeness, s: seq<Link>, t: seq<Link>, a: seq<Record>, b: seq<Record>, ttl: u32, rclass: u16)
    requires SameLinks(k, s, t) && FoldRecords(a) == FoldRecords(b)
    ensures FoldRecords(MissingAliases(s, a, ttl, rclass)) == FoldRecords(MissingAliases(t, b, ttl, rclass))
  {
    if s != [] {
      assert SameLinks(k, s[1..], t[1..]);
      FoldedAliases(k, s[1..], t[1..], a, b, ttl, rclass);
      assert NameAs(k, s[0].0, t[0].0) && s[0].1 == t[0].1;
      FoldedPresence(a, b, s[0], t[0]);
      var u, v := AliasRecord(s[0], ttl, rclass), AliasRecord(t[0], ttl, rclass);
      var x, y := MissingAliases(s[1..], a, ttl, rclass), MissingAliases(t[1..], b, ttl, rclass);
      assert FoldRecord(u) == FoldRecord(v);
      hide FoldRecord, Present, AliasRecord;
      FoldJoins([u], x);
      FoldJoins([v], y);
      assert FoldRecords([u]) == [FoldRecord(u)] && FoldRecords([v]) == [FoldRecord(v)];
      assert [] + x == x && [] + y == y;
    } else {
      assert t == [];
    }
  }

  lemma LinksAfter(k: Likeness, p: seq<Link>, s: seq<Link>, t: seq<Link>)
    requires SameLinks(k, s, t)
    ensures SameLinks(k, p + s, p + t)
  {
  }

  lemma StrictLinks(k: Likeness, s: seq<Link>, t: seq<Link>)
    requires SameLinks(k, s, t) && !(k.Alike? && k.fold)
    ensures s == t
  {
    forall i | 0 <= i < |s| ensures s[i] == t[i] {
      assert NameAs(k, s[i].0, t[i].0) && s[i].1 == t[i].1;
    }
  }

  lemma {:induction false} LeastOfSame(a: seq<Record>, b: seq<Record>)
    requires a != [] && |a| == |b| && forall i | 0 <= i < |a| :: a[i].ttl == b[i].ttl
    ensures LeastTtl(a) == LeastTtl(b)
  {
    if |a| > 1 { LeastOfSame(a[1..], b[1..]); }
  }

  lemma FoldedMinTtl(m: Message, n: Message)
    requires FoldRecords(m.answers) == FoldRecords(n.answers) && FoldRecords(m.nameServers) == FoldRecords(n.nameServers)
    ensures MinTtl(m) == MinTtl(n)
  {
    FoldedReads(m.answers, n.answers);
    FoldedReads(m.nameServers, n.nameServers);
    if Timed(m) != [] { LeastOfSame(Timed(m), Timed(n)); }
  }

  lemma FoldedWith(k: Likeness, m: Message, links: seq<Link>, rclass: u16)
    requires k.Alike? && k.fold
    ensures var w, f := WithAliases(m, links, rclass), Fold(k, m);
            Fold(k, w) == if links != [] && (f.rcode == NO_ERROR || f.rcode == NX_DOMAIN)
                          then f.(answers := FoldRecords(MissingAliases(links, m.answers, MinTtl(m), rclass) + m.answers),
                                  authenticData := false)
                          else f
  {
    hide FoldRecords, MissingAliases, MinTtl;
  }

  /** Like replies with like rewrites make like replies, up to case. */
  lemma FoldedReply(k: Likeness, m: Message, n: Message, s: seq<Link>, t: seq<Link>, rclass: u16)
    requires SameLinks(k, s, t) && Fold(k, m) == Fold(k, n) && m.edns == n.edns
    ensures Fold(k, WithAliases(m, s, rclass)) == Fold(k, WithAliases(n, t, rclass))
    ensures WithAliases(m, s, rclass).edns == WithAliases(n, t, rclass).edns
  {
    if k.Alike? && k.fold {
      var f, g := Fold(k, m), Fold(k, n);
      assert f.answers == FoldRecords(m.answers) && g.answers == FoldRecords(n.answers);
      assert f.nameServers == FoldRecords(m.nameServers) && g.nameServers == FoldRecords(n.nameServers);
      assert f.rcode == m.rcode && g.rcode == n.rcode;
      FoldedMinTtl(m, n);
      FoldedAliases(k, s, t, m.answers, n.answers, MinTtl(m), rclass);
      FoldJoins(MissingAliases(s, m.answers, MinTtl(m), rclass), m.answers);
      FoldJoins(MissingAliases(t, n.answers, MinTtl(n), rclass), n.answers);
      FoldedWith(k, m, s, rclass);
      FoldedWith(k, n, t, rclass);
      hide MissingAliases, MinTtl, FoldRecords;
    } else {
      StrictLinks(k, s, t);
    }
  }

  /** The client's own run, finalised, is the storing run's reply continued for it. */
  lemma OwnFinal(
    reg: Registry, area: set<Tag>, k: Likeness, tag: Tag, everything: bool, key: Key, o: Origin, from: Point, skip: bool,
    u: nat -> Choice)
    requires Ranked(reg) && Source(reg, tag, everything, key, o)
    requires PointTakes(reg, from, tag) && Inv(from.at) && Agrees(reg, area, k, o, from)
    requires SameSurroundings(World(o.met, o.from.pos, []), false, World(u, from.pos, []), skip)
    ensures var y, d := Resumed(reg, Met(u, skip), from).ctx, from.at;
            && FinalizeResponse(y).response.Some? && FinalizeResponse(Uncached(o.end, o.lookup, d)).response.Some?
            && Fold(k, FinalizeResponse(y).response.value) == Fold(k, FinalizeResponse(Uncached(o.end, o.lookup, d)).response.value)
            && FinalizeResponse(y).response.value.edns == FinalizeResponse(Uncached(o.end, o.lookup, d)).response.value.edns
            && y.stripEcs == o.end.stripEcs && (d.stripEcs ==> y.stripEcs)
  {
    StoredShape(o.end, o.lookup, reg.encodes);
    OwnRunEndsAlike(reg, area, k, tag, everything, key, o, from, skip, u);
    hide Source, Agrees, SameSurroundings, Inv, PointTakes, Resumed, StoreLookup, SameReply, SameLinks, FinalizeResponse, Fold;
    LikeFinal(k, o.end, o.lookup, from.at, Resumed(reg, Met(u, skip), from).ctx);
  }

  /** Like replies with like later rewrites finalise alike. */
  lemma LikeFinal(k: Likeness, c: Ctx, lookup: Lookup, d: Ctx, y: Ctx)
    requires c.response.Some? && Timed(c.response.value) != [] && SameReply(k, c.response, y.response)
    requires y.original == d.original && d.rewrites <= y.rewrites
    requires SameLinks(k, From(c.rewrites, lookup.rewriteStart), y.rewrites[|d.rewrites|..])
    ensures FinalizeResponse(y).response.Some? && FinalizeResponse(Uncached(c, lookup, d)).response.Some?
    ensures Fold(k, FinalizeResponse(y).response.value) == Fold(k, FinalizeResponse(Uncached(c, lookup, d)).response.value)
    ensures FinalizeResponse(y).response.value.edns == FinalizeResponse(Uncached(c, lookup, d)).response.value.edns
  {
    LikeSome(k, c.response, y.response);
    hide SameLinks, Rebind, WithAliases, Timed, Fold;
    RebindLike(k, c.response.value, y.response.value, d.original);
    hide SameReply;
    var n := |d.rewrites|;
    var suffix := From(c.rewrites, lookup.rewriteStart);
    assert y.rewrites == d.rewrites + y.rewrites[n..];
    LinksAfter(k, d.rewrites, suffix, y.rewrites[n..]);
    FoldedReply(k, Rebind(c.response.value, d.original), Rebind(y.response.value, d.original), d.rewrites + suffix, y.rewrites, AliasClass(d.original));
    assert From(d.rewrites + suffix, 0) == d.rewrites + suffix && From(y.rewrites, 0) == y.rewrites;
  }

  lemma LikeSome(k: Likeness, a: Option<Message>, b: Option<Message>)
    requires SameReply(k, a, b) && a.Some?
    ensures b.Some?
  {
  }

  // ---------- What is sent ----------

  lemma RemoveKeepsNone(m: Message)
    requires EcsOf(m).None?
    ensures RemoveEcs(m) == m
  {
    if m.edns.Some? { NothingToRemove(m.edns.value.options); }
  }

  lemma {:induction false} NothingToRemove(options: seq<EdnsOption>)
    requires FirstSubnet(options).None?
    ensures WithoutSubnet(options) == options
  {
    if options != [] { NothingToRemove(options[1..]); }
  }

  function Stripped(strip: bool, m: Message): Message { if strip then RemoveEcs(m) else m }

  /** `fx` and `fy` before stripping: after it they differ only if `fy` alone loses a subnet. */
  lemma StripAlike(fx: Message, fy: Message, xStrips: bool, yStrips: bool)
    requires fx.edns == fy.edns && (xStrips ==> yStrips)
    ensures Stripped(xStrips, fx) == Stripped(yStrips, fy) <==> fx == fy && (yStrips && !xStrips ==> EcsOf(fy).None?)
  {
    RemoveIsExact(fx);
    RemoveIsExact(fy);
    RemoveSame(fx, fy);
    if EcsOf(fy).None? { RemoveKeepsNone(fy); }
    hide RemoveEcs, EcsOf;
    assert fx == RemoveEcs(fx).(edns := fx.edns) && fy == RemoveEcs(fy).(edns := fy.edns);
    if xStrips && RemoveEcs(fx) == RemoveEcs(fy) {
      assert fx == fy;
    }
    if !xStrips && yStrips && fx == RemoveEcs(fy) {
      assert fx == fy;
    }
  }

  /** Stripping changes EDNS only, and leaves no subnet. */
  lemma RemoveIsExact(m: Message)
    ensures RemoveEcs(m).(edns := m.edns) == m
    ensures EcsOf(RemoveEcs(m)).None?
  {
  }

  lemma RemoveSame(a: Message, b: Message)
    requires a.edns == b.edns
    ensures RemoveEcs(a).edns == RemoveEcs(b).edns && EcsOf(a) == EcsOf(b)
  {
  }

  lemma SentIs(c: Ctx)
    requires FinalizeResponse(c).response.Some?
    ensures Sent(c).response == Some(Stripped(c.stripEcs, FinalizeResponse(c).response.value))
  {
    hide ResponseForQuery;
  }

  /** Ageing, re-timing and folding leave EDNS alone, and so commute with stripping. */
  ghost predicate Timing(k: Likeness, f: Message -> Message) {
    forall m: Message :: f(RemoveEcs(m)) == RemoveEcs(f(m)) && f(m).edns == m.edns && Fold(k, f(m)) == f(Fold(k, m))
  }

  lemma FoldRemoves(k: Likeness, m: Message)
    ensures Fold(k, RemoveEcs(m)) == RemoveEcs(Fold(k, m)) && Fold(k, m).edns == m.edns
  {
  }

  lemma FoldAges(rs: seq<Record>, e: u32)
    ensures FoldRecords(AgedRecords(rs, e)) == AgedRecords(FoldRecords(rs), e)
    ensures FoldRecords(RetimedRecords(rs, e)) == RetimedRecords(FoldRecords(rs), e)
  {
  }

  lemma AgeingIsTiming(k: Likeness, e: u32)
    ensures Timing(k, (m: Message) => Aged(m, e)) && Timing(k, (m: Message) => Retimed(m, e))
  {
    forall m: Message
      ensures Aged(RemoveEcs(m), e) == RemoveEcs(Aged(m, e)) && Aged(m, e).edns == m.edns
      ensures Retimed(RemoveEcs(m), e) == RemoveEcs(Retimed(m, e)) && Retimed(m, e).edns == m.edns
    {
    }
    forall m: Message ensures Fold(k, Aged(m, e)) == Aged(Fold(k, m), e) && Fold(k, Retimed(m, e)) == Retimed(Fold(k, m), e) {
      FoldAges(m.answers, e);
      FoldAges(m.nameServers, e);
      FoldAges(m.additionals, e);
      hide FoldRecords, AgedRecords, RetimedRecords;
    }
  }

  lemma FinishedEdns(m: Message, original: Message, links: seq<Link>)
    ensures Aliases.Finished(m, original, links).edns == RebindEdns(m.edns, original.edns)
  {
    hide MissingAliases, MinTtl;
  }

  lemma EdnsThroughCache(r: Option<Edns>, lookup: Option<Edns>, query: Option<Edns>, original: Option<Edns>)
    requires original.Some? ==> lookup.Some? && query.Some?
    ensures RebindEdns(RebindEdns(RebindEdns(r, lookup), query), original) == RebindEdns(r, original)
  {
  }

  lemma ClientKeepsEdns(d: Ctx)
    requires Inv(d)
    ensures d.original.edns.Some? ==> d.query.edns.Some?
  {
  }

  lemma SubnetThroughRebind(r: Message, m: Message, lookup: Message, original: Message, fin: Message)
    requires m.edns == RebindEdns(r.edns, lookup.edns) && fin.edns == RebindEdns(r.edns, original.edns)
    requires original.edns.Some? ==> lookup.edns.Some?
    ensures EcsOf(fin).Some? <==> original.edns.Some? && EcsOf(m).Some?
  {
  }

  /** Hit and own run agree on EDNS before stripping, and show a subnet exactly when the entry has one
      and the client has EDNS. */
  lemma HitEdns(c: Ctx, lookup: Lookup, d: Ctx, everything: bool, encodes: Encoder, m: Message)
    requires Inv(d) && StoreLookup(c, lookup, encodes).Some?
    requires KeyOf(lookup.query, everything, encodes) == Some(lookup.key)
    requires KeyOf(d.query, everything, encodes) == Some(lookup.key)
    requires m.edns == StoreLookup(c, lookup, encodes).value.edns
    ensures c.response.Some? && FinalizeResponse(Uncached(c, lookup, d)).response.Some?
    ensures FinalizeResponse(HitReply(d, m)).response.Some?
    ensures FinalizeResponse(HitReply(d, m)).response.value.edns
         == FinalizeResponse(Uncached(c, lookup, d)).response.value.edns
    ensures EcsOf(FinalizeResponse(Uncached(c, lookup, d)).response.value).Some?
       <==> d.original.edns.Some? && EcsOf(StoreLookup(c, lookup, encodes).value).Some?
  {
    SameKeyAgrees(lookup.query, d.query, everything, encodes);
    StoredShape(c, lookup, encodes);
    FinalizedHit(d, m);
    FinalizedUncached(c, lookup, d);
    ClientKeepsEdns(d);
    hide Inv, KeyOf, StoreLookup, FinalizeResponse, HitReply, MissingAliases, MinTtl, Aliases.Finished, Uncached, RebindEdns, EcsOf;
    var suffix := From(c.rewrites, lookup.rewriteStart);
    var r := c.response.value;
    FinishedEdns(r, lookup.query, suffix);
    assert m.edns == RebindEdns(r.edns, lookup.query.edns);
    FinishedEdns(Rebind(m, d.query), d.original, d.rewrites);
    FinishedEdns(r, d.original, d.rewrites + suffix);
    EdnsThroughCache(r.edns, lookup.query.edns, d.query.edns, d.original.edns);
    SubnetThroughRebind(r, StoreLookup(c, lookup, encodes).value, lookup.query, d.original,
                        FinalizeResponse(Uncached(c, lookup, d)).response.value);
  }

  /** The storing run had a subnet to strip that the client's hit leaves in: known at the hit. */
  predicate StripsMore(o: Origin, d: Ctx) {
    o.end.stripEcs && !d.stripEcs && d.original.edns.Some? && EcsOf(o.msg).Some?
  }

  /** From finalised replies to sent ones. */
  lemma SentAlike(
    reg: Registry, area: set<Tag>, k: Likeness, tag: Tag, everything: bool, key: Key, o: Origin, from: Point, skip: bool,
    u: nat -> Choice, m: Message, f: Message -> Message)
    requires Ranked(reg) && Source(reg, tag, everything, key, o)
    requires PointTakes(reg, from, tag) && Inv(from.at) && Agrees(reg, area, k, o, from)
    requires KeyOf(from.at.query, everything, reg.encodes) == Some(key)
    requires SameSurroundings(World(o.met, o.from.pos, []), false, World(u, from.pos, []), skip)
    requires m.edns == o.msg.edns && Timing(k, f)
    ensures FinalizeResponse(HitReply(from.at, m)).response.Some?
    ensures FinalizeResponse(Uncached(o.end, o.lookup, from.at)).response.Some?
    ensures var hit, own := Sent(HitReply(from.at, m)).response, Sent(Resumed(reg, Met(u, skip), from).ctx).response;
            && hit.Some? && own.Some?
            && (Fold(k, hit.value) == Fold(k, f(own.value))
                <==> Fold(k, FinalizeResponse(HitReply(from.at, m)).response.value)
                     == Fold(k, f(FinalizeResponse(Uncached(o.end, o.lookup, from.at)).response.value))
                     && !StripsMore(o, from.at))
  {
    var d, y := from.at, Resumed(reg, Met(u, skip), from).ctx;
    SourceKey(reg, tag, everything, key, o);
    OwnFinal(reg, area, k, tag, everything, key, o, from, skip, u);
    HitEdns(o.end, o.lookup, d, everything, reg.encodes, m);
    HitFrame(d, m);
    SentIs(HitReply(d, m));
    SentIs(y);
    hide Source, Agrees, SameSurroundings, Inv, PointTakes, Resumed, StoreLookup, FinalizeResponse, HitReply, Uncached, Sent,
         RemoveEcs, EcsOf, KeyOf, Fold;
    var fx, fs := FinalizeResponse(HitReply(d, m)).response.value, FinalizeResponse(Uncached(o.end, o.lookup, d)).response.value;
    var fy := FinalizeResponse(y).response.value;
    FoldStrips(k, f, y.stripEcs, fy);
    FoldStrips(k, (n: Message) => n, d.stripEcs, fx);
    FoldRemoves(k, fx);
    FoldRemoves(k, fy);
    FoldRemoves(k, fs);
    assert f(Fold(k, fy)) == f(Fold(k, fs)) && f(Fold(k, fs)) == Fold(k, f(fs));
    StripAlike(Fold(k, fx), f(Fold(k, fy)), d.stripEcs, y.stripEcs);
    RemoveSame(f(Fold(k, fy)), fs);
  }

  lemma FoldStrips(k: Likeness, f: Message -> Message, strip: bool, m: Message)
    requires forall n: Message :: f(RemoveEcs(n)) == RemoveEcs(f(n)) && Fold(k, f(n)) == f(Fold(k, n))
    ensures Fold(k, f(Stripped(strip, m))) == Stripped(strip, f(Fold(k, m)))
  {
    FoldRemoves(k, m);
    hide RemoveEcs, Fold;
    assert f(RemoveEcs(Fold(k, m))) == RemoveEcs(f(Fold(k, m)));
  }

  // ---------- The main results ----------

  lemma FoldedTtls(k: Likeness, a: Message, b: Message)
    requires Fold(k, a) == Fold(k, b)
    ensures Aliases.Ttls(a.answers) == Aliases.Ttls(b.answers)
  {
    if k.Alike? && k.fold {
      assert Fold(k, a).answers == FoldRecords(a.answers) && Fold(k, b).answers == FoldRecords(b.answers);
      FoldedReads(a.answers, b.answers);
    }
  }

  /** Finalised, a fresh hit is the aged continued reply, even only up to case, exactly when ... */
  lemma FreshFinal(k: Likeness, c: Ctx, lookup: Lookup, d: Ctx, everything: bool, encodes: Encoder, e: u32)
    requires Inv(d) && StoreLookup(c, lookup, encodes).Some?
    requires KeyOf(lookup.query, everything, encodes) == Some(lookup.key)
    requires KeyOf(d.query, everything, encodes) == Some(lookup.key)
    ensures c.response.Some? && FinalizeResponse(Uncached(c, lookup, d)).response.Some?
    ensures var m := StoreLookup(c, lookup, encodes).value;
            var hit := FinalizeResponse(HitReply(d, Aged(m, e))).response;
            && hit.Some?
            && (Fold(k, hit.value) == Fold(k, Aged(FinalizeResponse(Uncached(c, lookup, d)).response.value, e))
                <==> ServesExactly(c, lookup, d, m, e))
  {
    CachedReplyIsUncachedReply(c, lookup, d, everything, encodes, e);
    HitEdns(c, lookup, d, everything, encodes, Aged(StoreLookup(c, lookup, encodes).value, e));
    hide Inv, KeyOf, StoreLookup, FinalizeResponse, Uncached, ServesExactly, Fold, AgedRecords, Apply;
    var m := StoreLookup(c, lookup, encodes).value;
    var x, y := FinalizeResponse(HitReply(d, Aged(m, e))).response.value, Aged(FinalizeResponse(Uncached(c, lookup, d)).response.value, e);
    if Fold(k, x) == Fold(k, y) {
      FoldedTtls(k, x, y);
      CachedReplyByShape(c, lookup, d, everything, encodes, e);
    }
  }

  /** The same for a stale hit. */
  lemma StaleFinal(k: Likeness, c: Ctx, lookup: Lookup, d: Ctx, everything: bool, encodes: Encoder, l: u32)
    requires Inv(d) && StoreLookup(c, lookup, encodes).Some?
    requires KeyOf(lookup.query, everything, encodes) == Some(lookup.key)
    requires KeyOf(d.query, everything, encodes) == Some(lookup.key)
    ensures c.response.Some? && FinalizeResponse(Uncached(c, lookup, d)).response.Some?
    ensures var m := StoreLookup(c, lookup, encodes).value;
            var hit := FinalizeResponse(HitReply(d, Retimed(m, l))).response;
            && hit.Some?
            && (Fold(k, hit.value) == Fold(k, Retimed(FinalizeResponse(Uncached(c, lookup, d)).response.value, l))
                <==> !Aliases.Repeats(d.rewrites, From(c.rewrites, lookup.rewriteStart), c.response.value.answers))
  {
    LazyReplyIsUncachedReply(c, lookup, d, everything, encodes, l);
    HitEdns(c, lookup, d, everything, encodes, Retimed(StoreLookup(c, lookup, encodes).value, l));
    hide Inv, KeyOf, StoreLookup, FinalizeResponse, Uncached, Aliases.Repeats, Fold, RetimedRecords, Apply;
    var m := StoreLookup(c, lookup, encodes).value;
    var x, y := FinalizeResponse(HitReply(d, Retimed(m, l))).response.value, Retimed(FinalizeResponse(Uncached(c, lookup, d)).response.value, l);
    if Fold(k, x) == Fold(k, y) {
      FoldedTtls(k, x, y);
      assert |Aliases.Ttls(x.answers)| == |Aliases.Ttls(y.answers)|;
      LazyReplyByShape(c, lookup, d, everything, encodes, l);
    }
  }

  /** A hit on what `o` stored, aged, against the client's own run. */
  lemma FreshHitOfSource(
    reg: Registry, area: set<Tag>, k: Likeness, tag: Tag, o: Origin, rq: Request, tape: nat -> Choice, i: nat, h: nat,
    skip: bool, u: nat -> Choice, seconds: u32)
    requires Ranked(reg) && HitsAt(reg, rq, tape, tag, i, h)
    requires tag in reg.plugins && reg.plugins[tag].CacheStep?
    requires Source(reg, tag, reg.plugins[tag].everything, LogOf(reg, rq, tape)[i].lookup.key, o) && o.end.response.Some?
    requires PointTakes(reg, LogOf(reg, rq, tape)[i].from, tag)
    requires var from := LogOf(reg, rq, tape)[i].from;
             && Held(tape, from, Aged(o.msg, seconds)) && HitEnds(reg, tag, from, Aged(o.msg, seconds))
             && Agrees(reg, area, k, o, from) && OwnTape(o, from, tape, skip, u)
    ensures var d, sent, own := LogOf(reg, rq, tape)[i].from.at, ReplyOf(reg, rq, false, tape), ReplyOf(reg, rq, skip, u);
            && sent.Some? && own.Some?
            && (Fold(k, sent.value) == Fold(k, Aged(own.value, seconds))
                <==> ServesExactly(o.end, o.lookup, d, o.msg, seconds) && !StripsMore(o, d))
  {
    hide Inv, KeyOf, FinalizeResponse, Sent, ServesExactly, Uncached, StoreLookup, Twin, SameSurroundings, PointTakes, Resumed,
         AgedRecords, StripsMore, HitsAt, HitEnds, Agrees, Agree, Apply, RemoveEcs, HandleQuery, Fold, EcsOf;
    HitIsLogged(reg, rq, tape, tag, i, h);
    var from, key := LogOf(reg, rq, tape)[i].from, LogOf(reg, rq, tape)[i].lookup.key;
    var everything := reg.plugins[tag].everything;
    PointIsSound(reg, rq, tape, tag, i);
    SourceKey(reg, tag, everything, key, o);
    HitReplyIs(reg, rq, tape, tag, i, h, Aged(o.msg, seconds));
    OwnReplyIs(reg, area, k, tag, everything, key, o, rq, tape, i, h, skip, u);
    AgeingIsTiming(k, seconds);
    FreshFinal(k, o.end, o.lookup, from.at, everything, reg.encodes, seconds);
    SentAlike(reg, area, k, tag, everything, key, o, from, skip, u, Aged(o.msg, seconds), (m: Message) => Aged(m, seconds));
  }

  /** A fresh hit, in any history of the cache, by any request whose entry sequence made the lookup.
      Finalised, it is the storing run's reply continued for the client and aged by the whole seconds
      in the cache at the second clock reading, exactly when no alias the client still needs is repeated
      after the stored lookup and the least TTL ages or is not needed. If nothing runs after the hit, and
      the same steps were left that read nothing in which client and storing run differ, then what the
      client is sent is what it would be sent in its own surroundings without the hit, aged (and, if the
      names differ in case, up to the case of owner names and CNAME targets): exactly when, besides, the storing run had no
      subnet to strip that the hit leaves in. */
  lemma FreshHitIsUncachedReply(
    reg: Registry, tag: Tag, p: Printer, size: nat, lazyTtl: nat, lazyReply: u32, ops: seq<Cache.Op>,
    rq: Request, tape: nat -> Choice, i: nat, h: nat, now: nat, later: nat)
    returns (o: Origin, at: nat)
    requires Ranked(reg) && Faithful(p) && WrittenByRuns(reg, tag, p, lazyTtl, ops)
    requires HitsAt(reg, rq, tape, tag, i, h)
    requires var hit := Looked(size, ops, Print(p, LogOf(reg, rq, tape)[i].lookup.key), now, lazyTtl);
             && hit.Some? && !hit.value.stale
             && Held(tape, LogOf(reg, rq, tape)[i].from, Cache.HitMessage(hit.value, later, lazyReply))
    ensures PointTakes(reg, LogOf(reg, rq, tape)[i].from, tag) && tag in reg.plugins && reg.plugins[tag].CacheStep?
    ensures Source(reg, tag, reg.plugins[tag].everything, LogOf(reg, rq, tape)[i].lookup.key, o)
    ensures o.end.response.Some?
    ensures var from := LogOf(reg, rq, tape)[i].from;
            var d, seconds := from.at, Cache.Narrowed(Cache.ElapsedSeconds(later, at));
            var hit := Looked(size, ops, Print(p, LogOf(reg, rq, tape)[i].lookup.key), now, lazyTtl).value;
            var got := FinalizeResponse(HitReply(d, Aged(o.msg, seconds))).response;
            && hit.stored == at && Cache.HitMessage(hit, later, lazyReply) == Aged(o.msg, seconds)
            && FinalizeResponse(Uncached(o.end, o.lookup, d)).response.Some?
            && (got == Some(Aged(FinalizeResponse(Uncached(o.end, o.lookup, d)).response.value, seconds))
                <==> ServesExactly(o.end, o.lookup, d, o.msg, seconds))
            && (HitEnds(reg, tag, from, Aged(o.msg, seconds)) ==>
                  forall area, k, skip, u | Agrees(reg, area, k, o, from) && OwnTape(o, from, tape, skip, u) ::
                    var sent, own := ReplyOf(reg, rq, false, tape), ReplyOf(reg, rq, skip, u);
                    && sent.Some? && own.Some?
                    && (Fold(k, sent.value) == Fold(k, Aged(own.value, seconds))
                        <==> ServesExactly(o.end, o.lookup, d, o.msg, seconds) && !StripsMore(o, d)))
  {
    hide Faithful, Print, Cache.ShardOf, Cache.AfterOps, WrittenByRuns, Inv, KeyOf, FinalizeResponse, Sent,
         ServesExactly, Uncached, StoreLookup, Twin, SameSurroundings, PointTakes, Resumed, AgedRecords, StripsMore,
         HitsAt, HitEnds, Agrees, Agree, Apply, RemoveEcs, HandleQuery, Fold, EcsOf;
    HitIsLogged(reg, rq, tape, tag, i, h);
    var from, key := LogOf(reg, rq, tape)[i].from, LogOf(reg, rq, tape)[i].lookup.key;
    PointIsSound(reg, rq, tape, tag, i);
    var everything := reg.plugins[tag].everything;
    o, at := HitHasSource(reg, tag, everything, p, size, lazyTtl, ops, key, now);
    var seconds := Cache.Narrowed(Cache.ElapsedSeconds(later, at));
    SourceKey(reg, tag, everything, key, o);
    CachedReplyIsUncachedReply(o.end, o.lookup, from.at, everything, reg.encodes, seconds);
    if HitEnds(reg, tag, from, Aged(o.msg, seconds)) {
      forall area, k, skip, u | Agrees(reg, area, k, o, from) && OwnTape(o, from, tape, skip, u)
        ensures var sent, own := ReplyOf(reg, rq, false, tape), ReplyOf(reg, rq, skip, u);
                && sent.Some? && own.Some?
                && (Fold(k, sent.value) == Fold(k, Aged(own.value, seconds))
                    <==> ServesExactly(o.end, o.lookup, from.at, o.msg, seconds) && !StripsMore(o, from.at))
      {
        FreshHitOfSource(reg, area, k, tag, o, rq, tape, i, h, skip, u, seconds);
      }
    }
  }

  lemma HitIsLogged(reg: Registry, rq: Request, tape: nat -> Choice, tag: Tag, i: nat, h: nat)
    requires Ranked(reg) && HitsAt(reg, rq, tape, tag, i, h)
    ensures i < |LogOf(reg, rq, tape)| && LogOf(reg, rq, tape)[i].Snapped? && LogOf(reg, rq, tape)[i].tag == tag
  {
  }

  /** The same for a stale hit, whose TTLs are all the configured reply TTL. */
  lemma StaleHitIsUncachedReply(
    reg: Registry, tag: Tag, p: Printer, size: nat, lazyTtl: nat, lazyReply: u32, ops: seq<Cache.Op>,
    rq: Request, tape: nat -> Choice, i: nat, h: nat, now: nat, later: nat)
    returns (o: Origin, at: nat)
    requires Ranked(reg) && Faithful(p) && WrittenByRuns(reg, tag, p, lazyTtl, ops)
    requires HitsAt(reg, rq, tape, tag, i, h)
    requires var hit := Looked(size, ops, Print(p, LogOf(reg, rq, tape)[i].lookup.key), now, lazyTtl);
             && hit.Some? && hit.value.stale
             && Held(tape, LogOf(reg, rq, tape)[i].from, Cache.HitMessage(hit.value, later, lazyReply))
    ensures PointTakes(reg, LogOf(reg, rq, tape)[i].from, tag) && tag in reg.plugins && reg.plugins[tag].CacheStep?
    ensures Source(reg, tag, reg.plugins[tag].everything, LogOf(reg, rq, tape)[i].lookup.key, o)
    ensures o.end.response.Some? && now < at + lazyTtl
    ensures var from := LogOf(reg, rq, tape)[i].from;
            var d := from.at;
            var hit := Looked(size, ops, Print(p, LogOf(reg, rq, tape)[i].lookup.key), now, lazyTtl).value;
            var got := FinalizeResponse(HitReply(d, Retimed(o.msg, lazyReply))).response;
            var exact := !Aliases.Repeats(d.rewrites, From(o.end.rewrites, o.lookup.rewriteStart), o.end.response.value.answers);
            && Cache.HitMessage(hit, later, lazyReply) == Retimed(o.msg, lazyReply)
            && FinalizeResponse(Uncached(o.end, o.lookup, d)).response.Some?
            && (got == Some(Retimed(FinalizeResponse(Uncached(o.end, o.lookup, d)).response.value, lazyReply)) <==> exact)
            && (HitEnds(reg, tag, from, Retimed(o.msg, lazyReply)) ==>
                  forall area, k, skip, u | Agrees(reg, area, k, o, from) && OwnTape(o, from, tape, skip, u) ::
                    var sent, own := ReplyOf(reg, rq, false, tape), ReplyOf(reg, rq, skip, u);
                    && sent.Some? && own.Some?
                    && (Fold(k, sent.value) == Fold(k, Retimed(own.value, lazyReply)) <==> exact && !StripsMore(o, d)))
  {
    hide Faithful, Print, Cache.ShardOf, Cache.AfterOps, WrittenByRuns, Inv, KeyOf, FinalizeResponse, Sent,
         Aliases.Repeats, Uncached, StoreLookup, Twin, SameSurroundings, PointTakes, Resumed, RetimedRecords, StripsMore,
         HitsAt, HitEnds, Agrees, Agree, Apply, RemoveEcs, HandleQuery, Fold, EcsOf;
    HitIsLogged(reg, rq, tape, tag, i, h);
    var from, key := LogOf(reg, rq, tape)[i].from, LogOf(reg, rq, tape)[i].lookup.key;
    PointIsSound(reg, rq, tape, tag, i);
    var everything := reg.plugins[tag].everything;
    o, at := HitHasSource(reg, tag, everything, p, size, lazyTtl, ops, key, now);
    SourceKey(reg, tag, everything, key, o);
    LazyReplyIsUncachedReply(o.end, o.lookup, from.at, everything, reg.encodes, lazyReply);
    if HitEnds(reg, tag, from, Retimed(o.msg, lazyReply)) {
      HitReplyIs(reg, rq, tape, tag, i, h, Retimed(o.msg, lazyReply));
      forall area, k, skip, u | Agrees(reg, area, k, o, from) && OwnTape(o, from, tape, skip, u)
        ensures var sent, own := ReplyOf(reg, rq, false, tape), ReplyOf(reg, rq, skip, u);
                && sent.Some? && own.Some?
                && (Fold(k, sent.value) == Fold(k, Retimed(own.value, lazyReply))
                    <==> !Aliases.Repeats(from.at.rewrites, From(o.end.rewrites, o.lookup.rewriteStart), o.end.response.value.answers)
                         && !StripsMore(o, from.at))
      {
        OwnReplyIs(reg, area, k, tag, everything, key, o, rq, tape, i, h, skip, u);
        AgeingIsTiming(k, lazyReply);
        StaleFinal(k, o.end, o.lookup, from.at, everything, reg.encodes, lazyReply);
        SentAlike(reg, area, k, tag, everything, key, o, from, skip, u, Retimed(o.msg, lazyReply),
                  (m: Message) => Retimed(m, lazyReply));
      }
    }
  }

  /** As the pipeline is entered: no reply yet, no rewrites, no marks. */
  predicate Untouched(c: Ctx) {
    c.response.None? && c.rewrites == [] && c.marks == {} && !c.stripEcs && !c.served
  }

  /** For any two clients with one key whose lookups come first, where no step behind the cache reads the
      client: they agree, whatever their addresses, ids and payload sizes, and whatever their letter case
      if case is folded. */
  lemma OneKeyAgrees(
    reg: Registry, area: set<Tag>, fold: bool, tag: Tag, everything: bool, key: Key, o: Origin, from: Point)
    requires Ranked(reg) && Source(reg, tag, everything, key, o)
    requires PointTakes(reg, from, tag) && KeyOf(from.at.query, everything, reg.encodes) == Some(key) && key.Simple?
    requires Untouched(o.from.at) && Untouched(from.at)
    requires o.from.at.query.opcode == from.at.query.opcode
    requires ProperName(o.from.at.query.questions[0].name) && ProperName(from.at.query.questions[0].name)
    requires ProperSubnet(o.from.at.query) && ProperSubnet(from.at.query)
    requires fold || o.from.at.query.questions[0].name == from.at.query.questions[0].name
    requires reg.plugins[o.from.tag].steps[o.from.step..] == reg.plugins[from.tag].steps[from.step..]
    requires BlindFrom(reg, area, reg.plugins[o.from.tag].steps, o.from.step)
    requires Impartial(Alike(fold), o.met)
    ensures Agrees(reg, area, Alike(fold), o, from)
  {
    SourceKey(reg, tag, everything, key, o);
    assert o.lookup.query == o.from.at.query;
    hide StoreLookup, Resumed, MatchesAll, BlindFrom, Impartial, SameEnd;
    OneKeyIsAlike(fold, o.from.at.query, from.at.query, everything, reg.encodes);
    UntouchedTwin(fold, o.from.at, from.at);
    hide Source, KeyOf, SameQuery, Twin, Untouched;
  }

  lemma UntouchedTwin(fold: bool, c: Ctx, d: Ctx)
    requires Untouched(c) && Untouched(d) && SameQuery(Alike(fold), c.query, d.query)
    ensures Twin(Alike(fold), c, d, |c.rewrites|, |d.rewrites|)
  {
    hide SameQuery;
  }
}
