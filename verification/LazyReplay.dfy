/** Background refresh of stale cache entries.

A refresh run starts from the state before the pipeline and skips cache lookups. In surroundings
that agree with the foreground run's up to its first cache hit, it does exactly what the
foreground run did up to there, so it reaches the same cache step with the same key.
*/
module LazyReplay {
  import opened Wrappers
  import opened DnsMessage
  import opened Context
  import opened Steps
  import opened CacheKey
  import opened CachePolicy
  import opened Pipeline
  import opened PipelineBounds
  import opened PipelineInvariants
  import opened PipelineWrites
  import opened Server
  import opened Twins

  /** `c` with lookups off or on. */
  function As(skip: bool, c: Ctx): Ctx { c.(skipCache := skip) }

  function On(tape: nat -> Choice, w: World): World { w.(tape := tape) }

  /** Before `bound` two tapes cancel alike and, but for the last entry, which is that of a cache,
      reply alike; and `u` offers a run that skips lookups or not no hits of its own. */
  ghost predicate Agree(t: nat -> Choice, skip: bool, u: nat -> Choice, bound: nat) {
    forall n: nat | n < bound ::
      && t(n).cancel == u(n).cancel
      && (n + 1 < bound ==> t(n).reply == u(n).reply)
      && (HitFor(skip, u(n)).None? || u(n).hit == t(n).hit)
  }

  ghost predicate NoHits(log: seq<Event>, from: nat, to: int) {
    forall k | from <= k < to && k < |log| :: !log[k].CacheHit?
  }

  /** `f` first hits a cache at `h`; `g` agrees with it up to there. */
  ghost predicate DivergesAt(from: nat, f: seq<Event>, g: seq<Event>, h: int) {
    && from < h < |f|
    && f[h].CacheHit?
    && f[h - 1] == CacheAsked(f[h].tag, f[h].key)
    && NoHits(f, from, h)
    && f[..h] <= g
  }

  ghost predicate Diverged(from: nat, f: seq<Event>, g: seq<Event>) {
    exists h :: DivergesAt(from, f, g, h)
  }

  /** `f` read up to `bound` without having taken a hit by then. */
  ghost predicate Passed(from: nat, bound: nat, f: Res) {
    f.w.pos >= bound && forall k | from <= k < |f.w.log| && f.w.log[k].CacheHit? :: f.w.log[k].pos > bound
  }

  /** Without a hit the two runs are the same; otherwise they agree up to the first hit, unless
      that comes after the part of the surroundings in which they agree. */
  ghost predicate Lockstep(from: nat, bound: nat, skip: bool, u: nat -> Choice, f: Res, g: Res) {
    || (NoHits(f.w.log, from, |f.w.log|) && g == Res(f.out, As(skip, f.ctx), On(u, f.w)))
    || Diverged(from, f.w.log, g.w.log)
    || Passed(from, bound, f)
  }

  lemma DivergedStays(from: nat, f: seq<Event>, g: seq<Event>, f': seq<Event>, g': seq<Event>)
    requires Diverged(from, f, g) && f <= f' && g <= g'
    ensures Diverged(from, f', g')
  {
    var h :| DivergesAt(from, f, g, h);
    assert f'[..h] == f[..h];
    assert forall k | 0 <= k < |f| :: f'[k] == f[k];
    assert DivergesAt(from, f', g', h);
  }

  lemma PassedStays(from: nat, bound: nat, f: Res, f': Res)
    requires Passed(from, bound, f) && Onward(f.w, f'.w)
    ensures Passed(from, bound, f')
  {
    assert forall k | 0 <= k < |f.w.log| :: f'.w.log[k] == f.w.log[k];
  }

  /** Reading at or beyond `bound` without a hit so far. */
  lemma PassesFrom(from: nat, bound: nat, mid: World, f: Res)
    requires from <= |mid.log| && NoHits(mid.log, from, |mid.log|) && mid.pos >= bound
    requires Onward(mid, f.w)
    ensures Passed(from, bound, f)
  {
    assert forall k | 0 <= k < |mid.log| :: f.w.log[k] == mid.log[k];
  }

  /** Lockstep from a later point, after a stretch without hits, is lockstep from the earlier one. */
  lemma LockstepFrom(from: nat, bound: nat, skip: bool, u: nat -> Choice, mid: World, f: Res, g: Res)
    requires from <= |mid.log| && NoHits(mid.log, from, |mid.log|)
    requires mid.log <= f.w.log
    requires Lockstep(|mid.log|, bound, skip, u, f, g)
    ensures Lockstep(from, bound, skip, u, f, g)
  {
    assert forall k | 0 <= k < |mid.log| :: f.w.log[k] == mid.log[k];
    if Diverged(|mid.log|, f.w.log, g.w.log) {
      var h :| DivergesAt(|mid.log|, f.w.log, g.w.log, h);
      assert DivergesAt(from, f.w.log, g.w.log, h);
    }
  }

  /** What an inner run in lockstep leaves its caller to show: nothing more once the two have
      diverged or passed the bound. */
  lemma LockstepStays(from: nat, bound: nat, skip: bool, u: nat -> Choice, x: Res, y: Res, f: Res, g: Res)
    requires Lockstep(from, bound, skip, u, x, y)
    requires Onward(x.w, f.w) && y.w.log <= g.w.log
    ensures Lockstep(from, bound, skip, u, f, g) || (NoHits(x.w.log, from, |x.w.log|) && x.w.pos < bound && y == Res(x.out, As(skip, x.ctx), On(u, x.w)))
  {
    if Diverged(from, x.w.log, y.w.log) {
      DivergedStays(from, x.w.log, y.w.log, f.w.log, g.w.log);
    } else if Passed(from, bound, x) {
      PassedStays(from, bound, x, f);
    } else if x.w.pos >= bound {
      PassedStays(from, bound, x, f);
    }
  }

  lemma {:induction false} RedirectedAs(skip: bool, rules: seq<Rule>, qname: string, c: Ctx)
    ensures Redirected(rules, qname, As(skip, c)) == As(skip, Redirected(rules, qname, c))
  {
    if rules != [] {
      RedirectedAs(skip, rules[1..], qname, c);
    }
  }

  lemma EcsAs(skip: bool, cfg: EcsConfig, c: Ctx)
    ensures AfterEcs(cfg, As(skip, c)) == As(skip, AfterEcs(cfg, c))
  {
    hide Masked, SetEcs, EcsOf;
  }

  lemma BuiltinAs(skip: bool, b: Builtin, c: Ctx)
    ensures AfterBuiltin(b, As(skip, c)) == As(skip, AfterBuiltin(b, c))
  {
  }

  lemma {:induction false} MatchesAs(skip: bool, m: Matcher, c: Ctx)
    ensures Matches(m, As(skip, c)) == Matches(m, c)
  {
    if m.Neg? {
      MatchesAs(skip, m.inner, c);
    }
  }

  lemma MatchesAllAs(skip: bool, ms: seq<Matcher>, c: Ctx)
    ensures MatchesAll(ms, As(skip, c)) == MatchesAll(ms, c)
  {
    forall i | 0 <= i < |ms| ensures Matches(ms[i], As(skip, c)) == Matches(ms[i], c) {
      MatchesAs(skip, ms[i], c);
    }
  }

  lemma {:induction false} StoreEventsAs(skip: bool, run: nat, c: Ctx, writes: seq<Write>, encodes: Encoder)
    ensures StoreEvents(run, As(skip, c), writes, encodes) == StoreEvents(run, c, writes, encodes)
  {
    if writes != [] {
      StoreEventsAs(skip, run, c, writes[1..], encodes);
      assert StoreEvent(run, As(skip, c), writes[0], encodes) == StoreEvent(run, c, writes[0], encodes);
    }
  }

  lemma EndLockstep(
    reg: Registry, bound: nat, skip: bool, u: nat -> Choice, run: nat, a: Action, c: Ctx, writes: seq<Write>, w: World)
    ensures Lockstep(|w.log|, bound, skip, u, End(reg, run, a, c, writes, w), End(reg, run, a, As(skip, c), writes, On(u, w)))
  {
    hide StoreEvents, Diverged, Passed;
    StoreEventsAs(skip, run, c, writes, reg.encodes);
    StoreEventsAreStores(run, c, writes, reg.encodes);
    var stores := StoreEvents(run, c, writes, reg.encodes);
    var to := End(reg, run, a, c, writes, w).w.log;
    assert forall k | |w.log| <= k < |w.log| + |stores| :: to[k] == stores[k - |w.log|] && to[k] in stores;
  }

  lemma EndOnward(reg: Registry, run: nat, a: Action, c: Ctx, writes: seq<Write>, w: World)
    ensures Onward(w, End(reg, run, a, c, writes, w).w)
  {
    GrowsEnd(reg, run, a, c, writes, w, 0, 0, false);
  }

  lemma CacheLockstep(
    reg: Registry, bound: nat, skip: bool, u: nat -> Choice, tag: Tag, everything: bool, c: Ctx, a: Choice, b: Choice, w: World)
    requires !c.skipCache && (HitFor(skip, b).None? || b.hit == a.hit)
    ensures w.log <= ExecCache(reg, tag, everything, c, a, w).w.log
    ensures Lockstep(|w.log|, bound, skip, u, ExecCache(reg, tag, everything, c, a, w),
                     ExecCache(reg, tag, everything, As(skip, c), b, On(u, w)))
  {
    hide KeyOf, Apply;
    var f := ExecCache(reg, tag, everything, c, a, w);
    var g := ExecCache(reg, tag, everything, As(skip, c), b, On(u, w));
    var key := KeyOf(c.query, everything, reg.encodes);
    if key.Some? && a.hit.Some? {
      var h := |w.log| + 1;
      assert f.w.log[h] == CacheHit(tag, key.value, a.hit.value.stale, c, w.pos);
      assert f.w.log[..h] == w.log + [CacheAsked(tag, key.value)];
      assert w.log + [CacheAsked(tag, key.value)] <= g.w.log;
      assert DivergesAt(|w.log|, f.w.log, g.w.log, h);
    } else {
      assert g == Res(f.out, As(skip, f.ctx), On(u, f.w));
    }
  }

  lemma {:induction false} ExecLockstep(
    reg: Registry, bound: nat, skip: bool, u: nat -> Choice, tag: Tag, c: Ctx, w: World, nest: nat, level: nat)
    requires Ranked(reg) && !c.skipCache && Agree(w.tape, skip, u, bound) && w.pos < bound
    ensures Lockstep(|w.log|, bound, skip, u, Exec(reg, tag, c, w, nest, level), Exec(reg, tag, As(skip, c), On(u, w), nest, level))
    decreases Depth(reg, tag), 1, 2
  {
    var f, g := Exec(reg, tag, c, w, nest, level), Exec(reg, tag, As(skip, c), On(u, w), nest, level);
    if tag in reg.plugins {
      if !Next(w).cancel {
        EnteredLockstep(reg, bound, skip, u, tag, c, w, nest, level);
        hide Exec, Lockstep;
        var w1 := Note(Advance(w), Enter(tag, nest));
        assert NoHits(w1.log, |w.log|, |w1.log|);
        LockstepFrom(|w.log|, bound, skip, u, w1, f, g);
      }
    }
  }

  /** The same after the surroundings have been read and have not cancelled. */
  lemma {:induction false} EnteredLockstep(
    reg: Registry, bound: nat, skip: bool, u: nat -> Choice, tag: Tag, c: Ctx, w: World, nest: nat, level: nat)
    requires Ranked(reg) && !c.skipCache && Agree(w.tape, skip, u, bound) && w.pos < bound
    requires tag in reg.plugins && !Next(w).cancel
    ensures Note(Advance(w), Enter(tag, nest)).log <= Exec(reg, tag, c, w, nest, level).w.log
    ensures Lockstep(|w.log| + 1, bound, skip, u, Exec(reg, tag, c, w, nest, level),
                     Exec(reg, tag, As(skip, c), On(u, w), nest, level))
    decreases Depth(reg, tag), 1, 1
  {
    var w1 := Note(Advance(w), Enter(tag, nest));
    if w1.pos == bound && !reg.plugins[tag].CacheStep? {
      EnteredOnward(reg, tag, c, w, nest, level);
      PassesFrom(|w.log| + 1, bound, w1, Exec(reg, tag, c, w, nest, level));
    } else {
      EnteredBefore(reg, bound, skip, u, tag, c, w, nest, level);
    }
  }

  /** What an entered plugin reads is read after the entry's own. */
  lemma EnteredOnward(reg: Registry, tag: Tag, c: Ctx, w: World, nest: nat, level: nat)
    requires Ranked(reg) && tag in reg.plugins && !Next(w).cancel && !reg.plugins[tag].CacheStep?
    ensures Onward(Note(Advance(w), Enter(tag, nest)), Exec(reg, tag, c, w, nest, level).w)
  {
    var w1 := Note(Advance(w), Enter(tag, nest));
    match reg.plugins[tag]
    case Sequence(_) => RunStepsBounded(reg, tag, |w.log|, 0, c, [], w1, nest, level);
    case Fallback(_, _, _) => FallbackBounded(reg, tag, c, w1, nest, level);
    case _ =>
  }

  lemma {:induction false} EnteredBefore(
    reg: Registry, bound: nat, skip: bool, u: nat -> Choice, tag: Tag, c: Ctx, w: World, nest: nat, level: nat)
    requires Ranked(reg) && !c.skipCache && Agree(w.tape, skip, u, bound) && w.pos < bound
    requires tag in reg.plugins && !Next(w).cancel && (w.pos + 1 < bound || reg.plugins[tag].CacheStep?)
    ensures Note(Advance(w), Enter(tag, nest)).log <= Exec(reg, tag, c, w, nest, level).w.log
    ensures Lockstep(|w.log| + 1, bound, skip, u, Exec(reg, tag, c, w, nest, level),
                     Exec(reg, tag, As(skip, c), On(u, w), nest, level))
    decreases Depth(reg, tag), 1, 0
  {
    hide Ranked, Apply, Lockstep, RunSteps, ExecFallback, ExecCache, AfterEcs, Redirected;
    var w1 := Note(Advance(w), Enter(tag, nest));
    match reg.plugins[tag]
    case Sequence(_) => RunStepsLockstep(reg, bound, skip, u, tag, |w.log|, 0, c, [], w1, nest, level);
    case Fallback(_, _, _) => FallbackLockstep(reg, bound, skip, u, tag, c, w1, nest, level);
    case CacheStep(everything) => CacheLockstep(reg, bound, skip, u, tag, everything, c, Next(w), Next(On(u, w)), w1);
    case _ => LeafLockstep(reg, bound, skip, u, tag, c, w, nest, level);
  }

  /** Entering a plugin reads the surroundings, and every hit is read after that. */
  lemma ReadsOn(reg: Registry, tag: Tag, c: Ctx, w: World, nest: nat, level: nat)
    requires Ranked(reg) && tag in reg.plugins
    ensures var r := Exec(reg, tag, c, w, nest, level); Onward(w, r.w) && r.w.pos > w.pos
  {
    ExecBounded(reg, tag, c, w, nest, level);
    if !Next(w).cancel {
      var w1 := Note(Advance(w), Enter(tag, nest));
      match reg.plugins[tag]
      case Sequence(_) => RunStepsBounded(reg, tag, |w.log|, 0, c, [], w1, nest, level);
      case Fallback(_, _, _) => FallbackBounded(reg, tag, c, w1, nest, level);
      case _ =>
    }
  }

  predicate IsLeaf(p: Plugin) { !p.Sequence? && !p.Fallback? && !p.CacheStep? }

  /** What a plugin that only reads and changes the context makes of it. */
  function LeafContext(p: Plugin, c: Ctx, ch: Choice): Ctx
    requires IsLeaf(p)
  {
    match p
    case RedirectStep(rules) => Redirected(rules, RedirectName(c), c)
    case EcsStep(cfg) => AfterEcs(cfg, c)
    case NoEcsStep => Apply(c, StripEcs)
    case Blackhole(rcode) => Apply(c, RejectWith(rcode))
    case Source => if ch.reply(c.query).Some? then Apply(c, Answer(ch.reply(c.query).value)) else c
  }

  lemma LeafIs(reg: Registry, tag: Tag, c: Ctx, w: World, nest: nat, level: nat)
    requires Ranked(reg) && tag in reg.plugins && !Next(w).cancel && IsLeaf(reg.plugins[tag])
    ensures Exec(reg, tag, c, w, nest, level)
         == Res(Done(Continue), LeafContext(reg.plugins[tag], c, Next(w)), Note(Advance(w), Enter(tag, nest)))
  {
    hide Ranked, Redirected, AfterEcs, Apply;
  }

  lemma LeafAs(skip: bool, p: Plugin, c: Ctx, a: Choice, b: Choice)
    requires IsLeaf(p) && a.reply == b.reply
    ensures LeafContext(p, As(skip, c), b) == As(skip, LeafContext(p, c, a))
  {
    match p
    case RedirectStep(rules) => RedirectedAs(skip, rules, RedirectName(c), c);
    case EcsStep(cfg) => EcsAs(skip, cfg, c);
    case _ => hide Redirected, AfterEcs, SetEcs, RemoveEcs, ReplySkeleton;
  }

  /** Such plugins do the same in both runs. */
  lemma LeafLockstep(
    reg: Registry, bound: nat, skip: bool, u: nat -> Choice, tag: Tag, c: Ctx, w: World, nest: nat, level: nat)
    requires Ranked(reg) && tag in reg.plugins && !Next(w).cancel && Agree(w.tape, skip, u, bound) && w.pos + 1 < bound
    requires IsLeaf(reg.plugins[tag])
    ensures Note(Advance(w), Enter(tag, nest)).log <= Exec(reg, tag, c, w, nest, level).w.log
    ensures Lockstep(|w.log| + 1, bound, skip, u, Exec(reg, tag, c, w, nest, level), Exec(reg, tag, As(skip, c), On(u, w), nest, level))
  {
    LeafIs(reg, tag, c, w, nest, level);
    LeafIs(reg, tag, As(skip, c), On(u, w), nest, level);
    LeafAs(skip, reg.plugins[tag], c, Next(w), Next(On(u, w)));
    hide Exec, LeafContext, Ranked, Passed, Diverged;
  }

  lemma {:induction false} RunStepsLockstep(
    reg: Registry, bound: nat, skip: bool, u: nat -> Choice, tag: Tag, run: nat, i: nat, c: Ctx, writes: seq<Write>, w: World,
    nest: nat, level: nat)
    requires Ranked(reg) && !c.skipCache && Agree(w.tape, skip, u, bound) && w.pos < bound
    requires tag in reg.plugins && reg.plugins[tag].Sequence? && i <= |reg.plugins[tag].steps|
    ensures Lockstep(|w.log|, bound, skip, u, RunSteps(reg, tag, run, i, c, writes, w, nest, level),
                     RunSteps(reg, tag, run, i, As(skip, c), writes, On(u, w), nest, level))
    decreases Depth(reg, tag), 0, 3 * (|reg.plugins[tag].steps| - i) + 3
  {
    hide Ranked, Calls, Exec, Lockstep, Diverged, Passed, Agree;
    var steps := reg.plugins[tag].steps;
    var f := RunSteps(reg, tag, run, i, c, writes, w, nest, level);
    var g := RunSteps(reg, tag, run, i, As(skip, c), writes, On(u, w), nest, level);
    if i == |steps| {
      EndLockstep(reg, bound, skip, u, run, Continue, c, writes, w);
    } else {
      MatchesAllAs(skip, steps[i].matchers, c);
      if !MatchesAll(steps[i].matchers, c) {
        RunStepsLockstep(reg, bound, skip, u, tag, run, i + 1, c, writes, w, nest, level);
      } else {
        StepDescends(reg, tag, i);
        var w1 := Note(w, StepTaken(run, i, level));
        assert NoHits(w1.log, |w.log|, |w1.log|);
        match steps[i].exec {
          case Call(t) => CallStepLockstep(reg, bound, skip, u, tag, run, i, t, c, writes, w1, nest, level);
          case Run(b) => AfterActionLockstep(reg, bound, skip, u, tag, run, i, b, c, writes, w1, nest, level);
        }
        LockstepFrom(|w.log|, bound, skip, u, w1, f, g);
      }
    }
  }

  /** What `RunSteps` does from a step that calls `t`, once the step is noted. */
  function AfterCall(
    reg: Registry, tag: Tag, run: nat, i: nat, t: Tag, c: Ctx, writes: seq<Write>, w: World, nest: nat, level: nat): (r: Res)
    requires Ranked(reg) && tag in reg.plugins && reg.plugins[tag].Sequence? && i < |reg.plugins[tag].steps|
    ensures w.log <= r.w.log
  {
    if t !in reg.plugins then Abort(run, Failed(UnknownTag(t)), c, w)
    else
      var snap := SnapshotAt(reg, t, c);
      var r := Exec(reg, t, c, NoteSnap(w, run, t, snap, Here(tag, i, c, w)), nest + 1, level);
      RestOfRun(reg, tag, run, i, AddWrite(writes, t, snap), r, nest, level)
  }

  /** ... and once the called plugin has ended with `r`. */
  function RestOfRun(
    reg: Registry, tag: Tag, run: nat, i: nat, writes: seq<Write>, r: Res, nest: nat, level: nat): (f: Res)
    requires Ranked(reg) && tag in reg.plugins && reg.plugins[tag].Sequence? && i < |reg.plugins[tag].steps|
    ensures r.w.log <= f.w.log
  {
    match r.out
    case Done(Continue) => RunSteps(reg, tag, run, i + 1, r.ctx, writes, r.w, nest, level)
    case Done(Accept) => End(reg, run, Accept, r.ctx, writes, r.w)
    case _ => Abort(run, r.out, r.ctx, r.w)
  }

  lemma RestIsOnward(reg: Registry, tag: Tag, run: nat, i: nat, writes: seq<Write>, r: Res, nest: nat, level: nat)
    requires Ranked(reg) && tag in reg.plugins && reg.plugins[tag].Sequence? && i < |reg.plugins[tag].steps|
    ensures Onward(r.w, RestOfRun(reg, tag, run, i, writes, r, nest, level).w)
  {
    match r.out
    case Done(Continue) => RunStepsBounded(reg, tag, run, i + 1, r.ctx, writes, r.w, nest, level);
    case Done(Accept) => EndOnward(reg, run, Accept, r.ctx, writes, r.w);
    case _ =>
  }

  lemma {:induction false} CallStepLockstep(
    reg: Registry, bound: nat, skip: bool, u: nat -> Choice, tag: Tag, run: nat, i: nat, t: Tag, c: Ctx, writes: seq<Write>, w: World,
    nest: nat, level: nat)
    requires Ranked(reg) && !c.skipCache && Agree(w.tape, skip, u, bound) && w.pos < bound
    requires tag in reg.plugins && reg.plugins[tag].Sequence? && i < |reg.plugins[tag].steps|
    requires t in reg.plugins ==> Depth(reg, t) < Depth(reg, tag)
    ensures Lockstep(|w.log|, bound, skip, u, AfterCall(reg, tag, run, i, t, c, writes, w, nest, level),
                     AfterCall(reg, tag, run, i, t, As(skip, c), writes, On(u, w), nest, level))
    decreases Depth(reg, tag), 0, 3 * (|reg.plugins[tag].steps| - i) + 2
  {
    hide Ranked, Calls, Exec, Diverged, Passed, RunSteps, StoreEvents, Agree;
    var f := AfterCall(reg, tag, run, i, t, c, writes, w, nest, level);
    var g := AfterCall(reg, tag, run, i, t, As(skip, c), writes, On(u, w), nest, level);
    if t in reg.plugins {
      hide Lockstep, RestOfRun, Onward;
      var snap := SnapshotAt(reg, t, c);
      var w1 := NoteSnap(w, run, t, snap, Here(tag, i, c, w));
      assert NoHits(w1.log, |w.log|, |w1.log|);
      var writes1 := AddWrite(writes, t, snap);
      var x := Exec(reg, t, c, w1, nest + 1, level);
      var y := Exec(reg, t, As(skip, c), On(u, w1), nest + 1, level);
      ExecLockstep(reg, bound, skip, u, t, c, w1, nest + 1, level);
      LockstepFrom(|w.log|, bound, skip, u, w1, x, y);
      RestIsOnward(reg, tag, run, i, writes1, x, nest, level);
      ExecBounded(reg, t, c, w1, nest + 1, level);
      assert f == RestOfRun(reg, tag, run, i, writes1, x, nest, level);
      assert g == RestOfRun(reg, tag, run, i, writes1, y, nest, level);
      LockstepStays(|w.log|, bound, skip, u, x, y, f, g);
      if !Lockstep(|w.log|, bound, skip, u, f, g) {
        RestLockstep(reg, bound, skip, u, tag, run, i, writes1, x, nest, level);
        LockstepFrom(|w.log|, bound, skip, u, x.w, f, g);
      }
    }
  }

  lemma {:induction false} RestLockstep(
    reg: Registry, bound: nat, skip: bool, u: nat -> Choice, tag: Tag, run: nat, i: nat, writes: seq<Write>, x: Res, nest: nat, level: nat)
    requires Ranked(reg) && !x.ctx.skipCache && Agree(x.w.tape, skip, u, bound) && x.w.pos < bound
    requires tag in reg.plugins && reg.plugins[tag].Sequence? && i < |reg.plugins[tag].steps|
    ensures Lockstep(|x.w.log|, bound, skip, u, RestOfRun(reg, tag, run, i, writes, x, nest, level),
                     RestOfRun(reg, tag, run, i, writes, Res(x.out, As(skip, x.ctx), On(u, x.w)), nest, level))
    decreases Depth(reg, tag), 0, 3 * (|reg.plugins[tag].steps| - i) + 1
  {
    hide Ranked, Calls, Exec, RunSteps, Agree, End;
    match x.out
    case Done(Continue) => RunStepsLockstep(reg, bound, skip, u, tag, run, i + 1, x.ctx, writes, x.w, nest, level);
    case Done(Accept) => EndLockstep(reg, bound, skip, u, run, Accept, x.ctx, writes, x.w);
    case _ =>
  }

  lemma {:induction false} AfterActionLockstep(
    reg: Registry, bound: nat, skip: bool, u: nat -> Choice, tag: Tag, run: nat, i: nat, b: Builtin, c: Ctx, writes: seq<Write>, w: World,
    nest: nat, level: nat)
    requires Ranked(reg) && !c.skipCache && Agree(w.tape, skip, u, bound) && w.pos < bound
    requires tag in reg.plugins && reg.plugins[tag].Sequence? && i < |reg.plugins[tag].steps|
    requires b.DoGoto? && b.tag in reg.plugins ==> Depth(reg, b.tag) < Depth(reg, tag)
    ensures Lockstep(|w.log|, bound, skip, u, AfterAction(reg, tag, run, i, b, c, writes, w, nest, level),
                     AfterAction(reg, tag, run, i, b, As(skip, c), writes, On(u, w), nest, level))
    decreases Depth(reg, tag), 0, 3 * (|reg.plugins[tag].steps| - i) + 2
  {
    hide Ranked, Calls, Exec, Diverged, Passed, RunSteps, StoreEvents, Jump, Agree;
    BuiltinAs(skip, b, c);
    BuiltinFrame(b, c);
    var c1 := AfterBuiltin(b, c);
    match ActionOf(b)
    case Err(_) =>
    case Ok(Continue) => RunStepsLockstep(reg, bound, skip, u, tag, run, i + 1, c1, writes, w, nest, level);
    case Ok(Accept) =>
      var w1 := Note(w, AcceptTaken(level));
      EndLockstep(reg, bound, skip, u, run, Accept, c1, writes, w1);
      LockstepFrom(|w.log|, bound, skip, u, w1, End(reg, run, Accept, c1, writes, w1),
                   End(reg, run, Accept, As(skip, c1), writes, On(u, w1)));
    case Ok(Return) => EndLockstep(reg, bound, skip, u, run, Continue, c1, writes, w);
    case Ok(Goto(t)) => JumpLockstep(reg, bound, skip, u, tag, run, Here(tag, i, c, w), t, c1, writes, w, nest, level);
  }

  lemma {:induction false} JumpLockstep(
    reg: Registry, bound: nat, skip: bool, u: nat -> Choice, tag: Tag, run: nat, from: Point, t: Tag, c: Ctx, writes: seq<Write>, w: World,
    nest: nat, level: nat)
    requires Ranked(reg) && !c.skipCache && Agree(w.tape, skip, u, bound) && w.pos < bound
    requires t in reg.plugins ==> Depth(reg, t) < Depth(reg, tag)
    ensures Lockstep(|w.log|, bound, skip, u, Jump(reg, tag, run, from, t, c, writes, w, nest, level),
                     Jump(reg, tag, run, from, t, As(skip, c), writes, On(u, w), nest, level))
    decreases Depth(reg, tag), 0, 0
  {
    hide Ranked, Calls, Exec, Diverged, Passed, StoreEvents, Agree;
    var f := Jump(reg, tag, run, from, t, c, writes, w, nest, level);
    var g := Jump(reg, tag, run, from, t, As(skip, c), writes, On(u, w), nest, level);
    if t in reg.plugins {
      var snap := SnapshotAt(reg, t, c);
      var w1 := NoteSnap(w, run, t, snap, from);
      assert NoHits(w1.log, |w.log|, |w1.log|);
      var x := Exec(reg, t, c, w1, nest + 1, level);
      var y := Exec(reg, t, As(skip, c), On(u, w1), nest + 1, level);
      ExecLockstep(reg, bound, skip, u, t, c, w1, nest + 1, level);
      LockstepFrom(|w.log|, bound, skip, u, w1, x, y);
      if x.out.Done? { EndOnward(reg, run, x.out.action, x.ctx, AddWrite(writes, t, snap), x.w); }
      LockstepStays(|w.log|, bound, skip, u, x, y, f, g);
      if !Lockstep(|w.log|, bound, skip, u, f, g) && x.out.Done? {
        EndLockstep(reg, bound, skip, u, run, x.out.action, x.ctx, AddWrite(writes, t, snap), x.w);
        LockstepFrom(|w.log|, bound, skip, u, x.w, f, g);
      }
    }
  }

  /** One branch of a fallback in both runs, with the mark that it was left. */
  lemma {:induction false} BranchLockstep(
    reg: Registry, bound: nat, skip: bool, u: nat -> Choice, tag: Tag, t: Tag, c: Ctx, w: World, nest: nat, level: nat)
    requires Ranked(reg) && !c.skipCache && Agree(w.tape, skip, u, bound) && w.pos < bound
    requires t in reg.plugins && Depth(reg, t) < Depth(reg, tag)
    ensures Lockstep(|w.log|, bound, skip, u, Branch(reg, t, c, w, nest, level), Branch(reg, t, As(skip, c), On(u, w), nest, level))
    ensures !Branch(reg, t, c, w, nest, level).ctx.skipCache
    ensures Onward(w, Branch(reg, t, c, w, nest, level).w) && Branch(reg, t, c, w, nest, level).w.pos > w.pos
    decreases Depth(reg, tag), 0, 0
  {
    hide Ranked, Calls, Exec, Diverged, Agree;
    var x := Exec(reg, t, Fork(c), w, nest, level);
    var y := Exec(reg, t, Fork(As(skip, c)), On(u, w), nest, level);
    assert Fork(As(skip, c)) == As(skip, Fork(c));
    ExecLockstep(reg, bound, skip, u, t, Fork(c), w, nest, level);
    ExecBounded(reg, t, Fork(c), w, nest, level);
    ReadsOn(reg, t, Fork(c), w, nest, level);
    LockstepStays(|w.log|, bound, skip, u, x, y, Branch(reg, t, c, w, nest, level), Branch(reg, t, As(skip, c), On(u, w), nest, level));
  }

  lemma AfterPrimaryOnward(reg: Registry, tag: Tag, c: Ctx, x: Res, nest: nat, level: nat)
    requires Ranked(reg) && tag in reg.plugins && reg.plugins[tag].Fallback? && reg.plugins[tag].secondary in reg.plugins
    ensures var r := AfterPrimary(reg, tag, c, x, nest, level);
            && Onward(x.w, r.w)
            && (Onward(Advance(x.w), r.w) || (x.out.Done? && HasWantedAns(x.ctx) && !reg.plugins[tag].standby))
  {
    hide Exec, Ranked;
    var t := reg.plugins[tag].secondary;
    ExecBounded(reg, t, Fork(c), Advance(x.w), nest, level);
  }

  lemma SecondaryLockstep(bound: nat, skip: bool, u: nat -> Choice, standby: bool, wins: bool, c: Ctx, x: Res, s: Res)
    requires !c.skipCache && Agree(s.w.tape, skip, u, bound) && s.w.pos < bound
    ensures Lockstep(|s.w.log|, bound, skip, u, AfterSecondary(standby, wins, c, x, s),
                     AfterSecondary(standby, wins, As(skip, c), Res(x.out, As(skip, x.ctx), On(u, x.w)),
                                    Res(s.out, As(skip, s.ctx), On(u, s.w))))
  {
  }

  lemma {:induction false} AfterPrimaryLockstep(
    reg: Registry, bound: nat, skip: bool, u: nat -> Choice, tag: Tag, c: Ctx, x: Res, nest: nat, level: nat)
    requires Ranked(reg) && !c.skipCache && Agree(x.w.tape, skip, u, bound) && x.w.pos < bound
    requires tag in reg.plugins && reg.plugins[tag].Fallback? && reg.plugins[tag].secondary in reg.plugins
    ensures Lockstep(|x.w.log|, bound, skip, u, AfterPrimary(reg, tag, c, x, nest, level),
                     AfterPrimary(reg, tag, As(skip, c), Res(x.out, As(skip, x.ctx), On(u, x.w)), nest, level))
    decreases Depth(reg, tag), 0, 1
  {
    hide Exec, Ranked, Calls, AfterSecondary, Branch, Lockstep, Diverged, Passed;
    BranchesDescend(reg, tag);
    var p := reg.plugins[tag];
    var wins := x.out.Done? && HasWantedAns(x.ctx);
    var y := Res(x.out, As(skip, x.ctx), On(u, x.w));
    var f, g := AfterPrimary(reg, tag, c, x, nest, level), AfterPrimary(reg, tag, As(skip, c), y, nest, level);
    AfterPrimaryOnward(reg, tag, c, x, nest, level);
    if wins && !p.standby {
      SameLockstep(|x.w.log|, bound, skip, u, f, g);
    } else if !p.standby && Next(x.w).cancel {
      SameLockstep(|x.w.log|, bound, skip, u, f, g);
    } else if x.w.pos + 1 == bound {
      PassesFrom(|x.w.log|, bound, Advance(x.w), f);
      PassedLockstep(|x.w.log|, bound, skip, u, f, g);
    } else {
      var s := Branch(reg, p.secondary, c, Advance(x.w), nest, level);
      var t := Branch(reg, p.secondary, As(skip, c), On(u, Advance(x.w)), nest, level);
      BranchLockstep(reg, bound, skip, u, tag, p.secondary, c, Advance(x.w), nest, level);
      assert f == AfterSecondary(p.standby, wins, c, x, s) && g == AfterSecondary(p.standby, wins, As(skip, c), y, t);
      LockstepStays(|x.w.log|, bound, skip, u, s, t, f, g);
      if !Lockstep(|x.w.log|, bound, skip, u, f, g) {
        SecondaryLockstep(bound, skip, u, p.standby, wins, c, x, s);
        LockstepFrom(|x.w.log|, bound, skip, u, s.w, f, g);
      }
    }
  }

  lemma SameLockstep(from: nat, bound: nat, skip: bool, u: nat -> Choice, f: Res, g: Res)
    requires NoHits(f.w.log, from, |f.w.log|) && g == Res(f.out, As(skip, f.ctx), On(u, f.w))
    ensures Lockstep(from, bound, skip, u, f, g)
  {
  }

  lemma PassedLockstep(from: nat, bound: nat, skip: bool, u: nat -> Choice, f: Res, g: Res)
    requires Passed(from, bound, f)
    ensures Lockstep(from, bound, skip, u, f, g)
  {
  }

  lemma {:induction false} FallbackLockstep(
    reg: Registry, bound: nat, skip: bool, u: nat -> Choice, tag: Tag, c: Ctx, w: World, nest: nat, level: nat)
    requires Ranked(reg) && !c.skipCache && Agree(w.tape, skip, u, bound) && w.pos < bound
    requires tag in reg.plugins && reg.plugins[tag].Fallback?
    ensures Lockstep(|w.log|, bound, skip, u, ExecFallback(reg, tag, c, w, nest, level),
                     ExecFallback(reg, tag, As(skip, c), On(u, w), nest, level))
    decreases Depth(reg, tag), 0, 2
  {
    hide Exec, Ranked, Calls, Lockstep, Diverged, Passed, Agree;
    BranchesDescend(reg, tag);
    var p := reg.plugins[tag];
    if p.primary in reg.plugins && p.secondary in reg.plugins {
      var x := Branch(reg, p.primary, c, w, nest + 1, level + 1);
      var y := Branch(reg, p.primary, As(skip, c), On(u, w), nest + 1, level + 1);
      var f, g := ExecFallback(reg, tag, c, w, nest, level), ExecFallback(reg, tag, As(skip, c), On(u, w), nest, level);
      BranchLockstep(reg, bound, skip, u, tag, p.primary, c, w, nest + 1, level + 1);
      FallbackSplits(reg, tag, c, w, nest, level);
      FallbackSplits(reg, tag, As(skip, c), On(u, w), nest, level);
      AfterPrimaryOnward(reg, tag, c, x, nest + 1, level + 1);
      LockstepStays(|w.log|, bound, skip, u, x, y, f, g);
      if !Lockstep(|w.log|, bound, skip, u, f, g) {
        AfterPrimaryLockstep(reg, bound, skip, u, tag, c, x, nest + 1, level + 1);
        LockstepFrom(|w.log|, bound, skip, u, x.w, f, g);
      }
    } else {
      SameLockstep(|w.log|, bound, skip, u, ExecFallback(reg, tag, c, w, nest, level),
                   ExecFallback(reg, tag, As(skip, c), On(u, w), nest, level));
    }
  }

  // ---------- Refreshes of a request ----------

  /** The log of the background task started in context `c`: it enters the pipeline that the request
      entered, with a context made from `c`. */
  function RefreshLog(reg: Registry, c: Ctx, tape: nat -> Choice): seq<Event>
    requires Ranked(reg) && c.pipelineEntry.Some?
  {
    HandleQuery(reg, c.pipelineEntry.value, CloneForLazy(c), World(tape, 0, [])).w.log
  }

  ghost predicate FirstHit(log: seq<Event>, h: nat) { h < |log| && log[h].CacheHit? && NoHits(log, 0, h) }

  /** The state in which `handle` enters the pipeline for a fresh query. */
  predicate AtEntry(s: Ctx) {
    && s.response.None? && !s.served && s.rewrites == [] && !s.skipCache
    && s.entry == Some(EntryState(s.query, s.marks, s.stripEcs))
    && s.original == s.query
  }

  /** Whatever has happened to a context since the pipeline was entered, the background context made
      from it is the entry state with lookups turned off. */
  lemma CloneIsEntryState(s: Ctx, c: Ctx)
    requires AtEntry(s) && SameRequest(s, c)
    ensures CloneForLazy(c) == As(true, s)
  {
  }

  /** Both logs are those of a run from the entry state, the refresh's with lookups off. */
  lemma LogsFromEntry(
    reg: Registry, entry: Tag, query: Message, client: Option<IpAddr>, tape: nat -> Choice, u: nat -> Choice, h: nat)
    requires Ranked(reg)
    requires h < |RequestLog(reg, entry, query, client, tape)| && RequestLog(reg, entry, query, client, tape)[h].CacheHit?
    ensures var s := BeginPipeline(New(query, client), entry);
            var c := RequestLog(reg, entry, query, client, tape)[h].at;
            && AtEntry(s) && entry in reg.plugins && c.pipelineEntry == Some(entry)
            && RequestLog(reg, entry, query, client, tape) == Exec(reg, entry, s, World(tape, 0, []), 0, 0).w.log
            && CloneForLazy(c) == As(true, s)
            && RefreshLog(reg, c, u) == Exec(reg, entry, As(true, s), World(u, 0, []), 0, 0).w.log
  {
    hide Exec, Ranked;
    var s := BeginPipeline(New(query, client), entry);
    RequestsStartSound(query, client, reg, entry, tape);
    var log := RequestLog(reg, entry, query, client, tape);
    var c := log[h].at;
    assert LoggedContext(log[h]) == Some(c);
    assert BeginPipeline(As(true, s), entry) == As(true, s);
  }

  /** A background task started at the first hit of a request repeats that request's run up to the
      hit, in any surroundings that cancel and reply alike up to there: same events, hence the same
      cache step asked with the same key and the same lookups remembered. It takes no hit itself and
      starts no further refresh, whatever its surroundings. */
  lemma RefreshRepeatsRun(
    reg: Registry, entry: Tag, query: Message, client: Option<IpAddr>, tape: nat -> Choice, u: nat -> Choice, h: nat)
    requires Ranked(reg) && FirstHit(RequestLog(reg, entry, query, client, tape), h)
    requires Agree(tape, true, u, RequestLog(reg, entry, query, client, tape)[h].pos)
    ensures RequestLog(reg, entry, query, client, tape)[h].at.pipelineEntry.Some?
    ensures var fore := RequestLog(reg, entry, query, client, tape);
            var back := RefreshLog(reg, fore[h].at, u);
            && 0 < h && fore[..h] <= back
            && back[h - 1] == CacheAsked(fore[h].tag, fore[h].key)
            && (forall k | 0 <= k < |back| :: !back[k].CacheHit? && !back[k].RefreshKicked?)
  {
    hide Ranked, Exec, HandleQuery;
    LogsFromEntry(reg, entry, query, client, tape, u, h);
    var s := BeginPipeline(New(query, client), entry);
    var fore := RequestLog(reg, entry, query, client, tape);
    var back := RefreshLog(reg, fore[h].at, u);
    var w := World(tape, 0, []);
    ExecBounded(reg, entry, s, w, 0, 0);
    ExecLockstep(reg, fore[h].pos, true, u, entry, s, w, 0, 0);
    assert On(u, w) == World(u, 0, []);
    assert Diverged(0, fore, back);
    var h' :| DivergesAt(0, fore, back, h');
    assert h' == h;
    assert back[h - 1] == fore[..h][h - 1];
    ExecBounded(reg, entry, As(true, s), World(u, 0, []), 0, 0);
  }

  /** If the stale entry was asked for by a sequence's own cache step, the refresh run remembers
      that same lookup; and if it ends that sequence normally with a reply storable for it, it
      writes exactly that key of that cache. */
  lemma RefreshRewritesStaleEntry(
    reg: Registry, entry: Tag, query: Message, client: Option<IpAddr>, tape: nat -> Choice, u: nat -> Choice, h: nat,
    i: nat, n: nat)
    requires Ranked(reg) && FirstHit(RequestLog(reg, entry, query, client, tape), h)
    requires Agree(tape, true, u, RequestLog(reg, entry, query, client, tape)[h].pos)
    requires RequestLog(reg, entry, query, client, tape)[h].at.pipelineEntry.Some?
    requires var fore := RequestLog(reg, entry, query, client, tape);
             i < h && fore[i].Snapped? && fore[i].tag == fore[h].tag && fore[i].lookup.key == fore[h].key
    requires var fore := RequestLog(reg, entry, query, client, tape);
             var back := RefreshLog(reg, fore[h].at, u);
             && n < |back| && back[n].Ended? && back[n].run == fore[i].run
             && StoreLookup(back[n].at, fore[i].lookup, reg.encodes).Some?
    ensures var fore := RequestLog(reg, entry, query, client, tape);
            var back := RefreshLog(reg, fore[h].at, u);
            Stored(fore[i].run, fore[h].tag, fore[h].key, StoreLookup(back[n].at, fore[i].lookup, reg.encodes).value) in back
  {
    hide Ranked, Exec, HandleQuery, Clean, StoreLookup;
    LogsFromEntry(reg, entry, query, client, tape, u, h);
    RefreshRepeatsRun(reg, entry, query, client, tape, u, h);
    var s := BeginPipeline(New(query, client), entry);
    var fore := RequestLog(reg, entry, query, client, tape);
    var back := RefreshLog(reg, fore[h].at, u);
    var w := World(u, 0, []);
    assert back[i] == fore[..h][i];
    NothingIsClean(reg, Unmarked);
    ExecClean(reg, Unmarked, entry, As(true, s), w, 0, 0);
    SnapBeforeEnd(reg, back, i, n);
    EarnedAreWritten(reg, entry, As(true, s), w, 0, 0, i, n);
  }
}
