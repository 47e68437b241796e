/** Properties every run of the interpreter keeps, for every registry, tape and outcome. */
module PipelineInvariants {
  import opened Wrappers
  import opened DnsMessage
  import opened Context
  import opened Steps
  import opened Invariants
  import opened CachePolicy
  import opened Pipeline
  import opened PipelineBounds

  // ---------- Induction over the updates of a run ----------

  function Unskipped(c: Ctx): Ctx { c.(skipCache := false) }

  /** `p` survives every update allowed in its context, every fork, and absorbing a branch that has
      it, and does not depend on the flag that steers lookups. */
  ghost predicate Stable(p: Ctx -> bool, allowed: (Ctx, Op) -> bool) {
    && (forall c, op :: p(c) && allowed(c, op) ==> p(Apply(c, op)))
    && (forall c :: p(c) ==> p(Fork(c)))
    && (forall c :: p(c) ==> p(Unskipped(c)))
    && (forall c, d :: p(c) && p(d) ==> p(Absorb(c, d)))
  }

  /** What the surroundings supply is allowed, and so is every update a step makes by itself. */
  ghost predicate Permits(allowed: (Ctx, Op) -> bool, tape: nat -> Choice) {
    && (forall c, op: Op :: !op.Answer? && !op.ServeHit? ==> allowed(c, op))
    && (forall n, c: Ctx :: tape(n).reply(c.query).Some? ==> allowed(c, Answer(tape(n).reply(c.query).value)))
    && (forall n, c :: tape(n).hit.Some? ==> allowed(c, ServeHit(tape(n).hit.value.msg)))
  }

  lemma {:induction false} RedirectedKeeps(p: Ctx -> bool, allowed: (Ctx, Op) -> bool, rules: seq<Rule>, qname: string, c: Ctx)
    requires Stable(p, allowed) && (forall c, op: Op :: op.RewriteTo? ==> allowed(c, op))
    requires p(c)
    ensures p(Redirected(rules, qname, c))
  {
    if rules != [] {
      RedirectedKeeps(p, allowed, rules[1..], qname, c);
    }
  }

  lemma BuiltinKeeps(p: Ctx -> bool, allowed: (Ctx, Op) -> bool, tape: nat -> Choice, b: Builtin, c: Ctx)
    requires Stable(p, allowed) && Permits(allowed, tape)
    requires p(c)
    ensures p(AfterBuiltin(b, c))
  {
  }

  lemma EcsKeeps(p: Ctx -> bool, allowed: (Ctx, Op) -> bool, tape: nat -> Choice, cfg: EcsConfig, c: Ctx)
    requires Stable(p, allowed) && Permits(allowed, tape)
    requires p(c)
    ensures p(AfterEcs(cfg, c))
  {
  }

  /** The context in which a lookup was remembered, a hit taken, or a refresh started. */
  function LoggedContext(e: Event): Option<Ctx> {
    match e
    case Snapped(_, _, _, from) => Some(from.at)
    case CacheHit(_, _, _, at, _) => Some(at)
    case RefreshKicked(_, _, at) => Some(at)
    case _ => None
  }

  /** Every context added to the log has `p`. */
  ghost predicate LogKeeps(p: Ctx -> bool, from: World, to: World) {
    && from.log <= to.log
    && forall k | |from.log| <= k < |to.log| && LoggedContext(to.log[k]).Some? :: p(LoggedContext(to.log[k]).value)
  }

  ghost predicate Kept(p: Ctx -> bool, w: World, r: Res) { p(r.ctx) && LogKeeps(p, w, r.w) }

  lemma LogThen(p: Ctx -> bool, a: World, b: World, c: World)
    requires LogKeeps(p, a, b) && LogKeeps(p, b, c)
    ensures LogKeeps(p, a, c)
  {
    assert forall k | |a.log| <= k < |b.log| :: c.log[k] == b.log[k];
  }

  lemma LogOne(p: Ctx -> bool, w: World, e: Event)
    requires LoggedContext(e).Some? ==> p(LoggedContext(e).value)
    ensures LogKeeps(p, w, Note(w, e))
  {
  }

  lemma LogSnap(p: Ctx -> bool, w: World, run: nat, tag: Tag, snap: Option<Lookup>, from: Point)
    requires p(from.at)
    ensures LogKeeps(p, w, NoteSnap(w, run, tag, snap, from))
  {
  }

  lemma LogEnd(p: Ctx -> bool, reg: Registry, run: nat, a: Action, c: Ctx, writes: seq<Write>, w: World)
    ensures LogKeeps(p, w, End(reg, run, a, c, writes, w).w)
  {
    StoreEventsAreStores(run, c, writes, reg.encodes);
    var stores := StoreEvents(run, c, writes, reg.encodes);
    var to := End(reg, run, a, c, writes, w).w.log;
    forall k | |w.log| <= k < |to| ensures LoggedContext(to[k]).None? {
      if k < |w.log| + |stores| {
        assert to[k] == stores[k - |w.log|] && to[k] in stores;
      }
    }
  }

  lemma CacheKeeps(
    p: Ctx -> bool, allowed: (Ctx, Op) -> bool, reg: Registry, tag: Tag, everything: bool, c: Ctx, w: World, n: nat)
    requires Stable(p, allowed) && Permits(allowed, w.tape) && p(c)
    ensures Kept(p, w, ExecCache(reg, tag, everything, c, w.tape(n), w))
  {
  }

  /** A stable property of the context at the start of a run holds when it is left, whether
      the run finishes, fails or is cancelled, and in every context it logs. */
  lemma {:induction false} ExecKeeps(
    p: Ctx -> bool, allowed: (Ctx, Op) -> bool, reg: Registry, tag: Tag, c: Ctx, w: World, nest: nat, level: nat)
    requires Ranked(reg) && Stable(p, allowed) && Permits(allowed, w.tape)
    requires p(c)
    ensures Kept(p, w, Exec(reg, tag, c, w, nest, level))
    decreases Depth(reg, tag), 1, 0
  {
    hide Ranked, Calls, LogKeeps, RunSteps, ExecFallback, ExecCache, Apply;
    var r := Exec(reg, tag, c, w, nest, level);
    if tag !in reg.plugins {
      LogNone(p, w);
    } else {
      var w1 := Note(Advance(w), Enter(tag, nest));
      LogEnter(p, w, Enter(tag, nest));
      if !Next(w).cancel {
        match reg.plugins[tag] {
          case Sequence(_) => RunStepsKeeps(p, allowed, reg, tag, |w.log|, 0, c, [], w1, nest, level);
          case Fallback(_, _, _) => FallbackKeeps(p, allowed, reg, tag, c, w1, nest, level);
          case CacheStep(everything) =>
            CacheKeeps(p, allowed, reg, tag, everything, c, w1, w.pos);
          case RedirectStep(rules) =>
            RedirectedKeeps(p, allowed, rules, RedirectName(c), c);
            LogNone(p, w1);
          case EcsStep(cfg) =>
            EcsKeeps(p, allowed, w.tape, cfg, c);
            LogNone(p, w1);
          case _ => LogNone(p, w1);
        }
        LogThen(p, w, w1, r.w);
      }
    }
  }

  lemma LogNone(p: Ctx -> bool, w: World)
    ensures LogKeeps(p, w, w)
  {
  }

  lemma LogEnter(p: Ctx -> bool, w: World, e: Event)
    requires e.Enter?
    ensures LogKeeps(p, w, Note(Advance(w), e))
  {
  }

  lemma {:induction false} RunStepsKeeps(
    p: Ctx -> bool, allowed: (Ctx, Op) -> bool, reg: Registry, tag: Tag, run: nat, i: nat, c: Ctx, writes: seq<Write>, w: World,
    nest: nat, level: nat)
    requires Ranked(reg) && Stable(p, allowed) && Permits(allowed, w.tape)
    requires tag in reg.plugins && reg.plugins[tag].Sequence? && i <= |reg.plugins[tag].steps|
    requires p(c)
    ensures Kept(p, w, RunSteps(reg, tag, run, i, c, writes, w, nest, level))
    decreases Depth(reg, tag), 0, 2 * (|reg.plugins[tag].steps| - i) + 2
  {
    hide Ranked, Calls, LogKeeps, Exec, End, AfterAction, Stable, Permits;
    var steps := reg.plugins[tag].steps;
    var r := RunSteps(reg, tag, run, i, c, writes, w, nest, level);
    if i == |steps| {
      LogEnd(p, reg, run, Continue, c, writes, w);
      EndContext(reg, run, Continue, c, writes, w);
    } else if !MatchesAll(steps[i].matchers, c) {
      RunStepsKeeps(p, allowed, reg, tag, run, i + 1, c, writes, w, nest, level);
    } else {
      StepDescends(reg, tag, i);
      var w1 := Note(w, StepTaken(run, i, level));
      LogOne(p, w, StepTaken(run, i, level));
      match steps[i].exec {
        case Call(t) =>
          if t in reg.plugins {
            var snap := SnapshotAt(reg, t, c);
            StaysUnskipped(p, allowed, c);
            CallKeeps(p, allowed, reg, tag, run, Here(tag, i, c, w1), t, c, w1, nest, level);
            var x := Exec(reg, t, c, NoteSnap(w1, run, t, snap, Here(tag, i, c, w1)), nest + 1, level);
            if x.out == Done(Continue) {
              RunStepsKeeps(p, allowed, reg, tag, run, i + 1, x.ctx, AddWrite(writes, t, snap), x.w, nest, level);
            } else if x.out == Done(Accept) {
              LogEnd(p, reg, run, Accept, x.ctx, AddWrite(writes, t, snap), x.w);
              EndContext(reg, run, Accept, x.ctx, AddWrite(writes, t, snap), x.w);
            } else {
              LogOne(p, x.w, Aborted(run));
            }
            LogThen(p, w1, x.w, r.w);
          } else {
            LogOne(p, w1, Aborted(run));
          }
        case Run(b) => AfterActionKeeps(p, allowed, reg, tag, run, i, b, c, writes, w1, nest, level);
      }
      LogThen(p, w, w1, r.w);
    }
  }

  lemma StaysUnskipped(p: Ctx -> bool, allowed: (Ctx, Op) -> bool, c: Ctx)
    requires Stable(p, allowed) && p(c)
    ensures p(c.(skipCache := false))
  {
    assert Unskipped(c) == c.(skipCache := false);
  }

  lemma EndContext(reg: Registry, run: nat, a: Action, c: Ctx, writes: seq<Write>, w: World)
    ensures End(reg, run, a, c, writes, w).ctx == c
  {
  }

  lemma {:induction false} CallKeeps(
    p: Ctx -> bool, allowed: (Ctx, Op) -> bool, reg: Registry, tag: Tag, run: nat, from: Point, t: Tag, c: Ctx, w: World,
    nest: nat, level: nat)
    requires Ranked(reg) && Stable(p, allowed) && Permits(allowed, w.tape)
    requires t in reg.plugins && Depth(reg, t) < Depth(reg, tag)
    requires p(c) && p(from.at)
    ensures Kept(p, w, Exec(reg, t, c, NoteSnap(w, run, t, SnapshotAt(reg, t, c), from), nest + 1, level))
    decreases Depth(reg, tag), 0, 0
  {
    hide LogKeeps, Stable, Permits;
    var snap := SnapshotAt(reg, t, c);
    var w1 := NoteSnap(w, run, t, snap, from);
    LogSnap(p, w, run, t, snap, from);
    ExecKeeps(p, allowed, reg, t, c, w1, nest + 1, level);
    LogThen(p, w, w1, Exec(reg, t, c, w1, nest + 1, level).w);
  }

  lemma {:induction false} AfterActionKeeps(
    p: Ctx -> bool, allowed: (Ctx, Op) -> bool, reg: Registry, tag: Tag, run: nat, i: nat, b: Builtin, c: Ctx, writes: seq<Write>,
    w: World, nest: nat, level: nat)
    requires Ranked(reg) && Stable(p, allowed) && Permits(allowed, w.tape)
    requires tag in reg.plugins && reg.plugins[tag].Sequence? && i < |reg.plugins[tag].steps|
    requires b.DoGoto? && b.tag in reg.plugins ==> Depth(reg, b.tag) < Depth(reg, tag)
    requires p(c)
    ensures Kept(p, w, AfterAction(reg, tag, run, i, b, c, writes, w, nest, level))
    decreases Depth(reg, tag), 0, 2 * (|reg.plugins[tag].steps| - i) + 1
  {
    hide Ranked, Calls, LogKeeps, Exec, RunSteps, End, Stable, Permits, AfterBuiltin;
    BuiltinKeeps(p, allowed, w.tape, b, c);
    var c1 := AfterBuiltin(b, c);
    match ActionOf(b)
    case Err(_) => LogOne(p, w, Aborted(run));
    case Ok(Continue) => RunStepsKeeps(p, allowed, reg, tag, run, i + 1, c1, writes, w, nest, level);
    case Ok(Accept) =>
      var w1 := Note(w, AcceptTaken(level));
      LogOne(p, w, AcceptTaken(level));
      LogEnd(p, reg, run, Accept, c1, writes, w1);
      EndContext(reg, run, Accept, c1, writes, w1);
      LogThen(p, w, w1, End(reg, run, Accept, c1, writes, w1).w);
    case Ok(Return) =>
      LogEnd(p, reg, run, Continue, c1, writes, w);
      EndContext(reg, run, Continue, c1, writes, w);
    case Ok(Goto(t)) =>
      StaysUnskipped(p, allowed, c);
      JumpKeeps(p, allowed, reg, tag, run, Here(tag, i, c, w), t, c1, writes, w, nest, level);
  }

  lemma {:induction false} JumpKeeps(
    p: Ctx -> bool, allowed: (Ctx, Op) -> bool, reg: Registry, tag: Tag, run: nat, from: Point, t: Tag, c: Ctx, writes: seq<Write>,
    w: World, nest: nat, level: nat)
    requires Ranked(reg) && Stable(p, allowed) && Permits(allowed, w.tape)
    requires t in reg.plugins ==> Depth(reg, t) < Depth(reg, tag)
    requires p(c) && p(from.at)
    ensures Kept(p, w, Jump(reg, tag, run, from, t, c, writes, w, nest, level))
    decreases Depth(reg, tag), 0, 1
  {
    hide Ranked, Calls, LogKeeps, Exec, End, Stable, Permits;
    if t in reg.plugins {
      var snap := SnapshotAt(reg, t, c);
      var x := Exec(reg, t, c, NoteSnap(w, run, t, snap, from), nest + 1, level);
      CallKeeps(p, allowed, reg, tag, run, from, t, c, w, nest, level);
      if x.out.Done? {
        LogEnd(p, reg, run, x.out.action, x.ctx, AddWrite(writes, t, snap), x.w);
        EndContext(reg, run, x.out.action, x.ctx, AddWrite(writes, t, snap), x.w);
      } else {
        LogOne(p, x.w, Aborted(run));
      }
      LogThen(p, w, x.w, Jump(reg, tag, run, from, t, c, writes, w, nest, level).w);
    } else {
      LogOne(p, w, Aborted(run));
    }
  }

  /** One branch of a fallback, with the mark that it was left. */
  lemma {:induction false} BranchKeeps(
    p: Ctx -> bool, allowed: (Ctx, Op) -> bool, reg: Registry, tag: Tag, t: Tag, c: Ctx, w: World, nest: nat, level: nat)
    requires Ranked(reg) && Stable(p, allowed) && Permits(allowed, w.tape)
    requires t in reg.plugins && Depth(reg, t) < Depth(reg, tag)
    requires p(c)
    ensures var x := Exec(reg, t, Fork(c), w, nest, level);
            p(x.ctx) && LogKeeps(p, w, Note(x.w, BranchDone(level)))
    decreases Depth(reg, tag), 0, 0
  {
    var x := Exec(reg, t, Fork(c), w, nest, level);
    ExecKeeps(p, allowed, reg, t, Fork(c), w, nest, level);
    LogOne(p, x.w, BranchDone(level));
    LogThen(p, w, x.w, Note(x.w, BranchDone(level)));
  }

  lemma {:induction false} FallbackKeeps(
    p: Ctx -> bool, allowed: (Ctx, Op) -> bool, reg: Registry, tag: Tag, c: Ctx, w: World, nest: nat, level: nat)
    requires Ranked(reg) && Stable(p, allowed) && Permits(allowed, w.tape)
    requires tag in reg.plugins && reg.plugins[tag].Fallback?
    requires p(c)
    ensures Kept(p, w, ExecFallback(reg, tag, c, w, nest, level))
    decreases Depth(reg, tag), 0, 1
  {
    hide Ranked, Calls, Exec, Permits;
    BranchesDescend(reg, tag);
    var f := reg.plugins[tag];
    if f.primary in reg.plugins && f.secondary in reg.plugins {
      BranchKeeps(p, allowed, reg, tag, f.primary, c, w, nest + 1, level + 1);
      var r := Exec(reg, f.primary, Fork(c), w, nest + 1, level + 1);
      var w1 := Note(r.w, BranchDone(level + 1));
      BranchKeeps(p, allowed, reg, tag, f.secondary, c, Advance(w1), nest + 1, level + 1);
      var w2 := Note(Exec(reg, f.secondary, Fork(c), Advance(w1), nest + 1, level + 1).w, BranchDone(level + 1));
      LogThen(p, w, w1, w2);
    }
  }

  // ---------- Instances ----------

  /** What only the request boundary sets. */
  predicate SameRequest(c: Ctx, d: Ctx) {
    && d.original == c.original
    && d.entry == c.entry
    && d.pipelineEntry == c.pipelineEntry
    && d.client == c.client
  }

  ghost function Anything(): (Ctx, Op) -> bool { (c: Ctx, op: Op) => true }

  /** `d` can follow `c` in one run: sound, of the same request, with every rewrite of `c` still
      there, and with a set strip flag kept. */
  predicate Continues(c: Ctx, d: Ctx) {
    && Inv(d)
    && SameRequest(c, d)
    && c.rewrites <= d.rewrites
    && (c.stripEcs ==> d.stripEcs)
  }

  lemma ApplyContinues(c: Ctx, d: Ctx, op: Op)
    requires Continues(c, d)
    ensures Continues(c, Apply(d, op))
  {
    ApplyKeepsInv(d, op);
    ApplyFrame(d, op);
    assert Apply(d, op).pipelineEntry == d.pipelineEntry;
  }

  lemma UnskippedContinues(c: Ctx, d: Ctx)
    requires Continues(c, d)
    ensures Continues(c, Unskipped(d))
  {
  }

  lemma BranchContinues(c: Ctx, d: Ctx, e: Ctx)
    requires Continues(c, d) && Continues(c, e)
    ensures Continues(c, Fork(d)) && Continues(c, Absorb(d, e))
  {
    ForkKeepsInv(d);
    AbsorbKeepsInv(d, e);
  }

  /** Every context a run can leave, by any outcome, continues the one it was given, and so does
      every context in which it remembers a lookup, takes a cache hit or starts a refresh. */
  lemma RunKeepsContext(reg: Registry, tag: Tag, c: Ctx, w: World, nest: nat, level: nat)
    requires Ranked(reg) && Inv(c)
    ensures Continues(c, Exec(reg, tag, c, w, nest, level).ctx)
    ensures Exec(reg, tag, c, w, nest, level).ctx.skipCache == c.skipCache
    ensures var log := Exec(reg, tag, c, w, nest, level).w.log;
            && w.log <= log
            && forall k | |w.log| <= k < |log| && LoggedContext(log[k]).Some? :: Continues(c, LoggedContext(log[k]).value)
  {
    var p := (d: Ctx) => Continues(c, d);
    forall d, op | p(d) ensures p(Apply(d, op)) { ApplyContinues(c, d, op); }
    forall d | p(d) ensures p(Unskipped(d)) { UnskippedContinues(c, d); }
    forall d | p(d) ensures p(Fork(d)) { BranchContinues(c, d, d); }
    forall d, e | p(d) && p(e) ensures p(Absorb(d, e)) { BranchContinues(c, d, e); }
    if tag in reg.plugins { ExecBounded(reg, tag, c, w, nest, level); }
    ExecKeeps(p, Anything(), reg, tag, c, w, nest, level);
  }

  /** The same for the rest of a sequence, from any of its steps. */
  lemma RestKeepsContext(
    reg: Registry, tag: Tag, run: nat, i: nat, c: Ctx, writes: seq<Write>, w: World, nest: nat, level: nat)
    requires Ranked(reg) && Inv(c)
    requires tag in reg.plugins && reg.plugins[tag].Sequence? && i <= |reg.plugins[tag].steps|
    ensures Continues(c, RunSteps(reg, tag, run, i, c, writes, w, nest, level).ctx)
  {
    var p := (d: Ctx) => Continues(c, d);
    forall d, op | p(d) ensures p(Apply(d, op)) { ApplyContinues(c, d, op); }
    forall d | p(d) ensures p(Unskipped(d)) { UnskippedContinues(c, d); }
    forall d | p(d) ensures p(Fork(d)) { BranchContinues(c, d, d); }
    forall d, e | p(d) && p(e) ensures p(Absorb(d, e)) { BranchContinues(c, d, e); }
    RunStepsKeeps(p, Anything(), reg, tag, run, i, c, writes, w, nest, level);
  }

  /** A way to tell messages apart by their additional section, which no step rewrites;
      or none, for statements that need no such distinction. */
  datatype Mark = Unmarked | ByAdditionals(holds: seq<Record> -> bool)

  predicate Marked(mark: Mark, m: Message) { mark.ByAdditionals? && mark.holds(m.additionals) }

  /** `mark` tells what a cache supplies from every other answer. */
  ghost predicate Tells(mark: Mark, tape: nat -> Choice) {
    mark.ByAdditionals? ==>
      && !mark.holds([])
      && (forall n, q :: tape(n).reply(q).Some? ==> !Marked(mark, tape(n).reply(q).value))
      && (forall n :: tape(n).hit.Some? ==> Marked(mark, tape(n).hit.value.msg))
  }

  predicate FlagIsExact(mark: Mark, c: Ctx) {
    mark.ByAdditionals? && c.response.Some? ==> (Marked(mark, c.response.value) <==> c.served)
  }

  lemma ApplyKeepsFlag(mark: Mark, c: Ctx, op: Op)
    requires mark.ByAdditionals? ==> !mark.holds([])
    requires FlagIsExact(mark, c)
    requires op.Answer? ==> !Marked(mark, op.m)
    requires op.ServeHit? && mark.ByAdditionals? ==> Marked(mark, op.m)
    ensures FlagIsExact(mark, Apply(c, op))
  {
  }

  lemma BuiltinKeepsFlag(mark: Mark, b: Builtin, c: Ctx)
    requires mark.ByAdditionals? ==> !mark.holds([])
    requires FlagIsExact(mark, c)
    ensures FlagIsExact(mark, AfterBuiltin(b, c))
  {
  }

  /** Exactly the replies flagged as served from a cache carry the mark of what a cache supplied. */
  lemma ServedFlagIsExact(mark: Mark, reg: Registry, tag: Tag, c: Ctx, w: World, nest: nat, level: nat)
    requires Ranked(reg) && Tells(mark, w.tape) && FlagIsExact(mark, c)
    ensures FlagIsExact(mark, Exec(reg, tag, c, w, nest, level).ctx)
  {
    var p := (d: Ctx) => FlagIsExact(mark, d);
    var allowed := (d: Ctx, op: Op) =>
      (op.Answer? ==> !Marked(mark, op.m)) && (op.ServeHit? && mark.ByAdditionals? ==> Marked(mark, op.m));
    forall d, op | p(d) && allowed(d, op) ensures p(Apply(d, op)) { ApplyKeepsFlag(mark, d, op); }
    ExecKeeps(p, allowed, reg, tag, c, w, nest, level);
  }
}
