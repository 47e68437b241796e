/** The two modes of `src/plugin/fallback.rs` as polled futures.

A branch is determined by the context it is forked with: it completes some time after it is
started, or never, with an outcome and a final context. The task that runs the fallback is polled
at any non-decreasing sequence of times: early, late or more often than needed.
*/
module FallbackRace {
  import opened Wrappers
  import opened Context
  import opened Steps
  import opened Pipeline
  import opened Twins
  import opened Effects

  datatype BranchRun = BranchRun(takes: Option<nat>, out: Outcome, ctx: Ctx)

  /** What a branch does, by the context it is forked with. */
  type Course = Ctx -> BranchRun

  predicate Ready(b: BranchRun, started: nat, now: nat) { b.takes.Some? && started + b.takes.value <= now }

  /** The timed primary resolves when it completes or its window closes; completion is polled first. */
  predicate Resolves(p: BranchRun, started: nat, threshold: nat, now: nat) {
    Ready(p, started, now) || started + threshold <= now
  }

  predicate Wanted(p: BranchRun) { p.out.Done? && HasWantedAns(p.ctx) }

  predicate Wakes(start: nat, polls: seq<nat>) {
    && (forall i | 0 <= i < |polls| :: start <= polls[i])
    && (forall i, j | 0 <= i < j < |polls| :: polls[i] <= polls[j])
  }

  /** How a fallback leaves its caller: at the poll `at`, or not at all in the polls so far. */
  datatype Finish = Finish(at: Option<nat>, out: Outcome, ctx: Ctx)

  function OutcomeOf(s: BranchRun): Outcome { if s.out.Done? then Done(Continue) else s.out }

  // ---------- The program's loops ----------

  /** Where the standby task waits: on `select`, or, after one of the two resolved, on the future
      that `select` gave back. */
  datatype Phase = Selecting | Left | Right

  class Runner {
    var ctx: QueryContext

    constructor (ctx: QueryContext)
      ensures this.ctx == ctx
    {
      this.ctx := ctx;
    }

    /** A completed branch leaves its own fork in its final state; the caller absorbs the fork. */
    method AbsorbRun(fork: QueryContext, run: BranchRun)
      requires fork != ctx
      modifies ctx, fork
      ensures ctx.State() == Absorb(old(ctx.State()), run.ctx)
    {
      var c := run.ctx;
      fork.query, fork.original, fork.response := c.query, c.original, c.response;
      fork.marks, fork.rewrites, fork.entry, fork.pipelineEntry := c.marks, c.rewrites, c.entry, c.pipelineEntry;
      fork.skipCache, fork.stripEcs, fork.served, fork.client := c.skipCache, c.stripEcs, c.served, c.client;
      ctx.DoAbsorb(fork);
    }

    /** `always_standby`: both branches are started at once on forks of their own. */
    method Standby(primary: Course, secondary: Course, threshold: nat, start: nat, polls: seq<nat>)
      returns (at: Option<nat>, out: Outcome)
      modifies ctx
      ensures Finish(at, out, ctx.State())
           == StandbyFinish(old(ctx.State()), primary, secondary, threshold, start, polls)
    {
      var pctx := new QueryContext.ForBranch(ctx);
      var sctx := new QueryContext.ForBranch(ctx);
      var p, s := primary(pctx.State()), secondary(sctx.State());
      var phase := Selecting;
      ghost var r, q := FirstResolved(p, start, threshold, polls, 0), FirstReady(s, start, polls, 0);
      for i := 0 to |polls|
        invariant ctx.State() == old(ctx.State())
        invariant phase == Selecting ==> i <= r && i <= q
        invariant phase == Left ==> r < i <= q && !(Ready(p, start, polls[r]) && Wanted(p))
        invariant phase == Right ==> q < i <= r
      {
        var now := polls[i];
        if phase == Selecting {
          if Ready(p, start, now) {
            if Wanted(p) {
              AbsorbRun(pctx, p);
              return Some(i), Done(Continue);
            }
            phase := Left;
          } else if start + threshold <= now {
            phase := Left;
          } else if Ready(s, start, now) {
            phase := Right;
          }
        } else if phase == Right {
          // A ready backup waits for the primary's window, and then its kept result is used.
          if Ready(p, start, now) && Wanted(p) {
            AbsorbRun(pctx, p);
            return Some(i), Done(Continue);
          }
          if Resolves(p, start, threshold, now) {
            AbsorbRun(sctx, s);
            return Some(i), OutcomeOf(s);
          }
        }
        if phase == Left && Ready(s, start, now) {
          AbsorbRun(sctx, s);
          return Some(i), OutcomeOf(s);
        }
      }
      return None, Cancelled;
    }

    /** The default mode: the secondary is forked and started only once the primary has resolved. */
    method Sequential(primary: Course, secondary: Course, threshold: nat, start: nat, polls: seq<nat>)
      returns (at: Option<nat>, out: Outcome)
      modifies ctx
      ensures Finish(at, out, ctx.State())
           == SequentialFinish(old(ctx.State()), primary, secondary, threshold, start, polls)
    {
      var pctx := new QueryContext.ForBranch(ctx);
      var p := primary(pctx.State());
      var sctx, s, started := pctx, p, None;
      ghost var r := FirstResolved(p, start, threshold, polls, 0);
      for i := 0 to |polls|
        invariant ctx.State() == old(ctx.State()) && fresh(sctx) && fresh(pctx)
        invariant started.None? ==> i <= r
        invariant started.Some? ==>
                    && r < i && started.value == polls[r] && !(Ready(p, start, polls[r]) && Wanted(p))
                    && s == secondary(Fork(old(ctx.State()))) && FirstReady(s, polls[r], polls, r) >= i
      {
        var now := polls[i];
        if started.None? {
          if Ready(p, start, now) && Wanted(p) {
            AbsorbRun(pctx, p);
            return Some(i), Done(Continue);
          }
          if Resolves(p, start, threshold, now) {
            sctx := new QueryContext.ForBranch(ctx);
            s, started := secondary(sctx.State()), Some(now);
          }
        }
        if started.Some? && Ready(s, started.value, now) {
          AbsorbRun(sctx, s);
          return Some(i), OutcomeOf(s);
        }
      }
      return None, Cancelled;
    }
  }

  // ---------- Which branch wins, and when ----------

  /** The first poll from `from` on that finds the timed primary resolved, or `|polls|`. */
  function FirstResolved(p: BranchRun, started: nat, threshold: nat, polls: seq<nat>, from: nat): (k: nat)
    requires from <= |polls|
    ensures from <= k <= |polls|
    ensures k < |polls| ==> Resolves(p, started, threshold, polls[k])
    ensures forall j | from <= j < k :: !Resolves(p, started, threshold, polls[j])
    decreases |polls| - from
  {
    if from == |polls| || Resolves(p, started, threshold, polls[from]) then from
    else FirstResolved(p, started, threshold, polls, from + 1)
  }

  function FirstReady(s: BranchRun, started: nat, polls: seq<nat>, from: nat): (k: nat)
    requires from <= |polls|
    ensures from <= k <= |polls|
    ensures k < |polls| ==> Ready(s, started, polls[k])
    ensures forall j | from <= j < k :: !Ready(s, started, polls[j])
    decreases |polls| - from
  {
    if from == |polls| || Ready(s, started, polls[from]) then from else FirstReady(s, started, polls, from + 1)
  }

  /** The primary is taken exactly when the first poll that finds it resolved finds it completed,
      without error and with an answer of the wanted type. */
  predicate Preferred(p: BranchRun, threshold: nat, start: nat, polls: seq<nat>) {
    var r := FirstResolved(p, start, threshold, polls, 0);
    r < |polls| && Ready(p, start, polls[r]) && Wanted(p)
  }

  function Later(a: nat, b: nat): nat { if a < b then b else a }

  function StandbyFinish(c: Ctx, primary: Course, secondary: Course, threshold: nat, start: nat, polls: seq<nat>): Finish {
    var p, s := primary(Fork(c)), secondary(Fork(c));
    var r, q := FirstResolved(p, start, threshold, polls, 0), FirstReady(s, start, polls, 0);
    if Preferred(p, threshold, start, polls) then Finish(Some(r), Done(Continue), Absorb(c, p.ctx))
    else if r < |polls| && q < |polls| then Finish(Some(Later(r, q)), OutcomeOf(s), Absorb(c, s.ctx))
    else Finish(None, Cancelled, c)
  }

  function SequentialFinish(c: Ctx, primary: Course, secondary: Course, threshold: nat, start: nat, polls: seq<nat>): Finish {
    var p, s := primary(Fork(c)), secondary(Fork(c));
    var r := FirstResolved(p, start, threshold, polls, 0);
    if Preferred(p, threshold, start, polls) then Finish(Some(r), Done(Continue), Absorb(c, p.ctx))
    else if r < |polls| && FirstReady(s, polls[r], polls, r) < |polls| then
      Finish(Some(FirstReady(s, polls[r], polls, r)), OutcomeOf(s), Absorb(c, s.ctx))
    else Finish(None, Cancelled, c)
  }

  /** With the same polls, whenever the default mode has finished, standby has too, no later, with
      the same outcome and context. A standby that has finished is caught up with as soon as a poll
      comes late enough for a secondary started at the resolving poll. */
  lemma ModesAgree(c: Ctx, primary: Course, secondary: Course, threshold: nat, start: nat, polls: seq<nat>)
    requires Wakes(start, polls)
    ensures var a := StandbyFinish(c, primary, secondary, threshold, start, polls);
            var b := SequentialFinish(c, primary, secondary, threshold, start, polls);
            && (b.at.Some? ==> a.at.Some? && a.at.value <= b.at.value && a.out == b.out && a.ctx == b.ctx)
            && (a.at.Some? && b.at.None? ==>
                  var s := secondary(Fork(c));
                  var r := FirstResolved(primary(Fork(c)), start, threshold, polls, 0);
                  forall i | r <= i < |polls| :: polls[i] < polls[r] + s.takes.value)
  {
    var p, s := primary(Fork(c)), secondary(Fork(c));
    var r, q := FirstResolved(p, start, threshold, polls, 0), FirstReady(s, start, polls, 0);
    if r < |polls| && !Preferred(p, threshold, start, polls) {
      var k := FirstReady(s, polls[r], polls, r);
      if k < |polls| {
        assert Ready(s, start, polls[k]);
        assert q <= k;
      } else {
        assert forall i | r <= i < |polls| :: !Ready(s, polls[r], polls[i]);
      }
    }
  }

  /** When the primary is timely: always if it completes within its window, and otherwise exactly
      when no poll falls between the closing of the window and the completion. */
  lemma WindowDecides(p: BranchRun, threshold: nat, start: nat, polls: seq<nat>)
    requires Wakes(start, polls) && p.takes.Some? && Wanted(p)
    requires exists i | 0 <= i < |polls| :: start + p.takes.value <= polls[i]
    ensures Preferred(p, threshold, start, polls)
       <==> p.takes.value <= threshold
            || forall i | 0 <= i < |polls| :: !(start + threshold <= polls[i] < start + p.takes.value)
  {
    var r := FirstResolved(p, start, threshold, polls, 0);
    var i :| 0 <= i < |polls| && start + p.takes.value <= polls[i];
    assert Resolves(p, start, threshold, polls[i]);
    if p.takes.value > threshold && Preferred(p, threshold, start, polls) {
      forall j | 0 <= j < |polls| ensures !(start + threshold <= polls[j] < start + p.takes.value) {
        if start + threshold <= polls[j] {
          assert Resolves(p, start, threshold, polls[j]);
          assert polls[r] <= polls[j];
        }
      }
    }
  }

  /** Who wins, in either mode, if the primary completes within its window: exactly a primary without
      error whose NOERROR reply holds a record of the type its question asks for (A without a question). */
  lemma RaceWinner(
    c: Ctx, primary: Course, secondary: Course, threshold: nat, start: nat, polls: seq<nat>, standby: bool)
    requires var p := primary(c.(response := None, served := false)); p.takes.Some? && p.takes.value <= threshold
    ensures var p, s := primary(c.(response := None, served := false)), secondary(c.(response := None, served := false));
            var q, reply := p.ctx.query.questions, p.ctx.response;
            var wins := p.out.Done? && reply.Some? && reply.value.rcode == 0
                        && exists i | 0 <= i < |reply.value.answers| ::
                             reply.value.answers[i].Type() == if q == [] then 1 else q[0].qtype;
            var x := if wins then p.ctx else s.ctx;
            var f := if standby then StandbyFinish(c, primary, secondary, threshold, start, polls)
                     else SequentialFinish(c, primary, secondary, threshold, start, polls);
            f.at.Some? ==>
              && f.out == (if wins || s.out.Done? then Done(Continue) else s.out)
              && f.ctx == c.(query := x.query, response := x.response, marks := x.marks, rewrites := x.rewrites,
                             stripEcs := x.stripEcs, skipCache := x.skipCache, served := x.served)
  {
    WantedAnswer(primary(Fork(c)).ctx);
    hide HasWantedAns;
  }

  /** Nothing of a branch that lost survives, in either mode: replacing the primary by any other
      that is not preferred either, or a beaten secondary by any other, changes at most when the
      fallback finishes. */
  lemma LoserLeavesNothing(
    c: Ctx, primary: Course, secondary: Course, other: Course, threshold: nat, start: nat, polls: seq<nat>)
    requires Wakes(start, polls)
    ensures Preferred(primary(Fork(c)), threshold, start, polls) ==>
              StandbyFinish(c, primary, other, threshold, start, polls)
              == SequentialFinish(c, primary, secondary, threshold, start, polls)
    ensures !Preferred(primary(Fork(c)), threshold, start, polls) && !Preferred(other(Fork(c)), threshold, start, polls) ==>
              var a := StandbyFinish(c, primary, secondary, threshold, start, polls);
              var b := SequentialFinish(c, other, secondary, threshold, start, polls);
              a.at.Some? && b.at.Some? ==> a.out == b.out && a.ctx == b.ctx
  {
  }

  // ---------- The interpreter's fallback ----------

  ghost predicate IsFallback(reg: Registry, tag: Tag) {
    && Ranked(reg) && tag in reg.plugins && reg.plugins[tag].Fallback?
    && reg.plugins[tag].primary in reg.plugins && reg.plugins[tag].secondary in reg.plugins
  }

  /** The runs of the two branches inside `ExecFallback`. */
  function PrimaryRun(reg: Registry, tag: Tag, c: Ctx, w: World, nest: nat, level: nat): Res
    requires IsFallback(reg, tag)
  {
    Exec(reg, reg.plugins[tag].primary, Fork(c), w, nest + 1, level + 1)
  }

  function BetweenRuns(reg: Registry, tag: Tag, c: Ctx, w: World, nest: nat, level: nat): World
    requires IsFallback(reg, tag)
  {
    Note(PrimaryRun(reg, tag, c, w, nest, level).w, BranchDone(level + 1))
  }

  function SecondaryRun(reg: Registry, tag: Tag, c: Ctx, w: World, nest: nat, level: nat): Res
    requires IsFallback(reg, tag)
  {
    Exec(reg, reg.plugins[tag].secondary, Fork(c), Advance(BetweenRuns(reg, tag, c, w, nest, level)), nest + 1, level + 1)
  }

  /** The request is not dropped while it waits for the fallback. */
  predicate Awaited(reg: Registry, tag: Tag, c: Ctx, w: World, nest: nat, level: nat)
    requires IsFallback(reg, tag)
  {
    && !Next(BetweenRuns(reg, tag, c, w, nest, level)).cancel
    && !Next(Note(SecondaryRun(reg, tag, c, w, nest, level).w, BranchDone(level + 1))).cancel
  }

  /** `run` is what the interpreter's branch run `x` stands for: cut off by the window, or complete. */
  predicate StandsFor(x: Res, run: BranchRun, cutOff: bool) {
    if cutOff then x.out.Cancelled? else x.out == run.out && x.ctx == run.ctx && !run.out.Cancelled?
  }

  /** The interpreter's fallback is the polled race: whenever the race of two branches with these
      results has finished, in the mode of this fallback, outcome and context are the interpreter's. */
  lemma RaceIsFallback(
    reg: Registry, tag: Tag, c: Ctx, w: World, nest: nat, level: nat, primary: Course, secondary: Course, threshold: nat,
    start: nat, polls: seq<nat>)
    requires IsFallback(reg, tag)
    requires Preferred(primary(Fork(c)), threshold, start, polls) || Awaited(reg, tag, c, w, nest, level)
    requires var p := primary(Fork(c));
             var r := FirstResolved(p, start, threshold, polls, 0);
             r < |polls| ==> StandsFor(PrimaryRun(reg, tag, c, w, nest, level), p, !Ready(p, start, polls[r]))
    requires Preferred(primary(Fork(c)), threshold, start, polls)
             || StandsFor(SecondaryRun(reg, tag, c, w, nest, level), secondary(Fork(c)), false)
    ensures var race := if reg.plugins[tag].standby
                        then StandbyFinish(c, primary, secondary, threshold, start, polls)
                        else SequentialFinish(c, primary, secondary, threshold, start, polls);
            var r := ExecFallback(reg, tag, c, w, nest, level);
            race.at.Some? ==> r.out == race.out && r.ctx == race.ctx
  {
    hide Ranked, Calls, Exec;
    BranchesDescend(reg, tag);
  }

  /** Two fallbacks with the same branches, one in each mode, in surroundings that offer the same:
      same outcome and the same context. */
  lemma FallbackModesAgree(
    reg: Registry, a: Tag, b: Tag, c: Ctx, w: World, v: World, nest: nat, level: nat, nest': nat, level': nat)
    requires IsFallback(reg, a) && IsFallback(reg, b) && reg.plugins[a].standby && !reg.plugins[b].standby
    requires reg.plugins[a].primary == reg.plugins[b].primary && reg.plugins[a].secondary == reg.plugins[b].secondary
    requires SameSurroundings(w, c.skipCache, v, c.skipCache)
    requires Awaited(reg, a, c, w, nest, level) && Awaited(reg, b, c, v, nest', level')
    ensures var x, y := ExecFallback(reg, a, c, w, nest, level), ExecFallback(reg, b, c, v, nest', level');
            x.out == y.out && x.ctx == y.ctx
  {
    var f := reg.plugins[a];
    BranchesDescend(reg, a);
    BranchesDescend(reg, b);
    assert Twin(Exact, c, c, 0, 0);
    ExactIsImpartial(w.tape);
    hide Ranked, Calls, Exec, Twin, SameSurroundings, HasWantedAns, Impartial, Branch, Absorb;
    var x := Branch(reg, f.primary, c, w, nest + 1, level + 1);
    var y := Branch(reg, f.primary, c, v, nest' + 1, level' + 1);
    BranchTwins(Exact, {}, reg, a, f.primary, c, c, 0, 0, w, v, nest + 1, level + 1, nest' + 1, level' + 1);
    SameAbsorbed(c, x.ctx, y.ctx);
    AdvanceSame(x.w, c.skipCache, y.w, c.skipCache);
    var s := Branch(reg, f.secondary, c, Advance(x.w), nest + 1, level + 1);
    var t := Branch(reg, f.secondary, c, Advance(y.w), nest' + 1, level' + 1);
    BranchTwins(Exact, {}, reg, a, f.secondary, c, c, 0, 0, Advance(x.w), Advance(y.w), nest + 1, level + 1, nest' + 1, level' + 1);
    SameAbsorbed(c, s.ctx, t.ctx);
    FallbackSplits(reg, a, c, w, nest, level);
    FallbackSplits(reg, b, c, v, nest', level');
    AwaitedBranches(reg, a, c, w, nest, level);
    AwaitedBranches(reg, b, c, v, nest', level');
  }

  lemma AwaitedBranches(reg: Registry, tag: Tag, c: Ctx, w: World, nest: nat, level: nat)
    requires IsFallback(reg, tag) && Awaited(reg, tag, c, w, nest, level)
    ensures var x := Branch(reg, reg.plugins[tag].primary, c, w, nest + 1, level + 1);
            && !Next(x.w).cancel
            && !Next(Branch(reg, reg.plugins[tag].secondary, c, Advance(x.w), nest + 1, level + 1).w).cancel
  {
    hide Ranked, Calls, Exec;
  }

  lemma SameAbsorbed(c: Ctx, x: Ctx, y: Ctx)
    requires Twin(Exact, Absorb(c, x), Absorb(c, y), 0, 0) && x.skipCache == y.skipCache
    ensures Absorb(c, x) == Absorb(c, y)
  {
    var a, b := Absorb(c, x), Absorb(c, y);
    assert a.rewrites[0..] == a.rewrites && b.rewrites[0..] == b.rewrites;
    ExactLinks(a.rewrites, b.rewrites);
  }
}
