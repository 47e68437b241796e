/** Where a remembered lookup leads.

The rest of a sequence run, taken up again at the point where a lookup was remembered, ends as
that run ended: with the same outcome and a twin of the context its writes were made from.
*/
module Origins {
  import opened Wrappers
  import opened Context
  import opened CacheKey
  import opened Steps
  import opened Pipeline
  import opened PipelineInvariants
  import opened PipelineBounds
  import opened PipelineWrites
  import opened Twins

  /** The surroundings as a run meets them: without hits if it does not look up. */
  function Met(tape: nat -> Choice, skip: bool): nat -> Choice {
    (n: nat) => tape(n).(hit := HitFor(skip, tape(n)))
  }

  /** The rest of the sequence from `from` on. */
  function Resumed(reg: Registry, met: nat -> Choice, from: Point): Res
    requires Ranked(reg) && from.tag in reg.plugins && reg.plugins[from.tag].Sequence?
    requires from.step <= |reg.plugins[from.tag].steps|
  {
    RunSteps(reg, from.tag, 0, from.step, from.at, [], World(met, from.pos, []), 0, 0)
  }

  /** Equal but for the flag that steers lookups, and what only the request boundary sets. */
  predicate SameEnd(c: Ctx, d: Ctx) {
    && c.query == d.query && c.response == d.response && c.rewrites == d.rewrites
    && c.marks == d.marks && c.stripEcs == d.stripEcs && c.served == d.served && c.client == d.client
  }

  /** Taken up at `e`, the run ends with `out` in `ctx`. */
  predicate Leads(reg: Registry, met: nat -> Choice, e: Event, out: Outcome, ctx: Ctx)
    requires Ranked(reg) && e.Snapped?
  {
    && PointTakes(reg, e.from, e.tag)
    && Resumed(reg, met, e.from).out == out
    && SameEnd(Resumed(reg, met, e.from).ctx, ctx)
  }

  /** Each remembered lookup of `run` leads to `out` and `ctx`. */
  ghost predicate Pending(reg: Registry, met: nat -> Choice, log: seq<Event>, run: nat, out: Outcome, ctx: Ctx)
    requires Ranked(reg)
  {
    forall i | 0 <= i < |log| && log[i].Snapped? && log[i].run == run :: Leads(reg, met, log[i], out, ctx)
  }

  predicate LeadsToEnd(reg: Registry, met: nat -> Choice, e: Event, end: Event)
    requires Ranked(reg) && e.Snapped? && end.Ended?
  {
    PointTakes(reg, e.from, e.tag) && var x := Resumed(reg, met, e.from); x.out.Done? && SameEnd(x.ctx, end.at)
  }

  /** Every lookup of an ended run leads to its end. */
  ghost predicate Resumes(reg: Registry, met: nat -> Choice, log: seq<Event>)
    requires Ranked(reg)
  {
    forall i, n | 0 <= i < |log| && 0 <= n < |log| && log[i].Snapped? && log[n].Ended? && log[n].run == log[i].run ::
      LeadsToEnd(reg, met, log[i], log[n])
  }

  /** `met` is the run's tape as the run meets it. */
  ghost predicate Meets(met: nat -> Choice, w: World, skip: bool) {
    forall n :: SameChoice(met(n), false, w.tape(n), skip)
  }

  lemma AddOther(reg: Registry, met: nat -> Choice, log: seq<Event>, e: Event)
    requires Ranked(reg) && Resumes(reg, met, log)
    requires !e.Ended? && (e.Snapped? ==> Open(log, e.run))
    ensures Resumes(reg, met, log + [e])
  {
    hide LeadsToEnd;
    var to := log + [e];
    forall i, n | 0 <= i < |to| && 0 <= n < |to| && to[i].Snapped? && to[n].Ended? && to[n].run == to[i].run
      ensures LeadsToEnd(reg, met, to[i], to[n])
    {
      assert to[n] == log[n];
      assert Closes(log[n], to[i].run);
      assert i < |log|;
    }
  }

  lemma EndResumes(reg: Registry, met: nat -> Choice, run: nat, a: Action, c: Ctx, writes: seq<Write>, w: World)
    requires Ranked(reg) && Resumes(reg, met, w.log) && Pending(reg, met, w.log, run, Done(a), c)
    ensures Resumes(reg, met, End(reg, run, a, c, writes, w).w.log)
    ensures Pending(reg, met, End(reg, run, a, c, writes, w).w.log, run, Done(a), c)
  {
    StoreEventsAreStores(run, c, writes, reg.encodes);
    var stores := StoreEvents(run, c, writes, reg.encodes);
    var to := End(reg, run, a, c, writes, w).w.log;
    var last := |w.log| + |stores|;
    forall k | |w.log| <= k < last ensures to[k].Stored? {
      assert to[k] == stores[k - |w.log|] && to[k] in stores;
    }
    assert to[last] == EndOf(run, c);
    assert forall k | 0 <= k < |w.log| :: to[k] == w.log[k];
    hide SameEnd, Resumed, PointTakes, StoreEvents;
    forall i, n | 0 <= i < |to| && 0 <= n < |to| && to[i].Snapped? && to[n].Ended? && to[n].run == to[i].run
      ensures LeadsToEnd(reg, met, to[i], to[n])
    {
      assert to[i] == w.log[i];
      if n == last {
        assert Leads(reg, met, to[i], Done(a), c);
      } else {
        assert LeadsToEnd(reg, met, w.log[i], w.log[n]);
      }
    }
  }

  /** A step's own point leads to the end of the run that takes it. */
  lemma HereLeads(
    reg: Registry, met: nat -> Choice, tag: Tag, run: nat, i: nat, c: Ctx, writes: seq<Write>, w: World, pos: World,
    nest: nat, level: nat)
    requires Ranked(reg) && tag in reg.plugins && reg.plugins[tag].Sequence? && i < |reg.plugins[tag].steps|
    requires Meets(met, w, c.skipCache) && pos.pos == w.pos
    ensures var x := Resumed(reg, met, Here(tag, i, c, pos));
            var f := RunSteps(reg, tag, run, i, c, writes, w, nest, level);
            x.out == f.out && SameEnd(x.ctx, f.ctx)
  {
    var steps := reg.plugins[tag].steps;
    var c', v := c.(skipCache := false), World(met, w.pos, []);
    forall n: nat ensures SameChoice(Ahead(v, n), false, Ahead(w, n), c.skipCache) {
      assert SameChoice(met(w.pos + n), false, w.tape(w.pos + n), c.skipCache);
    }
    assert c'.rewrites[0..] == c.rewrites[0..] && Twin(Exact, c', c, 0, 0);
    ExactIsImpartial(met);
    hide RunSteps, SameSurroundings, Impartial;
    RunStepsTwins(Exact, {}, reg, tag, tag, 0, run, i, i, c', c, 0, 0, [], writes, v, w, 0, 0, nest, level);
    var x, f := Resumed(reg, met, Here(tag, i, c, pos)), RunSteps(reg, tag, run, i, c, writes, w, nest, level);
    assert x.ctx.rewrites == x.ctx.rewrites[0..] && f.ctx.rewrites == f.ctx.rewrites[0..];
    ExactLinks(x.ctx.rewrites[0..], f.ctx.rewrites[0..]);
  }

  lemma PendingStays(
    reg: Registry, met: nat -> Choice, from: seq<Event>, to: seq<Event>, run: nat, out: Outcome, ctx: Ctx)
    requires Ranked(reg) && Pending(reg, met, from, run, out, ctx) && NewRuns(from, to) && run < |from|
    ensures Pending(reg, met, to, run, out, ctx)
  {
    hide Leads;
    forall i | 0 <= i < |to| && to[i].Snapped? && to[i].run == run ensures Leads(reg, met, to[i], out, ctx) {
      assert RunOf(to[i]) == Some(run);
      assert i < |from| && to[i] == from[i];
    }
  }

  lemma PendingEvent(
    reg: Registry, met: nat -> Choice, log: seq<Event>, e: Event, run: nat, out: Outcome, ctx: Ctx)
    requires Ranked(reg) && Pending(reg, met, log, run, out, ctx)
    requires e.Snapped? && e.run == run ==> Leads(reg, met, e, out, ctx)
    ensures Pending(reg, met, log + [e], run, out, ctx)
  {
    hide Leads;
    assert forall i | 0 <= i < |log| :: (log + [e])[i] == log[i];
  }

  // ---------- Induction over a run ----------

  /** All so far is in order, and the open `run` is bound to end with `out` in `ctx`. */
  ghost predicate Underway(
    reg: Registry, met: nat -> Choice, log: seq<Event>, run: nat, writes: seq<Write>, out: Outcome, ctx: Ctx)
    requires Ranked(reg)
  {
    && Clean(reg, Unmarked, log) && Open(log, run) && writes == SnapsOf(log, run)
    && Resumes(reg, met, log) && Pending(reg, met, log, run, out, ctx)
  }

  lemma StepUnderway(
    reg: Registry, met: nat -> Choice, w: World, e: Event, run: nat, writes: seq<Write>, out: Outcome, ctx: Ctx)
    requires Ranked(reg) && Underway(reg, met, w.log, run, writes, out, ctx)
    requires (e.StepTaken? && e.run == run) || e.AcceptTaken?
    ensures Underway(reg, met, Note(w, e).log, run, writes, out, ctx)
  {
    hide Clean, Open, SnapsOf, Resumes, Pending;
    AddStep(reg, Unmarked, e, run, w);
    AddOther(reg, met, w.log, e);
    PendingEvent(reg, met, w.log, e, run, out, ctx);
  }

  lemma SnapUnderway(
    reg: Registry, met: nat -> Choice, run: nat, from: Point, t: Tag, c: Ctx, writes: seq<Write>, w: World, out: Outcome,
    ctx: Ctx)
    requires Ranked(reg) && Underway(reg, met, w.log, run, writes, out, ctx)
    requires t in reg.plugins && PointTakes(reg, from, t) && from.at == c.(skipCache := false)
    requires Resumed(reg, met, from).out == out && SameEnd(Resumed(reg, met, from).ctx, ctx)
    ensures var snap := SnapshotAt(reg, t, c);
            Underway(reg, met, NoteSnap(w, run, t, snap, from).log, run, AddWrite(writes, t, snap), out, ctx)
  {
    hide Clean, Open, SnapsOf, Resumes, Pending, Resumed, SameEnd, PointTakes;
    var snap := SnapshotAt(reg, t, c);
    AddSnap(reg, Unmarked, run, from, t, c, w, writes);
    if snap.Some? {
      var e := Snapped(run, t, snap.value, from);
      assert Leads(reg, met, e, out, ctx);
      AddOther(reg, met, w.log, e);
      PendingEvent(reg, met, w.log, e, run, out, ctx);
    }
  }

  lemma {:induction false} ExecResumes(
    reg: Registry, met: nat -> Choice, tag: Tag, c: Ctx, w: World, nest: nat, level: nat)
    requires Ranked(reg) && Meets(met, w, c.skipCache)
    requires Clean(reg, Unmarked, w.log) && Resumes(reg, met, w.log)
    ensures Resumes(reg, met, Exec(reg, tag, c, w, nest, level).w.log)
    decreases Depth(reg, tag), 1, 0
  {
    hide Ranked, Clean, Resumes, Pending, RunSteps, ExecFallback, ExecCache, Apply;
    if tag in reg.plugins {
      var w1 := Note(Advance(w), Enter(tag, nest));
      AddEvent(reg, Unmarked, w.log, Enter(tag, nest));
      AddOther(reg, met, w.log, Enter(tag, nest));
      if !Next(w).cancel {
        match reg.plugins[tag]
        case Sequence(_) =>
          RunIsNew(reg, Unmarked, w.log, Enter(tag, nest));
          var f := RunSteps(reg, tag, |w.log|, 0, c, [], w1, nest, level);
          NothingPending(reg, met, w.log, Enter(tag, nest), f.out, f.ctx);
          RunStepsResumes(reg, met, tag, |w.log|, 0, c, [], w1, nest, level);
        case Fallback(_, _, _) => FallbackResumes(reg, met, tag, c, w1, nest, level);
        case CacheStep(everything) => CacheResumes(reg, met, tag, everything, c, Next(w), w1);
        case _ =>
      }
    }
  }

  lemma NothingPending(reg: Registry, met: nat -> Choice, log: seq<Event>, e: Event, out: Outcome, ctx: Ctx)
    requires Ranked(reg) && Clean(reg, Unmarked, log) && e.Enter?
    ensures Pending(reg, met, log + [e], |log|, out, ctx)
  {
    hide AllJustified, AllWritten, EventsAreSound, Leads;
    assert forall i | 0 <= i < |log| && log[i].Snapped? :: RunOf(log[i]).value < i;
  }

  lemma CacheResumes(
    reg: Registry, met: nat -> Choice, tag: Tag, everything: bool, c: Ctx, ch: Choice, w: World)
    requires Ranked(reg) && Resumes(reg, met, w.log)
    ensures Resumes(reg, met, ExecCache(reg, tag, everything, c, ch, w).w.log)
  {
    hide Resumes, Ranked, KeyOf, Apply;
    var key := KeyOf(c.query, everything, reg.encodes);
    if key.Some? {
      var asked := CacheAsked(tag, key.value);
      AddOther(reg, met, w.log, asked);
      if !c.skipCache && ch.hit.Some? {
        var hit := CacheHit(tag, key.value, ch.hit.value.stale, c, w.pos);
        AddOther(reg, met, w.log + [asked], hit);
        AddOther(reg, met, w.log + [asked] + [hit], RefreshKicked(tag, key.value, c));
      }
    }
  }

  /** One call made by `run`: whatever the target does, the run stays bound to its end. */
  lemma {:induction false} CallResumes(
    reg: Registry, met: nat -> Choice, tag: Tag, run: nat, from: Point, t: Tag, c: Ctx, writes: seq<Write>, w: World,
    nest: nat, level: nat, out: Outcome, ctx: Ctx)
    requires Ranked(reg) && Meets(met, w, c.skipCache) && Underway(reg, met, w.log, run, writes, out, ctx)
    requires t in reg.plugins && Depth(reg, t) < Depth(reg, tag)
    requires PointTakes(reg, from, t) && from.at == c.(skipCache := false)
    requires Resumed(reg, met, from).out == out && SameEnd(Resumed(reg, met, from).ctx, ctx)
    ensures var snap := SnapshotAt(reg, t, c);
            var x := Exec(reg, t, c, NoteSnap(w, run, t, snap, from), nest, level);
            && Underway(reg, met, x.w.log, run, AddWrite(writes, t, snap), out, ctx)
            && Meets(met, x.w, x.ctx.skipCache)
    decreases Depth(reg, tag), 0, 0
  {
    hide Clean, SnapsOf, Resumes, Pending, Resumed, SameEnd, PointTakes, Exec, SameChoice;
    var snap := SnapshotAt(reg, t, c);
    var w1 := NoteSnap(w, run, t, snap, from);
    var x := Exec(reg, t, c, w1, nest, level);
    SnapUnderway(reg, met, run, from, t, c, writes, w, out, ctx);
    ExecResumes(reg, met, t, c, w1, nest, level);
    ExecClean(reg, Unmarked, t, c, w1, nest, level);
    ExecBounded(reg, t, c, w1, nest, level);
    NewRunsKeepOpen(w1.log, x.w.log, run);
    PendingStays(reg, met, w1.log, x.w.log, run, out, ctx);
  }

  lemma EndUnderway(reg: Registry, met: nat -> Choice, run: nat, a: Action, c: Ctx, writes: seq<Write>, w: World)
    requires Ranked(reg) && Underway(reg, met, w.log, run, writes, Done(a), c)
    ensures Resumes(reg, met, End(reg, run, a, c, writes, w).w.log)
    ensures Pending(reg, met, End(reg, run, a, c, writes, w).w.log, run, Done(a), c)
  {
    EndResumes(reg, met, run, a, c, writes, w);
  }

  lemma {:induction false} RunStepsResumes(
    reg: Registry, met: nat -> Choice, tag: Tag, run: nat, i: nat, c: Ctx, writes: seq<Write>, w: World, nest: nat, level: nat)
    requires Ranked(reg) && Meets(met, w, c.skipCache)
    requires tag in reg.plugins && reg.plugins[tag].Sequence? && i <= |reg.plugins[tag].steps|
    requires var f := RunSteps(reg, tag, run, i, c, writes, w, nest, level);
             Underway(reg, met, w.log, run, writes, f.out, f.ctx)
    ensures var f := RunSteps(reg, tag, run, i, c, writes, w, nest, level);
            Resumes(reg, met, f.w.log) && Pending(reg, met, f.w.log, run, f.out, f.ctx)
    decreases Depth(reg, tag), 0, 2 * (|reg.plugins[tag].steps| - i) + 2
  {
    hide Ranked, Calls, Underway, Resumes, Pending, Exec, AfterAction, PointTakes, SameEnd, Resumed, Meets;
    var steps := reg.plugins[tag].steps;
    var f := RunSteps(reg, tag, run, i, c, writes, w, nest, level);
    if i == |steps| {
      EndUnderway(reg, met, run, Continue, c, writes, w);
    } else if !MatchesAll(steps[i].matchers, c) {
      RunStepsResumes(reg, met, tag, run, i + 1, c, writes, w, nest, level);
    } else {
      StepDescends(reg, tag, i);
      var w1 := Note(w, StepTaken(run, i, level));
      StepUnderway(reg, met, w, StepTaken(run, i, level), run, writes, f.out, f.ctx);
      MeetsAfter(met, w, w1, c.skipCache);
      HereLeads(reg, met, tag, run, i, c, writes, w, w1, nest, level);
      if StepTarget(steps[i]).Some? { HereTakes(reg, tag, i, c, w1); }
      match steps[i].exec {
        case Call(t) =>
          if t in reg.plugins {
            var snap := SnapshotAt(reg, t, c);
            var x := Exec(reg, t, c, NoteSnap(w1, run, t, snap, Here(tag, i, c, w1)), nest + 1, level);
            CallResumes(reg, met, tag, run, Here(tag, i, c, w1), t, c, writes, w1, nest + 1, level, f.out, f.ctx);
            if x.out == Done(Continue) {
              RunStepsResumes(reg, met, tag, run, i + 1, x.ctx, AddWrite(writes, t, snap), x.w, nest, level);
            } else if x.out == Done(Accept) {
              EndUnderway(reg, met, run, Accept, x.ctx, AddWrite(writes, t, snap), x.w);
            } else {
              AbortUnderway(reg, met, x.w, run, AddWrite(writes, t, snap), f.out, f.ctx);
            }
          } else {
            AbortUnderway(reg, met, w1, run, writes, f.out, f.ctx);
          }
        case Run(b) => AfterActionResumes(reg, met, tag, run, i, b, c, writes, w1, nest, level);
      }
    }
  }

  lemma MeetsAfter(met: nat -> Choice, w: World, v: World, skip: bool)
    requires Meets(met, w, skip) && v.tape == w.tape
    ensures Meets(met, v, skip)
  {
  }

  lemma AbortUnderway(
    reg: Registry, met: nat -> Choice, w: World, run: nat, writes: seq<Write>, out: Outcome, ctx: Ctx)
    requires Ranked(reg) && Underway(reg, met, w.log, run, writes, out, ctx)
    ensures Resumes(reg, met, Note(w, Aborted(run)).log)
    ensures Pending(reg, met, Note(w, Aborted(run)).log, run, out, ctx)
  {
    hide Resumes;
    AddOther(reg, met, w.log, Aborted(run));
    PendingEvent(reg, met, w.log, Aborted(run), run, out, ctx);
  }

  lemma {:induction false} AfterActionResumes(
    reg: Registry, met: nat -> Choice, tag: Tag, run: nat, i: nat, b: Builtin, c: Ctx, writes: seq<Write>, w: World, nest: nat,
    level: nat)
    requires Ranked(reg) && Meets(met, w, c.skipCache)
    requires tag in reg.plugins && reg.plugins[tag].Sequence? && i < |reg.plugins[tag].steps|
    requires b.DoGoto? && b.tag in reg.plugins ==> Depth(reg, b.tag) < Depth(reg, tag)
    requires var f := AfterAction(reg, tag, run, i, b, c, writes, w, nest, level);
             && Underway(reg, met, w.log, run, writes, f.out, f.ctx)
             && Resumed(reg, met, Here(tag, i, c, w)).out == f.out
             && SameEnd(Resumed(reg, met, Here(tag, i, c, w)).ctx, f.ctx)
    requires b.DoGoto? ==> PointTakes(reg, Here(tag, i, c, w), b.tag)
    ensures var f := AfterAction(reg, tag, run, i, b, c, writes, w, nest, level);
            Resumes(reg, met, f.w.log) && Pending(reg, met, f.w.log, run, f.out, f.ctx)
    decreases Depth(reg, tag), 0, 2 * (|reg.plugins[tag].steps| - i) + 1
  {
    BuiltinFrame(b, c);
    hide Ranked, Calls, Underway, Resumes, Pending, Exec, RunSteps, PointTakes, SameEnd, Resumed, Meets, End;
    var c1 := AfterBuiltin(b, c);
    var f := AfterAction(reg, tag, run, i, b, c, writes, w, nest, level);
    match ActionOf(b)
    case Err(_) => AbortUnderway(reg, met, w, run, writes, f.out, f.ctx);
    case Ok(Continue) => RunStepsResumes(reg, met, tag, run, i + 1, c1, writes, w, nest, level);
    case Ok(Accept) =>
      var w1 := Note(w, AcceptTaken(level));
      StepUnderway(reg, met, w, AcceptTaken(level), run, writes, f.out, f.ctx);
      EndIs(reg, run, Accept, c1, writes, w1);
      EndUnderway(reg, met, run, Accept, c1, writes, w1);
    case Ok(Return) =>
      EndIs(reg, run, Continue, c1, writes, w);
      EndUnderway(reg, met, run, Continue, c1, writes, w);
    case Ok(Goto(t)) =>
      var from := Here(tag, i, c, w);
      if t in reg.plugins {
        var snap := SnapshotAt(reg, t, c1);
        var x := Exec(reg, t, c1, NoteSnap(w, run, t, snap, from), nest + 1, level);
        CallResumes(reg, met, tag, run, from, t, c1, writes, w, nest + 1, level, f.out, f.ctx);
        if x.out.Done? {
          EndIs(reg, run, x.out.action, x.ctx, AddWrite(writes, t, snap), x.w);
          EndUnderway(reg, met, run, x.out.action, x.ctx, AddWrite(writes, t, snap), x.w);
        } else {
          AbortUnderway(reg, met, x.w, run, AddWrite(writes, t, snap), f.out, f.ctx);
        }
      } else {
        AbortUnderway(reg, met, w, run, writes, f.out, f.ctx);
      }
  }

  lemma EndIs(reg: Registry, run: nat, a: Action, c: Ctx, writes: seq<Write>, w: World)
    ensures var f := End(reg, run, a, c, writes, w); f.out == Done(a) && f.ctx == c
  {
  }

  lemma {:induction false} BranchResumes(
    reg: Registry, met: nat -> Choice, tag: Tag, t: Tag, c: Ctx, w: World, nest: nat, level: nat)
    requires Ranked(reg) && Meets(met, w, c.skipCache)
    requires Clean(reg, Unmarked, w.log) && Resumes(reg, met, w.log)
    requires t in reg.plugins && Depth(reg, t) < Depth(reg, tag)
    ensures var w1 := Note(Exec(reg, t, Fork(c), w, nest, level).w, BranchDone(level));
            && Clean(reg, Unmarked, w1.log) && Resumes(reg, met, w1.log) && Meets(met, w1, c.skipCache)
    decreases Depth(reg, tag), 0, 0
  {
    hide Clean, Resumes, Exec;
    var x := Exec(reg, t, Fork(c), w, nest, level);
    ExecResumes(reg, met, t, Fork(c), w, nest, level);
    AddOther(reg, met, x.w.log, BranchDone(level));
    BranchClean(reg, Unmarked, tag, t, c, w, nest, level);
  }

  lemma {:induction false} FallbackResumes(
    reg: Registry, met: nat -> Choice, tag: Tag, c: Ctx, w: World, nest: nat, level: nat)
    requires Ranked(reg) && Meets(met, w, c.skipCache)
    requires Clean(reg, Unmarked, w.log) && Resumes(reg, met, w.log)
    requires tag in reg.plugins && reg.plugins[tag].Fallback?
    ensures Resumes(reg, met, ExecFallback(reg, tag, c, w, nest, level).w.log)
    decreases Depth(reg, tag), 0, 1
  {
    hide Clean, Resumes, Exec, Ranked, Calls;
    BranchesDescend(reg, tag);
    var f := reg.plugins[tag];
    if f.primary in reg.plugins && f.secondary in reg.plugins {
      BranchResumes(reg, met, tag, f.primary, c, w, nest + 1, level + 1);
      var w1 := Note(Exec(reg, f.primary, Fork(c), w, nest + 1, level + 1).w, BranchDone(level + 1));
      BranchResumes(reg, met, tag, f.secondary, c, Advance(w1), nest + 1, level + 1);
    }
  }

  /** For every run: each lookup it remembered leads to the end its write was made from. */
  lemma RunResumes(reg: Registry, tag: Tag, c: Ctx, tape: nat -> Choice)
    requires Ranked(reg)
    ensures Resumes(reg, Met(tape, c.skipCache), Exec(reg, tag, c, World(tape, 0, []), 0, 0).w.log)
  {
    NothingIsClean(reg, Unmarked);
    ExecResumes(reg, Met(tape, c.skipCache), tag, c, World(tape, 0, []), 0, 0);
  }

  /** For a run that enters a sequence: each lookup that sequence itself remembered leads to the
      outcome and context the whole run ends with. */
  lemma EntryLeads(reg: Registry, tag: Tag, c: Ctx, tape: nat -> Choice, i: nat)
    requires Ranked(reg)
    requires var log := Exec(reg, tag, c, World(tape, 0, []), 0, 0).w.log;
             i < |log| && log[i].Snapped? && log[i].run == 0
    ensures var r := Exec(reg, tag, c, World(tape, 0, []), 0, 0);
            Leads(reg, Met(tape, c.skipCache), r.w.log[i], r.out, r.ctx)
  {
    var met, w := Met(tape, c.skipCache), World(tape, 0, []);
    var w1 := Note(Advance(w), Enter(tag, 0));
    RunZeroIsSequence(reg, tag, c, w, i);
    NothingIsClean(reg, Unmarked);
    assert Resumes(reg, met, []);
    AddEvent(reg, Unmarked, [], Enter(tag, 0));
    RunIsNew(reg, Unmarked, [], Enter(tag, 0));
    AddOther(reg, met, [], Enter(tag, 0));
    assert Meets(met, w1, c.skipCache);
    hide Ranked, SameChoice, Clean, ExecFallback, ExecCache, Apply;
    var r := Exec(reg, tag, c, w, 0, 0);
    var f := RunSteps(reg, tag, 0, 0, c, [], w1, 0, 0);
    NothingPending(reg, met, [], Enter(tag, 0), f.out, f.ctx);
    hide Clean, Open, SnapsOf, Resumes, Leads, RunSteps;
    assert Underway(reg, met, w1.log, 0, [], f.out, f.ctx);
    RunStepsResumes(reg, met, tag, 0, 0, c, [], w1, 0, 0);
    assert Pending(reg, met, r.w.log, 0, r.out, r.ctx);
  }

  /** Only a sequence entered first has the run number 0. */
  lemma RunZeroIsSequence(reg: Registry, tag: Tag, c: Ctx, w: World, i: nat)
    requires Ranked(reg) && w.log == []
    requires var log := Exec(reg, tag, c, w, 0, 0).w.log; i < |log| && log[i].Snapped? && log[i].run == 0
    ensures tag in reg.plugins && reg.plugins[tag].Sequence? && !Next(w).cancel
  {
    var log := Exec(reg, tag, c, w, 0, 0).w.log;
    assert RunOf(log[i]) == Some(0);
    if tag in reg.plugins && reg.plugins[tag].Fallback? && !Next(w).cancel {
      FallbackRuns(reg, tag, c, w);
    }
    hide RunSteps, ExecFallback, Ranked;
  }

  /** What a fallback entered first logs belongs to later runs. */
  lemma FallbackRuns(reg: Registry, tag: Tag, c: Ctx, w: World)
    requires Ranked(reg) && w.log == [] && tag in reg.plugins && reg.plugins[tag].Fallback? && !Next(w).cancel
    ensures var log := Exec(reg, tag, c, w, 0, 0).w.log;
            forall k | 0 <= k < |log| :: RunOf(log[k]) != Some(0)
  {
    var w1 := Note(Advance(w), Enter(tag, 0));
    NothingIsClean(reg, Unmarked);
    AddEvent(reg, Unmarked, [], Enter(tag, 0));
    FallbackClean(reg, Unmarked, tag, c, w1, 0, 0);
    hide Clean, ExecFallback, Ranked;
    var log := ExecFallback(reg, tag, c, w1, 0, 0).w.log;
    assert log[0] == w1.log[0] == Enter(tag, 0);
  }
}
