/** How deep a run nests, that it never misses a plugin, and where an accept stops it. */
module PipelineBounds {
  import opened Wrappers
  import opened Context
  import opened Steps
  import opened CacheKey
  import opened CachePolicy
  import opened Pipeline

  // ---------- Nesting, unknown tags, refresh runs ----------

  predicate WithinBounds(e: Event, nest: nat, depth: nat, skip: bool) {
    && (e.Enter? ==> nest <= e.nest < nest + depth)
    && (skip ==> !e.CacheHit? && !e.RefreshKicked?)
  }

  /** Hits are logged with the tape position after the entry they were read from. */
  ghost predicate Onward(from: World, to: World) {
    && from.log <= to.log
    && from.pos <= to.pos
    && forall k | |from.log| <= k < |to.log| && to.log[k].CacheHit? :: from.pos < to.log[k].pos
  }

  /** `to` continues `from`, and the events added are within bounds. */
  ghost predicate Grows(from: World, to: World, nest: nat, depth: nat, skip: bool) {
    && Onward(from, to)
    && forall k | |from.log| <= k < |to.log| :: WithinBounds(to.log[k], nest, depth, skip)
  }

  predicate MissesPlugin(out: Outcome) { out.Failed? && out.why.UnknownTag? }

  lemma GrowsThen(a: World, b: World, c: World, nest: nat, depth: nat, skip: bool)
    requires Grows(a, b, nest, depth, skip) && Grows(b, c, nest, depth, skip)
    ensures Grows(a, c, nest, depth, skip)
  {
    assert forall k | |a.log| <= k < |b.log| :: c.log[k] == b.log[k];
  }

  /** Bounds of a plugin one level down are bounds of its caller. */
  lemma GrowsInside(a: World, b: World, nest: nat, inner: nat, depth: nat, skip: bool)
    requires Grows(a, b, nest + 1, inner, skip) && inner < depth
    ensures Grows(a, b, nest, depth, skip)
  {
    forall k | |a.log| <= k < |b.log| ensures WithinBounds(b.log[k], nest, depth, skip) {
      assert WithinBounds(b.log[k], nest + 1, inner, skip);
    }
  }

  lemma GrowsOne(w: World, e: Event, nest: nat, depth: nat, skip: bool)
    requires WithinBounds(e, nest, depth, skip) && !e.CacheHit?
    ensures Grows(w, Note(w, e), nest, depth, skip)
  {
  }

  lemma GrowsSnap(w: World, run: nat, tag: Tag, snap: Option<Lookup>, from: Point, nest: nat, depth: nat, skip: bool)
    ensures Grows(w, NoteSnap(w, run, tag, snap, from), nest, depth, skip)
  {
  }

  lemma GrowsEnd(reg: Registry, run: nat, a: Action, c: Ctx, writes: seq<Write>, w: World, nest: nat, depth: nat, skip: bool)
    ensures Grows(w, End(reg, run, a, c, writes, w).w, nest, depth, skip)
  {
    StoreEventsAreStores(run, c, writes, reg.encodes);
    var stores := StoreEvents(run, c, writes, reg.encodes);
    var to := End(reg, run, a, c, writes, w).w.log;
    forall k | |w.log| <= k < |to| ensures WithinBounds(to[k], nest, depth, skip) && !to[k].CacheHit? {
      if k < |w.log| + |stores| {
        assert to[k] == stores[k - |w.log|];
        assert to[k] in stores;
      }
    }
  }

  lemma RedirectedFrame(rules: seq<Rule>, qname: string, c: Ctx)
    ensures Redirected(rules, qname, c).skipCache == c.skipCache
  {
  }

  lemma EcsFrame(cfg: EcsConfig, c: Ctx)
    ensures AfterEcs(cfg, c).skipCache == c.skipCache
  {
  }

  lemma BuiltinFrame(b: Builtin, c: Ctx)
    ensures AfterBuiltin(b, c).skipCache == c.skipCache
  {
  }

  ghost predicate Bounded(reg: Registry, w: World, r: Res, nest: nat, depth: nat, skip: bool) {
    && Grows(w, r.w, nest, depth, skip)
    && r.ctx.skipCache == skip
    && (Closed(reg) ==> !MissesPlugin(r.out))
  }

  /** A run enters plugins only within the call depth of the one it was given, a refresh run
      neither hits a cache nor starts another refresh, and no call misses its target. */
  lemma {:induction false} ExecBounded(reg: Registry, tag: Tag, c: Ctx, w: World, nest: nat, level: nat)
    requires Ranked(reg) && tag in reg.plugins
    ensures Bounded(reg, w, Exec(reg, tag, c, w, nest, level), nest, Depth(reg, tag), c.skipCache)
    decreases Depth(reg, tag), 1, 0
  {
    var depth, skip := Depth(reg, tag), c.skipCache;
    var w1 := Note(Advance(w), Enter(tag, nest));
    GrowsOne(Advance(w), Enter(tag, nest), nest, depth, skip);
    assert Grows(w, w1, nest, depth, skip);
    if !Next(w).cancel {
      hide Ranked, Calls, Closed, RunSteps, ExecFallback, ExecCache, Apply, Grows;
      var r := Exec(reg, tag, c, w, nest, level);
      match reg.plugins[tag]
      case Sequence(_) =>
        RunStepsBounded(reg, tag, |w.log|, 0, c, [], w1, nest, level);
        GrowsThen(w, w1, r.w, nest, depth, skip);
      case Fallback(_, _, _) =>
        FallbackBounded(reg, tag, c, w1, nest, level);
        GrowsThen(w, w1, r.w, nest, depth, skip);
      case CacheStep(everything) => CacheBounded(reg, tag, everything, c, w, nest, depth);
      case RedirectStep(rules) => RedirectedFrame(rules, RedirectName(c), c);
      case EcsStep(cfg) => EcsFrame(cfg, c);
      case _ =>
    }
  }

  lemma CacheBounded(reg: Registry, tag: Tag, everything: bool, c: Ctx, w: World, nest: nat, depth: nat)
    requires depth > 0
    ensures Bounded(reg, w, ExecCache(reg, tag, everything, c, Next(w), Note(Advance(w), Enter(tag, nest))), nest, depth, c.skipCache)
  {
  }

  /** One call from inside `tag`: the snapshot is noted, then the target runs one level down. */
  lemma {:induction false} CallBounded(
    reg: Registry, tag: Tag, run: nat, from: Point, t: Tag, c: Ctx, w: World, nest: nat, level: nat)
    requires Ranked(reg) && t in reg.plugins && Depth(reg, t) < Depth(reg, tag)
    ensures var w1 := NoteSnap(w, run, t, SnapshotAt(reg, t, c), from);
            Bounded(reg, w, Exec(reg, t, c, w1, nest + 1, level), nest, Depth(reg, tag), c.skipCache)
    decreases Depth(reg, tag), 0, 0
  {
    var snap := SnapshotAt(reg, t, c);
    var w1 := NoteSnap(w, run, t, snap, from);
    var x := Exec(reg, t, c, w1, nest + 1, level);
    GrowsSnap(w, run, t, snap, from, nest, Depth(reg, tag), c.skipCache);
    ExecBounded(reg, t, c, w1, nest + 1, level);
    GrowsInside(w1, x.w, nest, Depth(reg, t), Depth(reg, tag), c.skipCache);
    GrowsThen(w, w1, x.w, nest, Depth(reg, tag), c.skipCache);
  }

  lemma {:induction false} RunStepsBounded(
    reg: Registry, tag: Tag, run: nat, i: nat, c: Ctx, writes: seq<Write>, w: World, nest: nat, level: nat)
    requires Ranked(reg) && tag in reg.plugins && reg.plugins[tag].Sequence? && i <= |reg.plugins[tag].steps|
    ensures Bounded(reg, w, RunSteps(reg, tag, run, i, c, writes, w, nest, level), nest, Depth(reg, tag), c.skipCache)
    decreases Depth(reg, tag), 0, 2 * (|reg.plugins[tag].steps| - i) + 2
  {
    hide Grows, Exec, Ranked, Calls;
    var steps := reg.plugins[tag].steps;
    var depth, skip := Depth(reg, tag), c.skipCache;
    var r := RunSteps(reg, tag, run, i, c, writes, w, nest, level);
    if i == |steps| {
      GrowsEnd(reg, run, Continue, c, writes, w, nest, depth, skip);
    } else if !MatchesAll(steps[i].matchers, c) {
      RunStepsBounded(reg, tag, run, i + 1, c, writes, w, nest, level);
    } else {
      StepDescends(reg, tag, i);
      var w1 := Note(w, StepTaken(run, i, level));
      GrowsOne(w, StepTaken(run, i, level), nest, depth, skip);
      match steps[i].exec {
        case Call(t) =>
          if t in reg.plugins {
            var snap := SnapshotAt(reg, t, c);
            var x := Exec(reg, t, c, NoteSnap(w1, run, t, snap, Here(tag, i, c, w1)), nest + 1, level);
            CallBounded(reg, tag, run, Here(tag, i, c, w1), t, c, w1, nest, level);
            if x.out == Done(Continue) {
              RunStepsBounded(reg, tag, run, i + 1, x.ctx, AddWrite(writes, t, snap), x.w, nest, level);
            } else if x.out == Done(Accept) {
              GrowsEnd(reg, run, Accept, x.ctx, AddWrite(writes, t, snap), x.w, nest, depth, skip);
            } else {
              GrowsOne(x.w, Aborted(run), nest, depth, skip);
            }
            GrowsThen(w1, x.w, r.w, nest, depth, skip);
          } else {
            CallDescends(reg, tag, t);
            GrowsOne(w1, Aborted(run), nest, depth, skip);
          }
        case Run(b) =>
          BuiltinBounded(reg, tag, run, i, b, c, writes, w1, nest, level);
      }
      GrowsThen(w, w1, r.w, nest, depth, skip);
    }
  }

  lemma {:induction false} BuiltinBounded(
    reg: Registry, tag: Tag, run: nat, i: nat, b: Builtin, c: Ctx, writes: seq<Write>, w1: World, nest: nat, level: nat)
    requires Ranked(reg) && tag in reg.plugins && reg.plugins[tag].Sequence? && i < |reg.plugins[tag].steps|
    requires b.DoGoto? ==> b.tag in Calls(reg.plugins[tag])
    ensures Bounded(reg, w1, AfterAction(reg, tag, run, i, b, c, writes, w1, nest, level), nest, Depth(reg, tag), c.skipCache)
    decreases Depth(reg, tag), 0, 2 * (|reg.plugins[tag].steps| - i) + 1
  {
    BuiltinFrame(b, c);
    var c1 := AfterBuiltin(b, c);
    var depth, skip := Depth(reg, tag), c.skipCache;
    match ActionOf(b)
    case Err(_) => GrowsOne(w1, Aborted(run), nest, depth, skip);
    case Ok(Continue) => RunStepsBounded(reg, tag, run, i + 1, c1, writes, w1, nest, level);
    case Ok(Accept) =>
      var w2 := Note(w1, AcceptTaken(level));
      GrowsOne(w1, AcceptTaken(level), nest, depth, skip);
      GrowsEnd(reg, run, Accept, c1, writes, w2, nest, depth, skip);
      GrowsThen(w1, w2, End(reg, run, Accept, c1, writes, w2).w, nest, depth, skip);
    case Ok(Return) => GrowsEnd(reg, run, Continue, c1, writes, w1, nest, depth, skip);
    case Ok(Goto(t)) => JumpBounded(reg, tag, run, Here(tag, i, c, w1), t, c1, writes, w1, nest, level);
  }

  lemma {:induction false} JumpBounded(
    reg: Registry, tag: Tag, run: nat, from: Point, t: Tag, c: Ctx, writes: seq<Write>, w: World, nest: nat, level: nat)
    requires Ranked(reg) && tag in reg.plugins && t in Calls(reg.plugins[tag])
    ensures Bounded(reg, w, Jump(reg, tag, run, from, t, c, writes, w, nest, level), nest, Depth(reg, tag), c.skipCache)
    decreases Depth(reg, tag), 0, 1
  {
    var depth, skip := Depth(reg, tag), c.skipCache;
    if t in reg.plugins {
      var snap := SnapshotAt(reg, t, c);
      var x := Exec(reg, t, c, NoteSnap(w, run, t, snap, from), nest + 1, level);
      CallBounded(reg, tag, run, from, t, c, w, nest, level);
      if x.out.Done? {
        GrowsEnd(reg, run, x.out.action, x.ctx, AddWrite(writes, t, snap), x.w, nest, depth, skip);
      } else {
        GrowsOne(x.w, Aborted(run), nest, depth, skip);
      }
      GrowsThen(w, x.w, Jump(reg, tag, run, from, t, c, writes, w, nest, level).w, nest, depth, skip);
    } else {
      GrowsOne(w, Aborted(run), nest, depth, skip);
    }
  }

  /** One branch of a fallback, with the mark that it was left. */
  lemma {:induction false} BranchBounded(reg: Registry, tag: Tag, t: Tag, c: Ctx, w: World, nest: nat, level: nat)
    requires Ranked(reg) && t in reg.plugins && Depth(reg, t) < Depth(reg, tag)
    ensures var x := Exec(reg, t, Fork(c), w, nest + 1, level);
            && Bounded(reg, w, x, nest, Depth(reg, tag), c.skipCache)
            && Grows(w, Note(x.w, BranchDone(level)), nest, Depth(reg, tag), c.skipCache)
    decreases Depth(reg, tag), 0, 0
  {
    var x := Exec(reg, t, Fork(c), w, nest + 1, level);
    ExecBounded(reg, t, Fork(c), w, nest + 1, level);
    GrowsInside(w, x.w, nest, Depth(reg, t), Depth(reg, tag), c.skipCache);
    GrowsOne(x.w, BranchDone(level), nest, Depth(reg, tag), c.skipCache);
    GrowsThen(w, x.w, Note(x.w, BranchDone(level)), nest, Depth(reg, tag), c.skipCache);
  }

  lemma {:induction false} FallbackBounded(reg: Registry, tag: Tag, c: Ctx, w: World, nest: nat, level: nat)
    requires Ranked(reg) && tag in reg.plugins && reg.plugins[tag].Fallback?
    ensures Bounded(reg, w, ExecFallback(reg, tag, c, w, nest, level), nest, Depth(reg, tag), c.skipCache)
    decreases Depth(reg, tag), 0, 1
  {
    hide Exec, Ranked, Calls, Closed;
    var f := reg.plugins[tag];
    BranchesDescend(reg, tag);
    if f.primary in reg.plugins && f.secondary in reg.plugins {
      BranchBounded(reg, tag, f.primary, c, w, nest, level + 1);
      var w1 := Note(Exec(reg, f.primary, Fork(c), w, nest + 1, level + 1).w, BranchDone(level + 1));
      BranchBounded(reg, tag, f.secondary, c, Advance(w1), nest, level + 1);
      var w2 := Note(Exec(reg, f.secondary, Fork(c), Advance(w1), nest + 1, level + 1).w, BranchDone(level + 1));
      GrowsThen(w, w1, w2, nest, Depth(reg, tag), c.skipCache);
    }
  }

  // ---------- Accept ----------

  /** Reading a log from left to right: which levels have accepted and not yet been left. */
  datatype Scan = Broken | Halted(levels: set<nat>)

  function ScanEvent(s: Scan, e: Event): Scan {
    match s
    case Broken => Broken
    case Halted(h) =>
      match e
      case StepTaken(_, _, level) => if level in h then Broken else s
      case AcceptTaken(level) => Halted(h + {level})
      case BranchDone(level) => Halted(h - {level})
      case _ => s
  }

  function ScanAll(s: Scan, log: seq<Event>): Scan {
    if log == [] then s else ScanEvent(ScanAll(s, log[..|log| - 1]), log[|log| - 1])
  }

  lemma {:induction false} ScanConcat(s: Scan, a: seq<Event>, b: seq<Event>)
    ensures ScanAll(s, a + b) == ScanAll(ScanAll(s, a), b)
  {
    if b == [] {
      assert a + b == a;
    } else {
      ScanConcat(s, a, b[..|b| - 1]);
      assert (a + b)[..|a + b| - 1] == a + b[..|b| - 1];
    }
  }

  lemma {:induction false} ScanStores(s: Scan, run: nat, c: Ctx, writes: seq<Write>, encodes: Encoder)
    ensures ScanAll(s, StoreEvents(run, c, writes, encodes)) == s
  {
    if writes != [] {
      ScanStores(s, run, c, writes[1..], encodes);
      ScanConcat(s, StoreEvent(run, c, writes[0], encodes), StoreEvents(run, c, writes[1..], encodes));
    }
  }

  /** The log of `r` is that of `w` followed by events that take the scan `s` to `t`. */
  ghost predicate Scans(s: Scan, w: World, r: World, t: Scan) {
    w.log <= r.log && ScanAll(s, r.log[|w.log|..]) == t
  }

  lemma ScanThen(s: Scan, a: World, b: World, c: World, mid: Scan, t: Scan)
    requires Scans(s, a, b, mid) && Scans(mid, b, c, t)
    ensures Scans(s, a, c, t)
  {
    ScanConcat(s, b.log[|a.log|..], c.log[|b.log|..]);
    assert c.log[|a.log|..] == b.log[|a.log|..] + c.log[|b.log|..];
  }

  lemma ScanOne(s: Scan, w: World, e: Event)
    ensures Scans(s, w, Note(w, e), ScanEvent(s, e))
  {
    assert Note(w, e).log[|w.log|..] == [e];
    assert ScanAll(s, [e]) == ScanEvent(ScanAll(s, []), e);
  }

  lemma ScanSnap(s: Scan, w: World, run: nat, tag: Tag, c: Ctx, reg: Registry, from: Point)
    requires tag in reg.plugins && s.Halted?
    ensures Scans(s, w, NoteSnap(w, run, tag, SnapshotAt(reg, tag, c), from), s)
  {
    var snap := SnapshotAt(reg, tag, c);
    match snap
    case None => assert w.log[|w.log|..] == [];
    case Some(lookup) => ScanOne(s, w, Snapped(run, tag, lookup, from));
  }

  lemma ScanEnd(s: Scan, reg: Registry, run: nat, a: Action, c: Ctx, writes: seq<Write>, w: World)
    requires s.Halted?
    ensures Scans(s, w, End(reg, run, a, c, writes, w).w, s)
  {
    var stores := StoreEvents(run, c, writes, reg.encodes);
    ScanStores(s, run, c, writes, reg.encodes);
    var w1 := w.(log := w.log + stores);
    assert w1.log[|w.log|..] == stores;
    ScanOne(s, w1, EndOf(run, c));
    ScanThen(s, w, w1, Note(w1, EndOf(run, c)), s, s);
  }

  /** The scan after a run at `level` that was not yet halted there. */
  function After(h: set<nat>, level: nat, out: Outcome): Scan {
    if out == Done(Accept) then Halted(h + {level}) else Halted(h)
  }

  ghost predicate Below(h: set<nat>, level: nat) { forall x | x in h :: x < level }

  lemma {:induction false} ExecScans(h: set<nat>, reg: Registry, tag: Tag, c: Ctx, w: World, nest: nat, level: nat)
    requires Ranked(reg) && Below(h, level)
    ensures var r := Exec(reg, tag, c, w, nest, level); Scans(Halted(h), w, r.w, After(h, level, r.out))
    decreases Depth(reg, tag), 1, 0
  {
    var s := Halted(h);
    var r := Exec(reg, tag, c, w, nest, level);
    if tag !in reg.plugins {
      assert w.log[|w.log|..] == [];
    } else {
      var w1 := Note(Advance(w), Enter(tag, nest));
      ScanOne(s, Advance(w), Enter(tag, nest));
      assert Scans(s, w, w1, s);
      if !Next(w).cancel {
        match reg.plugins[tag]
        case Sequence(_) =>
          RunStepsScans(h, reg, tag, |w.log|, 0, c, [], w1, nest, level);
          ScanThen(s, w, w1, r.w, s, After(h, level, r.out));
        case Fallback(_, _, _) =>
          FallbackScans(h, reg, tag, c, w1, nest, level);
          ScanThen(s, w, w1, r.w, s, s);
        case CacheStep(everything) =>
          CacheScans(s, reg, tag, everything, c, Next(w), w1);
          ScanThen(s, w, w1, r.w, s, s);
        case _ =>
      }
    }
  }

  lemma CacheScans(s: Scan, reg: Registry, tag: Tag, everything: bool, c: Ctx, ch: Choice, w: World)
    requires s.Halted?
    ensures Scans(s, w, ExecCache(reg, tag, everything, c, ch, w).w, s)
  {
    var r := ExecCache(reg, tag, everything, c, ch, w);
    var tail := r.w.log[|w.log|..];
    assert |tail| <= 3;
    assert forall k | 0 <= k < |tail| :: ScanEvent(s, tail[k]) == s;
    ScanInert(s, tail);
  }

  lemma {:induction false} ScanInert(s: Scan, es: seq<Event>)
    requires forall k | 0 <= k < |es| :: ScanEvent(s, es[k]) == s
    ensures ScanAll(s, es) == s
  {
    if es != [] {
      ScanInert(s, es[..|es| - 1]);
    }
  }

  lemma {:induction false} RunStepsScans(
    h: set<nat>, reg: Registry, tag: Tag, run: nat, i: nat, c: Ctx, writes: seq<Write>, w: World, nest: nat, level: nat)
    requires Ranked(reg) && Below(h, level)
    requires tag in reg.plugins && reg.plugins[tag].Sequence? && i <= |reg.plugins[tag].steps|
    ensures var r := RunSteps(reg, tag, run, i, c, writes, w, nest, level);
            Scans(Halted(h), w, r.w, After(h, level, r.out))
    decreases Depth(reg, tag), 0, 2 * (|reg.plugins[tag].steps| - i) + 2
  {
    hide Scans;
    var s := Halted(h);
    var steps := reg.plugins[tag].steps;
    var r := RunSteps(reg, tag, run, i, c, writes, w, nest, level);
    var t := After(h, level, r.out);
    if i == |steps| {
      ScanEnd(s, reg, run, Continue, c, writes, w);
    } else if !MatchesAll(steps[i].matchers, c) {
      RunStepsScans(h, reg, tag, run, i + 1, c, writes, w, nest, level);
    } else {
      StepDescends(reg, tag, i);
      var w1 := Note(w, StepTaken(run, i, level));
      ScanOne(s, w, StepTaken(run, i, level));
      match steps[i].exec {
        case Call(te) =>
          if te !in reg.plugins {
            ScanOne(s, w1, Aborted(run));
          } else {
            var snap := SnapshotAt(reg, te, c);
            var w2 := NoteSnap(w1, run, te, snap, Here(tag, i, c, w1));
            ScanSnap(s, w1, run, te, c, reg, Here(tag, i, c, w1));
            var x := Exec(reg, te, c, w2, nest + 1, level);
            ExecScans(h, reg, te, c, w2, nest + 1, level);
            ScanThen(s, w1, w2, x.w, s, After(h, level, x.out));
            if x.out == Done(Continue) {
              RunStepsScans(h, reg, tag, run, i + 1, x.ctx, AddWrite(writes, te, snap), x.w, nest, level);
            } else if x.out == Done(Accept) {
              ScanEnd(t, reg, run, Accept, x.ctx, AddWrite(writes, te, snap), x.w);
            } else {
              ScanOne(s, x.w, Aborted(run));
            }
            ScanThen(s, w1, x.w, r.w, After(h, level, x.out), t);
          }
        case Run(b) =>
          BuiltinScans(h, reg, tag, run, i, b, c, writes, w1, nest, level);
      }
      ScanThen(s, w, w1, r.w, s, t);
    }
  }

  lemma {:induction false} BuiltinScans(
    h: set<nat>, reg: Registry, tag: Tag, run: nat, i: nat, b: Builtin, c: Ctx, writes: seq<Write>, w1: World, nest: nat, level: nat)
    requires Ranked(reg) && Below(h, level)
    requires tag in reg.plugins && reg.plugins[tag].Sequence? && i < |reg.plugins[tag].steps|
    requires b.DoGoto? && b.tag in reg.plugins ==> Depth(reg, b.tag) < Depth(reg, tag)
    ensures var r := AfterAction(reg, tag, run, i, b, c, writes, w1, nest, level);
            Scans(Halted(h), w1, r.w, After(h, level, r.out))
    decreases Depth(reg, tag), 0, 2 * (|reg.plugins[tag].steps| - i) + 1
  {
    hide Scans;
    var s := Halted(h);
    var c1 := AfterBuiltin(b, c);
    match ActionOf(b)
    case Err(_) => ScanOne(s, w1, Aborted(run));
    case Ok(Continue) => RunStepsScans(h, reg, tag, run, i + 1, c1, writes, w1, nest, level);
    case Ok(Accept) =>
      var w2 := Note(w1, AcceptTaken(level));
      ScanOne(s, w1, AcceptTaken(level));
      ScanEnd(Halted(h + {level}), reg, run, Accept, c1, writes, w2);
      ScanThen(s, w1, w2, End(reg, run, Accept, c1, writes, w2).w, Halted(h + {level}), Halted(h + {level}));
    case Ok(Return) => ScanEnd(s, reg, run, Continue, c1, writes, w1);
    case Ok(Goto(t)) => JumpScans(h, reg, tag, run, Here(tag, i, c, w1), t, c1, writes, w1, nest, level);
  }

  lemma {:induction false} JumpScans(
    h: set<nat>, reg: Registry, tag: Tag, run: nat, from: Point, t: Tag, c: Ctx, writes: seq<Write>, w: World, nest: nat, level: nat)
    requires Ranked(reg) && Below(h, level) && (t in reg.plugins ==> Depth(reg, t) < Depth(reg, tag))
    ensures var r := Jump(reg, tag, run, from, t, c, writes, w, nest, level);
            Scans(Halted(h), w, r.w, After(h, level, r.out))
    decreases Depth(reg, tag), 0, 0
  {
    var s := Halted(h);
    if t !in reg.plugins {
      ScanOne(s, w, Aborted(run));
    } else {
      var snap := SnapshotAt(reg, t, c);
      var w1 := NoteSnap(w, run, t, snap, from);
      ScanSnap(s, w, run, t, c, reg, from);
      var x := Exec(reg, t, c, w1, nest + 1, level);
      var a := After(h, level, x.out);
      ExecScans(h, reg, t, c, w1, nest + 1, level);
      ScanThen(s, w, w1, x.w, s, a);
      var r := Jump(reg, tag, run, from, t, c, writes, w, nest, level);
      if x.out.Done? {
        ScanEnd(a, reg, run, x.out.action, x.ctx, AddWrite(writes, t, snap), x.w);
      } else {
        ScanOne(s, x.w, Aborted(run));
      }
      ScanThen(s, w, x.w, r.w, a, a);
    }
  }

  /** A branch at the next level leaves nothing halted behind it. */
  lemma {:induction false} BranchScans(h: set<nat>, reg: Registry, tag: Tag, t: Tag, c: Ctx, w: World, nest: nat, level: nat)
    requires Ranked(reg) && Below(h, level) && t in reg.plugins && Depth(reg, t) < Depth(reg, tag)
    ensures Scans(Halted(h), w, Note(Exec(reg, t, c, w, nest, level + 1).w, BranchDone(level + 1)), Halted(h))
    decreases Depth(reg, tag), 0, 0
  {
    var x := Exec(reg, t, c, w, nest, level + 1);
    var a := After(h, level + 1, x.out);
    ExecScans(h, reg, t, c, w, nest, level + 1);
    ScanOne(a, x.w, BranchDone(level + 1));
    assert level + 1 !in h;
    assert ScanEvent(a, BranchDone(level + 1)) == Halted(h);
    ScanThen(Halted(h), w, x.w, Note(x.w, BranchDone(level + 1)), a, Halted(h));
  }

  lemma {:induction false} FallbackScans(h: set<nat>, reg: Registry, tag: Tag, c: Ctx, w: World, nest: nat, level: nat)
    requires Ranked(reg) && Below(h, level)
    requires tag in reg.plugins && reg.plugins[tag].Fallback?
    ensures Scans(Halted(h), w, ExecFallback(reg, tag, c, w, nest, level).w, Halted(h))
    decreases Depth(reg, tag), 0, 1
  {
    var s := Halted(h);
    var f := reg.plugins[tag];
    BranchesDescend(reg, tag);
    var r := ExecFallback(reg, tag, c, w, nest, level);
    assert w.log[|w.log|..] == [];
    if f.primary in reg.plugins && f.secondary in reg.plugins {
      BranchScans(h, reg, tag, f.primary, Fork(c), w, nest + 1, level);
      var w1 := Note(Exec(reg, f.primary, Fork(c), w, nest + 1, level + 1).w, BranchDone(level + 1));
      BranchScans(h, reg, tag, f.secondary, Fork(c), Advance(w1), nest + 1, level);
      var w2 := Note(Exec(reg, f.secondary, Fork(c), Advance(w1), nest + 1, level + 1).w, BranchDone(level + 1));
      ScanThen(s, w, w1, w2, s, s);
      assert r.w.log == w1.log || r.w.log == w2.log;
    }
  }

  /** No step at the level of an accept runs after it until that level's branch is left. */
  ghost predicate AcceptStops(log: seq<Event>) {
    forall i, j | 0 <= i < j < |log| && log[i].AcceptTaken? && log[j].StepTaken? && log[i].level == log[j].level ::
      exists k :: i < k < j && log[k] == BranchDone(log[i].level)
  }

  lemma {:induction false} HaltedUntilLeft(s: Scan, log: seq<Event>, i: nat)
    requires i < |log| && log[i].AcceptTaken? && ScanAll(s, log).Halted?
    requires forall k | i < k < |log| :: log[k] != BranchDone(log[i].level)
    ensures log[i].level in ScanAll(s, log).levels
  {
    var n := |log| - 1;
    if i < n {
      HaltedUntilLeft(s, log[..n], i);
    }
  }

  lemma {:induction false} ScanMeansAcceptStops(s: Scan, log: seq<Event>)
    requires ScanAll(s, log).Halted?
    ensures AcceptStops(log)
  {
    if log != [] {
      var n := |log| - 1;
      ScanMeansAcceptStops(s, log[..n]);
      forall i, j | 0 <= i < j < |log| && log[i].AcceptTaken? && log[j].StepTaken? && log[i].level == log[j].level
        ensures exists k :: i < k < j && log[k] == BranchDone(log[i].level)
      {
        if j < n {
          assert log[..n][i] == log[i] && log[..n][j] == log[j];
          var k :| i < k < j && log[..n][k] == BranchDone(log[..n][i].level);
          assert log[k] == BranchDone(log[i].level);
        } else if forall k | i < k < n :: log[..n][k] != BranchDone(log[i].level) {
          HaltedUntilLeft(s, log[..n], i);
          assert false;
        } else {
          var k :| i < k < n && log[..n][k] == BranchDone(log[i].level);
          assert log[k] == BranchDone(log[i].level);
        }
      }
    }
  }

  /** In every run an accept, at any depth, is the last step taken up to the nearest enclosing
      fallback branch; and the run returns `accept` only if one was taken at its own level. */
  lemma AcceptStopsRun(reg: Registry, tag: Tag, c: Ctx, w: World, nest: nat, level: nat)
    requires Ranked(reg)
    ensures var r := Exec(reg, tag, c, w, nest, level);
            AcceptStops(r.w.log[|w.log|..])
    ensures var r := Exec(reg, tag, c, w, nest, level);
            r.out == Done(Accept) ==> exists k | |w.log| <= k < |r.w.log| :: r.w.log[k] == AcceptTaken(level)
  {
    var r := Exec(reg, tag, c, w, nest, level);
    ExecScans({}, reg, tag, c, w, nest, level);
    ScanMeansAcceptStops(Halted({}), r.w.log[|w.log|..]);
    if r.out == Done(Accept) {
      var k := HaltedSource(Halted({}), r.w.log[|w.log|..], level);
      assert r.w.log[|w.log| + k] == AcceptTaken(level);
    }
  }

  lemma {:induction false} HaltedSource(s: Scan, log: seq<Event>, level: nat) returns (k: nat)
    requires s.Halted? && level !in s.levels && ScanAll(s, log).Halted? && level in ScanAll(s, log).levels
    ensures k < |log| && log[k] == AcceptTaken(level)
  {
    var n := |log| - 1;
    if log[n] == AcceptTaken(level) {
      k := n;
    } else {
      k := HaltedSource(s, log[..n], level);
    }
  }
}
