/** Which steps are a sequence run's last. */
module PipelineReturns {
  import opened Wrappers
  import opened Context
  import opened Steps
  import opened Pipeline
  import opened PipelineWrites

  /** `return`, `accept`, `reject` and `goto` end the sequence that runs them. */
  predicate IsLast(exec: StepExec) { exec.Run? && (exec.b.DoReturn? || exec.b.DoAccept? || exec.b.DoReject? || exec.b.DoGoto?) }

  /** The event at `j` takes a step of some run; the run's entry names its sequence. */
  predicate TakesStep(reg: Registry, log: seq<Event>, j: int) {
    && 0 <= j < |log| && log[j].StepTaken? && log[j].run < j
    && var enter := log[log[j].run];
       && enter.Enter? && enter.tag in reg.plugins && reg.plugins[enter.tag].Sequence?
       && log[j].index < |reg.plugins[enter.tag].steps|
  }

  function StepAt(reg: Registry, log: seq<Event>, j: int): StepExec
    requires TakesStep(reg, log, j)
  {
    reg.plugins[log[log[j].run].tag].steps[log[j].index].exec
  }

  predicate TakesLast(reg: Registry, log: seq<Event>, j: int) { TakesStep(reg, log, j) && IsLast(StepAt(reg, log, j)) }

  predicate TakesReturn(reg: Registry, log: seq<Event>, j: int) {
    TakesStep(reg, log, j) && StepAt(reg, log, j) == Run(DoReturn)
  }

  /** No step of that run follows. */
  predicate NoStepAfter(log: seq<Event>, j: int)
    requires 0 <= j < |log| && log[j].StepTaken?
  {
    forall k | j < k < |log| && log[k].StepTaken? :: log[k].run != log[j].run
  }

  ghost predicate EndsAfter(log: seq<Event>, j: int)
    requires 0 <= j < |log| && log[j].StepTaken?
  {
    exists n :: j < n < |log| && log[n].Ended? && log[n].run == log[j].run
  }

  /** From position `from` on, every last step is its run's last, and every `return` has ended its run. */
  ghost predicate LastIsLast(reg: Registry, from: nat, log: seq<Event>) {
    && (forall j | from <= j && TakesLast(reg, log, j) :: NoStepAfter(log, j))
    && (forall j | from <= j && TakesReturn(reg, log, j) :: EndsAfter(log, j))
  }

  ghost predicate GoesOn(reg: Registry, from: nat, log: seq<Event>, run: nat) {
    forall j | from <= j && TakesLast(reg, log, j) :: log[j].run != run
  }

  // ---------- Longer logs ----------

  predicate NewSteps(log: seq<Event>, to: seq<Event>) {
    log <= to && forall k | |log| <= k < |to| && to[k].StepTaken? :: to[k].run >= |log|
  }

  /** Steps of new runs leave earlier runs as they were. */
  lemma EarlierStay(reg: Registry, from: nat, log: seq<Event>, to: seq<Event>)
    requires NewSteps(log, to) && LastIsLast(reg, from, log)
    ensures forall j | from <= j < |log| && TakesLast(reg, to, j) :: NoStepAfter(to, j)
    ensures forall j | from <= j < |log| && TakesReturn(reg, to, j) :: EndsAfter(to, j)
  {
    forall j | from <= j < |log| && TakesLast(reg, to, j) ensures NoStepAfter(to, j) {
      assert TakesLast(reg, log, j) && NoStepAfter(log, j);
      forall k | j < k < |to| && to[k].StepTaken? ensures to[k].run != to[j].run {
        if k < |log| { assert log[k].run != log[j].run; }
      }
    }
    forall j | from <= j < |log| && TakesReturn(reg, to, j) ensures EndsAfter(to, j) {
      EndStays(reg, from, log, to, j);
    }
  }

  lemma EndStays(reg: Registry, from: nat, log: seq<Event>, to: seq<Event>, j: nat)
    requires log <= to && LastIsLast(reg, from, log) && from <= j < |log| && TakesReturn(reg, to, j)
    ensures EndsAfter(to, j)
  {
    assert TakesReturn(reg, log, j) && EndsAfter(log, j);
    var n :| j < n < |log| && log[n].Ended? && log[n].run == log[j].run;
    assert to[n].Ended? && to[n].run == to[j].run;
  }

  /** Events that are no steps change nothing. */
  lemma AddOthers(reg: Registry, from: nat, log: seq<Event>, to: seq<Event>)
    requires LastIsLast(reg, from, log) && log <= to && forall k | |log| <= k < |to| :: !to[k].StepTaken?
    ensures LastIsLast(reg, from, to)
    ensures forall run: nat :: GoesOn(reg, from, log, run) ==> GoesOn(reg, from, to, run)
  {
    EarlierStay(reg, from, log, to);
    forall run: nat | GoesOn(reg, from, log, run) ensures GoesOn(reg, from, to, run) {
      forall j | from <= j && TakesLast(reg, to, j) ensures to[j].run != run {
        assert TakesLast(reg, log, j);
      }
    }
  }

  /** One step of a run that goes on, but no `return`. */
  lemma AddOneStep(reg: Registry, from: nat, log: seq<Event>, run: nat, tag: Tag, i: nat, level: nat)
    requires LastIsLast(reg, from, log) && GoesOn(reg, from, log, run)
    requires run < |log| && log[run].Enter? && log[run].tag == tag && tag in reg.plugins && reg.plugins[tag].Sequence?
    requires i < |reg.plugins[tag].steps| && reg.plugins[tag].steps[i].exec != Run(DoReturn)
    ensures var to := log + [StepTaken(run, i, level)];
            LastIsLast(reg, from, to) && (!IsLast(reg.plugins[tag].steps[i].exec) ==> GoesOn(reg, from, to, run))
  {
    var to := log + [StepTaken(run, i, level)];
    forall j | from <= j && TakesLast(reg, to, j) ensures NoStepAfter(to, j) {
      if j < |log| {
        assert TakesLast(reg, log, j) && NoStepAfter(log, j);
        assert forall k | j < k < |log| :: to[k] == log[k];
      }
    }
    forall j | from <= j && TakesReturn(reg, to, j) ensures EndsAfter(to, j) {
      assert j < |log|;
      EndStays(reg, from, log, to, j);
    }
    forall j | from <= j < |log| && TakesLast(reg, to, j) ensures to[j].run != run {
      assert TakesLast(reg, log, j);
    }
  }

  /** A `return`, the writes earned so far and the end. */
  lemma AddReturn(reg: Registry, from: nat, log: seq<Event>, run: nat, i: nat, level: nat, c: Ctx, writes: seq<Write>)
    requires LastIsLast(reg, from, log) && GoesOn(reg, from, log, run)
    ensures LastIsLast(reg, from, log + [StepTaken(run, i, level)] + StoreEvents(run, c, writes, reg.encodes) + [EndOf(run, c)])
  {
    StoreEventsAreStores(run, c, writes, reg.encodes);
    var stores := StoreEvents(run, c, writes, reg.encodes);
    var to := log + [StepTaken(run, i, level)] + stores + [EndOf(run, c)];
    var n := |to| - 1;
    hide StoreEvents;
    assert to[n] == EndOf(run, c) && to[|log|] == StepTaken(run, i, level);
    forall k | |log| < k <= n ensures !to[k].StepTaken? {
      if k < n { assert to[k] == stores[k - |log| - 1] && to[k] in stores; }
    }
    forall j | from <= j && TakesLast(reg, to, j) ensures NoStepAfter(to, j) {
      if j < |log| {
        assert TakesLast(reg, log, j) && NoStepAfter(log, j);
        assert forall k | j < k < |log| :: to[k] == log[k];
      }
    }
    forall j | from <= j && TakesReturn(reg, to, j) ensures EndsAfter(to, j) {
      if j < |log| {
        EndStays(reg, from, log, to, j);
      } else {
        assert j == |log| && to[n].Ended? && to[n].run == to[j].run;
      }
    }
  }

  // ---------- Whole runs ----------

  /** A run that goes on, entered at its own position. */
  ghost predicate Running(reg: Registry, from: nat, log: seq<Event>, run: nat, tag: Tag) {
    && LastIsLast(reg, from, log) && GoesOn(reg, from, log, run)
    && run < |log| && log[run].Enter? && log[run].tag == tag
  }

  /** What a run leaves behind. */
  ghost predicate RunLeft(reg: Registry, from: nat, log: seq<Event>, to: seq<Event>, run: nat) {
    LastIsLast(reg, from, to) && NewOrOwn(log, to, run)
  }

  lemma LeftThen(reg: Registry, from: nat, a: seq<Event>, b: seq<Event>, c: seq<Event>, run: nat)
    requires NewOrOwn(a, b, run) && RunLeft(reg, from, b, c, run)
    ensures RunLeft(reg, from, a, c, run)
  {
    NewOrOwnThen(a, b, c, run);
  }

  lemma StaysRunning(reg: Registry, from: nat, log: seq<Event>, to: seq<Event>, run: nat, tag: Tag)
    requires Running(reg, from, log, run, tag) && NewRuns(log, to) && LastIsLast(reg, from, to)
    ensures Running(reg, from, to, run, tag)
  {
    forall j | from <= j && TakesLast(reg, to, j) ensures to[j].run != run {
      if j < |log| { assert TakesLast(reg, log, j); } else { assert RunOf(to[j]) == Some(to[j].run); }
    }
  }

  lemma AddOther(reg: Registry, from: nat, w: World, e: Event)
    requires LastIsLast(reg, from, w.log) && !e.StepTaken?
    ensures LastIsLast(reg, from, Note(w, e).log)
    ensures forall run: nat :: GoesOn(reg, from, w.log, run) ==> GoesOn(reg, from, Note(w, e).log, run)
    ensures forall run: nat :: (RunOf(e).None? || RunOf(e) == Some(run)) ==> NewOrOwn(w.log, Note(w, e).log, run)
  {
    AddOthers(reg, from, w.log, Note(w, e).log);
  }

  lemma EndLeaves(reg: Registry, from: nat, run: nat, a: Action, c: Ctx, writes: seq<Write>, w: World)
    requires LastIsLast(reg, from, w.log)
    ensures RunLeft(reg, from, w.log, End(reg, run, a, c, writes, w).w.log, run)
  {
    StoreEventsAreStores(run, c, writes, reg.encodes);
    EndIsOwn(reg, run, a, c, writes, w);
    var stores := StoreEvents(run, c, writes, reg.encodes);
    var to := End(reg, run, a, c, writes, w).w.log;
    forall k | |w.log| <= k < |to| ensures !to[k].StepTaken? {
      if k < |to| - 1 { assert to[k] == stores[k - |w.log|] && to[k] in stores; }
    }
    AddOthers(reg, from, w.log, to);
  }

  lemma AbortLeaves(reg: Registry, from: nat, run: nat, w: World)
    requires LastIsLast(reg, from, w.log)
    ensures RunLeft(reg, from, w.log, Note(w, Aborted(run)).log, run)
  {
    AddOther(reg, from, w, Aborted(run));
  }

  lemma {:induction false} ExecLasts(reg: Registry, from: nat, tag: Tag, c: Ctx, w: World, nest: nat, level: nat)
    requires Ranked(reg) && LastIsLast(reg, from, w.log)
    ensures var r := Exec(reg, tag, c, w, nest, level); LastIsLast(reg, from, r.w.log) && NewRuns(w.log, r.w.log)
    decreases Depth(reg, tag), 1, 0
  {
    if tag in reg.plugins {
      var w1 := Note(Advance(w), Enter(tag, nest));
      AddOther(reg, from, Advance(w), Enter(tag, nest));
      if !Next(w).cancel {
        EnteredGoesOn(reg, from, w.log, Enter(tag, nest));
        hide LastIsLast, GoesOn, Ranked, Calls, Apply;
        match reg.plugins[tag]
        case Sequence(_) => RunStepsLasts(reg, from, tag, |w.log|, 0, c, [], w1, nest, level);
        case Fallback(_, _, _) => FallbackLasts(reg, from, tag, c, w1, nest, level);
        case CacheStep(everything) => CacheLasts(reg, from, tag, everything, c, Next(w), w1);
        case _ =>
      }
    }
  }

  lemma EnteredGoesOn(reg: Registry, from: nat, log: seq<Event>, e: Event)
    requires !e.StepTaken?
    ensures GoesOn(reg, from, log + [e], |log|)
  {
  }

  lemma CacheLasts(reg: Registry, from: nat, tag: Tag, everything: bool, c: Ctx, ch: Choice, w: World)
    requires LastIsLast(reg, from, w.log)
    ensures var r := ExecCache(reg, tag, everything, c, ch, w); LastIsLast(reg, from, r.w.log) && NewRuns(w.log, r.w.log)
  {
    hide LastIsLast, GoesOn;
    AddOthers(reg, from, w.log, ExecCache(reg, tag, everything, c, ch, w).w.log);
  }

  /** One call or jump made by `run`. */
  lemma {:induction false} CallLasts(
    reg: Registry, from: nat, tag: Tag, run: nat, at: Point, t: Tag, c: Ctx, w: World, nest: nat, level: nat)
    requires Ranked(reg) && LastIsLast(reg, from, w.log) && run < |w.log|
    requires t in reg.plugins && Depth(reg, t) < Depth(reg, tag)
    ensures var x := Exec(reg, t, c, NoteSnap(w, run, t, SnapshotAt(reg, t, c), at), nest, level);
            && LastIsLast(reg, from, x.w.log) && NewOrOwn(w.log, x.w.log, run)
            && (Running(reg, from, w.log, run, tag) ==> Running(reg, from, x.w.log, run, tag))
    decreases Depth(reg, tag), 0, 0
  {
    var snap := SnapshotAt(reg, t, c);
    var w1 := NoteSnap(w, run, t, snap, at);
    if snap.Some? { AddOther(reg, from, w, Snapped(run, t, snap.value, at)); }
    ExecLasts(reg, from, t, c, w1, nest, level);
    var x := Exec(reg, t, c, w1, nest, level);
    if Running(reg, from, w.log, run, tag) { StaysRunning(reg, from, w1.log, x.w.log, run, tag); }
    NewOrOwnThen(w.log, w1.log, x.w.log, run);
  }

  lemma {:induction false} RunStepsLasts(
    reg: Registry, from: nat, tag: Tag, run: nat, i: nat, c: Ctx, writes: seq<Write>, w: World, nest: nat, level: nat)
    requires Ranked(reg) && Running(reg, from, w.log, run, tag)
    requires tag in reg.plugins && reg.plugins[tag].Sequence? && i <= |reg.plugins[tag].steps|
    ensures RunLeft(reg, from, w.log, RunSteps(reg, tag, run, i, c, writes, w, nest, level).w.log, run)
    decreases Depth(reg, tag), 0, 2 * (|reg.plugins[tag].steps| - i) + 2
  {
    var steps := reg.plugins[tag].steps;
    hide Ranked, Calls, RunLeft, LastIsLast, GoesOn, NewOrOwn, Exec, StoreEvents, MatchesAll;
    if i == |steps| {
      EndLeaves(reg, from, run, Continue, c, writes, w);
    } else if !MatchesAll(steps[i].matchers, c) {
      RunStepsLasts(reg, from, tag, run, i + 1, c, writes, w, nest, level);
    } else if steps[i].exec.Call? {
      CallStepLasts(reg, from, tag, run, i, steps[i].exec.tag, c, writes, w, nest, level);
    } else if steps[i].exec.b == DoReturn {
      ReturnLeaves(reg, from, tag, run, i, c, writes, w, nest, level);
    } else {
      StepDescends(reg, tag, i);
      var w1 := Note(w, StepTaken(run, i, level));
      StepGoesOn(reg, from, w, run, tag, i, level);
      AfterActionLasts(reg, from, tag, run, i, steps[i].exec.b, c, writes, w1, nest, level);
      LeftThen(reg, from, w.log, w1.log, RunSteps(reg, tag, run, i, c, writes, w, nest, level).w.log, run);
    }
  }

  lemma {:induction false} CallStepLasts(
    reg: Registry, from: nat, tag: Tag, run: nat, i: nat, t: Tag, c: Ctx, writes: seq<Write>, w: World, nest: nat, level: nat)
    requires Ranked(reg) && Running(reg, from, w.log, run, tag)
    requires tag in reg.plugins && reg.plugins[tag].Sequence? && i < |reg.plugins[tag].steps|
    requires reg.plugins[tag].steps[i].exec == Call(t) && MatchesAll(reg.plugins[tag].steps[i].matchers, c)
    ensures RunLeft(reg, from, w.log, RunSteps(reg, tag, run, i, c, writes, w, nest, level).w.log, run)
    decreases Depth(reg, tag), 0, 2 * (|reg.plugins[tag].steps| - i) + 1
  {
    StepDescends(reg, tag, i);
    StepGoesOn(reg, from, w, run, tag, i, level);
    var w1 := Note(w, StepTaken(run, i, level));
    assert run < |w1.log|;
    hide Ranked, Calls, Running, RunLeft, LastIsLast, GoesOn, NewOrOwn, Exec, StoreEvents, MatchesAll, IsLast;
    var r := RunSteps(reg, tag, run, i, c, writes, w, nest, level);
    if t in reg.plugins {
      var snap := SnapshotAt(reg, t, c);
      var x := Exec(reg, t, c, NoteSnap(w1, run, t, snap, Here(tag, i, c, w1)), nest + 1, level);
      CallLasts(reg, from, tag, run, Here(tag, i, c, w1), t, c, w1, nest + 1, level);
      if x.out == Done(Continue) {
        RunStepsLasts(reg, from, tag, run, i + 1, x.ctx, AddWrite(writes, t, snap), x.w, nest, level);
      } else if x.out == Done(Accept) {
        EndLeaves(reg, from, run, Accept, x.ctx, AddWrite(writes, t, snap), x.w);
      } else {
        AbortLeaves(reg, from, run, x.w);
      }
      LeftThen(reg, from, w1.log, x.w.log, r.w.log, run);
    } else {
      AbortLeaves(reg, from, run, w1);
    }
    LeftThen(reg, from, w.log, w1.log, r.w.log, run);
  }

  lemma StepGoesOn(reg: Registry, from: nat, w: World, run: nat, tag: Tag, i: nat, level: nat)
    requires Running(reg, from, w.log, run, tag) && tag in reg.plugins && reg.plugins[tag].Sequence?
    requires i < |reg.plugins[tag].steps| && reg.plugins[tag].steps[i].exec != Run(DoReturn)
    ensures var to := Note(w, StepTaken(run, i, level)).log;
            && NewOrOwn(w.log, to, run) && LastIsLast(reg, from, to) && run < |to|
            && (!IsLast(reg.plugins[tag].steps[i].exec) ==> Running(reg, from, to, run, tag))
    ensures reg.plugins[tag].steps[i].exec.Call? ==> !IsLast(reg.plugins[tag].steps[i].exec)
  {
    AddOneStep(reg, from, w.log, run, tag, i, level);
  }

  lemma ReturnLeaves(
    reg: Registry, from: nat, tag: Tag, run: nat, i: nat, c: Ctx, writes: seq<Write>, w: World, nest: nat, level: nat)
    requires Ranked(reg) && Running(reg, from, w.log, run, tag)
    requires tag in reg.plugins && reg.plugins[tag].Sequence? && i < |reg.plugins[tag].steps|
    requires reg.plugins[tag].steps[i].exec == Run(DoReturn) && MatchesAll(reg.plugins[tag].steps[i].matchers, c)
    ensures RunLeft(reg, from, w.log, RunSteps(reg, tag, run, i, c, writes, w, nest, level).w.log, run)
  {
    var w1 := Note(w, StepTaken(run, i, level));
    ReturnStepEnds(reg, tag, run, i, c, writes, w, nest, level);
    AddReturn(reg, from, w.log, run, i, level, c, writes);
    EndIsOwn(reg, run, Continue, c, writes, w1);
    hide Ranked, StoreEvents, RunSteps, LastIsLast;
    NewOrOwnThen(w.log, w1.log, End(reg, run, Continue, c, writes, w1).w.log, run);
  }

  /** A `return` ends its run normally, for the caller to continue, in the context it finds. */
  lemma ReturnStepEnds(
    reg: Registry, tag: Tag, run: nat, i: nat, c: Ctx, writes: seq<Write>, w: World, nest: nat, level: nat)
    requires Ranked(reg) && tag in reg.plugins && reg.plugins[tag].Sequence? && i < |reg.plugins[tag].steps|
    requires reg.plugins[tag].steps[i].exec == Run(DoReturn) && MatchesAll(reg.plugins[tag].steps[i].matchers, c)
    ensures var r := RunSteps(reg, tag, run, i, c, writes, w, nest, level);
            && r.out == Done(Continue) && r.ctx == c
            && r.w.log == w.log + [StepTaken(run, i, level)] + StoreEvents(run, c, writes, reg.encodes) + [EndOf(run, c)]
  {
    hide StoreEvents, Ranked;
    var r := RunSteps(reg, tag, run, i, c, writes, w, nest, level);
    assert r == AfterAction(reg, tag, run, i, DoReturn, c, writes, Note(w, StepTaken(run, i, level)), nest, level);
  }

  /** Only a step that is not a last one goes on to the next. */
  lemma {:induction false} AfterActionLasts(
    reg: Registry, from: nat, tag: Tag, run: nat, i: nat, b: Builtin, c: Ctx, writes: seq<Write>, w: World, nest: nat, level: nat)
    requires Ranked(reg) && LastIsLast(reg, from, w.log) && run < |w.log|
    requires !IsLast(Run(b)) ==> Running(reg, from, w.log, run, tag)
    requires tag in reg.plugins && reg.plugins[tag].Sequence? && i < |reg.plugins[tag].steps|
    requires b.DoGoto? && b.tag in reg.plugins ==> Depth(reg, b.tag) < Depth(reg, tag)
    ensures RunLeft(reg, from, w.log, AfterAction(reg, tag, run, i, b, c, writes, w, nest, level).w.log, run)
    decreases Depth(reg, tag), 0, 2 * (|reg.plugins[tag].steps| - i) + 1
  {
    hide Ranked, Running, RunLeft, NewOrOwn, LastIsLast, GoesOn;
    var c1 := AfterBuiltin(b, c);
    match ActionOf(b)
    case Err(_) => AbortLeaves(reg, from, run, w);
    case Ok(Continue) => RunStepsLasts(reg, from, tag, run, i + 1, c1, writes, w, nest, level);
    case Ok(Accept) =>
      var w1 := Note(w, AcceptTaken(level));
      AddOther(reg, from, w, AcceptTaken(level));
      EndLeaves(reg, from, run, Accept, c1, writes, w1);
      LeftThen(reg, from, w.log, w1.log, End(reg, run, Accept, c1, writes, w1).w.log, run);
    case Ok(Return) => EndLeaves(reg, from, run, Continue, c1, writes, w);
    case Ok(Goto(t)) => JumpLasts(reg, from, tag, run, Here(tag, i, c, w), t, c1, writes, w, nest, level);
  }

  lemma {:induction false} JumpLasts(
    reg: Registry, from: nat, tag: Tag, run: nat, at: Point, t: Tag, c: Ctx, writes: seq<Write>, w: World, nest: nat, level: nat)
    requires Ranked(reg) && LastIsLast(reg, from, w.log) && run < |w.log| && (t in reg.plugins ==> Depth(reg, t) < Depth(reg, tag))
    ensures RunLeft(reg, from, w.log, Jump(reg, tag, run, at, t, c, writes, w, nest, level).w.log, run)
    decreases Depth(reg, tag), 0, 1
  {
    hide Ranked, Running, RunLeft, NewOrOwn, LastIsLast, GoesOn;
    if t in reg.plugins {
      var snap := SnapshotAt(reg, t, c);
      var x := Exec(reg, t, c, NoteSnap(w, run, t, snap, at), nest + 1, level);
      CallLasts(reg, from, tag, run, at, t, c, w, nest + 1, level);
      if x.out.Done? {
        EndLeaves(reg, from, run, x.out.action, x.ctx, AddWrite(writes, t, snap), x.w);
      } else {
        AbortLeaves(reg, from, run, x.w);
      }
      LeftThen(reg, from, w.log, x.w.log, Jump(reg, tag, run, at, t, c, writes, w, nest, level).w.log, run);
    } else {
      AbortLeaves(reg, from, run, w);
    }
  }

  lemma {:induction false} BranchLasts(reg: Registry, from: nat, tag: Tag, t: Tag, c: Ctx, w: World, nest: nat, level: nat)
    requires Ranked(reg) && LastIsLast(reg, from, w.log) && t in reg.plugins && Depth(reg, t) < Depth(reg, tag)
    ensures var w1 := Note(Exec(reg, t, Fork(c), w, nest, level).w, BranchDone(level));
            LastIsLast(reg, from, w1.log) && NewRuns(w.log, w1.log)
    decreases Depth(reg, tag), 0, 0
  {
    hide LastIsLast, GoesOn;
    ExecLasts(reg, from, t, Fork(c), w, nest, level);
    AddOther(reg, from, Exec(reg, t, Fork(c), w, nest, level).w, BranchDone(level));
  }

  lemma {:induction false} FallbackLasts(reg: Registry, from: nat, tag: Tag, c: Ctx, w: World, nest: nat, level: nat)
    requires Ranked(reg) && LastIsLast(reg, from, w.log)
    requires tag in reg.plugins && reg.plugins[tag].Fallback?
    ensures var r := ExecFallback(reg, tag, c, w, nest, level); LastIsLast(reg, from, r.w.log) && NewRuns(w.log, r.w.log)
    decreases Depth(reg, tag), 0, 1
  {
    hide LastIsLast, Ranked, Calls, Exec;
    var f := reg.plugins[tag];
    BranchesDescend(reg, tag);
    if f.primary in reg.plugins && f.secondary in reg.plugins {
      BranchLasts(reg, from, tag, f.primary, c, w, nest + 1, level + 1);
      var w1 := Note(Exec(reg, f.primary, Fork(c), w, nest + 1, level + 1).w, BranchDone(level + 1));
      BranchLasts(reg, from, tag, f.secondary, c, Advance(w1), nest + 1, level + 1);
      var w2 := Note(Exec(reg, f.secondary, Fork(c), Advance(w1), nest + 1, level + 1).w, BranchDone(level + 1));
      assert forall k | |w.log| <= k < |w1.log| :: w2.log[k] == w1.log[k];
    }
  }

  /** In every run, whatever it calls: a `return`, `accept`, `reject` or `goto` is the last step its
      sequence run takes, and a `return` is followed by the normal end of its run. */
  lemma ReturnStopsRun(reg: Registry, tag: Tag, c: Ctx, w: World, nest: nat, level: nat)
    requires Ranked(reg)
    ensures var log := Exec(reg, tag, c, w, nest, level).w.log;
            && (forall j, k | |w.log| <= j < k < |log| && TakesLast(reg, log, j) && log[k].StepTaken? :: log[k].run != log[j].run)
            && (forall j | |w.log| <= j && TakesReturn(reg, log, j) ::
                  exists n :: j < n < |log| && log[n].Ended? && log[n].run == log[j].run)
  {
    ExecLasts(reg, |w.log|, tag, c, w, nest, level);
    var log := Exec(reg, tag, c, w, nest, level).w.log;
    forall j, k | |w.log| <= j < k < |log| && TakesLast(reg, log, j) && log[k].StepTaken? ensures log[k].run != log[j].run {
      assert NoStepAfter(log, j);
    }
    forall j | |w.log| <= j && TakesReturn(reg, log, j)
      ensures exists n :: j < n < |log| && log[n].Ended? && log[n].run == log[j].run
    {
      assert EndsAfter(log, j);
    }
  }
}
