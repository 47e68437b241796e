/** The plugin-pipeline interpreter of `src/plugin/sequence.rs` and `src/plugin/fallback.rs`.

`Exec` and `RunSteps` say what one query run does for every behaviour of its surroundings;
the methods at the end are the interpreter itself and are proved to do exactly that.

The surroundings are a tape: at each plugin entered, the tape says whether the run is dropped
there (its future is cancelled), what an upstream or hosts table answers, and what the cache
holds. A run appends to a log what it did.
*/
module Pipeline {
  import opened Wrappers
  import opened DnsMessage
  import opened Context
  import opened Steps
  import opened CacheKey
  import opened CachePolicy

  datatype StepExec = Call(tag: Tag) | Run(b: Builtin)

  datatype Step = Step(matchers: seq<Matcher>, exec: StepExec)

  datatype Plugin =
    | Sequence(steps: seq<Step>)
    | Fallback(primary: Tag, secondary: Tag, standby: bool)
    | CacheStep(everything: bool)
    | RedirectStep(rules: seq<Rule>)
    | EcsStep(cfg: EcsConfig)
    | NoEcsStep
    | Blackhole(rcode: nat)
    | Source

  /** `depths` are the call depths computed when the configuration was validated. */
  datatype Registry = Registry(plugins: map<Tag, Plugin>, depths: map<Tag, nat>, encodes: Encoder)

  /** The plugin a step calls (`$tag`) or jumps to (`goto`). */
  function StepTarget(step: Step): Option<Tag> {
    match step.exec
    case Call(tag) => Some(tag)
    case Run(b) => if b.DoGoto? then Some(b.tag) else None
  }

  function StepCalls(steps: seq<Step>): seq<Tag> {
    if steps == [] then []
    else (match StepTarget(steps[0])
          case Some(tag) => [tag]
          case None => [])
         + StepCalls(steps[1..])
  }

  /** The executables a plugin may call, in the order validation collects them. */
  function Calls(p: Plugin): seq<Tag> {
    match p
    case Sequence(steps) => StepCalls(steps)
    case Fallback(primary, secondary, _) => [primary, secondary]
    case _ => []
  }

  /** Depths are positive and decrease along every call. */
  ghost predicate Ranked(reg: Registry) {
    forall t | t in reg.plugins ::
      t in reg.depths && reg.depths[t] >= 1 && forall u | u in Calls(reg.plugins[t]) && u in reg.plugins ::
        u in reg.depths && reg.depths[u] < reg.depths[t]
  }

  /** Every call names an executable. */
  ghost predicate Closed(reg: Registry) {
    forall t | t in reg.plugins :: forall u | u in Calls(reg.plugins[t]) :: u in reg.plugins
  }

  function Depth(reg: Registry, tag: Tag): nat {
    if tag in reg.depths then reg.depths[tag] else 0
  }

  lemma {:induction false} StepCallsInclude(steps: seq<Step>, i: nat)
    requires i < |steps|
    ensures StepTarget(steps[i]).Some? ==> StepTarget(steps[i]).value in StepCalls(steps)
  {
    if i > 0 {
      StepCallsInclude(steps[1..], i - 1);
    }
  }

  /** What a plugin calls is of smaller depth, and exists in a closed registry. */
  lemma CallDescends(reg: Registry, tag: Tag, t: Tag)
    requires Ranked(reg) && tag in reg.plugins && t in Calls(reg.plugins[tag])
    ensures t in reg.plugins ==> Depth(reg, t) < Depth(reg, tag)
    ensures Closed(reg) ==> t in reg.plugins
  {
  }

  lemma StepDescends(reg: Registry, tag: Tag, i: nat)
    requires Ranked(reg) && tag in reg.plugins && reg.plugins[tag].Sequence? && i < |reg.plugins[tag].steps|
    ensures var t := StepTarget(reg.plugins[tag].steps[i]);
            t.Some? ==> t.value in Calls(reg.plugins[tag])
                        && (t.value in reg.plugins ==> Depth(reg, t.value) < Depth(reg, tag))
  {
    StepCallsInclude(reg.plugins[tag].steps, i);
  }

  lemma BranchesDescend(reg: Registry, tag: Tag)
    requires Ranked(reg) && tag in reg.plugins && reg.plugins[tag].Fallback?
    ensures var f := reg.plugins[tag];
            && (f.primary in reg.plugins ==> Depth(reg, f.primary) < Depth(reg, tag))
            && (f.secondary in reg.plugins ==> Depth(reg, f.secondary) < Depth(reg, tag))
            && (Closed(reg) ==> f.primary in reg.plugins && f.secondary in reg.plugins)
  {
    var f := reg.plugins[tag];
    assert Calls(f)[0] == f.primary && Calls(f)[1] == f.secondary;
    CallDescends(reg, tag, f.primary);
    CallDescends(reg, tag, f.secondary);
  }

  // ---------- Surroundings, log and outcome ----------

  datatype Hit = Hit(msg: Message, stale: bool)

  /** `reply` is what an upstream or hosts table answers, if anything, to the query it is asked. */
  datatype Choice = Choice(cancel: bool, reply: Message -> Option<Message>, hit: Option<Hit>)

  /** A step about to be taken: its sequence and index, the context it finds, and the tape position.
      The flag that only steers lookups is left out of the context. */
  datatype Point = Point(tag: Tag, step: nat, at: Ctx, pos: nat)

  function Here(tag: Tag, i: nat, c: Ctx, w: World): Point { Point(tag, i, c.(skipCache := false), w.pos) }

  /** A sequence run is named by the log position at which it was entered. `CacheHit` and
      `RefreshKicked` record the context as it was before the hit was served. */
  datatype Event =
    | Enter(tag: Tag, nest: nat)
    | StepTaken(run: nat, index: nat, level: nat)
    | AcceptTaken(level: nat)
    | BranchDone(level: nat)
    | Snapped(run: nat, tag: Tag, lookup: Lookup, from: Point)
    | CacheAsked(tag: Tag, key: Key)
    | CacheHit(tag: Tag, key: Key, stale: bool, at: Ctx, pos: nat)
    | RefreshKicked(tag: Tag, key: Key, at: Ctx)
    | Stored(run: nat, tag: Tag, key: Key, msg: Message)
    | Ended(run: nat, at: Ctx)
    | Aborted(run: nat)

  datatype World = World(tape: nat -> Choice, pos: nat, log: seq<Event>)

  function Note(w: World, e: Event): World { w.(log := w.log + [e]) }

  function Next(w: World): Choice { w.tape(w.pos) }

  function Advance(w: World): World { w.(pos := w.pos + 1) }

  datatype Outcome = Done(action: Action) | Failed(why: Failure) | Cancelled

  datatype Res = Res(out: Outcome, ctx: Ctx, w: World)

  // ---------- Cache steps and cache writes ----------

  type Write = (Tag, Lookup)

  function SnapshotAt(reg: Registry, tag: Tag, c: Ctx): Option<Lookup>
    requires tag in reg.plugins
  {
    match reg.plugins[tag]
    case CacheStep(everything) => Snapshot(c, everything, reg.encodes)
    case _ => None
  }

  function AddWrite(writes: seq<Write>, tag: Tag, snap: Option<Lookup>): seq<Write> {
    match snap
    case None => writes
    case Some(lookup) => writes + [(tag, lookup)]
  }

  function NoteSnap(w: World, run: nat, tag: Tag, snap: Option<Lookup>, from: Point): World {
    match snap
    case None => w
    case Some(lookup) => Note(w, Snapped(run, tag, lookup, from))
  }

  function StoreEvent(run: nat, c: Ctx, write: Write, encodes: Encoder): seq<Event> {
    match StoreLookup(c, write.1, encodes)
    case None => []
    case Some(m) => [Stored(run, write.0, write.1.key, m)]
  }

  function StoreEvents(run: nat, c: Ctx, writes: seq<Write>, encodes: Encoder): seq<Event> {
    if writes == [] then []
    else StoreEvent(run, c, writes[0], encodes) + StoreEvents(run, c, writes[1..], encodes)
  }

  /** A finished run is logged with its context, less the flag that only steers lookups. */
  function EndOf(run: nat, c: Ctx): Event { Ended(run, c.(skipCache := false)) }

  /** A normal end of a sequence: deferred cache writes, then the action for the caller. */
  function End(reg: Registry, run: nat, a: Action, c: Ctx, writes: seq<Write>, w: World): Res {
    Res(Done(a), c, w.(log := w.log + StoreEvents(run, c, writes, reg.encodes) + [EndOf(run, c)]))
  }

  function Abort(run: nat, out: Outcome, c: Ctx, w: World): Res { Res(out, c, Note(w, Aborted(run))) }

  function ExecCache(reg: Registry, tag: Tag, everything: bool, c: Ctx, ch: Choice, w: World): Res {
    match KeyOf(c.query, everything, reg.encodes)
    case None => Res(Done(Continue), c, w)
    case Some(key) =>
      var asked := Note(w, CacheAsked(tag, key));
      if c.skipCache || ch.hit.None? then Res(Done(Continue), c, asked)
      else
        var hit := Note(asked, CacheHit(tag, key, ch.hit.value.stale, c, w.pos));
        Res(Done(Continue), Apply(c, ServeHit(ch.hit.value.msg)),
            if ch.hit.value.stale then Note(hit, RefreshKicked(tag, key, c)) else hit)
  }

  // ---------- The interpreter ----------

  function Exec(reg: Registry, tag: Tag, c: Ctx, w: World, nest: nat, level: nat): (r: Res)
    requires Ranked(reg)
    ensures r.w.tape == w.tape && w.log <= r.w.log
    ensures r.out.Done? ==> r.out.action == Continue || r.out.action == Accept
    decreases Depth(reg, tag), 1, 0
  {
    if tag !in reg.plugins then Res(Failed(UnknownTag(tag)), c, w)
    else
      var ch := Next(w);
      var w1 := Note(Advance(w), Enter(tag, nest));
      if ch.cancel then Res(Cancelled, c, w1)
      else match reg.plugins[tag]
           case Sequence(_) => RunSteps(reg, tag, |w.log|, 0, c, [], w1, nest, level)
           case Fallback(_, _, _) => ExecFallback(reg, tag, c, w1, nest, level)
           case CacheStep(everything) => ExecCache(reg, tag, everything, c, ch, w1)
           case RedirectStep(rules) => Res(Done(Continue), Redirected(rules, RedirectName(c), c), w1)
           case EcsStep(cfg) => Res(Done(Continue), AfterEcs(cfg, c), w1)
           case NoEcsStep => Res(Done(Continue), Apply(c, StripEcs), w1)
           case Blackhole(rcode) => Res(Done(Continue), Apply(c, RejectWith(rcode)), w1)
           case Source =>
             Res(Done(Continue), if ch.reply(c.query).Some? then Apply(c, Answer(ch.reply(c.query).value)) else c, w1)
  }

  function RunSteps(reg: Registry, tag: Tag, run: nat, i: nat, c: Ctx, writes: seq<Write>, w: World, nest: nat, level: nat): (r: Res)
    requires Ranked(reg) && tag in reg.plugins && reg.plugins[tag].Sequence?
    requires i <= |reg.plugins[tag].steps|
    ensures r.w.tape == w.tape && w.log <= r.w.log
    ensures r.out.Done? ==> r.out.action == Continue || r.out.action == Accept
    decreases Depth(reg, tag), 0, 2 * (|reg.plugins[tag].steps| - i) + 2
  {
    var steps := reg.plugins[tag].steps;
    if i == |steps| then End(reg, run, Continue, c, writes, w)
    else if !MatchesAll(steps[i].matchers, c) then RunSteps(reg, tag, run, i + 1, c, writes, w, nest, level)
    else
      StepDescends(reg, tag, i);
      var w1 := Note(w, StepTaken(run, i, level));
      match steps[i].exec
      case Call(t) =>
        if t !in reg.plugins then Abort(run, Failed(UnknownTag(t)), c, w1)
        else
          var snap := SnapshotAt(reg, t, c);
          var writes1 := AddWrite(writes, t, snap);
          var r := Exec(reg, t, c, NoteSnap(w1, run, t, snap, Here(tag, i, c, w1)), nest + 1, level);
          (match r.out
           case Done(Continue) => RunSteps(reg, tag, run, i + 1, r.ctx, writes1, r.w, nest, level)
           case Done(Accept) => End(reg, run, Accept, r.ctx, writes1, r.w)
           case _ => Abort(run, r.out, r.ctx, r.w))
      case Run(b) => AfterAction(reg, tag, run, i, b, c, writes, w1, nest, level)
  }

  /** What a builtin's action makes of the sequence that runs it as step `i`. */
  function AfterAction(
    reg: Registry, tag: Tag, run: nat, i: nat, b: Builtin, c: Ctx, writes: seq<Write>, w: World, nest: nat, level: nat): (r: Res)
    requires Ranked(reg) && tag in reg.plugins && reg.plugins[tag].Sequence?
    requires i < |reg.plugins[tag].steps|
    requires b.DoGoto? && b.tag in reg.plugins ==> Depth(reg, b.tag) < Depth(reg, tag)
    ensures r.w.tape == w.tape && w.log <= r.w.log
    ensures r.out.Done? ==> r.out.action == Continue || r.out.action == Accept
    decreases Depth(reg, tag), 0, 2 * (|reg.plugins[tag].steps| - i) + 1
  {
    var c1 := AfterBuiltin(b, c);
    match ActionOf(b)
    case Err(why) => Abort(run, Failed(why), c1, w)
    case Ok(Continue) => RunSteps(reg, tag, run, i + 1, c1, writes, w, nest, level)
    case Ok(Accept) => End(reg, run, Accept, c1, writes, Note(w, AcceptTaken(level)))
    case Ok(Return) => End(reg, run, Continue, c1, writes, w)
    case Ok(Goto(t)) => Jump(reg, tag, run, Here(tag, i, c, w), t, c1, writes, w, nest, level)
  }

  /** `goto`: the target's action becomes this sequence's own. */
  function Jump(reg: Registry, tag: Tag, run: nat, from: Point, t: Tag, c: Ctx, writes: seq<Write>, w: World, nest: nat, level: nat): (r: Res)
    requires Ranked(reg) && (t in reg.plugins ==> Depth(reg, t) < Depth(reg, tag))
    ensures r.w.tape == w.tape && w.log <= r.w.log
    ensures r.out.Done? ==> r.out.action == Continue || r.out.action == Accept
    decreases Depth(reg, tag), 0, 0
  {
    if t !in reg.plugins then Abort(run, Failed(UnknownTag(t)), c, w)
    else
      var snap := SnapshotAt(reg, t, c);
      var r := Exec(reg, t, c, NoteSnap(w, run, t, snap, from), nest + 1, level);
      if r.out.Done? then End(reg, run, r.out.action, r.ctx, AddWrite(writes, t, snap), r.w)
      else Abort(run, r.out, r.ctx, r.w)
  }

  /** Both branches run on forks. A branch that is cancelled was dropped by the preference window
      or by an outer cancellation; one more tape entry says whether the outer run is dropped
      while it waits. In standby mode the branches overlap in time but share nothing, so their
      log entries are recorded one branch after the other. */
  function ExecFallback(reg: Registry, tag: Tag, c: Ctx, w: World, nest: nat, level: nat): (r: Res)
    requires Ranked(reg) && tag in reg.plugins && reg.plugins[tag].Fallback?
    ensures r.w.tape == w.tape && w.log <= r.w.log
    ensures r.out.Done? ==> r.out.action == Continue
    decreases Depth(reg, tag), 0, 0
  {
    BranchesDescend(reg, tag);
    var f := reg.plugins[tag];
    if f.primary !in reg.plugins then Res(Failed(UnknownTag(f.primary)), c, w)
    else if f.secondary !in reg.plugins then Res(Failed(UnknownTag(f.secondary)), c, w)
    else
      var p := Exec(reg, f.primary, Fork(c), w, nest + 1, level + 1);
      var w1 := Note(p.w, BranchDone(level + 1));
      var wins := p.out.Done? && HasWantedAns(p.ctx);
      if wins && !f.standby then Res(Done(Continue), Absorb(c, p.ctx), w1)
      else if !f.standby && Next(w1).cancel then Res(Cancelled, c, Advance(w1))
      else
        var s := Exec(reg, f.secondary, Fork(c), Advance(w1), nest + 1, level + 1);
        var w2 := Note(s.w, BranchDone(level + 1));
        if wins then Res(Done(Continue), Absorb(c, p.ctx), w2)
        else if s.out.Cancelled? || (f.standby && Next(w2).cancel) then Res(Cancelled, c, Advance(w2))
        else Res(if s.out.Done? then Done(Continue) else s.out, Absorb(c, s.ctx), Advance(w2))
  }

  // ---------- A fallback in parts ----------

  /** One branch of a fallback on a fork, with the mark that it was left. */
  function Branch(reg: Registry, t: Tag, c: Ctx, w: World, nest: nat, level: nat): (r: Res)
    requires Ranked(reg)
    ensures r.w.tape == w.tape && w.log <= r.w.log
  {
    var x := Exec(reg, t, Fork(c), w, nest, level);
    x.(w := Note(x.w, BranchDone(level)))
  }

  /** What a fallback does once its primary branch was left. */
  function AfterPrimary(reg: Registry, tag: Tag, c: Ctx, x: Res, nest: nat, level: nat): (r: Res)
    requires Ranked(reg) && tag in reg.plugins && reg.plugins[tag].Fallback?
    ensures x.w.log <= r.w.log
  {
    var f := reg.plugins[tag];
    var wins := x.out.Done? && HasWantedAns(x.ctx);
    if wins && !f.standby then Res(Done(Continue), Absorb(c, x.ctx), x.w)
    else if !f.standby && Next(x.w).cancel then Res(Cancelled, c, Advance(x.w))
    else AfterSecondary(f.standby, wins, c, x, Branch(reg, f.secondary, c, Advance(x.w), nest, level))
  }

  function AfterSecondary(standby: bool, wins: bool, c: Ctx, x: Res, s: Res): (r: Res)
    ensures r.w.log == s.w.log && s.w.pos <= r.w.pos
  {
    if wins then Res(Done(Continue), Absorb(c, x.ctx), s.w)
    else if s.out.Cancelled? || (standby && Next(s.w).cancel) then Res(Cancelled, c, Advance(s.w))
    else Res(if s.out.Done? then Done(Continue) else s.out, Absorb(c, s.ctx), Advance(s.w))
  }

  lemma FallbackSplits(reg: Registry, tag: Tag, c: Ctx, w: World, nest: nat, level: nat)
    requires Ranked(reg) && tag in reg.plugins && reg.plugins[tag].Fallback?
    requires reg.plugins[tag].primary in reg.plugins && reg.plugins[tag].secondary in reg.plugins
    ensures ExecFallback(reg, tag, c, w, nest, level)
         == AfterPrimary(reg, tag, c, Branch(reg, reg.plugins[tag].primary, c, w, nest + 1, level + 1), nest + 1, level + 1)
  {
    hide Exec, Ranked, Calls;
    BranchesDescend(reg, tag);
  }

  lemma {:induction false} StoreEventsAreStores(run: nat, c: Ctx, writes: seq<Write>, encodes: Encoder)
    ensures forall e | e in StoreEvents(run, c, writes, encodes) :: e.Stored? && e.run == run
  {
    if writes != [] {
      StoreEventsAreStores(run, c, writes[1..], encodes);
    }
  }

  // ---------- The interpreter in the form the program has it ----------

  lemma {:induction false} StoreEventsAppend(run: nat, c: Ctx, writes: seq<Write>, write: Write, encodes: Encoder)
    ensures StoreEvents(run, c, writes + [write], encodes)
         == StoreEvents(run, c, writes, encodes) + StoreEvent(run, c, write, encodes)
  {
    hide StoreEvent;
    if writes == [] {
      assert [write][1..] == [];
    } else {
      StoreEventsAppend(run, c, writes[1..], write, encodes);
      assert (writes + [write])[1..] == writes[1..] + [write];
    }
  }

  /** `Sequence::store`: every remembered lookup is offered the reply, in order. */
  method DoStore(run: nat, ctx: QueryContext, writes: seq<Write>, encodes: Encoder, w: World) returns (w': World)
    ensures w' == w.(log := w.log + StoreEvents(run, ctx.State(), writes, encodes))
  {
    w' := w;
    for i := 0 to |writes|
      invariant w' == w.(log := w.log + StoreEvents(run, ctx.State(), writes[..i], encodes))
    {
      var lookup := writes[i].1;
      StoreEventsAppend(run, ctx.State(), writes[..i], writes[i], encodes);
      assert writes[..i] + [writes[i]] == writes[..i + 1];
      if !ctx.served && (ctx.response.None? || CacheableEdns(ctx.response.value)) {
        var reply := ctx.BuildResponseFor(lookup.query, lookup.rewriteStart);
        if reply.Some? && Storable(reply.value, encodes) {
          w' := Note(w', Stored(run, writes[i].0, lookup.key, reply.value));
        }
      }
    }
    assert writes[..|writes|] == writes;
  }

  method DoExec(reg: Registry, tag: Tag, ctx: QueryContext, w: World, nest: nat, level: nat) returns (out: Outcome, w': World)
    requires Ranked(reg)
    modifies ctx
    ensures Res(out, ctx.State(), w') == Exec(reg, tag, old(ctx.State()), w, nest, level)
    decreases Depth(reg, tag), 1, 0
  {
    if tag !in reg.plugins {
      return Failed(UnknownTag(tag)), w;
    }
    var ch := Next(w);
    w' := Note(Advance(w), Enter(tag, nest));
    if ch.cancel {
      return Cancelled, w';
    }
    out := Done(Continue);
    match reg.plugins[tag]
    case Sequence(_) => out, w' := DoRunSteps(reg, tag, |w.log|, ctx, w', nest, level);
    case Fallback(_, _, _) => out, w' := DoFallback(reg, tag, ctx, w', nest, level);
    case CacheStep(everything) => w' := DoCache(reg, tag, everything, ctx, ch, w');
    case RedirectStep(rules) => Redirect(rules, ctx);
    case EcsStep(cfg) => ExecEcs(cfg, ctx);
    case NoEcsStep =>
      ctx.query := RemoveEcs(ctx.query);
      ctx.stripEcs := true;
    case Blackhole(rcode) => ctx.DoReject(rcode);
    case Source =>
      var reply := ch.reply(ctx.query);
      if reply.Some? {
        ctx.DoSetResponse(reply.value);
      }
  }

  method DoCache(reg: Registry, tag: Tag, everything: bool, ctx: QueryContext, ch: Choice, w: World) returns (w': World)
    modifies ctx
    ensures Res(Done(Continue), ctx.State(), w') == ExecCache(reg, tag, everything, old(ctx.State()), ch, w)
  {
    w' := w;
    var key := KeyOf(ctx.query, everything, reg.encodes);
    if key.Some? {
      w' := Note(w', CacheAsked(tag, key.value));
      if !ctx.skipCache && ch.hit.Some? {
        w' := Note(w', CacheHit(tag, key.value, ch.hit.value.stale, ctx.State(), w.pos));
        if ch.hit.value.stale {
          w' := Note(w', RefreshKicked(tag, key.value, ctx.State()));
        }
        ctx.DoSetResponse(Rebind(ch.hit.value.msg, ctx.query));
        ctx.served := true;
      }
    }
  }

  method DoEnd(reg: Registry, run: nat, a: Action, ctx: QueryContext, writes: seq<Write>, w: World)
    returns (out: Outcome, w': World)
    ensures Res(out, ctx.State(), w') == End(reg, run, a, ctx.State(), writes, w)
  {
    w' := DoStore(run, ctx, writes, reg.encodes, w);
    return Done(a), Note(w', EndOf(run, ctx.State()));
  }

  method DoJump(
    reg: Registry, tag: Tag, run: nat, from: Point, t: Tag, ctx: QueryContext, writes: seq<Write>, w: World, nest: nat, level: nat)
    returns (out: Outcome, w': World)
    requires Ranked(reg) && (t in reg.plugins ==> Depth(reg, t) < Depth(reg, tag))
    modifies ctx
    ensures Res(out, ctx.State(), w') == Jump(reg, tag, run, from, t, old(ctx.State()), writes, w, nest, level)
    decreases Depth(reg, tag), 0, 0
  {
    if t !in reg.plugins {
      return Failed(UnknownTag(t)), Note(w, Aborted(run));
    }
    var snap := SnapshotAt(reg, t, ctx.State());
    out, w' := DoExec(reg, t, ctx, NoteSnap(w, run, t, snap, from), nest + 1, level);
    if out.Done? {
      out, w' := DoEnd(reg, run, out.action, ctx, AddWrite(writes, t, snap), w');
    } else {
      w' := Note(w', Aborted(run));
    }
  }

  /** `Sequence::run`. */
  method DoRunSteps(reg: Registry, tag: Tag, run: nat, ctx: QueryContext, w: World, nest: nat, level: nat)
    returns (out: Outcome, w': World)
    requires Ranked(reg) && tag in reg.plugins && reg.plugins[tag].Sequence?
    modifies ctx
    ensures Res(out, ctx.State(), w') == RunSteps(reg, tag, run, 0, old(ctx.State()), [], w, nest, level)
    decreases Depth(reg, tag), 0, 1
  {
    hide Exec, Jump, End, StoreEvents, Ranked, Calls;
    var steps := reg.plugins[tag].steps;
    var i, writes := 0, [];
    w' := w;
    ghost var goal := RunSteps(reg, tag, run, 0, ctx.State(), [], w, nest, level);
    while i < |steps|
      invariant i <= |steps|
      invariant RunSteps(reg, tag, run, i, ctx.State(), writes, w', nest, level) == goal
      decreases |steps| - i
    {
      if MatchesAll(steps[i].matchers, ctx.State()) {
        StepDescends(reg, tag, i);
        w' := Note(w', StepTaken(run, i, level));
        match steps[i].exec
        case Call(t) =>
          if t !in reg.plugins {
            return Failed(UnknownTag(t)), Note(w', Aborted(run));
          }
          var snap := SnapshotAt(reg, t, ctx.State());
          writes := AddWrite(writes, t, snap);
          out, w' := DoExec(reg, t, ctx, NoteSnap(w', run, t, snap, Here(tag, i, ctx.State(), w')), nest + 1, level);
          if out == Done(Accept) {
            out, w' := DoEnd(reg, run, Accept, ctx, writes, w');
            return;
          } else if out != Done(Continue) {
            return out, Note(w', Aborted(run));
          }
        case Run(b) =>
          var from := Here(tag, i, ctx.State(), w');
          var action := ApplyBuiltin(b, ctx);
          if action.Err? {
            return Failed(action.error), Note(w', Aborted(run));
          } else if action.value.Goto? {
            out, w' := DoJump(reg, tag, run, from, action.value.tag, ctx, writes, w', nest, level);
            return;
          } else if action.value.Accept? {
            out, w' := DoEnd(reg, run, Accept, ctx, writes, Note(w', AcceptTaken(level)));
            return;
          } else if action.value.Return? {
            out, w' := DoEnd(reg, run, Continue, ctx, writes, w');
            return;
          }
      }
      i := i + 1;
    }
    out, w' := DoEnd(reg, run, Continue, ctx, writes, w');
  }

  /** `BoundFallback::exec`. */
  method DoFallback(reg: Registry, tag: Tag, ctx: QueryContext, w: World, nest: nat, level: nat)
    returns (out: Outcome, w': World)
    requires Ranked(reg) && tag in reg.plugins && reg.plugins[tag].Fallback?
    modifies ctx
    ensures Res(out, ctx.State(), w') == ExecFallback(reg, tag, old(ctx.State()), w, nest, level)
    decreases Depth(reg, tag), 0, 0
  {
    hide Exec, Ranked, Calls;
    var f := reg.plugins[tag];
    if f.primary !in reg.plugins {
      return Failed(UnknownTag(f.primary)), w;
    }
    if f.secondary !in reg.plugins {
      return Failed(UnknownTag(f.secondary)), w;
    }
    BranchesDescend(reg, tag);
    var pctx := new QueryContext.ForBranch(ctx);
    var sctx := new QueryContext.ForBranch(ctx);
    var primary, w1 := DoExec(reg, f.primary, pctx, w, nest + 1, level + 1);
    w1 := Note(w1, BranchDone(level + 1));
    var wins := primary.Done? && HasWantedAns(pctx.State());
    if !f.standby {
      if wins {
        ctx.DoAbsorb(pctx);
        return Done(Continue), w1;
      }
      if Next(w1).cancel {
        return Cancelled, Advance(w1);
      }
    }
    var secondary, w2 := DoExec(reg, f.secondary, sctx, Advance(w1), nest + 1, level + 1);
    w2 := Note(w2, BranchDone(level + 1));
    if wins {
      ctx.DoAbsorb(pctx);
      return Done(Continue), w2;
    }
    if secondary.Cancelled? || (f.standby && Next(w2).cancel) {
      return Cancelled, Advance(w2);
    }
    ctx.DoAbsorb(sctx);
    return (if secondary.Done? then Done(Continue) else secondary), Advance(w2);
  }
}
