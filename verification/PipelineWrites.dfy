/** Which cache entries a run writes: exactly those it earned.

A sequence run that ended normally has written, for each cache step it actually executed,
the reply it ended with, bound to the query as it was at that step; it wrote nothing else,
and a run that failed or was cancelled wrote nothing.
*/
module PipelineWrites {
  import opened Wrappers
  import opened Context
  import opened Steps
  import opened CacheKey
  import opened CachePolicy
  import opened Pipeline
  import opened PipelineInvariants

  function RunOf(e: Event): Option<nat> {
    match e
    case StepTaken(run, _, _) => Some(run)
    case Snapped(run, _, _, _) => Some(run)
    case Stored(run, _, _, _) => Some(run)
    case Ended(run, _) => Some(run)
    case Aborted(run) => Some(run)
    case _ => None
  }

  /** `e` remembers the lookup `s` for `run`. */
  predicate Remembers(e: Event, run: nat, s: Write) {
    e.Snapped? && e.run == run && e.tag == s.0 && e.lookup == s.1
  }

  predicate Closes(e: Event, run: nat) { (e.Ended? || e.Aborted?) && e.run == run }

  predicate Open(log: seq<Event>, run: nat) {
    run < |log| && forall k | 0 <= k < |log| :: !Closes(log[k], run)
  }

  /** The lookups of one run, in the order its cache steps were executed. */
  function SnapsOf(log: seq<Event>, run: nat): seq<Write> {
    if log == [] then []
    else
      var last := log[|log| - 1];
      SnapsOf(log[..|log| - 1], run)
      + (if last.Snapped? && last.run == run then [(last.tag, last.lookup)] else [])
  }

  /** The lookup noted at `i` belongs to the run that ended at `n`, which had a storable reply for it. */
  predicate Earns(reg: Registry, log: seq<Event>, i: int, n: int) {
    && 0 <= i < n < |log|
    && log[i].Snapped? && log[n].Ended? && log[n].run == log[i].run
    && StoreLookup(log[n].at, log[i].lookup, reg.encodes).Some?
  }

  function Earned(reg: Registry, log: seq<Event>, i: int, n: int): Event
    requires Earns(reg, log, i, n)
  {
    Stored(log[i].run, log[i].tag, log[i].lookup.key, StoreLookup(log[n].at, log[i].lookup, reg.encodes).value)
  }

  /** The write at `j` was earned by a lookup before it and the end of its run after it. */
  ghost predicate Justified(reg: Registry, log: seq<Event>, j: int)
    requires 0 <= j < |log|
  {
    exists i, n :: i < j < n && Earns(reg, log, i, n) && log[j] == Earned(reg, log, i, n)
  }

  ghost predicate Written(reg: Registry, log: seq<Event>, i: int, n: int)
    requires Earns(reg, log, i, n)
  {
    exists j :: i < j < n && log[j] == Earned(reg, log, i, n)
  }

  /** The point names a step of a sequence that calls or jumps to `target` and is about to be taken. */
  predicate PointTakes(reg: Registry, from: Point, target: Tag) {
    && from.tag in reg.plugins && reg.plugins[from.tag].Sequence?
    && from.step < |reg.plugins[from.tag].steps|
    && StepTarget(reg.plugins[from.tag].steps[from.step]) == Some(target)
    && MatchesAll(reg.plugins[from.tag].steps[from.step].matchers, from.at)
    && !from.at.skipCache
  }

  /** A lookup is remembered at a step that reaches its cache, with the query found there; and a
      hit is taken by a run that looks up, under the key of its query at that moment. */
  predicate WellLogged(reg: Registry, e: Event) {
    && (e.Snapped? ==>
          && PointTakes(reg, e.from, e.tag)
          && e.tag in reg.plugins && reg.plugins[e.tag].CacheStep?
          && Snapshot(e.from.at, reg.plugins[e.tag].everything, reg.encodes) == Some(e.lookup))
    && (e.CacheHit? ==>
          && e.tag in reg.plugins && reg.plugins[e.tag].CacheStep?
          && KeyOf(e.at.query, reg.plugins[e.tag].everything, reg.encodes) == Some(e.key)
          && !e.at.skipCache)
  }

  ghost predicate AllJustified(reg: Registry, log: seq<Event>) {
    forall j | 0 <= j < |log| && log[j].Stored? :: Justified(reg, log, j)
  }

  ghost predicate AllWritten(reg: Registry, log: seq<Event>) {
    forall i, n | Earns(reg, log, i, n) :: Written(reg, log, i, n)
  }

  /** Nothing of a run follows its end or abort, and a run is named by an earlier position. */
  predicate RunsAreOrderly(log: seq<Event>) {
    && (forall k, n | 0 <= k < |log| && 0 <= n < |log| && RunOf(log[k]).Some? && Closes(log[n], RunOf(log[k]).value) ::
          k <= n)
    && (forall k | 0 <= k < |log| && RunOf(log[k]).Some? :: RunOf(log[k]).value < k)
  }

  ghost predicate EventsAreSound(reg: Registry, mark: Mark, log: seq<Event>) {
    forall k | 0 <= k < |log| ::
      WellLogged(reg, log[k]) && (log[k].Ended? ==> FlagIsExact(mark, log[k].at))
  }

  ghost predicate Clean(reg: Registry, mark: Mark, log: seq<Event>) {
    && AllJustified(reg, log)
    && AllWritten(reg, log)
    && RunsAreOrderly(log)
    && EventsAreSound(reg, mark, log)
  }

  // ---------- One event at a time ----------

  lemma JustifiedStays(reg: Registry, log: seq<Event>, to: seq<Event>, j: int)
    requires log <= to && 0 <= j < |log| && Justified(reg, log, j)
    ensures Justified(reg, to, j)
  {
    var i, n :| i < j < n && Earns(reg, log, i, n) && log[j] == Earned(reg, log, i, n);
    assert Earns(reg, to, i, n) && to[j] == Earned(reg, to, i, n);
  }

  lemma WrittenStays(reg: Registry, log: seq<Event>, to: seq<Event>, i: int, n: int)
    requires log <= to && Earns(reg, log, i, n) && Written(reg, log, i, n)
    ensures Earns(reg, to, i, n) && Written(reg, to, i, n)
  {
    var j :| i < j < n && log[j] == Earned(reg, log, i, n);
    assert to[j] == Earned(reg, to, i, n);
  }

  /** Events other than writes and normal ends keep a log clean. */
  lemma AddEvent(reg: Registry, mark: Mark, log: seq<Event>, e: Event)
    requires Clean(reg, mark, log)
    requires !e.Stored? && !e.Ended? && WellLogged(reg, e)
    requires RunOf(e).Some? ==> Open(log, RunOf(e).value)
    ensures Clean(reg, mark, log + [e])
  {
    var to := log + [e];
    forall j | 0 <= j < |to| && to[j].Stored? ensures Justified(reg, to, j) { JustifiedStays(reg, log, to, j); }
    forall i, n | Earns(reg, to, i, n) ensures Written(reg, to, i, n) {
      assert Earns(reg, log, i, n);
      WrittenStays(reg, log, to, i, n);
    }
  }

  lemma {:induction false} SnapsOfAppend(log: seq<Event>, more: seq<Event>, run: nat)
    requires forall k | 0 <= k < |more| :: more[k].Snapped? ==> more[k].run != run
    ensures SnapsOf(log + more, run) == SnapsOf(log, run)
  {
    if more == [] {
      assert log + more == log;
    } else {
      var n := |more| - 1;
      SnapsOfAppend(log, more[..n], run);
      assert (log + more)[..|log + more| - 1] == log + more[..n];
    }
  }

  lemma {:induction false} SnapsOfAreSnaps(log: seq<Event>, run: nat)
    ensures forall s | s in SnapsOf(log, run) :: exists i | 0 <= i < |log| :: Remembers(log[i], run, s)
    ensures forall i | 0 <= i < |log| && log[i].Snapped? && log[i].run == run ::
              (log[i].tag, log[i].lookup) in SnapsOf(log, run)
  {
    if log != [] {
      var n := |log| - 1;
      SnapsOfAreSnaps(log[..n], run);
      forall s | s in SnapsOf(log, run) ensures exists i | 0 <= i < |log| :: Remembers(log[i], run, s) {
        if s in SnapsOf(log[..n], run) {
          var i :| 0 <= i < n && Remembers(log[..n][i], run, s);
          assert Remembers(log[i], run, s);
        } else {
          assert Remembers(log[n], run, s);
        }
      }
      forall i | 0 <= i < |log| && log[i].Snapped? && log[i].run == run
        ensures (log[i].tag, log[i].lookup) in SnapsOf(log, run)
      {
        if i < n { assert log[..n][i] == log[i]; }
      }
    }
  }

  lemma {:induction false} StoreEventsExact(run: nat, c: Ctx, writes: seq<Write>, encodes: Encoder)
    ensures forall e | e in StoreEvents(run, c, writes, encodes) ::
              exists s | s in writes :: StoreLookup(c, s.1, encodes).Some?
                && e == Stored(run, s.0, s.1.key, StoreLookup(c, s.1, encodes).value)
    ensures forall s | s in writes && StoreLookup(c, s.1, encodes).Some? ::
              Stored(run, s.0, s.1.key, StoreLookup(c, s.1, encodes).value) in StoreEvents(run, c, writes, encodes)
  {
    if writes != [] {
      StoreEventsExact(run, c, writes[1..], encodes);
      assert writes == [writes[0]] + writes[1..];
    }
  }

  lemma StoreIgnoresSkip(c: Ctx, lookup: Lookup, encodes: Encoder)
    ensures StoreLookup(c.(skipCache := false), lookup, encodes) == StoreLookup(c, lookup, encodes)
  {
  }

  /** A write made at the end of a run is justified by the lookup it was made for. */
  lemma StoreIsJustified(reg: Registry, log: seq<Event>, run: nat, c: Ctx, j: int)
    requires Open(log, run)
    requires var stores := StoreEvents(run, c, SnapsOf(log, run), reg.encodes);
             |log| <= j < |log| + |stores|
    ensures var to := log + StoreEvents(run, c, SnapsOf(log, run), reg.encodes) + [EndOf(run, c)];
            Justified(reg, to, j)
  {
    hide StoreLookup, StoreEvents, SnapsOf, Open;
    var writes := SnapsOf(log, run);
    var stores := StoreEvents(run, c, writes, reg.encodes);
    var to := log + stores + [EndOf(run, c)];
    SnapsOfAreSnaps(log, run);
    StoreEventsExact(run, c, writes, reg.encodes);
    assert to[j] == stores[j - |log|] && to[j] in stores;
    var s :| s in writes && StoreLookup(c, s.1, reg.encodes).Some?
             && to[j] == Stored(run, s.0, s.1.key, StoreLookup(c, s.1, reg.encodes).value);
    var i :| 0 <= i < |log| && Remembers(log[i], run, s);
    var n := |log| + |stores|;
    StoreIgnoresSkip(c, s.1, reg.encodes);
    assert to[i] == log[i] && to[n] == EndOf(run, c);
    assert Earns(reg, to, i, n) && to[j] == Earned(reg, to, i, n);
  }

  /** Every lookup of the run that its reply is storable for is written at its end. */
  lemma LookupIsWritten(reg: Registry, log: seq<Event>, run: nat, c: Ctx, i: int)
    requires Open(log, run)
    requires var stores := StoreEvents(run, c, SnapsOf(log, run), reg.encodes);
             var to := log + stores + [EndOf(run, c)];
             Earns(reg, to, i, |log| + |stores|)
    ensures var stores := StoreEvents(run, c, SnapsOf(log, run), reg.encodes);
            var to := log + stores + [EndOf(run, c)];
            Written(reg, to, i, |log| + |stores|)
  {
    hide StoreLookup, StoreEvents, SnapsOf, Open;
    var writes := SnapsOf(log, run);
    var stores := StoreEvents(run, c, writes, reg.encodes);
    var to := log + stores + [EndOf(run, c)];
    var n := |log| + |stores|;
    SnapsOfAreSnaps(log, run);
    StoreEventsExact(run, c, writes, reg.encodes);
    assert forall k | |log| <= k < n :: to[k] == stores[k - |log|] && to[k] in stores;
    assert i < |log| && to[i] == log[i];
    assert (log[i].tag, log[i].lookup) in writes;
    StoreIgnoresSkip(c, log[i].lookup, reg.encodes);
    assert Earned(reg, to, i, n) in stores;
    var q :| 0 <= q < |stores| && stores[q] == Earned(reg, to, i, n);
    assert to[|log| + q] == Earned(reg, to, i, n);
  }

  lemma EndIsJustified(reg: Registry, log: seq<Event>, run: nat, c: Ctx)
    requires AllJustified(reg, log) && Open(log, run)
    ensures AllJustified(reg, log + StoreEvents(run, c, SnapsOf(log, run), reg.encodes) + [EndOf(run, c)])
  {
    var to := log + StoreEvents(run, c, SnapsOf(log, run), reg.encodes) + [EndOf(run, c)];
    forall j | 0 <= j < |to| && to[j].Stored? ensures Justified(reg, to, j) {
      if j < |log| {
        assert log <= to;
        assert Justified(reg, log, j);
        JustifiedStays(reg, log, to, j);
      } else {
        StoreIsJustified(reg, log, run, c, j);
      }
    }
  }

  lemma EndIsWritten(reg: Registry, log: seq<Event>, run: nat, c: Ctx)
    requires AllWritten(reg, log) && Open(log, run)
    ensures AllWritten(reg, log + StoreEvents(run, c, SnapsOf(log, run), reg.encodes) + [EndOf(run, c)])
  {
    hide StoreLookup, Open;
    var stores := StoreEvents(run, c, SnapsOf(log, run), reg.encodes);
    var to := log + stores + [EndOf(run, c)];
    StoreEventsExact(run, c, SnapsOf(log, run), reg.encodes);
    assert forall k | |log| <= k < |log| + |stores| :: to[k] == stores[k - |log|] && to[k] in stores;
    forall i, m | Earns(reg, to, i, m) ensures Written(reg, to, i, m) {
      if m < |log| {
        assert log <= to;
        assert Earns(reg, log, i, m);
        WrittenStays(reg, log, to, i, m);
      } else {
        assert m == |log| + |stores|;
        LookupIsWritten(reg, log, run, c, i);
      }
    }
  }

  lemma StoredIsWellLogged(reg: Registry, e: Event)
    requires e.Stored? || e.Ended?
    ensures WellLogged(reg, e)
  {
  }

  lemma EndIsOrderly(reg: Registry, mark: Mark, log: seq<Event>, run: nat, c: Ctx, writes: seq<Write>)
    requires RunsAreOrderly(log) && EventsAreSound(reg, mark, log) && Open(log, run)
    requires FlagIsExact(mark, c)
    ensures var to := log + StoreEvents(run, c, writes, reg.encodes) + [EndOf(run, c)];
            RunsAreOrderly(to) && EventsAreSound(reg, mark, to)
  {
    hide StoreLookup, WellLogged;
    var stores := StoreEvents(run, c, writes, reg.encodes);
    var to := log + stores + [EndOf(run, c)];
    var n := |log| + |stores|;
    StoreEventsAreStores(run, c, writes, reg.encodes);
    forall k | |log| <= k < n ensures to[k].Stored? && to[k].run == run && WellLogged(reg, to[k]) {
      assert to[k] == stores[k - |log|] && to[k] in stores;
      StoredIsWellLogged(reg, to[k]);
    }
    StoredIsWellLogged(reg, EndOf(run, c));
    hide FlagIsExact;
    assert forall k | 0 <= k < |log| :: to[k] == log[k];
    assert to[n] == EndOf(run, c);
  }

  /** The normal end of a run: all its lookups are offered the reply, and it is closed. */
  lemma AddEnd(reg: Registry, mark: Mark, run: nat, a: Action, c: Ctx, writes: seq<Write>, w: World)
    requires Clean(reg, mark, w.log) && Open(w.log, run)
    requires writes == SnapsOf(w.log, run)
    requires FlagIsExact(mark, c)
    ensures var r := End(reg, run, a, c, writes, w); Clean(reg, mark, r.w.log) && NewOrOwn(w.log, r.w.log, run)
  {
    hide AllJustified, AllWritten, RunsAreOrderly, EventsAreSound, Open;
    EndIsJustified(reg, w.log, run, c);
    EndIsWritten(reg, w.log, run, c);
    EndIsOrderly(reg, mark, w.log, run, c, writes);
    EndIsOwn(reg, run, a, c, writes, w);
  }

  /** A failed or cancelled run is closed without writing. */
  lemma AddAbort(reg: Registry, mark: Mark, run: nat, w: World)
    requires Clean(reg, mark, w.log) && Open(w.log, run)
    ensures var w1 := Note(w, Aborted(run)); Clean(reg, mark, w1.log) && NewOrOwn(w.log, w1.log, run)
  {
    AddEvent(reg, mark, w.log, Aborted(run));
  }

  // ---------- Whole runs ----------

  lemma {:induction false} MatchesIgnoresSkip(m: Matcher, c: Ctx)
    ensures Matches(m, c.(skipCache := false)) == Matches(m, c)
  {
    if m.Neg? {
      MatchesIgnoresSkip(m.inner, c);
    }
  }

  lemma HereTakes(reg: Registry, tag: Tag, i: nat, c: Ctx, w: World)
    requires tag in reg.plugins && reg.plugins[tag].Sequence? && i < |reg.plugins[tag].steps|
    requires MatchesAll(reg.plugins[tag].steps[i].matchers, c)
    requires StepTarget(reg.plugins[tag].steps[i]).Some?
    ensures PointTakes(reg, Here(tag, i, c, w), StepTarget(reg.plugins[tag].steps[i]).value)
  {
    var ms := reg.plugins[tag].steps[i].matchers;
    forall k | 0 <= k < |ms| ensures Matches(ms[k], c.(skipCache := false)) {
      MatchesIgnoresSkip(ms[k], c);
    }
  }

  /** Everything added belongs to runs entered since `from`. */
  ghost predicate NewRuns(from: seq<Event>, to: seq<Event>) {
    && from <= to
    && forall k | |from| <= k < |to| && RunOf(to[k]).Some? :: RunOf(to[k]).value >= |from|
  }

  /** Everything added belongs to `run` or to runs entered since `from`. */
  ghost predicate NewOrOwn(from: seq<Event>, to: seq<Event>, run: nat) {
    && from <= to
    && forall k | |from| <= k < |to| && RunOf(to[k]).Some? :: RunOf(to[k]).value == run || RunOf(to[k]).value >= |from|
  }

  lemma NewRunsKeepOpen(from: seq<Event>, to: seq<Event>, run: nat)
    requires NewRuns(from, to) && Open(from, run)
    ensures Open(to, run) && SnapsOf(to, run) == SnapsOf(from, run)
  {
    var more := to[|from|..];
    assert to == from + more;
    assert forall k | 0 <= k < |more| :: more[k] == to[|from| + k];
    assert forall k | |from| <= k < |to| :: RunOf(to[k]) != Some(run);
    forall k | 0 <= k < |to| ensures !Closes(to[k], run) {
      if k < |from| { assert to[k] == from[k]; }
    }
    SnapsOfAppend(from, more, run);
  }

  lemma NewOrOwnThen(a: seq<Event>, b: seq<Event>, c: seq<Event>, run: nat)
    requires NewOrOwn(a, b, run) && NewOrOwn(b, c, run)
    ensures NewOrOwn(a, c, run)
  {
    assert forall k | |a| <= k < |b| :: c[k] == b[k];
  }

  lemma EndIsOwn(reg: Registry, run: nat, a: Action, c: Ctx, writes: seq<Write>, w: World)
    ensures NewOrOwn(w.log, End(reg, run, a, c, writes, w).w.log, run)
  {
    StoreEventsExact(run, c, writes, reg.encodes);
    var stores := StoreEvents(run, c, writes, reg.encodes);
    var to := End(reg, run, a, c, writes, w).w.log;
    assert forall k | |w.log| <= k < |w.log| + |stores| :: to[k] == stores[k - |w.log|] && to[k] in stores;
  }

  /** Noting the snapshot of an executed step keeps the log clean and the writes in step with it. */
  lemma AddSnap(reg: Registry, mark: Mark, run: nat, from: Point, t: Tag, c: Ctx, w: World, writes: seq<Write>)
    requires Clean(reg, mark, w.log) && Open(w.log, run) && t in reg.plugins
    requires PointTakes(reg, from, t) && from.at == c.(skipCache := false)
    requires writes == SnapsOf(w.log, run)
    ensures var snap := SnapshotAt(reg, t, c);
            var w1 := NoteSnap(w, run, t, snap, from);
            && Clean(reg, mark, w1.log) && Open(w1.log, run) && NewOrOwn(w.log, w1.log, run)
            && AddWrite(writes, t, snap) == SnapsOf(w1.log, run)
  {
    var snap := SnapshotAt(reg, t, c);
    if snap.Some? {
      var e := Snapped(run, t, snap.value, from);
      AddEvent(reg, mark, w.log, e);
      assert (w.log + [e])[..|w.log|] == w.log;
    }
  }

  lemma AddStep(reg: Registry, mark: Mark, e: Event, run: nat, w: World)
    requires Clean(reg, mark, w.log) && Open(w.log, run)
    requires (e.StepTaken? && e.run == run) || e.AcceptTaken?
    ensures Clean(reg, mark, Note(w, e).log) && Open(Note(w, e).log, run)
    ensures SnapsOf(Note(w, e).log, run) == SnapsOf(w.log, run) && NewOrOwn(w.log, Note(w, e).log, run)
  {
    AddEvent(reg, mark, w.log, e);
    SnapsOfAppend(w.log, [e], run);
  }

  lemma {:induction false} ExecClean(reg: Registry, mark: Mark, tag: Tag, c: Ctx, w: World, nest: nat, level: nat)
    requires Ranked(reg) && Tells(mark, w.tape) && FlagIsExact(mark, c)
    requires Clean(reg, mark, w.log)
    ensures var r := Exec(reg, tag, c, w, nest, level);
            Clean(reg, mark, r.w.log) && NewRuns(w.log, r.w.log)
    decreases Depth(reg, tag), 1, 0
  {
    hide Clean;
    if tag in reg.plugins {
      var w1 := Note(Advance(w), Enter(tag, nest));
      AddEvent(reg, mark, w.log, Enter(tag, nest));
      if !Next(w).cancel {
        match reg.plugins[tag]
        case Sequence(_) =>
          RunIsNew(reg, mark, w.log, Enter(tag, nest));
          RunStepsClean(reg, mark, tag, |w.log|, 0, c, [], w1, nest, level);
          var r := RunSteps(reg, tag, |w.log|, 0, c, [], w1, nest, level);
          assert forall k | |w.log| < k < |r.w.log| && RunOf(r.w.log[k]).Some? :: RunOf(r.w.log[k]).value >= |w.log|;
          assert r.w.log[|w.log|] == w1.log[|w.log|];
        case Fallback(_, _, _) => FallbackClean(reg, mark, tag, c, w1, nest, level);
        case CacheStep(everything) => CacheClean(reg, mark, tag, everything, c, Next(w), w1);
        case _ =>
      }
    }
  }

  /** The run named by the position it was entered at has no events yet. */
  lemma RunIsNew(reg: Registry, mark: Mark, log: seq<Event>, e: Event)
    requires Clean(reg, mark, log) && RunOf(e).None?
    ensures Open(log + [e], |log|) && SnapsOf(log + [e], |log|) == []
  {
    hide AllJustified, AllWritten, EventsAreSound;
    var to := log + [e];
    forall k | 0 <= k < |to| ensures RunOf(to[k]) != Some(|log|) {
      if k < |log| { assert to[k] == log[k]; }
    }
    assert [] + to == to;
    SnapsOfAppend([], to, |log|);
  }

  lemma CacheClean(reg: Registry, mark: Mark, tag: Tag, everything: bool, c: Ctx, ch: Choice, w: World)
    requires Clean(reg, mark, w.log) && tag in reg.plugins && reg.plugins[tag] == CacheStep(everything)
    ensures var r := ExecCache(reg, tag, everything, c, ch, w);
            Clean(reg, mark, r.w.log) && NewRuns(w.log, r.w.log)
  {
    hide Clean;
    var key := KeyOf(c.query, everything, reg.encodes);
    if key.Some? {
      var asked := Note(w, CacheAsked(tag, key.value));
      AddEvent(reg, mark, w.log, CacheAsked(tag, key.value));
      if !c.skipCache && ch.hit.Some? {
        var hit := Note(asked, CacheHit(tag, key.value, ch.hit.value.stale, c, w.pos));
        AddEvent(reg, mark, asked.log, CacheHit(tag, key.value, ch.hit.value.stale, c, w.pos));
        AddEvent(reg, mark, hit.log, RefreshKicked(tag, key.value, c));
      }
    }
  }

  /** One call made by `run`: its own lookups are untouched by whatever the target does. */
  lemma {:induction false} CallClean(
    reg: Registry, mark: Mark, tag: Tag, run: nat, from: Point, t: Tag, c: Ctx, writes: seq<Write>, w: World,
    nest: nat, level: nat)
    requires PointTakes(reg, from, t) && from.at == c.(skipCache := false)
    requires Ranked(reg) && Tells(mark, w.tape) && FlagIsExact(mark, c)
    requires Clean(reg, mark, w.log) && Open(w.log, run) && writes == SnapsOf(w.log, run)
    requires t in reg.plugins && Depth(reg, t) < Depth(reg, tag)
    ensures var snap := SnapshotAt(reg, t, c);
            var x := Exec(reg, t, c, NoteSnap(w, run, t, snap, from), nest, level);
            && Clean(reg, mark, x.w.log) && Open(x.w.log, run) && NewOrOwn(w.log, x.w.log, run)
            && AddWrite(writes, t, snap) == SnapsOf(x.w.log, run)
            && FlagIsExact(mark, x.ctx)
    decreases Depth(reg, tag), 0, 0
  {
    hide Clean;
    var snap := SnapshotAt(reg, t, c);
    var w1 := NoteSnap(w, run, t, snap, from);
    AddSnap(reg, mark, run, from, t, c, w, writes);
    ExecClean(reg, mark, t, c, w1, nest, level);
    ServedFlagIsExact(mark, reg, t, c, w1, nest, level);
    var x := Exec(reg, t, c, w1, nest, level);
    NewRunsKeepOpen(w1.log, x.w.log, run);
    NewOrOwnThen(w.log, w1.log, x.w.log, run);
  }

  lemma {:induction false} RunStepsClean(
    reg: Registry, mark: Mark, tag: Tag, run: nat, i: nat, c: Ctx, writes: seq<Write>, w: World, nest: nat, level: nat)
    requires Ranked(reg) && Tells(mark, w.tape) && FlagIsExact(mark, c)
    requires tag in reg.plugins && reg.plugins[tag].Sequence? && i <= |reg.plugins[tag].steps|
    requires Clean(reg, mark, w.log) && Open(w.log, run) && writes == SnapsOf(w.log, run)
    ensures var r := RunSteps(reg, tag, run, i, c, writes, w, nest, level);
            Clean(reg, mark, r.w.log) && NewOrOwn(w.log, r.w.log, run)
    decreases Depth(reg, tag), 0, 2 * (|reg.plugins[tag].steps| - i) + 2
  {
    hide Clean, Open, SnapsOf, NewOrOwn, FlagIsExact;
    var steps := reg.plugins[tag].steps;
    var r := RunSteps(reg, tag, run, i, c, writes, w, nest, level);
    if i == |steps| {
      AddEnd(reg, mark, run, Continue, c, writes, w);
    } else if !MatchesAll(steps[i].matchers, c) {
      RunStepsClean(reg, mark, tag, run, i + 1, c, writes, w, nest, level);
    } else {
      StepDescends(reg, tag, i);
      var w1 := Note(w, StepTaken(run, i, level));
      AddStep(reg, mark, StepTaken(run, i, level), run, w);
      match steps[i].exec {
        case Call(t) =>
          if t in reg.plugins {
            var snap := SnapshotAt(reg, t, c);
            var x := Exec(reg, t, c, NoteSnap(w1, run, t, snap, Here(tag, i, c, w1)), nest + 1, level);
            HereTakes(reg, tag, i, c, w1);
            CallClean(reg, mark, tag, run, Here(tag, i, c, w1), t, c, writes, w1, nest + 1, level);
            if x.out == Done(Continue) {
              RunStepsClean(reg, mark, tag, run, i + 1, x.ctx, AddWrite(writes, t, snap), x.w, nest, level);
            } else if x.out == Done(Accept) {
              AddEnd(reg, mark, run, Accept, x.ctx, AddWrite(writes, t, snap), x.w);
            } else {
              AddAbort(reg, mark, run, x.w);
            }
            NewOrOwnThen(w1.log, x.w.log, r.w.log, run);
          } else {
            AddAbort(reg, mark, run, w1);
          }
        case Run(b) =>
          AfterActionClean(reg, mark, tag, run, i, b, c, writes, w1, nest, level);
      }
      NewOrOwnThen(w.log, w1.log, r.w.log, run);
    }
  }

  lemma {:induction false} AfterActionClean(
    reg: Registry, mark: Mark, tag: Tag, run: nat, i: nat, b: Builtin, c: Ctx, writes: seq<Write>, w: World, nest: nat, level: nat)
    requires Ranked(reg) && Tells(mark, w.tape) && FlagIsExact(mark, c)
    requires tag in reg.plugins && reg.plugins[tag].Sequence? && i < |reg.plugins[tag].steps|
    requires b.DoGoto? && b.tag in reg.plugins ==> Depth(reg, b.tag) < Depth(reg, tag)
    requires reg.plugins[tag].steps[i].exec == Run(b) && MatchesAll(reg.plugins[tag].steps[i].matchers, c)
    requires Clean(reg, mark, w.log) && Open(w.log, run) && writes == SnapsOf(w.log, run)
    ensures var r := AfterAction(reg, tag, run, i, b, c, writes, w, nest, level);
            Clean(reg, mark, r.w.log) && NewOrOwn(w.log, r.w.log, run)
    decreases Depth(reg, tag), 0, 2 * (|reg.plugins[tag].steps| - i) + 1
  {
    hide Clean, Open, SnapsOf, NewOrOwn, FlagIsExact;
    var c1 := AfterBuiltin(b, c);
    BuiltinKeepsFlag(mark, b, c);
    match ActionOf(b)
    case Err(_) => AddAbort(reg, mark, run, w);
    case Ok(Continue) => RunStepsClean(reg, mark, tag, run, i + 1, c1, writes, w, nest, level);
    case Ok(Accept) =>
      var w1 := Note(w, AcceptTaken(level));
      AddStep(reg, mark, AcceptTaken(level), run, w);
      AddEnd(reg, mark, run, Accept, c1, writes, w1);
      NewOrOwnThen(w.log, w1.log, End(reg, run, Accept, c1, writes, w1).w.log, run);
    case Ok(Return) =>
      AddEnd(reg, mark, run, Continue, c1, writes, w);
    case Ok(Goto(t)) =>
      HereTakes(reg, tag, i, c, w);
      JumpClean(reg, mark, tag, run, Here(tag, i, c, w), t, c1, writes, w, nest, level);
  }

  lemma {:induction false} JumpClean(
    reg: Registry, mark: Mark, tag: Tag, run: nat, from: Point, t: Tag, c: Ctx, writes: seq<Write>, w: World,
    nest: nat, level: nat)
    requires PointTakes(reg, from, t) && from.at == c.(skipCache := false)
    requires Ranked(reg) && Tells(mark, w.tape) && FlagIsExact(mark, c)
    requires t in reg.plugins ==> Depth(reg, t) < Depth(reg, tag)
    requires Clean(reg, mark, w.log) && Open(w.log, run) && writes == SnapsOf(w.log, run)
    ensures var r := Jump(reg, tag, run, from, t, c, writes, w, nest, level);
            Clean(reg, mark, r.w.log) && NewOrOwn(w.log, r.w.log, run)
    decreases Depth(reg, tag), 0, 1
  {
    hide Clean, Open, SnapsOf, NewOrOwn, FlagIsExact;
    if t in reg.plugins {
      var snap := SnapshotAt(reg, t, c);
      var x := Exec(reg, t, c, NoteSnap(w, run, t, snap, from), nest + 1, level);
      CallClean(reg, mark, tag, run, from, t, c, writes, w, nest + 1, level);
      if x.out.Done? {
        AddEnd(reg, mark, run, x.out.action, x.ctx, AddWrite(writes, t, snap), x.w);
      } else {
        AddAbort(reg, mark, run, x.w);
      }
      NewOrOwnThen(w.log, x.w.log, Jump(reg, tag, run, from, t, c, writes, w, nest, level).w.log, run);
    } else {
      AddAbort(reg, mark, run, w);
    }
  }

  lemma {:induction false} BranchClean(reg: Registry, mark: Mark, tag: Tag, t: Tag, c: Ctx, w: World, nest: nat, level: nat)
    requires Ranked(reg) && Tells(mark, w.tape) && Clean(reg, mark, w.log)
    requires t in reg.plugins && Depth(reg, t) < Depth(reg, tag)
    ensures var w1 := Note(Exec(reg, t, Fork(c), w, nest, level).w, BranchDone(level));
            Clean(reg, mark, w1.log) && NewRuns(w.log, w1.log)
    decreases Depth(reg, tag), 0, 0
  {
    hide Clean;
    ExecClean(reg, mark, t, Fork(c), w, nest, level);
    AddEvent(reg, mark, Exec(reg, t, Fork(c), w, nest, level).w.log, BranchDone(level));
  }

  lemma {:induction false} FallbackClean(reg: Registry, mark: Mark, tag: Tag, c: Ctx, w: World, nest: nat, level: nat)
    requires Ranked(reg) && Tells(mark, w.tape) && Clean(reg, mark, w.log)
    requires tag in reg.plugins && reg.plugins[tag].Fallback?
    ensures var r := ExecFallback(reg, tag, c, w, nest, level);
            Clean(reg, mark, r.w.log) && NewRuns(w.log, r.w.log)
    decreases Depth(reg, tag), 0, 1
  {
    hide Clean;
    var f := reg.plugins[tag];
    BranchesDescend(reg, tag);
    if f.primary in reg.plugins && f.secondary in reg.plugins {
      BranchClean(reg, mark, tag, f.primary, c, w, nest + 1, level + 1);
      var w1 := Note(Exec(reg, f.primary, Fork(c), w, nest + 1, level + 1).w, BranchDone(level + 1));
      BranchClean(reg, mark, tag, f.secondary, c, Advance(w1), nest + 1, level + 1);
      var w2 := Note(Exec(reg, f.secondary, Fork(c), Advance(w1), nest + 1, level + 1).w, BranchDone(level + 1));
      assert forall k | |w.log| <= k < |w1.log| :: w2.log[k] == w1.log[k];
    }
  }

  // ---------- What a clean log says ----------

  lemma NothingIsClean(reg: Registry, mark: Mark)
    ensures Clean(reg, mark, [])
  {
  }

  /** A run that ended was not aborted. */
  lemma EndedNotAborted(log: seq<Event>, n: int)
    requires RunsAreOrderly(log) && 0 <= n < |log| && log[n].Ended?
    ensures Aborted(log[n].run) !in log
  {
    if k :| 0 <= k < |log| && log[k] == Aborted(log[n].run) {
      assert Closes(log[k], log[n].run) && Closes(log[n], log[k].run);
      assert RunOf(log[k]) == RunOf(log[n]);
    }
  }

  lemma CleanWrite(reg: Registry, mark: Mark, log: seq<Event>, j: nat) returns (i: int, n: int)
    requires Clean(reg, mark, log) && j < |log| && log[j].Stored?
    ensures i < j < n && Earns(reg, log, i, n) && log[j] == Earned(reg, log, i, n)
    ensures WellLogged(reg, log[i]) && FlagIsExact(mark, log[n].at)
    ensures Aborted(log[j].run) !in log
  {
    hide StoreLookup, AllWritten, RunsAreOrderly, FlagIsExact, WellLogged;
    assert Justified(reg, log, j);
    i, n :| i < j < n && Earns(reg, log, i, n) && log[j] == Earned(reg, log, i, n);
    EndedNotAborted(log, n);
  }

  /** The write at `j` is the reply of a run that executed that cache step, ended normally, was
      never failed or cancelled, and whose reply no cache had supplied. */
  ghost predicate EarnedWrite(reg: Registry, log: seq<Event>, j: nat)
    requires j < |log| && log[j].Stored?
  {
    && Aborted(log[j].run) !in log
    && exists i, n :: i < j < n && Earns(reg, log, i, n) && log[j] == Earned(reg, log, i, n)
         && WellLogged(reg, log[i]) && !log[n].at.served
  }

  lemma WritesAreEarned(reg: Registry, mark: Mark, tag: Tag, c: Ctx, w: World, nest: nat, level: nat, j: nat)
    requires Ranked(reg) && Tells(mark, w.tape) && FlagIsExact(mark, c)
    requires w.log == []
    requires j < |Exec(reg, tag, c, w, nest, level).w.log| && Exec(reg, tag, c, w, nest, level).w.log[j].Stored?
    ensures EarnedWrite(reg, Exec(reg, tag, c, w, nest, level).w.log, j)
    ensures !Marked(mark, Exec(reg, tag, c, w, nest, level).w.log[j].msg)
  {
    hide Clean;
    NothingIsClean(reg, mark);
    ExecClean(reg, mark, tag, c, w, nest, level);
    var log := Exec(reg, tag, c, w, nest, level).w.log;
    var i, n := CleanWrite(reg, mark, log, j);
    UnservedIsUnmarked(mark, log[n].at, log[i].lookup, reg.encodes);
  }

  lemma UnservedIsUnmarked(mark: Mark, c: Ctx, lookup: Lookup, encodes: Encoder)
    requires FlagIsExact(mark, c) && StoreLookup(c, lookup, encodes).Some?
    ensures !c.served && !Marked(mark, StoreLookup(c, lookup, encodes).value)
  {
  }

  lemma SnapBeforeEnd(reg: Registry, log: seq<Event>, i: nat, n: nat)
    requires Clean(reg, Unmarked, log)
    requires i < |log| && n < |log| && log[i].Snapped? && log[n].Ended? && log[n].run == log[i].run
    ensures i < n
  {
    assert Closes(log[n], RunOf(log[i]).value);
  }

  lemma CleanEarning(reg: Registry, mark: Mark, log: seq<Event>, i: nat, n: nat)
    requires Clean(reg, mark, log) && Earns(reg, log, i, n)
    ensures Earned(reg, log, i, n) in log[i..n]
  {
    hide StoreLookup, AllJustified, RunsAreOrderly, EventsAreSound;
    assert Written(reg, log, i, n);
    var j :| i < j < n && log[j] == Earned(reg, log, i, n);
    assert log[i..n][j - i] == log[j];
  }

  /** Conversely, a run that ended normally wrote every lookup its reply was storable for. */
  lemma EarnedAreWritten(reg: Registry, tag: Tag, c: Ctx, w: World, nest: nat, level: nat, i: nat, n: nat)
    requires Ranked(reg) && w.log == []
    requires Earns(reg, Exec(reg, tag, c, w, nest, level).w.log, i, n)
    ensures var log := Exec(reg, tag, c, w, nest, level).w.log; Earned(reg, log, i, n) in log[i..n]
  {
    hide Clean;
    NothingIsClean(reg, Unmarked);
    ExecClean(reg, Unmarked, tag, c, w, nest, level);
    CleanEarning(reg, Unmarked, Exec(reg, tag, c, w, nest, level).w.log, i, n);
  }
}
