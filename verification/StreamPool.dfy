/** The idle-connection pool of `src/upstream.rs` and the exchanges that use it. */
module StreamPool {
  import opened Wrappers

  type Time = nat

  /** A pooled stream and when it was put back. */
  type Slot<S> = (S, Time)

  predicate FreshAt(t: Time, now: Time, idle: nat) {
    (if now < t then 0 else now - t) < idle
  }

  /** Popping from the end until a slot is fresh. */
  function TakeFrom<S>(slots: seq<Slot<S>>, now: Time, idle: nat): (r: (Option<S>, seq<Slot<S>>))
    ensures r.1 <= slots
  {
    if slots == [] then (None, [])
    else
      var last := |slots| - 1;
      if FreshAt(slots[last].1, now, idle) then (Some(slots[last].0), slots[..last])
      else TakeFrom(slots[..last], now, idle)
  }

  function PutInto<S>(slots: seq<Slot<S>>, s: S, now: Time, cap: nat): seq<Slot<S>> {
    if |slots| < cap then slots + [(s, now)] else slots
  }

  predicate Ordered<S>(slots: seq<Slot<S>>) {
    forall i, j | 0 <= i < j < |slots| :: slots[i].1 <= slots[j].1
  }

  class Pool<S> {
    var slots: seq<Slot<S>>
    const cap: nat
    const idle: nat

    constructor (cap: nat, idle: nat)
      ensures slots == [] && this.cap == (if cap < 1 then 1 else cap) && this.idle == idle
    {
      slots := [];
      this.cap := if cap < 1 then 1 else cap;
      this.idle := idle;
    }

    method Take(now: Time) returns (s: Option<S>)
      modifies this`slots
      ensures (s, slots) == TakeFrom(old(slots), now, idle)
    {
      while slots != []
        invariant TakeFrom(slots, now, idle) == TakeFrom(old(slots), now, idle)
        decreases |slots|
      {
        var last := slots[|slots| - 1];
        slots := slots[..|slots| - 1];
        if FreshAt(last.1, now, idle) {
          return Some(last.0);
        }
      }
      return None;
    }

    method Put(s: S, now: Time)
      modifies this`slots
      ensures slots == PutInto(old(slots), s, now, cap)
    {
      if |slots| < cap {
        slots := slots + [(s, now)];
      }
    }
  }

  /** `take` returns nothing exactly when no pooled stream is still fresh, and empties the pool. */
  lemma {:induction false} TakeFindsFresh<S>(slots: seq<Slot<S>>, now: Time, idle: nat)
    ensures TakeFrom(slots, now, idle).0.None? <==> forall i | 0 <= i < |slots| :: !FreshAt(slots[i].1, now, idle)
    ensures TakeFrom(slots, now, idle).0.None? ==> TakeFrom(slots, now, idle).1 == []
  {
    if slots != [] {
      var last := |slots| - 1;
      if !FreshAt(slots[last].1, now, idle) {
        TakeFindsFresh(slots[..last], now, idle);
        assert forall i | 0 <= i < last :: slots[..last][i] == slots[i];
      }
    }
  }

  /** In terms of the clock: a stream is taken exactly if one was put back less than the idle time ago
      (a clock that has gone back counts as no time), and it is the last such stream. */
  lemma {:induction false} TakeByClock<S>(slots: seq<Slot<S>>, now: Time, idle: nat)
    ensures var (s, rest) := TakeFrom(slots, now, idle);
            && (s.None? ==> rest == [] && forall i | 0 <= i < |slots| :: idle == 0 || slots[i].1 + idle <= now)
            && (s.Some? ==>
                  && |rest| < |slots| && rest == slots[..|rest|] && s.value == slots[|rest|].0
                  && idle > 0 && now < slots[|rest|].1 + idle
                  && forall i | |rest| < i < |slots| :: slots[i].1 + idle <= now)
  {
    if slots != [] {
      var last := |slots| - 1;
      if idle == 0 || slots[last].1 + idle <= now {
        TakeByClock(slots[..last], now, idle);
        assert forall i | 0 <= i < last :: slots[..last][i] == slots[i];
      }
    }
  }

  /** The stream taken is the slot just above what is left; everything above it was stale. */
  lemma {:induction false} TakenSlot<S>(slots: seq<Slot<S>>, now: Time, idle: nat)
    requires TakeFrom(slots, now, idle).0.Some?
    ensures var (s, rest) := TakeFrom(slots, now, idle);
            |rest| < |slots| && slots[|rest|].0 == s.value && FreshAt(slots[|rest|].1, now, idle)
  {
    var last := |slots| - 1;
    if !FreshAt(slots[last].1, now, idle) {
      TakenSlot(slots[..last], now, idle);
    }
  }

  /** In time order, the newest stream is tried first and a stale one means all older are stale,
      so `take` never discards a stream that is still fresh. */
  lemma TakeDiscardsOnlyStale<S>(slots: seq<Slot<S>>, now: Time, idle: nat, i: nat)
    requires Ordered(slots) && i < |slots|
    requires FreshAt(slots[i].1, now, idle)
    ensures TakeFrom(slots, now, idle).0 == Some(slots[|slots| - 1].0)
    ensures TakeFrom(slots, now, idle).1 == slots[..|slots| - 1]
  {
    var last := |slots| - 1;
    assert i < last ==> slots[i].1 <= slots[last].1;
  }

  /** A stream put back where there is room is the next one taken, within the idle time; a full pool
      stays as it is. */
  lemma PutThenTake<S>(slots: seq<Slot<S>>, s: S, now: Time, later: Time, cap: nat, idle: nat)
    requires now <= later
    ensures |slots| < cap && later < now + idle ==> TakeFrom(PutInto(slots, s, now, cap), later, idle) == (Some(s), slots)
    ensures |slots| >= cap ==> PutInto(slots, s, now, cap) == slots
  {
    assert (slots + [(s, now)])[..|slots|] == slots;
  }

  // ---------- Exchanges over the pool ----------

  /** One exchange in progress: its stream, and whether a query
      has been written on it that is not yet answered. */
  datatype Exchange = Exchange(stream: nat, waiting: bool)

  datatype State = State(
    slots: seq<Slot<nat>>,
    exchanges: map<nat, Exchange>,
    closed: set<nat>,
    created: nat,
    clock: Time)

  /** Streams are numbered as they are created. `Reply` is the end of `framed_exchange` with a
      framed message read: accepted by `take_response` or not. */
  datatype Event =
    | Take(exchange: nat, now: Time)
    | Connect(exchange: nat)
    | Send(exchange: nat)
    | Reply(exchange: nat, accepted: bool)
    | Fail(exchange: nat)
    | Cancel(exchange: nat)
    | Tick(to: Time)

  function StreamsOf(slots: seq<Slot<nat>>): set<nat> { set i | 0 <= i < |slots| :: slots[i].0 }

  function Close(st: State, x: nat): State
    requires x in st.exchanges
  {
    st.(exchanges := st.exchanges - {x}, closed := st.closed + {st.exchanges[x].stream})
  }

  /** An exchange that failed on a pooled stream drops it and connects afresh; on its own fresh
      connection it gives up. Both close the stream. */
  function StepPool(st: State, e: Event, cap: nat, idle: nat): State {
    match e
    case Take(x, now) =>
      if x in st.exchanges || now > st.clock then st
      else
        var (s, rest) := TakeFrom(st.slots, now, idle);
        if s.Some? then
          st.(slots := rest,
              exchanges := st.exchanges[x := Exchange(s.value, false)],
              closed := st.closed + (StreamsOf(st.slots) - StreamsOf(rest) - {s.value}))
        else st.(slots := rest, closed := st.closed + StreamsOf(st.slots))
    case Connect(x) =>
      if x in st.exchanges then st
      else st.(exchanges := st.exchanges[x := Exchange(st.created, false)], created := st.created + 1)
    case Send(x) =>
      if x in st.exchanges && !st.exchanges[x].waiting
      then st.(exchanges := st.exchanges[x := st.exchanges[x].(waiting := true)])
      else st
    case Reply(x, accepted) =>
      if x !in st.exchanges || !st.exchanges[x].waiting then st
      else if !accepted || |st.slots| >= cap then Close(st, x)
      else st.(slots := PutInto(st.slots, st.exchanges[x].stream, st.clock, cap), exchanges := st.exchanges - {x})
    case Fail(x) => if x in st.exchanges then Close(st, x) else st
    case Cancel(x) => if x in st.exchanges then Close(st, x) else st
    case Tick(to) => if to > st.clock then st.(clock := to) else st
  }

  function AfterEvents(es: seq<Event>, cap: nat, idle: nat): State {
    if es == [] then State([], map[], {}, 0, 0)
    else StepPool(AfterEvents(es[..|es| - 1], cap, idle), es[|es| - 1], cap, idle)
  }

  /** The stream of an accepted exchange is reused, if there is room, by the next exchange to ask for one
      within the idle time. */
  lemma AcceptedStreamIsReused(st: State, x: nat, y: nat, to: Time, cap: nat, idle: nat)
    requires x in st.exchanges && st.exchanges[x].waiting && y !in st.exchanges && |st.slots| < cap
    requires st.clock <= to < st.clock + idle
    ensures var next := StepPool(StepPool(StepPool(st, Reply(x, true), cap, idle), Tick(to), cap, idle), Take(y, to), cap, idle);
            && y in next.exchanges && next.exchanges[y] == Exchange(st.exchanges[x].stream, false)
            && next.slots == st.slots && next.closed == st.closed
  {
    PutThenTake(st.slots, st.exchanges[x].stream, st.clock, to, cap, idle);
    var s, all := st.exchanges[x].stream, st.slots + [(st.exchanges[x].stream, st.clock)];
    assert StreamsOf(all) == StreamsOf(st.slots) + {s} by {
      assert all[|st.slots|].0 == s;
      assert forall i | 0 <= i < |st.slots| :: all[i] == st.slots[i];
    }
    assert StreamsOf(all) - StreamsOf(st.slots) - {s} == {};
  }

  predicate DistinctStreams(slots: seq<Slot<nat>>) {
    forall i, j | 0 <= i < j < |slots| :: slots[i].0 != slots[j].0
  }

  /** At most `cap` idle streams, in time order; every stream is idle, in one exchange, or closed
      for good, and never two of these. An idle stream has no exchange, so no query outstanding. */
  ghost predicate Sound(st: State, cap: nat) {
    && |st.slots| <= cap
    && Ordered(st.slots)
    && (forall i | 0 <= i < |st.slots| :: st.slots[i].1 <= st.clock && st.slots[i].0 < st.created)
    && DistinctStreams(st.slots)
    && (forall x | x in st.exchanges ::
          st.exchanges[x].stream < st.created && st.exchanges[x].stream !in StreamsOf(st.slots)
          && st.exchanges[x].stream !in st.closed)
    && (forall x, y | x in st.exchanges && y in st.exchanges && st.exchanges[x].stream == st.exchanges[y].stream :: x == y)
    && st.closed !! StreamsOf(st.slots)
    && (forall s | s in st.closed :: s < st.created)
  }

  lemma TakeKeepsSound(st: State, x: nat, now: Time, cap: nat, idle: nat)
    requires Sound(st, cap)
    ensures Sound(StepPool(st, Take(x, now), cap, idle), cap)
  {
    var (s, rest) := TakeFrom(st.slots, now, idle);
    assert rest == st.slots[..|rest|];
    assert StreamsOf(rest) <= StreamsOf(st.slots);
    if s.Some? {
      TakenSlot(st.slots, now, idle);
      assert s.value in StreamsOf(st.slots);
      assert s.value !in StreamsOf(rest);
    } else {
      TakeFindsFresh(st.slots, now, idle);
    }
  }

  lemma ReplyKeepsSound(st: State, x: nat, accepted: bool, cap: nat, idle: nat)
    requires Sound(st, cap)
    ensures Sound(StepPool(st, Reply(x, accepted), cap, idle), cap)
  {
    var t := StepPool(st, Reply(x, accepted), cap, idle);
    if t != st && t.slots != st.slots {
      var s := st.exchanges[x].stream;
      assert t.slots == st.slots + [(s, st.clock)];
      forall r ensures r in StreamsOf(t.slots) <==> r in StreamsOf(st.slots) || r == s {
        assert t.slots[|st.slots|].0 == s;
        if r in StreamsOf(st.slots) {
          var i :| 0 <= i < |st.slots| && st.slots[i].0 == r;
          assert t.slots[i].0 == r;
        }
      }
      assert forall i | 0 <= i < |st.slots| :: st.slots[i].0 in StreamsOf(st.slots);
    }
  }

  lemma StepKeepsSound(st: State, e: Event, cap: nat, idle: nat)
    requires Sound(st, cap)
    ensures Sound(StepPool(st, e, cap, idle), cap)
  {
    match e
    case Take(x, now) => TakeKeepsSound(st, x, now, cap, idle);
    case Reply(x, accepted) => ReplyKeepsSound(st, x, accepted, cap, idle);
    case _ =>
  }

  /** The pool is sound in every reachable state. */
  lemma {:induction false} PoolIsSound(es: seq<Event>, cap: nat, idle: nat)
    ensures Sound(AfterEvents(es, cap, idle), cap)
  {
    if es != [] {
      PoolIsSound(es[..|es| - 1], cap, idle);
      StepKeepsSound(AfterEvents(es[..|es| - 1], cap, idle), es[|es| - 1], cap, idle);
    }
  }

  /** A stream once closed stays closed: the stream of a failed, refused or cancelled exchange is
      never pooled or used again. */
  lemma {:induction false} ClosedForGood(es: seq<Event>, more: seq<Event>, cap: nat, idle: nat)
    ensures AfterEvents(es, cap, idle).closed <= AfterEvents(es + more, cap, idle).closed
  {
    if more == [] {
      assert es + more == es;
    } else {
      var n := |more| - 1;
      ClosedForGood(es, more[..n], cap, idle);
      assert (es + more)[..|es + more| - 1] == es + more[..n];
    }
  }

  /** What ends an exchange decides its stream: only an accepted reply returns it to the pool. */
  lemma UnacceptedStreamNeverReturns(es: seq<Event>, e: Event, more: seq<Event>, cap: nat, idle: nat)
    requires var st := AfterEvents(es, cap, idle);
             && (e.Fail? || e.Cancel? || (e.Reply? && !e.accepted))
             && e.exchange in st.exchanges && (e.Reply? ==> st.exchanges[e.exchange].waiting)
    ensures var s := AfterEvents(es, cap, idle).exchanges[e.exchange].stream;
            var later := AfterEvents(es + [e] + more, cap, idle);
            && s !in StreamsOf(later.slots)
            && forall x | x in later.exchanges :: later.exchanges[x].stream != s
  {
    assert (es + [e])[..|es|] == es;
    ClosedForGood(es + [e], more, cap, idle);
    PoolIsSound(es + [e] + more, cap, idle);
  }
}
