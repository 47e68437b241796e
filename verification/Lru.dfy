/** One shard of the cache in `src/plugin/cache.rs`: a bounded map with a recency deque. */
module Lru {
  import opened Wrappers

  datatype State<V> = State(entries: map<string, V>, lru: seq<string>, cap: nat)

  function Elements(s: seq<string>): set<string> { set k | k in s }

  /** Deque keys are duplicate-free and are the map's keys, and the capacity is respected. */
  predicate Valid<V>(s: State<V>) {
    s.cap >= 1 && Distinct(s.lru) && Elements(s.lru) == s.entries.Keys && |s.entries| <= s.cap
  }

  function Without(s: seq<string>, k: string): (r: seq<string>)
    ensures |r| <= |s|
  {
    if s == [] then []
    else if s[|s| - 1] == k then s[..|s| - 1]
    else Without(s[..|s| - 1], k) + [s[|s| - 1]]
  }

  function Touched(s: seq<string>, k: string): seq<string> { Without(s, k) + [k] }

  function Empty<V>(cap: nat): State<V> { State(map[], [], if cap < 1 then 1 else cap) }

  function AfterGet<V>(s: State<V>, k: string): State<V> {
    if k in s.entries then s.(lru := Touched(s.lru, k)) else s
  }

  function Find<V>(s: State<V>, k: string): Option<V> {
    if k in s.entries then Some(s.entries[k]) else None
  }

  function AfterInsert<V>(s: State<V>, k: string, v: V): State<V> {
    if k in s.entries then s.(entries := s.entries[k := v], lru := Touched(s.lru, k))
    else if |s.entries| >= s.cap && s.lru != [] then
      s.(entries := (s.entries - {s.lru[0]})[k := v], lru := s.lru[1..] + [k])
    else s.(entries := s.entries[k := v], lru := s.lru + [k])
  }

  function AfterFlush<V>(s: State<V>): State<V> { s.(entries := map[], lru := []) }

  // ---------- Sequences of distinct keys ----------

  lemma ElementsAppend(s: seq<string>, k: string)
    ensures Elements(s + [k]) == Elements(s) + {k}
  {
    var t := s + [k];
    assert t[|s|] == k && forall i | 0 <= i < |s| :: t[i] == s[i];
  }

  /** The last key of a distinct sequence, and what is before it. */
  lemma SplitLast(s: seq<string>)
    requires Distinct(s) && s != []
    ensures var n := |s| - 1;
            s == s[..n] + [s[n]] && Distinct(s[..n]) && s[n] !in Elements(s[..n])
            && Elements(s) == Elements(s[..n]) + {s[n]}
  {
    var n := |s| - 1;
    assert s == s[..n] + [s[n]];
    ElementsAppend(s[..n], s[n]);
  }

  lemma DistinctAppend(s: seq<string>, k: string)
    requires Distinct(s) && k !in Elements(s)
    ensures Distinct(s + [k]) && Elements(s + [k]) == Elements(s) + {k}
  {
    ElementsAppend(s, k);
    forall i | 0 <= i < |s| ensures s[i] != k { assert s[i] in Elements(s); }
  }

  lemma {:induction false} WithoutDistinct(s: seq<string>, k: string)
    requires Distinct(s)
    ensures Distinct(Without(s, k)) && Elements(Without(s, k)) == Elements(s) - {k}
    ensures k !in Elements(s) ==> Without(s, k) == s
  {
    if s != [] {
      var n := |s| - 1;
      SplitLast(s);
      WithoutDistinct(s[..n], k);
      if s[n] != k {
        DistinctAppend(Without(s[..n], k), s[n]);
      }
    }
  }

  lemma TouchedDistinct(s: seq<string>, k: string)
    requires Distinct(s)
    ensures Distinct(Touched(s, k)) && Elements(Touched(s, k)) == Elements(s) + {k}
  {
    WithoutDistinct(s, k);
    DistinctAppend(Without(s, k), k);
  }

  lemma {:induction false} DistinctSize(s: seq<string>)
    requires Distinct(s)
    ensures |Elements(s)| == |s|
  {
    if s != [] {
      SplitLast(s);
      DistinctSize(s[..|s| - 1]);
    }
  }

  lemma TailDistinct(s: seq<string>)
    requires Distinct(s) && s != []
    ensures Distinct(s[1..]) && Elements(s[1..]) == Elements(s) - {s[0]}
  {
    var t := s[1..];
    assert forall i | 0 <= i < |t| :: t[i] == s[i + 1];
    assert forall i | 1 <= i < |s| :: s[i] == t[i - 1];
  }

  lemma GetKeepsValid<V>(s: State<V>, k: string)
    requires Valid(s)
    ensures Valid(AfterGet(s, k))
  {
    TouchedDistinct(s.lru, k);
  }

  lemma MapLess<V>(m: map<string, V>, k: string)
    requires k in m
    ensures (m - {k}).Keys == m.Keys - {k} && |m - {k}| == |m| - 1
  {
    assert (m - {k}).Keys == m.Keys - {k};
    assert |m - {k}| == |(m - {k}).Keys|;
  }

  /** Into a full shard, a new key replaces exactly the deque's front. */
  lemma FullInsert<V>(s: State<V>, k: string, v: V)
    requires Valid(s) && k !in s.entries && |s.entries| >= s.cap
    ensures s.lru != [] && s.lru[0] in s.entries
    ensures var t := AfterInsert(s, k, v);
            && Valid(t)
            && t.lru == s.lru[1..] + [k]
            && t.entries.Keys == s.entries.Keys - {s.lru[0]} + {k}
            && t.entries == (s.entries - {s.lru[0]})[k := v]
            && |t.entries| == |s.entries|
  {
    DistinctSize(s.lru);
    TailDistinct(s.lru);
    assert s.lru[0] in Elements(s.lru);
    hide Distinct, Elements;
    DistinctAppend(s.lru[1..], k);
    MapLess(s.entries, s.lru[0]);
    MapWith(s.entries - {s.lru[0]}, k, v);
  }

  lemma MapWith<V>(m: map<string, V>, k: string, v: V)
    ensures m[k := v].Keys == m.Keys + {k}
    ensures |m[k := v]| == if k in m then |m| else |m| + 1
  {
    assert m[k := v].Keys == m.Keys + {k};
    assert k in m ==> m.Keys + {k} == m.Keys;
  }

  /** Otherwise nothing is lost. */
  lemma RoomyInsert<V>(s: State<V>, k: string, v: V)
    requires Valid(s) && (k in s.entries || |s.entries| < s.cap)
    ensures var t := AfterInsert(s, k, v);
            && Valid(t)
            && t.lru == (if k in s.entries then Touched(s.lru, k) else s.lru + [k])
            && t.entries == s.entries[k := v]
            && t.entries.Keys == s.entries.Keys + {k}
  {
    MapWith(s.entries, k, v);
    if k in s.entries {
      hide Distinct, Elements, Touched;
      assert Distinct(s.lru) && Elements(s.lru) == s.entries.Keys;
      TouchedDistinct(s.lru, k);
    } else {
      hide Distinct, Elements;
      DistinctAppend(s.lru, k);
    }
  }

  lemma InsertKeepsValid<V>(s: State<V>, k: string, v: V)
    requires Valid(s)
    ensures Valid(AfterInsert(s, k, v)) && AfterInsert(s, k, v).cap == s.cap
  {
    if k !in s.entries && |s.entries| >= s.cap { FullInsert(s, k, v); } else { RoomyInsert(s, k, v); }
  }

  // ---------- The shard itself ----------

  class Shard<V> {
    var entries: map<string, V>
    var lru: seq<string>
    var cap: nat

    function Value(): State<V>
      reads this
    {
      State(entries, lru, cap)
    }

    constructor (cap: nat)
      ensures Value() == Empty(cap)
    {
      entries, lru := map[], [];
      this.cap := if cap < 1 then 1 else cap;
    }

    method Get(key: string) returns (found: Option<V>)
      requires Valid(Value())
      modifies this
      ensures Value() == AfterGet(old(Value()), key) && Valid(Value())
      ensures found == Find(old(Value()), key)
    {
      GetKeepsValid(Value(), key);
      if key in entries {
        assert key in Elements(lru);
        RemoveFromDeque(key);
        lru := lru + [key];
        return Some(entries[key]);
      }
      return None;
    }

    /** Position search and removal in the deque. */
    method RemoveFromDeque(key: string)
      requires Distinct(lru) && key in lru
      modifies this`lru
      ensures lru == Without(old(lru), key)
    {
      var pos := 0;
      while lru[pos] != key
        invariant pos < |lru| && key in lru[pos..]
        invariant forall i | 0 <= i < pos :: lru[i] != key
        decreases |lru| - pos
      {
        pos := pos + 1;
      }
      WithoutAt(lru, pos);
      lru := lru[..pos] + lru[pos + 1..];
    }

    method Insert(key: string, v: V)
      requires Valid(Value())
      modifies this
      ensures Value() == AfterInsert(old(Value()), key, v) && Valid(Value())
    {
      InsertKeepsValid(Value(), key, v);
      DistinctSize(lru);
      if key in entries {
        entries := entries[key := v];
        assert key in Elements(lru);
        RemoveFromDeque(key);
        lru := lru + [key];
        return;
      }
      ghost var before := Value();
      while |entries| >= cap
        invariant cap == before.cap
        invariant Value() == before || (|before.entries| >= cap && before.lru != [] && |entries| < cap
                    && entries == before.entries - {before.lru[0]} && lru == before.lru[1..])
        decreases |entries|
      {
        if lru != [] {
          assert lru[0] in Elements(lru);
          assert (entries - {lru[0]}).Keys == entries.Keys - {lru[0]};
          entries, lru := entries - {lru[0]}, lru[1..];
        } else {
          // A full shard has a key to evict.
          assert false;
          break;
        }
      }
      lru := lru + [key];
      entries := entries[key := v];
    }

    method Flush()
      modifies this
      ensures Value() == AfterFlush(old(Value()))
      ensures old(Valid(Value())) ==> Valid(Value())
    {
      entries, lru := map[], [];
    }
  }

  lemma {:induction false} WithoutAt(s: seq<string>, pos: nat)
    requires Distinct(s) && pos < |s|
    ensures Without(s, s[pos]) == s[..pos] + s[pos + 1..]
  {
    var n := |s| - 1;
    if pos < n {
      WithoutAt(s[..n], pos);
      assert s[..n][..pos] + s[..n][pos + 1..] + [s[n]] == s[..pos] + s[pos + 1..];
    }
  }

  // ---------- Histories ----------

  datatype Op<V> = Lookup(key: string) | Store(key: string, value: V) | Clear

  function Step<V>(s: State<V>, op: Op<V>): State<V> {
    match op
    case Lookup(k) => AfterGet(s, k)
    case Store(k, v) => AfterInsert(s, k, v)
    case Clear => AfterFlush(s)
  }

  function After<V>(cap: nat, ops: seq<Op<V>>): State<V> {
    if ops == [] then Empty(cap) else Step(After(cap, ops[..|ops| - 1]), ops[|ops| - 1])
  }

  lemma StepKeepsValid<V>(s: State<V>, op: Op<V>)
    requires Valid(s)
    ensures Valid(Step(s, op)) && Step(s, op).cap == s.cap
  {
    match op
    case Lookup(k) => GetKeepsValid(s, k);
    case Store(k, v) => InsertKeepsValid(s, k, v);
    case Clear =>
  }

  lemma {:induction false} HistoryIsValid<V>(cap: nat, ops: seq<Op<V>>)
    ensures Valid(After(cap, ops)) && After(cap, ops).cap == Empty<V>(cap).cap
  {
    if ops != [] {
      HistoryIsValid(cap, ops[..|ops| - 1]);
      StepKeepsValid(After(cap, ops[..|ops| - 1]), ops[|ops| - 1]);
    }
  }

  // ---------- Recency ----------

  /** When each key was last stored, or found by a lookup. */
  function LastUse<V>(cap: nat, ops: seq<Op<V>>): map<string, nat> {
    if ops == [] then map[]
    else
      var n := |ops| - 1;
      var uses := LastUse(cap, ops[..n]);
      match ops[n]
      case Lookup(k) => if k in After(cap, ops[..n]).entries then uses[k := n] else uses
      case Store(k, _) => uses[k := n]
      case Clear => uses
  }

  predicate ByUse(lru: seq<string>, uses: map<string, nat>, now: nat) {
    && (forall i | 0 <= i < |lru| :: lru[i] in uses && uses[lru[i]] < now)
    && (forall i, j | 0 <= i < j < |lru| :: uses[lru[i]] < uses[lru[j]])
  }

  lemma ByUseSplit(s: seq<string>, uses: map<string, nat>, now: nat)
    requires s != [] && ByUse(s, uses, now)
    ensures ByUse(s[..|s| - 1], uses, uses[s[|s| - 1]])
  {
  }

  lemma ByUseUpdate(s: seq<string>, k: string, uses: map<string, nat>, now: nat, at: nat)
    requires ByUse(s, uses, now) && k !in Elements(s)
    ensures ByUse(s, uses[k := at], now)
  {
    assert forall i | 0 <= i < |s| :: s[i] in Elements(s);
  }

  lemma {:induction false} WithoutByUse(s: seq<string>, k: string, uses: map<string, nat>, now: nat)
    requires Distinct(s) && ByUse(s, uses, now)
    ensures ByUse(Without(s, k), uses, now)
  {
    if s != [] {
      var n := |s| - 1;
      SplitLast(s);
      ByUseSplit(s, uses, now);
      WithoutByUse(s[..n], k, uses, uses[s[n]]);
      if s[n] != k {
        ByUseAppend(Without(s[..n], k), s[n], uses, uses[s[n]]);
      }
    }
  }

  lemma ByUseAppend(s: seq<string>, k: string, uses: map<string, nat>, now: nat)
    requires ByUse(s, uses, now) && k in uses && uses[k] == now
    ensures ByUse(s + [k], uses, now + 1)
  {
  }

  lemma ByUseTail(s: seq<string>, uses: map<string, nat>, now: nat)
    requires s != [] && ByUse(s, uses, now)
    ensures ByUse(s[1..], uses, now)
  {
  }

  /** Using `k` at time `now` keeps a valid shard's deque in order of use. */
  lemma UseKeepsOrder<V>(s: State<V>, op: Op<V>, uses: map<string, nat>, now: nat)
    requires Valid(s) && ByUse(s.lru, uses, now) && !op.Clear?
    requires op.Lookup? ==> op.key in s.entries
    ensures ByUse(Step(s, op).lru, uses[op.key := now], now + 1)
  {
    var k := op.key;
    WithoutByUse(s.lru, k, uses, now);
    WithoutDistinct(s.lru, k);
    ByUseUpdate(Without(s.lru, k), k, uses, now, now);
    if op.Store? && k !in s.entries && |s.entries| >= s.cap {
      FullInsert(s, k, op.value);
      ByUseUpdate(s.lru, k, uses, now, now);
      ByUseTail(s.lru, uses[k := now], now);
      ByUseAppend(s.lru[1..], k, uses[k := now], now);
    } else {
      ByUseAppend(Without(s.lru, k), k, uses[k := now], now);
    }
  }

  lemma {:induction false} DequeIsByUse<V>(cap: nat, ops: seq<Op<V>>)
    ensures ByUse(After(cap, ops).lru, LastUse(cap, ops), |ops|)
  {
    hide Valid, ByUse, Step;
    if ops == [] {
      EmptyByUse<V>(cap);
    } else {
      var n := |ops| - 1;
      var s, uses := After(cap, ops[..n]), LastUse(cap, ops[..n]);
      DequeIsByUse(cap, ops[..n]);
      HistoryIsValid(cap, ops[..n]);
      if ops[n].Store? || (ops[n].Lookup? && ops[n].key in s.entries) {
        UseKeepsOrder(s, ops[n], uses, n);
      } else {
        IdleKeepsOrder(s, ops[n], uses, n);
      }
    }
  }

  lemma EmptyByUse<V>(cap: nat)
    ensures ByUse(Empty<V>(cap).lru, map[], 0)
  {
  }

  lemma IdleKeepsOrder<V>(s: State<V>, op: Op<V>, uses: map<string, nat>, now: nat)
    requires ByUse(s.lru, uses, now) && (op.Clear? || (op.Lookup? && op.key !in s.entries))
    ensures ByUse(Step(s, op).lru, uses, now + 1)
  {
  }

  /** `victim` was used before every other key the shard holds. */
  predicate OldestUse<V>(s: State<V>, uses: map<string, nat>, victim: string) {
    && victim in s.entries && victim in uses
    && forall j | j in s.entries && j != victim :: j in uses && uses[victim] < uses[j]
  }

  lemma FrontIsOldest<V>(s: State<V>, uses: map<string, nat>, now: nat)
    requires Valid(s) && s.lru != [] && ByUse(s.lru, uses, now)
    ensures OldestUse(s, uses, s.lru[0])
  {
    assert s.lru[0] in Elements(s.lru);
    forall j | j in s.entries && j != s.lru[0] ensures j in uses && uses[s.lru[0]] < uses[j] {
      assert j in Elements(s.lru);
      var i :| 0 <= i < |s.lru| && s.lru[i] == j;
    }
  }

  /** Storing a new key into a full shard evicts exactly the key used longest ago. */
  lemma EvictsLeastRecentlyUsed<V>(cap: nat, ops: seq<Op<V>>, k: string, v: V)
    requires k !in After(cap, ops).entries && |After(cap, ops).entries| >= After(cap, ops).cap
    ensures exists victim ::
              && OldestUse(After(cap, ops), LastUse(cap, ops), victim)
              && After(cap, ops + [Store(k, v)]).entries == (After(cap, ops).entries - {victim})[k := v]
  {
    hide Valid, ByUse, OldestUse, Step;
    var s := After(cap, ops);
    HistoryIsValid(cap, ops);
    DequeIsByUse(cap, ops);
    FullInsert(s, k, v);
    FrontIsOldest(s, LastUse(cap, ops), |ops|);
    assert (ops + [Store(k, v)])[..|ops|] == ops;
    assert After(cap, ops + [Store(k, v)]) == Step(s, Store(k, v));
    StepStore(s, k, v);
  }

  lemma StepStore<V>(s: State<V>, k: string, v: V)
    ensures Step(s, Store(k, v)) == AfterInsert(s, k, v)
  {
  }

  // ---------- Inclusion ----------

  /** The keys of `s` that are in `ks`, in order. */
  function Keep(s: seq<string>, ks: set<string>): seq<string> {
    if s == [] then []
    else
      var front := Keep(s[..|s| - 1], ks);
      if s[|s| - 1] in ks then front + [s[|s| - 1]] else front
  }

  lemma KeepAppend(s: seq<string>, k: string, ks: set<string>)
    ensures Keep(s + [k], ks) == if k in ks then Keep(s, ks) + [k] else Keep(s, ks)
  {
    assert (s + [k])[..|s|] == s;
  }

  lemma WithoutAppend(s: seq<string>, last: string, k: string)
    ensures Without(s + [last], k) == if last == k then s else Without(s, k) + [last]
  {
    assert (s + [last])[..|s|] == s;
  }

  lemma {:induction false} KeepWithout(s: seq<string>, ks: set<string>, k: string)
    requires Distinct(s)
    ensures Keep(Without(s, k), ks) == Without(Keep(s, ks), k)
    ensures Keep(s, ks - {k}) == Without(Keep(s, ks), k)
  {
    if s != [] {
      var n := |s| - 1;
      var last, q := s[n], Keep(s[..n], ks);
      SplitLast(s);
      KeepWithout(s[..n], ks, k);
      WithoutAppend(q, last, k);
      if last == k {
        KeepOthers(s[..n], ks, k);
        KeepElements(s[..n], ks);
        KeepDistinct(s[..n], ks);
        WithoutDistinct(q, k);
      } else {
        KeepAppend(Without(s[..n], k), last, ks);
      }
    }
  }

  lemma {:induction false} KeepOthers(s: seq<string>, ks: set<string>, k: string)
    requires k !in Elements(s)
    ensures Keep(s, ks - {k}) == Keep(s, ks) && Keep(s, ks + {k}) == Keep(s, ks)
  {
    if s != [] {
      var n := |s| - 1;
      assert s == s[..n] + [s[n]];
      ElementsAppend(s[..n], s[n]);
      KeepOthers(s[..n], ks, k);
    }
  }

  lemma {:induction false} KeepElements(s: seq<string>, ks: set<string>)
    ensures Elements(Keep(s, ks)) == Elements(s) * ks
  {
    if s != [] {
      var n := |s| - 1;
      KeepElements(s[..n], ks);
      assert s == s[..n] + [s[n]];
      ElementsAppend(s[..n], s[n]);
      ElementsAppend(Keep(s[..n], ks), s[n]);
    }
  }

  lemma {:induction false} KeepDistinct(s: seq<string>, ks: set<string>)
    requires Distinct(s)
    ensures Distinct(Keep(s, ks))
  {
    if s != [] {
      var n := |s| - 1;
      SplitLast(s);
      KeepDistinct(s[..n], ks);
      KeepElements(s[..n], ks);
      if s[n] in ks { DistinctAppend(Keep(s[..n], ks), s[n]); }
    }
  }

  lemma {:induction false} KeepSuperset(s: seq<string>, ks: set<string>)
    requires Elements(s) <= ks
    ensures Keep(s, ks) == s
  {
    if s != [] {
      var n := |s| - 1;
      assert s == s[..n] + [s[n]];
      ElementsAppend(s[..n], s[n]);
      KeepSuperset(s[..n], ks);
    }
  }

  /** Dropping the front of `s` drops the front of what is kept, if it was kept. */
  lemma {:induction false} KeepFront(s: seq<string>, ks: set<string>)
    requires s != []
    ensures Keep(s, ks) == if s[0] in ks then [s[0]] + Keep(s[1..], ks) else Keep(s[1..], ks)
  {
    if |s| == 1 {
      assert Keep(s[..0], ks) == [] && s[1..] == [];
    } else {
      var n := |s| - 1;
      KeepFront(s[..n], ks);
      assert s[..n][1..] == s[1..][..n - 1];
    }
  }

  /** The smaller shard's recency list is the larger's restricted to its keys, its entries
      agree, and it has lost something only by being full. */
  predicate Included<V(==)>(small: State<V>, big: State<V>) {
    && small.cap <= big.cap
    && small.lru == Keep(big.lru, small.entries.Keys)
    && (forall k | k in small.entries :: k in big.entries && small.entries[k] == big.entries[k])
    && (|small.entries| < small.cap ==> small.lru == big.lru)
  }

  lemma TouchIncluded<V>(small: State<V>, big: State<V>, k: string)
    requires Valid(small) && Valid(big) && Included(small, big) && k in big.entries
    ensures Keep(Touched(big.lru, k), small.entries.Keys)
         == if k in small.entries then Touched(small.lru, k) else small.lru
  {
    KeepWithout(big.lru, small.entries.Keys, k);
    KeepAppend(Without(big.lru, k), k, small.entries.Keys);
    WithoutDistinct(small.lru, k);
  }

  lemma SameWhenNotFull<V>(small: State<V>, big: State<V>)
    requires Valid(small) && Valid(big) && Included(small, big) && |small.entries| < small.cap
    ensures small.entries.Keys == big.entries.Keys && |big.entries| < big.cap
  {
    DistinctSize(small.lru);
    DistinctSize(big.lru);
  }

  /** What is left of the smaller deque after its front is evicted. */
  lemma EvictedKeep<V>(small: State<V>, big: State<V>)
    requires Valid(small) && Valid(big) && Included(small, big) && small.lru != []
    ensures Keep(big.lru, small.entries.Keys - {small.lru[0]}) == small.lru[1..]
  {
    KeepWithout(big.lru, small.entries.Keys, small.lru[0]);
    WithoutAt(small.lru, 0);
  }

  /** The larger deque without `k`, and without its own victim if it is full, still keeps the
      surviving keys of the smaller one in order. */
  lemma SurvivorsKept<V>(small: State<V>, big: State<V>, k: string)
    requires Valid(small) && Valid(big) && Included(small, big)
    requires k !in small.entries && |small.entries| >= small.cap && small.lru != []
    ensures var kept := small.entries.Keys - {small.lru[0]};
            && (k in big.entries ==> Keep(Without(big.lru, k), kept) == small.lru[1..])
            && (big.lru != [] ==> Keep(big.lru[1..], kept) == small.lru[1..] && big.lru[0] !in kept)
  {
    var kept := small.entries.Keys - {small.lru[0]};
    EvictedKeep(small, big);
    if k in big.entries {
      KeepWithout(big.lru, kept, k);
      TailDistinct(small.lru);
      WithoutDistinct(small.lru[1..], k);
    }
    if big.lru != [] {
      KeepFront(big.lru, kept);
      KeepFront(big.lru, small.entries.Keys);
    }
  }

  /** The larger deque after storing `k` is some deque that ends in `k` and keeps the survivors. */
  lemma LargerAfterStore<V>(small: State<V>, big: State<V>, k: string, v: V) returns (rest: seq<string>)
    requires Valid(small) && Valid(big) && Included(small, big)
    requires k !in small.entries && |small.entries| >= small.cap && small.lru != []
    ensures AfterInsert(big, k, v).lru == rest + [k] && k !in Elements(rest)
    ensures Keep(rest, small.entries.Keys - {small.lru[0]}) == small.lru[1..]
    ensures forall j | j in small.entries.Keys - {small.lru[0]} ::
              j in AfterInsert(big, k, v).entries && AfterInsert(big, k, v).entries[j] == big.entries[j]
    ensures k in AfterInsert(big, k, v).entries && AfterInsert(big, k, v).entries[k] == v
  {
    SurvivorsKept(small, big, k);
    EvictedKeep(small, big);
    if k !in big.entries && |big.entries| >= big.cap {
      FullInsert(big, k, v);
      TailDistinct(big.lru);
      rest := big.lru[1..];
    } else {
      RoomyInsert(big, k, v);
      WithoutDistinct(big.lru, k);
      rest := if k in big.entries then Without(big.lru, k) else big.lru;
    }
  }

  lemma EvictedDeque<V>(small: State<V>, big: State<V>, k: string, v: V)
    requires Valid(small) && Valid(big) && Included(small, big)
    requires k !in small.entries && |small.entries| >= small.cap
    ensures var s := AfterInsert(small, k, v); s.lru == Keep(AfterInsert(big, k, v).lru, s.entries.Keys)
  {
    FullInsert(small, k, v);
    var kept := small.entries.Keys - {small.lru[0]};
    var rest := LargerAfterStore(small, big, k, v);
    hide Valid, Included, Elements, Keep, AfterInsert;
    KeepOthers(rest, kept, k);
    KeepAppend(rest, k, kept + {k});
  }

  lemma EvictedValues<V>(small: State<V>, big: State<V>, k: string, v: V, j: string)
    requires Valid(small) && Valid(big) && Included(small, big)
    requires k !in small.entries && |small.entries| >= small.cap
    requires j in AfterInsert(small, k, v).entries
    ensures var s, b := AfterInsert(small, k, v), AfterInsert(big, k, v);
            j in b.entries && s.entries[j] == b.entries[j]
  {
    FullInsert(small, k, v);
    var rest := LargerAfterStore(small, big, k, v);
    if j != k {
      assert j in small.entries.Keys - {small.lru[0]};
    }
  }

  lemma FullIncluded<V>(s: State<V>, b: State<V>)
    requires s.cap <= b.cap && |s.entries| >= s.cap && s.lru == Keep(b.lru, s.entries.Keys)
    requires forall j | j in s.entries :: j in b.entries && s.entries[j] == b.entries[j]
    ensures Included(s, b)
  {
  }

  /** Storing `k` where the smaller shard must evict. */
  lemma EvictIncluded<V>(small: State<V>, big: State<V>, k: string, v: V)
    requires Valid(small) && Valid(big) && Included(small, big)
    requires k !in small.entries && |small.entries| >= small.cap
    ensures Included(AfterInsert(small, k, v), AfterInsert(big, k, v))
  {
    var s, b := AfterInsert(small, k, v), AfterInsert(big, k, v);
    FullInsert(small, k, v);
    hide Keep, Valid;
    EvictedDeque(small, big, k, v);
    forall j | j in s.entries ensures j in b.entries && s.entries[j] == b.entries[j] {
      EvictedValues(small, big, k, v, j);
    }
    assert s.cap == small.cap && b.cap == big.cap;
    hide AfterInsert;
    FullIncluded(s, b);
  }

  lemma UpdateIncluded<V>(small: State<V>, big: State<V>, k: string, v: V)
    requires Valid(small) && Valid(big) && Included(small, big)
    requires k in small.entries
    ensures Included(AfterInsert(small, k, v), AfterInsert(big, k, v))
  {
    if |small.entries| < small.cap { SameWhenNotFull(small, big); }
    TouchIncluded(small, big, k);
    MapWith(small.entries, k, v);
    assert k in big.entries;
    var s, b := AfterInsert(small, k, v), AfterInsert(big, k, v);
    UpdateBoth(small.entries, big.entries, k, v, s.entries, b.entries);
    assert s.lru == Touched(small.lru, k) && b.lru == Touched(big.lru, k);
    assert s.cap == small.cap && b.cap == big.cap && |s.entries| == |small.entries|;
    hide Distinct, Elements, Keep, Touched, Valid, AfterInsert;
    assert s.entries.Keys == small.entries.Keys by {
      assert small.entries.Keys + {k} == small.entries.Keys;
    }
  }

  lemma KeepsItself<V>(s: State<V>)
    requires Valid(s)
    ensures Keep(s.lru, s.entries.Keys) == s.lru
  {
    KeepSuperset(s.lru, s.entries.Keys);
  }

  lemma SameIncluded<V>(s: State<V>, b: State<V>)
    requires s.cap <= b.cap && s.lru == b.lru && Keep(s.lru, s.entries.Keys) == s.lru
    requires forall j | j in s.entries :: j in b.entries && s.entries[j] == b.entries[j]
    ensures Included(s, b)
  {
  }

  /** A map included in another stays so when both are given the same value. */
  lemma UpdateBoth<V>(m: map<string, V>, n: map<string, V>, k: string, v: V, m': map<string, V>, n': map<string, V>)
    requires forall j | j in m :: j in n && m[j] == n[j]
    requires m' == m[k := v] && n' == n[k := v]
    ensures forall j | j in m' :: j in n' && m'[j] == n'[j]
  {
  }

  lemma AppendIncluded<V>(small: State<V>, big: State<V>, k: string, v: V)
    requires Valid(small) && Valid(big) && Included(small, big)
    requires k !in small.entries && |small.entries| < small.cap
    ensures Included(AfterInsert(small, k, v), AfterInsert(big, k, v))
  {
    SameWhenNotFull(small, big);
    var s, b := AfterInsert(small, k, v), AfterInsert(big, k, v);
    UpdateBoth(small.entries, big.entries, k, v, s.entries, b.entries);
    assert s.lru == small.lru + [k] && b.lru == big.lru + [k];
    InsertKeepsValid(small, k, v);
    hide Valid, Keep, AfterInsert, Included;
    KeepsItself(s);
    SameIncluded(s, b);
  }

  lemma StepIncluded<V>(small: State<V>, big: State<V>, op: Op<V>)
    requires Valid(small) && Valid(big) && Included(small, big)
    ensures Included(Step(small, op), Step(big, op))
  {
    match op
    case Lookup(k) =>
      if k in big.entries {
        TouchIncluded(small, big, k);
        if |small.entries| < small.cap { SameWhenNotFull(small, big); }
      }
    case Store(k, v) =>
      if k in small.entries {
        UpdateIncluded(small, big, k, v);
      } else if |small.entries| < small.cap {
        AppendIncluded(small, big, k, v);
      } else {
        EvictIncluded(small, big, k, v);
      }
    case Clear =>
  }

  /** LRU inclusion: after any common history a smaller shard holds, in the same order and with
      the same values, a part of what a larger one holds. */
  lemma {:induction false} Inclusion<V>(cap: nat, cap': nat, ops: seq<Op<V>>)
    requires cap <= cap'
    ensures Included(After(cap, ops), After(cap', ops))
  {
    if ops != [] {
      var n := |ops| - 1;
      Inclusion(cap, cap', ops[..n]);
      HistoryIsValid(cap, ops[..n]);
      HistoryIsValid(cap', ops[..n]);
      StepIncluded(After(cap, ops[..n]), After(cap', ops[..n]), ops[n]);
    }
  }

  /** Restricting keeps the relative order of every two kept keys: it is a subsequence. */
  lemma {:induction false} KeepIsSubsequence(s: seq<string>, ks: set<string>) returns (at: seq<nat>)
    ensures |at| == |Keep(s, ks)|
    ensures forall i | 0 <= i < |at| :: at[i] < |s| && s[at[i]] == Keep(s, ks)[i]
    ensures forall i, j | 0 <= i < j < |at| :: at[i] < at[j]
  {
    at := [];
    if s != [] {
      var n := |s| - 1;
      at := KeepIsSubsequence(s[..n], ks);
      if s[n] in ks {
        at := at + [n];
      }
    }
  }
}
