/** The cache of `src/plugin/cache.rs`: sixteen shards, TTL and lazy deadlines, and hits.

Times are nanoseconds on a clock that never goes back. A stored wire image is represented by
the message it decodes to.
*/
module Cache {
  import opened Wrappers
  import opened DnsMessage
  import opened Context
  import opened Steps
  import opened CacheKey
  import opened CachePolicy
  import Lru

  const SECOND: nat := 1_000_000_000
  const SHARDS: nat := 16
  const U32: nat := 0x1_0000_0000

  type Time = nat

  datatype Entry = Entry(msg: Message, stored: Time, deadline: Time, expire: Time)

  function Max(a: nat, b: nat): nat { if a < b then b else a }

  /** The entry `store` writes at `now`. */
  function EntryFor(m: Message, now: Time, lazyTtl: nat): Entry {
    var deadline := now + MinTtl(m) * SECOND;
    Entry(m, now, deadline, if lazyTtl > 0 then Max(deadline, now + lazyTtl) else deadline)
  }

  datatype Found = Found(msg: Message, stale: bool, stored: Time)

  function Served(e: Option<Entry>, now: Time, lazyTtl: nat): Option<Found> {
    match e
    case None => None
    case Some(e) =>
      if now >= e.expire then None
      else Some(Found(e.msg, now >= e.deadline && lazyTtl > 0, e.stored))
  }

  function ElapsedSeconds(now: Time, stored: Time): nat {
    if now < stored then 0 else (now - stored) / SECOND
  }

  /** `as u32` keeps the low 32 bits. */
  function Narrowed(n: nat): u32 { n % U32 }

  /** The message put into the context for a hit, read at a second, later clock reading. */
  function HitMessage(f: Found, now: Time, lazyReply: u32): Message {
    if f.stale then Retimed(f.msg, lazyReply) else Aged(f.msg, Narrowed(ElapsedSeconds(now, f.stored)))
  }

  // ---------- TTLs of hits ----------

  /** The records whose TTL a hit decays. */
  predicate DecayingIn(m: Message, r: Record) { r in Timed(m) && Decays(r) }

  lemma ElapsedBounds(now: Time, stored: Time)
    requires stored <= now
    ensures var s := ElapsedSeconds(now, stored); s * SECOND <= now - stored < (s + 1) * SECOND
  {
  }

  /** A fresh hit was found before its deadline: its age in seconds is below every TTL it serves. */
  lemma FreshHitIsYoung(m: Message, t0: Time, lazyTtl: nat, now: Time)
    requires t0 <= now
    requires Served(Some(EntryFor(m, t0, lazyTtl)), now, lazyTtl).Some?
    requires !Served(Some(EntryFor(m, t0, lazyTtl)), now, lazyTtl).value.stale
    ensures now < t0 + MinTtl(m) * SECOND && ElapsedSeconds(now, t0) < MinTtl(m)
    ensures Narrowed(ElapsedSeconds(now, t0)) == ElapsedSeconds(now, t0)
  {
    ElapsedBounds(now, t0);
  }

  /** With one clock reading, no served TTL saturates or is lost in narrowing, each is at least
      one, and each expires the record less than a second after its original TTL and not before. */
  lemma FreshHitTtls(m: Message, t0: Time, lazyTtl: nat, now: Time, lazyReply: u32, r: Record)
    requires t0 <= now
    requires Served(Some(EntryFor(m, t0, lazyTtl)), now, lazyTtl).Some?
    requires !Served(Some(EntryFor(m, t0, lazyTtl)), now, lazyTtl).value.stale
    requires DecayingIn(m, r)
    ensures var f := Served(Some(EntryFor(m, t0, lazyTtl)), now, lazyTtl).value;
            var served := AgedRecord(r, Narrowed(ElapsedSeconds(now, f.stored)));
            && served in Timed(HitMessage(f, now, lazyReply))
            && served.ttl == r.ttl - ElapsedSeconds(now, t0) >= 1
            && t0 + r.ttl * SECOND <= now + served.ttl * SECOND < t0 + r.ttl * SECOND + SECOND
  {
    var f := Served(Some(EntryFor(m, t0, lazyTtl)), now, lazyTtl).value;
    FreshHitIsYoung(m, t0, lazyTtl, now);
    ElapsedBounds(now, t0);
    LeastTtlIsAttained(Timed(m));
    var i :| 0 <= i < |Timed(m)| && Timed(m)[i] == r;
    TimedOfAged(m, Narrowed(ElapsedSeconds(now, f.stored)));
    assert Timed(HitMessage(f, now, lazyReply))[i] == AgedRecord(r, Narrowed(ElapsedSeconds(now, f.stored)));
  }

  /** The program reads the clock once to look up and again to age. As long as the age fits in 32
      bits, every TTL is still at least one exactly when the second reading is before the deadline. */
  lemma TtlsSurviveSecondReading(m: Message, t0: Time, later: Time)
    requires t0 <= later && ElapsedSeconds(later, t0) < U32
    requires MinTtl(m) > 0 && LeastDecays(m)
    ensures (forall r | DecayingIn(m, r) :: AgedRecord(r, Narrowed(ElapsedSeconds(later, t0))).ttl >= 1)
       <==> later < t0 + MinTtl(m) * SECOND
  {
    ElapsedBounds(later, t0);
    LeastTtlIsAttained(Timed(m));
    var s := ElapsedSeconds(later, t0);
    if later < t0 + MinTtl(m) * SECOND {
      assert s < MinTtl(m);
      forall r | DecayingIn(m, r) ensures AgedRecord(r, Narrowed(s)).ttl >= 1 {
        var i :| 0 <= i < |Timed(m)| && Timed(m)[i] == r;
      }
    } else {
      assert s >= MinTtl(m);
      var i :| 0 <= i < |Timed(m)| && Decays(Timed(m)[i]) && Timed(m)[i].ttl == MinTtl(m);
      assert DecayingIn(m, Timed(m)[i]);
    }
  }

  /** A hit found one nanosecond before its deadline and aged two nanoseconds later serves TTL 0. */
  lemma SecondReadingCanZeroTtl(lazyReply: u32)
    ensures var m := EMPTY_MESSAGE.(answers := [Record(Name("a", true), CLASS_IN, 1, A(V4(1)))]);
            var f := Served(Some(EntryFor(m, 0, 0)), SECOND - 1, 0);
            f.Some? && !f.value.stale && HitMessage(f.value, SECOND + 1, lazyReply).answers[0].ttl == 0
  {
    var m := EMPTY_MESSAGE.(answers := [Record(Name("a", true), CLASS_IN, 1, A(V4(1)))]);
    assert Timed(m) == m.answers;
    assert MinTtl(m) == 1;
    assert ElapsedSeconds(SECOND + 1, 0) == 1;
  }

  /** A lazy hit is stale, within the lazy window counted from the store, and serves only the
      configured reply TTL. */
  lemma StaleHitWindow(m: Message, t0: Time, lazyTtl: nat, now: Time, later: Time, lazyReply: u32)
    requires Served(Some(EntryFor(m, t0, lazyTtl)), now, lazyTtl).Some?
    requires Served(Some(EntryFor(m, t0, lazyTtl)), now, lazyTtl).value.stale
    ensures t0 + MinTtl(m) * SECOND <= now < t0 + lazyTtl
    ensures var f := Served(Some(EntryFor(m, t0, lazyTtl)), now, lazyTtl).value;
            forall r | r in Timed(HitMessage(f, later, lazyReply)) :: r.ttl == lazyReply
  {
  }

  /** When a stored message is served: until its least TTL has passed since the store or, with a lazy
      window, until that window has; and as stale exactly once the least TTL has passed. */
  lemma EntryIsServed(m: Message, t0: Time, lazyTtl: nat, now: Time)
    requires t0 <= now
    ensures var f := Served(Some(EntryFor(m, t0, lazyTtl)), now, lazyTtl);
            && (f.Some? <==> now < t0 + MinTtl(m) * SECOND || now < t0 + lazyTtl)
            && (f.Some? ==> f.value.msg == m && f.value.stored == t0
                            && (f.value.stale <==> now >= t0 + MinTtl(m) * SECOND))
  {
  }

  /** The same in terms of records: fresh exactly while no answer or authority record has expired. */
  lemma FreshMeansUnexpired(m: Message, t0: Time, lazyTtl: nat, now: Time)
    requires t0 <= now && (m.answers != [] || m.nameServers != [])
    ensures var f := Served(Some(EntryFor(m, t0, lazyTtl)), now, lazyTtl);
            f.Some? && !f.value.stale <==>
              && (forall i | 0 <= i < |m.answers| :: now < t0 + m.answers[i].ttl * 1_000_000_000)
              && (forall i | 0 <= i < |m.nameServers| :: now < t0 + m.nameServers[i].ttl * 1_000_000_000)
  {
    EntryIsServed(m, t0, lazyTtl, now);
    LeastTtlIsAttained(Timed(m));
    var least := t0 + MinTtl(m) * SECOND;
    forall i | 0 <= i < |m.answers| ensures least <= t0 + m.answers[i].ttl * SECOND {
      assert Timed(m)[i] == m.answers[i];
    }
    forall i | 0 <= i < |m.nameServers| ensures least <= t0 + m.nameServers[i].ttl * SECOND {
      assert Timed(m)[|m.answers| + i] == m.nameServers[i];
    }
    var k :| 0 <= k < |Timed(m)| && Timed(m)[k].ttl == MinTtl(m);
    assert Timed(m)[k] == if k < |m.answers| then m.answers[k] else m.nameServers[k - |m.answers|];
  }

  /** What a hit serves, record by record: a stale one the configured TTL in answers and authority, a
      fresh one every record but OPT decayed by the whole seconds since the store; nothing else differs. */
  lemma HitRecords(f: Found, now: Time, lazyReply: u32)
    requires f.stored <= now && (now - f.stored) / 1_000_000_000 < 0x1_0000_0000
    ensures var age, m, hit := (now - f.stored) / 1_000_000_000, f.msg, HitMessage(f, now, lazyReply);
            && hit.(answers := m.answers, nameServers := m.nameServers, additionals := m.additionals) == m
            && |hit.answers| == |m.answers| && |hit.nameServers| == |m.nameServers| && |hit.additionals| == |m.additionals|
            && (forall i | 0 <= i < |m.answers| ::
                  hit.answers[i] == m.answers[i].(ttl := ServedTtl(f.stale, m.answers[i], age, lazyReply)))
            && (forall i | 0 <= i < |m.nameServers| ::
                  hit.nameServers[i] == m.nameServers[i].(ttl := ServedTtl(f.stale, m.nameServers[i], age, lazyReply)))
            && (forall i | 0 <= i < |m.additionals| ::
                  hit.additionals[i] == if f.stale then m.additionals[i]
                                        else m.additionals[i].(ttl := ServedTtl(false, m.additionals[i], age, lazyReply)))
  {
    var m, age := f.msg, (now - f.stored) / 1_000_000_000;
    assert Narrowed(ElapsedSeconds(now, f.stored)) == age;
    ServedRecords(m.answers, age, lazyReply);
    ServedRecords(m.nameServers, age, lazyReply);
    ServedRecords(m.additionals, age, lazyReply);
    hide AgedRecords, RetimedRecords, ServedTtl;
  }

  lemma ServedRecords(rs: seq<Record>, age: u32, lazyReply: u32)
    ensures forall i | 0 <= i < |rs| :: AgedRecords(rs, age)[i] == rs[i].(ttl := ServedTtl(false, rs[i], age, lazyReply))
    ensures forall i | 0 <= i < |rs| :: RetimedRecords(rs, lazyReply)[i] == rs[i].(ttl := ServedTtl(true, rs[i], age, lazyReply))
  {
  }

  function ServedTtl(stale: bool, r: Record, age: nat, lazyReply: u32): u32 {
    if stale then lazyReply
    else if r.Type() == 41 then r.ttl
    else if r.ttl <= age then 0
    else r.ttl - age
  }

  // ---------- Shards ----------

  function HashStep(h: bv64, c: char): bv64 { (h * 16777619) ^ ((c as int % 256) as bv64) }

  function Hash(key: string): bv64 {
    if key == "" then 0 else HashStep(Hash(key[..|key| - 1]), key[|key| - 1])
  }

  /** Keys are ASCII text, so their bytes are their characters. */
  function ShardOf(key: string): (i: nat)
    ensures i < SHARDS
  {
    (Hash(key) as int) % SHARDS
  }

  method FindShard(key: string) returns (i: nat)
    ensures i == ShardOf(key)
  {
    var h: bv64 := 0;
    for j := 0 to |key|
      invariant h == Hash(key[..j])
    {
      assert key[..j + 1][..j] == key[..j];
      h := HashStep(h, key[j]);
    }
    assert key[..|key|] == key;
    return (h as int) % SHARDS;
  }

  function ShardCapacity(size: nat): nat { Max(size / SHARDS, 32) }

  /** The configured size is shared out evenly, but no shard holds fewer than 32 entries. */
  lemma CapacityIsShared(size: nat)
    ensures ShardCapacity(size) >= 32
    ensures size < 16 * (ShardCapacity(size) + 1)
    ensures size >= 512 ==> 16 * ShardCapacity(size) <= size
    ensures size < 512 ==> ShardCapacity(size) == 32
  {
  }

  // ---------- Histories of a whole cache ----------

  /** The atomic operations on a cache, each under one shard's lock, in the order the locks were
      taken by all the runs that share the cache. A flush locks one shard after the other. */
  datatype Op = Get(key: string) | Put(key: string, entry: Entry) | FlushShard(index: nat)

  type Shards = s: seq<Lru.State<Entry>> | |s| == SHARDS witness seq(SHARDS, _ => Lru.Empty<Entry>(1))

  function StepShards(s: Shards, op: Op): Shards {
    match op
    case Get(k) => s[ShardOf(k) := Lru.AfterGet(s[ShardOf(k)], k)]
    case Put(k, e) => s[ShardOf(k) := Lru.AfterInsert(s[ShardOf(k)], k, e)]
    case FlushShard(i) => if i < SHARDS then s[i := Lru.AfterFlush(s[i])] else s
  }

  function AfterOps(size: nat, ops: seq<Op>): Shards {
    if ops == [] then seq(SHARDS, _ => Lru.Empty<Entry>(ShardCapacity(size)))
    else StepShards(AfterOps(size, ops[..|ops| - 1]), ops[|ops| - 1])
  }

  /** A flush of the first `n` shards, one after the other. */
  function Flushes(n: nat): seq<Op> { seq(n, i requires 0 <= i < n => FlushShard(i)) }

  lemma AfterOneMore(size: nat, ops: seq<Op>, op: Op)
    ensures AfterOps(size, ops + [op]) == StepShards(AfterOps(size, ops), op)
  {
    assert (ops + [op])[..|ops|] == ops;
  }

  lemma {:induction false} LookupsKeepEntry(size: nat, ops: seq<Op>, key: string, e: Entry, gets: seq<Op>)
    requires forall i | 0 <= i < |gets| :: gets[i].Get?
    ensures Lru.Find(AfterOps(size, ops + [Put(key, e)] + gets)[ShardOf(key)], key) == Some(e)
  {
    hide Hash, AfterOps;
    if gets == [] {
      AfterOneMore(size, ops, Put(key, e));
      assert ops + [Put(key, e)] + gets == ops + [Put(key, e)];
    } else {
      var n := |gets| - 1;
      LookupsKeepEntry(size, ops, key, e, gets[..n]);
      assert ops + [Put(key, e)] + gets == ops + [Put(key, e)] + gets[..n] + [gets[n]];
      AfterOneMore(size, ops + [Put(key, e)] + gets[..n], gets[n]);
    }
  }

  /** Whatever happened before, what is stored is found by lookups that follow, for as long as its least
      TTL and the lazy window allow; and it turns stale when the least TTL has passed. */
  lemma StoredIsServed(
    size: nat, ops: seq<Op>, key: string, m: Message, t0: Time, lazyTtl: nat, gets: seq<Op>, now: Time)
    requires t0 <= now && forall i | 0 <= i < |gets| :: gets[i].Get?
    ensures var shard := AfterOps(size, ops + [Put(key, EntryFor(m, t0, lazyTtl))] + gets)[ShardOf(key)];
            var f := Served(Lru.Find(shard, key), now, lazyTtl);
            && (f.Some? <==> now < t0 + MinTtl(m) * SECOND || now < t0 + lazyTtl)
            && (f.Some? ==> f.value.msg == m && (f.value.stale <==> now >= t0 + MinTtl(m) * SECOND))
  {
    hide Hash, AfterOps, MinTtl;
    LookupsKeepEntry(size, ops, key, EntryFor(m, t0, lazyTtl), gets);
    EntryIsServed(m, t0, lazyTtl, now);
  }

  /** The unbounded cache: every key maps to its latest store since its shard was flushed. */
  function Latest(ops: seq<Op>): map<string, Entry> {
    if ops == [] then map[] else StepLatest(Latest(ops[..|ops| - 1]), ops[|ops| - 1])
  }

  /** Shard `i` is valid and holds only keys of its own, each with its latest store. */
  ghost predicate ShardRefines(s: Lru.State<Entry>, i: nat, latest: map<string, Entry>) {
    Lru.Valid(s) && forall k | k in s.entries :: ShardOf(k) == i && k in latest && latest[k] == s.entries[k]
  }

  ghost predicate Refines(s: Shards, latest: map<string, Entry>) {
    forall i | 0 <= i < SHARDS :: ShardRefines(s[i], i, latest)
  }

  /** The abstract effect of one operation. */
  function StepLatest(latest: map<string, Entry>, op: Op): map<string, Entry> {
    match op
    case Get(_) => latest
    case Put(k, e) => latest[k := e]
    case FlushShard(i) => map k | k in latest && ShardOf(k) != i :: latest[k]
  }

  lemma StepShardRefines(s: Shards, latest: map<string, Entry>, op: Op, i: nat)
    requires i < SHARDS && ShardRefines(s[i], i, latest)
    ensures ShardRefines(StepShards(s, op)[i], i, StepLatest(latest, op))
  {
    hide Lru.Valid, Hash, ShardOf;
    match op
    case Get(k) => Lru.GetKeepsValid(s[i], k);
    case Put(k, e) =>
      Lru.InsertKeepsValid(s[i], k, e);
      PutEntries(s[i], k, e);
    case FlushShard(_) => FlushIsValid(s[i]);
  }

  lemma StepRefines(s: Shards, latest: map<string, Entry>, op: Op)
    requires Refines(s, latest)
    ensures Refines(StepShards(s, op), StepLatest(latest, op))
  {
    hide ShardRefines;
    forall i | 0 <= i < SHARDS ensures ShardRefines(StepShards(s, op)[i], i, StepLatest(latest, op)) {
      StepShardRefines(s, latest, op, i);
    }
  }

  lemma PutEntries(s: Lru.State<Entry>, k: string, e: Entry)
    requires Lru.Valid(s)
    ensures forall j | j in Lru.AfterInsert(s, k, e).entries ::
              (j == k && Lru.AfterInsert(s, k, e).entries[j] == e)
              || (j != k && j in s.entries && Lru.AfterInsert(s, k, e).entries[j] == s.entries[j])
  {
  }

  lemma FlushIsValid(s: Lru.State<Entry>)
    requires Lru.Valid(s)
    ensures Lru.Valid(Lru.AfterFlush(s))
  {
  }

  lemma {:induction false} BoundedRefinesUnbounded(size: nat, ops: seq<Op>)
    ensures Refines(AfterOps(size, ops), Latest(ops))
  {
    if ops == [] {
      EmptyIsValid(ShardCapacity(size));
    } else {
      BoundedRefinesUnbounded(size, ops[..|ops| - 1]);
      StepRefines(AfterOps(size, ops[..|ops| - 1]), Latest(ops[..|ops| - 1]), ops[|ops| - 1]);
    }
  }

  lemma EmptyIsValid(cap: nat)
    ensures Lru.Valid(Lru.Empty<Entry>(cap))
  {
  }

  /** `ops[j]` stored `e` under `k`, and nothing replaced or flushed it since. */
  predicate IsLatestStore(ops: seq<Op>, k: string, e: Entry, j: nat) {
    && j < |ops| && ops[j] == Put(k, e)
    && forall i | j < i < |ops| :: ops[i] != FlushShard(ShardOf(k)) && !(ops[i].Put? && ops[i].key == k)
  }

  lemma {:induction false} LatestIsLastStore(ops: seq<Op>, k: string) returns (j: nat)
    requires k in Latest(ops)
    ensures IsLatestStore(ops, k, Latest(ops)[k], j)
  {
    hide Hash;
    var n := |ops| - 1;
    if ops[n].Put? && ops[n].key == k {
      j := n;
    } else {
      j := LatestIsLastStore(ops[..n], k);
    }
  }

  /** For every history of lookups, stores and flushes by any number of runs: a lookup may miss,
      but a hit is the latest store under its key, with the times that store gave it; and no
      shard ever exceeds its capacity. */
  lemma HitIsLatestStore(size: nat, ops: seq<Op>, k: string, now: Time, lazyTtl: nat)
    ensures var shard := AfterOps(size, ops)[ShardOf(k)];
            Served(Lru.Find(shard, k), now, lazyTtl).Some? ==>
              exists j, e :: IsLatestStore(ops, k, e, j)
                && Served(Lru.Find(shard, k), now, lazyTtl) == Served(Some(e), now, lazyTtl)
    ensures forall i | 0 <= i < SHARDS :: |AfterOps(size, ops)[i].entries| <= AfterOps(size, ops)[i].cap
  {
    hide Hash;
    BoundedRefinesUnbounded(size, ops);
    var shard := AfterOps(size, ops)[ShardOf(k)];
    if Lru.Find(shard, k).Some? {
      var j := LatestIsLastStore(ops, k);
      assert IsLatestStore(ops, k, shard.entries[k], j);
    }
  }

  // ---------- The cache object ----------

  class Cache {
    const shards: seq<Lru.Shard<Entry>>
    const lazyTtl: nat
    const lazyReply: u32
    const everything: bool
    const encodes: Encoder
    const printer: Printer
    var inflight: set<string>
    /** The background tasks alive, of which the program keeps only the keys. */
    ghost var flights: Flights

    /** `inflight` is the keys of the live tasks, no two of which share one. */
    ghost predicate FlightsSound()
      reads this
    {
      inflight == flights.inflight && SingleFlight(flights)
    }

    ghost const size: nat
    /** The operations so far, each one step of one shard. */
    ghost var history: seq<Op>

    /** The shards are where their history takes them. */
    ghost predicate InStep()
      reads this, shards
    {
      |shards| == SHARDS && forall i | 0 <= i < SHARDS :: shards[i].Value() == AfterOps(size, history)[i]
    }

    ghost predicate Valid()
      reads this, shards
    {
      && FlightsSound() && InStep()
      && |shards| == SHARDS
      && (forall i, j | 0 <= i < j < SHARDS :: shards[i] != shards[j])
      && (forall i | 0 <= i < SHARDS :: Lru.Valid(shards[i].Value()))
    }

    constructor (capacity: nat, lazySeconds: nat, lazyReplySeconds: u32, everything: bool, encodes: Encoder, printer: Printer)
      ensures Valid() && fresh(shards) && size == capacity && history == []
      ensures forall i | 0 <= i < SHARDS :: shards[i].Value() == Lru.Empty(ShardCapacity(capacity))
      ensures lazyTtl == lazySeconds * SECOND && lazyReply >= 1 && flights == Flights({}, map[], 0)
      ensures this.everything == everything && this.encodes == encodes && this.printer == printer
    {
      var made: seq<Lru.Shard<Entry>> := [];
      for i := 0 to SHARDS
        invariant |made| == i && fresh(made)
        invariant forall j, k | 0 <= j < k < i :: made[j] != made[k]
        invariant forall j | 0 <= j < i :: made[j].Value() == Lru.Empty(ShardCapacity(capacity))
      {
        var shard := new Lru.Shard<Entry>(ShardCapacity(capacity));
        made := made + [shard];
      }
      this.shards := made;
      this.lazyTtl := lazySeconds * SECOND;
      this.lazyReply := if lazyReplySeconds < 1 then 1 else lazyReplySeconds;
      this.everything, this.encodes, this.printer := everything, encodes, printer;
      this.inflight := {};
      this.flights := Flights({}, map[], 0);
      this.size, this.history := capacity, [];
      new;
      EmptyIsValid(ShardCapacity(capacity));
    }

    method Lookup(key: string, now: Time) returns (found: Option<Found>)
      requires Valid()
      modifies shards, this`history
      ensures Valid() && history == old(history) + [Get(key)]
      ensures found == Served(Lru.Find(old(shards[ShardOf(key)].Value()), key), now, lazyTtl)
      ensures forall i | 0 <= i < SHARDS ::
                shards[i].Value() == if i == ShardOf(key) then Lru.AfterGet(old(shards[i].Value()), key) else old(shards[i].Value())
    {
      hide Lru.Valid, Hash, AfterOps;
      var i := FindShard(key);
      var entry := shards[i].Get(key);
      AfterOneMore(size, history, Get(key));
      history := history + [Get(key)];
      if entry.None? || now >= entry.value.expire {
        return None;
      }
      return Some(Found(entry.value.msg, now >= entry.value.deadline && lazyTtl > 0, entry.value.stored));
    }

    method Store(key: string, m: Message, now: Time)
      requires Valid()
      modifies shards, this`history
      ensures Valid()
      ensures history == old(history) + if Storable(m, encodes) then [Put(key, EntryFor(m, now, lazyTtl))] else []
      ensures forall i | 0 <= i < SHARDS ::
                shards[i].Value() == if i == ShardOf(key) && Storable(m, encodes)
                                     then Lru.AfterInsert(old(shards[i].Value()), key, EntryFor(m, now, lazyTtl))
                                     else old(shards[i].Value())
    {
      hide Lru.Valid, Hash, AfterOps;
      if m.rcode != NO_ERROR || m.truncated || !CacheableEdns(m) || !encodes(m) {
        return;
      }
      var min := MinTtl(m);
      if min == 0 {
        return;
      }
      var deadline := now + min * SECOND;
      var expire := deadline;
      if lazyTtl > 0 {
        expire := Max(deadline, now + lazyTtl);
      }
      var i := FindShard(key);
      assert Entry(m, now, deadline, expire) == EntryFor(m, now, lazyTtl);
      hide EntryFor, MinTtl, CacheableEdns, Lru.AfterInsert;
      shards[i].Insert(key, Entry(m, now, deadline, expire));
      AfterOneMore(size, history, Put(key, EntryFor(m, now, lazyTtl)));
      history := history + [Put(key, EntryFor(m, now, lazyTtl))];
    }

    method Flush()
      requires Valid()
      modifies shards, this`history
      ensures Valid() && history == old(history) + Flushes(SHARDS)
      ensures forall i | 0 <= i < SHARDS :: shards[i].Value() == Lru.AfterFlush(old(shards[i].Value()))
    {
      hide Lru.Valid, AfterOps;
      ghost var start := history;
      for i := 0 to SHARDS
        invariant Valid() && history == start + Flushes(i)
        invariant forall j | 0 <= j < SHARDS ::
                    shards[j].Value() == if j < i then Lru.AfterFlush(old(shards[j].Value())) else old(shards[j].Value())
      {
        shards[i].Flush();
        AfterOneMore(size, history, FlushShard(i));
        history := history + [FlushShard(i)];
        assert Flushes(i + 1) == Flushes(i) + [FlushShard(i)];
      }
    }

    /** `Cache::exec`: look up at `now`, age at `later`, and start a refresh for a stale hit. */
    method Exec(ctx: QueryContext, now: Time, later: Time) returns (hit: Option<Found>, background: QueryContext?)
      requires Valid()
      modifies ctx, shards, this`inflight, this`flights, this`history
      ensures Valid()
      ensures var key := KeyOf(old(ctx.query), everything, encodes);
              hit == if key.None? || old(ctx.skipCache) then None
                     else Served(Lru.Find(old(shards[ShardOf(Print(printer, key.value))].Value()), Print(printer, key.value)), now, lazyTtl)
      ensures ctx.State() == if hit.None? then old(ctx.State())
                             else Apply(old(ctx.State()), ServeHit(HitMessage(hit.value, later, lazyReply)))
      ensures var key := KeyOf(old(ctx.query), everything, encodes);
              history == old(history) + if key.None? || old(ctx.skipCache) then [] else [Get(Print(printer, key.value))]
      ensures hit.None? || !hit.value.stale ==> flights == old(flights) && background == null
      ensures hit.Some? && hit.value.stale ==>
                var key := Print(printer, KeyOf(old(ctx.query), everything, encodes).value);
                && flights == StepFlights(old(flights), Kick(key, false))
                && (background != null <==> key !in old(flights.inflight))
                && (background != null ==> fresh(background) && background.State() == CloneForLazy(old(ctx.State())))
    {
      hide Lru.Valid, Hash, KeyOf, Print, Served, Lru.AfterGet, CloneForLazy, Retimed, Aged, Rebind, SingleFlight, StepFlights, AfterOps;
      background := null;
      var key := KeyOf(ctx.query, everything, encodes);
      if key.None? || ctx.skipCache {
        return None, null;
      }
      var text := Print(printer, key.value);
      hit := Lookup(text, now);
      if hit.Some? {
        var m := hit.value.msg;
        if hit.value.stale {
          m := SetAllTtl(m, lazyReply);
          background := KickRefresh(ctx, text);
        } else {
          m := SubtractTtl(m, Narrowed(ElapsedSeconds(later, hit.value.stored)));
        }
        ctx.DoSetResponse(Rebind(m, ctx.query));
        ctx.served := true;
      }
    }

    /** `kick_refresh` of a bound cache: starts a task exactly when lookups are on and none is alive
        for the key. */
    method KickRefresh(ctx: QueryContext, key: string) returns (background: QueryContext?)
      requires FlightsSound()
      modifies this`inflight, this`flights
      ensures FlightsSound() && flights == StepFlights(old(flights), Kick(key, old(ctx.skipCache)))
      ensures background != null <==> !old(ctx.skipCache) && key !in old(flights.inflight)
      ensures background != null ==>
                && fresh(background) && background.State() == CloneForLazy(old(ctx.State()))
                && old(flights.started) in flights.tasks && flights.tasks[old(flights.started)] == key
    {
      if ctx.skipCache || key in inflight {
        return null;
      }
      KickKeepsSingleFlight(flights, key);
      inflight := inflight + {key};
      flights := StepFlights(flights, Kick(key, false));
      background := new QueryContext.ForLazy(ctx);
    }

    /** Dropping the guard of a refresh task, however the task ended. */
    method EndRefresh(key: string, ghost task: nat)
      requires FlightsSound() && task in flights.tasks && flights.tasks[task] == key
      modifies this`inflight, this`flights
      ensures FlightsSound() && flights == StepFlights(old(flights), Finish(task)) && key !in inflight
    {
      FinishKeepsSingleFlight(flights, task);
      inflight := inflight - {key};
      flights := StepFlights(flights, Finish(task));
    }
  }

  // ---------- Single-flight refresh ----------

  /** The keys in flight and the live background tasks, named by the order they were started. */
  datatype Flights = Flights(inflight: set<string>, tasks: map<nat, string>, started: nat)

  datatype FlightEvent = Kick(key: string, skip: bool) | Finish(task: nat)

  /** A task that finishes, fails, panics or is cancelled drops its guard. */
  function StepFlights(f: Flights, e: FlightEvent): Flights {
    match e
    case Kick(key, skip) =>
      if skip || key in f.inflight then f
      else Flights(f.inflight + {key}, f.tasks[f.started := key], f.started + 1)
    case Finish(task) =>
      if task in f.tasks then f.(inflight := f.inflight - {f.tasks[task]}, tasks := f.tasks - {task}) else f
  }

  /** A refresh is started exactly if lookups are on and none is in flight for the key; it is in flight
      from then until its own task ends, and no other key is affected. */
  lemma FlightSteps(f: Flights, key: string, skip: bool, task: nat, other: string)
    requires SingleFlight(f)
    ensures var g := StepFlights(f, Kick(key, skip));
            && (other in g.inflight <==> other in f.inflight || (other == key && !skip))
            && (if skip || key in f.inflight then g == f
                else f.started !in f.tasks && g.tasks == f.tasks[f.started := key])
    ensures var g := StepFlights(f, Finish(task));
            && g.tasks == f.tasks - {task}
            && (other in g.inflight <==> other in f.inflight && !(task in f.tasks && f.tasks[task] == other))
  {
    assert f.started !in f.tasks;
    hide SingleFlight;
    if task !in f.tasks { assert f.tasks - {task} == f.tasks; }
  }

  function AfterFlights(es: seq<FlightEvent>): Flights {
    if es == [] then Flights({}, map[], 0) else StepFlights(AfterFlights(es[..|es| - 1]), es[|es| - 1])
  }

  /** The set in flight is exactly the keys of live tasks, and no two live tasks share a key. */
  ghost predicate SingleFlight(f: Flights) {
    && (forall t | t in f.tasks :: t < f.started && f.tasks[t] in f.inflight)
    && (forall k | k in f.inflight :: exists t :: t in f.tasks && f.tasks[t] == k)
    && (forall t, u | t in f.tasks && u in f.tasks && f.tasks[t] == f.tasks[u] :: t == u)
  }

  lemma KickKeepsSingleFlight(f: Flights, key: string)
    requires SingleFlight(f) && key !in f.inflight
    ensures SingleFlight(StepFlights(f, Kick(key, false)))
  {
    var g := StepFlights(f, Kick(key, false));
    assert g.tasks[f.started] == key;
    forall k | k in g.inflight && k != key ensures exists t :: t in g.tasks && g.tasks[t] == k {
      var t :| t in f.tasks && f.tasks[t] == k;
      assert g.tasks[t] == k;
    }
  }

  lemma FinishKeepsSingleFlight(f: Flights, task: nat)
    requires SingleFlight(f) && task in f.tasks
    ensures SingleFlight(StepFlights(f, Finish(task)))
  {
    var g := StepFlights(f, Finish(task));
    forall k | k in g.inflight ensures exists t :: t in g.tasks && g.tasks[t] == k {
      var t :| t in f.tasks && f.tasks[t] == k;
      assert t in g.tasks && g.tasks[t] == k;
    }
  }

  lemma StepKeepsSingleFlight(f: Flights, e: FlightEvent)
    requires SingleFlight(f)
    ensures SingleFlight(StepFlights(f, e))
  {
    match e
    case Kick(key, skip) => if !skip && key !in f.inflight { KickKeepsSingleFlight(f, key); }
    case Finish(task) => if task in f.tasks { FinishKeepsSingleFlight(f, task); }
  }

  /** Over every interleaving of kicks and ends: one refresh per key at a time, every ended task
      has freed its key, and a stale hit on a free key always starts a task. */
  lemma {:induction false} RefreshIsSingleFlight(es: seq<FlightEvent>)
    ensures SingleFlight(AfterFlights(es))
    ensures forall key :: key !in AfterFlights(es).inflight ==>
              AfterFlights(es).started in StepFlights(AfterFlights(es), Kick(key, false)).tasks
    ensures forall t | t in AfterFlights(es).tasks ::
              AfterFlights(es).tasks[t] !in StepFlights(AfterFlights(es), Finish(t)).inflight
  {
    if es != [] {
      RefreshIsSingleFlight(es[..|es| - 1]);
      StepKeepsSingleFlight(AfterFlights(es[..|es| - 1]), es[|es| - 1]);
    }
  }
}
