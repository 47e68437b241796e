/** What a run reads.

Two contexts are twins when they agree on what steps can read. `Exact` twins have equal queries and
replies. `Alike` twins may come from two clients: their queries share a key and EDNS options, and may
differ in id, EDNS payload size, header bits no step reads and, if case is folded, the case of the name;
their replies may differ in what an upstream echoes of these. The clients themselves may differ where no
step reads them. In surroundings that offer the same, twins take the same steps and stay twins.
*/
module Twins {
  import opened Wrappers
  import opened DnsMessage
  import opened Context
  import opened Steps
  import opened CacheKey
  import opened Invariants
  import opened Pipeline
  import opened PipelineBounds

  datatype Likeness = Exact | Alike(fold: bool)

  predicate NameAs(k: Likeness, a: Name, b: Name) { a == b || (k.Alike? && k.fold && SameName(a, b)) }

  /** Two simple queries with one key and the same EDNS options. */
  predicate OneKey(k: Likeness, a: Message, b: Message) {
    && IsSimple(a) && IsSimple(b) && SimpleKey(a) == SimpleKey(b)
    && NameAs(k, a.questions[0].name, b.questions[0].name)
    && a.opcode == b.opcode && SameOptions(a.edns, b.edns)
  }

  predicate SameQuery(k: Likeness, a: Message, b: Message) {
    a == b || (k.Alike? && (a.(id := 0) == b.(id := 0) || OneKey(k, a, b)))
  }

  predicate SameOptions(e: Option<Edns>, f: Option<Edns>) {
    match (e, f)
    case (None, None) => true
    case (Some(e), Some(f)) => e.version == f.version && e.options == f.options
    case _ => false
  }

  // ---------- The case of names ----------

  function FoldName(n: Name): Name { Name(Lower(n.text), n.fqdn) }

  function FoldRecord(r: Record): Record {
    r.(name := FoldName(r.name), data := match r.data case CNAME(target) => CNAME(FoldName(target)) case data => data)
  }

  function FoldRecords(rs: seq<Record>): (r: seq<Record>)
    ensures |r| == |rs|
  {
    seq(|rs|, i requires 0 <= i < |rs| => FoldRecord(rs[i]))
  }

  /** A message as far as it matters: if case is folded, owner names and CNAME targets are. */
  function Fold(k: Likeness, m: Message): Message {
    if k.Alike? && k.fold then
      m.(answers := FoldRecords(m.answers), nameServers := FoldRecords(m.nameServers), additionals := FoldRecords(m.additionals))
    else m
  }

  // ---------- Twins ----------

  /** What of a message binding to a query does not overwrite, but for the EDNS options. */
  function Core(m: Message): Message { m.(id := 0, questions := [], edns := None) }

  /** Equal up to id, question section, EDNS mode and, if folded, the case of names: an upstream echoes
      these from the query it was asked. */
  predicate SameMessage(k: Likeness, a: Message, b: Message) {
    Core(Fold(k, a)) == Core(Fold(k, b)) && SameOptions(a.edns, b.edns)
  }

  predicate SameReply(k: Likeness, a: Option<Message>, b: Option<Message>) {
    match (a, b)
    case (None, None) => true
    case (Some(m), Some(n)) => m == n || (k.Alike? && SameMessage(k, m, n))
    case _ => false
  }

  predicate SameLinks(k: Likeness, s: seq<Link>, t: seq<Link>) {
    |s| == |t| && forall i | 0 <= i < |s| :: NameAs(k, s[i].0, t[i].0) && s[i].1 == t[i].1
  }

  /** `c` and `d` agree on what a step reads, but for the client; `c` has made the same rewrites since
      its first `n` as `d` since its first `m`. Whether lookups are on is compared with the
      surroundings instead. */
  predicate Twin(k: Likeness, c: Ctx, d: Ctx, n: nat, m: nat) {
    && SameQuery(k, c.query, d.query)
    && SameReply(k, c.response, d.response)
    && c.marks == d.marks && c.stripEcs == d.stripEcs && c.served == d.served
    && n <= |c.rewrites| && m <= |d.rewrites| && SameLinks(k, c.rewrites[n..], d.rewrites[m..])
  }

  lemma ExactLinks(s: seq<Link>, t: seq<Link>)
    requires SameLinks(Exact, s, t)
    ensures s == t
  {
    forall i | 0 <= i < |s| ensures s[i] == t[i] {
      assert NameAs(Exact, s[i].0, t[i].0) && s[i].1 == t[i].1;
    }
  }

  // ---------- Surroundings ----------

  /** The choice `n` entries ahead. */
  function Ahead(w: World, n: nat): Choice { w.tape(w.pos + n) }

  /** A cache hit only counts for a run that looks up. */
  function HitFor(skip: bool, ch: Choice): Option<Hit> { if skip then None else ch.hit }

  ghost predicate SameChoice(a: Choice, skip: bool, b: Choice, skip': bool) {
    a.cancel == b.cancel && a.reply == b.reply && HitFor(skip, a) == HitFor(skip', b)
  }

  /** From here on both runs meet the same cancellations, upstreams and effective hits. */
  ghost predicate SameSurroundings(w: World, skip: bool, v: World, skip': bool) {
    forall n: nat :: SameChoice(Ahead(w, n), skip, Ahead(v, n), skip')
  }

  /** Upstreams answer queries that are alike alike, each with its own id and question. */
  ghost predicate Impartial(k: Likeness, tape: nat -> Choice) {
    forall n, a, b | SameQuery(k, a, b) :: SameReply(k, tape(n).reply(a), tape(n).reply(b))
  }

  lemma ExactIsImpartial(tape: nat -> Choice)
    ensures Impartial(Exact, tape)
  {
  }

  lemma AdvanceSame(w: World, skip: bool, v: World, skip': bool)
    requires SameSurroundings(w, skip, v, skip')
    ensures SameChoice(Next(w), skip, Next(v), skip')
    ensures SameSurroundings(Advance(w), skip, Advance(v), skip')
  {
    assert SameChoice(Ahead(w, 0), skip, Ahead(v, 0), skip');
    forall n: nat ensures SameChoice(Ahead(Advance(w), n), skip, Ahead(Advance(v), n), skip') {
      assert SameChoice(Ahead(w, n + 1), skip, Ahead(v, n + 1), skip');
    }
  }

  /** Logs are no part of the surroundings. */
  lemma NoteSame(w: World, skip: bool, v: World, skip': bool, w1: World, v1: World)
    requires SameSurroundings(w, skip, v, skip')
    requires w1.tape == w.tape && w1.pos == w.pos && v1.tape == v.tape && v1.pos == v.pos
    ensures SameSurroundings(w1, skip, v1, skip')
  {
    forall n: nat ensures SameChoice(Ahead(w1, n), skip, Ahead(v1, n), skip') {
      assert SameChoice(Ahead(w, n), skip, Ahead(v, n), skip');
    }
  }

  // ---------- Plugins that do not read the client ----------

  predicate ReadsClient(m: Matcher) {
    match m
    case ClientIp(_) => true
    case Neg(inner) => ReadsClient(inner)
    case _ => false
  }

  predicate StepIsBlind(step: Step) { forall i | 0 <= i < |step.matchers| :: !ReadsClient(step.matchers[i]) }

  predicate PluginIsBlind(p: Plugin) {
    match p
    case Sequence(steps) => forall i | 0 <= i < |steps| :: StepIsBlind(steps[i])
    case EcsStep(cfg) => !cfg.auto
    case _ => true
  }

  /** No plugin in `area` reads the client's address, and none calls a plugin outside. */
  ghost predicate BlindIn(reg: Registry, area: set<Tag>) {
    forall t | t in area && t in reg.plugins ::
      PluginIsBlind(reg.plugins[t]) && forall u | u in Calls(reg.plugins[t]) :: u in area
  }

  /** The steps from `i` on do not read the client, nor does what they call. */
  ghost predicate BlindFrom(reg: Registry, area: set<Tag>, steps: seq<Step>, i: nat) {
    BlindIn(reg, area) && forall j | i <= j < |steps| ::
      StepIsBlind(steps[j]) && (StepTarget(steps[j]).Some? ==> StepTarget(steps[j]).value in area)
  }

  lemma BlindSequence(reg: Registry, area: set<Tag>, tag: Tag)
    requires BlindIn(reg, area) && tag in area && tag in reg.plugins && reg.plugins[tag].Sequence?
    ensures BlindFrom(reg, area, reg.plugins[tag].steps, 0)
  {
    var steps := reg.plugins[tag].steps;
    forall j | 0 <= j < |steps| ensures StepIsBlind(steps[j]) && (StepTarget(steps[j]).Some? ==> StepTarget(steps[j]).value in area) {
      StepCallsInclude(steps, j);
    }
  }

  // ---------- Queries ----------

  /** What steps read of a query. */
  lemma QueryFacts(k: Likeness, a: Message, b: Message)
    requires SameQuery(k, a, b)
    ensures |a.questions| == |b.questions| && IsSimple(a) == IsSimple(b)
    ensures forall i | 0 <= i < |a.questions| ::
              && NameAs(k, a.questions[i].name, b.questions[i].name)
              && a.questions[i].qtype == b.questions[i].qtype && a.questions[i].qclass == b.questions[i].qclass
    ensures a.opcode == b.opcode && a.recursionDesired == b.recursionDesired && a.checkingDisabled == b.checkingDisabled
    ensures a.edns.Some? <==> b.edns.Some?
    ensures a.edns.Some? ==> a.edns.value.dnssecOk == b.edns.value.dnssecOk && a.edns.value.version == b.edns.value.version
    ensures SameOptions(a.edns, b.edns)
    ensures EcsOf(a) == EcsOf(b) && CacheableEdns(a) == CacheableEdns(b)
  {
    if a != b && a.(id := 0) == b.(id := 0) {
      var x, y := a.(id := 0), b.(id := 0);
      assert x.questions == a.questions && y.questions == b.questions && x.edns == a.edns && y.edns == b.edns;
      assert x.answers == a.answers && y.answers == b.answers;
      assert x.nameServers == a.nameServers && y.nameServers == b.nameServers;
      assert x.additionals == a.additionals && y.additionals == b.additionals;
      assert x.opcode == a.opcode && y.opcode == b.opcode;
    }
  }

  /** Twins ask caches for one key. */
  lemma SameQuerySameKey(k: Likeness, a: Message, b: Message, everything: bool, encodes: Encoder)
    requires SameQuery(k, a, b)
    ensures KeyOf(a, everything, encodes) == KeyOf(b, everything, encodes)
  {
    QueryFacts(k, a, b);
    if a != b && a.(id := 0) == b.(id := 0) {
      var x, y := a.(id := 0), b.(id := 0);
      assert x.questions == a.questions && y.questions == b.questions && x.edns == a.edns && y.edns == b.edns;
      assert x.authenticData == a.authenticData && y.authenticData == b.authenticData;
    }
  }

  /** Printed names end in the one dot of an absolute name. */
  predicate ProperName(n: Name) { n.fqdn && (n.text == "" || n.text[|n.text| - 1] != '.') }

  lemma ProperText(n: Name)
    requires ProperName(n)
    ensures NormalName(n) == Lower(n.text)
  {
    var s := ToAscii(n);
    assert s[|s| - 1] == '.' && s[..|s| - 1] == n.text;
    assert TrimDots(s) == TrimDots(n.text) == n.text;
  }

  /** At most one subnet, with the scope that RFC 7871, section 6, prescribes for queries. */
  predicate ProperSubnet(q: Message) {
    q.edns.Some? ==>
      || q.edns.value.options == []
      || (|q.edns.value.options| == 1 && (q.edns.value.options[0].Subnet? ==> q.edns.value.options[0].cs.scopePrefix == 0))
  }

  lemma ProperOptions(a: Message, b: Message)
    requires ProperSubnet(a) && ProperSubnet(b) && CacheableEdns(a) && CacheableEdns(b)
    requires SubnetOf(a) == SubnetOf(b) && EdnsModeOf(a) == EdnsModeOf(b)
    ensures SameOptions(a.edns, b.edns)
  {
    if a.edns.Some? {
      var o, p := a.edns.value.options, b.edns.value.options;
      assert o != [] ==> o[0] in o && o == [o[0]];
      assert p != [] ==> p[0] in p && p == [p[0]];
    }
  }

  /** Conversely, two clients' simple queries with one key are alike when case is folded, and without if
      their names are spelled alike. */
  lemma OneKeyIsAlike(fold: bool, a: Message, b: Message, everything: bool, encodes: Encoder)
    requires IsSimple(a) && IsSimple(b) && a.opcode == b.opcode
    requires ProperName(a.questions[0].name) && ProperName(b.questions[0].name)
    requires ProperSubnet(a) && ProperSubnet(b)
    requires fold || a.questions[0].name == b.questions[0].name
    requires KeyOf(a, everything, encodes).Some? && KeyOf(a, everything, encodes) == KeyOf(b, everything, encodes)
    ensures SameQuery(Alike(fold), a, b)
  {
    ProperText(a.questions[0].name);
    ProperText(b.questions[0].name);
    ProperOptions(a, b);
  }

  function Renamed(q: Message, name: Name): Message
    requires q.questions != []
  {
    q.(questions := q.questions[0 := q.questions[0].(name := name)])
  }

  lemma RenamedOneKey(k: Likeness, a: Message, b: Message, name: Name)
    requires OneKey(k, a, b)
    ensures OneKey(k, Renamed(a, name), Renamed(b, name))
  {
    assert EcsOf(Renamed(a, name)) == EcsOf(a) && EcsOf(Renamed(b, name)) == EcsOf(b);
  }

  lemma RenamedTwin(k: Likeness, a: Message, b: Message, name: Name)
    requires SameQuery(k, a, b) && a.questions != []
    ensures b.questions != [] && SameQuery(k, Renamed(a, name), Renamed(b, name))
  {
    QueryFacts(k, a, b);
    var x, y := Renamed(a, name), Renamed(b, name);
    if OneKey(k, a, b) {
      RenamedOneKey(k, a, b, name);
    } else {
      hide OneKey;
      assert a.(id := 0).questions == b.(id := 0).questions;
      assert x.(id := 0) == a.(id := 0).(questions := x.questions) && y.(id := 0) == b.(id := 0).(questions := y.questions);
    }
  }

  lemma SubnetChangeKeepsOptions(a: Message, b: Message, cs: ClientSubnet)
    requires SameOptions(a.edns, b.edns)
    ensures SameOptions(SetEcs(a, cs).edns, SetEcs(b, cs).edns) && SameOptions(RemoveEcs(a).edns, RemoveEcs(b).edns)
  {
    hide WithoutSubnet, EcsOf;
  }

  /** EDNS of like queries after a change that decides their subnet. */
  lemma EdnsChangeTwin(k: Likeness, a: Message, b: Message, x: Message, y: Message)
    requires SameQuery(k, a, b) && x == a.(edns := x.edns) && y == b.(edns := y.edns)
    requires (a == b ==> x == y) && (a.(id := 0) == b.(id := 0) ==> x.edns == y.edns)
    requires SubnetOf(x) == SubnetOf(y) && EdnsModeOf(x) == EdnsModeOf(y) && SameOptions(x.edns, y.edns)
    ensures SameQuery(k, x, y)
  {
    if a != b && a.(id := 0) == b.(id := 0) {
      assert x.(id := 0) == a.(id := 0).(edns := x.edns) && y.(id := 0) == b.(id := 0).(edns := y.edns);
    }
  }

  lemma SetEcsMode(q: Message, cs: ClientSubnet)
    ensures EdnsModeOf(SetEcs(q, cs)) == if q.edns.Some? then EdnsModeOf(q) else Some((0, false))
    ensures EdnsModeOf(RemoveEcs(q)) == EdnsModeOf(q)
    ensures SubnetOf(SetEcs(q, cs)) == Some((cs.addr, cs.sourcePrefix)) && SubnetOf(RemoveEcs(q)) == None
  {
  }

  lemma SameEdnsSameChange(a: Message, b: Message, cs: ClientSubnet)
    requires a.(id := 0) == b.(id := 0)
    ensures SetEcs(a, cs).edns == SetEcs(b, cs).edns && RemoveEcs(a).edns == RemoveEcs(b).edns
  {
    assert a.(id := 0).edns == b.(id := 0).edns;
  }

  lemma SetEcsTwin(k: Likeness, a: Message, b: Message, cs: ClientSubnet)
    requires SameQuery(k, a, b)
    ensures SameQuery(k, SetEcs(a, cs), SetEcs(b, cs))
  {
    QueryFacts(k, a, b);
    SubnetChangeKeepsOptions(a, b, cs);
    SetEcsMode(a, cs);
    SetEcsMode(b, cs);
    if a.(id := 0) == b.(id := 0) { SameEdnsSameChange(a, b, cs); }
    ModeOfTwins(a, b);
    hide SameQuery, SameOptions, SetEcs, RemoveEcs, CacheableEdns, EcsOf, SubnetOf, EdnsModeOf;
    EdnsChangeTwin(k, a, b, SetEcs(a, cs), SetEcs(b, cs));
  }

  lemma RemoveEcsTwin(k: Likeness, a: Message, b: Message)
    requires SameQuery(k, a, b)
    ensures SameQuery(k, RemoveEcs(a), RemoveEcs(b))
  {
    var cs := ClientSubnet(V4(0), 0, 0);
    QueryFacts(k, a, b);
    SubnetChangeKeepsOptions(a, b, cs);
    SetEcsMode(a, cs);
    SetEcsMode(b, cs);
    if a.(id := 0) == b.(id := 0) { SameEdnsSameChange(a, b, cs); }
    ModeOfTwins(a, b);
    hide SameQuery, SameOptions, SetEcs, RemoveEcs, CacheableEdns, EcsOf, SubnetOf, EdnsModeOf;
    EdnsChangeTwin(k, a, b, RemoveEcs(a), RemoveEcs(b));
  }

  lemma ModeOfTwins(a: Message, b: Message)
    requires a.edns.Some? <==> b.edns.Some?
    requires a.edns.Some? ==> a.edns.value.dnssecOk == b.edns.value.dnssecOk && a.edns.value.version == b.edns.value.version
    ensures EdnsModeOf(a) == EdnsModeOf(b)
  {
  }

  // ---------- Replies ----------

  /** What of `m` no binding changes, with each record changed. */
  function WithRecords(m: Message, answers: seq<Record>, nameServers: seq<Record>): Message {
    m.(answers := answers, nameServers := nameServers)
  }

  lemma RebindFolds(k: Likeness, m: Message, q: Message)
    ensures Fold(k, Rebind(m, q)) == Rebind(Fold(k, m), q)
  {
    hide FoldRecords;
  }

  lemma RebindOfCore(m: Message, q: Message)
    ensures Rebind(m, q) == Rebind(Core(m), q).(edns := RebindEdns(m.edns, q.edns))
  {
  }

  /** Binding like replies to one query leaves at most the case of names. */
  lemma RebindLike(k: Likeness, a: Message, b: Message, q: Message)
    requires SameReply(k, Some(a), Some(b))
    ensures Fold(k, Rebind(a, q)) == Fold(k, Rebind(b, q)) && Rebind(a, q).edns == Rebind(b, q).edns
  {
    RebindFolds(k, a, q);
    RebindFolds(k, b, q);
    RebindOfCore(Fold(k, a), q);
    RebindOfCore(Fold(k, b), q);
    assert Fold(k, a).edns == a.edns && Fold(k, b).edns == b.edns;
    assert a != b ==> SameOptions(a.edns, b.edns);
    assert RebindEdns(a.edns, q.edns) == RebindEdns(b.edns, q.edns);
    assert Rebind(a, q).edns == RebindEdns(a.edns, q.edns) && Rebind(b, q).edns == RebindEdns(b.edns, q.edns);
    hide Fold, Core, Rebind, RebindEdns, SameOptions;
  }

  lemma CoreReads(k: Likeness, m: Message)
    ensures var c := Core(Fold(k, m));
            && c.answers == (if k.Alike? && k.fold then FoldRecords(m.answers) else m.answers)
            && c.nameServers == (if k.Alike? && k.fold then FoldRecords(m.nameServers) else m.nameServers)
            && c.rcode == m.rcode
  {
    hide FoldRecords;
  }

  /** What steps read of a reply. */
  lemma ReplyFacts(k: Likeness, a: Message, b: Message)
    requires SameReply(k, Some(a), Some(b))
    ensures FoldRecords(a.answers) == FoldRecords(b.answers) && FoldRecords(a.nameServers) == FoldRecords(b.nameServers)
    ensures a.rcode == b.rcode
    ensures k.Alike? ==> SameMessage(k, a, b)
  {
    if a == b {
      assert SameMessage(k, a, b);
    } else {
      CoreReads(k, a);
      CoreReads(k, b);
      hide Core, Fold, FoldRecords;
      assert Core(Fold(k, a)) == Core(Fold(k, b));
    }
  }

  lemma ResponseCore(k: Likeness, m: Message, id: u16)
    ensures Core(Fold(k, m.(id := id, kind := Response))) == Core(Fold(k, m)).(kind := Response)
  {
    ResponseFolds(k, m, id);
    hide Fold;
  }

  lemma ResponseFolds(k: Likeness, m: Message, id: u16)
    ensures Fold(k, m.(id := id, kind := Response)) == Fold(k, m).(id := id, kind := Response)
  {
    hide FoldRecords;
    if k.Alike? && k.fold {
      var x, y := FoldRecords(m.answers), FoldRecords(m.nameServers);
      assert Fold(k, m) == m.(answers := x, nameServers := y, additionals := FoldRecords(m.additionals));
    } else {
      assert Fold(k, m) == m;
    }
  }

  lemma SetResponseTwin(k: Likeness, c: Ctx, d: Ctx, n: nat, m: nat, a: Message, b: Message)
    requires Twin(k, c, d, n, m) && SameReply(k, Some(a), Some(b))
    ensures Twin(k, SetResponse(c, a), SetResponse(d, b), n, m)
  {
    var x, y := a.(id := c.query.id, kind := Response), b.(id := d.query.id, kind := Response);
    if k.Alike? {
      ReplyFacts(k, a, b);
      ResponseCore(k, a, c.query.id);
      ResponseCore(k, b, d.query.id);
      hide Core, Fold, SameQuery, SameLinks, SameOptions;
      assert SameMessage(k, x, y);
    }
    hide SameMessage, SameQuery, SameLinks;
  }

  lemma SkeletonTwin(k: Likeness, a: Message, b: Message, rcode: nat)
    requires SameQuery(k, a, b)
    ensures SameReply(k, Some(ReplySkeleton(a, rcode)), Some(ReplySkeleton(b, rcode)))
  {
    QueryFacts(k, a, b);
    var x, y := ReplySkeleton(a, rcode), ReplySkeleton(b, rcode);
    assert Core(Fold(k, x)) == Core(Fold(k, y));
  }

  /** Messages bound to two queries that agree on what is bound. */
  lemma RebindCore(k: Likeness, m: Message, a: Message, b: Message)
    requires a.opcode == b.opcode && a.recursionDesired == b.recursionDesired && a.checkingDisabled == b.checkingDisabled
    ensures Core(Fold(k, Rebind(m, a))) == Core(Fold(k, Rebind(m, b)))
  {
    hide FoldRecords;
  }

  lemma HitTwin(k: Likeness, a: Message, b: Message, m: Message)
    requires SameQuery(k, a, b)
    ensures SameReply(k, Some(Rebind(m, a)), Some(Rebind(m, b)))
  {
    QueryFacts(k, a, b);
    RebindCore(k, m, a, b);
    assert SameOptions(Rebind(m, a).edns, Rebind(m, b).edns);
    hide Core, Fold, Rebind, SameOptions;
  }

  lemma FoldClamped(rs: seq<Record>, lo: u32, hi: u32)
    requires lo <= hi
    ensures FoldRecords(ClampedRecords(rs, lo, hi)) == ClampedRecords(FoldRecords(rs), lo, hi)
  {
  }

  lemma {:induction false} FoldWithoutType(rs: seq<Record>, code: u16)
    ensures FoldRecords(WithoutType(rs, code)) == WithoutType(FoldRecords(rs), code)
  {
    if rs != [] {
      FoldWithoutType(rs[1..], code);
      assert FoldRecords(rs)[1..] == FoldRecords(rs[1..]) && FoldRecords(rs)[0] == FoldRecord(rs[0]);
      assert FoldRecord(rs[0]).Type() == rs[0].Type();
      var x := WithoutType(rs[1..], code);
      assert FoldRecords([rs[0]] + x) == [FoldRecord(rs[0])] + FoldRecords(x);
    }
  }

  /** Records that are alike after folding where the originals were keep replies alike. */
  lemma RecordsTwin(
    k: Likeness, a: Message, b: Message, x: seq<Record>, x': seq<Record>, y: seq<Record>, y': seq<Record>)
    requires SameReply(k, Some(a), Some(b))
    requires a == b ==> x == y && x' == y'
    requires if k.Alike? && k.fold then FoldRecords(x) == FoldRecords(y) && FoldRecords(x') == FoldRecords(y') else x == y && x' == y'
    ensures SameReply(k, Some(WithRecords(a, x, x')), Some(WithRecords(b, y, y')))
  {
    hide FoldRecords;
    var c, d := WithRecords(a, x, x'), WithRecords(b, y, y');
    if a != b {
      assert Core(Fold(k, c)) == WithRecords(Core(Fold(k, a)), Fold(k, c).answers, Fold(k, c).nameServers);
      assert Core(Fold(k, d)) == WithRecords(Core(Fold(k, b)), Fold(k, d).answers, Fold(k, d).nameServers);
    }
  }

  lemma UnfoldedRecords(k: Likeness, a: Message, b: Message)
    requires SameReply(k, Some(a), Some(b)) && !(k.Alike? && k.fold)
    ensures a.answers == b.answers && a.nameServers == b.nameServers
  {
    assert Core(a).answers == a.answers && Core(b).answers == b.answers;
    assert Core(a).nameServers == a.nameServers && Core(b).nameServers == b.nameServers;
  }

  lemma ClampTwin(k: Likeness, c: Ctx, d: Ctx, n: nat, m: nat, lo: u32, hi: u32)
    requires Twin(k, c, d, n, m) && lo <= hi
    ensures Twin(k, ClampTtl(c, lo, hi), ClampTtl(d, lo, hi), n, m)
  {
    if c.response.Some? {
      var a, b := c.response.value, d.response.value;
      ReplyFacts(k, a, b);
      if !(k.Alike? && k.fold) { UnfoldedRecords(k, a, b); }
      FoldClamped(a.answers, lo, hi);
      FoldClamped(b.answers, lo, hi);
      FoldClamped(a.nameServers, lo, hi);
      FoldClamped(b.nameServers, lo, hi);
      hide SameReply, SameQuery, SameLinks, ClampedRecords, FoldRecords;
      RecordsTwin(k, a, b, ClampedRecords(a.answers, lo, hi), ClampedRecords(a.nameServers, lo, hi),
                  ClampedRecords(b.answers, lo, hi), ClampedRecords(b.nameServers, lo, hi));
    }
  }

  lemma FilterTwin(k: Likeness, c: Ctx, d: Ctx, n: nat, m: nat, code: u16)
    requires Twin(k, c, d, n, m)
    ensures Twin(k, FilterAnswers(c, code), FilterAnswers(d, code), n, m)
  {
    if c.response.Some? {
      var a, b := c.response.value, d.response.value;
      ReplyFacts(k, a, b);
      if !(k.Alike? && k.fold) { UnfoldedRecords(k, a, b); }
      FoldWithoutType(a.answers, code);
      FoldWithoutType(b.answers, code);
      hide SameReply, SameQuery, SameLinks, WithoutType, FoldRecords;
      RecordsTwin(k, a, b, WithoutType(a.answers, code), a.nameServers, WithoutType(b.answers, code), b.nameServers);
    }
  }

  /** Records that fold alike have the same types, TTLs and addresses. */
  lemma FoldedReads(a: seq<Record>, b: seq<Record>)
    requires FoldRecords(a) == FoldRecords(b)
    ensures |a| == |b|
    ensures forall i | 0 <= i < |a| :: FoldRecord(a[i]) == FoldRecord(b[i])
    ensures forall i | 0 <= i < |a| :: a[i].Type() == b[i].Type() && a[i].ttl == b[i].ttl
    ensures forall i | 0 <= i < |a| :: (a[i].data.A? || a[i].data.AAAA? || b[i].data.A? || b[i].data.AAAA?) ==> a[i].data == b[i].data
  {
    assert |FoldRecords(a)| == |a| && |FoldRecords(b)| == |b|;
    forall i | 0 <= i < |a| ensures FoldRecord(a[i]) == FoldRecord(b[i]) {
      assert FoldRecords(a)[i] == FoldRecord(a[i]) && FoldRecords(b)[i] == FoldRecord(b[i]);
    }
  }

  lemma FoldedWithin(a: seq<Record>, b: seq<Record>, nets: IpAddr -> bool)
    requires FoldRecords(a) == FoldRecords(b)
    ensures AnswersWithin(a, nets) ==> AnswersWithin(b, nets)
  {
    FoldedReads(a, b);
    if AnswersWithin(a, nets) {
      var r :| r in a && match r.data case A(ip) => nets(ip) case AAAA(ip) => nets(ip) case _ => false;
      var i :| 0 <= i < |a| && a[i] == r;
      assert b[i] in b && b[i].data == r.data;
    }
  }

  // ---------- Single updates ----------

  lemma LinksAppend(k: Likeness, s: seq<Link>, t: seq<Link>, a: Link, b: Link)
    requires SameLinks(k, s, t) && NameAs(k, a.0, b.0) && a.1 == b.1
    ensures SameLinks(k, s + [a], t + [b])
  {
  }

  lemma RewriteTwin(k: Likeness, c: Ctx, d: Ctx, n: nat, m: nat, target: Name)
    requires Twin(k, c, d, n, m)
    ensures Twin(k, RewriteName(c, target), RewriteName(d, target), n, m)
  {
    QueryFacts(k, c.query, d.query);
    if c.query.questions != [] {
      var a, b := c.query.questions[0].name, d.query.questions[0].name;
      var name := target.(fqdn := true);
      assert SameName(a, name) == SameName(b, name);
      RenamedTwin(k, c.query, d.query, name);
      LinksAppend(k, c.rewrites[n..], d.rewrites[m..], (a, name), (b, name));
      assert (c.rewrites + [(a, name)])[n..] == c.rewrites[n..] + [(a, name)];
      assert (d.rewrites + [(b, name)])[m..] == d.rewrites[m..] + [(b, name)];
      hide SameReply, SameQuery, SameLinks;
    }
  }

  lemma QueryTwin(k: Likeness, c: Ctx, d: Ctx, n: nat, m: nat, a: Message, b: Message, strip: bool)
    requires Twin(k, c, d, n, m) && SameQuery(k, a, b)
    ensures Twin(k, c.(query := a, stripEcs := strip), d.(query := b, stripEcs := strip), n, m)
  {
    hide SameQuery, SameReply, SameLinks;
  }

  lemma AttachTwin(k: Likeness, c: Ctx, d: Ctx, n: nat, m: nat, cs: ClientSubnet)
    requires Twin(k, c, d, n, m)
    ensures Twin(k, Apply(c, AttachEcs(cs)), Apply(d, AttachEcs(cs)), n, m)
  {
    QueryFacts(k, c.query, d.query);
    SetEcsTwin(k, c.query, d.query, cs);
    hide SetEcs, EcsOf, SameQuery, SameReply, SameLinks;
    QueryTwin(k, c, d, n, m, SetEcs(c.query, cs), SetEcs(d.query, cs), c.stripEcs || EcsOf(c.query).None?);
  }

  lemma StripTwin(k: Likeness, c: Ctx, d: Ctx, n: nat, m: nat)
    requires Twin(k, c, d, n, m)
    ensures Twin(k, Apply(c, StripEcs), Apply(d, StripEcs), n, m)
  {
    RemoveEcsTwin(k, c.query, d.query);
    hide RemoveEcs, SetEcs, SameQuery, SameReply, SameLinks;
    QueryTwin(k, c, d, n, m, RemoveEcs(c.query), RemoveEcs(d.query), true);
  }

  lemma ServeTwin(k: Likeness, c: Ctx, d: Ctx, n: nat, m: nat, msg: Message)
    requires Twin(k, c, d, n, m)
    ensures Twin(k, Apply(c, ServeHit(msg)), Apply(d, ServeHit(msg)), n, m)
  {
    HitTwin(k, c.query, d.query, msg);
    SetResponseTwin(k, c, d, n, m, Rebind(msg, c.query), Rebind(msg, d.query));
    hide SameQuery, SameReply, SameLinks, Rebind, SetResponse;
  }

  lemma RejectTwin(k: Likeness, c: Ctx, d: Ctx, n: nat, m: nat, rcode: nat)
    requires Twin(k, c, d, n, m)
    ensures Twin(k, Reject(c, rcode), Reject(d, rcode), n, m)
  {
    SkeletonTwin(k, c.query, d.query, rcode);
    SetResponseTwin(k, c, d, n, m, ReplySkeleton(c.query, rcode), ReplySkeleton(d.query, rcode));
    hide Twin;
  }

  /** Every update keeps twins twins. */
  lemma ApplyTwin(k: Likeness, c: Ctx, d: Ctx, n: nat, m: nat, op: Op)
    requires Twin(k, c, d, n, m)
    ensures Twin(k, Apply(c, op), Apply(d, op), n, m)
  {
    match op
    case Answer(msg) =>
      SetResponseTwin(k, c, d, n, m, msg, msg);
    case RejectWith(rcode) =>
      hide Twin;
      RejectTwin(k, c, d, n, m, rcode);
    case ClampBy(lo, hi) =>
      hide Twin;
      if lo <= hi { ClampTwin(k, c, d, n, m, lo, hi); }
    case DropType(code) =>
      hide Twin;
      FilterTwin(k, c, d, n, m, code);
    case RewriteTo(target) =>
      hide Twin;
      RewriteTwin(k, c, d, n, m, target);
    case AttachEcs(cs) =>
      hide Twin;
      AttachTwin(k, c, d, n, m, cs);
    case StripEcs =>
      hide Twin;
      StripTwin(k, c, d, n, m);
    case ServeHit(msg) =>
      hide Twin;
      ServeTwin(k, c, d, n, m, msg);
    case _ =>
      hide SameQuery, SameLinks;
  }

  // ---------- Matchers and single steps ----------

  lemma QNameTwin(k: Likeness, c: Ctx, d: Ctx)
    requires SameQuery(k, c.query, d.query)
    ensures DomainText(QNameStr(c)) == DomainText(QNameStr(d)) && RedirectName(c) == RedirectName(d) && QType(c) == QType(d)
  {
    QueryFacts(k, c.query, d.query);
    if c.query.questions != [] && c.query.questions[0].name != d.query.questions[0].name {
      CaseIsIgnored(c.query.questions[0].name, d.query.questions[0].name);
    }
  }

  lemma {:induction false} MatchesTwin(k: Likeness, q: Matcher, c: Ctx, d: Ctx, n: nat, m: nat)
    requires Twin(k, c, d, n, m) && (c.client == d.client || !ReadsClient(q))
    ensures Matches(q, c) == Matches(q, d)
  {
    if q.Neg? {
      MatchesTwin(k, q.inner, c, d, n, m);
    } else {
      QNameTwin(k, c, d);
      QueryFacts(k, c.query, d.query);
      if c.response.Some? {
        ReplyFacts(k, c.response.value, d.response.value);
        if q.RespIp? {
          FoldedWithin(c.response.value.answers, d.response.value.answers, q.nets);
          FoldedWithin(d.response.value.answers, c.response.value.answers, q.nets);
        }
      }
      WantedTwin(k, c, d, n, m);
      hide SameQuery, SameReply, SameLinks, DomainText, QNameStr, EcsOf, HasWantedAns, AnswersWithin, FoldRecords;
    }
  }

  lemma MatchesAllTwin(k: Likeness, ms: seq<Matcher>, c: Ctx, d: Ctx, n: nat, m: nat)
    requires Twin(k, c, d, n, m)
    requires c.client == d.client || forall i | 0 <= i < |ms| :: !ReadsClient(ms[i])
    ensures MatchesAll(ms, c) == MatchesAll(ms, d)
  {
    forall i | 0 <= i < |ms| ensures Matches(ms[i], c) == Matches(ms[i], d) {
      MatchesTwin(k, ms[i], c, d, n, m);
    }
  }

  lemma WantedOf(c: Ctx, d: Ctx)
    requires c.response.Some? && d.response.Some? && QType(c) == QType(d)
    requires c.response.value.rcode == d.response.value.rcode
    requires FoldRecords(c.response.value.answers) == FoldRecords(d.response.value.answers)
    ensures HasWantedAns(c) ==> HasWantedAns(d)
  {
    var a, b := c.response.value.answers, d.response.value.answers;
    FoldedReads(a, b);
    if HasWantedAns(c) {
      var r :| r in a && r.Type() == QType(c);
      var i :| 0 <= i < |a| && a[i] == r;
      assert b[i] in b && b[i].Type() == QType(d);
    }
  }

  lemma WantedTwin(k: Likeness, c: Ctx, d: Ctx, n: nat, m: nat)
    requires Twin(k, c, d, n, m)
    ensures HasWantedAns(c) == HasWantedAns(d)
  {
    QNameTwin(k, c, d);
    if c.response.Some? {
      ReplyFacts(k, c.response.value, d.response.value);
      WantedOf(c, d);
      WantedOf(d, c);
    }
    hide SameQuery, SameReply, SameLinks;
  }

  lemma {:induction false} RedirectedTwin(k: Likeness, rules: seq<Rule>, qname: string, c: Ctx, d: Ctx, n: nat, m: nat)
    requires Twin(k, c, d, n, m)
    ensures Twin(k, Redirected(rules, qname, c), Redirected(rules, qname, d), n, m)
  {
    hide Twin, Apply;
    if rules != [] {
      if RuleApplies(rules[0], qname) {
        ApplyTwin(k, c, d, n, m, RewriteTo(rules[0].1));
      } else {
        RedirectedTwin(k, rules[1..], qname, c, d, n, m);
      }
    }
  }

  lemma BuiltinTwin(k: Likeness, b: Builtin, c: Ctx, d: Ctx, n: nat, m: nat)
    requires Twin(k, c, d, n, m)
    ensures Twin(k, AfterBuiltin(b, c), AfterBuiltin(b, d), n, m)
  {
    hide Twin, Apply;
    match b
    case DoReject(rcode) => ApplyTwin(k, c, d, n, m, RejectWith(rcode));
    case DropResp => ApplyTwin(k, c, d, n, m, DropAnswer);
    case Ttl(lo, hi) => ApplyTwin(k, c, d, n, m, ClampBy(lo, hi));
    case PreferV4 => ApplyTwin(k, c, d, n, m, DropType(AAAA_CODE));
    case PreferV6 => ApplyTwin(k, c, d, n, m, DropType(A_CODE));
    case DoMark(mark) => ApplyTwin(k, c, d, n, m, SetMark(mark));
    case NoEcs => ApplyTwin(k, c, d, n, m, StripEcs);
    case _ =>
  }

  lemma EcsTwin(k: Likeness, cfg: EcsConfig, c: Ctx, d: Ctx, n: nat, m: nat)
    requires Twin(k, c, d, n, m) && (c.client == d.client || !cfg.auto)
    ensures Twin(k, AfterEcs(cfg, c), AfterEcs(cfg, d), n, m)
  {
    QNameTwin(k, c, d);
    QueryFacts(k, c.query, d.query);
    assert Pick(cfg, c) == Pick(cfg, d);
    hide Twin, Apply, Pick, EcsOf, SameQuery;
    if Pick(cfg, c).Some? {
      var pick := Pick(cfg, c).value;
      var net := Masked(pick.0, pick.1);
      ApplyTwin(k, c, d, n, m, AttachEcs(ClientSubnet(net.0, net.1, 0)));
    }
  }

  lemma ForkTwin(k: Likeness, c: Ctx, d: Ctx, n: nat, m: nat)
    requires Twin(k, c, d, n, m)
    ensures Twin(k, Fork(c), Fork(d), n, m)
  {
    hide SameQuery, SameLinks;
  }

  lemma AbsorbTwin(k: Likeness, c: Ctx, d: Ctx, x: Ctx, y: Ctx, n: nat, m: nat)
    requires Twin(k, x, y, n, m)
    ensures Twin(k, Absorb(c, x), Absorb(d, y), n, m)
  {
    hide SameQuery, SameReply, SameLinks;
  }

  // ---------- Whole runs ----------

  /** Both runs ended alike, in twin contexts, with the same ahead of them. */
  ghost predicate TwinEnds(k: Likeness, c: Ctx, d: Ctx, n: nat, m: nat, x: Res, y: Res) {
    && x.out == y.out
    && Twin(k, x.ctx, y.ctx, n, m)
    && x.ctx.skipCache == c.skipCache && y.ctx.skipCache == d.skipCache
    && x.ctx.client == c.client && y.ctx.client == d.client
    && SameSurroundings(x.w, c.skipCache, y.w, d.skipCache)
  }

  /** Two runs about to go on: twin contexts, the same ahead, and upstreams that treat them alike. */
  ghost predicate Abreast(k: Likeness, c: Ctx, d: Ctx, n: nat, m: nat, w: World, v: World) {
    Twin(k, c, d, n, m) && SameSurroundings(w, c.skipCache, v, d.skipCache) && Impartial(k, w.tape)
  }

  /** The clients are one, or no plugin reached from `tag` reads them. */
  ghost predicate Unseen(reg: Registry, area: set<Tag>, tag: Tag, c: Ctx, d: Ctx) {
    c.client == d.client || (BlindIn(reg, area) && tag in area)
  }

  ghost predicate RestUnseen(reg: Registry, area: set<Tag>, steps: seq<Step>, i: nat, c: Ctx, d: Ctx) {
    c.client == d.client || BlindFrom(reg, area, steps, i)
  }

  /** The step's target is unseen if the rest of the sequence is. */
  lemma TargetUnseen(reg: Registry, area: set<Tag>, steps: seq<Step>, i: nat, c: Ctx, d: Ctx)
    requires RestUnseen(reg, area, steps, i, c, d) && i < |steps|
    ensures c.client == d.client || forall j | 0 <= j < |steps[i].matchers| :: !ReadsClient(steps[i].matchers[j])
    ensures StepTarget(steps[i]).Some? ==> Unseen(reg, area, StepTarget(steps[i]).value, c, d)
    ensures RestUnseen(reg, area, steps, i + 1, c, d)
  {
    if c.client != d.client { assert StepIsBlind(steps[i]); }
  }

  lemma ApplyClient(c: Ctx, op: Op)
    ensures Apply(c, op).client == c.client && Apply(c, op).skipCache == c.skipCache
  {
    ApplyFrame(c, op);
  }

  lemma UpdateTwin(k: Likeness, c: Ctx, d: Ctx, n: nat, m: nat, op: Op)
    requires Twin(k, c, d, n, m)
    ensures Twin(k, Apply(c, op), Apply(d, op), n, m)
    ensures Apply(c, op).skipCache == c.skipCache && Apply(d, op).skipCache == d.skipCache
    ensures Apply(c, op).client == c.client && Apply(d, op).client == d.client
  {
    hide Twin, Apply;
    ApplyTwin(k, c, d, n, m, op);
    ApplyClient(c, op);
    ApplyClient(d, op);
  }

  lemma CacheTwin(
    k: Likeness, reg: Registry, tag: Tag, everything: bool, c: Ctx, d: Ctx, n: nat, m: nat, a: Choice, b: Choice, w: World,
    v: World)
    requires Twin(k, c, d, n, m) && SameChoice(a, c.skipCache, b, d.skipCache)
    requires SameSurroundings(w, c.skipCache, v, d.skipCache)
    ensures TwinEnds(k, c, d, n, m, ExecCache(reg, tag, everything, c, a, w), ExecCache(reg, tag, everything, d, b, v))
  {
    SameQuerySameKey(k, c.query, d.query, everything, reg.encodes);
    hide Twin, KeyOf, Apply, SameSurroundings;
    var x, y := ExecCache(reg, tag, everything, c, a, w), ExecCache(reg, tag, everything, d, b, v);
    NoteSame(w, c.skipCache, v, d.skipCache, x.w, y.w);
    if a.hit.Some? && !c.skipCache {
      UpdateTwin(k, c, d, n, m, ServeHit(a.hit.value.msg));
    }
  }

  lemma {:induction false} RedirectedClient(rules: seq<Rule>, qname: string, c: Ctx)
    ensures Redirected(rules, qname, c).client == c.client
  {
    if rules != [] {
      RedirectedClient(rules[1..], qname, c);
    }
  }

  lemma RedirectStepTwin(k: Likeness, rules: seq<Rule>, c: Ctx, d: Ctx, n: nat, m: nat)
    requires Twin(k, c, d, n, m)
    ensures var x, y := Redirected(rules, RedirectName(c), c), Redirected(rules, RedirectName(d), d);
            && Twin(k, x, y, n, m) && x.skipCache == c.skipCache && y.skipCache == d.skipCache
            && x.client == c.client && y.client == d.client
  {
    QNameTwin(k, c, d);
    hide Twin, Apply;
    RedirectedTwin(k, rules, RedirectName(c), c, d, n, m);
    RedirectedFrame(rules, RedirectName(c), c);
    RedirectedFrame(rules, RedirectName(d), d);
    RedirectedClient(rules, RedirectName(c), c);
    RedirectedClient(rules, RedirectName(d), d);
  }

  lemma EcsClient(cfg: EcsConfig, c: Ctx)
    ensures AfterEcs(cfg, c).client == c.client
  {
  }

  lemma EcsStepTwin(k: Likeness, cfg: EcsConfig, c: Ctx, d: Ctx, n: nat, m: nat)
    requires Twin(k, c, d, n, m) && (c.client == d.client || !cfg.auto)
    ensures var x, y := AfterEcs(cfg, c), AfterEcs(cfg, d);
            && Twin(k, x, y, n, m) && x.skipCache == c.skipCache && y.skipCache == d.skipCache
            && x.client == c.client && y.client == d.client
  {
    hide Twin, AfterEcs;
    EcsTwin(k, cfg, c, d, n, m);
    EcsFrame(cfg, c);
    EcsFrame(cfg, d);
    EcsClient(cfg, c);
    EcsClient(cfg, d);
  }

  lemma BuiltinClient(b: Builtin, c: Ctx)
    ensures AfterBuiltin(b, c).client == c.client
  {
  }

  /** What an upstream makes of the context it is asked in. */
  function Answered(c: Ctx, reply: Option<Message>): Ctx {
    if reply.Some? then Apply(c, Answer(reply.value)) else c
  }

  lemma SourceTwin(k: Likeness, c: Ctx, d: Ctx, n: nat, m: nat, a: Choice, b: Choice, tape: nat -> Choice, pos: nat)
    requires Twin(k, c, d, n, m) && Impartial(k, tape) && a == tape(pos) && a.reply == b.reply
    ensures var x, y := Answered(c, a.reply(c.query)), Answered(d, b.reply(d.query));
            && Twin(k, x, y, n, m)
            && x.skipCache == c.skipCache && y.skipCache == d.skipCache && x.client == c.client && y.client == d.client
  {
    assert SameReply(k, tape(pos).reply(c.query), tape(pos).reply(d.query));
    if a.reply(c.query).Some? {
      SetResponseTwin(k, c, d, n, m, a.reply(c.query).value, b.reply(d.query).value);
    }
    hide Twin, SameReply;
  }

  predicate IsLeaf(p: Plugin) { !p.Sequence? && !p.Fallback? && !p.CacheStep? }

  /** What a leaf plugin makes of the context. */
  function AfterLeaf(p: Plugin, c: Ctx, ch: Choice): Ctx
    requires IsLeaf(p)
  {
    match p
    case RedirectStep(rules) => Redirected(rules, RedirectName(c), c)
    case EcsStep(cfg) => AfterEcs(cfg, c)
    case NoEcsStep => Apply(c, StripEcs)
    case Blackhole(rcode) => Apply(c, RejectWith(rcode))
    case Source => Answered(c, ch.reply(c.query))
  }

  lemma LeafRuns(reg: Registry, tag: Tag, c: Ctx, w: World, nest: nat, level: nat)
    requires Ranked(reg) && tag in reg.plugins && !Next(w).cancel && IsLeaf(reg.plugins[tag])
    ensures Exec(reg, tag, c, w, nest, level)
         == Res(Done(Continue), AfterLeaf(reg.plugins[tag], c, Next(w)), Note(Advance(w), Enter(tag, nest)))
  {
    hide Ranked, Apply, AfterEcs, Redirected;
  }

  lemma AfterLeafTwin(
    k: Likeness, p: Plugin, c: Ctx, d: Ctx, n: nat, m: nat, a: Choice, b: Choice, tape: nat -> Choice, pos: nat)
    requires IsLeaf(p) && Twin(k, c, d, n, m) && (c.client == d.client || PluginIsBlind(p))
    requires Impartial(k, tape) && a == tape(pos) && a.reply == b.reply
    ensures var x, y := AfterLeaf(p, c, a), AfterLeaf(p, d, b);
            && Twin(k, x, y, n, m)
            && x.skipCache == c.skipCache && y.skipCache == d.skipCache && x.client == c.client && y.client == d.client
  {
    hide Twin, Apply, AfterEcs, Redirected, Impartial, Answered;
    match p
    case RedirectStep(rules) => RedirectStepTwin(k, rules, c, d, n, m);
    case EcsStep(cfg) => EcsStepTwin(k, cfg, c, d, n, m);
    case NoEcsStep => UpdateTwin(k, c, d, n, m, StripEcs);
    case Blackhole(rcode) => UpdateTwin(k, c, d, n, m, RejectWith(rcode));
    case Source => SourceTwin(k, c, d, n, m, a, b, tape, pos);
  }

  lemma LeafTwin(
    k: Likeness, area: set<Tag>, reg: Registry, tag: Tag, c: Ctx, d: Ctx, n: nat, m: nat, w: World, v: World, nest: nat,
    level: nat, nest': nat, level': nat)
    requires Ranked(reg) && Abreast(k, c, d, n, m, w, v) && Unseen(reg, area, tag, c, d)
    requires tag in reg.plugins && !Next(w).cancel && IsLeaf(reg.plugins[tag])
    ensures TwinEnds(k, c, d, n, m, Exec(reg, tag, c, w, nest, level), Exec(reg, tag, d, v, nest', level'))
  {
    var w1, v1 := Note(Advance(w), Enter(tag, nest)), Note(Advance(v), Enter(tag, nest'));
    AdvanceSame(w, c.skipCache, v, d.skipCache);
    NoteSame(Advance(w), c.skipCache, Advance(v), d.skipCache, w1, v1);
    assert c.client == d.client || PluginIsBlind(reg.plugins[tag]);
    hide Twin, Ranked, SameSurroundings, Impartial, Unseen, BlindIn, PluginIsBlind, Exec, AfterLeaf;
    LeafRuns(reg, tag, c, w, nest, level);
    LeafRuns(reg, tag, d, v, nest', level');
    AfterLeafTwin(k, reg.plugins[tag], c, d, n, m, Next(w), Next(v), w.tape, w.pos);
  }

  /** Twins in the same surroundings run alike. */
  lemma {:induction false} ExecTwins(
    k: Likeness, area: set<Tag>, reg: Registry, tag: Tag, c: Ctx, d: Ctx, n: nat, m: nat, w: World, v: World, nest: nat,
    level: nat, nest': nat, level': nat)
    requires Ranked(reg) && Abreast(k, c, d, n, m, w, v) && Unseen(reg, area, tag, c, d)
    ensures TwinEnds(k, c, d, n, m, Exec(reg, tag, c, w, nest, level), Exec(reg, tag, d, v, nest', level'))
    decreases Depth(reg, tag), 1, 0
  {
    AdvanceSame(w, c.skipCache, v, d.skipCache);
    if tag in reg.plugins {
      var w1, v1 := Note(Advance(w), Enter(tag, nest)), Note(Advance(v), Enter(tag, nest'));
      NoteSame(Advance(w), c.skipCache, Advance(v), d.skipCache, w1, v1);
      if !Next(w).cancel {
        hide Ranked, Twin, RunSteps, ExecFallback, ExecCache, Apply, SameSurroundings, Impartial, BlindIn;
        match reg.plugins[tag]
        case Sequence(steps) =>
          if c.client != d.client { BlindSequence(reg, area, tag); }
          RunStepsTwins(k, area, reg, tag, tag, |w.log|, |v.log|, 0, 0, c, d, n, m, [], [], w1, v1, nest, level, nest', level');
        case Fallback(_, _, _) => FallbackTwins(k, area, reg, tag, tag, c, d, n, m, w1, v1, nest, level, nest', level');
        case CacheStep(everything) => CacheTwin(k, reg, tag, everything, c, d, n, m, Next(w), Next(v), w1, v1);
        case _ => LeafTwin(k, area, reg, tag, c, d, n, m, w, v, nest, level, nest', level');
      }
    }
  }

  /** The same from any step on, also of two sequences whose remaining steps are equal. */
  lemma {:induction false} RunStepsTwins(
    k: Likeness, area: set<Tag>, reg: Registry, tag: Tag, tag': Tag, run: nat, run': nat, i: nat, i': nat, c: Ctx, d: Ctx,
    n: nat, m: nat, writes: seq<Write>, writes': seq<Write>, w: World, v: World, nest: nat, level: nat, nest': nat,
    level': nat)
    requires Ranked(reg) && Abreast(k, c, d, n, m, w, v)
    requires tag in reg.plugins && reg.plugins[tag].Sequence? && i <= |reg.plugins[tag].steps|
    requires tag' in reg.plugins && reg.plugins[tag'].Sequence? && i' <= |reg.plugins[tag'].steps|
    requires reg.plugins[tag].steps[i..] == reg.plugins[tag'].steps[i'..]
    requires RestUnseen(reg, area, reg.plugins[tag].steps, i, c, d)
    ensures TwinEnds(k, c, d, n, m, RunSteps(reg, tag, run, i, c, writes, w, nest, level),
                     RunSteps(reg, tag', run', i', d, writes', v, nest', level'))
    decreases Depth(reg, tag), 0, 2 * (|reg.plugins[tag].steps| - i) + 2
  {
    hide Ranked, Calls, Twin, Exec, SameSurroundings, Impartial, RestUnseen, Unseen, StoreEvents, MatchesAll;
    var steps, steps' := reg.plugins[tag].steps, reg.plugins[tag'].steps;
    if i == |steps| {
      EndTwins(k, reg, c, d, n, m, run, run', Continue, writes, writes', w, v);
    } else {
      SameNextStep(steps, i, steps', i');
      TargetUnseen(reg, area, steps, i, c, d);
      MatchesAllTwin(k, steps[i].matchers, c, d, n, m);
      if !MatchesAll(steps[i].matchers, c) {
        RunStepsTwins(k, area, reg, tag, tag', run, run', i + 1, i' + 1, c, d, n, m, writes, writes', w, v, nest, level, nest', level');
      } else {
        StepDescends(reg, tag, i);
        StepDescends(reg, tag', i');
        var w1, v1 := Note(w, StepTaken(run, i, level)), Note(v, StepTaken(run', i', level'));
        NoteSame(w, c.skipCache, v, d.skipCache, w1, v1);
        match steps[i].exec
        case Call(t) =>
          if t in reg.plugins {
            var s, s' := SnapshotAt(reg, t, c), SnapshotAt(reg, t, d);
            var w2, v2 := NoteSnap(w1, run, t, s, Here(tag, i, c, w1)), NoteSnap(v1, run', t, s', Here(tag', i', d, v1));
            NoteSame(w1, c.skipCache, v1, d.skipCache, w2, v2);
            var x, y := Exec(reg, t, c, w2, nest + 1, level), Exec(reg, t, d, v2, nest' + 1, level');
            ExecTwins(k, area, reg, t, c, d, n, m, w2, v2, nest + 1, level, nest' + 1, level');
            var a, a' := AddWrite(writes, t, s), AddWrite(writes', t, s');
            if x.out == Done(Continue) {
              StaysUnseen(reg, area, steps, i + 1, c, d, x.ctx, y.ctx);
              RunStepsTwins(k, area, reg, tag, tag', run, run', i + 1, i' + 1, x.ctx, y.ctx, n, m, a, a', x.w, y.w, nest, level,
                            nest', level');
            } else if x.out == Done(Accept) {
              EndTwins(k, reg, x.ctx, y.ctx, n, m, run, run', Accept, a, a', x.w, y.w);
            } else {
              NoteSame(x.w, c.skipCache, y.w, d.skipCache, Note(x.w, Aborted(run)), Note(y.w, Aborted(run')));
            }
          } else {
            NoteSame(w1, c.skipCache, v1, d.skipCache, Note(w1, Aborted(run)), Note(v1, Aborted(run')));
          }
        case Run(b) =>
          AfterActionTwins(k, area, reg, tag, tag', run, run', i, i', b, c, d, n, m, writes, writes', w1, v1, nest, level,
                           nest', level');
      }
    }
  }

  lemma SameNextStep(s: seq<Step>, i: nat, t: seq<Step>, j: nat)
    requires i < |s| && j <= |t| && s[i..] == t[j..]
    ensures j < |t| && s[i] == t[j] && s[i + 1..] == t[j + 1..]
  {
    assert |s[i..]| == |t[j..]|;
    assert s[i..][0] == t[j..][0];
    assert s[i..][1..] == t[j..][1..];
  }

  lemma StaysUnseen(reg: Registry, area: set<Tag>, steps: seq<Step>, i: nat, c: Ctx, d: Ctx, x: Ctx, y: Ctx)
    requires RestUnseen(reg, area, steps, i, c, d) && x.client == c.client && y.client == d.client
    ensures RestUnseen(reg, area, steps, i, x, y)
  {
  }

  lemma EndTwins(
    k: Likeness, reg: Registry, c: Ctx, d: Ctx, n: nat, m: nat, run: nat, run': nat, a: Action, writes: seq<Write>,
    writes': seq<Write>, w: World, v: World)
    requires Twin(k, c, d, n, m) && SameSurroundings(w, c.skipCache, v, d.skipCache)
    ensures TwinEnds(k, c, d, n, m, End(reg, run, a, c, writes, w), End(reg, run', a, d, writes', v))
  {
    hide Twin, StoreEvents;
    NoteSame(w, c.skipCache, v, d.skipCache, End(reg, run, a, c, writes, w).w, End(reg, run', a, d, writes', v).w);
  }

  lemma {:induction false} AfterActionTwins(
    k: Likeness, area: set<Tag>, reg: Registry, tag: Tag, tag': Tag, run: nat, run': nat, i: nat, i': nat, b: Builtin, c: Ctx,
    d: Ctx, n: nat, m: nat, writes: seq<Write>, writes': seq<Write>, w: World, v: World, nest: nat, level: nat, nest': nat,
    level': nat)
    requires Ranked(reg) && Abreast(k, c, d, n, m, w, v)
    requires tag in reg.plugins && reg.plugins[tag].Sequence? && i < |reg.plugins[tag].steps|
    requires tag' in reg.plugins && reg.plugins[tag'].Sequence? && i' < |reg.plugins[tag'].steps|
    requires reg.plugins[tag].steps[i + 1..] == reg.plugins[tag'].steps[i' + 1..]
    requires RestUnseen(reg, area, reg.plugins[tag].steps, i + 1, c, d)
    requires b.DoGoto? ==> Unseen(reg, area, b.tag, c, d)
    requires b.DoGoto? && b.tag in reg.plugins ==>
               Depth(reg, b.tag) < Depth(reg, tag) && Depth(reg, b.tag) < Depth(reg, tag')
    ensures TwinEnds(k, c, d, n, m, AfterAction(reg, tag, run, i, b, c, writes, w, nest, level),
                     AfterAction(reg, tag', run', i', b, d, writes', v, nest', level'))
    decreases Depth(reg, tag), 0, 2 * (|reg.plugins[tag].steps| - i) + 1
  {
    BuiltinFrame(b, c);
    BuiltinFrame(b, d);
    BuiltinClient(b, c);
    BuiltinClient(b, d);
    BuiltinTwin(k, b, c, d, n, m);
    hide Ranked, Calls, Twin, Exec, AfterBuiltin, RunSteps, End, Jump, SameSurroundings, Impartial, RestUnseen, Unseen, TwinEnds;
    var x := AfterAction(reg, tag, run, i, b, c, writes, w, nest, level);
    var y := AfterAction(reg, tag', run', i', b, d, writes', v, nest', level');
    var c1, d1 := AfterBuiltin(b, c), AfterBuiltin(b, d);
    match ActionOf(b) {
      case Err(why) => AbortTwins(k, c1, d1, n, m, run, run', Failed(why), w, v);
      case Ok(Continue) =>
        StaysUnseen(reg, area, reg.plugins[tag].steps, i + 1, c, d, c1, d1);
        RunStepsTwins(k, area, reg, tag, tag', run, run', i + 1, i' + 1, c1, d1, n, m, writes, writes', w, v, nest, level, nest', level');
      case Ok(Accept) =>
        var w1, v1 := Note(w, AcceptTaken(level)), Note(v, AcceptTaken(level'));
        NoteSame(w, c.skipCache, v, d.skipCache, w1, v1);
        EndTwins(k, reg, c1, d1, n, m, run, run', Accept, writes, writes', w1, v1);
      case Ok(Return) => EndTwins(k, reg, c1, d1, n, m, run, run', Continue, writes, writes', w, v);
      case Ok(Goto(t)) =>
        TagStaysUnseen(reg, area, t, c, d, c1, d1);
        JumpTwins(k, area, reg, tag, tag', run, run', Here(tag, i, c, w), Here(tag', i', d, v), t, c1, d1, n, m, writes, writes',
                  w, v, nest, level, nest', level');
    }
    EndsFrom(k, c1, d1, c, d, n, m, x, y);
  }

  lemma AbortTwins(k: Likeness, c: Ctx, d: Ctx, n: nat, m: nat, run: nat, run': nat, out: Outcome, w: World, v: World)
    requires Twin(k, c, d, n, m) && SameSurroundings(w, c.skipCache, v, d.skipCache)
    ensures TwinEnds(k, c, d, n, m, Abort(run, out, c, w), Abort(run', out, d, v))
  {
    hide Twin;
    NoteSame(w, c.skipCache, v, d.skipCache, Note(w, Aborted(run)), Note(v, Aborted(run')));
  }

  lemma EndsFrom(k: Likeness, c: Ctx, d: Ctx, c': Ctx, d': Ctx, n: nat, m: nat, x: Res, y: Res)
    requires TwinEnds(k, c, d, n, m, x, y)
    requires c.skipCache == c'.skipCache && d.skipCache == d'.skipCache && c.client == c'.client && d.client == d'.client
    ensures TwinEnds(k, c', d', n, m, x, y)
  {
  }

  lemma TagStaysUnseen(reg: Registry, area: set<Tag>, t: Tag, c: Ctx, d: Ctx, x: Ctx, y: Ctx)
    requires Unseen(reg, area, t, c, d) && x.client == c.client && y.client == d.client
    ensures Unseen(reg, area, t, x, y)
  {
  }

  lemma {:induction false} JumpTwins(
    k: Likeness, area: set<Tag>, reg: Registry, tag: Tag, tag': Tag, run: nat, run': nat, from: Point, from': Point, t: Tag,
    c: Ctx, d: Ctx, n: nat, m: nat, writes: seq<Write>, writes': seq<Write>, w: World, v: World, nest: nat, level: nat,
    nest': nat, level': nat)
    requires Ranked(reg) && Abreast(k, c, d, n, m, w, v) && Unseen(reg, area, t, c, d)
    requires t in reg.plugins ==> Depth(reg, t) < Depth(reg, tag) && Depth(reg, t) < Depth(reg, tag')
    ensures TwinEnds(k, c, d, n, m, Jump(reg, tag, run, from, t, c, writes, w, nest, level),
                     Jump(reg, tag', run', from', t, d, writes', v, nest', level'))
    decreases Depth(reg, tag), 0, 0
  {
    hide Ranked, Calls, Twin, Exec, End, SameSurroundings, Impartial, Unseen;
    if t in reg.plugins {
      var s, s' := SnapshotAt(reg, t, c), SnapshotAt(reg, t, d);
      var w1, v1 := NoteSnap(w, run, t, s, from), NoteSnap(v, run', t, s', from');
      NoteSame(w, c.skipCache, v, d.skipCache, w1, v1);
      var x, y := Exec(reg, t, c, w1, nest + 1, level), Exec(reg, t, d, v1, nest' + 1, level');
      ExecTwins(k, area, reg, t, c, d, n, m, w1, v1, nest + 1, level, nest' + 1, level');
      if x.out.Done? {
        EndTwins(k, reg, x.ctx, y.ctx, n, m, run, run', x.out.action, AddWrite(writes, t, s), AddWrite(writes', t, s'), x.w, y.w);
      } else {
        NoteSame(x.w, c.skipCache, y.w, d.skipCache, Note(x.w, Aborted(run)), Note(y.w, Aborted(run')));
      }
    } else {
      NoteSame(w, c.skipCache, v, d.skipCache, Note(w, Aborted(run)), Note(v, Aborted(run')));
    }
  }

  /** One branch of a fallback, run on a fork of each twin, with the mark that it was left. */
  lemma {:induction false} BranchTwins(
    k: Likeness, area: set<Tag>, reg: Registry, tag: Tag, t: Tag, c: Ctx, d: Ctx, n: nat, m: nat, w: World, v: World,
    nest: nat, level: nat, nest': nat, level': nat)
    requires Ranked(reg) && Abreast(k, c, d, n, m, w, v) && Unseen(reg, area, t, c, d)
    requires t in reg.plugins && Depth(reg, t) < Depth(reg, tag)
    ensures BranchEnds(k, c, d, n, m, Branch(reg, t, c, w, nest, level), Branch(reg, t, d, v, nest', level'))
    decreases Depth(reg, tag), 0, 0
  {
    hide Ranked, Calls, Twin, Exec, SameSurroundings, Impartial, BlindIn, HasWantedAns;
    var x, y := Exec(reg, t, Fork(c), w, nest, level), Exec(reg, t, Fork(d), v, nest', level');
    ForkTwin(k, c, d, n, m);
    ExecTwins(k, area, reg, t, Fork(c), Fork(d), n, m, w, v, nest, level, nest', level');
    WantedTwin(k, x.ctx, y.ctx, n, m);
    AbsorbTwin(k, c, d, x.ctx, y.ctx, n, m);
    NoteSame(x.w, c.skipCache, y.w, d.skipCache, Note(x.w, BranchDone(level)), Note(y.w, BranchDone(level')));
  }

  /** Branches that ended alike, as their callers see it. */
  ghost predicate BranchEnds(k: Likeness, c: Ctx, d: Ctx, n: nat, m: nat, x: Res, y: Res) {
    && x.out == y.out && HasWantedAns(x.ctx) == HasWantedAns(y.ctx)
    && Twin(k, Absorb(c, x.ctx), Absorb(d, y.ctx), n, m)
    && x.ctx.skipCache == c.skipCache && y.ctx.skipCache == d.skipCache
    && SameSurroundings(x.w, c.skipCache, y.w, d.skipCache)
  }

  lemma SecondaryTwins(k: Likeness, standby: bool, wins: bool, c: Ctx, d: Ctx, n: nat, m: nat, x: Res, y: Res, s: Res, t: Res)
    requires Twin(k, c, d, n, m) && BranchEnds(k, c, d, n, m, x, y) && BranchEnds(k, c, d, n, m, s, t)
    ensures TwinEnds(k, c, d, n, m, AfterSecondary(standby, wins, c, x, s), AfterSecondary(standby, wins, d, y, t))
  {
    hide Twin, SameSurroundings, HasWantedAns;
    AdvanceSame(s.w, c.skipCache, t.w, d.skipCache);
  }

  /** What follows the primary is alike if the primaries were. */
  lemma {:induction false} AfterPrimaryTwins(
    k: Likeness, area: set<Tag>, reg: Registry, tag: Tag, tag': Tag, c: Ctx, d: Ctx, n: nat, m: nat, x: Res, y: Res,
    nest: nat, level: nat, nest': nat, level': nat)
    requires Ranked(reg) && Twin(k, c, d, n, m) && Impartial(k, x.w.tape) && BranchEnds(k, c, d, n, m, x, y)
    requires tag in reg.plugins && reg.plugins[tag].Fallback? && tag' in reg.plugins && reg.plugins[tag'] == reg.plugins[tag]
    requires reg.plugins[tag].secondary in reg.plugins && Unseen(reg, area, reg.plugins[tag].secondary, c, d)
    ensures TwinEnds(k, c, d, n, m, AfterPrimary(reg, tag, c, x, nest, level), AfterPrimary(reg, tag', d, y, nest', level'))
    decreases Depth(reg, tag), 0, 1
  {
    BranchesDescend(reg, tag);
    hide Ranked, Calls, Twin, Exec, Branch, AfterSecondary, SameSurroundings, Impartial, Unseen, HasWantedAns;
    var f := reg.plugins[tag];
    var wins := x.out.Done? && HasWantedAns(x.ctx);
    AdvanceSame(x.w, c.skipCache, y.w, d.skipCache);
    if !(wins && !f.standby) && !(!f.standby && Next(x.w).cancel) {
      BranchTwins(k, area, reg, tag, f.secondary, c, d, n, m, Advance(x.w), Advance(y.w), nest, level, nest', level');
      SecondaryTwins(k, f.standby, wins, c, d, n, m, x, y, Branch(reg, f.secondary, c, Advance(x.w), nest, level),
                     Branch(reg, f.secondary, d, Advance(y.w), nest', level'));
    }
  }

  lemma BranchesUnseen(reg: Registry, area: set<Tag>, tag: Tag, c: Ctx, d: Ctx)
    requires Unseen(reg, area, tag, c, d) && tag in reg.plugins && reg.plugins[tag].Fallback?
    ensures Unseen(reg, area, reg.plugins[tag].primary, c, d) && Unseen(reg, area, reg.plugins[tag].secondary, c, d)
  {
    var f := reg.plugins[tag];
    assert Calls(f)[0] == f.primary && Calls(f)[1] == f.secondary;
  }

  /** Both branches exist. */
  lemma {:induction false} BothBranchesTwins(
    k: Likeness, area: set<Tag>, reg: Registry, tag: Tag, tag': Tag, f: Plugin, c: Ctx, d: Ctx, n: nat, m: nat, w: World,
    v: World, nest: nat, level: nat, nest': nat, level': nat)
    requires Ranked(reg) && Abreast(k, c, d, n, m, w, v) && f.Fallback?
    requires tag in reg.plugins && tag' in reg.plugins && reg.plugins[tag] == f && reg.plugins[tag'] == f
    requires f.primary in reg.plugins && f.secondary in reg.plugins
    requires Unseen(reg, area, f.primary, c, d) && Unseen(reg, area, f.secondary, c, d) && Depth(reg, f.primary) < Depth(reg, tag)
    ensures var x := Branch(reg, f.primary, c, w, nest, level);
            var y := Branch(reg, f.primary, d, v, nest', level');
            TwinEnds(k, c, d, n, m, AfterPrimary(reg, tag, c, x, nest, level), AfterPrimary(reg, tag', d, y, nest', level'))
    decreases Depth(reg, tag), 0, 2
  {
    hide Ranked, Twin, Branch, AfterPrimary, SameSurroundings, Impartial, Unseen, BranchEnds, TwinEnds, Depth;
    BranchTwins(k, area, reg, tag, f.primary, c, d, n, m, w, v, nest, level, nest', level');
    AfterPrimaryTwins(k, area, reg, tag, tag', c, d, n, m, Branch(reg, f.primary, c, w, nest, level),
                      Branch(reg, f.primary, d, v, nest', level'), nest, level, nest', level');
  }

  lemma {:induction false} FallbackTwins(
    k: Likeness, area: set<Tag>, reg: Registry, tag: Tag, tag': Tag, c: Ctx, d: Ctx, n: nat, m: nat, w: World, v: World,
    nest: nat, level: nat, nest': nat, level': nat)
    requires Ranked(reg) && Abreast(k, c, d, n, m, w, v) && Unseen(reg, area, tag, c, d)
    requires tag in reg.plugins && reg.plugins[tag].Fallback? && tag' in reg.plugins && reg.plugins[tag'] == reg.plugins[tag]
    ensures TwinEnds(k, c, d, n, m, ExecFallback(reg, tag, c, w, nest, level), ExecFallback(reg, tag', d, v, nest', level'))
    decreases Depth(reg, tag), 0, 3
  {
    BranchesUnseen(reg, area, tag, c, d);
    BranchesDescend(reg, tag);
    var f := reg.plugins[tag];
    hide Ranked, Twin, Branch, AfterPrimary, SameSurroundings, Impartial, Unseen, TwinEnds, ExecFallback, Depth;
    if f.primary in reg.plugins && f.secondary in reg.plugins {
      FallbackSplits(reg, tag, c, w, nest, level);
      FallbackSplits(reg, tag', d, v, nest', level');
      BothBranchesTwins(k, area, reg, tag, tag', f, c, d, n, m, w, v, nest + 1, level + 1, nest' + 1, level' + 1);
    } else {
      var missing := if f.primary !in reg.plugins then f.primary else f.secondary;
      FallbackMisses(reg, tag, c, w, nest, level);
      FallbackMisses(reg, tag', d, v, nest', level');
      StayTwins(k, c, d, n, m, Failed(UnknownTag(missing)), w, v);
    }
  }

  lemma FallbackMisses(reg: Registry, tag: Tag, c: Ctx, w: World, nest: nat, level: nat)
    requires Ranked(reg) && tag in reg.plugins && reg.plugins[tag].Fallback?
    requires reg.plugins[tag].primary !in reg.plugins || reg.plugins[tag].secondary !in reg.plugins
    ensures var f := reg.plugins[tag];
            var missing := if f.primary !in reg.plugins then f.primary else f.secondary;
            ExecFallback(reg, tag, c, w, nest, level) == Res(Failed(UnknownTag(missing)), c, w)
  {
    hide Ranked, Exec;
  }

  lemma StayTwins(k: Likeness, c: Ctx, d: Ctx, n: nat, m: nat, out: Outcome, w: World, v: World)
    requires Twin(k, c, d, n, m) && SameSurroundings(w, c.skipCache, v, d.skipCache)
    ensures TwinEnds(k, c, d, n, m, Res(out, c, w), Res(out, d, v))
  {
  }
}
