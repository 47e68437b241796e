/** The single steps a pipeline can take: matchers, builtins, `redirect`, `ecs` and `no_ecs`.

Every change a step makes to a context is one of the updates `Op`.
*/
module Steps {
  import opened Wrappers
  import opened DnsMessage
  import opened Context
  import CacheKey

  type Tag = string

  datatype Op =
    | Answer(m: Message)
    | RejectWith(rcode: nat)
    | DropAnswer
    | ClampBy(lo: u32, hi: u32)
    | DropType(code: u16)
    | SetMark(mark: nat)
    | RewriteTo(target: Name)
    | AttachEcs(cs: ClientSubnet)
    | StripEcs
    | ServeHit(m: Message)

  function Apply(c: Ctx, op: Op): Ctx {
    match op
    case Answer(m) => SetResponse(c, m)
    case RejectWith(rcode) => Reject(c, rcode)
    case DropAnswer => DropResponse(c)
    case ClampBy(lo, hi) => if lo <= hi then ClampTtl(c, lo, hi) else c
    case DropType(code) => FilterAnswers(c, code)
    case SetMark(mark) => AddMark(c, mark)
    case RewriteTo(target) => RewriteName(c, target)
    case AttachEcs(cs) =>
      c.(query := SetEcs(c.query, cs), stripEcs := c.stripEcs || EcsOf(c.query).None?)
    case StripEcs => c.(query := RemoveEcs(c.query), stripEcs := true)
    case ServeHit(m) => SetResponse(c, Rebind(m, c.query)).(served := true)
  }

  // ---------- Trimming ----------

  /** The characters with the Unicode property White_Space. */
  predicate IsWhitespace(c: char) {
    var n := c as int;
    || 0x9 <= n <= 0xD || n == 0x20 || n == 0x85 || n == 0xA0 || n == 0x1680
    || 0x2000 <= n <= 0x200A || n == 0x2028 || n == 0x2029 || n == 0x202F || n == 0x205F || n == 0x3000
  }

  function TrimStart(s: string): (r: string)
    ensures |r| <= |s|
  {
    if s != "" && IsWhitespace(s[0]) then TrimStart(s[1..]) else s
  }

  function TrimEnd(s: string): (r: string)
    ensures |r| <= |s|
  {
    if s != "" && IsWhitespace(s[|s| - 1]) then TrimEnd(s[..|s| - 1]) else s
  }

  function TrimLeadingDots(s: string): string {
    if s != "" && s[0] == '.' then TrimLeadingDots(s[1..]) else s
  }

  /** `normalize_domain`: the text domain sets are asked for. */
  function DomainText(s: string): string { Lower(TrimLeadingDots(CacheKey.TrimDots(TrimEnd(TrimStart(s))))) }

  lemma LowerAt(s: string, t: string, i: nat)
    requires Lower(s) == Lower(t) && i < |s|
    ensures |s| == |t| && (IsWhitespace(s[i]) <==> IsWhitespace(t[i])) && (s[i] == '.' <==> t[i] == '.')
  {
    assert |Lower(s)| == |s| && |Lower(t)| == |t|;
    assert Lower(s)[i] == LowerChar(s[i]) && Lower(t)[i] == LowerChar(t[i]);
  }

  lemma LowerSlice(s: string, t: string, i: nat, j: nat)
    requires Lower(s) == Lower(t) && i <= j <= |s|
    ensures |s| == |t| && Lower(s[i..j]) == Lower(t[i..j])
  {
    assert |Lower(s)| == |s| && |Lower(t)| == |t|;
    assert Lower(s[i..j]) == Lower(s)[i..j] && Lower(t[i..j]) == Lower(t)[i..j];
  }

  /** Texts that differ in case only are trimmed alike. */
  lemma {:induction false} TrimStartAlike(s: string, t: string)
    requires Lower(s) == Lower(t)
    ensures Lower(TrimStart(s)) == Lower(TrimStart(t))
    decreases |s|
  {
    if s != "" {
      LowerAt(s, t, 0);
      LowerSlice(s, t, 1, |s|);
      assert s[1..|s|] == s[1..] && t[1..|s|] == t[1..];
      if IsWhitespace(s[0]) { TrimStartAlike(s[1..], t[1..]); }
    } else {
      assert |Lower(t)| == |t|;
    }
  }

  lemma {:induction false} TrimEndAlike(s: string, t: string)
    requires Lower(s) == Lower(t)
    ensures Lower(TrimEnd(s)) == Lower(TrimEnd(t))
    decreases |s|
  {
    if s != "" {
      LowerAt(s, t, |s| - 1);
      LowerSlice(s, t, 0, |s| - 1);
      assert s[0..|s| - 1] == s[..|s| - 1] && t[0..|s| - 1] == t[..|s| - 1];
      if IsWhitespace(s[|s| - 1]) { TrimEndAlike(s[..|s| - 1], t[..|s| - 1]); }
    } else {
      assert |Lower(t)| == |t|;
    }
  }

  lemma {:induction false} TrimLeadingAlike(s: string, t: string)
    requires Lower(s) == Lower(t)
    ensures Lower(TrimLeadingDots(s)) == Lower(TrimLeadingDots(t))
    decreases |s|
  {
    if s != "" {
      LowerAt(s, t, 0);
      LowerSlice(s, t, 1, |s|);
      assert s[1..|s|] == s[1..] && t[1..|s|] == t[1..];
      if s[0] == '.' { TrimLeadingAlike(s[1..], t[1..]); }
    } else {
      assert |Lower(t)| == |t|;
    }
  }

  /** Domain sets, redirects and cache keys see a name's text without its case. */
  lemma CaseIsIgnored(a: Name, b: Name)
    requires SameName(a, b)
    ensures DomainText(ToAscii(a)) == DomainText(ToAscii(b))
    ensures Lower(CacheKey.TrimDots(ToAscii(a))) == Lower(CacheKey.TrimDots(ToAscii(b)))
  {
    var s, t := ToAscii(a), ToAscii(b);
    assert Lower(s) == Lower(t) by {
      assert Lower(s) == if a.fqdn then Lower(a.text) + "." else Lower(a.text);
      assert Lower(t) == if b.fqdn then Lower(b.text) + "." else Lower(b.text);
    }
    TrimStartAlike(s, t);
    TrimEndAlike(TrimStart(s), TrimStart(t));
    CacheKey.LowerOfTrimmed(TrimEnd(TrimStart(s)), TrimEnd(TrimStart(t)));
    TrimLeadingAlike(CacheKey.TrimDots(TrimEnd(TrimStart(s))), CacheKey.TrimDots(TrimEnd(TrimStart(t))));
    CacheKey.LowerOfTrimmed(s, t);
  }

  predicate PlainEnds(s: string) {
    s != "" ==> s[0] != '.' && s[|s| - 1] != '.' && !IsWhitespace(s[0]) && !IsWhitespace(s[|s| - 1])
  }

  /** Domain sets are asked for a name's own text in lower case. */
  lemma DomainTextOfName(n: Name)
    requires PlainEnds(n.text)
    ensures DomainText(ToAscii(n)) == Lower(n.text)
  {
    var s := ToAscii(n);
    assert s != "" ==> TrimStart(s) == s && TrimEnd(s) == s;
    if n.fqdn {
      assert s[|s| - 1] == '.' && s[..|s| - 1] == n.text;
      assert CacheKey.TrimDots(s) == CacheKey.TrimDots(n.text) == n.text;
    }
  }

  // ---------- Matchers ----------

  /** Domain and address sets are read at the moment of the match, as predicates. */
  datatype Matcher =
    | QName(domains: string -> bool)
    | QTypeIn(types: seq<u16>)
    | ClientIp(nets: IpAddr -> bool)
    | RespIp(nets: IpAddr -> bool)
    | HasResp
    | HasWanted
    | Rcode(code: nat)
    | Mark(mark: nat)
    | HasEcs
    | Neg(inner: Matcher)

  predicate AnswersWithin(answers: seq<Record>, nets: IpAddr -> bool) {
    exists r | r in answers :: match r.data
                               case A(ip) => nets(ip)
                               case AAAA(ip) => nets(ip)
                               case _ => false
  }

  predicate Matches(m: Matcher, c: Ctx) {
    match m
    case QName(domains) => domains(DomainText(QNameStr(c)))
    case QTypeIn(types) => QType(c) in types
    case ClientIp(nets) => c.client.Some? && nets(c.client.value)
    case RespIp(nets) => c.response.Some? && AnswersWithin(c.response.value.answers, nets)
    case HasResp => c.response.Some?
    case HasWanted => HasWantedAns(c)
    case Rcode(code) => c.response.Some? && c.response.value.rcode == code
    case Mark(mark) => mark in c.marks
    case HasEcs => EcsOf(c.query).Some?
    case Neg(inner) => !Matches(inner, c)
  }

  predicate MatchesAll(ms: seq<Matcher>, c: Ctx) {
    forall i | 0 <= i < |ms| :: Matches(ms[i], c)
  }

  // ---------- Negated matchers ----------

  /** Each leading `!` of a matcher expression negates what follows it. */
  function Negations(expr: string): (bool, string)
    decreases |expr|
  {
    if expr != "" && expr[0] == '!' then
      var (negate, rest) := Negations(TrimStart(expr[1..]));
      (!negate, rest)
    else (false, expr)
  }

  /** The reading with one nested negation per `!`. */
  function NestedNeg(expr: string, m: Matcher): Matcher
    decreases |expr|
  {
    if expr != "" && expr[0] == '!' then Neg(NestedNeg(TrimStart(expr[1..]), m)) else m
  }

  function Bound(negate: bool, m: Matcher): Matcher { if negate then Neg(m) else m }

  /** The loop of `bind_matcher` that strips negations without recursion. */
  method StripNegations(expr: string) returns (negate: bool, rest: string)
    ensures (negate, rest) == Negations(expr)
  {
    negate, rest := false, expr;
    while rest != "" && rest[0] == '!'
      invariant Negations(expr) == (Negations(rest).0 != negate, Negations(rest).1)
      decreases |rest|
    {
      negate := !negate;
      rest := TrimStart(rest[1..]);
    }
  }

  lemma FlippedBound(negate: bool, m: Matcher, c: Ctx)
    ensures Matches(Bound(!negate, m), c) == !Matches(Bound(negate, m), c)
  {
  }

  /** At most one negation is kept, and the matcher means the same as nesting them all. */
  lemma {:induction false} NegationsByParity(expr: string, m: Matcher, c: Ctx)
    ensures Matches(Bound(Negations(expr).0, m), c) == Matches(NestedNeg(expr, m), c)
    decreases |expr|
  {
    hide TrimStart;
    if expr != "" && expr[0] == '!' {
      var rest := TrimStart(expr[1..]);
      NegationsByParity(rest, m, c);
      FlippedBound(Negations(rest).0, m, c);
      assert Negations(expr).0 == !Negations(rest).0;
      assert NestedNeg(expr, m) == Neg(NestedNeg(rest, m));
    }
  }

  // ---------- Builtins ----------

  datatype Action = Continue | Accept | Return | Goto(tag: Tag)

  datatype Builtin =
    | DoAccept
    | DoReturn
    | DoReject(rcode: nat)
    | DropResp
    | Ttl(lo: u32, hi: u32)
    | PreferV4
    | PreferV6
    | DoMark(mark: nat)
    | DoGoto(tag: Tag)
    | NoEcs

  datatype Failure = UnknownTag(tag: Tag) | BadTtlRange

  function ActionOf(b: Builtin): Result<Action, Failure> {
    match b
    case DoAccept => Ok(Accept)
    case DoReject(_) => Ok(Accept)
    case DoReturn => Ok(Return)
    case DoGoto(tag) => Ok(Goto(tag))
    case Ttl(lo, hi) => if lo > hi then Err(BadTtlRange) else Ok(Continue)
    case _ => Ok(Continue)
  }

  function AfterBuiltin(b: Builtin, c: Ctx): Ctx {
    match b
    case DoReject(rcode) => Apply(c, RejectWith(rcode))
    case DropResp => Apply(c, DropAnswer)
    case Ttl(lo, hi) => Apply(c, ClampBy(lo, hi))
    case PreferV4 => Apply(c, DropType(AAAA_CODE))
    case PreferV6 => Apply(c, DropType(A_CODE))
    case DoMark(mark) => Apply(c, SetMark(mark))
    case NoEcs => Apply(c, StripEcs)
    case DoAccept => c
    case DoReturn => c
    case DoGoto(_) => c
  }

  method ApplyBuiltin(b: Builtin, ctx: QueryContext) returns (r: Result<Action, Failure>)
    modifies ctx
    ensures r == ActionOf(b)
    ensures ctx.State() == AfterBuiltin(b, old(ctx.State()))
  {
    match b
    case DoAccept => return Ok(Accept);
    case DoReturn => return Ok(Return);
    case DoReject(rcode) =>
      ctx.DoReject(rcode);
      return Ok(Accept);
    case DropResp =>
      ctx.DoDropResponse();
      return Ok(Continue);
    case Ttl(lo, hi) =>
      if lo > hi { return Err(BadTtlRange); }
      ctx.DoClampTtl(lo, hi);
      return Ok(Continue);
    case PreferV4 =>
      ctx.DoFilterAnswers(AAAA_CODE);
      return Ok(Continue);
    case PreferV6 =>
      ctx.DoFilterAnswers(A_CODE);
      return Ok(Continue);
    case DoMark(mark) =>
      ctx.marks := ctx.marks + {mark};
      return Ok(Continue);
    case DoGoto(tag) => return Ok(Goto(tag));
    case NoEcs =>
      ctx.query := RemoveEcs(ctx.query);
      ctx.stripEcs := true;
      return Ok(Continue);
  }

  // ---------- Redirect ----------

  type Rule = (string, Name)

  predicate EndsWith(s: string, suffix: string) {
    |suffix| <= |s| && s[|s| - |suffix|..] == suffix
  }

  predicate RuleApplies(rule: Rule, qname: string) {
    var from := CacheKey.TrimDots(rule.0);
    qname == from || EndsWith(qname, "." + from)
  }

  function Redirected(rules: seq<Rule>, qname: string, c: Ctx): Ctx {
    if rules == [] then c
    else if RuleApplies(rules[0], qname) then Apply(c, RewriteTo(rules[0].1))
    else Redirected(rules[1..], qname, c)
  }

  function RedirectName(c: Ctx): string { Lower(CacheKey.TrimDots(QNameStr(c))) }

  /** The rule loop of `Redirect::exec`: the first rule that applies, and only that one. */
  method Redirect(rules: seq<Rule>, ctx: QueryContext)
    modifies ctx
    ensures ctx.State() == Redirected(rules, RedirectName(old(ctx.State())), old(ctx.State()))
  {
    var qname := RedirectName(ctx.State());
    for i := 0 to |rules|
      invariant ctx.State() == old(ctx.State())
      invariant Redirected(rules, qname, ctx.State()) == Redirected(rules[i..], qname, ctx.State())
    {
      if RuleApplies(rules[i], qname) {
        ctx.DoRewriteName(rules[i].1);
        return;
      }
      assert rules[i..][1..] == rules[i + 1..];
    }
  }

  // ---------- EDNS Client Subnet ----------

  datatype EcsConfig = EcsConfig(
    auto: bool, ipv4: Option<nat>, ipv6: Option<nat>, force: bool, mask4: nat, mask6: nat,
    isPublic: IpAddr -> bool)

  function Pick(cfg: EcsConfig, c: Ctx): Option<(IpAddr, nat)> {
    if cfg.auto then
      if c.client.None? || !cfg.isPublic(c.client.value) then None
      else Some((c.client.value, if c.client.value.V4? then cfg.mask4 else cfg.mask6))
    else
      var v4 := if cfg.ipv4.Some? then Some((V4(cfg.ipv4.value), cfg.mask4)) else None;
      var v6 := if cfg.ipv6.Some? then Some((V6(cfg.ipv6.value), cfg.mask6)) else None;
      if QType(c) != AAAA_CODE then (if v4.Some? then v4 else v6)
      else (if v6.Some? then v6 else v4)
  }

  function Width(ip: IpAddr): nat { if ip.V4? then 32 else 128 }

  function Pow2(n: nat): nat
    ensures Pow2(n) > 0
  {
    if n == 0 then 1 else 2 * Pow2(n - 1)
  }

  function NetworkBits(bits: nat, hosts: nat): nat
    requires hosts > 0
  {
    RoundDown(bits, hosts);
    bits - bits % hosts
  }

  /** The network address of `ip/prefix`, with an over-long prefix cut to the address width. */
  function Masked(ip: IpAddr, prefix: nat): (IpAddr, nat) {
    var cut := if prefix < Width(ip) then prefix else Width(ip);
    (ip.(bits := NetworkBits(ip.bits, Pow2(Width(ip) - cut))), cut)
  }

  predicate HostBitsZero(ip: IpAddr, prefix: nat)
    requires prefix <= Width(ip)
  {
    ip.bits % Pow2(Width(ip) - prefix) == 0
  }

  function AfterEcs(cfg: EcsConfig, c: Ctx): Ctx {
    if EcsOf(c.query).Some? && !cfg.force then c
    else match Pick(cfg, c)
         case None => c
         case Some(pick) =>
           var net := Masked(pick.0, pick.1);
           Apply(c, AttachEcs(ClientSubnet(net.0, net.1, 0)))
  }

  method ExecEcs(cfg: EcsConfig, ctx: QueryContext)
    modifies ctx
    ensures ctx.State() == AfterEcs(cfg, old(ctx.State()))
  {
    var existing := EcsOf(ctx.query);
    if existing.Some? && !cfg.force { return; }
    var pick := Pick(cfg, ctx.State());
    if pick.None? { return; }
    var (net, mask) := Masked(pick.value.0, pick.value.1);
    if existing.None? {
      ctx.stripEcs := true;
    }
    ctx.query := SetEcs(ctx.query, ClientSubnet(net, mask, 0));
  }

  lemma AtLeastOne(m: nat, d: int)
    requires d >= 1
    ensures m * d >= m
  {
  }

  /** No multiple of `m` lies strictly between 0 and `m`. */
  lemma SmallMultiple(m: nat, d: int, rest: nat)
    requires rest < m && m * d == rest
    ensures rest == 0
  {
    if d >= 1 {
      AtLeastOne(m, d);
    }
  }

  lemma DivisionIsUnique(m: nat, p: int, q: int, rest: nat)
    requires m > 0 && rest < m && m * p == m * q + rest
    ensures rest == 0
  {
    var d := p - q;
    assert m * d == m * p - m * q;
    SmallMultiple(m, d, rest);
  }

  lemma RoundDown(b: nat, m: nat)
    requires m > 0
    ensures (b - b % m) % m == 0 && 0 <= b - b % m <= b
  {
    var x := b - b % m;
    assert b == m * (b / m) + b % m;
    assert x == m * (x / m) + x % m;
    DivisionIsUnique(m, b / m, x / m, x % m);
  }

  /** Masking clears every host bit, never grows the address, and repeating it changes nothing. */
  lemma MaskedNetwork(ip: IpAddr, prefix: nat)
    ensures var (net, cut) := Masked(ip, prefix);
            && net.V4? == ip.V4? && cut <= Width(net) && cut <= prefix && net.bits <= ip.bits
            && HostBitsZero(net, cut)
            && Masked(net, cut) == (net, cut)
            && (prefix <= Width(ip) ==> cut == prefix && ip.bits - net.bits < Pow2(Width(ip) - prefix))
  {
    var cut := if prefix < Width(ip) then prefix else Width(ip);
    RoundDown(ip.bits, Pow2(Width(ip) - cut));
  }

  /** An address is picked exactly when one is usable: in auto mode a public client's own, else a
      configured one, of the family asked for if there is one; always with its family's mask. */
  lemma PickedFamily(cfg: EcsConfig, c: Ctx)
    ensures var pick := Pick(cfg, c);
            && (pick.Some? <==> if cfg.auto then c.client.Some? && cfg.isPublic(c.client.value)
                                else cfg.ipv4.Some? || cfg.ipv6.Some?)
            && (pick.Some? ==>
                  var (ip, mask) := pick.value;
                  && mask == (if ip.V4? then cfg.mask4 else cfg.mask6)
                  && (cfg.auto ==> c.client == Some(ip))
                  && (!cfg.auto ==> (if ip.V4? then cfg.ipv4 else cfg.ipv6) == Some(ip.bits))
                  && (!cfg.auto && QType(c) == AAAA_CODE && ip.V4? ==> cfg.ipv6.None?)
                  && (!cfg.auto && QType(c) != AAAA_CODE && ip.V6? ==> cfg.ipv4.None?))
  {
  }

  /** Any subnet the `ecs` plugin newly puts on a query has zero host bits and scope 0. */
  lemma AttachedSubnetIsMasked(cfg: EcsConfig, c: Ctx)
    requires AfterEcs(cfg, c) != c
    ensures var ecs := EcsOf(AfterEcs(cfg, c).query);
            && ecs.Some? && ecs.value.sourcePrefix <= Width(ecs.value.addr)
            && HostBitsZero(ecs.value.addr, ecs.value.sourcePrefix) && ecs.value.scopePrefix == 0
    ensures EcsOf(c.query).None? ==> AfterEcs(cfg, c).stripEcs
  {
    var pick := Pick(cfg, c).value;
    MaskedNetwork(pick.0, pick.1);
  }
}
