/** What each step does to a context, and what later steps can see of it. */
module Effects {
  import opened Wrappers
  import opened DnsMessage
  import opened Context
  import opened Steps
  import opened Pipeline
  import CacheKey

  // ---------- Fallbacks ----------

  /** Who wins a fallback that is not dropped while it waits: the primary exactly if it ended normally
      with a NOERROR reply that holds a record of the type its question asks for (A without a question).
      The winner's query, reply, marks, rewrites, strip flag and cache flag replace the caller's, and
      nothing of the loser's does. */
  lemma FallbackWinner(reg: Registry, tag: Tag, c: Ctx, w: World, nest: nat, level: nat)
    requires Ranked(reg) && tag in reg.plugins && reg.plugins[tag].Fallback?
    requires reg.plugins[tag].primary in reg.plugins && reg.plugins[tag].secondary in reg.plugins
    ensures var f, r := reg.plugins[tag], ExecFallback(reg, tag, c, w, nest, level);
            var start := c.(response := None, served := false);
            var p := Exec(reg, f.primary, start, w, nest + 1, level + 1);
            var s := Exec(reg, f.secondary, start, Advance(Note(p.w, BranchDone(level + 1))), nest + 1, level + 1);
            var q, reply := p.ctx.query.questions, p.ctx.response;
            var wins := p.out.Done? && reply.Some? && reply.value.rcode == 0
                        && exists i | 0 <= i < |reply.value.answers| ::
                             reply.value.answers[i].Type() == if q == [] then 1 else q[0].qtype;
            var x := if wins then p.ctx else s.ctx;
            !r.out.Cancelled? ==>
              && r.out == (if wins || s.out.Done? then Done(Continue) else s.out)
              && r.ctx == c.(query := x.query, response := x.response, marks := x.marks, rewrites := x.rewrites,
                             stripEcs := x.stripEcs, skipCache := x.skipCache, served := x.served)
  {
    hide Exec, Ranked, Calls;
    BranchesDescend(reg, tag);
    var p := Exec(reg, reg.plugins[tag].primary, Fork(c), w, nest + 1, level + 1);
    WantedAnswer(p.ctx);
  }

  lemma WantedAnswer(c: Ctx)
    ensures HasWantedAns(c) <==>
              && c.response.Some? && c.response.value.rcode == 0
              && exists i | 0 <= i < |c.response.value.answers| ::
                   c.response.value.answers[i].Type() == if c.query.questions == [] then 1 else c.query.questions[0].qtype
  {
    if HasWantedAns(c) {
      var r :| r in c.response.value.answers && r.Type() == QType(c);
      var i :| 0 <= i < |c.response.value.answers| && c.response.value.answers[i] == r;
    }
  }

  // ---------- Builtins ----------

  /** A reply the pipeline makes up for a query: its question and mode, RA set, no records. */
  predicate BareReply(m: Message, q: Message, rcode: nat) {
    && m.id == q.id && m.kind == Response && m.opcode == q.opcode && m.questions == q.questions
    && m.recursionDesired == q.recursionDesired && m.recursionAvailable && m.edns == q.edns
    && !m.authoritative && !m.truncated && !m.authenticData && !m.checkingDisabled
    && m.rcode == rcode && m.answers == [] && m.nameServers == [] && m.additionals == []
  }

  /** Which builtins end a sequence and how, and in what context the others go on to the next step. */
  lemma BuiltinEnds(reg: Registry, tag: Tag, run: nat, i: nat, c: Ctx, writes: seq<Write>, w: World, nest: nat, level: nat)
    requires Ranked(reg) && tag in reg.plugins && reg.plugins[tag].Sequence? && i < |reg.plugins[tag].steps|
    requires reg.plugins[tag].steps[i].exec.Run? && MatchesAll(reg.plugins[tag].steps[i].matchers, c)
    ensures var b, r := reg.plugins[tag].steps[i].exec.b, RunSteps(reg, tag, run, i, c, writes, w, nest, level);
            && (b.DoAccept? ==> r.out == Done(Accept) && r.ctx == c)
            && (b.DoReturn? ==> r.out == Done(Continue) && r.ctx == c)
            && (b.DoReject? ==>
                  && r.out == Done(Accept) && r.ctx == c.(response := r.ctx.response, served := false)
                  && r.ctx.response.Some? && BareReply(r.ctx.response.value, c.query, b.rcode))
            && (b.DoGoto? && b.tag !in reg.plugins ==> r.out == Failed(UnknownTag(b.tag)) && r.ctx == c)
            && (b.Ttl? && b.lo > b.hi ==> r.out == Failed(BadTtlRange) && r.ctx == c)
            && (b.DropResp? || b.DoMark? || b.NoEcs? || b.PreferV4? || b.PreferV6? || (b.Ttl? && b.lo <= b.hi) ==>
                  r == RunSteps(reg, tag, run, i + 1, AfterBuiltin(b, c), writes, Note(w, StepTaken(run, i, level)), nest, level))
    ensures AfterBuiltin(DropResp, c) == c.(response := None, served := false)
    ensures forall mark :: AfterBuiltin(DoMark(mark), c) == c.(marks := c.marks + {mark})
  {
    hide Ranked, StoreEvents, Exec;
    StepDescends(reg, tag, i);
    var b, r := reg.plugins[tag].steps[i].exec.b, RunSteps(reg, tag, run, i, c, writes, w, nest, level);
    var w1 := Note(w, StepTaken(run, i, level));
    assert r == AfterAction(reg, tag, run, i, b, c, writes, w1, nest, level);
    if b.DoGoto? {
      assert AfterBuiltin(b, c) == c && ActionOf(b) == Ok(Goto(b.tag));
      assert r == Jump(reg, tag, run, Here(tag, i, c, w1), b.tag, c, writes, w1, nest, level);
    } else {
      hide Jump;
    }
  }

  /** `no_ecs` takes every subnet and nothing else from the query, and has the reply's removed. */
  lemma NoEcsEffect(c: Ctx)
    ensures var d := AfterBuiltin(NoEcs, c);
            && d == c.(query := d.query, stripEcs := true) && d.query == c.query.(edns := d.query.edns)
            && (d.query.edns.Some? <==> c.query.edns.Some?)
            && (c.query.edns.Some? ==>
                  && d.query.edns.value == c.query.edns.value.(options := d.query.edns.value.options)
                  && forall o :: o in d.query.edns.value.options <==> o in c.query.edns.value.options && o.OtherOption?)
  {
  }

  predicate ClampedTo(after: seq<Record>, before: seq<Record>, lo: u32, hi: u32) {
    |after| == |before| && forall i | 0 <= i < |before| ::
      && after[i] == before[i].(ttl := after[i].ttl)
      && lo <= after[i].ttl <= hi
      && (lo <= before[i].ttl <= hi ==> after[i].ttl == before[i].ttl)
      && (before[i].ttl < lo ==> after[i].ttl == lo)
      && (hi < before[i].ttl ==> after[i].ttl == hi)
  }

  /** `ttl` moves every answer and authority TTL to the nearest in the range, and nothing else. */
  lemma ClampEffect(c: Ctx, lo: u32, hi: u32)
    requires lo <= hi
    ensures var d := AfterBuiltin(Ttl(lo, hi), c);
            && d == c.(response := d.response) && (d.response.Some? <==> c.response.Some?)
            && (c.response.Some? ==>
                  var m, n := c.response.value, d.response.value;
                  && n == m.(answers := n.answers, nameServers := n.nameServers)
                  && ClampedTo(n.answers, m.answers, lo, hi) && ClampedTo(n.nameServers, m.nameServers, lo, hi))
  {
  }

  predicate Ascending(at: seq<nat>) { forall j, k | 0 <= j < k < |at| :: at[j] < at[k] }

  predicate PicksAt(after: seq<Record>, before: seq<Record>, at: seq<nat>, code: nat) {
    |at| == |after| && forall k | 0 <= k < |at| :: at[k] < |before| && after[k] == before[at[k]] && before[at[k]].Type() != code
  }

  predicate PicksAll(before: seq<Record>, at: seq<nat>, code: nat) {
    forall i | 0 <= i < |before| && before[i].Type() != code :: i in at
  }

  /** `at` lists, in order, the positions of `before` that are kept: those of another type than `code`. */
  predicate KeptAt(after: seq<Record>, before: seq<Record>, at: seq<nat>, code: nat) {
    PicksAt(after, before, at, code) && Ascending(at) && PicksAll(before, at, code)
  }

  function Shifted(at: seq<nat>): (r: seq<nat>)
    ensures |r| == |at|
    ensures forall k | 0 <= k < |at| :: r[k] == at[k] + 1
  {
    seq(|at|, k requires 0 <= k < |at| => at[k] + 1)
  }

  /** One dropped record in front moves all positions. */
  lemma DroppedInFront(r: Record, after: seq<Record>, rest: seq<Record>, at: seq<nat>, code: nat)
    requires KeptAt(after, rest, at, code) && r.Type() == code
    ensures KeptAt(after, [r] + rest, Shifted(at), code)
  {
    hide Shifted;
    var rs := [r] + rest;
    assert Ascending(Shifted(at));
    forall i | 0 <= i < |rs| && rs[i].Type() != code ensures i in Shifted(at) {
      ShiftedHas(rest, at, code, i - 1);
      assert rest[i - 1] == rs[i];
    }
  }

  lemma ShiftedHas(rest: seq<Record>, at: seq<nat>, code: nat, i: nat)
    requires PicksAll(rest, at, code) && i < |rest|
    ensures rest[i].Type() != code ==> i + 1 in Shifted(at)
  {
    if rest[i].Type() != code {
      var k :| 0 <= k < |at| && at[k] == i;
      assert Shifted(at)[k] == i + 1;
    }
  }

  /** One kept record in front takes the first position. */
  lemma KeptInFront(r: Record, after: seq<Record>, rest: seq<Record>, at: seq<nat>, code: nat)
    requires KeptAt(after, rest, at, code) && r.Type() != code
    ensures KeptAt([r] + after, [r] + rest, [0] + Shifted(at), code)
  {
    KeptPicks(r, after, rest, at, code);
    hide Shifted, PicksAt;
    var rs, all := [r] + rest, [0] + Shifted(at);
    assert all[0] == 0;
    forall i | 0 <= i < |rs| && rs[i].Type() != code ensures i in all {
      if i > 0 {
        assert rest[i - 1] == rs[i];
        ShiftedHas(rest, at, code, i - 1);
      }
    }
  }

  lemma KeptPicks(r: Record, after: seq<Record>, rest: seq<Record>, at: seq<nat>, code: nat)
    requires PicksAt(after, rest, at, code) && Ascending(at) && r.Type() != code
    ensures PicksAt([r] + after, [r] + rest, [0] + Shifted(at), code) && Ascending([0] + Shifted(at))
  {
    hide Shifted;
    var all := [0] + Shifted(at);
    forall k | 0 < k < |all| ensures all[k] == at[k - 1] + 1 {
    }
    forall k | 0 <= k < |all|
      ensures all[k] < |rest| + 1 && ([r] + after)[k] == ([r] + rest)[all[k]] && ([r] + rest)[all[k]].Type() != code
    {
      if k > 0 { assert ([r] + rest)[all[k]] == rest[at[k - 1]]; }
    }
  }

  lemma {:induction false} WithoutTypeKeeps(rs: seq<Record>, code: u16) returns (at: seq<nat>)
    ensures KeptAt(WithoutType(rs, code), rs, at, code)
  {
    if rs == [] {
      at := [];
    } else {
      var rest := WithoutTypeKeeps(rs[1..], code);
      var after := WithoutType(rs[1..], code);
      assert rs == [rs[0]] + rs[1..] && [] + after == after;
      if rs[0].Type() == code {
        at := Shifted(rest);
        DroppedInFront(rs[0], after, rs[1..], rest, code);
      } else {
        at := [0] + Shifted(rest);
        KeptInFront(rs[0], after, rs[1..], rest, code);
      }
      hide KeptAt;
    }
  }

  /** `prefer_ipv4` drops exactly the AAAA answers and `prefer_ipv6` the A answers, in order, and nothing else. */
  lemma PreferEffect(c: Ctx, v4: bool) returns (at: seq<nat>)
    ensures var d := AfterBuiltin(if v4 then PreferV4 else PreferV6, c);
            && d == c.(response := d.response) && (d.response.Some? <==> c.response.Some?)
            && (c.response.Some? ==>
                  && d.response.value == c.response.value.(answers := d.response.value.answers)
                  && KeptAt(d.response.value.answers, c.response.value.answers, at, if v4 then 28 else 1))
  {
    if c.response.Some? {
      at := WithoutTypeKeeps(c.response.value.answers, if v4 then AAAA_CODE else A_CODE);
    } else {
      at := [];
    }
  }

  // ---------- Leaf plugins ----------

  /** An upstream's or table's reply is taken as the query's; a blackhole refuses with a bare reply. */
  lemma SourceEffect(reg: Registry, tag: Tag, c: Ctx, w: World, nest: nat, level: nat)
    requires Ranked(reg) && tag in reg.plugins && !Next(w).cancel && (reg.plugins[tag].Source? || reg.plugins[tag].Blackhole?)
    ensures var r, p := Exec(reg, tag, c, w, nest, level), reg.plugins[tag];
            && r.out == Done(Continue)
            && (p.Source? ==>
                  r.ctx == match Next(w).reply(c.query)
                           case None => c
                           case Some(m) => c.(response := Some(m.(id := c.query.id, kind := Response)), served := false))
            && (p.Blackhole? ==>
                  && r.ctx == c.(response := r.ctx.response, served := false)
                  && r.ctx.response.Some? && BareReply(r.ctx.response.value, c.query, p.rcode))
  {
    hide Ranked;
  }

  /** Whether `ecs` has an address to offer. */
  predicate HasAddress(cfg: EcsConfig, c: Ctx) {
    if cfg.auto then c.client.Some? && cfg.isPublic(c.client.value) else cfg.ipv4.Some? || cfg.ipv6.Some?
  }

  /** `ecs` leaves a query alone that has a subnet, unless forced, or if there is no address to offer.
      Otherwise the query's one subnet is the picked address with its host bits cleared, at its family's
      prefix length, with scope 0; other options and the EDNS mode stay, or EDNS is added with payload 1232; and the reply's subnet will be removed if the query
      had none. */
  lemma EcsEffect(cfg: EcsConfig, c: Ctx)
    ensures var d := AfterEcs(cfg, c);
            && ((EcsOf(c.query).Some? && !cfg.force) || !HasAddress(cfg, c) ==> d == c)
            && ((EcsOf(c.query).None? || cfg.force) && HasAddress(cfg, c) ==>
                  && Pick(cfg, c).Some?
                  && (var (ip, mask) := Pick(cfg, c).value;
                      var width := if ip.V4? then 32 else 128;
                      && mask == (if ip.V4? then cfg.mask4 else cfg.mask6)
                      && EcsOf(d.query).Some?
                      && (var cs := EcsOf(d.query).value;
                          && cs.sourcePrefix == (if mask < width then mask else width) && cs.scopePrefix == 0
                          && cs.addr.V4? == ip.V4?
                          && cs.addr.bits <= ip.bits < cs.addr.bits + Pow2(width - cs.sourcePrefix)
                          && cs.addr.bits % Pow2(width - cs.sourcePrefix) == 0)
                      && d == c.(query := d.query, stripEcs := c.stripEcs || EcsOf(c.query).None?)
                      && d.query == c.query.(edns := d.query.edns) && d.query.edns.Some?
                      && (c.query.edns.None? ==> d.query.edns.value == Edns(1232, 0, false, d.query.edns.value.options))
                      && (c.query.edns.Some? ==>
                            && d.query.edns.value == c.query.edns.value.(options := d.query.edns.value.options)
                            && forall o: EdnsOption | o.OtherOption? ::
                                 o in d.query.edns.value.options <==> o in c.query.edns.value.options)))
  {
    PickedFamily(cfg, c);
    if (EcsOf(c.query).None? || cfg.force) && HasAddress(cfg, c) {
      var pick := Pick(cfg, c).value;
      var net := Masked(pick.0, pick.1);
      MaskedNetwork(pick.0, pick.1);
      MaskedNetwork(pick.0, net.1);
      AttachedEdns(c.query, ClientSubnet(net.0, net.1, 0));
      hide SetEcs, EcsOf, Pick, HasAddress;
    }
  }

  lemma AttachedEdns(q: Message, cs: ClientSubnet)
    ensures var edns := SetEcs(q, cs).edns;
            && edns.Some? && SetEcs(q, cs) == q.(edns := edns)
            && (q.edns.None? ==> edns.value == Edns(1232, 0, false, edns.value.options))
            && (q.edns.Some? ==>
                  && edns.value == q.edns.value.(options := edns.value.options)
                  && forall o: EdnsOption | o.OtherOption? :: o in edns.value.options <==> o in q.edns.value.options)
  {
  }

  /** The rule sends `name` away: it is the rule's domain, or ends in a dot and that domain. */
  predicate Sends(rule: Rule, name: string) {
    var from := CacheKey.TrimDots(rule.0);
    || name == from
    || (|from| < |name| && name[|name| - |from| - 1] == '.' && name[|name| - |from|..] == from)
  }

  /** `redirect` applies the first rule that sends the name away, and no other: the working query gets the
      rule's target, made absolute, as its name, and one link records it, unless it has that name already. */
  lemma {:induction false} RedirectEffect(rules: seq<Rule>, name: string, c: Ctx)
    ensures var d := Redirected(rules, name, c);
            && ((forall i | 0 <= i < |rules| :: !Sends(rules[i], name)) ==> d == c)
            && (forall i | 0 <= i < |rules| && Sends(rules[i], name) && (forall j | 0 <= j < i :: !Sends(rules[j], name)) ::
                  var target := Name(rules[i].1.text, true);
                  if c.query.questions == [] || SameName(c.query.questions[0].name, target) then d == c
                  else && d.query == c.query.(questions := [c.query.questions[0].(name := target)] + c.query.questions[1..])
                       && d == c.(query := d.query, rewrites := c.rewrites + [(c.query.questions[0].name, target)]))
  {
    if rules != [] {
      SendsApplies(rules[0], name);
      RedirectEffect(rules[1..], name, c);
      assert forall i | 0 <= i < |rules| - 1 :: rules[1..][i] == rules[i + 1];
      if RuleApplies(rules[0], name) {
        RewriteEffect(c, rules[0].1);
      } else {
        forall i | 0 <= i < |rules| && Sends(rules[i], name) && (forall j | 0 <= j < i :: !Sends(rules[j], name))
          ensures 0 < i && rules[1..][i - 1] == rules[i] && forall j | 0 <= j < i - 1 :: !Sends(rules[1..][j], name)
        {
        }
      }
      hide Sends, RuleApplies, Apply, SameName;
    }
  }

  lemma SendsApplies(rule: Rule, name: string)
    ensures Sends(rule, name) <==> RuleApplies(rule, name)
  {
    var from := CacheKey.TrimDots(rule.0);
    if |from| < |name| {
      var tail := name[|name| - |from| - 1..];
      assert tail == [name[|name| - |from| - 1]] + name[|name| - |from|..];
      assert "." + from == ['.'] + from;
    }
  }

  lemma RewriteEffect(c: Ctx, name: Name)
    ensures var d, target := Apply(c, RewriteTo(name)), Name(name.text, true);
            if c.query.questions == [] || SameName(c.query.questions[0].name, target) then d == c
            else && d.query == c.query.(questions := [c.query.questions[0].(name := target)] + c.query.questions[1..])
                 && d == c.(query := d.query, rewrites := c.rewrites + [(c.query.questions[0].name, target)])
  {
    var target := Name(name.text, true);
    assert name.(fqdn := true) == target;
    if c.query.questions != [] {
      var q := c.query.questions[0].(name := target);
      assert c.query.questions[0 := q] == [q] + c.query.questions[1..];
    }
  }

  // ---------- What matchers see ----------

  /** Matchers see what steps did: marks set, replies taken, refused or dropped, subnets removed. */
  lemma MatchersSeeSteps(c: Ctx, mark: nat, other: nat, rcode: nat, nets: IpAddr -> bool)
    ensures Matches(Mark(other), AfterBuiltin(DoMark(mark), c)) <==> other == mark || Matches(Mark(other), c)
    ensures !Matches(HasEcs, AfterBuiltin(NoEcs, c))
    ensures var d := AfterBuiltin(DropResp, c);
            !Matches(HasResp, d) && !Matches(Rcode(other), d) && !Matches(RespIp(nets), d) && !Matches(HasWanted, d)
    ensures var d := AfterBuiltin(DoReject(rcode), c);
            && Matches(HasResp, d) && (Matches(Rcode(other), d) <==> other == rcode)
            && !Matches(RespIp(nets), d) && !Matches(HasWanted, d)
  {
  }

  /** What matchers see of a reply as it is taken. */
  lemma MatchersSeeReply(c: Ctx, m: Message, rcode: nat, nets: IpAddr -> bool)
    ensures var d := Apply(c, Answer(m));
            && Matches(HasResp, d) && (Matches(Rcode(rcode), d) <==> m.rcode == rcode)
            && (Matches(RespIp(nets), d) <==>
                  exists i | 0 <= i < |m.answers| ::
                    (m.answers[i].data.A? || m.answers[i].data.AAAA?) && nets(m.answers[i].data.ip))
            && (Matches(HasWanted, d) <==>
                  m.rcode == 0 && exists i | 0 <= i < |m.answers| ::
                    m.answers[i].Type() == if c.query.questions == [] then 1 else c.query.questions[0].qtype)
  {
    var d := Apply(c, Answer(m));
    WantedAnswer(d);
    if Matches(RespIp(nets), d) {
      var r :| r in m.answers && match r.data case A(ip) => nets(ip) case AAAA(ip) => nets(ip) case _ => false;
      var i :| 0 <= i < |m.answers| && m.answers[i] == r;
    }
  }

  /** What matchers see of a fresh query: its client, its type (A without a question), whether it has a
      subnet, and its name in lower case without the final dot. */
  lemma MatchersSeeQuery(q: Message, client: Option<IpAddr>, types: seq<u16>, nets: IpAddr -> bool, domains: string -> bool)
    ensures var c := New(q, client);
            && (Matches(ClientIp(nets), c) <==> client.Some? && nets(client.value))
            && (Matches(QTypeIn(types), c) <==> (if q.questions == [] then 1 else q.questions[0].qtype) in types)
            && (Matches(HasEcs, c) <==>
                  q.edns.Some? && exists i | 0 <= i < |q.edns.value.options| :: q.edns.value.options[i].Subnet?)
            && (q.questions != [] && PlainEnds(q.questions[0].name.text) ==>
                  (Matches(QName(domains), c) <==> domains(Lower(q.questions[0].name.text))))
  {
    if q.questions != [] && PlainEnds(q.questions[0].name.text) { DomainTextOfName(q.questions[0].name); }
    if q.edns.Some? { SubnetSeen(q.edns.value.options); }
    hide DomainText, PlainEnds;
  }

  lemma {:induction false} SubnetSeen(options: seq<EdnsOption>)
    ensures FirstSubnet(options).Some? <==> exists i | 0 <= i < |options| :: options[i].Subnet?
  {
    if options != [] {
      SubnetSeen(options[1..]);
      assert forall i | 1 <= i < |options| :: options[i] == options[1..][i - 1];
      if FirstSubnet(options[1..]).Some? {
        var i :| 0 <= i < |options[1..]| && options[1..][i].Subnet?;
        assert options[i + 1].Subnet?;
      }
    }
  }
}
