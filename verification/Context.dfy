/** The per-query context of `src/context.rs`.

`Ctx` is the value of a context; the class `QueryContext` below holds the same
fields and changes them in place. Trace events, ids and clocks are observational
and are not part of the value.
*/
module Context {
  import opened Wrappers
  import opened DnsMessage

  type Link = (Name, Name)

  /** What `begin_pipeline` captures before the first step runs. */
  datatype EntryState = EntryState(query: Message, marks: set<nat>, stripEcs: bool)

  datatype Ctx = Ctx(
    query: Message,
    original: Message,
    response: Option<Message>,
    marks: set<nat>,
    rewrites: seq<Link>,
    entry: Option<EntryState>,
    pipelineEntry: Option<string>,
    skipCache: bool,
    stripEcs: bool,
    served: bool,
    client: Option<IpAddr>)

  function New(query: Message, client: Option<IpAddr>): Ctx {
    Ctx(query, query, None, {}, [], None, None, false, false, false, client)
  }

  // ---------- Single updates ----------

  function SetResponse(c: Ctx, m: Message): Ctx {
    c.(response := Some(m.(id := c.query.id, kind := Response)), served := false)
  }

  function DropResponse(c: Ctx): Ctx { c.(response := None, served := false) }

  function Reject(c: Ctx, rcode: nat): Ctx { SetResponse(c, ReplySkeleton(c.query, rcode)) }

  function BeginPipeline(c: Ctx, tag: string): Ctx {
    if c.entry.Some? then c
    else c.(entry := Some(EntryState(c.query, c.marks, c.stripEcs)), pipelineEntry := Some(tag))
  }

  /** Rewritten names are made absolute; a rewrite to the same name leaves no link. */
  function RewriteName(c: Ctx, target: Name): Ctx {
    var name := target.(fqdn := true);
    if c.query.questions == [] || SameName(c.query.questions[0].name, name) then c
    else
      var q := c.query.questions[0];
      c.(rewrites := c.rewrites + [(q.name, name)],
         query := c.query.(questions := c.query.questions[0 := q.(name := name)]))
  }

  function Clamp(ttl: u32, lo: u32, hi: u32): u32
    requires lo <= hi
  {
    if ttl < lo then lo else if ttl > hi then hi else ttl
  }

  function ClampedRecords(rs: seq<Record>, lo: u32, hi: u32): (r: seq<Record>)
    requires lo <= hi
    ensures |r| == |rs|
  {
    seq(|rs|, i requires 0 <= i < |rs| => rs[i].(ttl := Clamp(rs[i].ttl, lo, hi)))
  }

  function ClampTtl(c: Ctx, lo: u32, hi: u32): Ctx
    requires lo <= hi
  {
    match c.response
    case None => c
    case Some(m) =>
      c.(response := Some(m.(answers := ClampedRecords(m.answers, lo, hi),
                             nameServers := ClampedRecords(m.nameServers, lo, hi))))
  }

  function WithoutType(rs: seq<Record>, code: u16): seq<Record> {
    if rs == [] then []
    else (if rs[0].Type() == code then [] else [rs[0]]) + WithoutType(rs[1..], code)
  }

  /** `prefer_ipv4` drops AAAA answers, `prefer_ipv6` drops A answers. */
  function FilterAnswers(c: Ctx, dropped: u16): Ctx {
    match c.response
    case None => c
    case Some(m) => c.(response := Some(m.(answers := WithoutType(m.answers, dropped))))
  }

  function AddMark(c: Ctx, mark: nat): Ctx { c.(marks := c.marks + {mark}) }

  // ---------- Reading ----------

  function QType(c: Ctx): u16 {
    if c.query.questions == [] then A_CODE else c.query.questions[0].qtype
  }

  function QNameStr(c: Ctx): string {
    if c.query.questions == [] then "." else ToAscii(c.query.questions[0].name)
  }

  predicate HasWantedAns(c: Ctx) {
    && c.response.Some?
    && c.response.value.rcode == NO_ERROR
    && exists r | r in c.response.value.answers :: r.Type() == QType(c)
  }

  // ---------- Branches and background runs ----------

  function CloneForLazy(c: Ctx): Ctx {
    var rewound := New(c.original, c.client);
    var initial := match c.entry
                   case None => rewound
                   case Some(e) => rewound.(query := e.query, marks := e.marks, stripEcs := e.stripEcs);
    initial.(entry := c.entry, pipelineEntry := c.pipelineEntry, skipCache := true)
  }

  function Fork(c: Ctx): Ctx { c.(response := None, served := false) }

  function Absorb(c: Ctx, branch: Ctx): Ctx {
    c.(query := branch.query,
       response := branch.response,
       marks := branch.marks,
       rewrites := branch.rewrites,
       stripEcs := branch.stripEcs,
       skipCache := branch.skipCache,
       served := branch.served)
  }

  // ---------- Replies bound to a question ----------

  function RebindEdns(response: Option<Edns>, query: Option<Edns>): Option<Edns> {
    match (response, query)
    case (_, None) => None
    case (Some(r), Some(q)) => Some(r.(payload := q.payload, dnssecOk := q.dnssecOk))
    case (None, Some(_)) => None
  }

  function Rebind(m: Message, query: Message): Message {
    m.(id := query.id,
       kind := Response,
       opcode := query.opcode,
       recursionDesired := query.recursionDesired,
       checkingDisabled := query.checkingDisabled,
       questions := query.questions,
       edns := RebindEdns(m.edns, query.edns))
  }

  predicate IsAlias(r: Record, link: Link) {
    r.data.CNAME? && SameName(r.name, link.0) && SameName(r.data.target, link.1)
  }

  predicate Present(answers: seq<Record>, link: Link) {
    exists i | 0 <= i < |answers| :: IsAlias(answers[i], link)
  }

  function AliasClass(query: Message): u16 {
    if query.questions == [] then CLASS_IN else query.questions[0].qclass
  }

  function AliasRecord(link: Link, ttl: u32, rclass: u16): Record {
    Record(link.0, rclass, ttl, CNAME(link.1))
  }

  /** The CNAMEs to prepend: one for each link the reply does not already carry. */
  function MissingAliases(links: seq<Link>, answers: seq<Record>, ttl: u32, rclass: u16): seq<Record> {
    if links == [] then []
    else (if Present(answers, links[0]) then [] else [AliasRecord(links[0], ttl, rclass)])
         + MissingAliases(links[1..], answers, ttl, rclass)
  }

  /** The missing aliases in front of the answers, with a TTL of their own. */
  function AliasedAt(m: Message, links: seq<Link>, rclass: u16, ttl: u32): Message {
    if links != [] && (m.rcode == NO_ERROR || m.rcode == NX_DOMAIN) then
      m.(answers := MissingAliases(links, m.answers, ttl, rclass) + m.answers, authenticData := false)
    else m
  }

  function WithAliases(m: Message, links: seq<Link>, rclass: u16): Message {
    AliasedAt(m, links, rclass, MinTtl(m))
  }

  function From<T>(s: seq<T>, start: nat): seq<T> { if start <= |s| then s[start..] else [] }

  /** The reply as seen by one question snapshot, with the aliases added since it was taken. */
  function ResponseForQuery(c: Ctx, query: Message, rewriteStart: nat): Option<Message> {
    match c.response
    case None => None
    case Some(m) => Some(WithAliases(Rebind(m, query), From(c.rewrites, rewriteStart), AliasClass(query)))
  }

  function FinalizeResponse(c: Ctx): Ctx {
    c.(response := ResponseForQuery(c, c.original, 0))
  }

  lemma {:induction false} MissingAliasesAppend(links: seq<Link>, link: Link, answers: seq<Record>, ttl: u32, rclass: u16)
    ensures MissingAliases(links + [link], answers, ttl, rclass)
         == MissingAliases(links, answers, ttl, rclass)
            + (if Present(answers, link) then [] else [AliasRecord(link, ttl, rclass)])
  {
    if links == [] {
      assert [link][1..] == [];
    } else {
      MissingAliasesAppend(links[1..], link, answers, ttl, rclass);
      assert (links + [link])[1..] == links[1..] + [link];
    }
  }

  // ---------- The mutable context ----------

  class QueryContext {
    var query: Message
    var original: Message
    var response: Option<Message>
    var marks: set<nat>
    var rewrites: seq<Link>
    var entry: Option<EntryState>
    var pipelineEntry: Option<string>
    var skipCache: bool
    var stripEcs: bool
    var served: bool
    var client: Option<IpAddr>

    function State(): Ctx
      reads this
    {
      Ctx(query, original, response, marks, rewrites, entry, pipelineEntry, skipCache, stripEcs, served, client)
    }

    constructor (query: Message, client: Option<IpAddr>)
      ensures State() == New(query, client)
    {
      this.query, this.original := query, query;
      this.response, this.marks, this.rewrites := None, {}, [];
      this.entry, this.pipelineEntry := None, None;
      this.skipCache, this.stripEcs, this.served := false, false, false;
      this.client := client;
    }

    /** `clone_for_lazy`: a background context rewound to the state before the pipeline. */
    constructor ForLazy(c: QueryContext)
      ensures State() == CloneForLazy(c.State())
    {
      this.query, this.original := c.original, c.original;
      this.response, this.marks, this.rewrites := None, {}, [];
      this.stripEcs, this.served := false, false;
      this.client := c.client;
      if c.entry.Some? {
        this.query := c.entry.value.query;
        this.marks := c.entry.value.marks;
        this.stripEcs := c.entry.value.stripEcs;
      }
      this.entry, this.pipelineEntry := c.entry, c.pipelineEntry;
      this.skipCache := true;
    }

    /** `fork`: an independent copy without the reply. */
    constructor ForBranch(c: QueryContext)
      ensures State() == Fork(c.State())
    {
      this.query, this.original := c.query, c.original;
      this.response, this.served := None, false;
      this.marks, this.rewrites := c.marks, c.rewrites;
      this.entry, this.pipelineEntry := c.entry, c.pipelineEntry;
      this.skipCache, this.stripEcs := c.skipCache, c.stripEcs;
      this.client := c.client;
    }

    method DoSetResponse(m: Message)
      modifies this
      ensures State() == SetResponse(old(State()), m)
    {
      response := Some(m.(id := query.id, kind := Response));
      served := false;
    }

    method DoDropResponse()
      modifies this
      ensures State() == DropResponse(old(State()))
    {
      response := None;
      served := false;
    }

    method DoReject(rcode: nat)
      modifies this
      ensures State() == Reject(old(State()), rcode)
    {
      DoSetResponse(ReplySkeleton(query, rcode));
    }

    method DoBeginPipeline(tag: string)
      modifies this
      ensures State() == BeginPipeline(old(State()), tag)
    {
      if entry.None? {
        entry := Some(EntryState(query, marks, stripEcs));
        pipelineEntry := Some(tag);
      }
    }

    method DoRewriteName(target: Name)
      modifies this
      ensures State() == RewriteName(old(State()), target)
    {
      var name := target.(fqdn := true);
      if query.questions != [] {
        var question := query.questions[0];
        if !SameName(question.name, name) {
          rewrites := rewrites + [(question.name, name)];
          query := query.(questions := query.questions[0 := question.(name := name)]);
        }
      }
    }

    method DoClampTtl(lo: u32, hi: u32)
      requires lo <= hi
      modifies this
      ensures State() == ClampTtl(old(State()), lo, hi)
    {
      if response.Some? {
        var m := response.value;
        response := Some(m.(answers := ClampedRecords(m.answers, lo, hi),
                            nameServers := ClampedRecords(m.nameServers, lo, hi)));
      }
    }

    method DoFilterAnswers(dropped: u16)
      modifies this
      ensures State() == FilterAnswers(old(State()), dropped)
    {
      if response.Some? {
        var m := response.value;
        response := Some(m.(answers := WithoutType(m.answers, dropped)));
      }
    }

    method DoAbsorb(branch: QueryContext)
      modifies this
      ensures State() == Absorb(old(State()), old(branch.State()))
    {
      query, response, marks, rewrites := branch.query, branch.response, branch.marks, branch.rewrites;
      stripEcs, skipCache, served := branch.stripEcs, branch.skipCache, branch.served;
    }

    /** The alias loop of `response_for_query`. */
    method BuildResponseFor(snapshot: Message, rewriteStart: nat) returns (r: Option<Message>)
      ensures r == ResponseForQuery(State(), snapshot, rewriteStart)
    {
      if response.None? {
        return None;
      }
      var reply := Rebind(response.value, snapshot);
      var aliases := From(rewrites, rewriteStart);
      if aliases != [] && (reply.rcode == NO_ERROR || reply.rcode == NX_DOMAIN) {
        var ttl := MinTtl(reply);
        var records: seq<Record> := [];
        for i := 0 to |aliases|
          invariant records == MissingAliases(aliases[..i], reply.answers, ttl, AliasClass(snapshot))
        {
          MissingAliasesAppend(aliases[..i], aliases[i], reply.answers, ttl, AliasClass(snapshot));
          assert aliases[..i] + [aliases[i]] == aliases[..i + 1];
          if !Present(reply.answers, aliases[i]) {
            records := records + [AliasRecord(aliases[i], ttl, AliasClass(snapshot))];
          }
        }
        assert aliases[..|aliases|] == aliases;
        reply := reply.(answers := records + reply.answers, authenticData := false);
      }
      return Some(reply);
    }

    method DoFinalizeResponse()
      modifies this
      ensures State() == FinalizeResponse(old(State()))
    {
      var reply := BuildResponseFor(original, 0);
      response := reply;
    }
  }
}
