/** The call-graph validator of `src/runtime.rs`: a memoised depth-first walk that accepts
exactly the configurations every run of which terminates within 64 nested plugins. */
module CallGraph {
  import opened Wrappers
  import opened Context
  import opened Steps
  import opened CacheKey
  import opened Pipeline
  import opened PipelineBounds

  const MAX_PIPELINE_DEPTH: nat := 64

  type Edges = map<Tag, seq<Tag>>

  // ---------- Chains of calls ----------

  /** `p` is a sequence of executables, each calling the next. */
  predicate Chain(edges: Edges, p: seq<Tag>) {
    && p != []
    && (forall i | 0 <= i < |p| :: p[i] in edges)
    && (forall i | 0 <= i < |p| - 1 :: p[i + 1] in edges[p[i]])
  }

  predicate Targeted(edges: Edges) {
    forall t | t in edges :: forall u | u in edges[t] :: u in edges
  }

  ghost predicate ChainsWithin(edges: Edges, bound: nat) {
    forall p | Chain(edges, p) :: |p| <= bound
  }

  ghost predicate LongestFrom(edges: Edges, t: Tag, d: nat) {
    && (exists p :: Chain(edges, p) && p[0] == t && |p| == d)
    && (forall p | Chain(edges, p) && p[0] == t :: |p| <= d)
  }

  /** A chain that comes back to where it was. */
  predicate Loops(edges: Edges, p: seq<Tag>) {
    Chain(edges, p) && |p| >= 2 && exists k | 0 <= k < |p| - 1 :: p[k] == p[|p| - 1]
  }

  ghost predicate Acyclic(edges: Edges) { forall p :: !Loops(edges, p) }

  lemma ChainJoin(edges: Edges, p: seq<Tag>, q: seq<Tag>)
    requires Chain(edges, p) && Chain(edges, q) && p[|p| - 1] == q[0]
    ensures Chain(edges, p + q[1..])
  {
    var r := p + q[1..];
    forall i | 0 <= i < |r| - 1 ensures r[i + 1] in edges[r[i]] {
      if i >= |p| - 1 {
        assert r[i + 1] == q[i + 1 - (|p| - 1)];
        assert r[i] == q[i - (|p| - 1)];
      }
    }
  }

  /** Going round a loop makes chains of any length. */
  lemma {:induction false} LoopsGrow(edges: Edges, p: seq<Tag>, n: nat) returns (q: seq<Tag>)
    requires Loops(edges, p)
    ensures Chain(edges, q) && |q| > n && q[|q| - 1] == p[|p| - 1]
  {
    if n == 0 {
      q := p;
    } else {
      var k :| 0 <= k < |p| - 1 && p[k] == p[|p| - 1];
      var r := LoopsGrow(edges, p, n - 1);
      var round := p[k..];
      assert Chain(edges, round) by {
        assert forall i | 0 <= i < |round| :: round[i] == p[k + i];
      }
      ChainJoin(edges, r, round);
      q := r + round[1..];
    }
  }

  /** Bounded chains are the same as no loops and bounded simple chains. */
  lemma BoundedMeansAcyclic(edges: Edges, bound: nat)
    ensures ChainsWithin(edges, bound)
       <==> Acyclic(edges) && forall p | Chain(edges, p) && Distinct(p) :: |p| <= bound
  {
    if ChainsWithin(edges, bound) {
      forall p ensures !Loops(edges, p) {
        if Loops(edges, p) {
          var q := LoopsGrow(edges, p, bound);
        }
      }
    }
    if Acyclic(edges) && forall p | Chain(edges, p) && Distinct(p) :: |p| <= bound {
      forall p | Chain(edges, p) ensures |p| <= bound {
        forall i, j | 0 <= i < j < |p| ensures p[i] != p[j] {
          var part := p[..j + 1];
          assert Chain(edges, part);
          assert !Loops(edges, part);
          assert part[i] == p[i] && part[|part| - 1] == p[j];
        }
        assert Distinct(p);
      }
    }
  }

  lemma SuffixIsChain(edges: Edges, p: seq<Tag>)
    requires Chain(edges, p) && |p| > 1
    ensures Chain(edges, p[1..]) && p[1] in edges[p[0]]
  {
    assert forall i | 0 <= i < |p| - 1 :: p[1..][i] == p[i + 1];
  }

  /** The longest chain from a node is one more than the longest from any of its targets. */
  lemma LongestFromTargets(edges: Edges, t: Tag, d: nat, depths: map<Tag, nat>)
    requires t in edges
    requires forall u | u in edges[t] :: u in depths && LongestFrom(edges, u, depths[u]) && 1 + depths[u] <= d
    requires d == 1 || exists u | u in edges[t] :: d == 1 + depths[u]
    ensures LongestFrom(edges, t, d)
  {
    forall p | Chain(edges, p) && p[0] == t ensures |p| <= d {
      if |p| > 1 {
        SuffixIsChain(edges, p);
      } else {
        assert d >= 1;
      }
    }
    if d == 1 {
      assert Chain(edges, [t]);
    } else {
      var u :| u in edges[t] && d == 1 + depths[u];
      var q :| Chain(edges, q) && q[0] == u && |q| == depths[u];
      var p := [t] + q;
      assert Chain(edges, p) && p[0] == t && |p| == d;
    }
  }

  // ---------- Errors ----------

  datatype ConfigError =
    | InvalidTag(tag: Tag)
    | DuplicateTag(tag: Tag)
    | UnknownExecutable(tag: Tag, target: Tag)
    | ReferenceCycle(chain: seq<Tag>)
    | DepthExceeded

  /** An error of the walk is backed by a loop or an over-long chain in the graph. */
  ghost predicate WalkErrorIsReal(edges: Edges, e: ConfigError) {
    match e
    case ReferenceCycle(chain) => Loops(edges, chain)
    case DepthExceeded => exists p :: Chain(edges, p) && |p| > MAX_PIPELINE_DEPTH
    case _ => false
  }

  lemma RealErrorIsUnbounded(edges: Edges, e: ConfigError)
    requires WalkErrorIsReal(edges, e)
    ensures !ChainsWithin(edges, MAX_PIPELINE_DEPTH)
  {
    if e.ReferenceCycle? {
      var q := LoopsGrow(edges, e.chain, MAX_PIPELINE_DEPTH);
    }
  }

  // ---------- The walk ----------

  /** Every memoised depth is the exact longest chain. */
  ghost predicate Memo(edges: Edges, depths: map<Tag, nat>) {
    forall t | t in depths :: LongestFrom(edges, t, depths[t]) && depths[t] <= MAX_PIPELINE_DEPTH
  }

  /** The active stack is the chain of calls that led to `tag`. */
  predicate Leads(edges: Edges, active: seq<Tag>, tag: Tag) {
    |active| <= MAX_PIPELINE_DEPTH && Chain(edges, active + [tag])
  }

  lemma ActiveAgain(edges: Edges, active: seq<Tag>, tag: Tag)
    requires Leads(edges, active, tag) && tag in active
    ensures Loops(edges, active + [tag])
  {
    var chain := active + [tag];
    var k :| 0 <= k < |active| && active[k] == tag;
    assert chain[k] == chain[|chain| - 1];
  }

  lemma LeadsOn(edges: Edges, active: seq<Tag>, tag: Tag, target: Tag)
    requires Leads(edges, active, tag) && |active| < MAX_PIPELINE_DEPTH
    requires Targeted(edges) && tag in edges && target in edges[tag]
    ensures Leads(edges, active + [tag], target)
  {
  }

  /** The depth found from the targets is exact, and too large only if the chain is. */
  lemma DepthFound(edges: Edges, tag: Tag, depth: nat, depths: map<Tag, nat>)
    requires tag in edges && Memo(edges, depths)
    requires forall u | u in edges[tag] :: u in depths && 1 + depths[u] <= depth
    requires depth == 1 || exists u | u in edges[tag] :: depth == 1 + depths[u]
    ensures LongestFrom(edges, tag, depth)
    ensures depth > MAX_PIPELINE_DEPTH ==> WalkErrorIsReal(edges, DepthExceeded)
  {
    LongestFromTargets(edges, tag, depth, depths);
  }

  /** The two collections `visit_plugin` updates in place. */
  class Walk {
    var active: seq<Tag>
    var depths: map<Tag, nat>

    constructor ()
      ensures active == [] && depths == map[]
    {
      active, depths := [], map[];
    }

    method Visit(tag: Tag, edges: Edges) returns (r: Result<nat, ConfigError>)
      requires Targeted(edges) && tag in edges
      requires Memo(edges, depths) && Leads(edges, active, tag)
      modifies this
      ensures Memo(edges, depths)
      ensures forall t | t in old(depths) :: t in depths && depths[t] == old(depths)[t]
      ensures r.Ok? ==> active == old(active) && tag in depths && r.value == depths[tag]
      ensures r.Err? ==> WalkErrorIsReal(edges, r.error)
      decreases MAX_PIPELINE_DEPTH - |active|
    {
      hide Chain, LongestFrom, Loops;
      if tag in depths {
        return Ok(depths[tag]);
      }
      if tag in active {
        ActiveAgain(edges, active, tag);
        return Err(ReferenceCycle(active + [tag]));
      }
      if |active| >= MAX_PIPELINE_DEPTH {
        assert |active + [tag]| > MAX_PIPELINE_DEPTH;
        return Err(DepthExceeded);
      }
      active := active + [tag];
      var depth := 1;
      var targets := edges[tag];
      for i := 0 to |targets|
        invariant active == old(active) + [tag]
        invariant Memo(edges, depths)
        invariant forall t | t in old(depths) :: t in depths && depths[t] == old(depths)[t]
        invariant forall j | 0 <= j < i :: targets[j] in depths && 1 + depths[targets[j]] <= depth
        invariant depth == 1 || exists j | 0 <= j < i :: depth == 1 + depths[targets[j]]
      {
        LeadsOn(edges, old(active), tag, targets[i]);
        var below := Visit(targets[i], edges);
        if below.Err? {
          return below;
        }
        if depth < 1 + below.value {
          depth := 1 + below.value;
          assert depth == 1 + depths[targets[i]];
        }
      }
      active := active[..|active| - 1];
      DepthFound(edges, tag, depth, depths);
      if depth > MAX_PIPELINE_DEPTH {
        return Err(DepthExceeded);
      }
      depths := depths[tag := depth];
      return Ok(depth);
    }
  }

  // ---------- Configurations ----------

  /** A declared plugin: a named domain or address set, or an executable. */
  datatype Body = NameSet | Executable(plugin: Plugin)

  datatype Decl = Decl(tag: Tag, body: Body)

  predicate ValidTag(tag: Tag) {
    tag != "" && tag[0] != '$' && forall c | c in tag :: !IsWhitespace(c)
  }

  predicate TagsUsable(decls: seq<Decl>) {
    && (forall i | 0 <= i < |decls| :: ValidTag(decls[i].tag))
    && (forall i, j | 0 <= i < j < |decls| :: decls[i].tag != decls[j].tag)
  }

  function PluginsOf(decls: seq<Decl>): map<Tag, Plugin> {
    if decls == [] then map[]
    else
      var last := decls[|decls| - 1];
      var rest := PluginsOf(decls[..|decls| - 1]);
      if last.body.NameSet? then rest else rest[last.tag := last.body.plugin]
  }

  function EdgesOf(plugins: map<Tag, Plugin>): Edges {
    map t | t in plugins :: Calls(plugins[t])
  }

  /** What validation is for: usable tags, no dangling call, and no chain of over 64 calls. */
  ghost predicate Acceptable(decls: seq<Decl>) {
    && TagsUsable(decls)
    && Targeted(EdgesOf(PluginsOf(decls)))
    && ChainsWithin(EdgesOf(PluginsOf(decls)), MAX_PIPELINE_DEPTH)
  }

  lemma {:induction false} StepCallsAppend(steps: seq<Step>, step: Step)
    ensures StepCalls(steps + [step])
         == StepCalls(steps) + (if StepTarget(step).Some? then [StepTarget(step).value] else [])
  {
    if steps == [] {
      assert [step][1..] == [];
    } else {
      StepCallsAppend(steps[1..], step);
      assert (steps + [step])[1..] == steps[1..] + [step];
    }
  }

  /** The loop that collects `$tag` calls and `goto` targets of a sequence. */
  method CollectCalls(steps: seq<Step>) returns (calls: seq<Tag>)
    ensures calls == StepCalls(steps)
  {
    calls := [];
    for i := 0 to |steps|
      invariant calls == StepCalls(steps[..i])
    {
      StepCallsAppend(steps[..i], steps[i]);
      assert steps[..i] + [steps[i]] == steps[..i + 1];
      match steps[i].exec
      case Call(tag) => calls := calls + [tag];
      case Run(b) =>
        if b.DoGoto? {
          calls := calls + [b.tag];
        }
    }
    assert steps[..|steps|] == steps;
  }

  /** Memoised depths cover exactly the executables, each the exact longest chain. */
  ghost predicate DepthsExact(edges: Edges, depths: map<Tag, nat>) {
    depths.Keys == edges.Keys && forall t | t in edges :: LongestFrom(edges, t, depths[t]) && depths[t] <= MAX_PIPELINE_DEPTH
  }

  /** The pair is a reference from an executable to something that is none. */
  predicate Dangles(edges: Edges, tag: Tag, target: Tag) {
    tag in edges && target in edges[tag] && target !in edges
  }

  /** Every rejection names an actual fault of the configuration. */
  ghost predicate ErrorIsReal(decls: seq<Decl>, e: ConfigError) {
    match e
    case InvalidTag(tag) => !ValidTag(tag) && exists i | 0 <= i < |decls| :: decls[i].tag == tag
    case DuplicateTag(tag) => exists i, j | 0 <= i < j < |decls| :: decls[i].tag == tag && decls[j].tag == tag
    case UnknownExecutable(tag, target) => Dangles(EdgesOf(PluginsOf(decls)), tag, target)
    case _ => WalkErrorIsReal(EdgesOf(PluginsOf(decls)), e)
  }

  /** The first loop of validation: checks tags and collects the calls of each executable. */
  method CollectEdges(decls: seq<Decl>) returns (r: Result<Edges, ConfigError>)
    ensures r.Ok? <==> TagsUsable(decls)
    ensures r.Ok? ==> r.value == EdgesOf(PluginsOf(decls))
    ensures r.Err? ==> (r.error.InvalidTag? || r.error.DuplicateTag?) && ErrorIsReal(decls, r.error)
  {
    hide ValidTag, Calls;
    var tags: set<Tag>, edges: Edges := {}, map[];
    for i := 0 to |decls|
      invariant TagsUsable(decls[..i])
      invariant tags == set j | 0 <= j < i :: decls[j].tag
      invariant edges == EdgesOf(PluginsOf(decls[..i]))
    {
      var tag := decls[i].tag;
      assert decls[..i + 1][..i] == decls[..i] && decls[..i + 1][i] == decls[i];
      if !ValidTag(tag) {
        return Err(InvalidTag(tag));
      }
      if tag in tags {
        var j :| 0 <= j < i && decls[j].tag == tag;
        return Err(DuplicateTag(tag));
      }
      tags := tags + {tag};
      if decls[i].body.Executable? {
        var calls := CallsOf(decls[i].body.plugin);
        edges := edges[tag := calls];
      }
    }
    assert decls[..|decls|] == decls;
    return Ok(edges);
  }

  method CallsOf(p: Plugin) returns (calls: seq<Tag>)
    ensures calls == Calls(p)
  {
    match p
    case Sequence(steps) => calls := CollectCalls(steps);
    case Fallback(primary, secondary, _) => calls := [primary, secondary];
    case _ => calls := [];
  }

  /** `validate_plugin_graph`, with the depths it computed. The executables are visited in
      whatever order the hash map yields them. */
  method ValidatePluginGraph(decls: seq<Decl>) returns (r: Result<(), ConfigError>, depths: map<Tag, nat>)
    ensures r.Ok? <==> Acceptable(decls)
    ensures r.Ok? ==> DepthsExact(EdgesOf(PluginsOf(decls)), depths)
    ensures r.Err? ==> ErrorIsReal(decls, r.error)
  {
    depths := map[];
    var collected := CollectEdges(decls);
    if collected.Err? {
      return Err(collected.error), depths;
    }
    var edges := collected.value;
    var dangling := FindDangling(edges);
    if dangling.Some? {
      return Err(UnknownExecutable(dangling.value.0, dangling.value.1)), depths;
    }
    var walked;
    walked, depths := WalkAll(edges);
    if walked.Err? {
      RealErrorIsUnbounded(edges, walked.error);
      return walked, depths;
    }
    forall p | Chain(edges, p) ensures |p| <= MAX_PIPELINE_DEPTH {
      assert p[0] in edges;
    }
    return Ok(()), depths;
  }

  method FindDangling(edges: Edges) returns (found: Option<(Tag, Tag)>)
    ensures found.None? <==> Targeted(edges)
    ensures found.Some? ==> Dangles(edges, found.value.0, found.value.1)
  {
    var todo := edges.Keys;
    while todo != {}
      invariant todo <= edges.Keys
      invariant forall t | t in edges && t !in todo :: forall u | u in edges[t] :: u in edges
    {
      var tag :| tag in todo;
      for i := 0 to |edges[tag]|
        invariant forall j | 0 <= j < i :: edges[tag][j] in edges
      {
        if edges[tag][i] !in edges {
          return Some((tag, edges[tag][i]));
        }
      }
      todo := todo - {tag};
    }
    return None;
  }

  method WalkAll(edges: Edges) returns (r: Result<(), ConfigError>, depths: map<Tag, nat>)
    requires Targeted(edges)
    ensures r.Ok? ==> DepthsExact(edges, depths)
    ensures r.Err? ==> WalkErrorIsReal(edges, r.error)
  {
    var walk := new Walk();
    var todo := edges.Keys;
    while todo != {}
      invariant todo <= edges.Keys
      invariant Memo(edges, walk.depths)
      invariant edges.Keys - todo <= walk.depths.Keys
    {
      var tag :| tag in todo;
      walk.active := [];
      assert [] + [tag] == [tag];
      var depth := walk.Visit(tag, edges);
      if depth.Err? {
        return Err(depth.error), walk.depths;
      }
      todo := todo - {tag};
    }
    forall t | t in walk.depths ensures t in edges {
      var p :| Chain(edges, p) && p[0] == t && |p| == walk.depths[t];
    }
    return Ok(()), walk.depths;
  }

  // ---------- What acceptance gives the interpreter ----------

  function RegistryOf(decls: seq<Decl>, depths: map<Tag, nat>, encodes: Encoder): Registry {
    Registry(PluginsOf(decls), depths, encodes)
  }

  lemma DepthDecreases(edges: Edges, depths: map<Tag, nat>, t: Tag, u: Tag)
    requires DepthsExact(edges, depths) && t in edges && u in edges[t] && u in edges
    ensures depths[u] < depths[t]
  {
    var q :| Chain(edges, q) && q[0] == u && |q| == depths[u];
    var p := [t] + q;
    assert Chain(edges, p) && p[0] == t;
  }

  /** An accepted configuration gives a registry the interpreter terminates on. */
  lemma AcceptedIsRanked(decls: seq<Decl>, depths: map<Tag, nat>, encodes: Encoder)
    requires Acceptable(decls) && DepthsExact(EdgesOf(PluginsOf(decls)), depths)
    ensures Ranked(RegistryOf(decls, depths, encodes)) && Closed(RegistryOf(decls, depths, encodes))
  {
    var edges := EdgesOf(PluginsOf(decls));
    var reg := RegistryOf(decls, depths, encodes);
    forall t | t in reg.plugins ensures t in depths && depths[t] >= 1 {
      var p :| Chain(edges, p) && p[0] == t && |p| == depths[t];
    }
    forall t, u | t in reg.plugins && u in Calls(reg.plugins[t])
      ensures u in reg.plugins && u in depths && depths[u] < depths[t]
    {
      assert t in edges && u in edges[t];
      DepthDecreases(edges, depths, t, u);
    }
  }

  /** Every run of an accepted configuration, whatever matchers and surroundings do, nests at most
      64 plugins and never misses one. (That it ends at all is the termination of `Exec`.) */
  lemma AcceptedRunsAreBounded(decls: seq<Decl>, depths: map<Tag, nat>, encodes: Encoder, entry: Tag, c: Ctx, w: World)
    requires Acceptable(decls) && DepthsExact(EdgesOf(PluginsOf(decls)), depths)
    requires entry in PluginsOf(decls)
    ensures Ranked(RegistryOf(decls, depths, encodes))
    ensures var r := Exec(RegistryOf(decls, depths, encodes), entry, c, w, 0, 0);
            && !MissesPlugin(r.out)
            && forall k | |w.log| <= k < |r.w.log| && r.w.log[k].Enter? :: r.w.log[k].nest < MAX_PIPELINE_DEPTH
  {
    hide Ranked, Closed, Exec;
    AcceptedIsRanked(decls, depths, encodes);
    var reg := RegistryOf(decls, depths, encodes);
    ExecBounded(reg, entry, c, w, 0, 0);
    var r := Exec(reg, entry, c, w, 0, 0);
    forall k | |w.log| <= k < |r.w.log| && r.w.log[k].Enter? ensures r.w.log[k].nest < MAX_PIPELINE_DEPTH {
      assert WithinBounds(r.w.log[k], 0, Depth(reg, entry), c.skipCache);
    }
  }
}
