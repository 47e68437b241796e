# FerrumDNS: a verified model

FerrumDNS forwards DNS queries through a configured pipeline of plugins. This project models
the parts whose correctness depends on several of them at once, in Dafny, and proves what they
promise together:

- **the request** (`Context`, `Steps`, `Effects`, `Invariants`, `Server`, `Replies`): the per-query context, its name
  rewrites, forks and background clones, and the reply that is bound back to the client's
  question with the rewrites shown as CNAMEs (RFC 1034, section 3.6.2);
- **the interpreter** (`Pipeline`, `PipelineInvariants`, `PipelineBounds`, `PipelineReturns`,
  `PipelineWrites`, `LazyReplay`): sequences, `accept` / `return` / `goto`, fallbacks, cache steps, errors and
  cancellation, over every behaviour of the surroundings. `Exec` says what a run does and logs
  it; the methods `DoExec`, `DoRunSteps`, `DoJump`, `DoFallback`, `DoCache` and `DoStore` are the
  program's own loops over a mutable context and are proved to do exactly that;
- **the cache** (`Lru`, `Cache`, `CacheKey`, `CachePolicy`, `Aliases`, `Twins`, `Origins`,
  `EndToEnd`, `Upstreams`, `TwoClients`, `CacheFailures`): sixteen LRU shards, printed keys, TTL and
  lazy deadlines, single-flight refresh, and when a cached reply is the one the client's own run would
  have sent;
- **the call-graph validator** (`CallGraph`): the memoised walk that makes the recursive
  interpreter terminate;
- **races and reuse** (`FallbackRace`, `Forward`, `StreamPool`);
- **the domain suffix trie** (`SuffixTrie`).

`dafny verify dfyconfig.toml` checks everything.

## The main results

1. `EndToEnd.FreshHitIsUncachedReply` and `StaleHitIsUncachedReply`. Take any history of lookups,
   stores and flushes by any number of runs, and a request whose entry sequence makes a lookup that
   hits. The entry was written by a sequence run for a lookup it made at some step. Compare what
   the client is sent with what it would be sent for the same request in surroundings that miss
   there and from there on offer what the storing run met. Suppose

   - nothing runs after the hit (the next step accepts, or the step jumped to the cache),
   - the client's sequence and the storing run's have the same steps left,
   - at their lookups the two contexts agree on what those steps read; the clients themselves may
     differ where no step reads them, and so may ids, EDNS payload sizes and the case of the name
     (`Twins.Twin`), and upstreams answer like queries alike, each with its own id and question
     (`Twins.Impartial`).

   Then the two replies are equal, up to ageing (or re-timing) and, if names differ in case, the
   case of owner names and CNAME targets, **exactly when** no alias the client still needs is created again after the
   stored lookup, the least TTL ages or is not needed, and the storing run had no subnet to strip
   that the hit leaves in. `EndToEnd.OneKeyAgrees` gives the third point for any two clients with
   one key whose lookups come first, and `Upstreams.RespondersAreImpartial` the answers: any upstreams
   whose content does not depend on the id, payload size or case of a query, and that echo its id and
   question, with or without its spelling in owner names, and any hosts tables, answer like queries
   alike. `TwoClients.SecondClientIsServed` puts it together for the pipeline that looks up, accepts a
   hit and else asks such an upstream: any two clients with one key are served alike.
2. `Twins.ExecTwins`. What a run reads: contexts that agree on it run alike.
   `Origins.RunResumes` ties each cache write to the run it came from.
3. `Aliases.CommutationIsExact`. The exact condition, without assumptions on TTLs, under which
   storing, ageing for every time, hitting and finalising is the same as finalising and ageing.
4. `PipelineWrites.WritesAreEarned` and `EarnedAreWritten`. What a run writes to caches: exactly
   the storable lookups of the sequences in it that ended normally, never a reply a cache supplied.
5. `LazyReplay.RefreshRepeatsRun`. A background task started at a request's first hit follows the
   request event for event up to that hit, in any surroundings that agree up to there; it takes no hit and
   starts no refresh in any surroundings.
6. `CallGraph.ValidatePluginGraph` and `AcceptedRunsAreBounded`. Validation accepts exactly the
   graphs whose chains are bounded by 64, with exact depths; every run of an accepted
   configuration ends, nests at most 64 plugins and misses none.
7. `Server.EveryReplyIsTheClients` and `ShownSubnetIsCached`. Every reply, after any error or
   timeout, answers the client; with honest upstreams it shows a subnet the client did not send
   exactly when the run ends on a hit that carries one and nothing strips it.
8. `Lru.Inclusion`, `Lru.EvictsLeastRecentlyUsed` and `Cache.HitIsLatestStore`. A larger shard holds
   everything a smaller one does; the bounded, sharded cache refines a map to the latest store.
9. `FallbackRace.ModesAgree` and `RaceIsFallback`. Both fallback modes, as polled futures, choose
   the same winner and leave the same state, which is the state the interpreter's fallback leaves.
10. `Replies.ReplyFields`, `PipelineReturns.ReturnStopsRun`, `Effects.FallbackWinner`,
   `Cache.StoredIsServed` and `SuffixTrie.DomainSet.SuffixMatch`. What is sent, where a sequence
   stops, which branch wins, how long an entry is served and which domains match, each in terms of
   message fields, steps, times and text rather than of the functions that compute it.

## Where a natural property fails

Three properties one would expect do not hold of the code as it stands. Each has a concrete
failing input and the condition under which it does hold.

- *A cached reply equals the reply the client's own run would have got.* It fails in five ways.
  - A redirect chain that visits the same link before and after the lookup (`a` to `b`, back to
    `a`, lookup, to `b`) loses a CNAME, because the stored alias makes the outer one look present:
    `CachePolicy.RepeatedAliasIsLost`.
  - The key does not name what steps behind the cache may depend on. If a step behind it refuses one
    client (or tests a mark, or attaches a subnet derived from the address), another client's reply
    is served instead: `CacheFailures.ClientDependentStepIsBypassed`.
  - Two sequences may share a cache, of two servers for example. A client of one is served what the
    other stored, although the steps behind its own lookup would have answered otherwise:
    `CacheFailures.SharedCacheServesOther`.
  - Steps that run after a hit run on the stored reply a second time. A `ttl` clamp undoes the
    ageing: `CacheFailures.StepsAfterHitRunTwice`.
  - A subnet attached behind the cache is stripped from the storing client's reply only (next item).

  What is left besides is spelling. An upstream that spells owner names as it was asked spells them as
  the storing client did; to a client that spells the name otherwise the hit shows that:
  `TwoClients.SpellingShowsThroughCache`.

  Under the three suppositions of result 1 it holds exactly under the condition given there. Those
  are properties of the configuration and of the two contexts at their lookups; they are sufficient,
  and not necessary where the steps left differ without effect on the reply.
- *A reply carries no subnet the client did not send.* `tests/e2e.rs:256` asks this of a pipeline
  with `ecs` before the cache. With `ecs` behind the cache the entry is filed under a key without a
  subnet but keeps the one upstream echoed, and the next client, whose own run attaches nothing, is
  shown it: `CacheFailures.SubnetLeaksThroughCache`. A reply shows a subnet exactly when the
  client sent EDNS, the strip flag is unset and the reply to be finalised carries one
  (`Server.SubnetShownExactly`); an entry carries one exactly when its reply does and its lookup's
  query has EDNS (`CachePolicy.StoredSubnet`). With upstreams that echo a subnet only when they were
  sent one, a client that sent none is shown one exactly when its run ends, with the flag unset, on
  a hit that carries one (`Server.ShownSubnetIsCached`); in particular never if no entry does
  (`Server.DisclosedSubnetWasSupplied`).
- *A fresh hit never serves TTL 0.* The clock is read again after the lookup to compute the age. If
  the deadline passes in between, TTL 0 is served: `Cache.SecondReadingCanZeroTtl`. For ages below
  2^32 seconds it holds exactly when the second reading is before the deadline too:
  `Cache.TtlsSurviveSecondReading`. With one reading it always holds: `Cache.FreshHitTtls`.

The helpers `min_ttl` and `subtract_ttl` taken by themselves disagree on a message whose least TTL
is held only by an OPT record among the answers or authority records
(`DnsMessage.MisplacedOptBreaksAgeing`); they agree exactly otherwise
(`DnsMessage.MinTtlCommutesWithAgeing`). RFC 6891, section 6.1.1, allows OPT in the additional section
only. If decoding enforces that, which is library code and assumed nowhere in the proofs, no received
message is affected (`DnsMessage.OptInPlaceDecays`).

## Reading guide

`QueryContext.State()` is the value (`Ctx`) of a context object; every mutating method is specified
by a function on that value. The tape of a run decides, at each plugin entered, whether the run is dropped
there, what an upstream or hosts table would answer to any query, and what the cache holds. Statements about a run
therefore cover every matcher outcome, reply, timeout and cancellation point. `Ranked` registries are those
with a depth that falls along every call; `CallGraph.AcceptedRunsAreBounded` shows that validated
configurations give such registries.

## Model

| member | source | states |
|---|---|---|
| EndToEnd.FreshHitIsUncachedReply | src/plugin/cache.rs:203-337 | in any history a fresh hit of a request's entry sequence was stored by a sequence run for a lookup under this key, from a reply no cache supplied; finalised, it is that run's reply continued for this client and aged, if and only if no needed alias repeats and the least TTL ages or is not needed; if nothing runs after the hit and the same steps were left, reading only what client and storing run agree on, what is sent is what the same request would be sent in its own surroundings, aged (between clients whose names differ in case: up to the case of names), if and only if moreover the storing run had no subnet to strip that the hit leaves in |
| EndToEnd.StaleHitIsUncachedReply | src/plugin/cache.rs:314-330 | the same for a lazy hit, within the lazy window, with every answer and authority TTL set to the reply TTL, if and only if no needed alias repeats and there is no such subnet |
| EndToEnd.HitHasSource | src/plugin/cache.rs:203-269 | whatever a lookup returns was put there by a sequence run that ended, for the same key, from a reply no cache supplied; taken up again at that lookup's step, the run ends as it did |
| EndToEnd.OneKeyAgrees | src/plugin/cache.rs:149-184 | any two clients whose simple queries have one key, at lookups that come first, agree on what the steps left read if no step reads the client and upstreams answer like queries alike: addresses, ids and payload sizes may differ, and, if case is folded, the case of the name |
| TwoClients.SecondClientIsServed | src/plugin/cache.rs:303-337 | for any two clients with one key in front of a pipeline that looks up, accepts a hit and else asks an upstream or hosts table: if the first client's reply is stored, the second, served from the cache after any number of seconds, is sent what it would be sent without the cache, aged; up to the case of names if theirs differs |
| TwoClients.ClientsAgree | src/plugin/cache.rs:149-184 | two such clients meet everything the results about hits ask of client and storing run |
| TwoClients.SpellingShowsThroughCache | src/plugin/cache.rs:314-330 | two concrete clients with different addresses, ids, payload sizes and spelling: the second is sent the first one's spelling, and nothing else differs |
| Upstreams.RespondersAreImpartial | src/dnsutil.rs:36-52 | any sequence of upstreams, whose content depends on what is asked only and whose replies echo id and question, and of hosts tables answers like queries alike, with or without folding case, and each reply is one the transports accept |
| Upstreams.HostsTwin | src/plugin/hosts.rs:65-95 | a hosts table's replies to like queries are alike: same records under the lower-cased name, same options, or none to either |
| Upstreams.HostsAnswer | src/plugin/hosts.rs:65-95 | a hosts table answers exactly for its names: NOERROR, authoritative, with its addresses of the family asked for, or both for ANY, under the lower-cased name, if need be none |
| Upstreams.LikeQueriesAskAlike | src/plugin/cache.rs:149-184 | like queries do not differ in what an upstream's content may depend on: opcode, RD, AD and CD, question up to case, EDNS version, DO bit and options |
| EndToEnd.HitReplyIs | src/plugin/cache.rs:314-330 | if nothing runs after a hit of the entry sequence, the client is sent the hit, rebound, finalised with its whole chain and stripped as flagged |
| EndToEnd.OwnRunReaches | src/plugin/cache.rs:303-337 | the same request in surroundings that agree up to its first hit, with lookups on or off, reaches that lookup at the same step in the same context |
| EndToEnd.OwnTapeExists | src/plugin/cache.rs:303-337 | for every request and storing run there are surroundings that are the request's own before its lookup and the storing run's from there on |
| EndToEnd.OwnRunEndsAlike | src/plugin/sequence.rs:179-229 | from there on, in the storing run's surroundings, a client that agrees with it ends its own sequence normally with a reply that is equal up to id, question, EDNS mode and, if folded, the case of names, and its rewrites followed by like later ones |
| EndToEnd.PointIsSound | src/plugin/cache.rs:195-201 | every context in which a request remembers a lookup is sound, belongs to the request, looks up, and has the lookup's key as the key of its query |
| Twins.ExecTwins | src/plugin/sequence.rs:179-229 | contexts that agree on what steps read, from one client or from two none of the reached plugins reads, in surroundings with the same cancellations, upstreams and effective hits ahead, end alike: same outcome, the same ahead, again in agreement, like later rewrites; upstreams need answer like queries only alike, each with its own id and question |
| Twins.RunStepsTwins | src/plugin/sequence.rs:179-229 | the same from any step on, also of two sequences with the same steps left |
| Twins.SameQuerySameKey | src/plugin/cache.rs:149-184 | queries that agree in this sense have the same cache key |
| Twins.OneKeyIsAlike | src/plugin/cache.rs:149-184 | simple queries with one key, absolute names and at most a subnet with scope 0 agree in this sense, up to case, and without that if the names are spelled alike |
| Steps.CaseIsIgnored | src/matcher.rs:151-156 | names equal up to case are one to domain sets, redirect rules and cache keys |
| Steps.DomainTextOfName | src/matcher.rs:151-156 | domain sets are asked for a name's own text in lower case, without its final dot |
| Origins.RunResumes | src/plugin/sequence.rs:189-235 | each lookup remembered by a sequence run that ended leads there: taken up again at its step, the sequence ends normally in the context its writes were made from |
| Origins.EntryLeads | src/plugin/sequence.rs:179-229 | each lookup remembered by the sequence a run enters leads to the run's own outcome and final context |
| CacheFailures.SubnetLeaksThroughCache | src/plugin/cache.rs:262-269 | two runs of one pipeline with `ecs` behind the cache: the first stores a reply with its client's subnet and strips its own copy, the second, which sent no subnet, is sent it |
| CacheFailures.ClientDependentStepIsBypassed | src/plugin/cache.rs:149-184 | any two clients with one key and a step behind the cache that refuses the second: its own run is REFUSED, its hit is the first client's NOERROR reply |
| CacheFailures.SharedCacheServesOther | src/plugin/sequence.rs:189-197 | one client, one query, two pipelines with one cache: through the second its own run is NXDOMAIN, its hit the NOERROR reply the first stored |
| CacheFailures.StepsAfterHitRunTwice | src/plugin/cache.rs:322-330 | with a clamp after the cache, a reply with TTL 300 aged by 10 seconds is sent with TTL 300 again instead of 290 |
| Aliases.CommutationIsExact | src/context.rs:153-205 | for every reply: caching for any time commutes with alias synthesis if and only if no missing link repeats across the lookup, and the least TTL ages, or a stored alias ages in its place, or the hit needs no alias |
| Aliases.CacheAliasCommutation | src/plugin/cache.rs:214-244 | store at rewrite index k, age, hit with the first k rewrites and finalise gives the finalised original aged, including CNAME order, TTLs, class, AD bit and EDNS, if and only if no missing link repeats |
| Aliases.LazyAliasCommutation | src/plugin/cache.rs:317-321 | the same when the TTLs are overwritten for a lazy hit |
| Aliases.AliasesInTwoSteps | src/context.rs:160-186 | adding the aliases after a lookup first and the earlier ones later equals adding all at once, if and only if no missing link repeats |
| Aliases.AliasesKeepMinTtl | src/context.rs:167-186 | synthesised aliases never change the least TTL of a reply |
| Aliases.EveryLinkPresent | src/context.rs:169-183 | after synthesis every rewrite is a CNAME in the answers |
| Aliases.AddedRecords | src/context.rs:169-181 | only rewrites that were missing are added, with the given TTL and class |
| Aliases.MissingAfterStored | src/context.rs:169-181 | a stored alias hides an outer one if and only if the same missing link repeats |
| CachePolicy.CachedReplyIsUncachedReply | src/plugin/cache.rs:262-269 | a reply stored for one query and served to another sound query under the same key is, finalised, the storing run's reply continued for that query and aged, if and only if no needed alias repeats and the least TTL ages or no alias is added; if a record that ages holds the least TTL it always ages |
| CachePolicy.LazyReplyIsUncachedReply | src/plugin/cache.rs:317-330 | the same for a lazy hit, if and only if no needed alias repeats |
| CachePolicy.StoredSubnet | src/plugin/cache.rs:262-269 | an entry carries a subnet, the reply's, if and only if the reply does and the lookup's query has EDNS, with or without a subnet of its own |
| CachePolicy.RepeatedAliasIsLost | src/context.rs:170-173 | the concrete redirect chain for which the cached reply has fewer aliases than the uncached one |
| CachePolicy.SameKeyAgrees | src/plugin/cache.rs:149-184 | queries sharing a key agree on question class and on carrying EDNS |
| CacheKey.KeyTextIsExact | src/plugin/cache.rs:149-184 | two simple cacheable queries print the same key if and only if they agree on normalised name, type, class, ECS address and prefix, RD, CD, AD, EDNS presence, version and DO |
| CacheKey.KeyExists | src/plugin/cache.rs:149-193 | a query has a key exactly if it has no option but subnets and asks one question without records, or everything is to be cached and it can be encoded; keys of the latter are equal exactly for queries equal up to id |
| CacheKey.PrintInjective | src/plugin/cache.rs:171-183 | printed keys are equal only for equal keys, even when a printed name contains the separator |
| CacheKey.SimpleIsNotWire | src/plugin/cache.rs:163-168 | no field-by-field key prints like a `wire:` key |
| CacheKey.SameNameSameKey | src/plugin/cache.rs:173-175 | absolute names that are DNS-equal have the same key text |
| Pipeline.DoExec | src/plugin/sequence.rs:179-229 | running a plugin on a mutable context gives exactly the outcome, context and log of `Exec` |
| Pipeline.DoRunSteps | src/plugin/sequence.rs:179-229 | the step loop, with its list of deferred cache writes, does exactly what `RunSteps` says for each matcher outcome and action |
| Pipeline.DoJump | src/plugin/sequence.rs:214-224 | `goto` runs the target, then offers the reply to every remembered lookup, including the target's own |
| Pipeline.DoStore | src/plugin/sequence.rs:231-235 | every remembered lookup is offered the reply, in order, and nothing else is written |
| Pipeline.DoFallback | src/plugin/fallback.rs:65-129 | runs both branches on forks and absorbs the winner, or leaves the context untouched when dropped |
| Pipeline.DoCache | src/plugin/cache.rs:303-337 | a cache step without a key or in a refresh run changes nothing; a hit is rebound to the query and flagged |
| PipelineInvariants.ExecKeeps | src/plugin/sequence.rs:179-229 | a property every step, fork and absorb keeps holds wherever a run is left, by any outcome, and in every context it logs: at each remembered lookup, hit and refresh |
| PipelineInvariants.RunKeepsContext | src/context.rs:284-319 | every context a run can leave, and every context in which it remembers a lookup, takes a hit or starts a refresh, is sound: alias path connected, question and EDNS derived from the client's, added subnets hidden; the strip flag never falls, rewrites are only added and the request's own fields stay |
| PipelineInvariants.ServedFlagIsExact | src/context.rs:110-120 | a reply is flagged as cached if and only if it came from a cache, through forks, absorbs and all steps |
| PipelineBounds.ExecBounded | src/runtime.rs:345-382 | plugin entries stay within the call depth, no call misses its target in a closed registry, a run with lookups off takes no hit and starts no refresh, and hits are read in the order of the surroundings |
| PipelineBounds.AcceptStopsRun | src/plugin/sequence.rs:204-229 | after an accept at any depth no further step runs up to the nearest fallback branch, and a run returns accept only if one was taken at its level |
| PipelineReturns.ReturnStopsRun | src/plugin/sequence.rs:204-229 | in every run, whatever it calls: a `return`, `accept`, `reject` or `goto` is the last step its sequence run takes, and a `return` is followed by the normal end of that run |
| PipelineReturns.ReturnStepEnds | src/plugin/sequence.rs:210-213 | a `return` ends its sequence for the caller to continue, in the context it finds, after the writes of the lookups made so far |
| Effects.BuiltinEnds | src/plugin/actions.rs:82-120 | `accept` and `reject` end the sequence as accepted, the one in the context it finds, the other with a bare reply of its code; `return` ends it to be continued; `goto` to a missing plugin and a reversed `ttl` range fail; every other builtin goes on with the next step |
| Effects.NoEcsEffect | src/plugin/actions.rs:114-118 | `no_ecs` removes every subnet and nothing else from the query and has the reply's removed |
| Effects.ClampEffect | src/context.rs:346-358 | `ttl` moves each answer and authority TTL to the nearest in the range and changes nothing else |
| Effects.PreferEffect | src/context.rs:360-382 | `prefer_ipv4` keeps, in order, exactly the answers that are not AAAA, `prefer_ipv6` those that are not A, and changes nothing else |
| Effects.EcsEffect | src/plugin/ecs.rs:91-109 | `ecs` leaves a query alone that has a subnet, unless forced, or if there is no usable address; otherwise its subnet becomes the picked address's network with scope 0, and the reply's is to be removed if the query had none |
| Effects.RedirectEffect | src/plugin/actions.rs:219-231 | the first rule whose domain is the name or a dot-separated end of it renames the query to its absolute target and records one link; other rules and names it leaves alone |
| Effects.SourceEffect | src/context.rs:110-115 | a reply is taken with the query's id as a response no cache supplied; a blackhole leaves a bare reply with its code |
| Effects.MatchersSeeSteps | src/matcher.rs:234-259 | marks are seen once set; after `no_ecs` there is no subnet, after `drop_resp` no reply, after `reject` a reply of that code without addresses or wanted answers |
| Effects.MatchersSeeReply | src/matcher.rs:234-259 | of a reply taken, matchers see its code, its A and AAAA addresses, and whether it is NOERROR with a record of the type asked for |
| Effects.MatchersSeeQuery | src/matcher.rs:234-259 | of a fresh query, matchers see the client, the type asked for, whether there is a subnet, and the name in lower case without its final dot |
| Effects.FallbackWinner | src/plugin/fallback.rs:65-130 | a fallback that is not dropped takes the primary exactly if it ended normally with a NOERROR reply holding a record of its question's type; the winner's query, reply, marks, rewrites, strip and cache flags replace the caller's, and nothing of the loser's does |
| PipelineWrites.ExecClean | src/plugin/sequence.rs:179-235 | every reachable log is clean: lookups are remembered at steps about to reach their cache with the query found there, writes are justified by them, ended runs wrote all they could, hits are under the key of the query of the moment, and nothing follows the end or failure of a run |
| PipelineWrites.WritesAreEarned | src/plugin/sequence.rs:179-235 | each cache write is by a sequence run that executed that cache step, used the key and query as they were there, ended normally, never failed, and held a reply not served from a cache |
| PipelineWrites.EarnedAreWritten | src/plugin/sequence.rs:206-235 | a sequence run that ends normally writes every remembered lookup its reply can be stored for |
| LazyReplay.ExecLockstep | src/context.rs:271-282 | a run and the same run with lookups off or on, in surroundings that agree up to a bound, log the same events and keep contexts that differ in that switch only, up to the first hit or the bound |
| LazyReplay.CloneIsEntryState | src/context.rs:122-132 | from any context of a request, a clone is the entry state with lookups off |
| LazyReplay.LogsFromEntry | src/plugin/cache.rs:285-297 | for a hit of a request, wherever it is taken: the background task re-enters `handle` at the request's own pipeline, and runs it from the request's entry state with lookups off |
| LazyReplay.RefreshRepeatsRun | src/plugin/cache.rs:275-313 | the task started at a request's first hit, in any surroundings that cancel and reply alike up to the hit, logs the same events up to there and asks the same cache for the same key; in any surroundings it takes no hit and starts no refresh |
| LazyReplay.RefreshRewritesStaleEntry | src/plugin/cache.rs:195-201 | if that task ends the sequence that made the lookup with a storable reply, it writes exactly the stale entry's key in that cache |
| Invariants.ApplyKeepsInv | src/context.rs:134-145 | every single context update keeps the soundness of a request context |
| Invariants.CloneIsSound | src/context.rs:271-282 | a background context is sound and starts without rewrites, whatever the foreground did |
| Invariants.BeginKeepsInv | src/context.rs:123-132 | capturing the entry state keeps the context sound |
| Invariants.ForkKeepsInv | src/context.rs:286-305 | a fork of a sound context is sound |
| Invariants.AbsorbKeepsInv | src/context.rs:308-319 | absorbing a sound branch of the same request keeps the context sound |
| Context.QueryContext.ForLazy | src/context.rs:271-282 | a background context has the entry query, marks and strip flag, lookups off, and nothing else of the run |
| Context.QueryContext.ForBranch | src/context.rs:286-305 | a fork copies all but the reply and its cached flag |
| Context.QueryContext.DoSetResponse | src/context.rs:110-115 | the reply takes the query's id, becomes a response and is not flagged as cached |
| Context.QueryContext.DoBeginPipeline | src/context.rs:123-132 | the entry state is captured only the first time |
| Context.QueryContext.DoRewriteName | src/context.rs:135-145 | the first question is renamed to the absolute target and one link is recorded, unless the name is already the same |
| Context.QueryContext.BuildResponseFor | src/context.rs:153-188 | the alias loop builds the reply bound to a query snapshot with exactly the missing links of the suffix in front |
| Context.QueryContext.DoFinalizeResponse | src/context.rs:208-210 | the reply is rebound to the client's own message with the whole chain, and no other field changes |
| Context.QueryContext.DoAbsorb | src/context.rs:308-319 | the winner's query, reply, marks, rewrites and flags replace the caller's; the request's own fields stay |
| Context.QueryContext.DoClampTtl | src/context.rs:346-358 | answer and authority TTLs are clamped; additional records are not |
| Context.QueryContext.DoFilterAnswers | src/context.rs:368-382 | exactly the answers of the dropped type go, in order |
| Steps.ApplyBuiltin | src/plugin/actions.rs:82-120 | each builtin's action, error and whole context change, in place |
| Steps.Redirect | src/plugin/actions.rs:220-231 | only the first rule that applies rewrites the name |
| Steps.StripNegations | src/plugin/sequence.rs:89-97 | the loop leaves the parity of the leading negations and the rest of the expression |
| Steps.NegationsByParity | src/plugin/sequence.rs:154-158 | keeping one negation by parity means the same as nesting one for every `!` |
| Steps.ExecEcs | src/plugin/ecs.rs:91-108 | keeps an existing subnet unless forced, skips without a usable address, else attaches the masked one and marks it for stripping if the query had none |
| Steps.PickedFamily | src/plugin/ecs.rs:60-86 | an address is picked if and only if one is usable: a public client's own in auto mode, else a configured one of the family asked for when there is one, with its family's mask |
| Steps.MaskedNetwork | src/plugin/ecs.rs:144-151 | masking cuts the prefix to the address width, clears every host bit, changes less than one network's span, and is idempotent |
| Steps.AttachedSubnetIsMasked | src/plugin/ecs.rs:101-105 | any subnet the plugin newly attaches has zero host bits and scope 0 (RFC 7871, section 6), and sets the strip flag if the query had none |
| Server.Handle | src/server.rs:634-680 | one request in place: timeout and error replies, finalising, stripping and counters, with queries = responses + dropped |
| Server.Send | src/server.rs:662-678 | finalises, strips ECS when flagged, and counts the query exactly once |
| Server.EveryReplyIsTheClients | src/server.rs:634-680 | for every pipeline and outcome a reply has the client's id, opcode, questions, RD and CD, EDNS only if the client sent it, every rewrite as a CNAME, and no subnet if this run attached one to the client's query or has the strip flag set |
| Server.SubnetShownExactly | src/server.rs:662-667 | a sent reply carries a subnet if and only if the client sent EDNS, the strip flag is unset and the reply to be finalised carries one, and then that one |
| Server.ShownSubnetIsCached | src/server.rs:662-667 | with such upstreams a client that sent no subnet is shown one if and only if it sent EDNS and its run ends, with the strip flag unset, on a hit that carries one, and then that one, which a cache entry held |
| Server.DisclosedSubnetWasSupplied | src/server.rs:662-667 | with upstreams that echo a subnet only when sent one, and no cache entry that carries one, a client that sent none is shown none, for every pipeline and outcome |
| Server.RequestsStartSound | src/context.rs:271-282 | a fresh client query, and the clone made at every hit or refresh its run logs, satisfy what the reply theorem needs; the clone is the entry state with lookups off and keeps the entry tag |
| Server.OutcomeDecidesReply | src/server.rs:640-667 | which request is ignored, which gets NOTIMP or SERVFAIL, and which gets the pipeline's own code or no reply; a timeout replaces a reply, an error keeps it |
| Server.ReplyKeepsAnswers | src/context.rs:182-183 | finalising keeps the response code and, as a suffix in order, the answers the pipeline left |
| Replies.ReplyFields | src/context.rs:153-205 | every reply sent, against the one the run left: AA, TC, RA, the code, authority and additional records are the same; the answers are, but for rewrites shown in front as CNAMEs of the question's class and the least TTL; AD stays unless rewrites are to be shown; id, opcode, question, RD and CD are the client's; EDNS is there if both have it, with the reply's version and options, less its subnet if that is to be stripped, and the client's payload size and DO bit |
| Replies.MadeUpReply | src/dnsutil.rs:86-101 | a reply to an unknown opcode is NOTIMP, one after a timeout SERVFAIL; both have RA set, AA, TC and AD unset, and no records |
| Replies.HitFields | src/plugin/cache.rs:314-330 | a hit leaves the cached message's AA, TC, RA, AD, code and records, with the id, opcode, question, RD and CD of the query at the cache step, its payload size and DO bit; the rest of the context stays |
| Replies.StoredFields | src/plugin/cache.rs:214-269 | a reply is stored for a lookup exactly if no cache supplied it, it is NOERROR, complete, without options but subnets, with an answer or authority record and none of TTL 0, and can be encoded; what is stored is that reply bound to the lookup's query, field by field |
| CallGraph.ValidatePluginGraph | src/runtime.rs:295-343 | succeeds if and only if tags are usable, every referenced executable exists and no chain is longer than 64, in whatever order the map is visited; depths are the exact longest chains; every error names a real fault: an unusable or repeated tag, a dangling reference, a loop or an over-long chain |
| CallGraph.Walk.Visit | src/runtime.rs:345-382 | the memoised walk ends also on cyclic graphs, keeps every memoised depth exact, restores the active stack, and reports only real errors |
| CallGraph.CollectCalls | src/runtime.rs:309-326 | collects exactly the `$tag` calls and `goto` targets of a sequence, in order |
| CallGraph.CollectEdges | src/runtime.rs:296-328 | succeeds if and only if tags are well formed and unique, with the calls of every executable; an error names a tag that is not |
| CallGraph.FindDangling | src/runtime.rs:329-337 | finds a reference to a missing executable if and only if there is one, and what it finds is one |
| CallGraph.BoundedMeansAcyclic | src/runtime.rs:355-369 | bounded chains are the same as no cycle and bounded simple chains |
| CallGraph.LongestFromTargets | src/runtime.rs:370-373 | one more than the deepest target is the exact longest chain |
| CallGraph.AcceptedIsRanked | src/runtime.rs:338-341 | a validated configuration has depths that fall along every call and no missing target, which is what makes the interpreter terminate |
| CallGraph.AcceptedRunsAreBounded | src/runtime.rs:293-343 | every run of a validated configuration nests at most 64 plugins and never fails on an unknown tag |
| Lru.Shard.Get | src/plugin/cache.rs:39-50 | finds the entry and moves its key, and only it, to the recent end |
| Lru.Shard.Insert | src/plugin/cache.rs:52-70 | replaces and promotes, or evicts the front of a full deque and appends; never over capacity, and the empty-deque break is never taken |
| Lru.Shard.Flush | src/plugin/cache.rs:72-75 | empties the shard and keeps its capacity |
| Lru.HistoryIsValid | src/plugin/cache.rs:30-75 | after any operations the deque is duplicate-free, its keys are the map's keys and the capacity holds |
| Lru.EvictsLeastRecentlyUsed | src/plugin/cache.rs:61-69 | a new key in a full shard replaces exactly the entry whose last use in the history is oldest |
| Lru.Inclusion | src/plugin/cache.rs:39-75 | after a common history a smaller shard's deque is the larger one's restricted to its keys, and their entries agree |
| Lru.KeepIsSubsequence | src/plugin/cache.rs:24-28 | that restriction is a subsequence, given by increasing positions |
| Cache.FreshHitTtls | src/plugin/cache.rs:203-212 | with one clock reading no served TTL saturates or is lost in narrowing, each is at least 1, and each expires the record no earlier and less than a second later than its original TTL |
| Cache.TtlsSurviveSecondReading | src/plugin/cache.rs:316-323 | with a second reading less than 2^32 seconds after the store, and a record that ages holding the positive least TTL, every TTL stays at least 1 if and only if that reading is before the deadline |
| Cache.SecondReadingCanZeroTtl | src/plugin/cache.rs:316-323 | concrete times for which a fresh hit serves TTL 0 |
| Cache.StaleHitWindow | src/plugin/cache.rs:229-234 | a lazy hit is at or after the TTL deadline and before store time plus the lazy TTL, and serves only the reply TTL |
| Cache.EntryIsServed | src/plugin/cache.rs:203-244 | a stored message is served exactly until its least TTL has passed since the store or, with a lazy window, until that has, and is stale exactly from the least TTL on |
| Cache.FreshMeansUnexpired | src/plugin/cache.rs:203-244 | a hit is fresh exactly while no answer or authority record stored has outlived its own TTL |
| Cache.StoredIsServed | src/plugin/cache.rs:203-244 | after any history, a message stored is found by the lookups that follow, for exactly that long |
| Cache.HitRecords | src/plugin/cache.rs:314-327 | what a hit serves, record by record: a stale one the configured TTL in answers and authority, a fresh one every record but OPT decayed by the whole seconds since the store, at least to 0; nothing else differs |
| Cache.BoundedRefinesUnbounded | src/plugin/cache.rs:203-250 | after any history every entry of the sharded bounded cache is the entry of the unbounded key-to-latest-store map |
| Cache.HitIsLatestStore | src/plugin/cache.rs:203-250 | a hit is the latest store under its key with no flush of its shard since, with the times that store gave it; lookups never move them; shards stay within capacity |
| Cache.FindShard | src/plugin/cache.rs:141-147 | the 64-bit wrapping hash loop finds the key's one shard |
| Cache.Cache.Lookup | src/plugin/cache.rs:203-212 | returns the unexpired entry with its staleness, touches only its shard and only its recency, and is one lookup of the cache's history |
| Cache.Cache.Store | src/plugin/cache.rs:214-244 | stores only a complete NOERROR reply with sharable EDNS and a positive TTL, with its deadlines, in the key's shard alone, as one store of the cache's history |
| Cache.Cache.Flush | src/plugin/cache.rs:246-250 | empties every shard, as sixteen flushes of the cache's history |
| Cache.Cache.Exec | src/plugin/cache.rs:303-337 | a cache step on real shards: what it answers, how it ages it, when it starts a refresh, and that the shards stay where their history takes them |
| Cache.Cache.KickRefresh | src/plugin/cache.rs:275-298 | starts one background context if and only if lookups are on and no task for the key is alive; the set in flight stays exactly the keys of live tasks |
| Cache.Cache.EndRefresh | src/plugin/cache.rs:100-109 | dropping a task's guard frees its key and no other; the set in flight stays exactly the keys of live tasks |
| Cache.RefreshIsSingleFlight | src/plugin/cache.rs:100-109 | over every interleaving the keys in flight are exactly those of live tasks, no two share a key, and an ended task has freed its key |
| Cache.FlightSteps | src/plugin/cache.rs:275-299 | a refresh starts exactly if lookups are on and none is in flight for its key, and is in flight until its own task ends; other keys are not affected |
| DnsMessage.MinTtlCommutesWithAgeing | src/dnsutil.rs:103-126 | for every message value: the least TTL of the aged message is the aged least TTL for every age, if and only if a record that ages holds it |
| DnsMessage.MinTtlOfAged | src/dnsutil.rs:103-126 | the positive half for one age |
| DnsMessage.MisplacedOptBreaksAgeing | src/dnsutil.rs:112-118 | a message value with an OPT record as its answer on which the two helpers disagree |
| DnsMessage.OptInPlaceDecays | src/dnsutil.rs:103-126 | a message without OPT records in answers and authority has its least TTL on a record that ages |
| DnsMessage.LeastTtlIsAttained | src/dnsutil.rs:103-110 | the least TTL bounds every record's and belongs to one |
| DnsMessage.BumpRecords | src/dnsutil.rs:112-126 | the in-place pass decays every TTL by the age, saturating, and leaves OPT records alone |
| DnsMessage.OverwriteTtls | src/dnsutil.rs:128-135 | the in-place pass sets every TTL and nothing else |
| DnsMessage.SubtractTtl | src/dnsutil.rs:112-126 | ageing the three record sections in place ages the message and changes nothing else |
| DnsMessage.SetAllTtl | src/dnsutil.rs:128-135 | overwriting answers and authority in place re-times the message and leaves additional records alone |
| DnsMessage.TakeResponse | src/dnsutil.rs:36-52 | a reply is accepted if and only if it is a response with the query's id, opcode and questions |
| DnsMessage.SetEcs | src/dnsutil.rs:206-214 | afterwards the message carries exactly this subnet, and nothing but EDNS changed |
| DnsMessage.RemoveEcs | src/dnsutil.rs:216-220 | afterwards the message carries no subnet, and nothing but EDNS changed |
| FallbackRace.Runner.Standby | src/plugin/fallback.rs:70-111 | polled at any times, the task selects, keeps the pending future of the side that did not resolve, awaits it, and finishes at the poll and with the branch the rule names, or leaves the context untouched |
| FallbackRace.Runner.Sequential | src/plugin/fallback.rs:113-128 | polled at any times, the task awaits the timed primary, then forks and awaits the secondary, and finishes as the rule names |
| FallbackRace.ModesAgree | src/plugin/fallback.rs:65-129 | with the same polls, when the default mode has finished standby has too, no later, with the same outcome and context; and only a secondary not yet due keeps the default mode from having finished |
| FallbackRace.LoserLeavesNothing | src/plugin/fallback.rs:65-129 | across the modes, replacing a beaten secondary changes nothing, and replacing a primary that is not preferred by another that is not leaves the same outcome and context |
| FallbackRace.WindowDecides | src/plugin/fallback.rs:75-78 | a primary with a wanted answer is taken if and only if it completes within the window or no poll falls between the closing of the window and its completion |
| FallbackRace.RaceWinner | src/plugin/fallback.rs:70-128 | in either mode, if the primary completes within its window, it wins exactly if it did so without error and with a NOERROR reply holding a record of its question's type |
| FallbackRace.RaceIsFallback | src/plugin/fallback.rs:65-129 | whenever the race of branches with the interpreter's branch results has finished, in either mode, its outcome and context are the interpreter's |
| FallbackRace.FallbackModesAgree | src/plugin/fallback.rs:65-129 | two fallbacks with the same branches, one in each mode, awaited in the same surroundings, leave the same outcome and the same context |
| Forward.Forwarder.Exec | src/plugin/forward.rs:72-137 | for every completion order: the reply set, one success at most, and one error per failure seen before the winner |
| Forward.UsableWins | src/plugin/forward.rs:107-116 | the context gets a usable reply if and only if some raced upstream yields one |
| Forward.NoneUsable | src/plugin/forward.rs:117-130 | otherwise it gets the last unusable reply to arrive, or keeps its reply if all fail |
| Forward.SingleRace | src/plugin/forward.rs:76-95 | the single-upstream path is the race of one |
| Forward.RaceByCodes | src/plugin/forward.rs:107-130 | the first complete response that is not FORMERR, SERVFAIL, NOTIMP or REFUSED becomes the reply, else the last reply to arrive |
| StreamPool.Pool.Take | src/upstream.rs:87-96 | pops from the newest end until a stream is fresh |
| StreamPool.Pool.Put | src/upstream.rs:98-103 | pools the stream only below capacity |
| StreamPool.TakeFindsFresh | src/upstream.rs:87-96 | returns nothing if and only if no pooled stream is fresh, and then the pool is empty |
| StreamPool.TakeByClock | src/upstream.rs:87-96 | the stream taken is the last that was put back less than the idle time ago; none is taken exactly if there is no such stream |
| StreamPool.AcceptedStreamIsReused | src/upstream.rs:87-103 | the stream of an accepted exchange is reused, if there is room, by the next exchange within the idle time |
| StreamPool.TakeDiscardsOnlyStale | src/upstream.rs:90-94 | in time order a fresh stream is never discarded |
| StreamPool.PoolIsSound | src/upstream.rs:593-650 | in every reachable state: at most cap streams, in time order, each pooled or in one exchange but never both or closed |
| StreamPool.ClosedForGood | src/upstream.rs:602-621 | a closed stream stays closed |
| StreamPool.UnacceptedStreamNeverReturns | src/upstream.rs:608-620 | the stream of a failed, rejected or cancelled exchange is never pooled or used again |
| SuffixTrie.DomainSet.InsertSuffix | src/matcher.rs:91-98 | the trie becomes the old one with the rule's reversed labels added, and the set of inserted texts grows by the rule |
| SuffixTrie.DomainSet.SuffixMatch | src/matcher.rs:121-136 | the walk finds a match if and only if, superfluous dots aside, the domain is some inserted rule or ends in a dot and it; equivalently, if a scan over the rules' labels does |
| SuffixTrie.CountTerminals | src/matcher.rs:143-149 | counts exactly the rules in the trie, in whatever order children are visited |
| SuffixTrie.DomainSet.Count | src/matcher.rs:138-140 | the suffix part of the set's length is the number of distinct suffix rules |
| SuffixTrie.WalkIsScan | src/matcher.rs:121-136 | walking equals scanning, for every trie and label list |
| SuffixTrie.TrieIsScan | src/matcher.rs:91-149 | after any insertions a domain matches if and only if a non-empty rule's labels are a suffix of its labels, or both are empty; the count is the number of distinct rules |
| SuffixTrie.TrieIsTextSuffix | src/matcher.rs:91-135 | for rules and a domain without superfluous dots, the trie matches exactly the domains that are a rule or end in a dot and a rule; an empty rule matches the empty domain only |
| SuffixTrie.LabelsAreSuffixes | src/matcher.rs:91-135 | for any texts: a rule's labels lead a domain's from the top exactly if, leading, trailing and doubled dots aside, the domain is the rule or ends in a dot and it |
| SuffixTrie.OrderIsIrrelevant | src/matcher.rs:91-136 | insertion order and repetition do not matter |

## Left out

- Wire encoding and decoding: a stored wire image is the message it decodes to, assuming decoding inverts encoding; `encodes` says which messages the encoder accepts.
- Address, type, class and hex formatters of the cache key: parameters, assumed injective and free of the separators (`CacheKey.Faithful`).
- Matching of `full:`, `keyword:` and `regexp:` rules and of IP sets: arbitrary predicates read at the moment of the match; reloading a set during a run is not modelled.
- Steps.Redirect: takes rules already parsed; parsing of redirect, mask, TTL-range and step text is not modelled.
- Leaf plugins (`hosts`, `forward`) inside the interpreter: a tape entry says what they answer to any query, or that they leave the reply; `Forward` models the race by itself, `Upstreams` the answers.
- Pipeline.DoFallback: in standby mode the branches' log entries follow one another although they overlap in time; the branches share nothing but caches, and what caches hold is the tape's choice. Timing and polling are modelled in `FallbackRace`, where a branch is a function of its fork; `RaceIsFallback` connects the two.
- LazyReplay.RefreshRepeatsRun: says what a refresh does up to the hit in surroundings that agree up to there; an upstream that answers the refresh differently before the hit may send it another way.
- EndToEnd.FreshHitIsUncachedReply: compares what is sent for lookups made by the entry sequence itself, as the request's first hit, with nothing left to run after it; a hit deeper in the pipeline, or one that further steps change, is compared only with the storing run's reply continued for the client.
- Twins.OneKeyIsAlike: two queries whose subnets differ in scope have one key but are not taken as alike, because a hosts table would echo the difference; RFC 7871, section 6, has scope 0 in every query.
- Twins.ExecTwins: where case is folded, owner names and CNAME targets are compared up to case, names inside other record data, which is opaque text here, exactly.
- Server.Handle: an unknown entry plugin is reported without counting the query, as in the code; latency values and trace events are not modelled.
- Cache.Cache.KickRefresh: models a cache whose refresh is bound to a living runtime and contexts that have entered a pipeline; binding, `Weak` upgrades and task scheduling are not modelled. The metrics for hits and misses are left out.
- Cache.Cache.Store: the lock is an atomic step and an operation's clock is a parameter; the interleavings covered are those of whole shard operations.
- SuffixTrie.DomainSet.InsertSuffix: the trie is a value held in a field, so the descent through mutable child nodes is a recursive function.
- StreamPool.PoolIsSound: a connection attempt that fails and bytes left over in a stream are not distinguished from other failures; sockets, TLS and DoH are not modelled.
- Cache.FindShard: key text is taken as ASCII, so its bytes are its characters, and `usize` as 64 bits.
- Query ids, start instants, client protocol and the trace of a context: observational, so not part of its state.
- Configuration loading, the admin interface, metrics formatting and listeners: input and output only.
- Ownership by `Arc`, `Weak` and live reload: memory lifetimes, not part of the behaviour proved here.
