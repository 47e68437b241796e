/** The upstream race of `src/plugin/forward.rs`. */
module Forward {
  import opened Wrappers
  import opened DnsMessage
  import opened Context

  type Reply = Result<Message, string>

  predicate Usable(r: Reply) { r.Ok? && IsUsableResponse(r.value) }

  function Concurrency(concurrent: nat, upstreams: nat): nat {
    var n := if concurrent < upstreams then concurrent else upstreams;
    if n < 1 then 1 else n
  }

  /** `order` lists each of the first `n` upstreams once: the order in which they complete. */
  predicate CompletionOrder(order: seq<nat>, n: nat) {
    && |order| == n
    && (forall k | 0 <= k < n :: order[k] < n)
    && (forall i | 0 <= i < n :: i in order)
  }

  function Completed(replies: seq<Reply>, order: seq<nat>): (r: seq<Reply>)
    requires forall k | 0 <= k < |order| :: order[k] < |replies|
    ensures |r| == |order|
  {
    seq(|order|, k requires 0 <= k < |order| => replies[order[k]])
  }

  /** The first usable completion, or `|seen|`. */
  function FirstUsable(seen: seq<Reply>): (k: nat)
    ensures k <= |seen|
    ensures k < |seen| ==> Usable(seen[k])
    ensures forall j | 0 <= j < k :: !Usable(seen[j])
  {
    if seen == [] || Usable(seen[0]) then 0 else 1 + FirstUsable(seen[1..])
  }

  /** The last reply that arrived but was not usable. */
  function LastUnusable(seen: seq<Reply>): Option<Message> {
    if seen == [] then None
    else
      var last := seen[|seen| - 1];
      if last.Ok? then Some(last.value) else LastUnusable(seen[..|seen| - 1])
  }

  /** A reply wins a race: a complete response other than FORMERR, SERVFAIL, NOTIMP and REFUSED. */
  predicate Wins(r: Reply) {
    r.Ok? && r.value.kind == Response && !r.value.truncated && r.value.rcode !in {1, 2, 4, 5}
  }

  /** What a race leaves in the context. */
  function Raced(c: Ctx, seen: seq<Reply>): Ctx {
    var k := FirstUsable(seen);
    if k < |seen| then SetResponse(c, seen[k].value)
    else match LastUnusable(seen)
         case Some(m) => SetResponse(c, m)
         case None => c
  }

  class Forwarder {
    const upstreams: nat
    const concurrent: nat
    var upstreamOk: nat
    var upstreamErr: nat

    constructor (upstreams: nat, concurrent: nat)
      requires upstreams > 0
      ensures this.upstreams == upstreams && this.concurrent == (if concurrent < 1 then 1 else concurrent)
      ensures upstreamOk == 0 && upstreamErr == 0
    {
      this.upstreams := upstreams;
      this.concurrent := if concurrent < 1 then 1 else concurrent;
      upstreamOk, upstreamErr := 0, 0;
    }

    /** `Forward::exec`, given what each upstream answers and the order they complete in. */
    method Exec(ctx: QueryContext, replies: seq<Reply>, order: seq<nat>)
      requires upstreams > 0 && |replies| == upstreams
      requires CompletionOrder(order, Concurrency(concurrent, upstreams))
      modifies ctx, this`upstreamOk, this`upstreamErr
      ensures var seen := Completed(replies, order);
              var k := FirstUsable(seen);
              && ctx.State() == Raced(old(ctx.State()), seen)
              && upstreamOk == old(upstreamOk) + (if k < |seen| then 1 else 0)
              && upstreamErr == old(upstreamErr) + k
    {
      var n := Concurrency(concurrent, upstreams);
      if n == 1 {
        SingleOrder(order);
        match replies[0] {
          case Ok(m) =>
            if IsUsableResponse(m) {
              upstreamOk := upstreamOk + 1;
            } else {
              upstreamErr := upstreamErr + 1;
            }
            ctx.DoSetResponse(m);
          case Err(_) => upstreamErr := upstreamErr + 1;
        }
        SingleRace(old(ctx.State()), replies[0]);
        assert Completed(replies, order) == [replies[0]];
        return;
      }
      ghost var seen := Completed(replies, order);
      var lastUnusable: Option<Message> := None;
      for k := 0 to |order|
        invariant ctx.State() == old(ctx.State())
        invariant forall j | 0 <= j < k :: !Usable(seen[j])
        invariant lastUnusable == LastUnusable(seen[..k])
        invariant upstreamOk == old(upstreamOk) && upstreamErr == old(upstreamErr) + k
      {
        assert seen[..k + 1][..k] == seen[..k];
        match replies[order[k]] {
          case Ok(m) =>
            if IsUsableResponse(m) {
              upstreamOk := upstreamOk + 1;
              ctx.DoSetResponse(m);
              FirstUsableIs(seen, k);
              return;
            }
            upstreamErr := upstreamErr + 1;
            lastUnusable := Some(m);
          case Err(_) => upstreamErr := upstreamErr + 1;
        }
      }
      assert seen[..|seen|] == seen;
      FirstUsableIs(seen, |seen|);
      if lastUnusable.Some? {
        ctx.DoSetResponse(lastUnusable.value);
      }
    }
  }

  lemma SingleOrder(order: seq<nat>)
    requires CompletionOrder(order, 1)
    ensures order == [0]
  {
  }

  lemma FirstUsableIs(seen: seq<Reply>, k: nat)
    requires k <= |seen| && (forall j | 0 <= j < k :: !Usable(seen[j]))
    requires k < |seen| ==> Usable(seen[k])
    ensures FirstUsable(seen) == k
  {
    var first := FirstUsable(seen);
    assert !(first < k) && !(k < first);
  }

  /** The single-upstream path is the race of one. */
  lemma SingleRace(c: Ctx, r: Reply)
    ensures Raced(c, [r]) == if r.Ok? then SetResponse(c, r.value) else c
    ensures FirstUsable([r]) == if Usable(r) then 0 else 1
  {
    FirstUsableIs([r], if Usable(r) then 0 else 1);
    assert [r][..0] == [];
    assert LastUnusable([r]) == if r.Ok? then Some(r.value) else None;
  }

  lemma {:induction false} LastUnusableIsLast(seen: seq<Reply>)
    ensures LastUnusable(seen).None? <==> forall k | 0 <= k < |seen| :: seen[k].Err?
    ensures LastUnusable(seen).Some? ==>
              exists k | 0 <= k < |seen| :: seen[k] == Ok(LastUnusable(seen).value)
                && forall j | k < j < |seen| :: seen[j].Err?
  {
    if seen != [] {
      var n := |seen| - 1;
      LastUnusableIsLast(seen[..n]);
      if seen[n].Ok? {
        assert seen[n] == Ok(LastUnusable(seen).value);
      } else {
        assert forall k | 0 <= k < n :: seen[..n][k] == seen[k];
        if LastUnusable(seen).Some? {
          var k :| 0 <= k < n && seen[..n][k] == Ok(LastUnusable(seen).value)
                   && forall j | k < j < n :: seen[..n][j].Err?;
          assert seen[k] == Ok(LastUnusable(seen).value);
        }
      }
    }
  }

  /** Every raced upstream completes somewhere in the order. */
  lemma CompletesSomewhere(replies: seq<Reply>, order: seq<nat>, n: nat, i: nat) returns (k: nat)
    requires n <= |replies| && CompletionOrder(order, n) && i < n
    ensures k < n && order[k] == i && Completed(replies, order)[k] == replies[i]
  {
    assert i in order;
    k :| 0 <= k < n && order[k] == i;
  }

  /** Whatever the completion order, the context gets a usable reply exactly when one of the raced
      upstreams yields one. */
  lemma UsableWins(c: Ctx, replies: seq<Reply>, order: seq<nat>, n: nat)
    requires n <= |replies| && CompletionOrder(order, n)
    ensures FirstUsable(Completed(replies, order)) < n <==> exists i | 0 <= i < n :: Usable(replies[i])
    ensures (exists i | 0 <= i < n :: Usable(replies[i])) ==>
              exists i | 0 <= i < n :: Usable(replies[i]) && Raced(c, Completed(replies, order)) == SetResponse(c, replies[i].value)
  {
    hide IsUsableResponse, SetResponse;
    var seen := Completed(replies, order);
    var k := FirstUsable(seen);
    if i :| 0 <= i < n && Usable(replies[i]) {
      var at := CompletesSomewhere(replies, order, n, i);
    }
    if k < n {
      assert seen[k] == replies[order[k]];
    }
  }

  /** Otherwise it gets the last unusable reply to arrive, and keeps what it had exactly when
      every upstream fails. */
  lemma NoneUsable(c: Ctx, replies: seq<Reply>, order: seq<nat>, n: nat)
    requires n <= |replies| && CompletionOrder(order, n)
    requires forall i | 0 <= i < n :: !Usable(replies[i])
    ensures (exists i | 0 <= i < n :: replies[i].Ok?) ==>
              exists k | 0 <= k < n :: replies[order[k]].Ok?
                && (forall j | k < j < n :: replies[order[j]].Err?)
                && Raced(c, Completed(replies, order)) == SetResponse(c, replies[order[k]].value)
    ensures (forall i | 0 <= i < n :: replies[i].Err?) ==> Raced(c, Completed(replies, order)) == c
  {
    hide IsUsableResponse, SetResponse;
    var seen := Completed(replies, order);
    UsableWins(c, replies, order, n);
    LastUnusableIsLast(seen);
    assert forall k | 0 <= k < n :: seen[k] == replies[order[k]];
    if i :| 0 <= i < n && replies[i].Ok? {
      var at := CompletesSomewhere(replies, order, n, i);
      var k :| 0 <= k < n && seen[k] == Ok(LastUnusable(seen).value) && forall j | k < j < n :: seen[j].Err?;
      assert replies[order[k]].Ok?;
    }
  }

  /** The first winning reply to arrive becomes the query's. If none wins, the last one to arrive
      does. */
  lemma RaceByCodes(c: Ctx, seen: seq<Reply>, k: nat)
    requires k < |seen| && seen[k].Ok?
    requires Wins(seen[k]) || forall j | k < j < |seen| :: seen[j].Err?
    requires forall j | 0 <= j < (if Wins(seen[k]) then k else |seen|) :: !Wins(seen[j])
    ensures Raced(c, seen) == c.(response := Some(seen[k].value.(id := c.query.id, kind := Response)), served := false)
  {
    assert forall r: Reply :: Wins(r) <==> Usable(r);
    if !Wins(seen[k]) { LastArrived(seen, k); }
  }

  lemma {:induction false} LastArrived(seen: seq<Reply>, k: nat)
    requires k < |seen| && seen[k].Ok? && forall j | k < j < |seen| :: seen[j].Err?
    ensures LastUnusable(seen) == Some(seen[k].value)
  {
    if k < |seen| - 1 { LastArrived(seen[..|seen| - 1], k); }
  }

  /** As many upstreams are raced as configured, but at least one and no more than there are. */
  lemma RacedUpstreams(concurrent: nat, upstreams: nat)
    requires upstreams > 0
    ensures var n := Concurrency(concurrent, upstreams);
            && 1 <= n <= upstreams && (n == concurrent || n == upstreams || (concurrent == 0 && n == 1))
            && (concurrent > 0 ==> n <= concurrent)
  {
  }
}
