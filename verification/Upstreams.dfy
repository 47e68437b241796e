/** What upstreams and hosts tables answer.

An upstream's content depends on what it is asked, not on whose query it is; its reply carries the id
and the question of the query, and owner names often with that question's spelling. Such replies meet
what the results about two clients ask of their surroundings.
*/
module Upstreams {
  import opened Wrappers
  import opened DnsMessage
  import opened CacheKey
  import opened Pipeline
  import opened Twins

  const ANY_CODE: u16 := 255

  /** An upstream with its content, which may spell owner names as it was asked, or a hosts table. */
  datatype Responder =
    | Zone(content: Message -> Option<Message>, echoes: bool)
    | Hosts(table: map<string, seq<IpAddr>>, ttl: u32, parses: string -> bool)

  /** A query as far as content may depend on it: not on its id, its EDNS payload size, header bits that
      mean nothing in queries, or the case of the name. */
  function Asked(q: Message): Message {
    if IsSimple(q) then
      EMPTY_MESSAGE.(
        opcode := q.opcode,
        recursionDesired := q.recursionDesired,
        authenticData := q.authenticData,
        checkingDisabled := q.checkingDisabled,
        questions := [q.questions[0].(name := FoldName(q.questions[0].name))],
        edns := match q.edns case None => None case Some(e) => Some(e.(payload := 0)))
    else q.(id := 0)
  }

  /** Owner names equal to the name asked for are spelled as it is. */
  function Spelled(q: Message, rs: seq<Record>): (r: seq<Record>)
    ensures |r| == |rs|
  {
    seq(|rs|, i requires 0 <= i < |rs| =>
      if q.questions != [] && SameName(rs[i].name, q.questions[0].name) then rs[i].(name := q.questions[0].name) else rs[i])
  }

  function SpelledAs(q: Message, m: Message): Message {
    m.(answers := Spelled(q, m.answers), nameServers := Spelled(q, m.nameServers), additionals := Spelled(q, m.additionals))
  }

  /** A reply to `q` with this content: EDNS only if the query has it. */
  function ReplyTo(q: Message, m: Message): Message {
    m.(id := q.id, kind := Response, opcode := q.opcode, questions := q.questions,
       edns := if q.edns.None? then None else m.edns)
  }

  // ---------- Hosts tables ----------

  /** The table's key for a query: its first name without final dots, in lower case; or the root's. */
  function HostKey(q: Message): string {
    if q.questions == [] then "" else NormalName(q.questions[0].name)
  }

  function HostRecords(owner: Name, ttl: u32, ips: seq<IpAddr>, qtype: u16): seq<Record> {
    if ips == [] then []
    else (match ips[0]
          case V4(_) => if qtype in [A_CODE, ANY_CODE] then [Record(owner, CLASS_IN, ttl, A(ips[0]))] else []
          case V6(_) => if qtype in [AAAA_CODE, ANY_CODE] then [Record(owner, CLASS_IN, ttl, AAAA(ips[0]))] else [])
         + HostRecords(owner, ttl, ips[1..], qtype)
  }

  function HostMessage(q: Message, records: seq<Record>): Message {
    ReplySkeleton(q, NO_ERROR).(authoritative := true, answers := records)
  }

  /** A name in the table is answered, if need be without records; others are not. */
  function HostsReply(h: Responder, q: Message): Option<Message>
    requires h.Hosts?
  {
    var key := HostKey(q);
    var qtype := if q.questions == [] then A_CODE else q.questions[0].qtype;
    if key !in h.table then None
    else
      var records := if h.parses(key + ".") then HostRecords(Name(key, true), h.ttl, h.table[key], qtype) else [];
      Some(HostMessage(q, records))
  }

  function ReplyFrom(r: Responder, q: Message): Option<Message> {
    match r
    case Zone(content, echoes) =>
      (match content(Asked(q))
       case None => None
       case Some(m) => Some(if echoes then SpelledAs(q, ReplyTo(q, m)) else ReplyTo(q, m)))
    case Hosts(_, _, _) => HostsReply(r, q)
  }

  /** The record for one address, if its family is asked for. */
  predicate IsAddressRecord(r: Record, owner: Name, ttl: u32, ip: IpAddr, qtype: u16) {
    && r == Record(owner, 1, ttl, if ip.V4? then A(ip) else AAAA(ip))
    && (qtype == 255 || qtype == if ip.V4? then 1 else 28)
  }

  lemma {:induction false} HostRecordsAt(owner: Name, ttl: u32, ips: seq<IpAddr>, qtype: u16, r: Record)
    ensures r in HostRecords(owner, ttl, ips, qtype) <==>
              exists i | 0 <= i < |ips| :: IsAddressRecord(r, owner, ttl, ips[i], qtype)
  {
    if ips != [] {
      HostRecordsAt(owner, ttl, ips[1..], qtype, r);
      if r in HostRecords(owner, ttl, ips[1..], qtype) {
        var i :| 0 <= i < |ips[1..]| && IsAddressRecord(r, owner, ttl, ips[1..][i], qtype);
        assert ips[i + 1] == ips[1..][i];
      }
      if i :| 0 <= i < |ips| && IsAddressRecord(r, owner, ttl, ips[i], qtype) {
        assert i > 0 ==> ips[1..][i - 1] == ips[i];
      }
    }
  }

  /** A table answers exactly for the names it has: authoritatively, with its addresses of the family asked
      for (or both for ANY) under the name asked for in lower case, if need be none. */
  lemma HostsAnswer(h: Responder, q: Message)
    requires h.Hosts? && |q.questions| == 1
    requires var n := q.questions[0].name; n.fqdn && (n.text != "" ==> n.text[|n.text| - 1] != '.')
    ensures var key, reply := Lower(q.questions[0].name.text), ReplyFrom(h, q);
            && (reply.Some? <==> key in h.table)
            && (reply.Some? ==>
                  && reply.value.rcode == 0 && reply.value.authoritative && !reply.value.truncated
                  && reply.value.id == q.id && reply.value.questions == q.questions && reply.value.edns == q.edns
                  && (h.parses(key + ".") ==>
                        forall r :: r in reply.value.answers <==>
                          exists i | 0 <= i < |h.table[key]| ::
                            IsAddressRecord(r, Name(key, true), h.ttl, h.table[key][i], q.questions[0].qtype))
                  && (!h.parses(key + ".") ==> reply.value.answers == []))
  {
    ProperText(q.questions[0].name);
    var key := Lower(q.questions[0].name.text);
    if key in h.table {
      forall r
        ensures r in HostRecords(Name(key, true), h.ttl, h.table[key], q.questions[0].qtype) <==>
                  exists i | 0 <= i < |h.table[key]| ::
                    IsAddressRecord(r, Name(key, true), h.ttl, h.table[key][i], q.questions[0].qtype)
      {
        HostRecordsAt(Name(key, true), h.ttl, h.table[key], q.questions[0].qtype, r);
      }
    }
    hide HostRecords, NormalName, IsAddressRecord;
  }

  /** Such a reply passes the check every transport makes. */
  lemma RepliesAreTaken(r: Responder, q: Message)
    ensures ReplyFrom(r, q).Some? ==> TakeResponse(q, ReplyFrom(r, q).value) == Ok(ReplyFrom(r, q).value)
  {
    hide Asked, Spelled, HostKey, HostRecords;
  }

  // ---------- Like queries get like replies ----------

  /** What an upstream's content depends on is common to like queries. */
  lemma LikeQueriesAskAlike(k: Likeness, a: Message, b: Message)
    requires SameQuery(k, a, b)
    ensures Asked(a) == Asked(b)
  {
    QueryFacts(k, a, b);
    if a.(id := 0) == b.(id := 0) {
      var x, y := a.(id := 0), b.(id := 0);
      assert x.authenticData == a.authenticData && y.authenticData == b.authenticData;
      assert x.questions == a.questions && y.questions == b.questions && x.edns == a.edns && y.edns == b.edns;
    } else if a != b {
      assert FoldName(a.questions[0].name) == FoldName(b.questions[0].name);
    }
  }

  lemma SpellingFolds(q: Message, rs: seq<Record>)
    ensures FoldRecords(Spelled(q, rs)) == FoldRecords(rs)
  {
    var s := Spelled(q, rs);
    forall i | 0 <= i < |rs| ensures FoldRecord(s[i]) == FoldRecord(rs[i]) {
      if q.questions != [] && SameName(rs[i].name, q.questions[0].name) {
        assert FoldName(rs[i].name) == FoldName(q.questions[0].name);
      }
    }
  }

  /** Spelling by like queries makes like messages. */
  lemma SpellingTwin(k: Likeness, a: Message, b: Message, m: Message)
    requires SameQuery(k, a, b)
    ensures Fold(k, SpelledAs(a, m)) == Fold(k, SpelledAs(b, m))
  {
    QueryFacts(k, a, b);
    if k.Alike? && k.fold {
      SpellingFolds(a, m.answers);
      SpellingFolds(b, m.answers);
      SpellingFolds(a, m.nameServers);
      SpellingFolds(b, m.nameServers);
      SpellingFolds(a, m.additionals);
      SpellingFolds(b, m.additionals);
      hide FoldRecords, Spelled;
    }
  }

  lemma ReplyCore(k: Likeness, q: Message, m: Message)
    ensures Core(Fold(k, ReplyTo(q, m))) == Core(Fold(k, m)).(kind := Response, opcode := q.opcode)
  {
    ReplyFolds(k, q, m);
    hide Fold;
  }

  lemma ReplyFolds(k: Likeness, q: Message, m: Message)
    ensures Fold(k, ReplyTo(q, m)) == ReplyTo(q, Fold(k, m))
  {
    hide FoldRecords;
  }

  /** Two replies that differ only in what they echo are alike. */
  lemma ReplyTwin(k: Likeness, a: Message, b: Message, x: Message, y: Message)
    requires SameQuery(k, a, b) && Fold(k, x) == Fold(k, y) && x.edns == y.edns && k.Alike?
    ensures SameReply(k, Some(ReplyTo(a, x)), Some(ReplyTo(b, y)))
  {
    QueryFacts(k, a, b);
    ReplyCore(k, a, x);
    ReplyCore(k, b, y);
    var f, g := ReplyTo(a, x), ReplyTo(b, y);
    assert SameOptions(f.edns, g.edns);
    hide Fold, Core, ReplyTo, SameQuery, SameOptions;
    assert SameMessage(k, f, g);
  }

  lemma LowerOfText(n: Name)
    ensures Lower(ToAscii(n)) == Lower(n.text) + (if n.fqdn then "." else "")
  {
  }

  lemma HostKeyTwin(k: Likeness, a: Message, b: Message)
    requires SameQuery(k, a, b)
    ensures HostKey(a) == HostKey(b)
  {
    QueryFacts(k, a, b);
    if a.questions != [] {
      var x, y := a.questions[0].name, b.questions[0].name;
      assert SameName(x, y);
      LowerOfText(x);
      LowerOfText(y);
      LowerOfTrimmed(ToAscii(x), ToAscii(y));
    }
  }

  lemma HostMessageTwin(a: Message, b: Message, records: seq<Record>)
    requires a.opcode == b.opcode && a.recursionDesired == b.recursionDesired && SameOptions(a.edns, b.edns)
    ensures Core(HostMessage(a, records)) == Core(HostMessage(b, records))
    ensures SameOptions(HostMessage(a, records).edns, HostMessage(b, records).edns)
  {
  }

  lemma CoreOfFold(k: Likeness, m: Message)
    ensures Core(Fold(k, m)) == Fold(k, Core(m))
  {
    hide FoldRecords;
  }

  lemma HostsTwin(k: Likeness, h: Responder, a: Message, b: Message)
    requires SameQuery(k, a, b) && k.Alike? && h.Hosts?
    ensures SameReply(k, HostsReply(h, a), HostsReply(h, b))
  {
    QueryFacts(k, a, b);
    HostKeyTwin(k, a, b);
    if HostsReply(h, a).Some? {
      var x, y := HostsReply(h, a).value, HostsReply(h, b).value;
      assert x == HostMessage(a, x.answers) && y == HostMessage(b, x.answers);
      HostMessageTwin(a, b, x.answers);
      CoreOfFold(k, x);
      CoreOfFold(k, y);
      hide HostMessage, HostKey, HostRecords, HostsReply, SameQuery, Core, Fold, SameOptions;
      assert SameMessage(k, x, y);
    }
  }

  lemma RespondersTwin(k: Likeness, r: Responder, a: Message, b: Message)
    requires SameQuery(k, a, b) && k.Alike?
    ensures SameReply(k, ReplyFrom(r, a), ReplyFrom(r, b))
  {
    match r {
      case Zone(content, echoes) =>
        LikeQueriesAskAlike(k, a, b);
        if content(Asked(a)).Some? {
          var m := content(Asked(a)).value;
          assert SpelledAs(a, ReplyTo(a, m)) == ReplyTo(a, SpelledAs(a, m));
          assert SpelledAs(b, ReplyTo(b, m)) == ReplyTo(b, SpelledAs(b, m));
          SpellingTwin(k, a, b, m);
          hide SameQuery, SameReply, Fold, Spelled;
          if echoes {
            ReplyTwin(k, a, b, SpelledAs(a, m), SpelledAs(b, m));
          } else {
            ReplyTwin(k, a, b, m, m);
          }
        }
      case Hosts(_, _, _) => HostsTwin(k, r, a, b);
    }
  }

  /** Any sequence of upstreams and hosts tables, each with its own content: they answer like queries
      alike, with or without folding case, and every one of their replies is taken. */
  lemma RespondersAreImpartial(fold: bool, tape: nat -> Choice, responders: nat -> Responder)
    requires forall n, q :: tape(n).reply(q) == ReplyFrom(responders(n), q)
    ensures Impartial(Alike(fold), tape)
    ensures forall n, q | tape(n).reply(q).Some? :: TakeResponse(q, tape(n).reply(q).value).Ok?
  {
    forall n, a, b | SameQuery(Alike(fold), a, b) ensures SameReply(Alike(fold), tape(n).reply(a), tape(n).reply(b)) {
      RespondersTwin(Alike(fold), responders(n), a, b);
    }
    forall n, q | tape(n).reply(q).Some? ensures TakeResponse(q, tape(n).reply(q).value).Ok? {
      RepliesAreTaken(responders(n), q);
    }
  }
}
