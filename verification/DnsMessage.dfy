/** DNS messages and the pure and in-place helpers of `src/dnsutil.rs`.

A message is the value that decoding produces. Encoding and decoding themselves
are library code: a stored wire image is modelled by the message it decodes to.
*/
module DnsMessage {
  import opened Wrappers

  type u16 = n: nat | n < 0x1_0000
  type u32 = n: nat | n < 0x1_0000_0000

  // ---------- Names ----------

  /** `text` is the printed name without its final dot, `fqdn` says whether it had one. */
  datatype Name = Name(text: string, fqdn: bool)

  function LowerChar(c: char): char {
    if 'A' <= c <= 'Z' then c + 32 as char else c
  }

  function Lower(s: string): (r: string)
    ensures |r| == |s|
  {
    seq(|s|, i requires 0 <= i < |s| => LowerChar(s[i]))
  }

  /** DNS name equality: case-insensitive, but absolute and relative names differ. */
  predicate SameName(a: Name, b: Name) {
    a.fqdn == b.fqdn && Lower(a.text) == Lower(b.text)
  }

  function ToAscii(n: Name): string {
    if n.fqdn then n.text + "." else n.text
  }

  // ---------- Records, EDNS, messages ----------

  /** An address as its numeric value: 32 bits for V4, 128 bits for V6. */
  datatype IpAddr = V4(bits: nat) | V6(bits: nat)

  const A_CODE: u16 := 1
  const CNAME_CODE: u16 := 5
  const AAAA_CODE: u16 := 28
  const OPT_CODE: u16 := 41

  const CLASS_IN: u16 := 1

  datatype RData =
    | A(ip: IpAddr)
    | AAAA(ip: IpAddr)
    | CNAME(target: Name)
    | OPT
    | Other(code: u16, data: string)

  datatype Record = Record(name: Name, rclass: u16, ttl: u32, data: RData) {
    function Type(): u16 {
      match data
      case A(_) => A_CODE
      case AAAA(_) => AAAA_CODE
      case CNAME(_) => CNAME_CODE
      case OPT => OPT_CODE
      case Other(code, _) => code
    }
  }

  datatype ClientSubnet = ClientSubnet(addr: IpAddr, sourcePrefix: nat, scopePrefix: nat)

  datatype EdnsOption = Subnet(cs: ClientSubnet) | OtherOption(code: u16, data: string)

  datatype Edns = Edns(payload: u16, version: nat, dnssecOk: bool, options: seq<EdnsOption>)

  datatype Question = Question(name: Name, qtype: u16, qclass: u16)

  datatype MessageType = Query | Response

  const OPCODE_QUERY: nat := 0

  const NO_ERROR: nat := 0
  const FORM_ERR: nat := 1
  const SERV_FAIL: nat := 2
  const NX_DOMAIN: nat := 3
  const NOT_IMP: nat := 4
  const REFUSED: nat := 5

  datatype Message = Message(
    id: u16,
    kind: MessageType,
    opcode: nat,
    authoritative: bool,
    truncated: bool,
    recursionDesired: bool,
    recursionAvailable: bool,
    authenticData: bool,
    checkingDisabled: bool,
    rcode: nat,
    questions: seq<Question>,
    answers: seq<Record>,
    nameServers: seq<Record>,
    additionals: seq<Record>,
    edns: Option<Edns>)

  const EMPTY_MESSAGE :=
    Message(0, Query, OPCODE_QUERY, false, false, false, false, false, false, NO_ERROR, [], [], [], [], None)

  // ---------- Incoming packets and upstream replies ----------

  datatype Incoming = Drop | NotImp | Accepted

  function ClassifyIncoming(m: Message): Incoming {
    if m.kind != Query then Drop
    else if m.opcode != OPCODE_QUERY then NotImp
    else Accepted
  }

  datatype ProtocolError = SentQuery | IdMismatch | OpcodeMismatch | QuestionMismatch

  predicate SameQuestion(a: Question, b: Question) {
    SameName(a.name, b.name) && a.qtype == b.qtype && a.qclass == b.qclass
  }

  predicate SameQuestions(a: seq<Question>, b: seq<Question>) {
    |a| == |b| && forall i | 0 <= i < |a| :: SameQuestion(a[i], b[i])
  }

  /** The check shared by every transport: a reply must answer exactly the query sent. */
  function TakeResponse(query: Message, resp: Message): (r: Result<Message, ProtocolError>)
    ensures r.Ok? <==> resp.kind == Response && resp.id == query.id && resp.opcode == query.opcode
                       && SameQuestions(resp.questions, query.questions)
    ensures r.Ok? ==> r.value == resp
  {
    if resp.kind != Response then Err(SentQuery)
    else if resp.id != query.id then Err(IdMismatch)
    else if resp.opcode != query.opcode then Err(OpcodeMismatch)
    else if !SameQuestions(resp.questions, query.questions) then Err(QuestionMismatch)
    else Ok(resp)
  }

  predicate IsUsableResponse(m: Message) {
    && m.kind == Response
    && !m.truncated
    && m.rcode !in [SERV_FAIL, FORM_ERR, NOT_IMP, REFUSED]
  }

  function ReplySkeleton(query: Message, rcode: nat): Message {
    EMPTY_MESSAGE.(
      id := query.id,
      kind := Response,
      opcode := query.opcode,
      recursionDesired := query.recursionDesired,
      recursionAvailable := true,
      rcode := rcode,
      questions := query.questions,
      edns := query.edns)
  }

  // ---------- TTLs ----------

  function Min(a: u32, b: u32): u32 { if a <= b then a else b }

  function SaturatingSub(a: u32, b: u32): u32 { if a <= b then 0 else a - b }

  function LeastTtl(rs: seq<Record>): u32
    requires rs != []
  {
    if |rs| == 1 then rs[0].ttl else Min(rs[0].ttl, LeastTtl(rs[1..]))
  }

  /** The records whose TTL decides how long a message may be kept. */
  function Timed(m: Message): seq<Record> { m.answers + m.nameServers }

  function MinTtl(m: Message): u32 {
    if Timed(m) == [] then 0 else LeastTtl(Timed(m))
  }

  function AgedRecord(r: Record, elapsed: u32): Record {
    if r.Type() == OPT_CODE then r else r.(ttl := SaturatingSub(r.ttl, elapsed))
  }

  function AgedRecords(rs: seq<Record>, elapsed: u32): (r: seq<Record>)
    ensures |r| == |rs|
  {
    seq(|rs|, i requires 0 <= i < |rs| => AgedRecord(rs[i], elapsed))
  }

  function Aged(m: Message, elapsed: u32): Message {
    m.(answers := AgedRecords(m.answers, elapsed),
       nameServers := AgedRecords(m.nameServers, elapsed),
       additionals := AgedRecords(m.additionals, elapsed))
  }

  function RetimedRecords(rs: seq<Record>, ttl: u32): (r: seq<Record>)
    ensures |r| == |rs|
  {
    seq(|rs|, i requires 0 <= i < |rs| => rs[i].(ttl := ttl))
  }

  function Retimed(m: Message, ttl: u32): Message {
    m.(answers := RetimedRecords(m.answers, ttl), nameServers := RetimedRecords(m.nameServers, ttl))
  }

  /** One pass over a record slice, decaying each TTL where it stands. */
  method BumpRecords(recs: array<Record>, elapsed: u32)
    modifies recs
    ensures recs[..] == AgedRecords(old(recs[..]), elapsed)
  {
    for i := 0 to recs.Length
      invariant forall k | 0 <= k < i :: recs[k] == AgedRecord(old(recs[k]), elapsed)
      invariant forall k | i <= k < recs.Length :: recs[k] == old(recs[k])
    {
      if recs[i].Type() != OPT_CODE {
        recs[i] := recs[i].(ttl := SaturatingSub(recs[i].ttl, elapsed));
      }
    }
  }

  method OverwriteTtls(recs: array<Record>, ttl: u32)
    modifies recs
    ensures recs[..] == RetimedRecords(old(recs[..]), ttl)
  {
    for i := 0 to recs.Length
      invariant forall k | 0 <= k < i :: recs[k] == old(recs[k]).(ttl := ttl)
      invariant forall k | i <= k < recs.Length :: recs[k] == old(recs[k])
    {
      recs[i] := recs[i].(ttl := ttl);
    }
  }

  /** `subtract_ttl`: each section is decayed in place. */
  method SubtractTtl(m: Message, elapsed: u32) returns (r: Message)
    ensures r == Aged(m, elapsed)
  {
    var answers := new Record[|m.answers|](i requires 0 <= i < |m.answers| => m.answers[i]);
    var nameServers := new Record[|m.nameServers|](i requires 0 <= i < |m.nameServers| => m.nameServers[i]);
    var additionals := new Record[|m.additionals|](i requires 0 <= i < |m.additionals| => m.additionals[i]);
    assert answers[..] == m.answers && nameServers[..] == m.nameServers && additionals[..] == m.additionals;
    BumpRecords(answers, elapsed);
    BumpRecords(nameServers, elapsed);
    BumpRecords(additionals, elapsed);
    return m.(answers := answers[..], nameServers := nameServers[..], additionals := additionals[..]);
  }

  /** `set_all_ttl`: answers and authority records are overwritten in place, additionals are not. */
  method SetAllTtl(m: Message, ttl: u32) returns (r: Message)
    ensures r == Retimed(m, ttl)
  {
    var answers := new Record[|m.answers|](i requires 0 <= i < |m.answers| => m.answers[i]);
    var nameServers := new Record[|m.nameServers|](i requires 0 <= i < |m.nameServers| => m.nameServers[i]);
    assert answers[..] == m.answers && nameServers[..] == m.nameServers;
    OverwriteTtls(answers, ttl);
    OverwriteTtls(nameServers, ttl);
    return m.(answers := answers[..], nameServers := nameServers[..]);
  }

  lemma {:induction false} LeastTtlIsAttained(rs: seq<Record>)
    requires rs != []
    ensures forall i | 0 <= i < |rs| :: LeastTtl(rs) <= rs[i].ttl
    ensures exists i | 0 <= i < |rs| :: rs[i].ttl == LeastTtl(rs)
  {
    if |rs| > 1 {
      LeastTtlIsAttained(rs[1..]);
      var j :| 0 <= j < |rs[1..]| && rs[1..][j].ttl == LeastTtl(rs[1..]);
      assert rs[j + 1].ttl == LeastTtl(rs[1..]);
      assert forall i | 1 <= i < |rs| :: rs[i] == rs[1..][i - 1];
    } else {
      assert rs[0].ttl == LeastTtl(rs);
    }
  }

  /** A bound attained by some record is the least TTL. */
  lemma LeastTtlIsUnique(rs: seq<Record>, bound: u32)
    requires rs != []
    requires forall i | 0 <= i < |rs| :: bound <= rs[i].ttl
    requires exists i | 0 <= i < |rs| :: rs[i].ttl == bound
    ensures LeastTtl(rs) == bound
  {
    LeastTtlIsAttained(rs);
  }

  /** The records that decay: everything but OPT, whose TTL field holds EDNS flags. */
  predicate Decays(r: Record) { r.Type() != OPT_CODE }

  /** Some record that decays attains the least TTL (or nothing is left to decay). */
  predicate LeastDecays(m: Message) {
    MinTtl(m) == 0 || exists i | 0 <= i < |Timed(m)| :: Decays(Timed(m)[i]) && Timed(m)[i].ttl == MinTtl(m)
  }

  lemma TimedOfAged(m: Message, e: u32)
    ensures Timed(Aged(m, e)) == AgedRecords(Timed(m), e)
  {
  }

  /** Taking the minimum commutes with ageing when the least TTL belongs to a record that decays. */
  lemma MinTtlOfAged(m: Message, e: u32)
    requires LeastDecays(m)
    ensures MinTtl(Aged(m, e)) == SaturatingSub(MinTtl(m), e)
  {
    var rs, aged := Timed(m), Timed(Aged(m, e));
    TimedOfAged(m, e);
    if rs == [] {
      assert aged == [];
    } else {
      LeastTtlIsAttained(rs);
      var i :| 0 <= i < |rs| && rs[i].ttl == MinTtl(m) && (MinTtl(m) == 0 || Decays(rs[i]));
      assert aged[i].ttl == SaturatingSub(MinTtl(m), e);
      forall k | 0 <= k < |aged| ensures SaturatingSub(MinTtl(m), e) <= aged[k].ttl {
        assert aged[k] == AgedRecord(rs[k], e);
      }
      LeastTtlIsUnique(aged, SaturatingSub(MinTtl(m), e));
    }
  }

  /** ... and only then: an OPT record holding the minimum on its own breaks it. */
  lemma MinTtlCommutesWithAgeing(m: Message)
    ensures (forall e: u32 :: MinTtl(Aged(m, e)) == SaturatingSub(MinTtl(m), e)) <==> LeastDecays(m)
  {
    if LeastDecays(m) {
      forall e: u32 ensures MinTtl(Aged(m, e)) == SaturatingSub(MinTtl(m), e) { MinTtlOfAged(m, e); }
    } else {
      var rs, aged := Timed(m), Timed(Aged(m, 1));
      TimedOfAged(m, 1);
      LeastTtlIsAttained(rs);
      LeastTtlIsAttained(aged);
      var k :| 0 <= k < |aged| && aged[k].ttl == LeastTtl(aged);
      assert aged[k] == AgedRecord(rs[k], 1);
      assert MinTtl(Aged(m, 1)) != SaturatingSub(MinTtl(m), 1);
    }
  }

  /** Ageing by `e` decays the least TTL by `e`. */
  predicate LeastTtlAges(m: Message, e: u32) { MinTtl(Aged(m, e)) == SaturatingSub(MinTtl(m), e) }

  /** No OPT record among the answers and authority records, where RFC 6891, section 6.1.1, does
      not allow one. A decoder that enforces this yields only such messages. */
  predicate OptInPlace(m: Message) { forall i | 0 <= i < |Timed(m)| :: Decays(Timed(m)[i]) }

  lemma OptInPlaceDecays(m: Message)
    requires OptInPlace(m)
    ensures LeastDecays(m)
  {
    if Timed(m) != [] {
      LeastTtlIsAttained(Timed(m));
    }
  }

  /** The two helpers disagree on a message with an OPT record among its answers. */
  lemma MisplacedOptBreaksAgeing()
    ensures var m := EMPTY_MESSAGE.(answers := [Record(Name("", true), CLASS_IN, 5, OPT)]);
            !OptInPlace(m) && MinTtl(Aged(m, 1)) == 5 && SaturatingSub(MinTtl(m), 1) == 4
  {
    var m := EMPTY_MESSAGE.(answers := [Record(Name("", true), CLASS_IN, 5, OPT)]);
    assert Timed(m) == m.answers;
    assert Timed(Aged(m, 1)) == AgedRecords(m.answers, 1) == m.answers;
    assert !Decays(Timed(m)[0]);
  }

  // ---------- EDNS Client Subnet ----------

  function FirstSubnet(options: seq<EdnsOption>): Option<ClientSubnet> {
    if options == [] then None
    else match options[0]
         case Subnet(cs) => Some(cs)
         case OtherOption(_, _) => FirstSubnet(options[1..])
  }

  function WithoutSubnet(options: seq<EdnsOption>): (r: seq<EdnsOption>)
    ensures FirstSubnet(r) == None
    ensures forall o :: o in r <==> o in options && o.OtherOption?
  {
    if options == [] then []
    else if options[0].Subnet? then WithoutSubnet(options[1..])
    else [options[0]] + WithoutSubnet(options[1..])
  }

  function EcsOf(m: Message): Option<ClientSubnet> {
    match m.edns
    case None => None
    case Some(e) => FirstSubnet(e.options)
  }

  const ECS_PAYLOAD: u16 := 1232

  function SetEcs(m: Message, cs: ClientSubnet): (r: Message)
    ensures EcsOf(r) == Some(cs)
    ensures r == m.(edns := r.edns)
  {
    var edns := match m.edns case Some(e) => e case None => Edns(ECS_PAYLOAD, 0, false, []);
    var rest := WithoutSubnet(edns.options);
    SubnetAppended(rest, cs);
    m.(edns := Some(edns.(options := rest + [Subnet(cs)])))
  }

  function RemoveEcs(m: Message): (r: Message)
    ensures EcsOf(r) == None
    ensures r == m.(edns := r.edns)
  {
    match m.edns
    case None => m
    case Some(e) => m.(edns := Some(e.(options := WithoutSubnet(e.options))))
  }

  lemma {:induction false} SubnetAppended(options: seq<EdnsOption>, cs: ClientSubnet)
    requires FirstSubnet(options) == None
    ensures FirstSubnet(options + [Subnet(cs)]) == Some(cs)
    ensures WithoutSubnet(options + [Subnet(cs)]) == options
  {
    if options != [] {
      SubnetAppended(options[1..], cs);
      assert (options + [Subnet(cs)])[1..] == options[1..] + [Subnet(cs)];
    } else {
      assert (options + [Subnet(cs)])[1..] == [];
    }
  }

  lemma {:induction false} WithoutSubnetIdempotent(options: seq<EdnsOption>)
    ensures WithoutSubnet(WithoutSubnet(options)) == WithoutSubnet(options)
  {
    if options != [] {
      WithoutSubnetIdempotent(options[1..]);
      if !options[0].Subnet? {
        assert ([options[0]] + WithoutSubnet(options[1..]))[1..] == WithoutSubnet(options[1..]);
      }
    }
  }
}
