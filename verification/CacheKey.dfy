/** The cache key of `src/plugin/cache.rs`: what it distinguishes, and how it is printed. */
module CacheKey {
  import opened Wrappers
  import opened DnsMessage

  /** Which messages the wire encoder accepts. */
  type Encoder = Message -> bool

  datatype Key =
    | Simple(name: string, qtype: u16, qclass: u16, subnet: Option<(IpAddr, nat)>,
             rd: bool, cd: bool, ad: bool, edns: Option<(nat, bool)>)
    | Wire(normalized: Message)

  function TrimDots(s: string): string {
    if s != "" && s[|s| - 1] == '.' then TrimDots(s[..|s| - 1]) else s
  }

  function NormalName(n: Name): string { Lower(TrimDots(ToAscii(n))) }

  /** Options other than the client subnet can be per-client state and are never shared. */
  predicate CacheableEdns(m: Message) {
    m.edns.Some? ==> forall o | o in m.edns.value.options :: o.Subnet?
  }

  predicate IsSimple(q: Message) {
    |q.questions| == 1 && q.answers == [] && q.nameServers == [] && q.additionals == []
  }

  function SubnetOf(q: Message): Option<(IpAddr, nat)> {
    match EcsOf(q)
    case None => None
    case Some(cs) => Some((cs.addr, cs.sourcePrefix))
  }

  function EdnsModeOf(q: Message): Option<(nat, bool)> {
    match q.edns
    case None => None
    case Some(e) => Some((e.version, e.dnssecOk))
  }

  function SimpleKey(q: Message): Key
    requires IsSimple(q)
  {
    Simple(NormalName(q.questions[0].name), q.questions[0].qtype, q.questions[0].qclass, SubnetOf(q),
           q.recursionDesired, q.checkingDisabled, q.authenticData, EdnsModeOf(q))
  }

  function KeyOf(q: Message, everything: bool, encodes: Encoder): Option<Key> {
    if !CacheableEdns(q) then None
    else if IsSimple(q) then Some(SimpleKey(q))
    else if everything && encodes(q.(id := 0)) then Some(Wire(q.(id := 0)))
    else None
  }

  // ---------- Printing ----------

  /** The library formatters the key text is built from. */
  datatype Printer = Printer(
    ip: IpAddr -> string,
    rtype: u16 -> string,
    rclass: u16 -> string,
    wire: Message -> string)

  ghost predicate Injective<T(!new)>(show: T -> string) {
    forall a, b :: show(a) == show(b) ==> a == b
  }

  ghost predicate Avoids<T(!new)>(show: T -> string, c: char) {
    forall a :: c !in show(a)
  }

  /** Formatters print distinct values differently and never print a separator. */
  ghost predicate Faithful(p: Printer) {
    && Injective(p.ip) && Avoids(p.ip, '|') && Avoids(p.ip, '/')
    && Injective(p.rtype) && Avoids(p.rtype, '|')
    && Injective(p.rclass) && Avoids(p.rclass, '|')
    && Injective(p.wire) && Avoids(p.wire, '|')
  }

  function Digit(n: nat): char
    requires n < 10
  {
    '0' + n as char
  }

  function Decimal(n: nat): string {
    if n < 10 then [Digit(n)] else Decimal(n / 10) + [Digit(n % 10)]
  }

  function BoolText(b: bool): string { if b then "true" else "false" }

  function SubnetText(p: Printer, subnet: Option<(IpAddr, nat)>): string {
    match subnet
    case None => "ecs=-"
    case Some(s) => "ecs=" + p.ip(s.0) + "/" + Decimal(s.1)
  }

  function EdnsText(edns: Option<(nat, bool)>): string {
    match edns
    case None => "edns=None"
    case Some(e) => "edns=Some((" + Decimal(e.0) + ", " + BoolText(e.1) + "))"
  }

  function Join(parts: seq<string>): string
    requires parts != []
  {
    if |parts| == 1 then parts[0] else Join(parts[..|parts| - 1]) + "|" + parts[|parts| - 1]
  }

  function Parts(p: Printer, k: Key): seq<string>
    requires k.Simple?
  {
    [k.name, p.rtype(k.qtype), p.rclass(k.qclass), SubnetText(p, k.subnet),
     "rd=" + BoolText(k.rd), "cd=" + BoolText(k.cd), "ad=" + BoolText(k.ad), EdnsText(k.edns)]
  }

  function Print(p: Printer, k: Key): string {
    match k
    case Simple(_, _, _, _, _, _, _, _) => Join(Parts(p, k))
    case Wire(m) => "wire:" + p.wire(m)
  }

  // ---------- Reading a printed key back from its right end ----------

  /** A text cannot have its last separator in two places. */
  lemma SeparatorElsewhere(a: string, x: string, b: string, y: string, sep: char)
    requires sep !in x && |a| < |b|
    ensures a + [sep] + x != b + [sep] + y
  {
    var left, right := a + [sep] + x, b + [sep] + y;
    assert right[|b|] == sep;
    if |b| < |left| {
      assert left[|b|] == x[|b| - |a| - 1];
    }
  }

  /** With no separator to its right, the last separator is determined by the text. */
  lemma LastSeparator(a: string, x: string, b: string, y: string, sep: char)
    requires sep !in x && sep !in y
    ensures a + [sep] + x == b + [sep] + y ==> a == b && x == y
  {
    var left, right := a + [sep] + x, b + [sep] + y;
    if |a| < |b| {
      SeparatorElsewhere(a, x, b, y, sep);
    } else if |b| < |a| {
      SeparatorElsewhere(b, y, a, x, sep);
    } else {
      assert left[..|a|] == a && right[..|b|] == b;
      assert left[|a| + 1..] == x && right[|b| + 1..] == y;
    }
  }

  lemma {:induction false} JoinInjective(ps: seq<string>, qs: seq<string>)
    requires |ps| == |qs| && ps != []
    requires forall i | 1 <= i < |ps| :: '|' !in ps[i] && '|' !in qs[i]
    requires Join(ps) == Join(qs)
    ensures ps == qs
  {
    var n := |ps| - 1;
    if n > 0 {
      LastSeparator(Join(ps[..n]), ps[n], Join(qs[..n]), qs[n], '|');
      JoinInjective(ps[..n], qs[..n]);
      assert ps == ps[..n] + [ps[n]] && qs == qs[..n] + [qs[n]];
    }
  }

  lemma {:induction false} DecimalDigits(n: nat)
    ensures Decimal(n) != "" && forall c | c in Decimal(n) :: '0' <= c <= '9'
  {
    if n >= 10 {
      DecimalDigits(n / 10);
    }
  }

  lemma {:induction false} DecimalInjective(m: nat, n: nat)
    ensures Decimal(m) == Decimal(n) ==> m == n
  {
    var a, b := Decimal(m), Decimal(n);
    DecimalDigits(m / 10);
    DecimalDigits(n / 10);
    if m < 10 && n < 10 {
      assert a[0] == Digit(m) && b[0] == Digit(n);
    } else if m >= 10 && n >= 10 {
      assert a[..|a| - 1] == Decimal(m / 10) && b[..|b| - 1] == Decimal(n / 10);
      assert a[|a| - 1] == Digit(m % 10) && b[|b| - 1] == Digit(n % 10);
      DecimalInjective(m / 10, n / 10);
    }
  }

  lemma DecimalAvoids(n: nat, c: char)
    requires !('0' <= c <= '9')
    ensures c !in Decimal(n)
  {
    DecimalDigits(n);
  }

  lemma SubnetTextInjective(p: Printer, s: Option<(IpAddr, nat)>, t: Option<(IpAddr, nat)>)
    requires Faithful(p)
    ensures SubnetText(p, s) == SubnetText(p, t) ==> s == t
  {
    if s.Some? {
      DecimalAvoids(s.value.1, '/');
      assert SubnetText(p, s) == "ecs=" + p.ip(s.value.0) + ['/'] + Decimal(s.value.1);
      assert SubnetText(p, s)[|"ecs=" + p.ip(s.value.0)|] == '/';
    }
    if t.Some? {
      DecimalAvoids(t.value.1, '/');
      assert SubnetText(p, t) == "ecs=" + p.ip(t.value.0) + ['/'] + Decimal(t.value.1);
      assert SubnetText(p, t)[|"ecs=" + p.ip(t.value.0)|] == '/';
    }
    if s.Some? && t.Some? {
      var a, b := "ecs=" + p.ip(s.value.0), "ecs=" + p.ip(t.value.0);
      LastSeparator(a, Decimal(s.value.1), b, Decimal(t.value.1), '/');
      assert a[4..] == p.ip(s.value.0) && b[4..] == p.ip(t.value.0);
      DecimalInjective(s.value.1, t.value.1);
    }
  }

  lemma BoolTextInjective(a: bool, b: bool)
    ensures BoolText(a) == BoolText(b) ==> a == b
  {
    assert BoolText(a)[0] == (if a then 't' else 'f');
    assert BoolText(b)[0] == (if b then 't' else 'f');
  }

  lemma EdnsTextInjective(s: Option<(nat, bool)>, t: Option<(nat, bool)>)
    ensures EdnsText(s) == EdnsText(t) ==> s == t
  {
    if s.Some? && t.Some? {
      DecimalInjective(s.value.0, t.value.0);
      BoolTextInjective(s.value.1, t.value.1);
      PairTextInjective(Decimal(s.value.0), BoolText(s.value.1), Decimal(t.value.0), BoolText(t.value.1));
    } else {
      assert s.Some? ==> EdnsText(s)[5] == 'S';
      assert t.Some? ==> EdnsText(t)[5] == 'S';
    }
  }

  lemma PairTextInjective(a: string, x: string, b: string, y: string)
    requires ',' !in x && ',' !in y
    ensures "edns=Some((" + a + ", " + x + "))" == "edns=Some((" + b + ", " + y + "))" ==> a == b && x == y
  {
    var head, tail := "edns=Some((", "))";
    var left, right := head + a + ", " + x + tail, head + b + ", " + y + tail;
    assert left == (head + a) + [','] + ([' '] + x + tail);
    assert right == (head + b) + [','] + ([' '] + y + tail);
    LastSeparator(head + a, [' '] + x + tail, head + b, [' '] + y + tail, ',');
    assert (head + a)[|head|..] == a && (head + b)[|head|..] == b;
    var u, v := [' '] + x + tail, [' '] + y + tail;
    assert u[1..|u| - 2] == x && v[1..|v| - 2] == y;
  }

  lemma PartsAvoidSeparator(p: Printer, k: Key)
    requires Faithful(p) && k.Simple?
    ensures forall i | 1 <= i < 8 :: '|' !in Parts(p, k)[i]
  {
    assert '|' !in p.rtype(k.qtype) && '|' !in p.rclass(k.qclass);
    if k.subnet.Some? {
      assert '|' !in p.ip(k.subnet.value.0);
      DecimalAvoids(k.subnet.value.1, '|');
    }
    if k.edns.Some? {
      DecimalAvoids(k.edns.value.0, '|');
    }
  }

  /** The printed key determines the key, even when the printed name contains separators. */
  lemma PrintInjective(p: Printer, j: Key, k: Key)
    requires Faithful(p)
    ensures Print(p, j) == Print(p, k) <==> j == k
  {
    if Print(p, j) == Print(p, k) {
      if j.Simple? && k.Simple? {
        PartsAvoidSeparator(p, j);
        PartsAvoidSeparator(p, k);
        var a, b := Parts(p, j), Parts(p, k);
        JoinInjective(a, b);
        assert forall i | 0 <= i < 8 :: a[i] == b[i];
        assert a[1] == b[1] && a[2] == b[2];
        SubnetTextInjective(p, j.subnet, k.subnet);
        EdnsTextInjective(j.edns, k.edns);
        assert a[4][3] == b[4][3] && a[5][3] == b[5][3] && a[6][3] == b[6][3];
      } else if j.Wire? && k.Wire? {
        assert ("wire:" + p.wire(j.normalized))[5..] == p.wire(j.normalized);
        assert ("wire:" + p.wire(k.normalized))[5..] == p.wire(k.normalized);
      } else {
        SimpleIsNotWire(p, j, k);
      }
    }
  }

  /** A simple key always prints a separator; a whole-message key never does. */
  lemma SimpleIsNotWire(p: Printer, j: Key, k: Key)
    requires Faithful(p) && j.Simple? != k.Simple?
    ensures Print(p, j) != Print(p, k)
  {
    var s, w := if j.Simple? then j else k, if j.Simple? then k else j;
    var parts := Parts(p, s);
    assert Print(p, s) == Join(parts[..7]) + "|" + parts[7];
    assert Print(p, s)[|Join(parts[..7])|] == '|';
    assert '|' !in p.wire(w.normalized);
    assert '|' !in Print(p, w);
  }

  /** Two one-question queries that ask the same thing in the same mode. */
  predicate SameLookup(a: Message, b: Message)
    requires IsSimple(a) && IsSimple(b)
  {
    && NormalName(a.questions[0].name) == NormalName(b.questions[0].name)
    && a.questions[0].qtype == b.questions[0].qtype
    && a.questions[0].qclass == b.questions[0].qclass
    && (EcsOf(a).Some? <==> EcsOf(b).Some?)
    && (EcsOf(a).Some? ==> EcsOf(a).value.addr == EcsOf(b).value.addr
                           && EcsOf(a).value.sourcePrefix == EcsOf(b).value.sourcePrefix)
    && a.recursionDesired == b.recursionDesired
    && a.checkingDisabled == b.checkingDisabled
    && a.authenticData == b.authenticData
    && (a.edns.Some? <==> b.edns.Some?)
    && (a.edns.Some? ==> a.edns.value.version == b.edns.value.version
                         && a.edns.value.dnssecOk == b.edns.value.dnssecOk)
  }

  /** Which queries have a key: those without options but subnets that ask one question and carry no
      records, and, if everything is to be cached, the others that can be encoded. Keys of the others are
      equal exactly for queries equal up to their id. */
  lemma KeyExists(q: Message, other: Message, everything: bool, encodes: Encoder)
    ensures KeyOf(q, everything, encodes).Some? <==>
              && (q.edns.Some? ==> forall i | 0 <= i < |q.edns.value.options| :: q.edns.value.options[i].Subnet?)
              && ((|q.questions| == 1 && q.answers == [] && q.nameServers == [] && q.additionals == [])
                  || (everything && encodes(q.(id := 0))))
    ensures KeyOf(q, everything, encodes).Some? && KeyOf(other, everything, encodes).Some? && !IsSimple(q) ==>
              (KeyOf(q, everything, encodes) == KeyOf(other, everything, encodes) <==> q.(id := 0) == other.(id := 0))
  {
    if q.edns.Some? && CacheableEdns(q) {
      forall i | 0 <= i < |q.edns.value.options| ensures q.edns.value.options[i].Subnet? {
        assert q.edns.value.options[i] in q.edns.value.options;
      }
    }
    if IsSimple(other) && q.(id := 0) == other.(id := 0) {
      var x, y := q.(id := 0), other.(id := 0);
      assert x.questions == q.questions && y.questions == other.questions && x.answers == q.answers && y.answers == other.answers;
      assert x.nameServers == q.nameServers && y.nameServers == other.nameServers;
      assert x.additionals == q.additionals && y.additionals == other.additionals;
    }
  }

  /** Two cacheable queries share a printed key exactly when they ask the same thing. */
  lemma KeyTextIsExact(p: Printer, a: Message, b: Message, everything: bool, encodes: Encoder)
    requires Faithful(p) && IsSimple(a) && IsSimple(b) && CacheableEdns(a) && CacheableEdns(b)
    ensures KeyOf(a, everything, encodes).Some? && KeyOf(b, everything, encodes).Some?
    ensures Print(p, KeyOf(a, everything, encodes).value) == Print(p, KeyOf(b, everything, encodes).value)
       <==> SameLookup(a, b)
  {
    PrintInjective(p, SimpleKey(a), SimpleKey(b));
  }

  /** Name equality and key equality agree on absolute names. */
  lemma SameNameSameKey(a: Name, b: Name)
    requires a.fqdn && b.fqdn
    requires SameName(a, b)
    ensures NormalName(a) == NormalName(b)
  {
    assert Lower(ToAscii(a)) == Lower(a.text) + "." && Lower(ToAscii(b)) == Lower(b.text) + ".";
    LowerOfTrimmed(ToAscii(a), ToAscii(b));
  }

  lemma {:induction false} LowerOfTrimmed(s: string, t: string)
    requires Lower(s) == Lower(t)
    ensures Lower(TrimDots(s)) == Lower(TrimDots(t))
  {
    assert |s| == |t|;
    if s != "" {
      var n := |s| - 1;
      assert Lower(s)[n] == Lower(t)[n];
      assert s[n] == '.' <==> t[n] == '.';
      assert Lower(s[..n]) == Lower(s)[..n] && Lower(t[..n]) == Lower(t)[..n];
      if s[n] == '.' {
        LowerOfTrimmed(s[..n], t[..n]);
      }
    }
  }
}
