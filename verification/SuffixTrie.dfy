/** The domain suffix trie of `src/matcher.rs`. A node owns its children, so a trie is a value. */
module SuffixTrie {
  import opened Steps

  type Label = string

  datatype Node = Node(children: map<Label, Node>, terminal: bool)

  const EMPTY := Node(map[], false)

  // ---------- Labels of a printed name ----------

  /** The parts of a text that starts with `c` and goes on with these parts. */
  function PartsWith(c: char, rest: seq<string>): (r: seq<string>)
    requires rest != []
    ensures r != []
  {
    if c == '.' then [""] + rest else [[c] + rest[0]] + rest[1..]
  }

  function Split(s: string): (r: seq<string>)
    ensures r != []
  {
    if s == "" then [""] else PartsWith(s[0], Split(s[1..]))
  }

  function Reversed(s: seq<string>): seq<string> {
    if s == [] then [] else Reversed(s[1..]) + [s[0]]
  }

  function NonEmpty(s: seq<string>): seq<string> {
    if s == [] then [] else (if s[0] == "" then [] else [s[0]]) + NonEmpty(s[1..])
  }

  /** Labels from the top-level domain down, without empty ones. */
  function LabelsOf(domain: string): seq<Label> { NonEmpty(Reversed(Split(domain))) }

  // ---------- Domain text ----------

  function Undoubled(s: string): string {
    if |s| < 2 then s
    else if s[0] == '.' && s[1] == '.' then Undoubled(s[1..])
    else [s[0]] + Undoubled(s[1..])
  }

  /** The text without leading, trailing and doubled dots. */
  function Tidied(s: string): string { WithoutLastDot(WithoutFirstDot(Undoubled(s))) }

  function WithoutFirstDot(s: string): string { if s != "" && s[0] == '.' then s[1..] else s }

  function WithoutLastDot(s: string): string { if s != "" && s[|s| - 1] == '.' then s[..|s| - 1] else s }

  predicate NoDoubled(s: string) { forall i | 0 <= i < |s| - 1 :: !(s[i] == '.' && s[i + 1] == '.') }

  predicate Tidy(s: string) { NoDoubled(s) && (s != "" ==> s[0] != '.' && s[|s| - 1] != '.') }

  /** `x` is the domain `d` or below it; only the empty text is below the empty rule. */
  predicate Under(x: string, d: string) {
    if d == "" then x == "" else x == d || EndsWith(x, "." + d)
  }

  lemma {:induction false} UndoubledShape(s: string)
    ensures var u := Undoubled(s);
            && NoDoubled(u) && (NoDoubled(s) ==> u == s)
            && (u == "" <==> s == "") && (s != "" ==> u[0] == s[0])
  {
    if |s| >= 2 {
      UndoubledShape(s[1..]);
      if NoDoubled(s) {
        assert !(s[0] == '.' && s[1] == '.');
        NoDoubledSlice(s, 1, |s|);
      }
      var v := Undoubled(s[1..]);
      if !(s[0] == '.' && s[1] == '.') {
        assert forall i | 1 <= i < |v| :: ([s[0]] + v)[i] == v[i - 1];
      }
    }
  }

  lemma TidiedIsTidy(s: string)
    ensures Tidy(Tidied(s)) && (Tidy(s) ==> Tidied(s) == s)
  {
    UndoubledShape(s);
    var u := Undoubled(s);
    hide Undoubled;
    var v := if u != "" && u[0] == '.' then u[1..] else u;
    NoDoubledSlice(u, |u| - |v|, |u|);
    assert v != "" ==> v[0] != '.';
    NoDoubledSlice(v, 0, |Tidied(s)|);
  }

  lemma NoDoubledSlice(s: string, i: nat, j: nat)
    requires NoDoubled(s) && i <= j <= |s|
    ensures NoDoubled(s[i..j])
    ensures s[0..] == s && s[..|s|] == s && s[i..|s|] == s[i..] && s[0..j] == s[..j]
  {
  }

  lemma {:induction false} NonEmptyConcat(a: seq<string>, b: seq<string>)
    ensures NonEmpty(a + b) == NonEmpty(a) + NonEmpty(b)
  {
    if a == [] {
      assert a + b == b;
    } else {
      NonEmptyConcat(a[1..], b);
      assert (a + b)[1..] == a[1..] + b && (a + b)[0] == a[0];
      var first := if a[0] == "" then [] else [a[0]];
      Regroup(first, NonEmpty(a[1..]), NonEmpty(b));
    }
  }

  lemma Regroup<T>(a: seq<T>, b: seq<T>, c: seq<T>)
    ensures a + (b + c) == a + b + c
  {
  }

  lemma {:induction false} NonEmptyFull(s: seq<string>)
    requires forall i | 0 <= i < |s| :: s[i] != ""
    ensures NonEmpty(s) == s
  {
    if s != [] {
      NonEmptyFull(s[1..]);
    }
  }

  lemma {:induction false} ReversedNonEmpty(s: seq<string>)
    ensures NonEmpty(Reversed(s)) == Reversed(NonEmpty(s))
  {
    if s != [] {
      ReversedNonEmpty(s[1..]);
      NonEmptyConcat(Reversed(s[1..]), [s[0]]);
      assert [s[0]][1..] == [];
      if s[0] != "" {
        assert ([s[0]] + NonEmpty(s[1..]))[1..] == NonEmpty(s[1..]);
        assert NonEmpty([s[0]]) == [s[0]];
      } else {
        assert NonEmpty([s[0]]) == [] && NonEmpty(s) == NonEmpty(s[1..]);
      }
    }
  }

  lemma {:induction false} ReversedConcat(a: seq<string>, b: seq<string>)
    ensures Reversed(a + b) == Reversed(b) + Reversed(a)
  {
    if a == [] {
      assert a + b == b;
    } else {
      ReversedConcat(a[1..], b);
      assert (a + b)[1..] == a[1..] + b && (a + b)[0] == a[0];
    }
  }

  lemma {:induction false} ReversedTwice(s: seq<string>)
    ensures |Reversed(s)| == |s| && Reversed(Reversed(s)) == s
  {
    if s != [] {
      ReversedTwice(s[1..]);
      ReversedConcat(Reversed(s[1..]), [s[0]]);
      assert [s[0]][1..] == [];
    }
  }

  lemma PrefixOfConcat<T>(a: seq<T>, p: seq<T>, q: seq<T>)
    requires |p| == |a|
    ensures a <= p + q <==> a == p
  {
    assert (p + q)[..|p|] == p;
  }

  lemma ReversedPrefix(a: seq<string>, b: seq<string>)
    ensures Reversed(a) <= Reversed(b) <==> |a| <= |b| && b[|b| - |a|..] == a
  {
    ReversedTwice(a);
    ReversedTwice(b);
    if |a| <= |b| {
      var front, tail := b[..|b| - |a|], b[|b| - |a|..];
      assert b == front + tail;
      ReversedConcat(front, tail);
      ReversedTwice(tail);
      hide Reversed;
      PrefixOfConcat(Reversed(a), Reversed(tail), Reversed(front));
    }
  }

  lemma PartsWithConcat(c: char, a: seq<string>, b: seq<string>)
    requires a != []
    ensures PartsWith(c, a + b) == PartsWith(c, a) + b
  {
    assert (a + b)[1..] == a[1..] + b;
  }

  lemma {:induction false} SplitAtDot(a: string, b: string)
    ensures Split(a + "." + b) == Split(a) + Split(b)
  {
    if a == "" {
      assert a + "." + b == "." + b && ("." + b)[1..] == b;
    } else {
      var s := a + "." + b;
      SplitAtDot(a[1..], b);
      assert s != "" && s[1..] == a[1..] + "." + b && s[0] == a[0];
      assert Split(s) == PartsWith(s[0], Split(s[1..])) && Split(a) == PartsWith(a[0], Split(a[1..]));
      hide Split, PartsWith;
      PartsWithConcat(a[0], Split(a[1..]), Split(b));
    }
  }

  function Joined(parts: seq<string>): string
    requires parts != []
  {
    if |parts| == 1 then parts[0] else parts[0] + "." + Joined(parts[1..])
  }

  lemma {:induction false} JoinedSplit(s: string)
    ensures Joined(Split(s)) == s
  {
    if s != "" {
      JoinedSplit(s[1..]);
      var rest := Split(s[1..]);
      if s[0] == '.' {
        assert ([""] + rest)[1..] == rest;
      } else {
        assert ([[s[0]] + rest[0]] + rest[1..])[1..] == rest[1..];
      }
    }
  }

  lemma {:induction false} JoinedConcat(a: seq<string>, b: seq<string>)
    requires a != [] && b != []
    ensures Joined(a + b) == Joined(a) + "." + Joined(b)
  {
    if |a| == 1 {
      assert (a + b)[1..] == b;
    } else {
      JoinedConcat(a[1..], b);
      assert (a + b)[1..] == a[1..] + b;
    }
  }

  /** No part is empty but for a leading dot. */
  lemma {:induction false} PartsAreFull(s: string)
    requires NoDoubled(s) && (s != "" ==> s[|s| - 1] != '.')
    ensures forall i | 1 <= i < |Split(s)| :: Split(s)[i] != ""
    ensures Split(s)[0] == "" <==> s == "" || s[0] == '.'
  {
    if s != "" {
      NoDoubledSlice(s, 1, |s|);
      PartsAreFull(s[1..]);
      var rest := Split(s[1..]);
      if s[0] == '.' {
        assert s[1..] != "" && s[1] != '.';
        assert forall i | 1 <= i < |rest| + 1 :: ([""] + rest)[i] == rest[i - 1];
      }
    }
  }

  lemma TidyLabels(s: string)
    requires Tidy(s)
    ensures LabelsOf(s) == if s == "" then [] else Reversed(Split(s))
  {
    ReversedNonEmpty(Split(s));
    if s != "" {
      PartsAreFull(s);
      NonEmptyFull(Split(s));
    } else {
      assert Split(s) == [""] && NonEmpty([""]) == [] + NonEmpty([""][1..]);
    }
  }

  predicate IsTail(p: seq<string>, q: seq<string>) { |q| <= |p| && p[|p| - |q|..] == q }

  lemma TextOfTail(x: string, d: string)
    requires IsTail(Split(x), Split(d))
    ensures x == d || EndsWith(x, "." + d)
  {
    JoinedSplit(x);
    JoinedSplit(d);
    var p, q := Split(x), Split(d);
    hide Split, Joined;
    var front := p[..|p| - |q|];
    assert p == front + q;
    if front == [] {
      assert p == q;
    } else {
      JoinedConcat(front, q);
      EndsInDotted(Joined(front), d);
    }
  }

  lemma EndsInDotted(a: string, d: string)
    ensures EndsWith(a + "." + d, "." + d)
  {
    var x := a + "." + d;
    assert x == a + ("." + d);
    assert x[|x| - |"." + d|..] == "." + d;
  }

  lemma TailOfText(x: string, d: string)
    requires x == d || EndsWith(x, "." + d)
    ensures IsTail(Split(x), Split(d))
  {
    if x == d {
      assert Split(x)[0..] == Split(d);
    } else {
      var a := x[..|x| - |d| - 1];
      assert x == a + ("." + d) == a + "." + d;
      SplitAtDot(a, d);
      assert (Split(a) + Split(d))[|Split(a)|..] == Split(d);
    }
  }

  /** Among tidy texts, a rule's labels lead a domain's exactly when the domain is the rule's or below it. */
  lemma LabelsUnder(x: string, d: string)
    requires Tidy(x) && Tidy(d)
    ensures LabelsOf(d) <= LabelsOf(x) && (LabelsOf(d) == [] ==> LabelsOf(x) == []) <==> Under(x, d)
  {
    TidyLabels(x);
    TidyLabels(d);
    ReversedPrefix(Split(d), Split(x));
    if IsTail(Split(x), Split(d)) { TextOfTail(x, d); }
    if x == d || EndsWith(x, "." + d) { TailOfText(x, d); }
    ReversedTwice(Split(x));
    ReversedTwice(Split(d));
    hide Split, Reversed, EndsWith;
  }

  lemma {:induction false} UndoubledParts(s: string)
    ensures Split(Undoubled(s))[0] == Split(s)[0]
    ensures NonEmpty(Split(Undoubled(s))[1..]) == NonEmpty(Split(s)[1..])
  {
    if |s| >= 2 {
      UndoubledParts(s[1..]);
      var u, rest := Undoubled(s[1..]), Split(s[1..]);
      if s[0] == '.' && s[1] == '.' {
        assert rest[0] == "" && ([""] + rest)[1..] == rest;
      } else {
        assert ([s[0]] + u)[1..] == u;
        if s[0] == '.' {
          assert ([""] + rest)[1..] == rest && ([""] + Split(u))[1..] == Split(u);
        } else {
          assert ([[s[0]] + rest[0]] + rest[1..])[1..] == rest[1..];
          assert ([[s[0]] + Split(u)[0]] + Split(u)[1..])[1..] == Split(u)[1..];
        }
      }
    }
  }

  lemma PartsByHead(s: string)
    ensures NonEmpty(Split(s)) == (if Split(s)[0] == "" then [] else [Split(s)[0]]) + NonEmpty(Split(s)[1..])
  {
  }

  /** Dots in front and at the end add only empty parts. */
  lemma OuterDots(s: string)
    ensures NonEmpty(Split("." + s)) == NonEmpty(Split(s)) && NonEmpty(Split(s + ".")) == NonEmpty(Split(s))
  {
    assert ("." + s)[1..] == s && ([""] + Split(s))[1..] == Split(s);
    assert s + "." + "" == s + ".";
    SplitAtDot(s, "");
    NonEmptyConcat(Split(s), [""]);
    assert [""][1..] == [] && NonEmpty([""]) == [];
  }

  lemma FirstDotParts(s: string)
    ensures NonEmpty(Split(WithoutFirstDot(s))) == NonEmpty(Split(s))
  {
    var v := WithoutFirstDot(s);
    if v != s {
      assert s == "." + v;
      OuterDots(v);
    }
  }

  lemma LastDotParts(s: string)
    ensures NonEmpty(Split(WithoutLastDot(s))) == NonEmpty(Split(s))
  {
    var v := WithoutLastDot(s);
    if v != s {
      assert s == v + ".";
      OuterDots(v);
    }
  }

  lemma TidiedParts(s: string)
    ensures NonEmpty(Split(Tidied(s))) == NonEmpty(Split(s))
  {
    var u := Undoubled(s);
    UndoubledParts(s);
    PartsByHead(u);
    PartsByHead(s);
    FirstDotParts(u);
    LastDotParts(WithoutFirstDot(u));
    hide Split, NonEmpty, Undoubled, WithoutFirstDot, WithoutLastDot;
  }

  /** Superfluous dots do not change a text's labels. */
  lemma TidiedLabels(s: string)
    ensures LabelsOf(Tidied(s)) == LabelsOf(s)
  {
    TidiedParts(s);
    ReversedNonEmpty(Split(s));
    ReversedNonEmpty(Split(Tidied(s)));
    hide Split, NonEmpty, Tidied, Reversed;
  }

  /** The same for any texts. */
  lemma LabelsAreSuffixes(x: string, d: string)
    ensures LabelsOf(d) <= LabelsOf(x) && (LabelsOf(d) == [] ==> LabelsOf(x) == []) <==> Under(Tidied(x), Tidied(d))
  {
    TidiedLabels(x);
    TidiedLabels(d);
    TidiedIsTidy(x);
    TidiedIsTidy(d);
    LabelsUnder(Tidied(x), Tidied(d));
  }

  // ---------- The trie and the rules it stands for ----------

  /** The label paths that end at a terminal node. */
  function Rules(n: Node): set<seq<Label>> {
    (if n.terminal then {[]} else {})
    + set l, p | l in n.children && p in Rules(n.children[l]) :: [l] + p
  }

  function Child(n: Node, l: Label): Node {
    if l in n.children then n.children[l] else EMPTY
  }

  function Inserted(n: Node, labels: seq<Label>): Node
    decreases |labels|
  {
    if labels == [] then n.(terminal := true)
    else n.(children := n.children[labels[0] := Inserted(Child(n, labels[0]), labels[1..])])
  }

  lemma RulesOfEmpty()
    ensures Rules(EMPTY) == {}
  {
  }

  lemma RuleAt(n: Node, r: seq<Label>)
    ensures r == [] ==> (r in Rules(n) <==> n.terminal)
    ensures r != [] ==> (r in Rules(n) <==> r[0] in n.children && r[1..] in Rules(n.children[r[0]]))
  {
    if r != [] {
      if r[0] in n.children && r[1..] in Rules(n.children[r[0]]) {
        assert [r[0]] + r[1..] == r;
      }
      if r in Rules(n) {
        var l, p :| l in n.children && p in Rules(n.children[l]) && r == [l] + p;
        assert r[0] == l && r[1..] == p;
      }
    }
  }

  lemma ChildRules(n: Node, l: Label, p: seq<Label>)
    ensures p in Rules(Child(n, l)) <==> [l] + p in Rules(n)
  {
    RuleAt(n, [l] + p);
    assert ([l] + p)[1..] == p;
    RulesOfEmpty();
  }

  /** Inserting adds exactly the inserted rule. */
  lemma {:induction false} InsertedRules(n: Node, labels: seq<Label>)
    ensures Rules(Inserted(n, labels)) == Rules(n) + {labels}
    decreases |labels|
  {
    hide Rules;
    var m := Inserted(n, labels);
    if labels != [] {
      InsertedRules(Child(n, labels[0]), labels[1..]);
    }
    forall r ensures r in Rules(m) <==> r in Rules(n) || r == labels {
      RuleAt(m, r);
      RuleAt(n, r);
      if r != [] && labels != [] && r[0] == labels[0] {
        ChildRules(n, r[0], r[1..]);
        assert [r[0]] + r[1..] == r && [labels[0]] + labels[1..] == labels;
      }
    }
  }

  function AllInserted(rules: seq<string>): Node {
    if rules == [] then EMPTY else Inserted(AllInserted(rules[..|rules| - 1]), LabelsOf(rules[|rules| - 1]))
  }

  function RuleSet(rules: seq<string>): set<seq<Label>> { set i | 0 <= i < |rules| :: LabelsOf(rules[i]) }

  lemma RuleSetLast(rules: seq<string>)
    requires rules != []
    ensures RuleSet(rules) == RuleSet(rules[..|rules| - 1]) + {LabelsOf(rules[|rules| - 1])}
  {
    hide LabelsOf;
    var n := |rules| - 1;
    assert forall i | 0 <= i < n :: rules[..n][i] == rules[i];
    forall r ensures r in RuleSet(rules) <==> r in RuleSet(rules[..n]) || r == LabelsOf(rules[n]) {
      if r in RuleSet(rules) {
        var i :| 0 <= i < |rules| && LabelsOf(rules[i]) == r;
        assert i < n ==> LabelsOf(rules[..n][i]) == r;
      }
      if r in RuleSet(rules[..n]) {
        var i :| 0 <= i < n && LabelsOf(rules[..n][i]) == r;
        assert LabelsOf(rules[i]) == r;
      }
    }
  }

  lemma {:induction false} AllInsertedRules(rules: seq<string>)
    ensures Rules(AllInserted(rules)) == RuleSet(rules)
  {
    hide LabelsOf, Inserted;
    if rules == [] {
      RulesOfEmpty();
    } else {
      var n := |rules| - 1;
      AllInsertedRules(rules[..n]);
      InsertedRules(AllInserted(rules[..n]), LabelsOf(rules[n]));
      RuleSetLast(rules);
    }
  }

  // ---------- Matching ----------

  /** The linear scan: some rule's labels lead the domain's, and the empty rule matches only the
      empty domain. */
  predicate ScanMatch(rules: set<seq<Label>>, labels: seq<Label>) {
    exists r | r in rules :: r <= labels && (r == [] ==> labels == [])
  }

  /** The walk from a node: whether a terminal is met strictly below it, or at the end. */
  predicate Walk(n: Node, labels: seq<Label>) {
    if labels == [] then n.terminal
    else labels[0] in n.children
         && (n.children[labels[0]].terminal || Walk(n.children[labels[0]], labels[1..]))
  }

  /** A rule below a child, seen from its parent. */
  lemma ScanFromChild(n: Node, l: Label, p: seq<Label>, labels: seq<Label>)
    requires labels != [] && labels[0] == l && l in n.children
    requires p in Rules(n.children[l]) && p <= labels[1..]
    ensures ScanMatch(Rules(n), labels)
  {
    ChildRules(n, l, p);
    var r := [l] + p;
    assert r in Rules(n) && r <= labels && r != [];
  }

  lemma {:induction false} WalkIsScan(n: Node, labels: seq<Label>)
    ensures Walk(n, labels) <==> ScanMatch(Rules(n), labels)
    decreases |labels|
  {
    RuleAt(n, []);
    if labels == [] {
      assert n.terminal ==> [] in Rules(n);
    } else {
      var l := labels[0];
      if l in n.children {
        var child := n.children[l];
        WalkIsScan(child, labels[1..]);
        RuleAt(child, []);
        if child.terminal {
          ScanFromChild(n, l, [], labels);
        } else if Walk(child, labels[1..]) {
          var p :| p in Rules(child) && p <= labels[1..] && (p == [] ==> labels[1..] == []);
          ScanFromChild(n, l, p, labels);
        }
      }
      if ScanMatch(Rules(n), labels) {
        var r :| r in Rules(n) && r <= labels && (r == [] ==> labels == []);
        RuleAt(n, r);
        assert r[0] == l && r[1..] <= labels[1..];
        var p := r[1..];
        assert p in Rules(n.children[l]) && (p != [] ==> ScanMatch(Rules(n.children[l]), labels[1..]));
      }
    }
  }

  lemma LabelSetGrows(texts: set<string>, domain: string)
    ensures (set d | d in texts + {domain} :: LabelsOf(d)) == (set d | d in texts :: LabelsOf(d)) + {LabelsOf(domain)}
  {
    hide LabelsOf;
  }

  lemma ScanIsUnder(texts: set<string>, rules: set<seq<Label>>, domain: string)
    requires rules == set d | d in texts :: LabelsOf(d)
    ensures ScanMatch(rules, LabelsOf(domain)) <==> exists d :: d in texts && Under(Tidied(domain), Tidied(d))
  {
    hide LabelsOf, Tidied, Under;
    if ScanMatch(rules, LabelsOf(domain)) {
      var r :| r in rules && r <= LabelsOf(domain) && (r == [] ==> LabelsOf(domain) == []);
      var d :| d in texts && LabelsOf(d) == r;
      LabelsAreSuffixes(domain, d);
    }
    if d :| d in texts && Under(Tidied(domain), Tidied(d)) {
      LabelsAreSuffixes(domain, d);
      assert LabelsOf(d) in rules;
    }
  }

  class DomainSet {
    var suffix: Node
    /** The rules inserted so far, as text. */
    ghost var inserted: set<string>

    ghost predicate Valid()
      reads this
    {
      Rules(suffix) == set d | d in inserted :: LabelsOf(d)
    }

    constructor ()
      ensures Valid() && suffix == EMPTY && inserted == {}
    {
      suffix, inserted := EMPTY, {};
      new;
      RulesOfEmpty();
    }

    method InsertSuffix(domain: string)
      requires Valid()
      modifies this
      ensures Valid() && inserted == old(inserted) + {domain}
      ensures suffix == Inserted(old(suffix), LabelsOf(domain))
      ensures Rules(suffix) == Rules(old(suffix)) + {LabelsOf(domain)}
    {
      InsertedRules(suffix, LabelsOf(domain));
      LabelSetGrows(inserted, domain);
      hide Rules, LabelsOf, Inserted;
      suffix, inserted := Inserted(suffix, LabelsOf(domain)), inserted + {domain};
    }

    /** `suffix_match`: walks down from the root with a loop. A domain matches exactly when, superfluous
        dots aside, it is some inserted domain or ends in a dot and that domain. */
    method SuffixMatch(domain: string) returns (found: bool)
      requires Valid()
      ensures found <==> exists d :: d in inserted && Under(Tidied(domain), Tidied(d))
      ensures found <==> ScanMatch(Rules(suffix), LabelsOf(domain))
    {
      var labels := LabelsOf(domain);
      WalkIsScan(suffix, labels);
      ScanIsUnder(inserted, Rules(suffix), domain);
      var node := suffix;
      for i := 0 to |labels|
        invariant Walk(suffix, labels) == Walk(node, labels[i..])
        invariant i > 0 ==> !node.terminal
      {
        assert labels[i..][1..] == labels[i + 1..];
        if labels[i] !in node.children {
          return false;
        }
        node := node.children[labels[i]];
        if node.terminal {
          return true;
        }
      }
      return node.terminal;
    }

    method Count() returns (c: nat)
      ensures c == |Rules(suffix)|
    {
      c := CountTerminals(suffix);
    }
  }

  /** The rules below one child, as rules of its parent. */
  function Below(n: Node, l: Label): set<seq<Label>>
    requires l in n.children
  {
    set p | p in Rules(n.children[l]) :: [l] + p
  }

  function BelowAll(n: Node, ls: set<Label>): set<seq<Label>>
    requires ls <= n.children.Keys
  {
    set l, p | l in ls && p in Rules(n.children[l]) :: [l] + p
  }

  lemma {:induction false} PrefixedSize(ps: set<seq<Label>>, l: Label)
    ensures |set p | p in ps :: [l] + p| == |ps|
  {
    if ps != {} {
      var p :| p in ps;
      PrefixedSize(ps - {p}, l);
      var small := set q | q in ps - {p} :: [l] + q;
      var whole := set q | q in ps :: [l] + q;
      assert whole == small + {[l] + p};
      forall q | q in ps && q != p ensures [l] + q != [l] + p {
        assert ([l] + q)[1..] == q && ([l] + p)[1..] == p;
      }
    }
  }

  lemma BelowMembers(n: Node, ls: set<Label>, r: seq<Label>)
    requires ls <= n.children.Keys
    ensures r in BelowAll(n, ls) <==> r != [] && r[0] in ls && r[1..] in Rules(n.children[r[0]])
  {
    hide Rules;
    if r != [] && r[0] in ls && r[1..] in Rules(n.children[r[0]]) {
      assert r == [r[0]] + r[1..];
    }
    if r in BelowAll(n, ls) {
      var l, p :| l in ls && p in Rules(n.children[l]) && r == [l] + p;
      assert r[0] == l && r[1..] == p;
    }
  }

  lemma BelowStep(n: Node, ls: set<Label>, l: Label)
    requires ls <= n.children.Keys && l in n.children && l !in ls
    ensures |BelowAll(n, ls + {l})| == |BelowAll(n, ls)| + |Rules(n.children[l])|
  {
    hide Rules, BelowAll;
    PrefixedSize(Rules(n.children[l]), l);
    forall r ensures r in BelowAll(n, ls + {l}) <==> r in BelowAll(n, ls) || r in BelowAll(n, {l}) {
      BelowMembers(n, ls + {l}, r);
      BelowMembers(n, ls, r);
      BelowMembers(n, {l}, r);
    }
    forall r ensures r in BelowAll(n, {l}) <==> r in Below(n, l) {
      BelowMembers(n, {l}, r);
      if r != [] && r[0] == l { assert r == [l] + r[1..]; }
      if r in Below(n, l) { assert r[0] == l; }
    }
    forall r | r in BelowAll(n, ls) ensures r !in BelowAll(n, {l}) {
      BelowMembers(n, ls, r);
      BelowMembers(n, {l}, r);
    }
    assert BelowAll(n, ls + {l}) == BelowAll(n, ls) + Below(n, l);
    assert BelowAll(n, ls) !! Below(n, l);
  }

  lemma RulesSplit(n: Node)
    ensures |Rules(n)| == (if n.terminal then 1 else 0) + |BelowAll(n, n.children.Keys)|
    ensures BelowAll(n, {}) == {}
  {
    BelowMembers(n, n.children.Keys, []);
    var own: set<seq<Label>> := if n.terminal then {[]} else {};
    assert Rules(n) == own + BelowAll(n, n.children.Keys);
  }

  /** `count_terminals` visits the children in whatever order the hash map yields them. */
  method CountTerminals(n: Node) returns (c: nat)
    ensures c == |Rules(n)|
    decreases n
  {
    hide Rules, BelowAll;
    RulesSplit(n);
    c := if n.terminal then 1 else 0;
    var todo := n.children.Keys;
    assert n.children.Keys - todo == {};
    while todo != {}
      invariant todo <= n.children.Keys
      invariant c == (if n.terminal then 1 else 0) + |BelowAll(n, n.children.Keys - todo)|
    {
      var l :| l in todo;
      BelowStep(n, n.children.Keys - todo, l);
      assert n.children.Keys - (todo - {l}) == n.children.Keys - todo + {l};
      var below := CountTerminals(n.children[l]);
      c := c + below;
      todo := todo - {l};
    }
    assert n.children.Keys - todo == n.children.Keys;
  }

  /** After any rules in any order, the trie matches a domain exactly when a scan over the rules
      does, and counts the distinct rules. */
  lemma TrieIsScan(rules: seq<string>, domain: string)
    ensures Walk(AllInserted(rules), LabelsOf(domain))
       <==> exists i | 0 <= i < |rules| ::
              LabelsOf(rules[i]) <= LabelsOf(domain) && (LabelsOf(rules[i]) == [] ==> LabelsOf(domain) == [])
    ensures |Rules(AllInserted(rules))| == |RuleSet(rules)|
  {
    AllInsertedRules(rules);
    WalkIsScan(AllInserted(rules), LabelsOf(domain));
    if ScanMatch(RuleSet(rules), LabelsOf(domain)) {
      var r :| r in RuleSet(rules) && r <= LabelsOf(domain) && (r == [] ==> LabelsOf(domain) == []);
      var i :| 0 <= i < |rules| && LabelsOf(rules[i]) == r;
    }
    if i :| 0 <= i < |rules| && LabelsOf(rules[i]) <= LabelsOf(domain) && (LabelsOf(rules[i]) == [] ==> LabelsOf(domain) == []) {
      assert LabelsOf(rules[i]) in RuleSet(rules);
    }
  }

  /** The same on text: for rules and a domain without superfluous dots, the trie matches exactly the
      domains that are a rule or end in a dot and a rule, and the empty domain if a rule is empty. */
  lemma TrieIsTextSuffix(rules: seq<string>, domain: string)
    requires Tidy(domain) && forall i | 0 <= i < |rules| :: Tidy(rules[i])
    ensures Walk(AllInserted(rules), LabelsOf(domain))
       <==> exists i | 0 <= i < |rules| ::
              if rules[i] == "" then domain == "" else domain == rules[i] || EndsWith(domain, "." + rules[i])
  {
    TrieIsScan(rules, domain);
    hide LabelsOf, Walk, EndsWith, Tidy;
    forall i | 0 <= i < |rules|
      ensures LabelsOf(rules[i]) <= LabelsOf(domain) && (LabelsOf(rules[i]) == [] ==> LabelsOf(domain) == [])
         <==> Under(domain, rules[i])
    {
      LabelsUnder(domain, rules[i]);
    }
  }

  /** Insertion order and repetition are irrelevant. */
  lemma OrderIsIrrelevant(rules: seq<string>, other: seq<string>, domain: string)
    requires RuleSet(rules) == RuleSet(other)
    ensures Walk(AllInserted(rules), LabelsOf(domain)) == Walk(AllInserted(other), LabelsOf(domain))
  {
    AllInsertedRules(rules);
    AllInsertedRules(other);
    WalkIsScan(AllInserted(rules), LabelsOf(domain));
    WalkIsScan(AllInserted(other), LabelsOf(domain));
  }
}
