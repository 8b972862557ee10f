/**
 Label-boundary domain matching of match/domain_utils.py.

 The code works on characters (`endswith("." + customer)`); what it promises is about labels.
 The two are proved to be the same relation, and that relation a partial order.
 `clean` stands for Python's `strip().lower()`; nothing below depends on what it does.
 */
module DomainMatch {

  datatype Correlation = ExactDomain | Subdomain | NoMatch

  function RightStripDots(s: string): string {
    if s != [] && s[|s| - 1] == '.' then RightStripDots(s[..|s| - 1]) else s
  }

  function Normalize(clean: string -> string, domain: string): string {
    RightStripDots(clean(domain))
  }

  predicate EndsWith(s: string, t: string) {
    |t| <= |s| && s[|s| - |t|..] == t
  }

  function DomainMatches(clean: string -> string, iocDomain: string, customerDomain: string): (bool, Correlation) {
    var ioc := Normalize(clean, iocDomain);
    var customer := Normalize(clean, customerDomain);
    if ioc == [] || customer == [] then (false, NoMatch)
    else if ioc == customer then (true, ExactDomain)
    else if EndsWith(ioc, "." + customer) && |ioc| > |customer| then (true, Subdomain)
    else (false, NoMatch)
  }

  // ---------- Labels ----------

  /** Python's `s.split(".")`. */
  function Labels(s: string): (labels: seq<string>)
    ensures labels != []
  {
    if s == [] then [[]]
    else
      var rest := Labels(s[1..]);
      if s[0] == '.' then [[]] + rest else [[s[0]] + rest[0]] + rest[1..]
  }

  /** Python's `".".join(labels)`. */
  function Join(labels: seq<string>): string
    requires labels != []
  {
    if |labels| == 1 then labels[0] else labels[0] + "." + Join(labels[1..])
  }

  ghost predicate IsSuffix<T>(t: seq<T>, s: seq<T>) {
    |t| <= |s| && s[|s| - |t|..] == t
  }

  lemma {:induction false} JoinLabels(s: string)
    ensures Join(Labels(s)) == s
  {
    if s != [] {
      JoinLabels(s[1..]);
      var rest, labels := Labels(s[1..]), Labels(s);
      if s[0] == '.' {
        assert labels[0] == [] && labels[1..] == rest;
      } else {
        assert labels[0] == [s[0]] + rest[0] && labels[1..] == rest[1..];
        if |rest| > 1 {
          assert Join(rest) == rest[0] + "." + Join(rest[1..]);
        }
      }
    }
  }

  lemma {:induction false} JoinConcat(x: seq<string>, y: seq<string>)
    requires x != [] && y != []
    ensures Join(x + y) == Join(x) + ("." + Join(y))
  {
    if |x| == 1 {
      assert (x + y)[1..] == y;
    } else {
      assert (x + y)[0] == x[0] && (x + y)[1..] == x[1..] + y;
      JoinConcat(x[1..], y);
    }
  }

  lemma {:induction false} LabelsConcat(p: string, c: string)
    ensures Labels(p + "." + c) == Labels(p) + Labels(c)
  {
    var s := p + "." + c;
    if p == [] {
      assert s[1..] == c;
    } else {
      assert s[1..] == p[1..] + "." + c;
      LabelsConcat(p[1..], c);
    }
  }

  lemma {:induction false} DotSuffixGivesLabelSuffix(ioc: string, customer: string)
    requires EndsWith(ioc, "." + customer)
    ensures IsSuffix(Labels(customer), Labels(ioc)) && Labels(ioc) != Labels(customer)
  {
    var p := ioc[..|ioc| - |customer| - 1];
    assert ioc == p + "." + customer;
    LabelsConcat(p, customer);
  }

  lemma {:induction false} EndsWithAppended(q: string, t: string)
    ensures EndsWith(q + t, t)
  {
    assert (q + t)[|q|..] == t;
  }

  lemma {:induction false} JoinOfSuffix(li: seq<string>, lc: seq<string>)
    requires lc != [] && IsSuffix(lc, li)
    ensures li == lc || EndsWith(Join(li), "." + Join(lc))
  {
    var x := li[..|li| - |lc|];
    assert li == x + lc;
    if x == [] {
      assert li == lc;
    } else {
      JoinConcat(x, lc);
      EndsWithAppended(Join(x), "." + Join(lc));
    }
  }

  /** The verdict, in terms of labels: a suffix of the IOC's label list, exact iff it is all of it. */
  lemma {:induction false} MatchIsLabelSuffix(clean: string -> string, iocDomain: string, customerDomain: string)
    ensures var ioc, customer := Normalize(clean, iocDomain), Normalize(clean, customerDomain);
            var (matched, correlation) := DomainMatches(clean, iocDomain, customerDomain);
            && (matched <==> ioc != [] && customer != [] && IsSuffix(Labels(customer), Labels(ioc)))
            && (correlation == NoMatch <==> !matched)
            && (correlation == ExactDomain <==> matched && Labels(customer) == Labels(ioc))
  {
    var ioc, customer := Normalize(clean, iocDomain), Normalize(clean, customerDomain);
    if EndsWith(ioc, "." + customer) {
      DotSuffixGivesLabelSuffix(ioc, customer);
    }
    JoinLabels(ioc);
    JoinLabels(customer);
    if IsSuffix(Labels(customer), Labels(ioc)) {
      JoinOfSuffix(Labels(ioc), Labels(customer));
    }
  }

  // ---------- Order laws ----------

  ghost predicate Matches(clean: string -> string, iocDomain: string, customerDomain: string) {
    DomainMatches(clean, iocDomain, customerDomain).0
  }

  /** Matching is a partial order on the domains whose normal form is not empty. */
  lemma {:induction false} MatchIsPartialOrder(clean: string -> string, a: string, b: string, c: string)
    ensures Matches(clean, a, a) <==> Normalize(clean, a) != []
    ensures Matches(clean, a, b) && Matches(clean, b, a) ==> Normalize(clean, a) == Normalize(clean, b)
    ensures Matches(clean, a, b) && Matches(clean, b, c) ==> Matches(clean, a, c)
  {
    MatchIsLabelSuffix(clean, a, b);
    MatchIsLabelSuffix(clean, b, c);
    MatchIsLabelSuffix(clean, a, c);
    if Matches(clean, a, b) && Matches(clean, b, c) {
      SuffixTransitive(Labels(Normalize(clean, c)), Labels(Normalize(clean, b)), Labels(Normalize(clean, a)));
    }
  }

  lemma {:induction false} SuffixTransitive<T>(t: seq<T>, s: seq<T>, r: seq<T>)
    requires IsSuffix(t, s) && IsSuffix(s, r)
    ensures IsSuffix(t, r)
  {
    assert r[|r| - |t|..] == r[|r| - |s|..][|s| - |t|..];
  }

  /** Two customer domains matched by one host lie on one chain: the coarser one matches the finer. */
  lemma {:induction false} MatchedByOneHostAreComparable(clean: string -> string, host: string, c1: string, c2: string)
    requires Matches(clean, host, c1) && Matches(clean, host, c2)
    ensures Matches(clean, c1, c2) || Matches(clean, c2, c1)
  {
    MatchIsLabelSuffix(clean, host, c1);
    MatchIsLabelSuffix(clean, host, c2);
    MatchIsLabelSuffix(clean, c1, c2);
    MatchIsLabelSuffix(clean, c2, c1);
    SuffixesAreComparable(Labels(Normalize(clean, host)), Labels(Normalize(clean, c1)), Labels(Normalize(clean, c2)));
  }

  lemma {:induction false} SuffixesAreComparable<T>(s: seq<T>, t1: seq<T>, t2: seq<T>)
    requires IsSuffix(t1, s) && IsSuffix(t2, s)
    ensures IsSuffix(t1, t2) || IsSuffix(t2, t1)
  {
    if |t2| <= |t1| {
      assert t1[|t1| - |t2|..] == s[|s| - |t2|..];
    } else {
      assert t2[|t2| - |t1|..] == s[|s| - |t1|..];
    }
  }

  // ---------- Normal forms ----------

  ghost predicate OnlyDots(s: string) {
    forall k :: 0 <= k < |s| ==> s[k] == '.'
  }

  /** The normal form is the cleaned name without the dots at its end, and without anything else. */
  lemma {:induction false} NormalFormIff(clean: string -> string, domain: string, r: string)
    ensures r == Normalize(clean, domain) <==>
            && r <= clean(domain) && OnlyDots(clean(domain)[|r|..]) && (r == [] || r[|r| - 1] != '.')
  {
    StripsDots(clean(domain));
    var n := Normalize(clean, domain);
    var s := clean(domain);
    if r <= s && OnlyDots(s[|r|..]) && (r == [] || r[|r| - 1] != '.') {
      LongerEndsInDot(s, r, n);
      LongerEndsInDot(s, n, r);
      assert |r| == |n|;
    }
  }

  lemma {:induction false} LongerEndsInDot(s: string, a: string, b: string)
    requires a <= s && b <= s && OnlyDots(s[|a|..])
    ensures |a| < |b| ==> b[|b| - 1] == '.'
  {
    if |a| < |b| {
      assert s[|a|..][|b| - 1 - |a|] == s[|b| - 1] == b[|b| - 1];
    }
  }

  lemma {:induction false} StripsDots(s: string)
    ensures var r := RightStripDots(s);
            r <= s && OnlyDots(s[|r|..]) && (r == [] || r[|r| - 1] != '.')
    decreases |s|
  {
    if s != [] && s[|s| - 1] == '.' {
      var front := s[..|s| - 1];
      StripsDots(front);
      var r := RightStripDots(front);
      forall k | 0 <= k < |s[|r|..]| ensures s[|r|..][k] == '.' {
        assert |r| + k < |front| ==> front[|r|..][k] == s[|r| + k];
      }
    }
  }

}
