/**
 The Levenshtein distance of brand_rules/typosquat.py.

 The reference notion is the edit script: a list of single-character edits applied one after
 the other at positions of the current string.  `Dist` is the recurrence behind the dynamic
 program; it is proved to be the length of a shortest script, and the two-row loop is proved
 to compute it.
 */
module EditDistance {

  // ---------- Edit scripts: what the distance is about ----------

  datatype Edit =
    | Insert(pos: nat, c: char)
    | Delete(pos: nat)
    | Substitute(pos: nat, c: char)

  predicate Applicable(e: Edit, s: string) {
    match e
    case Insert(p, _) => p <= |s|
    case Delete(p) => p < |s|
    case Substitute(p, _) => p < |s|
  }

  function Apply(e: Edit, s: string): string
    requires Applicable(e, s)
  {
    match e
    case Insert(p, c) => s[..p] + [c] + s[p..]
    case Delete(p) => s[..p] + s[p + 1..]
    case Substitute(p, c) => s[..p] + [c] + s[p + 1..]
  }

  /** Applying the edits of `script` in order is possible and turns `a` into `b`. */
  ghost predicate Transforms(script: seq<Edit>, a: string, b: string) {
    if script == [] then
      a == b
    else
      Applicable(script[0], a) && Transforms(script[1..], Apply(script[0], a), b)
  }

  /** `d` is the length of a shortest edit script from `a` to `b`. */
  ghost predicate IsEditDistance(a: string, b: string, d: int) {
    && (exists script :: Transforms(script, a, b) && |script| == d)
    && (forall script :: Transforms(script, a, b) ==> d <= |script|)
  }

  // ---------- The recurrence ----------

  function Min3(x: nat, y: nat, z: nat): nat {
    if x <= y && x <= z then x else if y <= z then y else z
  }

  function Cost(x: char, y: char): nat { if x == y then 0 else 1 }

  function Front(s: string): string
    requires s != []
  {
    s[..|s| - 1]
  }

  function Last(s: string): char
    requires s != []
  {
    s[|s| - 1]
  }

  function Dist(a: string, b: string): nat
    decreases |a| + |b|
  {
    if a == [] then |b|
    else if b == [] then |a|
    else Min3(Dist(Front(a), b) + 1, Dist(a, Front(b)) + 1,
              Dist(Front(a), Front(b)) + Cost(Last(a), Last(b)))
  }

  // ---------- Metric laws of the recurrence ----------

  lemma {:induction false} DistBounds(a: string, b: string)
    ensures |a| - |b| <= Dist(a, b) && |b| - |a| <= Dist(a, b)
    ensures Dist(a, b) <= if |a| <= |b| then |b| else |a|
    decreases |a| + |b|
  {
    if a != [] && b != [] {
      DistBounds(Front(a), b);
      DistBounds(a, Front(b));
      DistBounds(Front(a), Front(b));
    }
  }

  lemma {:induction false} DistZero(a: string, b: string)
    ensures Dist(a, b) == 0 <==> a == b
    decreases |a| + |b|
  {
    if a != [] && b != [] {
      DistZero(Front(a), Front(b));
      assert a == Front(a) + [Last(a)] && b == Front(b) + [Last(b)];
    }
  }

  lemma {:induction false} DistSymmetric(a: string, b: string)
    ensures Dist(a, b) == Dist(b, a)
    decreases |a| + |b|
  {
    if a != [] && b != [] {
      DistSymmetric(Front(a), b);
      DistSymmetric(a, Front(b));
      DistSymmetric(Front(a), Front(b));
    }
  }

  lemma {:induction false} DistTriangle(a: string, b: string, c: string)
    ensures Dist(a, c) <= Dist(a, b) + Dist(b, c)
    decreases |a| + |b| + |c|
  {
    DistBounds(a, b);
    DistBounds(b, c);
    DistBounds(a, c);
    if a != [] && b != [] && c != [] {
      if Dist(a, b) == Dist(Front(a), b) + 1 {
        DistTriangle(Front(a), b, c);
      } else if Dist(b, c) == Dist(b, Front(c)) + 1 {
        DistTriangle(a, b, Front(c));
      } else if Dist(a, b) == Dist(a, Front(b)) + 1 {
        if Dist(b, c) == Dist(Front(b), c) + 1 {
          DistTriangle(a, Front(b), c);
        } else {
          DistTriangle(a, Front(b), Front(c));
        }
      } else if Dist(b, c) == Dist(Front(b), c) + 1 {
        DistTriangle(Front(a), Front(b), c);
      } else {
        DistTriangle(Front(a), Front(b), Front(c));
      }
    }
  }

  lemma {:induction false} DistCommonSuffix(x: string, y: string, t: string)
    ensures Dist(x + t, y + t) <= Dist(x, y)
    decreases |t|
  {
    if t == [] {
      assert x + t == x && y + t == y;
    } else {
      assert Front(x + t) == x + Front(t) && Front(y + t) == y + Front(t);
      DistCommonSuffix(x, y, Front(t));
    }
  }

  // ---------- The recurrence is the shortest-script length ----------

  lemma {:induction false} DistAppend(x: string, c: char)
    ensures Dist(x, x + [c]) <= 1 && Dist(x + [c], x) <= 1
  {
    DistZero(x, x);
    DistSymmetric(x, x + [c]);
    assert Front(x + [c]) == x;
  }

  lemma {:induction false} InsertCostsAtMostOne(x: string, c: char, t: string)
    ensures Dist(x + t, x + [c] + t) <= 1 && Dist(x + [c] + t, x + t) <= 1
  {
    DistAppend(x, c);
    DistCommonSuffix(x, x + [c], t);
    DistCommonSuffix(x + [c], x, t);
  }

  lemma {:induction false} SubstituteCostsAtMostOne(x: string, c: char, d: char, t: string)
    ensures Dist(x + [c] + t, x + [d] + t) <= 1
  {
    DistZero(x, x);
    assert Front(x + [c]) == x && Front(x + [d]) == x;
    assert Dist(x + [c], x + [d]) <= 1;
    DistCommonSuffix(x + [c], x + [d], t);
  }

  lemma {:induction false} OneEditCostsAtMostOne(e: Edit, s: string)
    requires Applicable(e, s)
    ensures Dist(s, Apply(e, s)) <= 1
  {
    var x := s[..e.pos];
    match e
    case Insert(p, c) =>
      assert s == x + s[p..];
      InsertCostsAtMostOne(x, c, s[p..]);
    case Delete(p) =>
      assert s == x + [s[p]] + s[p + 1..];
      InsertCostsAtMostOne(x, s[p], s[p + 1..]);
    case Substitute(p, c) =>
      assert s == x + [s[p]] + s[p + 1..];
      SubstituteCostsAtMostOne(x, s[p], c, s[p + 1..]);
  }

  lemma {:induction false} NoScriptIsShorter(script: seq<Edit>, a: string, b: string)
    requires Transforms(script, a, b)
    ensures Dist(a, b) <= |script|
    decreases |script|
  {
    if script == [] {
      DistZero(a, b);
    } else {
      var a' := Apply(script[0], a);
      OneEditCostsAtMostOne(script[0], a);
      NoScriptIsShorter(script[1..], a', b);
      DistTriangle(a, a', b);
    }
  }

  lemma {:induction false} TransformsConcat(s1: seq<Edit>, s2: seq<Edit>, a: string, b: string, c: string)
    requires Transforms(s1, a, b) && Transforms(s2, b, c)
    ensures Transforms(s1 + s2, a, c)
    decreases |s1|
  {
    if s1 == [] {
      assert s1 + s2 == s2;
    } else {
      var s := s1 + s2;
      assert s[0] == s1[0] && s[1..] == s1[1..] + s2;
      TransformsConcat(s1[1..], s2, Apply(s1[0], a), b, c);
    }
  }

  lemma {:induction false} ApplyUnderSuffix(e: Edit, s: string, t: string)
    requires Applicable(e, s)
    ensures Applicable(e, s + t) && Apply(e, s + t) == Apply(e, s) + t
  {
    assert (s + t)[..e.pos] == s[..e.pos];
    if e.Insert? {
      assert (s + t)[e.pos..] == s[e.pos..] + t;
    } else {
      assert (s + t)[e.pos + 1..] == s[e.pos + 1..] + t;
    }
  }

  lemma {:induction false} TransformsUnderSuffix(script: seq<Edit>, a: string, b: string, t: string)
    requires Transforms(script, a, b)
    ensures Transforms(script, a + t, b + t)
    decreases |script|
  {
    if script != [] {
      ApplyUnderSuffix(script[0], a, t);
      TransformsUnderSuffix(script[1..], Apply(script[0], a), b, t);
    }
  }

  lemma {:induction false} SingleEdit(e: Edit, a: string, b: string)
    requires Applicable(e, a) && Apply(e, a) == b
    ensures Transforms([e], a, b)
  {
    assert [e][1..] == [];
    assert Transforms([], b, b);
  }

  lemma {:induction false} DeleteFirst(rest: seq<Edit>, a: string, b: string)
    requires a != [] && Transforms(rest, Front(a), b)
    ensures Transforms([Delete(|a| - 1)] + rest, a, b)
  {
    SingleEdit(Delete(|a| - 1), a, Front(a));
    TransformsConcat([Delete(|a| - 1)], rest, a, Front(a), b);
  }

  lemma {:induction false} InsertAfterwards(rest: seq<Edit>, a: string, b: string)
    requires b != [] && Transforms(rest, a, Front(b))
    ensures Transforms(rest + [Insert(|b| - 1, Last(b))], a, b)
  {
    SingleEdit(Insert(|b| - 1, Last(b)), Front(b), b);
    TransformsConcat(rest, [Insert(|b| - 1, Last(b))], a, Front(b), b);
  }

  lemma {:induction false} SubstituteAfterwards(rest: seq<Edit>, a: string, b: string)
    requires a != [] && b != [] && Transforms(rest, Front(a), Front(b))
    ensures Transforms(rest + [Substitute(|b| - 1, Last(b))], a, b)
    ensures Last(a) == Last(b) ==> Transforms(rest, a, b)
  {
    assert a == Front(a) + [Last(a)] && b == Front(b) + [Last(b)];
    TransformsUnderSuffix(rest, Front(a), Front(b), [Last(a)]);
    var mid := Front(b) + [Last(a)];
    SingleEdit(Substitute(|b| - 1, Last(b)), mid, b);
    TransformsConcat(rest, [Substitute(|b| - 1, Last(b))], a, mid, b);
  }

  /** A script of length `Dist(a, b)`, read off the recurrence. */
  lemma {:induction false} ShortestScript(a: string, b: string) returns (script: seq<Edit>)
    ensures Transforms(script, a, b) && |script| == Dist(a, b)
    decreases |a| + |b|
  {
    if a == [] && b == [] {
      script := [];
    } else if b == [] || (a != [] && Dist(a, b) == Dist(Front(a), b) + 1) {
      var rest := ShortestScript(Front(a), b);
      DeleteFirst(rest, a, b);
      script := [Delete(|a| - 1)] + rest;
    } else if a == [] || Dist(a, b) == Dist(a, Front(b)) + 1 {
      var rest := ShortestScript(a, Front(b));
      InsertAfterwards(rest, a, b);
      script := rest + [Insert(|b| - 1, Last(b))];
    } else {
      var rest := ShortestScript(Front(a), Front(b));
      SubstituteAfterwards(rest, a, b);
      script := if Last(a) == Last(b) then rest else rest + [Substitute(|b| - 1, Last(b))];
    }
  }

  /** The recurrence value, and no other number, is the shortest-script length. */
  lemma {:induction false} DistIsEditDistance(a: string, b: string, d: int)
    ensures IsEditDistance(a, b, d) <==> d == Dist(a, b)
  {
    var best := ShortestScript(a, b);
    forall script | Transforms(script, a, b) ensures Dist(a, b) <= |script| {
      NoScriptIsShorter(script, a, b);
    }
  }

  /** Shortest-script length is a metric on strings, within the length bounds. */
  lemma {:induction false} EditDistanceIsMetric(a: string, b: string, c: string, ab: int, bc: int, ac: int)
    requires IsEditDistance(a, b, ab) && IsEditDistance(b, c, bc) && IsEditDistance(a, c, ac)
    ensures ab == 0 <==> a == b
    ensures IsEditDistance(b, a, ab)
    ensures ac <= ab + bc
    ensures |a| - |b| <= ab && |b| - |a| <= ab && (ab <= |a| || ab <= |b|)
  {
    DistIsEditDistance(a, b, ab);
    DistIsEditDistance(b, c, bc);
    DistIsEditDistance(a, c, ac);
    DistIsEditDistance(b, a, ab);
    DistZero(a, b);
    DistSymmetric(a, b);
    DistTriangle(a, b, c);
    DistBounds(a, b);
  }

  // ---------- The two-row loop ----------

  lemma {:induction false} Recurrence(u: string, v: string)
    requires u != [] && v != []
    ensures Dist(u, v) ==
            Min3(Dist(Front(u), v) + 1, Dist(u, Front(v)) + 1,
                 Dist(Front(u), Front(v)) + Cost(Last(u), Last(v)))
  {
  }

  /** The first `j` cells of the table row for the prefix `a`. */
  ghost predicate RowOf(row: seq<nat>, a: string, b: string, j: nat) {
    |row| == |b| + 1 && j <= |row| && forall k :: 0 <= k < j ==> row[k] == Dist(a, b[..k])
  }

  lemma {:induction false} FirstRow(row: seq<nat>, b: string)
    requires |row| == |b| + 1 && forall j :: 0 <= j <= |b| ==> row[j] == j
    ensures RowOf(row, [], b, |b| + 1)
  {
  }

  lemma {:induction false} FirstCell(a: string, b: string)
    ensures Dist(a, b[..0]) == |a|
  {
    assert b[..0] == [];
  }

  /** One cell of the table, from its left, upper and diagonal neighbours. */
  lemma {:induction false} Cell(prev: seq<nat>, curr: seq<nat>, a: string, c: char, b: string, j: nat)
    requires 0 < j <= |b|
    requires RowOf(prev, a, b, |b| + 1) && RowOf(curr, a + [c], b, j)
    ensures Dist(a + [c], b[..j]) ==
            Min3(prev[j] + 1, curr[j - 1] + 1, prev[j - 1] + Cost(c, b[j - 1]))
  {
    assert Front(a + [c]) == a && Front(b[..j]) == b[..j - 1];
    Recurrence(a + [c], b[..j]);
    assert prev[j] == Dist(a, b[..j]);
  }

  lemma {:induction false} LastCell(row: seq<nat>, a: string, b: string)
    requires RowOf(row, a, b, |b| + 1)
    ensures row[|b|] == Dist(a, b)
  {
    assert b[..|b|] == b;
  }

  /** The inner loop: the table row for `a + [c]`, from the row above it. */
  method NextRow(prev: array<nat>, i: nat, ghost a: string, c: char, b: string) returns (curr: array<nat>)
    requires i == |a| + 1 && RowOf(prev[..], a, b, |b| + 1)
    ensures fresh(curr) && RowOf(curr[..], a + [c], b, |b| + 1)
  {
    ghost var above := prev[..];
    curr := new nat[|b| + 1](j => 0);
    curr[0] := i;
    FirstCell(a + [c], b);
    for j := 1 to |b| + 1
      invariant prev[..] == above
      invariant RowOf(curr[..], a + [c], b, j)
    {
      Cell(above, curr[..], a, c, b, j);
      var cost := if c == b[j - 1] then 0 else 1;
      curr[j] := Min3(prev[j] + 1, curr[j - 1] + 1, prev[j - 1] + cost);
    }
  }

  method Levenshtein(a: string, b: string) returns (d: nat)
    ensures d == Dist(a, b)
  {
    DistZero(a, b);
    if a == b {
      return 0;
    }
    if |a| == 0 {
      return |b|;
    }
    if |b| == 0 {
      return |a|;
    }
    var prev := new nat[|b| + 1](j => j);
    FirstRow(prev[..], b);
    assert a[..0] == [];
    for i := 0 to |a|
      invariant RowOf(prev[..], a[..i], b, |b| + 1)
    {
      prev := NextRow(prev, i + 1, a[..i], a[i], b);
      assert a[..i + 1] == a[..i] + [a[i]];
    }
    assert a[..|a|] == a;
    LastCell(prev[..], a, b);
    d := prev[prev.Length - 1];
  }
}
