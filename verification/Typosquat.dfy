/**
 The scan of brand_rules/typosquat.py over the known domains.

 `norm` stands for Python's `lower().strip()`; nothing below depends on what it does.
 */
module Typosquat {
  import opened Options
  import opened EditDistance

  /** The scan gives no distance at all: nothing to compare, a blank entry, or the real domain. */
  predicate Suppressed(norm: string -> string, domain: string, known: seq<string>) {
    || norm(domain) == []
    || known == []
    || exists k <- known :: norm(k) == [] || norm(k) == norm(domain)
  }

  /** What the scan returns: nothing when suppressed, otherwise the least edit distance. */
  ghost predicate IsClosest(norm: string -> string, domain: string, known: seq<string>, r: Option<nat>) {
    if Suppressed(norm, domain, known) then
      r == None
    else
      && r.Some?
      && (exists k :: k in known && Dist(norm(domain), norm(k)) == r.value)
      && (forall k :: k in known ==> r.value <= Dist(norm(domain), norm(k)))
  }

  method ClosestDistance(norm: string -> string, domain: string, known: seq<string>) returns (best: Option<nat>)
    ensures IsClosest(norm, domain, known, best)
    ensures best.Some? ==> 0 < best.value
  {
    var d := norm(domain);
    if d == [] || known == [] {
      return None;
    }
    best := None;
    for i := 0 to |known|
      invariant best == None <==> i == 0
      invariant forall k :: k in known[..i] ==> norm(k) != [] && norm(k) != d
      invariant best.Some? ==> 0 < best.value
      invariant best.Some? ==> exists k :: k in known[..i] && Dist(d, norm(k)) == best.value
      invariant best.Some? ==> forall k :: k in known[..i] ==> best.value <= Dist(d, norm(k))
    {
      var k := norm(known[i]);
      assert known[i] in known;
      if k == [] || d == k {
        return None;
      }
      var dist := Levenshtein(d, k);
      DistZero(d, k);
      assert known[..i + 1] == known[..i] + [known[i]];
      if best == None || dist < best.value {
        best := Some(dist);
      }
    }
    assert known[..|known|] == known;
  }

  method IsTyposquat(norm: string -> string, domain: string, known: seq<string>, maxDistance: int)
    returns (hit: bool, dist: Option<nat>)
    ensures IsClosest(norm, domain, known, dist)
    ensures hit <==> && !Suppressed(norm, domain, known)
                     && exists k :: k in known && Dist(norm(domain), norm(k)) <= maxDistance
  {
    dist := ClosestDistance(norm, domain, known);
    if dist == None {
      return false, None;
    }
    hit := dist.value <= maxDistance;
  }

  /**
   The answer is determined by the set of known entries: neither their order nor repetitions
   matter, so reordering the list changes neither the distance nor the verdict.
   */
  lemma {:induction false} OnlyTheSetOfKnownMatters(
      norm: string -> string, domain: string, known1: seq<string>, known2: seq<string>,
      r1: Option<nat>, r2: Option<nat>)
    requires forall k :: k in known1 <==> k in known2
    requires IsClosest(norm, domain, known1, r1) && IsClosest(norm, domain, known2, r2)
    ensures r1 == r2
  {
    assert known1 == [] <==> known2 == [] by {
      if known1 != [] { assert known1[0] in known2; }
      if known2 != [] { assert known2[0] in known1; }
    }
  }

  /** One blank entry silences the scan, however close the other entries come. */
  lemma {:induction false} BlankEntrySilencesScan(
      norm: string -> string, domain: string, known: seq<string>, r: Option<nat>)
    requires norm("") == [] && IsClosest(norm, domain, known + [""], r)
    ensures r == None
  {
    assert (known + [""])[|known|] == "";
  }
}
