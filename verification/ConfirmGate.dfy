/**
 The confirm-before-execute registry of agent/tools/_action_base.py.

 A call of an action tool has two atomic parts, separated by the `await` on the tool body:
 `Begin` prunes the registry and decides whether the body runs, and on which arguments;
 `Finish` registers a pending confirmation when the body asked for one.  Calls of different
 sessions and tools interleave freely between the two.
 */
module ConfirmGate {
  import opened Options

  datatype Value = Null | Bool(b: bool) | Int(n: int) | Str(s: string)

  type Args = map<string, Value>

  const PENDING_TTL_SECONDS: int := 300

  const CONFIRMED := "confirmed"

  predicate Truthy(v: Value) {
    match v
    case Null => false
    case Bool(b) => b
    case Int(n) => n != 0
    case Str(s) => s != []
  }

  /** Python's `==`, under which `True == 1` and `False == 0`. */
  predicate PyEquals(v: Value, w: Value) {
    || v == w
    || (v.Bool? && w.Int? && w.n == if v.b then 1 else 0)
    || (v.Int? && w.Bool? && v.n == if w.b then 1 else 0)
  }

  predicate Confirmed(args: Args) {
    CONFIRMED in args && Truthy(args[CONFIRMED])
  }

  /** The digest of the arguments without the flag; SHA-256 of canonical JSON is taken as injective. */
  function HashArgs(args: Args): Args {
    args - {CONFIRMED}
  }

  datatype Key = Key(session: string, tool: string, hash: Args)
  datatype Entry = Entry(expires: int, args: Args)

  type Registry = map<Key, Entry>

  /** `Run` executes the body; `consumed` is the registry entry that licensed it, if any. */
  datatype Decision = Run(args: Args, consumed: Option<Key>) | Ambiguous | Unmatched

  // ---------- What the gate computes ----------

  function Prune(p: Registry, now: int): Registry {
    map k | k in p && p[k].expires >= now :: p[k]
  }

  /** The entries a confirm of (session, tool) may fall back on. */
  function OfTool(p: Registry, session: string, tool: string): Registry {
    map k | k in p && k.session == session && k.tool == tool :: p[k]
  }

  /** How many of the resent arguments agree with the stored ones. */
  function Score(current: Args, stored: Args): nat {
    |set x | x in current && x != CONFIRMED && x in stored && PyEquals(stored[x], current[x])|
  }

  ghost predicate UniqueBest(c: Registry, current: Args, k: Key) {
    && k in c
    && Score(current, c[k].args) > 0
    && forall k' :: k' in c && k' != k ==> Score(current, c[k'].args) < Score(current, c[k].args)
  }

  /** The candidates left after scoring: all of them, unless one is strictly best. */
  ghost function Narrow(c: Registry, current: Args): set<Key> {
    if |c| <= 1 || current == map[] then c.Keys
    else if exists k :: UniqueBest(c, current, k) then
      set k | k in c && UniqueBest(c, current, k)
    else c.Keys
  }

  /** The decision, from the entries of that session and tool only. */
  ghost function DecideAmong(c: Registry, session: string, tool: string, destructive: bool, args: Args): Decision {
    if !destructive || !Confirmed(args) then Run(args, None)
    else if Key(session, tool, HashArgs(args)) in c then Run(args, Some(Key(session, tool, HashArgs(args))))
    else
      var left := Narrow(c, args);
      if |left| == 1 then
        var k :| k in left;
        Run(c[k].args[CONFIRMED := Bool(true)], Some(k))
      else if |left| > 1 then Ambiguous
      else Unmatched
  }

  ghost function Decide(p: Registry, session: string, tool: string, destructive: bool, args: Args): Decision {
    DecideAmong(OfTool(p, session, tool), session, tool, destructive, args)
  }

  function Consume(p: Registry, d: Decision): Registry {
    if d.Run? && d.consumed.Some? then p - {d.consumed.value} else p
  }

  function Register(p: Registry, now: int, session: string, tool: string, destructive: bool, args: Args, asks: bool)
    : Registry
  {
    if asks && destructive then
      p[Key(session, tool, HashArgs(args)) := Entry(now + PENDING_TTL_SECONDS, args)]
    else p
  }

  // ---------- What the parts mean ----------

  /** Python takes these for false, and everything else for true. */
  lemma TruthyIff(v: Value)
    ensures Truthy(v) <==> v !in {Null, Bool(false), Int(0), Str("")}
  {
  }

  lemma {:induction false} ConfirmedIff(args: Args)
    ensures Confirmed(args) <==> "confirmed" in args && args["confirmed"] !in {Null, Bool(false), Int(0), Str("")}
  {
    if "confirmed" in args {
      TruthyIff(args["confirmed"]);
    }
  }

  /** A flag counts as the number it is equal to. */
  function Canonical(v: Value): Value {
    if v.Bool? then Int(if v.b then 1 else 0) else v
  }

  lemma PyEqualsIff(v: Value, w: Value)
    ensures PyEquals(v, w) <==> Canonical(v) == Canonical(w)
  {
  }

  /** The two argument lists say the same about every argument but the flag. */
  ghost predicate SameButConfirmed(a: Args, b: Args) {
    forall x :: x != "confirmed" ==> (x in a <==> x in b) && (x in a && x in b ==> a[x] == b[x])
  }

  /** Digests are equal exactly for argument lists that differ in the flag only. */
  lemma {:induction false} EqualDigestsIff(a: Args, b: Args)
    ensures HashArgs(a) == HashArgs(b) <==> SameButConfirmed(a, b)
  {
    if HashArgs(a) == HashArgs(b) {
      forall x | x != "confirmed"
        ensures (x in a <==> x in b) && (x in a && x in b ==> a[x] == b[x])
      {
        assert x in a <==> x in HashArgs(a);
        assert x in b <==> x in HashArgs(b);
      }
    }
    if SameButConfirmed(a, b) {
      forall x ensures x in HashArgs(a) <==> x in HashArgs(b) {
      }
      assert HashArgs(a) == HashArgs(b);
    }
  }

  const NO_ARGS: Args := map[]

  /** Each resent argument counts one if it agrees with the stored one, the flag and missing ones none. */
  lemma {:induction false} ScoreAfter(current: Args, stored: Args, x: string, v: Value)
    requires x !in current
    ensures Score(NO_ARGS, stored) == 0
    ensures Score(current[x := v], stored) ==
            Score(current, stored)
            + if x != "confirmed" && x in stored && Canonical(v) == Canonical(stored[x]) then 1 else 0
  {
    var more := current[x := v];
    var agreeing := set y | y in current && y != CONFIRMED && y in stored && PyEquals(stored[y], current[y]);
    var agreeing' := set y | y in more && y != CONFIRMED && y in stored && PyEquals(stored[y], more[y]);
    if x != "confirmed" && x in stored && Canonical(v) == Canonical(stored[x]) {
      assert agreeing' == agreeing + {x};
    } else {
      assert agreeing' == agreeing;
    }
  }

  // ---------- The mutable registry ----------

  /** `keys` enumerates `c` without repetition, in some order. */
  ghost predicate Enumerates(keys: seq<Key>, c: set<Key>) {
    && (forall i, j :: 0 <= i < j < |keys| ==> keys[i] != keys[j])
    && (forall k :: k in keys <==> k in c)
  }

  lemma {:induction false} EnumerationSize(keys: seq<Key>, c: set<Key>)
    requires Enumerates(keys, c)
    ensures |keys| == |c|
    decreases |keys|
  {
    if keys == [] {
      assert c == {};
    } else {
      assert keys[0] in c;
      forall k ensures k in keys[1..] <==> k in c - {keys[0]} {
        if k in c - {keys[0]} {
          assert k in keys;
        }
      }
      EnumerationSize(keys[1..], c - {keys[0]});
    }
  }

  class Gate {
    var pending: Registry

    constructor ()
      ensures pending == map[]
    {
      pending := map[];
    }

    method PruneExpired(now: int)
      modifies this
      ensures pending == Prune(old(pending), now)
    {
      var expired := set k | k in pending && pending[k].expires < now;
      while expired != {}
        invariant forall k :: k in expired ==> k in old(pending) && old(pending)[k].expires < now
        invariant pending ==
                  map k | k in old(pending) && (old(pending)[k].expires >= now || k in expired) :: old(pending)[k]
        decreases expired
      {
        var k :| k in expired;
        pending := pending - {k};
        expired := expired - {k};
      }
    }

    /** The entries of (session, tool), in whatever order the dict yields them. */
    method ListCandidates(session: string, tool: string) returns (found: seq<Key>)
      ensures Enumerates(found, OfTool(pending, session, tool).Keys)
    {
      found := [];
      var rest := pending.Keys;
      while rest != {}
        invariant rest <= pending.Keys
        invariant Enumerates(found, OfTool(pending, session, tool).Keys - rest)
        decreases rest
      {
        var k :| k in rest;
        if k.session == session && k.tool == tool {
          found := found + [k];
        }
        rest := rest - {k};
      }
    }

    /** The narrowed candidates; the answer does not depend on the order of the dict. */
    method FindPendingForTool(session: string, tool: string, current: Args) returns (found: seq<Key>)
      ensures Enumerates(found, Narrow(OfTool(pending, session, tool), current))
    {
      ghost var c := OfTool(pending, session, tool);
      found := ListCandidates(session, tool);
      EnumerationSize(found, c.Keys);
      if |found| <= 1 || current == map[] {
        return;
      }
      var scored := SortByScore(found, pending, current);
      var first, second := scored[0], scored[1];
      SecondBest(found, pending, current);
      LeadDecides(c, current, first, second);
      if Score(current, pending[first].args) > 0
         && Score(current, pending[first].args) > Score(current, pending[second].args) {
        found := [first];
      }
    }

    /** A confirmed call without a strict key: it runs on the one candidate left, if there is one. */
    method FallBack(session: string, tool: string, args: Args) returns (d: Decision)
      requires Confirmed(args) && Key(session, tool, HashArgs(args)) !in pending
      modifies this
      ensures d == Decide(old(pending), session, tool, true, args) && pending == Consume(old(pending), d)
    {
      var candidates := FindPendingForTool(session, tool, args);
      EnumerationSize(candidates, Narrow(OfTool(pending, session, tool), args));
      if |candidates| == 1 {
        var matched := candidates[0];
        SingletonChoice(candidates, Narrow(OfTool(pending, session, tool), args));
        d := Run(pending[matched].args[CONFIRMED := Bool(true)], Some(matched));
        pending := pending - {matched};
      } else if |candidates| > 1 {
        d := Ambiguous;
      } else {
        d := Unmatched;
      }
    }

    /** From the start of a call to the point where the tool body is awaited, or the call refused. */
    method Begin(now: int, session: string, tool: string, destructive: bool, args: Args) returns (d: Decision)
      modifies this
      ensures d == Decide(Prune(old(pending), now), session, tool, destructive, args)
      ensures pending == Consume(Prune(old(pending), now), d)
    {
      PruneExpired(now);
      d := Run(args, None);
      if destructive && Confirmed(args) {
        var strict := Key(session, tool, HashArgs(args));
        if strict in pending {
          d := Run(args, Some(strict));
          pending := pending - {strict};
        } else {
          d := FallBack(session, tool, args);
        }
      }
    }

    /** From the return of the tool body on: `asks` is whether its result requires confirmation. */
    method Finish(now: int, session: string, tool: string, destructive: bool, args: Args, asks: bool)
      modifies this
      ensures pending == Register(old(pending), now, session, tool, destructive, args, asks)
    {
      if asks && destructive {
        pending := pending[Key(session, tool, HashArgs(args)) := Entry(now + PENDING_TTL_SECONDS, args)];
      }
    }
  }

  lemma {:induction false} SingletonChoice(keys: seq<Key>, c: set<Key>)
    requires |keys| == 1 && Enumerates(keys, c)
    ensures c == {keys[0]}
  {
    assert keys[0] in c;
    forall k ensures k in c <==> k == keys[0] {
      if k in c {
        assert k in keys;
      }
    }
  }

  // ---------- Sorting candidates by score (stable, best first) ----------

  function InsertByScore(k: Key, sorted: seq<Key>, p: Registry, current: Args): (r: seq<Key>)
    requires k in p && forall x :: x in sorted ==> x in p
    ensures forall x :: x in r <==> x == k || x in sorted
    ensures |r| == |sorted| + 1
  {
    if sorted == [] || Score(current, p[sorted[0]].args) <= Score(current, p[k].args) then
      [k] + sorted
    else
      assert sorted == [sorted[0]] + sorted[1..];
      [sorted[0]] + InsertByScore(k, sorted[1..], p, current)
  }

  function SortByScore(keys: seq<Key>, p: Registry, current: Args): (r: seq<Key>)
    requires forall x :: x in keys ==> x in p
    ensures forall x :: x in r <==> x in keys
    ensures |r| == |keys|
  {
    if keys == [] then [] else
      assert keys == [keys[0]] + keys[1..];
      InsertByScore(keys[0], SortByScore(keys[1..], p, current), p, current)
  }

  ghost predicate Descending(keys: seq<Key>, p: Registry, current: Args)
    requires forall x :: x in keys ==> x in p
  {
    && (forall i, j :: 0 <= i < j < |keys| ==> keys[i] != keys[j])
    && (forall i, j :: 0 <= i < j < |keys| ==> Score(current, p[keys[i]].args) >= Score(current, p[keys[j]].args))
  }

  lemma {:induction false} ConsDescending(h: Key, t: seq<Key>, p: Registry, current: Args)
    requires h in p && (forall x :: x in t ==> x in p) && Descending(t, p, current)
    requires forall x :: x in t ==> x != h && Score(current, p[h].args) >= Score(current, p[x].args)
    ensures Descending([h] + t, p, current)
  {
  }

  lemma {:induction false} TailDescending(keys: seq<Key>, p: Registry, current: Args)
    requires keys != [] && (forall x :: x in keys ==> x in p) && Descending(keys, p, current)
    ensures forall x :: x in keys[1..] ==>
      x in p && x != keys[0] && Score(current, p[keys[0]].args) >= Score(current, p[x].args)
    ensures Descending(keys[1..], p, current)
  {
    assert forall x :: x in keys[1..] ==> x in keys;
  }

  lemma {:induction false} InsertDescending(k: Key, sorted: seq<Key>, p: Registry, current: Args)
    requires k in p && k !in sorted && forall x :: x in sorted ==> x in p
    requires Descending(sorted, p, current)
    ensures Descending(InsertByScore(k, sorted, p, current), p, current)
    decreases |sorted|
  {
    if sorted == [] {
    } else if Score(current, p[sorted[0]].args) <= Score(current, p[k].args) {
      ConsDescending(k, sorted, p, current);
    } else {
      var h, t := sorted[0], sorted[1..];
      TailDescending(sorted, p, current);
      InsertDescending(k, t, p, current);
      ConsDescending(h, InsertByScore(k, t, p, current), p, current);
    }
  }

  lemma {:induction false} SortDescending(keys: seq<Key>, p: Registry, current: Args)
    requires forall x :: x in keys ==> x in p
    requires forall i, j :: 0 <= i < j < |keys| ==> keys[i] != keys[j]
    ensures Descending(SortByScore(keys, p, current), p, current)
    decreases |keys|
  {
    if keys != [] {
      SortDescending(keys[1..], p, current);
      InsertDescending(keys[0], SortByScore(keys[1..], p, current), p, current);
    }
  }

  lemma {:induction false} SecondBest(keys: seq<Key>, p: Registry, current: Args)
    requires forall x :: x in keys ==> x in p
    requires |keys| >= 2 && forall i, j :: 0 <= i < j < |keys| ==> keys[i] != keys[j]
    ensures var s := SortByScore(keys, p, current);
            && s[0] in keys && s[1] in keys && s[0] != s[1]
            && Score(current, p[s[0]].args) >= Score(current, p[s[1]].args)
            && forall k :: k in keys && k != s[0] ==> Score(current, p[k].args) <= Score(current, p[s[1]].args)
  {
    var s := SortByScore(keys, p, current);
    SortDescending(keys, p, current);
    assert s[0] in s && s[1] in s;
    forall k | k in keys && k != s[0] ensures Score(current, p[k].args) <= Score(current, p[s[1]].args) {
      assert k in s;
      var i :| 0 <= i < |s| && s[i] == k;
      assert i >= 1;
    }
  }

  /** The strict-lead test on the two best candidates finds the unique best one, if there is one. */
  lemma {:induction false} LeadDecides(c: Registry, current: Args, first: Key, second: Key)
    requires first in c && second in c && first != second
    requires Score(current, c[first].args) >= Score(current, c[second].args)
    requires forall k :: k in c && k != first ==> Score(current, c[k].args) <= Score(current, c[second].args)
    requires |c| > 1 && current != map[]
    ensures Narrow(c, current) ==
            if Score(current, c[first].args) > 0
               && Score(current, c[first].args) > Score(current, c[second].args)
            then {first} else c.Keys
  {
    forall k | k in c && k != first ensures !UniqueBest(c, current, k) {
      assert Score(current, c[first].args) >= Score(current, c[k].args);
    }
    if Score(current, c[first].args) > 0 && Score(current, c[first].args) > Score(current, c[second].args) {
      assert UniqueBest(c, current, first);
    }
  }
}
