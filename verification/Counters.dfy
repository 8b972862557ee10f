/** The `counter[key] = counter.get(key, 0) + 1` idiom and the total of such a counter. */
module Counters {

  function Get(m: map<string, nat>, key: string): nat {
    if key in m then m[key] else 0
  }

  function Bump(m: map<string, nat>, key: string): map<string, nat> {
    m[key := Get(m, key) + 1]
  }

  ghost function Sum(m: map<string, nat>): nat {
    if m == map[] then 0
    else
      var key :| key in m;
      m[key] + Sum(m - {key})
  }

  lemma {:induction false} SumWithout(m: map<string, nat>, key: string)
    requires key in m
    ensures Sum(m) == m[key] + Sum(m - {key})
    decreases |m|
  {
    var first :| first in m && Sum(m) == m[first] + Sum(m - {first});
    if first != key {
      SumWithout(m - {first}, key);
      SumWithout(m - {key}, first);
      assert m - {first} - {key} == m - {key} - {first};
    }
  }

  lemma {:induction false} SumSet(m: map<string, nat>, key: string, value: nat)
    ensures Sum(m[key := value]) + Get(m, key) == Sum(m) + value
  {
    SumWithout(m[key := value], key);
    if key in m {
      SumWithout(m, key);
      assert m[key := value] - {key} == m - {key};
    } else {
      assert m[key := value] - {key} == m;
    }
  }

  lemma {:induction false} SumBump(m: map<string, nat>, key: string)
    ensures Sum(Bump(m, key)) == Sum(m) + 1
  {
    SumSet(m, key, Get(m, key) + 1);
  }
}
