/**
 The dedupe key of alerts/dedupe.py: a digest of `customer::indicator::asset`.

 Indicators may contain colons themselves (URLs, IPv6 addresses); the text is proved to determine
 its parts all the same.  The digest of the text is taken as injective, and `lower` stands for
 Python's `lower()`.
 */
module DedupeKey {
  import opened Options

  function Digit(d: nat): char
    requires d < 10
  {
    "0123456789"[d]
  }

  function Decimal(n: nat): (s: string)
    ensures s != []
  {
    if n < 10 then [Digit(n)] else Decimal(n / 10) + [Digit(n % 10)]
  }

  /** Python's `str(n)`. */
  function IntText(n: int): (s: string)
    ensures s != []
  {
    if n < 0 then "-" + Decimal(-n) else Decimal(n)
  }

  /** Python's `asset_id or ''`: no asset and asset 0 read the same. */
  function AssetText(asset: Option<nat>): string {
    if asset == None || asset.value == 0 then "" else Decimal(asset.value)
  }

  function RawKey(lower: string -> string, customer: int, ioc: string, asset: Option<nat>): string {
    IntText(customer) + ("::" + lower(ioc) + "::") + AssetText(asset)
  }

  predicate ColonFree(s: string) {
    ':' !in s
  }

  lemma {:induction false} DecimalStartsWithDigit(n: nat)
    ensures exists d: nat :: d < 10 && Decimal(n)[0] == Digit(d)
    decreases n
  {
    if n >= 10 {
      DecimalStartsWithDigit(n / 10);
    } else {
      assert Decimal(n)[0] == Digit(n);
    }
  }

  lemma {:induction false} IntTextIsColonFree(n: int)
    ensures ColonFree(IntText(n))
  {
    DecimalIsColonFree(if n < 0 then -n else n);
  }

  lemma {:induction false} IntTextIsInjective(n: int, m: int)
    requires IntText(n) == IntText(m)
    ensures n == m
  {
    if n < 0 && m < 0 {
      assert IntText(n)[1..] == Decimal(-n) && IntText(m)[1..] == Decimal(-m);
      DecimalIsInjective(-n, -m);
    } else if n >= 0 && m >= 0 {
      DecimalIsInjective(n, m);
    } else {
      DecimalStartsWithDigit(if n < 0 then m else n);
    }
  }

  lemma {:induction false} DecimalIsColonFree(n: nat)
    ensures ColonFree(Decimal(n))
    decreases n
  {
    if n >= 10 {
      DecimalIsColonFree(n / 10);
    }
  }

  lemma {:induction false} DigitsDiffer(d: nat, e: nat)
    requires d < 10 && e < 10 && Digit(d) == Digit(e)
    ensures d == e
  {
  }

  lemma {:induction false} DecimalIsInjective(n: nat, m: nat)
    requires Decimal(n) == Decimal(m)
    ensures n == m
    decreases n
  {
    var s, t := Decimal(n), Decimal(m);
    if n < 10 || m < 10 {
      assert n < 10 && m < 10 by {
        assert |s| == |t|;
      }
      assert s[0] == Digit(n) && t[0] == Digit(m);
      DigitsDiffer(n, m);
    } else {
      assert s[|s| - 1] == Digit(n % 10) && t[|t| - 1] == Digit(m % 10);
      DigitsDiffer(n % 10, m % 10);
      assert s[..|s| - 1] == Decimal(n / 10) && t[..|t| - 1] == Decimal(m / 10);
      DecimalIsInjective(n / 10, m / 10);
    }
  }

  /** Two texts that begin with a colon after a colon-free part split at the same place. */
  lemma {:induction false} SplitAtFirstColon(x: string, r: string, y: string, s: string)
    requires ColonFree(x) && ColonFree(y) && r != [] && s != [] && r[0] == ':' == s[0]
    requires x + r == y + s
    ensures x == y && r == s
  {
    assert (x + r)[|x|] == ':' && (y + s)[|y|] == ':';
    assert forall k :: 0 <= k < |x| ==> (x + r)[k] == x[k] && x[k] != ':';
    assert forall k :: 0 <= k < |y| ==> (y + s)[k] == y[k] && y[k] != ':';
    assert |x| == |y|;
    assert x == (x + r)[..|x|] && y == (y + s)[..|y|];
    assert r == (x + r)[|x|..] && s == (y + s)[|y|..];
  }

  lemma {:induction false} SplitAtLastColon(r: string, x: string, s: string, y: string)
    requires ColonFree(x) && ColonFree(y) && r != [] && s != []
    requires r[|r| - 1] == ':' == s[|s| - 1] && r + x == s + y
    ensures r == s && x == y
  {
    var t := r + x;
    assert t[|r| - 1] == ':' && t[|s| - 1] == ':';
    assert forall k :: |r| <= k < |t| ==> t[k] == x[k - |r|] && t[k] != ':';
    assert forall k :: |s| <= k < |t| ==> (s + y)[k] == y[k - |s|] && t[k] != ':';
    assert |r| == |s|;
    assert r == t[..|r|] && s == (s + y)[..|s|];
    assert x == t[|r|..] && y == (s + y)[|s|..];
  }

  /** Equal keys mean the same customer, the same lower-cased indicator and the same asset, and conversely. */
  lemma {:induction false} KeyIdentifiesAlert(
      lower: string -> string,
      customer1: int, ioc1: string, asset1: Option<nat>, customer2: int, ioc2: string, asset2: Option<nat>)
    ensures RawKey(lower, customer1, ioc1, asset1) == RawKey(lower, customer2, ioc2, asset2) <==>
            && customer1 == customer2 && lower(ioc1) == lower(ioc2)
            && (asset1 == asset2 || (asset1 in {None, Some(0)} && asset2 in {None, Some(0)}))
  {
    if RawKey(lower, customer1, ioc1, asset1) == RawKey(lower, customer2, ioc2, asset2) {
      var m1, m2 := "::" + lower(ioc1) + "::", "::" + lower(ioc2) + "::";
      var a1, a2 := AssetText(asset1), AssetText(asset2);
      AssetTextIsColonFree(asset1);
      AssetTextIsColonFree(asset2);
      var c1, c2 := IntText(customer1), IntText(customer2);
      IntTextIsColonFree(customer1);
      IntTextIsColonFree(customer2);
      assert c1 + m1 + a1 == c1 + (m1 + a1) && c2 + m2 + a2 == c2 + (m2 + a2);
      SplitAtFirstColon(c1, m1 + a1, c2, m2 + a2);
      IntTextIsInjective(customer1, customer2);
      SplitAtLastColon(m1, a1, m2, a2);
      assert lower(ioc1) == m1[2..|m1| - 2] && lower(ioc2) == m2[2..|m2| - 2];
      AssetTextDetermines(asset1, asset2);
    }
  }

  lemma {:induction false} AssetTextIsColonFree(asset: Option<nat>)
    ensures ColonFree(AssetText(asset))
  {
    if asset.Some? && asset.value != 0 {
      DecimalIsColonFree(asset.value);
    }
  }

  lemma {:induction false} AssetTextDetermines(asset1: Option<nat>, asset2: Option<nat>)
    requires AssetText(asset1) == AssetText(asset2)
    ensures asset1 == asset2 || (asset1 in {None, Some(0)} && asset2 in {None, Some(0)})
  {
    if asset1.Some? && asset1.value != 0 && asset2.Some? && asset2.value != 0 {
      DecimalIsInjective(asset1.value, asset2.value);
    }
  }
}
