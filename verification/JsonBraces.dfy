/**
 The bracket scanner of llm/json_extract.py, which cuts the first balanced block out of the
 text a language model returned.

 The scanner counts; what it is for is bracket trees.  Both views are defined here and proved
 equivalent: a slice is what the scanner returns exactly when it is the printed form of a tree
 that starts at the first opening bracket.
 */
module JsonBraces {
  import opened Options

  // ---------- Counting ----------

  function Weight(ch: char, open: char, close: char): int {
    if ch == open then 1 else if ch == close then -1 else 0
  }

  /** Openings minus closings. */
  function Depth(s: string, open: char, close: char): int {
    if s == [] then 0 else Depth(s[..|s| - 1], open, close) + Weight(s[|s| - 1], open, close)
  }

  /** Opens, and returns to depth 0 at its last character for the first time. */
  ghost predicate Balanced(s: string, open: char, close: char) {
    && s != [] && s[0] == open
    && Depth(s, open, close) == 0
    && forall k :: 0 < k < |s| ==> Depth(s[..k], open, close) > 0
  }

  /** `slice` is a balanced block that starts at the first opening bracket of `text`. */
  ghost predicate IsFirstBlock(text: string, open: char, close: char, slice: string) {
    && Balanced(slice, open, close)
    && exists start :: 0 <= start <= |text| && open !in text[..start] && slice <= text[start..]
  }

  ghost predicate ScanResult(text: string, open: char, close: char, r: Option<string>) {
    match r
    case Some(slice) => IsFirstBlock(text, open, close, slice)
    case None => forall slice :: !IsFirstBlock(text, open, close, slice)
  }

  method FindBalancedBraces(text: string, open: char, close: char) returns (r: Option<string>)
    ensures ScanResult(text, open, close, r)
  {
    var start := 0;
    while start < |text| && text[start] != open
      invariant start <= |text| && open !in text[..start]
    {
      start := start + 1;
    }
    if start == |text| {
      NoOpening(text, open, close);
      return None;
    }
    ghost var rest := text[start..];
    var depth := 0;
    for i := start to |text|
      invariant depth == Depth(rest[..i - start], open, close)
      invariant forall k :: 0 < k <= i - start ==> Depth(rest[..k], open, close) > 0
    {
      assert rest[..i + 1 - start][..i - start] == rest[..i - start];
      if text[i] == open {
        depth := depth + 1;
      } else if text[i] == close {
        depth := depth - 1;
        if depth == 0 {
          CutIsFirstBlock(text, open, close, start, i + 1);
          return Some(text[start..i + 1]);
        }
      }
    }
    NeverCloses(text, open, close, start);
    r := None;
  }

  /** Where a first block lies in the text. */
  lemma {:induction false} LocateBlock(text: string, open: char, close: char, slice: string) returns (start: nat)
    requires IsFirstBlock(text, open, close, slice)
    ensures start + |slice| <= |text| && slice == text[start..][..|slice|]
    ensures text[start] == open && forall i :: 0 <= i < start ==> text[i] != open
  {
    start :| 0 <= start <= |text| && open !in text[..start] && slice <= text[start..];
    assert text[start] == text[start..][0] == slice[0];
    BeforeFirst(text, open, start);
  }

  lemma {:induction false} BeforeFirst(text: string, open: char, start: nat)
    requires start <= |text| && open !in text[..start]
    ensures forall i :: 0 <= i < start ==> text[i] != open
  {
    forall i | 0 <= i < start ensures text[i] != open {
      assert text[..start][i] == text[i];
    }
  }

  lemma {:induction false} NoOpening(text: string, open: char, close: char)
    requires open !in text
    ensures ScanResult(text, open, close, None)
  {
    forall slice ensures !IsFirstBlock(text, open, close, slice) {
      if IsFirstBlock(text, open, close, slice) {
        var start := LocateBlock(text, open, close, slice);
      }
    }
  }

  lemma {:induction false} CutIsFirstBlock(text: string, open: char, close: char, start: nat, end: nat)
    requires start < end <= |text| && open !in text[..start] && text[start] == open
    requires Depth(text[start..][..end - start], open, close) == 0
    requires forall k :: 0 < k < end - start ==> Depth(text[start..][..k], open, close) > 0
    ensures IsFirstBlock(text, open, close, text[start..end])
  {
    var slice := text[start..end];
    assert slice == text[start..][..end - start];
    forall k | 0 < k < |slice| ensures Depth(slice[..k], open, close) > 0 {
      assert slice[..k] == text[start..][..k];
    }
  }

  lemma {:induction false} NeverCloses(text: string, open: char, close: char, start: nat)
    requires start < |text| && open !in text[..start] && text[start] == open
    requires forall k :: 0 < k <= |text| - start ==> Depth(text[start..][..k], open, close) > 0
    ensures ScanResult(text, open, close, None)
  {
    BeforeFirst(text, open, start);
    forall slice ensures !IsFirstBlock(text, open, close, slice) {
      if IsFirstBlock(text, open, close, slice) {
        var from := LocateBlock(text, open, close, slice);
      }
    }
  }

  /** At most one slice qualifies, so the scanner's answer is determined by the text. */
  lemma {:induction false} FirstBlockIsUnique(text: string, open: char, close: char, s1: string, s2: string)
    requires IsFirstBlock(text, open, close, s1) && IsFirstBlock(text, open, close, s2)
    ensures s1 == s2
  {
    var a := LocateBlock(text, open, close, s1);
    var b := LocateBlock(text, open, close, s2);
    assert a == b;
    assert |s1| <= |s2| ==> s1 == s2[..|s1|];
    assert |s2| <= |s1| ==> s2 == s1[..|s2|];
  }

  // ---------- Bracket trees ----------

  datatype Item = Filler(ch: char) | Block(body: Items)
  datatype Items = Nil | Cons(head: Item, tail: Items)

  function Print(item: Item, open: char, close: char): string {
    match item
    case Filler(ch) => [ch]
    case Block(body) => [open] + PrintAll(body, open, close) + [close]
  }

  function PrintAll(items: Items, open: char, close: char): string {
    match items
    case Nil => []
    case Cons(head, tail) => Print(head, open, close) + PrintAll(tail, open, close)
  }

  predicate WellFormed(item: Item, open: char, close: char) {
    match item
    case Filler(ch) => ch != open && ch != close
    case Block(body) => WellFormedAll(body, open, close)
  }

  predicate WellFormedAll(items: Items, open: char, close: char) {
    match items
    case Nil => true
    case Cons(head, tail) => WellFormed(head, open, close) && WellFormedAll(tail, open, close)
  }

  /** The text between two matching brackets: depth 0 overall and never negative. */
  ghost predicate Nested(s: string, open: char, close: char) {
    && Depth(s, open, close) == 0
    && forall k :: 0 <= k <= |s| ==> Depth(s[..k], open, close) >= 0
  }

  lemma {:induction false} DepthConcat(x: string, y: string, open: char, close: char)
    ensures Depth(x + y, open, close) == Depth(x, open, close) + Depth(y, open, close)
    decreases |y|
  {
    if y == [] {
      assert x + y == x;
    } else {
      assert (x + y)[..|x + y| - 1] == x + y[..|y| - 1];
      DepthConcat(x, y[..|y| - 1], open, close);
    }
  }

  lemma {:induction false} DepthOne(ch: char, open: char, close: char)
    ensures Depth([ch], open, close) == Weight(ch, open, close)
  {
    assert [ch][..0] == [];
  }

  lemma {:induction false} NestedConcat(x: string, y: string, open: char, close: char)
    requires Nested(x, open, close) && Nested(y, open, close)
    ensures Nested(x + y, open, close)
  {
    DepthConcat(x, y, open, close);
    forall k | 0 <= k <= |x + y| ensures Depth((x + y)[..k], open, close) >= 0 {
      if k <= |x| {
        assert (x + y)[..k] == x[..k];
      } else {
        assert (x + y)[..k] == x + y[..k - |x|];
        DepthConcat(x, y[..k - |x|], open, close);
      }
    }
  }

  lemma {:induction false} WrapIsBalanced(inner: string, open: char, close: char)
    requires open != close && Nested(inner, open, close)
    ensures Balanced([open] + inner + [close], open, close)
  {
    var s := [open] + inner + [close];
    DepthOne(open, open, close);
    DepthOne(close, open, close);
    DepthConcat([open], inner, open, close);
    DepthConcat([open] + inner, [close], open, close);
    forall k | 0 < k < |s| ensures Depth(s[..k], open, close) > 0 {
      assert s[..k] == [open] + inner[..k - 1];
      DepthConcat([open], inner[..k - 1], open, close);
    }
  }

  lemma {:induction false} BalancedIsNested(s: string, open: char, close: char)
    requires Balanced(s, open, close)
    ensures Nested(s, open, close)
  {
    forall k | 0 <= k <= |s| ensures Depth(s[..k], open, close) >= 0 {
      if k == |s| {
        assert s[..k] == s;
      } else if k == 0 {
        assert s[..k] == [];
      }
    }
  }

  lemma {:induction false} PrintAllIsNested(items: Items, open: char, close: char)
    requires open != close && WellFormedAll(items, open, close)
    ensures Nested(PrintAll(items, open, close), open, close)
    decreases items
  {
    match items
    case Nil =>
    case Cons(head, tail) =>
      PrintAllIsNested(tail, open, close);
      match head {
        case Filler(ch) =>
          DepthOne(ch, open, close);
          assert Nested([ch], open, close) by {
            assert [ch][..0] == [] && [ch][..1] == [ch];
          }
        case Block(body) =>
          PrintAllIsNested(body, open, close);
          WrapIsBalanced(PrintAll(body, open, close), open, close);
          BalancedIsNested(Print(head, open, close), open, close);
      }
      NestedConcat(Print(head, open, close), PrintAll(tail, open, close), open, close);
  }

  /**
   Round trip: printing a tree after any text without an opening bracket, and before any text
   at all, scanning returns exactly the printed tree.
   */
  lemma {:induction false} ScanRecoversPrintedTree(
      noise: string, body: Items, suffix: string, open: char, close: char, r: Option<string>)
    requires open != close && open !in noise && WellFormedAll(body, open, close)
    requires ScanResult(noise + Print(Block(body), open, close) + suffix, open, close, r)
    ensures r == Some(Print(Block(body), open, close))
  {
    var printed := Print(Block(body), open, close);
    var text := noise + printed + suffix;
    PrintAllIsNested(body, open, close);
    WrapIsBalanced(PrintAll(body, open, close), open, close);
    assert text[..|noise|] == noise && text[|noise|..] == printed + suffix;
    assert IsFirstBlock(text, open, close, printed);
    assert r.Some?;
    FirstBlockIsUnique(text, open, close, printed, r.value);
  }

  /** The inside of a balanced block is nested. */
  lemma {:induction false} UnwrapBalanced(s: string, open: char, close: char) returns (inner: string)
    requires open != close && Balanced(s, open, close)
    ensures s == [open] + inner + [close] && Nested(inner, open, close)
  {
    var n := |s|;
    DepthOne(open, open, close);
    assert s == [open] || n >= 2;
    inner := s[1..n - 1];
    assert s[n - 1] == close;
    assert s[..n - 1] == [open] + inner;
    DepthConcat([open], inner, open, close);
    forall k | 0 <= k <= |inner| ensures Depth(inner[..k], open, close) >= 0 {
      assert s[..k + 1] == [open] + inner[..k];
      DepthConcat([open], inner[..k], open, close);
    }
  }

  /** A nested text that starts with an opening bracket splits after its first block. */
  lemma {:induction false} SplitFirstBlock(s: string, open: char, close: char) returns (k: nat)
    requires open != close && Nested(s, open, close) && s != [] && s[0] == open
    ensures 0 < k <= |s| && Balanced(s[..k], open, close) && Nested(s[k..], open, close)
  {
    k := 1;
    DepthOne(open, open, close);
    assert s[..1] == [open] && s[..|s|] == s;
    while Depth(s[..k], open, close) != 0
      invariant 0 < k <= |s|
      invariant forall j :: 0 < j < k ==> Depth(s[..j], open, close) > 0
      decreases |s| - k
    {
      k := k + 1;
    }
    forall j | 0 < j < k ensures Depth(s[..k][..j], open, close) > 0 {
      assert s[..k][..j] == s[..j];
    }
    NestedRest(s, k, open, close);
  }

  lemma {:induction false} NestedRest(s: string, k: nat, open: char, close: char)
    requires k <= |s| && Nested(s, open, close) && Depth(s[..k], open, close) == 0
    ensures Nested(s[k..], open, close)
  {
    assert s == s[..k] + s[k..];
    DepthConcat(s[..k], s[k..], open, close);
    forall j | 0 <= j <= |s[k..]| ensures Depth(s[k..][..j], open, close) >= 0 {
      assert s[..k + j] == s[..k] + s[k..][..j];
      DepthConcat(s[..k], s[k..][..j], open, close);
    }
  }

  lemma {:induction false} ParseNested(s: string, open: char, close: char) returns (items: Items)
    requires open != close && Nested(s, open, close)
    ensures WellFormedAll(items, open, close) && PrintAll(items, open, close) == s
    decreases |s|
  {
    if s == [] {
      items := Nil;
    } else if s[0] == open {
      var k := SplitFirstBlock(s, open, close);
      var inner := UnwrapBalanced(s[..k], open, close);
      var body := ParseNested(inner, open, close);
      var tail := ParseNested(s[k..], open, close);
      items := Cons(Block(body), tail);
      assert s == s[..k] + s[k..];
    } else {
      DepthOne(s[0], open, close);
      assert s[..1] == [s[0]];
      NestedRest(s, 1, open, close);
      var tail := ParseNested(s[1..], open, close);
      items := Cons(Filler(s[0]), tail);
      assert s == [s[0]] + s[1..];
    }
  }

  /** Conversely, whatever the scanner returns is the printed form of some tree. */
  lemma {:induction false} ScanReturnsPrintedTree(text: string, open: char, close: char, slice: string)
    requires open != close && ScanResult(text, open, close, Some(slice))
    ensures exists body :: WellFormedAll(body, open, close) && Print(Block(body), open, close) == slice
  {
    var inner := UnwrapBalanced(slice, open, close);
    var body := ParseNested(inner, open, close);
    assert Print(Block(body), open, close) == slice;
  }

  /** A block comes back whole exactly when brackets nest properly in all of its inside, string literals included. */
  lemma {:induction false} BlockComesBackWholeIff(
      inner: string, suffix: string, open: char, close: char, r: Option<string>)
    requires open != close && ScanResult([open] + inner + [close] + suffix, open, close, r)
    ensures r == Some([open] + inner + [close]) <==> Nested(inner, open, close)
  {
    var whole := [open] + inner + [close];
    var text := whole + suffix;
    if Nested(inner, open, close) {
      WrapIsBalanced(inner, open, close);
      assert text[..0] == [] && text[0..] == whole + suffix;
      assert IsFirstBlock(text, open, close, whole);
      assert r.Some?;
      FirstBlockIsUnique(text, open, close, whole, r.value);
    }
    if r == Some(whole) {
      var inside := UnwrapBalanced(whole, open, close);
      assert inside == whole[1..|whole| - 1] == inner;
    }
  }

  /** A closing brace inside a string literal cuts the object short. */
  lemma {:induction false} BraceInStringCutsObject(r: Option<string>)
    requires ScanResult("{\"}\"}", '{', '}', r)
    ensures r == Some("{\"}")
  {
    var text := "{\"}\"}";
    var body := Cons(Filler('\"'), Nil);
    assert PrintAll(Nil, '{', '}') == "" && PrintAll(body, '{', '}') == "\"";
    assert Print(Block(body), '{', '}') == "{\"}";
    assert text == "" + Print(Block(body), '{', '}') + "\"}";
    ScanRecoversPrintedTree("", body, "\"}", '{', '}', r);
  }
}
