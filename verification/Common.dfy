/** Values and string helpers shared by the whole model: PHP's notion of an
    "empty" (falsy) string, Laravel's `blank`, PHP's default `trim`, ASCII
    lower-casing, and the first-occurrence `unique` of Laravel collections. */
module Common {

  datatype Option<T> = None | Some(value: T) {
    /** `$x ?? $default` */
    function GetOr(default: T): T {
      match this
      case Some(v) => v
      case None => default
    }
  }

  function Lookup<K, V>(m: map<K, V>, k: K): (r: Option<V>)
    ensures r.Some? <==> k in m
    ensures r.Some? ==> r.value == m[k]
  {
    if k in m then Some(m[k]) else None
  }

  /** PHP `empty()` / falsiness of a string: "" and "0" are falsy. */
  predicate FalsyString(s: string) {
    s == "" || s == "0"
  }

  /** PHP `empty()` / falsiness of a nullable string column. */
  predicate Falsy(s: Option<string>) {
    s.None? || FalsyString(s.value)
  }

  /** The characters PHP's `trim` strips by default: space, tab, line feed,
      carriage return, NUL and vertical tab. */
  predicate IsTrimChar(c: char) {
    c == ' ' || c == '\t' || c == '\n' || c == '\r' || c == '\0' || c == '\U{000B}'
  }

  function TrimStart(s: string): (r: string)
    ensures |r| <= |s| && r == s[|s| - |r|..]
    ensures r == [] || !IsTrimChar(r[0])
    ensures forall i :: 0 <= i < |s| - |r| ==> IsTrimChar(s[i])
  {
    if s == [] || !IsTrimChar(s[0]) then s else TrimStart(s[1..])
  }

  function TrimEnd(s: string): (r: string)
    ensures |r| <= |s| && r == s[..|r|]
    ensures r == [] || !IsTrimChar(r[|r| - 1])
    ensures forall i :: |r| <= i < |s| ==> IsTrimChar(s[i])
  {
    if s == [] || !IsTrimChar(s[|s| - 1]) then s else TrimEnd(s[..|s| - 1])
  }

  /** `map()` over a list: `f` applied position by position. */
  function Map<A, B>(f: A -> B, s: seq<A>): (r: seq<B>)
    ensures |r| == |s|
    ensures forall i :: 0 <= i < |s| ==> r[i] == f(s[i])
  {
    if s == [] then [] else [f(s[0])] + Map(f, s[1..])
  }

  /** Mapping a list with one more element appends that element's image. */
  lemma {:induction false} MapAppend<A, B>(f: A -> B, s: seq<A>, x: A)
    ensures Map(f, s + [x]) == Map(f, s) + [f(x)]
  {
    if s == [] {
      assert [] + [x] == [x];
      assert [x][1..] == [];
    } else {
      assert (s + [x])[1..] == s[1..] + [x];
      MapAppend(f, s[1..], x);
    }
  }

  /** PHP `trim($s)`: the longest infix that neither starts nor ends with a
      trim character. */
  function Trim(s: string): (r: string)
    ensures r == [] || (!IsTrimChar(r[0]) && !IsTrimChar(r[|r| - 1]))
    ensures |r| <= |s|
  {
    var t := TrimStart(s);
    var r := TrimEnd(t);
    assert r != [] ==> r[0] == t[0];
    r
  }

  /** `trim` removes blanks only: the result is the infix left after some
      leading and some trailing trim characters are cut off. */
  lemma {:induction false} TrimRemovesOnlyBlanks(s: string) returns (k: nat)
    ensures k + |Trim(s)| <= |s|
    ensures Trim(s) == s[k..k + |Trim(s)|]
    ensures forall i :: 0 <= i < k ==> IsTrimChar(s[i])
    ensures forall i :: k + |Trim(s)| <= i < |s| ==> IsTrimChar(s[i])
  {
    var t := TrimStart(s);
    k := |s| - |t|;
    var r := TrimEnd(t);
    assert Trim(s) == r;
    assert t == s[k..] && r == t[..|r|];
    assert r == s[k..k + |r|];
    forall i | k + |r| <= i < |s| ensures IsTrimChar(s[i]) {
      assert s[i] == t[i - k];
    }
  }

  lemma {:induction false} TrimStartOfTrimmed(s: string)
    requires s == [] || !IsTrimChar(s[0])
    ensures TrimStart(s) == s
  {
  }

  lemma {:induction false} TrimEndOfTrimmed(s: string)
    requires s == [] || !IsTrimChar(s[|s| - 1])
    ensures TrimEnd(s) == s
  {
  }

  /** Trimming twice is trimming once. */
  lemma TrimIdempotent(s: string)
    ensures Trim(Trim(s)) == Trim(s)
  {
    var t := Trim(s);
    TrimStartOfTrimmed(t);
    TrimEndOfTrimmed(t);
  }

  /** Laravel `blank()` of a string: nothing left after `trim`. */
  predicate Blank(s: string) {
    Trim(s) == ""
  }

  /** Laravel `blank()` of a nullable string. */
  predicate BlankOpt(s: Option<string>) {
    s.None? || Blank(s.value)
  }

  function LowerChar(c: char): (r: char)
    ensures !('A' <= r <= 'Z')
    ensures !('A' <= c <= 'Z') ==> r == c
  {
    if 'A' <= c <= 'Z' then (c as int + 32) as char else c
  }

  predicate IsLowerCase(s: string) {
    forall i :: 0 <= i < |s| ==> !('A' <= s[i] <= 'Z')
  }

  /** `Str::lower` on the ASCII range. */
  function Lower(s: string): (r: string)
    ensures |r| == |s| && IsLowerCase(r)
    ensures forall i :: 0 <= i < |s| ==> r[i] == LowerChar(s[i])
  {
    seq(|s|, i requires 0 <= i < |s| => LowerChar(s[i]))
  }

  lemma LowerIdempotent(s: string)
    ensures Lower(Lower(s)) == Lower(s)
  {
  }

  lemma LowerOfLowerCase(s: string)
    requires IsLowerCase(s)
    ensures Lower(s) == s
  {
  }

  predicate Distinct<T(==)>(s: seq<T>) {
    forall i, j :: 0 <= i < j < |s| ==> s[i] != s[j]
  }

  /** Laravel `Collection::unique()->values()`: the first occurrence of each
      element, in the order of first occurrence. */
  function Unique<T(==,!new)>(s: seq<T>): (r: seq<T>)
    ensures Distinct(r)
    ensures forall x :: x in r <==> x in s
    ensures |r| <= |s|
  {
    if s == [] then []
    else
      var init := Unique(s[..|s| - 1]);
      var last := s[|s| - 1];
      assert forall x :: x in s <==> x in s[..|s| - 1] || x == last;
      if last in init then init else init + [last]
  }

  /** The position of the first occurrence of `x` in `s`. */
  function FirstIndex<T(==)>(s: seq<T>, x: T): (i: nat)
    requires x in s
    ensures i < |s| && s[i] == x && x !in s[..i]
  {
    if s[0] == x then 0
    else
      assert x in s[1..];
      var j := FirstIndex(s[1..], x);
      assert s[..j + 1] == [s[0]] + s[1..][..j];
      j + 1
  }

  /** A first occurrence in a prefix is the first occurrence in the whole. */
  lemma FirstIndexOfPrefix<T>(s: seq<T>, n: nat, x: T)
    requires n <= |s| && x in s[..n]
    ensures FirstIndex(s[..n], x) == FirstIndex(s, x)
  {
    var i := FirstIndex(s[..n], x);
    assert s[..n][..i] == s[..i];
  }

  /** `unique()` keeps each element where it first occurs: the elements of
      the result come in the order of their first occurrence. */
  lemma {:induction false} UniqueKeepsFirstOccurrenceOrder<T(!new)>(s: seq<T>)
    ensures forall i, j :: 0 <= i < j < |Unique(s)| ==> FirstIndex(s, Unique(s)[i]) < FirstIndex(s, Unique(s)[j])
  {
    if s != [] {
      var n := |s| - 1;
      var init := Unique(s[..n]);
      var last := s[n];
      var r := Unique(s);
      UniqueKeepsFirstOccurrenceOrder(s[..n]);
      assert r[..|init|] == init;
      forall i, j | 0 <= i < j < |r|
        ensures FirstIndex(s, r[i]) < FirstIndex(s, r[j])
      {
        assert r[i] == init[i] && init[i] in s[..n];
        FirstIndexOfPrefix(s, n, r[i]);
        if j < |init| {
          assert r[j] == init[j] && init[j] in s[..n];
          assert FirstIndex(s[..n], init[i]) < FirstIndex(s[..n], init[j]);
          FirstIndexOfPrefix(s, n, r[j]);
        } else {
          assert r[j] == last && last !in s[..n];
        }
      }
    }
  }

  lemma LowerCaseSlice(s: string, k: nat, m: nat)
    requires IsLowerCase(s) && k <= m <= |s|
    ensures IsLowerCase(s[k..m])
  {
    assert forall i :: 0 <= i < m - k ==> s[k..m][i] == s[k + i];
  }

  /** Trimming keeps a lower-case string lower-case. */
  lemma TrimKeepsLowerCase(s: string)
    requires IsLowerCase(s)
    ensures IsLowerCase(Trim(s))
  {
    var t := TrimStart(s);
    LowerCaseSlice(s, |s| - |t|, |s|);
    LowerCaseSlice(t, 0, |TrimEnd(t)|);
  }

  /** Removing duplicates from a list that has none leaves it as it is. */
  lemma {:induction false} UniqueOfDistinct<T(!new)>(s: seq<T>)
    requires Distinct(s)
    ensures Unique(s) == s
  {
    if s != [] {
      UniqueOfDistinct(s[..|s| - 1]);
      assert s[|s| - 1] !in s[..|s| - 1];
      assert s[..|s| - 1] + [s[|s| - 1]] == s;
    }
  }

  /** `array_values(array_filter($s, fn ($y) => $y !== $x))` */
  function RemoveAll<T(==,!new)>(s: seq<T>, x: T): (r: seq<T>)
    ensures forall y :: y in r <==> y in s && y != x
    ensures multiset(r) == multiset(s)[x := 0]
    ensures |r| <= |s|
    ensures Distinct(s) ==> Distinct(r)
  {
    if s == [] then []
    else
      var rest := RemoveAll(s[1..], x);
      assert s == [s[0]] + s[1..];
      assert multiset(s) == multiset{s[0]} + multiset(s[1..]);
      assert forall y :: y in s <==> y == s[0] || y in s[1..];
      assert Distinct(s) ==> Distinct(s[1..]) && s[0] !in s[1..] by {
        if Distinct(s) {
          assert forall i, j :: 0 <= i < j < |s[1..]| ==> s[1..][i] == s[i + 1] && s[1..][j] == s[j + 1];
        }
      }
      if s[0] == x then rest
      else
        assert multiset([s[0]] + rest) == multiset{s[0]} + multiset(rest);
        assert Distinct(s) ==> Distinct([s[0]] + rest) by {
          if Distinct(s) { DistinctCons(s[0], rest); }
        }
        [s[0]] + rest
  }

  /** Putting an absent element in front of a duplicate-free list keeps it
      duplicate-free. */
  lemma DistinctCons<T>(x: T, s: seq<T>)
    requires Distinct(s) && x !in s
    ensures Distinct([x] + s)
  {
    var r := [x] + s;
    forall i, j | 0 <= i < j < |r| ensures r[i] != r[j] {
      assert r[j] == s[j - 1];
      if i > 0 { assert r[i] == s[i - 1]; }
    }
  }

  /** Removal works piece by piece, so the kept elements stay in their
      original order. */
  lemma {:induction false} RemoveAllAppend<T(!new)>(a: seq<T>, b: seq<T>, x: T)
    ensures RemoveAll(a + b, x) == RemoveAll(a, x) + RemoveAll(b, x)
  {
    if a != [] {
      assert (a + b)[1..] == a[1..] + b;
      RemoveAllAppend(a[1..], b, x);
    } else {
      assert a + b == b;
    }
  }

  /** `$haystack` contains `$needle` as a contiguous piece. */
  predicate Contains(haystack: string, needle: string) {
    exists k :: 0 <= k <= |haystack| - |needle| && OccursAt(haystack, needle, k)
  }

  predicate OccursAt(haystack: string, needle: string, k: int) {
    0 <= k <= |haystack| - |needle| && haystack[k..k + |needle|] == needle
  }

  /** The first `n` elements (Laravel `limit`/`take`). */
  function Take<T>(s: seq<T>, n: nat): (r: seq<T>)
    ensures |r| == if |s| < n then |s| else n
    ensures r == s[..|r|]
  {
    if |s| <= n then s else s[..n]
  }
}
