/** Small string scanners used to read a rendered message back. */
module Scan {
  import opened Wrappers

  predicate StartsWith(s: string, p: string) {
    |p| <= |s| && s[..|p|] == p
  }

  /** The text after p, when s begins with p. */
  function StripPrefix(p: string, s: string): (r: Option<string>)
    ensures r.Some? <==> StartsWith(s, p)
    ensures r.Some? ==> s == p + r.value
  {
    if StartsWith(s, p) then Some(s[|p|..]) else None
  }

  lemma StripPrefixOf(p: string, rest: string)
    ensures StripPrefix(p, p + rest) == Some(rest)
  {
    assert (p + rest)[..|p|] == p;
  }

  /** Splits s just before the first occurrence of c (or at its end when c does not occur). */
  function SplitAt(s: string, c: char): (r: (string, string))
    ensures r.0 + r.1 == s
    ensures c !in r.0
    ensures r.1 == [] || r.1[0] == c
  {
    if s == [] || s[0] == c then ([], s)
    else
      var (a, b) := SplitAt(s[1..], c);
      assert [s[0]] + a + b == s;
      ([s[0]] + a, b)
  }

  lemma {:induction false} SplitAtOf(a: string, b: string, c: char)
    requires c !in a
    requires b == [] || b[0] == c
    ensures SplitAt(a + b, c) == (a, b)
  {
    if a == [] {
      assert a + b == b;
    } else {
      assert (a + b)[0] == a[0];
      assert (a + b)[1..] == a[1..] + b;
      SplitAtOf(a[1..], b, c);
      assert [a[0]] + a[1..] == a;
    }
  }

  /** p occurs in s starting at index k. */
  predicate OccursAt(s: string, p: string, k: int) {
    0 <= k && k + |p| <= |s| && s[k..k + |p|] == p
  }

  /** The last index no later than k where p occurs in s, if any. */
  function FindLast(s: string, p: string, k: int): (r: Option<nat>)
    requires k + |p| <= |s|
    ensures r.Some? ==> r.value <= k && OccursAt(s, p, r.value)
    ensures forall j :: (if r.Some? then r.value else -1) < j <= k ==> !OccursAt(s, p, j)
    decreases k + 1
  {
    if k < 0 then None
    else if s[k..k + |p|] == p then Some(k)
    else FindLast(s, p, k - 1)
  }

  /** Splits s around the last occurrence of p. */
  function SplitLast(p: string, s: string): (r: Option<(string, string)>)
    ensures r.Some? ==> s == r.value.0 + p + r.value.1
    ensures r.Some? ==> forall j :: |r.value.0| < j ==> !OccursAt(s, p, j)
    ensures r.None? ==> forall j :: !OccursAt(s, p, j)
  {
    var k :- FindLast(s, p, |s| - |p|);
    assert s == s[..k] + p + s[k + |p|..] by {
      assert s == s[..k] + s[k..k + |p|] + s[k + |p|..];
    }
    Some((s[..k], s[k + |p|..]))
  }

  lemma SplitLastOf(a: string, p: string, b: string)
    requires forall j :: |a| < j ==> !OccursAt(a + p + b, p, j)
    ensures SplitLast(p, a + p + b) == Some((a, b))
  {
    var s := a + p + b;
    assert OccursAt(s, p, |a|) by {
      assert s[|a|..|a| + |p|] == p;
    }
    var r := SplitLast(p, s);
    assert r.Some?;
    assert |r.value.0| == |a|;
    assert r.value.0 == s[..|a|] == a;
    assert r.value.1 == s[|a| + |p|..] == b;
  }
}
