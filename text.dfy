/** String helpers: Go's strings.HasPrefix / HasSuffix, substring containment,
    and the decimal rendering that fmt's %d gives a status code. */
module Text {

  predicate HasPrefix(s: string, p: string) {
    |p| <= |s| && s[..|p|] == p
  }

  predicate HasSuffix(s: string, x: string) {
    |x| <= |s| && s[|s| - |x|..] == x
  }

  /** `sub` occurs in `s` starting at index `k`. */
  predicate OccursAt(s: string, sub: string, k: int) {
    0 <= k <= |s| - |sub| && s[k..k + |sub|] == sub
  }

  /** `sub` occurs somewhere in `s` (Go's strings.Contains). */
  ghost predicate Contains(s: string, sub: string) {
    exists k :: OccursAt(s, sub, k)
  }

  lemma PrefixIsContained(s: string, p: string)
    requires HasPrefix(s, p)
    ensures Contains(s, p)
  {
    assert OccursAt(s, p, 0);
  }

  /** Containment survives putting text before and after. */
  lemma ContainedInContext(before: string, s: string, after: string, sub: string)
    requires Contains(s, sub)
    ensures Contains(before + s + after, sub)
  {
    var k :| OccursAt(s, sub, k);
    var t := before + s + after;
    assert t[|before| + k..|before| + k + |sub|] == s[k..k + |sub|];
    assert OccursAt(t, sub, |before| + k);
  }

  lemma ContainedAfter(before: string, s: string, sub: string)
    requires Contains(s, sub)
    ensures Contains(before + s, sub)
  {
    var k :| OccursAt(s, sub, k);
    assert (before + s)[|before| + k..|before| + k + |sub|] == s[k..k + |sub|];
    assert OccursAt(before + s, sub, |before| + k);
  }

  lemma ContainedBefore(s: string, after: string, sub: string)
    requires Contains(s, sub)
    ensures Contains(s + after, sub)
  {
    var k :| OccursAt(s, sub, k);
    assert (s + after)[k..k + |sub|] == s[k..k + |sub|];
    assert OccursAt(s + after, sub, k);
  }

  lemma SelfContained(s: string)
    ensures Contains(s, s)
  {
    assert s[0..|s|] == s;
    assert OccursAt(s, s, 0);
  }

  /** A text contains what it starts with. */
  lemma StartContained(s: string, rest: string)
    ensures Contains(s + rest, s)
  {
    assert (s + rest)[0..|s|] == s;
    assert OccursAt(s + rest, s, 0);
  }

  lemma PrefixOfConcat(p: string, rest: string)
    ensures HasPrefix(p + rest, p)
  {
    assert (p + rest)[..|p|] == p;
  }

  lemma SuffixOfConcat(p: string, rest: string)
    ensures HasSuffix(p + rest, rest)
  {
    assert (p + rest)[|p|..] == rest;
  }

  function DigitChar(d: nat): (c: char)
    requires d < 10
    ensures '0' <= c <= '9'
  {
    "0123456789"[d]
  }

  predicate AllDigits(s: string) {
    forall i :: 0 <= i < |s| ==> '0' <= s[i] <= '9'
  }

  /** Decimal notation of a status code, as `%d` prints it. */
  function Decimal(n: nat): (r: string)
    ensures |r| > 0 && AllDigits(r)
    decreases n
  {
    if n < 10 then [DigitChar(n)] else Decimal(n / 10) + [DigitChar(n % 10)]
  }

  /** The number a string of decimal digits denotes: the partner of Decimal. */
  function DecimalValue(s: string): nat
    requires AllDigits(s)
  {
    if s == [] then 0
    else DecimalValue(s[..|s| - 1]) * 10 + ((s[|s| - 1] as int) - ('0' as int))
  }

  lemma {:induction false} DecimalRoundTrip(n: nat)
    ensures DecimalValue(Decimal(n)) == n
    decreases n
  {
    if n >= 10 {
      DecimalRoundTrip(n / 10);
      var r := Decimal(n);
      assert r[..|r| - 1] == Decimal(n / 10);
    }
  }
}
