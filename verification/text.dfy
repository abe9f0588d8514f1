/** String helpers with the semantics of the JavaScript built-ins the
    notification code relies on: `String.prototype.replace` with a string
    pattern (only the first occurrence is replaced) and
    `Number.prototype.toString` on a non-negative integer below 10^21. */
module Text {
  import opened Wrappers

  /** `pat` occurs in `s` starting at index `i`. */
  ghost predicate OccursAt(s: string, pat: string, i: int) {
    0 <= i && i + |pat| <= |s| && s[i..i + |pat|] == pat
  }

  /** `i` is the least index at which `pat` occurs in `s`. */
  ghost predicate FirstOccurrence(s: string, pat: string, i: int) {
    OccursAt(s, pat, i) && forall j :: 0 <= j < i ==> !OccursAt(s, pat, j)
  }

  /** `s.replace(pat, rep)`: the first occurrence of `pat` is replaced by
      `rep`; without an occurrence `s` comes back unchanged. An empty
      pattern occurs at the very start. `ReplaceFirstAtFirst` and
      `ReplaceFirstNoOccurrence` pin the result down; here: either nothing
      changed, or exactly one `pat` was traded for one `rep`. */
  function ReplaceFirst(s: string, pat: string, rep: string): (r: string)
    ensures r == s || |r| == |s| - |pat| + |rep|
    decreases |s|
  {
    if |s| < |pat| then s
    else if s[..|pat|] == pat then rep + s[|pat|..]
    else [s[0]] + ReplaceFirst(s[1..], pat, rep)
  }

  /** Occurrences in the tail of `s` are occurrences in `s`, one place on. */
  lemma OccursInTail(s: string, pat: string, j: int)
    requires |s| > 0
    requires 0 <= j
    ensures OccursAt(s[1..], pat, j) <==> OccursAt(s, pat, j + 1)
  {
    if 0 <= j && j + |pat| <= |s| - 1 {
      assert s[1..][j..j + |pat|] == s[j + 1..j + 1 + |pat|];
    }
  }

  /** A first occurrence past the start is a first occurrence of the tail,
      one place earlier, and nothing matches at the start. */
  lemma FirstOccurrenceInTail(s: string, pat: string, i: int)
    requires FirstOccurrence(s, pat, i) && i > 0
    ensures |s| >= |pat| && s[..|pat|] != pat
    ensures FirstOccurrence(s[1..], pat, i - 1)
  {
    assert !OccursAt(s, pat, 0);
    OccursInTail(s, pat, i - 1);
    forall j | 0 <= j < i - 1
      ensures !OccursAt(s[1..], pat, j)
    {
      OccursInTail(s, pat, j);
    }
  }

  /** The replacement happens at the first occurrence. */
  lemma {:induction false} ReplaceFirstAtFirst(s: string, pat: string, rep: string, i: int)
    requires FirstOccurrence(s, pat, i)
    ensures ReplaceFirst(s, pat, rep) == s[..i] + rep + s[i + |pat|..]
    decreases |s|
  {
    if i == 0 {
      assert s[..|pat|] == pat;
    } else {
      var t := s[1..];
      FirstOccurrenceInTail(s, pat, i);
      ReplaceFirstAtFirst(t, pat, rep, i - 1);
      calc {
        ReplaceFirst(s, pat, rep);
        [s[0]] + ReplaceFirst(t, pat, rep);
        [s[0]] + (t[..i - 1] + rep + t[i - 1 + |pat|..]);
        { assert [s[0]] + t[..i - 1] == s[..i]; assert t[i - 1 + |pat|..] == s[i + |pat|..]; }
        s[..i] + rep + s[i + |pat|..];
      }
    }
  }

  /** Without an occurrence of `pat` nothing is replaced. */
  lemma {:induction false} ReplaceFirstNoOccurrence(s: string, pat: string, rep: string)
    requires forall j :: !OccursAt(s, pat, j)
    ensures ReplaceFirst(s, pat, rep) == s
    decreases |s|
  {
    if |s| >= |pat| {
      assert !OccursAt(s, pat, 0);
      var t := s[1..];
      forall j | 0 <= j
        ensures !OccursAt(t, pat, j)
      {
        OccursInTail(s, pat, j);
      }
      ReplaceFirstNoOccurrence(t, pat, rep);
      assert [s[0]] + t == s;
    }
  }

  /** An occurrence of `pat` begins with `pat[0]`, so a string that lacks
      that character is left alone. */
  lemma ReplaceFirstAbsent(s: string, pat: string, rep: string)
    requires |pat| > 0 && pat[0] !in s
    ensures ReplaceFirst(s, pat, rep) == s
  {
    forall j | 0 <= j
      ensures !OccursAt(s, pat, j)
    {
      if j + |pat| <= |s| {
        assert s[j..j + |pat|][0] == s[j];
      }
    }
    ReplaceFirstNoOccurrence(s, pat, rep);
  }

  /** When the text before the first `pat` cannot start an occurrence, the
      replacement lands exactly there. */
  lemma ReplaceFirstAfterPrefix(a: string, pat: string, b: string, rep: string)
    requires |pat| > 0 && pat[0] !in a
    ensures ReplaceFirst(a + pat + b, pat, rep) == a + rep + b
  {
    var s := a + pat + b;
    assert s[|a|..|a| + |pat|] == pat;
    forall j | 0 <= j < |a|
      ensures !OccursAt(s, pat, j)
    {
      if j + |pat| <= |s| {
        assert s[j..j + |pat|][0] == s[j] == a[j];
      }
    }
    assert FirstOccurrence(s, pat, |a|);
    ReplaceFirstAtFirst(s, pat, rep, |a|);
    assert s[..|a|] == a;
    assert s[|a| + |pat|..] == b;
  }

  /** `ReplaceFirstAfterPrefix` for a string already known to split as
      `a + pat + b`. */
  lemma ReplaceFirstAt(s: string, a: string, pat: string, b: string, rep: string, r: string)
    requires |pat| > 0 && pat[0] !in a && s == a + pat + b && r == a + rep + b
    ensures ReplaceFirst(s, pat, rep) == r
  {
    ReplaceFirstAfterPrefix(a, pat, b, rep);
  }

  /** A one-character pattern first occurs where its character first
      appears. */
  lemma FirstCharOccurrence(s: string, c: char, i: int)
    requires 0 <= i < |s| && s[i] == c && c !in s[..i]
    ensures FirstOccurrence(s, [c], i)
  {
    assert s[i..i + 1] == [c];
    forall j | 0 <= j < i
      ensures !OccursAt(s, [c], j)
    {
      assert s[..i][j] == s[j];
    }
  }

  predicate IsDigit(c: char) {
    '0' <= c <= '9'
  }

  function DigitChar(d: nat): (c: char)
    requires d < 10
    ensures IsDigit(c)
  {
    ('0' as int + d) as char
  }

  function DigitValue(c: char): (d: nat)
    requires IsDigit(c)
    ensures d < 10 && DigitChar(d) == c
  {
    c as int - '0' as int
  }

  /** The value of a string of decimal digits, most significant first. */
  function DecimalValue(s: string): nat
    requires forall i :: 0 <= i < |s| ==> IsDigit(s[i])
  {
    if |s| == 0 then 0 else DecimalValue(s[..|s| - 1]) * 10 + DigitValue(s[|s| - 1])
  }

  /** `n.toString()` for a non-negative integer below 10^21: decimal digits
      without leading zeros. (From 10^21 on JavaScript writes exponent
      notation; the generator only ever converts 2 to 9.) */
  function NatToDecimal(n: nat): (r: string)
    ensures |r| >= 1 && (n < 10 <==> |r| == 1)
    ensures forall i :: 0 <= i < |r| ==> IsDigit(r[i])
    ensures r[0] == '0' ==> n == 0
    decreases n
  {
    if n < 10 then [DigitChar(n)] else NatToDecimal(n / 10) + [DigitChar(n % 10)]
  }

  /** Reading the digits back gives the number that was written. */
  lemma {:induction false} DecimalRoundTrip(n: nat)
    ensures DecimalValue(NatToDecimal(n)) == n
    decreases n
  {
    var r := NatToDecimal(n);
    if n < 10 {
      assert r[..0] == [];
    } else {
      DecimalRoundTrip(n / 10);
      assert r[..|r| - 1] == NatToDecimal(n / 10);
    }
  }
}
