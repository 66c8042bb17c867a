/** The few string operations of Python that the release and download scripts
    rely on: decimal numerals, `split` and the search for one separator. */
module Text {
  predicate IsDigit(c: char) { '0' <= c <= '9' }

  predicate AllDigits(s: string) { forall i :: 0 <= i < |s| ==> IsDigit(s[i]) }

  predicate Free(s: string, c: char) { c !in s }

  /** `int(s)` of a numeral. */
  function Value(s: string): nat
    requires AllDigits(s)
  {
    if s == "" then 0 else 10 * Value(s[..|s| - 1]) + (s[|s| - 1] as int - '0' as int)
  }

  /** `str(n)`. */
  function Decimal(n: nat): string {
    var digit := ['0' + (n % 10) as char];
    if n < 10 then digit else Decimal(n / 10) + digit
  }

  lemma {:induction false} DecimalRoundTrip(n: nat)
    ensures Decimal(n) != "" && AllDigits(Decimal(n)) && Value(Decimal(n)) == n
  {
    if n >= 10 {
      DecimalRoundTrip(n / 10);
      var s := Decimal(n);
      assert s[..|s| - 1] == Decimal(n / 10);
    } else {
      assert Decimal(n)[..0] == "";
    }
  }

  /** Cutting digits off a numeral divides its value, so it shrinks unless it is zero. */
  lemma {:induction false} ShorterNumeral(s: string, k: nat)
    requires AllDigits(s) && k <= |s|
    ensures Value(s[..k]) <= Value(s)
    ensures k < |s| ==> (Value(s[..k]) == Value(s) <==> Value(s) == 0)
  {
    if k < |s| {
      var init := s[..|s| - 1];
      ShorterNumeral(init, k);
      assert init[..k] == s[..k];
    } else {
      assert s[..k] == s;
    }
  }

  /** `s.split(c)`. */
  function Split(s: string, c: char): (parts: seq<string>)
    ensures |parts| >= 1
  {
    if s == "" then [""]
    else if s[0] == c then [""] + Split(s[1..], c)
    else
      var rest := Split(s[1..], c);
      [[s[0]] + rest[0]] + rest[1..]
  }

  function Join(parts: seq<string>, c: char): string
    requires |parts| >= 1
  {
    if |parts| == 1 then parts[0] else parts[0] + [c] + Join(parts[1..], c)
  }

  lemma {:induction false} JoinSplit(s: string, c: char)
    ensures Join(Split(s, c), c) == s
  {
    if s != "" {
      JoinSplit(s[1..], c);
      var rest := Split(s[1..], c);
      if s[0] == c {
        assert Split(s, c)[1..] == rest;
      } else {
        assert Split(s, c)[1..] == rest[1..];
      }
    }
  }

  /** `p` lists the leading parts of `q`, its last part possibly cut short. */
  ghost predicate Truncates(p: seq<string>, q: seq<string>) {
    && 1 <= |p| <= |q|
    && (forall i :: 0 <= i < |p| - 1 ==> p[i] == q[i])
    && p[|p| - 1] <= q[|p| - 1]
  }

  lemma {:induction false} SplitPrefix(s: string, k: nat, c: char)
    requires k <= |s|
    ensures Truncates(Split(s[..k], c), Split(s, c))
  {
    if k > 0 {
      SplitPrefix(s[1..], k - 1, c);
      assert s[..k][1..] == s[1..][..k - 1];
      var p, q := Split(s[1..][..k - 1], c), Split(s[1..], c);
      if s[0] == c {
        assert Split(s[..k], c) == [""] + p && Split(s, c) == [""] + q;
      } else {
        assert Split(s[..k], c) == [[s[0]] + p[0]] + p[1..] && Split(s, c) == [[s[0]] + q[0]] + q[1..];
      }
    }
  }

  /** The last separator determines both sides of a concatenation. */
  lemma {:induction false} LastSeparator(a: string, b: string, a': string, b': string, c: char)
    requires a + [c] + b == a' + [c] + b'
    requires Free(b, c) && Free(b', c)
    ensures a == a' && b == b'
  {
    var s, s' := a + [c] + b, a' + [c] + b';
    assert s[|a|] == c && s'[|a'|] == c;
    assert forall i :: |a| < i < |s| ==> s[i] == b[i - |a| - 1];
    assert forall i :: |a'| < i < |s'| ==> s'[i] == b'[i - |a'| - 1];
    assert a == s[..|a|] && a' == s'[..|a'|];
    assert b == s[|a| + 1..] && b' == s'[|a'| + 1..];
  }

  /** So does the first one. */
  lemma {:induction false} FirstSeparator(a: string, a': string, c: char, s: string)
    requires Free(a, c) && Free(a', c) && a + [c] <= s && a' + [c] <= s
    ensures a == a'
  {
    assert s[|a|] == c && s[|a'|] == c;
    assert forall i :: 0 <= i < |a| ==> s[i] == a[i];
    assert forall i :: 0 <= i < |a'| ==> s[i] == a'[i];
  }
}
